/**
 Netting the ERC20 transfer logs of a receipt: the loop that folds logs into a per-token map, and
 what its result is as a sum (the Transfer event of the Specification section of EIP-20).
 */
module LogNetting {
  import opened Prelude
  import opened Ledger

  /** A topic as the parser sees it: whether it is the Transfer signature, and the account its low
      twenty bytes name when it is a well-formed 32-byte word. */
  datatype Topic = Topic(isTransfer: bool, account: Option<nat>)

  /** address is none when it is missing or no address; data is none when it is no number. */
  datatype Log = Log(address: Option<Address>, topics: seq<Topic>, data: Option<nat>)

  /** A Transfer log with an emitting contract and a readable amount. */
  predicate Readable(l: Log) {
    l.address.Some? && |l.topics| >= 3 && l.topics[0].isTransfer && l.data.Some?
  }

  predicate From(l: Log, account: nat) {
    Readable(l) && l.topics[1].account == Some(account)
  }

  predicate To(l: Log, account: nat) {
    Readable(l) && l.topics[2].account == Some(account)
  }

  /** What one log adds to an account's holding of a token: in minus out. */
  function Flow(l: Log, account: nat, token: Address): int {
    if !Readable(l) || Checksum(l.address.value) != token then 0
    else (if To(l, account) then l.data.value else 0) - (if From(l, account) then l.data.value else 0)
  }

  ghost function FlowOf(account: nat, token: Address): Log -> int {
    (l: Log) => Flow(l, account, token)
  }

  /** The declarative net: the sum of an account's flows of a token over all logs. */
  ghost function Net(logs: seq<Log>, account: nat, token: Address): int {
    Sum(logs, FlowOf(account, token))
  }

  function Entry(deltas: map<Address, int>, token: Address): int {
    if token in deltas then deltas[token] else 0
  }

  /** collectErc20NetDeltasForAddress: the map holds exactly the net of every token. */
  method CollectErc20NetDeltas(logs: seq<Log>, target: nat) returns (deltas: map<Address, int>)
    ensures forall token :: Entry(deltas, token) == Net(logs, target, token)
    ensures forall token :: token in deltas ==> token == Checksum(token)
  {
    deltas := map[];
    for i := 0 to |logs|
      invariant forall token :: Entry(deltas, token) == Net(logs[..i], target, token)
      invariant forall token :: token in deltas ==> token == Checksum(token)
    {
      var log := logs[i];
      forall token ensures Net(logs[..i + 1], target, token)
          == Net(logs[..i], target, token) + Flow(log, target, token) {
        assert logs[..i + 1] == logs[..i] + [log];
        SumSnoc(logs[..i], log, FlowOf(target, token));
      }
      if log.address.None? { continue; }
      if |log.topics| < 3 { continue; }
      if !log.topics[0].isTransfer { continue; }
      var source, recipient := log.topics[1].account, log.topics[2].account;
      if source.None? && recipient.None? { continue; }
      if log.data.None? { continue; }
      var amount := log.data.value;
      if amount == 0 { continue; }
      var delta: int := 0;
      if source == Some(target) { delta := delta - amount; }
      if recipient == Some(target) { delta := delta + amount; }
      if delta == 0 { continue; }
      var token := Checksum(log.address.value);
      deltas := deltas[token := Entry(deltas, token) + delta];
    }
    assert logs[..|logs|] == logs;
  }

  /** What one Transfer event means: the amount leaves its sender and reaches its recipient, in the token
      that emitted it, and nobody and no token else is concerned. */
  lemma OneTransferNets(a: Address, topics: seq<Topic>, sender: nat, recipient: nat, amount: nat, x: nat,
                        token: Address)
    requires |topics| >= 3 && topics[0].isTransfer && sender != recipient
    requires topics[1].account == Some(sender) && topics[2].account == Some(recipient)
    ensures Net([Log(Some(a), topics, Some(amount))], x, token) ==
            if token.account != a.account || token.spelling != 0 then 0
            else if x == recipient then amount
            else if x == sender then -(amount as int)
            else 0
  {
    OneLogNets(Log(Some(a), topics, Some(amount)), x, token);
  }

  lemma OneLogNets(l: Log, x: nat, token: Address)
    ensures Net([l], x, token) == Flow(l, x, token)
  {
    assert [l] == [] + [l];
    SumSnoc([], l, FlowOf(x, token));
  }

  /** A party that cannot be read is left out, and the other one counts. */
  lemma HalfReadTransferNets(a: Address, topics: seq<Topic>, amount: nat, x: nat)
    requires |topics| >= 3 && topics[0].isTransfer
    ensures var net := Net([Log(Some(a), topics, Some(amount))], x, a.(spelling := 0));
            && (topics[1].account.None? ==> net == if topics[2].account == Some(x) then amount else 0)
            && (topics[2].account.None? ==> net == if topics[1].account == Some(x) then -(amount as int) else 0)
  {
    OneLogNets(Log(Some(a), topics, Some(amount)), x, a.(spelling := 0));
  }

  /** Any other log means nothing. */
  lemma OtherLogsNetZero(l: Log, x: nat, token: Address)
    requires l.address.None? || |l.topics| < 3 || !l.topics[0].isTransfer || l.data.None?
    ensures Net([l], x, token) == 0
  {
    OneLogNets(l, x, token);
  }

  /** Netting two receipts' logs together is netting them apart and adding. */
  lemma NetOfConcat(a: seq<Log>, b: seq<Log>, account: nat, token: Address)
    ensures Net(a + b, account, token) == Net(a, account, token) + Net(b, account, token)
  {
    SumConcat(a, b, FlowOf(account, token));
  }

  /** The order of the logs does not matter. */
  lemma NetOfPermutation(a: seq<Log>, b: seq<Log>, account: nat, token: Address)
    requires multiset(a) == multiset(b)
    ensures Net(a, account, token) == Net(b, account, token)
  {
    SumPermuted(a, b, FlowOf(account, token));
  }

  /** A transfer from an account to itself nets to zero wherever it stands. */
  lemma SelfTransferNetsZero(a: seq<Log>, l: Log, b: seq<Log>, account: nat, token: Address)
    requires From(l, account) && To(l, account)
    ensures Net(a + [l] + b, account, token) == Net(a + b, account, token)
  {
    SumConcat(a + [l], b, FlowOf(account, token));
    SumSnoc(a, l, FlowOf(account, token));
    SumConcat(a, b, FlowOf(account, token));
  }

  ghost function NetOf(logs: seq<Log>, token: Address): nat -> int {
    (account: nat) => Net(logs, account, token)
  }

  ghost function FlowTo(l: Log, token: Address): nat -> int {
    (account: nat) => Flow(l, account, token)
  }

  /** A log both of whose parties can be read, and are among the given accounts. */
  ghost predicate Between(l: Log, accounts: seq<nat>) {
    Readable(l) ==>
      exists s, r ::
        l.topics[1].account == Some(s) && l.topics[2].account == Some(r) && s in accounts && r in accounts
  }

  ghost function Marks(account: nat, amount: nat): nat -> int {
    (x: nat) => if x == account then amount else 0
  }

  lemma {:induction false} SumOfMarks(accounts: seq<nat>, account: nat, amount: nat)
    requires Distinct(accounts)
    ensures Sum(accounts, Marks(account, amount)) == if account in accounts then amount else 0
    decreases |accounts|
  {
    if accounts != [] {
      var init, last := accounts[..|accounts| - 1], accounts[|accounts| - 1];
      assert accounts == init + [last];
      SumOfMarks(init, account, amount);
    }
  }

  lemma {:induction false} SumOfDifference(s: seq<nat>, f: nat -> int, g: nat -> int, h: nat -> int)
    requires forall i :: 0 <= i < |s| ==> h(s[i]) == f(s[i]) - g(s[i])
    ensures Sum(s, h) == Sum(s, f) - Sum(s, g)
    decreases |s|
  {
    if s != [] { SumOfDifference(s[..|s| - 1], f, g, h); }
  }

  lemma OneLogBalances(l: Log, accounts: seq<nat>, token: Address)
    requires Distinct(accounts) && Between(l, accounts)
    ensures Sum(accounts, FlowTo(l, token)) == 0
  {
    var amount := if Readable(l) && Checksum(l.address.value) == token then l.data.value else 0;
    var s, r := 0, 0;
    if Readable(l) {
      s, r := l.topics[1].account.value, l.topics[2].account.value;
    }
    SumOfMarks(accounts, s, amount);
    SumOfMarks(accounts, r, amount);
    SumOfDifference(accounts, Marks(r, amount), Marks(s, amount), FlowTo(l, token));
  }

  /** Tokens are conserved: over all accounts that appear in the logs, the nets of each token sum
      to zero. */
  lemma {:induction false} NetsSumToZero(logs: seq<Log>, accounts: seq<nat>, token: Address)
    requires Distinct(accounts) && forall i :: 0 <= i < |logs| ==> Between(logs[i], accounts)
    ensures Sum(accounts, NetOf(logs, token)) == 0
    decreases |logs|
  {
    if logs == [] {
      SumOfMarks(accounts, 0, 0);
      SumSame(accounts, NetOf(logs, token), Marks(0, 0));
    } else {
      var init, last := logs[..|logs| - 1], logs[|logs| - 1];
      NetsSumToZero(init, accounts, token);
      OneLogBalances(last, accounts, token);
      SumOfSum(accounts, NetOf(init, token), FlowTo(last, token), NetOf(logs, token));
    }
  }

  lemma {:induction false} SumOfSum(s: seq<nat>, f: nat -> int, g: nat -> int, h: nat -> int)
    requires forall i :: 0 <= i < |s| ==> h(s[i]) == f(s[i]) + g(s[i])
    ensures Sum(s, h) == Sum(s, f) + Sum(s, g)
    decreases |s|
  {
    if s != [] { SumOfSum(s[..|s| - 1], f, g, h); }
  }
}
