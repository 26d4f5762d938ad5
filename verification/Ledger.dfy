/**
 The tables of one wallet group and what each transaction body does to them: sends, contract
 writes, settlement, internal transfers and deposit credits. Amounts are raw integers (wei or
 token units). A row a transaction leaves behind is described by the value it holds, so a row
 that was never written reads as zero.
 */
module Ledger {
  import opened Prelude

  type WalletId = nat

  /** An address as text: the account it names, and how its hex digits are spelt. */
  datatype Address = Address(account: nat, spelling: nat)

  /** The one checksum spelling of an address. */
  function Checksum(a: Address): Address {
    a.(spelling := 0)
  }

  /** An asset row, identified by its unique contract address. */
  datatype Asset = Native | Token(contract: Address)

  function AssetOf(token: Address): Asset {
    Token(Checksum(token))
  }

  /** Call data: none, an ERC20 transfer to an account, or anything else. */
  datatype CallData = NoData | TransferCall(to: nat, amount: nat) | Bytes(id: nat)

  datatype SignedTx = SignedTx(nonce: nat, to: nat, value: nat, gasLimit: nat, gasPrice: nat, data: CallData)

  /** Hashing a signed transaction is injective; other people's transactions have other hashes. */
  datatype TxHash = Signed(tx: SignedTx) | Foreign(id: nat)

  datatype Kind = Withdrawal | Deposit | Contract

  datatype Status = Pending | Broadcasting | Confirmed | Failed

  /** A row of the transaction log; its asset type is ERC20 exactly when it names a token. */
  datatype Record = Record(
    wallet: WalletId, kind: Kind, token: Option<Address>, amount: int, locked: int,
    hash: Option<TxHash>, nonce: Option<nat>, status: Status)

  datatype Tables = Tables(balances: map<(WalletId, Asset), int>, log: seq<Record>)

  function Bal(t: Tables, w: WalletId, a: Asset): int {
    if (w, a) in t.balances then t.balances[(w, a)] else 0
  }

  function SetBal(t: Tables, w: WalletId, a: Asset, v: int): Tables {
    t.(balances := t.balances[(w, a) := v])
  }

  // ---------------------------------------------------------------- sending

  datatype Payment = Ether | Call | Erc20(token: Address)

  /** What the caller asks for: `to` is the account paid or called, `data` is that of a contract call. */
  datatype Order = Order(wallet: WalletId, payment: Payment, to: nat, data: CallData, amount: int)

  /** What is known before the guards: the node's gas limit, a gas price that may be the caller's, the
      address's funds, and the token's row. */
  datatype Quote = Quote(gasLimit: nat, gasPrice: int, funds: int, tokens: int, tracked: bool)

  datatype Refusal =
    | NotEncodable | ChainFunds | WalletFunds | ChainTokens | ChainGas | WalletGas | Untracked | WalletTokens

  function GasCost(q: Quote): int {
    q.gasLimit * q.gasPrice
  }

  /** The ether a send reserves: the value asked for, and gas at the full limit. */
  function NativeHold(o: Order, q: Quote): int {
    if o.payment.Erc20? then GasCost(q) else o.amount + GasCost(q)
  }

  /** A negative payment of ether or tokens cannot be encoded for the node's gas estimate. A contract
      write leaves a negative value out of its transaction, and goes through. */
  predicate Encodable(o: Order) {
    o.amount >= 0 || o.payment.Call?
  }

  function Refuse(t: Tables, o: Order, q: Quote): Option<Refusal> {
    if !Encodable(o) then Some(NotEncodable)
    else
      match o.payment
      case Erc20(token) =>
        if o.amount > q.tokens then Some(ChainTokens)
        else if GasCost(q) > q.funds then Some(ChainGas)
        else if GasCost(q) > Bal(t, o.wallet, Native) then Some(WalletGas)
        else if !q.tracked then Some(Untracked)
        else if o.amount > Bal(t, o.wallet, AssetOf(token)) then Some(WalletTokens)
        else None
      case _ =>
        if o.amount + GasCost(q) > q.funds then Some(ChainFunds)
        else if o.amount + GasCost(q) > Bal(t, o.wallet, Native) then Some(WalletFunds)
        else None
  }

  /** Two spellings of a token name one asset row exactly when they name one account. */
  lemma AssetsAreAccounts(a: Address, b: Address)
    ensures AssetOf(a) == AssetOf(b) <==> a.account == b.account
    ensures AssetOf(a) != Native
  {
  }

  /** A send that can be encoded passes its guards exactly when nothing it draws on would go below zero:
      the address's ether and the wallet's, and for a token the address's tokens and the wallet's row,
      which must be tracked. */
  lemma GuardsPassIff(t: Tables, o: Order, q: Quote)
    requires o.amount >= 0 || o.payment.Call?
    ensures Refuse(t, o, q).None? <==>
            var hold := q.gasLimit * q.gasPrice + if o.payment.Erc20? then 0 else o.amount;
            && q.funds - hold >= 0 && Bal(t, o.wallet, Native) - hold >= 0
            && (o.payment.Erc20? ==>
                  && q.tracked && q.tokens - o.amount >= 0
                  && Bal(t, o.wallet, Token(o.payment.token.(spelling := 0))) - o.amount >= 0)
  {
  }

  /** The reason a send is refused for is true of it. */
  lemma RefusalIsTrue(t: Tables, o: Order, q: Quote)
    requires Refuse(t, o, q).Some?
    ensures var gas, native, reason := q.gasLimit * q.gasPrice, Bal(t, o.wallet, Native), Refuse(t, o, q).value;
            && (reason == NotEncodable <==> o.amount < 0 && !o.payment.Call?)
            && (reason == ChainFunds ==> !o.payment.Erc20? && o.amount + gas > q.funds)
            && (reason == WalletFunds ==> !o.payment.Erc20? && o.amount + gas > native && o.amount + gas <= q.funds)
            && (reason == ChainTokens ==> o.payment.Erc20? && o.amount > q.tokens)
            && (reason == ChainGas ==> o.payment.Erc20? && gas > q.funds && o.amount <= q.tokens)
            && (reason == WalletGas ==> o.payment.Erc20? && gas > native && gas <= q.funds)
            && (reason == Untracked ==> o.payment.Erc20? && !q.tracked && gas <= native)
            && (reason == WalletTokens ==>
                  o.payment.Erc20? && q.tracked && o.amount > Bal(t, o.wallet, AssetOf(o.payment.token)))
  {
  }

  /** The subtraction of a charge that the balance covers is exact, and no charge leaves less than zero
      or raises a balance that is not negative. */
  lemma SafeSubtractStops(balance: int, amount: int)
    ensures 0 <= amount <= balance ==> SafeSubtract(balance, amount) == balance - amount
    ensures amount > 0 && amount > balance ==> SafeSubtract(balance, amount) == 0
    ensures amount < 0 ==> SafeSubtract(balance, amount) == balance
  {
  }

  /** What a send takes from the address when it is mined. */
  function MinedFor(o: Order, gasUsed: nat, gasPrice: nat, success: bool): nat {
    gasUsed * gasPrice + if success && !o.payment.Erc20? then Max(0, o.amount) else 0
  }

  /** A reservation covers whatever mining within its quote may take exactly when the value asked for is
      not negative. */
  lemma HoldCoversIff(o: Order, q: Quote)
    requires Encodable(o) && q.gasPrice >= 0
    ensures (forall used: nat, price: nat, success :: used <= q.gasLimit && price <= q.gasPrice ==>
               MinedFor(o, used, price, success) <= NativeHold(o, q))
            <==> o.amount >= 0
  {
    if o.amount >= 0 {
      forall used: nat, price: nat, success | used <= q.gasLimit && price <= q.gasPrice
        ensures MinedFor(o, used, price, success) <= NativeHold(o, q)
      {
        MulMono(used, price, q.gasLimit, q.gasPrice);
      }
    } else {
      assert MinedFor(o, q.gasLimit, q.gasPrice, true) > NativeHold(o, q);
    }
  }

  /** The row written before broadcasting. */
  function Draft(o: Order, q: Quote): Record {
    Record(o.wallet, if o.payment.Call? then Contract else Withdrawal,
           if o.payment.Erc20? then Some(o.payment.token) else None,
           o.amount, NativeHold(o, q), None, None, Pending)
  }

  /** A value or a gas price that is not positive is left out of the transaction. */
  function ToSign(o: Order, q: Quote, nonce: nat): SignedTx {
    var amount, price := Max(0, o.amount), Max(0, q.gasPrice);
    match o.payment
    case Erc20(token) => SignedTx(nonce, token.account, 0, q.gasLimit, price, TransferCall(o.to, amount))
    case Call => SignedTx(nonce, o.to, amount, q.gasLimit, price, o.data)
    case Ether => SignedTx(nonce, o.to, amount, q.gasLimit, price, NoData)
  }

  function SentRow(o: Order, q: Quote, nonce: nat): Record {
    Draft(o, q).(hash := Some(Signed(ToSign(o, q, nonce))), nonce := Some(nonce), status := Broadcasting)
  }

  function FailedRow(o: Order, q: Quote): Record {
    Draft(o, q).(status := Failed)
  }

  /** Both reserved rows, set to their old value less the given amounts. */
  function Lower(t: Tables, o: Order, native: int, tokens: int): Tables {
    var t1 := SetBal(t, o.wallet, Native, Bal(t, o.wallet, Native) - native);
    match o.payment
    case Erc20(token) => SetBal(t1, o.wallet, AssetOf(token), Bal(t, o.wallet, AssetOf(token)) - tokens)
    case _ => t1
  }

  predicate InFlight(r: Record) {
    r.status.Pending? || r.status.Broadcasting?
  }

  /** One past the highest nonce of the rows still in flight. */
  function ReservedNonce(log: seq<Record>): nat {
    if log == [] then 0
    else
      var rest := ReservedNonce(log[..|log| - 1]);
      var r := log[|log| - 1];
      if InFlight(r) && r.nonce.Some? then Max(rest, r.nonce.value + 1) else rest
  }

  function NextNonce(chainPending: nat, log: seq<Record>): nat {
    Max(chainPending, ReservedNonce(log))
  }

  /** A whole send: refused, rejected by the node, or broadcast. */
  function Send(t: Tables, o: Order, q: Quote, chainPending: nat, accepted: bool): Tables {
    if Refuse(t, o, q).Some? then t else Unrefused(t, o, q, chainPending, accepted)
  }

  function Unrefused(t: Tables, o: Order, q: Quote, chainPending: nat, accepted: bool): Tables {
    if accepted then
      Lower(t, o, NativeHold(o, q), o.amount).(log := t.log + [SentRow(o, q, NextNonce(chainPending, t.log))])
    else
      Lower(t, o, 0, 0).(log := t.log + [FailedRow(o, q)])
  }

  // ---------------------------------------------------------------- settling

  /** The net change of one token, from the transfer logs of a receipt. */
  datatype Delta = Delta(token: Address, amount: int)

  /** A mined transaction as the reconciler reads it, with the token deltas netted from its logs. */
  datatype Receipt = Receipt(success: bool, gasUsed: nat, gasPrice: nat, value: nat, deltas: seq<Delta>)

  function SafeSubtract(balance: int, amount: int): int {
    if amount <= 0 then balance else if amount > balance then 0 else balance - amount
  }

  /** The ether a mined transaction really took from the address. */
  function Cost(r: Record, rc: Receipt): nat {
    rc.gasUsed * rc.gasPrice + (if r.token.None? && rc.success then rc.value else 0)
  }

  /** The entries are applied in order: each non-zero one moves its token's row, never below zero. */
  function ApplyDeltas(t: Tables, w: WalletId, deltas: seq<Delta>): (t': Tables)
    ensures t'.log == t.log
    decreases |deltas|
  {
    if deltas == [] then t
    else
      var a, d := Token(deltas[0].token), deltas[0].amount;
      ApplyDeltas(if d == 0 then t else SetBal(t, w, a, Max(0, Bal(t, w, a) + d)), w, deltas[1..])
  }

  /** Deltas only move token rows of their own wallet. */
  lemma {:induction false} DeltasElsewhere(t: Tables, w: WalletId, deltas: seq<Delta>, x: WalletId, a: Asset)
    requires x != w || a.Native? || forall d :: d in deltas ==> Token(d.token) != a
    ensures Bal(ApplyDeltas(t, w, deltas), x, a) == Bal(t, x, a)
    decreases |deltas|
  {
    if deltas != [] {
      var b, d := Token(deltas[0].token), deltas[0].amount;
      assert deltas[0] in deltas && forall e :: e in deltas[1..] ==> e in deltas;
      DeltasElsewhere(if d == 0 then t else SetBal(t, w, b, Max(0, Bal(t, w, b) + d)), w, deltas[1..], x, a);
    }
  }

  function Outcome(success: bool): Status {
    if success then Confirmed else Failed
  }

  /** Settling row id under the lock, from a copy of the row read earlier without it. */
  function Settle(t: Tables, id: nat, seen: Record, rc: Receipt): Tables
    requires id < |t.log|
  {
    var row := t.log[id];
    if !row.status.Broadcasting? then t
    else
      var t1 := SetBal(t, seen.wallet, Native,
                       SafeSubtract(Bal(t, seen.wallet, Native) + row.locked, Cost(seen, rc)));
      var t2 :=
        if seen.token.Some? && !rc.success then
          var a := AssetOf(seen.token.value);
          SetBal(t1, seen.wallet, a, Bal(t1, seen.wallet, a) + seen.amount)
        else t1;
      var t3 := if rc.success && seen.kind.Contract? then ApplyDeltas(t2, seen.wallet, rc.deltas) else t2;
      t3.(log := t.log[id := row.(status := Outcome(rc.success))])
  }

  // ---------------------------------------------------------------- transfers and credits

  function TransferRow(w: WalletId, kind: Kind, a: Asset, amount: int): Record {
    Record(w, kind, if a.Token? then Some(a.contract) else None, amount, 0, None, None, Confirmed)
  }

  /** The guard only bounds the amount from above, so a negative one moves the other way. */
  function Transfer(t: Tables, from: WalletId, to: WalletId, a: Asset, amount: int): Tables {
    if Bal(t, from, a) < amount then t
    else
      var t1 := SetBal(t, from, a, Bal(t, from, a) - amount);
      SetBal(t1, to, a, Bal(t1, to, a) + amount)
      .(log := t.log + [TransferRow(from, Withdrawal, a, amount), TransferRow(to, Deposit, a, amount)])
  }

  /** A transfer that goes through leaves two settled rows, one for each wallet, that carry its asset and
      amount and no transaction. */
  lemma TransferLeavesRows(t: Tables, from: WalletId, to: WalletId, a: Asset, amount: int)
    ensures var token, t' := if a.Token? then Some(a.contract) else None, Transfer(t, from, to, a, amount);
            t'.log == if amount > Bal(t, from, a) then t.log
                      else t.log + [Record(from, Withdrawal, token, amount, 0, None, None, Confirmed),
                                    Record(to, Deposit, token, amount, 0, None, None, Confirmed)]
  {
  }

  datatype TokenCredit = TokenCredit(token: Address, amount: nat)

  function CreditTokens(t: Tables, w: WalletId, credits: seq<TokenCredit>): (t': Tables)
    ensures t'.log == t.log
  {
    if credits == [] then t
    else
      var t1 := CreditTokens(t, w, credits[..|credits| - 1]);
      var last := credits[|credits| - 1];
      SetBal(t1, w, AssetOf(last.token), Bal(t1, w, AssetOf(last.token)) + last.amount)
  }

  /** What one deposit scan adds to its wallet, under the lock, after it has recorded everything. */
  function Credit(t: Tables, w: WalletId, native: nat, credits: seq<TokenCredit>): Tables {
    CreditTokens(if native > 0 then SetBal(t, w, Native, Bal(t, w, Native) + native) else t, w, credits)
  }

  // ---------------------------------------------------------------- the largest send

  /** The maximum the wallet page offers for an ether send. */
  function MaxSend(balance: int, funds: int, gasCost: int): int {
    var spendable := if balance < funds then balance else funds;
    if spendable > gasCost then spendable - gasCost else 0
  }

  /** For the same balances, a positive amount passes the send guards exactly up to MaxSend at the
      gas the send is quoted; so a positive maximum that was offered at another gas figure passes
      exactly when the send's gas is no higher. */
  lemma MaxSendIsTight(t: Tables, o: Order, q: Quote, offeredGas: int)
    requires o.payment.Ether? && o.amount > 0
    ensures var balance := Bal(t, o.wallet, Native);
            && (Refuse(t, o, q).None? <==> o.amount <= MaxSend(balance, q.funds, GasCost(q)))
            && (o.amount == MaxSend(balance, q.funds, offeredGas) ==>
                  (Refuse(t, o, q).None? <==> GasCost(q) <= offeredGas))
  {
  }

  /** For a token the page offers the whole row. A send that has its gas and the address's tokens
      passes exactly up to that; the offered maximum itself passes exactly when it has them. */
  lemma MaxTokenSendIsTight(t: Tables, o: Order, q: Quote)
    requires o.payment.Erc20? && q.tracked && o.amount >= 0
    ensures var offered, gas := Bal(t, o.wallet, AssetOf(o.payment.token)),
        GasCost(q) <= Min(q.funds, Bal(t, o.wallet, Native));
            && (gas && o.amount <= q.tokens ==> (Refuse(t, o, q).None? <==> o.amount <= offered))
            && (o.amount == offered ==> (Refuse(t, o, q).None? <==> gas && offered <= q.tokens))
  {
  }
}
