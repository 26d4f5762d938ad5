/**
 One wallet group over whole runs: its tables, its address on chain, the reconcilers' stale
 copies and the deposit scans in progress. Every transaction body is one event here; that
 interleaved bodies amount to this is the subject of module Interleaving. A send's row is written with
 its broadcast, no contract write carries a negative value, no transfer overdraws its target, and
 nothing is dropped or forgotten; module LateRows has the steps that leaves out. The chain mines the
 address's transactions in nonce order (section 6 of the Ethereum Yellow Paper), and the node accepts
 none that offers no gas price.
 */
module World {
  import opened Prelude
  import opened Ledger

  datatype Mined = Mined(tx: SignedTx, success: bool, gasUsed: nat, gasPrice: nat)

  /** Ether a block moved to the address by a top-level transaction. */
  datatype Incoming = Incoming(hash: TxHash, value: nat)

  /** A deposit row written by a scan. */
  datatype DepositRow = DepositRow(wallet: WalletId, hash: TxHash, token: Option<Address>, amount: nat)

  /** A scan in progress: the wallet it credits and the rows it has written but not credited yet. */
  datatype Scan = Scan(wallet: WalletId, pending: seq<DepositRow>)

  datatype World = World(
    self: nat, wallets: seq<WalletId>, tables: Tables,
    sent: seq<SignedTx>, mined: seq<Mined>, funds: int, incoming: seq<Incoming>,
    views: set<(nat, Record)>,
    rows: seq<DepositRow>, scans: map<nat, Scan>,
    // history: credits applied so far, the row of each broadcast, the starting balances,
    // the ether no row accounts for, and the rows contract settlements may have moved
    credits: seq<DepositRow>, slot: seq<nat>, opening: map<(WalletId, Asset), int>, slack: int,
    touched: set<(WalletId, Asset)>)

  datatype Event =
    | Sent(o: Order, q: Quote, chainPending: nat, accepted: bool)
    | Mine(pick: nat, success: bool, gasUsed: nat, gasPrice: nat)
    | Income(hash: TxHash, value: nat)
    | Windfall(value: nat)
    | Fetched(id: nat)
    | Settled(id: nat, seen: Record, deltas: seq<Delta>)
    | Moved(source: WalletId, target: WalletId, asset: Asset, amount: int)
    | Joined(wallet: WalletId)
    | ScanBegun(scan: nat, wallet: WalletId)
    | ScanFound(scan: nat, row: DepositRow)
    | ScanCredited(scan: nat)
    | ScanLost(scan: nat)

  ghost predicate Normal(a: Asset) {
    a.Token? ==> a.contract == Checksum(a.contract)
  }

  /** The unique key of the transaction table. */
  ghost function Key(d: DepositRow): (WalletId, TxHash, bool) {
    (d.wallet, d.hash, d.token.Some?)
  }

  ghost predicate KeyTaken(w: World, d: DepositRow) {
    || (exists i :: 0 <= i < |w.rows| && Key(w.rows[i]) == Key(d))
    || (exists i :: 0 <= i < |w.tables.log| && w.tables.log[i].wallet == d.wallet
          && w.tables.log[i].hash == Some(d.hash) && w.tables.log[i].token.Some? == d.token.Some?)
  }

  ghost predicate HasReceipt(w: World, r: Record) {
    && r.hash.Some? && r.hash.value.Signed?
    && r.hash.value.tx.nonce < |w.mined| && w.mined[r.hash.value.tx.nonce].tx == r.hash.value.tx
  }

  /** A mined transaction of the address that calls a token to pay the address itself. */
  ghost predicate SelfPaid(w: World, tx: SignedTx, token: Address, amount: nat) {
    && tx.nonce < |w.mined| && w.mined[tx.nonce].tx == tx
    && tx.to == token.account && tx.data == TransferCall(w.self, amount)
  }

  /** A negative transfer that takes more ether out of its target than is there. */
  predicate Overdraws(t: Tables, target: WalletId, a: Asset, amount: int) {
    a.Native? && amount + Bal(t, target, a) < 0
  }

  function ReceiptOf(m: Mined, deltas: seq<Delta>): Receipt {
    Receipt(m.success, m.gasUsed, m.gasPrice, m.tx.value, deltas)
  }

  ghost predicate Enabled(w: World, e: Event) {
    match e
    case Sent(o, q, chainPending, accepted) =>
      && o.wallet in w.wallets && |w.mined| <= chainPending <= |w.sent|
      && (accepted && Refuse(w.tables, o, q).None? ==> o.amount >= 0 && q.gasPrice >= 0)
    case Mine(pick, success, gasUsed, gasPrice) =>
      && pick < |w.sent| && w.sent[pick].nonce == |w.mined|
      && gasUsed <= w.sent[pick].gasLimit && gasPrice <= w.sent[pick].gasPrice
    case Income(hash, value) =>
      hash.Foreign? && forall i :: 0 <= i < |w.incoming| ==> w.incoming[i].hash != hash
    case Windfall(value) => true
    case Fetched(id) => id < |w.tables.log| && w.tables.log[id].status.Broadcasting?
    case Settled(id, seen, deltas) =>
      (id, seen) in w.views && id < |w.tables.log| && HasReceipt(w, seen)
    case Moved(source, target, asset, amount) =>
      && source in w.wallets && target in w.wallets && source != target && Normal(asset)
      && !Overdraws(w.tables, target, asset, amount)
    case Joined(wallet) => wallet !in w.wallets
    case ScanBegun(scan, wallet) => scan !in w.scans && wallet in w.wallets
    case ScanFound(scan, row) =>
      && scan in w.scans && row.wallet == w.scans[scan].wallet && !KeyTaken(w, row) && row.amount > 0
      && (row.token.None? ==> Incoming(row.hash, row.amount) in w.incoming)
      && (row.token.Some? && row.hash.Signed? ==> SelfPaid(w, row.hash.tx, row.token.value, row.amount))
    case ScanCredited(scan) => scan in w.scans
    case ScanLost(scan) => scan in w.scans
  }

  function NativeTotal(rows: seq<DepositRow>): nat {
    if rows == [] then 0
    else
      var last := rows[|rows| - 1];
      NativeTotal(rows[..|rows| - 1]) + if last.token.None? then last.amount else 0
  }

  function TokenCredits(rows: seq<DepositRow>): seq<TokenCredit> {
    if rows == [] then []
    else
      var last := rows[|rows| - 1];
      TokenCredits(rows[..|rows| - 1]) +
      if last.token.Some? then [TokenCredit(last.token.value, last.amount)] else []
  }

  function AfterSend(w: World, o: Order, q: Quote, chainPending: nat, accepted: bool): World {
    var w1 := w.(tables := Send(w.tables, o, q, chainPending, accepted));
    if Refuse(w.tables, o, q).None? && accepted then
      w1.(sent := w.sent + [ToSign(o, q, NextNonce(chainPending, w.tables.log))],
          slot := w.slot + [|w.tables.log|])
    else w1
  }

  function AfterMine(w: World, m: Mined): World {
    var self := m.success && m.tx.to == w.self;
    w.(mined := w.mined + [m],
       funds := w.funds - m.gasUsed * m.gasPrice - (if m.success && !self then m.tx.value else 0),
       incoming := w.incoming + if self then [Incoming(Signed(m.tx), m.tx.value)] else [])
  }

  function Apply(w: World, e: Event): World
    requires Enabled(w, e)
  {
    match e
    case Sent(o, q, chainPending, accepted) => AfterSend(w, o, q, chainPending, accepted)
    case Mine(pick, success, gasUsed, gasPrice) =>
      AfterMine(w, Mined(w.sent[pick], success, gasUsed, gasPrice))
    case Income(hash, value) =>
      w.(funds := w.funds + value, incoming := w.incoming + [Incoming(hash, value)])
    case Windfall(value) => w.(funds := w.funds + value, slack := w.slack + value)
    case Fetched(id) => w.(views := w.views + {(id, w.tables.log[id])})
    case Settled(id, seen, deltas) =>
      w.(tables := Settle(w.tables, id, seen, ReceiptOf(w.mined[seen.hash.value.tx.nonce], deltas)),
         touched := if seen.kind.Contract? then w.touched + set d | d in deltas :: (seen.wallet, Token(d.token))
                    else w.touched)
    case Moved(source, target, asset, amount) => w.(tables := Transfer(w.tables, source, target, asset, amount))
    case Joined(wallet) =>
      w.(tables := SetBal(w.tables, wallet, Native, 0), wallets := w.wallets + [wallet])
    case ScanBegun(scan, wallet) => w.(scans := w.scans[scan := Scan(wallet, [])])
    case ScanFound(scan, row) =>
      var s := w.scans[scan];
      w.(rows := w.rows + [row], scans := w.scans[scan := s.(pending := s.pending + [row])])
    case ScanCredited(scan) =>
      var s := w.scans[scan];
      w.(tables := Credit(w.tables, s.wallet, NativeTotal(s.pending), TokenCredits(s.pending)),
         credits := w.credits + s.pending, scans := w.scans - {scan})
    case ScanLost(scan) => w.(scans := w.scans - {scan})
  }

  // ---------------------------------------------------------------- what the history says

  ghost function RowAsset(token: Option<Address>): Asset {
    if token.None? then Native else AssetOf(token.value)
  }

  /** What a mined row really cost; nothing while it is not mined. */
  ghost function MinedCost(r: Record, mined: seq<Mined>): nat {
    if r.nonce.Some? && r.nonce.value < |mined|
    then Cost(r, ReceiptOf(mined[r.nonce.value], [])) else 0
  }

  /** What one log row contributes to the balance of wallet w in asset a. */
  ghost function EffectOf(r: Record, mined: seq<Mined>, w: WalletId, a: Asset): int {
    if r.wallet != w then 0
    else if r.kind.Deposit? then (if RowAsset(r.token) == a then r.amount else 0)
    else if r.nonce.None? then (if r.status.Confirmed? && RowAsset(r.token) == a then -r.amount else 0)
    else if a.Native? then -(if r.status.Broadcasting? then r.locked else MinedCost(r, mined))
    else if r.token.Some? && RowAsset(r.token) == a && !r.status.Failed? then -r.amount
    else 0
  }

  ghost function Effect(mined: seq<Mined>, w: WalletId, a: Asset): Record -> int {
    (r: Record) => EffectOf(r, mined, w, a)
  }

  ghost function CreditTo(w: WalletId, a: Asset): DepositRow -> int {
    (d: DepositRow) => if d.wallet == w && RowAsset(d.token) == a then d.amount else 0
  }

  ghost function Opening(w: World, x: WalletId, a: Asset): int {
    if (x, a) in w.opening then w.opening[(x, a)] else 0
  }

  /** The balance a full replay of the history gives. */
  ghost function Replayed(w: World, x: WalletId, a: Asset): int {
    Opening(w, x, a) + Sum(w.tables.log, Effect(w.mined, x, a)) + Sum(w.credits, CreditTo(x, a))
  }

  ghost predicate History(w: World) {
    forall x: WalletId, a: Asset {:trigger Bal(w.tables, x, a)} ::
      Normal(a) && (x, a) !in w.touched ==> Bal(w.tables, x, a) == Replayed(w, x, a)
  }

  // ---------------------------------------------------------------- solvency

  ghost function Holding(t: Tables, a: Asset): WalletId -> int {
    (x: WalletId) => Bal(t, x, a)
  }

  /** Ether still reserved for a row in flight, less what mining it already took. */
  ghost function Outstanding(mined: seq<Mined>): Record -> int {
    (r: Record) => if r.status.Broadcasting? then r.locked - MinedCost(r, mined) else 0
  }

  ghost function Arrived(): Incoming -> int {
    (i: Incoming) => i.value
  }

  ghost function NativeOf(): DepositRow -> int {
    (d: DepositRow) => if d.token.None? then d.amount else 0
  }

  /** Everything the group's rows promise out of the address's ether. */
  ghost function Promised(w: World): int {
    Sum(w.wallets, Holding(w.tables, Native)) + Sum(w.tables.log, Outstanding(w.mined))
  }

  ghost predicate Solvent(w: World) {
    Promised(w) <= w.funds
  }

  /** Ether is conserved: the address holds what is promised, what was never promised, and the
      deposits that arrived, less the deposits that were credited. */
  ghost predicate Conserved(w: World) {
    w.funds == Promised(w) + w.slack + Sum(w.incoming, Arrived()) - Sum(w.credits, NativeOf())
  }

  // ---------------------------------------------------------------- the invariant

  /** The row of a broadcast: it carries the n-th signed transaction and reserves its worst cost. */
  ghost predicate Carries(r: Record, n: nat, tx: SignedTx) {
    && r.nonce == Some(n) && r.hash == Some(Signed(tx)) && !r.kind.Deposit?
    && tx.value == (if r.token.Some? then 0 else r.amount)
    && r.locked == tx.value + tx.gasLimit * tx.gasPrice
  }

  ghost predicate Executes(m: Mined, tx: SignedTx) {
    m.tx == tx && m.gasUsed <= tx.gasLimit && m.gasPrice <= tx.gasPrice
  }

  ghost predicate RowOk(w: World, i: nat)
    requires i < |w.tables.log|
  {
    var r := w.tables.log[i];
    && r.wallet in w.wallets && !r.status.Pending?
    && (r.nonce.None? ==> !r.status.Broadcasting? && r.hash.None? && (r.kind.Deposit? ==> r.status.Confirmed?))
    && (r.nonce.Some? ==>
          && r.nonce.value < |w.sent| && r.nonce.value < |w.slot| && w.slot[r.nonce.value] == i
          && Carries(r, r.nonce.value, w.sent[r.nonce.value])
          && (!r.status.Broadcasting? ==>
                r.nonce.value < |w.mined| && r.status == Outcome(w.mined[r.nonce.value].success)))
  }

  ghost predicate Nonces(w: World) {
    && |w.slot| == |w.sent| && |w.mined| <= |w.sent|
    && (forall n :: 0 <= n < |w.sent| ==> w.sent[n].nonce == n)
    && (forall n :: 0 <= n < |w.sent| ==>
          0 <= w.slot[n] < |w.tables.log| && w.tables.log[w.slot[n]].nonce == Some(n))
    && (forall n :: 0 <= n < |w.mined| ==> Executes(w.mined[n], w.sent[n]))
  }

  /** Two versions of one row: only its status may differ. */
  ghost predicate SameRow(seen: Record, r: Record) {
    seen.(status := r.status) == r
  }

  ghost predicate Copies(w: World) {
    forall v :: v in w.views ==> v.0 < |w.tables.log| && SameRow(v.1, w.tables.log[v.0]) && v.1.nonce.Some?
  }

  ghost predicate Rows(w: World) {
    && Distinct(w.wallets)
    && (forall i :: 0 <= i < |w.tables.log| ==> RowOk(w, i))
    && (forall x: WalletId, a: Asset :: x !in w.wallets ==> Bal(w.tables, x, a) == 0)
    && (forall x: WalletId :: Bal(w.tables, x, Native) >= 0)
  }

  ghost predicate UniqueRows(w: World) {
    && (forall i, j :: 0 <= i < j < |w.rows| ==> Key(w.rows[i]) != Key(w.rows[j]))
    && (forall d :: d in w.rows ==>
          d.wallet in w.wallets && (d.token.None? ==> Incoming(d.hash, d.amount) in w.incoming))
  }

  ghost predicate Arrivals(w: World) {
    && (forall i, j :: 0 <= i < j < |w.incoming| ==> w.incoming[i].hash != w.incoming[j].hash)
    && (forall i :: 0 <= i < |w.incoming| && w.incoming[i].hash.Signed? ==> w.incoming[i].hash.tx.nonce < |w.mined|)
  }

  /** Rows owed by a scan: written by it for its own wallet, and credited by nobody. */
  ghost predicate Owes(w: World, s: Scan) {
    && s.wallet in w.wallets && Distinct(s.pending)
    && forall d :: d in s.pending ==> d in w.rows && d !in w.credits && d.wallet == s.wallet
  }

  ghost predicate Apart(a: seq<DepositRow>, b: seq<DepositRow>) {
    forall d :: d in a ==> d !in b
  }

  ghost predicate Owed(w: World) {
    && Distinct(w.credits) && (forall d :: d in w.credits ==> d in w.rows)
    && (forall s :: s in w.scans ==> Owes(w, w.scans[s]))
    && (forall s, s' :: s in w.scans && s' in w.scans && s != s' ==> Apart(w.scans[s].pending, w.scans[s'].pending))
  }

  ghost predicate Scans(w: World) {
    UniqueRows(w) && Arrivals(w) && Owed(w)
  }

  ghost predicate TokensOnly(w: World) {
    forall p :: p in w.touched ==> p.1.Token?
  }

  ghost predicate Inv(w: World) {
    Nonces(w) && Rows(w) && Copies(w) && Scans(w) && History(w) && TokensOnly(w) && Conserved(w)
  }

  /** A group with nothing sent and nothing scanned yet; slack is the ether no row accounts for. */
  ghost predicate Start(w: World) {
    && w.sent == [] && w.mined == [] && w.tables.log == [] && w.slot == [] && w.views == {}
    && w.rows == [] && w.credits == [] && w.scans == map[] && w.incoming == [] && w.touched == {}
    && Distinct(w.wallets) && w.opening == w.tables.balances
    && (forall x: WalletId, a: Asset :: x !in w.wallets ==> Bal(w.tables, x, a) == 0)
    && (forall x: WalletId :: Bal(w.tables, x, Native) >= 0)
    && w.slack == w.funds - Sum(w.wallets, Holding(w.tables, Native))
  }

  ghost predicate Run(w: World, events: seq<Event>, w': World)
    decreases |events|
  {
    if events == [] then w' == w
    else Enabled(w, events[0]) && Run(Apply(w, events[0]), events[1..], w')
  }

  lemma {:induction false} RunSnoc(w: World, events: seq<Event>, v: World, e: Event)
    requires Run(w, events, v) && Enabled(v, e)
    ensures Run(w, events + [e], Apply(v, e))
    decreases |events|
  {
    if events == [] {
      assert Run(Apply(v, e), [e][1..], Apply(v, e));
    } else {
      RunSnoc(Apply(w, events[0]), events[1..], v, e);
      assert (events + [e])[1..] == events[1..] + [e];
    }
  }

  lemma {:induction false} RunsJoin(w: World, a: seq<Event>, v: World, b: seq<Event>, w': World)
    requires Run(w, a, v) && Run(v, b, w')
    ensures Run(w, a + b, w')
    decreases |a|
  {
    if a == [] {
      assert a + b == b;
    } else {
      RunsJoin(Apply(w, a[0]), a[1..], v, b, w');
      assert (a + b)[1..] == a[1..] + b;
    }
  }
}
