/**
 The custody world with the steps it leaves out. A send broadcasts first and writes its row
 afterwards, under the unique key that the scanner's unlocked inserts share. Here the two are separate
 steps, with the chain, the scans and new wallets in between. When a scan has taken the key, writing
 the row fails and the transaction rolls back: the broadcast stands, and neither its row nor its
 reservation does. Four more steps stand outside the custody world: a transfer that overdraws its
 target, a contract write of negative value, a send dropped by a timeout or a crash after its
 broadcast, and a settlement for which the node no longer returns the transaction, so that its value
 reads as zero.
 */
module LateRows {
  import opened Prelude
  import opened Ledger
  import opened World
  import opened Conservation
  import opened Solvency

  /** A send between its broadcast and its row; it holds its group's lock. */
  datatype Sending = Sending(o: Order, q: Quote, chainPending: nat)

  datatype State = State(world: World, sending: Option<Sending>)

  datatype Act =
    | Submit(o: Order, q: Quote, chainPending: nat)
    | WriteRow
    | Meanwhile(event: Event)
    | Overdraw(source: WalletId, target: WalletId, amount: int)
    | Drop
    | SettleBlind(id: nat, seen: Record, deltas: seq<Delta>)

  ghost function TxOf(t: Tables, s: Sending): SignedTx {
    ToSign(s.o, s.q, NextNonce(s.chainPending, t.log))
  }

  /** The key under which the row is to be written. */
  ghost function LateKey(t: Tables, s: Sending): DepositRow {
    DepositRow(s.o.wallet, Signed(TxOf(t, s)), if s.o.payment.Erc20? then Some(s.o.payment.token) else None, 0)
  }

  /** A scan has taken the key of the send in progress. */
  ghost predicate Clash(s: State) {
    s.sending.Some? && KeyTaken(s.world, LateKey(s.world.tables, s.sending.value))
  }

  /** The events of bodies that need the lock. */
  ghost predicate Locking(e: Event) {
    e.Sent? || e.Settled? || e.Moved? || e.ScanCredited?
  }

  ghost predicate Allowed(s: State, a: Act) {
    match a
    case Submit(o, q, chainPending) =>
      && s.sending.None? && o.wallet in s.world.wallets && |s.world.mined| <= chainPending <= |s.world.sent|
      && q.gasPrice >= 0 && Refuse(s.world.tables, o, q).None?
    case WriteRow => s.sending.Some?
    case Meanwhile(e) =>
      Enabled(s.world, e) && (e.Sent? ==> !e.accepted) && (s.sending.Some? ==> !Locking(e))
    case Overdraw(source, target, amount) =>
      && s.sending.None? && source in s.world.wallets && target in s.world.wallets && source != target
      && Overdraws(s.world.tables, target, Native, amount)
    case Drop => s.sending.Some?
    case SettleBlind(id, seen, deltas) => s.sending.None? && Enabled(s.world, Settled(id, seen, deltas))
  }

  ghost function WithRow(w: World, s: Sending): World {
    w.(tables := Send(w.tables, s.o, s.q, s.chainPending, true))
  }

  ghost function After(s: State, a: Act): State
    requires Allowed(s, a)
  {
    match a
    case Submit(o, q, chainPending) =>
      var sending := Sending(o, q, chainPending);
      State(s.world.(sent := s.world.sent + [TxOf(s.world.tables, sending)],
                     slot := s.world.slot + [|s.world.tables.log|]), Some(sending))
    case WriteRow => State(if Clash(s) then s.world else WithRow(s.world, s.sending.value), None)
    case Meanwhile(e) => State(Apply(s.world, e), s.sending)
    case Overdraw(source, target, amount) =>
      State(s.world.(tables := Transfer(s.world.tables, source, target, Native, amount)), None)
    case Drop => State(s.world, None)
    case SettleBlind(id, seen, deltas) =>
      var receipt := ReceiptOf(s.world.mined[seen.hash.value.tx.nonce], deltas).(value := 0);
      State(Apply(s.world, Settled(id, seen, deltas)).(tables := Settle(s.world.tables, id, seen, receipt)), None)
  }

  /** A step of the custody world, or part of one. */
  ghost predicate Regular(a: Act) {
    (a.Submit? && a.o.amount >= 0) || a.WriteRow? || a.Meanwhile?
  }

  ghost predicate Acts(s: State, acts: seq<Act>, s': State)
    decreases |acts|
  {
    if acts == [] then s' == s
    else Allowed(s, acts[0]) && Acts(After(s, acts[0]), acts[1..], s')
  }

  /** The world as the transaction in progress sees it, its own uncommitted writes included. */
  ghost function Intended(s: State): World {
    if s.sending.Some? then WithRow(s.world, s.sending.value) else s.world
  }

  // ---------------------------------------------------------------- without a clash

  /** What a send in progress still relies on: its guards passed, and its wallet is the group's. */
  ghost predicate Guarded(s: State) {
    s.sending.Some? ==>
      s.sending.value.o.wallet in s.world.wallets && Refuse(s.world.tables, s.sending.value.o, s.sending.value.q).None?
  }

  lemma SendIgnoresOthers(t: Tables, s: Sending, wallet: WalletId)
    requires wallet != s.o.wallet && Refuse(t, s.o, s.q).None?
    ensures Refuse(SetBal(t, wallet, Native, 0), s.o, s.q).None?
    ensures Send(SetBal(t, wallet, Native, 0), s.o, s.q, s.chainPending, true)
         == SetBal(Send(t, s.o, s.q, s.chainPending, true), wallet, Native, 0)
  {
    assert Send(SetBal(t, wallet, Native, 0), s.o, s.q, s.chainPending, true).balances
        == SetBal(Send(t, s.o, s.q, s.chainPending, true), wallet, Native, 0).balances;
  }

  lemma JoinedCommutes(w: World, s: Sending, wallet: WalletId)
    requires wallet !in w.wallets && s.o.wallet in w.wallets && Refuse(w.tables, s.o, s.q).None?
    ensures WithRow(Apply(w, Joined(wallet)), s) == Apply(WithRow(w, s), Joined(wallet))
    ensures Refuse(Apply(w, Joined(wallet)).tables, s.o, s.q).None?
  {
    SendIgnoresOthers(w.tables, s, wallet);
  }

  lemma ScanFoundCommutes(w: World, s: Sending, scan: nat, row: DepositRow)
    requires Enabled(w, ScanFound(scan, row)) && Refuse(w.tables, s.o, s.q).None?
    requires !KeyTaken(Apply(w, ScanFound(scan, row)), LateKey(w.tables, s))
    ensures Enabled(WithRow(w, s), ScanFound(scan, row))
  {
    var w' := Apply(w, ScanFound(scan, row));
    assert w'.rows[|w.rows|] == row;
    assert Key(row) != Key(LateKey(w.tables, s));
    var log := WithRow(w, s).tables.log;
    assert log == w.tables.log + [SentRow(s.o, s.q, NextNonce(s.chainPending, w.tables.log))];
  }

  /** While no scan takes its key, writing the row late is as good as writing it with the broadcast:
      every act is one step of the custody world, or none. */
  lemma ActIsEvent(s: State, a: Act)
    requires Regular(a) && Guarded(s) && Allowed(s, a) && !Clash(s) && !Clash(After(s, a))
    ensures Guarded(After(s, a))
    ensures match a
            case Submit(o, q, chainPending) =>
              var e := Sent(o, q, chainPending, true);
              Enabled(Intended(s), e) && Intended(After(s, a)) == Apply(Intended(s), e)
            case WriteRow => Intended(After(s, a)) == Intended(s)
            case Meanwhile(e) => Enabled(Intended(s), e) && Intended(After(s, a)) == Apply(Intended(s), e)
  {
    if a.Meanwhile? && s.sending.Some? {
      MeanwhileCommutes(s, a.event);
    }
  }

  lemma MeanwhileCommutes(s: State, e: Event)
    requires Guarded(s) && s.sending.Some? && Allowed(s, Meanwhile(e)) && !Clash(After(s, Meanwhile(e)))
    ensures Guarded(After(s, Meanwhile(e)))
    ensures Enabled(Intended(s), e) && Intended(After(s, Meanwhile(e))) == Apply(Intended(s), e)
  {
    var w, sending := s.world, s.sending.value;
    match e
    case Joined(wallet) => JoinedCommutes(w, sending, wallet);
    case ScanFound(scan, row) => ScanFoundCommutes(w, sending, scan, row);
    case _ =>
  }

  /** No state of the run has a clash. */
  ghost predicate ClashFree(s: State, acts: seq<Act>)
    decreases |acts|
  {
    !Clash(s) && (acts != [] ==> Allowed(s, acts[0]) && ClashFree(After(s, acts[0]), acts[1..]))
  }

  /** Which wallets are scanned for, which pay the group's own address, which are overdrawn, and
      whether contract writes carry negative values, sends are dropped, and transactions are forgotten. */
  datatype Policy = Policy(
    scanning: set<WalletId>, paying: set<WalletId>, overdrawn: set<WalletId>, negative: bool, drops: bool,
        forgets: bool)

  /** A send that the scanner takes for a deposit: it pays the address it is sent from. */
  ghost predicate PaysItself(o: Order, self: nat) {
    o.to == self && o.amount > 0
  }

  ghost predicate Within(a: Act, self: nat, p: Policy) {
    match a
    case Submit(o, q, chainPending) => (PaysItself(o, self) ==> o.wallet in p.paying) && (o.amount < 0 ==> p.negative)
    case WriteRow => true
    case Meanwhile(e) => e.ScanBegun? ==> e.wallet in p.scanning
    case Overdraw(source, target, amount) => target in p.overdrawn
    case Drop => p.drops
    case SettleBlind(id, seen, deltas) => p.forgets
  }

  ghost predicate AllWithin(acts: seq<Act>, self: nat, p: Policy) {
    forall i :: 0 <= i < |acts| ==> Within(acts[i], self, p)
  }

  ghost predicate AllRegular(acts: seq<Act>) {
    forall i :: 0 <= i < |acts| ==> Regular(acts[i])
  }

  /** A run of regular acts without a clash is a run of the custody world, so all that is proved of those
      holds of it. */
  lemma {:induction false} ClashFreeRunsAreRuns(s: State, acts: seq<Act>, s': State, p: Policy)
    returns (events: seq<Event>)
    requires Guarded(s) && Acts(s, acts, s') && ClashFree(s, acts) && AllRegular(acts)
    requires AllWithin(acts, s.world.self, p)
    ensures Run(Intended(s), events, Intended(s')) && ScansIn(events, p.scanning)
    decreases |acts|
  {
    events := [];
    if acts != [] {
      var a, next := acts[0], After(s, acts[0]);
      ActIsEvent(s, a);
      SameSelf(s, a);
      var rest := ClashFreeRunsAreRuns(next, acts[1..], s', p);
      if a.WriteRow? {
        events := rest;
      } else {
        events := [if a.Submit? then Sent(a.o, a.q, a.chainPending, true) else a.event] + rest;
        assert events[1..] == rest;
      }
    }
  }

  lemma SameSelf(s: State, a: Act)
    requires Allowed(s, a)
    ensures After(s, a).world.self == s.world.self
  {
  }

  // ---------------------------------------------------------------- where clashes come from

  /** Arrivals and deposit rows under the address's own hashes are of mined self-payments. */
  ghost predicate Traced(w: World) {
    && (forall i :: 0 <= i < |w.incoming| && w.incoming[i].hash.Signed? ==>
          var tx := w.incoming[i].hash.tx;
          MinedAs(w, tx) && tx.to == w.self && tx.value == w.incoming[i].value)
    && (forall i :: 0 <= i < |w.rows| && w.rows[i].hash.Signed? ==>
          var tx := w.rows[i].hash.tx;
          && MinedAs(w, tx) && w.rows[i].amount > 0
          && (w.rows[i].token.None? ==> tx.to == w.self && tx.value == w.rows[i].amount)
          && (w.rows[i].token.Some? ==> tx.data == TransferCall(w.self, w.rows[i].amount)))
  }

  ghost predicate MinedAs(w: World, tx: SignedTx) {
    tx.nonce < |w.mined| && w.mined[tx.nonce].tx == tx
  }

  lemma FoundTraced(w: World, scan: nat, row: DepositRow)
    requires Traced(w) && Enabled(w, ScanFound(scan, row))
    ensures Traced(Apply(w, ScanFound(scan, row)))
  {
    if row.token.None? {
      var i :| 0 <= i < |w.incoming| && w.incoming[i] == Incoming(row.hash, row.amount);
    }
  }

  lemma TracedKept(w: World, e: Event)
    requires Traced(w) && Enabled(w, e)
    ensures Traced(Apply(w, e))
  {
    if e.ScanFound? { FoundTraced(w, e.scan, e.row); }
  }

  /** Every row and every scan is for one of these wallets. */
  ghost predicate ScannedBy(w: World, scanning: set<WalletId>) {
    && (forall i :: 0 <= i < |w.rows| ==> w.rows[i].wallet in scanning)
    && (forall k :: k in w.scans ==> w.scans[k].wallet in scanning)
  }

  lemma ScannedByKept(w: World, e: Event, scanning: set<WalletId>)
    requires ScannedBy(w, scanning) && Enabled(w, e) && (e.ScanBegun? ==> e.wallet in scanning)
    ensures ScannedBy(Apply(w, e), scanning)
  {
  }

  /** No row in the log carries the hash of the send in progress. */
  ghost predicate NewHash(s: State) {
    s.sending.Some? ==>
      forall i :: 0 <= i < |s.world.tables.log| ==>
        s.world.tables.log[i].hash != Some(Signed(TxOf(s.world.tables, s.sending.value)))
  }

  lemma HashIsNew(s: State)
    requires Guarded(s) && Inv(Intended(s))
    ensures NewHash(s)
  {
    if s.sending.Some? {
      var log, intended, n := s.world.tables.log, Intended(s), |s.world.tables.log|;
      var late := s.sending.value;
      assert intended.tables.log == log + [SentRow(late.o, late.q, TxOf(s.world.tables, late).nonce)];
      assert RowOk(intended, n);
      forall i | 0 <= i < n ensures log[i].hash != Some(Signed(TxOf(s.world.tables, s.sending.value))) {
        assert intended.tables.log[i] == log[i];
        assert RowOk(intended, i);
      }
    }
  }

  /** Writing the row fails exactly when a scan has recorded the send's hash for its own wallet; that
      takes a send that pays its own address, by a wallet that scans, mined before its row is written. */
  lemma ClashIff(s: State, scanning: set<WalletId>)
    requires s.sending.Some? && NewHash(s) && Traced(s.world) && ScannedBy(s.world, scanning)
    ensures var o, tx := s.sending.value.o, TxOf(s.world.tables, s.sending.value);
            && (Clash(s) <==> exists i :: 0 <= i < |s.world.rows| && s.world.rows[i].wallet == o.wallet
                                && s.world.rows[i].hash == Signed(tx)
                                && s.world.rows[i].token.Some? == o.payment.Erc20?)
            && (Clash(s) ==> PaysItself(o, s.world.self) && o.wallet in scanning && MinedAs(s.world, tx))
  {
    var w, tx := s.world, TxOf(s.world.tables, s.sending.value);
    var key := LateKey(w.tables, s.sending.value);
    if Clash(s) {
      var i :| 0 <= i < |w.rows| && Key(w.rows[i]) == Key(key);
      assert w.rows[i].hash == Signed(tx);
    }
    if i :| 0 <= i < |w.rows| && w.rows[i].wallet == key.wallet && w.rows[i].hash == key.hash &&
            w.rows[i].token.Some? == key.token.Some? {
      assert Key(w.rows[i]) == Key(key);
    }
  }

  /** Nothing a run does under this policy is outside the custody world, and no row is lost. */
  ghost predicate Sound(p: Policy) {
    p.scanning !! p.paying && p.overdrawn == {} && !p.negative && !p.drops && !p.forgets
  }

  /** What holds throughout such a run. */
  ghost predicate Safe(s: State, p: Policy) {
    && Guarded(s) && Inv(Intended(s)) && Traced(s.world) && ScannedBy(s.world, p.scanning)
    && (s.sending.Some? && PaysItself(s.sending.value.o, s.world.self) ==> s.sending.value.o.wallet in p.paying)
  }

  lemma SafeIsClashFree(s: State, p: Policy)
    requires Safe(s, p) && Sound(p)
    ensures !Clash(s)
  {
    HashIsNew(s);
    if s.sending.Some? { ClashIff(s, p.scanning); }
  }

  lemma SubmitIntends(s: State, a: Act)
    requires a.Submit? && a.o.amount >= 0 && Allowed(s, a)
    ensures Intended(After(s, a)) == Apply(s.world, Sent(a.o, a.q, a.chainPending, true))
    ensures Traced(s.world) ==> Traced(After(s, a).world)
  {
  }

  lemma SubmitIsSafe(s: State, a: Act, p: Policy)
    requires Safe(s, p) && Sound(p) && a.Submit? && Allowed(s, a) && Within(a, s.world.self, p)
    ensures Safe(After(s, a), p)
  {
    InvKept(s.world, Sent(a.o, a.q, a.chainPending, true));
    SubmitIntends(s, a);
  }

  /** The log does not move while a send is in progress, so its hash stays new. */
  lemma MeanwhileStaysNew(s: State, e: Event)
    requires s.sending.Some? && NewHash(s) && Allowed(s, Meanwhile(e))
    ensures NewHash(After(s, Meanwhile(e)))
  {
    assert Apply(s.world, e).tables.log == s.world.tables.log;
  }

  lemma MeanwhileIsSafe(s: State, e: Event, p: Policy)
    requires Safe(s, p) && Sound(p) && Allowed(s, Meanwhile(e)) && Within(Meanwhile(e), s.world.self, p)
    ensures Safe(After(s, Meanwhile(e)), p)
  {
    TracedKept(s.world, e);
    ScannedByKept(s.world, e, p.scanning);
    SafeIsClashFree(s, p);
    if s.sending.Some? {
      HashIsNew(s);
      MeanwhileStaysNew(s, e);
      ClashIff(After(s, Meanwhile(e)), p.scanning);
    }
    ActIsEvent(s, Meanwhile(e));
    InvKept(Intended(s), e);
    SameSelf(s, Meanwhile(e));
  }

  lemma WriteRowIsSafe(s: State, p: Policy)
    requires Safe(s, p) && Sound(p) && Allowed(s, WriteRow)
    ensures Safe(After(s, WriteRow), p)
  {
    SafeIsClashFree(s, p);
  }

  lemma ActIsSafe(s: State, a: Act, p: Policy)
    requires Safe(s, p) && Sound(p) && Allowed(s, a) && Within(a, s.world.self, p)
    ensures Regular(a) && Safe(After(s, a), p)
  {
    match a
    case Submit(o, q, chainPending) => SubmitIsSafe(s, a, p);
    case WriteRow => WriteRowIsSafe(s, p);
    case Meanwhile(e) => MeanwhileIsSafe(s, e, p);
    case _ =>
  }

  lemma {:induction false} SafeThroughout(s: State, acts: seq<Act>, s': State, p: Policy)
    requires Safe(s, p) && Sound(p) && Acts(s, acts, s') && AllWithin(acts, s.world.self, p)
    ensures ClashFree(s, acts) && AllRegular(acts)
    decreases |acts|
  {
    SafeIsClashFree(s, p);
    if acts != [] {
      ActIsSafe(s, acts[0], p);
      SameSelf(s, acts[0]);
      SafeThroughout(After(s, acts[0]), acts[1..], s', p);
      assert forall i :: 0 < i < |acts| ==> acts[i] == acts[1..][i - 1];
    }
  }
}
