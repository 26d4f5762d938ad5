/**
 How far the custody promise reaches: the exact conditions under which every run of a group keeps the
 ether it promises covered, with a run for each way in which it does not.
 */
module Limits {
  import opened Prelude
  import opened Ledger
  import opened World
  import opened Conservation
  import opened Solvency
  import opened LateRows

  /** Every run under the policy, of a group that starts covered, stays solvent. */
  ghost predicate AlwaysSolventUnder(p: Policy) {
    forall start, acts, s :: Keeps(start, acts, s, p) ==> Solvent(Intended(s))
  }

  ghost predicate Keeps(start: World, acts: seq<Act>, s: State, p: Policy) {
    Start(start) && start.slack >= 0 && Acts(State(start, None), acts, s) && AllWithin(acts, start.self, p)
  }

  /** No two wallets of the group are scanned for. */
  ghost predicate ScansOne(p: Policy) {
    forall a, b :: a in p.scanning && b in p.scanning ==> a == b
  }

  lemma SoundStaysSolvent(start: World, acts: seq<Act>, s: State, p: Policy)
    requires Keeps(start, acts, s, p) && Sound(p) && ScansOne(p)
    ensures Solvent(Intended(s))
  {
    StartInv(start);
    SafeThroughout(State(start, None), acts, s, p);
    var events := ClashFreeRunsAreRuns(State(start, None), acts, s, p);
    assert AlwaysSolvent(p.scanning) by { AlwaysSolventIffOneScans(p.scanning); }
  }

  // ---------------------------------------------------------------- building runs

  lemma {:induction false} ActsSnoc(s: State, acts: seq<Act>, v: State, a: Act, self: nat, p: Policy)
    requires Acts(s, acts, v) && Allowed(v, a) && AllWithin(acts, self, p) && Within(a, self, p)
    ensures Acts(s, acts + [a], After(v, a)) && AllWithin(acts + [a], self, p)
    decreases |acts|
  {
    if acts == [] {
      assert Acts(After(v, a), [a][1..], After(v, a));
    } else {
      ActsSnoc(After(s, acts[0]), acts[1..], v, a, self, p);
      assert (acts + [a])[1..] == acts[1..] + [a];
    }
  }

  lemma OneTotal(a: WalletId, f: WalletId -> int)
    ensures Sum([a], f) == f(a)
  {
    assert [a][..0] == [];
  }

  /** Wallet a sends five, to account `to`, at a gas cost of one. */
  ghost function SendFive(a: WalletId, to: nat): Order {
    Order(a, Ether, to, NoData, 5)
  }

  ghost function Fee(): Quote {
    Quote(1, 1, 10, 0, true)
  }

  ghost function FiveTx(to: nat): SignedTx {
    SignedTx(0, to, 5, 1, 1, NoData)
  }

  lemma {:induction false} NothingOutstanding(log: seq<Record>, mined: seq<Mined>)
    requires forall i :: 0 <= i < |log| ==> !log[i].status.Broadcasting?
    ensures Sum(log, Outstanding(mined)) == 0
  {
    if log != [] { NothingOutstanding(log[..|log| - 1], mined); }
  }

  // ---------------------------------------------------------------- a row that comes late

  ghost function SelfRow(a: WalletId): DepositRow {
    DepositRow(a, Signed(FiveTx(0)), None, 5)
  }

  /** The send is broadcast and mined, a scan for the same wallet records it before its row is
      written, the row fails, and the scan credits the five. */
  ghost function RaceAct(k: nat, a: WalletId): Act {
    if k == 0 then Submit(SendFive(a, 0), Fee(), 0)
    else if k == 1 then Meanwhile(Mine(0, true, 1, 1))
    else if k == 2 then Meanwhile(ScanBegun(0, a))
    else if k == 3 then Meanwhile(ScanFound(0, SelfRow(a)))
    else if k == 4 then WriteRow
    else Meanwhile(ScanCredited(0))
  }

  ghost function RaceWorld(k: nat, a: WalletId): World {
    World(0, [a], Tables(map[(a, Native) := if k <= 5 then 10 else 15], []),
          if k == 0 then [] else [FiveTx(0)],
          if k <= 1 then [] else [Mined(FiveTx(0), true, 1, 1)],
          if k <= 1 then 10 else 9,
          if k <= 1 then [] else [Incoming(Signed(FiveTx(0)), 5)], {},
          if k <= 3 then [] else [SelfRow(a)],
          if k <= 2 || k == 6 then map[] else map[0 := Scan(a, if k == 3 then [] else [SelfRow(a)])],
          if k <= 5 then [] else [SelfRow(a)],
          if k == 0 then [] else [0], map[(a, Native) := 10], 0, {})
  }

  ghost function RaceStage(k: nat, a: WalletId): State {
    State(RaceWorld(k, a), if 1 <= k <= 4 then Some(Sending(SendFive(a, 0), Fee(), 0)) else None)
  }

  lemma RaceSends(k: nat, a: WalletId)
    requires k <= 2
    ensures Allowed(RaceStage(k, a), RaceAct(k, a)) && After(RaceStage(k, a), RaceAct(k, a)) == RaceStage(k + 1, a)
  {
  }

  lemma RaceScans(a: WalletId)
    ensures Allowed(RaceStage(3, a), RaceAct(3, a)) && After(RaceStage(3, a), RaceAct(3, a)) == RaceStage(4, a)
  {
    assert !KeyTaken(RaceWorld(3, a), SelfRow(a));
    assert RaceWorld(3, a).incoming[0] == Incoming(SelfRow(a).hash, SelfRow(a).amount);
    assert RaceWorld(3, a).scans[0].pending + [SelfRow(a)] == [SelfRow(a)];
  }

  lemma RaceClashes(a: WalletId)
    ensures Clash(RaceStage(4, a)) && Allowed(RaceStage(4, a), RaceAct(4, a))
    ensures After(RaceStage(4, a), RaceAct(4, a)) == RaceStage(5, a)
  {
    assert RaceWorld(4, a).rows[0] == SelfRow(a);
    assert Key(SelfRow(a)) == Key(LateKey(RaceWorld(4, a).tables, Sending(SendFive(a, 0), Fee(), 0)));
  }

  lemma CreditsOne(t: Tables, wallet: WalletId, d: DepositRow)
    requires d.token.None? && d.amount > 0
    ensures Credit(t, wallet, NativeTotal([d]), TokenCredits([d]))
         == SetBal(t, wallet, Native, Bal(t, wallet, Native) + d.amount)
  {
    assert [d][..0] == [];
    assert TokenCredits([d]) == [];
  }

  lemma RaceCredits(a: WalletId)
    ensures Allowed(RaceStage(5, a), RaceAct(5, a)) && After(RaceStage(5, a), RaceAct(5, a)) == RaceStage(6, a)
  {
    CreditsOne(RaceWorld(5, a).tables, a, SelfRow(a));
    assert RaceWorld(5, a).scans - {0} == map[];
  }

  lemma RaceStep(k: nat, a: WalletId, s: State, p: Policy) returns (act: Act, s': State)
    requires k < 6 && s == RaceStage(k, a) && a in p.scanning && a in p.paying
    ensures Allowed(s, act) && s' == After(s, act) && s' == RaceStage(k + 1, a) && Within(act, 0, p)
  {
    act, s' := RaceAct(k, a), RaceStage(k + 1, a);
    if k <= 2 { RaceSends(k, a); }
    else if k == 3 { RaceScans(a); }
    else if k == 4 { RaceClashes(a); }
    else { RaceCredits(a); }
  }

  lemma {:induction false} RaceRuns(k: nat, a: WalletId, start: State, p: Policy) returns (acts: seq<Act>, s: State)
    requires k <= 6 && start == RaceStage(0, a) && a in p.scanning && a in p.paying
    ensures s == RaceStage(k, a) && Acts(start, acts, s) && AllWithin(acts, 0, p)
  {
    acts, s := [], start;
    if k > 0 {
      var before, v := RaceRuns(k - 1, a, start, p);
      var act, next := RaceStep(k - 1, a, v, p);
      ActsSnoc(start, before, v, act, 0, p);
      acts, s := before + [act], next;
    }
  }

  /** Deposit keys are taken outside the lock, so one wallet is enough: sending five to its own
      address while it is scanned leaves fifteen promised out of nine, and no row of the send. */
  lemma LateRowBreaksSolvency(a: WalletId, p: Policy) returns (start: World, acts: seq<Act>, s: State)
    requires a in p.scanning && a in p.paying
    ensures Keeps(start, acts, s, p) && start.slack == 0 && s.sending.None?
    ensures s.world.funds == 9 && Promised(s.world) == 15 && !Solvent(Intended(s))
    ensures s.world.tables.log == [] && |s.world.mined| == 1
  {
    start := RaceWorld(0, a);
    acts, s := RaceRuns(6, a, State(start, None), p);
    OneTotal(a, Holding(start.tables, Native));
    OneTotal(a, Holding(s.world.tables, Native));
  }

  // ---------------------------------------------------------------- a send dropped after its broadcast

  ghost function Opening(a: WalletId): World {
    World(0, [a], Tables(map[(a, Native) := 10], []), [], [], 10, [], {}, [], map[], [], [],
          map[(a, Native) := 10], 0, {})
  }

  ghost function Submitted(a: WalletId): State {
    State(Opening(a).(sent := [FiveTx(1)], slot := [0]), Some(Sending(SendFive(a, 1), Fee(), 0)))
  }

  lemma OpeningStarts(a: WalletId)
    ensures Start(Opening(a)) && Opening(a).slack == 0
    ensures Allowed(State(Opening(a), None), Submit(SendFive(a, 1), Fee(), 0))
    ensures After(State(Opening(a), None), Submit(SendFive(a, 1), Fee(), 0)) == Submitted(a)
  {
    OneTotal(a, Holding(Opening(a).tables, Native));
  }

  lemma FiveMined(w: World)
    requires w.self == 0 && w.mined == [] && w.sent == [FiveTx(1)] && w.incoming == []
    ensures Enabled(w, Mine(0, true, 1, 1))
    ensures Apply(w, Mine(0, true, 1, 1)) == w.(mined := [Mined(FiveTx(1), true, 1, 1)], funds := w.funds - 6)
  {
  }

  /** The transaction times out or the process dies between the broadcast and its commit: ten stay
      promised, and four are left once the send is mined. */
  lemma DropBreaksSolvency(a: WalletId, p: Policy) returns (start: World, acts: seq<Act>, s: State)
    requires p.drops
    ensures Keeps(start, acts, s, p) && start.slack == 0 && s.sending.None?
    ensures s.world.funds == 4 && Promised(s.world) == 10 && !Solvent(Intended(s))
  {
    OpeningStarts(a);
    start := Opening(a);
    var s0, s1 := State(start, None), Submitted(a);
    var s2 := State(s1.world, None);
    var send := Submit(SendFive(a, 1), Fee(), 0);
    var mine := Meanwhile(Mine(0, true, 1, 1));
    ActsSnoc(s0, [], s0, send, 0, p);
    ActsSnoc(s0, [] + [send], s1, Drop, 0, p);
    FiveMined(s2.world);
    s := After(s2, mine);
    ActsSnoc(s0, [] + [send] + [Drop], s2, mine, 0, p);
    acts := [] + [send] + [Drop] + [mine];
    OneTotal(a, Holding(s.world.tables, Native));
  }

  // ---------------------------------------------------------------- a transaction the node forgets

  ghost function FiveRow(a: WalletId): Record {
    SentRow(SendFive(a, 1), Fee(), 0)
  }

  ghost function Written(a: WalletId): World {
    Submitted(a).world.(tables := Tables(map[(a, Native) := 4], [FiveRow(a)]))
  }

  lemma RowWritten(a: WalletId)
    ensures Allowed(Submitted(a), WriteRow) && After(Submitted(a), WriteRow) == State(Written(a), None)
  {
    var t, o := Opening(a).tables, SendFive(a, 1);
    assert !Clash(Submitted(a));
    assert NextNonce(0, t.log) == 0;
    assert Send(t, o, Fee(), 0, true).balances == map[(a, Native) := 4];
  }

  ghost function MinedAndRead(a: WalletId): World {
    Written(a).(mined := [Mined(FiveTx(1), true, 1, 1)], funds := 4, views := {(0, FiveRow(a))})
  }

  lemma FiveRead(a: WalletId)
    ensures var w := Apply(Written(a), Mine(0, true, 1, 1));
            && Enabled(Written(a), Mine(0, true, 1, 1)) && Enabled(w, Fetched(0))
            && Apply(w, Fetched(0)) == MinedAndRead(a)
  {
    FiveMined(Written(a));
  }

  lemma SettledBlindly(a: WalletId)
    ensures var s, act := State(MinedAndRead(a), None), SettleBlind(0, FiveRow(a), []);
            && Allowed(s, act) && After(s, act).sending.None? && After(s, act).world.funds == 4
            && After(s, act).world.wallets == [a] && Bal(After(s, act).world.tables, a, Native) == 9
            && After(s, act).world.tables.log == [FiveRow(a).(status := Confirmed)]
  {
  }

  lemma BlindEnds(a: WalletId, v: State) returns (s: State)
    requires v == State(MinedAndRead(a), None)
    ensures Allowed(v, SettleBlind(0, FiveRow(a), [])) && s == After(v, SettleBlind(0, FiveRow(a), []))
    ensures s.sending.None? && s.world.funds == 4 && Promised(s.world) == 9
  {
    SettledBlindly(a);
    s := After(v, SettleBlind(0, FiveRow(a), []));
    OneTotal(a, Holding(s.world.tables, Native));
    NothingOutstanding(s.world.tables.log, s.world.mined);
  }

  /** The node no longer returns the mined transaction when its row is settled, so the five it carried
      are not charged: nine stay promised out of four. */
  lemma ForgettingBreaksSolvency(a: WalletId, p: Policy) returns (start: World, acts: seq<Act>, s: State)
    requires p.forgets
    ensures Keeps(start, acts, s, p) && start.slack == 0 && s.sending.None?
    ensures s.world.funds == 4 && Promised(s.world) == 9 && !Solvent(Intended(s))
  {
    OpeningStarts(a);
    start := Opening(a);
    var s0, s1, s2 := State(start, None), Submitted(a), State(Written(a), None);
    var send, mine, read := Submit(SendFive(a, 1), Fee(), 0), Meanwhile(Mine(0, true, 1, 1)), Meanwhile(Fetched(0));
    var settle := SettleBlind(0, FiveRow(a), []);
    ActsSnoc(s0, [], s0, send, 0, p);
    RowWritten(a);
    ActsSnoc(s0, [] + [send], s1, WriteRow, 0, p);
    FiveRead(a);
    ActsSnoc(s0, [] + [send] + [WriteRow], s2, mine, 0, p);
    ActsSnoc(s0, [] + [send] + [WriteRow] + [mine], After(s2, mine), read, 0, p);
    var s4 := State(MinedAndRead(a), None);
    s := BlindEnds(a, s4);
    ActsSnoc(s0, [] + [send] + [WriteRow] + [mine] + [read], s4, settle, 0, p);
    acts := [] + [send] + [WriteRow] + [mine] + [read] + [settle];
  }

  // ---------------------------------------------------------------- an overdrawn wallet

  /** Wallet b sends eight at a gas limit of two; it holds ten and wallet a holds five. */
  ghost function SendEight(b: WalletId): Order {
    Order(b, Ether, 1, NoData, 8)
  }

  ghost function DoubleFee(): Quote {
    Quote(2, 1, 15, 0, true)
  }

  ghost function EightTx(): SignedTx {
    SignedTx(0, 1, 8, 2, 1, NoData)
  }

  ghost function EightRow(b: WalletId): Record {
    SentRow(SendEight(b), DoubleFee(), 0)
  }

  ghost function PairOpening(a: WalletId, b: WalletId): World {
    var balances := map[(a, Native) := 5][(b, Native) := 10];
    World(0, [a, b], Tables(balances, []), [], [], 15, [], {}, [], map[], [], [], balances, 0, {})
  }

  ghost function PairSending(a: WalletId, b: WalletId): State {
    State(PairOpening(a, b).(sent := [EightTx()], slot := [0]), Some(Sending(SendEight(b), DoubleFee(), 0)))
  }

  ghost function PairSent(a: WalletId, b: WalletId): World {
    PairSending(a, b).world.(tables := Tables(map[(a, Native) := 5][(b, Native) := 0], [EightRow(b)]))
  }

  /** The transfer of minus five from a to b. */
  ghost function PairMoved(a: WalletId, b: WalletId): World {
    var out, into := TransferRow(a, Withdrawal, Native, -5), TransferRow(b, Deposit, Native, -5);
    PairSent(a, b).(tables := Tables(map[(a, Native) := 10][(b, Native) := -5], [EightRow(b), out, into]))
  }

  ghost function PairRead(a: WalletId, b: WalletId): World {
    PairMoved(a, b).(mined := [Mined(EightTx(), true, 2, 1)], funds := 5, views := {(0, EightRow(b))})
  }

  lemma PairTotal(a: WalletId, b: WalletId, f: WalletId -> int)
    ensures Sum([a, b], f) == f(a) + f(b)
  {
    assert [a, b] == [a] + [b];
    SumSnoc([a], b, f);
    OneTotal(a, f);
  }

  lemma PairStarts(a: WalletId, b: WalletId)
    requires a != b
    ensures Start(PairOpening(a, b)) && PairOpening(a, b).slack == 0
    ensures Allowed(State(PairOpening(a, b), None), Submit(SendEight(b), DoubleFee(), 0))
    ensures After(State(PairOpening(a, b), None), Submit(SendEight(b), DoubleFee(), 0)) == PairSending(a, b)
  {
    PairTotal(a, b, Holding(PairOpening(a, b).tables, Native));
  }

  lemma PairWrites(a: WalletId, b: WalletId)
    requires a != b
    ensures Allowed(PairSending(a, b), WriteRow) && After(PairSending(a, b), WriteRow) == State(PairSent(a, b), None)
  {
    var t := PairOpening(a, b).tables;
    assert !Clash(PairSending(a, b));
    assert NextNonce(0, t.log) == 0;
    assert Send(t, SendEight(b), DoubleFee(), 0, true).balances == map[(a, Native) := 5][(b, Native) := 0];
  }

  lemma PairOverdraws(a: WalletId, b: WalletId)
    requires a != b
    ensures Allowed(State(PairSent(a, b), None), Overdraw(a, b, -5))
    ensures After(State(PairSent(a, b), None), Overdraw(a, b, -5)) == State(PairMoved(a, b), None)
  {
    var t := PairSent(a, b).tables;
    assert a in PairSent(a, b).wallets by { assert PairSent(a, b).wallets[0] == a; }
    assert b in PairSent(a, b).wallets by { assert PairSent(a, b).wallets[1] == b; }
    assert Transfer(t, a, b, Native, -5).balances == map[(a, Native) := 10][(b, Native) := -5];
    assert Transfer(t, a, b, Native, -5).log == PairMoved(a, b).tables.log;
  }

  lemma PairReads(a: WalletId, b: WalletId)
    ensures var w := Apply(PairMoved(a, b), Mine(0, true, 2, 1));
            && Enabled(PairMoved(a, b), Mine(0, true, 2, 1)) && Enabled(w, Fetched(0))
            && Apply(w, Fetched(0)) == PairRead(a, b)
  {
  }

  /** The settlement owes ten, finds five, and clamps. */
  lemma PairClamps(a: WalletId, b: WalletId)
    requires a != b
    ensures var e, t := Settled(0, EightRow(b), []), PairRead(a, b).tables;
            && Enabled(PairRead(a, b), e)
            && var w := Apply(PairRead(a, b), e);
               && w.funds == 5 && w.wallets == [a, b] && Bal(w.tables, a, Native) == 10 && Bal(w.tables, b, Native) == 0
               && w.tables.log == t.log[0 := EightRow(b).(status := Confirmed)]
  {
  }

  lemma PairEnds(a: WalletId, b: WalletId, v: State) returns (s: State)
    requires a != b && v == State(PairRead(a, b), None)
    ensures Allowed(v, Meanwhile(Settled(0, EightRow(b), []))) && s == After(v, Meanwhile(Settled(0, EightRow(b), [])))
    ensures s.sending.None? && s.world.funds == 5 && Promised(s.world) == 10
  {
    PairClamps(a, b);
    s := After(v, Meanwhile(Settled(0, EightRow(b), [])));
    PairTotal(a, b, Holding(s.world.tables, Native));
    NothingOutstanding(s.world.tables.log, s.world.mined);
  }

  lemma OverdraftSends(a: WalletId, b: WalletId, s0: State, p: Policy) returns (acts: seq<Act>, s: State)
    requires a != b && b in p.overdrawn && s0 == State(PairOpening(a, b), None)
    ensures s == State(PairMoved(a, b), None) && Acts(s0, acts, s) && AllWithin(acts, 0, p)
  {
    var send := Submit(SendEight(b), DoubleFee(), 0);
    PairStarts(a, b);
    ActsSnoc(s0, [], s0, send, 0, p);
    PairWrites(a, b);
    ActsSnoc(s0, [] + [send], PairSending(a, b), WriteRow, 0, p);
    PairOverdraws(a, b);
    acts, s := [] + [send] + [WriteRow] + [Overdraw(a, b, -5)], State(PairMoved(a, b), None);
    ActsSnoc(s0, [] + [send] + [WriteRow], State(PairSent(a, b), None), Overdraw(a, b, -5), 0, p);
  }

  lemma OverdraftReads(a: WalletId, b: WalletId, s0: State, before: seq<Act>, v: State, p: Policy)
    returns (acts: seq<Act>, s: State)
    requires v == State(PairMoved(a, b), None) && Acts(s0, before, v) && AllWithin(before, 0, p)
    ensures s == State(PairRead(a, b), None) && Acts(s0, acts, s) && AllWithin(acts, 0, p)
  {
    var mine, read := Meanwhile(Mine(0, true, 2, 1)), Meanwhile(Fetched(0));
    PairReads(a, b);
    ActsSnoc(s0, before, v, mine, 0, p);
    ActsSnoc(s0, before + [mine], After(v, mine), read, 0, p);
    acts, s := before + [mine] + [read], State(PairRead(a, b), None);
  }

  /** A negative transfer overdraws b while its send is in flight, and the send's settlement clamps at
      zero: ten stay promised out of five, with nobody scanned for and no payment to oneself. */
  lemma OverdraftBreaksSolvency(a: WalletId, b: WalletId, p: Policy) returns (start: World, acts: seq<Act>, s: State)
    requires a != b && b in p.overdrawn
    ensures Keeps(start, acts, s, p) && start.slack == 0 && s.sending.None?
    ensures s.world.funds == 5 && Promised(s.world) == 10 && !Solvent(Intended(s))
  {
    PairStarts(a, b);
    start := PairOpening(a, b);
    var sent, moved := OverdraftSends(a, b, State(start, None), p);
    var before, v := OverdraftReads(a, b, State(start, None), sent, moved, p);
    var settle := Meanwhile(Settled(0, EightRow(b), []));
    s := PairEnds(a, b, v);
    acts := before + [settle];
    ActsSnoc(State(start, None), before, v, settle, 0, p);
  }

  // ---------------------------------------------------------------- a contract write of negative value

  /** Wallet b, which holds ten, writes to a contract with a value of minus five: four are added to its
      row, and the transaction carries nothing. */
  ghost function WriteMinusFive(b: WalletId): Order {
    Order(b, Call, 1, Bytes(0), -5)
  }

  ghost function EmptyTx(): SignedTx {
    SignedTx(0, 1, 0, 1, 1, Bytes(0))
  }

  ghost function MinusRow(b: WalletId): Record {
    SentRow(WriteMinusFive(b), Fee(), 0)
  }

  ghost function MinusOpening(a: WalletId, b: WalletId): World {
    var balances := map[(a, Native) := 0][(b, Native) := 10];
    World(0, [a, b], Tables(balances, []), [], [], 10, [], {}, [], map[], [], [], balances, 0, {})
  }

  ghost function MinusSending(a: WalletId, b: WalletId): State {
    State(MinusOpening(a, b).(sent := [EmptyTx()], slot := [0]), Some(Sending(WriteMinusFive(b), Fee(), 0)))
  }

  ghost function MinusSent(a: WalletId, b: WalletId): World {
    MinusSending(a, b).world.(tables := Tables(map[(a, Native) := 0][(b, Native) := 14], [MinusRow(b)]))
  }

  /** All fourteen are moved to a. */
  ghost function MinusMoved(a: WalletId, b: WalletId): World {
    var out, into := TransferRow(b, Withdrawal, Native, 14), TransferRow(a, Deposit, Native, 14);
    MinusSent(a, b).(tables := Tables(map[(a, Native) := 14][(b, Native) := 0], [MinusRow(b), out, into]))
  }

  ghost function MinusRead(a: WalletId, b: WalletId): World {
    MinusMoved(a, b).(mined := [Mined(EmptyTx(), true, 1, 1)], funds := 9, views := {(0, MinusRow(b))})
  }

  lemma MinusStarts(a: WalletId, b: WalletId)
    requires a != b
    ensures Start(MinusOpening(a, b)) && MinusOpening(a, b).slack == 0
    ensures Allowed(State(MinusOpening(a, b), None), Submit(WriteMinusFive(b), Fee(), 0))
    ensures After(State(MinusOpening(a, b), None), Submit(WriteMinusFive(b), Fee(), 0)) == MinusSending(a, b)
  {
    PairTotal(a, b, Holding(MinusOpening(a, b).tables, Native));
  }

  lemma MinusWrites(a: WalletId, b: WalletId)
    requires a != b
    ensures Allowed(MinusSending(a, b), WriteRow) && After(MinusSending(a, b), WriteRow) == State(MinusSent(a, b), None)
  {
    var t := MinusOpening(a, b).tables;
    assert !Clash(MinusSending(a, b));
    assert NextNonce(0, t.log) == 0;
    assert Send(t, WriteMinusFive(b), Fee(), 0, true).balances == map[(a, Native) := 0][(b, Native) := 14];
  }

  lemma MinusMoves(a: WalletId, b: WalletId)
    requires a != b
    ensures Enabled(MinusSent(a, b), Moved(b, a, Native, 14))
    ensures Apply(MinusSent(a, b), Moved(b, a, Native, 14)) == MinusMoved(a, b)
  {
    var t := MinusSent(a, b).tables;
    assert a in MinusSent(a, b).wallets by { assert MinusSent(a, b).wallets[0] == a; }
    assert b in MinusSent(a, b).wallets by { assert MinusSent(a, b).wallets[1] == b; }
    assert Transfer(t, b, a, Native, 14).balances == map[(a, Native) := 14][(b, Native) := 0];
    assert Transfer(t, b, a, Native, 14).log == MinusMoved(a, b).tables.log;
  }

  lemma MinusReads(a: WalletId, b: WalletId)
    ensures var w := Apply(MinusMoved(a, b), Mine(0, true, 1, 1));
            && Enabled(MinusMoved(a, b), Mine(0, true, 1, 1)) && Enabled(w, Fetched(0))
            && Apply(w, Fetched(0)) == MinusRead(a, b)
  {
  }

  /** The settlement takes the four back and owes one, finds nothing, and clamps. */
  lemma MinusClamps(a: WalletId, b: WalletId)
    requires a != b
    ensures var e, t := Settled(0, MinusRow(b), []), MinusRead(a, b).tables;
            && Enabled(MinusRead(a, b), e)
            && var w := Apply(MinusRead(a, b), e);
               && w.funds == 9 && w.wallets == [a, b] && Bal(w.tables, a, Native) == 14 && Bal(w.tables, b, Native) == 0
               && w.tables.log == t.log[0 := MinusRow(b).(status := Confirmed)]
  {
  }

  lemma MinusEnds(a: WalletId, b: WalletId, v: State) returns (s: State)
    requires a != b && v == State(MinusRead(a, b), None)
    ensures Allowed(v, Meanwhile(Settled(0, MinusRow(b), []))) && s == After(v, Meanwhile(Settled(0, MinusRow(b), [])))
    ensures s.sending.None? && s.world.funds == 9 && Promised(s.world) == 14
  {
    MinusClamps(a, b);
    s := After(v, Meanwhile(Settled(0, MinusRow(b), [])));
    PairTotal(a, b, Holding(s.world.tables, Native));
    NothingOutstanding(s.world.tables.log, s.world.mined);
  }

  lemma MinusSends(a: WalletId, b: WalletId, s0: State, p: Policy) returns (acts: seq<Act>, s: State)
    requires a != b && p.negative && s0 == State(MinusOpening(a, b), None)
    ensures s == State(MinusMoved(a, b), None) && Acts(s0, acts, s) && AllWithin(acts, 0, p)
  {
    var send, move := Submit(WriteMinusFive(b), Fee(), 0), Meanwhile(Moved(b, a, Native, 14));
    MinusStarts(a, b);
    ActsSnoc(s0, [], s0, send, 0, p);
    MinusWrites(a, b);
    ActsSnoc(s0, [] + [send], MinusSending(a, b), WriteRow, 0, p);
    MinusMoves(a, b);
    ActsSnoc(s0, [] + [send] + [WriteRow], State(MinusSent(a, b), None), move, 0, p);
    acts, s := [] + [send] + [WriteRow] + [move], State(MinusMoved(a, b), None);
  }

  lemma MinusReadActs(a: WalletId, b: WalletId, s0: State, before: seq<Act>, v: State, p: Policy)
    returns (acts: seq<Act>, s: State)
    requires v == State(MinusMoved(a, b), None) && Acts(s0, before, v) && AllWithin(before, 0, p)
    ensures s == State(MinusRead(a, b), None) && Acts(s0, acts, s) && AllWithin(acts, 0, p)
  {
    var mine, read := Meanwhile(Mine(0, true, 1, 1)), Meanwhile(Fetched(0));
    MinusReads(a, b);
    ActsSnoc(s0, before, v, mine, 0, p);
    ActsSnoc(s0, before + [mine], After(v, mine), read, 0, p);
    acts, s := before + [mine] + [read], State(MinusRead(a, b), None);
  }

  /** The negative value raises the wallet's row before anything is on chain; once that is spent, the
      settlement clamps, and fourteen stay promised out of nine. */
  lemma NegativeWriteBreaksSolvency(a: WalletId, b: WalletId, p: Policy)
      returns (start: World, acts: seq<Act>, s: State)
    requires a != b && p.negative
    ensures Keeps(start, acts, s, p) && start.slack == 0 && s.sending.None?
    ensures s.world.funds == 9 && Promised(s.world) == 14 && !Solvent(Intended(s))
  {
    MinusStarts(a, b);
    start := MinusOpening(a, b);
    var sent, moved := MinusSends(a, b, State(start, None), p);
    var before, v := MinusReadActs(a, b, State(start, None), sent, moved, p);
    var settle := Meanwhile(Settled(0, MinusRow(b), []));
    s := MinusEnds(a, b, v);
    acts := before + [settle];
    ActsSnoc(State(start, None), before, v, settle, 0, p);
  }

  // ---------------------------------------------------------------- exactly when

  lemma {:induction false} RunsAreActs(w: World, events: seq<Event>, w': World, self: nat, p: Policy)
    returns (acts: seq<Act>)
    requires Run(w, events, w') && ScansIn(events, p.scanning) && forall e :: e in events ==> !e.Sent?
    ensures Acts(State(w, None), acts, State(w', None)) && AllWithin(acts, self, p)
    decreases |events|
  {
    acts := [];
    if events != [] {
      assert events[0] in events;
      var rest := RunsAreActs(Apply(w, events[0]), events[1..], w', self, p);
      acts := [Meanwhile(events[0])] + rest;
      assert acts[1..] == rest;
    }
  }

  lemma TwoScansBreakIt(a: WalletId, b: WalletId, p: Policy)
    requires a in p.scanning && b in p.scanning && a != b
    ensures !AlwaysSolventUnder(p)
  {
    var start, events, w := TwoScanningWalletsBreakSolvency(a, b);
    assert forall e :: e in events && e.ScanBegun? ==> e.wallet in {a, b};
    var acts := RunsAreActs(start, events, w, start.self, p);
    assert Keeps(start, acts, State(w, None), p);
  }

  lemma UnsoundBreaksIt(p: Policy)
    requires !Sound(p)
    ensures !AlwaysSolventUnder(p)
  {
    var start, acts, s;
    if a :| a in p.scanning && a in p.paying {
      start, acts, s := LateRowBreaksSolvency(a, p);
    } else if b :| b in p.overdrawn {
      start, acts, s := OverdraftBreaksSolvency(b + 1, b, p);
    } else if p.negative {
      start, acts, s := NegativeWriteBreaksSolvency(0, 1, p);
    } else if p.drops {
      start, acts, s := DropBreaksSolvency(0, p);
    } else {
      start, acts, s := ForgettingBreaksSolvency(0, p);
    }
    assert Keeps(start, acts, s, p);
  }

  /** Solvency holds in all runs exactly when at most one wallet of the group is ever scanned for, no
      wallet that is scanned for pays the group's own address, no transfer of ether overdraws its
      target, no contract write carries a negative value, no transaction is dropped after its broadcast,
      and the node forgets none. */
  lemma AlwaysSolventIff(p: Policy)
    ensures AlwaysSolventUnder(p) <==>
            && ScansOne(p) && p.scanning !! p.paying && p.overdrawn == {} && !p.negative && !p.drops && !p.forgets
  {
    if a, b :| a in p.scanning && b in p.scanning && a != b {
      TwoScansBreakIt(a, b, p);
    } else if !Sound(p) {
      UnsoundBreaksIt(p);
    } else {
      forall start, acts, s | Keeps(start, acts, s, p) ensures Solvent(Intended(s)) {
        SoundStaysSolvent(start, acts, s, p);
      }
    }
  }
}
