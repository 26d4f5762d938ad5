/** When the ether promised to wallets stays covered by the address, and how often a deposit is credited. */
module Solvency {
  import opened Prelude
  import opened Ledger
  import opened World
  import opened Conservation
  import opened Custody

  // ---------------------------------------------------------------- at most once

  /** Under any interleaving of scans and any crashes, each (wallet, hash, asset type) is credited
      at most once, and only from a recorded row. */
  lemma CreditedAtMostOnce(start: World, events: seq<Event>, w: World)
    requires Start(start) && Run(start, events, w)
    ensures forall i, j :: 0 <= i < j < |w.credits| ==> Key(w.credits[i]) != Key(w.credits[j])
    ensures forall d :: d in w.credits ==> d in w.rows
  {
    StartInv(start);
    RunInv(start, events, w);
    CreditsHaveKeys(w.credits, w.rows);
  }

  /** Different rows chosen from a table with unique keys have different keys. */
  lemma CreditsHaveKeys(credits: seq<DepositRow>, rows: seq<DepositRow>)
    requires Distinct(credits) && forall d :: d in credits ==> d in rows
    requires forall i, j :: 0 <= i < j < |rows| ==> Key(rows[i]) != Key(rows[j])
    ensures forall i, j :: 0 <= i < j < |credits| ==> Key(credits[i]) != Key(credits[j])
  {
    forall i, j | 0 <= i < j < |credits| ensures Key(credits[i]) != Key(credits[j]) {
      assert credits[i] in rows && credits[j] in rows;
      var k :| 0 <= k < |rows| && rows[k] == credits[i];
      var l :| 0 <= l < |rows| && rows[l] == credits[j];
    }
  }

  /** A recorded row that no scan owes any more and that is not credited. */
  ghost predicate Forgotten(w: World, d: DepositRow) {
    d in w.rows && d !in w.credits && forall s :: s in w.scans ==> d !in w.scans[s].pending
  }

  /** The guarantee is at most once, not exactly once: what a scan recorded but had not credited
      when it died is never credited afterwards, by any scan. */
  lemma {:induction false} ForgottenStaysForgotten(w: World, d: DepositRow, events: seq<Event>, w': World)
    requires Forgotten(w, d) && Run(w, events, w')
    ensures Forgotten(w', d)
    decreases |events|
  {
    if events != [] {
      var e := events[0];
      var next := Apply(w, e);
      if e.ScanFound? { assert e.row != d by { assert Key(d) == Key(d); } }
      forall s | s in next.scans ensures d !in next.scans[s].pending {
        if s in w.scans { assert d !in w.scans[s].pending; }
      }
      if e.ScanCredited? { assert d !in w.scans[e.scan].pending; }
      ForgottenStaysForgotten(next, d, events[1..], w');
    }
  }

  lemma DyingScanForgets(w: World, scan: nat, d: DepositRow)
    requires Inv(w) && scan in w.scans && d in w.scans[scan].pending
    ensures Forgotten(Apply(w, ScanLost(scan)), d)
  {
    assert Owes(w, w.scans[scan]);
    forall s | s in w.scans && s != scan ensures d !in w.scans[s].pending {
      assert Apart(w.scans[scan].pending, w.scans[s].pending);
    }
  }

  /** Somewhere in the run a scan dies with rows it has recorded and not credited. */
  ghost predicate Loses(w: World, events: seq<Event>)
    decreases |events|
  {
    && events != [] && Enabled(w, events[0])
    && (LosesRows(w, events[0]) || Loses(Apply(w, events[0]), events[1..]))
  }

  ghost predicate LosesRows(w: World, e: Event)
    requires Enabled(w, e)
  {
    e.ScanLost? && w.scans[e.scan].pending != []
  }

  /** A step forgets a row, when none is forgotten yet, exactly when a scan dies owing one. */
  lemma StepForgetsIff(w: World, e: Event)
    requires Inv(w) && Enabled(w, e) && forall d :: !Forgotten(w, d)
    ensures (exists d :: Forgotten(Apply(w, e), d)) <==> LosesRows(w, e)
  {
    if LosesRows(w, e) {
      DyingScanForgets(w, e.scan, w.scans[e.scan].pending[0]);
    } else {
      forall d ensures !Forgotten(Apply(w, e), d) { StillOwed(w, e, d); }
    }
  }

  lemma StillOwed(w: World, e: Event, d: DepositRow)
    requires Enabled(w, e) && !LosesRows(w, e) && !Forgotten(w, d)
    ensures !Forgotten(Apply(w, e), d)
  {
    var w' := Apply(w, e);
    if d in w'.rows && d !in w'.credits {
      if d in w.rows {
        var s :| s in w.scans && d in w.scans[s].pending;
        assert s in w'.scans && d in w'.scans[s].pending;
      } else {
        assert e.ScanFound? && d == e.row && d in w'.scans[e.scan].pending;
      }
    }
  }

  lemma {:induction false} LostFromHereIff(w: World, events: seq<Event>, w': World)
    requires Inv(w) && Run(w, events, w') && forall d :: !Forgotten(w, d)
    ensures (exists d :: Forgotten(w', d)) <==> Loses(w, events)
    decreases |events|
  {
    if events != [] {
      var next := Apply(w, events[0]);
      InvKept(w, events[0]);
      StepForgetsIff(w, events[0]);
      if LosesRows(w, events[0]) {
        var d :| Forgotten(next, d);
        ForgottenStaysForgotten(next, d, events[1..], w');
      } else {
        LostFromHereIff(next, events[1..], w');
      }
    }
  }

  /** Exactly-once crediting fails in exactly the runs in which some scan dies between recording a
      deposit and crediting it: in all others every recorded deposit is credited or still owed. */
  lemma RecordedDepositsAreLostIff(start: World, events: seq<Event>, w: World)
    requires Start(start) && Run(start, events, w)
    ensures (exists d :: Forgotten(w, d)) <==> Loses(start, events)
  {
    StartInv(start);
    LostFromHereIff(start, events, w);
  }

  // ---------------------------------------------------------------- solvency

  /** In every reachable state the group is solvent exactly when the ether credited so far is
      covered by the deposits that arrived and the ether nobody was promised. */
  lemma SolventIff(start: World, events: seq<Event>, w: World)
    requires Start(start) && Run(start, events, w)
    ensures Solvent(w) <==> Sum(w.credits, NativeOf()) <= w.slack + Sum(w.incoming, Arrived())
  {
    StartInv(start);
    RunInv(start, events, w);
  }

  /** Credits with distinct hashes, each for an amount that arrived, are covered by the arrivals. */
  lemma {:induction false} CreditsCovered(credits: seq<DepositRow>, incoming: seq<Incoming>)
    requires forall i, j :: 0 <= i < j < |credits| && credits[i].token.None? && credits[j].token.None? ==>
        credits[i].hash != credits[j].hash
    requires forall d :: d in credits && d.token.None? ==> Incoming(d.hash, d.amount) in incoming
    ensures Sum(credits, NativeOf()) <= Sum(incoming, Arrived())
    decreases |credits|
  {
    if credits == [] {
      ArrivedNonNegative(incoming);
    } else {
      var init, last := credits[..|credits| - 1], credits[|credits| - 1];
      if last.token.None? {
        var k :| 0 <= k < |incoming| && incoming[k] == Incoming(last.hash, last.amount);
        var rest := incoming[..k] + incoming[k + 1..];
        forall d | d in init && d.token.None? ensures Incoming(d.hash, d.amount) in rest {
          var j :| 0 <= j < |incoming| && incoming[j] == Incoming(d.hash, d.amount);
          assert rest[if j < k then j else j - 1] == incoming[j];
        }
        CreditsCovered(init, rest);
        SumRemove(incoming, k, Arrived());
      } else {
        CreditsCovered(init, incoming);
      }
    }
  }

  lemma {:induction false} ArrivedNonNegative(incoming: seq<Incoming>)
    ensures Sum(incoming, Arrived()) >= 0
    decreases |incoming|
  {
    if incoming != [] {
      ArrivedNonNegative(incoming[..|incoming| - 1]);
    }
  }

  /** Every scan of the run credits one and the same wallet of the group. */
  ghost predicate ScansFor(events: seq<Event>, wallet: WalletId) {
    forall e :: e in events && e.ScanBegun? ==> e.wallet == wallet
  }

  ghost predicate OnlyFor(w: World, wallet: WalletId) {
    (forall d :: d in w.rows ==> d.wallet == wallet) && (forall s :: s in w.scans ==> w.scans[s].wallet == wallet)
  }

  lemma {:induction false} OnlyForKept(w: World, events: seq<Event>, w': World, wallet: WalletId)
    requires Run(w, events, w') && ScansFor(events, wallet) && OnlyFor(w, wallet)
    ensures OnlyFor(w', wallet)
    decreases |events|
  {
    if events != [] {
      var next := Apply(w, events[0]);
      assert events[0] in events;
      forall d | d in next.rows ensures d.wallet == wallet {}
      forall s | s in next.scans ensures next.scans[s].wallet == wallet {}
      OnlyForKept(next, events[1..], w', wallet);
    }
  }

  lemma OneWalletCovered(w: World, wallet: WalletId)
    requires UniqueRows(w) && Owed(w) && OnlyFor(w, wallet)
    ensures Sum(w.credits, NativeOf()) <= Sum(w.incoming, Arrived())
  {
    CreditsHaveKeys(w.credits, w.rows);
    CreditsCovered(w.credits, w.incoming);
  }

  /** Solvency over whole runs: when all scans of the group credit one wallet, the promised ether
      never exceeds what the address holds, whatever sends, settlements, transfers, deposits,
      overlapping scans and crashes the run contains. A send's row is written with its broadcast in
      these runs, and no transfer overdraws its target; Limits.AlwaysSolventIff covers the rest. */
  lemma SolventWithOneScanningWallet(start: World, events: seq<Event>, w: World, wallet: WalletId)
    requires Start(start) && Run(start, events, w) && ScansFor(events, wallet) && start.slack >= 0
    ensures Solvent(w)
  {
    StartInv(start);
    RunInv(start, events, w);
    RunExtends(start, events, w);
    OnlyForKept(start, events, w, wallet);
    OneWalletCovered(w, wallet);
    SolventIff(start, events, w);
  }

  ghost function Five(wallet: WalletId): DepositRow {
    DepositRow(wallet, Foreign(7), None, 5)
  }

  /** Seven events: a deposit of five arrives, and two scans of one group, for wallets a and b,
      both record it and then both credit it. */
  ghost function Overlap(k: nat, a: WalletId, b: WalletId): Event {
    if k == 0 then Income(Foreign(7), 5)
    else if k == 1 then ScanBegun(0, a)
    else if k == 2 then ScanBegun(1, b)
    else if k == 3 then ScanFound(0, Five(a))
    else if k == 4 then ScanFound(1, Five(b))
    else if k == 5 then ScanCredited(0)
    else ScanCredited(1)
  }

  /** The states between those events, from an empty group. */
  ghost function Stage(k: nat, a: WalletId, b: WalletId): World {
    World(0, [a, b],
          Tables(if k <= 5 then map[] else if k == 6 then map[(a, Native) := 5]
                 else map[(a, Native) := 5][(b, Native) := 5], []),
          [], [], if k == 0 then 0 else 5, if k == 0 then [] else [Incoming(Foreign(7), 5)], {},
          if k <= 3 then [] else if k == 4 then [Five(a)] else [Five(a), Five(b)],
          if k <= 1 then map[]
          else if k == 2 then map[0 := Scan(a, [])]
          else if k == 3 then map[0 := Scan(a, []), 1 := Scan(b, [])]
          else if k == 4 then map[0 := Scan(a, [Five(a)]), 1 := Scan(b, [])]
          else if k == 5 then map[0 := Scan(a, [Five(a)]), 1 := Scan(b, [Five(b)])]
          else if k == 6 then map[1 := Scan(b, [Five(b)])]
          else map[],
          if k <= 5 then [] else if k == 6 then [Five(a)] else [Five(a), Five(b)],
          [], map[], 0, {})
  }

  lemma OverlapRecords(k: nat, a: WalletId, b: WalletId)
    requires k < 5 && a != b
    ensures Enabled(Stage(k, a, b), Overlap(k, a, b)) && Apply(Stage(k, a, b), Overlap(k, a, b)) == Stage(k + 1, a, b)
  {
    if k == 3 {
      assert !KeyTaken(Stage(3, a, b), Five(a));
      assert Stage(3, a, b).rows + [Five(a)] == [Five(a)] && Stage(3, a, b).scans[0].pending + [Five(a)] == [Five(a)];
    } else if k == 4 {
      assert !KeyTaken(Stage(4, a, b), Five(b));
      assert [Five(a)] + [Five(b)] == [Five(a), Five(b)];
      assert Stage(4, a, b).scans[1].pending + [Five(b)] == [Five(b)];
    }
  }

  lemma CreditsFive(t: Tables, wallet: WalletId)
    ensures Credit(t, wallet, NativeTotal([Five(wallet)]), TokenCredits([Five(wallet)]))
         == SetBal(t, wallet, Native, Bal(t, wallet, Native) + 5)
  {
    assert [Five(wallet)][..0] == [];
    assert TokenCredits([Five(wallet)]) == [];
  }

  lemma OverlapCreditsFirst(a: WalletId, b: WalletId)
    requires a != b
    ensures Enabled(Stage(5, a, b), Overlap(5, a, b)) && Apply(Stage(5, a, b), Overlap(5, a, b)) == Stage(6, a, b)
  {
    CreditsFive(Stage(5, a, b).tables, a);
    assert Stage(5, a, b).scans - {0} == Stage(6, a, b).scans;
  }

  lemma OverlapCreditsSecond(a: WalletId, b: WalletId)
    requires a != b
    ensures Enabled(Stage(6, a, b), Overlap(6, a, b)) && Apply(Stage(6, a, b), Overlap(6, a, b)) == Stage(7, a, b)
  {
    CreditsFive(Stage(6, a, b).tables, b);
    assert Stage(6, a, b).scans - {1} == Stage(7, a, b).scans;
    assert [Five(a)] + [Five(b)] == [Five(a), Five(b)];
  }

  lemma OverlapStep(k: nat, a: WalletId, b: WalletId, v: World) returns (e: Event, w: World)
    requires k < 7 && a != b && v == Stage(k, a, b)
    ensures Enabled(v, e) && w == Apply(v, e) && w == Stage(k + 1, a, b)
    ensures !e.Sent? && (e.ScanBegun? ==> e.wallet in {a, b})
  {
    e, w := Overlap(k, a, b), Stage(k + 1, a, b);
    if k < 5 { OverlapRecords(k, a, b); } else if k == 5 { OverlapCreditsFirst(a, b); }
        else { OverlapCreditsSecond(a, b); }
  }

  lemma {:induction false} OverlapRuns(k: nat, a: WalletId, b: WalletId, start: World)
      returns (events: seq<Event>, w: World)
    requires k <= 7 && a != b && start == Stage(0, a, b)
    ensures w == Stage(k, a, b) && Run(start, events, w) && ScansIn(events, {a, b})
    ensures forall e :: e in events ==> !e.Sent?
  {
    events, w := [], start;
    if k > 0 {
      var before, v := OverlapRuns(k - 1, a, b, start);
      var e, next := OverlapStep(k - 1, a, b, v);
      RunSnoc(start, before, v, e);
      events, w := before + [e], next;
    }
  }

  lemma PairTotal(a: WalletId, b: WalletId, f: WalletId -> int)
    ensures Sum([a, b], f) == f(a) + f(b)
  {
    assert [a, b] == [a] + [b] && [a] == [] + [a];
    SumSnoc([a], b, f);
    SumSnoc([], a, f);
  }

  lemma EmptyPairStarts(a: WalletId, b: WalletId)
    requires a != b
    ensures Start(Stage(0, a, b)) && Stage(0, a, b).slack == 0
  {
    PairTotal(a, b, Holding(Stage(0, a, b).tables, Native));
  }

  lemma TenPromised(a: WalletId, b: WalletId)
    requires a != b
    ensures Stage(7, a, b).funds == 5 && Promised(Stage(7, a, b)) == 10
  {
    PairTotal(a, b, Holding(Stage(7, a, b).tables, Native));
  }

  /** Deduplication is per wallet, so two wallets of one group that scan the same block are both
      credited: from an empty group, a single deposit of five leaves ten promised. */
  lemma TwoScanningWalletsBreakSolvency(a: WalletId, b: WalletId) returns (start: World, events: seq<Event>, w: World)
    requires a != b
    ensures Start(start) && start.slack == 0 && Run(start, events, w) && ScansIn(events, {a, b})
    ensures forall e :: e in events ==> !e.Sent?
    ensures w.funds == 5 && Promised(w) == 10 && !Solvent(w)
  {
    start := Stage(0, a, b);
    events, w := OverlapRuns(7, a, b, start);
    EmptyPairStarts(a, b);
    TenPromised(a, b);
  }

  ghost predicate ScansIn(events: seq<Event>, scanning: set<WalletId>) {
    forall e :: e in events && e.ScanBegun? ==> e.wallet in scanning
  }

  /** When only these wallets ever scan, every run of a group that starts covered stays solvent. */
  ghost predicate AlwaysSolvent(scanning: set<WalletId>) {
    forall start, events, w ::
      Start(start) && start.slack >= 0 && Run(start, events, w) && ScansIn(events, scanning) ==>
        Solvent(w)
  }

  /** Where a send's row is written with its broadcast, solvency holds in all runs exactly when at most
      one wallet of the group scans; Limits.AlwaysSolventIff is about all runs. */
  lemma AlwaysSolventIffOneScans(scanning: set<WalletId>)
    ensures AlwaysSolvent(scanning) <==> forall a, b :: a in scanning && b in scanning ==> a == b
  {
    if a, b :| a in scanning && b in scanning && a != b {
      var start, events, w := TwoScanningWalletsBreakSolvency(a, b);
      assert ScansIn(events, scanning);
    } else {
      forall start, events, w | Start(start) && start.slack >= 0 && Run(start, events, w) && ScansIn(events, scanning)
        ensures Solvent(w)
      {
        var wallet: WalletId := 0;
        if scanning != {} { wallet :| wallet in scanning; }
        SolventWithOneScanningWallet(start, events, w, wallet);
      }
    }
  }
}
