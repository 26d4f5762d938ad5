/**
 The two halves put together: however the service's bodies interleave over however many groups, the
 committed rows of one group are those of a run of its custody world, as long as the node's answers
 and the chain are ones that world allows. Everything proved of reachable worlds then holds of them.
 */
module Composition {
  import opened Ledger
  import opened World
  import opened Conservation
  import opened Interleaving
  import opened Bodies

  /** The chain, the reconcilers' reads, the scans' row writes and new wallets; none of them changes
      what a balance reads as. */
  ghost predicate Outside(e: Event) {
    e.Mine? || e.Joined? || e.Income? || e.Windfall? || e.Fetched? || e.ScanBegun? || e.ScanFound? || e.ScanLost?
  }

  /** The event describes this job with these answers. */
  ghost predicate Describes(w: World, job: Job, replies: seq<Reply>, e: Event) {
    match job
    case SendJob(o) =>
      var k := if o.payment.Erc20? then 6 else 4;
      && e.Sent? && e.o == o && replies != [] && e.q == replies[0].quote
      && (k + 2 < |replies| ==>
            && e.chainPending == replies[k].chainPending && e.accepted == replies[k + 2].accepted
            && !RowLost(replies[k + 2]))
    case SettleJob(id, seen, rc) =>
      && e.Settled? && e.id == id && e.seen == seen && HasReceipt(w, seen)
      && rc == ReceiptOf(w.mined[seen.hash.value.tx.nonce], e.deltas)
    case TransferJob(source, target, a, amount) => e == Moved(source, target, a, amount)
    case CreditJob(wallet, native, credits) =>
      && e.ScanCredited? && e.scan in w.scans && w.scans[e.scan].wallet == wallet
      && native == NativeTotal(w.scans[e.scan].pending) && credits == TokenCredits(w.scans[e.scan].pending)
  }

  /** A ledger step with the answers an event records is that event on the tables. */
  lemma StepIsEvent(w: World, job: Job, replies: seq<Reply>, e: Event, t': Tables)
    requires Enabled(w, e) && Describes(w, job, replies, e) && LedgerStep(w.tables, job, replies, t')
    ensures Apply(w, e).tables == t'
  {
  }

  lemma MergedAlike(db: Database, g: Group, over: Overlay, s: Tables, groupOf: WalletId -> Group)
    requires SameFor(Slice(db, g), s, groupOf, g)
    ensures SameFor(Slice(Merge(db, g, over), g), View(s, over), groupOf, g)
  {
    forall w: WalletId, a: Asset | groupOf(w) == g
      ensures Bal(Slice(Merge(db, g, over), g), w, a) == Bal(View(s, over), w, a)
    {
      OverlayReads(Slice(db, g), over, w, a);
      OverlayReads(s, over, w, a);
      assert Slice(Merge(db, g, over), g).balances == View(Slice(db, g), over).balances;
    }
  }

  /** The world's tables are the group's committed rows. */
  ghost predicate Mirrors(db: Database, w: World, groupOf: WalletId -> Group, g: Group) {
    SameFor(Slice(db, g), w.tables, groupOf, g)
  }

  /** A finished body of the group does its ledger step on the world's copy of the rows too. */
  lemma BodyMirrored(db: Database, entry: Entry, w: World, job: Job, groupOf: WalletId -> Group) returns (t': Tables)
    requires Final(Alone(Slice(db, entry.group), NOTHING, entry.body, entry.replies).0)
    requires Mirrors(db, w, groupOf, entry.group) && entry.body == BodyOf(job) && JobOf(job, groupOf, entry.group)
    ensures LedgerStep(w.tables, job, entry.replies, t')
    ensures SameFor(Slice(AfterEntry(db, entry), entry.group), t', groupOf, entry.group)
  {
    JobConfined(job, groupOf, entry.group);
    var t, s := Slice(db, entry.group), w.tables;
    AloneFramed(t, s, NOTHING, entry.body, entry.replies, groupOf, entry.group);
    var over := Alone(s, NOTHING, entry.body, entry.replies).1;
    assert View(s, NOTHING) == s by { assert s.balances + map[] == s.balances; }
    AloneIsRunOn(s, NOTHING, entry.body, entry.replies);
    JobAlone(s, job, entry.replies);
    t' := Left(s, entry.body, entry.replies);
    MergedAlike(db, entry.group, over, s, groupOf);
  }

  /** A finished body of the group changes its rows and the world's copy of them alike. */
  lemma BodyFollowed(db: Database, entry: Entry, w: World, job: Job, e: Event, groupOf: WalletId -> Group)
    requires Final(Alone(Slice(db, entry.group), NOTHING, entry.body, entry.replies).0)
    requires Mirrors(db, w, groupOf, entry.group) && entry.body == BodyOf(job) && JobOf(job, groupOf, entry.group)
    requires Enabled(w, e) && Describes(w, job, entry.replies, e)
    ensures Mirrors(AfterEntry(db, entry), Apply(w, e), groupOf, entry.group)
  {
    var t' := BodyMirrored(db, entry, w, job, groupOf);
    StepIsEvent(w, job, entry.replies, e, t');
  }

  lemma OutsideKeepsTables(db: Database, v: World, e: Event, groupOf: WalletId -> Group, g: Group)
    requires Inv(v) && Outside(e) && Enabled(v, e) && Mirrors(db, v, groupOf, g)
    ensures Mirrors(db, Apply(v, e), groupOf, g)
  {
  }

  lemma ServedIsConfined(b: Body, groupOf: WalletId -> Group, g: Group)
    requires Serves(b, groupOf, g)
    ensures Confined(b, groupOf, g)
  {
    var job :| b == BodyOf(job) && JobOf(job, groupOf, g);
    JobConfined(job, groupOf, g);
  }

  /** Where the finished bodies of all groups fall among the events around one group. */
  datatype Placed = Body(entry: Entry) | Outer(event: Event)

  ghost function EntriesPlaced(placed: seq<Placed>): seq<Entry>
    decreases |placed|
  {
    if placed == [] then []
    else (if placed[0].Body? then [placed[0].entry] else []) + EntriesPlaced(placed[1..])
  }

  /** What the answers a job got must be when it runs in this state: the pending count lies between
      mined and broadcast, no row of a broadcast is lost, a settled copy was read and its receipt is the
      chain's, a transfer is between two wallets of the group and does not overdraw its target, and a
      credit is what one scan found. */
  ghost predicate Fair(w: World, job: Job, replies: seq<Reply>) {
    match job
    case SendJob(o) =>
      var k := if o.payment.Erc20? then 6 else 4;
      && o.wallet in w.wallets
      && (k + 2 < |replies| ==>
            && |w.mined| <= replies[k].chainPending <= |w.sent| && !RowLost(replies[k + 2])
            && (replies[k + 2].accepted && Refuse(w.tables, o, replies[0].quote).None? ==>
                  o.amount >= 0 && replies[0].quote.gasPrice >= 0))
    case SettleJob(id, seen, rc) =>
      && (id, seen) in w.views && id < |w.tables.log| && HasReceipt(w, seen)
      && rc == ReceiptOf(w.mined[seen.hash.value.tx.nonce], rc.deltas)
    case TransferJob(source, target, a, amount) =>
      && source in w.wallets && target in w.wallets && source != target && Normal(a)
      && !Overdraws(w.tables, target, a, amount)
    case CreditJob(wallet, native, credits) =>
      exists scan :: ScanFor(w, scan, wallet, native, credits)
  }

  ghost predicate ScanFor(w: World, scan: nat, wallet: WalletId, native: nat, credits: seq<TokenCredit>) {
    && scan in w.scans && w.scans[scan].wallet == wallet
    && native == NativeTotal(w.scans[scan].pending) && credits == TokenCredits(w.scans[scan].pending)
  }

  ghost function EventOf(w: World, job: Job, replies: seq<Reply>): (e: Event)
    requires Fair(w, job, replies) && |w.mined| <= |w.sent| && (job.SendJob? ==> replies != [])
    ensures Enabled(w, e) && Describes(w, job, replies, e)
  {
    match job
    case SendJob(o) =>
      var k := if o.payment.Erc20? then 6 else 4;
      if k + 2 < |replies| then Sent(o, replies[0].quote, replies[k].chainPending, replies[k + 2].accepted)
      else Sent(o, replies[0].quote, |w.mined|, false)
    case SettleJob(id, seen, rc) => Settled(id, seen, rc.deltas)
    case TransferJob(source, target, a, amount) => Moved(source, target, a, amount)
    case CreditJob(wallet, native, credits) =>
      var scan :| ScanFor(w, scan, wallet, native, credits); ScanCredited(scan)
  }

  ghost predicate FairEntry(w: World, entry: Entry, job: Job, groupOf: WalletId -> Group) {
    && entry.body == BodyOf(job) && JobOf(job, groupOf, entry.group) && Fair(w, job, entry.replies)
    && |w.mined| <= |w.sent| && (job.SendJob? ==> entry.replies != [])
  }

  /** From this state on, the events around the group can happen and its bodies get fair answers. */
  ghost predicate Fits(w: World, placed: seq<Placed>, groupOf: WalletId -> Group, g: Group)
    decreases |placed|
  {
    placed != [] ==>
      match placed[0]
      case Outer(e) => Outside(e) && Enabled(w, e) && Fits(Apply(w, e), placed[1..], groupOf, g)
      case Body(entry) =>
        if entry.group != g then Fits(w, placed[1..], groupOf, g)
        else
          exists job :: FairEntry(w, entry, job, groupOf)
            && Fits(Apply(w, EventOf(w, job, entry.replies)), placed[1..], groupOf, g)
  }

  // ---------------------------------------------------------------- the run exists

  /** A body that ends where it stands, and names only its own group's wallets. */
  ghost predicate Sound(db: Database, entry: Entry, groupOf: WalletId -> Group) {
    && Confined(entry.body, groupOf, entry.group)
    && Final(Alone(Slice(db, entry.group), NOTHING, entry.body, entry.replies).0)
  }

  lemma PlaceOwn(db: Database, v: World, placed: seq<Placed>, groupOf: WalletId -> Group, g: Group)
      returns (e: Event, w: World)
    requires placed != [] && placed[0].Body? && placed[0].entry.group == g && Fits(v, placed, groupOf, g)
    requires Mirrors(db, v, groupOf, g) && Sound(db, placed[0].entry, groupOf)
    ensures Enabled(v, e) && w == Apply(v, e) && Fits(w, placed[1..], groupOf, g)
    ensures Mirrors(AfterEntry(db, placed[0].entry), w, groupOf, g)
  {
    var entry := placed[0].entry;
    var job :| FairEntry(v, entry, job, groupOf)
        && Fits(Apply(v, EventOf(v, job, entry.replies)), placed[1..], groupOf, g);
    e := EventOf(v, job, entry.replies);
    w := Apply(v, e);
    BodyFollowed(db, entry, v, job, e, groupOf);
  }

  lemma OneEvent(v: World, e: Event)
    requires Inv(v) && Enabled(v, e)
    ensures Run(v, [e], Apply(v, e)) && Inv(Apply(v, e))
  {
    InvKept(v, e);
    assert Run(Apply(v, e), [e][1..], Apply(v, e));
  }

  ghost function NextDb(db: Database, p: Placed): Database {
    if p.Body? then AfterEntry(db, p.entry) else db
  }

  ghost function SerialPlaced(db: Database, placed: seq<Placed>): Database
    decreases |placed|
  {
    if placed == [] then db else SerialPlaced(NextDb(db, placed[0]), placed[1..])
  }

  ghost predicate SoundPlaced(db: Database, placed: seq<Placed>, groupOf: WalletId -> Group)
    decreases |placed|
  {
    placed != [] ==>
      && (placed[0].Body? ==> Sound(db, placed[0].entry, groupOf))
      && SoundPlaced(NextDb(db, placed[0]), placed[1..], groupOf)
  }

  /** The group's state after the first of the things placed. */
  lemma PlaceFirst(db: Database, v: World, placed: seq<Placed>, groupOf: WalletId -> Group, g: Group)
      returns (es: seq<Event>, w: World)
    requires placed != [] && Fits(v, placed, groupOf, g) && Inv(v) && Mirrors(db, v, groupOf, g)
    requires placed[0].Body? ==> Sound(db, placed[0].entry, groupOf)
    ensures Run(v, es, w) && Inv(w) && Fits(w, placed[1..], groupOf, g)
    ensures Mirrors(NextDb(db, placed[0]), w, groupOf, g)
  {
    if placed[0].Outer? {
      es, w := [placed[0].event], Apply(v, placed[0].event);
      OneEvent(v, placed[0].event);
      OutsideKeepsTables(db, v, placed[0].event, groupOf, g);
    } else if placed[0].entry.group == g {
      var e;
      e, w := PlaceOwn(db, v, placed, groupOf, g);
      es := [e];
      OneEvent(v, e);
    } else {
      es, w := [], v;
      OthersUntouched(db, placed[0].entry, groupOf);
    }
  }

  lemma {:induction false} PlacedIsRun(db: Database, v: World, placed: seq<Placed>, groupOf: WalletId -> Group,
                                       g: Group)
    returns (events: seq<Event>, w: World)
    requires Fits(v, placed, groupOf, g) && Inv(v) && Mirrors(db, v, groupOf, g) && SoundPlaced(db, placed, groupOf)
    ensures Run(v, events, w) && Inv(w) && Mirrors(SerialPlaced(db, placed), w, groupOf, g)
    decreases |placed|
  {
    events, w := [], v;
    if placed != [] {
      var es, next := PlaceFirst(db, v, placed, groupOf, g);
      var rest;
      rest, w := PlacedIsRun(NextDb(db, placed[0]), next, placed[1..], groupOf, g);
      RunsJoin(v, es, next, rest, w);
      events := es + rest;
    }
  }

  ghost predicate AllSound(db0: Database, entries: seq<Entry>, groupOf: WalletId -> Group) {
    forall k :: 0 <= k < |entries| ==> Sound(Serial(db0, entries[..k]), entries[k], groupOf)
  }

  lemma FirstIsSound(db0: Database, done: seq<Entry>, entry: Entry, later: seq<Entry>, groupOf: WalletId -> Group)
    requires AllSound(db0, (done + [entry]) + later, groupOf)
    ensures Sound(Serial(db0, done), entry, groupOf)
    ensures Serial(db0, done + [entry]) == AfterEntry(Serial(db0, done), entry)
  {
    var all := (done + [entry]) + later;
    assert all[|done|] == entry && all[..|done|] == done;
    assert (done + [entry])[..|done|] == done;
  }

  /** Placing events among the bodies changes neither their order nor what they do. */
  lemma {:induction false} PlacedIsSerial(db0: Database, done: seq<Entry>, placed: seq<Placed>,
                                          groupOf: WalletId -> Group)
    requires AllSound(db0, done + EntriesPlaced(placed), groupOf)
    ensures SerialPlaced(Serial(db0, done), placed) == Serial(db0, done + EntriesPlaced(placed))
    ensures SoundPlaced(Serial(db0, done), placed, groupOf)
    decreases |placed|
  {
    if placed == [] {
      assert done + [] == done;
    } else if placed[0].Outer? {
      assert EntriesPlaced(placed) == EntriesPlaced(placed[1..]);
      PlacedIsSerial(db0, done, placed[1..], groupOf);
    } else {
      var entry, later := placed[0].entry, EntriesPlaced(placed[1..]);
      assert done + EntriesPlaced(placed) == (done + [entry]) + later;
      FirstIsSound(db0, done, entry, later, groupOf);
      PlacedIsSerial(db0, done + [entry], placed[1..], groupOf);
    }
  }

  lemma FinishedAreSound(c0: Config, moves: seq<Move>, c: Config)
    requires c0.running == map[] && c0.finished == [] && Interleaved(c0, moves, c) && ServiceMoves(moves, c0.groupOf)
    ensures c.db == Serial(c0.db, c.finished) && AllSound(c0.db, c.finished, c0.groupOf)
  {
    LockReduction(c0, moves, c);
    OnlyServiceKept(c0, moves, c);
    forall k | 0 <= k < |c.finished| ensures Sound(Serial(c0.db, c.finished[..k]), c.finished[k], c0.groupOf) {
      assert c.finished[k] in c.finished;
      ServedIsConfined(c.finished[k].body, c0.groupOf, c.finished[k].group);
    }
  }

  lemma PlacedIsSound(c0: Config, moves: seq<Move>, c: Config, placed: seq<Placed>)
    requires c0.running == map[] && c0.finished == [] && Interleaved(c0, moves, c) && ServiceMoves(moves, c0.groupOf)
    requires EntriesPlaced(placed) == c.finished
    ensures SerialPlaced(c0.db, placed) == c.db && SoundPlaced(c0.db, placed, c0.groupOf)
  {
    FinishedAreSound(c0, moves, c);
    assert [] + c.finished == c.finished;
    PlacedIsSerial(c0.db, [], placed, c0.groupOf);
  }

  /** Whatever the interleaving: if the finished bodies can be placed among the events around a group
      so that those can happen and each of its bodies got fair answers, then its custody world has a
      run from its start to a state whose tables are the group's committed rows, so these have the
      invariant of that world. */
  lemma InterleavedGroupsAreReachable(c0: Config, moves: seq<Move>, c: Config, g: Group, w0: World, placed: seq<Placed>)
    returns (events: seq<Event>, w: World)
    requires c0.running == map[] && c0.finished == [] && Interleaved(c0, moves, c) && ServiceMoves(moves, c0.groupOf)
    requires Start(w0) && Mirrors(c0.db, w0, c0.groupOf, g)
    requires EntriesPlaced(placed) == c.finished && Fits(w0, placed, c0.groupOf, g)
    ensures Run(w0, events, w) && Inv(w) && Mirrors(c.db, w, c0.groupOf, g)
  {
    PlacedIsSound(c0, moves, c, placed);
    StartInv(w0);
    events, w := PlacedIsRun(c0.db, w0, placed, c0.groupOf, g);
  }
}
