/**
 Interleavings whatever answers the bodies get: rows refused by the index, transfers that overdraw,
 contract writes of negative value, transactions the node forgets, and bodies aborted after their
 broadcast. The committed rows of a group are then those of a run of module LateRows, so Limits speaks
 of the service's bodies as they interleave statement by statement.
 */
module AnyAnswers {
  import opened Prelude
  import opened Ledger
  import opened World
  import opened Invariant
  import opened Interleaving
  import opened Bodies
  import opened Composition
  import opened Limits
  import L = LateRows

  // ---------------------------------------------------------------- what a job does there

  /** Where in its answers a send finds the pending count. */
  function PendingAt(o: Order): nat {
    if o.payment.Erc20? then 6 else 4
  }

  /** What the answers a job got must have been. A broadcast that was accepted is the send in progress,
      and the index refused its row exactly when a scan has taken its key. A receipt is the chain's, or the
      chain's with no value when the node has forgotten the transaction. */
  ghost predicate Possible(s: L.State, job: Job, replies: seq<Reply>) {
    match job
    case SendJob(o) => replies != [] && (Refuse(s.world.tables, o, replies[0].quote).None? ==>
        SendPossible(s, o, replies))
    case SettleJob(id, seen, rc) =>
      && s.sending.None? && (id, seen) in s.world.views && id < |s.world.tables.log| && HasReceipt(s.world, seen)
      && (rc == ChainReceipt(s.world, seen, rc.deltas) || rc == ChainReceipt(s.world, seen, rc.deltas).(value := 0))
    case TransferJob(source, target, a, amount) =>
      && s.sending.None? && source in s.world.wallets && target in s.world.wallets && source != target && Normal(a)
    case CreditJob(wallet, native, credits) =>
      s.sending.None? && exists scan :: ScanFor(s.world, scan, wallet, native, credits)
  }

  ghost predicate SendPossible(s: L.State, o: Order, replies: seq<Reply>) {
    var k := PendingAt(o);
    && k + 2 < |replies| && o.wallet in s.world.wallets
    && if replies[k + 2].accepted then
         && s.sending == Some(L.Sending(o, replies[0].quote, replies[k].chainPending))
         && (replies[k + 2].keyTaken <==> L.Clash(s))
       else s.sending.None? && |s.world.mined| <= replies[k].chainPending <= |s.world.sent|
  }

  ghost function ChainReceipt(w: World, seen: Record, deltas: seq<Delta>): Receipt
    requires HasReceipt(w, seen)
  {
    ReceiptOf(w.mined[seen.hash.value.tx.nonce], deltas)
  }

  /** The step a finished job is; a refused send is none. */
  ghost function ActsOf(s: L.State, job: Job, replies: seq<Reply>): seq<L.Act>
    requires Possible(s, job, replies)
  {
    match job
    case SendJob(o) =>
      var k, q := PendingAt(o), replies[0].quote;
      if Refuse(s.world.tables, o, q).Some? then []
      else if replies[k + 2].accepted then [L.WriteRow]
      else [L.Meanwhile(Sent(o, q, replies[k].chainPending, false))]
    case SettleJob(id, seen, rc) =>
      if rc == ChainReceipt(s.world, seen, rc.deltas) then [L.Meanwhile(Settled(id, seen, rc.deltas))]
      else [L.SettleBlind(id, seen, rc.deltas)]
    case TransferJob(source, target, a, amount) =>
      if Overdraws(s.world.tables, target, a, amount) then [L.Overdraw(source, target, amount)]
      else [L.Meanwhile(Moved(source, target, a, amount))]
    case CreditJob(wallet, native, credits) =>
      var scan :| ScanFor(s.world, scan, wallet, native, credits); [L.Meanwhile(ScanCredited(scan))]
  }

  ghost function AfterActs(s: L.State, acts: seq<L.Act>): L.State
    requires acts == [] || (|acts| == 1 && L.Allowed(s, acts[0]))
  {
    if acts == [] then s else L.After(s, acts[0])
  }

  lemma JobAllowed(s: L.State, job: Job, replies: seq<Reply>)
    requires Possible(s, job, replies)
    ensures var acts := ActsOf(s, job, replies); acts == [] || (|acts| == 1 && L.Allowed(s, acts[0]))
  {
  }

  lemma SendIsAct(s: L.State, o: Order, replies: seq<Reply>, t': Tables)
    requires Possible(s, SendJob(o), replies) && LedgerStep(s.world.tables, SendJob(o), replies, t')
    ensures var acts := ActsOf(s, SendJob(o), replies);
            (acts == [] || (|acts| == 1 && L.Allowed(s, acts[0]))) && AfterActs(s, acts).world.tables == t'
  {
  }

  lemma SettleIsAct(s: L.State, id: nat, seen: Record, rc: Receipt, replies: seq<Reply>, t': Tables)
    requires Possible(s, SettleJob(id, seen, rc), replies)
        && LedgerStep(s.world.tables, SettleJob(id, seen, rc), replies, t')
    ensures var acts := ActsOf(s, SettleJob(id, seen, rc), replies);
            |acts| == 1 && L.Allowed(s, acts[0]) && AfterActs(s, acts).world.tables == t'
  {
  }

  /** A ledger step with possible answers is that step on the tables. */
  lemma JobIsActs(s: L.State, job: Job, replies: seq<Reply>, t': Tables)
    requires Possible(s, job, replies) && LedgerStep(s.world.tables, job, replies, t')
    ensures var acts := ActsOf(s, job, replies);
            (acts == [] || (|acts| == 1 && L.Allowed(s, acts[0]))) && AfterActs(s, acts).world.tables == t'
  {
    match job
    case SendJob(o) => SendIsAct(s, o, replies, t');
    case SettleJob(id, seen, rc) => SettleIsAct(s, id, seen, rc, replies, t');
    case TransferJob(source, target, a, amount) =>
    case CreditJob(wallet, native, credits) =>
  }

  // ---------------------------------------------------------------- what holds in every such state

  /** Only wallets of the group hold ether, own rows, are scanned for, and send. */
  ghost predicate Tidy(s: L.State) {
    && (forall x: WalletId :: x !in s.world.wallets ==> Bal(s.world.tables, x, Native) == 0)
    && (forall i :: 0 <= i < |s.world.tables.log| ==> s.world.tables.log[i].wallet in s.world.wallets)
    && (forall v :: v in s.world.views ==> v.1.wallet in s.world.wallets)
    && (forall k :: k in s.world.scans ==> s.world.scans[k].wallet in s.world.wallets)
    && (s.sending.Some? ==> s.sending.value.o.wallet in s.world.wallets)
  }

  lemma SettleIsLocal(t: Tables, id: nat, seen: Record, rc: Receipt, x: WalletId)
    requires id < |t.log| && x != seen.wallet
    ensures Bal(Settle(t, id, seen, rc), x, Native) == Bal(t, x, Native)
    ensures forall i :: 0 <= i < |t.log| ==>
              i < |Settle(t, id, seen, rc).log| && Settle(t, id, seen, rc).log[i].wallet == t.log[i].wallet
    ensures |Settle(t, id, seen, rc).log| == |t.log|
  {
    if t.log[id].status.Broadcasting? { SettleSplits(t, id, seen, rc); }
  }

  lemma CreditIsLocal(t: Tables, d: WalletId, native: nat, credits: seq<TokenCredit>, x: WalletId)
    requires x != d
    ensures Bal(Credit(t, d, native, credits), x, Native) == Bal(t, x, Native)
        && Credit(t, d, native, credits).log == t.log
  {
    CreditTokensKeeps(if native > 0 then SetBal(t, d, Native, Bal(t, d, Native) + native) else t, d, credits);
  }

  lemma SettleTidy(s: L.State, id: nat, seen: Record, rc: Receipt, w': World)
    requires Tidy(s) && s.sending.None? && id < |s.world.tables.log| && (id, seen) in s.world.views
    requires w'.tables == Settle(s.world.tables, id, seen, rc)
    requires w'.wallets == s.world.wallets && w'.views == s.world.views && w'.scans == s.world.scans
    ensures Tidy(L.State(w', None))
  {
    assert seen.wallet in s.world.wallets by { assert (id, seen).1 == seen; }
    var t := s.world.tables;
    forall x: WalletId | x !in w'.wallets ensures Bal(w'.tables, x, Native) == 0 { SettleIsLocal(t, id, seen, rc, x); }
    var other := seen.wallet + 1;
    SettleIsLocal(t, id, seen, rc, other);
  }

  lemma EventTidy(s: L.State, e: Event)
    requires Tidy(s) && L.Allowed(s, L.Meanwhile(e))
    ensures Tidy(L.After(s, L.Meanwhile(e)))
  {
    match e
    case Settled(id, seen, deltas) =>
      SettleTidy(s, id, seen, ChainReceipt(s.world, seen, deltas), Apply(s.world, e));
    case ScanCredited(scan) =>
      var d := s.world.scans[scan];
      forall x: WalletId | x !in s.world.wallets ensures Bal(Apply(s.world, e).tables, x, Native) == 0 {
        CreditIsLocal(s.world.tables, d.wallet, NativeTotal(d.pending), TokenCredits(d.pending), x);
      }
      CreditIsLocal(s.world.tables, d.wallet, NativeTotal(d.pending), TokenCredits(d.pending), d.wallet + 1);
    case _ =>
  }

  lemma ActTidy(s: L.State, a: L.Act)
    requires Tidy(s) && L.Allowed(s, a)
    ensures Tidy(L.After(s, a))
  {
    match a
    case Meanwhile(e) => EventTidy(s, e);
    case SettleBlind(id, seen, deltas) =>
      SettleTidy(s, id, seen, ChainReceipt(s.world, seen, deltas).(value := 0), L.After(s, a).world);
    case _ =>
  }

  // ---------------------------------------------------------------- the run exists

  /** Steps that are no finished body: what happens outside, a broadcast, and an abort after it. */
  ghost predicate Surrounds(a: L.Act) {
    (a.Meanwhile? && Outside(a.event)) || a.Submit? || a.Drop?
  }

  /** Where the finished bodies of all groups fall among the steps around one group. */
  datatype Turn = Ends(entry: Entry) | Around(act: L.Act)

  ghost function Bare(turns: seq<Turn>): seq<Placed>
    decreases |turns|
  {
    if turns == [] then []
    else [if turns[0].Ends? then Placed.Body(turns[0].entry) else Outer(Windfall(0))] + Bare(turns[1..])
  }

  ghost predicate PossibleEntry(s: L.State, entry: Entry, job: Job, groupOf: WalletId -> Group, p: L.Policy) {
    && entry.body == BodyOf(job) && JobOf(job, groupOf, entry.group) && Possible(s, job, entry.replies)
    && L.AllWithin(ActsOf(s, job, entry.replies), s.world.self, p)
  }

  ghost function AfterJob(s: L.State, job: Job, replies: seq<Reply>): L.State
    requires Possible(s, job, replies)
  {
    JobAllowed(s, job, replies);
    AfterActs(s, ActsOf(s, job, replies))
  }

  /** From this state on, the steps around the group can happen, its bodies got possible answers, and all
      of it is within the policy. */
  ghost predicate Follows(s: L.State, turns: seq<Turn>, groupOf: WalletId -> Group, g: Group, p: L.Policy)
    decreases |turns|
  {
    turns != [] ==>
      match turns[0]
      case Around(a) =>
        && Surrounds(a) && L.Allowed(s, a) && L.Within(a, s.world.self, p)
        && Follows(L.After(s, a), turns[1..], groupOf, g, p)
      case Ends(entry) =>
        if entry.group != g then Follows(s, turns[1..], groupOf, g, p)
        else
          exists job :: PossibleEntry(s, entry, job, groupOf, p)
            && Follows(AfterJob(s, job, entry.replies), turns[1..], groupOf, g, p)
  }

  lemma AroundMirrors(db: Database, s: L.State, a: L.Act, groupOf: WalletId -> Group, g: Group)
    requires Tidy(s) && Surrounds(a) && L.Allowed(s, a) && Mirrors(db, s.world, groupOf, g)
    ensures Mirrors(db, L.After(s, a).world, groupOf, g)
  {
  }

  lemma EndsOwn(db: Database, s: L.State, turns: seq<Turn>, groupOf: WalletId -> Group, g: Group, p: L.Policy)
    returns (acts: seq<L.Act>, s': L.State)
    requires turns != [] && turns[0].Ends? && turns[0].entry.group == g && Follows(s, turns, groupOf, g, p)
    requires Mirrors(db, s.world, groupOf, g) && Composition.Sound(db, turns[0].entry, groupOf)
    ensures acts == [] || (|acts| == 1 && L.Allowed(s, acts[0]))
    ensures s' == AfterActs(s, acts) && L.AllWithin(acts, s.world.self, p) && Follows(s', turns[1..], groupOf, g, p)
    ensures Mirrors(AfterEntry(db, turns[0].entry), s'.world, groupOf, g)
  {
    var entry := turns[0].entry;
    var job :| PossibleEntry(s, entry, job, groupOf, p)
        && Follows(AfterJob(s, job, entry.replies), turns[1..], groupOf, g, p);
    var t' := BodyMirrored(db, entry, s.world, job, groupOf);
    JobIsActs(s, job, entry.replies, t');
    acts, s' := ActsOf(s, job, entry.replies), AfterJob(s, job, entry.replies);
  }

  lemma OneAct(s: L.State, acts: seq<L.Act>)
    requires Tidy(s) && (acts == [] || (|acts| == 1 && L.Allowed(s, acts[0])))
    ensures L.Acts(s, acts, AfterActs(s, acts)) && Tidy(AfterActs(s, acts))
    ensures AfterActs(s, acts).world.self == s.world.self
  {
    if acts != [] {
      ActTidy(s, acts[0]);
      L.SameSelf(s, acts[0]);
      assert L.Acts(L.After(s, acts[0]), acts[1..], L.After(s, acts[0]));
    }
  }

  /** The group's state after the first turn. */
  lemma FirstTurn(db: Database, s: L.State, turns: seq<Turn>, groupOf: WalletId -> Group, g: Group, p: L.Policy)
    returns (acts: seq<L.Act>, s': L.State)
    requires turns != [] && Follows(s, turns, groupOf, g, p) && Tidy(s) && Mirrors(db, s.world, groupOf, g)
    requires turns[0].Ends? ==> Composition.Sound(db, turns[0].entry, groupOf)
    ensures L.Acts(s, acts, s') && L.AllWithin(acts, s.world.self, p) && s'.world.self == s.world.self
    ensures Tidy(s') && Follows(s', turns[1..], groupOf, g, p)
    ensures Mirrors(NextDb(db, Bare(turns)[0]), s'.world, groupOf, g)
  {
    if turns[0].Around? {
      acts := [turns[0].act];
      s' := L.After(s, turns[0].act);
      AroundMirrors(db, s, turns[0].act, groupOf, g);
      OneAct(s, acts);
    } else if turns[0].entry.group == g {
      acts, s' := EndsOwn(db, s, turns, groupOf, g, p);
      OneAct(s, acts);
    } else {
      acts, s' := [], s;
      OthersUntouched(db, turns[0].entry, groupOf);
    }
  }

  lemma ActsCons(s: L.State, a: L.Act, rest: seq<L.Act>, s': L.State)
    requires L.Allowed(s, a) && L.Acts(L.After(s, a), rest, s')
    ensures L.Acts(s, [a] + rest, s')
  {
    assert ([a] + rest)[1..] == rest;
  }

  lemma {:induction false} ActsJoin(s: L.State, a: seq<L.Act>, v: L.State, b: seq<L.Act>, s': L.State)
    requires L.Acts(s, a, v) && L.Acts(v, b, s')
    ensures L.Acts(s, a + b, s')
    decreases |a|
  {
    if a == [] {
      assert a + b == b;
    } else {
      var next := L.After(s, a[0]);
      ActsJoin(next, a[1..], v, b, s');
      ActsCons(s, a[0], a[1..] + b, s');
      assert a + b == [a[0]] + (a[1..] + b);
    }
  }

  lemma {:induction false} TurnsAreActs(db: Database, s: L.State, turns: seq<Turn>, groupOf: WalletId -> Group,
                                        g: Group,
                                        p: L.Policy)
    returns (acts: seq<L.Act>, s': L.State)
    requires Follows(s, turns, groupOf, g, p) && Tidy(s) && Mirrors(db, s.world, groupOf, g)
    requires SoundPlaced(db, Bare(turns), groupOf)
    ensures L.Acts(s, acts, s') && L.AllWithin(acts, s.world.self, p)
    ensures Mirrors(SerialPlaced(db, Bare(turns)), s'.world, groupOf, g)
    decreases |turns|
  {
    acts, s' := [], s;
    if turns != [] {
      assert Bare(turns)[1..] == Bare(turns[1..]);
      var first, next := FirstTurn(db, s, turns, groupOf, g, p);
      var rest;
      rest, s' := TurnsAreActs(NextDb(db, Bare(turns)[0]), next, turns[1..], groupOf, g, p);
      ActsJoin(s, first, next, rest, s');
      acts := first + rest;
    }
  }

  lemma StartTidy(w: World)
    requires Start(w)
    ensures Tidy(L.State(w, None))
  {
  }

  /** Whatever the interleaving and whatever the answers: if the finished bodies can be placed among the
      steps around a group so that each of its bodies got possible answers, the group's committed rows are
      those of a run of LateRows within the policy. */
  lemma InterleavingsAreActs(c0: Config, moves: seq<Move>, c: Config, g: Group, w0: World, turns: seq<Turn>,
                             p: L.Policy)
    returns (acts: seq<L.Act>, s: L.State)
    requires c0.running == map[] && c0.finished == [] && Interleaved(c0, moves, c) && ServiceMoves(moves, c0.groupOf)
    requires Start(w0) && Mirrors(c0.db, w0, c0.groupOf, g)
    requires EntriesPlaced(Bare(turns)) == c.finished && Follows(L.State(w0, None), turns, c0.groupOf, g, p)
    ensures L.Acts(L.State(w0, None), acts, s) && L.AllWithin(acts, w0.self, p)
    ensures Mirrors(c.db, s.world, c0.groupOf, g)
  {
    PlacedIsSound(c0, moves, c, Bare(turns));
    StartTidy(w0);
    acts, s := TurnsAreActs(c0.db, L.State(w0, None), turns, c0.groupOf, g, p);
  }

  /** So a group that starts covered stays solvent through every interleaving whose bodies and surroundings
      keep to a policy that Limits allows. */
  lemma InterleavingsStaySolvent(c0: Config, moves: seq<Move>, c: Config, g: Group, w0: World, turns: seq<Turn>,
                                 p: L.Policy)
    returns (s: L.State)
    requires c0.running == map[] && c0.finished == [] && Interleaved(c0, moves, c) && ServiceMoves(moves, c0.groupOf)
    requires Start(w0) && w0.slack >= 0 && Mirrors(c0.db, w0, c0.groupOf, g)
    requires EntriesPlaced(Bare(turns)) == c.finished && Follows(L.State(w0, None), turns, c0.groupOf, g, p)
    requires ScansOne(p) && L.Sound(p)
    ensures Mirrors(c.db, s.world, c0.groupOf, g) && Solvent(L.Intended(s))
  {
    var acts;
    acts, s := InterleavingsAreActs(c0, moves, c, g, w0, turns, p);
    AlwaysSolventIff(p);
    assert Keeps(w0, acts, s, p);
  }
}
