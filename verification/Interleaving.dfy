/**
 Lock reduction. Transaction bodies run statement by statement, interleaved, each holding its
 group's advisory lock from its first statement to its commit or rollback. A statement reads what
 is committed at that moment, overlaid with the transaction's own writes. Every interleaving ends
 in the database that running the bodies one after another, in the order they finish, ends in.
 */
module Interleaving {
  import opened Prelude
  import opened Ledger

  type Group = nat

  /** What comes back from outside the locked rows: the node's answers, and whether the unique index,
      in which unlocked inserts take keys too, refuses the row of a broadcast. */
  datatype Reply = Reply(quote: Quote, chainPending: nat, accepted: bool, keyTaken: bool)

  /** The broadcast stands, and its row cannot be written. */
  predicate RowLost(r: Reply) {
    r.accepted && r.keyTaken
  }

  /** A transaction body: what it does next, and how it goes on with the answer. */
  datatype Body =
    | Commit
    | Rollback
    | ReadBalance(wallet: WalletId, asset: Asset, withValue: int -> Body)
    | WriteBalance(wallet: WalletId, asset: Asset, value: int, next: Body)
    | ReadLog(withLog: seq<Record> -> Body)
    | Insert(row: Record, withId: nat -> Body)
    | Update(id: nat, row: Record, next: Body)
    | Ask(withReply: Reply -> Body)

  predicate Final(b: Body) {
    b.Commit? || b.Rollback?
  }

  /** A transaction's own uncommitted writes. */
  datatype Overlay = Overlay(balances: map<(WalletId, Asset), int>, log: Option<seq<Record>>)

  const NOTHING := Overlay(map[], None)

  function View(base: Tables, over: Overlay): Tables {
    Tables(base.balances + over.balances, if over.log.Some? then over.log.value else base.log)
  }

  /** One statement, on the committed rows and the transaction's own writes. */
  function Exec(base: Tables, over: Overlay, b: Body, reply: Reply): (Body, Overlay) {
    var t := View(base, over);
    match b
    case ReadBalance(w, a, withValue) => (withValue(Bal(t, w, a)), over)
    case WriteBalance(w, a, v, next) => (next, over.(balances := over.balances[(w, a) := v]))
    case ReadLog(withLog) => (withLog(t.log), over)
    case Insert(row, withId) => (withId(|t.log|), over.(log := Some(t.log + [row])))
    case Update(id, row, next) => (next, if id < |t.log| then over.(log := Some(t.log[id := row])) else over)
    case Ask(withReply) => (withReply(reply), over)
    case _ => (b, over)
  }

  /** Running a body alone for as many statements as there are replies. */
  function Alone(base: Tables, over: Overlay, b: Body, replies: seq<Reply>): (Body, Overlay)
    decreases |replies|
  {
    if replies == [] then (b, over)
    else
      var (b', over') := Exec(base, over, b, replies[0]);
      Alone(base, over', b', replies[1..])
  }

  // ---------------------------------------------------------------- the concurrent machine

  /** Balance rows of all groups, and each group's part of the log. */
  datatype Database = Database(balances: map<(WalletId, Asset), int>, logs: map<Group, seq<Record>>)

  function Slice(db: Database, g: Group): Tables {
    Tables(db.balances, if g in db.logs then db.logs[g] else [])
  }

  function Merge(db: Database, g: Group, over: Overlay): Database {
    Database(db.balances + over.balances, if over.log.Some? then db.logs[g := over.log.value] else db.logs)
  }

  datatype Process = Process(group: Group, body: Body, replies: seq<Reply>, rest: Body, over: Overlay)

  datatype Entry = Entry(group: Group, body: Body, replies: seq<Reply>)

  /** groupOf and lockOf are fixed: the group of a wallet, and the hash of a group's lock key. */
  datatype Config = Config(
    groupOf: WalletId -> Group, lockOf: Group -> int,
    db: Database, running: map<nat, Process>, finished: seq<Entry>)

  /** A body may be aborted anywhere, by a timeout or a crash; then it leaves nothing. */
  datatype Move = Begin(pid: nat, group: Group, body: Body) | Statement(pid: nat,
      reply: Reply) | End(pid: nat) | Abort(pid: nat)

  /** A body that only names balance rows of its own group's wallets. */
  greatest predicate Confined(b: Body, groupOf: WalletId -> Group, g: Group) {
    match b
    case ReadBalance(w, _, withValue) => groupOf(w) == g && forall v :: Confined(withValue(v), groupOf, g)
    case WriteBalance(w, _, _, next) => groupOf(w) == g && Confined(next, groupOf, g)
    case ReadLog(withLog) => forall log :: Confined(withLog(log), groupOf, g)
    case Insert(_, withId) => forall id :: Confined(withId(id), groupOf, g)
    case Update(_, _, next) => Confined(next, groupOf, g)
    case Ask(withReply) => forall reply :: Confined(withReply(reply), groupOf, g)
    case _ => true
  }

  ghost predicate Allowed(c: Config, m: Move) {
    match m
    case Begin(pid, g, body) =>
      && pid !in c.running && Confined(body, c.groupOf, g)
      && forall p :: p in c.running ==> c.lockOf(c.running[p].group) != c.lockOf(g)
    case Statement(pid, reply) => pid in c.running && !Final(c.running[pid].rest)
    case End(pid) => pid in c.running && Final(c.running[pid].rest)
    case Abort(pid) => pid in c.running
  }

  ghost function After(c: Config, m: Move): Config
    requires Allowed(c, m)
  {
    match m
    case Begin(pid, g, body) => c.(running := c.running[pid := Process(g, body, [], body, NOTHING)])
    case Statement(pid, reply) =>
      var p := c.running[pid];
      var (rest, over) := Exec(Slice(c.db, p.group), p.over, p.rest, reply);
      c.(running := c.running[pid := p.(replies := p.replies + [reply], rest := rest, over := over)])
    case End(pid) =>
      var p := c.running[pid];
      c.(db := if p.rest.Commit? then Merge(c.db, p.group, p.over) else c.db,
         running := c.running - {pid}, finished := c.finished + [Entry(p.group, p.body, p.replies)])
    case Abort(pid) => c.(running := c.running - {pid})
  }

  ghost predicate Interleaved(c: Config, moves: seq<Move>, c': Config)
    decreases |moves|
  {
    if moves == [] then c' == c
    else Allowed(c, moves[0]) && Interleaved(After(c, moves[0]), moves[1..], c')
  }

  /** The same bodies one after another. */
  ghost function AfterEntry(db: Database, e: Entry): Database {
    var (b, over) := Alone(Slice(db, e.group), NOTHING, e.body, e.replies);
    if b.Commit? then Merge(db, e.group, over) else db
  }

  ghost function Serial(db: Database, entries: seq<Entry>): Database {
    if entries == [] then db
    else AfterEntry(Serial(db, entries[..|entries| - 1]), entries[|entries| - 1])
  }

  // ---------------------------------------------------------------- reduction

  lemma {:induction false} AloneSnoc(base: Tables, over: Overlay, b: Body, replies: seq<Reply>, reply: Reply)
    ensures Alone(base, over, b, replies + [reply]) ==
            var (b', over') := Alone(base, over, b, replies); Exec(base, over', b', reply)
    decreases |replies|
  {
    if replies == [] {
      assert Alone(base, Exec(base, over, b, reply).1, Exec(base, over, b, reply).0, [reply][1..])
          == Exec(base, over, b, reply);
    } else {
      var (b', over') := Exec(base, over, b, replies[0]);
      AloneSnoc(base, over', b', replies[1..], reply);
      assert (replies + [reply])[1..] == replies[1..] + [reply];
    }
  }

  /** Two databases with the same rows for one group. */
  ghost predicate SameRows(s: Tables, t: Tables, groupOf: WalletId -> Group, g: Group) {
    && s.log == t.log
    && forall w: WalletId, a: Asset :: groupOf(w) == g ==>
         ((w, a) in s.balances <==> (w, a) in t.balances)
         && ((w, a) in s.balances ==> s.balances[(w, a)] == t.balances[(w, a)])
  }

  /** The same as far as a body can tell: a row that is not there reads as zero. */
  ghost predicate SameFor(s: Tables, t: Tables, groupOf: WalletId -> Group, g: Group) {
    s.log == t.log && forall w: WalletId, a: Asset :: groupOf(w) == g ==> Bal(s, w, a) == Bal(t, w, a)
  }

  ghost predicate Within(over: Overlay, groupOf: WalletId -> Group, g: Group) {
    forall k :: k in over.balances ==> groupOf(k.0) == g
  }

  lemma OverlayReads(base: Tables, over: Overlay, w: WalletId, a: Asset)
    ensures Bal(View(base, over), w, a) == if (w, a) in over.balances then over.balances[(w, a)] else Bal(base, w, a)
  {
  }

  lemma ExecFramed(s: Tables, t: Tables, over: Overlay, b: Body, reply: Reply, groupOf: WalletId -> Group, g: Group)
    requires SameFor(s, t, groupOf, g) && Confined(b, groupOf, g) && Within(over, groupOf, g)
    ensures Exec(s, over, b, reply) == Exec(t, over, b, reply)
    ensures Confined(Exec(s, over, b, reply).0, groupOf, g) && Within(Exec(s, over, b, reply).1, groupOf, g)
  {
    if b.ReadBalance? {
      OverlayReads(s, over, b.wallet, b.asset);
      OverlayReads(t, over, b.wallet, b.asset);
    }
  }

  /** A body only depends on its own group's rows. */
  lemma {:induction false} AloneFramed(s: Tables, t: Tables, over: Overlay, b: Body, replies: seq<Reply>,
                                       groupOf: WalletId -> Group, g: Group)
    requires SameFor(s, t, groupOf, g) && Confined(b, groupOf, g) && Within(over, groupOf, g)
    ensures Alone(s, over, b, replies) == Alone(t, over, b, replies)
    ensures Confined(Alone(s, over, b, replies).0, groupOf, g) && Within(Alone(s, over, b, replies).1, groupOf, g)
    decreases |replies|
  {
    if replies != [] {
      ExecFramed(s, t, over, b, replies[0], groupOf, g);
      var (b', over') := Exec(s, over, b, replies[0]);
      AloneFramed(s, t, over', b', replies[1..], groupOf, g);
    }
  }

  /** A lock holder has read and written exactly what it would have alone on the rows stored now. */
  ghost predicate InStep(c: Config, p: Process) {
    && Confined(p.body, c.groupOf, p.group)
    && Alone(Slice(c.db, p.group), NOTHING, p.body, p.replies) == (p.rest, p.over)
  }

  ghost predicate Exclusive(c: Config) {
    forall p, q :: p in c.running && q in c.running && p != q ==>
      c.lockOf(c.running[p].group) != c.lockOf(c.running[q].group)
  }

  /** Every finished body reaches its end when run alone at its place in the order. */
  ghost predicate AllEnd(db0: Database, entries: seq<Entry>) {
    forall k :: 0 <= k < |entries| ==>
      Final(Alone(Slice(Serial(db0, entries[..k]), entries[k].group), NOTHING, entries[k].body, entries[k].replies).0)
  }

  lemma AllEndSnoc(db0: Database, entries: seq<Entry>, e: Entry)
    requires AllEnd(db0, entries) && Final(Alone(Slice(Serial(db0, entries), e.group), NOTHING, e.body, e.replies).0)
    ensures AllEnd(db0, entries + [e])
  {
    var more := entries + [e];
    forall k | 0 <= k < |more|
      ensures Final(Alone(Slice(Serial(db0, more[..k]), more[k].group), NOTHING, more[k].body, more[k].replies).0)
    {
      assert more[..k] == entries[..k];
      if k == |entries| { assert entries[..k] == entries; }
    }
  }

  ghost predicate Reduced(db0: Database, c: Config) {
    && c.db == Serial(db0, c.finished) && AllEnd(db0, c.finished) && Exclusive(c)
    && forall p :: p in c.running ==> InStep(c, c.running[p])
  }

  lemma MergeElsewhere(c: Config, g: Group, over: Overlay, h: Group)
    requires Within(over, c.groupOf, g) && g != h
    ensures SameRows(Slice(c.db, h), Slice(Merge(c.db, g, over), h), c.groupOf, h)
  {
  }

  lemma ReducedKept(db0: Database, c: Config, m: Move)
    requires Reduced(db0, c) && Allowed(c, m)
    ensures Reduced(db0, After(c, m))
  {
    var c' := After(c, m);
    match m
    case Begin(pid, g, body) =>
      forall p | p in c'.running ensures InStep(c', c'.running[p]) {
        if p != pid { assert InStep(c, c.running[p]); }
      }
    case Statement(pid, reply) =>
      forall p | p in c'.running ensures InStep(c', c'.running[p]) {
        assert InStep(c, c.running[p]);
        if p == pid {
          var q := c.running[p];
          AloneSnoc(Slice(c.db, q.group), NOTHING, q.body, q.replies, reply);
        }
      }
    case End(pid) =>
      var q := c.running[pid];
      assert InStep(c, q);
      assert c'.finished[..|c.finished|] == c.finished;
      AllEndSnoc(db0, c.finished, Entry(q.group, q.body, q.replies));
      AloneFramed(Slice(c.db, q.group), Slice(c.db, q.group), NOTHING, q.body, q.replies, c.groupOf, q.group);
      forall p | p in c'.running ensures InStep(c', c'.running[p]) {
        var r := c.running[p];
        assert InStep(c, r);
        if q.rest.Commit? {
          MergeElsewhere(c, q.group, q.over, r.group);
          AloneFramed(Slice(c.db, r.group), Slice(c'.db, r.group), NOTHING, r.body, r.replies, c.groupOf, r.group);
        }
      }
    case Abort(pid) =>
      forall p | p in c'.running ensures InStep(c', c'.running[p]) { assert InStep(c, c.running[p]); }
  }

  /** Every interleaving of bodies under their groups' locks ends in the database of running the
      finished bodies atomically, in the order they released their locks; and at every moment each
      lock holder's reads are those of the rows stored now. Lock-id collisions are allowed: they
      only make more bodies wait. */
  lemma {:induction false} LockReduction(c0: Config, moves: seq<Move>, c: Config)
    requires c0.running == map[] && c0.finished == [] && Interleaved(c0, moves, c)
    ensures c.db == Serial(c0.db, c.finished) && AllEnd(c0.db, c.finished)
    ensures Exclusive(c) && forall p :: p in c.running ==> InStep(c, c.running[p])
  {
    ReducedThroughout(c0.db, c0, moves, c);
  }

  lemma {:induction false} ReducedThroughout(db0: Database, c: Config, moves: seq<Move>, c': Config)
    requires Reduced(db0, c) && Interleaved(c, moves, c')
    ensures Reduced(db0, c')
    decreases |moves|
  {
    if moves != [] {
      ReducedKept(db0, c, moves[0]);
      ReducedThroughout(db0, After(c, moves[0]), moves[1..], c');
    }
  }
}
