/** What the invariant means for whole runs of a wallet group. */
module Custody {
  import opened Prelude
  import opened Ledger
  import opened World
  import opened Invariant
  import opened Conservation

  // ---------------------------------------------------------------- nonces and the record lifecycle

  /** Broadcast n of a run has nonce n, no two rows share a nonce, and the next one is the count. */
  lemma NoncesAreGapFree(start: World, events: seq<Event>, w: World, chainPending: nat)
    requires Start(start) && Run(start, events, w) && |w.mined| <= chainPending <= |w.sent|
    ensures forall n :: 0 <= n < |w.sent| ==> w.sent[n].nonce == n
    ensures forall i, j :: 0 <= i < j < |w.tables.log| && w.tables.log[i].nonce.Some? ==>
        w.tables.log[j].nonce != w.tables.log[i].nonce
    ensures NextNonce(chainPending, w.tables.log) == |w.sent|
  {
    StartInv(start);
    RunInv(start, events, w);
    forall i, j | 0 <= i < j < |w.tables.log| && w.tables.log[i].nonce.Some?
      ensures w.tables.log[j].nonce != w.tables.log[i].nonce
    {
      assert RowOk(w, i) && RowOk(w, j);
    }
    NextNonceCountsBroadcasts(w, chainPending);
  }

  /** A transaction that times out after its broadcast leaves no row. Once that happens to the
      latest broadcast, the next send reuses its nonce exactly while the node has not seen it. */
  lemma TimeoutReusesNonce(w: World, lost: SignedTx, chainPending: nat)
    requires Inv(w) && lost.nonce == |w.sent| && |w.mined| <= chainPending <= |w.sent| + 1
    ensures NextNonce(chainPending, w.tables.log) == lost.nonce <==> chainPending <= |w.sent|
  {
    if chainPending <= |w.sent| { NextNonceCountsBroadcasts(w, chainPending); }
  }

  /** Rows are never removed or rewritten except for one move of the status out of BROADCASTING. */
  ghost predicate LogExtends(log: seq<Record>, log': seq<Record>) {
    && |log| <= |log'|
    && (forall i :: 0 <= i < |log| ==>
          SameRow(log[i], log'[i]) && (!log[i].status.Broadcasting? ==> log'[i] == log[i]))
  }

  ghost predicate Extends(w: World, w': World) {
    && Grows(w, w') && LogExtends(w.tables.log, w'.tables.log)
    && w.rows <= w'.rows && w.credits <= w'.credits && w.opening == w'.opening && w.slack <= w'.slack
  }

  lemma SettledExtendsLog(w: World, id: nat, seen: Record, deltas: seq<Delta>)
    requires Inv(w) && Enabled(w, Settled(id, seen, deltas))
    ensures LogExtends(w.tables.log, Apply(w, Settled(id, seen, deltas)).tables.log)
  {
    if w.tables.log[id].status.Broadcasting? { SettlingIsExact(w, id, seen, deltas); }
  }

  lemma StepExtendsLog(w: World, e: Event)
    requires Inv(w) && Enabled(w, e)
    ensures LogExtends(w.tables.log, Apply(w, e).tables.log)
  {
    match e
    case Sent(o, q, chainPending, accepted) =>
      if Refuse(w.tables, o, q).None? { GuardedSend(w, o, q, chainPending, accepted); }
    case Settled(id, seen, deltas) => SettledExtendsLog(w, id, seen, deltas);
    case ScanCredited(scan) => Credited(w, scan);
    case _ =>
  }

  lemma StepGrows(w: World, e: Event)
    requires Enabled(w, e)
    ensures var w' := Apply(w, e);
            && Grows(w, w') && w.rows <= w'.rows && w.credits <= w'.credits
            && w.opening == w'.opening && w.slack <= w'.slack
  {
  }

  lemma LogExtendsTrans(a: seq<Record>, b: seq<Record>, c: seq<Record>)
    requires LogExtends(a, b) && LogExtends(b, c)
    ensures LogExtends(a, c)
  {
    forall i | 0 <= i < |a|
      ensures SameRow(a[i], c[i]) && (!a[i].status.Broadcasting? ==> c[i] == a[i])
    {
      assert SameRow(a[i], b[i]) && SameRow(b[i], c[i]);
    }
  }

  lemma {:induction false} RunExtends(w: World, events: seq<Event>, w': World)
    requires Inv(w) && Run(w, events, w')
    ensures Inv(w') && Extends(w, w')
    decreases |events|
  {
    if events != [] {
      var next := Apply(w, events[0]);
      StepExtendsLog(w, events[0]);
      StepGrows(w, events[0]);
      InvKept(w, events[0]);
      RunExtends(next, events[1..], w');
      LogExtendsTrans(w.tables.log, next.tables.log, w'.tables.log);
    }
  }

  /** Committed rows are never PENDING, and a settled row never changes again: however many
      reconcilers run, and however stale their copies, each row is settled once. */
  lemma SettledRowsAreFinal(start: World, before: seq<Event>, w: World, after: seq<Event>, w': World, i: nat)
    requires Start(start) && Run(start, before, w) && Run(w, after, w') && i < |w.tables.log|
    ensures !w.tables.log[i].status.Pending?
    ensures w.tables.log[i].status.Confirmed? || w.tables.log[i].status.Failed? ==>
              i < |w'.tables.log| && w'.tables.log[i] == w.tables.log[i]
  {
    StartInv(start);
    RunInv(start, before, w);
    RunExtends(w, after, w');
    assert RowOk(w, i);
  }

  // ---------------------------------------------------------------- balances

  /** In every state of a run each balance not reached by a contract settlement is its opening
      value plus the effects of its log rows and its credits: a token row is credited deposits and
      transfers in, less withdrawals broadcasting or confirmed; an ether row is charged the hold
      of each send in flight and the real cost of each settled one. */
  lemma BalanceIsReplayedHistory(start: World, events: seq<Event>, w: World, x: WalletId, a: Asset)
    requires Start(start) && Run(start, events, w) && Normal(a) && (x, a) !in w.touched
    ensures Bal(w.tables, x, a) == Bal(start.tables, x, a)
                                   + Sum(w.tables.log, Effect(w.mined, x, a)) + Sum(w.credits, CreditTo(x, a))
    ensures Bal(w.tables, x, Native) >= 0
  {
    StartInv(start);
    RunInv(start, events, w);
    RunExtends(start, events, w);
  }

  /** A send and its settlement together take exactly the real cost, whatever happens to the
      wallet between them; the token of a failed token send comes back whole. */
  lemma RefundIsExact(w1: World, o: Order, q: Quote, chainPending: nat, between: seq<Event>, w3: World,
                      seen: Record, deltas: seq<Delta>)
    requires Inv(w1) && Enabled(w1, Sent(o, q, chainPending, true)) && Refuse(w1.tables, o, q).None?
    requires Run(Apply(w1, Sent(o, q, chainPending, true)), between, w3)
    requires |w1.tables.log| < |w3.tables.log| && w3.tables.log[|w1.tables.log|].status.Broadcasting?
    requires Enabled(w3, Settled(|w1.tables.log|, seen, deltas))
    ensures |w1.sent| < |w3.mined|
    ensures var w2, w4, m := Apply(w1, Sent(o, q, chainPending, true)),
                             Apply(w3, Settled(|w1.tables.log|, seen, deltas)), w3.mined[|w1.sent|];
            && m.tx == ToSign(o, q, |w1.sent|)
            && (Bal(w2.tables, o.wallet, Native) - Bal(w1.tables, o.wallet, Native))
               + (Bal(w4.tables, o.wallet, Native) - Bal(w3.tables, o.wallet, Native))
               == -(m.gasUsed * m.gasPrice + if m.success && !o.payment.Erc20? then o.amount else 0)
            && (o.payment.Erc20? ==>
                  var a := AssetOf(o.payment.token);
                  (Bal(w2.tables, o.wallet, a) - Bal(w1.tables, o.wallet, a))
                  + (Bal(w4.tables, o.wallet, a) - Bal(w3.tables, o.wallet, a))
                  == if m.success then -o.amount else 0)
  {
    var send, id := Sent(o, q, chainPending, true), |w1.tables.log|;
    var w2 := Apply(w1, send);
    GuardedSend(w1, o, q, chainPending, true);
    InvKept(w1, send);
    RunExtends(w2, between, w3);
    assert SameRow(w2.tables.log[id], w3.tables.log[id]);
    SettledSentRow(w3, o, q, |w1.sent|, id, seen, deltas);
    assert w3.sent[|w1.sent|] == w2.sent[|w1.sent|];
  }

  /** Settling the row of a given order charges that order's real cost. */
  lemma SettledSentRow(w: World, o: Order, q: Quote, n: nat, id: nat, seen: Record, deltas: seq<Delta>)
    requires Inv(w) && id < |w.tables.log| && w.tables.log[id] == SentRow(o, q, n)
    requires Enabled(w, Settled(id, seen, deltas))
    ensures n < |w.mined| && w.mined[n].tx == ToSign(o, q, n)
    ensures var t', m := Apply(w, Settled(id, seen, deltas)).tables, w.mined[n];
            && Bal(t', o.wallet, Native) - Bal(w.tables, o.wallet, Native)
               == NativeHold(o, q) - (m.gasUsed * m.gasPrice + if m.success && !o.payment.Erc20? then o.amount else 0)
            && (o.payment.Erc20? ==>
                  var a := AssetOf(o.payment.token);
                  Bal(t', o.wallet, a) - Bal(w.tables, o.wallet, a) == if m.success then 0 else o.amount)
  {
    SettlingIsExact(w, id, seen, deltas);
    SettledRow(w, id, seen, deltas);
    assert RowOk(w, id);
    assert Executes(w.mined[n], w.sent[n]);
  }

  /** Nothing is in flight. */
  ghost predicate Quiet(w: World) {
    forall i :: 0 <= i < |w.tables.log| ==> !w.tables.log[i].status.Broadcasting?
  }

  /** Two quiet states of the same history hold the same balances: same rows up to status, same
      mined transactions, same credits in any order. */
  lemma QuietBalancesAgree(a: World, b: World, x: WalletId, s: Asset)
    requires Inv(a) && Inv(b) && Quiet(a) && Quiet(b) && Normal(s) && (x, s) !in a.touched && (x, s) !in b.touched
    requires a.mined == b.mined && a.opening == b.opening && multiset(a.credits) == multiset(b.credits)
    requires |a.tables.log| == |b.tables.log|
    requires forall i :: 0 <= i < |a.tables.log| ==>
               && SameRow(a.tables.log[i], b.tables.log[i])
               && (a.tables.log[i].nonce.None? ==> a.tables.log[i] == b.tables.log[i])
    ensures a.tables.log == b.tables.log
    ensures Bal(a.tables, x, s) == Bal(b.tables, x, s)
  {
    forall i | 0 <= i < |a.tables.log| ensures a.tables.log[i] == b.tables.log[i] {
      assert RowOk(a, i) && RowOk(b, i);
    }
    SumPermuted(a.credits, b.credits, CreditTo(x, s));
  }

  ghost predicate Reconciling(events: seq<Event>) {
    forall e :: e in events ==> e.Fetched? || e.Settled?
  }

  lemma {:induction false} ReconcilingKeeps(w: World, events: seq<Event>, w': World)
    requires Run(w, events, w') && Reconciling(events)
    ensures w'.mined == w.mined && w'.opening == w.opening && w'.credits == w.credits
        && |w'.tables.log| == |w.tables.log|
    decreases |events|
  {
    if events != [] {
      assert events[0] in events;
      ReconcilingKeeps(Apply(w, events[0]), events[1..], w');
    }
  }

  /** Settlement is confluent: any two runs of any number of reconcilers, in any order and with
      any stale copies, that leave nothing in flight leave the same rows, the same ether, and the
      same tokens wherever no contract settlement reached. */
  lemma SettlementIsConfluent(w: World, left: seq<Event>, a: World, right: seq<Event>, b: World, x: WalletId, s: Asset)
    requires Inv(w) && Run(w, left, a) && Run(w, right, b) && Reconciling(left) && Reconciling(right)
    requires Quiet(a) && Quiet(b) && Normal(s) && (x, s) !in a.touched && (x, s) !in b.touched
    ensures a.tables.log == b.tables.log
    ensures Bal(a.tables, x, Native) == Bal(b.tables, x, Native)
    ensures Bal(a.tables, x, s) == Bal(b.tables, x, s)
  {
    RunExtends(w, left, a);
    RunExtends(w, right, b);
    ReconcilingKeeps(w, left, a);
    ReconcilingKeeps(w, right, b);
    SettledRowsMatch(w, a, b);
    QuietBalancesAgree(a, b, x, Native);
    QuietBalancesAgree(a, b, x, s);
  }

  lemma SettledRowsMatch(w: World, a: World, b: World)
    requires Inv(w) && LogExtends(w.tables.log, a.tables.log) && LogExtends(w.tables.log, b.tables.log)
    requires |a.tables.log| == |w.tables.log| == |b.tables.log|
    ensures forall i :: 0 <= i < |a.tables.log| ==>
              && SameRow(a.tables.log[i], b.tables.log[i])
              && (a.tables.log[i].nonce.None? ==> a.tables.log[i] == b.tables.log[i])
  {
    forall i | 0 <= i < |a.tables.log|
      ensures SameRow(a.tables.log[i], b.tables.log[i])
      ensures a.tables.log[i].nonce.None? ==> a.tables.log[i] == b.tables.log[i]
    {
      assert RowOk(w, i);
      assert SameRow(w.tables.log[i], a.tables.log[i]) && SameRow(w.tables.log[i], b.tables.log[i]);
    }
  }
}
