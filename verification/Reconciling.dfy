/**
 A reconciler run is a run of the custody world: it reads its batch, then settles each row that is
 mined. So everything proved of that world's settlements holds of the reconciler's loop.
 */
module Reconciling {
  import opened Prelude
  import opened Ledger
  import opened LedgerService
  import opened World
  import opened Conservation
  import opened Custody
  import Invariant

  /** What the node answers for a hash: the receipt of the mined transaction, with the net of its logs. */
  function ChainReceipts(mined: seq<Mined>, net: nat -> seq<Delta>): TxHash -> Option<Receipt> {
    (h: TxHash) =>
      if h.Signed? && h.tx.nonce < |mined| && mined[h.tx.nonce].tx == h.tx
      then Some(ReceiptOf(mined[h.tx.nonce], net(h.tx.nonce))) else None
  }

  ghost predicate InRange(ids: seq<nat>, n: nat) {
    forall k :: 0 <= k < |ids| ==> ids[k] < n
  }

  ghost predicate HasViews(w: World, ids: seq<nat>) {
    forall k :: 0 <= k < |ids| ==> ids[k] < |w.tables.log| && (ids[k], w.tables.log[ids[k]]) in w.views
  }

  lemma {:induction false} ReadsBatch(w: World, ids: seq<nat>) returns (events: seq<Event>, v: World)
    requires forall k :: 0 <= k < |ids| ==> ids[k] < |w.tables.log| && w.tables.log[ids[k]].status.Broadcasting?
    ensures Run(w, events, v) && Custody.Reconciling(events)
    ensures v == w.(views := v.views) && HasViews(v, ids)
    decreases |ids|
  {
    events, v := [], w;
    if ids != [] {
      var last := ids[|ids| - 1];
      var before, u := ReadsBatch(w, ids[..|ids| - 1]);
      RunSnoc(w, before, u, Fetched(last));
      events, v := before + [Fetched(last)], Apply(u, Fetched(last));
      forall k | 0 <= k < |ids| ensures (ids[k], v.tables.log[ids[k]]) in v.views {
        if k < |ids| - 1 { assert ids[..|ids| - 1][k] == ids[k]; }
      }
    }
  }

  lemma {:induction false} SettlesBatch(w: World, log0: seq<Record>, ids: seq<nat>, net: nat -> seq<Delta>)
    returns (events: seq<Event>, v: World)
    requires |w.tables.log| == |log0| && InRange(ids, |log0|)
    requires forall k :: 0 <= k < |ids| ==> (ids[k], log0[ids[k]]) in w.views
    ensures Run(w, events, v) && Custody.Reconciling(events) && v.mined == w.mined && v.views == w.views
    ensures v.tables == SettleEach(w.tables, log0, ids, ChainReceipts(w.mined, net))
    decreases |ids|
  {
    events, v := [], w;
    if ids != [] {
      var id := ids[|ids| - 1];
      var init := ids[..|ids| - 1];
      var before, u := SettlesBatch(w, log0, init, net);
      var seen := log0[id];
      events, v := before, u;
      if seen.hash.Some? && ChainReceipts(w.mined, net)(seen.hash.value).Some? {
        var e := Settled(id, seen, net(seen.hash.value.tx.nonce));
        assert HasReceipt(u, seen);
        RunSnoc(w, before, u, e);
        events, v := before + [e], Apply(u, e);
      }
    }
  }

  /** From any state of the custody world, what a reconciler run does to the tables is what some run of
      reading and settling events does; when its limit is no smaller than the log and every row in flight
      is mined, nothing is left in flight. */
  lemma ReconcilerIsRun(w: World, limit: nat, net: nat -> seq<Delta>) returns (events: seq<Event>, v: World)
    requires Inv(w)
    ensures InRange(Batch(w.tables.log, limit), |w.tables.log|)
    ensures Run(w, events, v) && Custody.Reconciling(events) && Inv(v)
    ensures v.tables == SettleEach(w.tables, w.tables.log, Batch(w.tables.log, limit), ChainReceipts(w.mined, net))
    ensures |w.tables.log| <= limit && AllMined(w) ==> Quiet(v)
  {
    var ids := Batch(w.tables.log, limit);
    BatchIsOpen(w.tables.log, limit);
    var fetches, u := ReadsBatch(w, ids);
    var settles;
    settles, v := SettlesBatch(u, w.tables.log, ids, net);
    RunsJoin(w, fetches, u, settles, v);
    events := fetches + settles;
    RunInv(w, events, v);
    if |w.tables.log| <= limit && AllMined(w) {
      forall i | 0 <= i < |v.tables.log| ensures !v.tables.log[i].status.Broadcasting? {
          MinedIsSettled(w, limit, net, i); }
    }
  }

  lemma MinedIsSettled(w: World, limit: nat, net: nat -> seq<Delta>, i: nat)
    requires i < |w.tables.log| <= limit && AllMined(w)
    ensures InRange(Batch(w.tables.log, limit), |w.tables.log|)
    ensures !SettleEach(w.tables, w.tables.log, Batch(w.tables.log, limit),
        ChainReceipts(w.mined, net)).log[i].status.Broadcasting?
  {
    UnlimitedRunLeavesNoneBehind(w.tables, limit, ChainReceipts(w.mined, net), i);
    ReconcilerSettlesOldestOpen(w.tables, limit, ChainReceipts(w.mined, net), i);
  }

  /** Every row in flight has its transaction mined. */
  ghost predicate AllMined(w: World) {
    forall i :: 0 <= i < |w.tables.log| && w.tables.log[i].status.Broadcasting? ==> HasReceipt(w, w.tables.log[i])
  }

  /** What such a run returns to a wallet's ether: the holds of its rows less what they really cost. */
  ghost function Surplus(mined: seq<Mined>, x: WalletId): Record -> int {
    (r: Record) => if r.status.Broadcasting? && r.wallet == x then r.locked - MinedCost(r, mined) else 0
  }

  lemma {:induction false} SurplusSettles(w: World, events: seq<Event>, v: World, x: WalletId)
    requires Inv(w) && Run(w, events, v) && Custody.Reconciling(events)
    ensures v.mined == w.mined
    ensures Bal(v.tables, x, Native) + Sum(v.tables.log, Surplus(v.mined, x))
            == Bal(w.tables, x, Native) + Sum(w.tables.log, Surplus(w.mined, x))
    decreases |events|
  {
    if events != [] {
      assert events[0] in events;
      OneSettles(w, events[0], x);
      InvKept(w, events[0]);
      SurplusSettles(Apply(w, events[0]), events[1..], v, x);
    }
  }

  lemma OneSettles(w: World, e: Event, x: WalletId)
    requires Inv(w) && Enabled(w, e) && (e.Fetched? || e.Settled?)
    ensures var v := Apply(w, e);
            Bal(v.tables, x, Native) + Sum(v.tables.log, Surplus(v.mined, x))
            == Bal(w.tables, x, Native) + Sum(w.tables.log, Surplus(w.mined, x))
  {
    if e.Settled? && w.tables.log[e.id].status.Broadcasting? {
      Invariant.SettlingIsExact(w, e.id, e.seen, e.deltas);
      SumUpdate(w.tables.log, e.id, Apply(w, e).tables.log[e.id], Surplus(w.mined, x));
    }
  }

  /** A run that leaves nothing in flight gives each wallet exactly the holds of its rows less their real
      costs. */
  lemma FullRunReturnsSurplus(w: World, limit: nat, net: nat -> seq<Delta>, x: WalletId) returns (v: World)
    requires Inv(w) && |w.tables.log| <= limit && AllMined(w)
    ensures InRange(Batch(w.tables.log, limit), |w.tables.log|)
    ensures v.tables == SettleEach(w.tables, w.tables.log, Batch(w.tables.log, limit), ChainReceipts(w.mined, net))
    ensures Bal(v.tables, x, Native) == Bal(w.tables, x, Native) + Sum(w.tables.log, Surplus(w.mined, x))
  {
    var events;
    events, v := ReconcilerIsRun(w, limit, net);
    SurplusSettles(w, events, v, x);
    NoSurplus(v.tables.log, v.mined, x);
  }

  lemma {:induction false} NoSurplus(log: seq<Record>, mined: seq<Mined>, x: WalletId)
    requires forall i :: 0 <= i < |log| ==> !log[i].status.Broadcasting?
    ensures Sum(log, Surplus(mined, x)) == 0
    decreases |log|
  {
    if log != [] { NoSurplus(log[..|log| - 1], mined, x); }
  }
}
