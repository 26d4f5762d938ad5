/**
 Token rows that contract settlements move. A settlement adds the net of its receipt's logs and clamps
 at zero, so unlike ether these rows may depend on the order of settlements; only a clamp can make the
 difference.
 */
module ContractTokens {
  import opened Prelude
  import opened Ledger
  import opened World
  import opened Invariant
  import opened Conservation
  import opened Custody

  /** Applying the deltas in order never meets the clamp. */
  predicate NoClamp(t: Tables, w: WalletId, deltas: seq<Delta>)
    decreases |deltas|
  {
    deltas != [] ==>
      var a, d := Token(deltas[0].token), deltas[0].amount;
      && (d == 0 || Bal(t, w, a) + d >= 0)
      && NoClamp(if d == 0 then t else SetBal(t, w, a, Max(0, Bal(t, w, a) + d)), w, deltas[1..])
  }

  ghost function DeltaIn(a: Asset): Delta -> int {
    (d: Delta) => if Token(d.token) == a then d.amount else 0
  }

  /** Without a clamp the deltas add up, whatever their order. */
  lemma {:induction false} UnclampedAdds(t: Tables, w: WalletId, deltas: seq<Delta>, x: WalletId, a: Asset)
    requires NoClamp(t, w, deltas)
    ensures Bal(ApplyDeltas(t, w, deltas), x, a) == Bal(t, x, a) + if x == w then Sum(deltas, DeltaIn(a)) else 0
    decreases |deltas|
  {
    if deltas != [] {
      var b, d := Token(deltas[0].token), deltas[0].amount;
      UnclampedAdds(if d == 0 then t else SetBal(t, w, b, Max(0, Bal(t, w, b) + d)), w, deltas[1..], x, a);
      SumFirst(deltas, DeltaIn(a));
    }
  }

  /** A clamp does depend on the order: minus five and plus five on an empty row leave five one way
      round and nothing the other. */
  lemma ClampDependsOnOrder(w: WalletId, token: Address)
    ensures var t, out, back := Tables(map[], []), [Delta(token, -5)], [Delta(token, 5)];
            && Bal(ApplyDeltas(ApplyDeltas(t, w, out), w, back), w, Token(token)) == 5
            && Bal(ApplyDeltas(ApplyDeltas(t, w, back), w, out), w, Token(token)) == 0
  {
  }

  ghost predicate SameTokens(s: Tables, t: Tables) {
    forall x: WalletId, a: Asset :: a.Token? ==> Bal(s, x, a) == Bal(t, x, a)
  }

  lemma SetBoth(s: Tables, t: Tables, w: WalletId, b: Asset, v: int)
    requires SameTokens(s, t)
    ensures SameTokens(SetBal(s, w, b, v), SetBal(t, w, b, v))
  {
    forall x: WalletId, a: Asset | a.Token? ensures Bal(SetBal(s, w, b, v), x, a) == Bal(SetBal(t, w, b, v), x, a) {
      assert Bal(s, x, a) == Bal(t, x, a);
    }
  }

  lemma {:induction false} ClampSeesTokens(s: Tables, t: Tables, w: WalletId, deltas: seq<Delta>)
    requires SameTokens(s, t) && NoClamp(s, w, deltas)
    ensures NoClamp(t, w, deltas)
    decreases |deltas|
  {
    if deltas != [] {
      var b, d := Token(deltas[0].token), deltas[0].amount;
      var next := Max(0, Bal(s, w, b) + d);
      assert Bal(s, w, b) == Bal(t, w, b);
      SetBoth(s, t, w, b, next);
      if d == 0 {
        ClampSeesTokens(s, t, w, deltas[1..]);
      } else {
        ClampSeesTokens(SetBal(s, w, b, next), SetBal(t, w, b, next), w, deltas[1..]);
      }
    }
  }

  /** What settling a mined row will add to a token row: the tokens of a failed send, or the net of a
      contract call, a function of its nonce. */
  ghost function ToCome(r: Record, mined: seq<Mined>, net: nat -> seq<Delta>, x: WalletId, a: Asset): int {
    if !r.status.Broadcasting? || r.wallet != x || r.nonce.None? || r.nonce.value >= |mined| then 0
    else if mined[r.nonce.value].success then (if r.kind.Contract? then Sum(net(r.nonce.value), DeltaIn(a)) else 0)
    else if r.token.Some? && RowAsset(r.token) == a then r.amount
    else 0
  }

  ghost function Coming(mined: seq<Mined>, net: nat -> seq<Delta>, x: WalletId, a: Asset): Record -> int {
    (r: Record) => ToCome(r, mined, net, x, a)
  }

  /** The event settles with the deltas of its receipt and meets no clamp. */
  ghost predicate Smooth(w: World, e: Event, net: nat -> seq<Delta>)
    requires Nonces(w) && Rows(w) && Copies(w) && Enabled(w, e)
  {
    e.Settled? && w.tables.log[e.id].status.Broadcasting? ==>
      var n := e.seen.hash.value.tx.nonce;
      e.deltas == net(n) && (w.mined[n].success && e.seen.kind.Contract? ==> NoClamp(w.tables, e.seen.wallet, e.deltas))
  }

  ghost predicate SmoothRun(w: World, events: seq<Event>, net: nat -> seq<Delta>)
    requires Inv(w)
    decreases |events|
  {
    events != [] ==>
      Enabled(w, events[0]) && Smooth(w, events[0], net) &&
      (InvKept(w, events[0]); SmoothRun(Apply(w, events[0]), events[1..], net))
  }

  /** The tables of a settlement once its ether is settled. */
  ghost function EtherSettled(t: Tables, id: nat, seen: Record, rc: Receipt): Tables
    requires id < |t.log|
  {
    SetBal(t, seen.wallet, Native, SafeSubtract(Bal(t, seen.wallet, Native) + t.log[id].locked, Cost(seen, rc)))
  }

  lemma ContractSettles(t: Tables, id: nat, seen: Record, rc: Receipt)
    requires id < |t.log| && t.log[id].status.Broadcasting? && rc.success && seen.kind.Contract?
    ensures Settle(t, id, seen, rc).balances
            == ApplyDeltas(EtherSettled(t, id, seen, rc), seen.wallet, rc.deltas).balances
    ensures SameTokens(t, EtherSettled(t, id, seen, rc))
  {
  }

  lemma OtherSettles(t: Tables, id: nat, seen: Record, rc: Receipt, x: WalletId, a: Asset)
    requires id < |t.log| && t.log[id].status.Broadcasting? && a.Token? && !(rc.success && seen.kind.Contract?)
    ensures Bal(Settle(t, id, seen, rc), x, a) == Bal(t, x, a) +
            if x == seen.wallet && !rc.success && seen.token.Some? && AssetOf(seen.token.value) == a then seen.amount
            else 0
  {
  }

  lemma SettleBrings(t: Tables, id: nat, seen: Record, rc: Receipt, x: WalletId, a: Asset)
    requires id < |t.log| && t.log[id].status.Broadcasting? && a.Token?
    requires rc.success && seen.kind.Contract? && NoClamp(t, seen.wallet, rc.deltas)
    ensures Bal(Settle(t, id, seen, rc), x, a)
            == Bal(t, x, a) + if x == seen.wallet then Sum(rc.deltas, DeltaIn(a)) else 0
  {
    var t1 := EtherSettled(t, id, seen, rc);
    ContractSettles(t, id, seen, rc);
    ClampSeesTokens(t, t1, seen.wallet, rc.deltas);
    UnclampedAdds(t1, seen.wallet, rc.deltas, x, a);
    assert Bal(t, x, a) == Bal(t1, x, a);
  }

  /** Settling a row whose deltas meet no clamp adds what was to come. */
  lemma SettlingBringsTokens(w: World, id: nat, seen: Record, deltas: seq<Delta>, net: nat -> seq<Delta>, x: WalletId,
                             a: Asset)
    requires Nonces(w) && Rows(w) && Copies(w) && Enabled(w, Settled(id, seen, deltas)) && a.Token?
    requires w.tables.log[id].status.Broadcasting? && Smooth(w, Settled(id, seen, deltas), net)
    ensures Bal(Apply(w, Settled(id, seen, deltas)).tables, x, a)
            == Bal(w.tables, x, a) + ToCome(w.tables.log[id], w.mined, net, x, a)
  {
    SettledRow(w, id, seen, deltas);
    var rc := ReceiptOf(w.mined[seen.hash.value.tx.nonce], deltas);
    if rc.success && seen.kind.Contract? {
      SettleBrings(w.tables, id, seen, rc, x, a);
    } else {
      OtherSettles(w.tables, id, seen, rc, x, a);
    }
  }

  /** A token row together with what is to come stays the same through any reconciling. */
  lemma SettlingKeepsTotal(w: World, e: Event, net: nat -> seq<Delta>, x: WalletId, a: Asset)
    requires Inv(w) && Enabled(w, e) && (e.Fetched? || e.Settled?) && Smooth(w, e, net) && a.Token?
    ensures var w' := Apply(w, e);
            Bal(w'.tables, x, a) + Sum(w'.tables.log, Coming(w'.mined, net, x, a))
            == Bal(w.tables, x, a) + Sum(w.tables.log, Coming(w.mined, net, x, a))
  {
    if e.Settled? && w.tables.log[e.id].status.Broadcasting? {
      SettlingBringsTokens(w, e.id, e.seen, e.deltas, net, x, a);
      SettlingIsExact(w, e.id, e.seen, e.deltas);
      SumUpdate(w.tables.log, e.id, Apply(w, e).tables.log[e.id], Coming(w.mined, net, x, a));
    }
  }

  lemma {:induction false} ReconcilingKeepsTotal(w: World, events: seq<Event>, w': World, net: nat -> seq<Delta>,
                                                 x: WalletId, a: Asset)
    requires Inv(w) && Run(w, events, w') && Reconciling(events) && SmoothRun(w, events, net) && a.Token?
    ensures Bal(w'.tables, x, a) + Sum(w'.tables.log, Coming(w'.mined, net, x, a))
            == Bal(w.tables, x, a) + Sum(w.tables.log, Coming(w.mined, net, x, a))
    decreases |events|
  {
    if events != [] {
      assert events[0] in events;
      InvKept(w, events[0]);
      SettlingKeepsTotal(w, events[0], net, x, a);
      ReconcilingKeepsTotal(Apply(w, events[0]), events[1..], w', net, x, a);
    }
  }

  lemma {:induction false} NothingToCome(log: seq<Record>, mined: seq<Mined>, net: nat -> seq<Delta>, x: WalletId,
                                         a: Asset)
    requires forall i :: 0 <= i < |log| ==> !log[i].status.Broadcasting?
    ensures Sum(log, Coming(mined, net, x, a)) == 0
    decreases |log|
  {
    if log != [] { NothingToCome(log[..|log| - 1], mined, net, x, a); }
  }

  /** Settlement that meets no clamp is confluent for every token, contract settlements included: any
      two runs of reconcilers that leave nothing in flight leave the same balances. */
  lemma UnclampedSettlementIsConfluent(w: World, left: seq<Event>, l: World, right: seq<Event>, r: World,
                                       net: nat -> seq<Delta>, x: WalletId, a: Asset)
    requires Inv(w) && Run(w, left, l) && Run(w, right, r) && Reconciling(left) && Reconciling(right)
    requires Quiet(l) && Quiet(r) && SmoothRun(w, left, net) && SmoothRun(w, right, net) && a.Token?
    ensures Bal(l.tables, x, a) == Bal(r.tables, x, a)
  {
    ReconcilingKeepsTotal(w, left, l, net, x, a);
    ReconcilingKeepsTotal(w, right, r, net, x, a);
    NothingToCome(l.tables.log, l.mined, net, x, a);
    NothingToCome(r.tables.log, r.mined, net, x, a);
  }
}
