/** Balances equal the replayed history, and ether is conserved, in every state of every run. */
module Conservation {
  import opened Prelude
  import opened Ledger
  import opened World
  import opened Invariant

  // ---------------------------------------------------------------- history

  lemma EffectStable(w: World, m: Mined, i: nat, x: WalletId, a: Asset)
    requires Nonces(w) && Rows(w) && i < |w.tables.log|
    ensures EffectOf(w.tables.log[i], w.mined + [m], x, a) == EffectOf(w.tables.log[i], w.mined, x, a)
  {
    assert RowOk(w, i);
  }

  lemma SentHistory(w: World, o: Order, q: Quote, chainPending: nat, accepted: bool)
    requires Nonces(w) && Rows(w) && History(w) && Enabled(w, Sent(o, q, chainPending, accepted))
    ensures History(Apply(w, Sent(o, q, chainPending, accepted)))
  {
    var w' := Apply(w, Sent(o, q, chainPending, accepted));
    if Refuse(w.tables, o, q).None? {
      GuardedSend(w, o, q, chainPending, accepted);
      var r := if accepted then SentRow(o, q, |w.sent|) else FailedRow(o, q);
      forall x: WalletId, a: Asset | Normal(a) && (x, a) !in w'.touched
        ensures Bal(w'.tables, x, a) == Replayed(w', x, a)
      {
        SumSnoc(w.tables.log, r, Effect(w.mined, x, a));
      }
    }
  }

  lemma MinedHistory(w: World, m: Mined)
    requires Nonces(w) && Rows(w) && History(w)
    ensures History(AfterMine(w, m))
  {
    var w' := AfterMine(w, m);
    forall x: WalletId, a: Asset | Normal(a) && (x, a) !in w'.touched
      ensures Bal(w'.tables, x, a) == Replayed(w', x, a)
    {
      forall i | 0 <= i < |w.tables.log|
        ensures Effect(w.mined, x, a)(w.tables.log[i]) == Effect(w'.mined, x, a)(w.tables.log[i])
      {
        EffectStable(w, m, i, x, a);
      }
      SumSame(w.tables.log, Effect(w.mined, x, a), Effect(w'.mined, x, a));
    }
  }

  lemma QuietHistory(w: World, w': World)
    requires History(w)
    requires w'.tables.log == w.tables.log && w'.mined == w.mined && w'.credits == w.credits
    requires w'.opening == w.opening && w.touched <= w'.touched
    requires forall x: WalletId, a: Asset :: Bal(w'.tables, x, a) == Bal(w.tables, x, a)
    ensures History(w')
  {
    forall x: WalletId, a: Asset | Normal(a) && (x, a) !in w'.touched
      ensures Bal(w'.tables, x, a) == Replayed(w', x, a)
    {
      assert Bal(w.tables, x, a) == Replayed(w, x, a);
    }
  }

  /** Settling a row changes its effect as it changes the balance. */
  lemma SettledEffect(w: World, id: nat, seen: Record, deltas: seq<Delta>, x: WalletId, a: Asset)
    requires Nonces(w) && Rows(w) && Copies(w) && Enabled(w, Settled(id, seen, deltas))
    requires w.tables.log[id].status.Broadcasting?
    requires Normal(a) && (x, a) !in Apply(w, Settled(id, seen, deltas)).touched
    ensures var t' := Apply(w, Settled(id, seen, deltas)).tables;
            && id < |t'.log|
            && Bal(t', x, a) == Bal(w.tables, x, a)
                                - EffectOf(w.tables.log[id], w.mined, x, a) + EffectOf(t'.log[id], w.mined, x, a)
  {
    SettlingIsExact(w, id, seen, deltas);
    SettledRow(w, id, seen, deltas);
    if a.Token? { SettledTokens(w, id, seen, deltas, x, a); }
  }

  lemma SettledHistory(w: World, id: nat, seen: Record, deltas: seq<Delta>)
    requires Nonces(w) && Rows(w) && Copies(w) && History(w) && Enabled(w, Settled(id, seen, deltas))
    ensures History(Apply(w, Settled(id, seen, deltas)))
  {
    var w' := Apply(w, Settled(id, seen, deltas));
    if w.tables.log[id].status.Broadcasting? {
      SettlingIsExact(w, id, seen, deltas);
      forall x: WalletId, a: Asset | Normal(a) && (x, a) !in w'.touched
        ensures Bal(w'.tables, x, a) == Replayed(w', x, a)
      {
        SettledEffect(w, id, seen, deltas, x, a);
        SumUpdate(w.tables.log, id, w'.tables.log[id], Effect(w.mined, x, a));
        assert Bal(w.tables, x, a) == Replayed(w, x, a);
      }
    } else {
      QuietHistory(w, w');
    }
  }

  lemma MovedEffect(t: Tables, source: WalletId, target: WalletId, b: Asset, amount: int, mined: seq<Mined>,
                    x: WalletId, a: Asset)
    requires source != target && Normal(b) && Bal(t, source, b) >= amount
    ensures Bal(Transfer(t, source, target, b, amount), x, a) == Bal(t, x, a)
            + EffectOf(TransferRow(source, Withdrawal, b, amount), mined, x, a)
            + EffectOf(TransferRow(target, Deposit, b, amount), mined, x, a)
  {
    assert RowAsset(TransferRow(source, Withdrawal, b, amount).token) == b;
  }

  lemma MovedHistory(w: World, source: WalletId, target: WalletId, b: Asset, amount: int)
    requires Rows(w) && History(w) && Enabled(w, Moved(source, target, b, amount))
    ensures History(Apply(w, Moved(source, target, b, amount)))
  {
    var w' := Apply(w, Moved(source, target, b, amount));
    if Bal(w.tables, source, b) >= amount {
      var out, into := TransferRow(source, Withdrawal, b, amount), TransferRow(target, Deposit, b, amount);
      assert w'.tables.log == (w.tables.log + [out]) + [into];
      forall x: WalletId, a: Asset | Normal(a) && (x, a) !in w'.touched
        ensures Bal(w'.tables, x, a) == Replayed(w', x, a)
      {
        MovedEffect(w.tables, source, target, b, amount, w.mined, x, a);
        SumSnoc(w.tables.log, out, Effect(w.mined, x, a));
        SumSnoc(w.tables.log + [out], into, Effect(w.mined, x, a));
        assert Bal(w.tables, x, a) == Replayed(w, x, a);
      }
    }
  }

  lemma CreditedHistory(w: World, scan: nat)
    requires Rows(w) && Scans(w) && History(w) && scan in w.scans
    ensures History(Apply(w, ScanCredited(scan)))
  {
    var w' := Apply(w, ScanCredited(scan));
    Credited(w, scan);
    forall x: WalletId, a: Asset | Normal(a) && (x, a) !in w'.touched
      ensures Bal(w'.tables, x, a) == Replayed(w', x, a)
    {
      SumConcat(w.credits, w.scans[scan].pending, CreditTo(x, a));
    }
  }

  lemma HistoryKept(w: World, e: Event)
    requires Nonces(w) && Rows(w) && Copies(w) && Scans(w) && History(w) && Enabled(w, e)
    ensures History(Apply(w, e))
  {
    match e
    case Sent(o, q, chainPending, accepted) => SentHistory(w, o, q, chainPending, accepted);
    case Mine(pick, success, gasUsed, gasPrice) => MinedHistory(w, Mined(w.sent[pick], success, gasUsed, gasPrice));
    case Settled(id, seen, deltas) => SettledHistory(w, id, seen, deltas);
    case Moved(source, target, a, amount) => MovedHistory(w, source, target, a, amount);
    case ScanCredited(scan) => CreditedHistory(w, scan);
    case _ => QuietHistory(w, Apply(w, e));
  }

  // ---------------------------------------------------------------- conservation

  /** If one wallet's ether changed by d, so did the group's. */
  lemma GroupShift(ws: seq<WalletId>, t: Tables, t': Tables, x: WalletId, d: int)
    requires Distinct(ws) && x in ws && Bal(t', x, Native) == Bal(t, x, Native) + d
    requires forall y: WalletId :: y != x ==> Bal(t', y, Native) == Bal(t, y, Native)
    ensures Sum(ws, Holding(t', Native)) == Sum(ws, Holding(t, Native)) + d
  {
    var i :| 0 <= i < |ws| && ws[i] == x;
    SumAt(ws, i, Holding(t, Native), Holding(t', Native));
  }

  lemma SentConserved(w: World, o: Order, q: Quote, chainPending: nat, accepted: bool)
    requires Nonces(w) && Rows(w) && Conserved(w) && Enabled(w, Sent(o, q, chainPending, accepted))
    ensures Conserved(Apply(w, Sent(o, q, chainPending, accepted)))
  {
    var w' := Apply(w, Sent(o, q, chainPending, accepted));
    if Refuse(w.tables, o, q).None? {
      GuardedSend(w, o, q, chainPending, accepted);
      var r := if accepted then SentRow(o, q, |w.sent|) else FailedRow(o, q);
      SumSnoc(w.tables.log, r, Outstanding(w.mined));
      GroupShift(w.wallets, w.tables, w'.tables, o.wallet, if accepted then -NativeHold(o, q) else 0);
    }
  }

  lemma MinedConserved(w: World, m: Mined)
    requires Nonces(w) && Rows(w) && Conserved(w)
    requires |w.mined| < |w.sent| && m.tx == w.sent[|w.mined|]
    ensures Conserved(AfterMine(w, m))
  {
    var w', i := AfterMine(w, m), w.slot[|w.mined|];
    var r := w.tables.log[i];
    assert RowOk(w, i);
    forall j | 0 <= j < |w.tables.log| && j != i
      ensures Outstanding(w.mined)(w.tables.log[j]) == Outstanding(w'.mined)(w.tables.log[j])
    {
      assert RowOk(w, j);
    }
    SumAt(w.tables.log, i, Outstanding(w.mined), Outstanding(w'.mined));
    assert MinedCost(r, w'.mined) == m.gasUsed * m.gasPrice + if m.success then m.tx.value else 0;
    if m.success && m.tx.to == w.self {
      SumSnoc(w.incoming, Incoming(Signed(m.tx), m.tx.value), Arrived());
    } else {
      assert w'.incoming == w.incoming;
    }
  }

  lemma SettledConserved(w: World, id: nat, seen: Record, deltas: seq<Delta>)
    requires Nonces(w) && Rows(w) && Copies(w) && Conserved(w) && Enabled(w, Settled(id, seen, deltas))
    ensures Conserved(Apply(w, Settled(id, seen, deltas)))
  {
    var w', r := Apply(w, Settled(id, seen, deltas)), w.tables.log[id];
    assert RowOk(w, id);
    if r.status.Broadcasting? {
      SettlingIsExact(w, id, seen, deltas);
      SumUpdate(w.tables.log, id, w'.tables.log[id], Outstanding(w.mined));
      GroupShift(w.wallets, w.tables, w'.tables, r.wallet, r.locked - MinedCost(r, w.mined));
    }
  }

  lemma MovedConserved(w: World, source: WalletId, target: WalletId, a: Asset, amount: int)
    requires Rows(w) && Conserved(w) && Enabled(w, Moved(source, target, a, amount))
    ensures Conserved(Apply(w, Moved(source, target, a, amount)))
  {
    var t, t' := w.tables, Transfer(w.tables, source, target, a, amount);
    if Bal(t, source, a) >= amount {
      var out, into := TransferRow(source, Withdrawal, a, amount), TransferRow(target, Deposit, a, amount);
      assert t'.log == (t.log + [out]) + [into];
      SumSnoc(t.log, out, Outstanding(w.mined));
      SumSnoc(t.log + [out], into, Outstanding(w.mined));
      var mid := SetBal(t, source, a, Bal(t, source, a) - amount);
      GroupShift(w.wallets, t, mid, source, if a.Native? then -amount else 0);
      GroupShift(w.wallets, mid, t', target, if a.Native? then amount else 0);
    }
  }

  lemma CreditedConserved(w: World, scan: nat)
    requires Rows(w) && Scans(w) && Conserved(w) && scan in w.scans
    ensures Conserved(Apply(w, ScanCredited(scan)))
  {
    var w', s := Apply(w, ScanCredited(scan)), w.scans[scan];
    Credited(w, scan);
    assert Owes(w, s);
    SumConcat(w.credits, s.pending, NativeOf());
    GroupShift(w.wallets, w.tables, w'.tables, s.wallet, Sum(s.pending, NativeOf()));
  }

  lemma JoinedConserved(w: World, wallet: WalletId)
    requires Rows(w) && Conserved(w) && wallet !in w.wallets
    ensures Conserved(Apply(w, Joined(wallet)))
  {
    var t' := SetBal(w.tables, wallet, Native, 0);
    SumSnoc(w.wallets, wallet, Holding(t', Native));
    SumSame(w.wallets, Holding(w.tables, Native), Holding(t', Native));
  }

  lemma ConservedKept(w: World, e: Event)
    requires Nonces(w) && Rows(w) && Copies(w) && Scans(w) && Conserved(w) && Enabled(w, e)
    ensures Conserved(Apply(w, e))
  {
    match e
    case Sent(o, q, chainPending, accepted) => SentConserved(w, o, q, chainPending, accepted);
    case Mine(pick, success, gasUsed, gasPrice) => MinedConserved(w, Mined(w.sent[pick], success, gasUsed, gasPrice));
    case Income(hash, value) => SumSnoc(w.incoming, Incoming(hash, value), Arrived());
    case Settled(id, seen, deltas) => SettledConserved(w, id, seen, deltas);
    case Moved(source, target, a, amount) => MovedConserved(w, source, target, a, amount);
    case Joined(wallet) => JoinedConserved(w, wallet);
    case ScanCredited(scan) => CreditedConserved(w, scan);
    case _ =>
  }

  // ---------------------------------------------------------------- the invariant over runs

  lemma StartInv(w: World)
    requires Start(w)
    ensures Inv(w)
  {
  }

  lemma TokensOnlyKept(w: World, e: Event)
    requires TokensOnly(w) && Enabled(w, e)
    ensures TokensOnly(Apply(w, e))
  {
  }

  lemma InvKept(w: World, e: Event)
    requires Inv(w) && Enabled(w, e)
    ensures Inv(Apply(w, e))
  {
    NoncesKept(w, e);
    RowsKept(w, e);
    CopiesKept(w, e);
    ArrivalsKept(w, e);
    UniqueRowsKept(w, e);
    OwedKept(w, e);
    HistoryKept(w, e);
    TokensOnlyKept(w, e);
    ConservedKept(w, e);
  }

  /** Every reachable state satisfies the invariant: gap-free nonces, balances that equal the
      replayed history, conserved ether, non-negative rows, at-most-once credits. */
  lemma {:induction false} RunInv(w: World, events: seq<Event>, w': World)
    requires Inv(w) && Run(w, events, w')
    ensures Inv(w')
    decreases |events|
  {
    if events != [] {
      InvKept(w, events[0]);
      RunInv(Apply(w, events[0]), events[1..], w');
    }
  }
}
