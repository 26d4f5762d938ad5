/** Every event keeps the invariant of the custody world. */
module Invariant {
  import opened Prelude
  import opened Ledger
  import opened World

  // ---------------------------------------------------------------- nonces

  lemma {:induction false} ReservedNonceIsHighest(log: seq<Record>)
    ensures forall i :: 0 <= i < |log| && InFlight(log[i]) && log[i].nonce.Some? ==>
        log[i].nonce.value < ReservedNonce(log)
    ensures ReservedNonce(log) > 0 ==>
              exists i :: 0 <= i < |log| && InFlight(log[i]) && log[i].nonce == Some(ReservedNonce(log) - 1)
    decreases |log|
  {
    if log != [] {
      var init := log[..|log| - 1];
      ReservedNonceIsHighest(init);
      assert forall i :: 0 <= i < |init| ==> log[i] == init[i];
    }
  }

  /** Neither settled nor failed. */
  ghost predicate InFlightStatus(status: Status) {
    status != Confirmed && status != Failed
  }

  /** The allocator continues a gap-free run of b nonces exactly when the node has seen them all
      or the latest one is still reserved by a row in flight. */
  lemma NextNonceContinues(chainPending: nat, log: seq<Record>, b: nat)
    requires chainPending <= b
    requires forall i :: 0 <= i < |log| && InFlightStatus(log[i].status) && log[i].nonce.Some? ==>
        log[i].nonce.value < b
    ensures NextNonce(chainPending, log) == b <==>
            chainPending == b
            || exists i :: 0 <= i < |log| && InFlightStatus(log[i].status) && log[i].nonce == Some(b - 1)
  {
    ReservedNonceIsHighest(log);
  }

  /** In every state of a run the next nonce is the number of successful broadcasts so far. */
  lemma NextNonceCountsBroadcasts(w: World, chainPending: nat)
    requires Nonces(w) && Rows(w) && |w.mined| <= chainPending <= |w.sent|
    ensures NextNonce(chainPending, w.tables.log) == |w.sent|
  {
    forall i | 0 <= i < |w.tables.log| && InFlight(w.tables.log[i]) && w.tables.log[i].nonce.Some?
      ensures w.tables.log[i].nonce.value < |w.sent|
    {
      assert RowOk(w, i);
    }
    NextNonceContinues(chainPending, w.tables.log, |w.sent|);
    if chainPending < |w.sent| {
      assert RowOk(w, w.slot[|w.sent| - 1]);
    }
  }

  // ---------------------------------------------------------------- balances after each body

  lemma LowerBal(t: Tables, o: Order, native: int, tokens: int, x: WalletId, a: Asset)
    ensures Bal(Lower(t, o, native, tokens), x, a) == Bal(t, x, a) -
            (if x != o.wallet then 0
             else if a.Native? then native
             else if o.payment.Erc20? && a == AssetOf(o.payment.token) then tokens else 0)
  {
  }

  /** A rejected broadcast leaves every balance as it was. */
  lemma FailedBroadcastRestores(t: Tables, o: Order, q: Quote, chainPending: nat, x: WalletId, a: Asset)
    ensures Bal(Send(t, o, q, chainPending, false), x, a) == Bal(t, x, a)
  {
    LowerBal(t, o, 0, 0, x, a);
  }

  /** A transfer moves its amount from one row to the other and touches no third row. */
  lemma TransferBal(t: Tables, source: WalletId, target: WalletId, a: Asset, amount: int, x: WalletId, b: Asset)
    requires source != target
    ensures Bal(Transfer(t, source, target, a, amount), x, b) == Bal(t, x, b) +
            (if Bal(t, source, a) < amount || a != b then 0
             else if x == source then -amount else if x == target then amount else 0)
  {
  }

  /** The transfer guard has no lower bound, and between two wallets that are not overdrawn it
      overdraws one exactly when the amount is negative beyond what the target holds. */
  lemma TransferOverdrawsIff(t: Tables, source: WalletId, target: WalletId, a: Asset, amount: int)
    requires source != target && Bal(t, source, a) >= 0 && Bal(t, target, a) >= 0
    ensures var t' := Transfer(t, source, target, a, amount);
            && (Bal(t', source, a) >= 0 && Bal(t', target, a) >= 0 <==> amount + Bal(t, target, a) >= 0)
            && Bal(t', source, a) + Bal(t', target, a) == Bal(t, source, a) + Bal(t, target, a)
  {
    TransferBal(t, source, target, a, amount, source, a);
    TransferBal(t, source, target, a, amount, target, a);
  }

  /** A scan's ether is all its own wallet's. */
  lemma {:induction false} RowTotals(d: WalletId, rows: seq<DepositRow>, x: WalletId)
    requires forall r :: r in rows ==> r.wallet == d
    ensures NativeTotal(rows) == Sum(rows, NativeOf())
    ensures Sum(rows, CreditTo(x, Native)) == if x == d then Sum(rows, NativeOf()) else 0
    decreases |rows|
  {
    if rows != [] {
      RowTotals(d, rows[..|rows| - 1], x);
      assert rows[|rows| - 1].wallet == d;
    }
  }

  /** One more row credits its amount to its token, if it is a token row. */
  lemma CreditTokensNext(t: Tables, d: WalletId, init: seq<DepositRow>, last: DepositRow)
    ensures TokenCredits(init + [last])
            == TokenCredits(init) + if last.token.Some? then [TokenCredit(last.token.value, last.amount)] else []
    ensures var before := CreditTokens(t, d, TokenCredits(init));
            CreditTokens(t, d, TokenCredits(init + [last])) ==
            if last.token.None? then before
            else SetBal(before, d, RowAsset(last.token), Bal(before, d, RowAsset(last.token)) + last.amount)
  {
    assert (init + [last])[..|init|] == init;
    if last.token.Some? {
      var c := TokenCredits(init);
      assert (c + [TokenCredit(last.token.value, last.amount)])[..|c|] == c;
    } else {
      assert TokenCredits(init) + [] == TokenCredits(init);
    }
  }

  lemma {:induction false} CreditTokensRows(t: Tables, d: WalletId, rows: seq<DepositRow>, x: WalletId, a: Asset)
    requires Normal(a) && forall r :: r in rows ==> r.wallet == d
    ensures Bal(CreditTokens(t, d, TokenCredits(rows)), x, a)
            == Bal(t, x, a) + if a.Token? then Sum(rows, CreditTo(x, a)) else 0
    decreases |rows|
  {
    if rows != [] {
      var init, last := rows[..|rows| - 1], rows[|rows| - 1];
      assert rows == init + [last] && last in rows;
      CreditTokensRows(t, d, init, x, a);
      CreditTokensNext(t, d, init, last);
    }
  }

  lemma CreditTokensBal(t: Tables, d: WalletId, rows: seq<DepositRow>, x: WalletId, a: Asset)
    requires Normal(a) && forall r :: r in rows ==> r.wallet == d
    ensures a.Token? ==> Bal(CreditTokens(t, d, TokenCredits(rows)), x, a) == Bal(t, x, a) + Sum(rows, CreditTo(x, a))
    ensures a.Native? ==> Bal(CreditTokens(t, d, TokenCredits(rows)), x, a) == Bal(t, x, a)
    ensures NativeTotal(rows) == Sum(rows, NativeOf())
    ensures Sum(rows, CreditTo(x, Native)) == if x == d then Sum(rows, NativeOf()) else 0
  {
    RowTotals(d, rows, x);
    CreditTokensRows(t, d, rows, x, a);
  }

  /** Crediting a scan adds exactly the amounts of its pending rows to its own wallet. */
  lemma CreditBal(t: Tables, d: WalletId, rows: seq<DepositRow>, x: WalletId, a: Asset)
    requires Normal(a) && forall r :: r in rows ==> r.wallet == d
    ensures Bal(Credit(t, d, NativeTotal(rows), TokenCredits(rows)), x, a) == Bal(t, x, a) + Sum(rows, CreditTo(x, a))
  {
    var t1 := if NativeTotal(rows) > 0 then SetBal(t, d, Native, Bal(t, d, Native) + NativeTotal(rows)) else t;
    CreditTokensBal(t1, d, rows, x, a);
  }

  lemma {:induction false} CreditTokensKeeps(t: Tables, d: WalletId, credits: seq<TokenCredit>)
    ensures forall x: WalletId, a: Asset :: x != d ==> Bal(CreditTokens(t, d, credits), x, a) == Bal(t, x, a)
    decreases |credits|
  {
    if credits != [] {
      CreditTokensKeeps(t, d, credits[..|credits| - 1]);
    }
  }

  // ---------------------------------------------------------------- settling

  /** The row a reconciler settles is the one its receipt belongs to, however old its copy is. */
  lemma SettledRow(w: World, id: nat, seen: Record, deltas: seq<Delta>)
    requires Nonces(w) && Rows(w) && Copies(w) && Enabled(w, Settled(id, seen, deltas))
    ensures var r := w.tables.log[id];
            && SameRow(seen, r) && r.nonce.Some? && r.nonce.value == seen.hash.value.tx.nonce < |w.mined|
            && Carries(r, r.nonce.value, w.sent[r.nonce.value])
  {
    assert RowOk(w, id);
  }

  /** The real cost of a mined row is at most what was reserved for it. */
  lemma CostWithinHold(w: World, i: nat)
    requires Nonces(w) && Rows(w) && i < |w.tables.log| && w.tables.log[i].nonce.Some?
    ensures MinedCost(w.tables.log[i], w.mined) <= w.tables.log[i].locked
  {
    assert RowOk(w, i);
    var n := w.tables.log[i].nonce.value;
    if n < |w.mined| {
      assert Executes(w.mined[n], w.sent[n]);
      MulMono(w.mined[n].gasUsed, w.mined[n].gasPrice, w.sent[n].gasLimit, w.sent[n].gasPrice);
    }
  }

  /** The tables just before a settlement applies its token deltas. */
  ghost function Paid(t: Tables, id: nat, seen: Record, rc: Receipt): Tables
    requires id < |t.log|
  {
    Settle(t, id, seen, rc.(deltas := []))
  }

  lemma SettleSplits(t: Tables, id: nat, seen: Record, rc: Receipt)
    requires id < |t.log| && t.log[id].status.Broadcasting?
    ensures var t' := Settle(t, id, seen, rc);
            && t'.log == t.log[id := t.log[id].(status := Outcome(rc.success))] == Paid(t, id, seen, rc).log
            && forall x: WalletId, a: Asset ::
                 x != seen.wallet || a.Native? || !seen.kind.Contract?
                 || (forall d :: d in rc.deltas ==> Token(d.token) != a)
                 ==> Bal(t', x, a) == Bal(Paid(t, id, seen, rc), x, a)
  {
    var t1 := SetBal(t, seen.wallet, Native,
        SafeSubtract(Bal(t, seen.wallet, Native) + t.log[id].locked, Cost(seen, rc)));
    var t2 :=
      if seen.token.Some? && !rc.success then
        var a := AssetOf(seen.token.value);
        SetBal(t1, seen.wallet, a, Bal(t1, seen.wallet, a) + seen.amount)
      else t1;
    assert Bal(Paid(t, id, seen, rc), 0, Native) == Bal(t2, 0, Native);
    forall x: WalletId, a: Asset |
      x != seen.wallet || a.Native? || !seen.kind.Contract? || (forall d :: d in rc.deltas ==> Token(d.token) != a)
      ensures Bal(Settle(t, id, seen, rc), x, a) == Bal(Paid(t, id, seen, rc), x, a)
    {
      if seen.kind.Contract? { DeltasElsewhere(t2, seen.wallet, rc.deltas, x, a); }
    }
  }

  /** In every state of a run safeSubtract's clamp is unreachable: settling gives the whole
      reservation back and takes exactly the real cost. */
  lemma SettlingIsExact(w: World, id: nat, seen: Record, deltas: seq<Delta>)
    requires Nonces(w) && Rows(w) && Copies(w) && Enabled(w, Settled(id, seen, deltas))
    requires w.tables.log[id].status.Broadcasting?
    ensures var r := w.tables.log[id];
            var t' := Apply(w, Settled(id, seen, deltas)).tables;
            && r.nonce.Some? && r.nonce.value < |w.mined| && 0 <= MinedCost(r, w.mined) <= r.locked
            && Bal(t', r.wallet, Native) == Bal(w.tables, r.wallet, Native) + r.locked - MinedCost(r, w.mined)
            && (forall x: WalletId :: x != r.wallet ==> Bal(t', x, Native) == Bal(w.tables, x, Native))
            && (forall x: WalletId, a: Asset :: x != r.wallet ==> Bal(t', x, a) == Bal(w.tables, x, a))
            && t'.log == w.tables.log[id := r.(status := Outcome(w.mined[r.nonce.value].success))]
  {
    SettledRow(w, id, seen, deltas);
    CostWithinHold(w, id);
    SettleSplits(w.tables, id, seen, ReceiptOf(w.mined[seen.hash.value.tx.nonce], deltas));
  }

  /** Where contract settlements do not reach, settling moves a token row exactly when the send
      failed on chain, and then by the amount the send had taken from that same row. */
  lemma SettledTokens(w: World, id: nat, seen: Record, deltas: seq<Delta>, x: WalletId, a: Asset)
    requires Nonces(w) && Rows(w) && Copies(w) && Enabled(w, Settled(id, seen, deltas))
    requires w.tables.log[id].status.Broadcasting?
    requires a.Token? && (x, a) !in Apply(w, Settled(id, seen, deltas)).touched
    ensures var r := w.tables.log[id];
            r.nonce.Some? && r.nonce.value < |w.mined| &&
            Bal(Apply(w, Settled(id, seen, deltas)).tables, x, a) == Bal(w.tables, x, a) +
            (if x == r.wallet && r.token.Some? && RowAsset(r.token) == a && !w.mined[r.nonce.value].success
             then r.amount else 0)
  {
    SettledRow(w, id, seen, deltas);
    SettleSplits(w.tables, id, seen, ReceiptOf(w.mined[seen.hash.value.tx.nonce], deltas));
    var touched := Apply(w, Settled(id, seen, deltas)).touched;
    assert forall d :: d in deltas ==> (seen.wallet, Token(d.token)) in touched || !seen.kind.Contract?;
  }

  // ---------------------------------------------------------------- preservation

  /** What a send that passes its guards does: broadcast, it takes its hold and appends its row
      with the next gap-free nonce; rejected by the node, it only leaves a failed row. */
  lemma GuardedSend(w: World, o: Order, q: Quote, chainPending: nat, accepted: bool)
    requires Nonces(w) && Rows(w) && Enabled(w, Sent(o, q, chainPending, accepted)) && Refuse(w.tables, o, q).None?
    ensures var w' := Apply(w, Sent(o, q, chainPending, accepted));
            && w'.tables.log == w.tables.log + [if accepted then SentRow(o, q, |w.sent|) else FailedRow(o, q)]
            && w'.sent == (if accepted then w.sent + [ToSign(o, q, |w.sent|)] else w.sent)
            && w'.slot == (if accepted then w.slot + [|w.tables.log|] else w.slot)
            && (forall x: WalletId, a: Asset {:trigger Bal(w'.tables, x, a)} ::
                  Bal(w'.tables, x, a) == Bal(w.tables, x, a) -
                  (if x != o.wallet || !accepted then 0
                   else if a.Native? then NativeHold(o, q)
                   else if o.payment.Erc20? && a == AssetOf(o.payment.token) then o.amount else 0))
            && Bal(w.tables, o.wallet, Native) >= NativeHold(o, q)
  {
    NextNonceCountsBroadcasts(w, chainPending);
  }

  lemma SentNonces(w: World, o: Order, q: Quote, chainPending: nat, accepted: bool)
    requires Nonces(w) && Rows(w) && Enabled(w, Sent(o, q, chainPending, accepted))
    ensures Nonces(Apply(w, Sent(o, q, chainPending, accepted)))
  {
    if Refuse(w.tables, o, q).None? { GuardedSend(w, o, q, chainPending, accepted); }
  }

  lemma NoncesKept(w: World, e: Event)
    requires Nonces(w) && Rows(w) && Copies(w) && Scans(w) && Enabled(w, e)
    ensures Nonces(Apply(w, e))
  {
    match e
    case Sent(o, q, chainPending, accepted) => SentNonces(w, o, q, chainPending, accepted);
    case Mine(pick, success, gasUsed, gasPrice) =>
    case Settled(id, seen, deltas) =>
      if w.tables.log[id].status.Broadcasting? { SettlingIsExact(w, id, seen, deltas); }
    case ScanCredited(scan) => Credited(w, scan);
    case _ =>
  }

  /** What crediting a scan does to the tables. */
  lemma Credited(w: World, scan: nat)
    requires Scans(w) && scan in w.scans
    ensures var s, w' := w.scans[scan], Apply(w, ScanCredited(scan));
            && w'.tables.log == w.tables.log
            && (forall x: WalletId, a: Asset {:trigger Bal(w'.tables, x, a)} ::
                  Normal(a) ==> Bal(w'.tables, x, a) == Bal(w.tables, x, a) + Sum(s.pending, CreditTo(x, a)))
            && (forall x: WalletId, a: Asset :: x != s.wallet ==> Bal(w'.tables, x, a) == Bal(w.tables, x, a))
            && Sum(s.pending, NativeOf()) >= 0
            && (forall x: WalletId ::
                  Sum(s.pending, CreditTo(x, Native)) == if x == s.wallet then Sum(s.pending, NativeOf()) else 0)
  {
    var s := w.scans[scan];
    CreditTokensBal(w.tables, s.wallet, s.pending, 0, Native);
    assert Owes(w, s);
    var t1 := if NativeTotal(s.pending) > 0
              then SetBal(w.tables, s.wallet, Native, Bal(w.tables, s.wallet, Native) + NativeTotal(s.pending))
              else w.tables;
    CreditTokensKeeps(t1, s.wallet, TokenCredits(s.pending));
    forall x: WalletId, a: Asset | Normal(a)
      ensures Bal(Credit(w.tables, s.wallet, NativeTotal(s.pending), TokenCredits(s.pending)), x, a)
              == Bal(w.tables, x, a) + Sum(s.pending, CreditTo(x, a))
    {
      CreditBal(w.tables, s.wallet, s.pending, x, a);
    }
    forall x: WalletId
      ensures Sum(s.pending, CreditTo(x, Native)) == if x == s.wallet then Sum(s.pending, NativeOf()) else 0
    {
      CreditTokensBal(w.tables, s.wallet, s.pending, x, Native);
    }
  }

  ghost predicate Grows(w: World, w': World) {
    w.wallets <= w'.wallets && w.sent <= w'.sent && w.slot <= w'.slot && w.mined <= w'.mined
  }

  lemma OldRowOk(w: World, w': World, i: nat)
    requires Nonces(w) && Grows(w, w') && i < |w.tables.log| && RowOk(w, i)
    requires i < |w'.tables.log| && w'.tables.log[i] == w.tables.log[i]
    ensures RowOk(w', i)
  {
    var k :| 0 <= k < |w.wallets| && w.wallets[k] == w.tables.log[i].wallet;
    assert w'.wallets[k] == w.wallets[k];
  }

  lemma SentRowsKept(w: World, o: Order, q: Quote, chainPending: nat, accepted: bool)
    requires Nonces(w) && Rows(w) && Enabled(w, Sent(o, q, chainPending, accepted))
    ensures Rows(Apply(w, Sent(o, q, chainPending, accepted)))
  {
    var w' := Apply(w, Sent(o, q, chainPending, accepted));
    if Refuse(w.tables, o, q).None? {
      GuardedSend(w, o, q, chainPending, accepted);
      assert Grows(w, w');
      forall i | 0 <= i < |w'.tables.log| ensures RowOk(w', i) {
        if i < |w.tables.log| { OldRowOk(w, w', i); }
      }
    }
  }

  lemma MinedRowsKept(w: World, w': World, m: Mined)
    requires Nonces(w) && Rows(w) && w' == AfterMine(w, m)
    ensures Rows(w')
  {
    forall i | 0 <= i < |w'.tables.log| ensures RowOk(w', i) { OldRowOk(w, w', i); }
  }

  lemma SettledRowsKept(w: World, id: nat, seen: Record, deltas: seq<Delta>)
    requires Nonces(w) && Rows(w) && Copies(w) && Enabled(w, Settled(id, seen, deltas))
    ensures Rows(Apply(w, Settled(id, seen, deltas)))
  {
    var w' := Apply(w, Settled(id, seen, deltas));
    assert RowOk(w, id);
    if w.tables.log[id].status.Broadcasting? {
      SettlingIsExact(w, id, seen, deltas);
      forall i | 0 <= i < |w'.tables.log| ensures RowOk(w', i) {
        if i != id { OldRowOk(w, w', i); }
      }
    } else {
      forall i | 0 <= i < |w'.tables.log| ensures RowOk(w', i) { OldRowOk(w, w', i); }
    }
  }

  lemma MovedRowsKept(w: World, source: WalletId, target: WalletId, a: Asset, amount: int)
    requires Nonces(w) && Rows(w) && Enabled(w, Moved(source, target, a, amount))
    ensures Rows(Apply(w, Moved(source, target, a, amount)))
  {
    var w' := Apply(w, Moved(source, target, a, amount));
    forall x: WalletId, b: Asset ensures (x !in w.wallets ==> Bal(w'.tables, x, b) == 0)
        && Bal(w'.tables, x, Native) >= 0 {
      TransferBal(w.tables, source, target, a, amount, x, b);
      TransferBal(w.tables, source, target, a, amount, x, Native);
    }
    forall i | 0 <= i < |w'.tables.log| ensures RowOk(w', i) {
      if i < |w.tables.log| { OldRowOk(w, w', i); }
    }
  }

  lemma CreditedRowsKept(w: World, scan: nat)
    requires Nonces(w) && Rows(w) && Scans(w) && scan in w.scans
    ensures Rows(Apply(w, ScanCredited(scan)))
  {
    var w' := Apply(w, ScanCredited(scan));
    Credited(w, scan);
    assert Owes(w, w.scans[scan]);
    forall i | 0 <= i < |w'.tables.log| ensures RowOk(w', i) { OldRowOk(w, w', i); }
  }

  lemma QuietRowsKept(w: World, w': World)
    requires Nonces(w) && Rows(w) && Grows(w, w') && w'.tables.log == w.tables.log && w'.mined == w.mined
    requires Distinct(w'.wallets)
    requires forall x: WalletId, a: Asset :: Bal(w'.tables, x, a) == Bal(w.tables, x, a)
    ensures Rows(w')
  {
    forall i | 0 <= i < |w'.tables.log| ensures RowOk(w', i) { OldRowOk(w, w', i); }
  }

  lemma RowsKept(w: World, e: Event)
    requires Nonces(w) && Rows(w) && Copies(w) && Scans(w) && Enabled(w, e)
    ensures Rows(Apply(w, e))
  {
    match e
    case Sent(o, q, chainPending, accepted) => SentRowsKept(w, o, q, chainPending, accepted);
    case Mine(pick, success, gasUsed, gasPrice) =>
      MinedRowsKept(w, Apply(w, e), Mined(w.sent[pick], success, gasUsed, gasPrice));
    case Settled(id, seen, deltas) => SettledRowsKept(w, id, seen, deltas);
    case Moved(source, target, a, amount) => MovedRowsKept(w, source, target, a, amount);
    case ScanCredited(scan) => CreditedRowsKept(w, scan);
    case _ => QuietRowsKept(w, Apply(w, e));
  }

  lemma SettledCopiesKept(w: World, id: nat, seen: Record, deltas: seq<Delta>)
    requires Nonces(w) && Rows(w) && Copies(w) && Enabled(w, Settled(id, seen, deltas))
    ensures Copies(Apply(w, Settled(id, seen, deltas)))
  {
    if w.tables.log[id].status.Broadcasting? { SettlingIsExact(w, id, seen, deltas); }
  }

  lemma CopiesKept(w: World, e: Event)
    requires Nonces(w) && Rows(w) && Copies(w) && Scans(w) && Enabled(w, e)
    ensures Copies(Apply(w, e))
  {
    match e
    case Fetched(id) => assert RowOk(w, id);
    case Settled(id, seen, deltas) => SettledCopiesKept(w, id, seen, deltas);
    case ScanCredited(scan) => Credited(w, scan);
    case _ =>
  }

  lemma ArrivalsKept(w: World, e: Event)
    requires Nonces(w) && Arrivals(w) && Enabled(w, e)
    ensures Arrivals(Apply(w, e))
  {
  }

  lemma UniqueRowsKept(w: World, e: Event)
    requires UniqueRows(w) && Owed(w) && Enabled(w, e)
    ensures UniqueRows(Apply(w, e))
  {
  }

  lemma FoundOwed(w: World, scan: nat, row: DepositRow)
    requires UniqueRows(w) && Owed(w) && Enabled(w, ScanFound(scan, row))
    ensures Owed(Apply(w, ScanFound(scan, row)))
  {
    var w' := Apply(w, ScanFound(scan, row));
    assert row !in w.rows;
    forall s | s in w'.scans ensures Owes(w', w'.scans[s]) { assert Owes(w, w.scans[s]); }
  }

  lemma CreditedOwed(w: World, scan: nat)
    requires Owed(w) && scan in w.scans
    ensures Owed(Apply(w, ScanCredited(scan)))
  {
    var w' := Apply(w, ScanCredited(scan));
    assert Owes(w, w.scans[scan]);
    forall s | s in w'.scans ensures Owes(w', w'.scans[s]) {
      assert Owes(w, w.scans[s]) && Apart(w.scans[s].pending, w.scans[scan].pending);
    }
  }

  lemma OwedKept(w: World, e: Event)
    requires UniqueRows(w) && Owed(w) && Enabled(w, e)
    ensures Owed(Apply(w, e))
  {
    var w' := Apply(w, e);
    forall s | s in w.scans ensures Owes(w, w.scans[s]) {}
    match e
    case ScanFound(scan, row) => FoundOwed(w, scan, row);
    case ScanCredited(scan) => CreditedOwed(w, scan);
    case _ =>
      forall s | s in w'.scans ensures Owes(w', w'.scans[s]) {}
  }
}
