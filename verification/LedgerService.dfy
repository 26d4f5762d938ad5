/**
 The service's transaction bodies as they run inside one database transaction: each reads and
 writes balance rows and log rows one at a time, and is proved to have exactly the effect module
 Ledger gives it. A failure result stands for an exception that rolls the transaction back.
 */
module LedgerService {
  import opened Prelude
  import opened Ledger

  datatype Broadcasted = Broadcasted(hash: TxHash, id: nat, nonce: nat)

  datatype SendError = Refused(reason: Refusal) | BroadcastFailed | RowRefused

  datatype TransferError = SameWallet | AssetNotInSource | InsufficientBalance

  /** The rows of one wallet that are broadcast but not settled hold this much ether back. */
  ghost function LockedOf(w: WalletId): Record -> int {
    (r: Record) => if r.wallet == w && r.status.Broadcasting? then r.locked else 0
  }

  ghost function Locked(t: Tables, w: WalletId): int {
    Sum(t.log, LockedOf(w))
  }

  /** A row a reconciler looks for. */
  predicate Open(r: Record) {
    r.status.Broadcasting? && r.hash.Some?
  }

  /** The ids of the open rows, oldest first. */
  function OpenIds(log: seq<Record>): seq<nat> {
    if log == [] then []
    else
      var last := |log| - 1;
      OpenIds(log[..last]) + if Open(log[last]) then [last] else []
  }

  /** The rows one reconciler run takes. */
  function Batch(log: seq<Record>, limit: nat): seq<nat> {
    var ids := OpenIds(log);
    if |ids| <= limit then ids else ids[..limit]
  }

  /** Settling rows one after another, each from its copy in log0, each only if it has a receipt. */
  function SettleEach(t: Tables, log0: seq<Record>, ids: seq<nat>, receipts: TxHash -> Option<Receipt>): (t': Tables)
    requires |t.log| == |log0| && forall k :: 0 <= k < |ids| ==> ids[k] < |log0|
    ensures |t'.log| == |log0|
  {
    if ids == [] then t
    else
      var t1, id := SettleEach(t, log0, ids[..|ids| - 1], receipts), ids[|ids| - 1];
      var seen := log0[id];
      if seen.hash.Some? && receipts(seen.hash.value).Some?
          then Settle(t1, id, seen, receipts(seen.hash.value).value) else t1
  }

  /** What a send past its guards returns: its row, or why there is none in flight. */
  function Sendable(o: Order, q: Quote, nonce: nat, accepted: bool, keyTaken: bool, id: nat)
    : Result<Broadcasted, SendError>
  {
    if !accepted then Failure(BroadcastFailed)
    else if keyTaken then Failure(RowRefused)
    else Success(Broadcasted(Signed(ToSign(o, q, nonce)), id, nonce))
  }

  /** A send past its guards succeeds exactly when it is accepted and its row can be written, and then
      names the row it left in flight, with that row's hash and nonce. */
  lemma SuccessNamesTheRow(t: Tables, o: Order, q: Quote, chainPending: nat, accepted: bool, keyTaken: bool)
    requires Refuse(t, o, q).None?
    ensures var r, log := Sendable(o, q, NextNonce(chainPending, t.log), accepted, keyTaken, |t.log|),
                          Send(t, o, q, chainPending, accepted).log;
            && (r.Success? <==> accepted && !keyTaken)
            && (r.Success? ==>
                  && r.value.id == |t.log| < |log| && log[r.value.id].status == Broadcasting
                  && log[r.value.id].hash == Some(r.value.hash) && log[r.value.id].nonce == Some(r.value.nonce))
  {
  }

  /** A draft reserves no nonce. */
  lemma DraftReservesNone(log: seq<Record>, o: Order, q: Quote)
    ensures ReservedNonce(log + [Draft(o, q)]) == ReservedNonce(log)
  {
    assert (log + [Draft(o, q)])[..|log|] == log;
  }

  class Client {
    var balances: map<(WalletId, Asset), int>
    var log: seq<Record>

    ghost function Now(): Tables
      reads this
    {
      Tables(balances, log)
    }

    // -------------------------------------------------------------- rows

    method GetWalletAssetBalance(w: WalletId, a: Asset) returns (b: int)
      ensures b == Bal(Now(), w, a)
    {
      if (w, a) in balances { b := balances[(w, a)]; } else { b := 0; }
    }

    method SetWalletAssetBalance(w: WalletId, a: Asset, b: int)
      modifies this`balances
      ensures Now() == SetBal(old(Now()), w, a, b)
    {
      balances := balances[(w, a) := b];
    }

    /** Adds a signed amount, and refuses to make a row negative. */
    method AddWalletAssetBalance(w: WalletId, a: Asset, delta: int) returns (ok: bool)
      modifies this`balances
      ensures ok <==> old(Bal(Now(), w, a)) + delta >= 0
      ensures Now() == if ok then SetBal(old(Now()), w, a, old(Bal(Now(), w, a)) + delta) else old(Now())
    {
      var current := GetWalletAssetBalance(w, a);
      ok := current + delta >= 0;
      if ok { SetWalletAssetBalance(w, a, current + delta); }
    }

    method CreateTransaction(row: Record) returns (id: nat)
      modifies this`log
      ensures id == old(|log|) && log == old(log) + [row]
    {
      id := |log|;
      log := log + [row];
    }

    method UpdateTransaction(id: nat, row: Record)
      requires id < |log|
      modifies this`log
      ensures log == old(log)[id := row]
    {
      log := log[id := row];
    }

    /** The highest reserved nonce is an aggregate over the rows in flight. */
    method GetNextNonce(chainPending: nat) returns (nonce: nat)
      ensures nonce == NextNonce(chainPending, log)
    {
      var next := chainPending;
      for i := 0 to |log|
        invariant next == Max(chainPending, ReservedNonce(log[..i]))
      {
        assert log[..i + 1][..i] == log[..i];
        if InFlight(log[i]) && log[i].nonce.Some? && log[i].nonce.value >= next {
          next := log[i].nonce.value + 1;
        }
      }
      assert log[..|log|] == log;
      nonce := next;
    }

    // -------------------------------------------------------------- sends

    /** The part of a send after its reservation: broadcast, or put everything back. The index may
        refuse the update of a broadcast's row, and that failure undoes the caller's transaction. */
    method Broadcast(o: Order, q: Quote, chainPending: nat, accepted: bool, keyTaken: bool, native: int, tokens: int,
                     id: nat)
      returns (r: Result<Broadcasted, SendError>)
      requires id < |log| && log[id] == Draft(o, q)
      modifies this
      ensures r == Sendable(o, q, NextNonce(chainPending, old(log)), accepted, keyTaken, id)
      ensures r != Failure(RowRefused) ==>
                log == old(log)[id := if accepted then SentRow(o, q, NextNonce(chainPending, old(log)))
                                      else FailedRow(o, q)]
      ensures accepted ==> balances == old(balances)
      ensures !accepted && !o.payment.Erc20? ==> balances == old(balances)[(o.wallet, Native) := native]
      ensures !accepted && o.payment.Erc20? ==>
                balances == old(balances)[(o.wallet, Native) := native][(o.wallet, AssetOf(o.payment.token)) := tokens]
    {
      var nonce := GetNextNonce(chainPending);
      if accepted {
        if keyTaken { return Failure(RowRefused); }
        var hash := Signed(ToSign(o, q, nonce));
        UpdateTransaction(id, log[id].(hash := Some(hash), nonce := Some(nonce), status := Broadcasting));
        r := Success(Broadcasted(hash, id, nonce));
      } else {
        SetWalletAssetBalance(o.wallet, Native, native);
        if o.payment.Erc20? { SetWalletAssetBalance(o.wallet, AssetOf(o.payment.token), tokens); }
        UpdateTransaction(id, log[id].(status := Failed));
        r := Failure(BroadcastFailed);
      }
    }

    /** sendTransaction, and writeContract, which reserves and undoes the same way. */
    method SendTransaction(o: Order, q: Quote, chainPending: nat, accepted: bool, keyTaken: bool)
      returns (r: Result<Broadcasted, SendError>)
      requires !o.payment.Erc20?
      modifies this
      ensures var refusal := Refuse(old(Now()), o, q);
              r == if refusal.Some? then Failure(Refused(refusal.value))
                   else Sendable(o, q, NextNonce(chainPending, old(log)), accepted, keyTaken, old(|log|))
      ensures Now() == if r == Failure(RowRefused) then old(Now()) else Send(old(Now()), o, q, chainPending, accepted)
    {
      var balancesBefore, logBefore := balances, log;
      if !Encodable(o) { return Failure(Refused(NotEncodable)); }
      var total := o.amount + GasCost(q);
      if total > q.funds { return Failure(Refused(ChainFunds)); }
      var native := GetWalletAssetBalance(o.wallet, Native);
      if total > native { return Failure(Refused(WalletFunds)); }
      SetWalletAssetBalance(o.wallet, Native, native - total);
      var id := CreateTransaction(Draft(o, q));
      DraftReservesNone(old(log), o, q);
      r := Broadcast(o, q, chainPending, accepted, keyTaken, native, 0, id);
      if r == Failure(RowRefused) { balances, log := balancesBefore, logBefore; }
    }

    /** The five guards of a token send, and the rows they read. */
    method CheckErc20Send(o: Order, q: Quote) returns (refusal: Option<Refusal>, native: int, tokens: int)
      requires o.payment.Erc20?
      ensures refusal == Refuse(Now(), o, q)
      ensures refusal.None? ==>
                native == Bal(Now(), o.wallet, Native) && tokens == Bal(Now(), o.wallet, AssetOf(o.payment.token))
    {
      native, tokens := 0, 0;
      if !Encodable(o) { return Some(NotEncodable), native, tokens; }
      if o.amount > q.tokens { return Some(ChainTokens), native, tokens; }
      if GasCost(q) > q.funds { return Some(ChainGas), native, tokens; }
      native := GetWalletAssetBalance(o.wallet, Native);
      if GasCost(q) > native { return Some(WalletGas), native, tokens; }
      if !q.tracked { return Some(Untracked), native, tokens; }
      tokens := GetWalletAssetBalance(o.wallet, AssetOf(o.payment.token));
      if o.amount > tokens { return Some(WalletTokens), native, tokens; }
      refusal := None;
    }

    method SendErc20Transaction(o: Order, q: Quote, chainPending: nat, accepted: bool, keyTaken: bool)
      returns (r: Result<Broadcasted, SendError>)
      requires o.payment.Erc20?
      modifies this
      ensures var refusal := Refuse(old(Now()), o, q);
              r == if refusal.Some? then Failure(Refused(refusal.value))
                   else Sendable(o, q, NextNonce(chainPending, old(log)), accepted, keyTaken, old(|log|))
      ensures Now() == if r == Failure(RowRefused) then old(Now()) else Send(old(Now()), o, q, chainPending, accepted)
    {
      var balancesBefore, logBefore := balances, log;
      var asset := AssetOf(o.payment.token);
      var refusal, native, tokens := CheckErc20Send(o, q);
      if refusal.Some? { return Failure(Refused(refusal.value)); }
      SetWalletAssetBalance(o.wallet, Native, native - GasCost(q));
      SetWalletAssetBalance(o.wallet, asset, tokens - o.amount);
      var id := CreateTransaction(Draft(o, q));
      DraftReservesNone(old(log), o, q);
      r := Broadcast(o, q, chainPending, accepted, keyTaken, native, tokens, id);
      if r == Failure(RowRefused) { balances, log := balancesBefore, logBefore; }
      assert r != Failure(RowRefused) ==> balances == Send(old(Now()), o, q, chainPending, accepted).balances;
    }

    // -------------------------------------------------------------- settlement

    method ApplyContractTokenDeltas(w: WalletId, deltas: seq<Delta>)
      modifies this`balances
      ensures Now() == ApplyDeltas(old(Now()), w, deltas)
    {
      for i := 0 to |deltas|
        invariant ApplyDeltas(Now(), w, deltas[i..]) == ApplyDeltas(old(Now()), w, deltas)
        invariant log == old(log)
      {
        var asset := Token(deltas[i].token);
        assert deltas[i..][1..] == deltas[i + 1..];
        if deltas[i].amount != 0 {
          var current := GetWalletAssetBalance(w, asset);
          SetWalletAssetBalance(w, asset, if current + deltas[i].amount < 0 then 0 else current + deltas[i].amount);
        }
      }
    }

    /** reconcileBroadcastingRecord: seen is the caller's copy, found its receipt if there is one. */
    method ReconcileRecord(id: nat, seen: Record, found: Option<Receipt>) returns (fetched: bool)
      requires id < |log|
      modifies this
      ensures fetched == (seen.hash.Some? && found.Some?)
      ensures Now() == if fetched then Settle(old(Now()), id, seen, found.value) else old(Now())
    {
      if seen.hash.None? || found.None? { return false; }
      var rc := found.value;
      var row := log[id];
      if !row.status.Broadcasting? { return true; }
      var native := GetWalletAssetBalance(seen.wallet, Native);
      SetWalletAssetBalance(seen.wallet, Native, SafeSubtract(native + row.locked, Cost(seen, rc)));
      if seen.token.Some? && !rc.success {
        var asset := AssetOf(seen.token.value);
        var tokens := GetWalletAssetBalance(seen.wallet, asset);
        SetWalletAssetBalance(seen.wallet, asset, tokens + seen.amount);
      }
      if rc.success && seen.kind.Contract? { ApplyContractTokenDeltas(seen.wallet, rc.deltas); }
      UpdateTransaction(id, row.(status := Outcome(rc.success)));
      return true;
    }

    /** The query of a reconciler run: the oldest open rows, and a copy of each. */
    method FindOpen(limit: nat) returns (ids: seq<nat>, copies: seq<Record>)
      ensures ids == Batch(log, limit) && |copies| == |ids|
      ensures forall k :: 0 <= k < |ids| ==> ids[k] < |log| && copies[k] == log[ids[k]]
    {
      ids, copies := [], [];
      var i := 0;
      while i < |log| && |ids| < limit
        invariant i <= |log| && ids == OpenIds(log[..i]) && |copies| == |ids| <= limit
        invariant forall k :: 0 <= k < |ids| ==> ids[k] < |log| && copies[k] == log[ids[k]]
      {
        assert log[..i + 1][..i] == log[..i];
        if Open(log[i]) { ids, copies := ids + [i], copies + [log[i]]; }
        i := i + 1;
      }
      OpenIdsGrow(log, i);
      assert log[..|log|] == log;
    }

    /** reconcileBroadcastingTransactions: the oldest open rows, each settled if it is mined. */
    method ReconcileBroadcasting(limit: nat, receipts: TxHash -> Option<Receipt>)
      modifies this
      ensures (forall k :: 0 <= k < |Batch(old(log), limit)| ==> Batch(old(log), limit)[k] < |old(log)|)
           && Now() == SettleEach(old(Now()), old(log), Batch(old(log), limit), receipts)
    {
      var ids, copies := FindOpen(limit);
      OpenIdsAre(log);
      assert forall k :: 0 <= k < |OpenIds(log)| ==> OpenIds(log)[k] in OpenIds(log);
      for k := 0 to |ids|
        invariant Now() == SettleEach(old(Now()), old(log), ids[..k], receipts)
      {
        assert ids[..k + 1][..k] == ids[..k];
        if copies[k].hash.Some? {
          var _ := ReconcileRecord(ids[k], copies[k], receipts(copies[k].hash.value));
        }
      }
      assert ids[..|ids|] == ids;
    }

    // -------------------------------------------------------------- transfers, credits, reads

    /** internalTransfer: choice is the asset the caller picked, or none for ether. */
    method InternalTransfer(source: WalletId, target: WalletId, choice: Option<Asset>, amount: int)
        returns (r: Result<(nat, nat), TransferError>)
      modifies this
      ensures var a := if choice.Some? then choice.value else Native;
              if source == target then r == Failure(SameWallet) && Now() == old(Now())
              else if choice.Some? && (source, a) !in old(balances)
                  then r == Failure(AssetNotInSource) && Now() == old(Now())
              else && Now() == Transfer(old(Now()), source, target, a, amount)
                   && r == if old(Bal(Now(), source, a)) < amount then Failure(InsufficientBalance)
                           else Success((old(|log|), old(|log|) + 1))
    {
      if source == target { return Failure(SameWallet); }
      if choice.Some? && (source, choice.value) !in balances { return Failure(AssetNotInSource); }
      var a := if choice.Some? then choice.value else Native;
      var fromBalance := GetWalletAssetBalance(source, a);
      if fromBalance < amount { return Failure(InsufficientBalance); }
      var debit := CreateTransaction(TransferRow(source, Withdrawal, a, amount));
      var credit := CreateTransaction(TransferRow(target, Deposit, a, amount));
      assert log == old(log) + [TransferRow(source, Withdrawal, a, amount), TransferRow(target, Deposit, a, amount)];
      SetWalletAssetBalance(source, a, fromBalance - amount);
      var toBalance := GetWalletAssetBalance(target, a);
      SetWalletAssetBalance(target, a, toBalance + amount);
      return Success((debit, credit));
    }

    /** The credits of one deposit scan. */
    method CreditDeposits(w: WalletId, native: nat, credits: seq<TokenCredit>)
      modifies this`balances
      ensures Now() == Credit(old(Now()), w, native, credits)
    {
      if native > 0 {
        var current := GetWalletAssetBalance(w, Native);
        SetWalletAssetBalance(w, Native, current + native);
      }
      ghost var t := Now();
      for i := 0 to |credits|
        invariant Now() == CreditTokens(t, w, credits[..i])
      {
        assert credits[..i + 1][..i] == credits[..i];
        var asset := AssetOf(credits[i].token);
        var current := GetWalletAssetBalance(w, asset);
        SetWalletAssetBalance(w, asset, current + credits[i].amount);
      }
      assert credits[..|credits|] == credits;
    }

    /** What the wallet page shows: the free balance, and the sum held back by open rows. */
    method GetWalletNativeBalance(w: WalletId) returns (balance: int, locked: int)
      ensures balance == Bal(Now(), w, Native) && locked == Locked(Now(), w)
    {
      balance := GetWalletAssetBalance(w, Native);
      locked := 0;
      for i := 0 to |log|
        invariant locked == Sum(log[..i], LockedOf(w))
      {
        assert log[..i + 1][..i] == log[..i];
        if log[i].wallet == w && log[i].status.Broadcasting? { locked := locked + log[i].locked; }
      }
      assert log[..|log|] == log;
    }

    /** syncBalances: the only writer without the lock. It leaves wallets of shared groups, and
        wallets with a recent row in flight, exactly as they are. */
    method SyncBalances(wallets: seq<WalletId>, groupSize: WalletId -> nat, recent: nat -> bool,
                        chain: WalletId -> Option<int>)
      requires Distinct(wallets)
      modifies this`balances
      ensures forall x: WalletId, a: Asset ::
                Bal(Now(), x, a) ==
                if a.Native? && x in wallets && groupSize(x) <= 1 && chain(x).Some?
                   && !exists i :: 0 <= i < |log| && log[i].wallet == x && log[i].status.Broadcasting? && recent(i)
                then chain(x).value else old(Bal(Now(), x, a))
    {
      for k := 0 to |wallets|
        invariant log == old(log)
        invariant forall x: WalletId, a: Asset ::
                    Bal(Now(), x, a) ==
                    if a.Native? && x in wallets[..k] && groupSize(x) <= 1 && chain(x).Some?
                       && !exists i :: 0 <= i < |log| && log[i].wallet == x && log[i].status.Broadcasting? && recent(i)
                    then chain(x).value else old(Bal(Now(), x, a))
      {
        var w := wallets[k];
        assert wallets[..k + 1] == wallets[..k] + [w] && w !in wallets[..k];
        if groupSize(w) <= 1 {
          var busy := false;
          for i := 0 to |log|
            invariant busy <==> exists j :: 0 <= j < i && log[j].wallet == w && log[j].status.Broadcasting? && recent(j)
          {
            if log[i].wallet == w && log[i].status.Broadcasting? && recent(i) { busy := true; }
          }
          if !busy && chain(w).Some? { SetWalletAssetBalance(w, Native, chain(w).value); }
        }
      }
      assert wallets[..|wallets|] == wallets;
    }
  }

  lemma {:induction false} OpenIdsGrow(log: seq<Record>, i: nat)
    requires i <= |log|
    ensures OpenIds(log[..i]) <= OpenIds(log)
    decreases |log| - i
  {
    if i == |log| {
      assert log[..i] == log;
    } else {
      assert log[..i + 1][..i] == log[..i];
      OpenIdsGrow(log, i + 1);
    }
  }

  lemma {:induction false} OpenIdsAre(log: seq<Record>)
    ensures forall id :: id in OpenIds(log) <==> 0 <= id < |log| && Open(log[id])
    ensures forall i, j :: 0 <= i < j < |OpenIds(log)| ==> OpenIds(log)[i] < OpenIds(log)[j]
    decreases |log|
  {
    if log != [] {
      var init := log[..|log| - 1];
      OpenIdsAre(init);
      assert forall id :: 0 <= id < |init| ==> init[id] == log[id];
      assert forall k :: 0 <= k < |OpenIds(init)| ==> OpenIds(init)[k] in OpenIds(init);
    }
  }

  /** What a reconciler run does to the log: exactly the oldest open rows that have a receipt reach
      their final status, each once; every other row is as it was. */
  lemma {:induction false} SettleEachRows(t: Tables, ids: seq<nat>, receipts: TxHash -> Option<Receipt>, i: nat)
    requires (forall k :: 0 <= k < |ids| ==> ids[k] < |t.log| && Open(t.log[ids[k]])) && Distinct(ids) && i < |t.log|
    ensures var r := t.log[i];
            SettleEach(t, t.log, ids, receipts).log[i] ==
            if Open(r) && i in ids && receipts(r.hash.value).Some?
                then r.(status := Outcome(receipts(r.hash.value).value.success)) else r
    decreases |ids|
  {
    if ids != [] {
      var init, id := ids[..|ids| - 1], ids[|ids| - 1];
      SettleEachRows(t, init, receipts, i);
      SettleEachRows(t, init, receipts, id);
      assert ids == init + [id] && id !in init;
    }
  }

  lemma OpenRank(log: seq<Record>, i: nat)
    requires i < |log| && Open(log[i])
    ensures |OpenIds(log[..i])| < |OpenIds(log)| && OpenIds(log)[|OpenIds(log[..i])|] == i
  {
    assert log[..i + 1][..i] == log[..i];
    OpenIdsGrow(log, i + 1);
    assert OpenIds(log[..i + 1]) == OpenIds(log[..i]) + [i];
  }

  lemma BatchIsOpen(log: seq<Record>, limit: nat)
    ensures forall k :: 0 <= k < |Batch(log, limit)| ==>
              && Batch(log, limit)[k] == OpenIds(log)[k] && Batch(log, limit)[k] < |log|
                  && Open(log[Batch(log, limit)[k]])
    ensures Distinct(Batch(log, limit)) && |Batch(log, limit)| <= limit
  {
    OpenIdsAre(log);
    assert forall k :: 0 <= k < |Batch(log, limit)| ==> OpenIds(log)[k] in OpenIds(log);
  }

  /** A row is in the batch exactly when it is open and fewer than the limit are open before it. */
  lemma BatchIsOldest(log: seq<Record>, limit: nat, i: nat)
    requires i < |log|
    ensures forall k :: 0 <= k < |Batch(log, limit)| ==> Batch(log, limit)[k] < |log| && Open(log[Batch(log, limit)[k]])
    ensures Distinct(Batch(log, limit))
    ensures i in Batch(log, limit) <==> Open(log[i]) && |OpenIds(log[..i])| < limit
  {
    BatchIsOpen(log, limit);
    if Open(log[i]) {
      OpenRank(log, i);
      OpenIdsAre(log);
      assert |OpenIds(log[..i])| < limit ==> Batch(log, limit)[|OpenIds(log[..i])|] == i;
    }
  }

  /** The number of rows that are BROADCASTING and carry a hash. */
  ghost function Waiting(log: seq<Record>): nat {
    if log == [] then 0
    else
      var last := log[|log| - 1];
      Waiting(log[..|log| - 1]) + if last.status == Broadcasting && last.hash != None then 1 else 0
  }

  lemma {:induction false} OpenIdsAreWaiting(log: seq<Record>)
    ensures |OpenIds(log)| == Waiting(log) <= |log|
    decreases |log|
  {
    if log != [] { OpenIdsAreWaiting(log[..|log| - 1]); }
  }

  /** A run settles exactly the rows that are BROADCASTING, carry a hash, have fewer such rows than the
      limit before them, and have a receipt; every other row stays as it was. */
  lemma ReconcilerSettlesOldestOpen(t: Tables, limit: nat, receipts: TxHash -> Option<Receipt>, i: nat)
    requires i < |t.log|
    ensures forall k :: 0 <= k < |Batch(t.log, limit)| ==> Batch(t.log, limit)[k] < |t.log|
    ensures var r := t.log[i];
            SettleEach(t, t.log, Batch(t.log, limit), receipts).log[i] ==
            if r.status == Broadcasting && r.hash != None && Waiting(t.log[..i]) < limit && receipts(r.hash.value).Some?
            then r.(status := if receipts(r.hash.value).value.success then Confirmed else Failed) else r
  {
    BatchIsOldest(t.log, limit, i);
    SettleEachRows(t, Batch(t.log, limit), receipts, i);
    OpenIdsAreWaiting(t.log[..i]);
  }

  /** A run whose limit is no smaller than the log leaves no row with a receipt in flight. */
  lemma UnlimitedRunLeavesNoneBehind(t: Tables, limit: nat, receipts: TxHash -> Option<Receipt>, i: nat)
    requires i < |t.log| <= limit
    ensures forall k :: 0 <= k < |Batch(t.log, limit)| ==> Batch(t.log, limit)[k] < |t.log|
    ensures var r := SettleEach(t, t.log, Batch(t.log, limit), receipts).log[i];
            r.status == Broadcasting && r.hash != None ==> receipts(r.hash.value) == None
  {
    ReconcilerSettlesOldestOpen(t, limit, receipts, i);
    OpenIdsAreWaiting(t.log[..i]);
  }

  /** Free plus held-back ether is unchanged by any send, and a settlement within the reservation
      lowers it by exactly the real cost. */
  lemma SendKeepsTotal(t: Tables, o: Order, q: Quote, chainPending: nat, accepted: bool, x: WalletId)
    ensures var t' := Send(t, o, q, chainPending, accepted);
            Bal(t', x, Native) + Locked(t', x) == Bal(t, x, Native) + Locked(t, x)
  {
    SendLocks(t, o, q, chainPending, accepted, x);
    SendTakes(t, o, q, chainPending, accepted, x);
  }

  ghost function Held(t: Tables, o: Order, q: Quote, accepted: bool, x: WalletId): int {
    if Refuse(t, o, q).None? && accepted && x == o.wallet then NativeHold(o, q) else 0
  }

  lemma SendLocks(t: Tables, o: Order, q: Quote, chainPending: nat, accepted: bool, x: WalletId)
    ensures Locked(Send(t, o, q, chainPending, accepted), x) == Locked(t, x) + Held(t, o, q, accepted, x)
  {
    if Refuse(t, o, q).None? {
      var row := if accepted then SentRow(o, q, NextNonce(chainPending, t.log)) else FailedRow(o, q);
      assert Send(t, o, q, chainPending, accepted).log == t.log + [row];
      SumSnoc(t.log, row, LockedOf(x));
    }
  }

  lemma SendTakes(t: Tables, o: Order, q: Quote, chainPending: nat, accepted: bool, x: WalletId)
    ensures Bal(Send(t, o, q, chainPending, accepted), x, Native) == Bal(t, x, Native) - Held(t, o, q, accepted, x)
  {
  }

  lemma SettleTakesCost(t: Tables, id: nat, seen: Record, rc: Receipt, x: WalletId)
    requires id < |t.log| && t.log[id].status.Broadcasting? && seen.wallet == t.log[id].wallet
    requires Cost(seen, rc) <= Bal(t, seen.wallet, Native) + t.log[id].locked
    ensures var t' := Settle(t, id, seen, rc);
            Bal(t', x, Native) + Locked(t', x)
            == Bal(t, x, Native) + Locked(t, x) - if x == seen.wallet then Cost(seen, rc) else 0
  {
    SumUpdate(t.log, id, t.log[id].(status := Outcome(rc.success)), LockedOf(x));
    var t1 := SetBal(t, seen.wallet, Native,
        SafeSubtract(Bal(t, seen.wallet, Native) + t.log[id].locked, Cost(seen, rc)));
    DeltasElsewhere(t1, seen.wallet, rc.deltas, x, Native);
  }
}
