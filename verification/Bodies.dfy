/**
 The service's transaction bodies, statement by statement, and the proof that each of them, run
 alone, is one step of module Ledger. With lock reduction this makes every interleaving of sends,
 contract writes, settlements, transfers and deposit credits a sequence of those steps.
 */
module Bodies {
  import opened Prelude
  import opened Ledger
  import opened Interleaving

  // ---------------------------------------------------------------- the bodies

  function WriteHeld(o: Order, native: int, tokens: int, next: Body): Body {
    WriteBalance(o.wallet, Native, native,
                 match o.payment
                 case Erc20(token) => WriteBalance(o.wallet, AssetOf(token), tokens, next)
                 case _ => next)
  }

  /** When the index refuses the row's update the transaction is rolled back; module LateRows is about
      when that happens. */
  function Announce(o: Order, q: Quote, native: int, tokens: int, id: nat, nonce: nat, answer: Reply): Body {
    if RowLost(answer) then Rollback
    else if answer.accepted then Update(id, SentRow(o, q, nonce), Commit)
    else WriteHeld(o, native, tokens, Update(id, FailedRow(o, q), Commit))
  }

  function Broadcast(o: Order, q: Quote, native: int, tokens: int, id: nat): Body {
    Ask((answer: Reply) => Allocate(o, q, native, tokens, id, answer.chainPending))
  }

  function Allocate(o: Order, q: Quote, native: int, tokens: int, id: nat, chainPending: nat): Body {
    ReadLog((log: seq<Record>) => Submit(o, q, native, tokens, id, NextNonce(chainPending, log)))
  }

  function Submit(o: Order, q: Quote, native: int, tokens: int, id: nat, nonce: nat): Body {
    Ask((answer: Reply) => Announce(o, q, native, tokens, id, nonce, answer))
  }

  function Reserve(o: Order, q: Quote, native: int, tokens: int): Body {
    WriteHeld(o, native - NativeHold(o, q), tokens - o.amount, Note(o, q, native, tokens))
  }

  function Note(o: Order, q: Quote, native: int, tokens: int): Body {
    Insert(Draft(o, q), (id: nat) => Broadcast(o, q, native, tokens, id))
  }

  function ChainAllows(o: Order, q: Quote): bool {
    Encodable(o) &&
    if o.payment.Erc20? then o.amount <= q.tokens && GasCost(q) <= q.funds else o.amount + GasCost(q) <= q.funds
  }

  /** sendTransaction, sendERC20Transaction and writeContract under the lock. */
  function SendBody(o: Order): Body {
    Ask((answer: Reply) => Quoted(o, answer.quote))
  }

  function Quoted(o: Order, q: Quote): Body {
    if !ChainAllows(o, q) then Rollback
    else ReadBalance(o.wallet, Native, (native: int) => GasRead(o, q, native))
  }

  function GasRead(o: Order, q: Quote, native: int): Body {
    if NativeHold(o, q) > native then Rollback
    else
      match o.payment
      case Erc20(token) =>
        if !q.tracked then Rollback
        else ReadBalance(o.wallet, AssetOf(token), (tokens: int) =>
          if o.amount > tokens then Rollback else Reserve(o, q, native, tokens))
      case _ => Reserve(o, q, native, 0)
  }

  /** Read a row and write it back changed by an amount. */
  function AddTo(w: WalletId, a: Asset, amount: int, next: Body): Body {
    ReadBalance(w, a, (current: int) => WriteBalance(w, a, current + amount, next))
  }

  function MoveDelta(w: WalletId, a: Asset, delta: int, next: Body): Body {
    ReadBalance(w, a, (current: int) => WriteBalance(w, a, Max(0, current + delta), next))
  }

  function MoveDeltas(w: WalletId, deltas: seq<Delta>, next: Body): Body
    decreases |deltas|
  {
    if deltas == [] then next
    else
      var later := MoveDeltas(w, deltas[1..], next);
      if deltas[0].amount == 0 then later else MoveDelta(w, Token(deltas[0].token), deltas[0].amount, later)
  }

  /** The locked part of reconcileBroadcastingRecord. */
  function SettleBody(id: nat, seen: Record, rc: Receipt): Body
  {
    ReadLog((log: seq<Record>) => Checked(id, log, seen, rc))
  }

  function Checked(id: nat, log: seq<Record>, seen: Record, rc: Receipt): Body
  {
    if id >= |log| || !log[id].status.Broadcasting? then Commit
    else ReadBalance(seen.wallet, Native, (native: int) => Refunded(id, log[id], seen, rc, native))
  }

  function Refunded(id: nat, row: Record, seen: Record, rc: Receipt, native: int): Body
  {
    WriteBalance(seen.wallet, Native, SafeSubtract(native + row.locked, Cost(seen, rc)),
                 TokensBack(seen, rc, SettleRest(id, row, seen, rc)))
  }

  function TokensBack(seen: Record, rc: Receipt, next: Body): Body {
    if seen.token.Some? && !rc.success then AddTo(seen.wallet, AssetOf(seen.token.value), seen.amount, next) else next
  }

  function SettleRest(id: nat, row: Record, seen: Record, rc: Receipt): Body
  {
    var last := Update(id, row.(status := Outcome(rc.success)), Commit);
    if rc.success && seen.kind.Contract? then MoveDeltas(seen.wallet, rc.deltas, last) else last
  }

  /** internalTransfer under the lock. */
  function TransferBody(source: WalletId, target: WalletId, a: Asset, amount: int): Body {
    ReadBalance(source, a, (b: int) => Debit(source, target, a, amount, b))
  }

  function Debit(source: WalletId, target: WalletId, a: Asset, amount: int, b: int): Body {
    if b < amount then Rollback
    else Insert(TransferRow(source, Withdrawal, a, amount), (_: nat) => DebitAndCredit(source, target, a, amount, b))
  }

  function DebitAndCredit(source: WalletId, target: WalletId, a: Asset, amount: int, b: int): Body {
    Insert(TransferRow(target, Deposit, a, amount), (_: nat) => MoveAmount(source, target, a, amount, b))
  }

  function MoveAmount(source: WalletId, target: WalletId, a: Asset, amount: int, b: int): Body {
    WriteBalance(source, a, b - amount, AddTo(target, a, amount, Commit))
  }

  function AddTokens(w: WalletId, credits: seq<TokenCredit>): Body {
    if credits == [] then Commit
    else AddTo(w, AssetOf(credits[0].token), credits[0].amount, AddTokens(w, credits[1..]))
  }

  /** The locked part of processWalletDeposits. */
  function CreditBody(w: WalletId, native: nat, credits: seq<TokenCredit>): Body {
    if native > 0 then AddTo(w, Native, native, AddTokens(w, credits)) else AddTokens(w, credits)
  }

  // ---------------------------------------------------------------- running on plain tables

  /** Exec without the overlay: the transaction's own view of the tables is the state. */
  function Do(t: Tables, b: Body, reply: Reply): (Body, Tables) {
    match b
    case ReadBalance(w, a, withValue) => (withValue(Bal(t, w, a)), t)
    case WriteBalance(w, a, v, next) => (next, SetBal(t, w, a, v))
    case ReadLog(withLog) => (withLog(t.log), t)
    case Insert(row, withId) => (withId(|t.log|), t.(log := t.log + [row]))
    case Update(id, row, next) => (next, if id < |t.log| then t.(log := t.log[id := row]) else t)
    case Ask(withReply) => (withReply(reply), t)
    case _ => (b, t)
  }

  function RunOn(t: Tables, b: Body, replies: seq<Reply>): (Body, Tables)
    decreases |replies|
  {
    if replies == [] then (b, t)
    else
      var (b', t') := Do(t, b, replies[0]);
      RunOn(t', b', replies[1..])
  }

  lemma ExecIsDo(base: Tables, over: Overlay, b: Body, reply: Reply)
    ensures var (b', over') := Exec(base, over, b, reply);
            Do(View(base, over), b, reply) == (b', View(base, over'))
  {
    if b.WriteBalance? {
      assert base.balances + over.balances[(b.wallet, b.asset) := b.value]
          == (base.balances + over.balances)[(b.wallet, b.asset) := b.value];
    }
  }

  lemma {:induction false} AloneIsRunOn(base: Tables, over: Overlay, b: Body, replies: seq<Reply>)
    ensures var (b', over') := Alone(base, over, b, replies);
            RunOn(View(base, over), b, replies) == (b', View(base, over'))
    decreases |replies|
  {
    if replies != [] {
      ExecIsDo(base, over, b, replies[0]);
      var (b', over') := Exec(base, over, b, replies[0]);
      AloneIsRunOn(base, over', b', replies[1..]);
    }
  }

  lemma {:induction false} FinalStays(t: Tables, b: Body, replies: seq<Reply>)
    requires Final(b)
    ensures RunOn(t, b, replies) == (b, t)
    decreases |replies|
  {
    if replies != [] { FinalStays(t, b, replies[1..]); }
  }

  /** The tables a finished body leaves: its own, or the old ones after a rollback. */
  function Left(t: Tables, b: Body, replies: seq<Reply>): Tables {
    var (b', t') := RunOn(t, b, replies);
    if b'.Commit? then t' else t
  }

  ghost predicate Ends(t: Tables, b: Body, replies: seq<Reply>) {
    Final(RunOn(t, b, replies).0)
  }

  // ---------------------------------------------------------------- sends

  function Held(t: Tables, o: Order, native: int, tokens: int): Tables {
    var t1 := SetBal(t, o.wallet, Native, native);
    match o.payment
    case Erc20(token) => SetBal(t1, o.wallet, AssetOf(token), tokens)
    case _ => t1
  }

  /** The number of rows a send holds back. */
  function HeldRows(o: Order): nat {
    if o.payment.Erc20? then 2 else 1
  }

  lemma HeldRuns(t: Tables, o: Order, native: int, tokens: int, next: Body, replies: seq<Reply>)
    requires Ends(t, WriteHeld(o, native, tokens, next), replies)
    ensures |replies| >= HeldRows(o) && Ends(Held(t, o, native, tokens), next, replies[HeldRows(o)..])
    ensures RunOn(t, WriteHeld(o, native, tokens, next), replies)
        == RunOn(Held(t, o, native, tokens), next, replies[HeldRows(o)..])
  {
    assert replies != [];
    if o.payment.Erc20? {
      var t1 := SetBal(t, o.wallet, Native, native);
      var inner := WriteBalance(o.wallet, AssetOf(o.payment.token), tokens, next);
      assert RunOn(t, WriteHeld(o, native, tokens, next), replies) == RunOn(t1, inner, replies[1..]);
      assert RunOn(t1, inner, []) == (inner, t1);
      assert replies[1..] != [];
      assert replies[1..][1..] == replies[2..];
    }
  }

  function Announced(t: Tables, o: Order, q: Quote, native: int, tokens: int, id: nat, nonce: nat,
                     accepted: bool): Tables
    requires id < |t.log|
  {
    if accepted then t.(log := t.log[id := SentRow(o, q, nonce)])
    else Held(t, o, native, tokens).(log := t.log[id := FailedRow(o, q)])
  }

  /** A send past its broadcast commits these tables, or its row is lost and it rolls back. */
  ghost predicate Closes(run: (Body, Tables), answer: Reply, done: Tables) {
    if RowLost(answer) then run.0 == Rollback else run == (Commit, done)
  }

  lemma AnnounceRuns(t: Tables, o: Order, q: Quote, native: int, tokens: int, id: nat, nonce: nat, answer: Reply,
                     replies: seq<Reply>)
    requires id < |t.log| && Ends(t, Announce(o, q, native, tokens, id, nonce, answer), replies)
    ensures Closes(RunOn(t, Announce(o, q, native, tokens, id, nonce, answer), replies), answer,
                   Announced(t, o, q, native, tokens, id, nonce, answer.accepted))
  {
    if RowLost(answer) {
      FinalStays(t, Rollback, replies);
    } else if answer.accepted {
      FinalStays(Announced(t, o, q, native, tokens, id, nonce, true), Commit, replies[1..]);
    } else {
      var last := Update(id, FailedRow(o, q), Commit);
      HeldRuns(t, o, native, tokens, last, replies);
      var rest := replies[HeldRows(o)..];
      FinalStays(Announced(t, o, q, native, tokens, id, nonce, false), Commit, rest[1..]);
    }
  }

  lemma BroadcastRuns(t: Tables, o: Order, q: Quote, native: int, tokens: int, id: nat, replies: seq<Reply>)
    requires id < |t.log| && Ends(t, Broadcast(o, q, native, tokens, id), replies)
    ensures |replies| > 2
    ensures Closes(RunOn(t, Broadcast(o, q, native, tokens, id), replies), replies[2],
                   Announced(t, o, q, native, tokens, id, NextNonce(replies[0].chainPending, t.log),
                             replies[2].accepted))
  {
    assert replies != [];
    var p, r1 := replies[0].chainPending, replies[1..];
    var nonce := NextNonce(p, t.log);
    assert RunOn(t, Broadcast(o, q, native, tokens, id), replies)
        == RunOn(t, Allocate(o, q, native, tokens, id, p), r1);
    assert r1 != [];
    var r2 := r1[1..];
    assert RunOn(t, Allocate(o, q, native, tokens, id, p), r1) == RunOn(t, Submit(o, q, native, tokens, id, nonce), r2);
    assert r2 != [];
    var answer, rest := r2[0], r2[1..];
    assert RunOn(t, Submit(o, q, native, tokens, id, nonce), r2)
        == RunOn(t, Announce(o, q, native, tokens, id, nonce, answer), rest);
    AnnounceRuns(t, o, q, native, tokens, id, nonce, answer, rest);
  }

  function Drafted(t: Tables, o: Order, q: Quote): Tables {
    t.(log := t.log + [Draft(o, q)])
  }

  lemma NoteRuns(t: Tables, o: Order, q: Quote, native: int, tokens: int, replies: seq<Reply>)
    requires Ends(t, Note(o, q, native, tokens), replies)
    ensures var drafted := Drafted(t, o, q);
            |replies| > 3
            && Closes(RunOn(t, Note(o, q, native, tokens), replies), replies[3],
                      Announced(drafted, o, q, native, tokens, |t.log|,
                                NextNonce(replies[1].chainPending, drafted.log), replies[3].accepted))
  {
    assert replies != [];
    var drafted := Drafted(t, o, q);
    assert RunOn(t, Note(o, q, native, tokens), replies)
        == RunOn(drafted, Broadcast(o, q, native, tokens, |t.log|), replies[1..]);
    BroadcastRuns(drafted, o, q, native, tokens, |t.log|, replies[1..]);
  }

  /** The tables once the rows are set to the lower values, the draft is noted, and the node has answered. */
  function Finished(t: Tables, o: Order, q: Quote, native: int, tokens: int, lessNative: int, lessTokens: int, p: nat,
                    accepted: bool): Tables {
    var drafted := Drafted(Held(t, o, lessNative, lessTokens), o, q);
    Announced(drafted, o, q, native, tokens, |t.log|, NextNonce(p, drafted.log), accepted)
  }

  lemma HeldNoteRuns(t: Tables, o: Order, q: Quote, native: int, tokens: int, lessNative: int, lessTokens: int,
                     replies: seq<Reply>)
    returns (p: nat, answer: Reply, done: Tables)
    requires Ends(t, WriteHeld(o, lessNative, lessTokens, Note(o, q, native, tokens)), replies)
    ensures var k := HeldRows(o) + 1;
            |replies| > k + 2 && p == replies[k].chainPending && answer == replies[k + 2]
    ensures done == Finished(t, o, q, native, tokens, lessNative, lessTokens, p, answer.accepted)
    ensures Closes(RunOn(t, WriteHeld(o, lessNative, lessTokens, Note(o, q, native, tokens)), replies), answer, done)
  {
    var k, held := HeldRows(o) + 1, Held(t, o, lessNative, lessTokens);
    HeldRuns(t, o, lessNative, lessTokens, Note(o, q, native, tokens), replies);
    NoteRuns(held, o, q, native, tokens, replies[HeldRows(o)..]);
    p, answer := replies[k].chainPending, replies[k + 2];
    done := Finished(t, o, q, native, tokens, lessNative, lessTokens, p, answer.accepted);
  }

  /** Setting the rows again overwrites what was set before. */
  lemma HeldTwice(t: Tables, log: seq<Record>, o: Order, n1: int, k1: int, n2: int, k2: int)
    ensures Held(Held(t, o, n1, k1).(log := log), o, n2, k2).balances == Held(t, o, n2, k2).balances
  {
  }

  lemma LowerIsHeld(t: Tables, o: Order, native: int, tokens: int, n: int, k: int)
    requires native == Bal(t, o.wallet, Native)
    requires o.payment.Erc20? ==> tokens == Bal(t, o.wallet, AssetOf(o.payment.token))
    ensures Lower(t, o, n, k) == Held(t, o, native - n, tokens - k)
  {
  }

  /** An accepted send's tables: the lowered rows, and the draft marked as broadcast. */
  lemma AcceptedFinishes(t: Tables, o: Order, q: Quote, native: int, tokens: int, n: int, k: int, p: nat)
    ensures var done := Finished(t, o, q, native, tokens, n, k, p, true);
            && done.balances == Held(t, o, n, k).balances
            && done.log == t.log + [SentRow(o, q, NextNonce(p, t.log))]
  {
    DraftReserves(t.log, o, q);
    var row := SentRow(o, q, NextNonce(p, t.log));
    assert (t.log + [Draft(o, q)])[|t.log| := row] == t.log + [row];
  }

  lemma AcceptedIsSend(t: Tables, o: Order, q: Quote, native: int, tokens: int, p: nat)
    requires native == Bal(t, o.wallet, Native)
    requires o.payment.Erc20? ==> tokens == Bal(t, o.wallet, AssetOf(o.payment.token))
    ensures Finished(t, o, q, native, tokens, native - NativeHold(o, q), tokens - o.amount, p, true)
         == Unrefused(t, o, q, p, true)
  {
    AcceptedFinishes(t, o, q, native, tokens, native - NativeHold(o, q), tokens - o.amount, p);
    LowerIsHeld(t, o, native, tokens, NativeHold(o, q), o.amount);
  }

  lemma RejectedRestores(t: Tables, log: seq<Record>, o: Order, n: int, k: int, native: int, tokens: int)
    requires native == Bal(t, o.wallet, Native)
    requires o.payment.Erc20? ==> tokens == Bal(t, o.wallet, AssetOf(o.payment.token))
    ensures Held(Held(t, o, n, k).(log := log), o, native, tokens).balances == Lower(t, o, 0, 0).balances
  {
    LowerIsHeld(t, o, native, tokens, 0, 0);
    HeldTwice(t, log, o, n, k, native, tokens);
  }

  /** A rejected send's tables: the rows as they were set last, and the draft marked as failed. */
  lemma RejectedFinishes(t: Tables, o: Order, q: Quote, native: int, tokens: int, n: int, k: int, p: nat)
    ensures var done := Finished(t, o, q, native, tokens, n, k, p, false);
            && done.balances == Held(Held(t, o, n, k).(log := t.log + [Draft(o, q)]), o, native, tokens).balances
            && done.log == t.log + [FailedRow(o, q)]
  {
    assert (t.log + [Draft(o, q)])[|t.log| := FailedRow(o, q)] == t.log + [FailedRow(o, q)];
  }

  lemma RejectedIsSend(t: Tables, o: Order, q: Quote, native: int, tokens: int, p: nat)
    requires native == Bal(t, o.wallet, Native)
    requires o.payment.Erc20? ==> tokens == Bal(t, o.wallet, AssetOf(o.payment.token))
    ensures Finished(t, o, q, native, tokens, native - NativeHold(o, q), tokens - o.amount, p, false)
         == Unrefused(t, o, q, p, false)
  {
    var n, k := native - NativeHold(o, q), tokens - o.amount;
    RejectedFinishes(t, o, q, native, tokens, n, k, p);
    RejectedRestores(t, t.log + [Draft(o, q)], o, n, k, native, tokens);
  }

  lemma FinishedIsSend(t: Tables, o: Order, q: Quote, native: int, tokens: int, p: nat, accepted: bool, done: Tables)
    requires native == Bal(t, o.wallet, Native)
    requires o.payment.Erc20? ==> tokens == Bal(t, o.wallet, AssetOf(o.payment.token))
    requires done == Finished(t, o, q, native, tokens, native - NativeHold(o, q), tokens - o.amount, p, accepted)
    ensures done == Unrefused(t, o, q, p, accepted)
  {
    if accepted { AcceptedIsSend(t, o, q, native, tokens, p); } else { RejectedIsSend(t, o, q, native, tokens, p); }
  }

  /** The draft row reserves no nonce. */
  lemma DraftReserves(log: seq<Record>, o: Order, q: Quote)
    ensures ReservedNonce(log + [Draft(o, q)]) == ReservedNonce(log)
  {
    assert (log + [Draft(o, q)])[..|log|] == log;
  }

  /** What a send body does to its group's tables with the answers it got: the quote first, and past the
      reservation the pending count, whether the broadcast was accepted, and whether its row was lost. */
  ghost predicate SendStep(t: Tables, o: Order, replies: seq<Reply>, t': Tables) {
    && replies != []
    && Sends(t, o, replies[0].quote, replies, if o.payment.Erc20? then 6 else 4, t')
  }

  ghost predicate Sends(t: Tables, o: Order, q: Quote, replies: seq<Reply>, k: nat, t': Tables) {
    if Refuse(t, o, q).Some? then t' == t
    else
      && |replies| > k + 2
      && t' == if RowLost(replies[k + 2]) then t else Send(t, o, q, replies[k].chainPending, replies[k + 2].accepted)
  }

  /** A finished send body is the Send step of the answers it got; it rolls back exactly when its guards
      refuse or its row is lost. */
  lemma SendBodyIsSend(t: Tables, o: Order, replies: seq<Reply>)
    requires Ends(t, SendBody(o), replies)
    ensures SendStep(t, o, replies, Left(t, SendBody(o), replies))
  {
    assert replies != [];
    var q, r1 := replies[0].quote, replies[1..];
    var native := Bal(t, o.wallet, Native);
    assert RunOn(t, SendBody(o), replies) == RunOn(t, Quoted(o, q), r1);
    if !ChainAllows(o, q) {
      FinalStays(t, Rollback, r1);
    } else {
      assert r1 != [];
      assert RunOn(t, Quoted(o, q), r1) == RunOn(t, GasRead(o, q, native), r1[1..]);
      GasReadIsSend(t, o, q, r1[1..]);
      assert r1[1..] == replies[2..];
    }
  }

  /** What a send past its guards leaves, given how its run closed. */
  lemma ClosedIsSend(t: Tables, o: Order, q: Quote, native: int, tokens: int, run: (Body, Tables), replies: seq<Reply>,
                     k: nat, done: Tables)
    requires Refuse(t, o, q).None? && native == Bal(t, o.wallet, Native)
    requires o.payment.Erc20? ==> tokens == Bal(t, o.wallet, AssetOf(o.payment.token))
    requires |replies| > k + 2 && Closes(run, replies[k + 2], done)
    requires done == Finished(t, o, q, native, tokens, native - NativeHold(o, q), tokens - o.amount,
                              replies[k].chainPending, replies[k + 2].accepted)
    ensures Sends(t, o, q, replies, k, if run.0.Commit? then run.1 else t)
  {
    FinishedIsSend(t, o, q, native, tokens, replies[k].chainPending, replies[k + 2].accepted, done);
  }

  lemma ReserveIsSend(t: Tables, o: Order, q: Quote, native: int, tokens: int, replies: seq<Reply>)
    requires Refuse(t, o, q).None? && native == Bal(t, o.wallet, Native)
    requires o.payment.Erc20? ==> tokens == Bal(t, o.wallet, AssetOf(o.payment.token))
    requires Ends(t, Reserve(o, q, native, tokens), replies)
    ensures Sends(t, o, q, replies, HeldRows(o) + 1, Left(t, Reserve(o, q, native, tokens), replies))
  {
    var _, _, done := HeldNoteRuns(t, o, q, native, tokens, native - NativeHold(o, q), tokens - o.amount, replies);
    var run := RunOn(t, Reserve(o, q, native, tokens), replies);
    ClosedIsSend(t, o, q, native, tokens, run, replies, HeldRows(o) + 1, done);
  }

  lemma GasReadIsSend(t: Tables, o: Order, q: Quote, replies: seq<Reply>)
    requires ChainAllows(o, q) && Ends(t, GasRead(o, q, Bal(t, o.wallet, Native)), replies)
    ensures Sends(t, o, q, replies, if o.payment.Erc20? then 4 else 2,
                  Left(t, GasRead(o, q, Bal(t, o.wallet, Native)), replies))
  {
    var native := Bal(t, o.wallet, Native);
    if NativeHold(o, q) > native || (o.payment.Erc20? && !q.tracked) {
      FinalStays(t, Rollback, replies);
    } else if o.payment.Erc20? {
      assert replies != [];
      var tokens := Bal(t, o.wallet, AssetOf(o.payment.token));
      if o.amount > tokens {
        FinalStays(t, Rollback, replies[1..]);
      } else {
        assert RunOn(t, GasRead(o, q, native), replies) == RunOn(t, Reserve(o, q, native, tokens), replies[1..]);
        ReserveIsSend(t, o, q, native, tokens, replies[1..]);
      }
    } else {
      ReserveIsSend(t, o, q, native, 0, replies);
    }
  }

  // ---------------------------------------------------------------- settlement

  lemma AddToRuns(t: Tables, w: WalletId, a: Asset, amount: int, next: Body, replies: seq<Reply>)
    requires Ends(t, AddTo(w, a, amount, next), replies)
    ensures |replies| >= 2
    ensures RunOn(t, AddTo(w, a, amount, next), replies)
        == RunOn(SetBal(t, w, a, Bal(t, w, a) + amount), next, replies[2..])
  {
    var write := WriteBalance(w, a, Bal(t, w, a) + amount, next);
    assert replies != [];
    assert RunOn(t, AddTo(w, a, amount, next), replies) == RunOn(t, write, replies[1..]);
    assert replies[1..] != [] && replies[1..][1..] == replies[2..];
  }

  lemma MoveDeltaRuns(t: Tables, w: WalletId, a: Asset, delta: int, next: Body, replies: seq<Reply>)
    requires Ends(t, MoveDelta(w, a, delta, next), replies)
    ensures |replies| >= 2
    ensures RunOn(t, MoveDelta(w, a, delta, next), replies)
        == RunOn(SetBal(t, w, a, Max(0, Bal(t, w, a) + delta)), next, replies[2..])
  {
    var write := WriteBalance(w, a, Max(0, Bal(t, w, a) + delta), next);
    assert replies != [];
    assert RunOn(t, MoveDelta(w, a, delta, next), replies) == RunOn(t, write, replies[1..]);
    assert replies[1..] != [] && replies[1..][1..] == replies[2..];
  }

  lemma {:induction false} DeltasRun(t: Tables, w: WalletId, deltas: seq<Delta>, next: Body, replies: seq<Reply>)
      returns (rest: seq<Reply>)
    requires Ends(t, MoveDeltas(w, deltas, next), replies)
    ensures Ends(ApplyDeltas(t, w, deltas), next, rest)
    ensures RunOn(t, MoveDeltas(w, deltas, next), replies) == RunOn(ApplyDeltas(t, w, deltas), next, rest)
    decreases |deltas|
  {
    if deltas == [] {
      rest := replies;
    } else {
      var a, d := Token(deltas[0].token), deltas[0].amount;
      if d == 0 {
        rest := DeltasRun(t, w, deltas[1..], next, replies);
      } else {
        MoveDeltaRuns(t, w, a, d, MoveDeltas(w, deltas[1..], next), replies);
        rest := DeltasRun(SetBal(t, w, a, Max(0, Bal(t, w, a) + d)), w, deltas[1..], next, replies[2..]);
      }
    }
  }

  /** A finished settlement body is one Settle step. */
  lemma SettleBodyIsSettle(t: Tables, id: nat, seen: Record, rc: Receipt, replies: seq<Reply>)
    requires id < |t.log| && Ends(t, SettleBody(id, seen, rc), replies)
    ensures Left(t, SettleBody(id, seen, rc), replies) == Settle(t, id, seen, rc)
  {
    assert replies != [];
    var r1, row, native := replies[1..], t.log[id], Bal(t, seen.wallet, Native);
    assert RunOn(t, SettleBody(id, seen, rc), replies) == RunOn(t, Checked(id, t.log, seen, rc), r1);
    if !row.status.Broadcasting? {
      FinalStays(t, Commit, r1);
    } else {
      assert r1 != [];
      var r2 := r1[1..];
      assert RunOn(t, Checked(id, t.log, seen, rc), r1) == RunOn(t, Refunded(id, row, seen, rc, native), r2);
      assert r2 != [];
      var t1 := SetBal(t, seen.wallet, Native, SafeSubtract(native + row.locked, Cost(seen, rc)));
      SettleTail(t, id, seen, rc, t1, r2[1..]);
    }
  }

  lemma SettleTail(t: Tables, id: nat, seen: Record, rc: Receipt, t1: Tables, replies: seq<Reply>)
    requires id < |t.log| && t.log[id].status.Broadcasting?
    requires t1 == SetBal(t, seen.wallet, Native,
        SafeSubtract(Bal(t, seen.wallet, Native) + t.log[id].locked, Cost(seen, rc)))
    requires Ends(t1, TokensBack(seen, rc, SettleRest(id, t.log[id], seen, rc)), replies)
    ensures RunOn(t1, TokensBack(seen, rc, SettleRest(id, t.log[id], seen, rc)), replies)
        == (Commit, Settle(t, id, seen, rc))
  {
    var row := t.log[id];
    var tail := SettleRest(id, row, seen, rc);
    if seen.token.Some? && !rc.success {
      var a := AssetOf(seen.token.value);
      AddToRuns(t1, seen.wallet, a, seen.amount, tail, replies);
      var t2 := SetBal(t1, seen.wallet, a, Bal(t1, seen.wallet, a) + seen.amount);
      LastRuns(t2, id, row.(status := Failed), replies[2..]);
    } else if rc.success && seen.kind.Contract? {
      var last := Update(id, row.(status := Confirmed), Commit);
      assert tail == MoveDeltas(seen.wallet, rc.deltas, last);
      var rest := DeltasRun(t1, seen.wallet, rc.deltas, last, replies);
      var t3 := ApplyDeltas(t1, seen.wallet, rc.deltas);
      LastRuns(t3, id, row.(status := Confirmed), rest);
    } else {
      LastRuns(t1, id, row.(status := Outcome(rc.success)), replies);
    }
  }

  lemma LastRuns(t: Tables, id: nat, row: Record, replies: seq<Reply>)
    requires id < |t.log| && Ends(t, Update(id, row, Commit), replies)
    ensures RunOn(t, Update(id, row, Commit), replies) == (Commit, t.(log := t.log[id := row]))
  {
    FinalStays(t.(log := t.log[id := row]), Commit, replies[1..]);
  }

  // ---------------------------------------------------------------- transfers and credits

  /** A finished transfer body is one Transfer step. */
  lemma TransferBodyIsTransfer(t: Tables, source: WalletId, target: WalletId, a: Asset, amount: int,
                               replies: seq<Reply>)
    requires Ends(t, TransferBody(source, target, a, amount), replies)
    ensures Left(t, TransferBody(source, target, a, amount), replies) == Transfer(t, source, target, a, amount)
  {
    assert replies != [];
    var b, r1 := Bal(t, source, a), replies[1..];
    assert RunOn(t, TransferBody(source, target, a, amount), replies)
        == RunOn(t, Debit(source, target, a, amount, b), r1);
    if b < amount {
      FinalStays(t, Rollback, r1);
    } else {
      var out, into := TransferRow(source, Withdrawal, a, amount), TransferRow(target, Deposit, a, amount);
      var t1 := t.(log := t.log + [out]);
      var t2 := t1.(log := t1.log + [into]);
      assert r1 != [];
      var r2 := r1[1..];
      assert RunOn(t, Debit(source, target, a, amount, b), r1)
          == RunOn(t1, DebitAndCredit(source, target, a, amount, b), r2);
      assert r2 != [];
      var r3 := r2[1..];
      assert RunOn(t1, DebitAndCredit(source, target, a, amount, b), r2)
          == RunOn(t2, MoveAmount(source, target, a, amount, b), r3);
      assert r3 != [];
      var t3 := SetBal(t2, source, a, b - amount);
      AddToRuns(t3, target, a, amount, Commit, r3[1..]);
      FinalStays(SetBal(t3, target, a, Bal(t3, target, a) + amount), Commit, r3[1..][2..]);
      assert t2.log == t.log + [out, into];
    }
  }

  lemma {:induction false} CreditTokensFirst(t: Tables, w: WalletId, credits: seq<TokenCredit>)
    requires credits != []
    ensures var a := AssetOf(credits[0].token);
            CreditTokens(t, w, credits)
            == CreditTokens(SetBal(t, w, a, Bal(t, w, a) + credits[0].amount), w, credits[1..])
    decreases |credits|
  {
    var init := credits[..|credits| - 1];
    if init != [] {
      CreditTokensFirst(t, w, init);
      assert credits[1..][..|credits| - 2] == init[1..];
    }
  }

  lemma {:induction false} AddTokensRuns(t: Tables, w: WalletId, credits: seq<TokenCredit>, replies: seq<Reply>)
    requires Ends(t, AddTokens(w, credits), replies)
    ensures RunOn(t, AddTokens(w, credits), replies) == (Commit, CreditTokens(t, w, credits))
    decreases |credits|
  {
    if credits == [] {
      FinalStays(t, Commit, replies);
    } else {
      var a := AssetOf(credits[0].token);
      AddToRuns(t, w, a, credits[0].amount, AddTokens(w, credits[1..]), replies);
      AddTokensRuns(SetBal(t, w, a, Bal(t, w, a) + credits[0].amount), w, credits[1..], replies[2..]);
      CreditTokensFirst(t, w, credits);
    }
  }

  /** A finished credit body is one Credit step. */
  lemma CreditBodyIsCredit(t: Tables, w: WalletId, native: nat, credits: seq<TokenCredit>, replies: seq<Reply>)
    requires Ends(t, CreditBody(w, native, credits), replies)
    ensures Left(t, CreditBody(w, native, credits), replies) == Credit(t, w, native, credits)
  {
    if native > 0 {
      AddToRuns(t, w, Native, native, AddTokens(w, credits), replies);
      AddTokensRuns(SetBal(t, w, Native, Bal(t, w, Native) + native), w, credits, replies[2..]);
    } else {
      AddTokensRuns(t, w, credits, replies);
    }
  }

  // ---------------------------------------------------------------- every interleaving is a run of ledger steps

  /** A call the service makes into its ledger. */
  datatype Job =
    | SendJob(o: Order)
    | SettleJob(id: nat, seen: Record, rc: Receipt)
    | TransferJob(source: WalletId, target: WalletId, asset: Asset, amount: int)
    | CreditJob(wallet: WalletId, native: nat, credits: seq<TokenCredit>)

  function BodyOf(job: Job): Body {
    match job
    case SendJob(o) => SendBody(o)
    case SettleJob(id, seen, rc) => SettleBody(id, seen, rc)
    case TransferJob(source, target, a, amount) => TransferBody(source, target, a, amount)
    case CreditJob(w, native, credits) => CreditBody(w, native, credits)
  }

  /** The job only names wallets of the group whose lock it takes. */
  ghost predicate JobOf(job: Job, groupOf: WalletId -> Group, g: Group) {
    match job
    case SendJob(o) => groupOf(o.wallet) == g
    case SettleJob(id, seen, rc) => groupOf(seen.wallet) == g
    case TransferJob(source, target, a, amount) => groupOf(source) == g && groupOf(target) == g
    case CreditJob(w, native, credits) => groupOf(w) == g
  }

  /** One atomic ledger step for a job. */
  ghost predicate LedgerStep(t: Tables, job: Job, replies: seq<Reply>, t': Tables) {
    match job
    case SendJob(o) => SendStep(t, o, replies, t')
    case SettleJob(id, seen, rc) => t' == if id < |t.log| then Settle(t, id, seen, rc) else t
    case TransferJob(source, target, a, amount) => t' == Transfer(t, source, target, a, amount)
    case CreditJob(w, native, credits) => t' == Credit(t, w, native, credits)
  }

  lemma JobAlone(t: Tables, job: Job, replies: seq<Reply>)
    requires Ends(t, BodyOf(job), replies)
    ensures LedgerStep(t, job, replies, Left(t, BodyOf(job), replies))
  {
    match job
    case SendJob(o) => SendBodyIsSend(t, o, replies);
    case SettleJob(id, seen, rc) =>
      if id < |t.log| {
        SettleBodyIsSettle(t, id, seen, rc, replies);
      } else {
        assert replies != [];
        FinalStays(t, Commit, replies[1..]);
      }
    case TransferJob(source, target, a, amount) => TransferBodyIsTransfer(t, source, target, a, amount, replies);
    case CreditJob(w, native, credits) => CreditBodyIsCredit(t, w, native, credits, replies);
  }

  lemma AddToConfined(w: WalletId, a: Asset, amount: int, next: Body, groupOf: WalletId -> Group, g: Group)
    requires groupOf(w) == g && Confined(next, groupOf, g)
    ensures Confined(AddTo(w, a, amount, next), groupOf, g)
  {
    forall v: int ensures Confined(WriteBalance(w, a, v, next), groupOf, g) {}
  }

  lemma HeldConfined(o: Order, native: int, tokens: int, next: Body, groupOf: WalletId -> Group, g: Group)
    requires groupOf(o.wallet) == g && Confined(next, groupOf, g)
    ensures Confined(WriteHeld(o, native, tokens, next), groupOf, g)
  {
    if o.payment.Erc20? {
      assert Confined(WriteBalance(o.wallet, AssetOf(o.payment.token), tokens, next), groupOf, g);
    }
  }

  lemma BroadcastConfined(o: Order, q: Quote, native: int, tokens: int, id: nat, groupOf: WalletId -> Group, g: Group)
    requires groupOf(o.wallet) == g
    ensures Confined(Broadcast(o, q, native, tokens, id), groupOf, g)
  {
    forall chainPending: nat ensures Confined(Allocate(o, q, native, tokens, id, chainPending), groupOf, g) {
      forall nonce: nat ensures Confined(Submit(o, q, native, tokens, id, nonce), groupOf, g) {
        forall answer: Reply ensures Confined(Announce(o, q, native, tokens, id, nonce, answer), groupOf, g) {
          assert Confined(Commit, groupOf, g) && Confined(Rollback, groupOf, g);
          if answer.accepted {
            assert Confined(Update(id, SentRow(o, q, nonce), Commit), groupOf, g);
          } else {
            HeldConfined(o, native, tokens, Update(id, FailedRow(o, q), Commit), groupOf, g);
          }
        }
      }
    }
  }

  lemma ReserveConfined(o: Order, q: Quote, native: int, tokens: int, groupOf: WalletId -> Group, g: Group)
    requires groupOf(o.wallet) == g
    ensures Confined(Reserve(o, q, native, tokens), groupOf, g)
  {
    forall id: nat { BroadcastConfined(o, q, native, tokens, id, groupOf, g); }
    HeldConfined(o, native - NativeHold(o, q), tokens - o.amount, Note(o, q, native, tokens), groupOf, g);
  }

  lemma SendConfined(o: Order, groupOf: WalletId -> Group, g: Group)
    requires groupOf(o.wallet) == g
    ensures Confined(SendBody(o), groupOf, g)
  {
    forall q: Quote ensures Confined(Quoted(o, q), groupOf, g) {
      assert Confined(Rollback, groupOf, g);
      forall native: int ensures Confined(GasRead(o, q, native), groupOf, g) {
        forall tokens: int { ReserveConfined(o, q, native, tokens, groupOf, g); }
      }
    }
  }

  lemma {:induction false} DeltasConfined(w: WalletId, deltas: seq<Delta>, next: Body, groupOf: WalletId -> Group,
                                          g: Group)
    requires groupOf(w) == g && Confined(next, groupOf, g)
    ensures Confined(MoveDeltas(w, deltas, next), groupOf, g)
    decreases |deltas|
  {
    if deltas != [] {
      var later := MoveDeltas(w, deltas[1..], next);
      DeltasConfined(w, deltas[1..], next, groupOf, g);
      forall v: int ensures Confined(WriteBalance(w, Token(deltas[0].token), v, later), groupOf, g) {}
    }
  }

  lemma SettleConfined(id: nat, seen: Record, rc: Receipt, groupOf: WalletId -> Group, g: Group)
    requires groupOf(seen.wallet) == g
    ensures Confined(SettleBody(id, seen, rc), groupOf, g)
  {
    forall log: seq<Record> ensures Confined(Checked(id, log, seen, rc), groupOf, g) {
      assert Confined(Commit, groupOf, g);
      if id < |log| {
        var last := Update(id, log[id].(status := Outcome(rc.success)), Commit);
        assert Confined(last, groupOf, g);
        DeltasConfined(seen.wallet, rc.deltas, last, groupOf, g);
        var tail := SettleRest(id, log[id], seen, rc);
        if seen.token.Some? { AddToConfined(seen.wallet, AssetOf(seen.token.value), seen.amount, tail, groupOf, g); }
        forall native: int ensures Confined(Refunded(id, log[id], seen, rc, native), groupOf, g) {}
      }
    }
  }

  lemma TransferConfined(source: WalletId, target: WalletId, a: Asset, amount: int, groupOf: WalletId -> Group,
                         g: Group)
    requires groupOf(source) == g && groupOf(target) == g
    ensures Confined(TransferBody(source, target, a, amount), groupOf, g)
  {
    forall b: int ensures Confined(Debit(source, target, a, amount, b), groupOf, g) {
      assert Confined(Rollback, groupOf, g) && Confined(Commit, groupOf, g);
      AddToConfined(target, a, amount, Commit, groupOf, g);
      assert Confined(MoveAmount(source, target, a, amount, b), groupOf, g);
      assert Confined(DebitAndCredit(source, target, a, amount, b), groupOf, g);
    }
  }

  lemma {:induction false} AddTokensConfined(w: WalletId, credits: seq<TokenCredit>, groupOf: WalletId -> Group,
                                             g: Group)
    requires groupOf(w) == g
    ensures Confined(AddTokens(w, credits), groupOf, g)
    decreases |credits|
  {
    if credits != [] {
      AddTokensConfined(w, credits[1..], groupOf, g);
      AddToConfined(w, AssetOf(credits[0].token), credits[0].amount, AddTokens(w, credits[1..]), groupOf, g);
    }
  }

  /** Every body only names rows of the wallets whose group it locked. */
  lemma JobConfined(job: Job, groupOf: WalletId -> Group, g: Group)
    requires JobOf(job, groupOf, g)
    ensures Confined(BodyOf(job), groupOf, g)
  {
    match job
    case SendJob(o) => SendConfined(o, groupOf, g);
    case SettleJob(id, seen, rc) => SettleConfined(id, seen, rc, groupOf, g);
    case TransferJob(source, target, a, amount) => TransferConfined(source, target, a, amount, groupOf, g);
    case CreditJob(w, native, credits) =>
      AddTokensConfined(w, credits, groupOf, g);
      AddToConfined(w, Native, native, AddTokens(w, credits), groupOf, g);
  }

  ghost predicate Serves(b: Body, groupOf: WalletId -> Group, g: Group) {
    exists job :: b == BodyOf(job) && JobOf(job, groupOf, g)
  }

  ghost predicate ServiceMoves(moves: seq<Move>, groupOf: WalletId -> Group) {
    forall m :: m in moves && m.Begin? ==> Serves(m.body, groupOf, m.group)
  }

  ghost predicate OnlyService(c: Config) {
    && (forall p :: p in c.running ==> Serves(c.running[p].body, c.groupOf, c.running[p].group))
    && (forall e :: e in c.finished ==> Serves(e.body, c.groupOf, e.group))
  }

  lemma {:induction false} OnlyServiceKept(c: Config, moves: seq<Move>, c': Config)
    requires OnlyService(c) && Interleaved(c, moves, c') && ServiceMoves(moves, c.groupOf)
    ensures OnlyService(c') && c'.groupOf == c.groupOf
    decreases |moves|
  {
    if moves != [] {
      var next := After(c, moves[0]);
      assert moves[0] in moves;
      assert OnlyService(next);
      OnlyServiceKept(next, moves[1..], c');
    }
  }

  /** One finished body: a ledger step on its own group's tables, nothing on any other group's. */
  ghost predicate EntryStep(before: Database, e: Entry, after: Database, groupOf: WalletId -> Group) {
    && (exists job ::
          JobOf(job, groupOf, e.group)
          && LedgerStep(Slice(before, e.group), job, e.replies, Slice(after, e.group)))
    && (forall h: Group :: h != e.group ==> SameRows(Slice(before, h), Slice(after, h), groupOf, h))
  }

  /** A job run alone on its own group's rows, whether it commits or rolls back. */
  lemma JobIsStep(before: Database, e: Entry, job: Job)
    requires e.body == BodyOf(job) && Final(Alone(Slice(before, e.group), NOTHING, e.body, e.replies).0)
    ensures LedgerStep(Slice(before, e.group), job, e.replies, Slice(AfterEntry(before, e), e.group))
  {
    var t := Slice(before, e.group);
    var (b, over) := Alone(t, NOTHING, e.body, e.replies);
    assert View(t, NOTHING) == t by { assert t.balances + map[] == t.balances; }
    AloneIsRunOn(t, NOTHING, e.body, e.replies);
    JobAlone(t, job, e.replies);
    if b.Commit? {
      assert Slice(Merge(before, e.group, over), e.group) == View(t, over);
    }
  }

  lemma OthersUntouched(before: Database, e: Entry, groupOf: WalletId -> Group)
    requires Confined(e.body, groupOf, e.group)
    ensures forall h: Group :: h != e.group ==> SameRows(Slice(before, h), Slice(AfterEntry(before, e), h), groupOf, h)
  {
    var t := Slice(before, e.group);
    AloneFramed(t, t, NOTHING, e.body, e.replies, groupOf, e.group);
  }

  lemma EntryIsStep(before: Database, e: Entry, groupOf: WalletId -> Group)
    requires Serves(e.body, groupOf, e.group)
    requires Final(Alone(Slice(before, e.group), NOTHING, e.body, e.replies).0)
    ensures EntryStep(before, e, AfterEntry(before, e), groupOf)
  {
    var job :| e.body == BodyOf(job) && JobOf(job, groupOf, e.group);
    JobIsStep(before, e, job);
    JobConfined(job, groupOf, e.group);
    OthersUntouched(before, e, groupOf);
  }

  lemma NthIsStep(db0: Database, entries: seq<Entry>, k: nat, groupOf: WalletId -> Group)
    requires k < |entries| && AllEnd(db0, entries) && Serves(entries[k].body, groupOf, entries[k].group)
    ensures EntryStep(Serial(db0, entries[..k]), entries[k], Serial(db0, entries[..k + 1]), groupOf)
  {
    assert entries[..k + 1][..k] == entries[..k] && entries[..k + 1][k] == entries[k];
    EntryIsStep(Serial(db0, entries[..k]), entries[k], groupOf);
  }

  /** Any interleaving of the service's bodies, over any number of groups and processes, leaves the
      database that a sequence of atomic ledger steps leaves, one per finished body, in the order
      the bodies released their locks. */
  lemma InterleavingsAreLedgerSteps(c0: Config, moves: seq<Move>, c: Config)
    requires c0.running == map[] && c0.finished == [] && Interleaved(c0, moves, c) && ServiceMoves(moves, c0.groupOf)
    ensures c.db == Serial(c0.db, c.finished)
    ensures forall k :: 0 <= k < |c.finished| ==>
              EntryStep(Serial(c0.db, c.finished[..k]), c.finished[k], Serial(c0.db, c.finished[..k + 1]), c0.groupOf)
  {
    LockReduction(c0, moves, c);
    OnlyServiceKept(c0, moves, c);
    forall k | 0 <= k < |c.finished|
      ensures EntryStep(Serial(c0.db, c.finished[..k]), c.finished[k], Serial(c0.db, c.finished[..k + 1]), c0.groupOf)
    {
      assert c.finished[k] in c.finished;
      NthIsStep(c0.db, c.finished, k, c0.groupOf);
    }
  }
}
