/**
 The deposit scanner: one window of blocks folded into recorded rows and deferred credits. A scan
 is described by what it makes of the transactions of its window, one after another; the loops that
 batch, fetch and cache blocks are proved to compute exactly that.
 */
module Deposits {
  import opened Prelude
  import opened Ledger

  const WINDOW_PER_RUN: nat := 150
  const WINDOW_PER_MANUAL_SYNC: nat := 500
  const MANUAL_SYNC_STEPS: nat := 20
  const BATCH: nat := 20
  const FETCH_ATTEMPTS: nat := 3

  /** The decoded call data of an ERC20 transfer; a zero amount decodes to none. */
  datatype TokenCall = TokenCall(to: nat, amount: nat)

  datatype ChainTx = ChainTx(hash: Option<TxHash>, to: Option<Address>, value: int, call: Option<TokenCall>)

  /** A row of the transaction table that carries a hash. */
  datatype Row = Row(wallet: WalletId, hash: TxHash, token: Option<Address>, amount: int)

  /** What a scan has done so far: rows in the table, deposits found, ether and tokens to credit. */
  datatype Found = Found(rows: seq<Row>, deposits: nat, native: nat, tokens: seq<TokenCredit>)

  /** The table's unique key, over all rows: wallet, hash and asset type. */
  predicate Taken(rows: seq<Row>, w: WalletId, hash: TxHash, erc20: bool) {
    exists i :: 0 <= i < |rows| && rows[i].wallet == w && rows[i].hash == hash && rows[i].token.Some? == erc20
  }

  /** The scanner's own lookup for a token row: the stored address must be spelt as in the block. */
  predicate Seen(rows: seq<Row>, w: WalletId, hash: TxHash, token: Address) {
    exists i :: 0 <= i < |rows| && rows[i].wallet == w && rows[i].hash == hash && rows[i].token == Some(token)
  }

  predicate PaysEther(tx: ChainTx, self: nat) {
    tx.to.Some? && tx.to.value.account == self && tx.value > 0
  }

  predicate PaysToken(tx: ChainTx, self: nat) {
    tx.to.Some? && tx.call.Some? && tx.call.value.amount > 0 && tx.call.value.to == self
  }

  function AfterEther(f: Found, w: WalletId, self: nat, tx: ChainTx): Found {
    if tx.hash.None? || !PaysEther(tx, self) || Taken(f.rows, w, tx.hash.value, false) then f
    else Found(f.rows + [Row(w, tx.hash.value, None, tx.value)], f.deposits + 1, f.native + tx.value, f.tokens)
  }

  /** Inserting a row whose key is taken throws. */
  function AfterTx(f: Found, w: WalletId, self: nat, tx: ChainTx): Option<Found> {
    if tx.hash.None? then Some(f)
    else
      var g := AfterEther(f, w, self, tx);
      if !PaysToken(tx, self) || Seen(g.rows, w, tx.hash.value, tx.to.value) then Some(g)
      else if Taken(g.rows, w, tx.hash.value, true) then None
      else
        var amount := tx.call.value.amount;
        Some(Found(g.rows + [Row(w, tx.hash.value, tx.to, amount)], g.deposits + 1, g.native,
                   g.tokens + [TokenCredit(tx.to.value, amount)]))
  }

  function AfterAll(f: Found, w: WalletId, self: nat, txs: seq<ChainTx>): Option<Found>
    decreases |txs|
  {
    if txs == [] then Some(f)
    else
      match AfterTx(f, w, self, txs[0])
      case None => None
      case Some(g) => AfterAll(g, w, self, txs[1..])
  }

  function Fresh(rows: seq<Row>): Found {
    Found(rows, 0, 0, [])
  }

  /** The transactions of blocks from (inclusive) to upto (exclusive), in order. */
  function Txs(chain: nat -> seq<ChainTx>, from: nat, upto: nat): seq<ChainTx>
    decreases upto
  {
    if upto <= from then [] else Txs(chain, from, upto - 1) + chain(upto - 1)
  }

  /** How many transactions the blocks from (inclusive) to n (exclusive) hold. */
  ghost function Before(chain: nat -> seq<ChainTx>, from: nat, n: nat): nat
    decreases n
  {
    if n <= from then 0 else Before(chain, from, n - 1) + |chain(n - 1)|
  }

  lemma {:induction false} BlockAt(chain: nat -> seq<ChainTx>, from: nat, upto: nat, n: nat, i: nat)
    requires from <= n < upto && i < |chain(n)|
    ensures |Txs(chain, from, upto)| == Before(chain, from, upto)
    ensures Before(chain, from, n) + i < |Txs(chain, from, upto)|
    ensures Txs(chain, from, upto)[Before(chain, from, n) + i] == chain(n)[i]
    decreases upto
  {
    TxsCount(chain, from, upto);
    TxsCount(chain, from, upto - 1);
    if n < upto - 1 { BlockAt(chain, from, upto - 1, n, i); }
  }

  lemma {:induction false} TxsCount(chain: nat -> seq<ChainTx>, from: nat, upto: nat)
    ensures |Txs(chain, from, upto)| == Before(chain, from, upto)
    decreases upto
  {
    if from < upto { TxsCount(chain, from, upto - 1); }
  }

  /** Transaction i of block n is there, after those of the blocks before it. */
  ghost predicate InPlace(chain: nat -> seq<ChainTx>, from: nat, upto: nat, n: nat, i: nat) {
    var txs, k := Txs(chain, from, upto), Before(chain, from, n) + i;
    i < |chain(n)| && k < |txs| && txs[k] == chain(n)[i]
  }

  /** Every transaction of every block of the window is there, once, in block order, and nothing else. */
  lemma BlocksInOrder(chain: nat -> seq<ChainTx>, from: nat, upto: nat)
    ensures |Txs(chain, from, upto)| == Before(chain, from, upto)
    ensures forall n: nat, i: nat :: from <= n < upto && i < |chain(n)| ==> InPlace(chain, from, upto, n, i)
  {
    TxsCount(chain, from, upto);
    forall n: nat, i: nat | from <= n < upto && i < |chain(n)| ensures InPlace(chain, from, upto, n, i) {
      BlockAt(chain, from, upto, n, i);
    }
  }

  /** A sum over block numbers of sums over each block's transactions. */
  ghost function BlockSum(chain: nat -> seq<ChainTx>, from: nat, upto: nat, f: ChainTx -> int): int
    decreases upto
  {
    if upto <= from then 0 else BlockSum(chain, from, upto - 1, f) + Sum(chain(upto - 1), f)
  }

  lemma {:induction false} SumOverBlocks(chain: nat -> seq<ChainTx>, from: nat, upto: nat, f: ChainTx -> int)
    ensures Sum(Txs(chain, from, upto), f) == BlockSum(chain, from, upto, f)
    decreases upto
  {
    if from < upto {
      SumOverBlocks(chain, from, upto - 1, f);
      SumConcat(Txs(chain, from, upto - 1), chain(upto - 1), f);
    }
  }

  // ---------------------------------------------------------------- folding

  lemma {:induction false} AfterConcat(f: Found, w: WalletId, self: nat, a: seq<ChainTx>, b: seq<ChainTx>)
    ensures AfterAll(f, w, self, a + b) ==
            match AfterAll(f, w, self, a)
            case None => None
            case Some(g) => AfterAll(g, w, self, b)
    decreases |a|
  {
    if a == [] {
      assert a + b == b;
    } else {
      assert (a + b)[1..] == a[1..] + b;
      match AfterTx(f, w, self, a[0])
      case None =>
      case Some(g) => AfterConcat(g, w, self, a[1..], b);
    }
  }

  lemma {:induction false} TxsSplit(chain: nat -> seq<ChainTx>, from: nat, mid: nat, upto: nat)
    requires from <= mid <= upto
    ensures Txs(chain, from, upto) == Txs(chain, from, mid) + Txs(chain, mid, upto)
    decreases upto
  {
    if mid < upto {
      TxsSplit(chain, from, mid, upto - 1);
      assert Txs(chain, from, mid) + (Txs(chain, mid, upto - 1) + chain(upto - 1))
          == (Txs(chain, from, mid) + Txs(chain, mid, upto - 1)) + chain(upto - 1);
    }
  }

  /** What a scan finds does not depend on what was counted before it. */
  lemma {:induction false} AfterOffset(f: Found, w: WalletId, self: nat, txs: seq<ChainTx>)
    ensures AfterAll(f, w, self, txs).Some? <==> AfterAll(Fresh(f.rows), w, self, txs).Some?
    ensures AfterAll(f, w, self, txs).Some? ==>
              var g, h := AfterAll(f, w, self, txs).value, AfterAll(Fresh(f.rows), w, self, txs).value;
              g == Found(h.rows, f.deposits + h.deposits, f.native + h.native, f.tokens + h.tokens)
    decreases |txs|
  {
    if txs == [] {
      assert f.tokens + [] == f.tokens;
    } else {
      var tx, rest := txs[0], txs[1..];
      OneOffset(f, w, self, tx);
      if AfterTx(f, w, self, tx).Some? {
        var g, h := AfterTx(f, w, self, tx).value, AfterTx(Fresh(f.rows), w, self, tx).value;
        AfterOffset(g, w, self, rest);
        AfterOffset(h, w, self, rest);
        if AfterAll(g, w, self, rest).Some? {
          var k := AfterAll(Fresh(g.rows), w, self, rest).value;
          assert (f.tokens + h.tokens) + k.tokens == f.tokens + (h.tokens + k.tokens);
        }
      }
    }
  }

  lemma OneOffset(f: Found, w: WalletId, self: nat, tx: ChainTx)
    ensures AfterTx(f, w, self, tx).Some? <==> AfterTx(Fresh(f.rows), w, self, tx).Some?
    ensures AfterTx(f, w, self, tx).Some? ==>
              var g, h := AfterTx(f, w, self, tx).value, AfterTx(Fresh(f.rows), w, self, tx).value;
              g == Found(h.rows, f.deposits + h.deposits, f.native + h.native, f.tokens + h.tokens)
  {
    assert f.tokens + [] == f.tokens;
  }

  /** Scanning two adjacent windows one after the other, each starting its counts afresh, finds
      together what one scan of both finds. */
  lemma AdjacentScansCompose(rows: seq<Row>, w: WalletId, self: nat, chain: nat -> seq<ChainTx>, from: nat, mid: nat,
                             upto: nat)
    requires from <= mid <= upto && AfterAll(Fresh(rows), w, self, Txs(chain, from, mid)).Some?
    ensures var first := AfterAll(Fresh(rows), w, self, Txs(chain, from, mid)).value;
            var second, both := AfterAll(Fresh(first.rows), w, self, Txs(chain, mid, upto)),
                AfterAll(Fresh(rows), w, self, Txs(chain, from, upto));
            && (second.Some? <==> both.Some?)
            && (both.Some? ==> both.value == Found(second.value.rows, first.deposits + second.value.deposits,
                                                   first.native + second.value.native,
                                                   first.tokens + second.value.tokens))
  {
    var first := AfterAll(Fresh(rows), w, self, Txs(chain, from, mid)).value;
    TxsSplit(chain, from, mid, upto);
    AfterConcat(Fresh(rows), w, self, Txs(chain, from, mid), Txs(chain, mid, upto));
    AfterOffset(first, w, self, Txs(chain, mid, upto));
  }

  /** Rows only grow. */
  lemma {:induction false} AfterGrows(f: Found, w: WalletId, self: nat, txs: seq<ChainTx>)
    ensures AfterAll(f, w, self, txs).Some? ==>
              var g := AfterAll(f, w, self, txs).value;
              f.rows <= g.rows && f.deposits <= g.deposits && f.native <= g.native && f.tokens <= g.tokens
    decreases |txs|
  {
    if txs != [] {
      match AfterTx(f, w, self, txs[0])
      case None =>
      case Some(g) => AfterGrows(g, w, self, txs[1..]);
    }
  }

  // ---------------------------------------------------------------- what a completed scan credited

  ghost predicate DistinctHashes(txs: seq<ChainTx>) {
    forall i, j :: 0 <= i < j < |txs| && txs[i].hash.Some? && txs[j].hash.Some? ==> txs[i].hash != txs[j].hash
  }

  /** A row of the wallet under this hash, for ether or for a token. */
  ghost predicate Recorded(rows: seq<Row>, w: WalletId, hash: TxHash, token: bool) {
    exists i :: 0 <= i < |rows| && rows[i].wallet == w && rows[i].hash == hash && (token <==> rows[i].token.Some?)
  }

  lemma RecordedIsTaken(rows: seq<Row>, w: WalletId, hash: TxHash, token: bool)
    ensures Recorded(rows, w, hash, token) <==> Taken(rows, w, hash, token)
  {
  }

  /** The ether a transaction owes the wallet: its value, if it is positive, goes to the address, and
      nothing is recorded of it yet. */
  ghost function Due(rows: seq<Row>, w: WalletId, self: nat): ChainTx -> int {
    (tx: ChainTx) =>
      if tx.hash.Some? && tx.to.Some? && tx.to.value.account == self && !Recorded(rows, w, tx.hash.value, false)
      then Max(0, tx.value) else 0
  }

  /** The tokens it owes: the decoded amount, if the decoded recipient is the address, and the contract
      called is that of the asset. */
  ghost function TokenDue(rows: seq<Row>, w: WalletId, self: nat, a: Asset): ChainTx -> int {
    (tx: ChainTx) =>
      if tx.hash.Some? && tx.to.Some? && tx.call.Some? && tx.call.value.to == self
         && a == Token(Address(tx.to.value.account, 0)) && !Recorded(rows, w, tx.hash.value, true)
      then tx.call.value.amount else 0
  }

  ghost function CreditIn(a: Asset): TokenCredit -> int {
    (c: TokenCredit) => if AssetOf(c.token) == a then c.amount else 0
  }

  /** Every row of the grown table was there before, or is one of the transaction's. */
  lemma AfterTxRows(f: Found, w: WalletId, self: nat, tx: ChainTx, x: WalletId, hash: TxHash, erc20: bool)
    requires AfterTx(f, w, self, tx).Some? && tx.hash != Some(hash)
    ensures Taken(AfterTx(f, w, self, tx).value.rows, x, hash, erc20) == Taken(f.rows, x, hash, erc20)
  {
    var g := AfterTx(f, w, self, tx).value.rows;
    assert forall i :: 0 <= i < |f.rows| ==> g[i] == f.rows[i];
    assert forall i :: |f.rows| <= i < |g| ==> g[i].hash != hash;
  }

  /** A completed scan credits exactly once: the ether it adds is the sum of the positive values
      sent to the address in its window under hashes not recorded for the wallet before, and the
      tokens it adds, asset by asset, the decoded amounts under such hashes. */
  lemma {:induction false} CompletedScanCreditsWhatIsDue(f: Found, w: WalletId, self: nat, txs: seq<ChainTx>, a: Asset)
    requires DistinctHashes(txs) && AfterAll(f, w, self, txs).Some?
    ensures var g := AfterAll(f, w, self, txs).value;
            && g.native == f.native + Sum(txs, Due(f.rows, w, self))
            && Sum(g.tokens, CreditIn(a)) == Sum(f.tokens, CreditIn(a)) + Sum(txs, TokenDue(f.rows, w, self, a))
    decreases |txs|
  {
    if txs != [] {
      var tx, rest := txs[0], txs[1..];
      var g := AfterTx(f, w, self, tx).value;
      CompletedScanCreditsWhatIsDue(g, w, self, rest, a);
      SumFirst(txs, Due(f.rows, w, self));
      SumFirst(txs, TokenDue(f.rows, w, self, a));
      forall i | 0 <= i < |rest|
        ensures Due(g.rows, w, self)(rest[i]) == Due(f.rows, w, self)(rest[i])
        ensures TokenDue(g.rows, w, self, a)(rest[i]) == TokenDue(f.rows, w, self, a)(rest[i])
      {
        assert rest[i] == txs[i + 1];
        if rest[i].hash.Some? && tx.hash.Some? {
          AfterTxRows(f, w, self, tx, w, rest[i].hash.value, false);
          AfterTxRows(f, w, self, tx, w, rest[i].hash.value, true);
        }
      }
      SumSame(rest, Due(g.rows, w, self), Due(f.rows, w, self));
      SumSame(rest, TokenDue(g.rows, w, self, a), TokenDue(f.rows, w, self, a));
      OneTxCredits(f, w, self, tx, a);
    }
  }

  lemma OneTxCredits(f: Found, w: WalletId, self: nat, tx: ChainTx, a: Asset)
    requires AfterTx(f, w, self, tx).Some?
    ensures var g := AfterTx(f, w, self, tx).value;
            && g.native == f.native + Due(f.rows, w, self)(tx)
            && Sum(g.tokens, CreditIn(a)) == Sum(f.tokens, CreditIn(a)) + TokenDue(f.rows, w, self, a)(tx)
  {
    if tx.hash.Some? {
      var h := AfterEther(f, w, self, tx);
      var hash := tx.hash.value;
      assert Taken(h.rows, w, hash, true) == Taken(f.rows, w, hash, true) by {
        assert forall i :: 0 <= i < |f.rows| ==> h.rows[i] == f.rows[i];
      }
      if PaysToken(tx, self) {
        SumSnoc(f.tokens, TokenCredit(tx.to.value, tx.call.value.amount), CreditIn(a));
        if Seen(h.rows, w, hash, tx.to.value) {
          assert Taken(h.rows, w, hash, true);
        }
      }
    }
  }

  ghost function AmountIn(a: Asset): Row -> int {
    (r: Row) => if (if r.token.None? then Native else AssetOf(r.token.value)) == a then r.amount else 0
  }

  /** The deposits found are the rows added, and they carry what is credited, asset by asset, for the
      wallet that is scanned for. */
  lemma {:induction false} RowsAreWhatIsCredited(f: Found, w: WalletId, self: nat, txs: seq<ChainTx>, a: Asset)
    requires AfterAll(f, w, self, txs).Some?
    ensures RowsCredit(f, AfterAll(f, w, self, txs).value, w, a)
    decreases |txs|
  {
    if txs != [] {
      OneTxRows(f, w, self, txs[0], a);
      RowsAreWhatIsCredited(AfterTx(f, w, self, txs[0]).value, w, self, txs[1..], a);
    }
  }

  lemma OneTxRows(f: Found, w: WalletId, self: nat, tx: ChainTx, a: Asset)
    requires AfterTx(f, w, self, tx).Some?
    ensures RowsCredit(f, AfterTx(f, w, self, tx).value, w, a)
  {
    EtherRows(f, w, self, tx, a);
    TokenRows(f, w, self, tx, a);
  }

  /** From f to g the deposits counted, the amounts recorded and the amounts to credit agree. */
  ghost predicate RowsCredit(f: Found, g: Found, w: WalletId, a: Asset) {
    && f.rows <= g.rows && g.deposits - f.deposits == |g.rows| - |f.rows|
    && Sum(g.rows, AmountIn(a)) - Sum(f.rows, AmountIn(a)) == Credited(g, a) - Credited(f, a)
    && forall i :: |f.rows| <= i < |g.rows| ==> g.rows[i].wallet == w
  }

  lemma EtherRows(f: Found, w: WalletId, self: nat, tx: ChainTx, a: Asset)
    ensures RowsCredit(f, AfterEther(f, w, self, tx), w, a)
  {
    if AfterEther(f, w, self, tx) != f { SumSnoc(f.rows, Row(w, tx.hash.value, None, tx.value), AmountIn(a)); }
  }

  lemma TokenRows(f: Found, w: WalletId, self: nat, tx: ChainTx, a: Asset)
    requires AfterTx(f, w, self, tx).Some?
    ensures RowsCredit(AfterEther(f, w, self, tx), AfterTx(f, w, self, tx).value, w, a)
  {
    var h, g := AfterEther(f, w, self, tx), AfterTx(f, w, self, tx).value;
    if g != h {
      SumSnoc(h.rows, Row(w, tx.hash.value, tx.to, tx.call.value.amount), AmountIn(a));
      SumSnoc(h.tokens, TokenCredit(tx.to.value, tx.call.value.amount), CreditIn(a));
    }
  }

  // ---------------------------------------------------------------- when a scan completes

  /** A token payment whose key is taken by a row that spells the token differently. */
  ghost predicate Clashes(rows: seq<Row>, w: WalletId, self: nat, tx: ChainTx) {
    && tx.hash.Some? && tx.to.Some? && tx.call.Some? && tx.call.value.amount > 0 && tx.call.value.to == self
    && Recorded(rows, w, tx.hash.value, true)
    && forall i :: 0 <= i < |rows| && rows[i].wallet == w && rows[i].hash == tx.hash.value ==>
         rows[i].token != Some(tx.to.value)
  }

  lemma ClashMeans(rows: seq<Row>, w: WalletId, self: nat, tx: ChainTx)
    ensures Clashes(rows, w, self, tx) <==>
            && tx.hash.Some? && PaysToken(tx, self) && Taken(rows, w, tx.hash.value, true)
            && !Seen(rows, w, tx.hash.value, tx.to.value)
  {
  }

  /** A scan throws exactly when its window holds a token payment already recorded for the wallet,
      by a send or another scan, under another spelling of the token's address. */
  lemma {:induction false} ScanCompletesIff(f: Found, w: WalletId, self: nat, txs: seq<ChainTx>)
    requires DistinctHashes(txs)
    ensures AfterAll(f, w, self, txs).Some? <==> forall i :: 0 <= i < |txs| ==> !Clashes(f.rows, w, self, txs[i])
    decreases |txs|
  {
    if txs != [] {
      var tx, rest := txs[0], txs[1..];
      FirstClash(f, w, self, tx);
      if AfterTx(f, w, self, tx).Some? {
        var g := AfterTx(f, w, self, tx).value;
        ScanCompletesIff(g, w, self, rest);
        forall i | 0 <= i < |rest| ensures Clashes(g.rows, w, self, rest[i]) == Clashes(f.rows, w, self, txs[i + 1]) {
          assert rest[i] == txs[i + 1];
          ClashMeans(g.rows, w, self, rest[i]);
          ClashMeans(f.rows, w, self, rest[i]);
          if tx.hash.Some? && rest[i].hash.Some? { SameLookups(f, w, self, tx, rest[i].hash.value); }
        }
      } else {
        assert Clashes(f.rows, w, self, txs[0]);
      }
    }
  }

  lemma FirstClash(f: Found, w: WalletId, self: nat, tx: ChainTx)
    ensures AfterTx(f, w, self, tx).None? <==> Clashes(f.rows, w, self, tx)
  {
    var h := AfterEther(f, w, self, tx);
    assert forall i :: 0 <= i < |f.rows| ==> h.rows[i] == f.rows[i];
    assert forall i :: |f.rows| <= i < |h.rows| ==> h.rows[i].token.None?;
  }

  lemma SameLookups(f: Found, w: WalletId, self: nat, tx: ChainTx, hash: TxHash)
    requires AfterTx(f, w, self, tx).Some? && tx.hash != Some(hash)
    ensures var g := AfterTx(f, w, self, tx).value;
            && Taken(g.rows, w, hash, true) == Taken(f.rows, w, hash, true)
            && forall token :: Seen(g.rows, w, hash, token) == Seen(f.rows, w, hash, token)
  {
    AfterTxRows(f, w, self, tx, w, hash, true);
    var g := AfterTx(f, w, self, tx).value.rows;
    assert forall i :: 0 <= i < |f.rows| ==> g[i] == f.rows[i];
    assert forall i :: |f.rows| <= i < |g| ==> g[i].hash != hash;
  }

  /** What the unique index keeps of the table. */
  ghost predicate UniqueKeys(rows: seq<Row>) {
    forall i, j :: 0 <= i < j < |rows| && rows[i].wallet == rows[j].wallet && rows[i].hash == rows[j].hash ==>
      rows[i].token.Some? != rows[j].token.Some?
  }

  lemma InsertKeepsKeys(rows: seq<Row>, row: Row)
    requires UniqueKeys(rows) && !Taken(rows, row.wallet, row.hash, row.token.Some?)
    ensures UniqueKeys(rows + [row])
  {
    forall i | 0 <= i < |rows| && rows[i].wallet == row.wallet && rows[i].hash == row.hash
      ensures rows[i].token.Some? != row.token.Some?
    {
      assert rows[i].wallet == row.wallet;
    }
  }

  /** A completed scan only adds rows, under keys that were free. */
  lemma {:induction false} ScanKeepsKeys(f: Found, w: WalletId, self: nat, txs: seq<ChainTx>)
    requires AfterAll(f, w, self, txs).Some? && UniqueKeys(f.rows)
    ensures f.rows <= AfterAll(f, w, self, txs).value.rows && UniqueKeys(AfterAll(f, w, self, txs).value.rows)
    decreases |txs|
  {
    AfterGrows(f, w, self, txs);
    if txs != [] {
      var tx, g := txs[0], AfterEther(f, w, self, txs[0]);
      if g != f { InsertKeepsKeys(f.rows, Row(w, tx.hash.value, None, tx.value)); }
      if AfterTx(f, w, self, tx).value != g {
        InsertKeepsKeys(g.rows, Row(w, tx.hash.value, tx.to, tx.call.value.amount));
      }
      ScanKeepsKeys(AfterTx(f, w, self, tx).value, w, self, txs[1..]);
    }
  }

  /** A row of a token payment under the checksum spelling of its token, as a send of wallet w to the
      group's own address leaves it; the block spells the token otherwise. */
  ghost predicate SelfSent(row: Row, w: WalletId, self: nat, tx: ChainTx) {
    && row.wallet == w && tx.hash == Some(row.hash) && PaysToken(tx, self)
    && row.token == Some(Checksum(tx.to.value)) && tx.to.value != Checksum(tx.to.value)
  }

  /** No scan for w of any window with that transaction ever completes, whatever else the window and
      the table hold; rows are never removed, so this survives every failed scan. A scan of the same
      window for another wallet is stopped only by rows of that wallet. */
  lemma TokenSelfSendStopsTheScan(rows: seq<Row>, i: nat, later: seq<Row>, txs: seq<ChainTx>, k: nat, w: WalletId,
                                  self: nat)
    requires i < |rows| && k < |txs| && SelfSent(rows[i], w, self, txs[k]) && DistinctHashes(txs)
    requires rows <= later && UniqueKeys(later)
    ensures AfterAll(Fresh(later), w, self, txs).None?
    ensures forall v :: (forall j :: 0 <= j < |later| ==> later[j].wallet != v) ==>
        AfterAll(Fresh(later), v, self, txs).Some?
  {
    assert later[i] == rows[i];
    assert Clashes(later, w, self, txs[k]);
    ScanCompletesIff(Fresh(later), w, self, txs);
    forall v | forall j :: 0 <= j < |later| ==> later[j].wallet != v
        ensures AfterAll(Fresh(later), v, self, txs).Some? {
      ScanCompletesIff(Fresh(later), v, self, txs);
    }
  }

  // ---------------------------------------------------------------- serial scans

  /** The last block of the window a scan takes. */
  function WindowEnd(last: nat, current: nat, maxBlocks: nat): nat {
    Min(current, last + maxBlocks)
  }

  /** One scan of a series: the rows others inserted since the one before, the head it saw, and the
      most blocks it takes. */
  datatype Visit = Visit(arrived: seq<Row>, head: nat, maxBlocks: nat)

  /** Completed scans of one wallet, one after another, each from where the one before stopped: the
      totals of what they found, and the last block scanned. */
  function SerialScans(rows: seq<Row>, last: nat, visits: seq<Visit>, w: WalletId, self: nat,
                       chain: nat -> seq<ChainTx>): Option<(Found, nat)>
    decreases |visits|
  {
    if visits == [] then Some((Fresh(rows), last))
    else
      var v := visits[0];
      var table := rows + v.arrived;
      if v.head <= last then SerialScans(table, last, visits[1..], w, self, chain)
      else
        var end := WindowEnd(last, v.head, v.maxBlocks);
        match AfterAll(Fresh(table), w, self, Txs(chain, last + 1, end + 1))
        case None => None
        case Some(f) =>
          match SerialScans(f.rows, end, visits[1..], w, self, chain)
          case None => None
          case Some((g, upto)) =>
            Some((Together(f, g), upto))
  }

  /** The table after the second scan, and the totals of both. */
  function Together(f: Found, g: Found): Found {
    Found(g.rows, f.deposits + g.deposits, f.native + g.native, f.tokens + g.tokens)
  }

  /** Serial completed scans with nobody else at the table are one scan of the union of their windows,
      whatever their heads and window sizes: the windows are adjacent, and cover exactly (last, upto]. */
  lemma {:induction false} SerialScansAreOneScan(rows: seq<Row>, last: nat, visits: seq<Visit>, w: WalletId,
                                                 self: nat, chain: nat -> seq<ChainTx>)
    requires SerialScans(rows, last, visits, w, self, chain).Some?
    requires forall k :: 0 <= k < |visits| ==> visits[k].arrived == []
    ensures var (g, upto) := SerialScans(rows, last, visits, w, self, chain).value;
            last <= upto && AfterAll(Fresh(rows), w, self, Txs(chain, last + 1, upto + 1)) == Some(g)
    decreases |visits|
  {
    if visits != [] {
      var v, rest := visits[0], visits[1..];
      assert rows + v.arrived == rows;
      if v.head <= last {
        SerialScansAreOneScan(rows, last, rest, w, self, chain);
      } else {
        var end := WindowEnd(last, v.head, v.maxBlocks);
        var f := AfterAll(Fresh(rows), w, self, Txs(chain, last + 1, end + 1)).value;
        SerialScansAreOneScan(f.rows, end, rest, w, self, chain);
        var (g, upto) := SerialScans(f.rows, end, rest, w, self, chain).value;
        AdjacentScansCompose(rows, w, self, chain, last + 1, end + 1, upto + 1);
      }
    }
  }

  /** What one transaction owes the wallet in an asset, given the rows that were there before its scan. */
  ghost function Owed(rows: seq<Row>, w: WalletId, self: nat, a: Asset): ChainTx -> int {
    if a.Native? then Due(rows, w, self) else TokenDue(rows, w, self, a)
  }

  ghost function Credited(f: Found, a: Asset): int {
    if a.Native? then f.native else Sum(f.tokens, CreditIn(a))
  }

  lemma CreditedTogether(f: Found, g: Found, a: Asset)
    ensures Credited(Together(f, g), a) == Credited(f, a) + Credited(g, a)
  {
    SumConcat(f.tokens, g.tokens, CreditIn(a));
  }

  /** What a series owes: for each of its blocks the positive amounts paid to the address, except under
      hashes that others had recorded for the wallet before the block was scanned. The rows of the
      scans themselves play no part in it. */
  ghost function OwedBySeries(others: seq<Row>, last: nat, visits: seq<Visit>, w: WalletId, self: nat,
                              chain: nat -> seq<ChainTx>, a: Asset): int
    decreases |visits|
  {
    if visits == [] then 0
    else
      var v := visits[0];
      var table, end := others + v.arrived, if v.head <= last then last else WindowEnd(last, v.head, v.maxBlocks);
      BlockSum(chain, last + 1, end + 1, Owed(table, w, self, a))
      + OwedBySeries(table, end, visits[1..], w, self, chain, a)
  }

  /** Two tables that agree on the hashes of these transactions. */
  ghost predicate SameFor(rows: seq<Row>, others: seq<Row>, w: WalletId, txs: seq<ChainTx>) {
    forall i, erc20 :: 0 <= i < |txs| && txs[i].hash.Some? ==>
      Taken(rows, w, txs[i].hash.value, erc20) == Taken(others, w, txs[i].hash.value, erc20)
  }

  lemma TakenInBoth(rows: seq<Row>, more: seq<Row>, w: WalletId, hash: TxHash, erc20: bool)
    ensures Taken(rows + more, w, hash, erc20) <==> Taken(rows, w, hash, erc20) || Taken(more, w, hash, erc20)
  {
    var all := rows + more;
    if Taken(rows, w, hash, erc20) {
      var i :| 0 <= i < |rows| && rows[i].wallet == w && rows[i].hash == hash && rows[i].token.Some? == erc20;
      assert all[i] == rows[i];
    }
    if Taken(more, w, hash, erc20) {
      var i :| 0 <= i < |more| && more[i].wallet == w && more[i].hash == hash && more[i].token.Some? == erc20;
      assert all[|rows| + i] == more[i];
    }
  }

  lemma ArrivalsKeepSame(rows: seq<Row>, others: seq<Row>, arrived: seq<Row>, w: WalletId, txs: seq<ChainTx>)
    requires SameFor(rows, others, w, txs)
    ensures SameFor(rows + arrived, others + arrived, w, txs)
  {
    forall i, erc20 | 0 <= i < |txs| && txs[i].hash.Some?
      ensures Taken(rows + arrived, w, txs[i].hash.value, erc20) == Taken(others + arrived, w, txs[i].hash.value, erc20)
    {
      TakenInBoth(rows, arrived, w, txs[i].hash.value, erc20);
      TakenInBoth(others, arrived, w, txs[i].hash.value, erc20);
    }
  }

  /** A scan takes no key of a hash that is not in its window. */
  lemma {:induction false} AfterAllRows(f: Found, w: WalletId, self: nat, txs: seq<ChainTx>, hash: TxHash, erc20: bool)
    requires AfterAll(f, w, self, txs).Some? && forall i :: 0 <= i < |txs| ==> txs[i].hash != Some(hash)
    ensures Taken(AfterAll(f, w, self, txs).value.rows, w, hash, erc20) == Taken(f.rows, w, hash, erc20)
    decreases |txs|
  {
    if txs != [] {
      assert txs[0].hash != Some(hash);
      AfterTxRows(f, w, self, txs[0], w, hash, erc20);
      AfterAllRows(AfterTx(f, w, self, txs[0]).value, w, self, txs[1..], hash, erc20);
    }
  }

  /** Scanning a window leaves the agreement on the transactions after it. */
  lemma ScanKeepsSame(rows: seq<Row>, others: seq<Row>, w: WalletId, self: nat, window: seq<ChainTx>,
                      later: seq<ChainTx>)
    requires SameFor(rows, others, w, window + later) && DistinctHashes(window + later)
    requires AfterAll(Fresh(rows), w, self, window).Some?
    ensures SameFor(rows, others, w, window) && DistinctHashes(window) && DistinctHashes(later)
    ensures SameFor(AfterAll(Fresh(rows), w, self, window).value.rows, others, w, later)
  {
    var all, f := window + later, AfterAll(Fresh(rows), w, self, window).value;
    forall i, j | 0 <= i < j < |window| && window[i].hash.Some? && window[j].hash.Some?
        ensures window[i].hash != window[j].hash {
      assert all[i] == window[i] && all[j] == window[j];
    }
    forall i, j | 0 <= i < j < |later| && later[i].hash.Some? && later[j].hash.Some?
        ensures later[i].hash != later[j].hash {
      assert all[|window| + i] == later[i] && all[|window| + j] == later[j];
    }
    forall i, erc20 | 0 <= i < |window| && window[i].hash.Some?
      ensures Taken(rows, w, window[i].hash.value, erc20) == Taken(others, w, window[i].hash.value, erc20)
    {
      assert all[i] == window[i];
    }
    forall i, erc20 | 0 <= i < |later| && later[i].hash.Some?
      ensures Taken(f.rows, w, later[i].hash.value, erc20) == Taken(others, w, later[i].hash.value, erc20)
    {
      assert all[|window| + i] == later[i];
      forall j | 0 <= j < |window| ensures window[j].hash != later[i].hash { assert all[j] == window[j]; }
      AfterAllRows(Fresh(rows), w, self, window, later[i].hash.value, erc20);
    }
  }

  lemma WindowOwes(rows: seq<Row>, others: seq<Row>, w: WalletId, self: nat, txs: seq<ChainTx>, a: Asset)
    requires SameFor(rows, others, w, txs) && DistinctHashes(txs) && AfterAll(Fresh(rows), w, self, txs).Some?
    ensures Credited(AfterAll(Fresh(rows), w, self, txs).value, a) == Sum(txs, Owed(others, w, self, a))
  {
    CompletedScanCreditsWhatIsDue(Fresh(rows), w, self, txs, a);
    forall i | 0 <= i < |txs| ensures Owed(rows, w, self, a)(txs[i]) == Owed(others, w, self, a)(txs[i]) {
      if txs[i].hash.Some? {
        RecordedIsTaken(rows, w, txs[i].hash.value, a.Token?);
        RecordedIsTaken(others, w, txs[i].hash.value, a.Token?);
      }
    }
    SumSame(txs, Owed(rows, w, self, a), Owed(others, w, self, a));
  }

  lemma {:induction false} SeriesCoversOn(rows: seq<Row>, last: nat, visits: seq<Visit>, w: WalletId, self: nat,
                                          chain: nat -> seq<ChainTx>)
    requires SerialScans(rows, last, visits, w, self, chain).Some?
    ensures last <= SerialScans(rows, last, visits, w, self, chain).value.1
    decreases |visits|
  {
    if visits != [] {
      var v := visits[0];
      if v.head <= last {
        SeriesCoversOn(rows + v.arrived, last, visits[1..], w, self, chain);
      } else {
        var end := WindowEnd(last, v.head, v.maxBlocks);
        var f := AfterAll(Fresh(rows + v.arrived), w, self, Txs(chain, last + 1, end + 1)).value;
        SeriesCoversOn(f.rows, end, visits[1..], w, self, chain);
      }
    }
  }

  /** One window of a series, and what is left of it. */
  lemma WindowOfSeries(table: seq<Row>, known: seq<Row>, w: WalletId, self: nat, chain: nat -> seq<ChainTx>,
                       last: nat, end: nat, upto: nat,
                       f: Found, a: Asset)
    requires last <= end <= upto && AfterAll(Fresh(table), w, self, Txs(chain, last + 1, end + 1)) == Some(f)
    requires DistinctHashes(Txs(chain, last + 1, upto + 1)) && SameFor(table, known, w, Txs(chain, last + 1, upto + 1))
    ensures Credited(f, a) == BlockSum(chain, last + 1, end + 1, Owed(known, w, self, a))
    ensures DistinctHashes(Txs(chain, end + 1, upto + 1)) && SameFor(f.rows, known, w, Txs(chain, end + 1, upto + 1))
  {
    TxsSplit(chain, last + 1, end + 1, upto + 1);
    ScanKeepsSame(table, known, w, self, Txs(chain, last + 1, end + 1), Txs(chain, end + 1, upto + 1));
    WindowOwes(table, known, w, self, Txs(chain, last + 1, end + 1), a);
    SumOverBlocks(chain, last + 1, end + 1, Owed(known, w, self, a));
  }

  lemma {:induction false} SeriesCredits(rows: seq<Row>, others: seq<Row>, last: nat, visits: seq<Visit>, w: WalletId,
                                         self: nat,
                                         chain: nat -> seq<ChainTx>, a: Asset)
    requires SerialScans(rows, last, visits, w, self, chain).Some?
    requires var txs := Txs(chain, last + 1, SerialScans(rows, last, visits, w, self, chain).value.1 + 1);
             DistinctHashes(txs) && SameFor(rows, others, w, txs)
    ensures Credited(SerialScans(rows, last, visits, w, self, chain).value.0, a)
        == OwedBySeries(others, last, visits, w, self, chain, a)
    decreases |visits|
  {
    if visits != [] {
      var v, rest, upto := visits[0], visits[1..], SerialScans(rows, last, visits, w, self, chain).value.1;
      var table, known := rows + v.arrived, others + v.arrived;
      ArrivalsKeepSame(rows, others, v.arrived, w, Txs(chain, last + 1, upto + 1));
      if v.head <= last {
        SeriesCredits(table, known, last, rest, w, self, chain, a);
      } else {
        var end := WindowEnd(last, v.head, v.maxBlocks);
        var f := AfterAll(Fresh(table), w, self, Txs(chain, last + 1, end + 1)).value;
        var g := SerialScans(f.rows, end, rest, w, self, chain).value.0;
        SeriesCoversOn(f.rows, end, rest, w, self, chain);
        WindowOfSeries(table, known, w, self, chain, last, end, upto, f, a);
        SeriesCredits(f.rows, known, end, rest, w, self, chain, a);
        CreditedTogether(f, g, a);
      }
    }
  }

  /** Exactly-once credit for serial completed scans, while others insert rows between them: in every
      asset they credit together exactly what the blocks they cover owe the wallet. */
  lemma SerialScansCreditExactlyOnce(rows: seq<Row>, last: nat, visits: seq<Visit>, w: WalletId, self: nat,
                                     chain: nat -> seq<ChainTx>, a: Asset)
    requires SerialScans(rows, last, visits, w, self, chain).Some?
    requires DistinctHashes(Txs(chain, last + 1, SerialScans(rows, last, visits, w, self, chain).value.1 + 1))
    ensures var (g, upto) := SerialScans(rows, last, visits, w, self, chain).value;
            last <= upto && Credited(g, a) == OwedBySeries(rows, last, visits, w, self, chain, a)
  {
    SeriesCoversOn(rows, last, visits, w, self, chain);
    SeriesCredits(rows, rows, last, visits, w, self, chain, a);
  }

  /** With nobody else at the table that is one sum, over all their blocks, of the sums over each block's
      transactions. */
  lemma LoneScansCreditExactlyOnce(rows: seq<Row>, last: nat, visits: seq<Visit>, w: WalletId, self: nat,
                                   chain: nat -> seq<ChainTx>, a: Asset)
    requires SerialScans(rows, last, visits, w, self, chain).Some?
    requires forall k :: 0 <= k < |visits| ==> visits[k].arrived == []
    requires DistinctHashes(Txs(chain, last + 1, SerialScans(rows, last, visits, w, self, chain).value.1 + 1))
    ensures var (g, upto) := SerialScans(rows, last, visits, w, self, chain).value;
            Credited(g, a) == BlockSum(chain, last + 1, upto + 1, Owed(rows, w, self, a))
  {
    SerialScansAreOneScan(rows, last, visits, w, self, chain);
    var (g, upto) := SerialScans(rows, last, visits, w, self, chain).value;
    CompletedScanCreditsWhatIsDue(Fresh(rows), w, self, Txs(chain, last + 1, upto + 1), a);
    SumOverBlocks(chain, last + 1, upto + 1, Owed(rows, w, self, a));
  }
}
