/**
 The scanner's fold and the custody world agree: what one completed scan inserts and credits is a run
 of the world, row by row, so what is proved of the world's credits is about the scanner's loop.
 */
module ScanRuns {
  import opened Prelude
  import opened Ledger
  import opened World
  import D = Deposits

  /** Any row with this key. */
  ghost function Probe(wallet: WalletId, hash: TxHash, erc20: bool): DepositRow {
    DepositRow(wallet, hash, if erc20 then Some(Address(0, 0)) else None, 0)
  }

  /** The scanner's table and the world's rows take the same keys of one wallet. */
  ghost predicate SameKeys(rows: seq<D.Row>, w: World, wallet: WalletId) {
    forall hash, erc20 :: D.Taken(rows, wallet, hash, erc20) <==> KeyTaken(w, Probe(wallet, hash, erc20))
  }

  /** The scan in the world has come as far as the fold has. */
  ghost predicate Alike(w: World, scan: nat, wallet: WalletId, f: D.Found) {
    && scan in w.scans && w.scans[scan].wallet == wallet && SameKeys(f.rows, w, wallet)
    && NativeTotal(w.scans[scan].pending) == f.native && TokenCredits(w.scans[scan].pending) == f.tokens
  }

  /** The block's transaction did arrive, or is the address's own. */
  ghost predicate OnChain(w: World, tx: D.ChainTx) {
    tx.hash.Some? ==>
      && (D.PaysEther(tx, w.self) ==> Incoming(tx.hash.value, tx.value) in w.incoming)
      && (D.PaysToken(tx, w.self) && tx.hash.value.Signed? ==>
            SelfPaid(w, tx.hash.value.tx, tx.to.value, tx.call.value.amount))
  }

  /** Only the rows and this scan have changed. */
  ghost predicate OnlyScanned(w: World, w': World, scan: nat)
    requires scan in w.scans && scan in w'.scans
  {
    w' == w.(rows := w'.rows, scans := w.scans[scan := w'.scans[scan]])
  }

  lemma SameKey(w: World, d: DepositRow)
    ensures KeyTaken(w, d) <==> KeyTaken(w, Probe(d.wallet, d.hash, d.token.Some?))
  {
    assert Key(d) == Key(Probe(d.wallet, d.hash, d.token.Some?));
  }

  lemma PendingGrows(pending: seq<DepositRow>, d: DepositRow)
    ensures NativeTotal(pending + [d]) == NativeTotal(pending) + if d.token.None? then d.amount else 0
    ensures TokenCredits(pending + [d])
            == TokenCredits(pending) + if d.token.Some? then [TokenCredit(d.token.value, d.amount)] else []
  {
    assert (pending + [d])[..|pending|] == pending;
  }

  lemma KeysAfterInsert(rows: seq<D.Row>, w: World, scan: nat, d: DepositRow, w': World)
    requires SameKeys(rows, w, d.wallet) && w'.rows == w.rows + [d] && w'.tables == w.tables
    ensures SameKeys(rows + [D.Row(d.wallet, d.hash, d.token, d.amount)], w', d.wallet)
  {
    var row := D.Row(d.wallet, d.hash, d.token, d.amount);
    forall hash, erc20
      ensures D.Taken(rows + [row], d.wallet, hash, erc20) <==> KeyTaken(w', Probe(d.wallet, hash, erc20))
    {
      D.TakenInBoth(rows, [row], d.wallet, hash, erc20);
      assert D.Taken([row], d.wallet, hash, erc20) <==> hash == d.hash && erc20 == d.token.Some? by {
        assert [row][0] == row;
      }
      assert w'.rows[|w.rows|] == d;
      var probe := Probe(d.wallet, hash, erc20);
      assert KeyTaken(w', probe) <==> KeyTaken(w, probe) || Key(d) == Key(probe) by {
        if i :| 0 <= i < |w.rows| && Key(w.rows[i]) == Key(probe) { assert w'.rows[i] == w.rows[i]; }
      }
    }
  }

  /** An insert that does not throw is the world's event. */
  lemma InsertIsEvent(w: World, scan: nat, f: D.Found, d: DepositRow) returns (w': World)
    requires Alike(w, scan, d.wallet, f) && d.amount > 0
    requires !D.Taken(f.rows, d.wallet, d.hash, d.token.Some?)
    requires d.token.None? ==> Incoming(d.hash, d.amount) in w.incoming
    requires d.token.Some? && d.hash.Signed? ==> SelfPaid(w, d.hash.tx, d.token.value, d.amount)
    ensures Enabled(w, ScanFound(scan, d)) && w' == Apply(w, ScanFound(scan, d)) && OnlyScanned(w, w', scan)
    ensures Alike(w', scan, d.wallet,
                  D.Found(f.rows + [D.Row(d.wallet, d.hash, d.token, d.amount)], f.deposits + 1,
                          f.native + (if d.token.None? then d.amount else 0),
                          f.tokens + if d.token.Some? then [TokenCredit(d.token.value, d.amount)] else []))
  {
    SameKey(w, d);
    w' := Apply(w, ScanFound(scan, d));
    PendingGrows(w.scans[scan].pending, d);
    KeysAfterInsert(f.rows, w, scan, d, w');
  }

  ghost predicate Finds(events: seq<Event>, scan: nat) {
    forall e :: e in events ==> e.ScanFound? && e.scan == scan
  }

  lemma EtherIsEvents(w: World, scan: nat, wallet: WalletId, f: D.Found, tx: D.ChainTx)
      returns (events: seq<Event>, w': World)
    requires Alike(w, scan, wallet, f) && OnChain(w, tx)
    ensures Run(w, events, w') && Finds(events, scan) && scan in w'.scans && OnlyScanned(w, w', scan)
    ensures Alike(w', scan, wallet, D.AfterEther(f, wallet, w.self, tx))
  {
    events, w' := [], w;
    if tx.hash.Some? && D.PaysEther(tx, w.self) && !D.Taken(f.rows, wallet, tx.hash.value, false) {
      var d := DepositRow(wallet, tx.hash.value, None, tx.value);
      w' := InsertIsEvent(w, scan, f, d);
      assert f.tokens + [] == f.tokens;
      events := [ScanFound(scan, d)];
      assert Run(w', events[1..], w');
    }
  }

  lemma TokenIsEvents(w: World, scan: nat, wallet: WalletId, f: D.Found, tx: D.ChainTx)
      returns (events: seq<Event>, w': World)
    requires Alike(w, scan, wallet, D.AfterEther(f, wallet, w.self, tx)) && OnChain(w, tx)
    requires D.AfterTx(f, wallet, w.self, tx).Some?
    ensures Run(w, events, w') && Finds(events, scan) && scan in w'.scans && OnlyScanned(w, w', scan)
    ensures Alike(w', scan, wallet, D.AfterTx(f, wallet, w.self, tx).value)
  {
    events, w' := [], w;
    var g := D.AfterEther(f, wallet, w.self, tx);
    if tx.hash.Some? && D.PaysToken(tx, w.self) && !D.Seen(g.rows, wallet, tx.hash.value, tx.to.value) {
      var d := DepositRow(wallet, tx.hash.value, tx.to, tx.call.value.amount);
      w' := InsertIsEvent(w, scan, g, d);
      events := [ScanFound(scan, d)];
      assert Run(w', events[1..], w');
    }
  }

  lemma TxIsEvents(w: World, scan: nat, wallet: WalletId, f: D.Found, tx: D.ChainTx)
    returns (events: seq<Event>, w': World)
    requires Alike(w, scan, wallet, f) && OnChain(w, tx) && D.AfterTx(f, wallet, w.self, tx).Some?
    ensures Run(w, events, w') && Finds(events, scan) && scan in w'.scans && OnlyScanned(w, w', scan)
    ensures Alike(w', scan, wallet, D.AfterTx(f, wallet, w.self, tx).value)
  {
    var a, u := EtherIsEvents(w, scan, wallet, f, tx);
    var b, v := TokenIsEvents(u, scan, wallet, f, tx);
    RunsJoin(w, a, u, b, v);
    events, w' := a + b, v;
  }

  lemma StillOnChain(w: World, v: World, scan: nat, txs: seq<D.ChainTx>)
    requires scan in w.scans && scan in v.scans && OnlyScanned(w, v, scan) && txs != []
    requires forall i :: 0 <= i < |txs| ==> OnChain(w, txs[i])
    ensures forall i :: 0 <= i < |txs[1..]| ==> OnChain(v, txs[1..][i])
  {
    forall i | 0 <= i < |txs[1..]| ensures OnChain(v, txs[1..][i]) { assert OnChain(w, txs[i + 1]); }
  }

  lemma {:induction false} FoldIsEvents(w: World, scan: nat, wallet: WalletId, f: D.Found, txs: seq<D.ChainTx>)
    returns (events: seq<Event>, w': World)
    requires Alike(w, scan, wallet, f) && (forall i :: 0 <= i < |txs| ==> OnChain(w, txs[i]))
    requires D.AfterAll(f, wallet, w.self, txs).Some?
    ensures Run(w, events, w') && Finds(events, scan) && scan in w'.scans && OnlyScanned(w, w', scan)
    ensures Alike(w', scan, wallet, D.AfterAll(f, wallet, w.self, txs).value)
    decreases |txs|
  {
    events, w' := [], w;
    if txs != [] {
      var g := D.AfterTx(f, wallet, w.self, txs[0]).value;
      var a, v := TxIsEvents(w, scan, wallet, f, txs[0]);
      StillOnChain(w, v, scan, txs);
      var b, x := FoldIsEvents(v, scan, wallet, g, txs[1..]);
      RunsJoin(w, a, v, b, x);
      events, w' := a + b, x;
    }
  }

  /** A completed scan of a window whose transactions are on chain is a run of the world: its inserts
      in order, then its credit, which leaves exactly the balances the scanner leaves. */
  lemma ScanIsRun(w: World, scan: nat, wallet: WalletId, rows: seq<D.Row>, txs: seq<D.ChainTx>)
      returns (events: seq<Event>, w': World)
    requires scan in w.scans && w.scans[scan] == Scan(wallet, []) && SameKeys(rows, w, wallet)
    requires (forall i :: 0 <= i < |txs| ==> OnChain(w, txs[i])) && D.AfterAll(D.Fresh(rows), wallet, w.self, txs).Some?
    ensures var f := D.AfterAll(D.Fresh(rows), wallet, w.self, txs).value;
            && Run(w, events + [ScanCredited(scan)], w') && Finds(events, scan)
            && w'.tables == Credit(w.tables, wallet, f.native, f.tokens) && SameKeys(f.rows, w', wallet)
  {
    var v;
    events, v := FoldIsEvents(w, scan, wallet, D.Fresh(rows), txs);
    RunSnoc(w, events, v, ScanCredited(scan));
    w' := Apply(v, ScanCredited(scan));
    SameKeysAfterCredit(D.AfterAll(D.Fresh(rows), wallet, w.self, txs).value.rows, v, scan, wallet);
  }

  lemma SameKeysAfterCredit(rows: seq<D.Row>, v: World, scan: nat, wallet: WalletId)
    requires scan in v.scans && SameKeys(rows, v, wallet)
    ensures SameKeys(rows, Apply(v, ScanCredited(scan)), wallet)
  {
    var w' := Apply(v, ScanCredited(scan));
    assert w'.rows == v.rows && w'.tables.log == v.tables.log;
    forall hash, erc20 ensures KeyTaken(w', Probe(wallet, hash, erc20)) == KeyTaken(v, Probe(wallet, hash, erc20)) {}
  }
}
