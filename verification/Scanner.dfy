/** The deposit scanner's loops: retried fetches, the shared block cache, batches, deferred credits. */
module Scanner {
  import opened Prelude
  import opened Ledger
  import opened LedgerService
  import opened Deposits

  datatype Fault = Fine | RateLimited | Broken

  /** The node: immutable blocks, and how each attempt to fetch one goes. */
  datatype Network = Network(chain: nat -> seq<ChainTx>, fault: (nat, nat) -> Fault)

  /** Some attempt succeeds, and every one before it is a rate limit. */
  predicate Reaches(net: Network, n: nat, attempt: nat)
    decreases FETCH_ATTEMPTS - attempt
  {
    attempt <= FETCH_ATTEMPTS &&
    (net.fault(n, attempt).Fine? || (net.fault(n, attempt).RateLimited? && Reaches(net, n, attempt + 1)))
  }

  datatype Summary = Summary(scannedFrom: Option<nat>, scannedTo: Option<nat>, deposits: nat, amount: nat)

  const IDLE := Summary(None, None, 0, 0)

  /** A group as the run lists it; members carry their creation time. */
  datatype Member = Member(wallet: WalletId, created: nat)
  datatype GroupRow = GroupRow(id: nat, self: nat, last: int, members: seq<Member>)

  /** The member a group's deposits are credited to: the oldest, the first of them on a tie. */
  function Primary(members: seq<Member>): (k: nat)
    requires members != []
    ensures k < |members|
    ensures forall i :: 0 <= i < |members| ==> members[k].created <= members[i].created
    ensures forall i :: 0 <= i < k ==> members[k].created < members[i].created
  {
    var n := |members| - 1;
    if n == 0 then 0
    else
      var k := Primary(members[..n]);
      assert forall i :: 0 <= i < n ==> members[..n][i] == members[i];
      if members[n].created < members[k].created then n else k
  }

  /** Everything a run changes, and no cache. */
  datatype Books = Books(rows: seq<Row>, tables: Tables, lastSync: map<nat, int>)

  /** One group's scan, block by block from the chain itself. */
  function ScanGroup(b: Books, g: nat, w: WalletId, self: nat, last: int, current: nat, maxBlocks: nat,
                     chain: nat -> seq<ChainTx>): Option<(Books, nat)> {
    if last <= 0 then Some((b.(lastSync := b.lastSync[g := current]), 0))
    else if current <= last then Some((b, 0))
    else
      var end := WindowEnd(last, current, maxBlocks);
      match AfterAll(Fresh(b.rows), w, self, Txs(chain, last + 1, end + 1))
      case None => None
      case Some(f) => Some((Books(f.rows, Credit(b.tables, w, f.native, f.tokens), b.lastSync[g := end]), f.deposits))
  }

  /** A listed group's scan credits its oldest wallet. */
  function ScanOne(b: Books, g: GroupRow, current: nat, chain: nat -> seq<ChainTx>): Option<(Books, nat)> {
    if g.members == [] then Some((b, 0))
    else ScanGroup(b, g.id, g.members[Primary(g.members)].wallet, g.self, g.last, current, WINDOW_PER_RUN, chain)
  }

  /** All groups in turn, each from the chain itself. */
  function ScanGroups(b: Books, groups: seq<GroupRow>, current: nat, chain: nat -> seq<ChainTx>): Option<(Books, nat)>
    decreases |groups|
  {
    if groups == [] then Some((b, 0))
    else
      var n := |groups| - 1;
      match ScanGroups(b, groups[..n], current, chain)
      case None => None
      case Some((c, found)) =>
        match ScanOne(c, groups[n], current, chain)
        case None => None
        case Some((d, more)) => Some((d, found + more))
  }

  /** A block is reached exactly when one of the first three attempts succeeds and those before it met
      nothing worse than a rate limit. */
  lemma ReachedWithinThree(net: Network, n: nat)
    ensures Reaches(net, n, 1) <==>
            || net.fault(n, 1).Fine?
            || (net.fault(n, 1).RateLimited? && net.fault(n, 2).Fine?)
            || (net.fault(n, 1).RateLimited? && net.fault(n, 2).RateLimited? && net.fault(n, 3).Fine?)
  {
    assert Reaches(net, n, 2) == (net.fault(n, 2).Fine? || (net.fault(n, 2).RateLimited? && Reaches(net, n, 3)));
    assert Reaches(net, n, 3) == (net.fault(n, 3).Fine? || (net.fault(n, 3).RateLimited? && Reaches(net, n, 4)));
    assert !Reaches(net, n, 4);
  }

  /** What a scheduled scan of a group does to its last block: one that was never synced jumps to the
      head and records nothing; otherwise it moves on by at most 150 blocks, to the head at most, and
      never back. No other group's moves. */
  lemma ScheduledScanMovesOn(b: Books, g: GroupRow, current: nat, chain: nat -> seq<ChainTx>)
    requires g.members != [] && ScanOne(b, g, current, chain).Some?
    ensures var (c, found) := ScanOne(b, g, current, chain).value;
            && (forall h :: h != g.id ==> (h in c.lastSync <==> h in b.lastSync))
            && (forall h :: h != g.id && h in b.lastSync ==> c.lastSync[h] == b.lastSync[h])
            && (g.last <= 0 ==> c == b.(lastSync := b.lastSync[g.id := current]) && found == 0)
            && (g.last >= current && g.last > 0 ==> c == b && found == 0)
            && (0 < g.last < current ==>
                  && g.id in c.lastSync && g.last < c.lastSync[g.id] <= current
                  && c.lastSync[g.id] == (if current - g.last <= 150 then current else g.last + 150))
  {
  }

  /** The deposits a run reports are the rows it added. */
  lemma {:induction false} RunReportsRows(b: Books, groups: seq<GroupRow>, current: nat, chain: nat -> seq<ChainTx>)
    requires ScanGroups(b, groups, current, chain).Some?
    ensures var (c, found) := ScanGroups(b, groups, current, chain).value;
            b.rows <= c.rows && found == |c.rows| - |b.rows|
    decreases |groups|
  {
    if groups != [] {
      var n := |groups| - 1;
      var c, g := ScanGroups(b, groups[..n], current, chain).value.0, groups[n];
      RunReportsRows(b, groups[..n], current, chain);
      if g.members != [] && 0 < g.last < current {
        RowsAreWhatIsCredited(Fresh(c.rows), g.members[Primary(g.members)].wallet, g.self,
                              Txs(chain, g.last + 1, WindowEnd(g.last, current, WINDOW_PER_RUN) + 1), Native);
      }
    }
  }

  /** A catch-up takes one step for up to 500 blocks, one for each 500 begun after that, and no more than
      twenty; it stands at the head or 10000 blocks on, whichever comes first. */
  lemma CatchUpNumbers(last: nat, current: nat)
    ensures var gap := Max(0, current - last);
            && CatchUpSteps(gap) == (if gap <= 500 then 1 else if gap > 9500 then 20 else (gap + 499) / 500)
            && CatchUpEnd(last, current, MANUAL_SYNC_STEPS)
               == (if current <= last then last else if gap <= 10000 then current else last + 10000)
  {
  }

  /** Every block of a group's window can be fetched. */
  ghost predicate WindowReachable(net: Network, last: int, current: nat, maxBlocks: nat) {
    0 < last < current ==> forall n :: last < n <= WindowEnd(last, current, maxBlocks) ==> Reaches(net, n, 1)
  }

  ghost predicate GroupReachable(net: Network, g: GroupRow, current: nat) {
    g.members != [] ==> WindowReachable(net, g.last, current, WINDOW_PER_RUN)
  }

  ghost predicate GroupsReachable(net: Network, groups: seq<GroupRow>, current: nat) {
    forall i :: 0 <= i < |groups| ==> GroupReachable(net, groups[i], current)
  }

  /** When a group's scan throws, the run throws. */
  lemma {:induction false} EarlierGroupThrows(b: Books, groups: seq<GroupRow>, i: nat, current: nat,
                                              chain: nat -> seq<ChainTx>)
    requires i <= |groups| && ScanGroups(b, groups[..i], current, chain).None?
    ensures ScanGroups(b, groups, current, chain).None?
    decreases |groups|
  {
    if i == |groups| {
      assert groups[..i] == groups;
    } else {
      var init := groups[..|groups| - 1];
      assert init[..i] == groups[..i];
      EarlierGroupThrows(b, init, i, current, chain);
    }
  }

  /** A run of scans only adds rows, under keys that were free. */
  lemma {:induction false} RunKeepsKeys(b: Books, groups: seq<GroupRow>, current: nat, chain: nat -> seq<ChainTx>)
    requires ScanGroups(b, groups, current, chain).Some? && UniqueKeys(b.rows)
    ensures var c := ScanGroups(b, groups, current, chain).value.0;
            b.rows <= c.rows && UniqueKeys(c.rows)
    decreases |groups|
  {
    if groups != [] {
      var n := |groups| - 1;
      var c, g := ScanGroups(b, groups[..n], current, chain).value.0, groups[n];
      RunKeepsKeys(b, groups[..n], current, chain);
      if g.members != [] && 0 < g.last < current {
        ScanKeepsKeys(Fresh(c.rows), g.members[Primary(g.members)].wallet, g.self,
                      Txs(chain, g.last + 1, WindowEnd(g.last, current, WINDOW_PER_RUN) + 1));
      }
    }
  }

  /** Once the primary wallet of a listed group has sent a token to the group's own address, every
      scheduled run whose window reaches that block throws at that group or before it, whatever else is
      listed and recorded, so the groups listed after it are not scanned. Its own last block stays, so
      this is so in every later run. */
  lemma TokenSelfSendStopsTheRun(b: Books, groups: seq<GroupRow>, k: nat, i: nat, n: nat, j: nat, current: nat,
                                 chain: nat -> seq<ChainTx>)
    requires k < j <= |groups| && groups[k].members != [] && 0 < groups[k].last < current
    requires i < |b.rows| && UniqueKeys(b.rows)
    requires var g := groups[k];
             var txs := Txs(chain, g.last + 1, WindowEnd(g.last, current, WINDOW_PER_RUN) + 1);
             && n < |txs| && DistinctHashes(txs)
             && SelfSent(b.rows[i], g.members[Primary(g.members)].wallet, g.self, txs[n])
    ensures ScanGroups(b, groups[..j], current, chain).None?
  {
    var g := groups[k];
    assert groups[..j][..k + 1] == groups[..k + 1] && groups[..k + 1][..k] == groups[..k] && groups[..k + 1][k] == g;
    if ScanGroups(b, groups[..k], current, chain).Some? {
      RunKeepsKeys(b, groups[..k], current, chain);
      TokenSelfSendStopsTheScan(b.rows, i, ScanGroups(b, groups[..k], current, chain).value.0.rows,
                                Txs(chain, g.last + 1, WindowEnd(g.last, current, WINDOW_PER_RUN) + 1), n,
                                g.members[Primary(g.members)].wallet, g.self);
    }
    EarlierGroupThrows(b, groups[..j], k + 1, current, chain);
  }

  /** A run that threw at group i: the groups before it are scanned, and of it and those after it no
      balance and no last block has changed. */
  ghost predicate StoppedAt(b: Books, groups: seq<GroupRow>, i: nat, current: nat, net: Network, now: Books) {
    && i < |groups| && ScanGroups(b, groups[..i], current, net.chain).Some?
    && var c := ScanGroups(b, groups[..i], current, net.chain).value.0;
       && now.tables == c.tables && now.lastSync == c.lastSync && c.rows <= now.rows
       && (ScanOne(c, groups[i], current, net.chain).None? || !GroupReachable(net, groups[i], current))
  }

  /** After the first i groups, the next one's scan extends the run, or the run cannot succeed. */
  lemma NextGroup(b: Books, c: Books, groups: seq<GroupRow>, i: nat, found: nat, current: nat, net: Network)
    requires i < |groups| && ScanGroups(b, groups[..i], current, net.chain) == Some((c, found))
    ensures var next := ScanOne(c, groups[i], current, net.chain);
            && (next.Some? ==>
                  ScanGroups(b, groups[..i + 1], current, net.chain) == Some((next.value.0, found + next.value.1)))
            && (next.None? ==> ScanGroups(b, groups, current, net.chain).None?)
  {
    assert groups[..i + 1][..i] == groups[..i];
    if ScanOne(c, groups[i], current, net.chain).None? { EarlierGroupThrows(b, groups, i + 1, current, net.chain); }
  }

  lemma ReachableStep(net: Network, groups: seq<GroupRow>, i: nat, current: nat)
    requires i < |groups|
    ensures GroupsReachable(net, groups[..i + 1], current) <==>
            GroupsReachable(net, groups[..i], current) && GroupReachable(net, groups[i], current)
    ensures !GroupReachable(net, groups[i], current) ==> !GroupsReachable(net, groups, current)
  {
    assert groups[..i + 1] == groups[..i] + [groups[i]];
    if GroupsReachable(net, groups[..i + 1], current) {
      assert groups[..i + 1][i] == groups[i];
      forall j | 0 <= j < i ensures GroupReachable(net, groups[..i][j], current) {
        assert groups[..i + 1][j] == groups[..i][j];
      }
    }
  }

  /** The number of windows of a manual catch-up over a gap of that many blocks. */
  function CatchUpSteps(gap: nat): nat {
    Min(MANUAL_SYNC_STEPS, Max(1, (gap + WINDOW_PER_MANUAL_SYNC - 1) / WINDOW_PER_MANUAL_SYNC))
  }

  class Scan {
    var rows: seq<Row>
    var lastSync: map<nat, int>
    var cache: map<nat, seq<ChainTx>>
    const client: Client

    ghost function Now(): Books
      reads this, client
    {
      Books(rows, client.Now(), lastSync)
    }

    constructor (client: Client, rows: seq<Row>, lastSync: map<nat, int>)
      ensures this.client == client && this.rows == rows && this.lastSync == lastSync && this.cache == map[]
    {
      this.client, this.rows, this.lastSync, this.cache := client, rows, lastSync, map[];
    }

    /** Whatever is cached is what the chain holds. */
    ghost predicate Agrees(net: Network)
      reads this`cache
    {
      forall n :: n in cache ==> cache[n] == net.chain(n)
    }

    ghost predicate Fetchable(net: Network, n: nat)
      reads this`cache
    {
      n in cache || Reaches(net, n, 1)
    }

    /** A block from the cache or the node; none is a thrown error. The source's final return of an
        empty block is unreachable: a fetch that keeps failing always throws. */
    method GetBlockTransactions(net: Network, n: nat) returns (r: Option<seq<ChainTx>>)
      requires Agrees(net)
      modifies this`cache
      ensures r == if old(Fetchable(net, n)) then Some(net.chain(n)) else None
      ensures cache == if r.Some? then old(cache)[n := net.chain(n)] else old(cache)
    {
      if n in cache {
        assert cache == cache[n := net.chain(n)];
        return Some(cache[n]);
      }
      var attempt := 1;
      while attempt <= FETCH_ATTEMPTS
        invariant 1 <= attempt <= FETCH_ATTEMPTS && cache == old(cache)
        invariant Reaches(net, n, 1) == Reaches(net, n, attempt)
      {
        var fault := net.fault(n, attempt);
        if fault.Fine? {
          var txs := net.chain(n);
          cache := cache[n := txs];
          return Some(txs);
        }
        var shouldRetry := attempt < FETCH_ATTEMPTS && fault.RateLimited?;
        if !shouldRetry { return None; }
        attempt := attempt + 1;
      }
      assert false;
    }

    /** One batch of blocks, in order. */
    method FetchBatch(net: Network, start: nat, end: nat) returns (r: Option<seq<ChainTx>>)
      requires Agrees(net) && start <= end
      modifies this`cache
      ensures Agrees(net)
      ensures r == if forall n :: start <= n < end ==> old(Fetchable(net, n)) then Some(Txs(net.chain, start, end))
          else None
      ensures forall n :: Fetchable(net, n) == old(Fetchable(net, n))
    {
      var txs: seq<ChainTx> := [];
      for n := start to end
        invariant Agrees(net) && txs == Txs(net.chain, start, n)
        invariant forall m :: Fetchable(net, m) == old(Fetchable(net, m))
        invariant forall m :: start <= m < n ==> old(Fetchable(net, m))
      {
        var block := GetBlockTransactions(net, n);
        if block.None? { return None; }
        txs := txs + block.value;
      }
      return Some(txs);
    }

    /** The checks and inserts for one transaction; false when an insert throws. */
    method RecordTransaction(w: WalletId, self: nat, tx: ChainTx, deposits: nat, native: nat, tokens: seq<TokenCredit>)
      returns (ok: bool, deposits': nat, native': nat, tokens': seq<TokenCredit>)
      modifies this`rows
      ensures old(rows) <= rows && (UniqueKeys(old(rows)) ==> UniqueKeys(rows))
      ensures AfterTx(Found(old(rows), deposits, native, tokens), w, self, tx)
           == if ok then Some(Found(rows, deposits', native', tokens')) else None
    {
      ok, deposits', native', tokens' := true, deposits, native, tokens;
      if tx.hash.None? { return; }
      var hash := tx.hash.value;
      if tx.to.Some? && tx.to.value.account == self {
        if tx.value > 0 {
          if !Taken(rows, w, hash, false) {
            if UniqueKeys(rows) { InsertKeepsKeys(rows, Row(w, hash, None, tx.value)); }
            rows := rows + [Row(w, hash, None, tx.value)];
            deposits' := deposits' + 1;
            native' := native' + tx.value;
          }
        }
      }
      if tx.to.None? { return; }
      if tx.call.None? || tx.call.value.amount <= 0 { return; }
      if tx.call.value.to != self { return; }
      if Seen(rows, w, hash, tx.to.value) { return; }
      if Taken(rows, w, hash, true) { ok := false; return; }
      if UniqueKeys(rows) { InsertKeepsKeys(rows, Row(w, hash, Some(tx.to.value), tx.call.value.amount)); }
      rows := rows + [Row(w, hash, Some(tx.to.value), tx.call.value.amount)];
      tokens' := tokens' + [TokenCredit(tx.to.value, tx.call.value.amount)];
      deposits' := deposits' + 1;
    }

    method RecordAll(w: WalletId, self: nat, txs: seq<ChainTx>, deposits: nat, native: nat, tokens: seq<TokenCredit>)
      returns (ok: bool, deposits': nat, native': nat, tokens': seq<TokenCredit>)
      modifies this`rows
      ensures old(rows) <= rows && (UniqueKeys(old(rows)) ==> UniqueKeys(rows))
      ensures AfterAll(Found(old(rows), deposits, native, tokens), w, self, txs)
           == if ok then Some(Found(rows, deposits', native', tokens')) else None
    {
      ok, deposits', native', tokens' := true, deposits, native, tokens;
      for i := 0 to |txs|
        invariant ok && old(rows) <= rows && (UniqueKeys(old(rows)) ==> UniqueKeys(rows))
        invariant AfterAll(Found(old(rows), deposits, native, tokens), w, self, txs)
               == AfterAll(Found(rows, deposits', native', tokens'), w, self, txs[i..])
      {
        assert txs[i..][1..] == txs[i + 1..];
        ok, deposits', native', tokens' := RecordTransaction(w, self, txs[i], deposits', native', tokens');
        if !ok { return; }
      }
    }

    /** One batch of blocks fetched, then folded. */
    method ScanBatch(w: WalletId, self: nat, start: nat, end: nat, net: Network, deposits: nat, native: nat,
                     tokens: seq<TokenCredit>)
      returns (ok: bool, deposits': nat, native': nat, tokens': seq<TokenCredit>)
      requires Agrees(net) && start <= end
      modifies this`rows, this`cache
      ensures Agrees(net) && old(rows) <= rows && (UniqueKeys(old(rows)) ==> UniqueKeys(rows))
      ensures forall n :: Fetchable(net, n) == old(Fetchable(net, n))
      ensures var after := AfterAll(Found(old(rows), deposits, native, tokens), w, self, Txs(net.chain, start, end));
              && (ok ==> after == Some(Found(rows, deposits', native', tokens')))
              && (ok <==> after.Some? && forall n :: start <= n < end ==> old(Fetchable(net, n)))
    {
      ok, deposits', native', tokens' := false, deposits, native, tokens;
      var txs := FetchBatch(net, start, end);
      if txs.Some? {
        ok, deposits', native', tokens' := RecordAll(w, self, txs.value, deposits, native, tokens);
      }
    }

    /** The batches of one window: 20 blocks at a time, each block fetched and folded once. */
    method ScanWindow(w: WalletId, self: nat, from: nat, to: nat, net: Network)
      returns (ok: bool, deposits: nat, native: nat, tokens: seq<TokenCredit>)
      requires Agrees(net) && from <= to
      modifies this`rows, this`cache
      ensures Agrees(net) && old(rows) <= rows && (UniqueKeys(old(rows)) ==> UniqueKeys(rows))
      ensures forall n :: Fetchable(net, n) == old(Fetchable(net, n))
      ensures ok ==>
                AfterAll(Fresh(old(rows)), w, self, Txs(net.chain, from, to + 1))
                == Some(Found(rows, deposits, native, tokens))
      ensures ok <==> && AfterAll(Fresh(old(rows)), w, self, Txs(net.chain, from, to + 1)).Some?
                      && forall n :: from <= n <= to ==> old(Fetchable(net, n))
    {
      ghost var rows0 := rows;
      ok, deposits, native, tokens := true, 0, 0, [];
      var start := from;
      ghost var stop := to + 1;
      while start <= to
        invariant from <= start <= stop && Agrees(net) && ok
        invariant rows0 <= rows && (UniqueKeys(rows0) ==> UniqueKeys(rows))
        invariant AfterAll(Fresh(rows0), w, self, Txs(net.chain, from, start))
               == Some(Found(rows, deposits, native, tokens))
        invariant forall n :: Fetchable(net, n) == old(Fetchable(net, n))
        invariant forall n :: from <= n < start ==> old(Fetchable(net, n))
      {
        var end := Min(to, start + BATCH - 1);
        var next: nat := end + 1;
        WindowFolds(Fresh(rows0), w, self, net.chain, from, start, next, stop);
        ok, deposits, native, tokens := ScanBatch(w, self, start, next, net, deposits, native, tokens);
        if !ok { return; }
        start := next;
      }
    }

    /** processWalletDeposits for wallet w of group g. On success it has recorded and credited what
        folding the whole window says, whatever the batches and the cache, and moved the group's last
        block to the window's end. It throws exactly when a block stays unreachable or a row clashes;
        then nothing is credited and the last block stays. */
    method ProcessWalletDeposits(g: nat, w: WalletId, self: nat, last: int, current: nat, maxBlocks: nat, net: Network)
      returns (r: Option<Summary>)
      requires Agrees(net) && maxBlocks > 0
      modifies this, client
      ensures Agrees(net) && old(rows) <= rows && (UniqueKeys(old(rows)) ==> UniqueKeys(rows))
      ensures r.Some? ==>
                ScanGroup(old(Now()), g, w, self, last, current, maxBlocks, net.chain)
                == Some((Now(), r.value.deposits))
      ensures r.None? ==> client.Now() == old(client.Now()) && lastSync == old(lastSync)
      ensures forall n :: Fetchable(net, n) == old(Fetchable(net, n))
      ensures r.Some? <==> && ScanGroup(old(Now()), g, w, self, last, current, maxBlocks, net.chain).Some?
                           && (0 < last < current ==>
                                 forall n :: last < n <= WindowEnd(last, current, maxBlocks) ==> old(Fetchable(net, n)))
      ensures r.Some? && !(0 < last < current) ==> r.value == IDLE
      ensures r.Some? && 0 < last < current ==>
                var end := WindowEnd(last, current, maxBlocks);
                && r.value.scannedFrom == Some(last + 1) && r.value.scannedTo == Some(end)
                && r.value.amount == AfterAll(Fresh(old(rows)), w, self, Txs(net.chain, last + 1, end + 1)).value.native
    {
      if last <= 0 {
        lastSync := lastSync[g := current];
        return Some(IDLE);
      }
      var from: nat := last + 1;
      if from > current { return Some(IDLE); }
      var to: nat := Min(current, from + maxBlocks - 1);
      var ok, deposits, native, tokens := ScanWindow(w, self, from, to, net);
      if !ok { return None; }
      if native > 0 || |tokens| > 0 { client.CreditDeposits(w, native, tokens); }
      lastSync := lastSync[g := to];
      return Some(Summary(Some(from), Some(to), deposits, native));
    }

    method PrimaryWallet(members: seq<Member>) returns (k: nat)
      requires members != []
      ensures k == Primary(members)
    {
      k := 0;
      for i := 1 to |members|
        invariant k == Primary(members[..i])
      {
        assert members[..i + 1][..i] == members[..i];
        if members[i].created < members[k].created { k := i; }
      }
      assert members[..|members|] == members;
    }

    /** The body of the loop over groups. */
    method DetectGroup(group: GroupRow, current: nat, net: Network) returns (found: Option<nat>)
      requires Agrees(net) && forall n :: Fetchable(net, n) <==> Reaches(net, n, 1)
      modifies this, client
      ensures Agrees(net) && forall n :: Fetchable(net, n) <==> Reaches(net, n, 1)
      ensures found.Some? ==> ScanOne(old(Now()), group, current, net.chain) == Some((Now(), found.value))
      ensures found.None? ==> client.Now() == old(client.Now()) && lastSync == old(lastSync) && old(rows) <= rows
      ensures found.Some? <==>
                ScanOne(old(Now()), group, current, net.chain).Some? && GroupReachable(net, group, current)
    {
      if group.members == [] { return Some(0); }
      var k := PrimaryWallet(group.members);
      assert forall n :: Fetchable(net, n) <==> Reaches(net, n, 1);
      var r := ProcessWalletDeposits(group.id, group.members[k].wallet, group.self, group.last, current,
          WINDOW_PER_RUN, net);
      found := if r.None? then None else Some(r.value.deposits);
    }

    /** detectDeposits: every group through one shared cache records, credits and moves on exactly
        as if each group fetched every block of its window afresh; and it throws exactly when one
        of those blocks stays unreachable or a row clashes, at the first group where that is so. */
    method DetectDeposits(groups: seq<GroupRow>, current: nat, net: Network) returns (found: Option<nat>)
      modifies this, client
      ensures found.Some? ==> ScanGroups(old(Now()), groups, current, net.chain) == Some((Now(), found.value))
      ensures found.None? ==> exists i :: StoppedAt(old(Now()), groups, i, current, net, Now())
      ensures found.Some? <==>
                ScanGroups(old(Now()), groups, current, net.chain).Some? && GroupsReachable(net, groups, current)
    {
      ghost var books := Now();
      cache := map[];
      var total := 0;
      for i := 0 to |groups|
        invariant Agrees(net) && forall n :: Fetchable(net, n) <==> Reaches(net, n, 1)
        invariant ScanGroups(books, groups[..i], current, net.chain) == Some((Now(), total))
        invariant GroupsReachable(net, groups[..i], current)
      {
        NextGroup(books, Now(), groups, i, total, current, net);
        ReachableStep(net, groups, i, current);
        var more := DetectGroup(groups[i], current, net);
        if more.None? {
          assert StoppedAt(books, groups, i, current, net, Now());
          return None;
        }
        total := total + more.value;
      }
      assert groups[..|groups|] == groups;
      return Some(total);
    }

    /** detectDepositsForWallet: one manual window, with a cache of its own. */
    method DetectDepositsForWallet(g: nat, w: WalletId, self: nat, current: nat, net: Network)
      returns (r: Option<Summary>, partial: bool)
      requires g in lastSync
      modifies this, client
      ensures old(rows) <= rows && g in lastSync
      ensures r.Some? <==>
                && ScanGroup(old(Now()), g, w, self, old(lastSync[g]), current, WINDOW_PER_MANUAL_SYNC, net.chain).Some?
                && WindowReachable(net, old(lastSync[g]), current, WINDOW_PER_MANUAL_SYNC)
      ensures r.Some? ==>
                && ScanGroup(old(Now()), g, w, self, old(lastSync[g]), current, WINDOW_PER_MANUAL_SYNC, net.chain)
                    == Some((Now(), r.value.deposits))
                && partial == (r.value.scannedTo.Some? && r.value.scannedTo.value < current)
                && (!(0 < old(lastSync[g]) < current) ==> r.value == IDLE)
                && (0 < old(lastSync[g]) < current ==>
                      var last := old(lastSync[g]);
                      var end := WindowEnd(last, current, WINDOW_PER_MANUAL_SYNC);
                      && r.value.scannedTo == Some(end)
                      && r.value.amount == AfterAll(Fresh(old(rows)), w, self,
                          Txs(net.chain, last + 1, end + 1)).value.native)
    {
      cache := map[];
      assert forall n :: Fetchable(net, n) <==> Reaches(net, n, 1);
      r := ProcessWalletDeposits(g, w, self, lastSync[g], current, WINDOW_PER_MANUAL_SYNC, net);
      partial := r.Some? && r.value.scannedTo.Some? && r.value.scannedTo.value < current;
    }

    /** One step of a catch-up. */
    method CatchUpStep(g: nat, current: nat, net: Network, ghost c: CatchUp, deposits: nat, amount: nat, w: WalletId,
                       self: nat)
      returns (ok: bool, deposits': nat, amount': nat, partial: bool)
      requires g in lastSync && 0 < c.last <= lastSync[g] && c.w == w && c.self == self && c.chain == net.chain
      requires CaughtUp(c, lastSync[g], rows, client.Now(), deposits, amount)
      modifies this, client
      ensures g in lastSync
      ensures ok ==>
                && lastSync[g] == StepEnd(old(lastSync[g]), current)
                && (partial <==> lastSync[g] < current)
                && CaughtUp(c, lastSync[g], rows, client.Now(), deposits', amount')
      ensures ok <==> StepSucceeds(old(rows), w, self, net, old(lastSync[g]), StepEnd(old(lastSync[g]), current))
    {
      ghost var from: nat, before, table := lastSync[g], rows, client.Now();
      var r;
      r, partial := DetectDepositsForWallet(g, w, self, current, net);
      ok, deposits', amount' := r.Some?, deposits, amount;
      if !ok { return; }
      deposits', amount' := deposits + r.value.deposits, amount + r.value.amount;
      StepCatchesUp(c, from, StepEnd(from, current), StepEnd(from, current), before, table, deposits, amount);
    }

    /** syncAllDepositsForWallet with the head fixed: at most 20 manual windows. It throws exactly
        when the combined window holds an unreachable block or a clash. Otherwise it takes exactly
        CatchUpSteps(gap) steps, ends partial exactly when the gap is over 10000 blocks, stands at
        the end of the combined window, and its totals, its rows and every balance are those that
        one scan of that combined window leaves. */
    method SyncAllDepositsForWallet(g: nat, w: WalletId, self: nat, current: nat, net: Network)
      returns (ok: bool, deposits: nat, amount: nat, partial: bool, steps: nat)
      requires g in lastSync && lastSync[g] > 0
      modifies this, client
      ensures g in lastSync
      ensures ok <==> StepSucceeds(old(rows), w, self, net, old(lastSync[g]),
                                   CatchUpEnd(old(lastSync[g]), current, MANUAL_SYNC_STEPS))
      ensures ok ==>
                var last: nat := old(lastSync[g]);
                && steps == CatchUpSteps(Max(0, current - last))
                && (partial <==> current - last > 10000)
                && lastSync[g] == CatchUpEnd(last, current, MANUAL_SYNC_STEPS)
                && CaughtUp(CatchUp(old(rows), old(client.Now()), w, self, net.chain, last),
                            lastSync[g], rows, client.Now(), deposits, amount)
    {
      ghost var c := CatchUp(rows, client.Now(), w, self, net.chain, lastSync[g]);
      ghost var end: nat := CatchUpEnd(c.last, current, MANUAL_SYNC_STEPS);
      ok, deposits, amount, partial, steps := true, 0, 0, false, 0;
      while steps < MANUAL_SYNC_STEPS
        invariant steps <= MANUAL_SYNC_STEPS && g in lastSync && ok
        invariant lastSync[g] == CatchUpEnd(c.last, current, steps)
        invariant steps > 0 ==> partial && lastSync[g] < current
        invariant StepSucceeds(c.rows, w, self, net, c.last, lastSync[g])
        invariant CaughtUp(c, lastSync[g], rows, client.Now(), deposits, amount)
      {
        ghost var from: nat := lastSync[g];
        NextCatchUpEnd(c.last, current, steps);
        StepDecides(c, net, from, StepEnd(from, current), end, rows, client.Now(), deposits, amount);
        ok, deposits, amount, partial := CatchUpStep(g, current, net, c, deposits, amount, w, self);
        if !ok { return; }
        steps := steps + 1;
        if !partial { break; }
      }
    }
  }

  /** Where a catch-up of wallet w started: the table, the balances, and the last block scanned. */
  datatype CatchUp = CatchUp(rows: seq<Row>, tables: Tables, w: WalletId, self: nat, chain: nat -> seq<ChainTx>,
      last: nat)

  /** Where one manual window, and a number of them in a row, end. */
  ghost function StepEnd(from: nat, current: nat): nat {
    Max(from, WindowEnd(from, current, WINDOW_PER_MANUAL_SYNC))
  }

  ghost function CatchUpEnd(last: nat, current: nat, steps: nat): nat {
    Max(last, WindowEnd(last, current, steps * WINDOW_PER_MANUAL_SYNC))
  }

  /** The blocks after last up to upto can be fetched, and no row of theirs clashes. */
  ghost predicate StepSucceeds(rows: seq<Row>, w: WalletId, self: nat, net: Network, last: nat, upto: nat)
    requires last <= upto
  {
    && Scanned(rows, w, self, net.chain, last, upto).Some?
    && forall n :: last < n <= upto ==> Reaches(net, n, 1)
  }

  /** What scanning the blocks after last up to upto finds. */
  ghost function Scanned(rows: seq<Row>, w: WalletId, self: nat, chain: nat -> seq<ChainTx>, last: nat,
                         upto: nat): Option<Found>
    requires last <= upto
  {
    AfterAll(Fresh(rows), w, self, Txs(chain, last + 1, upto + 1))
  }

  lemma ScannedComposes(rows: seq<Row>, w: WalletId, self: nat, chain: nat -> seq<ChainTx>, last: nat, from: nat,
                        to: nat)
    requires last <= from <= to && Scanned(rows, w, self, chain, last, from).Some?
    ensures var first := Scanned(rows, w, self, chain, last, from).value;
            var second, both := Scanned(first.rows, w, self, chain, from, to), Scanned(rows, w, self, chain, last, to);
            && (second.Some? <==> both.Some?)
            && (both.Some? ==> both.value == Found(second.value.rows, first.deposits + second.value.deposits,
                                                   first.native + second.value.native,
                                                   first.tokens + second.value.tokens))
  {
    AdjacentScansCompose(rows, w, self, chain, last + 1, from + 1, to + 1);
  }

  lemma ScannedStaysFailed(rows: seq<Row>, w: WalletId, self: nat, chain: nat -> seq<ChainTx>, last: nat, to: nat,
                           upto: nat)
    requires last <= to <= upto && Scanned(rows, w, self, chain, last, to).None?
    ensures Scanned(rows, w, self, chain, last, upto).None?
  {
    TxsSplit(chain, last + 1, to + 1, upto + 1);
    AfterConcat(Fresh(rows), w, self, Txs(chain, last + 1, to + 1), Txs(chain, to + 1, upto + 1));
  }

  /** The rows, totals and balances are those of one scan of the blocks after the start up to upto. */
  ghost predicate CaughtUp(c: CatchUp, upto: nat, rows: seq<Row>, tables: Tables, deposits: nat, amount: nat)
    requires c.last <= upto
  {
    var whole := Scanned(c.rows, c.w, c.self, c.chain, c.last, upto);
    && whole.Some? && whole.value.rows == rows && whole.value.deposits == deposits && whole.value.native == amount
    && SameBalances(tables, Credit(c.tables, c.w, whole.value.native, whole.value.tokens))
  }

  ghost predicate SameBalances(s: Tables, t: Tables) {
    s.log == t.log && forall x: WalletId, a: Asset :: Bal(s, x, a) == Bal(t, x, a)
  }

  /** A step from a caught-up state catches up further, or the whole catch-up cannot succeed. */
  lemma StepCatchesUp(c: CatchUp, from: nat, to: nat, upto: nat, rows: seq<Row>, tables: Tables, deposits: nat,
                      amount: nat)
    requires c.last <= from <= to <= upto && CaughtUp(c, from, rows, tables, deposits, amount)
    ensures var f := Scanned(rows, c.w, c.self, c.chain, from, to);
            && (f.Some? ==> CaughtUp(c, to, f.value.rows, Credit(tables, c.w, f.value.native, f.value.tokens),
                                     deposits + f.value.deposits, amount + f.value.native))
            && (f.None? ==> Scanned(c.rows, c.w, c.self, c.chain, c.last, upto).None?)
    ensures from == to ==> Credit(tables, c.w, 0, []) == tables
  {
    ScannedComposes(c.rows, c.w, c.self, c.chain, c.last, from, to);
    var first, f := Scanned(c.rows, c.w, c.self, c.chain, c.last, from).value,
        Scanned(rows, c.w, c.self, c.chain, from, to);
    if f.None? {
      ScannedStaysFailed(c.rows, c.w, c.self, c.chain, c.last, to, upto);
    } else {
      CreditsCompose(c.tables, tables, c.w, first, f.value);
    }
  }

  lemma NextCatchUpEnd(last: nat, current: nat, steps: nat)
    requires steps < MANUAL_SYNC_STEPS
    ensures StepEnd(CatchUpEnd(last, current, steps), current) == CatchUpEnd(last, current, steps + 1)
    ensures CatchUpEnd(last, current, steps + 1) <= CatchUpEnd(last, current, MANUAL_SYNC_STEPS)
  {
  }

  /** So a catch-up that got here goes on exactly when its next step succeeds. */
  lemma StepDecides(c: CatchUp, net: Network, from: nat, to: nat, upto: nat, rows: seq<Row>, tables: Tables,
                    deposits: nat, amount: nat)
    requires c.last <= from <= to <= upto && CaughtUp(c, from, rows, tables, deposits, amount) && c.chain == net.chain
    requires StepSucceeds(c.rows, c.w, c.self, net, c.last, from)
    ensures StepSucceeds(rows, c.w, c.self, net, from, to) ==> StepSucceeds(c.rows, c.w, c.self, net, c.last, to)
    ensures !StepSucceeds(rows, c.w, c.self, net, from, to) ==> !StepSucceeds(c.rows, c.w, c.self, net, c.last, upto)
  {
    StepCatchesUp(c, from, to, upto, rows, tables, deposits, amount);
  }

  lemma {:induction false} CreditTokensAdds(t: Tables, w: WalletId, credits: seq<TokenCredit>, x: WalletId, a: Asset)
    ensures Bal(CreditTokens(t, w, credits), x, a) == Bal(t, x, a) + if x == w then Sum(credits, CreditIn(a)) else 0
    decreases |credits|
  {
    if credits != [] { CreditTokensAdds(t, w, credits[..|credits| - 1], x, a); }
  }

  /** A credit raises its wallet's ether row by the ether and each token row by that token's sum. */
  lemma CreditAdds(t: Tables, w: WalletId, native: nat, credits: seq<TokenCredit>, x: WalletId, a: Asset)
    ensures Bal(Credit(t, w, native, credits), x, a) == Bal(t, x, a) +
            (if x != w then 0 else (if a.Native? then native else 0) + Sum(credits, CreditIn(a)))
  {
    CreditTokensAdds(if native > 0 then SetBal(t, w, Native, Bal(t, w, Native) + native) else t, w, credits, x, a);
  }

  /** Crediting two scans one after the other is crediting what they found together. */
  lemma CreditsCompose(t0: Tables, t1: Tables, w: WalletId, f: Found, g: Found)
    requires SameBalances(t1, Credit(t0, w, f.native, f.tokens))
    ensures SameBalances(Credit(t1, w, g.native, g.tokens), Credit(t0, w, f.native + g.native, f.tokens + g.tokens))
  {
    forall x: WalletId, a: Asset
      ensures Bal(Credit(t1, w, g.native, g.tokens), x, a)
          == Bal(Credit(t0, w, f.native + g.native, f.tokens + g.tokens), x, a)
    {
      CreditAdds(t0, w, f.native, f.tokens, x, a);
      CreditAdds(t1, w, g.native, g.tokens, x, a);
      CreditAdds(t0, w, f.native + g.native, f.tokens + g.tokens, x, a);
      SumConcat(f.tokens, g.tokens, CreditIn(a));
    }
  }

  /** Folding a window batch by batch; a batch that throws makes the window throw. */
  lemma WindowFolds(f: Found, w: WalletId, self: nat, chain: nat -> seq<ChainTx>, from: nat, start: nat, next: nat,
                    upto: nat)
    requires from <= start <= next <= upto && AfterAll(f, w, self, Txs(chain, from, start)).Some?
    ensures AfterAll(f, w, self, Txs(chain, from, next))
         == AfterAll(AfterAll(f, w, self, Txs(chain, from, start)).value, w, self, Txs(chain, start, next))
    ensures AfterAll(f, w, self, Txs(chain, from, next)).None? ==> AfterAll(f, w, self, Txs(chain, from, upto)).None?
  {
    TxsSplit(chain, from, start, next);
    AfterConcat(f, w, self, Txs(chain, from, start), Txs(chain, start, next));
    TxsSplit(chain, from, next, upto);
    AfterConcat(f, w, self, Txs(chain, from, next), Txs(chain, next, upto));
  }
}
