/**
 Names of wallet groups and wallets: how they are compared, how a free one is found, and what the
 guards keep unique. Lower case changes the letters A to Z only.
 */
module Names {
  import opened Prelude
  import opened Decimal

  /** White space and line ends as trim knows them. */
  predicate IsSpace(c: char) {
    || c == ' ' || '\t' <= c <= '\r' || c == '\U{A0}' || c == '\U{1680}' || '\U{2000}' <= c <= '\U{200A}'
    || c == '\U{2028}' || c == '\U{2029}' || c == '\U{202F}' || c == '\U{205F}' || c == '\U{3000}' || c == '\U{FEFF}'
  }

  function TrimLeft(s: string): string {
    if s != [] && IsSpace(s[0]) then TrimLeft(s[1..]) else s
  }

  function TrimRight(s: string): string {
    if s != [] && IsSpace(s[|s| - 1]) then TrimRight(s[..|s| - 1]) else s
  }

  function Trim(s: string): string {
    TrimRight(TrimLeft(s))
  }

  function LowerChar(c: char): char {
    if 'A' <= c <= 'Z' then c + ('a' - 'A') else c
  }

  function LowerCase(s: string): (l: string)
    ensures |l| == |s|
  {
    seq(|s|, i requires 0 <= i < |s| => LowerChar(s[i]))
  }

  /** Two names are the same when these agree. */
  function Normalize(name: string): string {
    LowerCase(Trim(name))
  }

  function Suffixed(base: string, n: nat): string {
    base + " " + Numeral(n)
  }

  // ---------------------------------------------------------------- how trimming and suffixes combine

  lemma {:induction false} TrimLeftAppend(s: string, t: string)
    requires t != [] && !IsSpace(t[0])
    ensures TrimLeft(s + t) == TrimLeft(s) + t
    decreases |s|
  {
    if s == [] {
      assert s + t == t;
    } else if IsSpace(s[0]) {
      TrimLeftAppend(s[1..], t);
      assert (s + t)[1..] == s[1..] + t;
    }
  }

  lemma {:induction false} TrimLeftEnds(s: string)
    ensures |TrimLeft(s)| <= |s| && TrimLeft(s) == s[|s| - |TrimLeft(s)|..]
    ensures TrimLeft(s) != [] ==> !IsSpace(TrimLeft(s)[0])
  {
    if s != [] && IsSpace(s[0]) { TrimLeftEnds(s[1..]); }
  }

  lemma {:induction false} TrimRightEnds(s: string)
    ensures TrimRight(s) <= s
    ensures TrimRight(s) != [] ==> !IsSpace(TrimRight(s)[|TrimRight(s)| - 1])
  {
    if s != [] && IsSpace(s[|s| - 1]) { TrimRightEnds(s[..|s| - 1]); }
  }

  /** Trimming leaves no white space at either end, so trimming again changes nothing. */
  lemma TrimIsIdempotent(s: string)
    ensures Trim(Trim(s)) == Trim(s)
    ensures Normalize(Trim(s)) == Normalize(s)
  {
    TrimLeftEnds(s);
    TrimRightEnds(TrimLeft(s));
    var t := Trim(s);
    assert t != [] ==> t[0] == TrimLeft(s)[0];
    assert TrimLeft(t) == t;
  }

  /** White space, by code point: section 12.2 and section 12.3 of ECMA-262. */
  predicate White(c: char) {
    var n := c as int;
    || n == 9 || n == 10 || n == 11 || n == 12 || n == 13 || n == 32 || n == 160 || n == 5760 || 8192 <= n <= 8202
    || n == 8232 || n == 8233 || n == 8239 || n == 8287 || n == 12288 || n == 65279
  }

  /** Trimming takes away exactly the white space at both ends. */
  lemma TrimTakesWhiteEnds(s: string) returns (i: nat, j: nat)
    ensures i <= j <= |s| && Trim(s) == s[i..j]
    ensures forall k :: 0 <= k < i || j <= k < |s| ==> White(s[k])
    ensures Trim(s) != [] ==> !White(Trim(s)[0]) && !White(Trim(s)[|Trim(s)| - 1])
  {
    i := LeftWhite(s);
    var t := TrimLeft(s);
    var n := RightWhite(t);
    j := i + n;
    assert t[..n] == s[i..j];
    forall k | j <= k < |s| ensures White(s[k]) { assert s[k] == t[k - i]; }
    TrimLeftEnds(s);
    TrimRightEnds(t);
    assert Trim(s) != [] ==> Trim(s)[0] == t[0];
  }

  lemma {:induction false} LeftWhite(s: string) returns (i: nat)
    ensures i <= |s| && TrimLeft(s) == s[i..] && forall k :: 0 <= k < i ==> White(s[k])
  {
    i := 0;
    if s != [] && IsSpace(s[0]) {
      var n := LeftWhite(s[1..]);
      i := n + 1;
      forall k | 0 <= k < i ensures White(s[k]) { if k > 0 { assert s[k] == s[1..][k - 1]; } }
    }
  }

  lemma {:induction false} RightWhite(s: string) returns (j: nat)
    ensures j <= |s| && TrimRight(s) == s[..j] && forall k :: j <= k < |s| ==> White(s[k])
  {
    j := |s|;
    if s != [] && IsSpace(s[|s| - 1]) {
      var init := s[..|s| - 1];
      j := RightWhite(init);
      forall k | j <= k < |s| ensures White(s[k]) { if k < |s| - 1 { assert s[k] == init[k]; } }
    }
  }

  /** The same character, or one of the letters A to Z and its small form. */
  predicate SameLetter(c: char, d: char) {
    c == d || (65 <= c as int <= 90 && d as int == c as int + 32) || (65 <= d as int <= 90 && c as int == d as int + 32)
  }

  predicate SameName(s: string, t: string) {
    |s| == |t| && forall i :: 0 <= i < |s| ==> SameLetter(s[i], t[i])
  }

  /** Two names count as the same exactly when, white space at the ends apart, they have the same
      characters up to case. */
  lemma NamesCompareWithoutCase(s: string, t: string)
    ensures Normalize(s) == Normalize(t) <==> SameName(Trim(s), Trim(t))
  {
    var a, b := Trim(s), Trim(t);
    if Normalize(s) == Normalize(t) {
      assert |a| == |LowerCase(a)| == |LowerCase(b)| == |b|;
      forall i | 0 <= i < |a| ensures SameLetter(a[i], b[i]) {
        assert LowerCase(a)[i] == LowerCase(b)[i];
      }
    }
    if SameName(a, b) {
      forall i | 0 <= i < |a| ensures LowerCase(a)[i] == LowerCase(b)[i] { assert SameLetter(a[i], b[i]); }
      assert LowerCase(a) == LowerCase(b);
    }
  }

  lemma LowerAppend(s: string, t: string)
    ensures LowerCase(s + t) == LowerCase(s) + LowerCase(t)
  {
  }

  /** A suffixed name compares by its stem and the very digits of its suffix. */
  lemma SuffixedKey(base: string, n: nat)
    ensures Normalize(Suffixed(base, n)) == LowerCase(TrimLeft(base + " ")) + Numeral(n)
  {
    var stem, digits := base + " ", Numeral(n);
    TrimLeftAppend(stem, digits);
    var whole := TrimLeft(stem) + digits;
    assert whole[|whole| - 1] == digits[|digits| - 1];
    LowerAppend(TrimLeft(stem), digits);
    assert LowerCase(digits) == digits;
  }

  /** Different suffixes make different names. */
  lemma SuffixesDiffer(base: string, m: nat, n: nat)
    requires Normalize(Suffixed(base, m)) == Normalize(Suffixed(base, n))
    ensures m == n
  {
    SuffixedKey(base, m);
    SuffixedKey(base, n);
    var stem := LowerCase(TrimLeft(base + " "));
    assert (stem + Numeral(m))[|stem|..] == Numeral(m);
    assert (stem + Numeral(n))[|stem|..] == Numeral(n);
    NumeralRoundTrip(m);
    NumeralRoundTrip(n);
  }

  /** A suffixed name is never the bare name. */
  lemma SuffixedIsNotBase(base: string, n: nat)
    requires Trim(base) == base
    ensures Normalize(Suffixed(base, n)) != Normalize(base)
  {
    SuffixedKey(base, n);
    TrimLeftEnds(base);
    TrimRightEnds(TrimLeft(base));
    if base != [] { assert (base + " ")[0] == base[0]; }
  }

  /** The keys of the bare name and of suffixes 2 to n. */
  ghost function Tried(base: string, n: nat): set<string> {
    if n <= 1 then {Normalize(base)} else Tried(base, n - 1) + {Normalize(Suffixed(base, n))}
  }

  lemma {:induction false} TriedCounts(base: string, n: nat)
    requires n >= 1 && Trim(base) == base
    ensures |Tried(base, n)| == n
    ensures forall k :: k > n ==> Normalize(Suffixed(base, k)) !in Tried(base, n)
  {
    forall k | k > n ensures Normalize(Suffixed(base, k)) !in Tried(base, n) {
      NotTried(base, n, k);
    }
    if n > 1 {
      TriedCounts(base, n - 1);
      NotTried(base, n - 1, n);
    }
  }

  lemma {:induction false} NotTried(base: string, n: nat, k: nat)
    requires 1 <= n < k && Trim(base) == base
    ensures Normalize(Suffixed(base, k)) !in Tried(base, n)
  {
    if n == 1 {
      SuffixedIsNotBase(base, k);
    } else {
      NotTried(base, n - 1, k);
      if Normalize(Suffixed(base, k)) == Normalize(Suffixed(base, n)) { SuffixesDiffer(base, k, n); }
    }
  }

  lemma {:induction false} TriedAreTaken(base: string, n: nat, taken: set<string>)
    requires Normalize(base) in taken
    requires forall k :: 2 <= k <= n ==> Normalize(Suffixed(base, k)) in taken
    ensures Tried(base, n) <= taken
  {
    if n > 1 { TriedAreTaken(base, n - 1, taken); }
  }

  lemma SubsetCounts(a: set<string>, b: set<string>)
    requires a <= b
    ensures |a| <= |b|
  {
    assert b == a + (b - a);
  }

  /** If the bare name and suffixes 2 to n are taken, at least n names are. */
  lemma TakenCounts(base: string, n: nat, taken: set<string>)
    requires n >= 1 && Trim(base) == base && Normalize(base) in taken
    requires forall k :: 2 <= k <= n ==> Normalize(Suffixed(base, k)) in taken
    ensures n <= |taken|
  {
    TriedCounts(base, n);
    TriedAreTaken(base, n, taken);
    SubsetCounts(Tried(base, n), taken);
  }

  // ---------------------------------------------------------------- the two tables

  /** A row of either table: groups belong to an owner, wallets to a group. A row written before
      keys were stored has none. */
  datatype Named = Named(scope: nat, name: string, key: Option<string>)

  /** What the group guard compares a name with. */
  function Effective(r: Named): string {
    if r.key.Some? then r.key.value else Normalize(r.name)
  }

  /** What the database's unique index keeps apart. */
  ghost predicate KeysUnique(rows: map<nat, Named>) {
    forall i, j :: i in rows && j in rows && i != j && rows[i].scope == rows[j].scope && rows[i].key.Some? ==>
      rows[i].key != rows[j].key
  }

  /** No two rows of one scope have the same name, keyed or not. */
  ghost predicate NamesUnique(rows: map<nat, Named>) {
    forall i, j :: i in rows && j in rows && i != j && rows[i].scope == rows[j].scope ==>
      Effective(rows[i]) != Effective(rows[j])
  }

  /** The names a guard looks at: those of the scope, one row left out. */
  function TakenNames(rows: map<nat, Named>, scope: nat, except: Option<nat>): set<string> {
    set i | i in rows && rows[i].scope == scope && Some(i) != except :: Effective(rows[i])
  }

  function TakenKeys(rows: map<nat, Named>, scope: nat, except: Option<nat>): set<string> {
    set i | i in rows && rows[i].scope == scope && Some(i) != except && rows[i].key.Some? :: rows[i].key.value
  }

  function Row(scope: nat, name: string): Named {
    Named(scope, name, Some(Normalize(name)))
  }

  /** Writing a row under the unique index keeps keys unique, whatever an earlier guard saw. */
  predicate Admits(rows: map<nat, Named>, id: nat, row: Named) {
    row.key.Some? ==> row.key.value !in TakenKeys(rows, row.scope, Some(id))
  }

  lemma IndexKeepsKeysUnique(rows: map<nat, Named>, id: nat, row: Named)
    requires KeysUnique(rows)
    ensures KeysUnique(rows[id := row]) <==> Admits(rows, id, row)
  {
    var after := rows[id := row];
    if Admits(rows, id, row) {
      forall i, j | i in after && j in after && i != j && after[i].scope == after[j].scope && after[i].key.Some?
        ensures after[i].key != after[j].key
      {
        if after[j].key.Some? {
          if i == id { assert after[j].key.value in TakenKeys(rows, row.scope, Some(id)); }
          if j == id { assert after[i].key.value in TakenKeys(rows, row.scope, Some(id)); }
        }
      }
    } else {
      var j :| j in rows && rows[j].scope == row.scope && Some(j) != Some(id) && rows[j].key.Some?
          && rows[j].key.value == row.key.value;
      assert after[j].key == after[id].key;
    }
  }

  /** A row written with a key keeps all names of its scope apart exactly when the group guard
      passes it; the guard on wallets, which looks at stored keys only, suffices exactly when no
      row without a key has the name. */
  lemma NamesStayUnique(rows: map<nat, Named>, id: nat, scope: nat, name: string)
    requires NamesUnique(rows)
    ensures NamesUnique(rows[id := Row(scope, name)]) <==> Normalize(name) !in TakenNames(rows, scope, Some(id))
    ensures Normalize(name) !in TakenNames(rows, scope, Some(id)) <==>
            && Normalize(name) !in TakenKeys(rows, scope, Some(id))
            && forall i :: i in rows && rows[i].scope == scope && i != id && rows[i].key.None? ==>
                Normalize(rows[i].name) != Normalize(name)
  {
    var row, after := Row(scope, name), rows[id := Row(scope, name)];
    var taken, keys := TakenNames(rows, scope, Some(id)), TakenKeys(rows, scope, Some(id));
    forall i | i in rows && rows[i].scope == scope && i != id
      ensures Effective(rows[i]) in taken && (rows[i].key.Some? ==> rows[i].key.value in keys)
    {
      assert Some(i) != Some(id);
    }
    assert Effective(after[id]) == Normalize(name);
    if Normalize(name) in taken {
      var j :| j in rows && rows[j].scope == scope && Some(j) != Some(id) && Effective(rows[j]) == Normalize(name);
      assert after[j] == rows[j];
    } else {
      forall i, j | i in after && j in after && i != j && after[i].scope == after[j].scope
        ensures Effective(after[i]) != Effective(after[j])
      {
        if i != id && j != id { assert rows[i] == after[i] && rows[j] == after[j]; }
      }
    }
  }

  /** A name the service has stored takes every name that differs from it only in case or in white space
      at its ends, for both guards. */
  lemma StoredNameIsTaken(rows: map<nat, Named>, id: nat, scope: nat, name: string, other: string, except: Option<nat>)
    requires SameName(Trim(name), Trim(other)) && Some(id) != except
    ensures Normalize(other) in TakenKeys(rows[id := Row(scope, name)], scope, except)
    ensures Normalize(other) in TakenNames(rows[id := Row(scope, name)], scope, except)
  {
    NamesCompareWithoutCase(name, other);
    var after := rows[id := Row(scope, name)];
    assert id in after && after[id].scope == scope && after[id].key.Some?;
    assert after[id].key.value == Normalize(other) && Effective(after[id]) == Normalize(other);
  }

  /** A keyed row of the scope, other than the one left out, has this name up to case. */
  ghost predicate HasName(rows: map<nat, Named>, scope: nat, except: Option<nat>, name: string) {
    exists i :: i in rows && rows[i].scope == scope && Some(i) != except
      && rows[i].key == Some(Normalize(rows[i].name)) && SameName(Trim(rows[i].name), Trim(name))
  }

  lemma HasNameIsTaken(rows: map<nat, Named>, scope: nat, except: Option<nat>, name: string)
    requires HasName(rows, scope, except, name)
    ensures Normalize(name) in TakenKeys(rows, scope, except) && Normalize(name) in TakenNames(rows, scope, except)
  {
    var i :| i in rows && rows[i].scope == scope && Some(i) != except
      && rows[i].key == Some(Normalize(rows[i].name)) && SameName(Trim(rows[i].name), Trim(name));
    NamesCompareWithoutCase(rows[i].name, name);
    assert rows[i].key.value in TakenKeys(rows, scope, except) && Effective(rows[i]) in TakenNames(rows, scope, except);
  }

  /** The guard on wallets does pass a name that a row without a key already has. */
  lemma WalletGuardMissesUnkeyed(group: nat, name: string)
    ensures var rows := map[0 := Named(group, name, None)];
            && NamesUnique(rows) && KeysUnique(rows)
            && Normalize(name) !in TakenKeys(rows, group, None) && Normalize(name) in TakenNames(rows, group, None)
            && !NamesUnique(rows[1 := Row(group, name)])
  {
    var rows := map[0 := Named(group, name, None)];
    assert 0 in rows && Some(0) != None && Effective(rows[0]) == Normalize(name);
    var after := rows[1 := Row(group, name)];
    assert 0 in after && 1 in after && Effective(after[0]) == Effective(after[1]);
  }

  /** The bare name if it is free, otherwise the least suffix that is; reached after no more
      suffixes than there are names. */
  ghost predicate FirstFree(base: string, taken: set<string>, name: string) {
    if Normalize(base) !in taken then name == base
    else
      exists n: nat :: 2 <= n <= |taken| + 1 && name == base + " " + Numeral(n) && Normalize(name) !in taken
        && forall k: nat :: 2 <= k < n ==> Normalize(base + " " + Numeral(k)) in taken
  }

  datatype NameError = NameTaken | NameRequired | NotFound

  /** Names of groups and wallets. The database fills in a new row's id. */
  class Directory {
    var groups: map<nat, Named>
    var wallets: map<nat, Named>

    /** What the schema keeps. */
    ghost predicate Valid()
      reads this
    {
      KeysUnique(groups) && KeysUnique(wallets)
    }

    /** The result is free, so the guard that follows in the same transaction passes it. */
    method GetUniqueWalletGroupName(owner: nat, baseName: string) returns (name: string)
      ensures FirstFree(Trim(baseName), TakenNames(groups, owner, None), name)
      ensures Normalize(name) !in TakenNames(groups, owner, None)
    {
      var trimmed := Trim(baseName);
      TrimIsIdempotent(baseName);
      var existing := TakenNames(groups, owner, None);
      if Normalize(trimmed) !in existing { return trimmed; }
      var suffix: nat := 2;
      TakenCounts(trimmed, 1, existing);
      while Normalize(Suffixed(trimmed, suffix)) in existing
        invariant 2 <= suffix <= |existing| + 1
        invariant forall k: nat :: 2 <= k < suffix ==> Normalize(Suffixed(trimmed, k)) in existing
        decreases |existing| + 2 - suffix
      {
        TakenCounts(trimmed, suffix, existing);
        suffix := suffix + 1;
      }
      name := Suffixed(trimmed, suffix);
      assert name == trimmed + " " + Numeral(suffix);
      assert forall k: nat :: 2 <= k < suffix ==> Normalize(trimmed + " " + Numeral(k)) in existing by {
        forall k: nat | 2 <= k < suffix ensures Normalize(trimmed + " " + Numeral(k)) in existing {
          assert Normalize(Suffixed(trimmed, k)) in existing;
        }
      }
    }

    method EnsureUniqueWalletGroupName(owner: nat, name: string, except: Option<nat>) returns (r: Result<(), NameError>)
      ensures r == if Normalize(name) in TakenNames(groups, owner, except) then Failure(NameTaken) else Success(())
    {
      var normalized := Normalize(name);
      var existing := TakenNames(groups, owner, except);
      if normalized in existing { return Failure(NameTaken); }
      r := Success(());
    }

    /** Looks at stored keys only. */
    method EnsureUniqueWalletNameInGroup(group: nat, name: string, except: Option<nat>)
        returns (r: Result<(), NameError>)
      ensures r == if Normalize(name) in TakenKeys(wallets, group, except) then Failure(NameTaken) else Success(())
    {
      var normalized := Normalize(name);
      if existing :| existing in wallets && wallets[existing].scope == group && Some(existing) != except
                     && wallets[existing].key == Some(normalized) {
        assert normalized in TakenKeys(wallets, group, except);
        return Failure(NameTaken);
      }
      r := Success(());
    }

    /** The name of a new wallet's group: after the wallet, or the first free one, which is never
        refused. A name that differs from a stored one only in case is. */
    method NameNewGroup(owner: nat, given: string) returns (r: Result<string, NameError>)
      ensures r.Failure? ==> r.error == NameTaken
      ensures r.Failure? <==> given != "" && Normalize(given + " Group") in TakenNames(groups, owner, None)
      ensures given != "" && HasName(groups, owner, None, given + " Group") ==> r.Failure?
      ensures r.Success? ==>
                && Normalize(r.value) !in TakenNames(groups, owner, None)
                && (given != "" ==> r.value == given + " Group")
                && (given == "" ==> FirstFree("Wallet Group", TakenNames(groups, owner, None), r.value))
    {
      if HasName(groups, owner, None, given + " Group") { HasNameIsTaken(groups, owner, None, given + " Group"); }
      var groupName;
      if given != "" {
        groupName := given + " Group";
      } else {
        groupName := GetUniqueWalletGroupName(owner, "Wallet Group");
      }
      var unique := EnsureUniqueWalletGroupName(owner, groupName, None);
      if unique.Failure? { return Failure(NameTaken); }
      r := Success(groupName);
    }

    /** createWallet: a named wallet gets a group named after it; an unnamed one never fails on its
        group's name. */
    method CreateWallet(owner: nat, name: Option<string>, groupId: nat, walletId: nat)
      returns (r: Result<(), NameError>)
      requires Valid() && groupId !in groups && walletId !in wallets
      requires forall i :: i in wallets ==> wallets[i].scope != groupId
      modifies this
      ensures Valid()
      ensures r.Failure? ==> groups == old(groups) && wallets == old(wallets) && r.error == NameTaken
      ensures var given := if name.Some? then Trim(name.value) else "";
              && (r.Failure? <==> given != "" && Normalize(given + " Group") in TakenNames(old(groups), owner, None))
              && (given != "" && HasName(old(groups), owner, None, given + " Group") ==> r.Failure?)
              && (r.Success? ==>
                    exists groupName: string ::
                      && groups == old(groups)[groupId := Row(owner, groupName)]
                      && (given != "" ==> groupName == given + " Group")
                      && (given == "" ==> FirstFree("Wallet Group", TakenNames(old(groups), owner, None), groupName))
                      && var walletName := if given != "" then given else "Default Wallet";
                         wallets == old(wallets)[walletId := Row(groupId, walletName)])
      ensures old(NamesUnique(groups)) ==> NamesUnique(groups)
    {
      var requested := if name.Some? then Trim(name.value) else "";
      var walletName := if requested != "" then requested else "Default Wallet";
      var groupName := NameNewGroup(owner, requested);
      if groupName.Failure? { return Failure(groupName.error); }
      assert TakenNames(groups, owner, None) == TakenNames(groups, owner, Some(groupId));
      FreeNameKeepsUnique(groups, groupId, owner, groupName.value);
      IndexKeepsKeysUnique(wallets, walletId, Row(groupId, walletName));
      groups := groups[groupId := Row(owner, groupName.value)];
      wallets := wallets[walletId := Row(groupId, walletName)];
      r := Success(());
    }

    /** createWalletRecordInGroup. */
    method CreateWalletInGroup(group: nat, name: Option<string>, walletId: nat) returns (r: Result<(), NameError>)
      requires Valid() && walletId !in wallets
      modifies this`wallets
      ensures Valid()
      ensures var given := if name.Some? then Trim(name.value) else "";
              var chosen := if given != "" then given else "Default Wallet";
              if Normalize(chosen) in TakenKeys(old(wallets), group, None)
                  then r == Failure(NameTaken) && wallets == old(wallets)
              else r == Success(()) && wallets == old(wallets)[walletId := Row(group, chosen)]
      ensures name.Some? && Trim(name.value) != "" && HasName(old(wallets), group, None, name.value) ==>
                r == Failure(NameTaken)
    {
      if name.Some? && HasName(wallets, group, None, name.value) {
        HasNameIsTaken(wallets, group, None, name.value);
        TrimIsIdempotent(name.value);
      }
      var chosen := if name.Some? && Trim(name.value) != "" then Trim(name.value) else "Default Wallet";
      var unique := EnsureUniqueWalletNameInGroup(group, chosen, None);
      if unique.Failure? { return unique; }
      assert TakenKeys(wallets, group, None) == TakenKeys(wallets, group, Some(walletId));
      IndexKeepsKeysUnique(wallets, walletId, Row(group, chosen));
      wallets := wallets[walletId := Row(group, chosen)];
      r := Success(());
    }

    /** A rename may keep its own row's name, so renaming to the current name succeeds. */
    method UpdateWalletName(walletId: nat, name: string) returns (r: Result<(), NameError>)
      requires Valid()
      modifies this`wallets
      ensures Valid()
      ensures r.Failure? ==> wallets == old(wallets)
      ensures r == if Trim(name) == "" then Failure(NameRequired)
                   else if walletId !in old(wallets) then Failure(NotFound)
                   else if Normalize(Trim(name)) in TakenKeys(old(wallets), old(wallets)[walletId].scope,
                       Some(walletId)) then Failure(NameTaken)
                   else Success(())
      ensures r.Success? ==> wallets == old(wallets)[walletId := Row(old(wallets)[walletId].scope, Trim(name))]
      ensures walletId in old(wallets) && HasName(old(wallets), old(wallets)[walletId].scope, Some(walletId), name) ==>
                r.Failure?
    {
      if walletId in wallets && HasName(wallets, wallets[walletId].scope, Some(walletId), name) {
        HasNameIsTaken(wallets, wallets[walletId].scope, Some(walletId), name);
        TrimIsIdempotent(name);
      }
      var trimmed := Trim(name);
      if trimmed == "" { return Failure(NameRequired); }
      if walletId !in wallets { return Failure(NotFound); }
      var group := wallets[walletId].scope;
      var unique := EnsureUniqueWalletNameInGroup(group, trimmed, Some(walletId));
      if unique.Failure? { return unique; }
      IndexKeepsKeysUnique(wallets, walletId, Row(group, trimmed));
      wallets := wallets[walletId := Row(group, trimmed)];
      r := Success(());
    }

    method UpdateWalletGroupName(groupId: nat, name: string) returns (r: Result<(), NameError>)
      requires Valid()
      modifies this`groups
      ensures Valid()
      ensures r.Failure? ==> groups == old(groups)
      ensures r == if Trim(name) == "" then Failure(NameRequired)
                   else if groupId !in old(groups) then Failure(NotFound)
                   else if Normalize(Trim(name)) in TakenNames(old(groups), old(groups)[groupId].scope,
                       Some(groupId)) then Failure(NameTaken)
                   else Success(())
      ensures r.Success? ==> groups == old(groups)[groupId := Row(old(groups)[groupId].scope, Trim(name))]
      ensures groupId in old(groups) && HasName(old(groups), old(groups)[groupId].scope, Some(groupId), name) ==>
                r.Failure?
      ensures old(NamesUnique(groups)) ==> NamesUnique(groups)
    {
      if groupId in groups && HasName(groups, groups[groupId].scope, Some(groupId), name) {
        HasNameIsTaken(groups, groups[groupId].scope, Some(groupId), name);
        TrimIsIdempotent(name);
      }
      var trimmed := Trim(name);
      if trimmed == "" { return Failure(NameRequired); }
      if groupId !in groups { return Failure(NotFound); }
      var owner := groups[groupId].scope;
      var unique := EnsureUniqueWalletGroupName(owner, trimmed, Some(groupId));
      if unique.Failure? { return unique; }
      FreeNameKeepsUnique(groups, groupId, owner, trimmed);
      groups := groups[groupId := Row(owner, trimmed)];
      r := Success(());
    }
  }

  /** A name the group guard passes also passes the unique index. */
  lemma FreeNameKeepsUnique(rows: map<nat, Named>, id: nat, scope: nat, name: string)
    requires KeysUnique(rows) && Normalize(name) !in TakenNames(rows, scope, Some(id))
    ensures KeysUnique(rows[id := Row(scope, name)])
    ensures NamesUnique(rows) ==> NamesUnique(rows[id := Row(scope, name)])
  {
    forall i | i in rows && rows[i].scope == scope && Some(i) != Some(id) && rows[i].key.Some?
      ensures rows[i].key.value != Normalize(name)
    {
      assert Effective(rows[i]) in TakenNames(rows, scope, Some(id));
    }
    IndexKeepsKeysUnique(rows, id, Row(scope, name));
    if NamesUnique(rows) { NamesStayUnique(rows, id, scope, name); }
  }
}
