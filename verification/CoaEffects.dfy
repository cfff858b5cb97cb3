// What upserts and approvals leave in the source-account and mapping tables, row by row.
module CoaEffects {
  import opened Wrappers
  import opened Seqs
  import opened Sums
  import opened Tables
  import opened Text
  import opened Coa
  import Journal

  // ---- Insert or update by key ----

  function SameKey<T, K(==)>(key: T -> K, k: K): T -> bool {
    x => key(x) == k
  }

  function Put<T, K(==)>(s: seq<T>, x: T, key: T -> K): seq<T> {
    match FindFirst(s, SameKey(key, key(x)))
    case None => s + [x]
    case Some(i) => s[i := x]
  }

  function PutAll<T, K(==)>(s: seq<T>, xs: seq<T>, key: T -> K): seq<T> {
    if |xs| == 0 then s else Put(PutAll(s, xs[..|xs| - 1], key), xs[|xs| - 1], key)
  }

  predicate IsLast<T, K(==)>(xs: seq<T>, key: T -> K, k: int) {
    0 <= k < |xs| && forall j | k < j < |xs| :: key(xs[j]) != key(xs[k])
  }

  predicate KeyIn<T(==), K(==)>(xs: seq<T>, key: T -> K, k: K) {
    exists x | x in xs :: key(x) == k
  }

  /** The last row of every key is stored, rows of other keys stay where they are, and new rows are among those put. */
  ghost predicate AllPut<T, K>(s: seq<T>, xs: seq<T>, key: T -> K, after: seq<T>) {
    && |s| <= |after|
    && (forall k | IsLast(xs, key, k) :: xs[k] in after)
    && (forall i | 0 <= i < |s| && !KeyIn(xs, key, key(s[i])) :: after[i] == s[i])
    && (forall i | |s| <= i < |after| :: after[i] in xs)
  }

  lemma PutOne<T, K>(s: seq<T>, x: T, key: T -> K)
    ensures var after := Put(s, x, key);
      && x in after && |s| <= |after| <= |s| + 1
      && (forall y | y in s && key(y) != key(x) :: y in after)
      && (forall i | 0 <= i < |s| && key(s[i]) != key(x) :: after[i] == s[i])
      && (forall i | 0 <= i < |after| :: after[i] == x || (i < |s| && after[i] == s[i]))
  {
    var p := SameKey(key, key(x));
    var at := FindFirst(s, p);
    var after := Put(s, x, key);
    if at.Some? {
      assert p(s[at.value]) && after[at.value] == x;
      forall y | y in s && key(y) != key(x) ensures y in after {
        var i :| 0 <= i < |s| && s[i] == y;
        assert after[i] == y;
      }
    } else {
      assert after[|s|] == x;
      assert forall y | y in s :: y in after;
    }
  }

  lemma {:induction false} PutAllIs<T, K>(s: seq<T>, xs: seq<T>, key: T -> K)
    ensures AllPut(s, xs, key, PutAll(s, xs, key))
  {
    if |xs| == 0 {
    } else {
      var front, last := xs[..|xs| - 1], xs[|xs| - 1];
      PutAllIs(s, front, key);
      var prev, after := PutAll(s, front, key), PutAll(s, xs, key);
      PutOne(prev, last, key);
      LastStored(s, xs, key, prev, after);
      assert forall x | x in front :: x in xs;
      forall i | 0 <= i < |s| && !KeyIn(xs, key, key(s[i])) ensures after[i] == s[i] {
        assert last in xs && !KeyIn(front, key, key(s[i]));
      }
    }
  }

  lemma LastStored<T, K>(s: seq<T>, xs: seq<T>, key: T -> K, prev: seq<T>, after: seq<T>)
    requires |xs| > 0 && after == Put(prev, xs[|xs| - 1], key)
    requires forall k | IsLast(xs[..|xs| - 1], key, k) :: xs[k] in prev
    ensures forall k | IsLast(xs, key, k) :: xs[k] in after
  {
    var n := |xs| - 1;
    PutOne(prev, xs[n], key);
    forall k | IsLast(xs, key, k) ensures xs[k] in after {
      if k < n {
        assert key(xs[n]) != key(xs[k]);
        assert IsLast(xs[..n], key, k);
      }
    }
  }

  lemma {:induction false} FindSame<T>(s: seq<T>, p: T -> bool, q: T -> bool)
    requires forall x | x in s :: p(x) == q(x)
    ensures FindFirst(s, p) == FindFirst(s, q)
  {
    if |s| == 0 {
    } else {
      FindSame(s[..|s| - 1], p, q);
    }
  }

  // ---- upsert_source_accounts ----

  const SOURCE_KEY: SourceAccount -> (Scope, SourceSystem, string) := (s: SourceAccount) => (s.scope, s.system, s.code)

  /** The row that an item asks for: active, with stripped code and name. */
  function SourceRow(scope: Scope, x: SourceIn): SourceAccount {
    SourceAccount(scope, x.system, Strip(x.code), Strip(x.name), x.kind, true)
  }

  function SourceRows(scope: Scope, items: seq<SourceIn>): (r: seq<SourceAccount>)
    ensures |r| == |items| && forall k :: 0 <= k < |r| ==> r[k] == SourceRow(scope, items[k])
  {
    seq(|items|, k requires 0 <= k < |items| => SourceRow(scope, items[k]))
  }

  lemma UpsertIsPut(sources: seq<SourceAccount>, scope: Scope, x: SourceIn)
    ensures UpsertSource(sources, scope, x) == Put(sources, SourceRow(scope, x), SOURCE_KEY)
  {
    var row := SourceRow(scope, x);
    var p, q := IsSource(scope, (x.system, row.code)), SameKey(SOURCE_KEY, SOURCE_KEY(row));
    assert forall s | s in sources :: p(s) == q(s);
    FindSame(sources, p, q);
    var at := FindFirst(sources, p);
    if at.Some? { assert p(sources[at.value]); }
  }

  lemma {:induction false} UpsertAllIsPutAll(sources: seq<SourceAccount>, scope: Scope, items: seq<SourceIn>)
    ensures UpsertAll(sources, scope, items) == PutAll(sources, SourceRows(scope, items), SOURCE_KEY)
  {
    if |items| == 0 {
    } else {
      UpsertAllIsPutAll(sources, scope, items[..|items| - 1]);
      assert SourceRows(scope, items)[..|items| - 1] == SourceRows(scope, items[..|items| - 1]);
      UpsertIsPut(UpsertAll(sources, scope, items[..|items| - 1]), scope, items[|items| - 1]);
    }
  }

  /** An accepted request leaves, for the last item of every system and code, its row with the stripped code and name,
      active; every other row stays as it was. A refused one has a blank code or name and changes nothing. */
  lemma UpsertSourcesStores(db: Db, scope: Scope, items: seq<SourceIn>)
    ensures var (after, error) := UpsertSources(db, scope, items);
      && (error.Some? <==> exists x | x in items :: Strip(x.code) == "" || Strip(x.name) == "")
      && (error.Some? ==> after == db)
      && (error.None? ==> AllPut(db.sources, SourceRows(scope, items), SOURCE_KEY, after.sources)
                          && after == db.(sources := after.sources))
  {
    UpsertAllIsPutAll(db.sources, scope, items);
    PutAllIs(db.sources, SourceRows(scope, items), SOURCE_KEY);
    var bad := FindFirst(items, BLANK_SOURCE);
    if bad.Some? { assert BLANK_SOURCE(items[bad.value]) && items[bad.value] in items; }
    if x :| x in items && (Strip(x.code) == "" || Strip(x.name) == "") { assert BLANK_SOURCE(x); }
  }

  /** A refused request names the first item with a blank code or name, and a blank code before a blank name. */
  lemma UpsertSourcesRefuses(db: Db, scope: Scope, items: seq<SourceIn>, i: nat)
    requires i < |items| && (Strip(items[i].code) == "" || Strip(items[i].name) == "")
    requires forall j | 0 <= j < i :: Strip(items[j].code) != "" && Strip(items[j].name) != ""
    ensures UpsertSources(db, scope, items)
         == (db, Some(if Strip(items[i].code) == "" then BlankCode else BlankName))
  {
    var bad := FindFirst(items, BLANK_SOURCE);
    assert BLANK_SOURCE(items[i]);
    assert BLANK_SOURCE(items[bad.value]);
    assert forall j | 0 <= j < i :: !BLANK_SOURCE(items[j]);
  }

  // ---- upsert_coa_mappings ----

  const MAPPING_KEY: Mapping -> (Scope, int) := (m: Mapping) => (m.scope, m.sourceId)

  function Keys(items: seq<MappingIn>): (r: seq<SourceKey>)
    ensures |r| == |items| && forall k :: 0 <= k < |r| ==> r[k] == KeyOf(items[k])
  {
    seq(|items|, k requires 0 <= k < |items| => KeyOf(items[k]))
  }

  predicate LastKey<K(==)>(keys: seq<K>, k: int) {
    0 <= k < |keys| && forall j | k < j < |keys| :: keys[j] != keys[k]
  }

  /** Item k is the last one for its system and code. */
  predicate LastMapping(items: seq<MappingIn>, k: int) {
    LastKey(Keys(items), k)
  }

  /** The dictionary of pairs: first occurrences fix the order, last occurrences the values. */
  function Dict<K(==), V>(keys: seq<K>, values: seq<V>): (seq<K>, map<K, V>)
    requires |keys| == |values|
  {
    if |keys| == 0 then ([], map[])
    else
      var (ks, m) := Dict(keys[..|keys| - 1], values[..|keys| - 1]);
      var k := keys[|keys| - 1];
      (if k in m then ks else ks + [k], m[k := values[|keys| - 1]])
  }

  lemma {:induction false} DictKeys<K, V>(keys: seq<K>, values: seq<V>)
    requires |keys| == |values|
    ensures NoDup(Dict(keys, values).0) && forall k :: k in Dict(keys, values).0 <==> k in Dict(keys, values).1
    ensures forall k :: k in Dict(keys, values).1 <==> k in keys
  {
    if |keys| == 0 {
    } else {
      var n := |keys| - 1;
      DictKeys(keys[..n], values[..n]);
      assert keys == keys[..n] + [keys[n]];
      assert forall k :: k in keys <==> k in keys[..n] || k == keys[n];
    }
  }

  lemma {:induction false} DictValues<K, V>(keys: seq<K>, values: seq<V>)
    requires |keys| == |values|
    ensures forall i | LastKey(keys, i) :: keys[i] in Dict(keys, values).1 && Dict(keys, values).1[keys[i]] == values[i]
  {
    if |keys| == 0 {
    } else {
      DictValues(keys[..|keys| - 1], values[..|keys| - 1]);
      LastWins(keys, values);
    }
  }

  lemma LastWins<K, V>(keys: seq<K>, values: seq<V>)
    requires |keys| == |values| > 0
    requires var (n, m) := (|keys| - 1, Dict(keys[..|keys| - 1], values[..|keys| - 1]).1);
      forall i | LastKey(keys[..n], i) :: keys[i] in m && m[keys[i]] == values[i]
    ensures var m := Dict(keys, values).1;
      forall i | LastKey(keys, i) :: keys[i] in m && m[keys[i]] == values[i]
  {
    LastWinsIn(keys, values, Dict(keys[..|keys| - 1], values[..|keys| - 1]).1);
  }

  lemma LastWinsIn<K, V>(keys: seq<K>, values: seq<V>, m: map<K, V>)
    requires |keys| == |values| > 0
    requires forall i | LastKey(keys[..|keys| - 1], i) :: keys[i] in m && m[keys[i]] == values[i]
    ensures var after := m[keys[|keys| - 1] := values[|keys| - 1]];
      forall i | LastKey(keys, i) :: keys[i] in after && after[keys[i]] == values[i]
  {
    var n := |keys| - 1;
    var after := m[keys[n] := values[n]];
    forall i | LastKey(keys, i) ensures keys[i] in after && after[keys[i]] == values[i] {
      if i < n {
        assert keys[n] != keys[i];
        assert LastKey(keys[..n], i);
      }
    }
  }

  lemma {:induction false} KeyedIsDict(items: seq<MappingIn>)
    ensures Keyed(items) == Dict(Keys(items), items)
  {
    if |items| == 0 {
    } else {
      KeyedIsDict(items[..|items| - 1]);
      assert Keys(items)[..|items| - 1] == Keys(items[..|items| - 1]);
    }
  }

  /** What the request dictionary holds. */
  lemma KeyedIs(items: seq<MappingIn>)
    ensures NoDup(Keyed(items).0) && forall k :: k in Keyed(items).0 <==> k in Keys(items)
    ensures forall k | LastMapping(items, k) ::
              Keys(items)[k] in Keyed(items).1 && Keyed(items).1[Keys(items)[k]] == items[k]
  {
    KeyedIsDict(items);
    DictKeys(Keys(items), items);
    DictValues(Keys(items), items);
  }

  /** The mapping row that an item asks for on source account i. */
  function MappingRow(scope: Scope, i: int, x: MappingIn, author: string): Mapping {
    Mapping(scope, i, x.canonicalId, x.status, x.notes, author)
  }

  /** The rows a request asks for, key by key. */
  function MappingRows(db: Db, scope: Scope, keys: seq<SourceKey>, byKey: map<SourceKey, MappingIn>, author: string)
    : (r: seq<Mapping>)
    requires forall k | k in keys :: k in byKey && SourceId(db.sources, scope, k).Some?
    ensures |r| == |keys|
    ensures forall n :: 0 <= n < |r| ==>
              keys[n] in keys && r[n] == MappingRow(scope, SourceId(db.sources, scope, keys[n]).value, byKey[keys[n]],
                  author)
  {
    seq(|keys|, n requires 0 <= n < |keys| =>
      assert keys[n] in keys; MappingRow(scope, SourceId(db.sources, scope, keys[n]).value, byKey[keys[n]], author))
  }

  lemma ApplyIsPut(mappings: seq<Mapping>, scope: Scope, i: int, x: MappingIn, author: string)
    ensures ApplyMapping(mappings, scope, i, x, author) == Put(mappings, MappingRow(scope, i, x, author), MAPPING_KEY)
  {
    var row := MappingRow(scope, i, x, author);
    FindSame(mappings, IsMappingOf(scope, i), SameKey(MAPPING_KEY, MAPPING_KEY(row)));
  }

  lemma {:induction false} ApplyAllIsPutAll(db: Db, scope: Scope, keys: seq<SourceKey>,
      byKey: map<SourceKey, MappingIn>, author: string)
    requires forall k | k in keys :: k in byKey && SourceId(db.sources, scope, k).Some?
    ensures ApplyMappings(db, scope, keys, byKey, author)
         == PutAll(db.mappings, MappingRows(db, scope, keys, byKey, author), MAPPING_KEY)
  {
    if |keys| == 0 {
    } else {
      var n := |keys| - 1;
      ApplyAllIsPutAll(db, scope, keys[..n], byKey, author);
      RowsOfPrefix(db, scope, keys, byKey, author);
      ApplyIsPut(ApplyMappings(db, scope, keys[..n], byKey, author), scope,
        SourceId(db.sources, scope, keys[n]).value, byKey[keys[n]], author);
    }
  }

  lemma RowsOfPrefix(db: Db, scope: Scope, keys: seq<SourceKey>, byKey: map<SourceKey, MappingIn>, author: string)
    requires |keys| > 0 && forall k | k in keys :: k in byKey && SourceId(db.sources, scope, k).Some?
    ensures var (n, rows) := (|keys| - 1, MappingRows(db, scope, keys, byKey, author));
      && rows[..n] == MappingRows(db, scope, keys[..n], byKey, author)
      && rows[n] == MappingRow(scope, SourceId(db.sources, scope, keys[n]).value, byKey[keys[n]], author)
  {
    var n := |keys| - 1;
    assert forall k | 0 <= k < n :: keys[..n][k] == keys[k];
  }

  lemma SourceIdIs(db: Db, scope: Scope, key: SourceKey)
    requires SourceId(db.sources, scope, key).Some?
    ensures var i := SourceId(db.sources, scope, key).value;
      db.sources[i].scope == scope && (db.sources[i].system, db.sources[i].code) == key
  {
    assert IsSource(scope, key)(db.sources[SourceId(db.sources, scope, key).value]);
  }

  /** Different keys have different source accounts, so every row asked for is the last of its own. */
  lemma EachIsLast(db: Db, scope: Scope, keys: seq<SourceKey>, byKey: map<SourceKey, MappingIn>, author: string)
    requires NoDup(keys) && forall k | k in keys :: k in byKey && SourceId(db.sources, scope, k).Some?
    ensures forall n | 0 <= n < |keys| :: IsLast(MappingRows(db, scope, keys, byKey, author), MAPPING_KEY, n)
  {
    var rows := MappingRows(db, scope, keys, byKey, author);
    forall n, j | 0 <= n < j < |keys| ensures MAPPING_KEY(rows[j]) != MAPPING_KEY(rows[n]) {
      SourceIdIs(db, scope, keys[n]);
      SourceIdIs(db, scope, keys[j]);
    }
  }

  /** The mapping belongs to a source account of the scope that the request names. */
  predicate IsNamed(db: Db, scope: Scope, items: seq<MappingIn>, m: Mapping) {
    && m.scope == scope && 0 <= m.sourceId < |db.sources| && db.sources[m.sourceId].scope == scope
    && (db.sources[m.sourceId].system, db.sources[m.sourceId].code) in Keys(items)
  }

  /** An accepted request leaves, for the last item of every system and code, the mapping of that source account with
      the item's account, status and notes, in the author's name. */
  lemma UpsertMappingsStores(db: Db, scope: Scope, items: seq<MappingIn>, author: string, k: nat, i: nat)
    requires SourcesOk(db.sources) && UpsertMappings(db, scope, items, author).1.None?
    requires LastMapping(items, k) && i < |db.sources| && db.sources[i].scope == scope
    requires db.sources[i].system == items[k].system && db.sources[i].code == Strip(items[k].code)
    ensures Mapping(scope, i, items[k].canonicalId, items[k].status, items[k].notes, author)
            in UpsertMappings(db, scope, items, author).0.mappings
  {
    var (keys, byKey) := Keyed(items);
    var key := Keys(items)[k];
    KeyedIs(items);
    KeysResolved(db.sources, scope, keys, byKey);
    ApplyAllIsPutAll(db, scope, keys, byKey, author);
    PutAllIs(db.mappings, MappingRows(db, scope, keys, byKey, author), MAPPING_KEY);
    RowFor(db, scope, keys, byKey, author, key, i);
  }

  /** Mappings of source accounts that the request does not name stay as they were, nothing but mappings changes, and
      new rows are of accounts it names. */
  lemma UpsertMappingsSpares(db: Db, scope: Scope, items: seq<MappingIn>, author: string)
    requires UpsertMappings(db, scope, items, author).1.None?
    ensures var after := UpsertMappings(db, scope, items, author).0;
      && after == db.(mappings := after.mappings) && |db.mappings| <= |after.mappings|
      && (forall m | 0 <= m < |db.mappings| && !IsNamed(db, scope, items, db.mappings[m]) ::
           after.mappings[m] == db.mappings[m])
      && (forall m | |db.mappings| <= m < |after.mappings| :: IsNamed(db, scope, items, after.mappings[m]))
  {
    var (keys, byKey) := Keyed(items);
    KeyedIs(items);
    KeysResolved(db.sources, scope, keys, byKey);
    ApplySpares(db, scope, keys, byKey, author, items);
  }

  lemma ApplySpares(db: Db, scope: Scope, keys: seq<SourceKey>, byKey: map<SourceKey, MappingIn>, author: string,
      items: seq<MappingIn>)
    requires forall k | k in keys :: k in byKey && SourceId(db.sources, scope, k).Some? && k in Keys(items)
    ensures var after := ApplyMappings(db, scope, keys, byKey, author);
      && |db.mappings| <= |after|
      && (forall m | 0 <= m < |db.mappings| && !IsNamed(db, scope, items, db.mappings[m]) ::
           after[m] == db.mappings[m])
      && (forall m | |db.mappings| <= m < |after| :: IsNamed(db, scope, items, after[m]))
  {
    var rows := MappingRows(db, scope, keys, byKey, author);
    ApplyAllIsPutAll(db, scope, keys, byKey, author);
    PutAllIs(db.mappings, rows, MAPPING_KEY);
    forall m | m in rows ensures IsNamed(db, scope, items, m) {
      RowNamed(db, scope, keys, byKey, author, items, m);
    }
    SparedKeys(db, scope, items, rows);
  }

  lemma SparedKeys(db: Db, scope: Scope, items: seq<MappingIn>, rows: seq<Mapping>)
    requires forall m | m in rows :: IsNamed(db, scope, items, m)
    ensures forall m: Mapping | KeyIn(rows, MAPPING_KEY, MAPPING_KEY(m)) :: IsNamed(db, scope, items, m)
  {
  }

  lemma RowFor(db: Db, scope: Scope, keys: seq<SourceKey>, byKey: map<SourceKey, MappingIn>, author: string,
      key: SourceKey, i: int)
    requires SourcesOk(db.sources) && NoDup(keys) && key in keys
    requires forall k | k in keys :: k in byKey && SourceId(db.sources, scope, k).Some?
    requires 0 <= i < |db.sources| && db.sources[i].scope == scope
    requires (db.sources[i].system, db.sources[i].code) == key
    ensures var rows := MappingRows(db, scope, keys, byKey, author);
      exists n :: IsLast(rows, MAPPING_KEY, n) && rows[n] == MappingRow(scope, i, byKey[key], author)
  {
    var n :| 0 <= n < |keys| && keys[n] == key;
    SourceIdIs(db, scope, key);
    EachIsLast(db, scope, keys, byKey, author);
    assert IsLast(MappingRows(db, scope, keys, byKey, author), MAPPING_KEY, n);
  }

  lemma RowNamed(db: Db, scope: Scope, keys: seq<SourceKey>, byKey: map<SourceKey, MappingIn>, author: string,
      items: seq<MappingIn>, m: Mapping)
    requires forall k | k in keys :: k in byKey && SourceId(db.sources, scope, k).Some? && k in Keys(items)
    requires m in MappingRows(db, scope, keys, byKey, author)
    ensures IsNamed(db, scope, items, m)
  {
    var n :| 0 <= n < |keys| && MappingRows(db, scope, keys, byKey, author)[n] == m;
    SourceIdIs(db, scope, keys[n]);
  }

  /** No source account of the scope carries the item's code. */
  predicate Unmatched(db: Db, scope: Scope, x: MappingIn) {
    forall s | s in db.sources :: !(s.scope == scope && s.system == x.system && s.code == Strip(x.code))
  }

  /** A request is refused for a blank code first, then for naming source accounts that do not exist, then for leading
      to accounts outside the scope, where the last item of each system and code decides; it then changes nothing. */
  lemma UpsertMappingsAnswers(db: Db, scope: Scope, items: seq<MappingIn>, author: string)
    ensures var (after, error) := UpsertMappings(db, scope, items, author);
      if exists x | x in items :: Strip(x.code) == "" then after == db && error == Some(BlankCode)
      else if exists x | x in items :: Unmatched(db, scope, x) then
        after == db && error.Some? && error.value.SourcesNotFound?
      else if exists k :: LastMapping(items, k) && !(0 <= items[k].canonicalId < |db.accounts|
                                                   && db.accounts[items[k].canonicalId].scope == scope)
      then after == db && error.Some? && error.value.AccountsNotFound?
      else error.None?
  {
    var bad := FindFirst(items, BLANK_MAPPING);
    if bad.Some? { assert BLANK_MAPPING(items[bad.value]) && items[bad.value] in items; }
    if x :| x in items && Strip(x.code) == "" { assert BLANK_MAPPING(x); }
    MissingIff(db, scope, items);
    UnknownIff(db, scope, items);
  }

  lemma UnmatchedIff(db: Db, scope: Scope, x: MappingIn)
    ensures SourceId(db.sources, scope, KeyOf(x)).None? <==> Unmatched(db, scope, x)
  {
    var f := SourceId(db.sources, scope, KeyOf(x));
    if f.Some? {
      SourceIdIs(db, scope, KeyOf(x));
      assert db.sources[f.value] in db.sources;
    }
    if s :| s in db.sources && s.scope == scope && s.system == x.system && s.code == Strip(x.code) {
      assert IsSource(scope, KeyOf(x))(s);
    }
  }

  lemma MissingIff(db: Db, scope: Scope, items: seq<MappingIn>)
    ensures MissingKeys(db.sources, scope, Keyed(items).1) != {} <==> exists x | x in items :: Unmatched(db, scope, x)
  {
    KeyedIs(items);
    var missing := MissingKeys(db.sources, scope, Keyed(items).1);
    if x :| x in items && Unmatched(db, scope, x) {
      UnmatchedIff(db, scope, x);
      var n :| 0 <= n < |items| && items[n] == x;
      assert Keys(items)[n] in missing;
    }
    if k :| k in missing {
      var n :| 0 <= n < |items| && Keys(items)[n] == k;
      UnmatchedIff(db, scope, items[n]);
    }
  }

  lemma UnknownIff(db: Db, scope: Scope, items: seq<MappingIn>)
    ensures Journal.MissingAccounts(db.accounts, scope, Canonicals(Keyed(items).1)) != {} <==>
              exists k :: LastMapping(items, k) && !(0 <= items[k].canonicalId < |db.accounts|
                                                   && db.accounts[items[k].canonicalId].scope == scope)
  {
    KeyedIs(items);
    var byKey := Keyed(items).1;
    var missing := Journal.MissingAccounts(db.accounts, scope, Canonicals(byKey));
    if k :| LastMapping(items, k) && !(0 <= items[k].canonicalId < |db.accounts|
                                     && db.accounts[items[k].canonicalId].scope == scope) {
      assert Keys(items)[k] in byKey && byKey[Keys(items)[k]] == items[k];
      assert items[k].canonicalId in Canonicals(byKey);
      assert items[k].canonicalId in missing;
    }
    if id :| id in missing {
      var key :| key in byKey && byKey[key].canonicalId == id;
      var k := LastOf(items, key, |items|);
      assert byKey[key] == items[k];
    }
  }

  /** Every requested key has a last item. */
  lemma {:induction false} LastOf(items: seq<MappingIn>, key: SourceKey, n: nat) returns (k: nat)
    requires n <= |items| && key in Keys(items)[..n] && key !in Keys(items)[n..]
    ensures LastMapping(items, k) && Keys(items)[k] == key
  {
    if Keys(items)[n - 1] == key {
      k := n - 1;
      forall j | k < j < |items| ensures Keys(items)[j] != key {
        assert Keys(items)[n..][j - n] == Keys(items)[j];
      }
    } else {
      assert Keys(items)[..n] == Keys(items)[..n - 1] + [Keys(items)[n - 1]];
      assert Keys(items)[n - 1..] == [Keys(items)[n - 1]] + Keys(items)[n..];
      k := LastOf(items, key, n - 1);
    }
  }

  // ---- approve_coa_mappings ----

  /** Source account i is one the approval covers: active, of the system, and asked for by code unless no code was
      given. */
  predicate Covered(db: Db, scope: Scope, system: SourceSystem, codes: seq<string>, i: int) {
    && 0 <= i < |db.sources| && db.sources[i].scope == scope && db.sources[i].system == system && db.sources[i].active
    && (codes == [] || exists c | c in codes :: Strip(c) != "" && Strip(c) == db.sources[i].code)
  }

  /** Some covered source account carries the code. */
  predicate CoversCode(db: Db, scope: Scope, system: SourceSystem, codes: seq<string>, code: string) {
    exists s | 0 <= s < |db.sources| :: Covered(db, scope, system, codes, s) && db.sources[s].code == code
  }

  lemma CoveredIs(db: Db, scope: Scope, system: SourceSystem, codes: seq<string>, i: int)
    requires codes == [] || StripAll(codes) != {}
    ensures i in ApprovalScope(db, scope, system, StripAll(codes)) <==> Covered(db, scope, system, codes, i)
  {
    if codes == [] { assert StripAll(codes) == {}; }
  }

  /** An accepted approval makes exactly the covered mappings active, in the approver's name where they were not; every
      other mapping, of an account that was not asked for in particular, stays as it was. */
  lemma ApproveStores(db: Db, scope: Scope, system: SourceSystem, codes: seq<string>, author: string)
    requires Approve(db, scope, system, codes, author).1.None?
    ensures var after := Approve(db, scope, system, codes, author).0;
      && after == db.(mappings := after.mappings) && |after.mappings| == |db.mappings|
      && forall m | 0 <= m < |db.mappings| :: after.mappings[m] ==
           if db.mappings[m].scope == scope && Covered(db, scope, system, codes, db.mappings[m].sourceId)
              && db.mappings[m].status != Active
           then db.mappings[m].(status := Active, mappedBy := author) else db.mappings[m]
  {
    forall m | 0 <= m < |db.mappings|
      ensures db.mappings[m].sourceId in ApprovalScope(db, scope, system, StripAll(codes))
              <==> Covered(db, scope, system, codes, db.mappings[m].sourceId)
    {
      CoveredIs(db, scope, system, codes, db.mappings[m].sourceId);
    }
  }

  /** 1 where the mapping at the position was changed. */
  function ChangedAt(before: seq<Mapping>, after: seq<Mapping>): int -> int {
    (m: int) => if 0 <= m < |before| && m < |after| && after[m] != before[m] then 1 else 0
  }

  /** The count an approval reports is the number of mappings it has changed. */
  lemma ApprovedCount(db: Db, scope: Scope, system: SourceSystem, codes: seq<string>, author: string)
    requires Approve(db, scope, system, codes, author).1.None?
    ensures SumBy(db.mappings, NeedsApproval(scope, ApprovalScope(db, scope, system, StripAll(codes))))
         == SumBy(Range(|db.mappings|), ChangedAt(db.mappings, Approve(db, scope, system, codes, author).0.mappings))
  {
    var ids := ApprovalScope(db, scope, system, StripAll(codes));
    SumZip(db.mappings, Range(|db.mappings|), NeedsApproval(scope, ids),
      ChangedAt(db.mappings, Approve(db, scope, system, codes, author).0.mappings));
  }

  /** Approval is refused when codes were given but all blank, when it would cover no source account, when a code covers
      none, or when no covered account has a mapping; it then changes nothing. */
  lemma ApproveAnswers(db: Db, scope: Scope, system: SourceSystem, codes: seq<string>, author: string)
    ensures var (after, error) := Approve(db, scope, system, codes, author);
      && (error.Some? ==> after == db)
      && (error == Some(BlankCodeList) <==> codes != [] && forall c | c in codes :: Strip(c) == "")
      && (error == Some(NothingToApprove) <==>
           error != Some(BlankCodeList) && forall i :: !Covered(db, scope, system, codes, i))
      && (error == Some(NoMappings) ==>
           forall m | m in db.mappings && m.scope == scope :: !Covered(db, scope, system, codes, m.sourceId))
      && (error.None? ==>
           exists m | m in db.mappings :: m.scope == scope && Covered(db, scope, system, codes, m.sourceId))
  {
    var wanted := StripAll(codes);
    assert (forall c | c in codes :: Strip(c) == "") <==> wanted == {} by {
      if c :| c in codes && Strip(c) != "" { assert Strip(c) in wanted; }
    }
    if codes == [] || wanted != {} {
      forall i ensures i in ApprovalScope(db, scope, system, wanted) <==> Covered(db, scope, system, codes, i) {
        CoveredIs(db, scope, system, codes, i);
      }
    }
  }

  /** A code that covers none of them is what an approval is refused for when it is not refused before that. */
  lemma ApproveMissesIff(db: Db, scope: Scope, system: SourceSystem, codes: seq<string>, author: string)
    ensures var error := Approve(db, scope, system, codes, author).1;
      error.Some? && error.value.SourcesNotFound? <==>
        error != Some(BlankCodeList) && error != Some(NothingToApprove)
        && exists c | c in codes :: Strip(c) != "" && !CoversCode(db, scope, system, codes, Strip(c))
  {
    if codes == [] || StripAll(codes) != {} { AbsentIff(db, scope, system, codes); }
  }

  lemma AbsentIff(db: Db, scope: Scope, system: SourceSystem, codes: seq<string>)
    requires codes == [] || StripAll(codes) != {}
    ensures AbsentKeys(db.sources, system, ApprovalScope(db, scope, system, StripAll(codes)), StripAll(codes)) != {}
            <==>
              exists c | c in codes :: Strip(c) != "" && !CoversCode(db, scope, system, codes, Strip(c))
  {
    var ids, wanted := ApprovalScope(db, scope, system, StripAll(codes)), StripAll(codes);
    forall i ensures i in ids <==> Covered(db, scope, system, codes, i) {
      CoveredIs(db, scope, system, codes, i);
    }
    var absent := AbsentKeys(db.sources, system, ids, wanted);
    if c :| c in codes && Strip(c) != "" && !CoversCode(db, scope, system, codes, Strip(c)) {
      assert Strip(c) in wanted;
      assert (system, Strip(c)) in absent;
    }
    if k :| k in absent {
      assert k.1 in wanted;
      var c :| c in codes && Strip(c) == k.1;
    }
  }
}
