// Chart-of-accounts mapping: source accounts, their mappings, the onboarding status, and approval.
module Coa {
  import opened Wrappers
  import opened Seqs
  import opened Tables
  import opened Text
  import Journal

  type SourceKey = (SourceSystem, string)

  datatype SourceIn = SourceIn(system: SourceSystem, code: string, name: string, kind: Option<AccountType>)
  datatype MappingIn = MappingIn(
    system: SourceSystem, code: string, canonicalId: int, status: MappingStatus, notes: Option<string>)

  datatype CoaError =
    | BlankCode | BlankName | BlankCodeList
    | SourcesNotFound(keys: set<SourceKey>) | AccountsNotFound(ids: set<int>)
    | NothingToApprove | NoMappings

  function IsSource(scope: Scope, key: SourceKey): SourceAccount -> bool {
    (s: SourceAccount) => s.scope == scope && s.system == key.0 && s.code == key.1
  }

  function IsMappingOf(scope: Scope, sourceId: int): Mapping -> bool {
    (m: Mapping) => m.scope == scope && m.sourceId == sourceId
  }

  // ---- upsert_source_accounts ----

  function UpsertSource(sources: seq<SourceAccount>, scope: Scope, item: SourceIn): seq<SourceAccount> {
    var code, name := Strip(item.code), Strip(item.name);
    match FindFirst(sources, IsSource(scope, (item.system, code)))
    case None => sources + [SourceAccount(scope, item.system, code, name, item.kind, true)]
    case Some(i) => sources[i := sources[i].(name := name, kind := item.kind, active := true)]
  }

  function UpsertAll(sources: seq<SourceAccount>, scope: Scope, items: seq<SourceIn>): seq<SourceAccount> {
    if |items| == 0 then sources
    else UpsertSource(UpsertAll(sources, scope, items[..|items| - 1]), scope, items[|items| - 1])
  }

  const BLANK_SOURCE: SourceIn -> bool := (i: SourceIn) => Strip(i.code) == "" || Strip(i.name) == ""

  function UpsertSources(db: Db, scope: Scope, items: seq<SourceIn>): (Db, Option<CoaError>) {
    var bad := FindFirst(items, BLANK_SOURCE);
    if bad.Some? then (db, Some(if Strip(items[bad.value].code) == "" then BlankCode else BlankName))
    else (db.(sources := UpsertAll(db.sources, scope, items)), None)
  }

  // ---- upsert_coa_mappings ----

  function KeyOf(item: MappingIn): SourceKey {
    (item.system, Strip(item.code))
  }

  /** The request as a dictionary: first occurrences fix the order, last occurrences the values. */
  function Keyed(items: seq<MappingIn>): (r: (seq<SourceKey>, map<SourceKey, MappingIn>))
    ensures forall k :: k in r.0 <==> k in r.1
    ensures forall k | k in r.1 :: KeyOf(r.1[k]) == k && r.1[k] in items
  {
    if |items| == 0 then ([], map[])
    else
      var (keys, byKey) := Keyed(items[..|items| - 1]);
      var item := items[|items| - 1];
      (if KeyOf(item) in byKey then keys else keys + [KeyOf(item)], byKey[KeyOf(item) := item])
  }

  lemma NotBlankStep(items: seq<MappingIn>, i: nat)
    requires i < |items| && Strip(items[i].code) != "" && FindFirst(items[..i], BLANK_MAPPING).None?
    ensures FindFirst(items[..i + 1], BLANK_MAPPING).None?
  {
    assert items[..i + 1][..i] == items[..i] && !BLANK_MAPPING(items[i]);
  }

  lemma KeyedStep(items: seq<MappingIn>, i: nat)
    requires i < |items|
    ensures var ((keys, byKey), k) := (Keyed(items[..i]), KeyOf(items[i]));
      && Keyed(items[..i + 1]).0 == (if k in byKey then keys else keys + [k])
      && Keyed(items[..i + 1]).1 == byKey[k := items[i]]
  {
    assert items[..i + 1][..i] == items[..i];
  }

  function SourceId(sources: seq<SourceAccount>, scope: Scope, key: SourceKey): Option<nat> {
    FindFirst(sources, IsSource(scope, key))
  }

  function ApplyMapping(mappings: seq<Mapping>, scope: Scope, sourceId: int, item: MappingIn,
      author: string): seq<Mapping> {
    var row := Mapping(scope, sourceId, item.canonicalId, item.status, item.notes, author);
    match FindFirst(mappings, IsMappingOf(scope, sourceId))
    case None => mappings + [row]
    case Some(i) => mappings[i := row]
  }

  function ApplyMappings(db: Db, scope: Scope, keys: seq<SourceKey>, byKey: map<SourceKey, MappingIn>,
      author: string): seq<Mapping>
    requires forall k | k in keys :: k in byKey && SourceId(db.sources, scope, k).Some?
  {
    if |keys| == 0 then db.mappings
    else
      var k := keys[|keys| - 1];
      ApplyMapping(ApplyMappings(db, scope, keys[..|keys| - 1], byKey, author), scope,
        SourceId(db.sources, scope, k).value, byKey[k], author)
  }

  function MissingKeys(sources: seq<SourceAccount>, scope: Scope, byKey: map<SourceKey, MappingIn>): set<SourceKey> {
    set k | k in byKey.Keys && SourceId(sources, scope, k).None?
  }

  function Canonicals(byKey: map<SourceKey, MappingIn>): set<int> {
    set k | k in byKey.Keys :: byKey[k].canonicalId
  }

  const BLANK_MAPPING: MappingIn -> bool := (i: MappingIn) => Strip(i.code) == ""

  function UpsertMappings(db: Db, scope: Scope, items: seq<MappingIn>, author: string): (Db, Option<CoaError>) {
    if FindFirst(items, BLANK_MAPPING).Some? then (db, Some(BlankCode))
    else
      var (keys, byKey) := Keyed(items);
      var missing := MissingKeys(db.sources, scope, byKey);
      var unknown := Journal.MissingAccounts(db.accounts, scope, Canonicals(byKey));
      if missing != {} then (db, Some(SourcesNotFound(missing)))
      else if unknown != {} then (db, Some(AccountsNotFound(unknown)))
      else
        assert forall k | k in keys :: k in byKey && k !in missing;
        (db.(mappings := ApplyMappings(db, scope, keys, byKey, author)), None)
  }

  lemma KeysResolved(sources: seq<SourceAccount>, scope: Scope, keys: seq<SourceKey>, byKey: map<SourceKey, MappingIn>)
    requires MissingKeys(sources, scope, byKey) == {} && forall k | k in keys :: k in byKey
    ensures forall k | k in keys :: k in byKey && SourceId(sources, scope, k).Some?
  {
    assert forall k | k in keys :: k !in MissingKeys(sources, scope, byKey);
  }

  // ---- Gaps, status, approval ----

  function InSystem(scope: Scope, system: SourceSystem): SourceAccount -> bool {
    (s: SourceAccount) => s.scope == scope && s.system == system && s.active
  }

  /** The ids of the active source accounts of the system, in table order. */
  function ActiveIds(sources: seq<SourceAccount>, scope: Scope, system: SourceSystem, n: nat): (r: seq<int>)
    requires n <= |sources|
    ensures forall i :: i in r <==> 0 <= i < n && InSystem(scope, system)(sources[i])
    ensures NoDup(r)
  {
    if n == 0 then []
    else
      var r := ActiveIds(sources, scope, system, n - 1);
      if InSystem(scope, system)(sources[n - 1]) then r + [n - 1] else r
  }

  function ActiveSources(db: Db, scope: Scope, system: SourceSystem): seq<int> {
    ActiveIds(db.sources, scope, system, |db.sources|)
  }

  /** The source ids among ids that have a mapping in one of the given states. */
  function MappedIds(db: Db, scope: Scope, ids: seq<int>, states: set<MappingStatus>): set<int> {
    set m | m in db.mappings && m.scope == scope && m.status in states && m.sourceId in ids :: m.sourceId
  }

  datatype Status = Status(total: nat, mappedActive: nat, mappedDraft: nat, unmapped: int)

  function OnboardingStatus(db: Db, scope: Scope, system: SourceSystem): Status {
    var ids := ActiveSources(db, scope, system);
    var active := MappedIds(db, scope, ids, {Active});
    var draft := MappedIds(db, scope, ids, {Draft});
    var unmapped := |ids| - |active| - |draft - active|;
    Status(|ids|, |active|, |draft - active|, if unmapped < 0 then 0 else unmapped)
  }

  function Unmapped(mapped: set<int>): int -> bool {
    (i: int) => i !in mapped
  }

  /** The active source accounts without an active mapping, in table order. */
  function Gaps(db: Db, scope: Scope, system: SourceSystem): seq<int> {
    var ids := ActiveSources(db, scope, system);
    Filter(ids, Unmapped(MappedIds(db, scope, ids, {Active})))
  }

  lemma {:induction false} DistinctCount<T>(s: seq<T>, elems: set<T>)
    requires NoDup(s) && forall x :: x in s <==> x in elems
    ensures |s| == |elems|
  {
    if |s| > 0 {
      var last := s[|s| - 1];
      assert forall x | x in s[..|s| - 1] :: x in s;
      DistinctCount(s[..|s| - 1], elems - {last});
    } else {
      assert elems == {};
    }
  }

  lemma {:induction false} FilterCount(ids: seq<int>, mapped: set<int>)
    requires NoDup(ids) && forall i | i in mapped :: i in ids
    ensures |Filter(ids, Unmapped(mapped))| == |ids| - |mapped|
  {
    if |ids| == 0 {
      assert forall i | i in mapped :: i in ids;
      assert |mapped| == 0;
    } else {
      var last := ids[|ids| - 1];
      FilterCount(ids[..|ids| - 1], mapped - {last});
      assert forall i | i in ids[..|ids| - 1] :: Unmapped(mapped - {last})(i) == Unmapped(mapped)(i);
      FilterExt(ids[..|ids| - 1], Unmapped(mapped - {last}), Unmapped(mapped));
    }
  }

  /** The gap list and the status counters partition the active source accounts, and the zero clamp never bites. */
  lemma StatusLaws(db: Db, scope: Scope, system: SourceSystem)
    ensures var s := OnboardingStatus(db, scope, system);
      && |Gaps(db, scope, system)| == s.mappedDraft + s.unmapped
      && s.mappedActive + s.mappedDraft + s.unmapped == s.total
  {
    var ids := ActiveSources(db, scope, system);
    var active, draft := MappedIds(db, scope, ids, {Active}), MappedIds(db, scope, ids, {Draft});
    FilterCount(ids, active);
    PartitionCount(ids, active, draft);
  }

  lemma PartitionCount(ids: seq<int>, active: set<int>, draft: set<int>)
    requires NoDup(ids) && forall i | i in active || i in draft :: i in ids
    ensures |active| + |draft - active| <= |ids|
  {
    var mapped := active + (draft - active);
    var all := set i | i in ids;
    DistinctCount(ids, all);
    assert forall i | i in mapped :: i in all;
    SubsetSize(mapped, all);
    assert |mapped| == |active| + |draft - active|;
  }

  function Approved(m: Mapping, author: string): Mapping {
    if m.status == Active then m else m.(status := Active, mappedBy := author)
  }

  function ApproveRows(mappings: seq<Mapping>, scope: Scope, ids: set<int>, author: string): (r: seq<Mapping>)
    ensures |r| == |mappings|
    ensures forall i :: 0 <= i < |r| ==>
              r[i] == if mappings[i].scope == scope && mappings[i].sourceId in ids then Approved(mappings[i], author)
                  else mappings[i]
  {
    seq(|mappings|, i requires 0 <= i < |mappings| =>
      if mappings[i].scope == scope && mappings[i].sourceId in ids then Approved(mappings[i], author) else mappings[i])
  }

  /** 1 for a mapping the approval turns active, 0 for any other. */
  function NeedsApproval(scope: Scope, ids: set<int>): Mapping -> int {
    (m: Mapping) => if m.scope == scope && m.sourceId in ids && m.status != Active then 1 else 0
  }

  function StripAll(codes: seq<string>): set<string> {
    set c | c in codes && Strip(c) != "" :: Strip(c)
  }

  /** The source accounts an approval covers: all active ones of the system, or those whose code is asked for. */
  function ApprovalScope(db: Db, scope: Scope, system: SourceSystem, codes: set<string>): set<int> {
    set i | i in ActiveSources(db, scope, system) && (codes == {} || db.sources[i].code in codes)
  }

  /** Asked-for codes that no covered source account carries. */
  function AbsentKeys(sources: seq<SourceAccount>, system: SourceSystem, ids: set<int>,
      wanted: set<string>): set<SourceKey> {
    set c | c in wanted && !(exists i | i in ids :: 0 <= i < |sources| && sources[i].code == c) :: (system, c)
  }

  predicate AnyMapping(mappings: seq<Mapping>, scope: Scope, ids: set<int>) {
    exists m | m in mappings :: m.scope == scope && m.sourceId in ids
  }

  /** approve_coa_mappings; an empty code list asks for every source account of the system. */
  function Approve(db: Db, scope: Scope, system: SourceSystem, codes: seq<string>, author: string)
    : (Db, Option<CoaError>)
  {
    var wanted := StripAll(codes);
    var ids := ApprovalScope(db, scope, system, wanted);
    var absent := AbsentKeys(db.sources, system, ids, wanted);
    if |codes| > 0 && wanted == {} then (db, Some(BlankCodeList))
    else if ids == {} then (db, Some(NothingToApprove))
    else if absent != {} then (db, Some(SourcesNotFound(absent)))
    else if !AnyMapping(db.mappings, scope, ids) then (db, Some(NoMappings))
    else (db.(mappings := ApproveRows(db.mappings, scope, ids, author)), None)
  }

  /** After an unrestricted approval nothing is in draft, and the active count is the number of active source accounts
      that have any mapping at all. */
  lemma ApproveSettles(db: Db, scope: Scope, system: SourceSystem, author: string)
    ensures var (after, error) := Approve(db, scope, system, [], author);
      error.None? ==>
        && OnboardingStatus(after, scope, system).mappedDraft == 0
        && OnboardingStatus(after, scope, system).mappedActive
             == |MappedIds(db, scope, ActiveSources(db, scope, system), {Active, Draft, Inactive})|
  {
    var (after, error) := Approve(db, scope, system, [], author);
    if error.None? {
      assert ActiveSources(after, scope, system) == ActiveSources(db, scope, system);
      SettledRows(db, scope, ActiveSources(db, scope, system), ApprovalScope(db, scope, system, {}), author);
    }
  }

  /** The rows an approval of all the ids leaves: none in draft, and active whatever was mapped in any way. */
  lemma SettledRows(db: Db, scope: Scope, ids: seq<int>, wanted: set<int>, author: string)
    requires forall i :: i in wanted <==> i in ids
    ensures var after := db.(mappings := ApproveRows(db.mappings, scope, wanted, author));
      && MappedIds(after, scope, ids, {Draft}) == {}
      && MappedIds(after, scope, ids, {Active}) == MappedIds(db, scope, ids, {Active, Draft, Inactive})
  {
    var after := db.(mappings := ApproveRows(db.mappings, scope, wanted, author));
    var before := MappedIds(db, scope, ids, {Active, Draft, Inactive});
    forall i | i in before ensures i in MappedIds(after, scope, ids, {Active}) {
      var m :| m in db.mappings && m.scope == scope && m.sourceId in ids && m.sourceId == i;
      var k :| 0 <= k < |db.mappings| && db.mappings[k] == m;
      assert after.mappings[k] in after.mappings;
    }
    forall m | m in after.mappings && m.scope == scope && m.sourceId in ids
      ensures m.status == Active && m.sourceId in before
    {
      var k :| 0 <= k < |after.mappings| && after.mappings[k] == m;
      assert db.mappings[k] in db.mappings;
      AnyStatus(db.mappings[k].status);
    }
  }

  lemma AnyStatus(s: MappingStatus)
    ensures s in {Active, Draft, Inactive}
  {
    match s case Active => case Draft => case Inactive =>
  }

  // ---- What these steps keep ----

  /** b refines a by renaming, reactivating and appending source accounts: scopes and keys of old rows are untouched. */
  ghost predicate SourcesExtend(a: seq<SourceAccount>, b: seq<SourceAccount>) {
    && |a| <= |b|
    && forall i | 0 <= i < |a| :: b[i].scope == a[i].scope && b[i].system == a[i].system && b[i].code == a[i].code
  }

  lemma {:induction false} UpsertAllKeeps(sources: seq<SourceAccount>, scope: Scope, items: seq<SourceIn>)
    requires SourcesOk(sources)
    ensures SourcesOk(UpsertAll(sources, scope, items)) && SourcesExtend(sources, UpsertAll(sources, scope, items))
  {
    if |items| == 0 {
    } else {
      UpsertAllKeeps(sources, scope, items[..|items| - 1]);
      var prev, item := UpsertAll(sources, scope, items[..|items| - 1]), items[|items| - 1];
      var fits := IsSource(scope, (item.system, Strip(item.code)));
      if FindFirst(prev, fits).None? {
        forall i | 0 <= i < |prev|
          ensures !(prev[i].scope == scope && prev[i].system == item.system && prev[i].code == Strip(item.code))
        {
          assert !fits(prev[i]);
        }
      }
    }
  }

  lemma UpsertSourcesKeeps(db: Db, scope: Scope, items: seq<SourceIn>)
    requires WellFormed(db)
    ensures WellFormed(UpsertSources(db, scope, items).0)
  {
    UpsertAllKeeps(db.sources, scope, items);
    var db' := UpsertSources(db, scope, items).0;
    assert LinesOk(db') && Balanced(db') && AllSpread(db') && MappingsOk(db');
  }

  lemma {:induction false} ApplyMappingsKeeps(db: Db, scope: Scope, keys: seq<SourceKey>,
      byKey: map<SourceKey, MappingIn>, author: string)
    requires MappingsOk(db)
    requires forall k | k in keys :: k in byKey && SourceId(db.sources, scope, k).Some?
    requires forall k | k in keys ::
               0 <= byKey[k].canonicalId < |db.accounts| && db.accounts[byKey[k].canonicalId].scope == scope
    ensures MappingsOk(db.(mappings := ApplyMappings(db, scope, keys, byKey, author)))
  {
    if |keys| == 0 {
    } else {
      ApplyMappingsKeeps(db, scope, keys[..|keys| - 1], byKey, author);
      var k := keys[|keys| - 1];
      var id := SourceId(db.sources, scope, k).value;
      assert IsSource(scope, k)(db.sources[id]);
      ApplyMappingKeeps(db, ApplyMappings(db, scope, keys[..|keys| - 1], byKey, author), scope, id, byKey[k], author);
    }
  }

  lemma ApplyMappingKeeps(db: Db, prev: seq<Mapping>, scope: Scope, id: nat, item: MappingIn, author: string)
    requires MappingsOk(db.(mappings := prev)) && id < |db.sources| && db.sources[id].scope == scope
    requires 0 <= item.canonicalId < |db.accounts| && db.accounts[item.canonicalId].scope == scope
    ensures MappingsOk(db.(mappings := ApplyMapping(prev, scope, id, item, author)))
  {
    var at := FindFirst(prev, IsMappingOf(scope, id));
    if at.None? {
      forall i | 0 <= i < |prev| ensures prev[i].sourceId != id {
        assert !IsMappingOf(scope, id)(prev[i]);
        assert MappingOk(db.(mappings := prev), prev[i]);
      }
    } else {
      assert IsMappingOf(scope, id)(prev[at.value]);
    }
  }

  lemma UpsertMappingsKeeps(db: Db, scope: Scope, items: seq<MappingIn>, author: string)
    requires WellFormed(db)
    ensures WellFormed(UpsertMappings(db, scope, items, author).0)
  {
    var (db', error) := UpsertMappings(db, scope, items, author);
    if error.None? {
      var (keys, byKey) := Keyed(items);
      var ids := Canonicals(byKey);
      forall k | k in keys
        ensures SourceId(db.sources, scope, k).Some?
        ensures 0 <= byKey[k].canonicalId < |db.accounts| && db.accounts[byKey[k].canonicalId].scope == scope
      {
        assert k !in MissingKeys(db.sources, scope, byKey);
        assert byKey[k].canonicalId in ids && byKey[k].canonicalId !in Journal.MissingAccounts(db.accounts, scope, ids);
      }
      ApplyMappingsKeeps(db, scope, keys, byKey, author);
      assert LinesOk(db') && Balanced(db') && AllSpread(db');
    }
  }

  lemma ApproveKeeps(db: Db, scope: Scope, system: SourceSystem, codes: seq<string>, author: string)
    requires WellFormed(db)
    ensures WellFormed(Approve(db, scope, system, codes, author).0)
  {
    var (db', error) := Approve(db, scope, system, codes, author);
    if error.None? {
      forall i | 0 <= i < |db.mappings|
        ensures MappingOk(db', db'.mappings[i]) && db'.mappings[i].sourceId == db.mappings[i].sourceId
      {
        assert MappingOk(db, db.mappings[i]);
      }
      assert LinesOk(db') && Balanced(db') && AllSpread(db');
    }
  }
}
