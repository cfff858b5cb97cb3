// Refresh tokens: login, rotation and logout over the token collection.
module Tokens {
  import opened Wrappers
  import opened Seqs

  // ---- Application keys ----

  /** The configured default and allowed application keys, trimmed and in lower case; the default is always allowed. */
  datatype Config = Config(defaultKey: string, allowed: set<string>)

  predicate ConfigOk(cfg: Config) {
    cfg.defaultKey != "" && cfg.defaultKey in cfg.allowed
  }

  function Alias(key: string): string {
    if key in {"gharmitra", "ghar-mitra", "gruha-mitra"} then "gruhamitra" else key
  }

  function ResolveAppKey(cfg: Config, key: string): string {
    var raw := Alias(key);
    if raw == "" || raw !in cfg.allowed then cfg.defaultKey else raw
  }

  /** The default key is not itself an alias of an allowed key. */
  predicate DefaultStable(cfg: Config) {
    Alias(cfg.defaultKey) == cfg.defaultKey || Alias(cfg.defaultKey) !in cfg.allowed
  }

  /** Resolving is idempotent for every key exactly when the default is stable. */
  lemma ResolveIdempotentIff(cfg: Config)
    requires ConfigOk(cfg)
    ensures (forall key :: ResolveAppKey(cfg, ResolveAppKey(cfg, key)) == ResolveAppKey(cfg, key))
              <==> DefaultStable(cfg)
  {
    if !DefaultStable(cfg) {
      assert ResolveAppKey(cfg, "") == cfg.defaultKey;
      assert ResolveAppKey(cfg, ResolveAppKey(cfg, "")) == Alias(cfg.defaultKey);
    }
  }

  // ---- Records ----

  datatype Subject = Subject(userId: string, email: string, tenantId: string, role: string, appKey: string)

  /** token stands for the token's digest: distinct tokens have distinct digests. */
  datatype Record = Record(
    jti: string, token: string, subject: Subject, expiresAt: int, revoked: bool, revokedAt: Option<int>,
        replacedBy: Option<string>)

  datatype AuthError = InvalidToken | ExpiredToken | AppKeyMismatch | TenantInactive

  /** A freshly signed token. */
  datatype Issue = Issue(jti: string, token: string, expiresAt: int)

  function Presents(jti: string, token: string): Record -> bool {
    (r: Record) => r.jti == jti && r.token == token
  }

  function HasJti(jti: string): Record -> bool {
    (r: Record) => r.jti == jti
  }

  function NewRecord(n: Issue, s: Subject): Record {
    Record(n.jti, n.token, s, n.expiresAt, false, None, None)
  }

  function Login(cfg: Config, rs: seq<Record>, user: Subject, requested: string, tenantActive: bool,
      n: Issue): (seq<Record>, Result<nat, AuthError>) {
    var want := ResolveAppKey(cfg, requested);
    var key := ResolveAppKey(cfg, if user.appKey != "" then user.appKey else want);
    if user.role != "super_admin" && !tenantActive then (rs, Err(TenantInactive))
    else if user.appKey != "" && want != key && user.role != "super_admin" then (rs, Err(AppKeyMismatch))
    else (rs + [NewRecord(n, user.(appKey := key))], Ok(|rs|))
  }

  function Revoke(rs: seq<Record>, i: nat, now: int): seq<Record>
    requires i < |rs|
  {
    rs[i := rs[i].(revoked := true, revokedAt := Some(now))]
  }

  function Rotate(cfg: Config, rs: seq<Record>, jti: string, token: string, now: int, requested: Option<string>,
                  tenantActive: bool, n: Issue): (seq<Record>, Result<nat, AuthError>) {
    match FindFirst(rs, Presents(jti, token))
    case None => (rs, Err(InvalidToken))
    case Some(i) =>
      var r := rs[i];
      var key := ResolveAppKey(cfg, r.subject.appKey);
      if r.revoked then (rs, Err(InvalidToken))
      else if r.expiresAt <= now then (Revoke(rs, i, now), Err(ExpiredToken))
      else if requested.Some? && requested.value != "" && ResolveAppKey(cfg, requested.value) != key
          && r.subject.role != "super_admin"
      then (rs, Err(AppKeyMismatch))
      else if r.subject.role != "super_admin" && !tenantActive then (rs, Err(TenantInactive))
      else (Replace(rs, i, n, Rekeyed(cfg, r.subject), now), Ok(|rs|))
  }

  /** Stores the successor and retires the presented token, as one step. */
  function Replace(rs: seq<Record>, i: nat, n: Issue, s: Subject, now: int): seq<Record>
    requires i < |rs|
  {
    Revoke(rs, i, now)[i := Revoke(rs, i, now)[i].(replacedBy := Some(n.jti))] + [NewRecord(n, s)]
  }

  lemma RetireAfterStore(rs: seq<Record>, i: nat, n: Issue, s: Subject, now: int)
    requires i < |rs|
    ensures (rs + [NewRecord(n, s)])[i := rs[i].(revoked := true, revokedAt := Some(now), replacedBy := Some(n.jti))]
            == Replace(rs, i, n, s, now)
  {
  }

  function Logout(rs: seq<Record>, jti: string, token: string, now: int): seq<Record> {
    match FindFirst(rs, Presents(jti, token))
    case None => rs
    case Some(i) => Revoke(rs, i, now)
  }

  // ---- Families ----

  predicate LinksTo(rs: seq<Record>, i: int, k: int) {
    0 <= i < |rs| && 0 <= k < |rs| && rs[i].replacedBy == Some(rs[k].jti)
  }

  /** Everything but the application key. */
  predicate SamePerson(a: Subject, b: Subject) {
    a.userId == b.userId && a.email == b.email && a.tenantId == b.tenantId && a.role == b.role
  }

  function Rekeyed(cfg: Config, s: Subject): Subject {
    s.(appKey := ResolveAppKey(cfg, s.appKey))
  }

  /** The unique index on jti. */
  ghost predicate JtisDistinct(rs: seq<Record>) {
    forall i, j | 0 <= i < j < |rs| :: rs[i].jti != rs[j].jti
  }

  /** A replaced token is revoked and its successor is a later record. */
  ghost predicate ReplacedAreRetired(rs: seq<Record>) {
    forall i | 0 <= i < |rs| && rs[i].replacedBy.Some? :: rs[i].revoked && exists k :: i < k && LinksTo(rs, i, k)
  }

  /** A successor belongs to the same person under the re-resolved application key. */
  ghost predicate LinksOwned(cfg: Config, rs: seq<Record>) {
    forall i, k | LinksTo(rs, i, k) :: i < k && rs[k].subject == Rekeyed(cfg, rs[i].subject)
  }

  /** No token succeeds two others. */
  ghost predicate SuccessorsDistinct(rs: seq<Record>) {
    forall i, j | 0 <= i < j < |rs| && rs[i].replacedBy.Some? :: rs[i].replacedBy != rs[j].replacedBy
  }

  ghost predicate Resolved(cfg: Config, key: string) {
    exists raw :: key == ResolveAppKey(cfg, raw)
  }

  ghost predicate Inv(cfg: Config, rs: seq<Record>) {
    && JtisDistinct(rs) && ReplacedAreRetired(rs) && LinksOwned(cfg, rs) && SuccessorsDistinct(rs)
    && (forall i | 0 <= i < |rs| :: Resolved(cfg, rs[i].subject.appKey))
  }

  ghost predicate IsRoot(rs: seq<Record>, k: int) {
    0 <= k < |rs| && forall i :: !LinksTo(rs, i, k)
  }

  function Successor(rs: seq<Record>, i: nat): (r: Option<nat>)
    requires i < |rs|
    ensures r.Some? ==> i < r.value && LinksTo(rs, i, r.value)
  {
    if rs[i].replacedBy.None? then None
    else
      var k := FindFirst(rs, HasJti(rs[i].replacedBy.value));
      if k.Some? && k.value > i then (assert HasJti(rs[i].replacedBy.value)(rs[k.value]); k) else None
  }

  /** The replaced_by path from token i. */
  function Path(rs: seq<Record>, i: nat): seq<nat>
    requires i < |rs|
    decreases |rs| - i
  {
    match Successor(rs, i)
    case None => [i]
    case Some(k) => [i] + Path(rs, k)
  }

  /** Indices increase along a path, so it is simple and acyclic. */
  lemma {:induction false} PathIncreases(rs: seq<Record>, i: nat)
    requires i < |rs|
    ensures |Path(rs, i)| > 0 && Path(rs, i)[0] == i
    ensures forall a, b | 0 <= a < b < |Path(rs, i)| :: Path(rs, i)[a] < Path(rs, i)[b]
    ensures forall a | 0 <= a < |Path(rs, i)| :: Path(rs, i)[a] < |rs|
    decreases |rs| - i
  {
    var s := Successor(rs, i);
    if s.Some? {
      PathIncreases(rs, s.value);
      var rest := Path(rs, s.value);
      assert Path(rs, i) == [i] + rest;
      forall a, b | 0 <= a < b < |Path(rs, i)| ensures Path(rs, i)[a] < Path(rs, i)[b] {
        assert Path(rs, i)[b] == rest[b - 1] && rest[0] <= rest[b - 1];
        if a > 0 { assert Path(rs, i)[a] == rest[a - 1]; }
      }
    }
  }

  /** Every token on a path but the last is revoked, and the last one has no successor. */
  lemma {:induction false} PathRevoked(cfg: Config, rs: seq<Record>, i: nat, a: nat)
    requires ConfigOk(cfg) && Inv(cfg, rs) && i < |rs| && a < |Path(rs, i)|
    ensures var p := Path(rs, i);
      p[a] < |rs| && if a < |p| - 1 then rs[p[a]].revoked && LinksTo(rs, p[a], p[a + 1]) else rs[p[a]].replacedBy.None?
    decreases |rs| - i
  {
    var s := Successor(rs, i);
    if s.Some? {
      var rest := Path(rs, s.value);
      assert Path(rs, i) == [i] + rest;
      PathIncreases(rs, s.value);
      if a > 0 { PathRevoked(cfg, rs, s.value, a - 1); }
    } else {
    }
  }

  /** User, email, tenant and role are constant along a path; so is the application key when the default is stable. */
  lemma {:induction false} PathOwner(cfg: Config, rs: seq<Record>, i: nat, a: nat)
    requires ConfigOk(cfg) && Inv(cfg, rs) && i < |rs| && a < |Path(rs, i)|
    ensures var k := Path(rs, i)[a];
      k < |rs| && SamePerson(rs[k].subject, rs[i].subject) && (DefaultStable(cfg) ==> rs[k].subject == rs[i].subject)
    decreases |rs| - i
  {
    var s := Successor(rs, i);
    if s.Some? && a > 0 {
      PathOwner(cfg, rs, s.value, a - 1);
      assert Path(rs, i)[a] == Path(rs, s.value)[a - 1];
    }
  }

  /** One rotation keeps the application key exactly when the default is stable or the token has another key. */
  lemma RotationDriftsIff(cfg: Config, rs: seq<Record>, i: nat)
    requires ConfigOk(cfg) && Inv(cfg, rs) && i < |rs|
    ensures Rekeyed(cfg, rs[i].subject) == rs[i].subject
            <==> DefaultStable(cfg) || rs[i].subject.appKey != cfg.defaultKey
  {
    assert Resolved(cfg, rs[i].subject.appKey);
    var raw :| rs[i].subject.appKey == ResolveAppKey(cfg, raw);
    assert Alias(Alias(raw)) == Alias(raw);
  }

  /** Any token further down a path belongs to the same subject exactly under that condition on the first: a key drifts
      at the first rotation or never. */
  lemma {:induction false} PathDriftsIff(cfg: Config, rs: seq<Record>, i: nat, a: nat)
    requires ConfigOk(cfg) && Inv(cfg, rs) && i < |rs| && 0 < a < |Path(rs, i)|
    ensures var k := Path(rs, i)[a];
      k < |rs| && (rs[k].subject == rs[i].subject <==> DefaultStable(cfg) || rs[i].subject.appKey != cfg.defaultKey)
    decreases |rs| - i
  {
    var s := Successor(rs, i).value;
    assert Path(rs, i) == [i] + Path(rs, s) && Path(rs, i)[a] == Path(rs, s)[a - 1];
    assert rs[s].subject == Rekeyed(cfg, rs[i].subject);
    RotationDriftsIff(cfg, rs, i);
    if a > 1 { PathDriftsIff(cfg, rs, s, a - 1); } else { assert Path(rs, s)[0] == s; }
  }

  /** With an unstable default one rotation can change the application key: the configured default is itself an
      alias. */
  lemma UnstableDefaultDrifts(n1: Issue, n2: Issue, user: Subject)
    requires user.appKey == "other" && user.role == "super_admin" && n1.expiresAt > 0
    ensures var cfg := Config("gharmitra", {"gharmitra", "gruhamitra"});
      var issued := Login(cfg, [], user, "", true, n1).0;
      var rotated := Rotate(cfg, issued, n1.jti, n1.token, 0, None, true, n2).0;
      ConfigOk(cfg) && |issued| == 1 && |rotated| == 2
      && rotated[0].subject.appKey == "gharmitra" && rotated[1].subject.appKey == "gruhamitra"
  {
    var cfg := Config("gharmitra", {"gharmitra", "gruhamitra"});
    var issued := Login(cfg, [], user, "", true, n1).0;
    assert ResolveAppKey(cfg, "other") == "gharmitra";
    assert ResolveAppKey(cfg, "gharmitra") == "gruhamitra";
    assert issued == [NewRecord(n1, user.(appKey := "gharmitra"))];
    assert Presents(n1.jti, n1.token)(issued[0]);
    assert FindFirst(issued, Presents(n1.jti, n1.token)) == Some(0);
  }

  /** At most one token of a family is unrevoked, and it is the newest. */
  lemma OneLiveToken(cfg: Config, rs: seq<Record>, root: nat, a: nat)
    requires ConfigOk(cfg) && Inv(cfg, rs) && root < |rs|
    requires a < |Path(rs, root)| && Path(rs, root)[a] < |rs| && !rs[Path(rs, root)[a]].revoked
    ensures a == |Path(rs, root)| - 1 && rs[Path(rs, root)[a]].replacedBy.None?
  {
    PathRevoked(cfg, rs, root, a);
  }

  // ---- Families partition the tokens ----

  lemma {:induction false} PathClosed(cfg: Config, rs: seq<Record>, root: nat, i: nat, k: nat)
    requires Inv(cfg, rs) && root < |rs| && i in Path(rs, root) && LinksTo(rs, i, k)
    ensures k in Path(rs, root)
    decreases |rs| - root
  {
    if i == root {
    } else {
      PathClosed(cfg, rs, Successor(rs, root).value, i, k);
    }
  }

  /** Every token lies on the path of a root, the token its login issued. */
  lemma {:induction false} HasRoot(cfg: Config, rs: seq<Record>, i: nat) returns (root: nat)
    requires Inv(cfg, rs) && i < |rs|
    ensures IsRoot(rs, root) && i in Path(rs, root)
    decreases i
  {
    if IsRoot(rs, i) {
      root := i;
    } else {
      var p :| LinksTo(rs, p, i);
      root := HasRoot(cfg, rs, p);
      PathClosed(cfg, rs, root, p, i);
    }
  }

  lemma {:induction false} Predecessor(cfg: Config, rs: seq<Record>, root: nat, i: nat) returns (p: nat)
    requires Inv(cfg, rs) && root < |rs| && i in Path(rs, root) && i != root
    ensures p in Path(rs, root) && LinksTo(rs, p, i)
    decreases |rs| - root
  {
    var s := Successor(rs, root).value;
    if s == i {
      p := root;
    } else {
      p := Predecessor(cfg, rs, s, i);
    }
  }

  /** The families of different roots are disjoint. */
  lemma {:induction false} FamiliesDisjoint(cfg: Config, rs: seq<Record>, r1: nat, r2: nat, i: nat)
    requires Inv(cfg, rs) && IsRoot(rs, r1) && IsRoot(rs, r2)
    requires i < |rs| && i in Path(rs, r1) && i in Path(rs, r2)
    ensures r1 == r2
    decreases i
  {
    if i != r1 {
      var p := Predecessor(cfg, rs, r1, i);
      if i != r2 {
        var q := Predecessor(cfg, rs, r2, i);
        assert p == q;
        FamiliesDisjoint(cfg, rs, r1, r2, p);
      }
    } else if i != r2 {
      var q := Predecessor(cfg, rs, r2, i);
    }
  }

  // ---- Runs ----

  datatype Event =
    | LoginEvent(user: Subject, requestedKey: string, tenantActive: bool, issue: Issue)
    | RotateEvent(jti: string, token: string, now: int, requested: Option<string>, active: bool, issue: Issue)
    | LogoutEvent(jti: string, token: string, now: int)

  function Next(cfg: Config, rs: seq<Record>, e: Event): seq<Record> {
    match e
    case LoginEvent(user, key, active, n) => Login(cfg, rs, user, key, active, n).0
    case RotateEvent(jti, token, now, key, active, n) => Rotate(cfg, rs, jti, token, now, key, active, n).0
    case LogoutEvent(jti, token, now) => Logout(rs, jti, token, now)
  }

  /** Signed tokens carry a fresh jti (uuid4), which the unique index would enforce. */
  ghost predicate FreshIssue(rs: seq<Record>, e: Event) {
    e.LogoutEvent? || Unused(rs, e.issue.jti)
  }

  ghost predicate Unused(rs: seq<Record>, jti: string) {
    forall r | r in rs :: r.jti != jti && r.replacedBy != Some(jti)
  }

  /** What a step may do to a stored token: revoke it, never revive it; link it once, never relink it. */
  predicate Ages(a: Record, b: Record) {
    && b.jti == a.jti && b.token == a.token && b.subject == a.subject && b.expiresAt == a.expiresAt
    && (a.revoked ==> b.revoked) && (a.replacedBy.Some? ==> b.replacedBy == a.replacedBy)
  }

  ghost predicate AllAge(a: seq<Record>, b: seq<Record>) {
    |a| <= |b| && forall i | 0 <= i < |a| :: Ages(a[i], b[i])
  }

  lemma LinksSame(a: seq<Record>, b: seq<Record>)
    requires |a| == |b| && forall i | 0 <= i < |a| :: b[i].jti == a[i].jti && b[i].replacedBy == a[i].replacedBy
    ensures forall i, k :: LinksTo(b, i, k) <==> LinksTo(a, i, k)
  {
  }

  lemma RevokeKeeps(cfg: Config, rs: seq<Record>, i: nat, now: int)
    requires Inv(cfg, rs) && i < |rs|
    ensures Inv(cfg, Revoke(rs, i, now)) && AllAge(rs, Revoke(rs, i, now))
  {
    LinksSame(rs, Revoke(rs, i, now));
  }

  lemma AppendKeeps(cfg: Config, rs: seq<Record>, r: Record)
    requires Inv(cfg, rs) && r.replacedBy.None? && Resolved(cfg, r.subject.appKey)
    requires Unused(rs, r.jti)
    ensures Inv(cfg, rs + [r])
    ensures IsRoot(rs + [r], |rs|)
  {
    var rs' := rs + [r];
    assert forall i | 0 <= i < |rs| :: rs'[i] == rs[i] && rs[i] in rs;
    forall i | 0 <= i < |rs'| && rs'[i].replacedBy.Some?
      ensures rs'[i].revoked && exists k :: i < k && LinksTo(rs', i, k)
    {
      var k :| i < k && LinksTo(rs, i, k);
      assert LinksTo(rs', i, k);
    }
    AppendLinks(rs, r);
  }

  lemma AppendLinks(rs: seq<Record>, r: Record)
    requires r.replacedBy.None? && Unused(rs, r.jti)
    ensures forall i, k :: LinksTo(rs + [r], i, k) <==> LinksTo(rs, i, k)
  {
    forall i, k ensures LinksTo(rs + [r], i, k) <==> LinksTo(rs, i, k) {
      if 0 <= i < |rs| { assert rs[i] in rs; }
    }
  }

  lemma ReplaceDistinct(rs: seq<Record>, i: nat, n: Issue, s: Subject, now: int)
    requires i < |rs| && rs[i].replacedBy.None? && Unused(rs, n.jti) && JtisDistinct(rs) && SuccessorsDistinct(rs)
    ensures JtisDistinct(Replace(rs, i, n, s, now)) && SuccessorsDistinct(Replace(rs, i, n, s, now))
  {
    assert forall k | 0 <= k < |rs| :: rs[k] in rs;
  }

  lemma ReplaceOwned(cfg: Config, rs: seq<Record>, i: nat, n: Issue, now: int)
    requires i < |rs| && rs[i].replacedBy.None? && Unused(rs, n.jti) && LinksOwned(cfg, rs)
    ensures LinksOwned(cfg, Replace(rs, i, n, Rekeyed(cfg, rs[i].subject), now))
  {
  }

  lemma ReplaceRetired(rs: seq<Record>, i: nat, n: Issue, s: Subject, now: int)
    requires i < |rs| && rs[i].replacedBy.None? && Unused(rs, n.jti) && ReplacedAreRetired(rs)
    ensures ReplacedAreRetired(Replace(rs, i, n, s, now))
  {
    var rs' := Replace(rs, i, n, s, now);
    forall a | 0 <= a < |rs'| && rs'[a].replacedBy.Some?
      ensures rs'[a].revoked && exists k :: a < k && LinksTo(rs', a, k)
    {
      if a == i {
        assert LinksTo(rs', a, |rs|);
      } else {
        var k :| a < k && LinksTo(rs, a, k);
        assert LinksTo(rs', a, k);
      }
    }
  }

  lemma ReplaceKeeps(cfg: Config, rs: seq<Record>, i: nat, n: Issue, now: int)
    requires Inv(cfg, rs) && i < |rs| && !rs[i].revoked && Unused(rs, n.jti)
    ensures var after := Replace(rs, i, n, Rekeyed(cfg, rs[i].subject), now);
      Inv(cfg, after) && AllAge(rs, after) && LinksTo(after, i, |rs|)
  {
    var s := Rekeyed(cfg, rs[i].subject);
    ReplaceDistinct(rs, i, n, s, now);
    ReplaceOwned(cfg, rs, i, n, now);
    ReplaceRetired(rs, i, n, s, now);
  }

  lemma LoginKeeps(cfg: Config, rs: seq<Record>, user: Subject, requested: string, active: bool, n: Issue)
    requires Inv(cfg, rs) && Unused(rs, n.jti)
    ensures Inv(cfg, Login(cfg, rs, user, requested, active, n).0)
              && AllAge(rs, Login(cfg, rs, user, requested, active, n).0)
  {
    if Login(cfg, rs, user, requested, active, n).1.Ok? {
      AppendKeeps(cfg, rs, Login(cfg, rs, user, requested, active, n).0[|rs|]);
    }
  }

  lemma RotateCases(cfg: Config, rs: seq<Record>, jti: string, token: string, now: int, requested: Option<string>,
                    active: bool, n: Issue) returns (i: nat)
    ensures var after := Rotate(cfg, rs, jti, token, now, requested, active, n).0;
      after == rs || (i < |rs| && !rs[i].revoked
                      && (after == Revoke(rs, i, now) || after == Replace(rs, i, n, Rekeyed(cfg, rs[i].subject), now)))
  {
    var found := FindFirst(rs, Presents(jti, token));
    i := if found.Some? then found.value else 0;
  }

  lemma RotateKeeps(cfg: Config, rs: seq<Record>, jti: string, token: string, now: int, requested: Option<string>,
                    active: bool, n: Issue)
    requires Inv(cfg, rs) && Unused(rs, n.jti)
    ensures Inv(cfg, Rotate(cfg, rs, jti, token, now, requested, active, n).0)
    ensures AllAge(rs, Rotate(cfg, rs, jti, token, now, requested, active, n).0)
  {
    var after := Rotate(cfg, rs, jti, token, now, requested, active, n).0;
    var i := RotateCases(cfg, rs, jti, token, now, requested, active, n);
    if after != rs {
      if after == Revoke(rs, i, now) { RevokeKeeps(cfg, rs, i, now); } else { ReplaceKeeps(cfg, rs, i, n, now); }
    }
  }

  lemma LogoutKeeps(cfg: Config, rs: seq<Record>, jti: string, token: string, now: int)
    requires Inv(cfg, rs)
    ensures Inv(cfg, Logout(rs, jti, token, now)) && AllAge(rs, Logout(rs, jti, token, now))
  {
    var i := FindFirst(rs, Presents(jti, token));
    if i.Some? { RevokeKeeps(cfg, rs, i.value, now); }
  }

  lemma NextKeeps(cfg: Config, rs: seq<Record>, e: Event)
    requires Inv(cfg, rs) && FreshIssue(rs, e)
    ensures Inv(cfg, Next(cfg, rs, e)) && AllAge(rs, Next(cfg, rs, e))
  {
    match e
    case LoginEvent(user, key, active, n) => LoginKeeps(cfg, rs, user, key, active, n);
    case RotateEvent(jti, token, now, key, active, n) => RotateKeeps(cfg, rs, jti, token, now, key, active, n);
    case LogoutEvent(jti, token, now) => LogoutKeeps(cfg, rs, jti, token, now);
  }

  function Run(cfg: Config, rs: seq<Record>, events: seq<Event>): seq<Record> {
    if |events| == 0 then rs else Next(cfg, Run(cfg, rs, events[..|events| - 1]), events[|events| - 1])
  }

  /** On every run of logins, rotations and logouts the family invariant holds and revoked tokens never become live. */
  lemma {:induction false} RunKeeps(cfg: Config, rs: seq<Record>, events: seq<Event>)
    requires Inv(cfg, rs)
    requires forall k | 0 <= k < |events| :: FreshIssue(Run(cfg, rs, events[..k]), events[k])
    ensures Inv(cfg, Run(cfg, rs, events)) && AllAge(rs, Run(cfg, rs, events))
  {
    if |events| == 0 {
    } else {
      var front := events[..|events| - 1];
      forall k | 0 <= k < |front| ensures FreshIssue(Run(cfg, rs, front[..k]), front[k]) {
        assert front[..k] == events[..k] && front[k] == events[k];
      }
      RunKeeps(cfg, rs, front);
      assert events[..|front|] == front;
      NextKeeps(cfg, Run(cfg, rs, front), events[|events| - 1]);
    }
  }

  /** A login starts a family of its own; a successful rotation puts the new token next on the old one's path. */
  lemma StepShapes(cfg: Config, rs: seq<Record>, e: Event)
    requires Inv(cfg, rs) && FreshIssue(rs, e) && |Next(cfg, rs, e)| > |rs|
    ensures var after := Next(cfg, rs, e);
      && |after| == |rs| + 1 && !after[|rs|].revoked && after[|rs|].jti == e.issue.jti
      && (e.LoginEvent? ==> IsRoot(after, |rs|) && SamePerson(after[|rs|].subject, e.user))
      && (e.RotateEvent? ==> exists i: nat ::
          i < |rs| && Presents(e.jti, e.token)(rs[i]) && !rs[i].revoked && e.now < rs[i].expiresAt
                                         && LinksTo(after, i, |rs|) && after[i].revoked)
  {
    match e
    case LoginEvent(user, key, active, n) => AppendKeeps(cfg, rs, Login(cfg, rs, user, key, active, n).0[|rs|]);
    case RotateEvent(jti, token, now, key, active, n) =>
      var i := FindFirst(rs, Presents(jti, token)).value;
      ReplaceKeeps(cfg, rs, i, n, now);
      assert Presents(jti, token)(rs[i]);
    case LogoutEvent(jti, token, now) =>
  }

  // ---- The collection ----

  class TokenStore {
    const cfg: Config
    var records: seq<Record>

    ghost predicate Valid()
      reads this
    {
      ConfigOk(cfg) && Inv(cfg, records)
    }

    constructor (cfg: Config)
      requires ConfigOk(cfg)
      ensures Valid() && records == [] && this.cfg == cfg
    {
      this.cfg, records := cfg, [];
    }

    method IssueTokens(user: Subject, requested: string, tenantActive: bool, n: Issue)
      returns (r: Result<nat, AuthError>)
      requires Valid() && FreshIssue(records, LoginEvent(user, requested, tenantActive, n))
      modifies this
      ensures Valid() && (records, r) == Login(cfg, old(records), user, requested, tenantActive, n)
    {
      NextKeeps(cfg, records, LoginEvent(user, requested, tenantActive, n));
      if user.role != "super_admin" && !tenantActive {
        return Err(TenantInactive);
      }
      var want := ResolveAppKey(cfg, requested);
      var key := ResolveAppKey(cfg, if user.appKey != "" then user.appKey else want);
      if user.appKey != "" && want != key && user.role != "super_admin" {
        return Err(AppKeyMismatch);
      }
      r := Ok(|records|);
      records := records + [NewRecord(n, user.(appKey := key))];
    }

    method RotateRefreshToken(jti: string, token: string, now: int, requested: Option<string>, tenantActive: bool,
        n: Issue)
      returns (r: Result<nat, AuthError>)
      requires Valid() && FreshIssue(records, RotateEvent(jti, token, now, requested, tenantActive, n))
      modifies this
      ensures Valid() && (records, r) == Rotate(cfg, old(records), jti, token, now, requested, tenantActive, n)
    {
      RotateKeeps(cfg, records, jti, token, now, requested, tenantActive, n);
      r := Exchange(jti, token, now, requested, tenantActive, n);
    }

    method Exchange(jti: string, token: string, now: int, requested: Option<string>, tenantActive: bool, n: Issue)
      returns (r: Result<nat, AuthError>)
      modifies this
      ensures (records, r) == Rotate(cfg, old(records), jti, token, now, requested, tenantActive, n)
    {
      var found := FindFirst(records, Presents(jti, token));
      if found.None? || records[found.value].revoked {
        return Err(InvalidToken);
      }
      var i := found.value;
      var record := records[i];
      if record.expiresAt <= now {
        records := records[i := record.(revoked := true, revokedAt := Some(now))];
        return Err(ExpiredToken);
      }
      var key := ResolveAppKey(cfg, record.subject.appKey);
      if requested.Some? && requested.value != "" && ResolveAppKey(cfg, requested.value) != key
          && record.subject.role != "super_admin" {
        return Err(AppKeyMismatch);
      }
      if record.subject.role != "super_admin" && !tenantActive {
        return Err(TenantInactive);
      }
      r := Ok(|records|);
      RetireAfterStore(records, i, n, record.subject.(appKey := key), now);
      records := records + [NewRecord(n, record.subject.(appKey := key))];
      records := records[i := record.(revoked := true, revokedAt := Some(now), replacedBy := Some(n.jti))];
    }

    method LogoutRefreshToken(jti: string, token: string, now: int)
      requires Valid()
      modifies this
      ensures Valid() && records == Logout(old(records), jti, token, now)
    {
      NextKeeps(cfg, records, LogoutEvent(jti, token, now));
      var found := FindFirst(records, Presents(jti, token));
      if found.Some? {
        records := records[found.value := records[found.value].(revoked := true, revokedAt := Some(now))];
      }
    }
  }
}
