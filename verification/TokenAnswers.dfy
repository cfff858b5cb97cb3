// When the token endpoints refuse, and what they store, as conditions on the request and the stored tokens.
module TokenAnswers {
  import opened Wrappers
  import opened Seqs
  import opened Tokens

  /** The application key a request stands for: an alias means gruhamitra; a key that is not allowed, or none, means the
      default. */
  function Meant(cfg: Config, key: string): string {
    if key == "gharmitra" || key == "ghar-mitra" || key == "gruha-mitra" then
      (if "gruhamitra" in cfg.allowed then "gruhamitra" else cfg.defaultKey)
    else if key == "" || key !in cfg.allowed then cfg.defaultKey
    else key
  }

  lemma ResolvesAsMeant(cfg: Config, key: string)
    ensures ResolveAppKey(cfg, key) == Meant(cfg, key)
  {
  }

  predicate Privileged(s: Subject) {
    s.role == "super_admin"
  }

  /** A login is refused for an inactive tenant, or for asking for another application than the account's own, unless
      the account is privileged; it then stores nothing. Otherwise it stores one live token for the user, under the
      account's application or, when it has none, the requested one. */
  lemma LoginAnswers(cfg: Config, rs: seq<Record>, user: Subject, requested: string, tenantActive: bool, n: Issue)
    requires ConfigOk(cfg)
    ensures var (after, a) := Login(cfg, rs, user, requested, tenantActive, n);
      var key := Meant(cfg, if user.appKey != "" then user.appKey else Meant(cfg, requested));
      if !Privileged(user) && !tenantActive then after == rs && a == Err(TenantInactive)
      else if !Privileged(user) && user.appKey != "" && Meant(cfg, requested) != Meant(cfg, user.appKey) then
        after == rs && a == Err(AppKeyMismatch)
      else
        && a == Ok(|rs|) && |after| == |rs| + 1 && after[..|rs|] == rs
        && after[|rs|] == Record(n.jti, n.token, user.(appKey := key), n.expiresAt, false, None, None)
  {
    ResolvesAsMeant(cfg, requested);
    ResolvesAsMeant(cfg, if user.appKey != "" then user.appKey else ResolveAppKey(cfg, requested));
  }

  /** Record i is the first with the presented jti and digest. */
  predicate IsPresented(rs: seq<Record>, jti: string, token: string, i: int) {
    && 0 <= i < |rs| && rs[i].jti == jti && rs[i].token == token
    && forall k | 0 <= k < i :: !(rs[k].jti == jti && rs[k].token == token)
  }

  lemma FoundIff(rs: seq<Record>, jti: string, token: string)
    ensures var f := FindFirst(rs, Presents(jti, token));
      && (f.Some? ==> IsPresented(rs, jti, token, f.value))
      && (f.None? ==> forall i :: !IsPresented(rs, jti, token, i))
  {
    var f := FindFirst(rs, Presents(jti, token));
    if f.Some? {
      assert Presents(jti, token)(rs[f.value]);
      forall k | 0 <= k < f.value ensures !(rs[k].jti == jti && rs[k].token == token) {
        assert !Presents(jti, token)(rs[k]);
      }
    } else {
      forall i | 0 <= i < |rs| ensures !(rs[i].jti == jti && rs[i].token == token) {
        assert !Presents(jti, token)(rs[i]);
      }
    }
  }

  /** A rotation is refused for a token that is not stored, then for a revoked one, then for an expired one, which it
      revokes, then for asking for another application, then for an inactive tenant; refusals store nothing new.
      Otherwise it stores one live successor for the same person and retires the presented token, linked to it. */
  lemma RotateAnswers(cfg: Config, rs: seq<Record>, jti: string, token: string, now: int, requested: Option<string>,
                      active: bool, n: Issue, i: int)
    requires ConfigOk(cfg) && IsPresented(rs, jti, token, i)
    ensures var (after, a) := Rotate(cfg, rs, jti, token, now, requested, active, n);
      var r := rs[i];
      var key := Meant(cfg, r.subject.appKey);
      if r.revoked then after == rs && a == Err(InvalidToken)
      else if r.expiresAt <= now then
        a == Err(ExpiredToken) && after == rs[i := r.(revoked := true, revokedAt := Some(now))]
      else if !Privileged(r.subject) && requested.Some? && requested.value != "" && Meant(cfg, requested.value) != key
      then after == rs && a == Err(AppKeyMismatch)
      else if !Privileged(r.subject) && !active then after == rs && a == Err(TenantInactive)
      else
        && a == Ok(|rs|) && |after| == |rs| + 1
        && (forall k | 0 <= k < |rs| && k != i :: after[k] == rs[k])
        && after[i] == r.(revoked := true, revokedAt := Some(now), replacedBy := Some(n.jti))
        && after[|rs|] == Record(n.jti, n.token, r.subject.(appKey := key), n.expiresAt, false, None, None)
  {
    FoundIff(rs, jti, token);
    ResolvesAsMeant(cfg, rs[i].subject.appKey);
    if requested.Some? { ResolvesAsMeant(cfg, requested.value); }
  }

  /** An unknown token is refused by rotation and ignored by logout; a stored one is revoked by logout, and nothing else
      changes. */
  lemma UnknownAndLogout(cfg: Config, rs: seq<Record>, jti: string, token: string, now: int, requested: Option<string>,
                         active: bool, n: Issue)
    ensures (forall i :: !IsPresented(rs, jti, token, i)) ==>
              Rotate(cfg, rs, jti, token, now, requested, active, n) == (rs, Err(InvalidToken))
              && Logout(rs, jti, token, now) == rs
    ensures forall i | IsPresented(rs, jti, token, i) ::
              Logout(rs, jti, token, now) == rs[i := rs[i].(revoked := true, revokedAt := Some(now))]
  {
    FoundIff(rs, jti, token);
  }
}
