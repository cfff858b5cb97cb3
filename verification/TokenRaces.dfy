// Refresh rotation as the separate find, store and retire calls that concurrent requests really make.
module TokenRaces {
  import opened Wrappers
  import opened Seqs
  import opened Tokens

  /** One caller of the rotation endpoint, with what it presents and the token it will be issued. */
  datatype Caller = Caller(jti: string, token: string, now: int, requested: Option<string>, active: bool, issue: Issue)

  /** How far a call has come; Found keeps what the find returned. */
  datatype Call =
    | Found(index: nat, subject: Subject)
    | Expiring(index: nat)
    | Stored(index: nat, jti: string)
    | Rotated
    | Refused(error: AuthError)

  datatype Race = Race(records: seq<Record>, calls: map<nat, Call>)

  /** The find and every check made on the record it returned. */
  function Find(cfg: Config, rs: seq<Record>, c: Caller): Call {
    match FindFirst(rs, Presents(c.jti, c.token))
    case None => Refused(InvalidToken)
    case Some(i) =>
      var r := rs[i];
      var key := ResolveAppKey(cfg, r.subject.appKey);
      if r.revoked then Refused(InvalidToken)
      else if r.expiresAt <= c.now then Expiring(i)
      else if c.requested.Some? && c.requested.value != "" && ResolveAppKey(cfg, c.requested.value) != key
              && r.subject.role != "super_admin"
      then Refused(AppKeyMismatch)
      else if r.subject.role != "super_admin" && !c.active then Refused(TenantInactive)
      else Found(i, Rekeyed(cfg, r.subject))
  }

  function Retire(rs: seq<Record>, i: nat, jti: string, now: int): seq<Record>
    requires i < |rs|
  {
    rs[i := rs[i].(revoked := true, revokedAt := Some(now), replacedBy := Some(jti))]
  }

  /** The next database call of caller id. */
  function Turn(cfg: Config, w: Race, id: nat, c: Caller): Race {
    if id !in w.calls then w.(calls := w.calls[id := Find(cfg, w.records, c)])
    else
      match w.calls[id]
      case Found(i, s) => Race(w.records + [NewRecord(c.issue, s)], w.calls[id := Stored(i, c.issue.jti)])
      case Stored(i, jti) =>
        if i < |w.records| then Race(Retire(w.records, i, jti, c.now), w.calls[id := Rotated]) else w
      case Expiring(i) =>
        if i < |w.records| then Race(Revoke(w.records, i, c.now), w.calls[id := Refused(ExpiredToken)]) else w
      case Rotated => w
      case Refused(e) => w
  }

  /** A rotation's next database call, or a login or a logout. */
  datatype Move =
    | Takes(id: nat)
    | LogsIn(user: Subject, requested: string, active: bool, issue: Issue)
    | LogsOut(jti: string, token: string, now: int)

  function Make(cfg: Config, w: Race, callers: nat -> Caller, m: Move): Race {
    match m
    case Takes(id) => Turn(cfg, w, id, callers(id))
    case LogsIn(user, requested, active, n) => w.(records := Login(cfg, w.records, user, requested, active, n).0)
    case LogsOut(jti, token, now) => w.(records := Logout(w.records, jti, token, now))
  }

  /** The moves happen in the order of the schedule. */
  function Play(cfg: Config, rs: seq<Record>, callers: nat -> Caller, schedule: seq<Move>): Race {
    if |schedule| == 0 then Race(rs, map[])
    else Make(cfg, Play(cfg, rs, callers, schedule[..|schedule| - 1]), callers, schedule[|schedule| - 1])
  }

  function Turns(schedule: seq<Move>, id: nat): nat {
    if |schedule| == 0 then 0
    else Turns(schedule[..|schedule| - 1], id) + if schedule[|schedule| - 1] == Takes(id) then 1 else 0
  }

  /** Three turns in a row are exactly one atomic rotation. */
  lemma UninterruptedIsRotate(cfg: Config, rs: seq<Record>, c: Caller)
    ensures Play(cfg, rs, (id: nat) => c, [Takes(0), Takes(0), Takes(0)]).records
         == Rotate(cfg, rs, c.jti, c.token, c.now, c.requested, c.active, c.issue).0
  {
    var callers := (id: nat) => c;
    var one, two, three := [Takes(0)], [Takes(0), Takes(0)], [Takes(0), Takes(0), Takes(0)];
    var w1 := Race(rs, map[0 := Find(cfg, rs, c)]);
    assert Play(cfg, rs, callers, one) == w1 by { assert one[..0] == []; }
    assert Play(cfg, rs, callers, two) == Turn(cfg, w1, 0, c) by { assert two[..1] == one; }
    assert Play(cfg, rs, callers, three) == Turn(cfg, Turn(cfg, w1, 0, c), 0, c) by { assert three[..2] == two; }
    if w1.calls[0].Found? {
      RetireAfterStore(rs, w1.calls[0].index, c.issue, w1.calls[0].subject, c.now);
    }
  }

  // ---- The rotations of one token ----

  /** The token at an index of the stored records, and what every caller presents and is issued. */
  datatype Contest = Contest(cfg: Config, start: seq<Record>, index: nat, callers: nat -> Caller)

  /** The caller presents the contested token. */
  predicate Races(c: Contest, id: nat) {
    c.index < |c.start| && Presents(c.callers(id).jti, c.callers(id).token)(c.start[c.index])
  }

  /** The token that a racing caller will be issued. */
  ghost predicate IsPrize(c: Contest, jti: string) {
    exists id :: Races(c, id) && c.callers(id).issue.jti == jti
  }

  function Winner(c: Contest): Call
    requires c.index < |c.start|
  {
    Found(c.index, Rekeyed(c.cfg, c.start[c.index].subject))
  }

  /** The contested token is live, every racing caller would be served if it came alone, and issued tokens are new. */
  ghost predicate Fair(c: Contest) {
    && c.index < |c.start| && !c.start[c.index].revoked && OnToken(c, c.start)
    && (forall id | Races(c, id) :: Find(c.cfg, c.start, c.callers(id)) == Winner(c))
    && (forall id :: !IsPrize(c, c.callers(id).jti))
    && (forall id, other | Races(c, id) && other != id :: c.callers(id).issue.jti != c.callers(other).issue.jti)
  }

  /** A lookup of the contested token finds its record. */
  predicate OnToken(c: Contest, rs: seq<Record>) {
    c.index < |c.start| <= |rs| && SameRecord(c.start[c.index], rs[c.index])
    && FindFirst(rs, Presents(c.start[c.index].jti, c.start[c.index].token)) == Some(c.index)
  }

  predicate SameRecord(a: Record, b: Record) {
    b.jti == a.jti && b.token == a.token && b.subject == a.subject && b.expiresAt == a.expiresAt
  }

  /** Other logins and logouts keep clear of the successors. */
  ghost predicate Apart(c: Contest, m: Move) {
    match m
    case Takes(id) => true
    case LogsIn(user, requested, active, n) => !IsPrize(c, n.jti)
    case LogsOut(jti, token, now) => !IsPrize(c, jti)
  }

  /** The move is a logout of the contested token. */
  predicate Ends(c: Contest, m: Move) {
    m.LogsOut? && c.index < |c.start| && Presents(m.jti, m.token)(c.start[c.index])
  }

  predicate Ended(c: Contest, schedule: seq<Move>) {
    exists m | m in schedule :: Ends(c, m)
  }

  /** The contested token has been logged out, or retired by a third turn. */
  ghost predicate Gone(c: Contest, schedule: seq<Move>) {
    Ended(c, schedule) || exists id :: Races(c, id) && Turns(schedule, id) >= 3
  }

  /** The token is gone before the first turn of id. */
  ghost predicate Overtaken(c: Contest, schedule: seq<Move>, id: nat) {
    exists k :: 0 <= k < |schedule| && schedule[k] == Takes(id) && Turns(schedule[..k], id) == 0
                && Gone(c, schedule[..k])
  }

  /** A live stored record of the token issued to caller id. */
  ghost predicate LiveSuccessor(c: Contest, rs: seq<Record>, id: nat) {
    exists k :: |c.start| <= k < |rs| && rs[k].jti == c.callers(id).issue.jti && !rs[k].revoked
  }

  // ---- What holds at every moment ----

  /** What has happened so far: each caller's turns, whether it was overtaken, and whether the token is gone. */
  datatype Score = Score(turns: nat -> nat, overtaken: nat -> bool, gone: bool)

  predicate HasStored(c: Contest, t: Score, id: nat) {
    Races(c, id) && t.turns(id) >= 2 && !t.overtaken(id)
  }

  /** The record is live and was issued to a racing caller that was not overtaken. */
  ghost predicate Deserved(c: Contest, r: Record, t: Score) {
    !r.revoked && exists id :: HasStored(c, t, id) && r.jti == c.callers(id).issue.jti
  }

  ghost predicate RecordsAt(c: Contest, now: seq<Record>, t: Score) {
    && OnToken(c, now) && (now[c.index].revoked <==> t.gone)
    && (forall k | |c.start| <= k < |now| && IsPrize(c, now[k].jti) :: Deserved(c, now[k], t))
    && forall id | HasStored(c, t, id) :: LiveSuccessor(c, now, id)
  }

  function CallAfter(c: Contest, id: nat, turns: nat, overtaken: bool): Call
    requires c.index < |c.start|
  {
    if overtaken then Refused(InvalidToken)
    else if turns == 1 then Winner(c)
    else if turns == 2 then Stored(c.index, c.callers(id).issue.jti)
    else Rotated
  }

  /** The state of a racing call is what its number of turns says. */
  predicate CallIs(c: Contest, calls: map<nat, Call>, id: nat, t: Score)
    requires c.index < |c.start|
  {
    if t.turns(id) == 0 then id !in calls
    else id in calls && calls[id] == CallAfter(c, id, t.turns(id), t.overtaken(id))
  }

  /** A call that is under way holds the index of the token it presented. */
  predicate Holds(rs: seq<Record>, call: Call, caller: Caller) {
    call.Found? || call.Expiring? || call.Stored? ==>
      call.index < |rs| && Presents(caller.jti, caller.token)(rs[call.index])
  }

  ghost predicate CallsAt(c: Contest, w: Race, t: Score)
    requires c.index < |c.start|
  {
    && (forall id | Races(c, id) :: CallIs(c, w.calls, id, t) && (t.overtaken(id) ==> t.gone))
    && forall id | id in w.calls && !Races(c, id) :: Holds(w.records, w.calls[id], c.callers(id))
  }

  ghost predicate RaceAt(c: Contest, w: Race, t: Score) {
    RecordsAt(c, w.records, t) && CallsAt(c, w, t)
  }

  /** How one move changes the score. */
  ghost predicate Scores(c: Contest, m: Move, t: Score, u: Score) {
    match m
    case Takes(id) =>
      && u.turns(id) == t.turns(id) + 1
      && u.overtaken(id) == (if t.turns(id) == 0 then t.gone else t.overtaken(id))
      && (forall x | x != id :: u.turns(x) == t.turns(x) && u.overtaken(x) == t.overtaken(x))
      && (u.gone <==> t.gone || (Races(c, id) && t.turns(id) == 2))
    case LogsIn(user, requested, active, n) => SameTurns(c, t, u) && u.gone == t.gone
    case LogsOut(jti, token, now) => SameTurns(c, t, u) && (u.gone <==> t.gone || Ends(c, m))
  }

  ghost predicate SameTurns(c: Contest, t: Score, u: Score) {
    forall x | Races(c, x) :: u.turns(x) == t.turns(x) && u.overtaken(x) == t.overtaken(x)
  }

  // ---- Moves that leave the race alone ----

  /** The stored records keep their identities; the contested one and the successors are untouched, and no new successor
      appears. */
  ghost predicate LeavesAlone(c: Contest, a: seq<Record>, b: seq<Record>) {
    && SamePlaces(a, b)
    && (forall k | 0 <= k < |a| && (k == c.index || IsPrize(c, a[k].jti)) :: b[k] == a[k])
    && forall k | |a| <= k < |b| :: !IsPrize(c, b[k].jti)
  }

  predicate SamePlaces(a: seq<Record>, b: seq<Record>) {
    |a| <= |b| && forall k | 0 <= k < |a| :: SameRecord(a[k], b[k])
  }

  lemma TokenStays(c: Contest, a: seq<Record>, b: seq<Record>)
    requires OnToken(c, a) && SamePlaces(a, b)
    ensures OnToken(c, b)
  {
    var p := Presents(c.start[c.index].jti, c.start[c.index].token);
    assert p(a[c.index]) && p(b[c.index]);
    var f := FindFirst(b, p).value;
    assert p(b[f]) && (f < |a| ==> p(a[f]));
  }

  lemma QuietRecords(c: Contest, a: seq<Record>, b: seq<Record>, t: Score, u: Score)
    requires RecordsAt(c, a, t) && LeavesAlone(c, a, b) && SameTurns(c, t, u) && u.gone == t.gone
    ensures RecordsAt(c, b, u)
  {
    TokenStays(c, a, b);
    forall k | |c.start| <= k < |b| && IsPrize(c, b[k].jti) ensures Deserved(c, b[k], u) {
      assert k < |a| && Deserved(c, a[k], t);
      var id :| HasStored(c, t, id) && a[k].jti == c.callers(id).issue.jti;
      assert HasStored(c, u, id);
    }
    forall id | HasStored(c, u, id) ensures LiveSuccessor(c, b, id) {
      assert HasStored(c, t, id);
      StaysLive(c, a, b, id);
    }
  }

  lemma StaysLive(c: Contest, a: seq<Record>, b: seq<Record>, id: nat)
    requires LiveSuccessor(c, a, id) && LeavesAlone(c, a, b) && Races(c, id)
    ensures LiveSuccessor(c, b, id)
  {
    var k :| |c.start| <= k < |a| && a[k].jti == c.callers(id).issue.jti && !a[k].revoked;
    assert IsPrize(c, a[k].jti) && b[k] == a[k];
  }

  lemma QuietCalls(c: Contest, w: Race, v: Race, t: Score, u: Score)
    requires c.index < |c.start| && CallsAt(c, w, t) && SamePlaces(w.records, v.records)
    requires SameTurns(c, t, u) && u.gone == t.gone
    requires forall x | Races(c, x) :: (x in v.calls <==> x in w.calls) && (x in v.calls ==> v.calls[x] == w.calls[x])
    requires forall x | x in v.calls && !Races(c, x) ::
               (x in w.calls && v.calls[x] == w.calls[x]) || Holds(v.records, v.calls[x], c.callers(x))
    ensures CallsAt(c, v, u)
  {
    forall x | Races(c, x) ensures CallIs(c, v.calls, x, u) && (u.overtaken(x) ==> u.gone) {
      assert CallIs(c, w.calls, x, t);
    }
    forall x | x in v.calls && !Races(c, x) ensures Holds(v.records, v.calls[x], c.callers(x)) {
      if x in w.calls && v.calls[x] == w.calls[x] { assert Holds(w.records, w.calls[x], c.callers(x)); }
    }
  }

  /** A lookup by another pair finds another record. */
  lemma OtherRecord(c: Contest, rs: seq<Record>, jti: string, token: string, i: nat)
    requires OnToken(c, rs) && i < |rs| && Presents(jti, token)(rs[i]) && !IsPrize(c, jti)
    requires !Presents(jti, token)(c.start[c.index])
    ensures i != c.index && !IsPrize(c, rs[i].jti)
  {
  }

  /** A turn of a caller that presents another token. */
  lemma OutsiderTurn(c: Contest, w: Race, id: nat, t: Score, u: Score)
    requires Fair(c) && RaceAt(c, w, t) && Scores(c, Takes(id), t, u) && !Races(c, id)
    ensures RaceAt(c, Turn(c.cfg, w, id, c.callers(id)), u)
  {
    var v := Turn(c.cfg, w, id, c.callers(id));
    if id !in w.calls {
      OutsiderFinds(c, w, id);
    } else {
      assert Holds(w.records, w.calls[id], c.callers(id));
      OutsiderWrite(c, w, id);
    }
    QuietRecords(c, w.records, v.records, t, u);
    QuietCalls(c, w, v, t, u);
  }

  lemma OutsiderFinds(c: Contest, w: Race, id: nat)
    requires id !in w.calls
    ensures var v := Turn(c.cfg, w, id, c.callers(id));
      LeavesAlone(c, w.records, v.records) && id in v.calls && Holds(v.records, v.calls[id], c.callers(id))
  {
    var caller := c.callers(id);
    var found := FindFirst(w.records, Presents(caller.jti, caller.token));
    if found.Some? { assert Presents(caller.jti, caller.token)(w.records[found.value]); }
  }

  lemma OutsiderWrite(c: Contest, w: Race, id: nat)
    requires Fair(c) && OnToken(c, w.records) && !Races(c, id)
    requires id in w.calls && Holds(w.records, w.calls[id], c.callers(id))
    ensures var v := Turn(c.cfg, w, id, c.callers(id));
      LeavesAlone(c, w.records, v.records) && id in v.calls && Holds(v.records, v.calls[id], c.callers(id))
  {
    var call, caller := w.calls[id], c.callers(id);
    if call.Stored? || call.Expiring? {
      OtherRecord(c, w.records, caller.jti, caller.token, call.index);
    }
    if call.Found? {
      assert !IsPrize(c, caller.issue.jti);
    }
  }

  lemma LoginMove(c: Contest, w: Race, m: Move, t: Score, u: Score)
    requires RaceAt(c, w, t) && m.LogsIn? && Apart(c, m) && Scores(c, m, t, u)
    ensures RaceAt(c, Make(c.cfg, w, c.callers, m), u)
  {
    var v := Make(c.cfg, w, c.callers, m);
    assert LeavesAlone(c, w.records, v.records);
    QuietRecords(c, w.records, v.records, t, u);
    QuietCalls(c, w, v, t, u);
  }

  lemma LogoutMove(c: Contest, w: Race, m: Move, t: Score, u: Score)
    requires RaceAt(c, w, t) && m.LogsOut? && Apart(c, m) && Scores(c, m, t, u)
    ensures RaceAt(c, Make(c.cfg, w, c.callers, m), u)
  {
    var v := Make(c.cfg, w, c.callers, m);
    var found := FindFirst(w.records, Presents(m.jti, m.token));
    if Ends(c, m) {
      assert v.records == Revoke(w.records, c.index, m.now);
      GoneNow(c, w.records, v.records, t, u);
      GoneCalls(c, w, v, t, u);
    } else {
      if found.Some? {
        assert Presents(m.jti, m.token)(w.records[found.value]);
        OtherRecord(c, w.records, m.jti, m.token, found.value);
      }
      QuietRecords(c, w.records, v.records, t, u);
      QuietCalls(c, w, v, t, u);
    }
  }

  // ---- Moves of the race ----

  /** Only the contested record changes, and it is revoked. */
  ghost predicate RevokesToken(c: Contest, a: seq<Record>, b: seq<Record>) {
    && c.index < |a| == |b| && SameRecord(a[c.index], b[c.index]) && b[c.index].revoked
    && forall k | 0 <= k < |a| && k != c.index :: b[k] == a[k]
  }

  lemma GoneNow(c: Contest, a: seq<Record>, b: seq<Record>, t: Score, u: Score)
    requires RecordsAt(c, a, t) && RevokesToken(c, a, b) && u.gone
    requires forall id :: HasStored(c, u, id) <==> HasStored(c, t, id)
    ensures RecordsAt(c, b, u)
  {
    TokenStays(c, a, b);
    forall k | |c.start| <= k < |b| && IsPrize(c, b[k].jti) ensures Deserved(c, b[k], u) {
      assert b[k] == a[k] && Deserved(c, a[k], t);
    }
    forall id | HasStored(c, u, id) ensures LiveSuccessor(c, b, id) {
      assert HasStored(c, t, id) && LiveSuccessor(c, a, id);
      var k :| |c.start| <= k < |a| && a[k].jti == c.callers(id).issue.jti && !a[k].revoked;
      assert b[k] == a[k];
    }
  }

  lemma GoneCalls(c: Contest, w: Race, v: Race, t: Score, u: Score)
    requires c.index < |c.start| && CallsAt(c, w, t) && SamePlaces(w.records, v.records) && v.calls == w.calls
    requires SameTurns(c, t, u) && u.gone
    ensures CallsAt(c, v, u)
  {
    forall x | Races(c, x) ensures CallIs(c, v.calls, x, u) {
      assert CallIs(c, w.calls, x, t);
    }
    forall x | x in v.calls && !Races(c, x) ensures Holds(v.records, v.calls[x], c.callers(x)) {
      assert Holds(w.records, w.calls[x], c.callers(x));
    }
  }

  lemma RacerTurn(c: Contest, w: Race, id: nat, t: Score, u: Score)
    requires Fair(c) && RaceAt(c, w, t) && Scores(c, Takes(id), t, u) && Races(c, id)
    ensures RaceAt(c, Turn(c.cfg, w, id, c.callers(id)), u)
  {
    assert CallIs(c, w.calls, id, t);
    RacerCalls(c, w, id, t, u);
    if t.turns(id) == 1 && !t.overtaken(id) {
      StoreRecords(c, w, id, t, u);
    } else if t.turns(id) == 2 && !t.overtaken(id) {
      RetireRecords(c, w, id, t, u);
    } else {
      IdleRecords(c, w, id, t, u);
    }
  }

  /** What a racing caller's find returns. */
  lemma RacerFinds(c: Contest, now: seq<Record>, id: nat)
    requires Fair(c) && OnToken(c, now) && Races(c, id)
    ensures Find(c.cfg, now, c.callers(id)) == if now[c.index].revoked then Refused(InvalidToken) else Winner(c)
  {
    assert Find(c.cfg, c.start, c.callers(id)) == Winner(c);
  }

  lemma OwnCall(c: Contest, w: Race, id: nat, t: Score, u: Score)
    requires Fair(c) && RaceAt(c, w, t) && Scores(c, Takes(id), t, u) && Races(c, id)
    ensures var v := Turn(c.cfg, w, id, c.callers(id));
      && CallIs(c, v.calls, id, u) && (u.overtaken(id) ==> u.gone) && SamePlaces(w.records, v.records)
      && forall x | x != id :: (x in v.calls <==> x in w.calls) && (x in v.calls ==> v.calls[x] == w.calls[x])
  {
    assert CallIs(c, w.calls, id, t);
    RacerFinds(c, w.records, id);
  }

  lemma RacerCalls(c: Contest, w: Race, id: nat, t: Score, u: Score)
    requires Fair(c) && RaceAt(c, w, t) && Scores(c, Takes(id), t, u) && Races(c, id)
    ensures CallsAt(c, Turn(c.cfg, w, id, c.callers(id)), u)
  {
    var v := Turn(c.cfg, w, id, c.callers(id));
    OwnCall(c, w, id, t, u);
    forall x | Races(c, x) && x != id ensures CallIs(c, v.calls, x, u) && (u.overtaken(x) ==> u.gone) {
      assert CallIs(c, w.calls, x, t);
    }
    forall x | x in v.calls && !Races(c, x) ensures Holds(v.records, v.calls[x], c.callers(x)) {
      assert Holds(w.records, w.calls[x], c.callers(x));
    }
  }

  lemma IdleRecords(c: Contest, w: Race, id: nat, t: Score, u: Score)
    requires Fair(c) && RaceAt(c, w, t) && Scores(c, Takes(id), t, u) && Races(c, id)
    requires t.turns(id) == 0 || t.turns(id) >= 3 || t.overtaken(id)
    ensures RecordsAt(c, Turn(c.cfg, w, id, c.callers(id)).records, u)
  {
    assert CallIs(c, w.calls, id, t);
    assert Turn(c.cfg, w, id, c.callers(id)).records == w.records;
    forall x ensures HasStored(c, u, x) <==> HasStored(c, t, x) {
    }
    forall k | |c.start| <= k < |w.records| && IsPrize(c, w.records[k].jti) ensures Deserved(c, w.records[k], u) {
      assert Deserved(c, w.records[k], t);
    }
  }

  lemma StoreRecords(c: Contest, w: Race, id: nat, t: Score, u: Score)
    requires Fair(c) && RaceAt(c, w, t) && Scores(c, Takes(id), t, u) && Races(c, id)
    requires t.turns(id) == 1 && !t.overtaken(id)
    ensures RecordsAt(c, Turn(c.cfg, w, id, c.callers(id)).records, u)
  {
    var a, r := w.records, NewRecord(c.callers(id).issue, Winner(c).subject);
    assert CallIs(c, w.calls, id, t);
    assert Turn(c.cfg, w, id, c.callers(id)).records == a + [r];
    TokenStays(c, a, a + [r]);
    assert HasStored(c, u, id);
    forall x | HasStored(c, t, x) ensures HasStored(c, u, x) {
    }
    forall k | |c.start| <= k < |a + [r]| && IsPrize(c, (a + [r])[k].jti) ensures Deserved(c, (a + [r])[k], u) {
      if k < |a| { assert Deserved(c, a[k], t); }
    }
    forall x | HasStored(c, u, x) ensures LiveSuccessor(c, a + [r], x) {
      if x == id {
        assert (a + [r])[|a|] == r;
      } else {
        assert HasStored(c, t, x);
        LiveBefore(c, a, r, x);
      }
    }
  }

  lemma LiveBefore(c: Contest, a: seq<Record>, r: Record, id: nat)
    requires LiveSuccessor(c, a, id)
    ensures LiveSuccessor(c, a + [r], id)
  {
    var k :| |c.start| <= k < |a| && a[k].jti == c.callers(id).issue.jti && !a[k].revoked;
    assert (a + [r])[k] == a[k];
  }

  lemma RetireRecords(c: Contest, w: Race, id: nat, t: Score, u: Score)
    requires Fair(c) && RaceAt(c, w, t) && Scores(c, Takes(id), t, u) && Races(c, id)
    requires t.turns(id) == 2 && !t.overtaken(id)
    ensures RecordsAt(c, Turn(c.cfg, w, id, c.callers(id)).records, u)
  {
    assert CallIs(c, w.calls, id, t);
    var b := Turn(c.cfg, w, id, c.callers(id)).records;
    assert b == Retire(w.records, c.index, c.callers(id).issue.jti, c.callers(id).now);
    forall x ensures HasStored(c, u, x) <==> HasStored(c, t, x) {
    }
    GoneNow(c, w.records, b, t, u);
  }

  lemma RaceStep(c: Contest, w: Race, m: Move, t: Score, u: Score)
    requires Fair(c) && RaceAt(c, w, t) && Apart(c, m) && Scores(c, m, t, u)
    ensures RaceAt(c, Make(c.cfg, w, c.callers, m), u)
  {
    match m
    case Takes(id) => if Races(c, id) { RacerTurn(c, w, id, t, u); } else { OutsiderTurn(c, w, id, t, u); }
    case LogsIn(user, requested, active, n) => LoginMove(c, w, m, t, u);
    case LogsOut(jti, token, now) => LogoutMove(c, w, m, t, u);
  }

  // ---- From moves to schedules ----

  ghost function ScoreOf(c: Contest, schedule: seq<Move>): Score {
    Score((id: nat) => Turns(schedule, id), (id: nat) => Overtaken(c, schedule, id), Gone(c, schedule))
  }

  lemma {:induction false} TurnsGrow(schedule: seq<Move>, j: nat, k: nat, id: nat)
    requires j <= k <= |schedule|
    ensures Turns(schedule[..j], id) <= Turns(schedule[..k], id)
  {
    if j == k {
    } else {
      TurnsGrow(schedule, j, k - 1, id);
      assert schedule[..k][..k - 1] == schedule[..k - 1];
    }
  }

  lemma TurnAt(schedule: seq<Move>, k: nat)
    requires k < |schedule| && schedule[k].Takes?
    ensures Turns(schedule, schedule[k].id) > 0
  {
    assert schedule[..k + 1][..k] == schedule[..k];
    TurnsGrow(schedule, k + 1, |schedule|, schedule[k].id);
    assert schedule[..|schedule|] == schedule;
  }

  lemma TurnsStep(front: seq<Move>, m: Move, id: nat)
    ensures Turns(front + [m], id) == Turns(front, id) + if m == Takes(id) then 1 else 0
  {
    assert (front + [m])[..|front|] == front;
  }

  lemma GoneStep(c: Contest, front: seq<Move>, m: Move)
    ensures Gone(c, front + [m]) <==>
              Gone(c, front) || Ends(c, m) || (m.Takes? && Races(c, m.id) && Turns(front, m.id) == 2)
  {
    forall id ensures Turns(front + [m], id) == Turns(front, id) + if m == Takes(id) then 1 else 0 {
      TurnsStep(front, m, id);
    }
    assert Ended(c, front + [m]) <==> Ended(c, front) || Ends(c, m) by {
      assert m in front + [m] && forall x | x in front :: x in front + [m];
    }
    if id :| Races(c, id) && Turns(front, id) >= 3 {
      assert Turns(front + [m], id) >= 3;
    }
    if id :| Races(c, id) && Turns(front + [m], id) >= 3 {
      assert Turns(front, id) >= 3 || m == Takes(id);
    }
  }

  lemma OvertakenStep(c: Contest, front: seq<Move>, m: Move, x: nat)
    ensures Overtaken(c, front + [m], x) <==>
              if m == Takes(x) && Turns(front, x) == 0 then Gone(c, front) else Overtaken(c, front, x)
  {
    var longer := front + [m];
    assert forall k | 0 <= k <= |front| :: longer[..k] == front[..k];
    assert front[..|front|] == front;
    if Overtaken(c, front, x) {
      var k :| 0 <= k < |front| && front[k] == Takes(x) && Turns(front[..k], x) == 0 && Gone(c, front[..k]);
      assert longer[k] == Takes(x) && Turns(longer[..k], x) == 0 && Gone(c, longer[..k]);
      TurnAt(front, k);
    }
    if Overtaken(c, longer, x) {
      var k :| 0 <= k < |longer| && longer[k] == Takes(x) && Turns(longer[..k], x) == 0 && Gone(c, longer[..k]);
      if k < |front| {
        assert front[k] == Takes(x) && Turns(front[..k], x) == 0 && Gone(c, front[..k]);
        TurnAt(front, k);
      }
    }
    if m == Takes(x) && Turns(front, x) == 0 && Gone(c, front) {
      assert longer[|front|] == Takes(x) && Gone(c, longer[..|front|]);
    }
  }

  lemma ScoreStep(c: Contest, front: seq<Move>, m: Move)
    ensures Scores(c, m, ScoreOf(c, front), ScoreOf(c, front + [m]))
  {
    GoneStep(c, front, m);
    forall x
      ensures Turns(front + [m], x) == Turns(front, x) + if m == Takes(x) then 1 else 0
      ensures Overtaken(c, front + [m], x) <==>
                if m == Takes(x) && Turns(front, x) == 0 then Gone(c, front) else Overtaken(c, front, x)
    {
      TurnsStep(front, m, x);
      OvertakenStep(c, front, m, x);
    }
  }

  lemma {:induction false} RaceHolds(c: Contest, schedule: seq<Move>)
    requires Fair(c) && forall m | m in schedule :: Apart(c, m)
    ensures RaceAt(c, Play(c.cfg, c.start, c.callers, schedule), ScoreOf(c, schedule))
  {
    if |schedule| == 0 {
    } else {
      var front, m := schedule[..|schedule| - 1], schedule[|schedule| - 1];
      assert schedule == front + [m] && forall x | x in front :: x in schedule;
      RaceHolds(c, front);
      ScoreStep(c, front, m);
      RaceStep(c, Play(c.cfg, c.start, c.callers, front), m, ScoreOf(c, front), ScoreOf(c, schedule));
    }
  }

  /** However many callers rotate one token, in whatever interleaving with rotations of other tokens, logins and
      logouts: a racing caller that has stored leaves a live successor exactly when the token was neither retired nor
      logged out before its find. */
  lemma LiveIff(c: Contest, schedule: seq<Move>, id: nat)
    requires Fair(c) && Races(c, id) && Turns(schedule, id) >= 2 && forall m | m in schedule :: Apart(c, m)
    ensures LiveSuccessor(c, Play(c.cfg, c.start, c.callers, schedule).records, id) <==> !Overtaken(c, schedule, id)
  {
    RaceHolds(c, schedule);
    var now, t := Play(c.cfg, c.start, c.callers, schedule).records, ScoreOf(c, schedule);
    if LiveSuccessor(c, now, id) {
      var k :| |c.start| <= k < |now| && now[k].jti == c.callers(id).issue.jti && !now[k].revoked;
      assert IsPrize(c, now[k].jti) && Deserved(c, now[k], t);
      var x :| HasStored(c, t, x) && now[k].jti == c.callers(x).issue.jti;
      assert x == id;
    }
    if !Overtaken(c, schedule, id) {
      assert HasStored(c, t, id);
    }
  }

  // ---- One and two rotations ----

  lemma {:induction false} FirstTurn(schedule: seq<Move>, p: nat) returns (k: nat)
    requires Turns(schedule, p) > 0
    ensures k < |schedule| && schedule[k] == Takes(p) && Turns(schedule[..k], p) == 0
  {
    var n := |schedule| - 1;
    if Turns(schedule[..n], p) == 0 {
      k := n;
    } else {
      k := FirstTurn(schedule[..n], p);
      assert schedule[..n][..k] == schedule[..k];
    }
  }

  lemma NotBefore(schedule: seq<Move>, k: nat, m: nat, p: nat)
    requires k <= |schedule| && Turns(schedule[..k], p) == 0 && m < |schedule| && schedule[m] == Takes(p)
    ensures k <= m
  {
    if m < k {
      TurnAt(schedule[..k], m);
    }
  }

  lemma {:induction false} Absent(schedule: seq<Move>, id: nat)
    requires Takes(id) !in schedule
    ensures Turns(schedule, id) == 0
  {
    if |schedule| == 0 {
    } else {
      assert forall x | x in schedule[..|schedule| - 1] :: x in schedule;
      Absent(schedule[..|schedule| - 1], id);
    }
  }

  /** No racing callers but p and q take part. */
  predicate Between(c: Contest, schedule: seq<Move>, p: nat, q: nat) {
    forall m | m in schedule :: m.Takes? && Races(c, m.id) ==> m.id == p || m.id == q
  }

  /** p takes its first turn, the find, before q's third, the retire, and before any logout of the token. */
  predicate FindsInTime(c: Contest, schedule: seq<Move>, p: nat, q: nat) {
    exists k :: 0 <= k < |schedule| && schedule[k] == Takes(p) && !Ended(c, schedule[..k])
                && (p == q || Turns(schedule[..k], q) < 3)
  }

  lemma GoneBeforeFirst(c: Contest, schedule: seq<Move>, p: nat, q: nat, first: nat)
    requires Between(c, schedule, p, q) && Races(c, q)
    requires first <= |schedule| && Turns(schedule[..first], p) == 0
    ensures Gone(c, schedule[..first]) <==>
              Ended(c, schedule[..first]) || (p != q && Turns(schedule[..first], q) >= 3)
  {
    if x :| Races(c, x) && Turns(schedule[..first], x) >= 3 {
      if Takes(x) !in schedule[..first] { Absent(schedule[..first], x); }
      assert Takes(x) in schedule;
    }
  }

  lemma OvertakenIff(c: Contest, schedule: seq<Move>, p: nat, q: nat)
    requires Between(c, schedule, p, q) && Races(c, q) && Turns(schedule, p) > 0
    ensures Overtaken(c, schedule, p) <==> !FindsInTime(c, schedule, p, q)
  {
    var first := FirstTurn(schedule, p);
    GoneBeforeFirst(c, schedule, p, q, first);
    if Overtaken(c, schedule, p) {
      var k :| 0 <= k < |schedule| && schedule[k] == Takes(p) && Turns(schedule[..k], p) == 0 && Gone(c, schedule[..k]);
      NotBefore(schedule, k, first, p);
      NotBefore(schedule, first, k, p);
    }
    if FindsInTime(c, schedule, p, q) {
      var k :| 0 <= k < |schedule| && schedule[k] == Takes(p) && !Ended(c, schedule[..k])
               && (p == q || Turns(schedule[..k], q) < 3);
      NotBefore(schedule, first, k, p);
      TurnsGrow(schedule, first, k, q);
      assert forall m | m in schedule[..first] :: m in schedule[..k];
    }
  }

  /** Two rotations of one token leave two live successors exactly when each finds the token before the other retires it
      and before anyone logs it out. */
  lemma TwoRotationsForkIff(c: Contest, schedule: seq<Move>, p: nat, q: nat)
    requires Fair(c) && forall m | m in schedule :: Apart(c, m)
    requires Races(c, p) && Races(c, q) && p != q && Between(c, schedule, p, q)
    requires Turns(schedule, p) >= 3 && Turns(schedule, q) >= 3
    ensures var after := Play(c.cfg, c.start, c.callers, schedule).records;
      LiveSuccessor(c, after, p) && LiveSuccessor(c, after, q)
      <==> FindsInTime(c, schedule, p, q) && FindsInTime(c, schedule, q, p)
  {
    LiveIff(c, schedule, p);
    LiveIff(c, schedule, q);
    OvertakenIff(c, schedule, p, q);
    OvertakenIff(c, schedule, q, p);
  }

  /** A single rotation survives the logout of the token it presented exactly when its find comes first. */
  lemma LogoutTooLateIff(c: Contest, schedule: seq<Move>, p: nat)
    requires Fair(c) && forall m | m in schedule :: Apart(c, m)
    requires Races(c, p) && Between(c, schedule, p, p) && Turns(schedule, p) >= 2
    ensures LiveSuccessor(c, Play(c.cfg, c.start, c.callers, schedule).records, p) <==>
              exists k :: 0 <= k < |schedule| && schedule[k] == Takes(p) && !Ended(c, schedule[..k])
  {
    LiveIff(c, schedule, p);
    OvertakenIff(c, schedule, p, p);
  }

  /** The token a login has just issued can be contested by any callers that present it in time and on an active tenant.
      */
  lemma LoginIsContest(cfg: Config, rs: seq<Record>, user: Subject, requested: string, n: Issue, callers: nat -> Caller)
    requires Login(cfg, rs, user, requested, true, n).1.Ok? && Unused(rs, n.jti)
    requires forall id | callers(id).jti == n.jti && callers(id).token == n.token ::
               callers(id).now < n.expiresAt && callers(id).requested.None? && callers(id).active
    requires forall id, other :: callers(id).jti != callers(other).issue.jti
    requires forall id, other | id != other :: callers(id).issue.jti != callers(other).issue.jti
    ensures Fair(Contest(cfg, Login(cfg, rs, user, requested, true, n).0, |rs|, callers))
  {
    var c := Contest(cfg, Login(cfg, rs, user, requested, true, n).0, |rs|, callers);
    var p := Presents(n.jti, n.token);
    assert p(c.start[|rs|]);
    assert forall k | 0 <= k < |rs| :: c.start[k] == rs[k] && rs[k] in rs && !p(c.start[k]);
    assert FindFirst(c.start, p) == Some(|rs|);
    forall id | Races(c, id) ensures Find(cfg, c.start, callers(id)) == Winner(c) {
      assert callers(id).jti == n.jti && callers(id).token == n.token;
    }
  }
}
