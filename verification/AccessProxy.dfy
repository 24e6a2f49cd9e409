/** The access proxy's gate: which requests are forwarded, on which recorded grant, and which sign-in
    nonces are accepted. A step is one critical section under the proxy's mutex; the hub's answers,
    the random session values and the clock are parameters. */
module AccessProxy {
  import opened Collections
  import opened GoStrings
  import opened ProxyCaches

  datatype Credential = Cookie(value: string) | Bearer(token: string)

  datatype Event =
    | Allowed(who: Credential, userId: string, at: Time, ttl: int)
    | Denied(token: string, status: nat, at: Time)
    | Forwarded(who: Credential, at: Time)

  datatype State = State(
    sessions: map<string, Session>, used: map<string, Time>,
    sessionSweep: Time, usedSweep: Time, log: seq<Event>)

  /** verifyBearer's outcomes. */
  datatype HubAnswer = Grant(userId: string, ttlSeconds: Int64) | Refuse(status: nat) | Unclear(status: nat)

  datatype Label =
    | SignIn(value: string, userId: string, ttlSeconds: Int64, now: Time, out: set<string>)
    | Visit(cookies: seq<string>, now: Time)
    | Present(token: string, now: Time)
    | Judge(token: string, answer: HubAnswer, now: Time, out: set<string>)
    | Spend(nonce: string, expiresAt: Time, now: Time, out: set<string>)

  function SessionExpiry(s: Session): Time { s.expiresAt }
  function NonceExpiry(t: Time): Time { t }

  function SessionsAt(s: State, now: Time): map<string, Session> {
    Swept(s.sessions, SessionExpiry, s.sessionSweep, now, MAX_SESSIONS)
  }

  function UsedAt(s: State, now: Time): map<string, Time> {
    Swept(s.used, NonceExpiry, s.usedSweep, now, MAX_USED)
  }

  /** The state after a sweep at `now`, with `sessions` in place. */
  function WithSessions(s: State, now: Time, sessions: map<string, Session>): State {
    s.(sessions := sessions, sessionSweep := SweptAt(s.sessions, s.sessionSweep, now, MAX_SESSIONS))
  }

  function WithEvents(s: State, events: seq<Event>): State {
    s.(log := s.log + events)
  }

  /** currentSession: the first cookie with a live session; cookies that resolve to nothing live
      lose their entry. */
  function Resolve(h: Hash, m: map<string, Session>, cookies: seq<string>, now: Time)
    : (Option<string>, map<string, Session>)
    decreases |cookies|
  {
    if cookies == [] then (None, m)
    else
      var value, rest := cookies[0], cookies[1..];
      var key := SessionKey(h, value);
      if TrimSpace(value) == "" || (key in m && m[key].bearer) then Resolve(h, m, rest, now)
      else if key in m && now < m[key].expiresAt then (Some(value), m)
      else Resolve(h, m - {key}, rest, now)
  }

  /** The cookie has a live session among `m`. */
  predicate Opens(h: Hash, m: map<string, Session>, cookie: string, now: Time) {
    TrimSpace(cookie) != "" && Hit(m, SessionExpiry, SessionKey(h, cookie), now) && !m[SessionKey(h, cookie)].bearer
  }

  /** The token has a live verdict among `m`. */
  predicate Vouches(h: Hash, m: map<string, Session>, token: string, now: Time) {
    Hit(m, SessionExpiry, BearerKey(h, token), now) && m[BearerKey(h, token)].bearer
  }

  /** What decides a bearer request: the live cached verdict, else the hub's grant, where relaying is on. */
  predicate Passes(h: Hash, m: map<string, Session>, token: string, relayAllowed: bool, answer: HubAnswer, now: Time) {
    HasPrefix(token, "fapp_") &&
    if Vouches(h, m, token, now) then m[BearerKey(h, token)].denyStatus == 0 else relayAllowed && answer.Grant?
  }

  /** The cookie names an expired session of `m`, under this key. */
  predicate Dead(h: Hash, m: map<string, Session>, cookie: string, k: string, now: Time) {
    TrimSpace(cookie) != "" && k == SessionKey(h, cookie) && k in m && !m[k].bearer && m[k].expiresAt <= now
  }

  /** `n` cookies were passed over that open no session; the next one, if there is one, does. */
  ghost predicate FirstOpen(h: Hash, m: map<string, Session>, cookies: seq<string>, now: Time, n: nat,
                            found: Option<string>) {
    && n <= |cookies| && (forall j | 0 <= j < n :: !Opens(h, m, cookies[j], now))
    && if n < |cookies| then Opens(h, m, cookies[n], now) && found == Some(cookies[n]) else found == None
  }

  /** Of `m` exactly the expired sessions of the first `n` cookies were dropped. */
  ghost predicate DeadDropped(h: Hash, m: map<string, Session>, cookies: seq<string>, now: Time, n: nat,
                              after: map<string, Session>) {
    && n <= |cookies|
    && (forall k :: k in after <==> k in m && forall j | 0 <= j < n :: !Dead(h, m, cookies[j], k, now))
    && forall k | k in after :: after[k] == m[k]
  }

  ghost predicate Settles(h: Hash, m: map<string, Session>, cookies: seq<string>, now: Time, n: nat,
                          found: Option<string>, after: map<string, Session>) {
    FirstOpen(h, m, cookies, now, n, found) && DeadDropped(h, m, cookies, now, n, after)
  }

  lemma {:induction false} ResolveSettles(h: Hash, m: map<string, Session>, cookies: seq<string>, now: Time)
    returns (n: nat)
    ensures var r := Resolve(h, m, cookies, now);
            Settles(h, m, cookies, now, n, r.0, r.1)
    decreases |cookies|
  {
    hide TrimSpace, Settles;
    n := 0;
    if cookies == [] || Opens(h, m, cookies[0], now) {
      SettlesNow(h, m, cookies, now);
    } else {
      var m' := Passed(h, m, cookies[0]);
      var r := Resolve(h, m, cookies, now);
      assert r == Resolve(h, m', cookies[1..], now);
      var before := ResolveSettles(h, m', cookies[1..], now);
      n := before + 1;
      SettlesLater(h, m, cookies, now, before, r.0, r.1);
    }
  }

  /** The sessions after a cookie that opens none was looked at. */
  function Passed(h: Hash, m: map<string, Session>, cookie: string): map<string, Session> {
    var key := SessionKey(h, cookie);
    if TrimSpace(cookie) == "" || (key in m && m[key].bearer) then m else m - {key}
  }

  lemma SettlesNow(h: Hash, m: map<string, Session>, cookies: seq<string>, now: Time)
    requires cookies == [] || Opens(h, m, cookies[0], now)
    ensures var r := Resolve(h, m, cookies, now);
            Settles(h, m, cookies, now, 0, r.0, r.1)
  {
    hide TrimSpace;
  }

  lemma PassedIs(h: Hash, m: map<string, Session>, cookie: string, now: Time)
    requires !Opens(h, m, cookie, now)
    ensures var m' := Passed(h, m, cookie);
            && (forall k | k in m' :: k in m && m'[k] == m[k])
            && (forall c :: Opens(h, m', c, now) <==> Opens(h, m, c, now))
            && (forall k | k in m :: k in m' <==> !Dead(h, m, cookie, k, now))
            && (forall c, k | k in m' :: Dead(h, m', c, k, now) <==> Dead(h, m, c, k, now))
  {
    hide TrimSpace, SessionKey;
  }

  lemma SettlesLater(h: Hash, m: map<string, Session>, cookies: seq<string>, now: Time, n: nat,
                     found: Option<string>, after: map<string, Session>)
    requires cookies != [] && !Opens(h, m, cookies[0], now)
    requires Settles(h, Passed(h, m, cookies[0]), cookies[1..], now, n, found, after)
    ensures Settles(h, m, cookies, now, n + 1, found, after)
  {
    hide Opens, Dead, Passed, FirstOpen, DeadDropped;
    PassedIs(h, m, cookies[0], now);
    OpensLater(h, m, Passed(h, m, cookies[0]), cookies, now, n, found);
    DropsLater(h, m, Passed(h, m, cookies[0]), cookies, now, n, after);
  }

  lemma OpensLater(h: Hash, m: map<string, Session>, m': map<string, Session>, cookies: seq<string>, now: Time, n: nat,
                   found: Option<string>)
    requires cookies != [] && !Opens(h, m, cookies[0], now) && FirstOpen(h, m', cookies[1..], now, n, found)
    requires forall c :: Opens(h, m', c, now) <==> Opens(h, m, c, now)
    ensures FirstOpen(h, m, cookies, now, n + 1, found)
  {
    hide Opens;
    forall j | 0 <= j < n + 1
      ensures !Opens(h, m, cookies[j], now)
    {
      if j > 0 { assert !Opens(h, m', cookies[1..][j - 1], now); }
    }
  }

  lemma DropsLater(h: Hash, m: map<string, Session>, m': map<string, Session>, cookies: seq<string>, now: Time, n: nat,
                   after: map<string, Session>)
    requires cookies != [] && DeadDropped(h, m', cookies[1..], now, n, after)
    requires forall k | k in m' :: k in m && m'[k] == m[k]
    requires forall k | k in m :: k in m' <==> !Dead(h, m, cookies[0], k, now)
    requires forall c, k | k in m' :: Dead(h, m', c, k, now) <==> Dead(h, m, c, k, now)
    ensures DeadDropped(h, m, cookies, now, n + 1, after)
  {
    hide Dead;
    forall k
      ensures k in after <==> k in m && forall j | 0 <= j < n + 1 :: !Dead(h, m, cookies[j], k, now)
    {
      if k in m { DroppedLater(h, m, m', cookies, now, n, k); }
    }
  }

  lemma DroppedLater(h: Hash, m: map<string, Session>, m': map<string, Session>, cookies: seq<string>, now: Time,
                     n: nat, k: string)
    requires n < |cookies| && k in m && (k in m' <==> !Dead(h, m, cookies[0], k, now))
    requires forall c | k in m' :: Dead(h, m', c, k, now) <==> Dead(h, m, c, k, now)
    ensures (k in m' && forall j | 0 <= j < n :: !Dead(h, m', cookies[1..][j], k, now)) <==>
            forall j | 0 <= j < n + 1 :: !Dead(h, m, cookies[j], k, now)
  {
    hide Dead;
    assert forall j | 0 < j < n + 1 :: cookies[j] == cookies[1..][j - 1];
    if k in m' {
      if forall j | 0 <= j < n :: !Dead(h, m', cookies[1..][j], k, now) {
        forall j | 0 <= j < n + 1 ensures !Dead(h, m, cookies[j], k, now) {
          if j > 0 { assert !Dead(h, m', cookies[1..][j - 1], k, now); }
        }
      } else {
        var j :| 0 <= j < n && Dead(h, m', cookies[1..][j], k, now);
        assert Dead(h, m, cookies[j + 1], k, now);
      }
    }
  }

  /** Which cookies open a session does not depend on the sweep, and no live bearer verdict is dropped. */
  lemma SettlesAll(h: Hash, s: State, cookies: seq<string>, now: Time, n: nat)
    requires var r := Resolve(h, SessionsAt(s, now), cookies, now);
             Settles(h, SessionsAt(s, now), cookies, now, n, r.0, r.1)
    ensures var r := Resolve(h, SessionsAt(s, now), cookies, now);
            && (r.0.Some? <==> exists i :: 0 <= i < |cookies| && Opens(h, s.sessions, cookies[i], now))
            && (r.0.Some? ==>
                  exists i :: && 0 <= i < |cookies| && Opens(h, s.sessions, cookies[i], now)
                              && (forall j | 0 <= j < i :: !Opens(h, s.sessions, cookies[j], now))
                              && r.0.value == cookies[i])
            && (forall k | k in r.1 :: k in s.sessions && r.1[k] == s.sessions[k])
            && forall k | k in s.sessions && s.sessions[k].bearer && now < s.sessions[k].expiresAt :: k in r.1
  {
    hide TrimSpace, Resolve;
    var m := SessionsAt(s, now);
    assert forall c :: Opens(h, m, c, now) <==> Opens(h, s.sessions, c, now);
    assert forall k | k in s.sessions && s.sessions[k].bearer && now < s.sessions[k].expiresAt :: k in m;
  }

  ghost predicate SignInStep(h: Hash, s: State, l: Label, s': State)
    requires l.SignIn?
  {
    var m := SessionsAt(s, l.now);
    var ttl := SessionTtl(l.ttlSeconds);
    && Evicted(m, SessionExpiry, MAX_SESSIONS, l.out)
    && s' == WithEvents(
              WithSessions(s, l.now, (m - l.out)[SessionKey(h, l.value) := Session(l.userId, false, 0, l.now + ttl)]),
              [Allowed(Cookie(l.value), l.userId, l.now, ttl)])
  }

  ghost predicate VisitStep(h: Hash, s: State, l: Label, s': State, found: Option<string>)
    requires l.Visit?
  {
    var r := Resolve(h, SessionsAt(s, l.now), l.cookies, l.now);
    && found == r.0
    && s' == WithEvents(WithSessions(s, l.now, r.1),
                        if found.Some? then [Forwarded(Cookie(found.value), l.now)] else [])
  }

  /** cachedBearerVerdict */
  function Cached(h: Hash, m: map<string, Session>, token: string, now: Time): Option<Session> {
    var key := BearerKey(h, token);
    if key in m && m[key].bearer && now < m[key].expiresAt then Some(m[key]) else None
  }

  ghost predicate PresentStep(h: Hash, s: State, l: Label, s': State, verdict: Option<Session>)
    requires l.Present?
  {
    var m := SessionsAt(s, l.now);
    && verdict == Cached(h, m, l.token, l.now)
    && s' == WithEvents(
              WithSessions(s, l.now, if verdict.Some? then m else m - {BearerKey(h, l.token)}),
              if verdict.Some? && verdict.value.denyStatus == 0 then [Forwarded(Bearer(l.token), l.now)] else [])
  }

  /** putBearerVerdict */
  ghost predicate Put(h: Hash, s: State, token: string, verdict: Session, now: Time, out: set<string>,
                      sessions: map<string, Session>) {
    var m := SessionsAt(s, now);
    var key := BearerKey(h, token);
    && (if key in m then out == {} else Evicted(m, SessionExpiry, MAX_SESSIONS, out))
    && sessions == (m - out)[key := verdict]
  }

  ghost predicate JudgeStep(h: Hash, s: State, l: Label, s': State)
    requires l.Judge?
  {
    match l.answer
    case Grant(userId, seconds) =>
      var ttl := BearerTtl(seconds);
      exists sessions ::
        && Put(h, s, l.token, Session(userId, true, 0, l.now + ttl), l.now, l.out, sessions)
        && s' == WithEvents(WithSessions(s, l.now, sessions),
                            [Allowed(Bearer(l.token), userId, l.now, ttl), Forwarded(Bearer(l.token), l.now)])
    case Refuse(status) =>
      exists sessions ::
        && status != 0
        && Put(h, s, l.token, Session("", true, status, l.now + DENY_TTL), l.now, l.out, sessions)
        && s' == WithEvents(WithSessions(s, l.now, sessions), [Denied(l.token, status, l.now)])
    case Unclear(_) => s' == s
  }

  /** markStateUsed; decodeReturnState admits no empty nonce. */
  ghost predicate SpendStep(s: State, l: Label, s': State, accepted: bool)
    requires l.Spend?
  {
    var m := UsedAt(s, l.now);
    && l.nonce != ""
    && accepted == (l.nonce !in m)
    && (if accepted then Evicted(m, NonceExpiry, MAX_USED, l.out) else l.out == {})
    && s' == s.(used := if accepted then (m - l.out)[l.nonce := l.expiresAt] else m,
                usedSweep := SweptAt(s.used, s.usedSweep, l.now, MAX_USED))
  }

  ghost predicate Step(h: Hash, s: State, l: Label, s': State) {
    match l
    case SignIn(_, _, _, _, _) => SignInStep(h, s, l, s')
    case Visit(_, _) => exists found :: VisitStep(h, s, l, s', found)
    case Present(_, _) => exists verdict :: PresentStep(h, s, l, s', verdict)
    case Judge(_, _, _, _) => JudgeStep(h, s, l, s')
    case Spend(_, _, _, _) => exists accepted :: SpendStep(s, l, s', accepted)
  }

  ghost predicate Path(h: Hash, states: seq<State>, labels: seq<Label>) {
    && |states| == |labels| + 1
    && forall n | 0 <= n < |labels| :: Step(h, states[n], labels[n], states[n + 1])
  }

  /** Some steps lead from one state to the other. */
  ghost predicate Leads(h: Hash, s: State, t: State) {
    exists states: seq<State>, labels: seq<Label> ::
      Path(h, states, labels) && states[0] == s && states[|labels|] == t
  }

  lemma LeadsHere(h: Hash, s: State)
    ensures Leads(h, s, s)
  {
    var states, labels: seq<Label> := [s], [];
    assert Path(h, states, labels) && states[|labels|] == s;
  }

  lemma LeadsOn(h: Hash, s: State, t: State, l: Label, u: State)
    requires Leads(h, s, t) && Step(h, t, l, u)
    ensures Leads(h, s, u)
  {
    hide Step;
    var states: seq<State>, labels: seq<Label> :|
      Path(h, states, labels) && states[0] == s && states[|labels|] == t;
    var states', labels' := states + [u], labels + [l];
    forall n | 0 <= n < |labels'|
      ensures Step(h, states'[n], labels'[n], states'[n + 1])
    {
      if n < |labels| {
        assert states'[n] == states[n] && states'[n + 1] == states[n + 1] && labels'[n] == labels[n];
      }
    }
    assert Path(h, states', labels') && states'[0] == s && states'[|labels'|] == u;
  }

  lemma LeadsThrough(h: Hash, s: State, l: Label, t: State, u: State)
    requires Step(h, s, l, t) && Leads(h, t, u)
    ensures Leads(h, s, u)
  {
    hide Step;
    var states: seq<State>, labels: seq<Label> :|
      Path(h, states, labels) && states[0] == t && states[|labels|] == u;
    var states', labels' := [s] + states, [l] + labels;
    forall n | 0 <= n < |labels'|
      ensures Step(h, states'[n], labels'[n], states'[n + 1])
    {
      if n > 0 {
        assert states'[n] == states[n - 1] && states'[n + 1] == states[n] && labels'[n] == labels[n - 1];
      }
    }
    assert Path(h, states', labels') && states'[0] == s && states'[|labels'|] == u;
  }

  // ----- the proxy object -----

  class Proxy {
    const h: Hash
    var sessions: map<string, Session>
    var used: map<string, Time>
    var sessionSweep: Time
    var usedSweep: Time
    var log: seq<Event>

    ghost function View(): State
      reads this
    {
      State(sessions, used, sessionSweep, usedSweep, log)
    }

    ghost predicate Valid()
      reads this
    {
      "" !in sessions && "" !in used && HexHash(h)
    }

    constructor (h: Hash)
      requires HexHash(h)
      ensures Valid() && this.h == h && View() == State(map[], map[], 0, 0, [])
    {
      this.h := h;
      sessions, used, sessionSweep, usedSweep, log := map[], map[], 0, 0, [];
    }

    /** sweepSessionsLocked: at most one full pass per interval unless the map is full. */
    method SweepSessions(now: Time)
      modifies this`sessions, this`sessionSweep
      ensures View() == WithSessions(old(View()), now, SessionsAt(old(View()), now))
      ensures sessions.Keys <= old(sessions.Keys)
    {
      if now - sessionSweep < SWEEP_INTERVAL && |sessions| < MAX_SESSIONS { return; }
      sessionSweep := now;
      sessions := Expire(sessions, SessionExpiry, now);
    }

    method SweepUsed(now: Time)
      modifies this`used, this`usedSweep
      ensures View() == old(View()).(used := UsedAt(old(View()), now),
                                     usedSweep := SweptAt(old(used), old(usedSweep), now, MAX_USED))
      ensures used.Keys <= old(used.Keys)
    {
      if now - usedSweep < SWEEP_INTERVAL && |used| < MAX_USED { return; }
      usedSweep := now;
      used := Expire(used, NonceExpiry, now);
    }

    /** The sign-in that putSession completes. */
    method PutSession(value: string, userId: string, ttlSeconds: Int64, now: Time) returns (ghost out: set<string>)
      requires Valid()
      modifies this
      ensures Valid()
      ensures SignInStep(h, old(View()), Label.SignIn(value, userId, ttlSeconds, now, out), View())
      ensures SessionKey(h, value) in sessions
      ensures sessions[SessionKey(h, value)] == Session(userId, false, 0, now + SessionTtl(ttlSeconds))
      ensures OthersStay(old(sessions), sessions, SessionExpiry, 20_000, SessionKey(h, value), now)
    {
      hide Evicted, SessionsAt, HexHash, SessionTtl, SessionKey, SweptAt, OthersStay;
      ghost var s := View();
      var ttl := ClampTtl(ttlSeconds);
      KeysApart(h, value, value);
      out := MakeRoom(now);
      sessions := sessions[SessionKey(h, value) := Session(userId, false, 0, now + ttl)];
      EntryStays(s, now, out, SessionKey(h, value), Session(userId, false, 0, now + ttl));
      log := log + [Allowed(Cookie(value), userId, now, ttl)];
    }

    /** The sweep and the eviction loop before a new entry. */
    method MakeRoom(now: Time) returns (ghost out: set<string>)
      requires "" !in sessions
      modifies this`sessions, this`sessionSweep
      ensures "" !in sessions
      ensures Evicted(SessionsAt(old(View()), now), SessionExpiry, MAX_SESSIONS, out)
      ensures View() == WithSessions(old(View()), now, SessionsAt(old(View()), now) - out)
    {
      hide Evicted, Swept;
      SweepSessions(now);
      sessions, out := EvictUntilRoom(sessions, SessionExpiry, MAX_SESSIONS);
    }

    /** The sweep, and the eviction loop unless the key has an entry. */
    method MakeRoomFor(key: string, now: Time) returns (ghost out: set<string>)
      requires "" !in sessions
      modifies this`sessions, this`sessionSweep
      ensures "" !in sessions
      ensures if key in SessionsAt(old(View()), now) then out == {}
              else Evicted(SessionsAt(old(View()), now), SessionExpiry, MAX_SESSIONS, out)
      ensures View() == WithSessions(old(View()), now, SessionsAt(old(View()), now) - out)
    {
      hide Evicted, Swept;
      SweepSessions(now);
      out := {};
      if key in sessions {
        assert sessions - {} == sessions;
      } else {
        sessions, out := EvictUntilRoom(sessions, SessionExpiry, MAX_SESSIONS);
      }
    }

    method CurrentSession(cookies: seq<string>, now: Time) returns (found: Option<string>)
      requires Valid()
      modifies this
      ensures Valid()
      ensures VisitStep(h, old(View()), Label.Visit(cookies, now), View(), found)
      ensures found.Some? <==> exists i :: 0 <= i < |cookies| && Opens(h, old(sessions), cookies[i], now)
      ensures exists n :: Settles(h, SessionsAt(old(View()), now), cookies, now, n, found, sessions)
      ensures found.Some? ==>
                exists i :: && 0 <= i < |cookies| && Opens(h, old(sessions), cookies[i], now)
                            && (forall j | 0 <= j < i :: !Opens(h, old(sessions), cookies[j], now))
                            && found.value == cookies[i]
      ensures forall k | k in sessions :: k in old(sessions) && sessions[k] == old(sessions)[k]
      ensures forall k | k in old(sessions) && old(sessions)[k].bearer && now < old(sessions)[k].expiresAt ::
                k in sessions
    {
      hide Opens, Settles, SessionsAt, SweptAt, HexHash, TrimSpace, SessionKey;
      ghost var n := ResolveSettles(h, SessionsAt(View(), now), cookies, now);
      SettlesAll(h, View(), cookies, now, n);
      SweepSessions(now);
      ghost var m := sessions;
      var i := 0;
      assert cookies[0..] == cookies;
      while i < |cookies|
        invariant 0 <= i <= |cookies| && "" !in sessions
        invariant View() == WithSessions(old(View()), now, sessions)
        invariant Resolve(h, m, cookies, now) == Resolve(h, sessions, cookies[i..], now)
      {
        var key := SessionKey(h, cookies[i]);
        assert cookies[i..][1..] == cookies[i + 1..];
        if TrimSpace(cookies[i]) != "" && !(key in sessions && sessions[key].bearer) {
          if key in sessions && now < sessions[key].expiresAt {
            log := log + [Forwarded(Cookie(cookies[i]), now)];
            return Some(cookies[i]);
          }
          sessions := sessions - {key};
        }
        i := i + 1;
      }
      assert log + [] == log;
      return None;
    }

    method CachedVerdict(token: string, now: Time) returns (verdict: Option<Session>)
      requires Valid()
      modifies this
      ensures Valid()
      ensures PresentStep(h, old(View()), Label.Present(token, now), View(), verdict)
      ensures verdict.Some? <==> Vouches(h, old(sessions), token, now)
      ensures verdict.Some? ==> verdict.value == old(sessions)[BearerKey(h, token)]
      ensures BearerKey(h, token) in sessions <==> verdict.Some?
    {
      SweepSessions(now);
      var key := BearerKey(h, token);
      assert log + [] == log;
      if key !in sessions {
        assert sessions - {key} == sessions;
        return None;
      }
      if !sessions[key].bearer || now >= sessions[key].expiresAt {
        sessions := sessions - {key};
        return None;
      }
      verdict := Some(sessions[key]);
      if verdict.value.denyStatus == 0 { log := log + [Forwarded(Bearer(token), now)]; }
    }

    method PutVerdict(token: string, verdict: Session, now: Time) returns (ghost out: set<string>)
      requires Valid()
      modifies this`sessions, this`sessionSweep
      ensures Valid()
      ensures View() == WithSessions(old(View()), now, sessions)
      ensures Put(h, old(View()), token, verdict, now, out, sessions)
      ensures BearerKey(h, token) in sessions && sessions[BearerKey(h, token)] == verdict
      ensures OthersStay(old(sessions), sessions, SessionExpiry, 20_000, BearerKey(h, token), now)
    {
      hide Evicted, SessionsAt, SweptAt, HexHash, OthersStay, Put, BearerKey;
      ghost var s := View();
      var key := BearerKey(h, token);
      out := MakeRoomFor(key, now);
      sessions := sessions[key := verdict];
      Puts(h, s, token, verdict, now, out);
      EntryStays(s, now, out, key, verdict);
    }

    /** What authorizeBearer does with the hub's answer. */
    method Conclude(token: string, answer: HubAnswer, now: Time) returns (forward: bool, ghost out: set<string>)
      requires Valid() && (answer.Refuse? ==> answer.status == 401 || answer.status == 403)
      modifies this
      ensures Valid()
      ensures JudgeStep(h, old(View()), Label.Judge(token, answer, now, out), View())
      ensures forward == answer.Grant?
      ensures answer.Grant? ==>
                && BearerKey(h, token) in sessions
                && sessions[BearerKey(h, token)] == Session(answer.userId, true, 0, now + BearerTtl(answer.ttlSeconds))
      ensures answer.Refuse? ==>
                && BearerKey(h, token) in sessions
                && sessions[BearerKey(h, token)] == Session("", true, answer.status, now + 30 * 1_000_000_000)
      ensures answer.Unclear? ==> sessions == old(sessions)
      ensures !answer.Unclear? ==> OthersStay(old(sessions), sessions, SessionExpiry, 20_000, BearerKey(h, token), now)
    {
      hide Put, Swept, HexHash, Wrap64, OthersStay;
      out := {};
      match answer {
        case Grant(userId, seconds) =>
          var ttl: int := Seconds(seconds);
          if ttl <= 0 || ttl > BEARER_CAP { ttl := BEARER_CAP; }
          out := PutVerdict(token, Session(userId, true, 0, now + ttl), now);
          log := log + [Allowed(Bearer(token), userId, now, ttl), Forwarded(Bearer(token), now)];
          forward := true;
        case Refuse(status) =>
          out := PutVerdict(token, Session("", true, status, now + DENY_TTL), now);
          log := log + [Denied(token, status, now)];
          forward := false;
        case Unclear(_) => forward := false;
      }
    }

    /** authorizeBearer: the cached verdict, else the hub's. Other requests may run between the two;
        each half is a step of its own. */
    method AuthorizeBearer(token: string, relayAllowed: bool, answer: HubAnswer, now: Time, later: Time)
      returns (forward: bool)
      requires Valid() && (answer.Refuse? ==> answer.status == 401 || answer.status == 403)
      modifies this
      ensures Valid()
      ensures Leads(h, old(View()), View())
      ensures Decides(old(log), log, forward)
      ensures forward ==> Last(log).who == Bearer(token) && HasPrefix(token, APP_TOKEN)
      ensures forward <==> Passes(h, old(sessions), token, relayAllowed, answer, now)
    {
      hide PresentStep, JudgeStep, Put, HexHash, Leads;
      ghost var before := View();
      LeadsHere(h, before);
      if token == "" || !HasPrefix(token, APP_TOKEN) { return false; }
      var verdict := CachedVerdict(token, now);
      ghost var looked := View();
      CachedDecides(h, before, token, now, looked, verdict);
      LeadsOn(h, before, before, Label.Present(token, now), looked);
      if verdict.Some? { return verdict.value.denyStatus == 0; }
      if !relayAllowed { return false; }
      ghost var out;
      forward, out := Conclude(token, answer, later);
      LeadsOn(h, before, looked, Label.Judge(token, answer, later, out), View());
      JudgeDecides(h, looked, Label.Judge(token, answer, later, out), View());
    }

    /** The gate in front of every private route: a live cookie session, else a bearer credential;
        a browser without either is sent to sign in. */
    method Gate(cookies: seq<string>, credential: Option<string>, relayAllowed: bool, answer: HubAnswer, now: Time,
                later: Time)
      returns (forward: bool)
      requires Valid() && (answer.Refuse? ==> answer.status == 401 || answer.status == 403)
      modifies this
      ensures Valid()
      ensures Leads(h, old(View()), View())
      ensures Decides(old(log), log, forward)
      ensures forward ==> Last(log).who.Cookie? || (credential.Some? && Last(log).who == Bearer(credential.value))
      ensures forward <==> (exists i :: 0 <= i < |cookies| && Opens(h, old(sessions), cookies[i], now))
                           || (credential.Some? &&
                               Passes(h, old(sessions), credential.value, relayAllowed, answer, now))
      ensures (exists i :: 0 <= i < |cookies| && Opens(h, old(sessions), cookies[i], now)) ==>
                exists i :: && 0 <= i < |cookies| && Opens(h, old(sessions), cookies[i], now)
                            && (forall j | 0 <= j < i :: !Opens(h, old(sessions), cookies[j], now))
                            && Last(log) == Forwarded(Cookie(cookies[i]), now)
    {
      hide VisitStep, HexHash, Leads, Opens, Passes, Settles, SessionsAt;
      ghost var before := View();
      var found := CurrentSession(cookies, now);
      ghost var looked := View();
      VisitDecides(h, before, cookies, now, looked, found);
      LeadsHere(h, before);
      LeadsOn(h, before, before, Label.Visit(cookies, now), looked);
      if found.Some? { return true; }
      if credential.None? { return false; }
      PassesStill(h, before.sessions, sessions, credential.value, relayAllowed, answer, now);
      forward := AuthorizeBearer(credential.value, relayAllowed, answer, now, later);
      LeadsThrough(h, before, Label.Visit(cookies, now), looked, View());
    }

    method MarkStateUsed(nonce: string, expiresAt: Time, now: Time) returns (accepted: bool, ghost out: set<string>)
      requires Valid() && nonce != ""
      modifies this
      ensures Valid()
      ensures SpendStep(old(View()), Label.Spend(nonce, expiresAt, now, out), View(), accepted)
      ensures accepted <==>
                || nonce !in old(used)
                || (&& old(used)[nonce] <= now
                    && (now - old(usedSweep) >= 30 * 1_000_000_000 || |old(used)| >= 5_000))
      ensures nonce in used && used[nonce] == if accepted then expiresAt else old(used)[nonce]
      ensures OthersStay(old(used), used, NonceExpiry, 5_000, nonce, now)
    {
      hide Evicted, Swept, SweptAt, HexHash, OthersStay, SpendStep;
      ghost var s := View();
      SweptIs(s.used, NonceExpiry, s.usedSweep, now, MAX_USED, nonce);
      SweepUsed(now);
      out := {};
      if nonce in used {
        PutStays(s.used, NonceExpiry, s.usedSweep, now, MAX_USED, {}, nonce, used[nonce]);
        assert (used - {})[nonce := used[nonce]] == used;
        Spends(s, nonce, expiresAt, now, {}, false, View());
        return false, {};
      }
      used, out := EvictUntilRoom(used, NonceExpiry, MAX_USED);
      used := used[nonce := expiresAt];
      PutStays(s.used, NonceExpiry, s.usedSweep, now, MAX_USED, out, nonce, expiresAt);
      Spends(s, nonce, expiresAt, now, out, true, View());
      return true, out;
    }
  }

  lemma Puts(h: Hash, s: State, token: string, verdict: Session, now: Time, out: set<string>)
    requires var m := SessionsAt(s, now);
             if BearerKey(h, token) in m then out == {} else Evicted(m, SessionExpiry, MAX_SESSIONS, out)
    ensures Put(h, s, token, verdict, now, out, (SessionsAt(s, now) - out)[BearerKey(h, token) := verdict])
    ensures BearerKey(h, token) != ""
  {
    hide Evicted, SessionsAt;
  }

  lemma Spends(s: State, nonce: string, expiresAt: Time, now: Time, out: set<string>, accepted: bool, s': State)
    requires nonce != "" && accepted == (nonce !in UsedAt(s, now))
    requires if accepted then Evicted(UsedAt(s, now), NonceExpiry, MAX_USED, out) else out == {}
    requires s' == s.(used := if accepted then (UsedAt(s, now) - out)[nonce := expiresAt] else UsedAt(s, now),
                      usedSweep := SweptAt(s.used, s.usedSweep, now, MAX_USED))
    ensures SpendStep(s, Label.Spend(nonce, expiresAt, now, out), s', accepted)
  {
    hide Evicted, UsedAt, SweptAt;
  }

  /** What a visit keeps of the sessions decides bearer requests as before. */
  lemma PassesStill(h: Hash, before: map<string, Session>, after: map<string, Session>, token: string,
                    relayAllowed: bool, answer: HubAnswer, now: Time)
    requires forall k | k in after :: k in before && after[k] == before[k]
    requires forall k | k in before && before[k].bearer && now < before[k].expiresAt :: k in after
    ensures Passes(h, after, token, relayAllowed, answer, now) <==> Passes(h, before, token, relayAllowed, answer, now)
  {
    hide HasPrefix, BearerKey;
  }

  lemma EntryStays(s: State, now: Time, out: set<string>, key: string, entry: Session)
    requires Evicted(SessionsAt(s, now), SessionExpiry, MAX_SESSIONS, out) || out == {}
    ensures OthersStay(s.sessions, (SessionsAt(s, now) - out)[key := entry], SessionExpiry, 20_000, key, now)
  {
    hide Evicted, Swept, OthersStay;
    PutStays(s.sessions, SessionExpiry, s.sessionSweep, now, MAX_SESSIONS, out, key, entry);
  }

  const APP_TOKEN := "fapp_"

  function Last(log: seq<Event>): Event
    requires log != []
  {
    log[|log| - 1]
  }

  /** A request is forwarded exactly when it ends in a forward event, its only one. */
  ghost predicate Decides(before: seq<Event>, after: seq<Event>, forward: bool) {
    && |before| <= |after|
    && (forward ==> |before| < |after| && Last(after).Forwarded?)
    && (forall i | |before| <= i < |after| && after[i].Forwarded? :: forward && i == |after| - 1)
  }

  lemma CachedDecides(h: Hash, s: State, token: string, now: Time, s': State, verdict: Option<Session>)
    requires PresentStep(h, s, Label.Present(token, now), s', verdict)
    ensures var forward := verdict.Some? && verdict.value.denyStatus == 0;
            && s'.log == s.log + (if forward then [Forwarded(Bearer(token), now)] else [])
            && Decides(s.log, s'.log, forward)
  {
    hide SessionsAt, SweptAt, Cached;
  }

  lemma VisitDecides(h: Hash, s: State, cookies: seq<string>, now: Time, s': State, found: Option<string>)
    requires VisitStep(h, s, Label.Visit(cookies, now), s', found)
    ensures s'.log == s.log + (if found.Some? then [Forwarded(Cookie(found.value), now)] else [])
    ensures Decides(s.log, s'.log, found.Some?)
  {
    hide SessionsAt, SweptAt, Resolve;
  }

  lemma JudgeDecides(h: Hash, s: State, l: Label, s': State)
    requires l.Judge? && JudgeStep(h, s, l, s')
    ensures Decides(s.log, s'.log, l.answer.Grant?)
    ensures l.answer.Grant? ==> Last(s'.log) == Forwarded(Bearer(l.token), l.now)
  {
    hide Put, SweptAt, BearerTtl;
  }

  /** The TTL branches of putSession. */
  method ClampTtl(seconds: Int64) returns (ttl: int)
    ensures ttl == SessionTtl(seconds)
  {
    ttl := Seconds(seconds);
    if ttl <= 0 { ttl := SESSION_DEFAULT; }
    if ttl > SESSION_CAP { ttl := SESSION_CAP; }
  }

  /** The full pass of a sweep. */
  method Expire<V(!new)>(m: map<string, V>, expiry: V -> Time, now: Time) returns (live: map<string, V>)
    ensures live == Live(m, expiry, now)
  {
    live := m;
    var todo := m.Keys;
    while todo != {}
      invariant todo <= live.Keys && live.Keys <= m.Keys
      invariant forall k | k in live :: live[k] == m[k] && (k in todo || now < expiry(m[k]))
      invariant forall k | k in m && k !in live :: now >= expiry(m[k])
      decreases |todo|
    {
      var k :| k in todo;
      if now >= expiry(m[k]) { live := live - {k}; }
      todo := todo - {k};
    }
  }
}
