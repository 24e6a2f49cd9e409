/** What the access proxy guarantees over every run. */
module ProxyTheorems {
  import opened Collections
  import opened GoStrings
  import opened ProxyCaches
  import opened AccessProxy

  ghost predicate Run(h: Hash, states: seq<State>, labels: seq<Label>) {
    && HexHash(h) && |states| == |labels| + 1
    && states[0] == State(map[], map[], states[0].sessionSweep, states[0].usedSweep, [])
    && forall n | 0 <= n < |labels| :: Step(h, states[n], labels[n], states[n + 1])
  }

  // ----- grants -----

  function CapOf(who: Credential): int {
    if who.Cookie? then SESSION_CAP else BEARER_CAP
  }

  /** The recorded allow covers a forward of the same credential, within its lifetime. */
  predicate Covers(a: Event, f: Event)
    requires f.Forwarded?
  {
    a.Allowed? && a.who == f.who && 0 < a.ttl <= CapOf(f.who) && f.at < a.at + a.ttl
  }

  /** The credential a verdict is about. */
  function Subject(e: Event): Option<Credential> {
    match e
    case Allowed(who, _, _, _) => Some(who)
    case Denied(token, _, _) => Some(Bearer(token))
    case Forwarded(_, _) => None
  }

  /** No verdict on the same credential between `j` and `end`. */
  ghost predicate Latest(log: seq<Event>, j: nat, end: nat)
    requires j < end <= |log|
  {
    forall n | j < n < end :: Subject(log[n]) == None || Subject(log[n]) != Subject(log[j])
  }

  /** Every forward rests on the last verdict on its credential, an allow within its lifetime. */
  ghost predicate Justified(log: seq<Event>) {
    forall i | 0 <= i < |log| && log[i].Forwarded? ::
      exists j :: 0 <= j < i && Covers(log[j], log[i]) && Latest(log, j, i)
  }

  /** The event an entry of the map was written for. */
  predicate Backs(h: Hash, e: Event, k: string, s: Session) {
    match e
    case Allowed(Cookie(value), userId, at, ttl) =>
      k == SessionKey(h, value) && s == Session(userId, false, 0, at + ttl) && 0 < ttl <= SESSION_CAP
    case Allowed(Bearer(token), userId, at, ttl) =>
      k == BearerKey(h, token) && s == Session(userId, true, 0, at + ttl) && 0 < ttl <= BEARER_CAP
    case Denied(token, status, at) =>
      k == BearerKey(h, token) && status != 0 && s == Session("", true, status, at + DENY_TTL)
    case Forwarded(_, _) => false
  }

  function KeyOf(h: Hash, who: Credential): string {
    if who.Cookie? then SessionKey(h, who.value) else BearerKey(h, who.token)
  }

  ghost predicate Backed(h: Hash, log: seq<Event>, k: string, s: Session) {
    exists j :: 0 <= j < |log| && Backs(h, log[j], k, s) && Latest(log, j, |log|)
  }

  ghost predicate AllBacked(h: Hash, sessions: map<string, Session>, log: seq<Event>) {
    forall k | k in sessions :: Backed(h, log, k, sessions[k])
  }

  /** Every entry rests on a recorded verdict, every forward on a recorded allow; both maps are
      within their caps and hold no empty key. */
  ghost predicate Inv(h: Hash, s: State) {
    && AllBacked(h, s.sessions, s.log)
    && Justified(s.log)
    && |s.sessions| <= MAX_SESSIONS && |s.used| <= MAX_USED
    && "" !in s.sessions && "" !in s.used
  }

  // ----- sub-maps -----

  lemma SubMapBacked(h: Hash, m: map<string, Session>, m': map<string, Session>, log: seq<Event>)
    requires AllBacked(h, m, log) && m'.Keys <= m.Keys && forall k | k in m' :: m'[k] == m[k]
    ensures AllBacked(h, m', log)
  {
  }

  /** A new event keeps every entry backed that it is not about. */
  lemma GrowBacked(h: Hash, m: map<string, Session>, log: seq<Event>, e: Event)
    requires AllBacked(h, m, log) && (Subject(e).Some? ==> KeyOf(h, Subject(e).value) !in m)
    ensures AllBacked(h, m, log + [e])
  {
    forall k | k in m
      ensures Backed(h, log + [e], k, m[k])
    {
      var j :| 0 <= j < |log| && Backs(h, log[j], k, m[k]) && Latest(log, j, |log|);
      assert (log + [e])[j] == log[j];
      assert k == KeyOf(h, Subject(log[j]).value);
      assert Latest(log + [e], j, |log| + 1);
    }
  }

  /** A verdict replaces the entry it is about. */
  lemma PutBacked(h: Hash, m: map<string, Session>, log: seq<Event>, k: string, s: Session, e: Event)
    requires AllBacked(h, m, log) && Backs(h, e, k, s)
    ensures AllBacked(h, m[k := s], log + [e])
  {
    SubMapBacked(h, m, m - {k}, log);
    assert Subject(e).Some? && KeyOf(h, Subject(e).value) == k;
    GrowBacked(h, m - {k}, log, e);
    assert (log + [e])[|log|] == e && Latest(log + [e], |log|, |log| + 1);
    assert Backed(h, log + [e], k, s);
  }

  lemma SubMapSize<V>(m: map<string, V>, m': map<string, V>)
    requires m'.Keys <= m.Keys
    ensures |m'| <= |m|
  {
    assert m.Keys == m'.Keys + (m.Keys - m'.Keys);
    assert |m| == |m.Keys| && |m'| == |m'.Keys|;
  }

  lemma PutSize<V>(m: map<string, V>, k: string, v: V)
    ensures |m[k := v]| == if k in m then |m| else |m| + 1
  {
    assert m[k := v].Keys == m.Keys + {k};
    assert |m| == |m.Keys| && |m[k := v]| == |m[k := v].Keys|;
  }

  /** There is room for one more after the eviction. */
  lemma EvictedSize<V(!new)>(m: map<string, V>, expiry: V -> Time, cap: nat, out: set<string>)
    requires Evicted(m, expiry, cap, out) && cap > 0
    ensures |m - out| < cap && (m - out).Keys <= m.Keys
  {
    assert (m - out).Keys == m.Keys - out;
    assert |m - out| == |m.Keys - out| && |m| == |m.Keys|;
    assert m.Keys == (m.Keys - out) + out;
  }

  ghost predicate Covered(log: seq<Event>, f: Event)
    requires f.Forwarded?
  {
    exists j :: 0 <= j < |log| && Covers(log[j], f) && Latest(log, j, |log|)
  }

  lemma JustifiedMore(log: seq<Event>, e: Event)
    requires Justified(log)
    requires e.Forwarded? ==> Covered(log, e)
    ensures Justified(log + [e])
  {
    hide Covers, Subject;
    var all := log + [e];
    forall i | 0 <= i < |all| && all[i].Forwarded?
      ensures exists j :: 0 <= j < i && Covers(all[j], all[i]) && Latest(all, j, i)
    {
      var j :| 0 <= j < i && Covers(log[j], all[i]) && Latest(log, j, i);
      assert all[j] == log[j] && Latest(all, j, i);
    }
  }

  /** A live entry under a credential's key that allows rests on an allow for that credential. */
  lemma HitCovered(h: Hash, sessions: map<string, Session>, log: seq<Event>, who: Credential, now: Time)
    requires HexHash(h) && AllBacked(h, sessions, log)
    requires KeyOf(h, who) in sessions
    requires sessions[KeyOf(h, who)].denyStatus == 0 && now < sessions[KeyOf(h, who)].expiresAt
    ensures Covered(log, Forwarded(who, now))
  {
    hide HexHash;
    var k := KeyOf(h, who);
    var j :| 0 <= j < |log| && Backs(h, log[j], k, sessions[k]) && Latest(log, j, |log|);
    SameCredential(h, log[j], k, sessions[k], who);
    assert Covers(log[j], Forwarded(who, now));
  }

  lemma SameCredential(h: Hash, e: Event, k: string, s: Session, who: Credential)
    requires HexHash(h) && Backs(h, e, k, s) && s.denyStatus == 0
    requires k == KeyOf(h, who)
    ensures e.Allowed? && e.who == who
  {
    hide HexHash;
    match e
    case Allowed(Cookie(value), _, _, _) =>
      if who.Cookie? { KeysApart(h, value, who.value); } else { KeysApart(h, value, who.token); }
    case Allowed(Bearer(token), _, _, _) =>
      if who.Cookie? { KeysApart(h, who.value, token); } else { KeysApart(h, token, who.token); }
    case Denied(_, _, _) =>
    case Forwarded(_, _) =>
  }

  lemma EntryKinds(h: Hash, sessions: map<string, Session>, log: seq<Event>, credential: string)
    requires HexHash(h) && AllBacked(h, sessions, log)
    ensures SessionKey(h, credential) in sessions ==> !sessions[SessionKey(h, credential)].bearer
    ensures BearerKey(h, credential) in sessions ==> sessions[BearerKey(h, credential)].bearer
  {
    hide HexHash;
    if SessionKey(h, credential) in sessions {
      var j :| 0 <= j < |log| && Backs(h, log[j], SessionKey(h, credential), sessions[SessionKey(h, credential)]);
      match log[j]
      case Allowed(Bearer(token), _, _, _) => KeysApart(h, credential, token);
      case Denied(token, _, _) => KeysApart(h, credential, token);
      case _ =>
    }
    if BearerKey(h, credential) in sessions {
      var j :| 0 <= j < |log| && Backs(h, log[j], BearerKey(h, credential), sessions[BearerKey(h, credential)]);
      match log[j]
      case Allowed(Cookie(value), _, _, _) => KeysApart(h, value, credential);
      case _ =>
    }
  }

  // ----- one lemma per step -----

  lemma {:induction false} ResolveShrinks(h: Hash, m: map<string, Session>, cookies: seq<string>, now: Time)
    ensures var r := Resolve(h, m, cookies, now);
            && r.1.Keys <= m.Keys && (forall k | k in r.1 :: r.1[k] == m[k])
            && (r.0.Some? ==>
                  var k := SessionKey(h, r.0.value);
                  k in m && !m[k].bearer && now < m[k].expiresAt)
    decreases |cookies|
  {
    if cookies != [] {
      var key := SessionKey(h, cookies[0]);
      ResolveShrinks(h, m, cookies[1..], now);
      ResolveShrinks(h, m - {key}, cookies[1..], now);
    }
  }

  lemma SweptFacts(s: State, now: Time)
    ensures SessionsAt(s, now).Keys <= s.sessions.Keys && UsedAt(s, now).Keys <= s.used.Keys
    ensures forall k | k in SessionsAt(s, now) :: SessionsAt(s, now)[k] == s.sessions[k]
    ensures |SessionsAt(s, now)| <= |s.sessions| && |UsedAt(s, now)| <= |s.used|
  {
    SweptSize(s.sessions, SessionExpiry, s.sessionSweep, now, MAX_SESSIONS);
    SweptSize(s.used, NonceExpiry, s.usedSweep, now, MAX_USED);
  }

  lemma SignInInv(h: Hash, s: State, l: Label, s': State)
    requires HexHash(h) && Inv(h, s) && l.SignIn? && SignInStep(h, s, l, s')
    ensures Inv(h, s')
  {
    hide HexHash, SessionsAt, SweptAt, Evicted, AllBacked, Justified, SessionTtl, SessionKey;
    var m, ttl := SessionsAt(s, l.now), SessionTtl(l.ttlSeconds);
    var e := Allowed(Cookie(l.value), l.userId, l.now, ttl);
    SweptFacts(s, l.now);
    EvictedSize(m, SessionExpiry, MAX_SESSIONS, l.out);
    KeysApart(h, l.value, l.value);
    EntryKeeps(h, s.sessions, s.log, m - l.out, SessionKey(h, l.value), Session(l.userId, false, 0, l.now + ttl), e);
    JustifiedMore(s.log, e);
  }

  lemma EntryKeeps(h: Hash, sessions: map<string, Session>, log: seq<Event>, sub: map<string, Session>, k: string,
                   entry: Session, e: Event)
    requires AllBacked(h, sessions, log) && "" !in sessions && k != "" && Backs(h, e, k, entry)
    requires sub.Keys <= sessions.Keys && (forall j | j in sub :: sub[j] == sessions[j]) && |sub| < MAX_SESSIONS
    ensures AllBacked(h, sub[k := entry], log + [e]) && |sub[k := entry]| <= MAX_SESSIONS && "" !in sub[k := entry]
  {
    hide AllBacked, Backs;
    SubMapBacked(h, sessions, sub, log);
    PutBacked(h, sub, log, k, entry, e);
    PutSize(sub, k, entry);
  }

  lemma VisitInv(h: Hash, s: State, l: Label, s': State, found: Option<string>)
    requires HexHash(h) && Inv(h, s) && l.Visit? && VisitStep(h, s, l, s', found)
    ensures Inv(h, s')
  {
    hide HexHash, Swept, Resolve, AllBacked, Justified;
    var m := SessionsAt(s, l.now);
    var r := Resolve(h, m, l.cookies, l.now);
    SweptFacts(s, l.now);
    ResolveShrinks(h, m, l.cookies, l.now);
    SubMapSize(s.sessions, r.1);
    SubMapBacked(h, s.sessions, r.1, s.log);
    if found.Some? {
      var f := Forwarded(Cookie(found.value), l.now);
      CookieDenyless(h, s.sessions, s.log, found.value);
      HitCovered(h, s.sessions, s.log, Cookie(found.value), l.now);
      JustifiedMore(s.log, f);
      GrowBacked(h, r.1, s.log, f);
    } else {
      assert s.log + [] == s.log;
    }
  }

  lemma CookieDenyless(h: Hash, sessions: map<string, Session>, log: seq<Event>, value: string)
    requires HexHash(h) && AllBacked(h, sessions, log) && SessionKey(h, value) in sessions
    ensures sessions[SessionKey(h, value)].denyStatus == 0
  {
    EntryKinds(h, sessions, log, value);
    var j :| 0 <= j < |log| && Backs(h, log[j], SessionKey(h, value), sessions[SessionKey(h, value)]);
  }

  lemma PresentShrinks(h: Hash, s: State, l: Label, s': State, verdict: Option<Session>)
    requires l.Present? && PresentStep(h, s, l, s', verdict)
    ensures s'.sessions.Keys <= s.sessions.Keys && (forall k | k in s'.sessions :: s'.sessions[k] == s.sessions[k])
    ensures s'.used == s.used
    ensures verdict.Some? ==>
              var k := BearerKey(h, l.token);
              k in s.sessions && s.sessions[k] == verdict.value && l.now < verdict.value.expiresAt
  {
    hide SessionsAt, SweptAt, BearerKey;
    SweptFacts(s, l.now);
  }

  lemma PresentInv(h: Hash, s: State, l: Label, s': State, verdict: Option<Session>)
    requires HexHash(h) && Inv(h, s) && l.Present? && PresentStep(h, s, l, s', verdict)
    ensures Inv(h, s')
  {
    hide HexHash, SessionsAt, SweptAt, AllBacked, Justified, Cached, BearerKey;
    PresentShrinks(h, s, l, s', verdict);
    SubMapSize(s.sessions, s'.sessions);
    SubMapBacked(h, s.sessions, s'.sessions, s.log);
    if verdict.Some? && verdict.value.denyStatus == 0 {
      hide Covered;
      HitCovered(h, s.sessions, s.log, Bearer(l.token), l.now);
      ForwardKeeps(h, s'.sessions, s.log, Forwarded(Bearer(l.token), l.now));
    } else {
      assert s.log + [] == s.log;
    }
  }

  lemma ForwardKeeps(h: Hash, m: map<string, Session>, log: seq<Event>, f: Event)
    requires AllBacked(h, m, log) && Justified(log) && f.Forwarded? && Covered(log, f)
    ensures AllBacked(h, m, log + [f]) && Justified(log + [f])
  {
    hide AllBacked, Justified, Covered;
    JustifiedMore(log, f);
    GrowBacked(h, m, log, f);
  }

  /** Storing a verdict keeps the map within its cap, and every entry backed. */
  lemma PutVerdictKeeps(h: Hash, s: State, token: string, verdict: Session, now: Time, out: set<string>,
                        sessions: map<string, Session>, e: Event)
    requires HexHash(h) && Inv(h, s) && Put(h, s, token, verdict, now, out, sessions)
    requires Backs(h, e, BearerKey(h, token), verdict)
    ensures AllBacked(h, sessions, s.log + [e]) && |sessions| <= MAX_SESSIONS && "" !in sessions
  {
    hide HexHash, SessionsAt, Evicted, AllBacked, Justified, Backs;
    var m, key := SessionsAt(s, now), BearerKey(h, token);
    SweptFacts(s, now);
    KeysApart(h, token, token);
    if key in m {
      assert m - {} == m;
    } else {
      EvictedSize(m, SessionExpiry, MAX_SESSIONS, out);
    }
    PutSize(m - out, key, verdict);
    SubMapBacked(h, s.sessions, m - out, s.log);
    PutBacked(h, m - out, s.log, key, verdict, e);
  }

  lemma JustCovered(log: seq<Event>, e: Event, f: Event)
    requires f.Forwarded? && Covers(e, f)
    ensures Covered(log + [e], f)
  {
    assert (log + [e])[|log|] == e && Latest(log + [e], |log|, |log| + 1);
  }

  lemma JudgeInv(h: Hash, s: State, l: Label, s': State)
    requires HexHash(h) && Inv(h, s) && l.Judge? && JudgeStep(h, s, l, s')
    ensures Inv(h, s')
  {
    hide HexHash, Swept, AllBacked, Justified, Put;
    match l.answer
    case Grant(userId, seconds) =>
      var ttl := BearerTtl(seconds);
      var entry := Session(userId, true, 0, l.now + ttl);
      var sessions :| Put(h, s, l.token, entry, l.now, l.out, sessions) &&
        s' == WithEvents(WithSessions(s, l.now, sessions),
                         [Allowed(Bearer(l.token), userId, l.now, ttl), Forwarded(Bearer(l.token), l.now)]);
      var e, f := Allowed(Bearer(l.token), userId, l.now, ttl), Forwarded(Bearer(l.token), l.now);
      PutVerdictKeeps(h, s, l.token, entry, l.now, l.out, sessions, e);
      GrowBacked(h, sessions, s.log + [e], f);
      JustifiedMore(s.log, e);
      JustCovered(s.log, e, f);
      JustifiedMore(s.log + [e], f);
      assert s.log + [e, f] == s.log + [e] + [f];
    case Refuse(status) =>
      var entry := Session("", true, status, l.now + DENY_TTL);
      var sessions :| Put(h, s, l.token, entry, l.now, l.out, sessions) &&
        s' == WithEvents(WithSessions(s, l.now, sessions), [Denied(l.token, status, l.now)]);
      var e := Denied(l.token, status, l.now);
      PutVerdictKeeps(h, s, l.token, entry, l.now, l.out, sessions, e);
      JustifiedMore(s.log, e);
    case Unclear(_) =>
  }

  lemma SpendInv(h: Hash, s: State, l: Label, s': State, accepted: bool)
    requires Inv(h, s) && l.Spend? && SpendStep(s, l, s', accepted)
    ensures Inv(h, s')
  {
    hide Swept, Evicted, AllBacked, Justified;
    var m := UsedAt(s, l.now);
    SweptFacts(s, l.now);
    if accepted {
      EvictedSize(m, NonceExpiry, MAX_USED, l.out);
      PutSize(m - l.out, l.nonce, l.expiresAt);
    }
  }

  lemma StepInv(h: Hash, s: State, l: Label, s': State)
    requires HexHash(h) && Inv(h, s) && Step(h, s, l, s')
    ensures Inv(h, s')
  {
    hide HexHash, Inv, SignInStep, VisitStep, PresentStep, JudgeStep, SpendStep;
    match l
    case SignIn(_, _, _, _, _) => SignInInv(h, s, l, s');
    case Visit(_, _) =>
      var found :| VisitStep(h, s, l, s', found);
      VisitInv(h, s, l, s', found);
    case Present(_, _) =>
      var verdict :| PresentStep(h, s, l, s', verdict);
      PresentInv(h, s, l, s', verdict);
    case Judge(_, _, _, _) => JudgeInv(h, s, l, s');
    case Spend(_, _, _, _) =>
      var accepted :| SpendStep(s, l, s', accepted);
      SpendInv(h, s, l, s', accepted);
  }

  lemma InitInv(h: Hash, s: State)
    requires s.sessions == map[] && s.used == map[] && s.log == []
    ensures Inv(h, s)
  {
  }

  lemma {:induction false} RunInv(h: Hash, states: seq<State>, labels: seq<Label>, n: nat)
    requires Run(h, states, labels) && n < |states|
    ensures Inv(h, states[n])
  {
    hide Step, HexHash, Inv;
    if n == 0 {
      InitInv(h, states[0]);
    } else {
      RunInv(h, states, labels, n - 1);
      StepInv(h, states[n - 1], labels[n - 1], states[n]);
    }
  }

  /** Every forward of every run rests on the last verdict recorded for its credential, an allow less
      than its TTL ago: at most 15 minutes for a token and 24 hours for a cookie, whatever TTL the hub
      sent. In particular no forward follows a denial without a newer grant. */
  lemma ForwardsRestOnGrants(h: Hash, states: seq<State>, labels: seq<Label>, n: nat, i: nat)
    requires Run(h, states, labels) && n < |states|
    requires i < |states[n].log| && states[n].log[i].Forwarded?
    ensures exists j :: 0 <= j < i && Covers(states[n].log[j], states[n].log[i]) && Latest(states[n].log, j, i)
  {
    RunInv(h, states, labels, n);
  }

  /** A call made at the end of a run ends a longer run, so what holds of every run holds of the state
      that the gate's methods leave; every forward they add is justified too. */
  lemma RunContinues(h: Hash, states: seq<State>, labels: seq<Label>, t: State)
    returns (longer: seq<State>, more: seq<Label>)
    requires Run(h, states, labels) && Leads(h, states[|labels|], t)
    ensures Run(h, longer, more) && labels <= more && states <= longer && longer[|more|] == t
    ensures Justified(t.log)
  {
    hide Step, HexHash, Justified;
    var rest: seq<State>, steps: seq<Label> :|
      Path(h, rest, steps) && rest[0] == states[|labels|] && rest[|steps|] == t;
    longer, more := states + rest[1..], labels + steps;
    forall n | 0 <= n < |more|
      ensures Step(h, longer[n], more[n], longer[n + 1])
    {
      if n < |labels| {
        assert longer[n] == states[n] && longer[n + 1] == states[n + 1] && more[n] == labels[n];
      } else {
        var k := n - |labels|;
        assert longer[n] == rest[k] && longer[n + 1] == rest[k + 1] && more[n] == steps[k];
      }
    }
    RunInv(h, longer, more, |more|);
  }

  /** In every run entries of the two kinds are never confused: a cookie's key never holds a bearer
      verdict, and a token's key never holds a cookie session. */
  lemma KindsApart(h: Hash, states: seq<State>, labels: seq<Label>, n: nat, credential: string)
    requires Run(h, states, labels) && n < |states|
    ensures var sessions := states[n].sessions;
            && (SessionKey(h, credential) in sessions ==> !sessions[SessionKey(h, credential)].bearer)
            && (BearerKey(h, credential) in sessions ==> sessions[BearerKey(h, credential)].bearer)
  {
    RunInv(h, states, labels, n);
    EntryKinds(h, states[n].sessions, states[n].log, credential);
  }

  /** Both maps stay within their caps, and no key is empty, so the eviction loops end. */
  lemma CachesBounded(h: Hash, states: seq<State>, labels: seq<Label>, n: nat)
    requires Run(h, states, labels) && n < |states|
    ensures |states[n].sessions| <= 20_000 && |states[n].used| <= 5_000
    ensures "" !in states[n].sessions && "" !in states[n].used
  {
    RunInv(h, states, labels, n);
  }

  // ----- nonces -----

  /** The nonce was pushed out of a full map. */
  ghost predicate PushedOut(s: State, l: Label, nonce: string) {
    l.Spend? && nonce in l.out && |UsedAt(s, l.now)| >= MAX_USED
  }

  ghost predicate Remembered(s: State, nonce: string, expiresAt: Time) {
    nonce in s.used && s.used[nonce] == expiresAt
  }

  /** One step forgets a nonce only after its expiry, or by eviction from a full map. */
  lemma SpendForgets(s: State, l: Label, s': State, accepted: bool, nonce: string, expiresAt: Time)
    requires l.Spend? && SpendStep(s, l, s', accepted) && Remembered(s, nonce, expiresAt)
    ensures Remembered(s', nonce, expiresAt) || expiresAt <= l.now || PushedOut(s, l, nonce)
    ensures l.nonce == nonce && accepted ==> expiresAt <= l.now
  {
    var m := UsedAt(s, l.now);
    if nonce in m && l.now < expiresAt {
      assert m[nonce] == expiresAt;
      if nonce in l.out { assert |l.out| > 0; }
    }
  }

  lemma StepForgets(h: Hash, s: State, l: Label, s': State, nonce: string, expiresAt: Time)
    requires Step(h, s, l, s') && Remembered(s, nonce, expiresAt)
    ensures Remembered(s', nonce, expiresAt) || expiresAt <= l.now || PushedOut(s, l, nonce)
  {
    hide HexHash, Put, Evicted, Swept, Resolve, PushedOut, UsedAt;
    if l.Spend? {
      var accepted :| SpendStep(s, l, s', accepted);
      SpendForgets(s, l, s', accepted, nonce, expiresAt);
    }
  }

  ghost predicate Monotone(labels: seq<Label>) {
    forall i, j | 0 <= i <= j < |labels| :: labels[i].now <= labels[j].now
  }

  lemma {:induction false} RememberedUntil(h: Hash, states: seq<State>, labels: seq<Label>, i: nat, k: nat)
    requires Run(h, states, labels) && Monotone(labels) && i < k <= |labels|
    requires labels[i].Spend? && SpendStep(states[i], labels[i], states[i + 1], true)
    ensures || Remembered(states[k], labels[i].nonce, labels[i].expiresAt)
            || labels[i].expiresAt <= labels[k - 1].now
            || exists n :: i < n < k && PushedOut(states[n], labels[n], labels[i].nonce)
    decreases k
  {
    hide HexHash, Step, Evicted, Swept, PushedOut;
    if k > i + 1 {
      RememberedUntil(h, states, labels, i, k - 1);
      if Remembered(states[k - 1], labels[i].nonce, labels[i].expiresAt) {
        StepForgets(h, states[k - 1], labels[k - 1], states[k], labels[i].nonce, labels[i].expiresAt);
      }
    }
  }

  /** Within one process and a monotone clock, a sign-in nonce is accepted again only once the expiry
      recorded at its first use has passed, or after it was evicted from a full map. */
  lemma NonceReuse(h: Hash, states: seq<State>, labels: seq<Label>, i: nat, j: nat)
    requires Run(h, states, labels) && Monotone(labels) && i < j < |labels|
    requires labels[i].Spend? && SpendStep(states[i], labels[i], states[i + 1], true)
    requires labels[j].Spend? && labels[j].nonce == labels[i].nonce &&
             SpendStep(states[j], labels[j], states[j + 1], true)
    ensures || labels[i].expiresAt <= labels[j].now
            || exists n :: i < n < j && PushedOut(states[n], labels[n], labels[i].nonce)
  {
    hide HexHash, Step, Evicted, Swept, PushedOut, UsedAt;
    RememberedUntil(h, states, labels, i, j);
    if Remembered(states[j], labels[i].nonce, labels[i].expiresAt) {
      SpendForgets(states[j], labels[j], states[j + 1], true, labels[i].nonce, labels[i].expiresAt);
    }
  }
}
