/** The bounded caches of the access proxy: session and bearer verdicts in one map, spent sign-in
    nonces in another (accessproxy/proxy.go, bearer.go). Times are nanoseconds. */
module ProxyCaches {
  import opened GoStrings

  type Time = int

  const SECOND: int := 1_000_000_000
  const SWEEP_INTERVAL: int := 30 * SECOND
  const DENY_TTL: int := 30 * SECOND
  const BEARER_CAP: int := 15 * 60 * SECOND
  const SESSION_DEFAULT: int := 15 * 60 * SECOND
  const SESSION_CAP: int := 24 * 60 * 60 * SECOND
  const MAX_SESSIONS: nat := 20000
  const MAX_USED: nat := 5000

  // ----- durations -----

  const TWO63: int := 0x8000_0000_0000_0000

  type Int64 = x: int | -0x8000_0000_0000_0000 <= x < 0x8000_0000_0000_0000

  /** Two's complement wrap-around of int64 arithmetic. */
  function Wrap64(x: int): (r: Int64)
    ensures (r - x) % (2 * TWO63) == 0
    ensures -TWO63 <= x < TWO63 ==> r == x
  {
    (x + TWO63) % (2 * TWO63) - TWO63
  }

  /** time.Duration(seconds) * time.Second */
  function Seconds(seconds: Int64): Int64 {
    Wrap64(seconds * SECOND)
  }

  /** The lifetime of a cookie session for the TTL the hub granted. */
  function SessionTtl(seconds: Int64): (ttl: int)
    ensures 0 < ttl <= SESSION_CAP
  {
    var ttl := Seconds(seconds);
    if ttl <= 0 then SESSION_DEFAULT else if ttl > SESSION_CAP then SESSION_CAP else ttl
  }

  /** The lifetime of a cached bearer grant. */
  function BearerTtl(seconds: Int64): (ttl: int)
    ensures 0 < ttl <= BEARER_CAP
  {
    var ttl := Seconds(seconds);
    if ttl <= 0 || ttl > BEARER_CAP then BEARER_CAP else ttl
  }

  /** A cookie session lives as long as granted, at most 24 hours; without a granted time, 15 minutes. */
  lemma SessionTtlIs(seconds: Int64)
    ensures 0 < SessionTtl(seconds) <= 86_400 * 1_000_000_000
    ensures 0 < seconds <= 86_400 ==> SessionTtl(seconds) == seconds * 1_000_000_000
    ensures -9_223_372_036 <= seconds <= 0 ==> SessionTtl(seconds) == 900 * 1_000_000_000
    ensures 86_400 <= seconds <= 9_223_372_036 ==> SessionTtl(seconds) == 86_400 * 1_000_000_000
  {
    assert -9_223_372_036 <= seconds <= 9_223_372_036 ==> Seconds(seconds) == seconds * 1_000_000_000;
  }

  /** A bearer grant lives as long as granted, at most 15 minutes; without a granted time, 15 minutes. */
  lemma BearerTtlIs(seconds: Int64)
    ensures 0 < BearerTtl(seconds) <= 900 * 1_000_000_000
    ensures 0 < seconds <= 900 ==> BearerTtl(seconds) == seconds * 1_000_000_000
    ensures -9_223_372_036 <= seconds <= 0 || 900 <= seconds <= 9_223_372_036 ==>
              BearerTtl(seconds) == 900 * 1_000_000_000
  {
    assert -9_223_372_036 <= seconds <= 9_223_372_036 ==> Seconds(seconds) == seconds * 1_000_000_000;
  }

  // ----- keys -----

  predicate HexDigit(c: char) { '0' <= c <= '9' || 'a' <= c <= 'f' }

  type Hash = string -> string

  /** What the caches need of hex-encoded SHA-256. */
  ghost predicate HexHash(h: Hash) {
    && (forall s :: h(s) != "" && forall c | c in h(s) :: HexDigit(c))
    && (forall s, t | h(s) == h(t) :: s == t)
  }

  const BEARER_PREFIX := "bearer:"

  function SessionKey(h: Hash, value: string): string { h(value) }

  function BearerKey(h: Hash, token: string): string { BEARER_PREFIX + h(token) }

  /** A key belongs to one credential of one kind, and no key is empty. */
  lemma KeysApart(h: Hash, a: string, b: string)
    requires HexHash(h)
    ensures SessionKey(h, a) != BearerKey(h, b)
    ensures SessionKey(h, a) == SessionKey(h, b) <==> a == b
    ensures BearerKey(h, a) == BearerKey(h, b) <==> a == b
    ensures SessionKey(h, a) != "" && BearerKey(h, b) != ""
  {
    var k := BearerKey(h, b);
    assert k[4] == 'e' && k[5] == 'r' && 'r' in k;
    assert BearerKey(h, b)[7..] == h(b) && BearerKey(h, a)[7..] == h(a);
  }

  // ----- sweeping -----

  datatype Session = Session(userId: string, bearer: bool, denyStatus: nat, expiresAt: Time)

  function Live<V(!new)>(m: map<string, V>, expiry: V -> Time, now: Time): map<string, V> {
    map k | k in m && now < expiry(m[k]) :: m[k]
  }

  /** The sweep is due when the interval has passed or the map is full. */
  predicate Due<V>(m: map<string, V>, last: Time, now: Time, cap: nat) {
    now - last >= SWEEP_INTERVAL || |m| >= cap
  }

  function Swept<V(!new)>(m: map<string, V>, expiry: V -> Time, last: Time, now: Time, cap: nat): map<string, V> {
    if Due(m, last, now, cap) then Live(m, expiry, now) else m
  }

  function SweptAt<V>(m: map<string, V>, last: Time, now: Time, cap: nat): Time {
    if Due(m, last, now, cap) then now else last
  }

  predicate Hit<V>(m: map<string, V>, expiry: V -> Time, k: string, now: Time) {
    k in m && now < expiry(m[k])
  }

  /** A sweep changes no answer from its own time on, and never makes a miss a hit. */
  lemma SweepKeepsHits<V(!new)>(m: map<string, V>, expiry: V -> Time, last: Time, now: Time, cap: nat, k: string,
                                later: Time)
    ensures now <= later ==> (Hit(Swept(m, expiry, last, now, cap), expiry, k, later) <==> Hit(m, expiry, k, later))
    ensures Hit(Swept(m, expiry, last, now, cap), expiry, k, later) ==>
              Hit(m, expiry, k, later) && Swept(m, expiry, last, now, cap)[k] == m[k]
  {
  }

  /** A sweep removes what is expired, at most every 30 seconds unless the map is full. */
  lemma SweptIs<V(!new)>(m: map<string, V>, expiry: V -> Time, last: Time, now: Time, cap: nat, k: string)
    ensures k in Swept(m, expiry, last, now, cap) <==>
            k in m && (now < expiry(m[k]) || (now - last < 30 * 1_000_000_000 && |m| < cap))
    ensures k in Swept(m, expiry, last, now, cap) ==> Swept(m, expiry, last, now, cap)[k] == m[k]
    ensures SweptAt(m, last, now, cap) == if now - last < 30 * 1_000_000_000 && |m| < cap then last else now
  {
  }

  lemma SweptSize<V(!new)>(m: map<string, V>, expiry: V -> Time, last: Time, now: Time, cap: nat)
    ensures Swept(m, expiry, last, now, cap).Keys <= m.Keys
    ensures |Swept(m, expiry, last, now, cap)| <= |m|
  {
    var s := Swept(m, expiry, last, now, cap);
    assert m.Keys == s.Keys + (m.Keys - s.Keys);
    assert |m| == |m.Keys| && |s| == |s.Keys|;
  }

  // ----- eviction -----

  /** `out` are the entries removed to make room: none below the cap, else as many as it takes, and
      none that expires later than one that stays. */
  ghost predicate Evicted<V(!new)>(m: map<string, V>, expiry: V -> Time, cap: nat, out: set<string>) {
    && out <= m.Keys
    && |out| == (if |m| < cap then 0 else |m| - cap + 1)
    && forall gone, kept | gone in out && kept in m && kept !in out :: expiry(m[gone]) <= expiry(m[kept])
  }

  /** Evictions only lose entries. */
  lemma EvictionKeepsValues<V(!new)>(m: map<string, V>, expiry: V -> Time, out: set<string>, k: string, now: Time)
    ensures Hit(m - out, expiry, k, now) ==> Hit(m, expiry, k, now) && (m - out)[k] == m[k]
  {
  }

  /** Of the entries under other keys none is new or changed, and while the map is below its cap none that
      is live at `now` is lost. */
  ghost predicate OthersStay<V(!new)>(before: map<string, V>, after: map<string, V>, expiry: V -> Time, cap: nat,
                                      key: string, now: Time) {
    && (forall k | k in after && k != key :: k in before && after[k] == before[k])
    && (|before| < cap ==> forall k | k in before && now < expiry(before[k]) :: k in after)
  }

  /** Sweeping, making room and storing one entry leaves the others alone. */
  lemma PutStays<V(!new)>(m: map<string, V>, expiry: V -> Time, last: Time, now: Time, cap: nat, out: set<string>,
                          key: string, v: V)
    requires Evicted(Swept(m, expiry, last, now, cap), expiry, cap, out) || out == {}
    ensures OthersStay(m, (Swept(m, expiry, last, now, cap) - out)[key := v], expiry, cap, key, now)
  {
    SweptSize(m, expiry, last, now, cap);
    if |m| < cap { assert out == {}; }
  }

  /** One pass over the map in any order; the empty string marks that no key was seen yet. */
  method OldestKey<V(!new)>(m: map<string, V>, expiry: V -> Time) returns (oldest: string)
    ensures "" !in m && |m| > 0 ==> oldest in m && forall k | k in m :: expiry(m[oldest]) <= expiry(m[k])
    ensures m.Keys <= {""} ==> oldest == ""
    ensures oldest == "" || oldest in m
  {
    oldest := "";
    var todo := m.Keys;
    while todo != {}
      invariant todo <= m.Keys
      invariant oldest == "" || (oldest in m && oldest !in todo)
      invariant "" !in m && oldest == "" ==> todo == m.Keys
      invariant "" !in m && oldest != "" ==> forall k | k in m && k !in todo :: expiry(m[oldest]) <= expiry(m[k])
      decreases |todo|
    {
      var k :| k in todo;
      if oldest == "" || expiry(m[k]) < expiry(m[oldest]) { oldest := k; }
      todo := todo - {k};
    }
  }

  method EvictOldest<V(!new)>(m: map<string, V>, expiry: V -> Time) returns (after: map<string, V>)
    ensures "" !in m && |m| > 0 ==>
              exists k :: k in m && after == m - {k} && forall j | j in m :: expiry(m[k]) <= expiry(m[j])
    ensures m.Keys <= {""} ==> after == m
  {
    var oldest := OldestKey(m, expiry);
    after := if oldest != "" then m - {oldest} else m;
  }

  /** The eviction loop before an insertion. It ends because no key is the empty string: with "" as
      the only key a pass removes nothing. */
  method EvictUntilRoom<V(!new)>(m: map<string, V>, expiry: V -> Time, cap: nat)
    returns (after: map<string, V>, ghost out: set<string>)
    requires "" !in m && cap > 0
    ensures Evicted(m, expiry, cap, out) && after == m - out && |after| < cap
  {
    hide OldestOut, Evicted;
    after, out := m, {};
    NoneOut(m, expiry);
    while |after| >= cap
      invariant OldestOut(m, expiry, after, out)
      invariant "" !in after && |after| <= |m| && (out == {} ==> after == m)
      invariant out != {} ==> |after| >= cap - 1
      decreases |after|
    {
      ghost var before := after;
      after := EvictOldest(after, expiry);
      ghost var k :| k in before && after == before - {k} &&
        forall j | j in before :: expiry(before[k]) <= expiry(before[j]);
      NextOut(m, expiry, before, out, k);
      out := out + {k};
    }
    EnoughOut(m, expiry, cap, after, out);
  }

  lemma NoneOut<V(!new)>(m: map<string, V>, expiry: V -> Time)
    ensures OldestOut(m, expiry, m, {})
  {
    assert m - {} == m;
  }

  lemma EnoughOut<V(!new)>(m: map<string, V>, expiry: V -> Time, cap: nat, after: map<string, V>, out: set<string>)
    requires OldestOut(m, expiry, after, out) && |after| < cap && (out != {} ==> |after| >= cap - 1)
    ensures Evicted(m, expiry, cap, out) && after == m - out
  {
  }

  ghost predicate OldestOut<V(!new)>(m: map<string, V>, expiry: V -> Time, after: map<string, V>, out: set<string>) {
    && out <= m.Keys && after == m - out && |after| == |m| - |out|
    && forall gone, kept | gone in out && kept in after :: expiry(m[gone]) <= expiry(m[kept])
  }

  lemma NextOut<V(!new)>(m: map<string, V>, expiry: V -> Time, after: map<string, V>, out: set<string>, k: string)
    requires OldestOut(m, expiry, after, out)
    requires k in after && forall j | j in after :: expiry(after[k]) <= expiry(after[j])
    ensures OldestOut(m, expiry, after - {k}, out + {k}) && |after - {k}| == |after| - 1
  {
    var next := after - {k};
    assert next.Keys == after.Keys - {k};
    assert |next| == |next.Keys| && |after| == |after.Keys|;
    assert next == m - (out + {k});
  }
}
