/** internal/rulesets/cache/auth.go: authentication results, their cache, and the atomic sections of Authenticate. */
module TokenAuth {
  import opened Text

  const SA_PREFIX := "system:serviceaccount:"
  const MAX_AUTH_CACHE_SIZE := 10000

  datatype AuthResult = AuthResult(ns: string, name: string)
  datatype Entry = Entry(result: AuthResult, expiresAt: int)

  /** What the TokenReview API answers. */
  datatype Response = CallFailed | NotAuthenticated | Authenticated(username: string)

  // ---------------------------------------------------------------------------------------------
  // Strings cut at their first colon
  // ---------------------------------------------------------------------------------------------

  function FirstColon(s: string): nat {
    FirstIndex(s, ':')
  }

  predicate ColonFree(s: string) {
    ':' !in s
  }

  /** The key of the cache for a token and an audience. */
  function CacheKey(token: string, audience: string): string {
    token + ":" + audience
  }

  function TokenOf(key: string): string {
    key[..FirstColon(key)]
  }

  function AudienceOf(key: string): string {
    if FirstColon(key) < |key| then key[FirstColon(key) + 1..] else ""
  }

  /** With tokens free of colons (section 7.1 of RFC 7515), a key belongs to one token and one audience. */
  lemma {:induction false} KeyDecodes(token: string, audience: string)
    requires ColonFree(token)
    ensures TokenOf(CacheKey(token, audience)) == token && AudienceOf(CacheKey(token, audience)) == audience
  {
    CutAtFirst(token, ':', audience);
  }

  /** Keys collide exactly when one token continues the other across a colon. */
  lemma {:induction false} KeysCollide(t1: string, a1: string, t2: string, a2: string)
    requires |t1| <= |t2|
    ensures CacheKey(t1, a1) == CacheKey(t2, a2) <==>
              || (t1 == t2 && a1 == a2)
              || (|t1| < |t2| && t2[..|t1|] == t1 && t2[|t1|] == ':' && a1 == t2[|t1| + 1..] + ":" + a2)
  {
    var k1, k2 := CacheKey(t1, a1), CacheKey(t2, a2);
    assert k1[..|t1|] == t1 && k1[|t1|] == ':' && k1[|t1| + 1..] == a1;
    assert k2[..|t2|] == t2 && k2[|t2| + 1..] == a2;
    if |t1| < |t2| {
      assert k2[..|t1|] == t2[..|t1|] && k2[|t1|] == t2[|t1|] && k2[|t1| + 1..] == t2[|t1| + 1..] + ":" + a2;
      assert k2 == k2[..|t1|] + [k2[|t1|]] + k2[|t1| + 1..];
      assert k1 == k1[..|t1|] + [k1[|t1|]] + k1[|t1| + 1..];
    } else {
      assert k2[..|t1|] == t2;
    }
  }

  /** Two pairs that share a key. */
  lemma {:induction false} CollisionHappens()
    ensures CacheKey("a", "b:c") == CacheKey("a:b", "c")
  {
    assert "a" + ":" + "b:c" == "a:b:c" == "a:b" + ":" + "c";
  }

  /** parseServiceAccountUsername. */
  function ParseUsername(username: string): Option<AuthResult> {
    if !HasPrefix(username, SA_PREFIX) then None
    else
      var rest := username[|SA_PREFIX|..];
      var n := FirstColon(rest);
      if n == |rest| then None else Some(AuthResult(rest[..n], rest[n + 1..]))
  }

  /** The parser accepts precisely the service account names, cut at the first colon after the prefix. */
  lemma {:induction false} ParseExactly(username: string, ns: string, name: string)
    ensures ParseUsername(username) == Some(AuthResult(ns, name))
       <==> ColonFree(ns) && username == SA_PREFIX + ns + ":" + name
  {
    if ColonFree(ns) && username == SA_PREFIX + ns + ":" + name {
      assert username[|SA_PREFIX|..] == ns + ":" + name;
      assert username[..|SA_PREFIX|] == SA_PREFIX;
      CutAtFirst(ns, ':', name);
    }
    if ParseUsername(username) == Some(AuthResult(ns, name)) {
      var rest := username[|SA_PREFIX|..];
      assert username == SA_PREFIX + rest;
      assert rest == ns + ":" + name;
      assert username == SA_PREFIX + ns + ":" + name;
    }
  }

  /** What Authenticate makes of the answer of the TokenReview API. */
  function Outcome(response: Response): Option<AuthResult> {
    match response
    case CallFailed => None
    case NotAuthenticated => None
    case Authenticated(username) => ParseUsername(username)
  }

  // ---------------------------------------------------------------------------------------------
  // The cache and what happens to it under the lock
  // ---------------------------------------------------------------------------------------------

  datatype Cache = Cache(entries: map<string, Entry>, size: int)

  function Expired(m: map<string, Entry>, now: int): set<string> {
    set k | k in m && now > m[k].expiresAt
  }

  /** The delete section: whatever is under the key goes. */
  function Deleted(c: Cache, key: string): Cache {
    if key in c.entries then Cache(c.entries - {key}, c.size - 1) else c
  }

  function Evicted(c: Cache, now: int): Cache {
    Cache(c.entries - Expired(c.entries, now), c.size - |Expired(c.entries, now)|)
  }

  /** The evict-and-store section. */
  function Stored(c: Cache, key: string, entry: Entry, now: int): Cache {
    var c := if c.size >= MAX_AUTH_CACHE_SIZE then Evicted(c, now) else c;
    if c.size < MAX_AUTH_CACHE_SIZE then Cache(c.entries[key := entry], c.size + 1) else c
  }

  /** How far the counter runs ahead of the map. */
  function Gap(c: Cache): int {
    c.size - |c.entries|
  }

  lemma {:induction false} RemovalCount(m: map<string, Entry>, keys: set<string>)
    requires keys <= m.Keys
    ensures |m - keys| == |m| - |keys|
  {
    assert (m - keys).Keys == m.Keys - keys;
    assert |(m - keys).Keys| == |m - keys| && |m.Keys| == |m|;
  }

  lemma {:induction false} UpdateCount(m: map<string, Entry>, key: string, e: Entry)
    ensures |m[key := e]| == |m| + if key in m then 0 else 1
  {
    assert m[key := e].Keys == m.Keys + {key};
    assert |m[key := e].Keys| == |m[key := e]| && |m.Keys| == |m|;
  }

  /** Deleting keeps the gap. */
  lemma {:induction false} DeletedKeepsGap(c: Cache, key: string)
    ensures Gap(Deleted(c, key)) == Gap(c) && Deleted(c, key).size <= c.size
  {
    if key in c.entries {
      RemovalCount(c.entries, {key});
    }
  }

  lemma {:induction false} EvictedKeepsGap(c: Cache, now: int)
    ensures Gap(Evicted(c, now)) == Gap(c) && Evicted(c, now).size <= c.size
  {
    RemovalCount(c.entries, Expired(c.entries, now));
  }

  /** Storing widens the gap by one exactly when it overwrites a key that survived the eviction. */
  predicate Overwrites(c: Cache, key: string, now: int) {
    var c := if c.size >= MAX_AUTH_CACHE_SIZE then Evicted(c, now) else c;
    c.size < MAX_AUTH_CACHE_SIZE && key in c.entries
  }

  lemma {:induction false} StoredGap(c: Cache, key: string, e: Entry, now: int)
    requires c.size <= MAX_AUTH_CACHE_SIZE
    ensures Gap(Stored(c, key, e, now)) == Gap(c) + if Overwrites(c, key, now) then 1 else 0
    ensures Stored(c, key, e, now).size <= MAX_AUTH_CACHE_SIZE
  {
    EvictedKeepsGap(c, now);
    var d := if c.size >= MAX_AUTH_CACHE_SIZE then Evicted(c, now) else c;
    UpdateCount(d.entries, key, e);
  }

  /** The gap never takes the whole capacity: an overwrite needs a present key and a counter below the limit. */
  lemma {:induction false} StoredKeepsRoom(c: Cache, key: string, e: Entry, now: int)
    requires c.size <= MAX_AUTH_CACHE_SIZE && Gap(c) < MAX_AUTH_CACHE_SIZE
    ensures Gap(Stored(c, key, e, now)) < MAX_AUTH_CACHE_SIZE
  {
    EvictedKeepsGap(c, now);
    StoredGap(c, key, e, now);
    var d := if c.size >= MAX_AUTH_CACHE_SIZE then Evicted(c, now) else c;
    assert key in d.entries ==> |d.entries| > 0;
  }

  /** Eviction under way: the expired entries outside left are gone. */
  ghost predicate Evicting(before: Cache, left: set<string>, now: int, c: Cache) {
    var gone := Expired(before.entries, now) - left;
    c.entries == before.entries - gone && c.size == before.size - |gone|
  }

  lemma {:induction false} EvictBounds(c: Cache, now: int)
    ensures Evicting(c, c.entries.Keys, now, c)
  {
    assert Expired(c.entries, now) - c.entries.Keys == {};
  }

  lemma {:induction false} EvictStep(before: Cache, left: set<string>, now: int, c: Cache, key: string)
    requires Evicting(before, left, now, c) && key in left && key in before.entries
    ensures key in c.entries
    ensures now > c.entries[key].expiresAt ==> Evicting(before, left - {key}, now, Cache(c.entries - {key}, c.size - 1))
    ensures now <= c.entries[key].expiresAt ==> Evicting(before, left - {key}, now, c)
  {
    var all := Expired(before.entries, now);
    if now > before.entries[key].expiresAt {
      assert all - (left - {key}) == (all - left) + {key};
    } else {
      assert all - (left - {key}) == all - left;
    }
  }

  lemma {:induction false} EvictEnd(before: Cache, now: int, c: Cache)
    requires Evicting(before, {}, now, c)
    ensures c == Evicted(before, now)
  {
    assert Expired(before.entries, now) - {} == Expired(before.entries, now);
  }

  // ---------------------------------------------------------------------------------------------
  // The authenticator
  // ---------------------------------------------------------------------------------------------

  class TokenAuthenticator {
    var entries: map<string, Entry>
    var cacheSize: int
    const cacheTTL: int

    constructor (ttl: int)
      ensures View() == Cache(map[], 0) && cacheTTL == ttl
    {
      entries, cacheSize, cacheTTL := map[], 0, ttl;
    }

    function View(): Cache
      reads this
    {
      Cache(entries, cacheSize)
    }

    /** The locked deletion of an expired entry. */
    method DeleteLocked(key: string)
      modifies this
      ensures View() == Deleted(old(View()), key)
    {
      if key in entries {
        entries := entries - {key};
        cacheSize := cacheSize - 1;
      }
    }

    /** evictExpiredLocked: visits the entries in any order. */
    method EvictExpiredLocked(now: int)
      modifies this
      ensures View() == Evicted(old(View()), now)
    {
      hide Expired, Evicting;
      ghost var before := View();
      var left := entries.Keys;
      EvictBounds(before, now);
      while left != {}
        invariant left <= before.entries.Keys
        invariant Evicting(before, left, now, View())
      {
        var key :| key in left;
        EvictStep(before, left, now, View(), key);
        if now > entries[key].expiresAt {
          entries := entries - {key};
          cacheSize := cacheSize - 1;
        }
        left := left - {key};
      }
      EvictEnd(before, now, View());
    }

    /** The locked eviction and store. */
    method StoreLocked(key: string, entry: Entry, now: int)
      modifies this
      ensures View() == Stored(old(View()), key, entry, now)
    {
      if cacheSize >= MAX_AUTH_CACHE_SIZE {
        EvictExpiredLocked(now);
      }
      if cacheSize < MAX_AUTH_CACHE_SIZE {
        entries := entries[key := entry];
        cacheSize := cacheSize + 1;
      }
    }

    /** Authenticate, undisturbed by other calls. The clock is read when the entry is checked, after the review, and on
        eviction; response is what the TokenReview API answers if asked. */
    method Authenticate(token: string, audience: string, response: Response, checked: int, reviewed: int, evicted: int)
      returns (result: Option<AuthResult>, asked: bool)
      modifies this
      ensures var key, c := CacheKey(token, audience), old(View());
              var hit := key in c.entries && checked < c.entries[key].expiresAt;
              && (hit ==> !asked && result == Some(c.entries[key].result) && View() == c)
              && (!hit ==> asked && result == Outcome(response))
              && (!hit && result == None ==> View() == Deleted(c, key))
              && (!hit && result != None ==>
                    View() == Stored(Deleted(c, key), key, Entry(result.value, reviewed + cacheTTL), evicted))
      ensures old(Gap(View())) == 0 && old(cacheSize) <= MAX_AUTH_CACHE_SIZE ==> Gap(View()) == 0
    {
      var cacheKey := CacheKey(token, audience);
      ghost var before := View();
      AloneKeepsGap(before, cacheKey, evicted);
      if cacheKey in entries {
        var entry := entries[cacheKey];
        if checked < entry.expiresAt {
          return Some(entry.result), false;
        }
        DeleteLocked(cacheKey);
      }
      asked := true;
      result := Outcome(response);
      if result != None {
        StoreLocked(cacheKey, Entry(result.value, reviewed + cacheTTL), evicted);
      }
    }
  }

  /** A call on its own never overwrites: it has just deleted, or not found, what is under its key. */
  lemma {:induction false} AloneKeepsGap(c: Cache, key: string, now: int)
    ensures Gap(Deleted(c, key)) == Gap(c)
    ensures forall e :: c.size <= MAX_AUTH_CACHE_SIZE ==> Gap(Stored(Deleted(c, key), key, e, now)) == Gap(c)
  {
    DeletedKeepsGap(c, key);
    forall e | c.size <= MAX_AUTH_CACHE_SIZE ensures Gap(Stored(Deleted(c, key), key, e, now)) == Gap(c) {
      StoredGap(Deleted(c, key), key, e, now);
    }
  }
}
