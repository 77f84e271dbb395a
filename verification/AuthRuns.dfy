/** Any number of overlapping Authenticate calls (internal/rulesets/cache/auth.go), each cut where another one can get
    in between: the lookup, the expiry check, the locked deletion, the review, the clock read for the expiry, the locked
    eviction and store. */
module AuthRuns {
  import opened Text
  import opened TokenAuth

  const TTL := 300   // defaultAuthCacheTTL, in seconds

  datatype Phase =
    | Looking
    | Checking(entry: Entry)
    | Deleting
    | Asking
    | Stamping(result: AuthResult)
    | Storing(result: AuthResult, expiresAt: int)

  datatype Call = Call(token: string, audience: string, phase: Phase)

  /** A successful TokenReview. */
  datatype Review = Review(token: string, audience: string, result: AuthResult)

  /** The clock read that sets an expiry. */
  datatype Stamp = Stamp(review: Review, at: int)

  /** What a call returned without error; a cached answer was checked at checked. */
  datatype Answer = Fresh(review: Review) | Cached(review: Review, checked: int)

  datatype State = State(
    cache: Cache,
    clock: int,
    calls: map<nat, Call>,      // the calls under way
    overwrites: nat,            // history: stores over a present key
    reviews: set<Review>,       // history
    stamps: set<Stamp>,         // history
    answers: set<Answer>)       // history

  datatype Event =
    | Tick(seconds: nat)
    | Begin(id: nat, token: string, audience: string)
    | Look(id: nat)
    | Check(id: nat)
    | Delete(id: nat)
    | Ask(id: nat, response: Response)
    | ReadClock(id: nat)
    | Store(id: nat)

  function Key(c: Call): string {
    CacheKey(c.token, c.audience)
  }

  ghost predicate Enabled(s: State, e: Event) {
    match e
    case Tick(_) => true
    case Begin(id, _, _) => id !in s.calls
    case Look(id) => id in s.calls && s.calls[id].phase.Looking?
    case Check(id) => id in s.calls && s.calls[id].phase.Checking?
    case Delete(id) => id in s.calls && s.calls[id].phase.Deleting?
    case Ask(id, _) => id in s.calls && s.calls[id].phase.Asking?
    case ReadClock(id) => id in s.calls && s.calls[id].phase.Stamping?
    case Store(id) => id in s.calls && s.calls[id].phase.Storing?
  }

  function Goto(s: State, id: nat, phase: Phase): State
    requires id in s.calls
  {
    s.(calls := s.calls[id := s.calls[id].(phase := phase)])
  }

  function Return(s: State, id: nat): State {
    s.(calls := s.calls - {id})
  }

  function Next(s: State, e: Event): State
    requires Enabled(s, e)
  {
    match e
    case Tick(n) => s.(clock := s.clock + n)
    case Begin(id, token, audience) => s.(calls := s.calls[id := Call(token, audience, Looking)])
    case Look(id) =>
      var key := Key(s.calls[id]);
      Goto(s, id, if key in s.cache.entries then Checking(s.cache.entries[key]) else Asking)
    case Check(id) => NextCheck(s, id)
    case Delete(id) => Goto(s, id, Asking).(cache := Deleted(s.cache, Key(s.calls[id])))
    case Ask(id, response) => NextAsk(s, id, response)
    case ReadClock(id) =>
      var c := s.calls[id];
      Goto(s, id, Storing(c.phase.result, s.clock + TTL))
      .(stamps := s.stamps + {Stamp(Review(c.token, c.audience, c.phase.result), s.clock)})
    case Store(id) => NextStore(s, id)
  }

  function NextCheck(s: State, id: nat): State
    requires id in s.calls && s.calls[id].phase.Checking?
  {
    var c := s.calls[id];
    if s.clock < c.phase.entry.expiresAt
    then Return(s, id).(answers := s.answers + {Cached(Review(c.token, c.audience, c.phase.entry.result), s.clock)})
    else Goto(s, id, Deleting)
  }

  function NextAsk(s: State, id: nat, response: Response): State
    requires id in s.calls
  {
    var c := s.calls[id];
    match Outcome(response)
    case None => Return(s, id)
    case Some(result) => Goto(s, id, Stamping(result)).(reviews := s.reviews + {Review(c.token, c.audience, result)})
  }

  function NextStore(s: State, id: nat): State
    requires id in s.calls && s.calls[id].phase.Storing?
  {
    var c := s.calls[id];
    var key := Key(c);
    Return(s, id).(
      cache := Stored(s.cache, key, Entry(c.phase.result, c.phase.expiresAt), s.clock),
      overwrites := s.overwrites + if Overwrites(s.cache, key, s.clock) then 1 else 0,
      answers := s.answers + {Fresh(Review(c.token, c.audience, c.phase.result))})
  }

  function Initial(clock: int): State {
    State(Cache(map[], 0), clock, map[], 0, {}, {}, {})
  }

  ghost predicate IsRun(events: seq<Event>, states: seq<State>) {
    && |states| == |events| + 1
    && states[0] == Initial(states[0].clock)
    && forall i :: 0 <= i < |events| ==> Enabled(states[i], events[i]) && states[i + 1] == Next(states[i], events[i])
  }

  // ---------------------------------------------------------------------------------------------
  // The counter
  // ---------------------------------------------------------------------------------------------

  /** The gap between the counter and the map is the number of stores that overwrote a present key. */
  ghost predicate Counted(s: State) {
    s.cache.size <= MAX_AUTH_CACHE_SIZE && Gap(s.cache) == s.overwrites < MAX_AUTH_CACHE_SIZE
  }

  lemma {:induction false} NextCounted(s: State, e: Event)
    requires Counted(s) && Enabled(s, e)
    ensures Counted(Next(s, e)) && Next(s, e).overwrites >= s.overwrites
  {
    hide Stored, Deleted, Overwrites, Gap, Outcome;
    match e
    case Delete(id) => DeletedKeepsGap(s.cache, Key(s.calls[id]));
    case Store(id) =>
      var c := s.calls[id];
      StoredGap(s.cache, Key(c), Entry(c.phase.result, c.phase.expiresAt), s.clock);
      StoredKeepsRoom(s.cache, Key(c), Entry(c.phase.result, c.phase.expiresAt), s.clock);
    case _ =>
  }

  lemma {:induction false} AlwaysCounted(events: seq<Event>, states: seq<State>)
    requires IsRun(events, states)
    ensures Counted(states[|events|])
  {
    hide Next, Enabled, Counted;
    if |events| == 0 {
      StartFacts(states[0].clock);
    } else {
      var n := |events| - 1;
      AlwaysCounted(events[..n], states[..|events|]);
      NextCounted(states[n], events[n]);
    }
  }

  lemma {:induction false} StartFacts(clock: int)
    ensures Counted(Initial(clock)) && Alone(Initial(clock)) && Sound(Initial(clock))
  {
  }

  /** In every interleaving the map never outgrows the counter, nor the counter the limit, and their distance counts
      exactly the stores that overwrote a present key. */
  lemma {:induction false} CounterBounds(events: seq<Event>, states: seq<State>)
    requires IsRun(events, states)
    ensures var s := states[|events|];
            && |s.cache.entries| <= s.cache.size <= MAX_AUTH_CACHE_SIZE
            && s.cache.size - |s.cache.entries| == s.overwrites
  {
    AlwaysCounted(events, states);
  }

  /** In every interleaving the map has lost as many places as there were overwriting stores, but never the last one. */
  lemma {:induction false} CapacityShrinks(events: seq<Event>, states: seq<State>)
    requires IsRun(events, states)
    ensures var s := states[|events|];
            && s.overwrites < MAX_AUTH_CACHE_SIZE
            && |s.cache.entries| <= MAX_AUTH_CACHE_SIZE - s.overwrites
  {
    AlwaysCounted(events, states);
  }

  /** What is lost is never regained. */
  lemma {:induction false} GapNeverShrinks(events: seq<Event>, states: seq<State>, i: nat, j: nat)
    requires IsRun(events, states) && i <= j <= |events|
    ensures Gap(states[i].cache) <= Gap(states[j].cache)
  {
    hide Next, Enabled;
    RunPrefix(events, states, j);
    AlwaysCounted(events[..j], states[..j + 1]);
    if i < j {
      GapNeverShrinks(events, states, i, j - 1);
      RunPrefix(events, states, j - 1);
      AlwaysCounted(events[..j - 1], states[..j]);
      NextCounted(states[j - 1], events[j - 1]);
    }
  }

  // ---------------------------------------------------------------------------------------------
  // Calls that do not overlap
  // ---------------------------------------------------------------------------------------------

  ghost predicate NoOverlap(events: seq<Event>, states: seq<State>)
    requires |states| == |events| + 1
  {
    forall i :: 0 <= i < |events| && events[i].Begin? ==> states[i].calls == map[]
  }

  /** A call that is past its lookup has nothing under its key. */
  ghost predicate Alone(s: State) {
    && (forall a, b :: a in s.calls && b in s.calls ==> a == b)
    && (forall a :: a in s.calls ==>
          s.calls[a].phase.Asking? || s.calls[a].phase.Stamping? || s.calls[a].phase.Storing? ==>
            Key(s.calls[a]) !in s.cache.entries)
    && s.overwrites == 0
  }

  lemma {:induction false} NextAlone(s: State, e: Event)
    requires Alone(s) && Enabled(s, e) && (e.Begin? ==> s.calls == map[])
    ensures Alone(Next(s, e))
  {
    hide CacheKey, Outcome;
  }

  lemma {:induction false} AlwaysAlone(events: seq<Event>, states: seq<State>)
    requires IsRun(events, states) && NoOverlap(events, states)
    ensures Alone(states[|events|])
  {
    hide Next, Enabled, Alone;
    if |events| == 0 {
      StartFacts(states[0].clock);
    } else {
      var n := |events| - 1;
      AlwaysAlone(events[..n], states[..|events|]);
      NextAlone(states[n], events[n]);
    }
  }

  /** Without overlapping calls the counter is exact. */
  lemma {:induction false} CounterExactWithoutOverlap(events: seq<Event>, states: seq<State>)
    requires IsRun(events, states) && NoOverlap(events, states)
    ensures states[|events|].cache.size == |states[|events|].cache.entries|
  {
    hide Next, Enabled;
    AlwaysCounted(events, states);
    AlwaysAlone(events, states);
  }

  /** Two calls that both missed the same key and now store their results: the counter is one ahead for good. */
  lemma {:induction false} OverlapDrifts(s: State, a: nat, b: nat)
    requires Counted(s) && s.cache.size + 1 < MAX_AUTH_CACHE_SIZE
    requires a != b && a in s.calls && b in s.calls && s.calls[a].phase.Storing? && s.calls[b].phase.Storing?
    requires Key(s.calls[a]) == Key(s.calls[b]) && Key(s.calls[a]) !in s.cache.entries
    ensures var t := Next(s, Store(a));
            Enabled(t, Store(b)) && Gap(Next(t, Store(b)).cache) == Gap(s.cache) + 1
  {
    hide CacheKey;
    var t := Next(s, Store(a));
    NextCounted(s, Store(a));
    NextCounted(t, Store(b));
    assert t.overwrites == s.overwrites;
  }

  lemma {:induction false} Extend(events: seq<Event>, states: seq<State>, e: Event)
    requires IsRun(events, states) && Enabled(states[|events|], e)
    ensures IsRun(events + [e], states + [Next(states[|events|], e)])
  {
    hide Next, Enabled;
  }

  /** The calls lo to hi - 1 for one token and audience, all about to store the same result. */
  ghost predicate AreWaiting(calls: map<nat, Call>, lo: nat, hi: nat, c: Call) {
    forall id: nat :: (id in calls <==> lo <= id < hi) && (id in calls ==> calls[id] == c)
  }

  /** Calls 0 to n - 1 have missed the same key, been reviewed, and are about to store. */
  ghost predicate AllMissed(s: State, n: nat, c: Call) {
    && s.cache == Cache(map[], 0) && AreWaiting(s.calls, 0, n, c)
    && c.phase.Storing? && c.phase.expiresAt == s.clock + TTL
  }

  ghost predicate IsNext(s: State, e: Event, t: State) {
    Enabled(s, e) && t == Next(s, e)
  }

  /** One more call misses. */
  lemma {:induction false} OneMoreMisses(s: State, n: nat, c: Call, r: Response)
    returns (s1: State, s2: State, s3: State, t: State)
    requires AllMissed(s, n, c) && Outcome(r) == Some(c.phase.result)
    ensures IsNext(s, Begin(n, c.token, c.audience), s1) && IsNext(s1, Look(n), s2)
    ensures IsNext(s2, Ask(n, r), s3) && IsNext(s3, ReadClock(n), t)
    ensures AllMissed(t, n + 1, c)
  {
    hide Outcome, CacheKey;
    s1 := Next(s, Begin(n, c.token, c.audience));
    s2 := Next(s1, Look(n));
    s3 := Next(s2, Ask(n, r));
    t := Next(s3, ReadClock(n));
  }

  lemma {:induction false} Extend4(events: seq<Event>, states: seq<State>, e1: Event, s1: State, e2: Event, s2: State,
          e3: Event, s3: State, e4: Event, s4: State)
    returns (events': seq<Event>, states': seq<State>)
    requires IsRun(events, states)
    requires IsNext(states[|events|], e1, s1) && IsNext(s1, e2, s2) && IsNext(s2, e3, s3) && IsNext(s3, e4, s4)
    ensures IsRun(events', states') && states'[|events'|] == s4
  {
    hide Next, Enabled;
    Extend(events, states, e1);
    Extend(events + [e1], states + [s1], e2);
    Extend(events + [e1] + [e2], states + [s1] + [s2], e3);
    Extend(events + [e1] + [e2] + [e3], states + [s1] + [s2] + [s3], e4);
    events', states' := events + [e1] + [e2] + [e3] + [e4], states + [s1] + [s2] + [s3] + [s4];
  }

  lemma {:induction false} NoneMissed(clock: int, c: Call)
    requires c.phase.Storing? && c.phase.expiresAt == clock + TTL
    ensures AllMissed(Initial(clock), 0, c) && IsRun([], [Initial(clock)])
  {
  }

  lemma {:induction false} MissesHappen(clock: int, n: nat, c: Call, r: Response)
    returns (events: seq<Event>, states: seq<State>)
    requires c.phase.Storing? && c.phase.expiresAt == clock + TTL && Outcome(r) == Some(c.phase.result)
    ensures IsRun(events, states) && AllMissed(states[|events|], n, c)
  {
    hide Next, Enabled, Outcome, AllMissed, IsRun;
    if n == 0 {
      NoneMissed(clock, c);
      events, states := [], [Initial(clock)];
    } else {
      events, states := MissesHappen(clock, n - 1, c, r);
      RunLength(events, states);
      var s1, s2, s3, t := OneMoreMisses(states[|events|], n - 1, c, r);
      events, states := Extend4(events, states, Begin(n - 1, c.token, c.audience), s1, Look(n - 1), s2, Ask(n - 1, r),
        s3, ReadClock(n - 1), t);
    }
  }

  lemma {:induction false} RunLength(events: seq<Event>, states: seq<State>)
    requires IsRun(events, states)
    ensures |states| == |events| + 1
  {
  }

  /** Of n such calls, the first k have stored: one entry under a count of k. */
  ghost predicate SomeStored(s: State, k: nat, n: nat, c: Call) {
    && c.phase.Storing? && AreWaiting(s.calls, k, n, c)
    && s.cache.size == k && |s.cache.entries| == (if k == 0 then 0 else 1)
    && (k > 0 ==> Key(c) in s.cache.entries)
  }

  lemma {:induction false} StoredBelowLimit(c: Cache, key: string, e: Entry, now: int)
    requires c.size < MAX_AUTH_CACHE_SIZE
    ensures Stored(c, key, e, now) == Cache(c.entries[key := e], c.size + 1)
    ensures |c.entries[key := e]| == |c.entries| + if key in c.entries then 0 else 1
  {
    UpdateCount(c.entries, key, e);
  }

  lemma {:induction false} WaitingNext(calls: map<nat, Call>, k: nat, n: nat, c: Call)
    requires AreWaiting(calls, k, n, c) && k < n
    ensures k in calls && calls[k] == c && AreWaiting(calls - {k}, k + 1, n, c)
  {
  }

  lemma {:induction false} StoreEffect(s: State, k: nat, c: Call)
    requires k in s.calls && s.calls[k] == c && c.phase.Storing?
    ensures Enabled(s, Store(k))
    ensures Next(s, Store(k)).calls == s.calls - {k}
    ensures Next(s, Store(k)).cache == Stored(s.cache, Key(c), Entry(c.phase.result, c.phase.expiresAt), s.clock)
  {
    hide Key, Stored, Overwrites;
  }

  lemma {:induction false} OneMoreStores(s: State, k: nat, n: nat, c: Call) returns (t: State)
    requires SomeStored(s, k, n, c) && k < n <= MAX_AUTH_CACHE_SIZE
    ensures IsNext(s, Store(k), t) && SomeStored(t, k + 1, n, c)
  {
    hide Key, Stored, Next, Enabled, AreWaiting;
    WaitingNext(s.calls, k, n, c);
    StoreEffect(s, k, c);
    StoredBelowLimit(s.cache, Key(c), Entry(c.phase.result, c.phase.expiresAt), s.clock);
    t := Next(s, Store(k));
  }

  lemma {:induction false} StoresHappen(clock: int, k: nat, n: nat, c: Call, r: Response)
    returns (events: seq<Event>, states: seq<State>)
    requires c.phase.Storing? && c.phase.expiresAt == clock + TTL && Outcome(r) == Some(c.phase.result)
    requires k <= n <= MAX_AUTH_CACHE_SIZE
    ensures IsRun(events, states) && SomeStored(states[|events|], k, n, c)
  {
    hide Next, Enabled, Outcome, IsRun, AreWaiting;
    if k == 0 {
      events, states := MissesHappen(clock, n, c, r);
    } else {
      events, states := StoresHappen(clock, k - 1, n, c, r);
      RunLength(events, states);
      var t := OneMoreStores(states[|events|], k - 1, n, c);
      Extend(events, states, Store(k - 1));
      events, states := events + [Store(k - 1)], states + [t];
      RunLength(events, states);
    }
  }

  /** Every gap below the limit does occur: that many simultaneous misses on one key, and one more, leave a single
      entry. */
  lemma {:induction false} DriftHappens(clock: int, token: string, audience: string, r: Response, gap: nat)
    returns (events: seq<Event>, states: seq<State>)
    requires Outcome(r) != None && gap < MAX_AUTH_CACHE_SIZE
    ensures IsRun(events, states)
    ensures states[|events|].overwrites == gap && states[|events|].cache.size == gap + 1
            && |states[|events|].cache.entries| == 1
  {
    hide Next, Enabled, Outcome;
    var c := Call(token, audience, Storing(Outcome(r).value, clock + TTL));
    events, states := StoresHappen(clock, gap + 1, gap + 1, c, r);
    AlwaysCounted(events, states);
  }

  // ---------------------------------------------------------------------------------------------
  // Where answers come from
  // ---------------------------------------------------------------------------------------------

  ghost predicate ColonFreeTokens(events: seq<Event>) {
    forall i :: 0 <= i < |events| && events[i].Begin? ==> ColonFree(events[i].token)
  }

  /** The entry goes back to a review of this token for this audience, and to the clock read after it. */
  ghost predicate Backed(s: State, token: string, audience: string, e: Entry) {
    Stamp(Review(token, audience, e.result), e.expiresAt - TTL) in s.stamps
  }

  ghost predicate CacheBacked(s: State) {
    forall k :: k in s.cache.entries ==> Backed(s, TokenOf(k), AudienceOf(k), s.cache.entries[k])
  }

  ghost predicate CallBacked(s: State, c: Call) {
    && ColonFree(c.token)
    && (c.phase.Checking? ==> Backed(s, c.token, c.audience, c.phase.entry))
    && (c.phase.Stamping? ==> Review(c.token, c.audience, c.phase.result) in s.reviews)
    && (c.phase.Storing? ==> Backed(s, c.token, c.audience, Entry(c.phase.result, c.phase.expiresAt)))
  }

  ghost predicate CallsBacked(s: State) {
    forall id :: id in s.calls ==> CallBacked(s, s.calls[id])
  }

  ghost predicate StampsBacked(s: State) {
    forall p :: p in s.stamps ==> p.review in s.reviews && p.at <= s.clock
  }

  ghost predicate Justified(s: State, a: Answer) {
    && a.review in s.reviews
    && (a.Cached? ==> exists at :: Stamp(a.review, at) in s.stamps && 0 <= a.checked - at < TTL)
  }

  ghost predicate AnswersBacked(s: State) {
    forall a :: a in s.answers ==> Justified(s, a)
  }

  ghost predicate Sound(s: State) {
    CacheBacked(s) && CallsBacked(s) && StampsBacked(s) && AnswersBacked(s)
  }

  lemma {:induction false} NextCacheBacked(s: State, e: Event)
    requires CacheBacked(s) && CallsBacked(s) && Enabled(s, e)
    ensures CacheBacked(Next(s, e))
  {
    hide CacheKey, TokenOf, AudienceOf, Outcome, ColonFree;
    if e.Store? {
      var c := s.calls[e.id];
      KeyDecodes(c.token, c.audience);
    }
  }

  lemma {:induction false} NextCallsBacked(s: State, e: Event)
    requires CacheBacked(s) && CallsBacked(s) && Enabled(s, e) && (e.Begin? ==> ColonFree(e.token))
    ensures CallsBacked(Next(s, e))
  {
    hide CacheKey, TokenOf, AudienceOf, Outcome, ColonFree, Stored, Deleted, Overwrites;
    if e.Look? {
      KeyDecodes(s.calls[e.id].token, s.calls[e.id].audience);
    }
  }

  lemma {:induction false} NextStampsBacked(s: State, e: Event)
    requires CallsBacked(s) && StampsBacked(s) && Enabled(s, e)
    ensures StampsBacked(Next(s, e))
  {
    hide CacheKey, TokenOf, AudienceOf, Outcome, ColonFree, Stored, Deleted, Overwrites;
  }

  lemma {:induction false} HistoryGrows(s: State, e: Event)
    requires Enabled(s, e)
    ensures s.reviews <= Next(s, e).reviews && s.stamps <= Next(s, e).stamps && s.answers <= Next(s, e).answers
  {
    hide CacheKey, Outcome, Stored, Deleted, Overwrites;
  }

  lemma {:induction false} NewAnswer(s: State, e: Event, a: Answer)
    requires CallsBacked(s) && StampsBacked(s) && Enabled(s, e) && a in Next(s, e).answers && a !in s.answers
    ensures Justified(s, a)
  {
    hide CacheKey, Outcome, Stored, Deleted, Overwrites, ColonFree;
    var c := s.calls[e.id];
    if e.Check? {
      assert Stamp(a.review, c.phase.entry.expiresAt - TTL) in s.stamps;
    } else {
      assert Stamp(a.review, c.phase.expiresAt - TTL) in s.stamps;
    }
  }

  lemma {:induction false} NextAnswersBacked(s: State, e: Event)
    requires Sound(s) && Enabled(s, e)
    ensures AnswersBacked(Next(s, e))
  {
    hide Next, Enabled;
    HistoryGrows(s, e);
    forall a | a in Next(s, e).answers ensures Justified(Next(s, e), a) {
      if a !in s.answers {
        NewAnswer(s, e, a);
      }
    }
  }

  lemma {:induction false} AlwaysSound(events: seq<Event>, states: seq<State>)
    requires IsRun(events, states) && ColonFreeTokens(events)
    ensures Sound(states[|events|])
  {
    hide Next, Enabled, ColonFree, CacheBacked, CallsBacked, StampsBacked, AnswersBacked;
    if |events| == 0 {
      StartFacts(states[0].clock);
    } else {
      var n := |events| - 1;
      AlwaysSound(events[..n], states[..|events|]);
      NextCacheBacked(states[n], events[n]);
      NextCallsBacked(states[n], events[n]);
      NextStampsBacked(states[n], events[n]);
      NextAnswersBacked(states[n], events[n]);
    }
  }

  /** Event i is the successful review r: the TokenReview API, asked about this token for this audience, named this
      account. */
  ghost predicate Reviewed(events: seq<Event>, states: seq<State>, i: int, r: Review)
    requires |states| == |events| + 1
  {
    && 0 <= i < |events| && events[i].Ask? && Outcome(events[i].response) == Some(r.result)
    && events[i].id in states[i].calls
    && states[i].calls[events[i].id].token == r.token && states[i].calls[events[i].id].audience == r.audience
  }

  lemma {:induction false} NewReview(s: State, e: Event, r: Review)
    requires Enabled(s, e) && r in Next(s, e).reviews && r !in s.reviews
    ensures e.Ask? && Outcome(e.response) == Some(r.result) && e.id in s.calls
    ensures s.calls[e.id].token == r.token && s.calls[e.id].audience == r.audience
  {
    hide CacheKey, Outcome, Stored, Deleted, Overwrites;
  }

  /** The recorded reviews are successful answers of the API earlier in the run. */
  lemma {:induction false} ReviewsHappened(events: seq<Event>, states: seq<State>, r: Review)
    requires IsRun(events, states) && r in states[|events|].reviews
    ensures exists i :: Reviewed(events, states, i, r)
  {
    hide Next, Enabled, Outcome;
    var n := |events| - 1;
    assert |events| > 0;
    if r in states[n].reviews {
      ReviewsHappened(events[..n], states[..|events|], r);
      var i :| Reviewed(events[..n], states[..|events|], i, r);
      assert Reviewed(events, states, i, r);
    } else {
      NewReview(states[n], events[n], r);
      assert Reviewed(events, states, n, r);
    }
  }

  /** Event j is the clock read, at time at, that follows the review r in some call. */
  ghost predicate ReadsClock(events: seq<Event>, states: seq<State>, j: int, r: Review, at: int)
    requires |states| == |events| + 1
  {
    && 0 <= j < |events| && events[j].ReadClock? && states[j].clock == at
    && events[j].id in states[j].calls && states[j].calls[events[j].id].phase == Stamping(r.result)
    && states[j].calls[events[j].id].token == r.token && states[j].calls[events[j].id].audience == r.audience
  }

  /** With event k a call for the token and the audience of a returns a; a cached answer is checked at the time of k. */
  ghost predicate Returns(events: seq<Event>, states: seq<State>, k: int, a: Answer)
    requires |states| == |events| + 1
  {
    && 0 <= k < |events| && a !in states[k].answers && a in states[k + 1].answers
    && (if a.Cached? then events[k].Check? && a.checked == states[k].clock else events[k].Store?)
    && events[k].id in states[k].calls
    && states[k].calls[events[k].id].token == a.review.token
       && states[k].calls[events[k].id].audience == a.review.audience
  }

  lemma {:induction false} NewStamp(s: State, e: Event, p: Stamp)
    requires Enabled(s, e) && p in Next(s, e).stamps && p !in s.stamps
    ensures e.ReadClock? && s.clock == p.at && e.id in s.calls && s.calls[e.id].phase == Stamping(p.review.result)
    ensures s.calls[e.id].token == p.review.token && s.calls[e.id].audience == p.review.audience
  {
    hide CacheKey, Outcome, Stored, Deleted, Overwrites;
  }

  lemma {:induction false} StampsHappened(events: seq<Event>, states: seq<State>, p: Stamp) returns (j: nat)
    requires IsRun(events, states) && p in states[|events|].stamps
    ensures ReadsClock(events, states, j, p.review, p.at)
  {
    hide Next, Enabled;
    var n := |events| - 1;
    assert |events| > 0;
    if p in states[n].stamps {
      j := StampsHappened(events[..n], states[..|events|], p);
    } else {
      NewStamp(states[n], events[n], p);
      j := n;
    }
  }

  lemma {:induction false} RunPrefix(events: seq<Event>, states: seq<State>, n: nat)
    requires IsRun(events, states) && n <= |events|
    ensures IsRun(events[..n], states[..n + 1])
    ensures ColonFreeTokens(events) ==> ColonFreeTokens(events[..n])
  {
    hide Next, Enabled, ColonFree;
  }

  /** Every clock read for an expiry comes after a review of the same token and audience with the same result. */
  lemma {:induction false} ClockReadFollowsReview(events: seq<Event>, states: seq<State>, j: nat, r: Review, at: int)
    returns (i: nat)
    requires IsRun(events, states) && ColonFreeTokens(events) && ReadsClock(events, states, j, r, at)
    ensures i < j && Reviewed(events, states, i, r)
  {
    hide Next, Enabled, ColonFree, Outcome, Backed, CacheBacked, StampsBacked, AnswersBacked;
    RunPrefix(events, states, j);
    AlwaysSound(events[..j], states[..j + 1]);
    assert states[..j + 1][j] == states[j];
    assert CallBacked(states[j], states[j].calls[events[j].id]);
    ReviewsHappened(events[..j], states[..j + 1], r);
    i :| Reviewed(events[..j], states[..j + 1], i, r);
  }

  lemma {:induction false} AnswerIsReturned(s: State, e: Event, a: Answer)
    requires Enabled(s, e) && a in Next(s, e).answers && a !in s.answers
    ensures if a.Cached? then e.Check? && a.checked == s.clock else e.Store?
    ensures e.id in s.calls && s.calls[e.id].token == a.review.token && s.calls[e.id].audience == a.review.audience
  {
    hide CacheKey, Outcome, Stored, Deleted, Overwrites;
  }

  lemma {:induction false} AnswersHappened(events: seq<Event>, states: seq<State>, a: Answer) returns (k: nat)
    requires IsRun(events, states) && a in states[|events|].answers
    ensures Returns(events, states, k, a)
  {
    hide Next, Enabled;
    var n := |events| - 1;
    assert |events| > 0;
    if a in states[n].answers {
      k := AnswersHappened(events[..n], states[..|events|], a);
    } else {
      AnswerIsReturned(states[n], events[n], a);
      k := n;
    }
  }

  lemma {:induction false} JustifiedWhenReturned(events: seq<Event>, states: seq<State>, k: nat, a: Answer)
    requires IsRun(events, states) && ColonFreeTokens(events) && Returns(events, states, k, a)
    ensures Justified(states[k], a)
  {
    hide Next, Enabled, ColonFree, Justified, CallBacked, CacheBacked;
    RunPrefix(events, states, k);
    AlwaysSound(events[..k], states[..k + 1]);
    assert states[..k + 1][k] == states[k];
    NewAnswer(states[k], events[k], a);
  }

  /** In every interleaving, with colon-free tokens: whatever a call returns for a token and an audience (event k) came
      from an earlier successful review of that same pair (event i); and a cached answer is checked less than TTL after
      a clock read (event j) in between, made by a call for that pair and after the review. */
  lemma {:induction false} AnswersAreReviewed(events: seq<Event>, states: seq<State>, a: Answer)
    returns (i: nat, j: nat, k: nat)
    requires IsRun(events, states) && ColonFreeTokens(events) && a in states[|events|].answers
    ensures Returns(events, states, k, a) && i < k && Reviewed(events, states, i, a.review)
    ensures a.Cached? ==>
              && i < j < k && ReadsClock(events, states, j, a.review, states[j].clock)
              && 0 <= states[k].clock - states[j].clock < TTL
  {
    hide Next, Enabled, ColonFree, Outcome, ReadsClock;
    k := AnswersHappened(events, states, a);
    JustifiedWhenReturned(events, states, k, a);
    RunPrefix(events, states, k);
    i, j := 0, 0;
    if a.Cached? {
      var at :| Stamp(a.review, at) in states[k].stamps && 0 <= a.checked - at < TTL;
      j := StampsHappened(events[..k], states[..k + 1], Stamp(a.review, at));
      ReadsClockLater(events, states, k, j, a.review, at);
      i := ClockReadFollowsReview(events, states, j, a.review, at);
    } else {
      ReviewsHappened(events[..k], states[..k + 1], a.review);
      i :| Reviewed(events[..k], states[..k + 1], i, a.review);
      ReviewedLater(events, states, k, i, a.review);
    }
  }

  lemma {:induction false} ReadsClockLater(events: seq<Event>, states: seq<State>, n: nat, j: nat, r: Review, at: int)
    requires |states| == |events| + 1 && n <= |events| && ReadsClock(events[..n], states[..n + 1], j, r, at)
    ensures j < n && ReadsClock(events, states, j, r, at) && states[j].clock == at
  {
  }

  lemma {:induction false} ReviewedLater(events: seq<Event>, states: seq<State>, n: nat, i: nat, r: Review)
    requires |states| == |events| + 1 && n <= |events| && Reviewed(events[..n], states[..n + 1], i, r)
    ensures i < n && Reviewed(events, states, i, r)
  {
  }

  /** Nothing but successful reviews ever enters the cache. */
  lemma {:induction false} CacheHoldsReviews(events: seq<Event>, states: seq<State>, key: string)
    requires IsRun(events, states) && ColonFreeTokens(events)
    requires key in states[|events|].cache.entries
    ensures Review(TokenOf(key), AudienceOf(key),
            states[|events|].cache.entries[key].result) in states[|events|].reviews
  {
    hide Next, Enabled, ColonFree, TokenOf, AudienceOf;
    AlwaysSound(events, states);
    var s := states[|events|];
    assert Backed(s, TokenOf(key), AudienceOf(key), s.cache.entries[key]);
  }
}
