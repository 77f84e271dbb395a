/** Cache client tokens (internal/controller/engine_controller_token.go) and the requeue arithmetic of
    engine_controller_wasm_driver.go. Times and durations are whole nanoseconds. */
module TokenRenewal {

  const SECOND := 1_000_000_000

  datatype TokenEntry = TokenEntry(token: string, issuedAt: int, expiresAt: int)

  type Store = map<string, TokenEntry>

  /** Go's conversion of a float64 to a Duration truncates toward zero. */
  function Truncated(numerator: int, denominator: int): int
    requires denominator > 0
  {
    if numerator >= 0 then numerator / denominator else -((-numerator) / denominator)
  }

  /** RenewalDeadline: four fifths of the lifetime after issuance. */
  function RenewalDeadline(e: TokenEntry): int {
    e.issuedAt + Truncated(4 * (e.expiresAt - e.issuedAt), 5)
  }

  predicate NeedsRenewal(e: TokenEntry, now: int) {
    now >= RenewalDeadline(e)
  }

  /** The deadline lies between issuance and expiry, in whichever order these are. */
  lemma {:induction false} DeadlineBetween(e: TokenEntry)
    ensures e.issuedAt <= e.expiresAt ==> e.issuedAt <= RenewalDeadline(e) <= e.expiresAt
    ensures e.issuedAt > e.expiresAt ==> e.expiresAt <= RenewalDeadline(e) <= e.issuedAt
  {
  }

  predicate Expired(e: TokenEntry, now: int) {
    now > e.expiresAt
  }

  /** pruneExpiredTokens. */
  function Pruned(s: Store, now: int): Store {
    map k | k in s && !Expired(s[k], now) :: s[k]
  }

  /** The token that ensureCacheToken takes from the store, if any. */
  predicate Reusable(s: Store, key: string, now: int) {
    key in s && !NeedsRenewal(s[key], now)
  }

  /** Nothing in the store was issued in the future. */
  predicate IssuedBy(s: Store, now: int) {
    forall k :: k in s ==> s[k].issuedAt <= now
  }

  /** Pruning is invisible: at any later time the same tokens are taken from the pruned store as from the full one. */
  lemma {:induction false} PruningInvisible(s: Store, pruned: int, key: string, now: int)
    requires IssuedBy(s, pruned) && pruned <= now
    ensures Reusable(Pruned(s, pruned), key, now) <==> Reusable(s, key, now)
    ensures Reusable(s, key, now) ==> Pruned(s, pruned)[key] == s[key]
  {
    if key in s {
      DeadlineBetween(s[key]);
    }
  }

  /** A token from the store is handed out only before its deadline and before its expiry, and was issued for a positive
      lifetime. */
  lemma {:induction false} ReusedIsFresh(s: Store, key: string, now: int)
    requires IssuedBy(s, now) && Reusable(s, key, now)
    ensures now < RenewalDeadline(s[key]) <= s[key].expiresAt && s[key].issuedAt < s[key].expiresAt
  {
    DeadlineBetween(s[key]);
  }

  // ---------------------------------------------------------------------------------------------
  // Continuity
  // ---------------------------------------------------------------------------------------------

  /** How long provisionWasmDriver asks to be left alone. */
  function RequeueAfter(renewAt: int, now: int): int {
    if renewAt - now > SECOND then renewAt - now else SECOND
  }

  /** One successful reconcile: when the stored token was checked, when the token to use was in the plugin, when the
      requeue was computed, and the token. */
  datatype Round = Round(checked: int, installed: int, returned: int, entry: TokenEntry)

  predicate InOrder(r: Round) {
    r.checked <= r.installed <= r.returned
  }

  /** The next reconcile reuses the token or replaces it by one issued in between. */
  predicate Follows(a: Round, b: Round) {
    && InOrder(b) && a.returned <= b.checked
    && if NeedsRenewal(a.entry, b.checked) then b.checked <= b.entry.issuedAt <= b.installed else b.entry == a.entry
  }

  /** What comes on top of the renewal schedule: returning after the deadline, starting late, and taking time to
      install. */
  function Delay(a: Round, b: Round): int {
    var deadline := RenewalDeadline(a.entry);
    var due := a.returned + RequeueAfter(deadline, a.returned);
    (if a.returned > deadline then a.returned - deadline else 0)
    + (if b.checked > due then b.checked - due else 0)
    + (b.installed - b.checked)
  }

  /** The slack that the fraction leaves: a fifth of the lifetime, rounded up. */
  function Slack(e: TokenEntry): int {
    e.expiresAt - RenewalDeadline(e)
  }

  lemma {:induction false} SlackIsRest(e: TokenEntry)
    requires e.issuedAt <= e.expiresAt
    ensures var lifetime := e.expiresAt - e.issuedAt; Slack(e) == lifetime - 4 * lifetime / 5
    ensures 5 * Slack(e) >= e.expiresAt - e.issuedAt
  {
  }

  /** The delay leaves a second of the slack. */
  predicate Timely(a: Round, b: Round) {
    Follows(a, b) && Delay(a, b) + SECOND <= Slack(a.entry)
  }

  predicate TimelyRun(rounds: seq<Round>) {
    forall j :: 0 <= j < |rounds| - 1 ==> Timely(rounds[j], rounds[j + 1])
  }

  lemma {:induction false} ReplacedInTime(a: Round, b: Round)
    requires Timely(a, b)
    ensures b.installed <= a.entry.expiresAt
  {
  }

  /** The token in the plugin at a time: that of the last round that had installed its token by then. */
  function Current(rounds: seq<Round>, t: int): TokenEntry
    requires |rounds| > 0
  {
    var n := |rounds| - 1;
    if n == 0 || rounds[n].installed <= t then rounds[n].entry else Current(rounds[..n], t)
  }

  /** Along a run of requeues whose delays each leave a second of the slack, the token in the plugin has not expired, at
      any time from the first installation to the last. */
  lemma {:induction false} TokenContinuity(rounds: seq<Round>, t: int)
    requires |rounds| > 0 && TimelyRun(rounds)
    requires rounds[0].installed <= t < rounds[|rounds| - 1].installed
    ensures t <= Current(rounds, t).expiresAt
  {
    var n := |rounds| - 1;
    var a, b, before := rounds[n - 1], rounds[n], rounds[..n];
    assert Timely(a, b);
    ReplacedInTime(a, b);
    assert before[n - 1] == a && TimelyRun(before);
    if t < a.installed {
      TokenContinuity(before, t);
    } else {
      assert Current(before, t) == a.entry;
    }
  }

  /** Why a second has to be left: the requeue is never sooner than that. With delays measured on the dot, the bound is
      exact for a reconcile that returns at the deadline. */
  lemma {:induction false} SecondIsNeeded(a: Round, b: Round)
    requires Follows(a, b) && a.returned == RenewalDeadline(a.entry)
    requires b.checked >= a.returned + RequeueAfter(RenewalDeadline(a.entry), a.returned)
    ensures b.installed <= a.entry.expiresAt <==> Delay(a, b) + SECOND <= Slack(a.entry)
  {
  }

  // ---------------------------------------------------------------------------------------------
  // The token store
  // ---------------------------------------------------------------------------------------------

  /** What the TokenRequest API answers. */
  datatype TokenReply = Refused(error: string) | Issued(token: string, expiresAt: int)

  class TokenKeeper {
    var tokenStore: Store

    constructor ()
      ensures tokenStore == map[]
    {
      tokenStore := map[];
    }

    /** pruneExpiredTokens: visits the entries in any order. */
    method PruneExpiredTokens(now: int)
      modifies this
      ensures tokenStore == Pruned(old(tokenStore), now)
    {
      ghost var before := tokenStore;
      var left := tokenStore.Keys;
      while left != {}
        invariant left <= before.Keys
        invariant tokenStore == map k | k in before && (k in left || !Expired(before[k], now)) :: before[k]
      {
        var key :| key in left;
        if now > tokenStore[key].expiresAt {
          tokenStore := tokenStore - {key};
        }
        left := left - {key};
      }
    }

    /** ensureCacheToken: the clock is read for the check, after the request, and for pruning. */
    method EnsureCacheToken(key: string, reply: TokenReply, checked: int, issued: int, pruned: int)
      returns (failed: bool, token: string, renewAt: int)
      requires IssuedBy(tokenStore, checked) && checked <= issued <= pruned
      modifies this
      ensures IssuedBy(tokenStore, pruned)
      ensures Reusable(old(tokenStore), key, checked) ==>
                && tokenStore == old(tokenStore) && !failed
                && token == old(tokenStore)[key].token && renewAt == RenewalDeadline(old(tokenStore)[key])
                && checked < renewAt <= old(tokenStore)[key].expiresAt
      ensures !Reusable(old(tokenStore), key, checked) ==>
                && failed == reply.Refused?
                && (failed ==> tokenStore == old(tokenStore))
                && (!failed ==>
                      var entry := TokenEntry(reply.token, issued, reply.expiresAt);
                      && tokenStore == Pruned(old(tokenStore)[key := entry], pruned)
                      && token == entry.token && renewAt == RenewalDeadline(entry))
      ensures forall k, now :: k != key && now >= pruned ==>
              (Reusable(tokenStore, k, now) <==> Reusable(old(tokenStore), k, now))
    {
      ghost var before := tokenStore;
      if key in tokenStore && !NeedsRenewal(tokenStore[key], checked) {
        ReusedIsFresh(before, key, checked);
        return false, tokenStore[key].token, RenewalDeadline(tokenStore[key]);
      }
      if reply.Refused? {
        return true, "", 0;
      }
      var entry := TokenEntry(reply.token, issued, reply.expiresAt);
      tokenStore := tokenStore[key := entry];
      ghost var stored := tokenStore;
      forall k, now | k != key && now >= pruned
        ensures Reusable(Pruned(stored, pruned), k, now) <==> Reusable(before, k, now)
      {
        PruningInvisible(stored, pruned, k, now);
      }
      PruneExpiredTokens(pruned);
      return false, entry.token, RenewalDeadline(entry);
    }
  }
}
