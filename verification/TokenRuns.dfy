/** Whole runs of one token provider with any number of concurrent callers, sharing one lock
    (backend/poi_admin/connections/tokens.py). A step ends where the code waits: for the lock or for
    the reply of the token service. */
module TokenRuns {
  import opened Wrappers
  import opened Tokens

  type Caller = nat

  /** A caller is elsewhere, waits for the lock, or holds it and waits for the reply to the refresh
      token it presented. */
  datatype Phase = Away | Waiting(force: bool) | Refreshing(presented: string)

  /** `tokens` and `refreshTokens` list what the provider was given so far, the newest last; `fetches`
      counts requests; `last` is the outcome of the call that ended most recently. No code reads
      these. */
  datatype State = State(
    now: real, cache: Cache, lock: Option<Caller>, phases: map<Caller, Phase>,
    tokens: seq<string>, refreshTokens: seq<string>, fetches: nat, last: Option<Result<string, TokenError>>)

  datatype Event =
    | Call(c: Caller, force: bool)
    | Acquire(c: Caller)
    | Receive(c: Caller, reply: Reply)
    | Cancel(c: Caller)
    | Invalidate
    | Tick(d: real)

  function PhaseOf(s: State, c: Caller): Phase {
    if c in s.phases then s.phases[c] else Away
  }

  predicate Enabled(s: State, e: Event) {
    match e
    case Call(c, _) => PhaseOf(s, c).Away?
    case Acquire(c) => PhaseOf(s, c).Waiting? && s.lock.None?
    case Receive(c, _) => PhaseOf(s, c).Refreshing?
    case Cancel(c) => !PhaseOf(s, c).Away?
    case Invalidate => true
    case Tick(d) => d >= 0.0
  }

  function Ended(s: State, c: Caller, r: Option<Result<string, TokenError>>): State {
    s.(phases := s.phases[c := Away], last := r)
  }

  function Released(s: State, c: Caller): Option<Caller> {
    if s.lock == Some(c) then None else s.lock
  }

  /** The refresh token a reply brings: only the provider of an authorizer gets one, and not always. */
  function Brought(kind: Kind, body: Body): seq<string> {
    if kind.Authorizer? && body.refreshToken != "" then [body.refreshToken] else []
  }

  function AfterReceive(kind: Kind, s: State, c: Caller, reply: Reply): State {
    match Verdict(kind, reply)
    case Err(e) => Ended(s, c, Some(Err(e))).(lock := Released(s, c))
    case Ok(body) =>
      Ended(s, c, Some(Ok(body.token))).(
        cache := Granted(kind, s.cache, body, s.now), lock := Released(s, c),
        tokens := s.tokens + [body.token],
        refreshTokens := s.refreshTokens + Brought(kind, body))
  }

  function Apply(kind: Kind, s: State, e: Event): State
    requires Enabled(s, e)
  {
    match e
    case Call(c, force) =>
      if Usable(s.cache, force, s.now) then Ended(s, c, Some(Ok(s.cache.token)))
      else s.(phases := s.phases[c := Waiting(force)])
    case Acquire(c) =>
      if Usable(s.cache, PhaseOf(s, c).force, s.now) then Ended(s, c, Some(Ok(s.cache.token)))
      else s.(lock := Some(c), phases := s.phases[c := Refreshing(s.cache.refreshToken)], fetches := s.fetches + 1)
    case Receive(c, reply) => AfterReceive(kind, s, c, reply)
    case Cancel(c) => Ended(s, c, s.last).(lock := Released(s, c))
    case Invalidate => s.(cache := s.cache.(expiresAt := 0.0))
    case Tick(d) => s.(now := s.now + d)
  }

  ghost predicate Init(s: State) {
    && s.lock == None && s.phases == map[] && s.fetches == 0 && s.last == None
    && s.tokens == [s.cache.token] && s.refreshTokens == [s.cache.refreshToken] && s.now >= 0.0
  }

  /** Any cache and any time may be at the start. */
  lemma AnyCacheMayStart(cache: Cache, now: real)
    requires now >= 0.0
    ensures Init(State(now, cache, None, map[], [cache.token], [cache.refreshToken], 0, None))
  {
  }

  /** Time only passes; an invalidation may come at any time and takes the cached token out of use; a
      caller may be cancelled whenever it waits, and then frees the lock if it holds it. */
  lemma EventsAre(kind: Kind, s: State, e: Event)
    ensures e.Tick? ==> (Enabled(s, e) <==> e.d >= 0.0)
    ensures e.Tick? && Enabled(s, e) ==> Apply(kind, s, e) == s.(now := s.now + e.d)
    ensures e.Invalidate? ==>
              Enabled(s, e) && Apply(kind, s, e) == s.(cache := Cache(s.cache.token, 0.0, s.cache.refreshToken))
    ensures e.Cancel? ==> (Enabled(s, e) <==> PhaseOf(s, e.c) != Away)
    ensures e.Cancel? && Enabled(s, e) ==>
              Apply(kind, s, e) == s.(phases := s.phases[e.c := Away],
                                      lock := if s.lock == Some(e.c) then None else s.lock)
  {
  }

  /** A call that is alone, from its start over the lock to the reply, does what the provider's method
      does: the same token or error, the same cache, and a request exactly when the method makes one. */
  lemma UninterruptedCallIs(kind: Kind, s: State, c: Caller, force: bool, reply: Reply)
    requires PhaseOf(s, c) == Away && s.lock == None
    ensures Enabled(s, Call(c, force))
    ensures var s1 := Apply(kind, s, Call(c, force));
            if Usable(s.cache, force, s.now) then
              s1 == s.(phases := s.phases[c := Away], last := Some(Ok(s.cache.token)))
            else
              && Enabled(s1, Acquire(c))
              && var s2 := Apply(kind, s1, Acquire(c));
                 && s2.fetches == s.fetches + 1 && Enabled(s2, Receive(c, reply))
                 && var s3 := Apply(kind, s2, Receive(c, reply));
                    && PhaseOf(s3, c) == Away && s3.lock == None && s3.fetches == s.fetches + 1
                    && match Verdict(kind, reply)
                       case Ok(body) =>
                         s3.last == Some(Ok(body.token)) && s3.cache == Granted(kind, s.cache, body, s.now)
                       case Err(error) => s3.last == Some(Err(error)) && s3.cache == s.cache
  {
  }

  ghost predicate IsRun(kind: Kind, ss: seq<State>, es: seq<Event>) {
    && |ss| == |es| + 1 && Init(ss[0])
    && forall i {:trigger Enabled(ss[i], es[i])} {:trigger Apply(kind, ss[i], es[i])} | 0 <= i < |es| ::
         Enabled(ss[i], es[i]) && ss[i + 1] == Apply(kind, ss[i], es[i])
  }

  /** The lock is held exactly by the one caller whose request is in flight, that caller presented
      the newest refresh token, and the cached token is the newest one. */
  ghost predicate Inv(s: State) {
    && (forall c: Caller :: PhaseOf(s, c).Refreshing? <==> s.lock == Some(c))
    && (forall c: Caller | PhaseOf(s, c).Refreshing? :: PhaseOf(s, c).presented == s.cache.refreshToken)
    && s.tokens != [] && s.cache.token == s.tokens[|s.tokens| - 1]
    && s.refreshTokens != [] && s.cache.refreshToken == s.refreshTokens[|s.refreshTokens| - 1]
  }

  lemma StepKeepsInv(kind: Kind, s: State, e: Event)
    requires Inv(s) && Enabled(s, e)
    ensures Inv(Apply(kind, s, e))
  {
    var s' := Apply(kind, s, e);
    if e.Receive? { assert PhaseOf(s, e.c).Refreshing? <==> s.lock == Some(e.c); }
    forall c: Caller ensures PhaseOf(s', c).Refreshing? <==> s'.lock == Some(c) {
      assert PhaseOf(s, c).Refreshing? <==> s.lock == Some(c);
    }
    forall c: Caller | PhaseOf(s', c).Refreshing? ensures PhaseOf(s', c).presented == s'.cache.refreshToken {
      assert PhaseOf(s, c).Refreshing? <==> s.lock == Some(c);
    }
  }

  lemma {:induction false} RunKeepsInv(kind: Kind, ss: seq<State>, es: seq<Event>, i: nat)
    requires IsRun(kind, ss, es) && i < |ss|
    ensures Inv(ss[i])
  {
    if i > 0 {
      RunKeepsInv(kind, ss, es, i - 1);
      assert Enabled(ss[i - 1], es[i - 1]) && ss[i] == Apply(kind, ss[i - 1], es[i - 1]);
      StepKeepsInv(kind, ss[i - 1], es[i - 1]);
    }
  }

  /** At most one refresh is in flight, and while none is the lock is free. */
  lemma OneRefreshInFlight(kind: Kind, ss: seq<State>, es: seq<Event>, i: nat, a: Caller, b: Caller)
    requires IsRun(kind, ss, es) && i < |ss| && PhaseOf(ss[i], a).Refreshing?
    ensures PhaseOf(ss[i], b).Refreshing? <==> a == b
    ensures ss[i].lock == Some(a)
  {
    RunKeepsInv(kind, ss, es, i);
  }

  /** From the moment a refresh starts until its reply, the refresh token it presented is the newest
      one the provider was ever given. */
  lemma NewestRefreshTokenIsPresented(kind: Kind, ss: seq<State>, es: seq<Event>, i: nat, c: Caller)
    requires IsRun(kind, ss, es) && i < |ss| && PhaseOf(ss[i], c).Refreshing?
    ensures ss[i].refreshTokens != []
    ensures PhaseOf(ss[i], c).presented == ss[i].refreshTokens[|ss[i].refreshTokens| - 1]
  {
    RunKeepsInv(kind, ss, es, i);
  }

  /** A call that ends with a token ends with the newest token of the provider. */
  lemma CallsEndWithTheNewestToken(kind: Kind, ss: seq<State>, es: seq<Event>, i: nat, c: Caller)
    requires IsRun(kind, ss, es) && i < |es|
    requires es[i].Call? || es[i].Acquire? || es[i].Receive?
    requires es[i].c == c && PhaseOf(ss[i + 1], c).Away? && ss[i + 1].last.Some? && ss[i + 1].last.value.Ok?
    ensures ss[i + 1].tokens != [] && ss[i + 1].last.value.value == ss[i + 1].tokens[|ss[i + 1].tokens| - 1]
  {
    RunKeepsInv(kind, ss, es, i);
    assert Enabled(ss[i], es[i]) && ss[i + 1] == Apply(kind, ss[i], es[i]);
    StepKeepsInv(kind, ss[i], es[i]);
  }

  /** Event i grants a token with this body. */
  predicate Grants(kind: Kind, e: Event, body: Body) {
    e.Receive? && Verdict(kind, e.reply) == Ok(body)
  }

  /** No grant and no invalidation among the events from i up to j. */
  predicate Undisturbed(kind: Kind, es: seq<Event>, i: nat, j: nat)
    requires i <= j <= |es|
  {
    forall k | i <= k < j :: !es[k].Invalidate? && (es[k].Receive? ==> Verdict(kind, es[k].reply).Err?)
  }

  lemma {:induction false} CacheStays(kind: Kind, ss: seq<State>, es: seq<Event>, i: nat, j: nat)
    requires IsRun(kind, ss, es) && i <= j < |ss| && Undisturbed(kind, es, i, j)
    ensures ss[j].cache == ss[i].cache && ss[i].now <= ss[j].now
  {
    if i < j {
      CacheStays(kind, ss, es, i, j - 1);
      assert Enabled(ss[j - 1], es[j - 1]) && ss[j] == Apply(kind, ss[j - 1], es[j - 1]);
    }
  }

  /** A caller that gets the lock after a refresh uses that refresh exactly when it is not forced and
      more than a minute of the granted lifetime is left; it then returns the granted token and asks
      nobody. Otherwise it fetches. */
  lemma WaitersShareTheRefresh(kind: Kind, ss: seq<State>, es: seq<Event>, i: nat, j: nat, body: Body)
    requires IsRun(kind, ss, es) && i < j < |es|
    requires Grants(kind, es[i], body) && Undisturbed(kind, es, i + 1, j) && es[j].Acquire?
    ensures var c := es[j].c;
            var shared := ss[j + 1].last == Some(Ok(body.token)) && PhaseOf(ss[j + 1], c).Away?
                          && ss[j + 1].fetches == ss[j].fetches;
            && PhaseOf(ss[j], c).Waiting?
            && (shared <==> !PhaseOf(ss[j], c).force && ss[i].now + Lifetime(body) - ss[j].now > MARGIN)
            && (!shared ==> ss[j + 1].fetches == ss[j].fetches + 1)
  {
    assert Enabled(ss[i], es[i]) && ss[i + 1] == Apply(kind, ss[i], es[i]);
    CacheStays(kind, ss, es, i + 1, j);
    assert Enabled(ss[j], es[j]) && ss[j + 1] == Apply(kind, ss[j], es[j]);
    assert body.token != "";
  }

  /** A token the service grants for a minute or less is never taken from the cache: every later call
      waits for the lock, and every later waiter fetches, until the next grant. */
  lemma ShortLivedTokensAreNotShared(kind: Kind, ss: seq<State>, es: seq<Event>, i: nat, j: nat, body: Body)
    requires IsRun(kind, ss, es) && i < j < |es|
    requires Grants(kind, es[i], body) && Undisturbed(kind, es, i + 1, j)
    requires body.expiresIn.Some? && body.expiresIn.value <= 60.0
    ensures es[j].Call? ==> PhaseOf(ss[j + 1], es[j].c).Waiting?
    ensures es[j].Acquire? ==> ss[j + 1].fetches == ss[j].fetches + 1
  {
    assert Enabled(ss[i], es[i]) && ss[i + 1] == Apply(kind, ss[i], es[i]);
    CacheStays(kind, ss, es, i + 1, j);
    assert Enabled(ss[j], es[j]) && ss[j + 1] == Apply(kind, ss[j], es[j]);
  }

  /** No call is forced and nothing is invalidated. */
  predicate Calm(es: seq<Event>) {
    forall k | 0 <= k < |es| :: !es[k].Invalidate? && (es[k].Call? ==> !es[k].force)
  }

  lemma {:induction false} NobodyIsForced(kind: Kind, ss: seq<State>, es: seq<Event>, i: nat, c: Caller)
    requires IsRun(kind, ss, es) && Calm(es) && i < |ss| && PhaseOf(ss[i], c).Waiting?
    ensures !PhaseOf(ss[i], c).force
  {
    if i > 0 {
      assert Enabled(ss[i - 1], es[i - 1]) && ss[i] == Apply(kind, ss[i - 1], es[i - 1]);
      if PhaseOf(ss[i - 1], c).Waiting? { NobodyIsForced(kind, ss, es, i - 1, c); }
    }
  }

  /** However many callers come at once: without forced calls and invalidations, after a grant no
      request is made until all but a minute of the granted lifetime has passed. */
  lemma {:induction false} NoStampede(kind: Kind, ss: seq<State>, es: seq<Event>, i: nat, j: nat, body: Body)
    requires IsRun(kind, ss, es) && Calm(es) && i < j < |ss|
    requires Grants(kind, es[i], body) && ss[j].now - ss[i].now < Lifetime(body) - MARGIN
    ensures ss[j].fetches == ss[i].fetches
    ensures ss[j].cache.token == body.token && ss[j].cache.expiresAt == ss[i].now + Lifetime(body)
    ensures ss[j].lock == None
    decreases j
  {
    RunKeepsInv(kind, ss, es, j - 1);
    assert Enabled(ss[j - 1], es[j - 1]) && ss[j] == Apply(kind, ss[j - 1], es[j - 1]);
    if i == j - 1 {
      assert PhaseOf(ss[i], es[i].c).Refreshing? <==> ss[i].lock == Some(es[i].c);
    } else {
      NoStampede(kind, ss, es, i, j - 1, body);
      assert body.token != "";
      var e := es[j - 1];
      if e.Receive? || e.Cancel? || e.Acquire? {
        assert PhaseOf(ss[j - 1], e.c).Refreshing? <==> ss[j - 1].lock == Some(e.c);
      }
      if e.Acquire? { NobodyIsForced(kind, ss, es, j - 1, e.c); }
    }
  }
}
