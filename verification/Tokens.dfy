// The admin token cache: what one access to it does, and what every interleaving
// of callers sharing it guarantees. Each access holds the mutex, the token
// request included, so an access is one atomic step.
module Tokens {
  import opened Kube

  const SLACK := 10
  const DEFAULT_LIFETIME := 60

  /** Seconds are whole; an empty token means nothing is cached. */
  datatype Cache = Cache(token: string, expiry: int)

  const NOTHING := Cache("", 0)

  /** The token endpoint is unreachable or unreadable, refuses, or answers. */
  datatype TokenReply = Unreadable | Status(code: int) | Granted(token: string, expiresIn: int)

  predicate Usable(c: Cache, now: int) {
    c.token != "" && now < c.expiry - SLACK
  }

  predicate Fetches(c: Cache, now: int, reply: TokenReply) {
    !Usable(c, now) && reply.Granted? && reply.token != ""
  }

  function Lifetime(expiresIn: int): int {
    if expiresIn <= 0 then DEFAULT_LIFETIME else expiresIn
  }

  /** getToken: the cache afterwards and the token to use, if any. now is read
      before the request, later after it. */
  function Acquire(c: Cache, now: int, reply: TokenReply, later: int): (Cache, Option<string>) {
    if Usable(c, now) then (c, Some(c.token))
    else if !reply.Granted? || reply.token == "" then (c, None)
    else (Cache(reply.token, later + Lifetime(reply.expiresIn)), Some(reply.token))
  }

  // ---------- Callers sharing the cache ----------

  datatype Phase = Resting | NeedsToken | Sending | Rejected

  /** token and fetchedAt: the token in use and the moment it was fetched;
      droppedAt: the moment this caller invalidated the cache before retrying. */
  datatype Caller = Caller(phase: Phase, attempt: nat, token: string, fetchedAt: nat, droppedAt: nat)

  const NEWCALLER := Caller(Resting, 0, "", 0, 0)

  datatype Shared = Shared(
    cache: Cache,
    callers: map<nat, Caller>,
    moment: nat,           // moments count the steps taken
    cachedAt: nat,         // when the cached token was fetched
    lastFetch: nat,
    lastDrop: nat)

  const EMPTY := Shared(NOTHING, map[], 1, 0, 0, 0)

  datatype Move =
    | Begin(who: nat)
    | GetToken(who: nat, now: int, reply: TokenReply, later: int)
    | Answered(who: nat, status: int)
    | Invalidate(who: nat)

  function CallerOf(s: Shared, who: nat): Caller {
    if who in s.callers then s.callers[who] else NEWCALLER
  }

  function Put(s: Shared, who: nat, c: Caller): Shared {
    s.(callers := s.callers[who := c], moment := s.moment + 1)
  }

  /** A move that does not fit the caller's phase changes nothing. */
  function Step(s: Shared, m: Move): Shared {
    var c := CallerOf(s, m.who);
    match m
    case Begin(who) =>
      if c.phase.Resting? then Put(s, who, NEWCALLER.(phase := NeedsToken)) else s
    case GetToken(who, now, reply, later) =>
      if !c.phase.NeedsToken? then s
      else
        var (cache, token) := Acquire(s.cache, now, reply, later);
        if token.None? then Put(s, who, c.(phase := Resting))
        else if Fetches(s.cache, now, reply) then
          Put(s.(cache := cache, cachedAt := s.moment, lastFetch := s.moment), who,
              c.(phase := Sending, token := token.value, fetchedAt := s.moment))
        else Put(s, who, c.(phase := Sending, token := token.value, fetchedAt := s.cachedAt))
    case Answered(who, status) =>
      if !c.phase.Sending? then s
      else if status == 401 && c.attempt == 0 then Put(s, who, c.(phase := Rejected))
      else Put(s, who, c.(phase := Resting))
    case Invalidate(who) =>
      if !c.phase.Rejected? then s
      else Put(s.(cache := NOTHING, lastDrop := s.moment), who,
               c.(phase := NeedsToken, attempt := 1, droppedAt := s.moment))
  }

  function Play(s: Shared, moves: seq<Move>): Shared {
    if moves == [] then s else Step(Play(s, moves[..|moves| - 1]), moves[|moves| - 1])
  }

  ghost predicate CallerOK(s: Shared, who: nat) {
    var c := CallerOf(s, who);
    && c.attempt <= 1 && c.droppedAt <= s.lastDrop
    && (c.phase.Rejected? ==> c.attempt == 0)
    && (c.phase.Sending? ==> c.token != "")
    && (c.phase.Sending? && c.attempt == 1 ==> c.fetchedAt > c.droppedAt)
  }

  /** A cached token is the last one fetched, and was fetched after the last invalidation. */
  ghost predicate CacheOK(s: Shared) {
    && s.lastDrop < s.moment && s.lastFetch < s.moment
    && (s.cache.token != "" ==> s.cachedAt == s.lastFetch && s.cachedAt > s.lastDrop)
  }

  lemma StepKeepsOK(s: Shared, m: Move)
    requires CacheOK(s) && forall who :: CallerOK(s, who)
    ensures var s' := Step(s, m); CacheOK(s') && forall who :: CallerOK(s', who)
  {
    var s' := Step(s, m);
    assert CallerOK(s, m.who);
    forall who ensures CallerOK(s', who) { assert CallerOK(s, who); }
  }

  lemma {:induction false} PlayKeepsOK(moves: seq<Move>)
    ensures var s := Play(EMPTY, moves); CacheOK(s) && forall who :: CallerOK(s, who)
  {
    if moves != [] {
      PlayKeepsOK(moves[..|moves| - 1]);
      StepKeepsOK(Play(EMPTY, moves[..|moves| - 1]), moves[|moves| - 1]);
    }
  }

  /** In every interleaving, a caller on its second attempt uses a token that
      was fetched after it invalidated the first; there is no third attempt. */
  lemma RetryUsesFresherToken(moves: seq<Move>, who: nat)
    ensures var c := CallerOf(Play(EMPTY, moves), who);
      && c.attempt <= 1
      && (c.phase.Sending? && c.attempt == 1 ==> c.token != "" && c.fetchedAt > c.droppedAt)
  {
    PlayKeepsOK(moves);
    assert CallerOK(Play(EMPTY, moves), who);
  }

  /** A token with more than ten seconds to live is served without a request; it
      is the last one anyone fetched, and nobody has invalidated since. Otherwise
      a token is fetched and kept for the lifetime it was granted, or a minute if
      none was given; a request that fails leaves the cache as it was. */
  lemma ServedTokenIsCurrent(moves: seq<Move>, who: nat, now: int, reply: TokenReply, later: int)
    requires CallerOf(Play(EMPTY, moves), who).phase.NeedsToken?
    ensures var s := Play(EMPTY, moves);
      var s' := Step(s, GetToken(who, now, reply, later));
      var c := CallerOf(s', who);
      if s.cache.token != "" && now + 10 < s.cache.expiry then
        && c.phase.Sending? && s'.cache == s.cache
        && c.token == s.cache.token && c.fetchedAt == s.lastFetch > s.lastDrop
      else if reply.Granted? && reply.token != "" then
        && c.phase.Sending? && c.token == reply.token && c.fetchedAt == s'.lastFetch == s.moment
        && s'.cache == Cache(reply.token, later + if reply.expiresIn > 0 then reply.expiresIn else 60)
      else c.phase.Resting? && s'.cache == s.cache
  {
    PlayKeepsOK(moves);
  }

  /** Only a 401 to a first attempt makes a caller try again; then, and only
      then, it drops what is cached and asks for a token anew. */
  lemma OnlyUnauthorizedRetries(s: Shared, who: nat, status: int)
    requires CallerOf(s, who).phase.Sending?
    ensures var answered := Step(s, Answered(who, status));
      var retried := Step(answered, Invalidate(who));
      && answered.cache == s.cache
      && (if status == 401 && CallerOf(s, who).attempt == 0 then
            && retried.cache.token == "" && CallerOf(retried, who).phase.NeedsToken? && CallerOf(retried, who).attempt == 1
          else retried == answered && CallerOf(answered, who).phase.Resting?)
  {
  }

  // ---------- What an invalidation drops ----------

  /** Move i makes a token request that is granted. */
  predicate Fetch(moves: seq<Move>, i: nat)
    requires i < |moves|
  {
    var s := Play(EMPTY, moves[..i]);
    && moves[i].GetToken? && CallerOf(s, moves[i].who).phase.NeedsToken?
    && Fetches(s.cache, moves[i].now, moves[i].reply)
  }

  /** No token was fetched after that moment. */
  ghost predicate NoFetchSince(moves: seq<Move>, moment: nat) {
    forall i | 0 <= i < |moves| && Fetch(moves, i) :: Play(EMPTY, moves[..i]).moment <= moment
  }

  /** lastFetch is the moment of the last granted request. */
  ghost predicate LastFetchOK(moves: seq<Move>) {
    var s := Play(EMPTY, moves);
    && NoFetchSince(moves, s.lastFetch)
    && (s.lastFetch == 0 || exists i | 0 <= i < |moves| :: Fetch(moves, i) && Play(EMPTY, moves[..i]).moment == s.lastFetch)
  }

  lemma FetchOfPrefix(moves: seq<Move>, n: nat, i: nat)
    requires i < n <= |moves|
    ensures moves[..n][..i] == moves[..i] && Fetch(moves[..n], i) == Fetch(moves, i)
  {
    assert moves[..n][..i] == moves[..i];
  }

  /** One move fetches now, or leaves lastFetch as it was. */
  lemma FetchSets(s: Shared, m: Move)
    ensures var fetching := m.GetToken? && CallerOf(s, m.who).phase.NeedsToken? && Fetches(s.cache, m.now, m.reply);
      Step(s, m).lastFetch == if fetching then s.moment else s.lastFetch
  {
  }

  lemma {:induction false} LastFetchIsLast(moves: seq<Move>)
    ensures LastFetchOK(moves)
  {
    if moves != [] {
      var last := |moves| - 1;
      var before := moves[..last];
      LastFetchIsLast(before);
      PlayKeepsOK(before);
      FetchSets(Play(EMPTY, before), moves[last]);
      forall i | 0 <= i < last ensures moves[..i] == before[..i] && Fetch(moves, i) == Fetch(before, i) {
        FetchOfPrefix(moves, last, i);
      }
      FetchIsRecorded(moves);
    }
  }

  lemma FetchIsRecorded(moves: seq<Move>)
    requires moves != [] && LastFetchOK(moves[..|moves| - 1])
    ensures var s := Play(EMPTY, moves);
      s.lastFetch == 0 || exists i | 0 <= i < |moves| :: Fetch(moves, i) && Play(EMPTY, moves[..i]).moment == s.lastFetch
  {
    var last := |moves| - 1;
    var before := moves[..last];
    FetchSets(Play(EMPTY, before), moves[last]);
    if Fetch(moves, last) {
      assert Play(EMPTY, moves[..last]).moment == Play(EMPTY, moves).lastFetch;
    } else if Play(EMPTY, before).lastFetch != 0 {
      var i :| 0 <= i < last && Fetch(before, i) && Play(EMPTY, before[..i]).moment == Play(EMPTY, before).lastFetch;
      FetchOfPrefix(moves, last, i);
      assert Fetch(moves, i);
    }
  }

  /** A token in use was fetched at or before the last fetch; while that one is
      still cached, both are the same token. */
  ghost predicate HoldsOK(s: Shared, who: nat) {
    var c := CallerOf(s, who);
    c.phase.Sending? || c.phase.Rejected? ==>
      && c.fetchedAt <= s.lastFetch
      && (s.cache.token != "" && c.fetchedAt == s.cachedAt ==> c.token == s.cache.token)
  }

  lemma {:induction false} PlayKeepsHolds(moves: seq<Move>)
    ensures forall who :: HoldsOK(Play(EMPTY, moves), who)
  {
    if moves != [] {
      var last := |moves| - 1;
      var s := Play(EMPTY, moves[..last]);
      PlayKeepsHolds(moves[..last]);
      PlayKeepsOK(moves[..last]);
      assert HoldsOK(s, moves[last].who);
      forall who ensures HoldsOK(Step(s, moves[last]), who) { assert HoldsOK(s, who); }
    }
  }

  /** Invalidating now costs nobody anything but the token this caller was refused with. */
  predicate DropsOnlyRefused(s: Shared, who: nat) {
    s.cache.token == "" || s.cachedAt == CallerOf(s, who).fetchedAt
  }

  /** In every run, an invalidation drops only the refused token exactly when
      nothing is cached or no token was fetched since the refused one was; then
      the cached token is the refused one. Otherwise it drops a newer one. */
  lemma {:induction false} InvalidationDrops(moves: seq<Move>, who: nat)
    requires CallerOf(Play(EMPTY, moves), who).phase.Rejected?
    ensures var s := Play(EMPTY, moves);
      var c := CallerOf(s, who);
      && (DropsOnlyRefused(s, who) <==> s.cache.token == "" || NoFetchSince(moves, c.fetchedAt))
      && (DropsOnlyRefused(s, who) ==> s.cache.token in {"", c.token})
      && (!DropsOnlyRefused(s, who) ==> s.cachedAt > c.fetchedAt)
      && Step(s, Invalidate(who)).cache == NOTHING
  {
    PlayKeepsOK(moves);
    PlayKeepsHolds(moves);
    LastFetchIsLast(moves);
    var s := Play(EMPTY, moves);
    assert HoldsOK(s, who);
    if s.cache.token != "" && NoFetchSince(moves, CallerOf(s, who).fetchedAt) {
      var i :| 0 <= i < |moves| && Fetch(moves, i) && Play(EMPTY, moves[..i]).moment == s.lastFetch;
    }
  }

  /** Rejected with the first token, while the second, fetched later, is cached - and is dropped next. */
  ghost predicate AboutToDrop(moves: seq<Move>, who: nat, first: string, second: string) {
    var s := Play(EMPTY, moves);
    var c := CallerOf(s, who);
    && c.phase.Rejected? && c.token == first && s.cache.token == second && c.fetchedAt < s.cachedAt
    && Step(s, Invalidate(who)).cache == NOTHING
  }

  /** An invalidation does not look at which token was rejected: a caller whose
      old token is refused throws away a newer one another caller just fetched. */
  lemma NewerTokenCanBeDropped(first: string, second: string)
    requires first != "" && second != ""
    ensures exists moves, who :: AboutToDrop(moves, who, first, second)
  {
    var p1, s1 := PlayOne([], Begin(0));
    var p2, s2 := PlayOne(p1, Begin(1));
    var p3, s3 := PlayOne(p2, GetToken(0, 0, Granted(first, 300), 0));
    var p4, s4 := PlayOne(p3, GetToken(1, 0, Unreadable, 0));
    var p5, s5 := PlayOne(p4, Answered(0, 401));
    var p6, s6 := PlayOne(p5, Answered(1, 401));
    var p7, s7 := PlayOne(p6, Invalidate(0));
    var p8, s8 := PlayOne(p7, GetToken(0, 1, Granted(second, 300), 1));
    assert AboutToDrop(p8, 1, first, second);
  }

  lemma PlayOne(moves: seq<Move>, m: Move) returns (longer: seq<Move>, s: Shared)
    ensures longer == moves + [m] && s == Play(EMPTY, longer) == Step(Play(EMPTY, moves), m)
  {
    longer := moves + [m];
    s := Play(EMPTY, longer);
    assert longer[..|longer| - 1] == moves;
  }
}
