/** Cached access tokens (backend/poi_admin/connections/tokens.py). */
module Tokens {
  import opened Wrappers

  /** The app provider, and the provider of an authorizer, which holds a refresh token. */
  datatype Kind = App | Authorizer

  datatype TokenError = Transient(code: string) | TokenInvalid | Wechat(errcode: int)

  /** What the token service sends: nothing, or a status with a body when that is a JSON object.
      Absent texts are empty; `expiresIn` is None when it is no number. */
  datatype Reply = Unreachable | Response(status: int, body: Option<Body>)

  datatype Body = Body(errcode: int, token: string, expiresIn: Option<real>, refreshToken: string)

  datatype Cache = Cache(token: string, expiresAt: real, refreshToken: string)

  const MARGIN := 60.0

  /** The check made before and again after waiting for the lock. */
  predicate Usable(c: Cache, force: bool, now: real) {
    !force && c.token != "" && c.expiresAt - now > MARGIN
  }

  predicate Overloaded(status: int) {
    status >= 500 || status == 429
  }

  function Verdict(kind: Kind, reply: Reply): Result<Body, TokenError> {
    if reply.Unreachable? then Err(Transient("token_unavailable"))
    else if kind.App? && Overloaded(reply.status) then Err(Transient("token_unavailable"))
    else if reply.body.None? then Err(Transient("invalid_upstream_response"))
    else
      var body := reply.body.value;
      if Overloaded(reply.status) then Err(Transient("token_unavailable"))
      else if kind.App? && body.errcode != 0 then
        Err(if body.errcode in {40001, 40125, 40164} then TokenInvalid else Wechat(body.errcode))
      else if kind.Authorizer? && (reply.status >= 400 || body.errcode != 0) then
        Err(Wechat(if body.errcode != 0 then body.errcode else reply.status))
      else if body.token == "" then Err(Transient("invalid_upstream_response"))
      else Ok(body)
  }

  /** Lifetimes below a minute count as a minute, unreadable ones as two hours. */
  function Lifetime(body: Body): real {
    if body.expiresIn.None? then 7200.0
    else if body.expiresIn.value > 60.0 then body.expiresIn.value
    else 60.0
  }

  function Granted(kind: Kind, c: Cache, body: Body, now: real): Cache {
    Cache(body.token, now + Lifetime(body),
          if kind.Authorizer? && body.refreshToken != "" then body.refreshToken else c.refreshToken)
  }

  /** A cached token is used exactly when it is not forced away and has more than a minute left. */
  lemma UsableIs(c: Cache, force: bool, now: real)
    ensures Usable(c, force, now) <==> !force && c.token != "" && now + 60.0 < c.expiresAt
  {
  }

  /** The service answers and is not overloaded: no 429, and no 5xx. */
  predicate IsAnswered(reply: Reply) {
    reply.Response? && reply.status < 500 && reply.status != 429
  }

  /** Exactly which replies grant a token. */
  lemma GrantsAre(kind: Kind, reply: Reply)
    ensures Verdict(kind, reply).Ok? <==>
              && IsAnswered(reply) && reply.body.Some? && reply.body.value.errcode == 0 && reply.body.value.token != ""
              && (kind == Authorizer ==> reply.status < 400)
    ensures Verdict(kind, reply).Ok? ==> reply.body == Some(Verdict(kind, reply).value)
  {
  }

  /** Exactly which replies are errors of which kind. Of an overloaded service only the authorizer's
      provider reads the body first. */
  lemma RefusalsAre(kind: Kind, reply: Reply)
    ensures var verdict := Verdict(kind, reply);
            var readable := reply.Response? && reply.body.Some?;
            var answered := IsAnswered(reply) && readable;
            var code := if readable then reply.body.value.errcode else 0;
            && (verdict == Err(Transient("token_unavailable")) <==>
                  reply.Unreachable? || (!IsAnswered(reply) && (readable || kind == App)))
            && (verdict == Err(Transient("invalid_upstream_response")) <==>
                  || (reply.Response? && !readable && (IsAnswered(reply) || kind == Authorizer))
                  || (answered && code == 0 && reply.body.value.token == ""
                      && (kind == Authorizer ==> reply.status < 400)))
            && (verdict == Err(TokenInvalid) <==> kind == App && answered && code in {40001, 40125, 40164})
            && (forall n :: verdict == Err(Wechat(n)) <==>
                  && answered
                  && (if code != 0 then n == code && (kind == App ==> code !in {40001, 40125, 40164})
                      else kind == Authorizer && reply.status >= 400 && n == reply.status))
  {
  }

  /** A grant is cached for its lifetime: what the service says, but at least a minute, and two hours if
      it says nothing readable. A refresh token replaces the stored one exactly when the authorizer's
      provider gets one. */
  lemma GrantIs(kind: Kind, c: Cache, body: Body, now: real)
    ensures var cache := Granted(kind, c, body, now);
            && cache.token == body.token
            && (body.expiresIn.None? ==> cache.expiresAt == now + 7200.0)
            && (body.expiresIn.Some? ==>
                  && cache.expiresAt >= now + 60.0 && cache.expiresAt >= now + body.expiresIn.value
                  && (cache.expiresAt == now + 60.0 || cache.expiresAt == now + body.expiresIn.value))
            && (kind == App ==> cache.refreshToken == c.refreshToken)
            && (kind == Authorizer && body.refreshToken == "" ==> cache.refreshToken == c.refreshToken)
            && (kind == Authorizer && body.refreshToken != "" ==> cache.refreshToken == body.refreshToken)
  {
  }

  class TokenProvider {
    var token: string
    var expiresAt: real
    var refreshToken: string
    const kind: Kind

    function Contents(): Cache
      reads this
    {
      Cache(token, expiresAt, refreshToken)
    }

    constructor (kind: Kind, initial: Option<string>, expiresAt: Option<real>, refreshToken: string)
      ensures this.kind == kind
      ensures Contents() == Cache(if initial.Some? then initial.value else "",
                                  if expiresAt.Some? then expiresAt.value else 0.0, refreshToken)
    {
      this.kind := kind;
      token := if initial.Some? then initial.value else "";
      this.expiresAt := if expiresAt.Some? then expiresAt.value else 0.0;
      this.refreshToken := refreshToken;
    }

    /** One call whose lock is free: `now` is read at the two checks and again after the reply. The
        service is asked exactly when the cached token cannot be used, and a refusal changes
        nothing. */
    method GetToken(force: bool, now: real, locked: real, reply: Reply, received: real)
      returns (r: Result<string, TokenError>, fetched: bool)
      modifies this
      ensures fetched <==> !Usable(old(Contents()), force, now) && !Usable(old(Contents()), force, locked)
      ensures !fetched ==> r == Ok(old(token)) && Contents() == old(Contents())
      ensures fetched ==> match Verdict(kind, reply)
              case Ok(body) => r == Ok(body.token) && Contents() == Granted(kind, old(Contents()), body, received)
              case Err(e) => r == Err(e) && Contents() == old(Contents())
    {
      if !force && token != "" && expiresAt - now > MARGIN { return Ok(token), false; }
      if !force && token != "" && expiresAt - locked > MARGIN { return Ok(token), false; }
      r := Refresh(reply, received);
      fetched := true;
    }

    method Refresh(reply: Reply, received: real) returns (r: Result<string, TokenError>)
      modifies this
      ensures match Verdict(kind, reply)
              case Ok(body) => r == Ok(body.token) && Contents() == Granted(kind, old(Contents()), body, received)
              case Err(e) => r == Err(e) && Contents() == old(Contents())
    {
      if reply.Unreachable? { return Err(Transient("token_unavailable")); }
      if kind.App? && Overloaded(reply.status) { return Err(Transient("token_unavailable")); }
      if reply.body.None? { return Err(Transient("invalid_upstream_response")); }
      var body := reply.body.value;
      if kind.Authorizer? {
        if Overloaded(reply.status) { return Err(Transient("token_unavailable")); }
        if reply.status >= 400 || body.errcode != 0 {
          return Err(Wechat(if body.errcode != 0 then body.errcode else reply.status));
        }
      } else if body.errcode != 0 {
        if body.errcode in {40001, 40125, 40164} { return Err(TokenInvalid); }
        return Err(Wechat(body.errcode));
      }
      if body.token == "" { return Err(Transient("invalid_upstream_response")); }
      if kind.Authorizer? && body.refreshToken != "" {
        refreshToken := body.refreshToken;
      }
      var ttl := if body.expiresIn.None? then 7200.0
                 else if body.expiresIn.value > 60.0 then body.expiresIn.value else 60.0;
      token := body.token;
      expiresAt := received + ttl;
      return Ok(token);
    }

    /** From then on no call uses the cached token, until the next grant. */
    method Invalidate()
      modifies this`expiresAt
      ensures Contents() == old(Contents()).(expiresAt := 0.0)
      ensures forall force, now | now >= 0.0 :: !Usable(Contents(), force, now)
    {
      expiresAt := 0.0;
    }
  }
}
