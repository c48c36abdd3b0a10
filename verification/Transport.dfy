// The admin REST client's request loop: one token per attempt, at most one
// retry on 401. Seen from outside, a whole call is one of the three outcomes
// the step machine allows a remote call.
module Transport {
  import opened Kube
  import opened KeycloakServer
  import opened Machine
  import opened Tokens

  /** What becomes of one HTTP request: the server's own answer; no readable
      answer; or an error status that does not come from the request itself.
      applied says whether the request took effect. */
  datatype Delivery = Delivered | NoAnswer(applied: bool) | ErrorStatus(code: int, applied: bool)

  /** A 401 is sent before the request is looked at, and only the server itself answers 2xx or 404. */
  predicate Plausible(d: Delivery) {
    d.ErrorStatus? ==> !(200 <= d.code < 300) && d.code != 404 && (d.code == 401 ==> !d.applied)
  }

  /** The environment of one attempt: clock, token endpoint, delivery, listing order. */
  datatype Attempt = Attempt(now: int, reply: TokenReply, later: int, delivery: Delivery, pick: Pick)

  const ROUTINE := Attempt(0, Granted("token", 300), 0, Delivered, NOPICK)

  /** One request on the wire; serial numbers the token fetches. */
  datatype Sent = Sent(request: Request, token: string, serial: nat, applied: bool, status: Option<int>)

  datatype DoResult = Succeeded(body: Body) | NotFoundError | HttpError(status: int) | CallError

  function AnswerOf(res: DoResult): Answer {
    match res
    case Succeeded(body) => Replied(body)
    case NotFoundError => Missing
    case _ => Refused
  }

  /** The machine's view of a remote call that only involves the server. */
  ghost predicate OneCall(server: Server, req: Request, server': Server, answer: Answer) {
    exists fault: Fault, pick: Pick ::
      Perform(Bare(server), Admin(req), fault, pick) == (Bare(server'), answer)
  }

  function Bare(server: Server): Store {
    Store(0, map[], map[], map[], server)
  }

  function CountApplied(sent: seq<Sent>): nat {
    if sent == [] then 0 else CountApplied(sent[..|sent| - 1]) + if sent[|sent| - 1].applied then 1 else 0
  }

  predicate Is2xx(status: int) {
    200 <= status < 300
  }

  class AdminClient {
    var cache: Cache
    var server: Server
    var attempts: seq<Attempt>
    var fetches: nat
    ghost var sent: seq<Sent>

    ghost predicate Valid()
      reads this
    {
      forall a | a in attempts :: Plausible(a.delivery)
    }

    /** getToken. */
    method GetToken(a: Attempt) returns (token: Option<string>)
      modifies this`cache, this`fetches
      ensures (cache, token) == Acquire(old(cache), a.now, a.reply, a.later)
      ensures token.Some? ==> token.value != ""
      ensures fetches == old(fetches) + if Fetches(old(cache), a.now, a.reply) then 1 else 0
    {
      if cache.token != "" && a.now < cache.expiry - SLACK {
        return Some(cache.token);
      }
      if !a.reply.Granted? || a.reply.token == "" {
        return None;
      }
      var exp := a.reply.expiresIn;
      if exp <= 0 {
        exp := DEFAULT_LIFETIME;
      }
      cache := Cache(a.reply.token, a.later + exp);
      fetches := fetches + 1;
      return Some(cache.token);
    }

    /** invalidateToken. */
    method InvalidateToken()
      modifies this`cache
      ensures cache == NOTHING
    {
      cache := NOTHING;
    }

    /** One authenticated request: an error, or the status and body received. */
    method DoOnce(req: Request) returns (failed: bool, status: int, body: Body)
      requires Valid()
      modifies this
      ensures Valid() && fetches >= old(fetches)
      ensures old(cache) == NOTHING && |sent| > |old(sent)| ==> fetches == old(fetches) + 1
      ensures |sent| == |old(sent)| ==> sent == old(sent) && failed && server == old(server)
      ensures |old(sent)| <= |sent| <= |old(sent)| + 1 && old(sent) <= sent
      ensures |sent| > |old(sent)| ==>
        var s := sent[|old(sent)|];
        && s.request == req && s.token == cache.token && s.serial == fetches
        && s.status == (if failed then None else Some(status))
        && Delivers(old(server), req, s.applied, server)
        && (!failed && status == 401 ==> !s.applied)
        && (!failed && (Is2xx(status) || status == 404) ==> Truth(old(server), req, server, status, body))
    {
      var a := ROUTINE;
      if attempts != [] {
        a := attempts[0];
        attempts := attempts[1..];
      }
      var token := GetToken(a);
      if token.None? {
        return true, 0, Empty;
      }
      failed, status, body := Exchange(req, token.value, a);
    }

    /** The request on the wire, and what comes back. */
    method Exchange(req: Request, token: string, a: Attempt) returns (failed: bool, status: int, body: Body)
      requires Plausible(a.delivery)
      modifies this`server, this`sent
      ensures |sent| == |old(sent)| + 1 && old(sent) <= sent
      ensures var s := sent[|old(sent)|];
        && s.request == req && s.token == token && s.serial == fetches
        && s.status == (if failed then None else Some(status))
        && Delivers(old(server), req, s.applied, server)
        && (!failed && status == 401 ==> !s.applied)
        && (!failed && (Is2xx(status) || status == 404) ==> Truth(old(server), req, server, status, body))
    {
      var (after, reply) := Handle(server, req, a.pick);
      var applied := a.delivery.Delivered? || a.delivery.applied;
      HandleAnswers(server, req, a.pick);
      if applied {
        server := after;
      }
      match a.delivery {
        case Delivered => failed, status, body := false, reply.status, reply.body;
        case NoAnswer(_) => failed, status, body := true, 0, Empty;
        case ErrorStatus(code, _) => failed, status, body := false, code, Empty;
      }
      ghost var s := Sent(req, token, fetches, applied, if failed then None else Some(status));
      sent := sent + [s];
      assert sent == old(sent) + [s];
      assert !failed && (Is2xx(status) || status == 404) ==> Truth(old(server), req, server, status, body);
      assert Delivers(old(server), req, s.applied, server);
    }

    /** do: at most two attempts with the same request, of which at most one takes effect. */
    method Do(req: Request) returns (res: DoResult)
      requires Valid()
      modifies this
      ensures Valid() && old(sent) <= sent
      ensures var mine := sent[|old(sent)|..];
        && |mine| <= 2 && (forall s | s in mine :: s.request == req)
        && CountApplied(mine) <= 1
        && (|mine| == 2 ==> mine[0].status == Some(401) && mine[1].serial > mine[0].serial)
        && (res.Succeeded? <==> mine != [] && mine[|mine| - 1].status.Some? && 200 <= mine[|mine| - 1].status.value < 300)
        && (res.NotFoundError? <==> mine != [] && mine[|mine| - 1].status == Some(404))
      ensures OneCall(old(server), req, server, AnswerOf(res))
      ensures res.Succeeded? ==> exists status :: 200 <= status < 300 && Truth(old(server), req, server, status, res.body)
      ensures res.NotFoundError? ==> exists body :: Truth(old(server), req, server, 404, body)
    {
      var attempt := 0;
      while true
        invariant 0 <= attempt <= 1 && Valid() && server == old(server) && old(sent) <= sent
        invariant |sent| == |old(sent)| + attempt
        invariant attempt == 1 ==>
          var s := sent[|old(sent)|];
          cache == NOTHING && s.request == req && !s.applied && s.status == Some(401) && s.serial <= fetches
        decreases 1 - attempt
      {
        var failed, status, body := DoOnce(req);
        ghost var mine := sent[|old(sent)|..];
        CountFew(mine);
        if failed {
          assert Delivers(old(server), req, |sent| > |old(sent)| + attempt && sent[|old(sent)| + attempt].applied, server);
          EitherWay(old(server), req, server);
          return CallError;
        }
        if status == 401 && attempt == 0 {
          InvalidateToken();
          attempt := attempt + 1;
          continue;
        }
        if status == 404 {
          TruthIsOneCall(old(server), req, server, status, body);
          return NotFoundError;
        }
        if status < 200 || status >= 300 {
          EitherWay(old(server), req, server);
          return HttpError(status);
        }
        TruthIsOneCall(old(server), req, server, status, body);
        return Succeeded(body);
      }
    }
  }

  /** The request was applied, or it was not. */
  ghost predicate Delivers(server: Server, req: Request, applied: bool, server': Server) {
    if applied then exists pick :: server' == Handle(server, req, pick).0 else server' == server
  }

  /** Status and body are the server's own. */
  ghost predicate Truth(server: Server, req: Request, server': Server, status: int, body: Body) {
    exists pick :: Handle(server, req, pick) == (server', Reply(status, body))
  }

  lemma HandleAnswers(server: Server, req: Request, pick: Pick)
    ensures Handle(server, req, pick).1.status != 401
  {
  }

  lemma EitherWay(server: Server, req: Request, server': Server)
    requires exists applied :: Delivers(server, req, applied, server')
    ensures OneCall(server, req, server', Refused)
  {
    if server' == server {
      assert Perform(Bare(server), Admin(req), Lost, NOPICK) == (Bare(server'), Refused);
    } else {
      var pick :| server' == Handle(server, req, pick).0;
      assert Perform(Bare(server), Admin(req), ReplyLost, pick) == (Bare(server'), Refused);
    }
  }

  lemma TruthIsOneCall(server: Server, req: Request, server': Server, status: int, body: Body)
    requires Truth(server, req, server', status, body) && (Is2xx(status) || status == 404)
    ensures OneCall(server, req, server', if status == 404 then Missing else Replied(body))
  {
    var pick :| Handle(server, req, pick) == (server', Reply(status, body));
    assert Perform(Bare(server), Admin(req), Fine, pick) == (Bare(server'), if status == 404 then Missing else Replied(body));
  }

  lemma CountFew(sent: seq<Sent>)
    requires |sent| <= 2
    ensures CountApplied(sent) == (if |sent| > 0 && sent[0].applied then 1 else 0) + (if |sent| > 1 && sent[1].applied then 1 else 0)
  {
    if |sent| > 1 {
      CountFew(sent[..1]);
    }
  }
}
