/** The app_sim800 request gate (`SecurityMiddleware`): trusted clients go
    straight to the handler; cached-blocked clients get 403; requests that
    hit one of the six pattern groups, or whose URL is too long, get 403 and
    their client is blocked; a handler that raises gets its client blocked
    and a 500. */
module Gatekeeper {
  import opened Text
  import opened SecurityPatterns
  import opened IpBlocklist
  import opened Limiter

  const MaxUrlLength := 512

  /** What the rest of the application does with the request. */
  datatype Outcome = Returned(status: int) | Raised(message: string)

  /** The error bodies of the gate. */
  datatype Error = AccessDenied | ThreatDetected | InternalError

  /** What the client sees: the application's own answer (including an
      exception it raises, which then propagates), or a JSON error. */
  datatype Response = FromHandler(outcome: Outcome) | Json(status: int, error: Error)

  datatype Violation = PatternHit(check: Check) | LongUrl

  /** The message words of each check, as the service writes them. */
  function Description(c: Check): string
  {
    match c
    case BlockedPaths => "Обнаружен опасный путь"
    case BlockedKeywords => "Обнаружено опасное ключевое слово"
    case Traversal => "Попытка обхода директорий"
    case PhpInjection => "Попытка PHP-инъекции"
    case Exploits => "Обнаружен известный эксплойт"
    case UserAgents => "Обнаружен опасный User-Agent"
  }

  /** The reason passed to block_ip: `"<message>: <pattern>"` for a pattern
      hit. */
  function ReasonOf(v: Violation): (r: string)
    ensures v.PatternHit? ==> |r| > |Source(v.check)| && r[|r| - |Source(v.check)|..] == Source(v.check)
  {
    match v
    case PatternHit(c) => Description(c) + ": " + Source(c)
    case LongUrl => "Слишком длинный URL"
  }

  function ErrorReason(message: string): string
  {
    "Ошибка сервера: " + message
  }

  /** The texts the checks run on. */
  function FullCheck(req: Request): string { Lower(req.path + "?" + req.query) }
  function AgentText(req: Request): string
  {
    Lower(match req.userAgent case Some(u) => u case None => "")
  }

  /** Check c fires on the path-and-query text, or (for USER_AGENTS only) on
      the User-Agent. */
  predicate Hits(c: Check, full: string, agent: string)
  {
    Search(c, full) || (c == UserAgents && Search(c, agent))
  }

  /** The position in the check order of the first check at or after `from`
      that fires. */
  function FirstHit(full: string, agent: string, from: nat): (r: Option<nat>)
    requires from <= |CheckOrder|
    ensures r.Some? ==> from <= r.value < |CheckOrder| && Hits(CheckOrder[r.value], full, agent)
    ensures r.Some? ==> forall j :: from <= j < r.value ==> !Hits(CheckOrder[j], full, agent)
    ensures r.None? ==> forall j :: from <= j < |CheckOrder| ==> !Hits(CheckOrder[j], full, agent)
    decreases |CheckOrder| - from
  {
    if from == |CheckOrder| then None
    else if Hits(CheckOrder[from], full, agent) then Some(from)
    else FirstHit(full, agent, from + 1)
  }

  /** check_security_violations as a value: the first pattern group that
      fires, else a URL over 512 characters, else nothing. */
  function FirstViolation(req: Request): Option<Violation>
  {
    match FirstHit(FullCheck(req), AgentText(req), 0)
    case Some(j) => Some(PatternHit(CheckOrder[j]))
    case None => if |Lower(req.url)| > MaxUrlLength then Some(LongUrl) else None
  }

  /** The first firing check is the reason, whatever fires after it. */
  lemma FirstMatchWins(req: Request, j: nat)
    requires j < |CheckOrder| && Hits(CheckOrder[j], FullCheck(req), AgentText(req))
    requires forall i :: 0 <= i < j ==> !Hits(CheckOrder[i], FullCheck(req), AgentText(req))
    ensures FirstViolation(req) == Some(PatternHit(CheckOrder[j]))
  {
    var r := FirstHit(FullCheck(req), AgentText(req), 0);
    assert r.Some? && r.value == j;
  }

  /** The length rule applies only when no group fires. */
  lemma LongUrlOnlyWithoutHit(req: Request)
    ensures FirstViolation(req) == Some(LongUrl) <==>
      (|req.url| > MaxUrlLength && forall j :: 0 <= j < |CheckOrder| ==> !Hits(CheckOrder[j], FullCheck(req), AgentText(req)))
  {
    var r := FirstHit(FullCheck(req), AgentText(req), 0);
    if r.Some? {
      assert Hits(CheckOrder[r.value], FullCheck(req), AgentText(req));
    }
  }

  /** A plain request for `/ab/cd/` is a violation of the keyword group. */
  lemma TwoLetterSegmentsDenied(req: Request)
    requires req.path == "/ab/cd/" && req.query == ""
    ensures FirstViolation(req).Some?
  {
    assert FullCheck(req) == "/ab/cd/?";
    OrdinaryPathDenied();
    assert Hits(CheckOrder[1], FullCheck(req), AgentText(req));
    var r := FirstHit(FullCheck(req), AgentText(req), 0);
    assert r.Some?;
  }

  /** dispatch as a value (the method below is proved against it): the new blocker state and the response. */
  function Handle(b: Blocker, cfg: Config, req: Request, outcome: Outcome, now: nat): (Blocker, Response)
  {
    var ip := ClientIp(cfg, req);
    if ip in cfg.trustedIps then (b, FromHandler(outcome))
    else
      var (b1, blocked) := Query(b, ip);
      if blocked then (b1, Json(403, AccessDenied))
      else match FirstViolation(req)
        case Some(v) => (Block(b1, cfg.trustedIps, ip, ReasonOf(v), now), Json(403, ThreatDetected))
        case None =>
          match outcome
          case Returned(_) => (b1, FromHandler(outcome))
          case Raised(m) => (Block(b1, cfg.trustedIps, ip, ErrorReason(m), now), Json(500, InternalError))
  }

  /** A trusted client reaches the handler with nothing looked up, checked
      or caught: the state is untouched and even an exception passes
      through. */
  lemma TrustedBypass(b: Blocker, cfg: Config, req: Request, outcome: Outcome, now: nat)
    requires ClientIp(cfg, req) in cfg.trustedIps
    ensures Handle(b, cfg, req, outcome, now) == (b, FromHandler(outcome))
  {
  }

  /** A cached-blocked client gets 403 after the refresh, with no pattern
      check and no new block. */
  lemma BlockedClientDenied(b: Blocker, cfg: Config, req: Request, outcome: Outcome, now: nat)
    requires ClientIp(cfg, req) !in cfg.trustedIps && Query(b, ClientIp(cfg, req)).1
    ensures Handle(b, cfg, req, outcome, now) == (Refresh(b), Json(403, AccessDenied))
  {
  }

  /** A violation blocks the client exactly once, with the violation's
      reason, and answers 403. */
  lemma ViolationBlocksOnce(b: Blocker, cfg: Config, req: Request, outcome: Outcome, now: nat)
    requires ClientIp(cfg, req) !in cfg.trustedIps && !Query(b, ClientIp(cfg, req)).1
    requires FirstViolation(req).Some?
    ensures Handle(b, cfg, req, outcome, now) ==
      (Block(Refresh(b), cfg.trustedIps, ClientIp(cfg, req), ReasonOf(FirstViolation(req).value), now), Json(403, ThreatDetected))
    ensures b.file.writable ==>
      (Handle(b, cfg, req, outcome, now).0.log == b.log + [Entry(ClientIp(cfg, req), ReasonOf(FirstViolation(req).value))])
  {
  }

  /** An allowed, untrusted request whose handler raises blocks the client
      and answers 500; one whose handler returns is passed on unchanged. */
  lemma HandlerOutcome(b: Blocker, cfg: Config, req: Request, outcome: Outcome, now: nat)
    requires ClientIp(cfg, req) !in cfg.trustedIps && !Query(b, ClientIp(cfg, req)).1
    requires FirstViolation(req).None?
    ensures outcome.Raised? ==> (Handle(b, cfg, req, outcome, now) ==
      (Block(Refresh(b), cfg.trustedIps, ClientIp(cfg, req), ErrorReason(outcome.message), now), Json(500, InternalError)))
    ensures outcome.Returned? ==> Handle(b, cfg, req, outcome, now) == (Refresh(b), FromHandler(outcome))
  {
  }

  /** At most one block per request: the warning log grows by zero or one
      entry, and the cached mtime never goes back. */
  lemma DispatchLogsAtMostOne(b: Blocker, cfg: Config, req: Request, outcome: Outcome, now: nat)
    ensures var b' := Handle(b, cfg, req, outcome, now).0;
      (b'.log == b.log || (|b'.log| == |b.log| + 1 && b'.log[..|b.log|] == b.log))
      && b'.lastModified >= b.lastModified
  {
    var ip := ClientIp(cfg, req);
    RefreshMonotone(b);
  }

  /** A client that trips a check is refused on its next request, however
      harmless, as long as nobody else edits the blocklist file. */
  lemma ViolatorRefusedNext(b: Blocker, cfg: Config, req: Request, outcome: Outcome, now: nat,
                            next: Request, outcome2: Outcome, later: nat)
    requires ClientIp(cfg, req) !in cfg.trustedIps && CleanIp(ClientIp(cfg, req))
    requires !Query(b, ClientIp(cfg, req)).1 && FirstViolation(req).Some?
    requires b.file.writable && (!b.file.present || LineTerminated(b.file.content))
    requires ClientIp(cfg, next) == ClientIp(cfg, req)
    ensures Handle(Handle(b, cfg, req, outcome, now).0, cfg, next, outcome2, later).1 == Json(403, AccessDenied)
  {
    var ip := ClientIp(cfg, req);
    var b1 := Refresh(b);
    RefreshMonotone(b);
    assert b1.file == b.file;
    BlockThenBlocked(b1, cfg.trustedIps, ip, ReasonOf(FirstViolation(req).value), now);
  }

  // ------------------------------------------------------------ the class

  class SecurityMiddleware {
    const config: Config
    const blocker: IPBlocker

    ghost predicate Valid()
    {
      blocker.trusted == config.trustedIps
    }

    constructor (config: Config, file: File)
      ensures Valid() && fresh(blocker) && this.config == config
      ensures blocker.State() == Blocker({}, 0, file, [])
    {
      this.config := config;
      blocker := new IPBlocker(config.trustedIps, file);
    }

    /** check_security_violations: the checks in order, stopping at the
        first that fires. */
    method CheckSecurityViolations(req: Request, ip: string, now: nat) returns (violated: bool)
      requires Valid()
      modifies blocker
      ensures violated == FirstViolation(req).Some?
      ensures blocker.State() == match FirstViolation(req)
        case Some(v) => Block(old(blocker.State()), config.trustedIps, ip, ReasonOf(v), now)
        case None => old(blocker.State())
    {
      var url := Lower(req.url);
      var agent := AgentText(req);
      var full := FullCheck(req);
      var i := 0;
      while i < |CheckOrder|
        invariant 0 <= i <= |CheckOrder|
        invariant forall j :: 0 <= j < i ==> !Hits(CheckOrder[j], full, agent)
        invariant blocker.State() == old(blocker.State())
      {
        var check := CheckOrder[i];
        if Search(check, full) || (check == UserAgents && Search(check, agent)) {
          FirstMatchWins(req, i);
          blocker.BlockIp(ip, ReasonOf(PatternHit(check)), now);
          return true;
        }
        i := i + 1;
      }
      LongUrlOnlyWithoutHit(req);
      if |url| > MaxUrlLength {
        blocker.BlockIp(ip, ReasonOf(LongUrl), now);
        return true;
      }
      return false;
    }

    method Dispatch(req: Request, outcome: Outcome, now: nat) returns (resp: Response)
      requires Valid()
      modifies blocker
      ensures (blocker.State(), resp) == Handle(old(blocker.State()), config, req, outcome, now)
    {
      var ip := ClientIp(config, req);
      if ip in config.trustedIps {
        return FromHandler(outcome);
      }
      var blocked := blocker.IsBlocked(ip);
      if blocked {
        return Json(403, AccessDenied);
      }
      var violated := CheckSecurityViolations(req, ip, now);
      if violated {
        return Json(403, ThreatDetected);
      }
      match outcome {
        case Returned(_) =>
          resp := FromHandler(outcome);
        case Raised(m) =>
          blocker.BlockIp(ip, ErrorReason(m), now);
          resp := Json(500, InternalError);
      }
    }
  }
}
