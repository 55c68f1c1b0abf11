/** The app_web request gate (`SecurityManager.is_request_allowed` and the
    `before_request` hook). Unlike the app_sim800 gate it matches plain
    substrings, tests the path and the query separately, and checks method,
    User-Agent and URL length last. */
module WebSecurity {
  import opened Text
  import opened IpBlocklist
  import opened Limiter

  const MaxUrlLength := 512

  const AllowedMethods: seq<string> := ["GET", "POST", "HEAD", "OPTIONS"]

  const BlockedPaths: seq<string> := [
    ".env", ".git", "config.json", "secrets.yaml", "secrets.yml",
    "php-cgi", "wp-admin", "adminer", "backup", ".powenv", ".profile",
    "cgi-bin", "bin/sh", "eval-stdin.php", "pearcmd", ".s3cfg",
    "vendor/phpunit", "think/app", "Util/PHP", "_info.php", "_phpinfo.php",
    "restore.php", "backup.php", "recovery.php", "_poopinfo.php",
    "wp-login.php", "admin.php", "config.php", ".phpinfo", "_profiler/info"]

  const BlockedKeywords: seq<string> := [
    "allow_url_include", "auto_prepend_file", "call_user_func_array", "invokefunction",
    "config-create", "/../../", "%2e%2e", "xdebug_session_start", "phpstorm", "debug"]

  const BlockedUserAgents: seq<string> := [
    "nmap", "sqlmap", "nikto", "metasploit", "havij", "dirbuster", "wpscan", "acunetix", "nessus",
    "firefox/14.0a1", "firefox/44.0", "chrome/3.0.195.17"]

  const TraversalPatterns: seq<string> := ["../", "..\\", "%2e%2e/", "%2e%2e%2f", "..;/", "..5c", "..%255c", "..%c0%af"]

  const PhpPatterns: seq<string> := ["php://", "<?php", "<?=", "phar://", "expect://", "zlib://", "data://", "glob://", "ssh2://"]

  const ExploitPatterns: seq<string> := [
    "s=/index/\\think\\app/invokefunction", "function=call_user_func_array",
    "vars[0]=md5", "lang=../../../../../../../../"]

  /** The pattern lists the gate reads. */
  datatype Lists = Lists(
    methods: seq<string>, paths: seq<string>, keywords: seq<string>, agents: seq<string>,
    traversal: seq<string>, php: seq<string>, exploits: seq<string>)

  const Patterns := Lists(AllowedMethods, BlockedPaths, BlockedKeywords, BlockedUserAgents,
                          TraversalPatterns, PhpPatterns, ExploitPatterns)

  /** `any(p in text for p in patterns)` */
  predicate AnyIn(patterns: seq<string>, text: string)
  {
    exists k :: 0 <= k < |patterns| && Contains(text, patterns[k])
  }

  /** `(allowed, reason)` */
  datatype Verdict = Verdict(allowed: bool, reason: Option<string>)

  function UserAgentText(req: Request): string
  {
    match req.userAgent case Some(u) => u case None => ""
  }

  /** _validate_request_components */
  function ValidComponents(pl: Lists, req: Request): bool
  {
    if req.verb !in pl.methods then false
    else if AnyIn(pl.agents, Lower(UserAgentText(req))) then false
    else if |req.url| > MaxUrlLength then false
    else true
  }

  lemma ComponentsRule(pl: Lists, req: Request)
    ensures !ValidComponents(pl, req) <==>
      req.verb !in pl.methods || AnyIn(pl.agents, Lower(UserAgentText(req))) || |req.url| > MaxUrlLength
  {
  }

  /** The pattern and request steps of is_request_allowed, in order; the
      first that refuses fixes the reason. */
  function Screen(pl: Lists, req: Request, dataReadable: bool): Verdict
  {
    var path := Lower(req.path);
    var query := Lower(req.query);
    if AnyIn(pl.paths, path) || AnyIn(pl.keywords, query) then
      Verdict(false, Some("Blocked path/query pattern"))
    else if exists k :: 0 <= k < |pl.traversal| && (Contains(path, pl.traversal[k]) || Contains(query, pl.traversal[k])) then
      Verdict(false, Some("Directory traversal attempt"))
    else if AnyIn(pl.php, query) then Verdict(false, Some("PHP injection attempt"))
    else if AnyIn(pl.exploits, query) then Verdict(false, Some("Known exploit pattern"))
    else if !dataReadable then Verdict(false, Some("Invalid request data"))
    else if !ValidComponents(pl, req) then Verdict(false, Some("Invalid request components"))
    else Verdict(true, None)
  }

  /** is_request_allowed as a value (the method below is proved against
      it): the refreshed blocker and the verdict. `dataReadable` is whether
      `request.get_data()` succeeds. */
  function RequestVerdict(b: Blocker, trusted: set<string>, pl: Lists, req: Request, dataReadable: bool): (Blocker, Verdict)
  {
    var ip := req.remoteAddress;
    if ip in trusted then (b, Verdict(true, None))
    else
      var (b1, blocked) := Query(b, ip);
      if blocked then (b1, Verdict(false, Some("Blocked IP: " + ip)))
      else (b1, Screen(pl, req, dataReadable))
  }

  // ------------------------------------------------ an independent reading

  /** The six numbered steps, each saying whether it refuses the request. */
  function StepFails(pl: Lists, step: nat, req: Request, dataReadable: bool): bool
    requires step < 6
  {
    var path := Lower(req.path);
    var query := Lower(req.query);
    match step
    case 0 => AnyIn(pl.paths, path) || AnyIn(pl.keywords, query)
    case 1 => AnyIn(pl.traversal, path) || AnyIn(pl.traversal, query)
    case 2 => AnyIn(pl.php, query)
    case 3 => AnyIn(pl.exploits, query)
    case 4 => !dataReadable
    case _ => !ValidComponents(pl, req)
  }

  const StepReasons: seq<string> := [
    "Blocked path/query pattern", "Directory traversal attempt", "PHP injection attempt",
    "Known exploit pattern", "Invalid request data", "Invalid request components"]

  /** The verdict of the screening steps is the reason of the first step
      that refuses, and the request passes exactly when no step refuses. */
  lemma FirstFailingStepDecides(pl: Lists, req: Request, dataReadable: bool, s: nat)
    requires s < 6 && StepFails(pl, s, req, dataReadable)
    requires forall t :: 0 <= t < s ==> !StepFails(pl, t, req, dataReadable)
    ensures Screen(pl, req, dataReadable) == Verdict(false, Some(StepReasons[s]))
  {
    TraversalStep(pl, req);
    assert s >= 1 ==> !StepFails(pl, 0, req, dataReadable);
    assert s >= 2 ==> !StepFails(pl, 1, req, dataReadable);
    assert s >= 3 ==> !StepFails(pl, 2, req, dataReadable);
    assert s >= 4 ==> !StepFails(pl, 3, req, dataReadable);
    assert s >= 5 ==> !StepFails(pl, 4, req, dataReadable);
  }

  lemma PassesIffNoStepFails(pl: Lists, req: Request, dataReadable: bool)
    ensures Screen(pl, req, dataReadable).allowed <==> forall s :: 0 <= s < 6 ==> !StepFails(pl, s, req, dataReadable)
  {
    TraversalStep(pl, req);
    var steps := [StepFails(pl, 0, req, dataReadable), StepFails(pl, 1, req, dataReadable),
                  StepFails(pl, 2, req, dataReadable), StepFails(pl, 3, req, dataReadable),
                  StepFails(pl, 4, req, dataReadable), StepFails(pl, 5, req, dataReadable)];
    assert Screen(pl, req, dataReadable).allowed <==> !(steps[0] || steps[1] || steps[2] || steps[3] || steps[4] || steps[5]);
    forall s | 0 <= s < 6
      ensures StepFails(pl, s, req, dataReadable) == steps[s]
    {
    }
  }

  /** `any(tp in path or tp in query ...)` is the same test as two `any`s. */
  lemma TraversalStep(pl: Lists, req: Request)
    ensures (exists k :: 0 <= k < |pl.traversal| && (Contains(Lower(req.path), pl.traversal[k]) || Contains(Lower(req.query), pl.traversal[k])))
            <==> AnyIn(pl.traversal, Lower(req.path)) || AnyIn(pl.traversal, Lower(req.query))
  {
  }

  /** For an untrusted client that the refreshed cache does not hold, the
      verdict is the screening verdict. */
  lemma UnblockedScreened(b: Blocker, trusted: set<string>, pl: Lists, req: Request, dataReadable: bool)
    requires req.remoteAddress !in trusted && !Query(b, req.remoteAddress).1
    ensures RequestVerdict(b, trusted, pl, req, dataReadable) == (Refresh(b), Screen(pl, req, dataReadable))
  {
  }

  /** A trusted address is allowed before any other check, and the blocker
      is not even refreshed. */
  lemma TrustedAllowed(b: Blocker, trusted: set<string>, pl: Lists, req: Request, dataReadable: bool)
    requires req.remoteAddress in trusted
    ensures RequestVerdict(b, trusted, pl, req, dataReadable) == (b, Verdict(true, None))
  {
  }

  lemma BlockedReason(b: Blocker, trusted: set<string>, pl: Lists, req: Request, dataReadable: bool)
    requires req.remoteAddress !in trusted && Query(b, req.remoteAddress).1
    ensures RequestVerdict(b, trusted, pl, req, dataReadable) == (Refresh(b), Verdict(false, Some("Blocked IP: " + req.remoteAddress)))
  {
  }

  /** The reason is present exactly when the request is refused. */
  lemma ReasonIffRefused(b: Blocker, trusted: set<string>, pl: Lists, req: Request, dataReadable: bool)
    ensures RequestVerdict(b, trusted, pl, req, dataReadable).1.reason.Some? <==>
            !RequestVerdict(b, trusted, pl, req, dataReadable).1.allowed
  {
  }

  /** The list entry `Util/PHP` has upper-case letters and the path is
      lower-cased first, so that entry never matches. */
  lemma MixedCaseEntryDead(path: string)
    ensures !Contains(Lower(path), BlockedPaths[18])
  {
    assert BlockedPaths[18] == "Util/PHP";
    assert IsUpper(BlockedPaths[18][0]);
    LowerHasNoUpper(path);
    UpperNeverInLower(Lower(path), BlockedPaths[18]);
  }

  /** before_request: refuse with 403 when the verdict says so. The call to
      the coroutine `block_ip` is never awaited, so nothing is blocked: the
      file and the log stay as they were. Returns whether the request was
      aborted. */
  function BeforeRequest(b: Blocker, trusted: set<string>, pl: Lists, req: Request, dataReadable: bool): (Blocker, bool)
  {
    var (b1, v) := RequestVerdict(b, trusted, pl, req, dataReadable);
    (b1, !v.allowed)
  }

  lemma WebGateNeverEnrols(b: Blocker, trusted: set<string>, pl: Lists, req: Request, dataReadable: bool)
    ensures var b' := BeforeRequest(b, trusted, pl, req, dataReadable).0;
      b'.file == b.file && b'.log == b.log && b'.lastModified >= b.lastModified
    ensures BeforeRequest(b, trusted, pl, req, dataReadable).0 == b
            || BeforeRequest(b, trusted, pl, req, dataReadable).0 == Refresh(b)
  {
    RefreshMonotone(b);
  }

  /** So a refused client that is not in the file is refused again only by
      the pattern checks, never by the blocklist. */
  lemma RefusedClientNotBlocked(b: Blocker, trusted: set<string>, pl: Lists, req: Request, dataReadable: bool)
    requires req.remoteAddress !in LoadedSet(b.file.content) && req.remoteAddress !in b.blocked
    ensures var b' := BeforeRequest(b, trusted, pl, req, dataReadable).0;
      !Query(b', req.remoteAddress).1
  {
    var b' := BeforeRequest(b, trusted, pl, req, dataReadable).0;
    RefreshIdempotent(b);
    RefreshMonotone(b);
    RefreshOutcome(b);
    RefreshOutcome(b');
  }

  // ------------------------------------------------------------ the class

  class SecurityManager {
    const ipBlocker: IPBlocker

    constructor (trusted: set<string>, file: File)
      ensures fresh(ipBlocker) && ipBlocker.trusted == trusted
      ensures ipBlocker.State() == Blocker({}, 0, file, [])
    {
      ipBlocker := new IPBlocker(trusted, file);
    }

    method IsRequestAllowed(req: Request, dataReadable: bool) returns (allowed: bool, reason: Option<string>)
      modifies ipBlocker
      ensures (ipBlocker.State(), Verdict(allowed, reason)) ==
              RequestVerdict(old(ipBlocker.State()), ipBlocker.trusted, Patterns, req, dataReadable)
    {
      var ip := req.remoteAddress;
      if ip in ipBlocker.trusted {
        return true, None;
      }
      var blocked := ipBlocker.IsBlocked(ip);
      if blocked {
        return false, Some("Blocked IP: " + ip);
      }
      var pl := Patterns;
      var path := Lower(req.path);
      var query := Lower(req.query);
      if AnyIn(pl.paths, path) || AnyIn(pl.keywords, query) {
        return false, Some("Blocked path/query pattern");
      }
      if exists k :: 0 <= k < |pl.traversal| && (Contains(path, pl.traversal[k]) || Contains(query, pl.traversal[k])) {
        return false, Some("Directory traversal attempt");
      }
      if AnyIn(pl.php, query) {
        return false, Some("PHP injection attempt");
      }
      if AnyIn(pl.exploits, query) {
        return false, Some("Known exploit pattern");
      }
      if !dataReadable {
        return false, Some("Invalid request data");
      }
      if !ValidComponents(pl, req) {
        return false, Some("Invalid request components");
      }
      return true, None;
    }

    /** perform_security_checks; returns whether the request is aborted with
        403. */
    method PerformSecurityChecks(req: Request, dataReadable: bool) returns (aborted: bool)
      modifies ipBlocker
      ensures (ipBlocker.State(), aborted) ==
              BeforeRequest(old(ipBlocker.State()), ipBlocker.trusted, Patterns, req, dataReadable)
    {
      var allowed, reason := IsRequestAllowed(req, dataReadable);
      aborted := !allowed;
    }
  }
}
