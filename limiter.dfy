/** Which string the app_sim800 server takes as the client's address, and
    which clients the rate limiter exempts. */
module Limiter {
  import opened Text

  /** The parts of an incoming request the servers look at: `verb` is the
      HTTP method, `url` the full URL text, `remoteAddress` what the
      framework reports as the peer address. Header lookups are already
      resolved to an Option. */
  datatype Request = Request(
    remoteAddress: string,
    forwardedFor: Option<string>,
    userAgent: Option<string>,
    verb: string,
    path: string,
    query: string,
    url: string)

  /** The settings that matter here. */
  datatype Config = Config(behindProxy: bool, trustedIps: set<string>)

  /** get_client_ip: behind a proxy, the raw X-Forwarded-For value when the
      header is present (it is not split on commas); otherwise, and whenever
      the server is not behind a proxy, the remote address. */
  function ClientIp(cfg: Config, req: Request): (ip: string)
    ensures cfg.behindProxy && req.forwardedFor.Some? ==> ip == req.forwardedFor.value
    ensures !cfg.behindProxy || req.forwardedFor.None? ==> ip == req.remoteAddress
  {
    if cfg.behindProxy then
      match req.forwardedFor
      case Some(v) => v
      case None => req.remoteAddress
    else req.remoteAddress
  }

  /** rate_limit_key_func: no key (exempt) for a trusted client, otherwise
      the client address. */
  function RateLimitKey(cfg: Config, req: Request): (key: Option<string>)
    ensures key.Some? ==> key.value !in cfg.trustedIps
    ensures key.Some? ==> key.value == req.remoteAddress || (cfg.behindProxy && req.forwardedFor == Some(key.value))
  {
    var ip := ClientIp(cfg, req);
    if ip in cfg.trustedIps then None else Some(ip)
  }

  /** The limiter exempts exactly the trusted clients, and keys everybody
      else by their client address. */
  lemma ExemptIffTrusted(cfg: Config, req: Request)
    ensures RateLimitKey(cfg, req).None? <==> ClientIp(cfg, req) in cfg.trustedIps
    ensures RateLimitKey(cfg, req).Some? ==> RateLimitKey(cfg, req).value == ClientIp(cfg, req)
  {
  }

  /** Two requests that differ only in a header the server does not trust
      get the same key when it is not behind a proxy. */
  lemma ForwardedIgnoredWithoutProxy(cfg: Config, req: Request, spoofed: Option<string>)
    requires !cfg.behindProxy
    ensures RateLimitKey(cfg, req.(forwardedFor := spoofed)) == RateLimitKey(cfg, req)
  {
  }

  /** Behind a proxy the header is taken whole: a chain of two addresses is
      one (untrusted) key even when its first address is trusted. */
  lemma ForwardedChainNotSplit(req: Request)
    requires req.forwardedFor == Some("10.0.0.1, 10.0.0.2")
    ensures RateLimitKey(Config(true, {"10.0.0.1"}), req) == Some("10.0.0.1, 10.0.0.2")
  {
    assert "10.0.0.1, 10.0.0.2" != "10.0.0.1" by {
      assert |"10.0.0.1, 10.0.0.2"| != |"10.0.0.1"|;
    }
  }
}
