/**
 * The two probing stages, check_dns and check_http, with their external
 * calls (`host`, `dig`, an HTTP GET) replaced by the observations an `Env`
 * supplies. Each stage also returns the trace of external calls it made.
 */
module Probes {
  import opened Options
  import opened Signatures

  /** What running `host` or `dig` gives back: its decoded stdout, or a SubprocessError. */
  datatype CommandResult = Completed(stdout: string) | SubprocessError

  /** What the HTTP GET gives back: the two inspected header values (absent or present), or a RequestException. */
  datatype HttpResult = Response(server: Option<string>, xCdn: Option<string>) | RequestException

  /** One external call made while classifying a domain. */
  datatype Call = RunHost(arg: string) | RunDig(arg: string) | HttpGet(url: string)

  /** The outside world, as seen by the classifier. */
  datatype Env = Env(host: string -> CommandResult, dig: string -> CommandResult, get: string -> HttpResult)

  /** A stage's return value (`None` or the domain) and the external calls it made, in order. */
  datatype Outcome = Outcome(result: Option<string>, calls: seq<Call>)

  /** The URL requested for a domain. */
  function Url(domain: string): string {
    "http://" + domain
  }

  /** A missing header reads as the empty string. */
  function HeaderText(h: Option<string>): string {
    h.GetOr("")
  }

  // ---------------------------------------------------------------------------
  // Reference reading of when each stage lets a domain through
  // ---------------------------------------------------------------------------

  /** `host` ran and its output names no provider. */
  ghost predicate HostClear(domain: string, env: Env) {
    env.host(domain).Completed? && SignatureFree(env.host(domain).stdout)
  }

  /** Both `host` and `dig` ran and neither output names a provider. */
  ghost predicate DnsClear(domain: string, env: Env) {
    HostClear(domain, env) && env.dig(domain).Completed? && SignatureFree(env.dig(domain).stdout)
  }

  /** The request succeeded and neither header names a provider. */
  ghost predicate HttpClear(domain: string, env: Env) {
    var resp := env.get(Url(domain));
    resp.Response? && SignatureFree(HeaderText(resp.server)) && SignatureFree(HeaderText(resp.xCdn))
  }

  // ---------------------------------------------------------------------------
  // check_dns
  // ---------------------------------------------------------------------------

  /**
   * `host` first; `dig` only when the `host` output is clear. The domain comes
   * back unchanged exactly when both outputs are clear; a match or a
   * SubprocessError gives `None`.
   */
  function CheckDns(domain: string, env: Env): (o: Outcome)
    ensures o.result.Some? ==> o.result.value == domain
    ensures o.result.Some? <==> DnsClear(domain, env)
    ensures o.calls == [RunHost(domain)] || o.calls == [RunHost(domain), RunDig(domain)]
    ensures RunDig(domain) in o.calls <==> HostClear(domain, env)
  {
    match env.host(domain)
    case SubprocessError => Outcome(None, [RunHost(domain)])
    case Completed(outHost) =>
      if FirstMatch(outHost).Some? then Outcome(None, [RunHost(domain)])
      else
        var calls := [RunHost(domain), RunDig(domain)];
        match env.dig(domain)
        case SubprocessError => Outcome(None, calls)
        case Completed(outDig) =>
          if FirstMatch(outDig).Some? then Outcome(None, calls) else Outcome(Some(domain), calls)
  }

  /** When the `host` output names a provider, `dig` is not run and its output has no effect. */
  lemma DigIgnoredWhenHostMatches(domain: string, env: Env, dig: string -> CommandResult)
    requires env.host(domain).Completed? && !SignatureFree(env.host(domain).stdout)
    ensures CheckDns(domain, env) == Outcome(None, [RunHost(domain)])
    ensures CheckDns(domain, env.(dig := dig)) == CheckDns(domain, env)
  {
  }

  // ---------------------------------------------------------------------------
  // check_http
  // ---------------------------------------------------------------------------

  /**
   * One GET of the domain's root; the domain comes back unchanged exactly when
   * the request succeeded and neither `server` nor `x-cdn` names a provider.
   */
  function CheckHttp(domain: string, env: Env): (o: Outcome)
    ensures o.calls == [HttpGet(Url(domain))]
    ensures o.result.Some? ==> o.result.value == domain
    ensures o.result.Some? <==> HttpClear(domain, env)
  {
    var calls := [HttpGet(Url(domain))];
    match env.get(Url(domain))
    case RequestException => Outcome(None, calls)
    case Response(server, xCdn) =>
      if FirstMatchEither(HeaderText(server), HeaderText(xCdn)).Some? then Outcome(None, calls)
      else Outcome(Some(domain), calls)
  }
}
