/** process_domain: strip the port, run the DNS stage, and only if it passes the HTTP stage. */
module Classifier {
  import opened Options
  import opened Signatures
  import opened Probes

  /** The text of `s` before the first `c` (all of `s` when there is none): `s.split(c)[0]`. */
  function TextBefore(s: string, c: char): (r: string)
    ensures r <= s
    ensures c !in r
    ensures |r| < |s| ==> s[|r|] == c
  {
    if s == [] then []
    else if s[0] == c then []
    else [s[0]] + TextBefore(s[1..], c)
  }

  /** The host probed for a raw token: the token up to its first `:`. */
  function StripPort(raw: string): (host: string)
    ensures ':' !in host
    ensures ':' in raw ==> host + [':'] <= raw
    ensures ':' !in raw ==> host == raw
  {
    if ':' in raw then TextBefore(raw, ':') else raw
  }

  /** Python truthiness of an optional string: present and non-empty. */
  predicate Truthy(o: Option<string>) {
    o.Some? && o.value != ""
  }

  /**
   * Classify one raw token. The result is `None` or the stripped host itself;
   * it is the host exactly when the host is non-empty and both stages are
   * clear. The HTTP request is made only after a truthy DNS result, and every
   * external call is about the stripped host.
   */
  function ProcessDomain(raw: string, env: Env): (o: Outcome)
    ensures o.result == None || o.result == Some(StripPort(raw))
    ensures o.result.Some? <==>
      StripPort(raw) != "" && DnsClear(StripPort(raw), env) && HttpClear(StripPort(raw), env)
    ensures var h := StripPort(raw);
      o.calls <= [RunHost(h), RunDig(h), HttpGet(Url(h))] && o.calls != []
    ensures RunDig(StripPort(raw)) in o.calls <==> HostClear(StripPort(raw), env)
    ensures HttpGet(Url(StripPort(raw))) in o.calls <==> StripPort(raw) != "" && DnsClear(StripPort(raw), env)
  {
    var host := StripPort(raw);
    var dns := CheckDns(host, env);
    if Truthy(dns.result) then
      var http := CheckHttp(host, env);
      Outcome(http.result, dns.calls + http.calls)
    else
      Outcome(None, dns.calls)
  }

  /**
   * Short-circuit: once the DNS stage result is falsy, the result is `None`,
   * no request is made and the HTTP observation has no effect.
   */
  lemma HttpIgnoredWhenDnsBlocks(raw: string, env: Env, get: string -> HttpResult)
    requires !Truthy(CheckDns(StripPort(raw), env).result)
    ensures ProcessDomain(raw, env).result == None
    ensures HttpGet(Url(StripPort(raw))) !in ProcessDomain(raw, env).calls
    ensures ProcessDomain(raw, env.(get := get)) == ProcessDomain(raw, env)
  {
  }

  /**
   * The gate of process_domain: the DNS stage result is truthy exactly when the
   * host is non-empty and both DNS outputs are clear.
   */
  lemma DnsGate(host: string, env: Env)
    ensures Truthy(CheckDns(host, env).result) <==> host != "" && DnsClear(host, env)
  {
  }

  /**
   * The probed host is empty exactly for an empty token or one that starts
   * with `:`, and such a token is never reported: the DNS stage hands back the
   * falsy `""`.
   */
  lemma EmptyHostDropped(raw: string, env: Env)
    ensures StripPort(raw) == "" <==> raw == "" || raw[0] == ':'
    ensures StripPort(raw) == "" ==> ProcessDomain(raw, env).result == None
  {
  }
}
