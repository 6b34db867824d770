/** The key space: counters of different namespaces, callers, endpoints and windows never share
    a KV entry. */
module CounterKeys {
  import opened Text
  import opened Decimal
  import opened RateLimitKv
  import opened KvCounter

  /** The counter a request names, before it is written down as a KV key. */
  datatype Bucket =
    | Quota(client: string, endpoint: string, window: nat)
    | AccountQuota(client: string, endpoint: string, window: nat)
    | Hosted(ip: string, endpoint: string, window: nat)
    | Expert(ip: string, endpoint: string, window: nat)
    | Catchall(ip: string, window: nat)
    | GlobalIp(ip: string, window: nat)
    | HealthIp(ip: string, window: nat)
    | MetricsIp(ip: string, window: nat)
    | ShortCode(ip: string, window: nat)
    | CspReport(ip: string)
    | OriginRegistration(ip: string)

  function Namespace(b: Bucket): string {
    match b
    case Quota(_, _, _) => "quota"
    case AccountQuota(_, _, _) => "acct_quota"
    case Hosted(_, _, _) => "hosted"
    case Expert(_, _, _) => "expert_ip"
    case Catchall(_, _) => "catchall"
    case GlobalIp(_, _) => "global_ip"
    case HealthIp(_, _) => "health_ip"
    case MetricsIp(_, _) => "metrics_ip"
    case ShortCode(_, _) => "short_code"
    case CspReport(_) => "csp_report"
    case OriginRegistration(_) => "origin_reg"
  }

  function Key(b: Bucket): string {
    match b
    case Quota(client, endpoint, w) => QuotaKey(client, endpoint, w)
    case AccountQuota(client, endpoint, w) => AccountQuotaKey(client, endpoint, w)
    case Hosted(ip, endpoint, w) => HostedIpKey(ip, endpoint, w)
    case Expert(ip, endpoint, w) => ExpertIpKey(ip, endpoint, w)
    case Catchall(ip, w) => CatchallKey(ip, w)
    case GlobalIp(ip, w) => PerIpKey("global_ip:", ip, w)
    case HealthIp(ip, w) => PerIpKey("health_ip:", ip, w)
    case MetricsIp(ip, w) => PerIpKey("metrics_ip:", ip, w)
    case ShortCode(ip, w) => PerIpKey("short_code:", ip, w)
    case CspReport(ip) => "csp_report:" + ip
    case OriginRegistration(ip) => "origin_reg:" + ip
  }

  /** What follows the namespace in the key. */
  function Rest(b: Bucket): string {
    match b
    case Quota(client, endpoint, w) => client + ":" + (endpoint + ":" + Print(w))
    case AccountQuota(client, endpoint, w) => client + ":" + (endpoint + ":" + Print(w))
    case Hosted(ip, endpoint, w) => endpoint + ":" + (ip + ":" + Print(w))
    case Expert(ip, endpoint, w) => endpoint + ":" + (ip + ":" + Print(w))
    case Catchall(ip, w) => ip + ":" + Print(w)
    case GlobalIp(ip, w) => ip + ":" + Print(w)
    case HealthIp(ip, w) => ip + ":" + Print(w)
    case MetricsIp(ip, w) => ip + ":" + Print(w)
    case ShortCode(ip, w) => ip + ":" + Print(w)
    case CspReport(ip) => ip
    case OriginRegistration(ip) => ip
  }

  /** Endpoint labels have no colon, and they are the only part of a key that must not. */
  predicate Wellformed(b: Bucket) {
    match b
    case Quota(_, endpoint, _) => ':' !in endpoint
    case AccountQuota(_, endpoint, _) => ':' !in endpoint
    case Hosted(_, endpoint, _) => ':' !in endpoint
    case Expert(_, endpoint, _) => ':' !in endpoint
    case _ => true
  }

  lemma KeyParts(b: Bucket)
    ensures Key(b) == Namespace(b) + ":" + Rest(b)
  {
  }

  lemma NamespaceHasNoColon(b: Bucket)
    ensures ':' !in Namespace(b)
  {
  }

  lemma NamespaceIsKind(a: Bucket, b: Bucket)
    requires Namespace(a) == Namespace(b)
    ensures a.Quota? <==> b.Quota?
    ensures a.AccountQuota? <==> b.AccountQuota?
    ensures a.Hosted? <==> b.Hosted?
    ensures a.Expert? <==> b.Expert?
    ensures a.Catchall? <==> b.Catchall?
    ensures a.GlobalIp? <==> b.GlobalIp?
    ensures a.HealthIp? <==> b.HealthIp?
    ensures a.MetricsIp? <==> b.MetricsIp?
    ensures a.ShortCode? <==> b.ShortCode?
    ensures a.CspReport? <==> b.CspReport?
  {
    var n := Namespace(a);
    assert n[0] == Namespace(b)[0];
    assert n[1] == Namespace(b)[1];
    assert n[2] == Namespace(b)[2];
  }

  lemma WindowTail(x: string, w: nat, y: string, v: nat)
    requires x + ":" + Print(w) == y + ":" + Print(v)
    ensures x == y && w == v
  {
    LastSeparator(x, Print(w), y, Print(v), ':');
    PrintInjective(w, v);
  }

  /** A key determines its bucket: the text can be read back as namespace, client (colons and
      all), endpoint and window, and so two buckets collide only when they are the same one. */
  lemma KeysDoNotCollide(a: Bucket, b: Bucket)
    requires Wellformed(a) && Wellformed(b)
    ensures Key(a) == Key(b) <==> a == b
  {
    if Key(a) == Key(b) {
      KeyParts(a);
      KeyParts(b);
      NamespaceHasNoColon(a);
      NamespaceHasNoColon(b);
      FirstSeparator(Namespace(a), Rest(a), Namespace(b), Rest(b), ':');
      NamespaceIsKind(a, b);
      SameKind(a, b);
    }
  }

  /** A check on one bucket, whatever comes of it, changes no other bucket's count at any time. */
  lemma ChecksDoNotInterfere(store: Store, a: Bucket, b: Bucket, limit: u32, ttl: nat, at: nat, faults: Faults,
                             later: nat)
    requires Wellformed(a) && Wellformed(b) && a != b
    ensures Count(Check(store, Key(a), limit, ttl, at, faults).0, Key(b), later) == Count(store, Key(b), later)
  {
    KeysDoNotCollide(a, b);
  }

  lemma SameKind(a: Bucket, b: Bucket)
    requires Wellformed(a) && Wellformed(b)
    requires Namespace(a) == Namespace(b) && Rest(a) == Rest(b)
    ensures a == b
  {
    NamespaceIsKind(a, b);
    match a
    case Quota(client, endpoint, w) => ClientTail(client, endpoint, w, b.client, b.endpoint, b.window);
    case AccountQuota(client, endpoint, w) => ClientTail(client, endpoint, w, b.client, b.endpoint, b.window);
    case Hosted(ip, endpoint, w) => EndpointHead(endpoint, ip, w, b.endpoint, b.ip, b.window);
    case Expert(ip, endpoint, w) => EndpointHead(endpoint, ip, w, b.endpoint, b.ip, b.window);
    case Catchall(ip, w) => WindowTail(ip, w, b.ip, b.window);
    case GlobalIp(ip, w) => WindowTail(ip, w, b.ip, b.window);
    case HealthIp(ip, w) => WindowTail(ip, w, b.ip, b.window);
    case MetricsIp(ip, w) => WindowTail(ip, w, b.ip, b.window);
    case ShortCode(ip, w) => WindowTail(ip, w, b.ip, b.window);
    case CspReport(_) =>
    case OriginRegistration(_) =>
  }

  lemma ClientTail(c: string, e: string, w: nat, d: string, f: string, v: nat)
    requires ':' !in e && ':' !in f
    requires c + ":" + (e + ":" + Print(w)) == d + ":" + (f + ":" + Print(v))
    ensures c == d && e == f && w == v
  {
    assert c + ":" + (e + ":" + Print(w)) == (c + ":" + e) + ":" + Print(w);
    assert d + ":" + (f + ":" + Print(v)) == (d + ":" + f) + ":" + Print(v);
    WindowTail(c + ":" + e, w, d + ":" + f, v);
    LastSeparator(c, e, d, f, ':');
  }

  lemma EndpointHead(e: string, ip: string, w: nat, f: string, jp: string, v: nat)
    requires ':' !in e && ':' !in f
    requires e + ":" + (ip + ":" + Print(w)) == f + ":" + (jp + ":" + Print(v))
    ensures e == f && ip == jp && w == v
  {
    FirstSeparator(e, ip + ":" + Print(w), f, jp + ":" + Print(v), ':');
    WindowTail(ip, w, jp, v);
  }

  /** Without the colon-free label two different quotas would share one entry. */
  lemma ColonInLabelCollides()
    ensures Key(Quota("origin:a", "b", 0)) == Key(Quota("origin", "a:b", 0))
  {
    assert "origin:a" + ":" + ("b" + ":" + Print(0)) == "origin" + ":" + ("a:b" + ":" + Print(0));
  }
}
