/** Method names (server.go, `parseRawMethod`) and the server's routing table. */
module Methods {
  import opened Frames

  /** `strings.LastIndex(s, "/")`; `None` when there is no slash. */
  function LastSlash(s: string): (pos: Option<nat>)
    ensures pos.None? <==> '/' !in s
    ensures pos.Some? ==> pos.value < |s| && s[pos.value] == '/' && '/' !in s[pos.value + 1..]
  {
    if |s| == 0 then None
    else if s[|s| - 1] == '/' then Some(|s| - 1)
    else LastSlash(s[..|s| - 1])
  }

  function WithoutLeadingSlash(s: string): string {
    if |s| > 0 && s[0] == '/' then s[1..] else s
  }

  /** `parseRawMethod`: service and method, split at the last slash. */
  function ParseRawMethod(s: string): Option<(string, string)> {
    var sm := WithoutLeadingSlash(s);
    var pos := LastSlash(sm);
    if pos.None? then None else Some((sm[..pos.value], sm[pos.value + 1..]))
  }

  function FullMethod(service: string, name: string): string {
    "/" + service + "/" + name
  }

  /** Parsing inverts printing exactly when the method part has no slash. */
  lemma ParseInvertsPrint(service: string, name: string)
    ensures ParseRawMethod(FullMethod(service, name)) == Some((service, name)) <==> '/' !in name
  {
    var sm := WithoutLeadingSlash(FullMethod(service, name));
    assert sm == service + "/" + name;
    if '/' !in name {
      assert sm[|service| + 1..] == name;
      LastSlashAt(sm, |service|);
      assert sm[..|service|] == service;
    }
  }

  lemma {:induction false} LastSlashAt(s: string, k: nat)
    requires k < |s| && s[k] == '/' && '/' !in s[k + 1..]
    ensures LastSlash(s) == Some(k)
  {
    if k < |s| - 1 {
      assert s[k + 1..][|s| - k - 2] == s[|s| - 1];
      assert s[..|s| - 1][k + 1..] == s[k + 1..][..|s| - k - 2];
      LastSlashAt(s[..|s| - 1], k);
    }
  }

  /** A registered service: the names of its unary methods and of its streams. */
  datatype Service = Service(methods: set<string>, streams: set<string>)

  datatype Config = Config(id: string, services: map<string, Service>)

  datatype Route = Ignored | UnaryMethod | StreamMethod

  /** What the serve loop does with a frame that has this header; methods come before streams. */
  function RouteHeader(cfg: Config, header: RequestHeader): Route {
    var parsed := ParseRawMethod(header.fullMethod);
    if parsed.None? || header.destination != cfg.id || parsed.value.0 !in cfg.services then Ignored
    else
      var service := cfg.services[parsed.value.0];
      if parsed.value.1 in service.methods then UnaryMethod
      else if parsed.value.1 in service.streams then StreamMethod
      else Ignored
  }

  function RouteOf(cfg: Config, rpc: Rpc): Route {
    if rpc.header.None? then Ignored else RouteHeader(cfg, rpc.header.value)
  }

  /** Routing looks at the method and the destination only. */
  lemma RouteByMethod(cfg: Config, a: RequestHeader, b: RequestHeader)
    requires a.fullMethod == b.fullMethod && a.destination == b.destination
    ensures RouteHeader(cfg, a) == RouteHeader(cfg, b)
  {
  }

  /** A method name without its leading slash, split at the last one. */
  lemma SplitParses(s: string, service: string, name: string)
    requires '/' !in name
    requires s == FullMethod(service, name) || (s == service + "/" + name && |service| > 0 && service[0] != '/')
    ensures ParseRawMethod(s) == Some((service, name))
  {
    var sm := service + "/" + name;
    assert WithoutLeadingSlash(s) == sm by {
      assert FullMethod(service, name) == "/" + sm;
    }
    assert sm[|service| + 1..] == name && sm[..|service|] == service;
    LastSlashAt(sm, |service|);
  }

  /**
    What routing means: a header for "/service/name", or "service/name", goes to a unary worker exactly
    when it is for this server, the service is registered, and the name is one of its methods; to a
    stream exactly when the name is one of its streams and not of its methods; and is ignored otherwise.
   */
  lemma RouteMeans(cfg: Config, header: RequestHeader, service: string, name: string)
    requires '/' !in name
    requires || header.fullMethod == "/" + service + "/" + name
             || (header.fullMethod == service + "/" + name && |service| > 0 && service[0] != '/')
    ensures RouteHeader(cfg, header).UnaryMethod? <==>
            header.destination == cfg.id && service in cfg.services && name in cfg.services[service].methods
    ensures RouteHeader(cfg, header).StreamMethod? <==>
            && header.destination == cfg.id && service in cfg.services
            && name in cfg.services[service].streams && name !in cfg.services[service].methods
  {
    SplitParses(header.fullMethod, service, name);
  }

  /** A method without a slash, but for a leading one, is ignored; every other one splits into a service and a name. */
  lemma EveryMethodSplits(cfg: Config, header: RequestHeader)
    ensures var s := header.fullMethod;
            var rest := if |s| > 0 && s[0] == '/' then s[1..] else s;
            if '/' !in rest then RouteHeader(cfg, header).Ignored?
            else exists service: string, name: string :: '/' !in name && rest == service + "/" + name
  {
    var rest := WithoutLeadingSlash(header.fullMethod);
    if '/' in rest {
      var pos := LastSlash(rest).value;
      assert rest == rest[..pos] + "/" + rest[pos + 1..];
    }
  }
}
