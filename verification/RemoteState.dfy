/** What `TunnelRemoteState` of pkg/k8s/client.go reads back from the cluster, and when a session record already
    agrees with it. */
module RemoteState {
  import opened Text
  import opened Objects
  import opened Cluster
  import opened Transactions
  import S = Sessions

  /** Foreign code: the JSON of a policy and the quantities of a resource configuration, and reading both back. */
  datatype Codec = Codec(
    marshal: S.AccessPolicy -> string, unmarshal: string -> Option<S.AccessPolicy>,
    requirements: Option<S.ResourceConfig> -> Option<string>, quantities: string -> Option<S.RemoteResources>)

  const BLANK := S.Remote("", "", "", 0, "", "", "", "", None, None, None, false, false)

  // ---- reading ----

  /** The value after the first occurrence of a flag. */
  function ArgValue(args: seq<string>, flag: string): string {
    if args == [] then ""
    else if args[0] == flag then (if |args| > 1 then TrimSpace(args[1]) else "")
    else ArgValue(args[1..], flag)
  }

  method DeploymentArgValue(args: seq<string>, flag: string) returns (value: string)
    ensures value == ArgValue(args, flag)
  {
    for i := 0 to |args|
      invariant ArgValue(args, flag) == ArgValue(args[i..], flag)
    {
      if args[i] != flag {
        continue;
      }
      if i + 1 < |args| {
        return TrimSpace(args[i + 1]);
      }
      return "";
    }
    return "";
  }

  /** `normalizeHostname`. */
  function NormalizedHost(host: string): string {
    TrimSuffix(S.Lower(TrimSpace(host)), ".")
  }

  function AfterDot(host: string): string {
    if host == "" then "" else if host[0] == '.' then host[1..] else AfterDot(host[1..])
  }

  /** `managedDomainSuffix`. */
  function DomainSuffix(host: string): string {
    AfterDot(NormalizedHost(host))
  }

  function RuleHosts(rules: seq<Rule>): seq<string> {
    if rules == [] then []
    else (if rules[0].host != "" then [rules[0].host] else []) + RuleHosts(rules[1..])
  }

  function SealosHostIn(hosts: seq<string>): string {
    if hosts == [] then ""
    else if DomainSuffix(hosts[0]) != "" then NormalizedHost(hosts[0])
    else SealosHostIn(hosts[1..])
  }

  function CustomDomainIn(hosts: seq<string>, sealosHost: string): string {
    if hosts == [] then ""
    else if NormalizedHost(hosts[0]) != "" && NormalizedHost(hosts[0]) != NormalizedHost(sealosHost)
    then NormalizedHost(hosts[0])
    else CustomDomainIn(hosts[1..], sealosHost)
  }

  method InferSealosHost(hosts: seq<string>) returns (host: string)
    ensures host == SealosHostIn(hosts)
  {
    for i := 0 to |hosts|
      invariant SealosHostIn(hosts) == SealosHostIn(hosts[i..])
    {
      if DomainSuffix(hosts[i]) != "" {
        return NormalizedHost(hosts[i]);
      }
    }
    return "";
  }

  method InferCustomDomain(hosts: seq<string>, sealosHost: string) returns (host: string)
    ensures host == CustomDomainIn(hosts, sealosHost)
  {
    for i := 0 to |hosts|
      invariant CustomDomainIn(hosts, sealosHost) == CustomDomainIn(hosts[i..], sealosHost)
    {
      var normalized := NormalizedHost(hosts[i]);
      if normalized == "" || normalized == NormalizedHost(sealosHost) {
        continue;
      }
      return normalized;
    }
    return "";
  }

  function FirstNodePort(ports: seq<Port>, spec: Spec): int {
    if ports == [] then 0
    else if NodePort(spec, ports[0].name) > 0 then NodePort(spec, ports[0].name)
    else FirstNodePort(ports[1..], spec)
  }

  function PublicPortOf(o: Object): int {
    if o.spec.ServiceSpec? then FirstNodePort(o.spec.ports, o.spec) else 0
  }

  /** None where the read fails because an object is somebody else's. */
  function PortAmong(s: Contents, keys: seq<Key>, name: string): Option<int> {
    if keys == [] then Some(0)
    else match At(s, keys[0])
      case None => PortAmong(s, keys[1..], name)
      case Some(o) =>
        if !Managed(o, name) then None
        else if PublicPortOf(o) != 0 then Some(PublicPortOf(o))
        else PortAmong(s, keys[1..], name)
  }

  predicate RawProtocol(protocol: string) {
    S.NormalizedProtocol(protocol) == SSH || S.NormalizedProtocol(protocol) == TCP
  }

  function ServiceKeys(protocol: string, name: string): seq<Key> {
    if RawProtocol(protocol) then [TcpKey(name)] else [HttpKey(name), TcpKey(name)]
  }

  function DeploymentRead(o: Option<Object>, name: string, codec: Codec): Option<S.Remote> {
    match o
    case None => Some(BLANK)
    case Some(d) =>
      if !Managed(d, name) then None
      else if !d.spec.DeploymentSpec? then Some(BLANK.(deploymentOK := true))
      else
        var args := d.spec.server.args;
        Some(BLANK.(deploymentOK := true, protocol := ArgValue(args, "--protocol"),
                    localPort := ArgValue(args, "--local-port"), targetURL := ArgValue(args, "--target-url"),
                    resources := codec.quantities(d.spec.server.resources)))
  }

  function PortRead(s: Contents, name: string, state: S.Remote): Option<S.Remote> {
    if S.NormalizedProtocol(state.protocol) == HTTPS then Some(state)
    else match PortAmong(s, ServiceKeys(state.protocol, name), name)
      case None => None
      case Some(port) => Some(state.(publicPort := port))
  }

  function IngressRead(o: Option<Object>, name: string, state: S.Remote): Option<S.Remote> {
    if RawProtocol(state.protocol) then Some(state)
    else match o
      case None => Some(state)
      case Some(i) =>
        if !Managed(i, name) then None
        else
          var hosts := if i.spec.IngressSpec? then RuleHosts(i.spec.rules) else [];
          var sealosHost := SealosHostIn(hosts);
          Some(state.(sealosHost := sealosHost, customDomain := CustomDomainIn(hosts, sealosHost)))
  }

  function LoginRead(data: map<string, string>): Option<S.RemoteBasicAuth> {
    var username, passwordHash := TrimSpace(Value(data, USER_KEY)), TrimSpace(Value(data, PASSWORD_KEY));
    if username != "" || passwordHash != "" then Some(S.RemoteBasicAuth(username, passwordHash)) else None
  }

  /** `fillTunnelRemoteStateFromAuthSecret`; None also where the stored policy cannot be parsed. */
  function SecretRead(o: Option<Object>, name: string, state: S.Remote, codec: Codec): Option<S.Remote> {
    match o
    case None => Some(state)
    case Some(secret) =>
      if !Managed(secret, name) then None
      else
        var data := if secret.spec.SecretSpec? then secret.spec.data else map[];
        var policy := Value(data, POLICY_KEY);
        if policy != "" && codec.unmarshal(policy).None? then None
        else
          Some(state.(authSecretOK := true, secret := TrimSpace(Value(data, SECRET_KEY)), basicAuth := LoginRead(data),
                      accessPolicy := if policy != "" then codec.unmarshal(policy) else state.accessPolicy))
  }

  function WithHosts(state: S.Remote, defaultHost: string): S.Remote {
    var sealosHost :=
      if state.sealosHost == "" && S.NormalizedProtocol(state.protocol) == HTTPS then defaultHost
      else state.sealosHost;
    state.(sealosHost := sealosHost,
           publicHost := if state.customDomain != "" then state.customDomain
                         else if sealosHost != "" then sealosHost else state.publicHost)
  }

  function AndThen(state: Option<S.Remote>, f: S.Remote -> Option<S.Remote>): Option<S.Remote> {
    match state
    case None => None
    case Some(r) => f(r)
  }

  /** `TunnelRemoteState`: deployment, services, ingress, auth secret; the first object that is not the tunnel's ends
      it with an error. */
  function RemoteOf(s: Contents, name: string, defaultHost: string, codec: Codec): Option<S.Remote> {
    var deployment := DeploymentRead(At(s, DeploymentKey(name)), name, codec);
    var port := AndThen(deployment, (r: S.Remote) => PortRead(s, name, r));
    var ingress := AndThen(port, (r: S.Remote) => IngressRead(At(s, IngressKey(name)), name, r));
    var secret := AndThen(ingress, (r: S.Remote) => SecretRead(At(s, AuthKey(name)), name, r, codec));
    AndThen(secret, (r: S.Remote) => Some(WithHosts(r, defaultHost)))
  }

  // ---- what the readings mean ----

  /** The part after the first dot, if there is one. */
  lemma {:induction false} FirstDot(head: string, rest: string)
    requires '.' !in head
    ensures AfterDot(head) == "" && AfterDot(head + "." + rest) == rest
  {
    if head != "" {
      assert (head + "." + rest)[1..] == head[1..] + "." + rest && head[0] in head;
      FirstDot(head[1..], rest);
    } else {
      assert (head + "." + rest)[1..] == rest;
    }
  }

  /** Case and one trailing dot do not matter. */
  lemma HostNormalized(host: string)
    requires Trimmed(host) && host != ""
    ensures NormalizedHost(S.Lower(host)) == NormalizedHost(host)
    ensures host[|host| - 1] != '.' ==> NormalizedHost(host) == S.Lower(host)
    ensures host[|host| - 1] == '.' ==> NormalizedHost(host) == S.Lower(host[..|host| - 1])
  {
    var lower := S.Lower(host);
    assert S.Lower(lower) == lower;
    LowerKeepsTrimmed(host);
    if host[|host| - 1] == '.' {
      assert lower[|lower| - 1..] == ".";
      assert lower[..|lower| - 1] == S.Lower(host[..|host| - 1]);
    } else {
      assert lower[|lower| - 1] != '.';
      assert lower[|lower| - 1..] == [lower[|lower| - 1]];
    }
  }

  lemma LowerKeepsTrimmed(host: string)
    requires Trimmed(host) && host != ""
    ensures Trimmed(S.Lower(host))
  {
    TrimmedLeft(host);
    TrimmedRight(TrimLeft(host));
    var lower := S.Lower(host);
    assert !IsSpace(host[0]) && !IsSpace(host[|host| - 1]);
    assert !IsSpace(lower[0]) && !IsSpace(lower[|lower| - 1]);
  }

  /** The first node port among the ports, or none. */
  lemma {:induction false} FirstPortFound(ports: seq<Port>, spec: Spec)
    ensures var p := FirstNodePort(ports, spec);
      if p == 0 then forall i | 0 <= i < |ports| :: NodePort(spec, ports[i].name) == 0
      else exists i | 0 <= i < |ports| ::
        NodePort(spec, ports[i].name) == p && forall j | 0 <= j < i :: NodePort(spec, ports[j].name) == 0
  {
    if ports != [] {
      FirstPortFound(ports[1..], spec);
      if NodePort(spec, ports[0].name) == 0 && FirstNodePort(ports, spec) != 0 {
        var i :| 0 <= i < |ports[1..]| && NodePort(spec, ports[1..][i].name) == FirstNodePort(ports, spec)
          && forall j | 0 <= j < i :: NodePort(spec, ports[1..][j].name) == 0;
        assert forall j | 0 < j < i + 1 :: ports[j] == ports[1..][j - 1];
        assert ports[i + 1] == ports[1..][i];
      }
    }
  }

  /** Without a deployment that tells the protocol, the public port is that of the HTTP service, else that of the TCP
      service, else none; a service of somebody else is an error. */
  lemma PortWithoutProtocol(s: Contents, name: string, state: S.Remote)
    requires state.protocol == ""
    ensures var http, tcp := At(s, HttpKey(name)), At(s, TcpKey(name));
      PortRead(s, name, state) ==
        if http.Some? && !Managed(http.value, name) then None
        else if http.Some? && PublicPortOf(http.value) != 0 then Some(state.(publicPort := PublicPortOf(http.value)))
        else if tcp.Some? && !Managed(tcp.value, name) then None
        else if tcp.Some? then Some(state.(publicPort := PublicPortOf(tcp.value)))
        else Some(state.(publicPort := 0))
  {
    assert TrimSpace("") == "" && S.Lower("") == "" && !RawProtocol("");
    var keys := ServiceKeys("", name);
    var last := keys[1..];
    assert keys == [HttpKey(name), TcpKey(name)] && last == [TcpKey(name)] && last[1..] == [];
    assert PortAmong(s, last[1..], name) == Some(0);
    assert PortAmong(s, last, name) ==
      match At(s, TcpKey(name))
      case None => Some(0)
      case Some(o) => if !Managed(o, name) then None else Some(PublicPortOf(o));
  }

  /** The empty policies: no list has an entry, the rate limit is blank, and auditing is off. */
  lemma EmptyPolicies(p: S.AccessPolicy)
    ensures EmptyPolicy(p) <==>
      TrimSpace(p.rateLimit) == ""
      && (p == S.AccessPolicy([], [], [], [], p.rateLimit, None)
          || p == S.AccessPolicy([], [], [], [], p.rateLimit, Some(false)))
  {
    match p.audit
    case None =>
    case Some(on) => assert on || p.audit == Some(false);
  }

  // ---- reading back what was ensured ----

  /** `Empty` of pkg/accesspolicy/access_policy.go. */
  predicate EmptyPolicy(p: S.AccessPolicy) {
    p.bearerTokenHashes == [] && p.ipAllowlist == [] && p.ipDenylist == [] && p.temporaryTokens == []
    && TrimSpace(p.rateLimit) == "" && p.audit != Some(true)
  }

  function LoginSent(b: Option<S.BasicAuth>): Option<Login> {
    match b
    case None => None
    case Some(a) => if a.enabled then Some(Login(a.username, S.PasswordHashOf(a))) else None
  }

  function PolicySent(p: Option<S.AccessPolicy>, codec: Codec): Option<string> {
    match p
    case None => None
    case Some(policy) => if EmptyPolicy(policy) then None else Some(codec.marshal(policy))
  }

  predicate AsksCredentials(req: Request, c: S.Credentials, codec: Codec) {
    req.secret == c.secret && req.basicAuth == LoginSent(c.basicAuth) && req.policy == PolicySent(c.accessPolicy, codec)
  }

  /** The endpoint of a record that was written after a successful ensure. */
  predicate AsksEndpoint(req: Request, hosts: Hosts, e: S.Endpoint) {
    && Protocol(req) == e.protocol && req.localPort == e.localPort && req.targetURL == e.targetURL
    && hosts == Hosts(e.host, e.sealosHost, e.customDomain, e.publicPort)
  }

  /** JSON comes back as it was, and is not empty. */
  ghost predicate JsonSound(codec: Codec) {
    forall p :: codec.marshal(p) != "" && codec.unmarshal(codec.marshal(p)) == Some(p)
  }

  predicate Trimmed(s: string) { TrimSpace(s) == s }

  /** The credentials that survive being written to the cluster and read back. */
  predicate Survives(c: S.Credentials) {
    && Trimmed(c.secret)
    && (c.basicAuth.Some? ==>
          && c.basicAuth.value.enabled && Trimmed(c.basicAuth.value.username)
          && Trimmed(S.PasswordHashOf(c.basicAuth.value)))
    && (c.accessPolicy.Some? ==> !EmptyPolicy(c.accessPolicy.value))
  }

  lemma DataRead(req: Request, salt: string)
    ensures var data := SecretData(req, salt);
      && Value(data, SECRET_KEY) == req.secret
      && Value(data, USER_KEY) == (if req.basicAuth.Some? then TrimSpace(req.basicAuth.value.username) else "")
      && Value(data, PASSWORD_KEY) == (if req.basicAuth.Some? then req.basicAuth.value.passwordHash else "")
      && Value(data, POLICY_KEY) == (if req.policy.Some? then req.policy.value else "")
  {}

  /** What the auth secret of an ensured tunnel reads as. */
  lemma SecretReadBack(o: Object, name: string, req: Request, salt: string, state: S.Remote, codec: Codec)
    requires Managed(o, name) && Meets(DesiredSecret(name, req, salt), o)
    requires req.basicAuth.Some? ==> TrimSpace(req.basicAuth.value.username) != ""
    requires req.policy.Some? ==> req.policy.value != "" && codec.unmarshal(req.policy.value).Some?
    ensures SecretRead(Some(o), name, state, codec) == Some(
      state.(authSecretOK := true, secret := TrimSpace(req.secret),
             basicAuth := if req.basicAuth.None? then None
                          else Some(S.RemoteBasicAuth(TrimSpace(req.basicAuth.value.username),
                                                      TrimSpace(req.basicAuth.value.passwordHash))),
             accessPolicy := if req.policy.None? then state.accessPolicy else codec.unmarshal(req.policy.value)))
  {
    DataRead(req, salt);
    if req.basicAuth.Some? { TrimTwice(req.basicAuth.value.username); }
    assert o.spec.data == SecretData(req, salt);
  }

  // ---- the flags ----

  lemma {:induction false} SkipArgs(a: seq<string>, b: seq<string>, flag: string)
    requires flag !in a
    ensures ArgValue(a + b, flag) == ArgValue(b, flag)
  {
    if a == [] {
      assert a + b == b;
    } else {
      assert (a + b)[1..] == a[1..] + b && a[0] in a;
      SkipArgs(a[1..], b, flag);
    }
  }

  lemma FoundArg(flag: string, value: string, rest: seq<string>)
    ensures ArgValue([flag, value] + rest, flag) == TrimSpace(value)
  {}

  function TargetArgs(req: Request): seq<string> {
    if TrimSpace(req.targetURL) != "" then ["--target-url", TrimSpace(req.targetURL)] else []
  }

  function OptionArgs(req: Request): seq<string> {
    (if req.basicAuth.Some? then
       ["--basic-auth-user-env", "SEALTUN_BASIC_AUTH_USER", "--basic-auth-password-hash-env",
        "SEALTUN_BASIC_AUTH_PASSWORD_HASH"]
     else [])
    + (if req.policy.Some? then ["--access-policy-env", "SEALTUN_ACCESS_POLICY"] else [])
  }

  const LEADING := ["server", "--secret-env", "SEALTUN_SECRET", "--port", "8080"]

  lemma ArgsInParts(req: Request)
    ensures Args(req) ==
      LEADING
      + (["--protocol", Protocol(req)] + (["--local-port", req.localPort] + (TargetArgs(req) + OptionArgs(req))))
  {}

  lemma NotLeading()
    ensures "--protocol" !in LEADING && "--local-port" !in LEADING && "--target-url" !in LEADING
  {
    assert "--protocol"[2] == 'p' && "--local-port"[2] == 'l' && "--target-url"[2] == 't';
    assert |"--protocol"| == 10 && "--secret-env"[2] == 's' && "server"[0] == 's' && |"8080"| == 4 && |"--port"| == 6;
    assert "SEALTUN_SECRET"[0] == 'S' && "--protocol"[0] == '-';
  }

  lemma NoTargetOption(req: Request)
    ensures "--target-url" !in OptionArgs(req)
  {
    assert "--target-url"[2] == 't' && "--basic-auth-user-env"[2] == 'b' && "SEALTUN_BASIC_AUTH_USER"[2] == 'A';
    assert "--basic-auth-password-hash-env"[2] == 'b' && "SEALTUN_BASIC_AUTH_PASSWORD_HASH"[2] == 'A';
    assert "--access-policy-env"[2] == 'a' && "SEALTUN_ACCESS_POLICY"[2] == 'A';
  }

  lemma ProtocolIsNoFlag(protocol: string, port: string)
    requires protocol == HTTPS || protocol == SSH || protocol == TCP
    requires port != "" && port[0] != '-'
    ensures "--local-port" !in ["--protocol", protocol]
    ensures "--target-url" !in ["--protocol", protocol] && "--target-url" !in ["--local-port", port]
  {
    assert protocol[0] != '-' && "--local-port"[0] == '-' && "--target-url"[0] == '-';
    assert "--protocol"[2] == 'p' && "--local-port"[2] == 'l' && "--target-url"[2] == 't';
  }

  lemma ProtocolRead(req: Request)
    ensures ArgValue(Args(req), "--protocol") == TrimSpace(Protocol(req))
  {
    var rest := ["--local-port", req.localPort] + (TargetArgs(req) + OptionArgs(req));
    ArgsInParts(req);
    NotLeading();
    SkipArgs(LEADING, ["--protocol", Protocol(req)] + rest, "--protocol");
    FoundArg("--protocol", Protocol(req), rest);
  }

  lemma LocalPortRead(req: Request)
    requires Protocol(req) == HTTPS || RawTCP(req)
    requires req.localPort != "" && req.localPort[0] != '-'
    ensures ArgValue(Args(req), "--local-port") == TrimSpace(req.localPort)
  {
    var flag, rest := "--local-port", TargetArgs(req) + OptionArgs(req);
    ArgsInParts(req);
    NotLeading();
    ProtocolIsNoFlag(Protocol(req), req.localPort);
    SkipArgs(LEADING, ["--protocol", Protocol(req)] + ([flag, req.localPort] + rest), flag);
    SkipArgs(["--protocol", Protocol(req)], [flag, req.localPort] + rest, flag);
    FoundArg(flag, req.localPort, rest);
  }

  lemma TargetRead(req: Request)
    requires Protocol(req) == HTTPS || RawTCP(req)
    requires req.localPort != "" && req.localPort[0] != '-'
    ensures ArgValue(Args(req), "--target-url") == TrimSpace(req.targetURL)
  {
    var flag, rest := "--target-url", TargetArgs(req) + OptionArgs(req);
    ArgsInParts(req);
    NotLeading();
    ProtocolIsNoFlag(Protocol(req), req.localPort);
    SkipArgs(LEADING, ["--protocol", Protocol(req)] + (["--local-port", req.localPort] + rest), flag);
    SkipArgs(["--protocol", Protocol(req)], ["--local-port", req.localPort] + rest, flag);
    SkipArgs(["--local-port", req.localPort], rest, flag);
    TrimTwice(req.targetURL);
    if TrimSpace(req.targetURL) != "" {
      FoundArg(flag, TrimSpace(req.targetURL), OptionArgs(req));
    } else {
      NoTargetOption(req);
      SkipArgs(OptionArgs(req), [], flag);
      assert OptionArgs(req) + [] == OptionArgs(req) && rest == OptionArgs(req);
    }
  }

  // ---- the whole state ----

  predicate Hostname(host: string) {
    NormalizedHost(host) == host && DomainSuffix(host) != ""
  }

  /** What the checks and normalizations before an ensure leave of a request: host names in normal form, a custom
      domain other than the tunnel's own host, a port of digits, and a login with a name. */
  predicate Validated(req: Request) {
    && Hostname(req.sealosHost)
    && (req.customDomain != "" ==> NormalizedHost(req.customDomain) == req.customDomain != req.sealosHost)
    && req.localPort != "" && req.localPort[0] != '-' && Trimmed(req.localPort)
    && (req.basicAuth.Some? ==> TrimSpace(req.basicAuth.value.username) != "")
  }

  lemma ProtocolStays(protocol: string)
    requires protocol == HTTPS || protocol == SSH || protocol == TCP
    ensures TrimSpace(protocol) == protocol && S.NormalizedProtocol(protocol) == protocol
  {
    assert protocol != "" && !IsSpace(protocol[0]) && !IsSpace(protocol[|protocol| - 1]);
    assert S.Lower(protocol) == protocol;
  }

  lemma DeploymentReadBack(o: Object, name: string, req: Request, digest: string, codec: Codec)
    requires req.image.Some? && req.resources.Some? && Validated(req) && (Protocol(req) == HTTPS || RawTCP(req))
    requires Managed(o, name) && Meets(DesiredDeployment(name, req, digest), o)
    ensures DeploymentRead(Some(o), name, codec) ==
      Some(BLANK.(deploymentOK := true, protocol := Protocol(req), localPort := req.localPort,
                  targetURL := TrimSpace(req.targetURL), resources := codec.quantities(req.resources.value)))
  {
    assert o.spec.server.args == Args(req) && o.spec.server.resources == req.resources.value;
    ProtocolRead(req);
    LocalPortRead(req);
    TargetRead(req);
    ProtocolStays(Protocol(req));
  }

  lemma PortReadBack(s: Contents, name: string, req: Request, hosts: Hosts, state: S.Remote)
    requires state.protocol == Protocol(req) && (Protocol(req) == HTTPS || RawTCP(req))
    requires TcpProvisioned(s, name, req) && Reported(s, name, req, hosts)
    requires state.publicPort == 0
    ensures PortRead(s, name, state) == Some(state.(publicPort := hosts.publicPort))
  {
    ProtocolStays(Protocol(req));
    if RawTCP(req) {
      var o := At(s, TcpKey(name)).value;
      assert FilledPorts(o.spec.ports) == FilledPorts(DesiredTcpService(name).spec.ports);
      assert |o.spec.ports| == |FilledPorts(o.spec.ports)| == 1;
      assert o.spec.ports[0].name == FilledPorts(o.spec.ports)[0].name == "tcp";
      assert PublicPortOf(o) == hosts.publicPort;
      assert ServiceKeys(state.protocol, name) == [TcpKey(name)];
    }
  }

  lemma HostsRead(name: string, sealosHost: string, customDomain: string)
    requires Hostname(sealosHost)
    requires customDomain != "" ==> NormalizedHost(customDomain) == customDomain != sealosHost
    ensures var hosts := RuleHosts(IngressRules(name, sealosHost, customDomain));
      SealosHostIn(hosts) == sealosHost && CustomDomainIn(hosts, sealosHost) == customDomain
  {
    assert sealosHost != "";
    var rules := IngressRules(name, sealosHost, customDomain);
    assert rules[0].host == sealosHost;
    if customDomain != "" {
      var rest := rules[1..];
      assert rest == [Rule(customDomain, name)] && rest[1..] == [];
      assert RuleHosts(rest) == [customDomain] + RuleHosts(rest[1..]);
      assert RuleHosts(rules) == [sealosHost] + RuleHosts(rest);
    } else {
      assert rules[1..] == [];
      assert RuleHosts(rules) == [sealosHost];
    }
  }

  lemma IngressReadBack(o: Object, name: string, req: Request, annotations: map<string, string>, state: S.Remote)
    requires state.protocol == Protocol(req) && (Protocol(req) == HTTPS || RawTCP(req)) && Validated(req)
    requires Managed(o, name)
    requires Meets(DesiredIngress(name, req.sealosHost, req.customDomain, Protocol(req), annotations), o)
    ensures IngressRead(Some(o), name, state) ==
      Some(if RawTCP(req) then state
           else state.(sealosHost := req.sealosHost, customDomain := req.customDomain))
  {
    ProtocolStays(Protocol(req));
    HostsRead(name, req.sealosHost, req.customDomain);
    assert o.spec.rules == IngressRules(name, req.sealosHost, req.customDomain);
  }

  /** What a successful ensure leaves to be read. */
  function EnsuredState(req: Request, hosts: Hosts, codec: Codec): S.Remote
    requires req.resources.Some?
  {
    var https := Protocol(req) == HTTPS;
    S.Remote(if https then hosts.publicHost else "", if https then req.sealosHost else "",
             if https then req.customDomain else "", hosts.publicPort, TrimSpace(req.secret),
             Protocol(req), req.localPort, TrimSpace(req.targetURL),
             if req.basicAuth.None? then None
             else Some(S.RemoteBasicAuth(TrimSpace(req.basicAuth.value.username),
                                         TrimSpace(req.basicAuth.value.passwordHash))),
             if req.policy.None? then None else codec.unmarshal(req.policy.value),
             codec.quantities(req.resources.value), true, true)
  }

  /** Reading the remote state right after a successful ensure gives the request back, but for trimmed white space and
      the way quantities are written. */
  lemma EnsuredIsReadBack(s: Contents, tunnelID: string, req: Request, digest: (string, string) -> string,
                          email: string, annotations: map<string, string>, hosts: Hosts, defaultHost: string,
                          codec: Codec)
    requires Acceptable(tunnelID, req) && Validated(req)
    requires Provisioned(s, ResourceName(tunnelID), req, digest, email, annotations)
    requires Reported(s, ResourceName(tunnelID), req, hosts)
    requires req.policy.Some? ==> req.policy.value != "" && codec.unmarshal(req.policy.value).Some?
    ensures RemoteOf(s, ResourceName(tunnelID), defaultHost, codec) == Some(EnsuredState(req, hosts, codec))
  {
    var name := ResourceName(tunnelID);
    ProtocolStays(Protocol(req));
    DeploymentReadBack(At(s, DeploymentKey(name)).value, name, req, digest(SaltOf(s, name), DigestText(req)), codec);
    var deployment := DeploymentRead(At(s, DeploymentKey(name)), name, codec).value;
    PortReadBack(s, name, req, hosts, deployment);
    var port := PortRead(s, name, deployment).value;
    IngressReadBack(At(s, IngressKey(name)).value, name, req, annotations, port);
    var ingress := IngressRead(At(s, IngressKey(name)), name, port).value;
    SecretReadBack(At(s, AuthKey(name)).value, name, req, SaltOf(s, name), ingress, codec);
  }

  // ---- records and the state read back ----

  /** A look at the cluster, with the request its tunnel was last ensured by. */
  datatype View = View(
    contents: Contents, tunnelID: string, req: Request, digest: (string, string) -> string, email: string,
    annotations: map<string, string>, hosts: Hosts, defaultHost: string, codec: Codec)
  {
    function Name(): string { ResourceName(tunnelID) }

    function Read(): Option<S.Remote> { RemoteOf(contents, Name(), defaultHost, codec) }

    /** The tunnel stands as it was ensured. */
    ghost predicate Stands() {
      && Acceptable(tunnelID, req) && Validated(req) && JsonSound(codec)
      && Provisioned(contents, Name(), req, digest, email, annotations)
      && Reported(contents, Name(), req, hosts)
    }

    /** The auth secret is gone, or as it was ensured. */
    ghost predicate SecretStands() {
      && JsonSound(codec) && TrimSpace(req.secret) != ""
      && (req.basicAuth.Some? ==> TrimSpace(req.basicAuth.value.username) != "")
      && (At(contents, AuthKey(Name())).Some? ==> AuthInPlace(contents, Name(), req))
    }
  }

  lemma PolicyComesBack(c: S.Credentials, req: Request, codec: Codec)
    requires AsksCredentials(req, c, codec) && JsonSound(codec)
    ensures req.policy.Some? ==> req.policy.value != "" && codec.unmarshal(req.policy.value) == c.accessPolicy
    ensures req.policy.None? <==> c.accessPolicy.None? || EmptyPolicy(c.accessPolicy.value)
  {}

  /** Credentials as they read after the round trip. */
  lemma CredentialsReadBack(c: S.Credentials, req: Request, codec: Codec, state: S.Remote)
    requires AsksCredentials(req, c, codec) && JsonSound(codec) && TrimSpace(req.secret) != ""
    requires state.secret == TrimSpace(req.secret)
    requires state.accessPolicy == if req.policy.None? then None else codec.unmarshal(req.policy.value)
    requires state.basicAuth ==
      if req.basicAuth.None? then None
      else Some(S.RemoteBasicAuth(TrimSpace(req.basicAuth.value.username),
                                  TrimSpace(req.basicAuth.value.passwordHash)))
    ensures S.MergedCredentials(c, state) == c <==> Survives(c)
  {
    PolicyComesBack(c, req, codec);
  }

  lemma EndpointReadBack(v: View, e: S.Endpoint)
    requires v.Stands() && AsksEndpoint(v.req, v.hosts, e)
    ensures S.MergedEndpoint(e, EnsuredState(v.req, v.hosts, v.codec)) == e <==> Trimmed(e.targetURL)
  {
    ProtocolStays(Protocol(v.req));
  }

  lemma ResourcesReadBack(v: View, r: Option<S.ResourceConfig>)
    requires v.Stands() && v.req.resources == v.codec.requirements(r)
    ensures S.MergedResources(r, EnsuredState(v.req, v.hosts, v.codec)) == r <==>
      v.codec.quantities(v.req.resources.value) == S.ResourcesToRemote(r)
  {}

  /** The record of a tunnel just ensured is left alone by a merge of the state read back exactly when it has no white
      space to trim, its login is enabled, its policy is not empty, and its quantities are written as they read. */
  lemma EnsuredRecordAgrees(v: View, s: S.Session)
    requires v.Stands() && v.tunnelID == s.tunnelID && !s.status.scrubbed
    requires AsksCredentials(v.req, s.auth, v.codec) && AsksEndpoint(v.req, v.hosts, s.endpoint)
    requires v.req.resources == v.codec.requirements(s.resourceConfig)
    ensures v.Read().Some?
    ensures S.Merged(s, v.Read().value) == s <==>
      Survives(s.auth) && Trimmed(s.endpoint.targetURL)
      && v.codec.quantities(v.req.resources.value) == S.ResourcesToRemote(s.resourceConfig)
  {
    PolicyComesBack(s.auth, v.req, v.codec);
    EnsuredIsReadBack(v.contents, v.tunnelID, v.req, v.digest, v.email, v.annotations, v.hosts, v.defaultHost, v.codec);
    CredentialsReadBack(s.auth, v.req, v.codec, EnsuredState(v.req, v.hosts, v.codec));
    EndpointReadBack(v, s.endpoint);
    ResourcesReadBack(v, s.resourceConfig);
  }

  /** Inputs on which it does not: a policy that allows everything is not sent, and the merge takes it away. */
  lemma EmptyPolicyIsLost(c: S.Credentials, req: Request, hosts: Hosts, codec: Codec)
    requires AsksCredentials(req, c, codec) && req.resources.Some?
    requires c.accessPolicy == Some(S.AccessPolicy([], [], [], [], "", None))
    ensures S.MergedCredentials(c, EnsuredState(req, hosts, codec)).accessPolicy == None
  {
    assert TrimSpace("") == "";
  }

  /** Where only the auth secret is known, a state read without error carries no credentials or those of the secret. */
  lemma SecretOnlyReadBack(v: View, c: S.Credentials)
    requires v.SecretStands() && AsksCredentials(v.req, c, v.codec) && v.Read().Some?
    ensures v.Read().value.authSecretOK ==> (S.MergedCredentials(c, v.Read().value) == c <==> Survives(c))
  {
    var deployment := DeploymentRead(At(v.contents, DeploymentKey(v.Name())), v.Name(), v.codec).value;
    var port := PortRead(v.contents, v.Name(), deployment).value;
    var ingress := IngressRead(At(v.contents, IngressKey(v.Name())), v.Name(), port).value;
    assert ingress.accessPolicy.None? && !ingress.authSecretOK;
    if At(v.contents, AuthKey(v.Name())).Some? {
      PolicyComesBack(c, v.req, v.codec);
      var salt := SaltOf(v.contents, v.Name());
      SecretReadBack(At(v.contents, AuthKey(v.Name())).value, v.Name(), v.req, salt, ingress, v.codec);
      CredentialsReadBack(c, v.req, v.codec, v.Read().value);
    }
  }
}
