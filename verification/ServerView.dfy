/** What a provisioned tunnel's server finds when it starts in its pod (cmd/server.go), and how it is reached: the
    desired objects of pkg/k8s/client.go, taken together. */
module ServerView {
  import opened Text
  import opened Objects
  import opened Cluster
  import opened Transactions
  import Routes

  /** The value of a flag among `--flag value` pairs. */
  function FlagIn(pairs: seq<string>, flag: string): Option<string> {
    if |pairs| < 2 then None
    else if pairs[0] == flag then Some(pairs[1])
    else FlagIn(pairs[2..], flag)
  }

  /** A flag of the command line, after the name of the command. */
  function Flag(args: seq<string>, flag: string): Option<string> {
    if args == [] then None else FlagIn(args[1..], flag)
  }

  function Held(data: map<string, string>, key: string): Option<string> {
    if key in data then Some(data[key]) else None
  }

  /** An environment variable, read from the secret under the key it points to. */
  function EnvValue(env: seq<(string, string)>, data: map<string, string>, variable: string): Option<string> {
    if env == [] then None
    else if env[0].0 == variable then Held(data, env[0].1)
    else EnvValue(env[1..], data, variable)
  }

  /** What the server reads through a flag that names an environment variable. */
  function Sees(server: Server, data: map<string, string>, flag: string): Option<string> {
    match Flag(server.args, flag)
    case None => None
    case Some(variable) => EnvValue(server.env, data, variable)
  }

  // ---- finding a flag ----

  lemma SkipPair(name: string, value: string, rest: seq<string>, flag: string)
    ensures FlagIn([name, value] + rest, flag) == if name == flag then Some(value) else FlagIn(rest, flag)
  {
    assert ([name, value] + rest)[2..] == rest;
  }

  function TargetPairs(req: Request): seq<string> {
    if TrimSpace(req.targetURL) != "" then ["--target-url", TrimSpace(req.targetURL)] else []
  }

  function LoginPairs(req: Request): seq<string> {
    if req.basicAuth.Some? then
      ["--basic-auth-user-env", "SEALTUN_BASIC_AUTH_USER"]
      + ["--basic-auth-password-hash-env", "SEALTUN_BASIC_AUTH_PASSWORD_HASH"]
    else []
  }

  function PolicyPairs(req: Request): seq<string> {
    if req.policy.Some? then ["--access-policy-env", "SEALTUN_ACCESS_POLICY"] else []
  }

  function BasePairs(req: Request, rest: seq<string>): seq<string> {
    ["--secret-env", "SEALTUN_SECRET"]
    + (["--port", "8080"] + (["--protocol", Protocol(req)] + (["--local-port", req.localPort] + rest)))
  }

  lemma ArgsAsPairs(req: Request)
    ensures Args(req) == ["server"] + BasePairs(req, TargetPairs(req) + (LoginPairs(req) + PolicyPairs(req)))
  {}

  lemma FlagInPairs(req: Request, flag: string)
    ensures Flag(Args(req), flag) ==
      if flag == "--secret-env" then Some("SEALTUN_SECRET")
      else if flag == "--port" then Some("8080")
      else if flag == "--protocol" then Some(Protocol(req))
      else if flag == "--local-port" then Some(req.localPort)
      else FlagIn(TargetPairs(req) + (LoginPairs(req) + PolicyPairs(req)), flag)
  {
    var rest := TargetPairs(req) + (LoginPairs(req) + PolicyPairs(req));
    ArgsAsPairs(req);
    assert Args(req)[1..] == BasePairs(req, rest);
    SkipPair("--local-port", req.localPort, rest, flag);
    var local := ["--local-port", req.localPort] + rest;
    SkipPair("--protocol", Protocol(req), local, flag);
    SkipPair("--port", "8080", ["--protocol", Protocol(req)] + local, flag);
    SkipPair("--secret-env", "SEALTUN_SECRET", ["--port", "8080"] + (["--protocol", Protocol(req)] + local), flag);
  }

  lemma FlagInRest(req: Request, flag: string)
    ensures FlagIn(TargetPairs(req) + (LoginPairs(req) + PolicyPairs(req)), flag) ==
      if flag == "--target-url" && TrimSpace(req.targetURL) != "" then Some(TrimSpace(req.targetURL))
      else if flag == "--basic-auth-user-env" && req.basicAuth.Some? then Some("SEALTUN_BASIC_AUTH_USER")
      else if flag == "--basic-auth-password-hash-env" && req.basicAuth.Some?
        then Some("SEALTUN_BASIC_AUTH_PASSWORD_HASH")
      else if flag == "--access-policy-env" && req.policy.Some? then Some("SEALTUN_ACCESS_POLICY")
      else None
  {
    var policy, login := PolicyPairs(req), LoginPairs(req);
    SkipPair("--access-policy-env", "SEALTUN_ACCESS_POLICY", [], flag);
    assert ["--access-policy-env", "SEALTUN_ACCESS_POLICY"] + [] == ["--access-policy-env", "SEALTUN_ACCESS_POLICY"];
    var hash := ["--basic-auth-password-hash-env", "SEALTUN_BASIC_AUTH_PASSWORD_HASH"];
    SkipPair("--basic-auth-password-hash-env", "SEALTUN_BASIC_AUTH_PASSWORD_HASH", policy, flag);
    SkipPair("--basic-auth-user-env", "SEALTUN_BASIC_AUTH_USER", hash + policy, flag);
    assert req.basicAuth.Some? ==>
      login + policy == ["--basic-auth-user-env", "SEALTUN_BASIC_AUTH_USER"] + (hash + policy);
    assert req.basicAuth.None? ==> login + policy == policy;
    SkipPair("--target-url", TrimSpace(req.targetURL), login + policy, flag);
    assert TrimSpace(req.targetURL) == "" ==> TargetPairs(req) + (login + policy) == login + policy;
    DifferentFlags();
  }

  lemma DifferentFlags()
    ensures "--target-url" != "--basic-auth-user-env" && "--target-url" != "--basic-auth-password-hash-env"
    ensures "--target-url" != "--access-policy-env" && "--basic-auth-user-env" != "--basic-auth-password-hash-env"
    ensures "--basic-auth-user-env" != "--access-policy-env"
    ensures "--basic-auth-password-hash-env" != "--access-policy-env"
  {
    assert "--target-url"[2] == 't' && "--basic-auth-user-env"[2] == 'b' && "--access-policy-env"[2] == 'a';
    assert "--basic-auth-password-hash-env"[2] == 'b' && "--basic-auth-password-hash-env"[13] == 'p';
    assert "--basic-auth-user-env"[13] == 'u';
  }

  // ---- what the server is told ----

  lemma DifferentVariables()
    ensures "SEALTUN_SECRET" != "SEALTUN_BASIC_AUTH_USER" && "SEALTUN_SECRET" != "SEALTUN_ACCESS_POLICY"
    ensures "SEALTUN_SECRET" != "SEALTUN_BASIC_AUTH_PASSWORD_HASH"
    ensures "SEALTUN_BASIC_AUTH_USER" != "SEALTUN_BASIC_AUTH_PASSWORD_HASH"
    ensures "SEALTUN_ACCESS_POLICY" != "SEALTUN_BASIC_AUTH_USER"
    ensures "SEALTUN_ACCESS_POLICY" != "SEALTUN_BASIC_AUTH_PASSWORD_HASH"
  {
    assert "SEALTUN_SECRET"[8] == 'S' && "SEALTUN_ACCESS_POLICY"[8] == 'A' && "SEALTUN_BASIC_AUTH_USER"[8] == 'B';
    assert "SEALTUN_BASIC_AUTH_PASSWORD_HASH"[8] == 'B' && "SEALTUN_BASIC_AUTH_PASSWORD_HASH"[19] == 'P';
    assert "SEALTUN_BASIC_AUTH_USER"[19] == 'U';
  }

  lemma NextVariable(e: (string, string), rest: seq<(string, string)>, data: map<string, string>, variable: string)
    ensures EnvValue([e] + rest, data, variable) ==
      if e.0 == variable then Held(data, e.1) else EnvValue(rest, data, variable)
  {
    assert ([e] + rest)[1..] == rest;
  }

  lemma EnvRead(req: Request, data: map<string, string>, variable: string)
    ensures var env := Env(req);
      EnvValue(env, data, variable) ==
        if variable == "SEALTUN_SECRET" then Held(data, "secret")
        else if variable == "SEALTUN_BASIC_AUTH_USER" && req.basicAuth.Some? then Held(data, "basicAuthUsername")
        else if variable == "SEALTUN_BASIC_AUTH_PASSWORD_HASH" && req.basicAuth.Some?
          then Held(data, "basicAuthPasswordHash")
        else if variable == "SEALTUN_ACCESS_POLICY" && req.policy.Some? then Held(data, "accessPolicy")
        else None
  {
    var policy := if req.policy.Some? then [("SEALTUN_ACCESS_POLICY", POLICY_KEY)] else [];
    var hash := ("SEALTUN_BASIC_AUTH_PASSWORD_HASH", PASSWORD_KEY);
    var user := ("SEALTUN_BASIC_AUTH_USER", USER_KEY);
    var login := if req.basicAuth.Some? then [user] + ([hash] + policy) else policy;
    assert Env(req) == [("SEALTUN_SECRET", SECRET_KEY)] + login;
    assert policy == [] || policy == [("SEALTUN_ACCESS_POLICY", POLICY_KEY)] + [];
    NextVariable(("SEALTUN_ACCESS_POLICY", POLICY_KEY), [], data, variable);
    NextVariable(hash, policy, data, variable);
    NextVariable(user, [hash] + policy, data, variable);
    NextVariable(("SEALTUN_SECRET", SECRET_KEY), login, data, variable);
    DifferentVariables();
  }

  /** What the auth secret holds under each key. */
  lemma DataHeld(req: Request, salt: string)
    ensures var data := SecretData(req, salt);
      && Held(data, "secret") == Some(req.secret)
      && (req.basicAuth.Some? ==>
            Held(data, "basicAuthUsername") == Some(TrimSpace(req.basicAuth.value.username))
            && Held(data, "basicAuthPasswordHash") == Some(req.basicAuth.value.passwordHash))
      && (req.policy.Some? ==> Held(data, "accessPolicy") == req.policy)
  {}

  function UserAsked(req: Request): Option<string> {
    match req.basicAuth
    case None => None
    case Some(l) => Some(TrimSpace(l.username))
  }

  function HashAsked(req: Request): Option<string> {
    match req.basicAuth
    case None => None
    case Some(l) => Some(l.passwordHash)
  }

  /** The server of the deployment is told what was asked for, through its flags, its environment and the secret. */
  ghost predicate Told(server: Server, data: map<string, string>, req: Request) {
    && Sees(server, data, "--secret-env") == Some(req.secret)
    && Sees(server, data, "--basic-auth-user-env") == UserAsked(req)
    && Sees(server, data, "--basic-auth-password-hash-env") == HashAsked(req)
    && Sees(server, data, "--access-policy-env") == req.policy
    && Flag(server.args, "--protocol") == Some(Protocol(req))
      && Flag(server.args, "--local-port") == Some(req.localPort)
    && Flag(server.args, "--target-url") ==
         (if TrimSpace(req.targetURL) == "" then None else Some(TrimSpace(req.targetURL)))
  }

  lemma SecretSeen(req: Request, server: Server, data: map<string, string>)
    requires server.args == Args(req) && server.env == Env(req)
    ensures Sees(server, data, "--secret-env") == Held(data, "secret")
  {
    FlagInPairs(req, "--secret-env");
    EnvRead(req, data, "SEALTUN_SECRET");
  }

  /** Flags that are not on every command line. */
  lemma OptionalFlag(req: Request, flag: string)
    requires flag == "--target-url" || flag == "--basic-auth-user-env" || flag == "--basic-auth-password-hash-env"
      || flag == "--access-policy-env"
    ensures Flag(Args(req), flag) == FlagIn(TargetPairs(req) + (LoginPairs(req) + PolicyPairs(req)), flag)
  {
    FlagInPairs(req, flag);
    assert flag[2] == 't' || flag[2] == 'b' || flag[2] == 'a';
    assert "--secret-env"[2] == 's' && "--port"[2] == 'p' && "--protocol"[2] == 'p' && "--local-port"[2] == 'l';
  }

  lemma UserSeen(req: Request, server: Server, data: map<string, string>)
    requires server.args == Args(req) && server.env == Env(req)
    ensures Sees(server, data, "--basic-auth-user-env") ==
      if req.basicAuth.Some? then Held(data, "basicAuthUsername") else None
  {
    OptionalFlag(req, "--basic-auth-user-env");
    FlagInRest(req, "--basic-auth-user-env");
    DifferentFlags();
    DifferentVariables();
    EnvRead(req, data, "SEALTUN_BASIC_AUTH_USER");
  }

  lemma HashSeen(req: Request, server: Server, data: map<string, string>)
    requires server.args == Args(req) && server.env == Env(req)
    ensures Sees(server, data, "--basic-auth-password-hash-env") ==
      if req.basicAuth.Some? then Held(data, "basicAuthPasswordHash") else None
  {
    OptionalFlag(req, "--basic-auth-password-hash-env");
    FlagInRest(req, "--basic-auth-password-hash-env");
    DifferentFlags();
    DifferentVariables();
    EnvRead(req, data, "SEALTUN_BASIC_AUTH_PASSWORD_HASH");
  }

  lemma PolicySeen(req: Request, server: Server, data: map<string, string>)
    requires server.args == Args(req) && server.env == Env(req)
    ensures Sees(server, data, "--access-policy-env") ==
      if req.policy.Some? then Held(data, "accessPolicy") else None
  {
    OptionalFlag(req, "--access-policy-env");
    FlagInRest(req, "--access-policy-env");
    DifferentFlags();
    DifferentVariables();
    EnvRead(req, data, "SEALTUN_ACCESS_POLICY");
  }

  lemma TargetSeen(req: Request)
    ensures Flag(Args(req), "--target-url") ==
      if TrimSpace(req.targetURL) == "" then None else Some(TrimSpace(req.targetURL))
  {
    OptionalFlag(req, "--target-url");
    FlagInRest(req, "--target-url");
    DifferentFlags();
  }

  lemma EndpointSeen(req: Request)
    ensures Flag(Args(req), "--protocol") == Some(Protocol(req))
    ensures Flag(Args(req), "--local-port") == Some(req.localPort)
    ensures Flag(Args(req), "--port") == Some("8080")
  {
    FlagInPairs(req, "--protocol");
    FlagInPairs(req, "--local-port");
    FlagInPairs(req, "--port");
    assert "--secret-env"[2] == 's' && "--port"[2] == 'p' && "--protocol"[2] == 'p' && "--local-port"[2] == 'l';
    assert |"--port"| != |"--protocol"|;
  }

  lemma ServerTold(req: Request, salt: string, server: Server)
    requires server.args == Args(req) && server.env == Env(req)
    ensures Told(server, SecretData(req, salt), req)
  {
    var data := SecretData(req, salt);
    DataHeld(req, salt);
    SecretSeen(req, server, data);
    UserSeen(req, server, data);
    HashSeen(req, server, data);
    PolicySeen(req, server, data);
    TargetSeen(req);
    EndpointSeen(req);
  }

  /** In a cluster where the core of a tunnel stands as requested, the server that its deployment starts is told, by the
      objects as they are stored, exactly what was asked for. */
  lemma ProvisionedServerIsTold(s: Contents, name: string, req: Request, digest: (string, string) -> string)
    requires CoreProvisioned(s, name, req, digest)
    ensures var deployment, secret := At(s, DeploymentKey(name)).value, At(s, AuthKey(name)).value;
      && deployment.spec.DeploymentSpec? && secret.spec.SecretSpec?
      && Told(deployment.spec.server, secret.spec.data, req)
  {
    var deployment, secret := At(s, DeploymentKey(name)).value, At(s, AuthKey(name)).value;
    assert deployment.spec.server.args == Args(req) && deployment.spec.server.env == Env(req);
    assert secret.spec.data == SecretData(req, SaltOf(s, name));
    ServerTold(req, SaltOf(s, name), deployment.spec.server);
  }

  // ---- how the server is reached ----

  /** The service selects the deployment's pods, and leads to a port their container opens. */
  predicate LeadsTo(service: Spec, deployment: Spec, port: int) {
    && service.ServiceSpec? && deployment.DeploymentSpec? && service.selector == deployment.selector
    && |service.ports| == 1 && service.ports[0].targetPort == port
    && (exists p | p in deployment.server.ports :: p.port == port)
    && (forall p | p in deployment.server.ports && p.port == port ::
          ProtocolOrTCP(p.protocol) == "TCP" == ProtocolOrTCP(service.ports[0].protocol))
  }

  lemma PortsOpened(ports: seq<ContainerPort>, req: Request)
    requires FilledContainerPorts(ports) == FilledContainerPorts(ContainerPorts(req))
    ensures exists p | p in ports :: p.port == 8080
    ensures RawTCP(req) ==> exists p | p in ports :: p.port == 2222
    ensures forall p | p in ports :: ProtocolOrTCP(p.protocol) == "TCP"
  {
    var filled := FilledContainerPorts(ports);
    assert |filled| == |ports| == |ContainerPorts(req)|;
    assert filled[0].port == 8080 && ports[0] in ports && ports[0].port == filled[0].port;
    if RawTCP(req) { assert filled[1].port == 2222 && ports[1] in ports && ports[1].port == filled[1].port; }
    forall p | p in ports ensures ProtocolOrTCP(p.protocol) == "TCP" {
      var i :| 0 <= i < |ports| && ports[i] == p;
      assert filled[i].protocol == ProtocolOrTCP(p.protocol);
      assert ContainerPorts(req)[i].protocol == "";
    }
  }

  lemma ServicePort(ports: seq<Port>, desired: Port)
    requires FilledPorts(ports) == FilledPorts([desired])
    ensures |ports| == 1 && ports[0].targetPort == desired.targetPort && ports[0].port == desired.port
    ensures ProtocolOrTCP(ports[0].protocol) == ProtocolOrTCP(desired.protocol)
  {
    var filled := FilledPorts(ports);
    assert |filled| == |ports| == 1 && filled[0] == FilledPorts([desired])[0];
  }

  /** The HTTP service leads to the port the server is told to listen on, and the public TCP service of a raw tunnel to
      its TCP port. */
  lemma ProvisionedServerIsReached(s: Contents, name: string, req: Request, digest: (string, string) -> string,
                                   email: string)
    requires BackendProvisioned(s, name, req, digest, email)
    ensures var deployment, http := At(s, DeploymentKey(name)).value.spec, At(s, HttpKey(name)).value.spec;
      LeadsTo(http, deployment, 8080) && http.ports[0].port == 80
      && Flag(deployment.server.args, "--port") == Some("8080")
    ensures Protocol(req) in {"ssh", "tcp"} ==>
      LeadsTo(At(s, TcpKey(name)).value.spec, At(s, DeploymentKey(name)).value.spec, 2222)
  {
    var deployment, http := At(s, DeploymentKey(name)).value.spec, At(s, HttpKey(name)).value.spec;
    PortsOpened(deployment.server.ports, req);
    ServicePort(http.ports, Port("http", 80, 8080, ""));
    EndpointSeen(req);
    assert deployment.server.args == Args(req);
    ProtocolsMean(req);
    if RawTCP(req) { ServicePort(At(s, TcpKey(name)).value.spec.ports, Port("tcp", 2222, 2222, "TCP")); }
  }

  /** The paths under a prefix of the ingress. */
  predicate Exposed(paths: seq<string>, path: string) {
    exists i | 0 <= i < |paths| :: Routes.PrefixMatches(paths[i], path)
  }

  /** An HTTPS tunnel exposes every path; any other exposes nothing but the server's own endpoints. */
  lemma ExposedPaths(protocol: string, path: string)
    requires protocol == HTTPS || protocol == SSH || protocol == TCP
    ensures protocol == HTTPS && HasPrefix(path, "/") ==> Exposed(IngressPaths(protocol), path)
    ensures protocol != HTTPS && Exposed(IngressPaths(protocol), path) ==> HasPrefix(path, "/_sealtun/")
  {
    var paths := IngressPaths(protocol);
    if protocol == HTTPS {
      assert paths[4] == "/";
    } else {
      assert paths == ["/_sealtun/ws", "/_sealtun/healthz", "/_sealtun/metrics", "/_sealtun/audit", "/_sealtun/tcp"];
      forall i | 0 <= i < |paths| && Routes.PrefixMatches(paths[i], path) ensures HasPrefix(path, "/_sealtun/") {
        assert "/_sealtun/" <= paths[i] && paths[i] != "/" && paths[i] <= path;
      }
    }
  }

  /** The endpoints the client connects to. */
  lemma ControlPathsExposed(protocol: string)
    ensures Exposed(IngressPaths(protocol), "/_sealtun/ws") && Exposed(IngressPaths(protocol), "/_sealtun/healthz")
    ensures Exposed(IngressPaths(protocol), "/_sealtun/metrics") && Exposed(IngressPaths(protocol), "/_sealtun/audit")
    ensures protocol == SSH || protocol == TCP ==> Exposed(IngressPaths(protocol), "/_sealtun/tcp")
  {
    var paths := IngressPaths(protocol);
    assert Routes.PrefixMatches(paths[0], "/_sealtun/ws") && Routes.PrefixMatches(paths[1], "/_sealtun/healthz");
    assert Routes.PrefixMatches(paths[2], "/_sealtun/metrics") && Routes.PrefixMatches(paths[3], "/_sealtun/audit");
    if protocol == SSH || protocol == TCP { assert Routes.PrefixMatches(paths[4], "/_sealtun/tcp"); }
  }

  /** A custom domain is served by a rule whose TLS secret is the one its certificate is written to. */
  lemma DomainIsServed(s: Contents, name: string, req: Request, digest: (string, string) -> string, email: string,
                       annotations: map<string, string>)
    requires Provisioned(s, name, req, digest, email, annotations)
    requires Protocol(req) == "https" && req.customDomain != "" && req.customDomain != req.sealosHost
    ensures var ingress, certificate := At(s, IngressKey(name)).value.spec, At(s, CertificateKey(name)).value.spec;
      && ingress.IngressSpec? && certificate.CertificateSpec? && certificate.domain == req.customDomain
      && certificate.secretName.Some?
      && Rule(req.customDomain, certificate.secretName.value) in ingress.rules
      && exists r | r in ingress.rules :: r.host == req.sealosHost
  {
    var rules := At(s, IngressKey(name)).value.spec.rules;
    assert rules == IngressRules(name, req.sealosHost, req.customDomain);
    assert rules[0].host == req.sealosHost && rules[0] in rules;
    assert rules[1] == Rule(req.customDomain, name) && rules[1] in rules;
  }

  /** One replica, an opaque secret, a service inside the cluster, and for a raw tunnel a service with a public port. */
  lemma ProvisionedShape(s: Contents, name: string, req: Request, digest: (string, string) -> string, email: string)
    requires BackendProvisioned(s, name, req, digest, email)
    ensures At(s, DeploymentKey(name)).value.spec.replicas == Some(1)
    ensures At(s, AuthKey(name)).value.spec.secretType == "Opaque"
    ensures At(s, HttpKey(name)).value.spec.serviceType == "ClusterIP"
    ensures Protocol(req) in {"ssh", "tcp"} ==>
      At(s, TcpKey(name)).Some? && At(s, TcpKey(name)).value.spec.ServiceSpec?
      && At(s, TcpKey(name)).value.spec.serviceType == "NodePort"
    ensures forall mark | mark in {"app", "cloud.sealos.io/app-deploy-manager"} ::
      Value(At(s, DeploymentKey(name)).value.labels, mark) == name
      && Value(At(s, DeploymentKey(name)).value.spec.selector, mark) == name
  {
    ProtocolsMean(req);
    var deployment := At(s, DeploymentKey(name)).value;
    assert deployment.spec.selector == ManagedLabels(name);
    assert MapContains(deployment.labels, ManagedLabels(name));
    assert "app" in ManagedLabels(name) && MANAGED_LABEL in ManagedLabels(name);
  }

  // ---- noticing a changed configuration ----

  function DigestParts(req: Request): seq<string> {
    [req.secret, TrimSpace(req.targetURL)]
    + ((match req.basicAuth case None => [] case Some(l) => [TrimSpace(l.username), l.passwordHash])
       + (match req.policy case None => [] case Some(json) => [json]))
  }

  /** The text the digest is taken of tells the number of its parts. */
  lemma {:induction false} JoinCounts(p: seq<string>, q: seq<string>, c: char)
    requires p != [] && q != [] && FreeOf(p, c) && FreeOf(q, c) && Join(p, [c]) == Join(q, [c])
    ensures |p| == |q|
  {
    JoinSeparates(p, c);
    JoinSeparates(q, c);
    if |p| >= 2 && |q| >= 2 {
      CutFirst(p[0], Join(p[1..], [c]), q[0], Join(q[1..], [c]), c);
      JoinCounts(p[1..], q[1..], c);
    }
  }

  lemma JoinSeparates(p: seq<string>, c: char)
    requires p != [] && FreeOf(p, c)
    ensures c in Join(p, [c]) <==> |p| >= 2
  {
    if |p| >= 2 { assert (p[0] + [c] + Join(p[1..], [c]))[|p[0]|] == c; }
  }

  lemma DigestOfParts(req: Request)
    ensures DigestText(req) == Join(DigestParts(req), ['\0'])
  {
    var login := match req.basicAuth case None => [] case Some(l) => [TrimSpace(l.username), l.passwordHash];
    var policy := match req.policy case None => [] case Some(json) => [json];
    var base := [req.secret, TrimSpace(req.targetURL)];
    assert (base + login) + policy == base + (login + policy);
  }

  /** Equal digest texts mean equal secret, target, login and policy, where none of them contains a NUL. */
  lemma DigestTextInjective(a: Request, b: Request)
    requires FreeOf(DigestParts(a), '\0') && FreeOf(DigestParts(b), '\0') && DigestText(a) == DigestText(b)
    ensures a.secret == b.secret && TrimSpace(a.targetURL) == TrimSpace(b.targetURL)
    ensures UserAsked(a) == UserAsked(b) && HashAsked(a) == HashAsked(b) && a.policy == b.policy
  {
    DigestOfParts(a);
    DigestOfParts(b);
    var p, q := DigestParts(a), DigestParts(b);
    JoinCounts(p, q, '\0');
    JoinInjective(p, q, '\0');
    assert p[0] == a.secret && q[0] == b.secret && p[1] == TrimSpace(a.targetURL) && q[1] == TrimSpace(b.targetURL);
    if a.basicAuth.Some? { assert p[2] == TrimSpace(a.basicAuth.value.username)
                          && p[3] == a.basicAuth.value.passwordHash; }
    if b.basicAuth.Some? { assert q[2] == TrimSpace(b.basicAuth.value.username)
                          && q[3] == b.basicAuth.value.passwordHash; }
    if a.policy.Some? { assert p[|p| - 1] == a.policy.value; }
    if b.policy.Some? { assert q[|q| - 1] == b.policy.value; }
  }

  /** When the digest tells texts apart, a changed secret, target, login or policy puts the deployment out of date, so
      that the pods are replaced. */
  lemma ChangeIsNoticed(name: string, a: Request, b: Request, salt: string, digest: (string, string) -> string,
                        current: Object)
    requires a.image.Some? && a.resources.Some? && b.image.Some? && b.resources.Some?
    requires FreeOf(DigestParts(a), '\0') && FreeOf(DigestParts(b), '\0')
    requires digest(salt, DigestText(a)) == digest(salt, DigestText(b)) ==> DigestText(a) == DigestText(b)
    requires Meets(DesiredDeployment(name, a, digest(salt, DigestText(a))), current)
    requires a.secret != b.secret || TrimSpace(a.targetURL) != TrimSpace(b.targetURL)
      || UserAsked(a) != UserAsked(b) || HashAsked(a) != HashAsked(b) || a.policy != b.policy
    ensures !Meets(DesiredDeployment(name, b, digest(salt, DigestText(b))), current)
    ensures !UpToDate(DesiredDeployment(name, b, digest(salt, DigestText(b))), current)
  {
    if DigestText(a) == DigestText(b) { DigestTextInjective(a, b); }
    var x, y := digest(salt, DigestText(a)), digest(salt, DigestText(b));
    assert DIGEST_ANNOTATION in map[DIGEST_ANNOTATION := x] && DIGEST_ANNOTATION in map[DIGEST_ANNOTATION := y];
    assert Value(current.spec.podAnnotations, DIGEST_ANNOTATION) == x;
  }
}
