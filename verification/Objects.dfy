/** Kubernetes objects as pkg/k8s/client.go names, labels, builds and compares them. */
module Objects {
  import opened Text
  import Sessions

  const MANAGED_LABEL := "cloud.sealos.io/app-deploy-manager"
  const DOMAIN_LABEL := "cloud.sealos.io/app-deploy-manager-domain"
  const DIGEST_ANNOTATION := "sealtun.labring.com/server-config"
  const CERTIFICATE_ANNOTATION := "cert-manager.io/certificate-name"
  const SECRET_KEY := "secret"
  const SALT_KEY := "configDigestSalt"
  const USER_KEY := "basicAuthUsername"
  const PASSWORD_KEY := "basicAuthPasswordHash"
  const POLICY_KEY := "accessPolicy"
  const HTTPS := "https"
  const SSH := "ssh"
  const TCP := "tcp"

  datatype Kind = Secret | Deployment | Service | Ingress | Issuer | Certificate
  datatype Key = Key(kind: Kind, name: string)
  datatype OwnerRef = OwnerRef(kind: string, name: string, apiVersion: string)

  /** The protocol is empty where the client leaves it to the API server. */
  datatype Port = Port(name: string, port: int, targetPort: int, protocol: string)
  /** A node port the server gave out. */
  type Positive = n: int | 0 < n witness 1
  datatype ContainerPort = ContainerPort(name: string, port: int, protocol: string)
  datatype Rule = Rule(host: string, tlsSecret: string)
  /** The container settings of the tunnel server. */
  datatype Server = Server(args: seq<string>, env: seq<(string, string)>, ports: seq<ContainerPort>,
                           image: string, resources: string)

  /** What the client reads and writes of each kind of object; `filled` stands for the fields of a deployment that
      only the API server sets. */
  datatype Spec =
    | SecretSpec(secretType: string, data: map<string, string>)
    | DeploymentSpec(
        replicas: Option<int>, selector: map<string, string>, podAnnotations: map<string, string>, server: Server,
        filled: string)
    | ServiceSpec(serviceType: string, selector: map<string, string>, ports: seq<Port>,
                  nodePorts: map<string, Positive>, network: string)
    | IngressSpec(rules: seq<Rule>, paths: seq<string>)
    | IssuerSpec(email: string, accountKey: Option<string>)
    | CertificateSpec(secretName: Option<string>, domain: string)

  datatype Object = Object(labels: map<string, string>, annotations: map<string, string>, owners: seq<OwnerRef>,
                           spec: Spec)

  // ---- names and ownership ----

  function ResourceName(tunnelID: string): string { "sealtun-" + tunnelID }
  function AuthSecretName(name: string): string { name + "-auth" }
  function TcpServiceName(name: string): string { name + "-tcp" }
  function AccountKeyName(name: string): string { "letsencrypt-prod-" + name }

  function AuthKey(name: string): Key { Key(Secret, AuthSecretName(name)) }
  function TlsKey(name: string): Key { Key(Secret, name) }
  function AccountKey(name: string): Key { Key(Secret, AccountKeyName(name)) }
  function DeploymentKey(name: string): Key { Key(Deployment, name) }
  function HttpKey(name: string): Key { Key(Service, name) }
  function TcpKey(name: string): Key { Key(Service, TcpServiceName(name)) }
  function IngressKey(name: string): Key { Key(Ingress, name) }
  function AppIngressKey(name: string): Key { Key(Ingress, name + "-app") }
  function IssuerKey(name: string): Key { Key(Issuer, name) }
  function CertificateKey(name: string): Key { Key(Certificate, name) }

  /** The keys a tunnel's resources may have. */
  predicate OwnKey(k: Key, name: string) {
    match k.kind
    case Secret => k == AuthKey(name) || k == TlsKey(name) || k == AccountKey(name)
    case Service => k == HttpKey(name) || k == TcpKey(name)
    case Ingress => k == IngressKey(name) || k == AppIngressKey(name)
    case _ => k.name == name
  }

  /** An object under a key has the spec of the key's kind. */
  predicate Typed(k: Key, o: Object) {
    match k.kind
    case Secret => o.spec.SecretSpec?
    case Deployment => o.spec.DeploymentSpec?
    case Service => o.spec.ServiceSpec?
    case Ingress => o.spec.IngressSpec?
    case Issuer => o.spec.IssuerSpec?
    case Certificate => o.spec.CertificateSpec?
  }

  /** A missing key reads as the zero value. */
  function Value(m: map<string, string>, key: string): string {
    if key in m then m[key] else ""
  }

  function ManagedLabels(name: string): map<string, string> {
    map["app" := name, MANAGED_LABEL := name]
  }

  predicate Managed(o: Object, name: string) {
    Value(o.labels, MANAGED_LABEL) == name
  }

  predicate RefersToCertificate(o: Object, name: string) {
    Value(o.annotations, CERTIFICATE_ANNOTATION) == name
    || exists r | r in o.owners ::
      r.name == name && r.kind == "Certificate" && HasPrefix(r.apiVersion, "cert-manager.io/")
  }

  predicate RefersToIssuer(o: Object, name: string) {
    exists r | r in o.owners :: r.name == name && r.kind == "Issuer" && HasPrefix(r.apiVersion, "cert-manager.io/")
  }

  /** `secretOwnedByManagedCertificate`, for a secret of that name. */
  predicate OwnedByCertificate(o: Object, secretName: string, owner: string, certificate: Option<Object>) {
    certificate.Some? && Managed(certificate.value, owner)
    && certificate.value.spec.CertificateSpec? && certificate.value.spec.secretName == Some(secretName)
    && RefersToCertificate(o, owner)
  }

  /** A secret that says cert-manager made it for the tunnel. */
  predicate MadeFor(k: Key, o: Object, name: string) {
    k.kind == Secret && (RefersToCertificate(o, name) || RefersToIssuer(o, name))
  }

  /** What a tunnel may delete: its own labelled objects, and secrets cert-manager made for it. */
  predicate MayTouch(k: Key, o: Object, name: string) {
    Managed(o, name) || MadeFor(k, o, name)
  }

  /** An owner reference to an object of cert-manager. */
  predicate CertManagerOwner(r: OwnerRef, kind: string, name: string) {
    r.kind == kind && r.name == name && "cert-manager.io/" <= r.apiVersion
  }

  /** A secret is disposable for a tunnel by its label, by the certificate annotation, or by an owner reference to the
      tunnel's certificate or issuer; whatever names another tunnel only, or is no secret, needs the label. */
  lemma WhatMayBeTouched(k: Key, o: Object, name: string)
    ensures MayTouch(k, o, name) <==>
      || Value(o.labels, "cloud.sealos.io/app-deploy-manager") == name
      || (k.kind == Secret && Value(o.annotations, "cert-manager.io/certificate-name") == name)
      || (k.kind == Secret && exists r | r in o.owners ::
            CertManagerOwner(r, "Certificate", name) || CertManagerOwner(r, "Issuer", name))
  {
    assert forall r | r in o.owners :: CertManagerOwner(r, "Certificate", name) ==> RefersToCertificate(o, name);
    assert forall r | r in o.owners :: CertManagerOwner(r, "Issuer", name) ==> RefersToIssuer(o, name);
    if RefersToIssuer(o, name) {
      var r :| r in o.owners && r.name == name && r.kind == "Issuer" && HasPrefix(r.apiVersion, "cert-manager.io/");
      assert CertManagerOwner(r, "Issuer", name);
    }
    if RefersToCertificate(o, name) && Value(o.annotations, CERTIFICATE_ANNOTATION) != name {
      var r :|
        r in o.owners && r.name == name && r.kind == "Certificate" && HasPrefix(r.apiVersion, "cert-manager.io/");
      assert CertManagerOwner(r, "Certificate", name);
    }
  }

  /** The TLS secret of a custom domain belongs to the tunnel if the tunnel's own certificate names it and the secret
      refers back. */
  lemma WhenCertificateOwns(o: Object, secretName: string, owner: string, certificate: Option<Object>)
    ensures OwnedByCertificate(o, secretName, owner, certificate) <==>
      && certificate.Some? && Value(certificate.value.labels, "cloud.sealos.io/app-deploy-manager") == owner
      && (exists domain :: certificate.value.spec == CertificateSpec(Some(secretName), domain))
      && (Value(o.annotations, "cert-manager.io/certificate-name") == owner
          || exists r | r in o.owners :: CertManagerOwner(r, "Certificate", owner))
  {
    if certificate.Some? && certificate.value.spec.CertificateSpec? {
      assert certificate.value.spec == CertificateSpec(certificate.value.spec.secretName,
                                                       certificate.value.spec.domain);
    }
    if RefersToCertificate(o, owner) && Value(o.annotations, CERTIFICATE_ANNOTATION) != owner {
      var r :|
        r in o.owners && r.name == owner && r.kind == "Certificate" && HasPrefix(r.apiVersion, "cert-manager.io/");
      assert CertManagerOwner(r, "Certificate", owner);
    }
    assert forall r | r in o.owners :: CertManagerOwner(r, "Certificate", owner) ==> RefersToCertificate(o, owner);
  }

  /** `mapContains`. */
  predicate MapContains(current: map<string, string>, desired: map<string, string>) {
    forall k | k in desired :: Value(current, k) == desired[k]
  }

  // ---- desired objects ----

  datatype Login = Login(username: string, passwordHash: string)

  /** The arguments of one ensure call: the policy is the JSON of a non-empty policy, image and resources are
      None when the configuration has no valid value, `optionsValid` covers the option syntax checks. */
  datatype Request = Request(
    secret: string, protocol: string, localPort: string, targetURL: string, basicAuth: Option<Login>,
    policy: Option<string>, image: Option<string>, resources: Option<string>,
    sealosHost: string, customDomain: string, portValid: bool, optionsValid: bool)

  function Protocol(req: Request): string { Sessions.NormalizedProtocol(req.protocol) }

  predicate RawTCP(req: Request) { Protocol(req) == SSH || Protocol(req) == TCP }

  predicate WantsDomain(req: Request) { Protocol(req) == HTTPS && req.customDomain != "" }

  /** The checks before anything is written. */
  predicate Acceptable(tunnelID: string, req: Request) {
    Sessions.ValidTunnelID(tunnelID) && TrimSpace(req.secret) != ""
    && (Protocol(req) == HTTPS || RawTCP(req)) && req.portValid && req.optionsValid
    && (Protocol(req) != HTTPS ==> req.customDomain == "" && req.basicAuth.None? && req.policy.None?)
  }

  /** What the protocol of a request decides. */
  lemma ProtocolsMean(req: Request)
    ensures RawTCP(req) <==> Protocol(req) in {"ssh", "tcp"}
    ensures Protocol(req) == "https" ==> !RawTCP(req) && (WantsDomain(req) <==> req.customDomain != "")
    ensures WantsDomain(req) ==> Protocol(req) == "https"
  {
    assert "https"[0] != "ssh"[0] && "https"[0] != "tcp"[0];
  }

  /** The requests that are turned down before anything is written. */
  lemma WhatIsAcceptable(tunnelID: string, req: Request)
    ensures Acceptable(tunnelID, req) <==>
      && Sessions.ValidTunnelID(tunnelID) && TrimSpace(req.secret) != "" && req.portValid && req.optionsValid
      && if Protocol(req) in {"ssh", "tcp"} then req.customDomain == "" && req.basicAuth == None && req.policy == None
         else Protocol(req) == "https"
  {
    ProtocolsMean(req);
  }

  function SecretData(req: Request, salt: string): map<string, string> {
    var base := map[SECRET_KEY := req.secret, SALT_KEY := salt];
    var login := match req.basicAuth
      case None => base
      case Some(l) => base[USER_KEY := TrimSpace(l.username)][PASSWORD_KEY := l.passwordHash];
    match req.policy
    case None => login
    case Some(json) => login[POLICY_KEY := json]
  }

  function DesiredSecret(name: string, req: Request, salt: string): Object {
    Object(ManagedLabels(name), map[], [], SecretSpec("Opaque", SecretData(req, salt)))
  }

  function Args(req: Request): seq<string> {
    ["server", "--secret-env", "SEALTUN_SECRET", "--port", "8080", "--protocol", Protocol(req), "--local-port",
     req.localPort]
    + (if TrimSpace(req.targetURL) != "" then ["--target-url", TrimSpace(req.targetURL)] else [])
    + (if req.basicAuth.Some? then
         ["--basic-auth-user-env", "SEALTUN_BASIC_AUTH_USER", "--basic-auth-password-hash-env",
          "SEALTUN_BASIC_AUTH_PASSWORD_HASH"]
       else [])
    + (if req.policy.Some? then ["--access-policy-env", "SEALTUN_ACCESS_POLICY"] else [])
  }

  /** Environment variables, each with the key of the auth secret it comes from. */
  function Env(req: Request): seq<(string, string)> {
    [("SEALTUN_SECRET", SECRET_KEY)]
    + (if req.basicAuth.Some? then
         [("SEALTUN_BASIC_AUTH_USER", USER_KEY), ("SEALTUN_BASIC_AUTH_PASSWORD_HASH", PASSWORD_KEY)]
       else [])
    + (if req.policy.Some? then [("SEALTUN_ACCESS_POLICY", POLICY_KEY)] else [])
  }

  /** The text the server configuration digest is keyed over. */
  function DigestText(req: Request): string {
    Join([req.secret, TrimSpace(req.targetURL)]
         + (match req.basicAuth case None => [] case Some(l) => [TrimSpace(l.username), l.passwordHash])
         + (match req.policy case None => [] case Some(json) => [json]), "\0")
  }

  /** `containerPortsForProtocol`: no protocol is set. */
  function ContainerPorts(req: Request): seq<ContainerPort> {
    [ContainerPort("http", 8080, "")] + if RawTCP(req) then [ContainerPort("tcp", 2222, "")] else []
  }

  function DesiredDeployment(name: string, req: Request, digest: string): Object
    requires req.image.Some? && req.resources.Some?
  {
    var server := Server(Args(req), Env(req), ContainerPorts(req), req.image.value, req.resources.value);
    Object(ManagedLabels(name), map[], [],
           DeploymentSpec(Some(1), ManagedLabels(name), map[DIGEST_ANNOTATION := digest], server, ""))
  }

  function DesiredHttpService(name: string): Object {
    Object(ManagedLabels(name), map[], [],
           ServiceSpec("ClusterIP", ManagedLabels(name), [Port("http", 80, 8080, "")], map[], ""))
  }

  function DesiredTcpService(name: string): Object {
    Object(ManagedLabels(name), map[], [],
           ServiceSpec("NodePort", ManagedLabels(name), [Port("tcp", 2222, 2222, "TCP")], map[], ""))
  }

  function IngressRules(name: string, sealosHost: string, customDomain: string): seq<Rule> {
    [Rule(sealosHost, "wildcard-cert")]
    + if customDomain != "" && customDomain != sealosHost then [Rule(customDomain, name)] else []
  }

  function IngressPaths(protocol: string): seq<string> {
    ["/_sealtun/ws", "/_sealtun/healthz", "/_sealtun/metrics", "/_sealtun/audit"]
    + (if protocol == SSH || protocol == TCP then ["/_sealtun/tcp"] else [])
    + (if protocol == HTTPS then ["/"] else [])
  }

  function DesiredIngress(name: string, sealosHost: string, customDomain: string, protocol: string,
                          annotations: map<string, string>): Object {
    Object(ManagedLabels(name)[DOMAIN_LABEL := Split(sealosHost, '.')[0]], annotations, [],
           IngressSpec(IngressRules(name, sealosHost, customDomain), IngressPaths(protocol)))
  }

  function DesiredIssuer(name: string, email: string): Object {
    Object(map[MANAGED_LABEL := name], map[], [], IssuerSpec(email, Some(AccountKeyName(name))))
  }

  function DesiredCertificate(name: string, customDomain: string): Object {
    Object(map[MANAGED_LABEL := name], map[], [], CertificateSpec(Some(name), customDomain))
  }

  // ---- comparing ----

  function ProtocolOrTCP(protocol: string): string {
    if protocol == "" then "TCP" else protocol
  }

  function FilledPorts(ports: seq<Port>): seq<Port> {
    seq(|ports|, i requires 0 <= i < |ports| => ports[i].(protocol := ProtocolOrTCP(ports[i].protocol)))
  }

  function FilledContainerPorts(ports: seq<ContainerPort>): seq<ContainerPort> {
    seq(|ports|, i requires 0 <= i < |ports| => ports[i].(protocol := ProtocolOrTCP(ports[i].protocol)))
  }

  /** The `…UpToDate` comparisons, one per kind; issuers and certificates are written every time. What others
      added to a deployment or an ingress does not count. An empty port protocol is read as TCP in a service, but
      not in a container. */
  predicate UpToDate(desired: Object, current: Object) {
    MapContains(current.labels, desired.labels) &&
    match desired.spec
    case SecretSpec(secretType, data) =>
      current.spec.SecretSpec? && current.spec.secretType == secretType && current.spec.data == data
    case DeploymentSpec(replicas, selector, podAnnotations, server, _) =>
      current.spec.DeploymentSpec? && current.spec.replicas == replicas && current.spec.selector == selector
      && MapContains(current.spec.podAnnotations, podAnnotations) && current.spec.server == server
    case ServiceSpec(serviceType, selector, ports, _, _) =>
      current.spec.ServiceSpec? && current.spec.serviceType == serviceType && current.spec.selector == selector
      && FilledPorts(current.spec.ports) == FilledPorts(ports)
    case IngressSpec(rules, paths) =>
      current.spec.IngressSpec? && current.spec.rules == rules && current.spec.paths == paths
      && MapContains(current.annotations, desired.annotations)
    case _ => current == desired
  }

  function WithContainerPorts(o: Object): Object {
    match o.spec
    case DeploymentSpec(_, _, _, server, _) =>
      o.(spec := o.spec.(server := server.(ports := FilledContainerPorts(server.ports))))
    case _ => o
  }

  /** The object means what is desired: as the comparison, but with every port protocol filled in. */
  predicate Meets(desired: Object, current: Object) {
    UpToDate(WithContainerPorts(desired), WithContainerPorts(current))
  }

  predicate ContainerPortsFilled(o: Object) {
    o.spec.DeploymentSpec? ==> forall p | p in o.spec.server.ports :: p.protocol != ""
  }

  predicate FilledIn(o: Object) {
    ContainerPortsFilled(o) && NodePortsAssigned(o)
  }

  /** What the comparison overlooks in a deployment that means what is desired. */
  lemma MeetsButForPorts(desired: Object, current: Object)
    requires Meets(desired, current)
    ensures UpToDate(desired, current) <==>
      (desired.spec.DeploymentSpec? ==> current.spec.server.ports == desired.spec.server.ports)
  {}

  function NodePort(s: Spec, port: string): int {
    if s.ServiceSpec? && port in s.nodePorts then s.nodePorts[port] else 0
  }

  /** The existing service's address and node ports carried over. */
  function KeepingAddress(next: Spec, existing: Spec): Spec
    requires next.ServiceSpec? && existing.ServiceSpec?
  {
    var names := set p | p in next.ports :: p.name;
    next.(network := existing.network,
          nodePorts := map p | p in existing.nodePorts && p in names :: existing.nodePorts[p])
  }

  /** An updated service keeps the address and the node ports it had. */
  predicate SameAddress(before: Spec, after: Spec, ports: seq<Port>) {
    before.ServiceSpec? && after.ServiceSpec? ==>
      (before.network != "" ==> after.network == before.network)
      && forall p | p in ports && NodePort(before, p.name) != 0 :: NodePort(after, p.name) == NodePort(before, p.name)
  }

  /** Carrying the address over does not matter to the comparison. */
  lemma ServiceKept(service: Object, existing: Object)
    requires service.spec.ServiceSpec? && existing.spec.ServiceSpec?
    ensures UpToDate(service.(spec := KeepingAddress(service.spec, existing.spec)), existing) <==>
      Meets(service, existing)
  {}

  lemma ServiceUpdated(service: Object, existing: Object, stored: Object, fills: bool)
    requires service.spec.ServiceSpec? && existing.spec.ServiceSpec?
    requires Admits(service.(spec := KeepingAddress(service.spec, existing.spec)), stored, fills)
    ensures Meets(service, stored) && stored.labels == service.labels
    ensures SameAddress(existing.spec, stored.spec, service.spec.ports)
  {
    AdmittedIsUpToDate(service.(spec := KeepingAddress(service.spec, existing.spec)), stored, fills);
  }

  /** A deployment without a replica count runs one. */
  function ReplicaCount(s: Spec): int {
    if s.DeploymentSpec? && s.replicas.Some? then s.replicas.value else 1
  }

  function WithReplicas(o: Object, replicas: int): Object {
    if o.spec.DeploymentSpec? && ReplicaCount(o.spec) != replicas then o.(spec := o.spec.(replicas := Some(replicas)))
    else o
  }

  predicate Extends(larger: map<string, string>, smaller: map<string, string>) {
    forall k | k in smaller :: k in larger && larger[k] == smaller[k]
  }

  /** The defaults of a submitted object that the client's comparisons look at. */
  function Defaulted(sent: Object): Object {
    match sent.spec
    case ServiceSpec(_, _, ports, _, _) => sent.(spec := sent.spec.(ports := FilledPorts(ports)))
    case _ => WithContainerPorts(sent)
  }

  /** What the API server stores for a submitted object. `fills` says whether it fills in port protocols and gives out
      node ports, as a real one does. It fills in the missing network fields of a service; it fills in a deployment and
      adds annotations to it and its pods; it adds annotations to an ingress. */
  predicate Admits(sent: Object, stored: Object, fills: bool) {
    Completes(if fills then Defaulted(sent) else sent, stored) && (fills ==> NodePortsAssigned(stored))
  }

  predicate NodePortsAssigned(o: Object) {
    o.spec.ServiceSpec? && o.spec.serviceType == "NodePort" ==>
      forall p | p in o.spec.ports :: p.name in o.spec.nodePorts
  }

  predicate Completes(sent: Object, stored: Object) {
    match sent.spec
    case ServiceSpec(_, _, _, nodePorts, network) =>
      && stored.spec.ServiceSpec?
      && stored == sent.(spec := sent.spec.(nodePorts := stored.spec.nodePorts, network := stored.spec.network))
      && (network != "" ==> stored.spec.network == network)
      && forall p | p in nodePorts :: p in stored.spec.nodePorts && stored.spec.nodePorts[p] == nodePorts[p]
    case DeploymentSpec(_, _, podAnnotations, _, filled) =>
      && stored.spec.DeploymentSpec?
      && stored == sent.(annotations := stored.annotations,
                         spec := sent.spec.(podAnnotations := stored.spec.podAnnotations, filled := stored.spec.filled))
      && Extends(stored.annotations, sent.annotations) && Extends(stored.spec.podAnnotations, podAnnotations)
      && (filled != "" ==> stored.spec.filled == filled)
    case IngressSpec(_, _) =>
      stored == sent.(annotations := stored.annotations) && Extends(stored.annotations, sent.annotations)
    case _ => stored == sent
  }

  /** The API server's own idea of an object. */
  method Admit(sent: Object, fills: bool) returns (stored: Object)
    ensures Admits(sent, stored, fills)
  {
    stored := Complete(if fills then Defaulted(sent) else sent, fills);
  }

  method Complete(sent: Object, fills: bool) returns (stored: Object)
    ensures Completes(sent, stored) && (fills ==> NodePortsAssigned(stored))
  {
    stored := sent;
    match sent.spec
    case ServiceSpec(_, _, _, _, _) =>
      var given: map<string, int> := *;
      var names := set p | p in sent.spec.ports :: p.name;
      var nodePorts: map<string, Positive> := map p | p in names + given.Keys ::
        if p in given && given[p] > 0 then given[p] else 30000;
      if !fills {
        nodePorts := map p | p in given && given[p] > 0 :: given[p];
      }
      var network: string := *;
      if sent.spec.network != "" {
        network := sent.spec.network;
      }
      stored := sent.(spec := sent.spec.(nodePorts := nodePorts + sent.spec.nodePorts, network := network));
    case DeploymentSpec(_, _, _, _, _) =>
      var annotations: map<string, string> := *;
      var podAnnotations: map<string, string> := *;
      var filled: string := *;
      if sent.spec.filled != "" {
        filled := sent.spec.filled;
      }
      stored := sent.(annotations := annotations + sent.annotations,
                      spec := sent.spec.(podAnnotations := podAnnotations + sent.spec.podAnnotations,
                                         filled := filled));
    case IngressSpec(_, _) =>
      var annotations: map<string, string> := *;
      stored := sent.(annotations := annotations + sent.annotations);
    case _ =>
  }

  lemma FilledTwice(ports: seq<Port>, containerPorts: seq<ContainerPort>)
    ensures FilledPorts(FilledPorts(ports)) == FilledPorts(ports)
    ensures FilledContainerPorts(FilledContainerPorts(containerPorts)) == FilledContainerPorts(containerPorts)
  {}

  lemma CompletedIsUpToDate(sent: Object, stored: Object)
    requires Completes(sent, stored)
    ensures UpToDate(sent, stored) && Meets(sent, stored) && stored.labels == sent.labels
    ensures forall k :: Typed(k, sent) ==> Typed(k, stored)
    ensures sent.spec.DeploymentSpec? ==> stored.spec.server == sent.spec.server
  {}

  /** An object just written means what was sent, and compares as up to date unless it is a deployment and the server
      filled in a port protocol. */
  lemma AdmittedIsUpToDate(sent: Object, stored: Object, fills: bool)
    requires Admits(sent, stored, fills)
    ensures Meets(sent, stored) && stored.labels == sent.labels && (fills ==> FilledIn(stored))
    ensures UpToDate(sent, stored) <==> (fills ==> ContainerPortsFilled(sent))
    ensures forall k :: Typed(k, sent) ==> Typed(k, stored)
  {
    var completed := if fills then Defaulted(sent) else sent;
    CompletedIsUpToDate(completed, stored);
    match sent.spec
    case ServiceSpec(_, _, ports, _, _) => FilledTwice(ports, []);
    case DeploymentSpec(_, _, _, server, _) =>
      FilledTwice([], server.ports);
      if fills { FilledIsSame(server.ports); }
      assert Meets(sent, stored);
    case _ =>
  }

  lemma FilledIsSame(ports: seq<ContainerPort>)
    ensures FilledContainerPorts(ports) == ports <==> forall p | p in ports :: p.protocol != ""
    ensures forall p | p in FilledContainerPorts(ports) :: p.protocol != ""
  {
    if forall p | p in ports :: p.protocol != "" {
      assert forall i | 0 <= i < |ports| :: ports[i] in ports;
      assert FilledContainerPorts(ports) == ports;
    }
  }

  /** On a server that fills in port protocols a deployment is out of date as soon as it is written. */
  lemma DeploymentNeverUpToDate(name: string, req: Request, digest: string, stored: Object)
    requires req.image.Some? && req.resources.Some?
    requires Admits(DesiredDeployment(name, req, digest), stored, true)
    ensures stored.spec.server.ports[0] == ContainerPort("http", 8080, "TCP")
    ensures Meets(DesiredDeployment(name, req, digest), stored)
    ensures !UpToDate(DesiredDeployment(name, req, digest), stored)
  {
    var sent := DesiredDeployment(name, req, digest);
    assert sent.spec.server.ports[0] == ContainerPort("http", 8080, "");
    AdmittedIsUpToDate(sent, stored, true);
  }

  // ---- collisions between tunnels ----

  lemma SuffixCut(name: string, suffix: string)
    ensures TrimSuffix(name + suffix, suffix) == name
  {
    assert (name + suffix)[|name|..] == suffix;
  }

  lemma ResourceNameInjective(a: string, b: string)
    requires ResourceName(a) == ResourceName(b)
    ensures a == b
  {
    assert ResourceName(a)[8..] == a && ResourceName(b)[8..] == b;
  }
}
