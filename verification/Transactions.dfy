/** What a tunnel transaction of pkg/k8s/client.go has done so far and how its rollback undoes it, when nobody
    else writes to the cluster. */
module Transactions {
  import opened Text
  import opened Objects
  import opened Cluster

  datatype AuthRollback = AuthRollback(previous: Object, applied: Object)

  datatype ResourceKind = OfDeployment | OfService | OfTcpService | OfIngress | OfIssuer | OfCertificate | OfSecret
  datatype Created = Created(kind: ResourceKind, name: string)

  function KeyOf(c: Created): Key {
    match c.kind
    case OfDeployment => DeploymentKey(c.name)
    case OfService => HttpKey(c.name)
    case OfTcpService => Key(Service, c.name)
    case OfIngress => IngressKey(c.name)
    case OfIssuer => IssuerKey(c.name)
    case OfCertificate => CertificateKey(c.name)
    case OfSecret => Key(Secret, c.name)
  }

  function OwnerOf(c: Created): string {
    match c.kind
    case OfTcpService => TrimSuffix(c.name, "-tcp")
    case OfSecret => TrimSuffix(c.name, "-auth")
    case _ => c.name
  }

  /** What an ensure transaction may create or change. */
  predicate CoreKey(k: Key, name: string) {
    k == AuthKey(name) || k == IssuerKey(name) || k == CertificateKey(name) || InPlace(k, name)
  }

  /** Rollback does not undo changes in place of these. */
  predicate InPlace(k: Key, name: string) {
    k == DeploymentKey(name) || k == HttpKey(name) || k == TcpKey(name) || k == IngressKey(name)
  }

  predicate CreatedFor(c: Created, name: string) {
    OwnerOf(c) == name && CoreKey(KeyOf(c), name)
  }

  // ---- what one call does when nobody else writes ----

  /** An object was created, brought up to date, or found up to date; a failed call changed nothing. */
  ghost predicate Applied(before: Contents, after: Contents, key: Key, name: string, ok: bool, created: bool) {
    if ok then
      && key in after && Managed(after[key].content, name) && after == before[key := after[key]]
      && (created <==> key !in before) && (key in before ==> Managed(before[key].content, name))
    else after == before && !created
  }

  /** The tunnel's own object means what is desired. */
  ghost predicate Serves(s: Contents, key: Key, name: string, desired: Object) {
    At(s, key).Some? && Managed(At(s, key).value, name) && Meets(desired, At(s, key).value)
  }

  function WithoutManaged(s: Contents, key: Key, name: string): Contents {
    if key in s && Managed(s[key].content, name) then s - {key} else s
  }

  function WithoutOwnedSecret(s: Contents, secretName: string, name: string, certificate: Option<Object>): Contents {
    var key := Key(Secret, secretName);
    if key in s && (Managed(s[key].content, name) || OwnedByCertificate(s[key].content, secretName, name, certificate))
    then s - {key} else s
  }

  /** `cleanupCreated` removes from the back. */
  function CleanedUp(s: Contents, created: seq<Created>): Contents {
    if created == [] then s
    else WithoutManaged(CleanedUp(s, created[1..]), KeyOf(created[0]), OwnerOf(created[0]))
  }

  ghost predicate Restored(before: Contents, after: Contents, key: Key, name: string, snapshot: Option<Object>) {
    match snapshot
    case None => after == WithoutManaged(before, key, name)
    case Some(s) =>
      if !Managed(s, name) || (key in before && !Managed(before[key].content, name)) then after == before
      else key in after && after[key].content == s && after == before[key := after[key]]
  }

  // ---- a transaction in progress ----

  datatype Snapshots = Snapshots(issuer: Option<Object>, certificate: Option<Object>)

  /** The compensation log: what was created, the auth secret that was replaced, and the issuer and
      certificate as they were before. */
  datatype Transaction = Transaction(created: seq<Created>, auth: Option<AuthRollback>, snapshots: Option<Snapshots>)

  predicate InCreated(k: Key, created: seq<Created>) {
    exists c | c in created :: KeyOf(c) == k
  }

  predicate IsManaged(o: Option<Object>, name: string) {
    o.Some? && Managed(o.value, name)
  }

  /** The object is as before, or the tunnel's own before and after; only a stale TCP service may be gone. */
  predicate ChangedInPlace(b: Option<Object>, n: Option<Object>, mayGo: bool, name: string) {
    n == b || (IsManaged(b, name) && (if n.Some? then Managed(n.value, name) else mayGo))
  }

  /** The object is as before, or the tunnel's own now and, if there was one, before. */
  predicate Replaced(b: Option<Object>, n: Option<Object>, name: string) {
    n == b || (IsManaged(n, name) && (b.Some? ==> Managed(b.value, name)))
  }

  function SnapshotOf(s: Snapshots, k: Key): Option<Object> {
    if k.kind == Issuer then s.issuer else s.certificate
  }

  /** How one object stands in the middle of the transaction. */
  predicate Standing(b: Option<Object>, n: Option<Object>, k: Key, name: string, tx: Transaction, stale: bool) {
    if InCreated(k, tx.created) then
      && b.None? && IsManaged(n, name) && (k == AuthKey(name) ==> tx.auth.None?)
      && (k == IssuerKey(name) || k == CertificateKey(name) ==>
            tx.snapshots.Some? && SnapshotOf(tx.snapshots.value, k).None?)
    else if k == AuthKey(name) then
      match tx.auth
      case None => n == b
      case Some(r) =>
        b == Some(r.previous) && n == Some(r.applied) && Managed(r.previous, name) && Managed(r.applied, name)
    else if k == IssuerKey(name) || k == CertificateKey(name) then
      match tx.snapshots
      case None => n == b
      case Some(s) => SnapshotOf(s, k) == b && Replaced(b, n, name)
    else if InPlace(k, name) then ChangedInPlace(b, n, stale && k == TcpKey(name), name)
    else n == b
  }

  ghost predicate Progress(before: Contents, now: Contents, name: string, tx: Transaction, stale: bool) {
    && (forall c | c in tx.created :: CreatedFor(c, name))
    && forall k :: Standing(At(before, k), At(now, k), k, name, tx, stale)
  }

  function Recorded(tx: Transaction, created: bool, c: Created): Transaction {
    if created then tx.(created := tx.created + [c]) else tx
  }

  lemma KeysOfConcat(a: seq<Created>, b: seq<Created>, k: Key)
    ensures InCreated(k, a + b) <==> InCreated(k, a) || InCreated(k, b)
  {
    assert forall c :: c in a + b <==> c in a || c in b;
  }

  lemma KeysOfOne(c: Created, k: Key)
    ensures InCreated(k, [c]) <==> k == KeyOf(c)
  {
    assert c in [c];
  }

  lemma RecordedKeys(tx: Transaction, created: bool, c: Created, k: Key)
    ensures InCreated(k, Recorded(tx, created, c).created) <==> InCreated(k, tx.created) || (created && k == KeyOf(c))
  {
    KeysOfConcat(tx.created, [c], k);
    KeysOfOne(c, k);
  }

  /** Everything a rollback needs to be able to run. */
  predicate Usable(tx: Transaction, name: string) {
    && (forall c | c in tx.created :: CreatedFor(c, name))
    && (tx.auth.Some? ==> Managed(tx.auth.value.previous, name) && tx.auth.value.previous.spec.SecretSpec?)
    && (tx.snapshots.Some? && tx.snapshots.value.issuer.Some? ==> tx.snapshots.value.issuer.value.spec.IssuerSpec?)
    && (tx.snapshots.Some? && tx.snapshots.value.certificate.Some? ==>
          tx.snapshots.value.certificate.value.spec.CertificateSpec?)
  }

  lemma AuthApplied(before: Contents, next: Contents, name: string, ok: bool, created: bool,
                    rollback: Option<AuthRollback>, stale: bool)
    requires Applied(before, next, AuthKey(name), name, ok, created)
    requires rollback.Some? ==> !created && Managed(rollback.value.previous, name)
    requires rollback.Some? ==> At(before, AuthKey(name)) == Some(rollback.value.previous)
    requires rollback.Some? ==> At(next, AuthKey(name)) == Some(rollback.value.applied)
    requires ok && !created && rollback.None? ==> next == before
    ensures Progress(before, next, name,
                     Recorded(Transaction([], rollback, None), created, Created(OfSecret, AuthSecretName(name))), stale)
  {
    var tx, c := Transaction([], rollback, None), Created(OfSecret, AuthSecretName(name));
    SuffixCut(name, "-auth");
    forall k ensures Standing(At(before, k), At(next, k), k, name, Recorded(tx, created, c), stale) {
      RecordedKeys(tx, created, c, k);
    }
  }

  /** Applying one of the objects that are changed in place. */
  lemma Advance(before: Contents, now: Contents, next: Contents, name: string, tx: Transaction, c: Created,
                created: bool, stale: bool)
    requires Progress(before, now, name, tx, stale) && CreatedFor(c, name) && InPlace(KeyOf(c), name)
    requires stale ==> KeyOf(c) != TcpKey(name)
    requires Applied(now, next, KeyOf(c), name, true, created)
    ensures Progress(before, next, name, Recorded(tx, created, c), stale)
  {
    forall k ensures Standing(At(before, k), At(next, k), k, name, Recorded(tx, created, c), stale) {
      RecordedKeys(tx, created, c, k);
      assert Standing(At(before, k), At(now, k), k, name, tx, stale);
    }
  }

  /** Deleting a stale TCP service. */
  lemma StaleRemoved(before: Contents, now: Contents, name: string, tx: Transaction)
    requires Progress(before, now, name, tx, true) && At(now, TcpKey(name)) == At(before, TcpKey(name))
    ensures Progress(before, WithoutManaged(now, TcpKey(name), name), name, tx, true)
  {
    var next := WithoutManaged(now, TcpKey(name), name);
    forall k ensures Standing(At(before, k), At(next, k), k, name, tx, true) {
      assert Standing(At(before, k), At(now, k), k, name, tx, true);
    }
  }

  /** Taking the snapshots and applying issuer and certificate. */
  lemma DomainAdvance(before: Contents, now: Contents, next: Contents, name: string, tx: Transaction, ok: bool,
                      created: seq<Created>, stale: bool)
    requires Progress(before, now, name, tx, stale) && tx.snapshots.None?
    requires DomainApplied(now, next, name, ok, created) && forall c | c in created :: CreatedFor(c, name)
    requires !ok ==> created == []
    ensures Progress(before, next, name, WithDomain(tx, now, name, created), stale)
  {
    forall k ensures Standing(At(before, k), At(next, k), k, name, WithDomain(tx, now, name, created), stale) {
      KeysOfConcat(tx.created, created, k);
      assert Standing(At(before, k), At(now, k), k, name, tx, stale);
    }
  }

  function WithDomain(tx: Transaction, now: Contents, name: string, created: seq<Created>): Transaction {
    tx.(snapshots := Some(Snapshots(At(now, IssuerKey(name)), At(now, CertificateKey(name)))),
        created := tx.created + created)
  }

  /** What applying issuer and certificate leaves: a failed call may have replaced or left the issuer. */
  ghost predicate DomainApplied(before: Contents, after: Contents, name: string, ok: bool, created: seq<Created>) {
    forall k ::
      if k == IssuerKey(name) || k == CertificateKey(name)
      then Replaced(At(before, k), At(after, k), name)
           && (ok ==> (InCreated(k, created) <==> At(before, k).None? && At(after, k).Some?))
      else At(after, k) == At(before, k) && !InCreated(k, created)
  }

  /** Both written. */
  lemma DomainWritten(before: Contents, mid: Contents, after: Contents, name: string, issuer: bool, certificate: bool)
    requires Applied(before, mid, IssuerKey(name), name, true, issuer)
    requires Applied(mid, after, CertificateKey(name), name, true, certificate)
    ensures DomainApplied(before, after, name, true, DomainCreated(name, issuer, certificate))
  {
    forall k ensures InCreated(k, DomainCreated(name, issuer, certificate)) <==>
        (issuer && k == IssuerKey(name)) || (certificate && k == CertificateKey(name)) {
      DomainCreatedKeys(name, issuer, certificate, k);
    }
  }

  /** The certificate failed, and the issuer may or may not have been cleaned up. */
  lemma DomainFailed(before: Contents, mid: Contents, name: string, issuer: bool, left: nat)
    requires Applied(before, mid, IssuerKey(name), name, true, issuer)
    requires left <= |DomainCreated(name, issuer, false)|
    ensures DomainApplied(before, CleanedUp(mid, DomainCreated(name, issuer, false)[left..]), name, false, [])
  {
    var created := DomainCreated(name, issuer, false);
    var rest := created[left..];
    assert rest == [] || rest == [Created(OfIssuer, name)];
    if rest != [] {
      assert CleanedUp(mid, rest) == WithoutManaged(mid, IssuerKey(name), name);
    }
  }

  function DomainCreated(name: string, issuer: bool, certificate: bool): seq<Created> {
    (if issuer then [Created(OfIssuer, name)] else []) + (if certificate then [Created(OfCertificate, name)] else [])
  }

  lemma DomainCreatedKeys(name: string, issuer: bool, certificate: bool, k: Key)
    ensures InCreated(k, DomainCreated(name, issuer, certificate)) <==>
      (issuer && k == IssuerKey(name)) || (certificate && k == CertificateKey(name))
  {
    KeysOfConcat(if issuer then [Created(OfIssuer, name)] else [],
                 if certificate then [Created(OfCertificate, name)] else [], k);
    KeysOfOne(Created(OfIssuer, name), k);
    KeysOfOne(Created(OfCertificate, name), k);
  }

  // ---- what a successful transaction leaves ----

  datatype Hosts = Hosts(publicHost: string, sealosHost: string, customDomain: string, publicPort: int)

  function PublicHost(sealosHost: string, customDomain: string, protocol: string): string {
    if protocol == HTTPS && customDomain != "" then customDomain else sealosHost
  }

  /** The salt stored in the tunnel's auth secret. */
  function SaltOf(s: Contents, name: string): string {
    match At(s, AuthKey(name))
    case None => ""
    case Some(o) => if o.spec.SecretSpec? then Value(o.spec.data, SALT_KEY) else ""
  }

  lemma SaltStored(s: Contents, name: string, req: Request, salt: string)
    requires Serves(s, AuthKey(name), name, DesiredSecret(name, req, salt))
    ensures SaltOf(s, name) == salt
  {}

  /** All objects but one are as before. */
  ghost predicate OnlyAt(before: Contents, after: Contents, key: Key) {
    forall k :: k != key ==> At(after, k) == At(before, k)
  }

  lemma RecordedUsable(tx: Transaction, created: bool, c: Created, name: string)
    requires Usable(tx, name) && CreatedFor(c, name)
    ensures Usable(Recorded(tx, created, c), name)
  {}

  /** Secret, deployment and HTTP service are as requested; the pods carry the digest of the configuration
      under the very salt the secret holds. */
  ghost predicate CoreProvisioned(s: Contents, name: string, req: Request, digest: (string, string) -> string) {
    && SaltOf(s, name) != "" && Serves(s, AuthKey(name), name, DesiredSecret(name, req, SaltOf(s, name)))
    && req.image.Some? && req.resources.Some?
    && Serves(s, DeploymentKey(name), name, DesiredDeployment(name, req, digest(SaltOf(s, name), DigestText(req))))
    && Serves(s, HttpKey(name), name, DesiredHttpService(name))
  }

  /** The TCP service is as requested and has a public port, or is not the tunnel's. */
  ghost predicate TcpProvisioned(s: Contents, name: string, req: Request) {
    if RawTCP(req) then Serves(s, TcpKey(name), name, DesiredTcpService(name))
    else !IsManaged(At(s, TcpKey(name)), name)
  }

  ghost predicate DomainProvisioned(s: Contents, name: string, req: Request, email: string) {
    WantsDomain(req) ==>
      At(s, IssuerKey(name)) == Some(DesiredIssuer(name, email))
      && At(s, CertificateKey(name)) == Some(DesiredCertificate(name, req.customDomain))
  }

  // ---- what a repeated ensure finds in place ----

  ghost predicate AuthInPlace(s: Contents, name: string, req: Request) {
    SaltOf(s, name) != "" && Serves(s, AuthKey(name), name, DesiredSecret(name, req, SaltOf(s, name)))
  }

  ghost predicate DeploymentServes(s: Contents, name: string, req: Request, salt: string,
                                   digest: (string, string) -> string) {
    req.image.Some? && req.resources.Some?
    && Serves(s, DeploymentKey(name), name, DesiredDeployment(name, req, digest(salt, DigestText(req))))
  }

  /** The stored container ports are those the client sends, with nothing filled in. */
  predicate PortsAsSent(s: Contents, name: string, req: Request) {
    match At(s, DeploymentKey(name))
    case None => false
    case Some(o) => o.spec.DeploymentSpec? && o.spec.server.ports == ContainerPorts(req)
  }

  /** Nothing but the deployment was written, and the deployment exactly when its stored ports were filled in. */
  ghost predicate Redeployed(before: Contents, after: Contents, name: string, req: Request) {
    && DeploymentKey(name) in after && after == before[DeploymentKey(name) := after[DeploymentKey(name)]]
    && (after == before <==> PortsAsSent(before, name, req))
  }

  /** A deployment ensured: it serves the request, its ports tell whether the server fills them in, and nothing was
      written exactly when it already served the request and its ports had not been filled in. What was written owes
      nothing to the deployment found. */
  ghost predicate Deployed(before: Contents, after: Contents, name: string, req: Request, salt: string,
                           digest: (string, string) -> string, fills: bool) {
    && DeploymentServes(after, name, req, salt, digest) && (PortsAsSent(after, name, req) <==> !fills)
    && after == before[DeploymentKey(name) := after[DeploymentKey(name)]]
    && (Entry(after, DeploymentKey(name)) == Entry(before, DeploymentKey(name)) <==>
          DeploymentServes(before, name, req, salt, digest) && PortsAsSent(before, name, req))
    && (Entry(after, DeploymentKey(name)) != Entry(before, DeploymentKey(name)) ==>
          Admits(DesiredDeployment(name, req, digest(salt, DigestText(req))), At(after, DeploymentKey(name)).value,
                 fills))
  }

  lemma DeployedThere(before: Contents, after: Contents, name: string, req: Request, salt: string,
                      digest: (string, string) -> string, fills: bool)
    requires Deployed(before, after, name, req, salt, digest, fills)
    ensures OnlyAt(before, after, DeploymentKey(name))
    ensures req.image.Some? && req.resources.Some?
  {}

  lemma DeploymentFound(s: Contents, name: string, req: Request, salt: string, digest: (string, string) -> string,
                        fills: bool)
    requires req.image.Some? && req.resources.Some? && IsManaged(At(s, DeploymentKey(name)), name)
    requires UpToDate(DesiredDeployment(name, req, digest(salt, DigestText(req))), At(s, DeploymentKey(name)).value)
    requires fills ==> FilledIn(At(s, DeploymentKey(name)).value)
    ensures Deployed(s, s, name, req, salt, digest, fills)
  {
    FoundPorts(name, req, digest(salt, DigestText(req)), At(s, DeploymentKey(name)).value);
    if PortsAsSent(s, name, req) { NotYetFilled(s, name, req); }
  }

  lemma DeploymentWritten(s: Contents, t: Contents, name: string, req: Request, salt: string,
                          digest: (string, string) -> string, fills: bool)
    requires req.image.Some? && req.resources.Some? && DeploymentKey(name) in t && t != s
    requires t == s[DeploymentKey(name) := t[DeploymentKey(name)]]
    requires var desired := DesiredDeployment(name, req, digest(salt, DigestText(req)));
      && Admits(desired, t[DeploymentKey(name)].content, fills)
      && (DeploymentKey(name) in s ==> !UpToDate(desired, s[DeploymentKey(name)].content))
    ensures Deployed(s, t, name, req, salt, digest, fills)
  {
    var desired := DesiredDeployment(name, req, digest(salt, DigestText(req)));
    AdmittedIsUpToDate(desired, t[DeploymentKey(name)].content, fills);
    FoundPorts(name, req, digest(salt, DigestText(req)), t[DeploymentKey(name)].content);
    if fills { DeploymentNeverUpToDate(name, req, digest(salt, DigestText(req)), t[DeploymentKey(name)].content); }
    if DeploymentKey(name) in s {
      FoundPorts(name, req, digest(salt, DigestText(req)), s[DeploymentKey(name)].content);
    }
  }

  /** When the comparison is satisfied with a deployment. */
  lemma FoundPorts(name: string, req: Request, digest: string, current: Object)
    requires req.image.Some? && req.resources.Some?
    ensures var desired := DesiredDeployment(name, req, digest);
      UpToDate(desired, current) <==>
        Meets(desired, current) && current.spec.DeploymentSpec? && current.spec.server.ports == ContainerPorts(req)
  {
    var desired := DesiredDeployment(name, req, digest);
    if UpToDate(desired, current) { assert Meets(desired, current); }
    if Meets(desired, current) { MeetsButForPorts(desired, current); }
  }

  lemma RedeployedKeeps(s: Contents, t: Contents, name: string, req: Request, key: Key)
    requires Redeployed(s, t, name, req) && key != DeploymentKey(name)
    ensures At(t, key) == At(s, key)
  {}

  lemma NotYetFilled(s: Contents, name: string, req: Request)
    requires PortsAsSent(s, name, req)
    ensures !ContainerPortsFilled(At(s, DeploymentKey(name)).value)
  {
    assert ContainerPorts(req)[0] == ContainerPort("http", 8080, "");
  }

  lemma ServedElsewhere(s: Contents, t: Contents, key: Key, name: string, desired: Object)
    requires Serves(s, key, name, desired) && At(t, key) == At(s, key)
    ensures Serves(t, key, name, desired)
  {}

  lemma CoreComplete(s: Contents, t: Contents, u: Contents, name: string, req: Request, salt: string,
                     digest: (string, string) -> string)
    requires req.image.Some? && req.resources.Some? && salt != ""
    requires Serves(s, AuthKey(name), name, DesiredSecret(name, req, salt))
    requires OnlyAt(s, t, DeploymentKey(name)) && OnlyAt(t, u, HttpKey(name))
    requires Serves(t, DeploymentKey(name), name, DesiredDeployment(name, req, digest(salt, DigestText(req))))
    requires Serves(u, HttpKey(name), name, DesiredHttpService(name))
    ensures CoreProvisioned(u, name, req, digest)
  {
    ServedElsewhere(s, t, AuthKey(name), name, DesiredSecret(name, req, salt));
    ServedElsewhere(t, u, AuthKey(name), name, DesiredSecret(name, req, salt));
    SaltStored(u, name, req, salt);
  }

  /** The core of a second ensure: the secret is found in place, then the deployment, then the service. */
  lemma CoreRepeated(s: Contents, t: Contents, u: Contents, v: Contents, name: string, req: Request, salt: string,
                     digest: (string, string) -> string, fills: bool)
    requires AuthInPlace(s, name, req) ==> t == s && salt == SaltOf(s, name)
    requires Deployed(t, u, name, req, salt, digest, fills)
    requires Serves(u, HttpKey(name), name, DesiredHttpService(name)) ==> v == u
    requires OnlyAt(u, v, HttpKey(name))
    ensures PortsAsSent(v, name, req) <==> !fills
    ensures CoreProvisioned(s, name, req, digest) ==> Redeployed(s, v, name, req)
  {
    if CoreProvisioned(s, name, req, digest) {
      RedeployedKeeps(t, u, name, req, HttpKey(name));
      ServedElsewhere(t, u, HttpKey(name), name, DesiredHttpService(name));
    }
  }

  /** The secret ensured, then the deployment, then the service. */
  lemma CoreEnsured(s: Contents, t: Contents, u: Contents, v: Contents, name: string, req: Request, salt: string,
                    digest: (string, string) -> string, fills: bool)
    requires OnlyAt(s, t, AuthKey(name)) && salt != "" && Serves(t, AuthKey(name), name, DesiredSecret(name, req, salt))
    requires AuthInPlace(s, name, req) ==> t == s && salt == SaltOf(s, name)
    requires Deployed(t, u, name, req, salt, digest, fills)
    requires OnlyAt(u, v, HttpKey(name)) && Serves(v, HttpKey(name), name, DesiredHttpService(name))
    requires Serves(u, HttpKey(name), name, DesiredHttpService(name)) ==> v == u
    ensures At(v, TcpKey(name)) == At(s, TcpKey(name))
    ensures CoreProvisioned(v, name, req, digest) && (PortsAsSent(v, name, req) <==> !fills)
    ensures CoreProvisioned(s, name, req, digest) ==> Redeployed(s, v, name, req)
  {
    DeployedThere(t, u, name, req, salt, digest, fills);
    CoreComplete(t, u, v, name, req, salt, digest);
    CoreRepeated(s, t, u, v, name, req, salt, digest, fills);
  }

  lemma IngressRepeated(s: Contents, t: Contents, u: Contents, name: string, req: Request, ingress: Object)
    requires OnlyAt(t, u, IngressKey(name))
    requires Serves(t, IngressKey(name), name, ingress) ==> u == t
    ensures PortsAsSent(u, name, req) <==> PortsAsSent(t, name, req)
    ensures Serves(s, IngressKey(name), name, ingress) && Redeployed(s, t, name, req) ==> Redeployed(s, u, name, req)
  {
    if Serves(s, IngressKey(name), name, ingress) && Redeployed(s, t, name, req) {
      RedeployedKeeps(s, t, name, req, IngressKey(name));
      ServedElsewhere(s, t, IngressKey(name), name, ingress);
    }
  }

  predicate KeepsCore(s: Contents, t: Contents, name: string) {
    && At(t, AuthKey(name)) == At(s, AuthKey(name)) && At(t, DeploymentKey(name)) == At(s, DeploymentKey(name))
    && At(t, HttpKey(name)) == At(s, HttpKey(name))
  }

  lemma TcpKeepsCore(s: Contents, t: Contents, name: string, ok: bool, created: bool)
    requires Applied(s, t, TcpKey(name), name, ok, created) || t == WithoutManaged(s, TcpKey(name), name) || t == s
    ensures KeepsCore(s, t, name)
  {}

  lemma DomainKeepsCore(s: Contents, t: Contents, name: string, ok: bool, created: seq<Created>)
    requires DomainApplied(s, t, name, ok, created)
    ensures KeepsCore(s, t, name) && At(t, TcpKey(name)) == At(s, TcpKey(name))
  {}

  lemma CoreStays(s: Contents, t: Contents, name: string, req: Request, digest: (string, string) -> string)
    requires CoreProvisioned(s, name, req, digest) && KeepsCore(s, t, name)
    ensures CoreProvisioned(t, name, req, digest)
  {
    assert SaltOf(t, name) == SaltOf(s, name);
  }

  ghost predicate BackendProvisioned(s: Contents, name: string, req: Request, digest: (string, string) -> string,
                                     email: string) {
    CoreProvisioned(s, name, req, digest) && TcpProvisioned(s, name, req) && DomainProvisioned(s, name, req, email)
  }

  lemma BackendStays(s: Contents, t: Contents, name: string, req: Request, digest: (string, string) -> string,
                     email: string)
    requires BackendProvisioned(s, name, req, digest, email) && OnlyAt(s, t, IngressKey(name))
    ensures BackendProvisioned(t, name, req, digest, email)
  {
    CoreStays(s, t, name, req, digest);
  }

  /** Everything the request asks for is there, labelled for the tunnel. */
  ghost predicate Provisioned(s: Contents, name: string, req: Request,
                              digest: (string, string) -> string, email: string, annotations: map<string, string>)
  {
    && BackendProvisioned(s, name, req, digest, email)
    && Serves(s, IngressKey(name), name,
              DesiredIngress(name, req.sealosHost, req.customDomain, Protocol(req), annotations))
  }

  /** The hosts of a request, before a public port is known. */
  function HostsFor(req: Request): Hosts {
    Hosts(PublicHost(req.sealosHost, req.customDomain, Protocol(req)), req.sealosHost, req.customDomain, 0)
  }

  /** The hosts a successful transaction reports, the public port being the one the cluster gave out. */
  ghost predicate Reported(s: Contents, name: string, req: Request, hosts: Hosts) {
    && hosts.publicHost == PublicHost(req.sealosHost, req.customDomain, Protocol(req))
    && hosts.sealosHost == req.sealosHost && hosts.customDomain == req.customDomain
    && (if RawTCP(req) then At(s, TcpKey(name)).Some?
        && hosts.publicPort == NodePort(At(s, TcpKey(name)).value.spec, "tcp") != 0
        else hosts.publicPort == 0)
  }

  /** Only core objects differ, and those are the tunnel's own before and after. */
  ghost predicate Within(before: Contents, after: Contents, name: string) {
    forall k ::
      At(after, k) == At(before, k)
      || (CoreKey(k, name) && (At(before, k).Some? ==> IsManaged(At(before, k), name))
          && (At(after, k).Some? ==> IsManaged(At(after, k), name)))
  }

  lemma ProgressWithin(before: Contents, now: Contents, name: string, tx: Transaction, stale: bool)
    requires Progress(before, now, name, tx, stale)
    ensures Within(before, now, name)
  {
    forall k ensures At(now, k) == At(before, k)
      || (CoreKey(k, name) && (At(before, k).Some? ==> IsManaged(At(before, k), name))
          && (At(now, k).Some? ==> IsManaged(At(now, k), name)))
    {
      assert Standing(At(before, k), At(now, k), k, name, tx, stale);
    }
  }

  lemma CreatedAreManaged(before: Contents, now: Contents, name: string, tx: Transaction, stale: bool)
    requires Progress(before, now, name, tx, stale)
    ensures forall c | c in tx.created && KeyOf(c) in now :: Managed(now[KeyOf(c)].content, OwnerOf(c))
  {
    forall c | c in tx.created && KeyOf(c) in now ensures Managed(now[KeyOf(c)].content, OwnerOf(c)) {
      assert InCreated(KeyOf(c), tx.created);
      assert Standing(At(before, KeyOf(c)), At(now, KeyOf(c)), KeyOf(c), name, tx, stale);
    }
  }

  // ---- when a call can succeed ----

  /** Nobody else's object is under the key. */
  predicate Free(s: Contents, key: Key, name: string) {
    At(s, key).Some? ==> Managed(At(s, key).value, name)
  }

  predicate CoreFree(s: Contents, name: string, req: Request) {
    && req.image.Some? && req.resources.Some?
    && Free(s, AuthKey(name), name) && Free(s, DeploymentKey(name), name) && Free(s, HttpKey(name), name)
  }

  /** The TLS secret is absent, the tunnel's own, or made by its certificate. */
  predicate SlotFree(s: Contents, name: string) {
    At(s, TlsKey(name)).Some? ==>
      Managed(At(s, TlsKey(name)).value, name)
      || OwnedByCertificate(At(s, TlsKey(name)).value, name, name, At(s, CertificateKey(name)))
  }

  predicate DomainFree(s: Contents, name: string) {
    SlotFree(s, name) && Free(s, IssuerKey(name), name) && Free(s, CertificateKey(name), name)
  }

  predicate BackendFree(s: Contents, name: string, req: Request) {
    && CoreFree(s, name, req) && (RawTCP(req) ==> Free(s, TcpKey(name), name))
    && (WantsDomain(req) ==> DomainFree(s, name))
  }

  /** Nothing in the cluster stands in the way of the request. */
  predicate Provisionable(s: Contents, name: string, req: Request) {
    && BackendFree(s, name, req) && Free(s, IngressKey(name), name)
    && Routable(Protocol(req), req.customDomain)
  }

  predicate Routable(protocol: string, customDomain: string) {
    protocol == HTTPS || (customDomain == "" && (protocol == SSH || protocol == TCP))
  }

  predicate CorePresent(s: Contents, name: string) {
    IsManaged(At(s, DeploymentKey(name)), name) && IsManaged(At(s, HttpKey(name)), name)
  }

  /** The replaced secret can still be put back. */
  predicate StillApplied(s: Contents, name: string, rollback: AuthRollback) {
    IsManaged(At(s, AuthKey(name)), name) && UpToDate(rollback.applied, At(s, AuthKey(name)).value)
  }

  predicate HasPublicPort(s: Contents, name: string) {
    At(s, TcpKey(name)).Some? && NodePort(At(s, TcpKey(name)).value.spec, "tcp") != 0
  }

  /** A server that gives out node ports gives the TCP service one. */
  lemma PublicPortGiven(s: Contents, name: string)
    requires Serves(s, TcpKey(name), name, DesiredTcpService(name)) && NodePortsAssigned(At(s, TcpKey(name)).value)
    ensures HasPublicPort(s, name)
  {
    var o := At(s, TcpKey(name)).value;
    assert FilledPorts(o.spec.ports) == FilledPorts(DesiredTcpService(name).spec.ports);
    assert |o.spec.ports| == |FilledPorts(o.spec.ports)| == 1;
    assert o.spec.ports[0].name == FilledPorts(o.spec.ports)[0].name == "tcp" && o.spec.ports[0] in o.spec.ports;
  }

  /** The tunnel is there, and nothing stands in the way of a custom domain. */
  predicate Configurable(s: Contents, name: string, customDomain: string) {
    && CorePresent(s, name) && (customDomain != "" ==> DomainFree(s, name)) && Free(s, IngressKey(name), name)
  }

  lemma Reflexive(o: Object)
    ensures UpToDate(o, o)
  {}

  /** The replaced secret is still in place when a rollback starts. */
  lemma SecretStillApplied(before: Contents, now: Contents, name: string, tx: Transaction, stale: bool)
    requires Progress(before, now, name, tx, stale) && tx.auth.Some?
    requires forall c | c in tx.created && KeyOf(c) in now :: Managed(now[KeyOf(c)].content, OwnerOf(c))
    ensures StillApplied(CleanedUp(now, tx.created), name, tx.auth.value)
  {
    assert Standing(At(before, AuthKey(name)), At(now, AuthKey(name)), AuthKey(name), name, tx, stale);
    CleanedUpAt(now, tx.created, AuthKey(name));
    Reflexive(tx.auth.value.applied);
  }

  /** A transaction in progress neither frees a key nor blocks one. */
  lemma FreeKept(before: Contents, now: Contents, name: string, tx: Transaction, stale: bool, key: Key)
    requires Progress(before, now, name, tx, stale)
    ensures Free(now, key, name) <==> Free(before, key, name)
  {
    assert Standing(At(before, key), At(now, key), key, name, tx, stale);
  }

  lemma DomainFreeKept(before: Contents, now: Contents, name: string, tx: Transaction, stale: bool)
    requires Progress(before, now, name, tx, stale) && tx.snapshots.None?
    ensures DomainFree(now, name) <==> DomainFree(before, name)
  {
    assert Standing(At(before, TlsKey(name)), At(now, TlsKey(name)), TlsKey(name), name, tx, stale);
    assert Standing(At(before, IssuerKey(name)), At(now, IssuerKey(name)), IssuerKey(name), name, tx, stale);
    assert Standing(At(before, CertificateKey(name)), At(now, CertificateKey(name)), CertificateKey(name), name, tx,
                    stale);
    TlsIsNotCreated(name, tx);
  }

  lemma TlsIsNotCreated(name: string, tx: Transaction)
    requires forall c | c in tx.created :: CreatedFor(c, name)
    ensures !InCreated(TlsKey(name), tx.created)
  {}

  // ---- rolling back ----

  /** A restored object. */
  function RestoredAt(n: Option<Object>, name: string, snapshot: Option<Object>): Option<Object> {
    match snapshot
    case None => if IsManaged(n, name) then None else n
    case Some(s) => if !Managed(s, name) || (n.Some? && !Managed(n.value, name)) then n else snapshot
  }

  /** One object after a rollback that reported no error. */
  function Undone(n: Option<Object>, k: Key, name: string, tx: Transaction): Option<Object> {
    var cleaned := if InCreated(k, tx.created) then None else n;
    if k == AuthKey(name) && tx.auth.Some? then Some(tx.auth.value.previous)
    else if (k == IssuerKey(name) || k == CertificateKey(name)) && tx.snapshots.Some?
    then RestoredAt(cleaned, name, SnapshotOf(tx.snapshots.value, k))
    else cleaned
  }

  /** Every object is as it was before, except for the deployment, the services and the ingress that existed:
      those may be left updated, and a stale TCP service of the tunnel may be gone. Nothing new is left. */
  ghost predicate RolledBack(before: Contents, after: Contents, name: string, stale: bool) {
    forall k ::
      if InPlace(k, name) then ChangedInPlace(At(before, k), At(after, k), stale && k == TcpKey(name), name)
      else At(after, k) == At(before, k)
  }

  lemma {:induction false} CleanedUpAt(s: Contents, created: seq<Created>, k: Key)
    requires forall c | c in created && KeyOf(c) in s :: Managed(s[KeyOf(c)].content, OwnerOf(c))
    ensures At(CleanedUp(s, created), k) == if InCreated(k, created) then None else At(s, k)
    decreases |created|
  {
    if created != [] {
      assert created == [created[0]] + created[1..] && created[0] in created;
      KeysOfConcat([created[0]], created[1..], k);
      KeysOfOne(created[0], k);
      CleanedUpAt(s, created[1..], k);
      CleanedUpAt(s, created[1..], KeyOf(created[0]));
    }
  }

  /** Undoing a transaction in progress brings back what was there before. */
  lemma UndoneIsRolledBack(before: Contents, now: Contents, after: Contents, name: string, tx: Transaction, stale: bool)
    requires Progress(before, now, name, tx, stale)
    requires forall k :: At(after, k) == Undone(At(now, k), k, name, tx)
    ensures RolledBack(before, after, name, stale)
  {
    forall k
      ensures if InPlace(k, name) then ChangedInPlace(At(before, k), At(after, k), stale && k == TcpKey(name), name)
              else At(after, k) == At(before, k)
    {
      assert Standing(At(before, k), At(now, k), k, name, tx, stale);
      assert At(after, k) == Undone(At(now, k), k, name, tx);
    }
  }

  lemma RestoredAtKey(s: Contents, t: Contents, key: Key, name: string, snapshot: Option<Object>, k: Key)
    requires Restored(s, t, key, name, snapshot)
    ensures At(t, k) == if k == key then RestoredAt(At(s, k), name, snapshot) else At(s, k)
  {}

  /** Cleaning up what was created, step by step, lands where `Undone` says. */
  lemma UndoneStepByStep(now: Contents, cleaned: Contents, authRestored: Contents, issuerRestored: Contents,
                         after: Contents,
                         name: string, tx: Transaction)
    requires forall c | c in tx.created && KeyOf(c) in now :: Managed(now[KeyOf(c)].content, OwnerOf(c))
    requires cleaned == CleanedUp(now, tx.created)
    requires tx.auth.None? ==> authRestored == cleaned
    requires tx.auth.Some? ==>
      OnlyAt(cleaned, authRestored, AuthKey(name)) && At(authRestored, AuthKey(name)) == Some(tx.auth.value.previous)
    requires tx.snapshots.None? ==> issuerRestored == authRestored && after == issuerRestored
    requires tx.snapshots.Some? ==>
      Restored(authRestored, issuerRestored, IssuerKey(name), name, tx.snapshots.value.issuer)
    requires tx.snapshots.Some? ==>
      Restored(issuerRestored, after, CertificateKey(name), name, tx.snapshots.value.certificate)
    ensures forall k :: At(after, k) == Undone(At(now, k), k, name, tx)
  {
    forall k ensures At(after, k) == Undone(At(now, k), k, name, tx) {
      CleanedUpAt(now, tx.created, k);
      if tx.snapshots.Some? {
        RestoredAtKey(authRestored, issuerRestored, IssuerKey(name), name, tx.snapshots.value.issuer, k);
        RestoredAtKey(issuerRestored, after, CertificateKey(name), name, tx.snapshots.value.certificate, k);
      }
    }
  }

  // ---- scaling ----

  /** The tunnel's own deployment runs so many replicas, and is otherwise what it was, but for what the server adds. */
  ghost predicate Scaled(before: Contents, after: Contents, name: string, replicas: int, fills: bool) {
    var key := DeploymentKey(name);
    && OnlyAt(before, after, key) && IsManaged(At(before, key), name) && At(after, key).Some?
    && At(after, key).value.spec.DeploymentSpec?
    && (At(after, key).value.spec.replicas == Some(replicas)
        || (At(after, key).value.spec.replicas == None && replicas == 1))
    && (if ReplicaCount(At(before, key).value.spec) == replicas then after == before
        else Admits(WithReplicas(At(before, key).value, replicas), At(after, key).value, fills))
  }

  lemma ScaleWritten(before: Contents, after: Contents, name: string, replicas: int, fills: bool)
    requires var key := DeploymentKey(name);
      && key in before && key in after && after == before[key := after[key]]
      && Managed(before[key].content, name) && before[key].content.spec.DeploymentSpec?
      && ReplicaCount(before[key].content.spec) != replicas
      && Admits(WithReplicas(before[key].content, replicas), after[key].content, fills)
    ensures Scaled(before, after, name, replicas, fills)
  {
    AdmittedIsUpToDate(WithReplicas(At(before, DeploymentKey(name)).value, replicas),
                       At(after, DeploymentKey(name)).value, fills);
  }

  // ---- cleaning a tunnel up ----

  /** What `CleanupTunnel` removes: the tunnel's labelled objects, its TLS secret if its certificate owns it,
      and its ACME account key if its issuer still names it. */
  predicate Disposable(s: Contents, k: Key, name: string) {
    At(s, k).Some? && OwnKey(k, name) &&
    if k == TlsKey(name) then
      Managed(At(s, k).value, name) || OwnedByCertificate(At(s, k).value, name, name, At(s, CertificateKey(name)))
    else if k == AccountKey(name) then
      NamesAccountKey(At(s, IssuerKey(name)), name)
        && (Managed(At(s, k).value, name) || RefersToIssuer(At(s, k).value, name))
    else Managed(At(s, k).value, name)
  }

  predicate NamesAccountKey(issuer: Option<Object>, name: string) {
    IsManaged(issuer, name) && issuer.value.spec.IssuerSpec?
      && issuer.value.spec.accountKey == Some(AccountKeyName(name))
  }

  /** The ACME account key goes with an issuer of the tunnel that names it, if the secret is the tunnel's or was made
      for the issuer. */
  lemma WhenAccountKeyGoes(s: Contents, name: string)
    ensures var issuer, secret := At(s, IssuerKey(name)), At(s, Key(Secret, "letsencrypt-prod-" + name));
      Disposable(s, Key(Secret, "letsencrypt-prod-" + name), name) <==>
        && secret.Some? && IsManaged(issuer, name)
        && (exists email :: issuer.value.spec == IssuerSpec(email, Some("letsencrypt-prod-" + name)))
        && (Value(secret.value.labels, "cloud.sealos.io/app-deploy-manager") == name
            || exists r | r in secret.value.owners :: CertManagerOwner(r, "Issuer", name))
  {
    var issuer, secret := At(s, IssuerKey(name)), At(s, Key(Secret, "letsencrypt-prod-" + name));
    assert AccountKey(name) == Key(Secret, "letsencrypt-prod-" + name) && |"letsencrypt-prod-" + name| > |name|;
    if issuer.Some? && issuer.value.spec.IssuerSpec? {
      assert issuer.value.spec == IssuerSpec(issuer.value.spec.email, issuer.value.spec.accountKey);
    }
    if secret.Some? {
      assert forall r | r in secret.value.owners :: CertManagerOwner(r, "Issuer", name) ==>
        RefersToIssuer(secret.value, name);
      if RefersToIssuer(secret.value, name) {
        var r :| r in secret.value.owners && r.name == name && r.kind == "Issuer"
          && HasPrefix(r.apiVersion, "cert-manager.io/");
        assert CertManagerOwner(r, "Issuer", name);
      }
    }
  }

  /** The keys `ClearCustomDomain` cleans. */
  predicate DomainKey(k: Key, name: string) {
    k == IssuerKey(name) || k == CertificateKey(name) || k == TlsKey(name) || k == AccountKey(name)
  }

  ghost predicate Cleared(before: Contents, after: Contents, name: string) {
    forall k :: At(after, k) == if Disposable(before, k, name) then None else At(before, k)
  }

  ghost predicate DomainCleared(before: Contents, after: Contents, name: string) {
    forall k :: At(after, k) == if DomainKey(k, name) && Disposable(before, k, name) then None else At(before, k)
  }

  lemma ClearedStepByStep(s: Contents, s1: Contents, s2: Contents, s3: Contents, t: Contents, name: string)
    requires s1 == WithoutManaged(s, CertificateKey(name), name)
    requires s2 == WithoutOwnedSecret(s1, name, name, At(s, CertificateKey(name)))
    requires s3 == WithoutManaged(s2, IssuerKey(name), name)
    requires t == WithoutAccountKey(s3, name, At(s, IssuerKey(name)))
    ensures DomainCleared(s, t, name)
  {}

  function WithoutAccountKey(s: Contents, name: string, issuer: Option<Object>): Contents {
    var key := AccountKey(name);
    if NamesAccountKey(issuer, name) && key in s
      && (Managed(s[key].content, name) || RefersToIssuer(s[key].content, name))
    then s - {key} else s
  }

  /** Secret, deployment and HTTP service. */
  function PodsCleaned(s: Contents, name: string): Contents {
    WithoutManaged(WithoutManaged(WithoutOwnedSecret(s, AuthSecretName(name), name, None), DeploymentKey(name), name),
                   HttpKey(name), name)
  }

  /** TCP service and ingresses. */
  function RoutesCleaned(s: Contents, name: string): Contents {
    WithoutManaged(WithoutManaged(WithoutManaged(s, TcpKey(name), name), IngressKey(name), name),
                   AppIngressKey(name), name)
  }

  function CoreCleaned(s: Contents, name: string): Contents {
    RoutesCleaned(PodsCleaned(s, name), name)
  }

  lemma PodsCleanedAt(s: Contents, name: string, k: Key)
    ensures At(PodsCleaned(s, name), k) ==
      if (k == AuthKey(name) || k == DeploymentKey(name) || k == HttpKey(name)) && IsManaged(At(s, k), name) then None
      else At(s, k)
  {}

  lemma RoutesCleanedAt(s: Contents, name: string, k: Key)
    ensures At(RoutesCleaned(s, name), k) ==
      if (k == TcpKey(name) || k == IngressKey(name) || k == AppIngressKey(name)) && IsManaged(At(s, k), name) then None
      else At(s, k)
  {}

  lemma CoreCleanedAt(s: Contents, name: string, k: Key)
    ensures At(CoreCleaned(s, name), k) ==
      if OwnKey(k, name) && !DomainKey(k, name) && IsManaged(At(s, k), name) then None else At(s, k)
  {
    PodsCleanedAt(s, name, k);
    RoutesCleanedAt(PodsCleaned(s, name), name, k);
  }

  /** The ingress rewritten first, then the custom domain's resources cleaned up. */
  lemma DomainClearedAfterIngress(s: Contents, mid: Contents, t: Contents, name: string, k: Key)
    requires OnlyAt(s, mid, IngressKey(name)) && DomainCleared(mid, t, name)
    ensures At(t, k) == if DomainKey(k, name) && Disposable(s, k, name) then None else At(mid, k)
  {
    assert At(mid, CertificateKey(name)) == At(s, CertificateKey(name));
    assert At(mid, IssuerKey(name)) == At(s, IssuerKey(name));
    assert k != IngressKey(name) ==> At(mid, k) == At(s, k);
  }

  /** The ingress without the custom domain, and exactly the domain's disposable objects gone. */
  ghost predicate DomainGone(before: Contents, after: Contents, name: string, ingress: Object) {
    && Serves(after, IngressKey(name), name, ingress)
    && forall k | k != IngressKey(name) ::
         At(after, k) == if DomainKey(k, name) && Disposable(before, k, name) then None else At(before, k)
  }

  lemma ClearComplete(s: Contents, mid: Contents, t: Contents, name: string, ingress: Object)
    requires OnlyAt(s, mid, IngressKey(name)) && Serves(mid, IngressKey(name), name, ingress)
    requires DomainCleared(mid, t, name)
    ensures DomainGone(s, t, name, ingress)
  {
    forall k ensures At(t, k) == if DomainKey(k, name) && Disposable(s, k, name) then None else At(mid, k) {
      DomainClearedAfterIngress(s, mid, t, name, k);
    }
  }

  lemma AppliedIsLocal(s: Contents, t: Contents, key: Key, name: string, ok: bool, created: bool)
    requires Applied(s, t, key, name, ok, created)
    ensures OnlyAt(s, t, key)
  {}

  lemma AllCleared(s: Contents, mid: Contents, name: string)
    requires DomainCleared(s, mid, name)
    ensures Cleared(s, CoreCleaned(mid, name), name)
  {
    forall k ensures At(CoreCleaned(mid, name), k) == if Disposable(s, k, name) then None else At(s, k) {
      CoreCleanedAt(mid, name, k);
    }
  }

  /** Ensuring a tunnel that had nothing in the cluster and cleaning it up again brings every object back. */
  lemma EnsureThenCleanup(before: Contents, ensured: Contents, after: Contents, name: string)
    requires forall k :: OwnKey(k, name) ==> At(before, k).None?
    requires Within(before, ensured, name) && Cleared(ensured, after, name)
    ensures forall k :: At(after, k) == At(before, k)
  {
    forall k ensures At(after, k) == At(before, k) {
      assert At(ensured, k) == At(before, k) || CoreKey(k, name);
    }
  }
}
