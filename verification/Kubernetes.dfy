/** The tunnel transactions of pkg/k8s/client.go over the API server. */
module Kubernetes {
  import opened Text
  import opened Objects
  import opened Cluster
  import opened Transactions
  import opened RemoteState
  import Sessions

  const CONFLICT_RETRIES := 5

  class Client {
    const api: ApiServer
    const digest: (string, string) -> string
    const email: string
    const ingressAnnotations: map<string, string>

    constructor (api: ApiServer, digest: (string, string) -> string, email: string, ingressAnnotations: map<string,
                 string>)
      ensures this.api == api && this.digest == digest && this.email == email
        && this.ingressAnnotations == ingressAnnotations
    {
      this.api, this.digest, this.email, this.ingressAnnotations := api, digest, email, ingressAnnotations;
    }

    // ---- create or update ----

    /** Keeps the salt of an existing secret, so the digest of an unchanged configuration is stable. */
    method EnsureAuthSecret(name: string, req: Request, newSalt: string)
      returns (ok: bool, created: bool, rollback: Option<AuthRollback>, salt: string)
      requires api.Valid() && newSalt != ""
      modifies api
      ensures api.Valid() && api.Acted(name)
      ensures !api.shared ==> Applied(old(api.contents), api.contents, AuthKey(name), name, ok, created)
      ensures !api.shared && ok ==>
        salt != "" && Serves(api.contents, AuthKey(name), name, DesiredSecret(name, req, salt))
      ensures rollback.Some? ==>
        ok && !created && Managed(rollback.value.previous, name) && rollback.value.previous.spec.SecretSpec?
      ensures !api.shared && rollback.Some? ==>
        At(old(api.contents), AuthKey(name)) == Some(rollback.value.previous)
          && At(api.contents, AuthKey(name)) == Some(rollback.value.applied)
      ensures !api.shared && ok && !created && rollback.None? ==> api.contents == old(api.contents)
      ensures !api.shared && ok && SaltOf(old(api.contents), name) != "" ==> salt == SaltOf(old(api.contents), name)
      ensures !api.shared && AuthInPlace(old(api.contents), name, req) ==> api.contents == old(api.contents)
      ensures !api.shared && api.healthy ==> (ok <==> Free(old(api.contents), AuthKey(name), name))
    {
      var key := AuthKey(name);
      ok, created, rollback := false, false, None;
      var existing := api.Get(key);
      salt := "";
      if existing.Found? {
        salt := Value(existing.stored.content.spec.data, SALT_KEY);
      }
      if salt == "" {
        salt := newSalt;
      }
      var secret := DesiredSecret(name, req, salt);
      match existing
      case NotFound =>
        ok := api.Create(key, secret, name);
        created := ok;
      case Failed =>
      case Found(stored) =>
        if !Managed(stored.content, name) {
          return;
        }
        if UpToDate(secret, stored.content) {
          ok := true;
          return;
        }
        ok, rollback := UpdateAuthSecret(name, secret);
    }

    method UpdateAuthSecret(name: string, secret: Object) returns (ok: bool, rollback: Option<AuthRollback>)
      requires api.Valid() && Managed(secret, name) && secret.spec.SecretSpec?
      modifies api
      ensures api.Valid() && api.Acted(name)
      ensures !api.shared ==> Applied(old(api.contents), api.contents, AuthKey(name), name, ok, false)
      ensures !api.shared && ok ==> Serves(api.contents, AuthKey(name), name, secret)
      ensures rollback.Some? ==>
        ok && Managed(rollback.value.previous, name) && rollback.value.previous.spec.SecretSpec?
      ensures !api.shared && rollback.Some? ==>
        At(old(api.contents), AuthKey(name)) == Some(rollback.value.previous)
          && At(api.contents, AuthKey(name)) == Some(rollback.value.applied)
      ensures !api.shared && ok && rollback.None? ==> api.contents == old(api.contents)
      ensures !api.shared && api.healthy ==> (ok <==> IsManaged(At(old(api.contents), AuthKey(name)), name))
    {
      var key := AuthKey(name);
      for attempt := 0 to CONFLICT_RETRIES
        invariant api.Valid() && api.Acted(name)
        invariant !api.shared ==> api.contents == old(api.contents)
        invariant !api.shared && api.healthy ==> attempt == 0
      {
        var current := api.Get(key);
        if !current.Found? || !Managed(current.stored.content, name) {
          return false, None;
        }
        if UpToDate(secret, current.stored.content) {
          return true, None;
        }
        var outcome := api.Update(key, current.stored, secret, name);
        if outcome.Done? {
          return true, Some(AuthRollback(current.stored.content, api.contents[key].content));
        }
        if outcome.Refused? {
          return false, None;
        }
      }
      return false, None;
    }

    method RestoreAuthSecret(name: string, rollback: Option<AuthRollback>) returns (ok: bool)
      requires api.Valid()
        && (rollback.Some? ==> Managed(rollback.value.previous, name) && rollback.value.previous.spec.SecretSpec?)
      modifies api
      ensures api.Valid() && api.Acted(name)
      ensures !api.shared && ok && rollback.Some? ==>
        Applied(old(api.contents), api.contents, AuthKey(name), name, true, false)
        && At(api.contents, AuthKey(name)) == Some(rollback.value.previous)
      ensures !api.shared && (!ok || rollback.None?) ==> api.contents == old(api.contents)
      ensures !api.shared && api.healthy ==>
        (ok <==> rollback.None? || StillApplied(old(api.contents), name, rollback.value))
    {
      if rollback.None? {
        return true;
      }
      var key := AuthKey(name);
      var current := api.Get(key);
      if !current.Found? || !Managed(current.stored.content, name)
         || !UpToDate(rollback.value.applied, current.stored.content) {
        return false;
      }
      var outcome := api.Update(key, current.stored, rollback.value.previous, name);
      return outcome.Done?;
    }

    method EnsureDeployment(name: string, req: Request, salt: string) returns (ok: bool, created: bool)
      requires api.Valid()
      modifies api
      ensures api.Valid() && api.Acted(name)
      ensures ok ==> req.image.Some? && req.resources.Some?
      ensures !api.shared ==> Applied(old(api.contents), api.contents, DeploymentKey(name), name, ok, created)
      ensures !api.shared && ok ==> Deployed(old(api.contents), api.contents, name, req, salt, digest, api.fills)
      ensures !api.shared && api.healthy ==>
        (ok <==> req.image.Some? && req.resources.Some? && Free(old(api.contents), DeploymentKey(name), name))
    {
      if req.image.None? || req.resources.None? {
        return false, false;
      }
      var key := DeploymentKey(name);
      var deployment := DesiredDeployment(name, req, digest(salt, DigestText(req)));
      var existing := api.Get(key);
      match existing
      case NotFound =>
        ok, created := Submit(key, existing, deployment, name);
        if !api.shared && ok {
          DeploymentWritten(old(api.contents), api.contents, name, req, salt, digest, api.fills);
        }
      case Failed => return false, false;
      case Found(stored) =>
        if !Managed(stored.content, name) {
          return false, false;
        }
        if UpToDate(deployment, stored.content) {
          if !api.shared { DeploymentFound(api.contents, name, req, salt, digest, api.fills); }
          return true, false;
        }
        ok := UpdateDeployment(name, deployment);
        if !api.shared && ok {
          DeploymentWritten(old(api.contents), api.contents, name, req, salt, digest, api.fills);
        }
        return ok, false;
    }

    method UpdateDeployment(name: string, deployment: Object) returns (ok: bool)
      requires api.Valid() && Managed(deployment, name) && deployment.spec.DeploymentSpec?
      modifies api
      ensures api.Valid() && api.Acted(name)
      ensures !api.shared ==> Applied(old(api.contents), api.contents, DeploymentKey(name), name, ok, false)
      ensures !api.shared && ok ==>
        var key := DeploymentKey(name);
        if UpToDate(deployment, old(api.contents)[key].content) then api.contents == old(api.contents)
        else api.contents != old(api.contents) && Admits(deployment, api.contents[key].content, api.fills)
      ensures !api.shared && api.healthy ==> (ok <==> IsManaged(At(old(api.contents), DeploymentKey(name)), name))
    {
      var key := DeploymentKey(name);
      for attempt := 0 to CONFLICT_RETRIES
        invariant api.Valid() && api.Acted(name)
        invariant !api.shared ==> api.contents == old(api.contents)
        invariant !api.shared && api.healthy ==> attempt == 0
      {
        var current := api.Get(key);
        if !current.Found? || !Managed(current.stored.content, name) {
          return false;
        }
        if UpToDate(deployment, current.stored.content) {
          return true;
        }
        var outcome := api.Update(key, current.stored, deployment, name);
        if !outcome.Conflict? {
          return outcome.Done?;
        }
      }
      return false;
    }

    /** Creates what was not found, or replaces what was. */
    method Submit(key: Key, found: Reply, sent: Object, name: string) returns (ok: bool, created: bool)
      requires api.Valid() && OwnKey(key, name) && Managed(sent, name) && Typed(key, sent) && !found.Failed?
      requires match found
        case NotFound => key !in api.contents
        case Failed => false
        case Found(stored) => Entry(api.contents, key) == Some(stored) && Managed(stored.content, name)
      modifies api
      ensures api.Valid() && api.Acted(name)
      ensures !api.shared ==> Applied(old(api.contents), api.contents, key, name, ok, created)
      ensures ok ==> key in api.contents && Admits(sent, api.contents[key].content, api.fills)
      ensures !api.shared && ok ==> api.contents != old(api.contents)
      ensures !api.shared && api.healthy ==> ok
    {
      if found.NotFound? {
        ok := api.Create(key, sent, name);
        created := ok;
      } else {
        var outcome := api.Update(key, found.stored, sent, name);
        ok, created := outcome.Done?, false;
      }
      if ok { AdmittedIsUpToDate(sent, api.contents[key].content, api.fills); }
    }

    /** The HTTP or the TCP service, both labelled for the same owner. */
    method ApplyService(key: Key, service: Object, owner: string) returns (ok: bool, created: bool)
      requires api.Valid() && Typed(key, service) && key.kind == Service
        && Managed(service, owner) && OwnKey(key, owner)
      modifies api
      ensures api.Valid() && api.Acted(owner)
      ensures !api.shared ==> Applied(old(api.contents), api.contents, key, owner, ok, created)
      ensures !api.shared && ok ==> Serves(api.contents, key, owner, service)
      ensures !api.shared && ok && key in old(api.contents) ==>
        SameAddress(old(api.contents)[key].content.spec, api.contents[key].content.spec, service.spec.ports)
      ensures !api.shared && Serves(old(api.contents), key, owner, service) ==> api.contents == old(api.contents)
      ensures !api.shared && api.healthy ==> (ok <==> Free(old(api.contents), key, owner))
    {
      var existing := api.Get(key);
      match existing
      case NotFound =>
        ok, created := Submit(key, existing, service, owner);
        if ok { AdmittedIsUpToDate(service, api.contents[key].content, api.fills); }
      case Failed => return false, false;
      case Found(stored) =>
        if !Managed(stored.content, owner) {
          return false, false;
        }
        var next := service.(spec := KeepingAddress(service.spec, stored.content.spec));
        ServiceKept(service, stored.content);
        if UpToDate(next, stored.content) {
          return true, false;
        }
        ok, created := Submit(key, existing, next, owner);
        if ok { ServiceUpdated(service, stored.content, api.contents[key].content, api.fills); }
    }

    method ApplyIngress(name: string, ingress: Object) returns (ok: bool, created: bool)
      requires api.Valid() && ingress.spec.IngressSpec? && Managed(ingress, name)
      modifies api
      ensures api.Valid() && api.Acted(name)
      ensures !api.shared ==> Applied(old(api.contents), api.contents, IngressKey(name), name, ok, created)
      ensures !api.shared && ok ==> Serves(api.contents, IngressKey(name), name, ingress)
      ensures !api.shared && Serves(old(api.contents), IngressKey(name), name, ingress) ==>
        api.contents == old(api.contents)
      ensures !api.shared && api.healthy ==> (ok <==> Free(old(api.contents), IngressKey(name), name))
    {
      var key := IngressKey(name);
      var existing := api.Get(key);
      if existing.Failed? || (existing.Found? && !Managed(existing.stored.content, name)) {
        return false, false;
      }
      if existing.Found? && UpToDate(ingress, existing.stored.content) {
        return true, false;
      }
      ok, created := Submit(key, existing, ingress, name);
      if ok { AdmittedIsUpToDate(ingress, api.contents[key].content, api.fills); }
    }

    /** Issuers and certificates are written whether or not they differ. */
    method ApplyDynamicResource(key: Key, resource: Object, name: string) returns (ok: bool, created: bool)
      requires api.Valid() && OwnKey(key, name) && Managed(resource, name)
        && Typed(key, resource) && (key.kind == Issuer || key.kind == Certificate)
      modifies api
      ensures api.Valid() && api.Acted(name)
      ensures !api.shared ==> Applied(old(api.contents), api.contents, key, name, ok, created)
      ensures !api.shared && ok ==> At(api.contents, key) == Some(resource)
      ensures !api.shared && api.healthy ==> (ok <==> Free(old(api.contents), key, name))
    {
      var existing := api.Get(key);
      if existing.Failed? || (existing.Found? && !Managed(existing.stored.content, name)) {
        return false, false;
      }
      ok, created := Submit(key, existing, resource, name);
    }

    // ---- deletion ----

    method DeleteIfManaged(key: Key, owner: string) returns (ok: bool)
      requires api.Valid() && OwnKey(key, owner)
      modifies api
      ensures api.Valid() && api.Acted(owner)
      ensures !api.shared ==> api.contents == if ok then WithoutManaged(old(api.contents), key, owner)
        else old(api.contents)
      ensures api.healthy ==> ok
    {
      var r := api.DeleteIf(key, (o: Object) => Managed(o, owner), owner);
      return !r.RemovalFailed?;
    }

    method DeleteSecretIfOwned(secretName: string, owner: string, certificate: Option<Object>) returns (ok: bool)
      requires api.Valid() && OwnKey(Key(Secret, secretName), owner)
      modifies api
      ensures api.Valid() && api.Acted(owner)
      ensures !api.shared ==>
        api.contents == if ok then WithoutOwnedSecret(old(api.contents), secretName, owner, certificate)
          else old(api.contents)
      ensures api.healthy ==> ok
    {
      var r := api.DeleteIf(Key(Secret, secretName),
                            (o: Object) => Managed(o, owner)
                              || OwnedByCertificate(o, secretName, owner, certificate), owner);
      return !r.RemovalFailed?;
    }

    method CleanupCreated(resources: seq<Created>, ghost name: string) returns (ok: bool, left: nat)
      requires api.Valid() && forall c | c in resources :: CreatedFor(c, name)
      modifies api
      ensures api.Valid() && api.Acted(name)
      ensures left <= |resources| && (ok ==> left == 0)
      ensures !api.shared ==> api.contents == CleanedUp(old(api.contents), resources[left..])
      ensures api.healthy ==> ok
    {
      left := |resources|;
      while left > 0
        invariant left <= |resources| && api.Valid() && api.Acted(name)
        invariant !api.shared ==> api.contents == CleanedUp(old(api.contents), resources[left..])
      {
        var c := resources[left - 1];
        assert resources[left - 1..][1..] == resources[left..] && c in resources;
        if c.kind == OfSecret {
          ok := DeleteSecretIfOwned(c.name, OwnerOf(c), None);
        } else {
          ok := DeleteIfManaged(KeyOf(c), OwnerOf(c));
        }
        if !ok {
          return false, left;
        }
        left := left - 1;
      }
      return true, 0;
    }

    method RestoreDynamicResource(key: Key, name: string, snapshot: Option<Object>) returns (ok: bool)
      requires api.Valid() && OwnKey(key, name) && (key.kind == Issuer || key.kind == Certificate)
      requires snapshot.Some? ==> Typed(key, snapshot.value)
      modifies api
      ensures api.Valid() && api.Acted(name)
      ensures !api.shared ==>
        if ok then Restored(old(api.contents), api.contents, key, name, snapshot) else api.contents == old(api.contents)
      ensures !api.shared && api.healthy ==> ok
    {
      if snapshot.None? {
        ok := DeleteIfManaged(key, name);
        return;
      }
      var current := api.Get(key);
      if !Managed(snapshot.value, name) {
        return true;
      }
      if current.Failed? {
        return false;
      }
      if current.Found? && !Managed(current.stored.content, name) {
        return true;
      }
      var created;
      ok, created := Submit(key, current, snapshot.value, name);
    }

    // ---- custom domains and ingress ----

    /** Refuses a TLS secret somebody else made. */
    method ValidateCustomDomainSecretSlot(name: string) returns (ok: bool)
      requires api.Valid()
      modifies api
      ensures api.Valid() && api.Acted(name) && api.wrote == old(api.wrote)
      ensures !api.shared ==> api.contents == old(api.contents)
      ensures !api.shared && ok && At(api.contents, TlsKey(name)).Some? ==>
        var secret := At(api.contents, TlsKey(name)).value;
        Managed(secret, name) || OwnedByCertificate(secret, name, name, At(api.contents, CertificateKey(name)))
      ensures !api.shared && api.healthy ==> (ok <==> SlotFree(old(api.contents), name))
    {
      var secret := api.Get(TlsKey(name));
      match secret
      case NotFound => return true;
      case Failed => return false;
      case Found(stored) =>
        if Managed(stored.content, name) {
          return true;
        }
        var certificate := api.Get(CertificateKey(name));
        return certificate.Found? && OwnedByCertificate(stored.content, name, name, Some(certificate.stored.content));
    }

    method EnsureCustomDomainResources(name: string, customDomain: string) returns (ok: bool, created: seq<Created>)
      requires api.Valid()
      modifies api
      ensures api.Valid() && api.Acted(name)
      ensures !ok ==> created == []
      ensures forall c | c in created :: CreatedFor(c, name)
      ensures !api.shared ==> DomainApplied(old(api.contents), api.contents, name, ok, created)
      ensures !api.shared && ok && customDomain != "" ==>
        At(api.contents, IssuerKey(name)) == Some(DesiredIssuer(name, email))
        && At(api.contents, CertificateKey(name)) == Some(DesiredCertificate(name, customDomain))
      ensures !api.shared && customDomain == "" ==> api.contents == old(api.contents)
      ensures !api.shared && api.healthy ==>
        (ok <==> customDomain == "" || DomainFree(old(api.contents), name))
    {
      if customDomain == "" {
        return true, [];
      }
      var slot := ValidateCustomDomainSecretSlot(name);
      if !slot {
        return false, [];
      }
      ok, created := ApplyIssuerAndCertificate(name, customDomain);
    }

    method ApplyIssuerAndCertificate(name: string, customDomain: string) returns (ok: bool, created: seq<Created>)
      requires api.Valid()
      modifies api
      ensures api.Valid() && api.Acted(name)
      ensures !ok ==> created == []
      ensures forall c | c in created :: CreatedFor(c, name)
      ensures !api.shared ==> DomainApplied(old(api.contents), api.contents, name, ok, created)
      ensures !api.shared && ok ==>
        At(api.contents, IssuerKey(name)) == Some(DesiredIssuer(name, email))
        && At(api.contents, CertificateKey(name)) == Some(DesiredCertificate(name, customDomain))
      ensures !api.shared && api.healthy ==>
        (ok <==> Free(old(api.contents), IssuerKey(name), name) && Free(old(api.contents), CertificateKey(name), name))
    {
      var issuerOk, issuerCreated := ApplyDynamicResource(IssuerKey(name), DesiredIssuer(name, email), name);
      if !issuerOk {
        return false, [];
      }
      created := DomainCreated(name, issuerCreated, false);
      ghost var withIssuer := api.contents;
      var certificateOk, certificateCreated :=
        ApplyDynamicResource(CertificateKey(name), DesiredCertificate(name, customDomain), name);
      if !certificateOk {
        var cleaned, left := CleanupCreated(created, name);
        if !api.shared { DomainFailed(old(api.contents), withIssuer, name, issuerCreated, left); }
        return false, [];
      }
      created := DomainCreated(name, issuerCreated, certificateCreated);
      if !api.shared {
        DomainWritten(old(api.contents), withIssuer, api.contents, name, issuerCreated, certificateCreated);
      }
      ok := true;
    }

    method EnsureIngress(name: string, sealosHost: string, customDomain: string, protocol: string)
      returns (ok: bool, created: bool, hosts: Hosts)
      requires api.Valid()
      modifies api
      ensures api.Valid() && api.Acted(name)
      ensures !api.shared ==> Applied(old(api.contents), api.contents, IngressKey(name), name, ok, created)
      ensures !api.shared && ok ==>
        Serves(api.contents, IngressKey(name), name,
               DesiredIngress(name, sealosHost, customDomain, protocol, ingressAnnotations))
      ensures !api.shared
        && Serves(old(api.contents), IngressKey(name), name,
                  DesiredIngress(name, sealosHost, customDomain, protocol, ingressAnnotations))
        ==> api.contents == old(api.contents)
      ensures ok ==> hosts == Hosts(PublicHost(sealosHost, customDomain, protocol), sealosHost, customDomain, 0)
      ensures !api.shared && api.healthy ==>
        (ok <==> Routable(protocol, customDomain) && Free(old(api.contents), IngressKey(name), name))
    {
      hosts := Hosts("", "", "", 0);
      if protocol != HTTPS && (customDomain != "" || (protocol != SSH && protocol != TCP)) {
        return false, false, hosts;
      }
      ok, created := ApplyIngress(name, DesiredIngress(name, sealosHost, customDomain, protocol, ingressAnnotations));
      if ok {
        hosts := Hosts(PublicHost(sealosHost, customDomain, protocol), sealosHost, customDomain, 0);
      }
    }

    // ---- the ensure transaction ----

    /** Auth secret, deployment and HTTP service. */
    method ProvisionCore(name: string, req: Request, newSalt: string) returns (ok: bool, tx: Transaction)
      requires api.Valid() && newSalt != ""
      modifies api
      ensures api.Valid() && api.Acted(name) && Usable(tx, name) && tx.snapshots.None?
      ensures !api.shared ==> Progress(old(api.contents), api.contents, name, tx, !RawTCP(req))
      ensures !api.shared && ok ==> At(api.contents, TcpKey(name)) == At(old(api.contents), TcpKey(name))
      ensures !api.shared && ok ==> CoreProvisioned(api.contents, name, req, digest)
      ensures !api.shared && ok ==> (PortsAsSent(api.contents, name, req) <==> !api.fills)
      ensures !api.shared && ok && CoreProvisioned(old(api.contents), name, req, digest) ==>
        Redeployed(old(api.contents), api.contents, name, req)
      ensures !api.shared && api.healthy ==> (ok <==> CoreFree(old(api.contents), name, req))
    {
      var salt;
      ok, tx, salt := AuthStep(name, req, newSalt);
      ghost var afterAuth := api.contents;
      if !ok {
        return;
      }
      if !api.shared { FreeKept(old(api.contents), afterAuth, name, tx, !RawTCP(req), DeploymentKey(name)); }
      ok, tx := DeploymentStep(name, req, salt, tx, old(api.contents));
      ghost var afterDeployment := api.contents;
      if !ok {
        return;
      }
      ok, tx := ServiceStep(name, tx, old(api.contents), !RawTCP(req));
      if !api.shared && ok {
        CoreEnsured(old(api.contents), afterAuth, afterDeployment, api.contents, name, req, salt, digest, api.fills);
      }
    }

    method DeploymentStep(name: string, req: Request, salt: string, before: Transaction, ghost start: Contents)
      returns (ok: bool, tx: Transaction)
      requires api.Valid() && Usable(before, name) && before.snapshots.None?
      requires !api.shared ==> Progress(start, api.contents, name, before, !RawTCP(req))
      modifies api
      ensures api.Valid() && api.Acted(name) && Usable(tx, name) && tx.snapshots.None?
      ensures !api.shared ==> Progress(start, api.contents, name, tx, !RawTCP(req))
      ensures !api.shared && !ok ==> api.contents == old(api.contents)
      ensures !api.shared && ok ==> Deployed(old(api.contents), api.contents, name, req, salt, digest, api.fills)
      ensures !api.shared && api.healthy ==>
        (ok <==> req.image.Some? && req.resources.Some? && Free(old(api.contents), DeploymentKey(name), name))
    {
      var created;
      tx := before;
      ok, created := EnsureDeployment(name, req, salt);
      if ok {
        var c := Created(OfDeployment, name);
        if !api.shared { Advance(start, old(api.contents), api.contents, name, tx, c, created, !RawTCP(req)); }
        RecordedUsable(tx, created, c, name);
        tx := Recorded(tx, created, c);
      }
    }

    method ServiceStep(name: string, before: Transaction, ghost start: Contents, ghost stale: bool)
      returns (ok: bool, tx: Transaction)
      requires api.Valid() && Usable(before, name) && before.snapshots.None?
      requires !api.shared ==> Progress(start, api.contents, name, before, stale)
      modifies api
      ensures api.Valid() && api.Acted(name) && Usable(tx, name) && tx.snapshots.None?
      ensures !api.shared ==> Progress(start, api.contents, name, tx, stale)
      ensures !api.shared ==> OnlyAt(old(api.contents), api.contents, HttpKey(name))
      ensures !api.shared && ok ==> Serves(api.contents, HttpKey(name), name, DesiredHttpService(name))
      ensures !api.shared && Serves(old(api.contents), HttpKey(name), name, DesiredHttpService(name)) ==>
        api.contents == old(api.contents)
      ensures !api.shared && api.healthy ==> (ok <==> Free(start, HttpKey(name), name))
    {
      var created;
      tx := before;
      if !api.shared { FreeKept(start, api.contents, name, before, stale, HttpKey(name)); }
      ok, created := ApplyService(HttpKey(name), DesiredHttpService(name), name);
      if ok {
        var c := Created(OfService, name);
        if !api.shared { Advance(start, old(api.contents), api.contents, name, tx, c, created, stale); }
        RecordedUsable(tx, created, c, name);
        tx := Recorded(tx, created, c);
      }
    }

    method AuthStep(name: string, req: Request, newSalt: string) returns (ok: bool, tx: Transaction, salt: string)
      requires api.Valid() && newSalt != ""
      modifies api
      ensures api.Valid() && api.Acted(name) && Usable(tx, name) && tx.snapshots.None?
      ensures !api.shared ==> Progress(old(api.contents), api.contents, name, tx, !RawTCP(req))
      ensures !api.shared ==> OnlyAt(old(api.contents), api.contents, AuthKey(name))
      ensures !api.shared && ok ==>
        salt != "" && Serves(api.contents, AuthKey(name), name, DesiredSecret(name, req, salt))
      ensures !api.shared && ok && AuthInPlace(old(api.contents), name, req) ==>
        api.contents == old(api.contents) && salt == SaltOf(old(api.contents), name)
      ensures !api.shared && api.healthy ==> (ok <==> Free(old(api.contents), AuthKey(name), name))
    {
      var created, rollback;
      ok, created, rollback, salt := EnsureAuthSecret(name, req, newSalt);
      var c := Created(OfSecret, AuthSecretName(name));
      SuffixCut(name, "-auth");
      if !api.shared { AuthApplied(old(api.contents), api.contents, name, ok, created, rollback, !RawTCP(req)); }
      tx := Transaction([], rollback, None);
      RecordedUsable(tx, created, c, name);
      tx := Recorded(tx, created, c);
    }

    /** The public TCP service, or the removal of a stale one. */
    method TcpStep(name: string, req: Request, before: Transaction, ghost start: Contents)
      returns (ok: bool, tx: Transaction)
      requires api.Valid() && Usable(before, name) && before.snapshots.None?
      requires !api.shared ==> Progress(start, api.contents, name, before, !RawTCP(req))
      requires !api.shared ==> At(api.contents, TcpKey(name)) == At(start, TcpKey(name))
      modifies api
      ensures api.Valid() && api.Acted(name) && Usable(tx, name) && tx.snapshots.None?
      ensures !api.shared ==> Progress(start, api.contents, name, tx, !RawTCP(req))
      ensures !api.shared ==> KeepsCore(old(api.contents), api.contents, name)
      ensures !api.shared && ok ==> TcpProvisioned(api.contents, name, req)
      ensures !api.shared && TcpProvisioned(old(api.contents), name, req) ==> api.contents == old(api.contents)
      ensures !api.shared && api.healthy ==> (ok <==> !RawTCP(req) || Free(start, TcpKey(name), name))
    {
      tx := before;
      SuffixCut(name, "-tcp");
      if RawTCP(req) {
        var created;
        ok, created := ApplyService(TcpKey(name), DesiredTcpService(name), name);
        if !api.shared { TcpKeepsCore(old(api.contents), api.contents, name, ok, created); }
        if ok {
          var c := Created(OfTcpService, TcpServiceName(name));
          if !api.shared { Advance(start, old(api.contents), api.contents, name, tx, c, created, false); }
          RecordedUsable(tx, created, c, name);
          tx := Recorded(tx, created, c);
        }
      } else {
        ok := DeleteIfManaged(TcpKey(name), TrimSuffix(TcpServiceName(name), "-tcp"));
        if !api.shared {
          TcpKeepsCore(old(api.contents), api.contents, name, ok, false);
          if ok { StaleRemoved(start, old(api.contents), name, tx); }
        }
      }
    }

    /** Snapshots of issuer and certificate, then both of them. */
    method DomainStep(name: string, customDomain: string, before: Transaction, ghost start: Contents, ghost stale: bool)
      returns (ok: bool, tx: Transaction)
      requires api.Valid() && Usable(before, name) && before.snapshots.None?
      requires !api.shared ==> Progress(start, api.contents, name, before, stale)
      modifies api
      ensures api.Valid() && api.Acted(name) && Usable(tx, name)
      ensures !api.shared ==> Progress(start, api.contents, name, tx, stale)
      ensures !api.shared ==> KeepsCore(old(api.contents), api.contents, name)
      ensures !api.shared ==> At(api.contents, TcpKey(name)) == At(old(api.contents), TcpKey(name))
      ensures !api.shared && ok && customDomain != "" ==>
        At(api.contents, IssuerKey(name)) == Some(DesiredIssuer(name, email))
        && At(api.contents, CertificateKey(name)) == Some(DesiredCertificate(name, customDomain))
      ensures ok ==> tx.snapshots.Some?
      ensures !api.shared && api.healthy ==> (ok <==> customDomain == "" || DomainFree(start, name))
    {
      ok, tx := false, before;
      if !api.shared { DomainFreeKept(start, api.contents, name, before, stale); }
      var issuer := api.Get(IssuerKey(name));
      if issuer.Failed? {
        return;
      }
      var certificate := api.Get(CertificateKey(name));
      if certificate.Failed? {
        return;
      }
      var created;
      ok, created := EnsureCustomDomainResources(name, customDomain);
      if !api.shared {
        DomainKeepsCore(old(api.contents), api.contents, name, ok, created);
        DomainAdvance(start, old(api.contents), api.contents, name, tx, ok, created, stale);
      }
      tx := tx.(snapshots := Some(Snapshots(Snapshot(issuer), Snapshot(certificate))), created := tx.created + created);
    }

    method IngressStep(name: string, sealosHost: string, customDomain: string, protocol: string,
                       before: Transaction, ghost start: Contents, ghost stale: bool)
      returns (ok: bool, tx: Transaction, hosts: Hosts)
      requires api.Valid() && Usable(before, name)
      requires !api.shared ==> Progress(start, api.contents, name, before, stale)
      modifies api
      ensures api.Valid() && api.Acted(name) && Usable(tx, name)
      ensures !api.shared ==> Progress(start, api.contents, name, tx, stale)
      ensures !api.shared ==> OnlyAt(old(api.contents), api.contents, IngressKey(name))
      ensures !api.shared && ok ==>
        Serves(api.contents, IngressKey(name), name,
               DesiredIngress(name, sealosHost, customDomain, protocol, ingressAnnotations))
      ensures !api.shared
        && Serves(old(api.contents), IngressKey(name), name,
                  DesiredIngress(name, sealosHost, customDomain, protocol, ingressAnnotations))
        ==> api.contents == old(api.contents)
      ensures ok ==> hosts == Hosts(PublicHost(sealosHost, customDomain, protocol), sealosHost, customDomain, 0)
      ensures !api.shared && api.healthy ==>
        (ok <==> Routable(protocol, customDomain) && Free(start, IngressKey(name), name))
    {
      var created;
      tx := before;
      if !api.shared { FreeKept(start, api.contents, name, before, stale, IngressKey(name)); }
      ok, created, hosts := EnsureIngress(name, sealosHost, customDomain, protocol);
      if ok {
        var c := Created(OfIngress, name);
        if !api.shared { Advance(start, old(api.contents), api.contents, name, tx, c, created, stale); }
        RecordedUsable(tx, created, c, name);
        tx := Recorded(tx, created, c);
      }
    }

    /** Everything but the ingress. */
    method ProvisionBackend(name: string, req: Request, newSalt: string) returns (ok: bool, tx: Transaction)
      requires api.Valid() && newSalt != ""
      modifies api
      ensures api.Valid() && api.Acted(name) && Usable(tx, name)
      ensures !api.shared ==> Progress(old(api.contents), api.contents, name, tx, !RawTCP(req))
      ensures !api.shared && ok ==> BackendProvisioned(api.contents, name, req, digest, email)
      ensures !api.shared && ok ==> (PortsAsSent(api.contents, name, req) <==> !api.fills)
      ensures !api.shared && ok && !WantsDomain(req) ==>
        BackendProvisioned(old(api.contents), name, req, digest, email) ==>
          Redeployed(old(api.contents), api.contents, name, req)
      ensures !api.shared && api.healthy ==> (ok <==> BackendFree(old(api.contents), name, req))
    {
      ok, tx := ProvisionCore(name, req, newSalt);
      if !ok {
        return;
      }
      ghost var afterCore := api.contents;
      ok, tx := TcpStep(name, req, tx, old(api.contents));
      if !ok {
        return;
      }
      if WantsDomain(req) {
        ok, tx := DomainStep(name, req.customDomain, tx, old(api.contents), !RawTCP(req));
      }
      if !api.shared && ok { CoreStays(afterCore, api.contents, name, req, digest); }
    }

    /** Everything but the public port. */
    method ProvisionRouted(name: string, req: Request, newSalt: string)
      returns (ok: bool, tx: Transaction, hosts: Hosts)
      requires api.Valid() && newSalt != ""
      modifies api
      ensures api.Valid() && api.Acted(name) && Usable(tx, name)
      ensures !api.shared ==> Progress(old(api.contents), api.contents, name, tx, !RawTCP(req))
      ensures !api.shared && ok ==> Provisioned(api.contents, name, req, digest, email, ingressAnnotations)
      ensures !api.shared && ok && !WantsDomain(req) ==>
        Provisioned(old(api.contents), name, req, digest, email, ingressAnnotations) ==>
          Redeployed(old(api.contents), api.contents, name, req)
      ensures !api.shared && ok ==> (PortsAsSent(api.contents, name, req) <==> !api.fills)
      ensures ok ==> hosts == HostsFor(req)
      ensures !api.shared && api.healthy ==> (ok <==> Provisionable(old(api.contents), name, req))
    {
      hosts := Hosts("", "", "", 0);
      ok, tx := ProvisionBackend(name, req, newSalt);
      if !ok {
        return;
      }
      ghost var backend := api.contents;
      ok, tx, hosts := IngressStep(name, req.sealosHost, req.customDomain, Protocol(req), tx, old(api.contents),
                                   !RawTCP(req));
      if !api.shared && ok {
        BackendStays(backend, api.contents, name, req, digest, email);
        IngressRepeated(old(api.contents), backend, api.contents, name, req,
                        DesiredIngress(name, req.sealosHost, req.customDomain, Protocol(req), ingressAnnotations));
      }
    }

    /** The forward steps of `EnsureTunnelWithOptions`, keeping the compensation log. */
    method Provision(name: string, req: Request, newSalt: string) returns (ok: bool, tx: Transaction, hosts: Hosts)
      requires api.Valid() && newSalt != ""
      modifies api
      ensures api.Valid() && api.Acted(name) && Usable(tx, name)
      ensures !api.shared ==> Progress(old(api.contents), api.contents, name, tx, !RawTCP(req))
      ensures !api.shared && ok ==>
        Provisioned(api.contents, name, req, digest, email, ingressAnnotations)
          && Reported(api.contents, name, req, hosts)
      ensures !api.shared && ok && !WantsDomain(req) ==>
        Provisioned(old(api.contents), name, req, digest, email, ingressAnnotations) ==>
          Redeployed(old(api.contents), api.contents, name, req)
      ensures !api.shared && ok ==> (PortsAsSent(api.contents, name, req) <==> !api.fills)
      ensures !api.shared && api.healthy ==>
        (ok <==> Provisionable(old(api.contents), name, req) && (RawTCP(req) ==> HasPublicPort(api.contents, name)))
      ensures !api.shared && api.healthy && (api.fills || !RawTCP(req)) ==>
        (ok <==> Provisionable(old(api.contents), name, req))
    {
      ok, tx, hosts := ProvisionRouted(name, req, newSalt);
      if ok && RawTCP(req) {
        ok, hosts := PublicPortStep(name, hosts);
      }
    }

    method PublicPortStep(name: string, before: Hosts) returns (ok: bool, hosts: Hosts)
      requires api.Valid()
      requires !api.shared ==> Serves(api.contents, TcpKey(name), name, DesiredTcpService(name))
      modifies api
      ensures api.Valid() && api.Acted(name)
      ensures !api.shared ==> api.contents == old(api.contents)
      ensures hosts == before.(publicPort := hosts.publicPort) && (ok ==> hosts.publicPort != 0)
      ensures !api.shared && ok ==>
        At(api.contents, TcpKey(name)).Some?
        && hosts.publicPort == NodePort(At(api.contents, TcpKey(name)).value.spec, "tcp")
      ensures !api.shared && api.healthy ==>
        (ok <==> HasPublicPort(old(api.contents), name))
      ensures !api.shared && api.healthy && api.fills ==> ok
    {
      if !api.shared && api.fills { PublicPortGiven(api.contents, name); }
      var service := api.Get(TcpKey(name));
      if !service.Found? {
        return false, before;
      }
      hosts := before.(publicPort := NodePort(service.stored.content.spec, "tcp"));
      ok := hosts.publicPort != 0;
    }

    /** The deferred rollback: every part is attempted, whatever the others report. */
    method Rollback(name: string, tx: Transaction) returns (ok: bool)
      requires api.Valid() && Usable(tx, name)
      requires !api.shared ==>
        forall c | c in tx.created && KeyOf(c) in api.contents :: Managed(api.contents[KeyOf(c)].content, OwnerOf(c))
      modifies api
      ensures api.Valid() && api.Acted(name)
      ensures !api.shared && ok ==> forall k :: At(api.contents, k) == Undone(At(old(api.contents), k), k, name, tx)
      ensures !api.shared && api.healthy ==>
        (ok <==> tx.auth.None? || StillApplied(CleanedUp(old(api.contents), tx.created), name, tx.auth.value))
    {
      var cleaned, left := CleanupCreated(tx.created, name);
      ghost var afterCleanup := api.contents;
      var authRestored := RestoreAuthSecret(name, tx.auth);
      ghost var afterAuth := api.contents;
      var issuerRestored, certificateRestored := true, true;
      ghost var afterIssuer := api.contents;
      if tx.snapshots.Some? {
        issuerRestored := RestoreDynamicResource(IssuerKey(name), name, tx.snapshots.value.issuer);
        afterIssuer := api.contents;
        certificateRestored := RestoreDynamicResource(CertificateKey(name), name, tx.snapshots.value.certificate);
      }
      ok := cleaned && authRestored && issuerRestored && certificateRestored;
      if !api.shared && ok {
        UndoneStepByStep(old(api.contents), afterCleanup, afterAuth, afterIssuer, api.contents, name, tx);
      }
    }

    /** Takes back a transaction that failed. */
    method Undo(name: string, tx: Transaction, ghost start: Contents, ghost stale: bool) returns (undone: bool)
      requires api.Valid() && Usable(tx, name)
      requires !api.shared ==> Progress(start, api.contents, name, tx, stale)
      modifies api
      ensures api.Valid() && api.Acted(name)
      ensures !api.shared && undone ==> RolledBack(start, api.contents, name, stale)
      ensures !api.shared && api.healthy ==> undone
    {
      ghost var now := api.contents;
      if !api.shared {
        CreatedAreManaged(start, now, name, tx, stale);
        if tx.auth.Some? { SecretStillApplied(start, now, name, tx, stale); }
      }
      undone := Rollback(name, tx);
      if !api.shared && undone { UndoneIsRolledBack(start, now, api.contents, name, tx, stale); }
    }

    /** `undone` says that a failed call was rolled back without error. */
    method EnsureTunnelWithOptions(tunnelID: string, req: Request, newSalt: string)
      returns (ok: bool, hosts: Hosts, undone: bool)
      requires api.Valid() && newSalt != ""
      modifies api
      ensures api.Valid() && api.Acted(ResourceName(tunnelID))
      ensures !Acceptable(tunnelID, req) ==> !ok && undone && api.contents == old(api.contents)
      ensures !api.shared && ok ==>
        Provisioned(api.contents, ResourceName(tunnelID), req, digest, email, ingressAnnotations)
        && Reported(api.contents, ResourceName(tunnelID), req, hosts)
        && Within(old(api.contents), api.contents, ResourceName(tunnelID))
      ensures !api.shared && ok && !WantsDomain(req) ==>
        (Provisioned(old(api.contents), ResourceName(tunnelID), req, digest, email, ingressAnnotations) ==>
           Redeployed(old(api.contents), api.contents, ResourceName(tunnelID), req))
      ensures !api.shared && ok ==> (PortsAsSent(api.contents, ResourceName(tunnelID), req) <==> !api.fills)
      ensures !api.shared && !ok && undone ==>
        RolledBack(old(api.contents), api.contents, ResourceName(tunnelID), !RawTCP(req))
      ensures !api.shared && api.healthy && !ok ==> undone
      ensures !api.shared && api.healthy ==>
        (ok ==> Acceptable(tunnelID, req) && Provisionable(old(api.contents), ResourceName(tunnelID), req))
      ensures !api.shared && api.healthy && (api.fills || !RawTCP(req)) ==>
        (ok <==> Acceptable(tunnelID, req) && Provisionable(old(api.contents), ResourceName(tunnelID), req))
    {
      if !Acceptable(tunnelID, req) {
        return false, Hosts("", "", "", 0), true;
      }
      var name := ResourceName(tunnelID);
      var tx;
      ok, tx, hosts := Provision(name, req, newSalt);
      undone := false;
      if ok {
        if !api.shared { ProgressWithin(old(api.contents), api.contents, name, tx, !RawTCP(req)); }
        return;
      }
      undone := Undo(name, tx, old(api.contents), !RawTCP(req));
    }

    // ---- custom domains ----

    method ValidateTunnelCoreResources(name: string) returns (ok: bool)
      requires api.Valid()
      modifies api
      ensures api.Valid() && api.Acted(name) && api.wrote == old(api.wrote)
      ensures !api.shared ==> api.contents == old(api.contents)
      ensures !api.shared && ok ==>
        IsManaged(At(api.contents, DeploymentKey(name)), name) && IsManaged(At(api.contents, HttpKey(name)), name)
      ensures !api.shared && api.healthy ==>
        (ok <==> CorePresent(old(api.contents), name))
    {
      var deployment := api.Get(DeploymentKey(name));
      if !deployment.Found? || !Managed(deployment.stored.content, name) {
        return false;
      }
      var service := api.Get(HttpKey(name));
      return service.Found? && Managed(service.stored.content, name);
    }

    /** The rollback's errors are dropped; `undone` is what the caller never learns. */
    method ConfigureCustomDomain(tunnelID: string, sealosHost: string, customDomain: string, hostsValid: bool)
      returns (ok: bool, hosts: Hosts, ghost undone: bool)
      requires api.Valid()
      modifies api
      ensures api.Valid() && api.Acted(ResourceName(tunnelID))
      ensures !api.shared && ok ==>
        var name := ResourceName(tunnelID);
        (customDomain != "" ==>
          At(api.contents, IssuerKey(name)) == Some(DesiredIssuer(name, email))
          && At(api.contents, CertificateKey(name)) == Some(DesiredCertificate(name, customDomain)))
        && Serves(api.contents, IngressKey(name), name,
                  DesiredIngress(name, sealosHost, customDomain, HTTPS, ingressAnnotations))
        && hosts == Hosts(PublicHost(sealosHost, customDomain, HTTPS), sealosHost, customDomain, 0)
        && Within(old(api.contents), api.contents, name)
      ensures !api.shared && !ok && undone ==>
        RolledBack(old(api.contents), api.contents, ResourceName(tunnelID), false)
      ensures !api.shared && api.healthy ==>
        (ok <==>
           Sessions.ValidTunnelID(tunnelID) && hostsValid
           && Configurable(old(api.contents), ResourceName(tunnelID), customDomain))
      ensures !api.shared && api.healthy && !ok ==> undone
    {
      var name := ResourceName(tunnelID);
      ok, hosts, undone := false, Hosts("", "", "", 0), true;
      if !Sessions.ValidTunnelID(tunnelID) || !hostsValid {
        return;
      }
      var core := ValidateTunnelCoreResources(name);
      if !core {
        return;
      }
      var tx := Transaction([], None, None);
      ok, tx := DomainStep(name, customDomain, tx, old(api.contents), false);
      if ok {
        ok, tx, hosts := IngressStep(name, sealosHost, customDomain, HTTPS, tx, old(api.contents), false);
      }
      if ok {
        if !api.shared { ProgressWithin(old(api.contents), api.contents, name, tx, false); }
        return;
      }
      var rolledBack := Undo(name, tx, old(api.contents), false);
      undone := rolledBack;
    }

    method ClearCustomDomain(tunnelID: string, sealosHost: string, hostValid: bool) returns (ok: bool)
      requires api.Valid()
      modifies api
      ensures api.Valid() && api.Acted(ResourceName(tunnelID))
      ensures !api.shared && ok ==>
        var name := ResourceName(tunnelID);
        DomainGone(old(api.contents), api.contents, name,
                   DesiredIngress(name, sealosHost, "", HTTPS, ingressAnnotations))
      ensures !api.shared && api.healthy ==>
        (ok <==>
           Sessions.ValidTunnelID(tunnelID) && hostValid
           && Configurable(old(api.contents), ResourceName(tunnelID), ""))
    {
      var name := ResourceName(tunnelID);
      if !Sessions.ValidTunnelID(tunnelID) || !hostValid {
        return false;
      }
      ok := ValidateTunnelCoreResources(name);
      if !ok {
        return;
      }
      var created, hosts;
      ok, created, hosts := EnsureIngress(name, sealosHost, "", HTTPS);
      if !ok {
        return;
      }
      ghost var withIngress := api.contents;
      ok := CleanupCustomDomainResources(name);
      if !api.shared && ok {
        AppliedIsLocal(old(api.contents), withIngress, IngressKey(name), name, true, created);
        ClearComplete(old(api.contents), withIngress, api.contents, name,
                      DesiredIngress(name, sealosHost, "", HTTPS, ingressAnnotations));
      }
    }

    /** Every part is attempted; the first error is reported. */
    method CleanupCustomDomainResources(name: string) returns (ok: bool)
      requires api.Valid()
      modifies api
      ensures api.Valid() && api.Acted(name)
      ensures !api.shared && ok ==> DomainCleared(old(api.contents), api.contents, name)
      ensures api.healthy ==> ok
    {
      var certificate := api.Get(CertificateKey(name));
      var issuer := api.Get(IssuerKey(name));
      ghost var s0 := api.contents;
      var certificateOk := DeleteIfManaged(CertificateKey(name), name);
      ghost var s1 := api.contents;
      var secretOk := DeleteSecretIfOwned(name, name, Snapshot(certificate));
      ghost var s2 := api.contents;
      var issuerOk := DeleteIfManaged(IssuerKey(name), name);
      ghost var s3 := api.contents;
      var accountOk := DeleteAccountKeySecret(name, Snapshot(issuer));
      ok := !certificate.Failed? && !issuer.Failed? && certificateOk && secretOk && issuerOk && accountOk;
      if !api.shared && ok { ClearedStepByStep(s0, s1, s2, s3, api.contents, name); }
    }

    method DeleteAccountKeySecret(name: string, issuer: Option<Object>) returns (ok: bool)
      requires api.Valid()
      modifies api
      ensures api.Valid() && api.Acted(name)
      ensures !api.shared ==>
        api.contents == if ok then WithoutAccountKey(old(api.contents), name, issuer) else old(api.contents)
      ensures api.healthy ==> ok
    {
      if !NamesAccountKey(issuer, name) {
        return true;
      }
      var r := api.DeleteIf(AccountKey(name), (o: Object) => Managed(o, name) || RefersToIssuer(o, name), name);
      return !r.RemovalFailed?;
    }

    // ---- reading back ----

    /** The deployment decides which of the others are looked at; the first object that is not the tunnel's, and the
        first read that fails, end it. */
    method TunnelRemoteState(tunnelID: string, defaultHost: string, codec: Codec)
      returns (state: Option<Sessions.Remote>)
      requires api.Valid()
      modifies api
      ensures api.Valid() && api.Acted(ResourceName(tunnelID)) && api.wrote == old(api.wrote)
      ensures !api.shared ==> api.contents == old(api.contents)
      ensures !api.shared && state.Some? ==>
        state == RemoteOf(api.contents, ResourceName(tunnelID), defaultHost, codec)
      ensures !api.shared && api.healthy ==>
        state == if Sessions.ValidTunnelID(tunnelID)
                 then RemoteOf(api.contents, ResourceName(tunnelID), defaultHost, codec) else None
    {
      if !Sessions.ValidTunnelID(tunnelID) {
        return None;
      }
      var name := ResourceName(tunnelID);
      var deployment := api.Get(DeploymentKey(name));
      if deployment.Failed? {
        return None;
      }
      state := FillFromDeployment(Snapshot(deployment), name, codec);
      if state.Some? {
        state := FillFromServices(name, state.value);
      }
      if state.Some? {
        state := FillFromIngress(name, state.value);
      }
      if state.Some? {
        state := FillFromAuthSecret(name, state.value, codec);
      }
      if state.Some? {
        state := Some(WithHosts(state.value, defaultHost));
      }
    }

    method FillFromServices(name: string, before: Sessions.Remote) returns (state: Option<Sessions.Remote>)
      requires api.Valid()
      modifies api
      ensures api.Valid() && api.Acted(name) && api.wrote == old(api.wrote)
      ensures !api.shared ==> api.contents == old(api.contents)
      ensures !api.shared && state.Some? ==> state == PortRead(api.contents, name, before)
      ensures !api.shared && api.healthy ==>
        state == PortRead(api.contents, name, before)
    {
      if Sessions.NormalizedProtocol(before.protocol) == HTTPS {
        return Some(before);
      }
      var ok, port := TunnelPublicPortFromServices(name, before.protocol);
      return if ok then Some(before.(publicPort := port)) else None;
    }

    method FillFromIngress(name: string, before: Sessions.Remote) returns (state: Option<Sessions.Remote>)
      requires api.Valid()
      modifies api
      ensures api.Valid() && api.Acted(name) && api.wrote == old(api.wrote)
      ensures !api.shared ==> api.contents == old(api.contents)
      ensures !api.shared && state.Some? ==> state == IngressRead(At(api.contents, IngressKey(name)), name, before)
      ensures !api.shared && api.healthy ==>
        state == IngressRead(At(api.contents, IngressKey(name)), name, before)
    {
      if RawProtocol(before.protocol) {
        return Some(before);
      }
      var ingress := api.Get(IngressKey(name));
      match ingress
      case NotFound => return Some(before);
      case Failed => return None;
      case Found(stored) =>
        if !Managed(stored.content, name) {
          return None;
        }
        var hosts := RuleHosts(stored.content.spec.rules);
        var sealosHost := InferSealosHost(hosts);
        var customDomain := InferCustomDomain(hosts, sealosHost);
        return Some(before.(sealosHost := sealosHost, customDomain := customDomain));
    }

    method FillFromAuthSecret(name: string, before: Sessions.Remote, codec: Codec)
      returns (state: Option<Sessions.Remote>)
      requires api.Valid()
      modifies api
      ensures api.Valid() && api.Acted(name) && api.wrote == old(api.wrote)
      ensures !api.shared ==> api.contents == old(api.contents)
      ensures !api.shared && state.Some? ==> state == SecretRead(At(api.contents, AuthKey(name)), name, before, codec)
      ensures !api.shared && api.healthy ==>
        state == SecretRead(At(api.contents, AuthKey(name)), name, before, codec)
    {
      var secret := api.Get(AuthKey(name));
      if secret.Failed? {
        return None;
      }
      return SecretRead(Snapshot(secret), name, before, codec);
    }

    method TunnelPublicPortFromServices(name: string, protocol: string) returns (ok: bool, port: int)
      requires api.Valid()
      modifies api
      ensures api.Valid() && api.Acted(name) && api.wrote == old(api.wrote)
      ensures !api.shared ==> api.contents == old(api.contents)
      ensures !api.shared && ok ==> PortAmong(api.contents, ServiceKeys(protocol, name), name) == Some(port)
      ensures !api.shared && api.healthy ==>
        (ok <==> PortAmong(api.contents, ServiceKeys(protocol, name), name).Some?)
    {
      var keys := ServiceKeys(protocol, name);
      for i := 0 to |keys|
        invariant api.Valid() && api.Acted(name) && api.wrote == old(api.wrote)
        invariant !api.shared ==> api.contents == old(api.contents)
        invariant !api.shared ==>
          PortAmong(api.contents, keys, name) == PortAmong(api.contents, keys[i..], name)
      {
        var service := api.Get(keys[i]);
        if service.Failed? {
          return false, 0;
        }
        if service.NotFound? {
          continue;
        }
        if !Managed(service.stored.content, name) {
          return false, 0;
        }
        port := FirstPort(service.stored.content);
        if port != 0 {
          return true, port;
        }
      }
      return true, 0;
    }

    // ---- cleanup and scaling ----

    method CleanupCoreResources(name: string) returns (ok: bool)
      requires api.Valid()
      modifies api
      ensures api.Valid() && api.Acted(name)
      ensures !api.shared && ok ==> api.contents == CoreCleaned(old(api.contents), name)
      ensures api.healthy ==> ok
    {
      var secretOk := DeleteSecretIfOwned(AuthSecretName(name), name, None);
      var deploymentOk := DeleteIfManaged(DeploymentKey(name), name);
      var serviceOk := DeleteIfManaged(HttpKey(name), name);
      var tcpOk := DeleteIfManaged(TcpKey(name), name);
      var ingressOk := DeleteIfManaged(IngressKey(name), name);
      var appOk := DeleteIfManaged(AppIngressKey(name), name);
      ok := secretOk && deploymentOk && serviceOk && tcpOk && ingressOk && appOk;
    }

    method CleanupTunnel(tunnelID: string) returns (ok: bool)
      requires api.Valid()
      modifies api
      ensures api.Valid() && api.Acted(ResourceName(tunnelID))
      ensures !api.shared && ok ==> Cleared(old(api.contents), api.contents, ResourceName(tunnelID))
      ensures api.healthy ==> (ok <==> Sessions.ValidTunnelID(tunnelID))
    {
      if !Sessions.ValidTunnelID(tunnelID) {
        return false;
      }
      var name := ResourceName(tunnelID);
      var domainOk := CleanupCustomDomainResources(name);
      ghost var mid := api.contents;
      var coreOk := CleanupCoreResources(name);
      ok := domainOk && coreOk;
      if !api.shared && ok { AllCleared(old(api.contents), mid, name); }
    }

    /** Sets the replica count and nothing else, but for what the server adds. */
    method ScaleTunnel(tunnelID: string, replicas: int) returns (ok: bool)
      requires api.Valid()
      modifies api
      ensures api.Valid() && api.Acted(ResourceName(tunnelID))
      ensures !api.shared && !ok ==> api.contents == old(api.contents)
      ensures !api.shared && ok ==>
        Scaled(old(api.contents), api.contents, ResourceName(tunnelID), replicas, api.fills)
      ensures !api.shared && api.healthy ==>
        (ok <==>
           Sessions.ValidTunnelID(tunnelID) && replicas >= 0
           && IsManaged(At(old(api.contents), DeploymentKey(ResourceName(tunnelID))), ResourceName(tunnelID)))
    {
      if !Sessions.ValidTunnelID(tunnelID) || replicas < 0 {
        return false;
      }
      var name := ResourceName(tunnelID);
      var key := DeploymentKey(name);
      var existing := api.Get(key);
      if !existing.Found? || !Managed(existing.stored.content, name) {
        return false;
      }
      if ReplicaCount(existing.stored.content.spec) == replicas {
        return true;
      }
      for attempt := 0 to CONFLICT_RETRIES
        invariant api.Valid() && api.Acted(name)
        invariant !api.shared ==> api.contents == old(api.contents)
        invariant !api.shared && api.healthy ==> attempt == 0
      {
        var current := api.Get(key);
        if !current.Found? || !Managed(current.stored.content, name) {
          return false;
        }
        if ReplicaCount(current.stored.content.spec) == replicas {
          return true;
        }
        var outcome := api.Update(key, current.stored, WithReplicas(current.stored.content, replicas), name);
        if !outcome.Conflict? {
          if !api.shared && outcome.Done? {
            ScaleWritten(old(api.contents), api.contents, name, replicas, api.fills);
          }
          return outcome.Done?;
        }
      }
      return false;
    }
  }

  /** `fillTunnelRemoteStateFromDeployment`. */
  method FillFromDeployment(o: Option<Object>, name: string, codec: Codec) returns (r: Option<Sessions.Remote>)
    ensures r == DeploymentRead(o, name, codec)
  {
    if o.None? {
      return Some(BLANK);
    }
    if !Managed(o.value, name) {
      return None;
    }
    if !o.value.spec.DeploymentSpec? {
      return Some(BLANK.(deploymentOK := true));
    }
    var args := o.value.spec.server.args;
    var protocol := DeploymentArgValue(args, "--protocol");
    var localPort := DeploymentArgValue(args, "--local-port");
    var targetURL := DeploymentArgValue(args, "--target-url");
    return Some(BLANK.(deploymentOK := true, protocol := protocol, localPort := localPort, targetURL := targetURL,
                       resources := codec.quantities(o.value.spec.server.resources)));
  }

  /** The first public port of a service. */
  method FirstPort(o: Object) returns (port: int)
    ensures port == PublicPortOf(o)
  {
    if !o.spec.ServiceSpec? {
      return 0;
    }
    var ports := o.spec.ports;
    for i := 0 to |ports|
      invariant PublicPortOf(o) == FirstNodePort(ports[i..], o.spec)
    {
      if NodePort(o.spec, ports[i].name) > 0 {
        return NodePort(o.spec, ports[i].name);
      }
    }
    return 0;
  }

  function Snapshot(r: Reply): Option<Object> {
    if r.Found? then Some(r.stored.content) else None
  }
}
