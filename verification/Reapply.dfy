/** What one tunnel of an apply file becomes when it is applied again and again: `normalizeApplyTunnel`, the reuse of
    expiry times and password hashes, `buildApplySessionRecord` and the diff of cmd/apply.go. */
module Reapply {
  import opened Text
  import opened Sessions
  import opened Transactions
  import Daemon
  import Objects
  import RemoteState
  import Routes

  datatype Login = Login(username: string, password: string)
  datatype Link = Link(name: string, tokenHash: string, ttl: string, expiresAt: string)
  datatype PolicyConfig = PolicyConfig(
    bearerTokenHashes: seq<string>, ipAllowlist: seq<string>, ipDenylist: seq<string>,
    links: seq<Link>, rateLimit: string, audit: Option<bool>)

  /** A tunnel of the apply file whose fields passed their syntax checks. */
  datatype Item = Item(
    id: string, localPort: string, targetURL: string, protocol: string, customDomain: string, login: Option<Login>,
    skipVerify: bool, resources: Option<ResourceConfig>, policy: Option<PolicyConfig>, routes: seq<Routes.Route>,
    ttl: string)

  /** Foreign code: formatting now plus a duration, reading a time back, hashing a password with a salt, checking
      a password, the effective resources of a configuration and the JSON of a policy. */
  datatype Library = Library(
    expiry: (int, string) -> string, parse: string -> Option<int>, hash: (string, string) -> string,
    check: (string, string, string, string) -> bool,
    effective: Option<ResourceConfig> -> (ResourceValues, ResourceValues), policyText: Option<AccessPolicy> -> string)

  /** An item at one moment: expiry times count from now, the password hash has a new salt. */
  datatype Normalized = Normalized(item: Item, basicAuth: Option<BasicAuth>, accessPolicy: Option<AccessPolicy>,
                                   expiresAt: string)

  function Password(item: Item): string {
    match item.login
    case None => ""
    case Some(l) => l.password
  }

  function FreshToken(link: Link, now: int, lib: Library): TemporaryToken {
    TemporaryToken(TrimSpace(link.name), link.tokenHash, link.ttl,
                   if link.ttl != "" then lib.expiry(now, link.ttl) else link.expiresAt)
  }

  function FreshTokens(links: seq<Link>, now: int, lib: Library): (r: seq<TemporaryToken>)
    ensures |r| == |links| && forall i | 0 <= i < |r| :: r[i] == FreshToken(links[i], now, lib)
  {
    seq(|links|, i requires 0 <= i < |links| => FreshToken(links[i], now, lib))
  }

  function PolicyWith(c: PolicyConfig, tokens: seq<TemporaryToken>): AccessPolicy {
    AccessPolicy(c.bearerTokenHashes, c.ipAllowlist, c.ipDenylist, tokens, c.rateLimit, c.audit)
  }

  function Fresh(item: Item, now: int, salt: string, lib: Library): Normalized {
    Normalized(item,
               (match item.login
                case None => None
                case Some(l) => Some(BasicAuth(true, l.username, lib.hash(l.password, salt), ""))),
               (match item.policy
                case None => None
                case Some(c) => Some(PolicyWith(c, FreshTokens(c.links, now, lib)))),
               if item.ttl == "" then "" else lib.expiry(now, item.ttl))
  }

  // ---- reusing expiry times ----

  function Identity(t: TemporaryToken): string {
    Join([t.name, t.tokenHash, t.ttl], "\0")
  }

  predicate Reusable(t: TemporaryToken, now: int, lib: Library) {
    t.ttl != "" && t.expiresAt != "" && lib.parse(t.expiresAt).Some? && now < lib.parse(t.expiresAt).value
  }

  /** The last reusable token of that identity. */
  function LastMatch(tokens: seq<TemporaryToken>, key: string, now: int, lib: Library): Option<TemporaryToken> {
    if tokens == [] then None
    else
      var last := tokens[|tokens| - 1];
      if Reusable(last, now, lib) && Identity(last) == key then Some(last)
        else LastMatch(tokens[..|tokens| - 1], key, now, lib)
  }

  function ReusedToken(t: TemporaryToken, existing: seq<TemporaryToken>, now: int, lib: Library): TemporaryToken {
    var found := LastMatch(existing, Identity(t), now, lib);
    if t.ttl != "" && found.Some? then t.(expiresAt := found.value.expiresAt) else t
  }

  function ReusedTokens(desired: seq<TemporaryToken>, existing: seq<TemporaryToken>, now: int,
                        lib: Library): (r: seq<TemporaryToken>)
    ensures |r| == |desired| && forall i | 0 <= i < |r| :: r[i] == ReusedToken(desired[i], existing, now, lib)
  {
    seq(|desired|, i requires 0 <= i < |desired| => ReusedToken(desired[i], existing, now, lib))
  }

  function ReusedPolicy(desired: Option<AccessPolicy>, existing: Option<AccessPolicy>, now: int,
                        lib: Library): Option<AccessPolicy> {
    if desired.None? || existing.None? then desired
    else Some(desired.value.(temporaryTokens := ReusedTokens(desired.value.temporaryTokens,
                                                             existing.value.temporaryTokens, now, lib)))
  }

  method ReuseExistingTemporaryTokenExpirations(desired: Option<AccessPolicy>, existing: Option<AccessPolicy>,
                                                now: int, lib: Library)
    returns (r: Option<AccessPolicy>)
    ensures r == ReusedPolicy(desired, existing, now, lib)
  {
    if desired.None? || existing.None? || |desired.value.temporaryTokens| == 0
      || |existing.value.temporaryTokens| == 0 {
      if desired.Some? && existing.Some? {
        assert ReusedTokens(desired.value.temporaryTokens, existing.value.temporaryTokens, now, lib)
            == desired.value.temporaryTokens;
      }
      return desired;
    }
    var existingByKey := TokensByKey(existing.value.temporaryTokens, now, lib);
    var tokens := desired.value.temporaryTokens;
    for i := 0 to |tokens|
      invariant |tokens| == |desired.value.temporaryTokens|
      invariant forall j | 0 <= j < |tokens| ::
        tokens[j] == if j < i then ReusedToken(desired.value.temporaryTokens[j], existing.value.temporaryTokens,
                                               now, lib)
                     else desired.value.temporaryTokens[j]
    {
      var token := tokens[i];
      if token.ttl != "" && Identity(token) in existingByKey {
        tokens := tokens[i := token.(expiresAt := existingByKey[Identity(token)].expiresAt)];
      }
    }
    assert tokens == ReusedTokens(desired.value.temporaryTokens, existing.value.temporaryTokens, now, lib);
    return Some(desired.value.(temporaryTokens := tokens));
  }

  /** Later tokens replace earlier ones of the same identity. */
  method TokensByKey(tokens: seq<TemporaryToken>, now: int, lib: Library) returns (byKey: map<string, TemporaryToken>)
    ensures forall key :: LastMatch(tokens, key, now, lib) == if key in byKey then Some(byKey[key]) else None
  {
    byKey := map[];
    for i := 0 to |tokens|
      invariant forall key :: LastMatch(tokens[..i], key, now, lib) == if key in byKey then Some(byKey[key]) else None
    {
      assert tokens[..i + 1][..i] == tokens[..i];
      if Reusable(tokens[i], now, lib) {
        byKey := byKey[Identity(tokens[i]) := tokens[i]];
      }
    }
    assert tokens[..|tokens|] == tokens;
  }

  /** `sessionExpired`: a time that cannot be read counts as not expired. */
  predicate Expired(s: Session, now: int, lib: Library) {
    var text := TrimSpace(s.expiry.expiresAt);
    text != "" && lib.parse(text).Some? && lib.parse(text).value <= now
  }

  /** `reuseExistingExpiration`. */
  function Reused(n: Normalized, existing: Session, now: int, lib: Library): Normalized {
    n.(expiresAt := if n.item.ttl != "" && existing.expiry.ttl == n.item.ttl
       && !Expired(existing, now, lib) && existing.expiry.expiresAt != ""
                    then existing.expiry.expiresAt else n.expiresAt,
       accessPolicy := ReusedPolicy(n.accessPolicy, existing.auth.accessPolicy, now, lib))
  }

  method ReuseExistingExpiration(normalized: Normalized, existing: Session, now: int, lib: Library)
    returns (n: Normalized)
    ensures n == Reused(normalized, existing, now, lib)
  {
    n := normalized;
    if n.item.ttl != "" && existing.expiry.ttl == n.item.ttl && !Expired(existing, now, lib)
      && existing.expiry.expiresAt != "" {
      n := n.(expiresAt := existing.expiry.expiresAt);
    }
    var policy := ReuseExistingTemporaryTokenExpirations(n.accessPolicy, existing.auth.accessPolicy, now, lib);
    n := n.(accessPolicy := policy);
  }

  /** `reuseExistingBasicAuthHash`. */
  function ReusedBasicAuth(n: Normalized, existing: Option<BasicAuth>, lib: Library): Normalized {
    if n.basicAuth.None? || existing.None? || !existing.value.enabled then n
    else
      var e, d := existing.value, n.basicAuth.value;
      if PasswordHashOf(e) == "" || Password(n.item) == "" || e.username != d.username
         || !lib.check(e.username, PasswordHashOf(e), d.username, Password(n.item))
      then n
      else
        var hash := if e.passwordHash == "" then d.passwordHash else PasswordHashOf(e);
        n.(basicAuth := Some(d.(passwordHash := hash, passwordSHA256 := "")))
  }

  // ---- the record ----

  datatype Placement = Placement(region: string, namespace: string, kubeconfig: string, secret: string,
                                 createdAt: string, hosts: Hosts)

  /** `buildApplySessionRecord`. */
  function BuildRecord(n: Normalized, place: Placement): Session {
    Session(n.item.id, Scope(place.region, place.namespace, place.kubeconfig),
            Endpoint(n.item.protocol, place.hosts.publicHost, place.hosts.sealosHost, place.hosts.customDomain,
                     place.hosts.publicPort,
                     n.item.localPort, n.item.targetURL, n.item.routes, n.item.skipVerify),
            Credentials(place.secret, n.basicAuth, n.accessPolicy), n.item.resources,
            Expiry(n.item.ttl, n.expiresAt), Owner("daemon", 0, ""), Status(PENDING, false, "", ""),
            Stamps(place.createdAt, ""), ["sealtun-" + n.item.id])
  }

  /** The record an apply of the item writes over an existing record. */
  function Reapplied(item: Item, now: int, salt: string, existing: Session, place: Placement, lib: Library): Session {
    var reused := Reused(Fresh(item, now, salt, lib), existing, now, lib);
    BuildRecord(ReusedBasicAuth(reused, existing.auth.basicAuth, lib), place)
  }

  // ---- re-applying changes nothing ----

  predicate TokensFor(tokens: seq<TemporaryToken>, links: seq<Link>) {
    && |tokens| == |links|
    && (forall i | 0 <= i < |tokens| ::
          && tokens[i].name == TrimSpace(links[i].name) && tokens[i].tokenHash == links[i].tokenHash
            && tokens[i].ttl == links[i].ttl
          && (links[i].ttl == "" ==> tokens[i].expiresAt == links[i].expiresAt))
    && (forall i, j | 0 <= i < |tokens| && 0 <= j < |tokens| ::
          tokens[i].ttl != "" && Identity(tokens[i]) == Identity(tokens[j]) ==>
            tokens[i].expiresAt == tokens[j].expiresAt)
  }

  predicate PolicyFor(policy: Option<AccessPolicy>, config: Option<PolicyConfig>) {
    match (policy, config)
    case (None, None) => true
    case (Some(p), Some(c)) =>
      && p.bearerTokenHashes == c.bearerTokenHashes && p.ipAllowlist == c.ipAllowlist && p.ipDenylist == c.ipDenylist
      && p.rateLimit == c.rateLimit && p.audit == c.audit && TokensFor(p.temporaryTokens, c.links)
    case _ => false
  }

  predicate LoginFor(basicAuth: Option<BasicAuth>, login: Option<Login>, lib: Library) {
    match (basicAuth, login)
    case (None, None) => true
    case (Some(b), Some(l)) =>
      b.enabled && b.username == l.username && b.passwordHash != "" && b.passwordSHA256 == ""
      && lib.check(b.username, b.passwordHash, l.username, l.password)
    case _ => false
  }

  /** The record carries what the item asks for, with expiry times from whenever it was applied first. */
  predicate BuiltFor(r: Session, item: Item, lib: Library) {
    && r.expiry.ttl == item.ttl && (item.ttl == "" <==> r.expiry.expiresAt == "")
    && PolicyFor(r.auth.accessPolicy, item.policy) && LoginFor(r.auth.basicAuth, item.login, lib)
  }

  /** The time, if it is one, is still to come. */
  predicate Lasting(text: string, now: int, lib: Library) {
    TrimSpace(text) == "" || lib.parse(TrimSpace(text)).None? || now < lib.parse(TrimSpace(text)).value
  }

  /** None of the record's expiry times that count from an apply has been reached. */
  predicate Live(r: Session, now: int, lib: Library) {
    && (r.expiry.ttl != "" ==> Lasting(r.expiry.expiresAt, now, lib))
    && (r.auth.accessPolicy.Some? ==>
          forall t | t in r.auth.accessPolicy.value.temporaryTokens :: t.ttl != "" ==> Reusable(t, now, lib))
  }

  /** A password checks against its own hash, however salted, and formatted times are not empty. Token hashes are
      hexadecimal and durations are durations: neither contains a NUL. */
  ghost predicate Sound(item: Item, lib: Library) {
    && (item.login.Some? ==> item.login.value.password != "")
    && (item.login.Some? ==> forall salt :: SaltedCheck(item.login.value, salt, lib))
    && (forall now, ttl :: lib.expiry(now, ttl) != "")
    && (item.policy.Some? ==> PlainLinks(item.policy.value.links))
  }

  predicate SaltedCheck(l: Login, salt: string, lib: Library) {
    lib.hash(l.password, salt) != "" && lib.check(l.username, lib.hash(l.password, salt), l.username, l.password)
  }

  /** The identity of a token tells name, hash and duration apart, whatever the name. */
  lemma IdentityInjective(s: TemporaryToken, t: TemporaryToken)
    requires '\0' !in s.tokenHash && '\0' !in s.ttl && '\0' !in t.tokenHash && '\0' !in t.ttl
    requires Identity(s) == Identity(t)
    ensures s.name == t.name && s.tokenHash == t.tokenHash && s.ttl == t.ttl
  {
    IdentityParts(s);
    IdentityParts(t);
    CutLast(s.name + ['\0'] + s.tokenHash, s.ttl, t.name + ['\0'] + t.tokenHash, t.ttl, '\0');
    CutLast(s.name, s.tokenHash, t.name, t.tokenHash, '\0');
  }

  lemma IdentityParts(t: TemporaryToken)
    ensures Identity(t) == (t.name + ['\0'] + t.tokenHash) + ['\0'] + t.ttl
  {
    var parts := [t.name, t.tokenHash, t.ttl];
    assert parts[1..] == [t.tokenHash, t.ttl] && parts[1..][1..] == [t.ttl];
    assert Join(parts[1..], "\0") == t.tokenHash + "\0" + t.ttl;
  }

  /** A first apply leaves a record built for the item. */
  lemma FirstApply(item: Item, now: int, salt: string, place: Placement, lib: Library)
    requires Sound(item, lib)
    ensures BuiltFor(BuildRecord(Fresh(item, now, salt, lib), place), item, lib)
  {
    if item.login.Some? { assert SaltedCheck(item.login.value, salt, lib); }
    if item.policy.Some? { FreshTokensFit(item.policy.value.links, now, lib); }
  }

  predicate PlainLinks(links: seq<Link>) {
    forall l | l in links :: '\0' !in l.tokenHash && '\0' !in l.ttl
  }

  /** Fresh tokens of the same identity have the same duration. */
  lemma SameIdentity(links: seq<Link>, i: nat, j: nat, now: int, lib: Library)
    requires PlainLinks(links) && i < |links| && j < |links|
    requires Identity(FreshToken(links[i], now, lib)) == Identity(FreshToken(links[j], now, lib))
    ensures links[i].ttl == links[j].ttl
  {
    assert links[i] in links && links[j] in links;
    IdentityInjective(FreshToken(links[i], now, lib), FreshToken(links[j], now, lib));
  }

  lemma FreshTokensFit(links: seq<Link>, now: int, lib: Library)
    requires PlainLinks(links)
    ensures TokensFor(FreshTokens(links, now, lib), links)
  {
    var tokens := FreshTokens(links, now, lib);
    forall i, j | 0 <= i < |tokens| && 0 <= j < |tokens| && tokens[i].ttl != ""
      && Identity(tokens[i]) == Identity(tokens[j])
      ensures tokens[i].expiresAt == tokens[j].expiresAt
    {
      SameIdentity(links, i, j, now, lib);
    }
  }

  lemma ReusedTokensFit(links: seq<Link>, existing: seq<TemporaryToken>, now: int, lib: Library)
    requires PlainLinks(links)
    ensures TokensFor(ReusedTokens(FreshTokens(links, now, lib), existing, now, lib), links)
  {
    var sent := FreshTokens(links, now, lib);
    var tokens := ReusedTokens(sent, existing, now, lib);
    forall i | 0 <= i < |tokens| ensures Identity(tokens[i]) == Identity(sent[i]) {
      assert tokens[i] == ReusedToken(sent[i], existing, now, lib);
    }
    forall i, j | 0 <= i < |tokens| && 0 <= j < |tokens| && tokens[i].ttl != ""
      && Identity(tokens[i]) == Identity(tokens[j])
      ensures tokens[i].expiresAt == tokens[j].expiresAt
    {
      SameIdentity(links, i, j, now, lib);
    }
  }

  lemma {:induction false} LastMatchFound(tokens: seq<TemporaryToken>, k: nat, now: int, lib: Library)
    requires k < |tokens| && Reusable(tokens[k], now, lib)
    ensures var found := LastMatch(tokens, Identity(tokens[k]), now, lib);
      found.Some? && found.value in tokens && Identity(found.value) == Identity(tokens[k])
    decreases |tokens|
  {
    var n := |tokens| - 1;
    if !(Reusable(tokens[n], now, lib) && Identity(tokens[n]) == Identity(tokens[k])) {
      LastMatchFound(tokens[..n], k, now, lib);
    }
  }

  lemma TokensKept(links: seq<Link>, existing: seq<TemporaryToken>, now: int, lib: Library)
    requires TokensFor(existing, links) && forall t | t in existing :: t.ttl != "" ==> Reusable(t, now, lib)
    ensures ReusedTokens(FreshTokens(links, now, lib), existing, now, lib) == existing
  {
    var desired := FreshTokens(links, now, lib);
    forall i | 0 <= i < |desired| ensures ReusedToken(desired[i], existing, now, lib) == existing[i] {
      assert Identity(desired[i]) == Identity(existing[i]);
      if existing[i].ttl != "" { LastMatchFound(existing, i, now, lib); }
    }
  }

  /** The token found is the last one of its identity that has not expired. */
  lemma {:induction false} LastMatchIsLast(tokens: seq<TemporaryToken>, key: string, now: int, lib: Library)
    ensures var found := LastMatch(tokens, key, now, lib);
      if found.None? then forall k | 0 <= k < |tokens| :: !(Reusable(tokens[k], now, lib) && Identity(tokens[k]) == key)
      else exists k | 0 <= k < |tokens| ::
        && tokens[k] == found.value && Reusable(tokens[k], now, lib) && Identity(tokens[k]) == key
        && forall j | k < j < |tokens| :: !(Reusable(tokens[j], now, lib) && Identity(tokens[j]) == key)
    decreases |tokens|
  {
    if tokens != [] {
      var n := |tokens| - 1;
      LastMatchIsLast(tokens[..n], key, now, lib);
      if Reusable(tokens[n], now, lib) && Identity(tokens[n]) == key {
        assert LastMatch(tokens, key, now, lib) == Some(tokens[n]);
      } else if LastMatch(tokens, key, now, lib).Some? {
        var k :| 0 <= k < n && tokens[..n][k] == LastMatch(tokens, key, now, lib).value
          && Reusable(tokens[..n][k], now, lib) && Identity(tokens[..n][k]) == key
          && forall j | k < j < n :: !(Reusable(tokens[..n][j], now, lib) && Identity(tokens[..n][j]) == key);
        assert forall j | 0 <= j < n :: tokens[..n][j] == tokens[j];
      }
    }
  }

  function FromNow(ttl: string, now: int, lib: Library): string {
    if ttl == "" then "" else lib.expiry(now, ttl)
  }

  /** The tunnel's expiry is the old one while that lasts and the duration is the same; else it counts from now. */
  lemma ExpiryReapplied(item: Item, now: int, salt: string, existing: Session, place: Placement, lib: Library)
    ensures var before, written := existing.expiry, Reapplied(item, now, salt, existing, place, lib).expiry;
      && written.ttl == item.ttl
      && (before.ttl == item.ttl != "" && before.expiresAt != "" && Lasting(before.expiresAt, now, lib) ==>
            written == before)
      && (written.expiresAt == before.expiresAt || written.expiresAt == FromNow(item.ttl, now, lib))
      && (before.ttl != item.ttl || !Lasting(before.expiresAt, now, lib) ==>
            written.expiresAt == FromNow(item.ttl, now, lib))
  {}

  /** A time that counts from now has not been reached yet. */
  ghost predicate Ahead(now: int, lib: Library) {
    forall ttl | ttl != "" ::
      && lib.parse(lib.expiry(now, ttl)).Some? && now < lib.parse(lib.expiry(now, ttl)).value
      && TrimSpace(lib.expiry(now, ttl)) == lib.expiry(now, ttl)
  }

  /** Whatever the existing record holds, the record written over it is built for the item: the item's password checks
      against the hash stored, and the policy and the durations are the item's. */
  lemma ReappliedIsBuiltFor(item: Item, now: int, salt: string, existing: Session, place: Placement, lib: Library)
    requires Sound(item, lib)
    ensures BuiltFor(Reapplied(item, now, salt, existing, place, lib), item, lib)
  {
    if item.login.Some? { assert SaltedCheck(item.login.value, salt, lib); }
    if item.policy.Some? {
      FreshTokensFit(item.policy.value.links, now, lib);
      if existing.auth.accessPolicy.Some? {
        ReusedTokensFit(item.policy.value.links, existing.auth.accessPolicy.value.temporaryTokens, now, lib);
      }
    }
  }

  /** No expiry time written by an apply has been reached: an old one is taken over only while it lasts. */
  lemma ReappliedIsLive(item: Item, now: int, salt: string, existing: Session, place: Placement, lib: Library)
    requires Sound(item, lib) && Ahead(now, lib)
    ensures Live(Reapplied(item, now, salt, existing, place, lib), now, lib)
  {
    if item.policy.Some? && existing.auth.accessPolicy.Some? {
      var links, before := item.policy.value.links, existing.auth.accessPolicy.value.temporaryTokens;
      var tokens := ReusedTokens(FreshTokens(links, now, lib), before, now, lib);
      forall i | 0 <= i < |tokens| && tokens[i].ttl != "" ensures Reusable(tokens[i], now, lib) {
        LastMatchIsLast(before, Identity(FreshToken(links[i], now, lib)), now, lib);
      }
      assert forall t | t in tokens :: exists i :: 0 <= i < |tokens| && tokens[i] == t;
    }
  }

  /** Re-applying an item over a record built for it, before the record's expiries, moves no expiry time and
      keeps the stored password hash. */
  lemma ReapplyKeeps(item: Item, now: int, salt: string, existing: Session, place: Placement, lib: Library)
    requires Sound(item, lib) && BuiltFor(existing, item, lib) && Live(existing, now, lib)
    ensures var r := Reapplied(item, now, salt, existing, place, lib);
      r.expiry == existing.expiry && r.auth.accessPolicy == existing.auth.accessPolicy
        && r.auth.basicAuth == existing.auth.basicAuth
  {
    if item.policy.Some? {
      TokensKept(item.policy.value.links, existing.auth.accessPolicy.value.temporaryTokens, now, lib);
    }
  }

  /** The daemon starts a worker for every record an apply writes. */
  lemma AppliedIsDesirable(n: Normalized, place: Placement)
    ensures Daemon.Desirable(BuildRecord(n, place))
  {}

  // ---- what is provisioned and what is recorded ----

  /** The request of `applyOneTunnel`, for the host and the domain it settled on. */
  function ApplyRequest(n: Normalized, secret: string, sealosHost: string, customDomain: string, image: Option<string>,
                        codec: RemoteState.Codec): Objects.Request {
    Objects.Request(secret, n.item.protocol, n.item.localPort, n.item.targetURL, RemoteState.LoginSent(n.basicAuth),
                    RemoteState.PolicySent(n.accessPolicy, codec), image, codec.requirements(n.item.resources),
                    sealosHost, customDomain, true, true)
  }

  /** The record of an apply agrees with the state read back from the cluster it provisioned exactly when nothing in it
      is lost on the way: the record is made of the very values that were sent and reported. */
  lemma AppliedRecordAgrees(n: Normalized, place: Placement, image: Option<string>, v: RemoteState.View)
    requires v.Stands() && v.tunnelID == n.item.id && v.hosts == place.hosts
    requires v.req == ApplyRequest(n, place.secret, v.req.sealosHost, v.req.customDomain, image, v.codec)
    requires NormalizedProtocol(n.item.protocol) == n.item.protocol
    ensures v.Read().Some?
    ensures var record := BuildRecord(n, place);
      Merged(record, v.Read().value) == record <==>
        && RemoteState.Survives(record.auth) && RemoteState.Trimmed(n.item.targetURL)
        && v.codec.quantities(v.req.resources.value) == ResourcesToRemote(n.item.resources)
  {
    RemoteState.EnsuredRecordAgrees(v, BuildRecord(n, place));
  }

  // ---- between two applies ----

  /** The record kept what the next apply looks at; for a diff also where the tunnel points and its resources. */
  predicate Keeps(a: Session, b: Session, forDiff: bool) {
    && b.auth == a.auth && b.expiry == a.expiry && b.status.scrubbed == a.status.scrubbed
    && (forDiff ==> b.endpoint == a.endpoint && b.resourceConfig == a.resourceConfig)
  }

  /** The cluster has the credentials of the record, and for a diff everything else of it. */
  predicate InSync(s: Session, state: Remote, forDiff: bool) {
    && (state.authSecretOK ==> MergedCredentials(s.auth, state) == s.auth)
    && (forDiff ==> MergedEndpoint(s.endpoint, state) == s.endpoint)
    && (forDiff ==> MergedResources(s.resourceConfig, state) == s.resourceConfig)
  }

  /** The state was read from a cluster whose auth secret, unless it is gone, has the record's credentials; for a diff,
      where the tunnel stands as the record says. */
  ghost predicate ReadAs(v: RemoteState.View, base: Session, state: Remote, forDiff: bool) {
    && v.tunnelID == base.tunnelID && v.Read() == Some(state)
    && v.SecretStands() && RemoteState.AsksCredentials(v.req, base.auth, v.codec) && RemoteState.Survives(base.auth)
    && (forDiff ==>
          && v.Stands() && RemoteState.AsksEndpoint(v.req, v.hosts, base.endpoint)
          && RemoteState.Trimmed(base.endpoint.targetURL)
          && v.req.resources == v.codec.requirements(base.resourceConfig)
          && v.codec.quantities(v.req.resources.value) == ResourcesToRemote(base.resourceConfig))
  }

  ghost predicate ReadBack(base: Session, state: Remote, forDiff: bool) {
    exists v :: ReadAs(v, base, state, forDiff)
  }

  /** Reading back what was ensured gives a state that a merge agrees with. */
  lemma ReadInSync(v: RemoteState.View, base: Session, state: Remote, forDiff: bool)
    requires ReadAs(v, base, state, forDiff) && !base.status.scrubbed
    ensures InSync(base, state, forDiff)
  {
    RemoteState.SecretOnlyReadBack(v, base.auth);
    if forDiff { RemoteState.EnsuredRecordAgrees(v, base); }
  }

  /** What may happen to a tunnel between two applies: worker steps, merges of what was read back from the cluster,
      commands for other tunnels, scrubs of their records, and updates that keep what matters, such as attaching a
      domain before an apply. */
  ghost predicate Harmless(w: World, e: Event, base: Session, forDiff: bool) {
    match e
    case Merge(id, state) => id == base.tunnelID ==> ReadBack(base, state, forDiff)
    case UpdateAtomic(id, mutate) =>
      id == base.tunnelID ==>
        forall s: Session | Keeps(base, s, forDiff) && mutate(s).Change? :: Keeps(s, mutate(s).next, forDiff)
    case WorkerStop(worker) =>
      worker in w.held && w.held[worker].tunnelID == base.tunnelID ==> w.held[worker].auth.secret != ""
    case Scrub(name) => ScrubsElsewhere(w.files, name, base.tunnelID)
    case _ => NoCommandFor(e, base.tunnelID)
  }

  predicate ScrubsElsewhere(files: Files, name: string, id: string) {
    name != id && (name in files && files[name].Record? ==> files[name].session.tunnelID != id)
  }

  /** The stored record is still the tunnel's and kept what matters. */
  predicate StillStored(files: Files, base: Session, forDiff: bool) {
    Lookup(files, base.tunnelID).Some? && Keeps(base, Lookup(files, base.tunnelID).value, forDiff)
  }

  lemma SaveKeeps(files: Files, next: Session, p: Process, base: Session, forDiff: bool)
    requires StillStored(files, base, forDiff) && !base.status.scrubbed
    requires next.tunnelID == base.tunnelID ==> Keeps(base, next, forDiff)
    ensures StillStored(Saved(files, next, p), base, forDiff)
  {
    SavedElsewhere(files, next, p, base.tunnelID);
  }

  lemma MutationKeeps(files: Files, id: string, mutate: Session -> Mutation, p: Process, base: Session, forDiff: bool)
    requires StillStored(files, base, forDiff) && !base.status.scrubbed
    requires id == base.tunnelID ==>
      forall s: Session | Keeps(base, s, forDiff) && mutate(s).Change? :: Keeps(s, mutate(s).next, forDiff)
    ensures StillStored(Mutated(files, id, mutate, p), base, forDiff)
  {
    if Lookup(files, id).Some? {
      var m := mutate(Lookup(files, id).value);
      if m.Change? && m.next.tunnelID == id { SaveKeeps(files, m.next, p, base, forDiff); }
    }
  }

  lemma MarkKeeps(mark: Mark, pid: int, forDiff: bool)
    ensures forall s: Session | MarkMutation(mark, pid)(s).Change? :: Keeps(s, MarkMutation(mark, pid)(s).next, forDiff)
  {}

  lemma MergeKeeps(base: Session, state: Remote, forDiff: bool)
    requires InSync(base, state, forDiff)
    ensures forall s: Session | Keeps(base, s, forDiff) && MergeMutation(state)(s).Change? ::
      Keeps(s, MergeMutation(state)(s).next, forDiff)
  {}

  lemma ReadBackKeeps(base: Session, state: Remote, forDiff: bool)
    requires ReadBack(base, state, forDiff) && !base.status.scrubbed
    ensures forall s: Session | Keeps(base, s, forDiff) && MergeMutation(state)(s).Change? ::
      Keeps(s, MergeMutation(state)(s).next, forDiff)
  {
    var v :| ReadAs(v, base, state, forDiff);
    ReadInSync(v, base, state, forDiff);
    MergeKeeps(base, state, forDiff);
  }

  /** A write that keeps what matters. */
  ghost predicate HarmlessWrite(files: Files, write: Write, base: Session, forDiff: bool) {
    match write
    case Nothing => true
    case WriteRecord(s) => s.tunnelID == base.tunnelID ==> Keeps(base, s, forDiff)
    case Mutate(id, mutate) =>
      id == base.tunnelID ==>
        forall s: Session | Keeps(base, s, forDiff) && mutate(s).Change? :: Keeps(s, mutate(s).next, forDiff)
    case Remove(id) => id != base.tunnelID
    case ScrubEntry(name) => ScrubsElsewhere(files, name, base.tunnelID)
  }

  lemma WriteKeeps(files: Files, write: Write, p: Process, base: Session, forDiff: bool)
    requires StillStored(files, base, forDiff) && !base.status.scrubbed && HarmlessWrite(files, write, base, forDiff)
    ensures StillStored(Effect(files, write, p), base, forDiff)
  {
    match write
    case Nothing =>
    case WriteRecord(s) => SaveKeeps(files, s, p, base, forDiff);
    case Mutate(id, mutate) => MutationKeeps(files, id, mutate, p, base, forDiff);
    case Remove(id) =>
    case ScrubEntry(name) =>
      if name in files && files[name].Record? {
        SavedElsewhere(files, WithNote(Wiped(files[name].session), SCRUB_NOTE), p, base.tunnelID);
      }
  }

  lemma MergeIsHarmless(w: World, id: string, state: Remote, p: Process, base: Session, forDiff: bool)
    requires !base.status.scrubbed && Harmless(w, Merge(id, state), base, forDiff)
    ensures HarmlessWrite(w.files, WriteOf(w, Merge(id, state), p), base, forDiff)
  {
    if id == base.tunnelID { ReadBackKeeps(base, state, forDiff); }
  }

  lemma WorkerIsHarmless(w: World, e: Event, p: Process, base: Session, forDiff: bool)
    requires (e.WorkerStop? || e.WorkerMark?) && Harmless(w, e, base, forDiff)
    ensures HarmlessWrite(w.files, WriteOf(w, e, p), base, forDiff)
  {
    if e.WorkerMark? { MarkKeeps(e.mark, p.pid, forDiff); }
  }

  lemma HarmlessIsHarmlessWrite(w: World, e: Event, p: Process, base: Session, forDiff: bool)
    requires !base.status.scrubbed && Harmless(w, e, base, forDiff)
    ensures HarmlessWrite(w.files, WriteOf(w, e, p), base, forDiff)
  {
    if e.Merge? {
      MergeIsHarmless(w, e.id, e.state, p, base, forDiff);
    } else if e.WorkerStop? || e.WorkerMark? {
      WorkerIsHarmless(w, e, p, base, forDiff);
    }
  }

  lemma HarmlessStep(w: World, e: Event, p: Process, base: Session, forDiff: bool)
    requires StillStored(w.files, base, forDiff) && !base.status.scrubbed && Harmless(w, e, base, forDiff)
    ensures StillStored(Effect(w.files, WriteOf(w, e, p), p), base, forDiff)
  {
    HarmlessIsHarmlessWrite(w, e, p, base, forDiff);
    WriteKeeps(w.files, WriteOf(w, e, p), p, base, forDiff);
  }

  /** A stretch of a run of the store, from the record an apply saved to the record the next apply or diff reads. */
  datatype Gap = Gap(worlds: seq<World>, events: seq<Event>, processes: seq<Process>)

  ghost predicate Bridges(gap: Gap, applied: Session, stored: Session, forDiff: bool) {
    && Run(gap.worlds, gap.events, gap.processes)
    && Lookup(gap.worlds[0].files, applied.tunnelID).Some?
    && SameRecord(Lookup(gap.worlds[0].files, applied.tunnelID).value, applied)
    && (forall k | 0 <= k < |gap.events| :: Harmless(gap.worlds[k], gap.events[k], applied, forDiff))
    && Lookup(gap.worlds[|gap.events|].files, applied.tunnelID) == Some(stored)
  }

  lemma {:induction false} GapKeeps(worlds: seq<World>, events: seq<Event>, processes: seq<Process>, base: Session,
                                    forDiff: bool)
    requires Run(worlds, events, processes) && StillStored(worlds[0].files, base, forDiff) && !base.status.scrubbed
    requires forall k | 0 <= k < |events| :: Harmless(worlds[k], events[k], base, forDiff)
    ensures StillStored(worlds[|events|].files, base, forDiff)
    decreases |events|
  {
    if events != [] {
      var n := |events| - 1;
      GapKeeps(worlds[..n + 1], events[..n], processes[..n], base, forDiff);
      HarmlessStep(worlds[n], events[n], processes[n], base, forDiff);
    }
  }

  lemma BridgeKeeps(gap: Gap, applied: Session, stored: Session, forDiff: bool)
    requires Bridges(gap, applied, stored, forDiff) && !applied.status.scrubbed
    ensures Keeps(applied, stored, forDiff)
  {
    GapKeeps(gap.worlds, gap.events, gap.processes, applied, forDiff);
  }

  /** Applies of one item in a row, with anything harmless going on in the store between two of them. */
  ghost predicate ApplyRun(item: Item, records: seq<Session>, stored: seq<Session>, gaps: seq<Gap>, times: seq<int>,
                           salts: seq<string>, places: seq<Placement>, lib: Library)
  {
    && |records| == |times| + 1 && |stored| == |gaps| == |salts| == |places| == |times|
    && !records[0].status.scrubbed
    && forall i | 0 <= i < |times| ::
         Bridges(gaps[i], records[i], stored[i], false)
         && records[i + 1] == Reapplied(item, times[i], salts[i], stored[i], places[i], lib)
  }

  /** However often an item is applied before its expiries, and whatever harmless things happen in between, the tunnel
      and every link keep the expiry times of the first apply. */
  lemma {:induction false} ReapplyingMovesNothing(
    item: Item, records: seq<Session>, stored: seq<Session>, gaps: seq<Gap>, times: seq<int>, salts: seq<string>,
    places: seq<Placement>, lib: Library)
    requires Sound(item, lib) && ApplyRun(item, records, stored, gaps, times, salts, places, lib)
    requires BuiltFor(records[0], item, lib) && forall i | 0 <= i < |times| :: Live(records[0], times[i], lib)
    ensures var last := records[|times|];
      && last.expiry == records[0].expiry && last.auth.accessPolicy == records[0].auth.accessPolicy
      && last.auth.basicAuth == records[0].auth.basicAuth && BuiltFor(last, item, lib) && !last.status.scrubbed
    decreases |times|
  {
    if times != [] {
      var n := |times| - 1;
      ReapplyingMovesNothing(item, records[..n + 1], stored[..n], gaps[..n], times[..n], salts[..n], places[..n], lib);
      assert Live(records[0], times[n], lib);
      BridgeKeeps(gaps[n], records[n], stored[n], false);
      ReapplyKeeps(item, times[n], salts[n], stored[n], places[n], lib);
    }
  }

  // ---- diff ----

  /** Which lines a diff reports. */
  datatype AddressChanges = AddressChanges(localPort: bool, target: bool, targetTLS: bool, protocol: bool,
                                           routeTable: bool, domain: bool)
  datatype PolicyChanges = PolicyChanges(basicAuth: bool, accessPolicy: bool, resources: bool, expiresAt: bool)
  datatype Changes = Changes(address: AddressChanges, policy: PolicyChanges)

  function OnlyDomain(domain: bool): Changes {
    Changes(AddressChanges(false, false, false, false, false, domain), PolicyChanges(false, false, false, false))
  }

  function DefaultTargetURL(port: string): string {
    if port == "" || port == "-" then "" else "http://localhost:" + port
  }

  function SessionTargetURL(s: Session): string {
    if TrimSpace(s.endpoint.targetURL) != "" then s.endpoint.targetURL else DefaultTargetURL(s.endpoint.localPort)
  }

  function ValueOr(value: string, fallback: string): string {
    if value == "" then fallback else value
  }

  predicate BasicAuthChanged(current: Option<BasicAuth>, desired: Option<BasicAuth>, password: string, lib: Library) {
    var currentEnabled := current.Some? && current.value.enabled;
    var desiredEnabled := desired.Some? && desired.value.enabled;
    if currentEnabled != desiredEnabled then true
    else if !currentEnabled then false
    else if current.value.username != desired.value.username then true
    else if password == "" then PasswordHashOf(current.value) != PasswordHashOf(desired.value)
    else !lib.check(current.value.username, PasswordHashOf(current.value), desired.value.username, password)
  }

  function AddressChangesOf(e: Endpoint, currentTarget: string, item: Item): AddressChanges {
    AddressChanges(e.localPort != item.localPort, currentTarget != item.targetURL, e.skipVerify != item.skipVerify,
                   ValueOr(e.protocol, "https") != item.protocol,
                   multiset(Routes.EqualKeys(e.routes)) != multiset(Routes.EqualKeys(item.routes)),
                   e.customDomain != item.customDomain)
  }

  function PolicyChangesOf(existing: Session, n: Normalized, lib: Library): PolicyChanges {
    PolicyChanges(BasicAuthChanged(existing.auth.basicAuth, n.basicAuth, Password(n.item), lib),
                  lib.policyText(existing.auth.accessPolicy) != lib.policyText(n.accessPolicy),
                  lib.effective(existing.resourceConfig) != lib.effective(n.item.resources),
                  existing.expiry.expiresAt != n.expiresAt)
  }

  function ChangesOf(existing: Session, n: Normalized, lib: Library): Changes {
    Changes(AddressChangesOf(existing.endpoint, SessionTargetURL(existing), n.item), PolicyChangesOf(existing, n, lib))
  }

  /** The loop body of `runDiffConfigWithSessionLookup` for a tunnel that exists. */
  method DiffTunnel(item: Item, existing: Session, now: int, salt: string, lib: Library) returns (c: Changes)
    ensures c == ChangesOf(existing, Reused(Fresh(item, now, salt, lib), existing, now, lib), lib)
  {
    var n := ReuseExistingExpiration(Fresh(item, now, salt, lib), existing, now, lib);
    var address := DiffAddress(existing.endpoint, SessionTargetURL(existing), n.item);
    var policy := DiffPolicy(existing, n, lib);
    c := Changes(address, policy);
  }

  method DiffAddress(e: Endpoint, currentTarget: string, item: Item) returns (c: AddressChanges)
    ensures c == AddressChangesOf(e, currentTarget, item)
  {
    var localPort, target, targetTLS, protocol, domain := false, false, false, false, false;
    if e.localPort != item.localPort {
      localPort := true;
    }
    if currentTarget != item.targetURL {
      target := true;
    }
    if e.skipVerify != item.skipVerify {
      targetTLS := true;
    }
    if ValueOr(e.protocol, "https") != item.protocol {
      protocol := true;
    }
    var sameRoutes := Routes.Equal(e.routes, item.routes);
    if e.customDomain != item.customDomain {
      domain := true;
    }
    c := AddressChanges(localPort, target, targetTLS, protocol, !sameRoutes, domain);
  }

  method DiffPolicy(existing: Session, n: Normalized, lib: Library) returns (c: PolicyChanges)
    ensures c == PolicyChangesOf(existing, n, lib)
  {
    var basicAuth, accessPolicy, resources, expiresAt := false, false, false, false;
    if BasicAuthChanged(existing.auth.basicAuth, n.basicAuth, Password(n.item), lib) {
      basicAuth := true;
    }
    if lib.policyText(existing.auth.accessPolicy) != lib.policyText(n.accessPolicy) {
      accessPolicy := true;
    }
    if lib.effective(existing.resourceConfig) != lib.effective(n.item.resources) {
      resources := true;
    }
    if existing.expiry.expiresAt != n.expiresAt {
      expiresAt := true;
    }
    c := PolicyChanges(basicAuth, accessPolicy, resources, expiresAt);
  }

  /** The address lines, on the fields themselves; a record without a target URL serves its local port, and one without
      a protocol is an HTTPS tunnel. */
  lemma AddressLines(existing: Session, n: Normalized, lib: Library)
    ensures var e, item, c := existing.endpoint, n.item, ChangesOf(existing, n, lib).address;
      && (c.localPort <==> e.localPort != item.localPort) && (c.domain <==> e.customDomain != item.customDomain)
      && (c.targetTLS <==> e.skipVerify != item.skipVerify)
      && (TrimSpace(e.targetURL) != "" ==> (c.target <==> e.targetURL != item.targetURL))
      && (TrimSpace(e.targetURL) == "" && e.localPort != "" && e.localPort != "-" ==>
            (c.target <==> item.targetURL != "http://localhost:" + e.localPort))
      && (TrimSpace(e.targetURL) == "" && (e.localPort == "" || e.localPort == "-") ==>
            (c.target <==> item.targetURL != ""))
      && (e.protocol != "" ==> (c.protocol <==> e.protocol != item.protocol))
      && (e.protocol == "" ==> (c.protocol <==> item.protocol != "https"))
      && (Routes.ValidTable(e.routes) && Routes.ValidTable(item.routes) ==>
            (!c.routeTable <==> forall path: string ::
               Routes.Matched(e.routes, path) == Routes.Matched(item.routes, path)))
  {
    if Routes.ValidTable(existing.endpoint.routes) && Routes.ValidTable(n.item.routes) {
      Routes.EqualIffSameDispatch(existing.endpoint.routes, n.item.routes);
    }
  }

  predicate Enabled(b: Option<BasicAuth>) {
    b.Some? && b.value.enabled
  }

  /** The policy lines: the login changes with its presence, its user name, and its password, which is the same if it
      checks against the stored hash or, where it is not given, if the hashes are equal. */
  lemma PolicyLines(existing: Session, n: Normalized, lib: Library)
    ensures var c := ChangesOf(existing, n, lib).policy;
      && (!Enabled(existing.auth.basicAuth) || !Enabled(n.basicAuth) ==>
            (c.basicAuth <==> Enabled(existing.auth.basicAuth) || Enabled(n.basicAuth)))
      && (Enabled(existing.auth.basicAuth) && Enabled(n.basicAuth) ==>
            var stored, wanted := existing.auth.basicAuth.value, n.basicAuth.value;
            (!c.basicAuth <==>
               stored.username == wanted.username
               && if Password(n.item) == "" then PasswordHashOf(stored) == PasswordHashOf(wanted)
                  else lib.check(stored.username, PasswordHashOf(stored), wanted.username, Password(n.item))))
      && (c.accessPolicy <==> lib.policyText(existing.auth.accessPolicy) != lib.policyText(n.accessPolicy))
      && (c.resources <==> lib.effective(existing.resourceConfig) != lib.effective(n.item.resources))
      && (c.expiresAt <==> existing.expiry.expiresAt != n.expiresAt)
  {}

  /** A diff of the item against the record its apply stored reports the domain when the requested one was not
      attached, and nothing else, at any time before the expiries and whatever the workers wrote meanwhile. */
  lemma DiffCleanIffAttached(item: Item, applied: Session, n: Normalized, place: Placement, gap: Gap, stored: Session,
                             now: int, salt: string, lib: Library)
    requires Sound(item, lib) && n.item == item && applied == BuildRecord(n, place) && BuiltFor(applied, item, lib)
    requires Bridges(gap, applied, stored, true) && Live(stored, now, lib)
    requires TrimSpace(item.targetURL) != "" && item.protocol != ""
    ensures ChangesOf(stored, Reused(Fresh(item, now, salt, lib), stored, now, lib), lib)
      == OnlyDomain(place.hosts.customDomain != item.customDomain)
  {
    BridgeKeeps(gap, applied, stored, true);
    if item.policy.Some? {
      TokensKept(item.policy.value.links, stored.auth.accessPolicy.value.temporaryTokens, now, lib);
    }
  }
}
