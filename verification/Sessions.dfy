/** The encrypted on-disk session store of pkg/session/session.go, the remote merge of
    cmd/session_helpers.go and the record writes of the daemon worker in cmd/daemon.go. Every write is one
    step under the store lock: it either happens completely or not at all. */
module Sessions {
  import opened Text
  import Routes

  const STOPPED := "stopped"
  const PENDING := "pending"
  const CONNECTING := "connecting"
  const CONNECTED := "connected"
  const ERROR := "error"
  const SCRUB_NOTE := "local credentials scrubbed"

  datatype BasicAuth = BasicAuth(enabled: bool, username: string, passwordHash: string, passwordSHA256: string)
  datatype TemporaryToken = TemporaryToken(name: string, tokenHash: string, ttl: string, expiresAt: string)
  datatype AccessPolicy = AccessPolicy(
    bearerTokenHashes: seq<string>, ipAllowlist: seq<string>, ipDenylist: seq<string>,
    temporaryTokens: seq<TemporaryToken>, rateLimit: string, audit: Option<bool>)
  datatype ResourceValues = ResourceValues(cpu: string, memory: string)
  datatype ResourceConfig = ResourceConfig(requests: Option<ResourceValues>, limits: Option<ResourceValues>)

  datatype Scope = Scope(region: string, namespace: string, kubeconfig: string)
  datatype Endpoint = Endpoint(
    protocol: string, host: string, sealosHost: string, customDomain: string, publicPort: int,
    localPort: string, targetURL: string, routes: seq<Routes.Route>, skipVerify: bool)
  datatype Credentials = Credentials(secret: string, basicAuth: Option<BasicAuth>, accessPolicy: Option<AccessPolicy>)
  datatype Expiry = Expiry(ttl: string, expiresAt: string)
  datatype Owner = Owner(mode: string, pid: int, pidStartToken: string)
  datatype Status = Status(connectionState: string, scrubbed: bool, lastError: string, lastConnectedAt: string)
  datatype Stamps = Stamps(createdAt: string, updatedAt: string)

  /** `TunnelSession`, its flat fields grouped by who writes them. */
  datatype Session = Session(
    tunnelID: string, scope: Scope, endpoint: Endpoint, auth: Credentials, resourceConfig: Option<ResourceConfig>,
    expiry: Expiry, owner: Owner, status: Status, stamps: Stamps, resources: seq<string>)

  /** A session file: one the key does not open, one that is not a record, or a record. */
  datatype File = Undecryptable | Unparsable | Record(session: Session)

  type Files = map<string, File>

  /** The writing process: its id, the start token of any process, its clock, and whether the disk takes the write. */
  datatype Process = Process(pid: int, startToken: int -> string, now: string, disk: bool)

  predicate IdChar(c: char) { 'a' <= c <= 'z' || '0' <= c <= '9' }

  predicate ValidTunnelID(id: string) {
    1 <= |id| <= 55 && IdChar(id[0]) && IdChar(id[|id| - 1])
    && forall i | 0 <= i < |id| :: IdChar(id[i]) || id[i] == '-'
  }

  /** A label of a DNS name (section 2.3.1 of RFC 1035, digits allowed in front), in lower case. */
  predicate DnsLabel(s: string) {
    && s != "" && |s| <= 63 && s[0] != '-' && s[|s| - 1] != '-'
    && forall c | c in s :: c == '-' || 'a' <= c <= 'z' || '0' <= c <= '9'
  }

  /** The ids are the labels that still fit with the eight characters of the resource prefix in front. */
  lemma TunnelIDsAreLabels(id: string)
    ensures ValidTunnelID(id) <==> DnsLabel(id) && |id| + 8 <= 63
  {
    if ValidTunnelID(id) {
      forall c | c in id ensures c == '-' || 'a' <= c <= 'z' || '0' <= c <= '9' {
        var i :| 0 <= i < |id| && id[i] == c;
      }
    }
    if DnsLabel(id) { assert forall i | 0 <= i < |id| :: id[i] in id; }
  }

  // ---- what one save writes ----

  function Stamped(s: Session, p: Process): Session {
    s.(stamps := Stamps(if s.stamps.createdAt == "" then p.now else s.stamps.createdAt, p.now))
  }

  /** `syncPIDStartToken`. */
  function TokenSynced(s: Session, p: Process): Session {
    if s.owner.pid <= 0 then s.(owner := s.owner.(pidStartToken := ""))
    else if s.owner.pid == p.pid || s.owner.pidStartToken == ""
    then s.(owner := s.owner.(pidStartToken := p.startToken(s.owner.pid)))
    else s
  }

  /** The creation time is set once, the update time at every save. */
  lemma StampsWritten(s: Session, p: Process)
    ensures Stamped(s, p).stamps.updatedAt == p.now
    ensures s.stamps.createdAt != "" ==> Stamped(s, p).stamps.createdAt == s.stamps.createdAt
    ensures s.stamps.createdAt == "" ==> Stamped(s, p).stamps.createdAt == p.now
    ensures Stamped(s, p).(stamps := s.stamps) == s
  {}

  /** No owner has no start token; the writer's own token is always looked up anew; somebody else's is kept, and looked
      up only where it is missing. */
  lemma TokensWritten(s: Session, p: Process)
    ensures var token := TokenSynced(s, p).owner.pidStartToken;
      && (s.owner.pid < 1 ==> token == "")
      && (s.owner.pid >= 1 && s.owner.pid == p.pid ==> token == p.startToken(p.pid))
      && (s.owner.pid >= 1 && s.owner.pid != p.pid && s.owner.pidStartToken != "" ==> token == s.owner.pidStartToken)
      && (s.owner.pid >= 1 && s.owner.pidStartToken == "" ==> token == p.startToken(s.owner.pid))
    ensures TokenSynced(s, p) == s.(owner := s.owner.(pidStartToken := TokenSynced(s, p).owner.pidStartToken))
  {}

  function WithNote(s: Session, note: string): Session {
    s.(status := s.status.(lastError := note))
  }

  function Wiped(s: Session): Session {
    s.(auth := Credentials("", None, None), scope := s.scope.(kubeconfig := ""), owner := s.owner.(pid := 0),
       status := s.status.(connectionState := STOPPED, scrubbed := true))
  }

  function PreservedOver(existing: Session, next: Session): Session {
    if existing.tunnelID == next.tunnelID && existing.status.scrubbed
    then WithNote(Wiped(next), if next.status.lastError == "" then SCRUB_NOTE else next.status.lastError)
    else next
  }

  /** `preserveScrubbedCredentials`: an unreadable old file is an error, an unparsable one is not. */
  function Preserved(files: Files, next: Session): Option<Session> {
    if next.tunnelID !in files then Some(next)
    else match files[next.tunnelID]
      case Undecryptable => None
      case Unparsable => Some(next)
      case Record(existing) => Some(PreservedOver(existing, next))
  }

  /** The record a save leaves behind, or None when the save is refused. */
  function Written(files: Files, s: Session, p: Process): Option<Session> {
    if !ValidTunnelID(s.tunnelID) then None
    else Preserved(files, TokenSynced(Stamped(s, p), p))
  }

  function Saved(files: Files, s: Session, p: Process): Files {
    match Written(files, s, p)
    case None => files
    case Some(r) => files[s.tunnelID := Record(r)]
  }

  /** What `Get` returns: only a readable record whose id is the name of its file. */
  function Lookup(files: Files, id: string): Option<Session> {
    if ValidTunnelID(id) && id in files && files[id].Record? && files[id].session.tunnelID == id
    then Some(files[id].session) else None
  }

  datatype Mutation = Refuse | Keep(current: Session) | Change(next: Session)

  /** `UpdateAtomic`: reads, mutates and writes under one lock. */
  function Mutated(files: Files, id: string, mutate: Session -> Mutation, p: Process): Files {
    match Lookup(files, id)
    case None => files
    case Some(current) =>
      var m := mutate(current);
      if m.Change? && m.next.tunnelID == id then Saved(files, m.next, p) else files
  }

  /** What `UpdateAtomic` returns: the mutated copy, unless the mutation refuses, changes the id, or cannot be
      written. */
  function Updated(files: Files, id: string, mutate: Session -> Mutation, p: Process): Option<Session> {
    match Lookup(files, id)
    case None => None
    case Some(current) =>
      match mutate(current)
      case Refuse => None
      case Keep(next) => if next.tunnelID == id then Some(next) else None
      case Change(next) => if next.tunnelID == id && p.disk && Written(files, next, p).Some? then Some(next) else None
  }

  /** An entry of `ScrubCredentials` that needs no write, or whose write works. */
  predicate EntryTaken(files: Files, name: string, p: Process, disk: bool) {
    name in files ==>
      match files[name]
      case Record(s) =>
        if !ValidTunnelID(s.tunnelID) then disk
        else s.status.scrubbed || (disk && Written(files, WithNote(Wiped(s), SCRUB_NOTE), p).Some?)
      case _ => disk
  }

  /** How many entries are done before the first that cannot be written. */
  function Handled(files: Files, entries: seq<string>, p: Process, disks: seq<bool>): nat
    requires |disks| == |entries|
    decreases |entries|
  {
    if entries == [] || !EntryTaken(files, entries[0], p, disks[0]) then 0
    else 1 + Handled(EntryScrubbed(files, entries[0], p), entries[1..], p, disks[1..])
  }

  /** One directory entry of `ScrubCredentials`. */
  function EntryScrubbed(files: Files, name: string, p: Process): Files {
    if name !in files then files
    else match files[name]
      case Undecryptable => files - {name}
      case Unparsable => files - {name}
      case Record(s) =>
        if !ValidTunnelID(s.tunnelID) then files - {name}
        else if s.status.scrubbed then files
        else Saved(files, WithNote(Wiped(s), SCRUB_NOTE), p)
  }

  function EntriesScrubbed(files: Files, names: seq<string>, p: Process): Files {
    if names == [] then files
    else EntryScrubbed(EntriesScrubbed(files, names[..|names| - 1], p), names[|names| - 1], p)
  }

  /** The store: a directory of session files. Any disk operation may fail and then changes nothing. */
  class SessionStore {
    var files: Files

    method SaveLocked(s: Session, p: Process) returns (ok: bool)
      modifies this
      ensures files == if ok then Saved(old(files), s, p) else old(files)
      ensures ok <==> p.disk && Written(old(files), s, p).Some?
    {
      if !ValidTunnelID(s.tunnelID) {
        return false;
      }
      var next := s;
      if next.stamps.createdAt == "" {
        next := next.(stamps := next.stamps.(createdAt := p.now));
      }
      next := next.(stamps := next.stamps.(updatedAt := p.now));
      next := TokenSynced(next, p);
      if s.tunnelID in files {
        match files[s.tunnelID]
        case Undecryptable => return false;
        case Unparsable =>
        case Record(existing) =>
          if existing.tunnelID == next.tunnelID && existing.status.scrubbed {
            next := Wiped(next);
            if next.status.lastError == "" {
              next := WithNote(next, SCRUB_NOTE);
            }
          }
      }
      if p.disk {
        files := files[s.tunnelID := Record(next)];
      }
      return p.disk;
    }

    method Save(s: Session, p: Process) returns (ok: bool)
      modifies this
      ensures files == if ok then Saved(old(files), s, p) else old(files)
      ensures ok <==> p.disk && Written(old(files), s, p).Some?
    {
      ok := SaveLocked(s, p);
    }

    /** Only over an existing file. */
    method Update(s: Session, p: Process) returns (ok: bool)
      modifies this
      ensures files == if ok then Saved(old(files), s, p) else old(files)
      ensures ok <==> s.tunnelID in old(files) && p.disk && Written(old(files), s, p).Some?
    {
      if !ValidTunnelID(s.tunnelID) || s.tunnelID !in files {
        return false;
      }
      ok := SaveLocked(s, p);
    }

    method Get(id: string) returns (r: Option<Session>)
      ensures r == Lookup(files, id)
    {
      if !ValidTunnelID(id) || id !in files {
        return None;
      }
      match files[id]
      case Undecryptable => return None;
      case Unparsable => return None;
      case Record(s) =>
        return if s.tunnelID != id then None else Some(s);
    }

    /** Returns the mutated copy, which is not what was written when the old record was scrubbed. */
    method UpdateAtomic(id: string, mutate: Session -> Mutation, p: Process) returns (r: Option<Session>)
      modifies this
      ensures files == if r.Some? then Mutated(old(files), id, mutate, p) else old(files)
      ensures r == Updated(old(files), id, mutate, p)
    {
      var current := Get(id);
      if current.None? {
        return None;
      }
      match mutate(current.value)
      case Refuse => return None;
      case Keep(next) =>
        return if next.tunnelID != id then None else Some(next);
      case Change(next) =>
        if next.tunnelID != id {
          return None;
        }
        var ok := SaveLocked(next, p);
        return if ok then Some(next) else None;
    }

    method Delete(id: string, disk: bool) returns (ok: bool)
      modifies this
      ensures files == if ok then old(files) - {id} else old(files)
      ensures ok <==> disk && ValidTunnelID(id)
    {
      if !ValidTunnelID(id) {
        return false;
      }
      if disk {
        files := files - {id};
      }
      return disk;
    }

    /** Walks the directory listing and stops at the first entry it cannot rewrite; `disks` says for each entry
        whether the disk takes the write. */
    method ScrubCredentials(entries: seq<string>, p: Process, disks: seq<bool>) returns (ok: bool, done: nat)
      requires |disks| == |entries|
      modifies this
      ensures done <= |entries| && (ok <==> done == |entries|)
      ensures done == Handled(old(files), entries, p, disks)
      ensures files == EntriesScrubbed(old(files), entries[..done], p)
    {
      done := 0;
      while done < |entries|
        invariant done <= |entries|
        invariant files == EntriesScrubbed(old(files), entries[..done], p)
        invariant Handled(old(files), entries, p, disks) == done + Handled(files, entries[done..], p, disks[done..])
      {
        assert entries[..done + 1][..done] == entries[..done];
        ok := ScrubEntry(entries[done], p, disks[done]);
        if !ok {
          return;
        }
        done := done + 1;
      }
      assert entries[..|entries|] == entries;
      ok := true;
    }

    method ScrubEntry(name: string, p: Process, disk: bool) returns (ok: bool)
      modifies this
      ensures files == if ok then EntryScrubbed(old(files), name, p) else old(files)
      ensures ok <==> EntryTaken(old(files), name, p, disk)
    {
      if name !in files {
        return true;
      }
      match files[name]
      case Record(s) =>
        if ValidTunnelID(s.tunnelID) {
          if s.status.scrubbed {
            return true;
          }
          ok := SaveLocked(WithNote(Wiped(s), SCRUB_NOTE), p.(disk := disk));
          return;
        }
        if disk {
          files := files - {name};
        }
        return disk;
      case _ =>
        if disk {
          files := files - {name};
        }
        return disk;
    }
  }

  // ---- remote merge ----

  datatype RemoteBasicAuth = RemoteBasicAuth(username: string, passwordHash: string)
  datatype RemoteResources = RemoteResources(requests: ResourceValues, limits: ResourceValues)
  datatype Remote = Remote(
    publicHost: string, sealosHost: string, customDomain: string, publicPort: int, secret: string,
    protocol: string, localPort: string, targetURL: string, basicAuth: Option<RemoteBasicAuth>,
    accessPolicy: Option<AccessPolicy>, resources: Option<RemoteResources>, authSecretOK: bool, deploymentOK: bool)

  /** ASCII lower case. */
  function Lower(s: string): string {
    seq(|s|, i requires 0 <= i < |s| => if 'A' <= s[i] <= 'Z' then (s[i] as int + 32) as char else s[i])
  }

  /** Capital letters are moved to the small ones, and nothing else changes. */
  lemma LowerCased(s: string, i: nat)
    requires i < |s|
    ensures |Lower(s)| == |s|
    ensures 'A' <= s[i] <= 'Z' ==> Lower(s)[i] as int - 'a' as int == s[i] as int - 'A' as int
    ensures s[i] < 'A' || s[i] > 'Z' ==> Lower(s)[i] == s[i]
  {}

  function NormalizedProtocol(s: string): string {
    Lower(TrimSpace(s))
  }

  function PasswordHashOf(b: BasicAuth): string {
    if b.passwordHash != "" then b.passwordHash else b.passwordSHA256
  }

  predicate BasicAuthEqual(current: Option<BasicAuth>, next: Option<RemoteBasicAuth>) {
    match (current, next)
    case (None, None) => true
    case (Some(c), Some(n)) => c.enabled && c.username == n.username && PasswordHashOf(c) == n.passwordHash
    case _ => false
  }

  function BasicAuthFromRemote(b: Option<RemoteBasicAuth>): Option<BasicAuth> {
    match b
    case None => None
    case Some(n) => Some(BasicAuth(true, n.username, n.passwordHash, ""))
  }

  function ValuesOrEmpty(v: Option<ResourceValues>): ResourceValues {
    match v
    case None => ResourceValues("", "")
    case Some(r) => r
  }

  function ResourcesToRemote(r: Option<ResourceConfig>): Option<RemoteResources> {
    match r
    case None => None
    case Some(c) => Some(RemoteResources(ValuesOrEmpty(c.requests), ValuesOrEmpty(c.limits)))
  }

  function ResourcesFromRemote(r: Option<RemoteResources>): Option<ResourceConfig> {
    match r
    case None => None
    case Some(c) => Some(ResourceConfig(Some(c.requests), Some(c.limits)))
  }

  function WantHost(state: Remote): string {
    if state.publicHost == "" then state.sealosHost else state.publicHost
  }

  function MergedAddress(e: Endpoint, state: Remote): Endpoint {
    e.(sealosHost := if state.sealosHost != "" then state.sealosHost else e.sealosHost,
       customDomain := state.customDomain,
       publicPort := if state.publicPort != 0 || (state.deploymentOK && state.protocol != "") then state.publicPort
         else e.publicPort,
       host := if WantHost(state) != "" then WantHost(state) else e.host)
  }

  function MergedTarget(e: Endpoint, state: Remote): Endpoint {
    e.(protocol := if state.protocol != "" then NormalizedProtocol(state.protocol) else e.protocol,
       localPort := if state.localPort != "" then state.localPort else e.localPort,
       targetURL := state.targetURL)
  }

  function MergedEndpoint(e: Endpoint, state: Remote): Endpoint {
    MergedTarget(MergedAddress(e, state), state)
  }

  function MergedCredentials(c: Credentials, state: Remote): Credentials {
    Credentials(if state.secret != "" then state.secret else c.secret,
                if BasicAuthEqual(c.basicAuth, state.basicAuth) then c.basicAuth
                  else BasicAuthFromRemote(state.basicAuth),
                state.accessPolicy)
  }

  function MergedResources(r: Option<ResourceConfig>, state: Remote): Option<ResourceConfig> {
    if state.deploymentOK && ResourcesToRemote(r) != state.resources then ResourcesFromRemote(state.resources) else r
  }

  /** The record after the remote state was merged in. */
  function Merged(s: Session, state: Remote): Session {
    s.(endpoint := MergedEndpoint(s.endpoint, state),
       auth := if state.authSecretOK && !s.status.scrubbed then MergedCredentials(s.auth, state) else s.auth,
       resourceConfig := MergedResources(s.resourceConfig, state))
  }

  /** The record says of its login what the cluster says. */
  predicate SameLoginAs(b: Option<BasicAuth>, remote: Option<RemoteBasicAuth>) {
    match remote
    case None => b.None?
    case Some(r) =>
      b.Some? && b.value.enabled && b.value.username == r.username && PasswordHashOf(b.value) == r.passwordHash
  }

  /** What the cluster decides about the address of a tunnel, and what it leaves alone. */
  lemma AddressMerged(s: Session, state: Remote)
    ensures var e, m := s.endpoint, Merged(s, state).endpoint;
      && m.customDomain == state.customDomain && m.targetURL == state.targetURL
      && m.routes == e.routes && m.skipVerify == e.skipVerify
      && (state.sealosHost == "" ==> m.sealosHost == e.sealosHost)
      && (state.sealosHost != "" ==> m.sealosHost == state.sealosHost)
      && (state.publicHost != "" ==> m.host == state.publicHost)
      && (state.publicHost == "" && state.sealosHost != "" ==> m.host == state.sealosHost)
      && (state.publicHost == "" && state.sealosHost == "" ==> m.host == e.host)
      && (state.localPort == "" ==> m.localPort == e.localPort)
      && (state.localPort != "" ==> m.localPort == state.localPort)
      && (state.protocol == "" ==> m.protocol == e.protocol)
      && (state.protocol != "" ==> m.protocol == NormalizedProtocol(state.protocol))
  {}

  /** The public port is taken over where there is one, or where a deployment with a protocol says that there is
      none. */
  lemma PortMerged(s: Session, state: Remote)
    ensures var m := Merged(s, state).endpoint.publicPort;
      && (state.publicPort != 0 ==> m == state.publicPort)
      && (state.publicPort == 0 && state.deploymentOK && state.protocol != "" ==> m == 0)
      && (state.publicPort == 0 && (!state.deploymentOK || state.protocol == "") ==> m == s.endpoint.publicPort)
  {}

  /** A scrubbed record gets no credentials back; any other takes over what a readable auth secret holds. */
  lemma CredentialsMerged(s: Session, state: Remote)
    ensures s.status.scrubbed || !state.authSecretOK ==> Merged(s, state).auth == s.auth
    ensures !s.status.scrubbed && state.authSecretOK ==>
      var m := Merged(s, state).auth;
      && m.accessPolicy == state.accessPolicy && SameLoginAs(m.basicAuth, state.basicAuth)
      && (SameLoginAs(s.auth.basicAuth, state.basicAuth) ==> m.basicAuth == s.auth.basicAuth)
      && (state.secret == "" ==> m.secret == s.auth.secret) && (state.secret != "" ==> m.secret == state.secret)
  {}

  /** The resources are those of a deployment that could be read. */
  lemma ResourcesMerged(s: Session, state: Remote)
    ensures var m := Merged(s, state).resourceConfig;
      && (!state.deploymentOK ==> m == s.resourceConfig)
      && (state.deploymentOK && state.resources.None? ==> m.None?)
      && (state.deploymentOK && state.resources.Some? ==>
            && m.Some? && ValuesOrEmpty(m.value.requests) == state.resources.value.requests
            && ValuesOrEmpty(m.value.limits) == state.resources.value.limits)
  {}

  /** `mergeSessionRemoteState`: rewrites field by field and reports exactly whether anything changed. */
  method MergeSessionRemoteState(current: Session, state: Remote) returns (s: Session, changed: bool)
    ensures s == Merged(current, state)
    ensures changed <==> s != current
  {
    var e, addressChanged := MergeAddress(current.endpoint, state);
    var targetChanged;
    e, targetChanged := MergeTarget(e, state);
    var auth, authChanged := current.auth, false;
    if state.authSecretOK && !current.status.scrubbed {
      if state.secret != "" && state.secret != auth.secret {
        auth, authChanged := auth.(secret := state.secret), true;
      }
      if !BasicAuthEqual(auth.basicAuth, state.basicAuth) {
        auth, authChanged := auth.(basicAuth := BasicAuthFromRemote(state.basicAuth)), true;
      }
      if auth.accessPolicy != state.accessPolicy {
        auth, authChanged := auth.(accessPolicy := state.accessPolicy), true;
      }
    }
    var resources, resourcesChanged := current.resourceConfig, false;
    if state.deploymentOK {
      if ResourcesToRemote(resources) != state.resources {
        resources, resourcesChanged := ResourcesFromRemote(state.resources), true;
      }
    }
    s := current.(endpoint := e, auth := auth, resourceConfig := resources);
    changed := addressChanged || targetChanged || authChanged || resourcesChanged;
  }

  method MergeAddress(current: Endpoint, state: Remote) returns (e: Endpoint, changed: bool)
    ensures e == MergedAddress(current, state)
    ensures changed <==> e != current
  {
    e, changed := current, false;
    if state.sealosHost != "" && state.sealosHost != e.sealosHost {
      e, changed := e.(sealosHost := state.sealosHost), true;
    }
    if state.customDomain != e.customDomain {
      e, changed := e.(customDomain := state.customDomain), true;
    }
    var publicPortAuthoritative := state.publicPort != 0 || (state.deploymentOK && state.protocol != "");
    if publicPortAuthoritative && state.publicPort != e.publicPort {
      e, changed := e.(publicPort := state.publicPort), true;
    }
    var wantHost := state.publicHost;
    if wantHost == "" {
      wantHost := state.sealosHost;
    }
    if wantHost != "" && wantHost != e.host {
      e, changed := e.(host := wantHost), true;
    }
  }

  method MergeTarget(current: Endpoint, state: Remote) returns (e: Endpoint, changed: bool)
    ensures e == MergedTarget(current, state)
    ensures changed <==> e != current
  {
    e, changed := current, false;
    if state.protocol != "" {
      var normalized := NormalizedProtocol(state.protocol);
      if normalized != e.protocol {
        e, changed := e.(protocol := normalized), true;
      }
    }
    if state.localPort != "" && state.localPort != e.localPort {
      e, changed := e.(localPort := state.localPort), true;
    }
    if state.targetURL != e.targetURL {
      e, changed := e.(targetURL := state.targetURL), true;
    }
  }

  /** Merging the same remote state again changes nothing. */
  lemma MergeIdempotent(s: Session, state: Remote)
    ensures Merged(Merged(s, state), state) == Merged(s, state)
  {
    assert BasicAuthEqual(MergedCredentials(s.auth, state).basicAuth, state.basicAuth);
  }

  /** The mutation `refreshSessionFromRemoteLocked` hands to `UpdateAtomic`. */
  function MergeMutation(state: Remote): Session -> Mutation {
    (s: Session) => if Merged(s, state) != s then Change(Merged(s, state)) else Keep(s)
  }

  // ---- the daemon worker's writes ----

  /** What a worker reports about its connection. */
  datatype Mark = MarkConnecting | MarkConnected(now: string) | MarkError(message: string)

  /** The guarded mutations of `runDaemonTunnel`. */
  function MarkMutation(mark: Mark, pid: int): Session -> Mutation {
    (s: Session) =>
      if s.status.connectionState == STOPPED then Keep(s)
      else
        var owned := s.(owner := s.owner.(mode := "daemon", pid := pid));
        match mark
        case MarkConnecting => Change(owned.(status := s.status.(connectionState := CONNECTING, lastError := "")))
        case MarkConnected(now) =>
          Change(owned.(status := s.status.(connectionState := CONNECTED, lastError := "", lastConnectedAt := now)))
        case MarkError(message) => Change(owned.(status := s.status.(connectionState := ERROR, lastError := message)))
  }

  /** What a worker saves when the record it read earlier had no secret. */
  function MissingSecretStop(read: Session): Session {
    read.(owner := read.owner.(mode := "daemon", pid := 0),
          status := read.status.(connectionState := STOPPED,
                                 lastError := "session secret is unavailable; login or recreate the tunnel"))
  }

  // ---- runs ----

  /** One step of anybody: commands saving, updating or deleting, the credential scrub entry by entry,
      remote merges, and the steps of daemon workers. A worker keeps the record it last read, which may be
      out of date by the time it writes. Every write may also fail and change nothing. */
  datatype Event =
    | Save(s: Session)
    | Update(s: Session)
    | UpdateAtomic(id: string, mutate: Session -> Mutation)
    | Delete(id: string)
    | Scrub(name: string)
    | Merge(id: string, state: Remote)
    | WorkerRead(worker: nat, id: string)
    | WorkerStop(worker: nat)
    | WorkerMark(id: string, mark: Mark)

  datatype World = World(files: Files, held: map<nat, Session>)

  /** What one step does to the files, under one lock. */
  datatype Write =
    | Nothing
    | WriteRecord(s: Session)
    | Mutate(id: string, mutate: Session -> Mutation)
    | Remove(id: string)
    | ScrubEntry(name: string)

  function Effect(files: Files, write: Write, p: Process): Files {
    match write
    case Nothing => files
    case WriteRecord(s) => Saved(files, s, p)
    case Mutate(id, mutate) => Mutated(files, id, mutate, p)
    case Remove(id) => if ValidTunnelID(id) then files - {id} else files
    case ScrubEntry(name) => EntryScrubbed(files, name, p)
  }

  /** The write an event asks for. */
  function WriteOf(w: World, e: Event, p: Process): Write {
    match e
    case Save(s) => WriteRecord(s)
    case Update(s) => if s.tunnelID in w.files then WriteRecord(s) else Nothing
    case UpdateAtomic(id, mutate) => Mutate(id, mutate)
    case Delete(id) => Remove(id)
    case Scrub(name) => ScrubEntry(name)
    case Merge(id, state) => Mutate(id, MergeMutation(state))
    case WorkerRead(worker, id) => Nothing
    case WorkerStop(worker) =>
      if worker in w.held && w.held[worker].status.connectionState != STOPPED && w.held[worker].auth.secret == ""
         && w.held[worker].tunnelID in w.files
      then WriteRecord(MissingSecretStop(w.held[worker]))
      else Nothing
    case WorkerMark(id, mark) => Mutate(id, MarkMutation(mark, p.pid))
  }

  /** What the events of commands do to the files is what the store's methods do when the disk takes the write. */
  lemma CommandsAreCalls(w: World, s: Session, id: string, mutate: Session -> Mutation, p: Process)
    ensures Effect(w.files, WriteOf(w, Save(s), p), p) == Saved(w.files, s, p)
    ensures Effect(w.files, WriteOf(w, Update(s), p), p) ==
      if s.tunnelID in w.files then Saved(w.files, s, p) else w.files
    ensures Effect(w.files, WriteOf(w, UpdateAtomic(id, mutate), p), p) == Mutated(w.files, id, mutate, p)
    ensures Effect(w.files, WriteOf(w, Delete(id), p), p) == if ValidTunnelID(id) then w.files - {id} else w.files
    ensures Effect(w.files, WriteOf(w, Scrub(id), p), p) == EntryScrubbed(w.files, id, p)
  {}

  /** A worker whose record has no secret stops it, unless it is stopped already or gone; it writes the record it
      read. */
  lemma WorkerStops(w: World, worker: nat, p: Process)
    requires worker in w.held
    ensures var read := w.held[worker];
      Effect(w.files, WriteOf(w, WorkerStop(worker), p), p) ==
        if read.auth.secret == "" && read.status.connectionState != "stopped" && read.tunnelID in w.files
        then Saved(w.files, MissingSecretStop(read), p) else w.files
  {}

  /** What workers write: the record stays the daemon's, with the worker's process while it connects or is connected,
      and with none when it stops for want of a secret. A stopped record is not written over. */
  lemma WorkersWrite(s: Session, mark: Mark, pid: int)
    ensures var m := MarkMutation(mark, pid)(s);
      if s.status.connectionState == "stopped" then m == Keep(s)
      else
        && m.Change? && m.next.owner.mode == "daemon" && m.next.owner.pid == pid && m.next.auth == s.auth
        && m.next.status.connectionState ==
             (match mark
              case MarkConnecting => "connecting"
              case MarkConnected(_) => "connected"
              case MarkError(_) => "error")
        && m.next.status.lastError == (if mark.MarkError? then mark.message else "")
        && (mark.MarkConnected? ==> m.next.status.lastConnectedAt == mark.now)
    ensures var stop := MissingSecretStop(s);
      stop.owner.mode == "daemon" && stop.owner.pid == 0 && stop.status.connectionState == "stopped"
      && stop.status.lastError != ""
  {}

  ghost predicate Step(w: World, next: World, e: Event, p: Process) {
    && (next.files == w.files || next.files == Effect(w.files, WriteOf(w, e, p), p))
    && next.held ==
         (if e.WorkerRead? && Lookup(w.files, e.id).Some? then w.held[e.worker := Lookup(w.files, e.id).value]
          else w.held)
  }

  /** A run: worlds joined by steps. */
  ghost predicate Run(worlds: seq<World>, events: seq<Event>, processes: seq<Process>) {
    && |worlds| == |events| + 1 && |processes| == |events|
    && forall i | 0 <= i < |events| :: Step(worlds[i], worlds[i + 1], events[i], processes[i])
  }

  predicate ScrubbedAt(files: Files, id: string) {
    ValidTunnelID(id) && id in files && files[id].Record? && files[id].session.tunnelID == id
      && files[id].session.status.scrubbed
  }

  /** Nothing usable is left in a scrubbed record. */
  predicate Clean(s: Session) {
    s.status.scrubbed && s.auth == Credentials("", None, None) && s.scope.kubeconfig == ""
    && s.owner.pid == 0 && s.status.connectionState == STOPPED
  }

  lemma SavedElsewhere(files: Files, s: Session, p: Process, id: string)
    ensures id != s.tunnelID && id in files ==> id in Saved(files, s, p) && Saved(files, s, p)[id] == files[id]
    ensures id != s.tunnelID && id !in files ==> id !in Saved(files, s, p)
  {}

  /** Over a scrubbed record every save writes a clean one. */
  lemma SavedOverScrubbed(files: Files, s: Session, p: Process)
    requires ScrubbedAt(files, s.tunnelID)
    ensures ScrubbedAt(Saved(files, s, p), s.tunnelID)
    ensures Saved(files, s, p) == files || Clean(Saved(files, s, p)[s.tunnelID].session)
  {}

  /** One write keeps a scrubbed record scrubbed and, if it touches the record at all, clean. */
  lemma ScrubStep(files: Files, write: Write, p: Process, id: string)
    requires ScrubbedAt(files, id) && !(write.Remove? && write.id == id)
    ensures var next := Effect(files, write, p);
      ScrubbedAt(next, id) && (next[id] == files[id] || Clean(next[id].session))
  {
    match write
    case Nothing =>
    case WriteRecord(s) => SavedAnywhere(files, s, p, id);
    case Mutate(target, mutate) => MutatedAnywhere(files, target, mutate, p, id);
    case Remove(target) =>
    case ScrubEntry(name) => EntryAnywhere(files, name, p, id);
  }

  lemma EntryAnywhere(files: Files, name: string, p: Process, id: string)
    requires ScrubbedAt(files, id)
    ensures var next := EntryScrubbed(files, name, p);
      ScrubbedAt(next, id) && (next[id] == files[id] || Clean(next[id].session))
  {
    if name in files && files[name].Record? {
      SavedAnywhere(files, WithNote(Wiped(files[name].session), SCRUB_NOTE), p, id);
    }
  }

  lemma SavedAnywhere(files: Files, s: Session, p: Process, id: string)
    requires ScrubbedAt(files, id)
    ensures var next := Saved(files, s, p);
      ScrubbedAt(next, id) && (next[id] == files[id] || Clean(next[id].session))
  {
    if s.tunnelID == id { SavedOverScrubbed(files, s, p); } else { SavedElsewhere(files, s, p, id); }
  }

  lemma MutatedAnywhere(files: Files, target: string, mutate: Session -> Mutation, p: Process, id: string)
    requires ScrubbedAt(files, id)
    ensures var next := Mutated(files, target, mutate, p);
      ScrubbedAt(next, id) && (next[id] == files[id] || Clean(next[id].session))
  {
    if Lookup(files, target).Some? {
      var m := mutate(Lookup(files, target).value);
      if m.Change? { SavedAnywhere(files, m.next, p, id); }
    }
  }

  /** Once scrubbed, a record stays scrubbed until it is deleted, whatever anybody writes; and it is either
      the untouched original or free of credentials, without an owner and stopped. */
  lemma {:induction false} ScrubIsSticky(worlds: seq<World>, events: seq<Event>, processes: seq<Process>, id: string)
    requires Run(worlds, events, processes) && ScrubbedAt(worlds[0].files, id)
    requires forall i | 0 <= i < |events| :: events[i] != Delete(id)
    ensures var last := worlds[|events|].files;
      ScrubbedAt(last, id) && (last[id] == worlds[0].files[id] || Clean(last[id].session))
    decreases |events|
  {
    if events != [] {
      var n := |events| - 1;
      ScrubIsSticky(worlds[..n + 1], events[..n], processes[..n], id);
      ScrubStep(worlds[n].files, WriteOf(worlds[n], events[n], processes[n]), processes[n], id);
    }
  }

  /** Scrubbing a record entry leaves it clean, unless it already carried the mark. */
  lemma ScrubCleans(files: Files, name: string, p: Process)
    requires name in files && files[name].Record? && files[name].session.tunnelID == name && ValidTunnelID(name)
    ensures ScrubbedAt(EntryScrubbed(files, name, p), name)
    ensures !files[name].session.status.scrubbed ==> Clean(EntryScrubbed(files, name, p)[name].session)
  {}

  predicate StoppedAt(files: Files, id: string) {
    ValidTunnelID(id) && id in files && files[id].Record? && files[id].session.tunnelID == id
    && files[id].session.status.connectionState == STOPPED
  }

  predicate Automatic(e: Event) {
    e.Merge? || e.WorkerRead? || e.WorkerStop? || e.WorkerMark?
  }

  lemma StoppedSaved(files: Files, s: Session, p: Process, id: string)
    requires StoppedAt(files, id) && (s.tunnelID == id ==> s.status.connectionState == STOPPED)
    ensures StoppedAt(Saved(files, s, p), id)
  {
    SavedElsewhere(files, s, p, id);
  }

  lemma StoppedMutated(files: Files, target: string, mutate: Session -> Mutation, p: Process, id: string)
    requires StoppedAt(files, id)
    requires forall s: Session :: s.status.connectionState == STOPPED && mutate(s).Change? ==>
      mutate(s).next.status.connectionState == STOPPED
    ensures StoppedAt(Mutated(files, target, mutate, p), id)
  {
    if Lookup(files, target).Some? {
      var m := mutate(Lookup(files, target).value);
      if m.Change? && m.next.tunnelID == target { StoppedSaved(files, m.next, p, id); }
    }
  }

  /** A write that never turns a stopped record into another one. */
  ghost predicate KeepsStopped(write: Write) {
    match write
    case Nothing => true
    case WriteRecord(s) => s.status.connectionState == STOPPED
    case Mutate(_, mutate) =>
      forall s: Session :: s.status.connectionState == STOPPED && mutate(s).Change? ==>
        mutate(s).next.status.connectionState == STOPPED
    case Remove(_) => false
    case ScrubEntry(_) => false
  }

  lemma AutomaticKeepsStopped(w: World, e: Event, p: Process)
    requires Automatic(e)
    ensures KeepsStopped(WriteOf(w, e, p))
  {
    match e
    case Merge(id, state) => MergeKeepsState(state);
    case WorkerRead(worker, id) =>
    case WorkerStop(worker) =>
    case WorkerMark(id, mark) => MarkKeepsStopped(mark, p.pid);
  }

  lemma MergeKeepsState(state: Remote)
    ensures forall s: Session :: MergeMutation(state)(s).Change? ==> MergeMutation(state)(s).next.status == s.status
  {}

  lemma MarkKeepsStopped(mark: Mark, pid: int)
    ensures forall s: Session :: s.status.connectionState == STOPPED ==> !MarkMutation(mark, pid)(s).Change?
  {}

  /** Neither a worker nor a merge moves a record out of the stopped state, however old the record the
      worker read. */
  lemma StoppedStep(files: Files, write: Write, p: Process, id: string)
    requires StoppedAt(files, id) && KeepsStopped(write)
    ensures StoppedAt(Effect(files, write, p), id)
  {
    match write
    case Nothing =>
    case WriteRecord(s) => StoppedSaved(files, s, p, id);
    case Mutate(target, mutate) => StoppedMutated(files, target, mutate, p, id);
  }

  /** Not a command aimed at this tunnel: a merge, a worker step, a scrub, or a command for another tunnel. */
  predicate NoCommandFor(e: Event, id: string) {
    match e
    case Save(s) => s.tunnelID != id
    case Update(s) => s.tunnelID != id
    case UpdateAtomic(target, _) => target != id
    case Delete(target) => target != id
    case _ => true
  }

  lemma StoppedEvent(w: World, e: Event, p: Process, id: string)
    requires StoppedAt(w.files, id) && NoCommandFor(e, id)
    ensures StoppedAt(Effect(w.files, WriteOf(w, e, p), p), id)
  {
    match e
    case Save(s) => SavedElsewhere(w.files, s, p, id);
    case Update(s) => SavedElsewhere(w.files, s, p, id);
    case UpdateAtomic(target, mutate) =>
      if Lookup(w.files, target).Some? {
        var m := mutate(Lookup(w.files, target).value);
        if m.Change? { SavedElsewhere(w.files, m.next, p, id); }
      }
    case Delete(target) =>
    case Scrub(name) =>
      if name in w.files && w.files[name].Record? {
        StoppedSaved(w.files, WithNote(Wiped(w.files[name].session), SCRUB_NOTE), p, id);
      }
    case _ =>
      AutomaticKeepsStopped(w, e, p);
      StoppedStep(w.files, WriteOf(w, e, p), p, id);
  }

  /** In any run, a stopped record stays stopped until a command is aimed at it, whatever workers, merges, scrubs and
      commands for other tunnels do meanwhile. */
  lemma {:induction false} StoppedIsSticky(worlds: seq<World>, events: seq<Event>, processes: seq<Process>, id: string,
                                           i: nat, j: nat)
    requires Run(worlds, events, processes) && i <= j <= |events| && StoppedAt(worlds[i].files, id)
    requires forall k | i <= k < j :: NoCommandFor(events[k], id)
    ensures StoppedAt(worlds[j].files, id)
    decreases j
  {
    if i < j {
      StoppedIsSticky(worlds, events, processes, id, i, j - 1);
      assert Step(worlds[j - 1], worlds[j - 1 + 1], events[j - 1], processes[j - 1]);
      StoppedEvent(worlds[j - 1], events[j - 1], processes[j - 1], id);
    }
  }

  // ---- what a save does not promise ----

  /** "PID 0 goes with an empty start token" holds after a save except over a scrubbed record whose new
      contents still named an owner with a start token: the token is refreshed before the scrub clears the PID. */
  lemma ZeroPidToken(files: Files, s: Session, p: Process)
    requires Written(files, s, p).Some?
    ensures var r := Written(files, s, p).value;
      (r.owner.pid == 0 ==> r.owner.pidStartToken == "") <==>
        !(ScrubbedAt(files, s.tunnelID) && s.owner.pid > 0 && TokenSynced(s, p).owner.pidStartToken != "")
  {}

  /** `UpdateAtomic` hands back the record it wrote, up to stamps and start token, exactly when the old
      record was not scrubbed or the new contents were already clean and noted. */
  lemma ReturnedIsWritten(files: Files, s: Session, p: Process)
    requires Written(files, s, p).Some?
    ensures var r := Written(files, s, p).value;
      SameRecord(r, s) <==> !ScrubbedAt(files, s.tunnelID) || (Clean(s) && s.status.lastError != "")
  {}

  /** Equal but for the stamps a save sets itself and the start token. */
  predicate SameRecord(a: Session, b: Session) {
    a == b.(stamps := a.stamps, owner := b.owner.(pidStartToken := a.owner.pidStartToken))
  }

  /** A running tunnel "web" of process 42. */
  function RunningExample(): Session {
    Session("web", Scope("", "", ""), Endpoint("https", "", "", "", 0, "3000", "", [], false),
            Credentials("secret", None, None), None, Expiry("", ""), Owner("daemon", 42, ""),
            Status(CONNECTED, false, "", ""), Stamps("", ""), [])
  }

  /** An input on which a save leaves PID 0 with a start token: the credentials were scrubbed, and the process that
      runs the tunnel saves or updates its record once more. */
  lemma ZeroPidTokenFails(s: Session, p: Process, files: Files)
    requires s == RunningExample() && p == Process(42, p.startToken, "now", true) && p.startToken(42) == "boot"
    requires files == EntryScrubbed(map["web" := Record(s)], "web", p)
    ensures ScrubbedAt(files, "web") && Written(files, s, p).Some?
    ensures Written(files, s, p).value.owner == Owner("daemon", 0, "boot")
  {
    assert ValidTunnelID("web");
  }

  /** And one on which `UpdateAtomic` hands back a record it did not write: there the secret is gone. */
  lemma ReturnedIsNotWritten(s: Session, p: Process, files: Files)
    requires s == RunningExample() && p == Process(42, p.startToken, "now", true)
    requires files == EntryScrubbed(map["web" := Record(s)], "web", p)
    ensures Lookup(files, "web").Some? && Written(files, s, p).Some?
    ensures Lookup(Mutated(files, "web", _ => Change(s), p), "web") == Written(files, s, p)
    ensures s.auth.secret == "secret" && Written(files, s, p).value.auth.secret == ""
      && !SameRecord(Written(files, s, p).value, s)
  {
    assert ValidTunnelID("web");
  }
}
