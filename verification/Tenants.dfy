/** Many tunnels in one cluster: any sequence of the operations of pkg/k8s/client.go, by any tunnels. */
module Tenants {
  import opened Text
  import opened Objects
  import opened Cluster
  import opened Transactions
  import opened Kubernetes

  /** One operation of a tunnel; ensure and configure include their rollback. */
  datatype Command =
    | Ensure(id: string, req: Request, newSalt: string)
    | Configure(id: string, sealosHost: string, customDomain: string, valid: bool)
    | Clear(id: string, sealosHost: string, valid: bool)
    | Scale(id: string, replicas: int)
    | Cleanup(id: string)

  predicate Sensible(c: Command) {
    c.Ensure? ==> c.newSalt != ""
  }

  /** An operation changes nothing it may not touch, also when it fails and its rollback fails too. */
  method RunCommand(client: Client, c: Command)
    requires client.api.Valid() && Sensible(c)
    modifies client.api
    ensures client.api.Valid() && client.api.Acted(ResourceName(c.id))
    ensures Spared(old(client.api.contents), client.api.contents, ResourceName(c.id), client.api.stable)
  {
    RunOperation(client, c);
    OutsideIsSpared(old(client.api.contents), client.api.contents, ResourceName(c.id), client.api.stable);
  }

  method RunOperation(client: Client, c: Command)
    requires client.api.Valid() && Sensible(c)
    modifies client.api
    ensures client.api.Valid() && client.api.Acted(ResourceName(c.id))
  {
    match c
    case Ensure(id, req, newSalt) =>
      var ok, hosts, undone := client.EnsureTunnelWithOptions(id, req, newSalt);
    case Configure(id, sealosHost, customDomain, valid) =>
      var ok, hosts, undone := client.ConfigureCustomDomain(id, sealosHost, customDomain, valid);
    case Clear(id, sealosHost, valid) =>
      var ok := client.ClearCustomDomain(id, sealosHost, valid);
    case Scale(id, replicas) =>
      var ok := client.ScaleTunnel(id, replicas);
    case Cleanup(id) =>
      var ok := client.CleanupTunnel(id);
  }

  /** Ensuring twice with nobody else around: the second time writes nothing but the deployment, and that exactly on a
      server that fills in port protocols. */
  method EnsureTwice(client: Client, id: string, req: Request, firstSalt: string, secondSalt: string)
    returns (ok: bool, ghost between: Contents)
    requires client.api.Valid() && firstSalt != "" && secondSalt != ""
    modifies client.api
    ensures client.api.Valid() && client.api.Acted(ResourceName(id))
    ensures ok && !client.api.shared && !WantsDomain(req) ==>
      Provisioned(between, ResourceName(id), req, client.digest, client.email, client.ingressAnnotations)
      && Redeployed(between, client.api.contents, ResourceName(id), req)
      && (client.api.contents == between <==> !client.api.fills)
  {
    var hosts, undone;
    ok, hosts, undone := client.EnsureTunnelWithOptions(id, req, firstSalt);
    between := client.api.contents;
    if ok {
      ok, hosts, undone := client.EnsureTunnelWithOptions(id, req, secondSalt);
    }
  }

  ghost function Names(commands: seq<Command>): set<string> {
    set c | c in commands :: ResourceName(c.id)
  }

  /** The object is the victim's, no command is, and no secret that cert-manager made for one of the others. */
  predicate OutOfReach(key: Key, o: Object, victim: string, commands: seq<Command>) {
    Managed(o, ResourceName(victim))
    && forall c | c in commands :: c.id != victim && !MadeFor(key, o, ResourceName(c.id))
  }

  /** Whether the commands succeed, fail, roll back or fail to: an object labelled as a tunnel's own is not touched by
      the commands of other tunnels. First, wherever nobody else writes; second, for every object that other writers,
      as recorded, left alone. */
  method RunCommands(client: Client, commands: seq<Command>)
    requires client.api.Valid() && forall c | c in commands :: Sensible(c)
    modifies client.api
    ensures client.api.Valid() && client.api.start == old(client.api.contents) && client.api.wrote <= Names(commands)
    ensures forall key, victim | key in old(client.api.contents) && client.api.stable(key)
        && OutOfReach(key, old(client.api.contents)[key].content, victim, commands) ::
      Entry(client.api.contents, key) == Entry(old(client.api.contents), key)
    ensures forall key, victim | key in old(client.api.contents)
        && OutOfReach(key, old(client.api.contents)[key].content, victim, commands)
        && OthersSpare(client.api.states, client.api.actors, key) ::
      Entry(client.api.contents, key) == Entry(old(client.api.contents), key)
  {
    ghost var first := client.api.contents;
    client.api.Record();
    for i := 0 to |commands|
      invariant client.api.Valid() && client.api.start == first
      invariant client.api.wrote <= Names(commands[..i])
      invariant forall key, victim | key in first && client.api.stable(key)
          && OutOfReach(key, first[key].content, victim, commands) ::
            Entry(client.api.contents, key) == Some(first[key])
    {
      ghost var before := client.api.contents;
      RunCommand(client, commands[i]);
      assert commands[..i + 1] == commands[..i] + [commands[i]];
      forall key, victim | key in first && client.api.stable(key)
        && OutOfReach(key, first[key].content, victim, commands)
        ensures Entry(client.api.contents, key) == Some(first[key])
      {
        assert Entry(before, key) == Some(first[key]);
        OneCommand(before, client.api.contents, key, victim, commands[i], client.api.stable);
      }
    }
    assert commands[..|commands|] == commands;
    forall key, victim | key in first && OutOfReach(key, first[key].content, victim, commands)
        && OthersSpare(client.api.states, client.api.actors, key)
      ensures Entry(client.api.contents, key) == Entry(first, key)
    {
      CommandsAreForeign(key, first[key].content, victim, commands);
      Isolation(client.api.states, client.api.actors, key, victim);
    }
  }

  lemma OneCommand(before: Contents, after: Contents, key: Key, victim: string, c: Command, stable: Key -> bool)
    requires Spared(before, after, ResourceName(c.id), stable) && stable(key) && key in before
    requires Managed(before[key].content, ResourceName(victim)) && c.id != victim
    requires !MadeFor(key, before[key].content, ResourceName(c.id))
    ensures Entry(after, key) == Some(before[key])
  {
    if ResourceName(c.id) == ResourceName(victim) { ResourceNameInjective(c.id, victim); }
    assert !InReach(key, before[key].content, ResourceName(c.id));
  }

  lemma CommandsAreForeign(key: Key, o: Object, victim: string, commands: seq<Command>)
    requires OutOfReach(key, o, victim, commands)
    ensures forall name | name in Names(commands) :: Foreign(key, o, victim, name)
  {
    forall c | c in commands ensures Foreign(key, o, victim, ResourceName(c.id)) {
      if ResourceName(c.id) == ResourceName(victim) { ResourceNameInjective(c.id, victim); }
    }
  }
}
