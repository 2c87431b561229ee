/** The API server as pkg/k8s/client.go sees it. Every call is one step: it fails without effect, or it happens.
    Other writers may change the cluster between any two calls. */
module Cluster {
  import opened Text
  import opened Objects

  datatype Stored = Stored(content: Object, version: nat)
  type Contents = map<Key, Stored>

  datatype Reply = NotFound | Failed | Found(stored: Stored)
  datatype Outcome = Done | Conflict | Refused
  datatype Removal = Absent | Kept | Removed | RemovalFailed

  function Entry(s: Contents, k: Key): Option<Stored> {
    if k in s then Some(s[k]) else None
  }

  function At(s: Contents, k: Key): Option<Object> {
    if k in s then Some(s[k].content) else None
  }

  /** A change of one object the tunnel is entitled to: nothing of anybody else's is created over, changed or
      deleted, and only its own objects are left behind. */
  predicate Allowed(k: Key, before: Option<Object>, after: Option<Object>, name: string) {
    OwnKey(k, name)
    && (before.Some? ==> MayTouch(k, before.value, name))
    && (after.Some? ==> Managed(after.value, name) && (before.Some? ==> Managed(before.value, name)))
  }

  /** One step of the cluster by that tunnel. */
  ghost predicate Entitled(s: Contents, t: Contents, name: string) {
    forall k :: Entry(t, k) == Entry(s, k) || Allowed(k, At(s, k), At(t, k), name)
  }

  /** The tunnel may touch this object. */
  predicate InReach(k: Key, o: Object, name: string) {
    OwnKey(k, name) && MayTouch(k, o, name)
  }

  /** Everything under the given keys that the tunnel may not touch. */
  ghost function Outside(s: Contents, name: string, keys: Key -> bool): Contents {
    map k | k in s && keys(k) && !InReach(k, s[k].content, name) :: s[k]
  }

  /** Every object under the keys that the tunnel may not touch is as it was, and no other such object appeared. */
  ghost predicate Spared(before: Contents, after: Contents, name: string, keys: Key -> bool) {
    forall k | keys(k) ::
      && (k in before && !InReach(k, before[k].content, name) ==> k in after && after[k] == before[k])
      && (k in after && !InReach(k, after[k].content, name) ==> k in before && before[k] == after[k])
  }

  lemma OutsideIsSpared(before: Contents, after: Contents, name: string, keys: Key -> bool)
    ensures Outside(after, name, keys) == Outside(before, name, keys) <==> Spared(before, after, name, keys)
  {
    if Outside(after, name, keys) == Outside(before, name, keys) {
      forall k | keys(k) && k in before && !InReach(k, before[k].content, name)
        ensures k in after && after[k] == before[k]
      {
        assert k in Outside(before, name, keys);
      }
      forall k | keys(k) && k in after && !InReach(k, after[k].content, name)
        ensures k in before && before[k] == after[k]
      {
        assert k in Outside(after, name, keys);
      }
    }
  }

  /** A step the tunnel is entitled to changes nothing outside. */
  lemma EntitledSpares(s: Contents, t: Contents, name: string, keys: Key -> bool)
    requires Entitled(s, t, name)
    ensures Outside(t, name, keys) == Outside(s, name, keys)
  {
    forall k ensures Entry(t, k) == Entry(s, k) || (OwnKey(k, name)
      && (k in s ==> MayTouch(k, s[k].content, name)) && (k in t ==> MayTouch(k, t[k].content, name)))
    {
      assert Entry(t, k) == Entry(s, k) || Allowed(k, At(s, k), At(t, k), name);
    }
    OutsideIsSpared(s, t, name, keys);
  }

  /** The states the cluster went through: each step was another writer's, or one its actor was entitled to. */
  ghost predicate History(states: seq<Contents>, actors: seq<Option<string>>) {
    && |states| == |actors| + 1
    && forall i | 0 <= i < |actors| && actors[i].Some? :: Entitled(states[i], states[i + 1], actors[i].value)
  }

  /** What the server stores has the kind of its key, and port protocols and node ports where the server fills them
      in. */
  predicate Storable(k: Key, o: Object, fills: bool) {
    Typed(k, o) && (fills ==> FilledIn(o))
  }

  /** What other writers may do at one point: anything but reuse a version or touch an object that is stable. */
  predicate Rewritten(before: Contents, clock: nat, after: Contents, newClock: nat, stable: Key -> bool, fills: bool) {
    && clock <= newClock && (forall k | k in before :: stable(k) ==> k in after && after[k] == before[k])
    && forall k | k in after ::
         || (k in before && after[k] == before[k])
         || (!stable(k) && clock < after[k].version <= newClock && Storable(k, after[k].content, fills))
  }

  class ApiServer {
    /** Whether anybody else writes to the cluster, and where nobody else does. */
    const shared: bool
    const stable: Key -> bool
    /** Whether the server fills in port protocols and gives out node ports, and whether every call gets through to
        it. */
    const fills: bool
    const healthy: bool
    var contents: Contents
    var clock: nat
    /** Everything that happened since the recording started, and by whom; None is another writer. */
    ghost var start: Contents
    ghost var states: seq<Contents>
    ghost var actors: seq<Option<string>>
    ghost var wrote: set<string>

    ghost predicate Valid()
      reads this
    {
      && (forall k | k in contents :: contents[k].version <= clock && Storable(k, contents[k].content, fills))
      && (!shared ==> forall k :: stable(k))
      && History(states, actors) && states[0] == start && states[|actors|] == contents
      && (forall a | a in actors :: if a.Some? then a.value in wrote else shared)
    }

    /** Since the old state only this tunnel wrote through the client, and everybody else's objects are as they were
        wherever nobody else wrote. */
    twostate predicate Acted(name: string)
      reads this
    {
      && start == old(start) && wrote <= old(wrote) + {name}
      && Outside(contents, name, stable) == Outside(old(contents), name, stable)
    }

    constructor (shared: bool, stable: Key -> bool, fills: bool, healthy: bool)
      requires !shared ==> forall k :: stable(k)
      ensures Valid() && this.shared == shared && this.stable == stable && contents == map[]
      ensures this.fills == fills && this.healthy == healthy
    {
      this.shared, this.stable, this.fills, this.healthy := shared, stable, fills, healthy;
      contents, clock := map[], 0;
      start, states, actors, wrote := map[], [map[]], [], {};
    }

    /** Forgets what happened so far. */
    ghost method Record()
      requires Valid()
      modifies `start, `states, `actors, `wrote
      ensures Valid() && start == contents && wrote == {}
    {
      start, states, actors, wrote := contents, [contents], [], {};
    }

    /** Other writers take their turn. */
    method Others()
      requires Valid()
      modifies this
      ensures Valid() && start == old(start) && wrote == old(wrote)
      ensures Rewritten(old(contents), old(clock), contents, clock, stable, fills)
      ensures forall name :: Outside(contents, name, stable) == Outside(old(contents), name, stable)
      ensures !shared ==> contents == old(contents)
    {
      var next: Contents := *;
      var newClock: nat := *;
      if shared && Rewritten(contents, clock, next, newClock, stable, fills) {
        contents, clock := next, newClock;
        states, actors := states + [contents], actors + [None];
      }
    }

    method Put(key: Key, content: Object, ghost name: string)
      requires Valid() && Storable(key, content, fills) && Allowed(key, At(contents, key), Some(content), name)
      modifies this
      ensures Valid() && start == old(start) && wrote == old(wrote) + {name}
      ensures contents == old(contents)[key := Stored(content, clock)] && clock == old(clock) + 1
      ensures states == old(states) + [contents] && actors == old(actors) + [Some(name)]
    {
      clock := clock + 1;
      contents := contents[key := Stored(content, clock)];
      states, actors, wrote := states + [contents], actors + [Some(name)], wrote + {name};
    }

    method Remove(key: Key, ghost name: string)
      requires Valid() && Allowed(key, At(contents, key), None, name)
      modifies this
      ensures Valid() && start == old(start) && wrote == old(wrote) + {name}
      ensures contents == old(contents) - {key}
      ensures states == old(states) + [contents] && actors == old(actors) + [Some(name)]
    {
      contents := contents - {key};
      states, actors, wrote := states + [contents], actors + [Some(name)], wrote + {name};
    }

    method Get(key: Key) returns (r: Reply)
      requires Valid()
      modifies this
      ensures Valid() && start == old(start) && wrote == old(wrote)
      ensures r.Found? ==> key in contents && contents[key] == r.stored
      ensures r.NotFound? ==> key !in contents
      ensures healthy ==> !r.Failed?
      ensures forall name :: Outside(contents, name, stable) == Outside(old(contents), name, stable)
      ensures !shared ==> contents == old(contents)
    {
      Others();
      var up: bool := *;
      if !up && !healthy {
        return Failed;
      }
      return if key in contents then Found(contents[key]) else NotFound;
    }

    /** Stores what the server makes of a submitted object. */
    method Write(key: Key, sent: Object, ghost name: string)
      requires Valid() && OwnKey(key, name) && Managed(sent, name) && Typed(key, sent)
      requires key in contents ==> Managed(contents[key].content, name)
      modifies this
      ensures Valid() && start == old(start) && wrote == old(wrote) + {name}
      ensures states == old(states) + [contents] && actors == old(actors) + [Some(name)]
      ensures key in contents && contents == old(contents)[key := contents[key]]
      ensures contents[key].version > old(clock) && Admits(sent, contents[key].content, fills)
      ensures Outside(contents, name, stable) == Outside(old(contents), name, stable)
    {
      var stored := Admit(sent, fills);
      AdmittedIsUpToDate(sent, stored, fills);
      ghost var found := contents;
      Put(key, stored, name);
      EntitledSpares(found, contents, name, stable);
    }

    method Create(key: Key, sent: Object, ghost name: string) returns (ok: bool)
      requires Valid() && OwnKey(key, name) && Managed(sent, name) && Typed(key, sent)
      modifies this
      ensures Valid() && Acted(name)
      ensures ok ==> |actors| > 0 && key !in states[|actors| - 1] && key in contents
      ensures ok ==>
        contents == states[|actors| - 1][key := contents[key]] && Admits(sent, contents[key].content, fills)
      ensures !ok ==> wrote == old(wrote)
      ensures !shared && ok ==> key !in old(contents) && contents == old(contents)[key := contents[key]]
      ensures !shared && !ok ==> contents == old(contents)
      ensures !shared && healthy ==> (ok <==> key !in old(contents))
    {
      Others();
      var up: bool := *;
      if (!up && !healthy) || key in contents {
        return false;
      }
      Write(key, sent, name);
      return true;
    }

    /** Replaces the object just read, unless its version changed meanwhile. */
    method Update(key: Key, seen: Stored, sent: Object, ghost name: string) returns (r: Outcome)
      requires Valid() && OwnKey(key, name) && Managed(sent, name) && Typed(key, sent) && Managed(seen.content, name)
      requires key in contents && contents[key] == seen
      modifies this
      ensures Valid() && Acted(name)
      ensures r.Done? ==> |actors| > 0 && Entry(states[|actors| - 1], key) == Some(seen) && key in contents
      ensures r.Done? ==> contents[key].version > seen.version
      ensures r.Done? ==>
        contents == states[|actors| - 1][key := contents[key]] && Admits(sent, contents[key].content, fills)
      ensures !r.Done? ==> wrote == old(wrote)
      ensures !shared && r.Done? ==> contents == old(contents)[key := contents[key]]
      ensures !shared && !r.Done? ==> contents == old(contents)
      ensures !shared && healthy ==> r.Done?
    {
      Others();
      var up: bool := *;
      if (!up && !healthy) || key !in contents {
        return Refused;
      }
      if contents[key].version != seen.version {
        return Conflict;
      }
      assert contents[key] == seen;
      Write(key, sent, name);
      return Done;
    }

    /** Reads the object, asks `mine` about it and deletes it. */
    method DeleteIf(key: Key, mine: Object -> bool, ghost name: string) returns (r: Removal)
      requires Valid() && OwnKey(key, name)
      requires forall o :: mine(o) ==> MayTouch(key, o, name)
      modifies this
      ensures Valid() && Acted(name)
      ensures r.Removed? ==> |actors| > 0 && key in states[|actors| - 1] && mine(states[|actors| - 1][key].content)
      ensures r.Removed? ==> contents == states[|actors| - 1] - {key}
      ensures !r.Removed? ==> wrote == old(wrote)
      ensures !shared && r.RemovalFailed? ==> contents == old(contents)
      ensures !shared && !r.RemovalFailed? ==> contents == DeletedIf(old(contents), key, mine)
      ensures healthy ==> !r.RemovalFailed?
    {
      Others();
      var up: bool := *;
      if !up && !healthy {
        return RemovalFailed;
      }
      if key !in contents {
        return Absent;
      }
      if !mine(contents[key].content) {
        return Kept;
      }
      ghost var found := contents;
      Remove(key, name);
      EntitledSpares(found, contents, name, stable);
      return Removed;
    }
  }

  function DeletedIf(s: Contents, k: Key, mine: Object -> bool): Contents {
    if k in s && mine(s[k].content) then s - {k} else s
  }

  // ---- isolation ----

  /** Other writers leave the object alone. */
  ghost predicate OthersSpare(states: seq<Contents>, actors: seq<Option<string>>, key: Key)
    requires |states| == |actors| + 1
  {
    forall i | 0 <= i < |actors| && actors[i].None? :: Entry(states[i + 1], key) == Entry(states[i], key)
  }

  /** The object is labelled as the victim's, and no secret that says cert-manager made it for the tunnel. */
  predicate Foreign(k: Key, o: Object, victim: string, name: string) {
    Managed(o, ResourceName(victim)) && name != ResourceName(victim) && !MadeFor(k, o, name)
  }

  /** Whatever other tunnels do, in any interleaving and with any colliding names, an object labelled as the
      tunnel's own stays exactly as it is, unless it is a secret that says cert-manager made it for the other
      tunnel. */
  lemma {:induction false} Isolation(states: seq<Contents>, actors: seq<Option<string>>, key: Key, victim: string)
    requires History(states, actors) && OthersSpare(states, actors, key) && key in states[0]
    requires forall a | a in actors && a.Some? :: Foreign(key, states[0][key].content, victim, a.value)
    ensures Entry(states[|actors|], key) == Some(states[0][key])
    decreases |actors|
  {
    if actors != [] {
      var n := |actors| - 1;
      Isolation(states[..n + 1], actors[..n], key, victim);
      assert actors[n] in actors;
    }
  }

  lemma SuffixedNames(a: string, b: string, suffix: string)
    ensures ResourceName(a) + suffix == ResourceName(b) <==> a + suffix == b
    ensures ResourceName(a) + suffix == ResourceName(b) + suffix <==> a == b
  {
    assert ResourceName(a) + suffix == ResourceName(a + suffix);
    assert ResourceName(b) + suffix == ResourceName(b + suffix);
    if a + suffix == b + suffix { SuffixCut(a, suffix); SuffixCut(b, suffix); }
    if ResourceName(a + suffix) == ResourceName(b) { ResourceNameInjective(a + suffix, b); }
    if ResourceName(a + suffix) == ResourceName(b + suffix) { ResourceNameInjective(a + suffix, b + suffix); }
  }

  /** Where one tunnel's derived names meet another's: its TCP service and the other's HTTP service, its auth
      secret and the other's TLS secret, its old application ingress and the other's ingress. */
  predicate Collide(a: string, b: string, k: Key) {
    || (k == TcpKey(ResourceName(a)) && b == a + "-tcp")
    || (k == AuthKey(ResourceName(a)) && b == a + "-auth")
    || (k == AppIngressKey(ResourceName(a)) && b == a + "-app")
  }

  /** Two tunnels' keys of one kind, as their derived names. */
  lemma SuffixCollision(n: string, m: string, suffix: string, name: string)
    requires n != m && |suffix| > 0
    ensures (name == n || name == n + suffix) && (name == m || name == m + suffix) <==>
      (name == n + suffix && m == n + suffix) || (name == m + suffix && n == m + suffix)
  {
    if n + suffix == m + suffix { SuffixCut(n, suffix); SuffixCut(m, suffix); }
  }

  lemma AccountNames(a: string, b: string)
    requires a != b
    ensures var n, m := ResourceName(a), ResourceName(b);
      n != m && AccountKeyName(n) != AccountKeyName(m) && AccountKeyName(n) != m
        && AccountKeyName(n) != AuthSecretName(m)
  {
    var n, m := ResourceName(a), ResourceName(b);
    if n == m { ResourceNameInjective(a, b); }
    assert AccountKeyName(n)[17..] == n && AccountKeyName(m)[17..] == m;
    assert AccountKeyName(n)[0] == 'l' && m[0] == 's' && AuthSecretName(m)[0] == 's';
  }

  /** Object names of different tunnels really do collide, in exactly these cases. */
  lemma NameCollisions(a: string, b: string, k: Key)
    requires a != b
    ensures OwnKey(k, ResourceName(a)) && OwnKey(k, ResourceName(b)) <==> Collide(a, b, k) || Collide(b, a, k)
  {
    var n, m := ResourceName(a), ResourceName(b);
    AccountNames(a, b);
    AccountNames(b, a);
    match k.kind
    case Secret => SuffixCollision(n, m, "-auth", k.name); SuffixedNames(a, b, "-auth"); SuffixedNames(b, a, "-auth");
    case Service => SuffixCollision(n, m, "-tcp", k.name); SuffixedNames(a, b, "-tcp"); SuffixedNames(b, a, "-tcp");
    case Ingress => SuffixCollision(n, m, "-app", k.name); SuffixedNames(a, b, "-app"); SuffixedNames(b, a, "-app");
    case _ =>
  }
}
