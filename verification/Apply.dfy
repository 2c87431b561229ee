/** Applying a whole file in cmd/apply.go: item by item, and back again in reverse when anything fails. */
module Apply {
  import opened Text
  import opened Sessions
  import opened Reapply

  /** How the remote state of an existing tunnel turned out. */
  datatype Refresh = NoState | RefreshFailed | RefreshedWith(state: Remote)

  /** What everything outside the store does for one item: whether its fields are valid, the scope matches, the
      CNAME is verified, provisioning, clearing the domain and waiting succeed, and how undoing each goes. */
  datatype Fate = Fate(
    fieldsValid: bool, scopeMatches: bool, refresh: Refresh, cnameVerified: bool, ensured: bool, domainCleared: bool,
    ready: bool, restored: bool, cleanedUp: bool, place: Placement, newSecret: string, now: int, salt: string,
    refreshing: Process, saving: Process, undoing: Process)

  datatype ApplyResult = ApplyResult(tunnelID: string, newTunnel: bool, previous: Option<Session>, record: Session)

  // ---- what the store looks like ----

  predicate SameEntry(before: Files, after: Files, id: string) {
    (id in after <==> id in before) && (id in before ==> after[id] == before[id])
  }

  /** Only these entries differ. */
  ghost predicate OnlyEntries(before: Files, after: Files, ids: set<string>) {
    forall id | id !in ids :: SameEntry(before, after, id)
  }

  lemma OnlyEntriesTogether(a: Files, b: Files, c: Files, ids: set<string>, more: set<string>)
    requires OnlyEntries(a, b, ids) && OnlyEntries(b, c, more) && more <= ids
    ensures OnlyEntries(a, c, ids)
  {
    forall id | id !in ids ensures SameEntry(a, c, id) {
      assert SameEntry(a, b, id) && SameEntry(b, c, id);
    }
  }

  lemma IdsPrefix(items: seq<Item>, k: nat)
    requires k <= |items|
    ensures Ids(items[..k]) <= Ids(items)
  {
    forall i | 0 <= i < k ensures items[..k][i].id in Ids(items) {
      assert items[i].id in Ids(items);
    }
  }

  /** The record an apply remembers for going back: refreshed from the remote state. */
  function Captured(original: Session, refresh: Refresh): Session {
    match refresh
    case RefreshedWith(state) => Merged(original, state)
    case _ => original
  }

  /** The file holds that record, up to what a save stamps itself. */
  predicate Holds(files: Files, id: string, s: Session) {
    id in files && files[id].Record? && files[id].session.tunnelID == id && SameRecord(files[id].session, s)
  }

  /** What a failed item leaves: the entry untouched, or the captured record. */
  predicate Back(before: Files, after: Files, id: string, refresh: Refresh) {
    SameEntry(before, after, id)
    || (Lookup(before, id).Some? && Holds(after, id, Captured(Lookup(before, id).value, refresh)))
  }

  /** What going back over an applied item leaves: no entry if there was none, else the captured record. */
  predicate RolledTo(before: Files, after: Files, id: string, refresh: Refresh) {
    if id !in before then id !in after
    else Lookup(before, id).Some? && Holds(after, id, Captured(Lookup(before, id).value, refresh))
  }

  /** A scrubbed record is clean and carries its note, as every scrub through the store leaves it. */
  predicate ScrubNoted(files: Files, id: string) {
    ScrubbedAt(files, id) ==> Clean(files[id].session) && files[id].session.status.lastError != ""
  }

  /** The item was applied, and the result says how to go back. */
  predicate AppliedAs(before: Files, after: Files, r: ApplyResult, refresh: Refresh) {
    && Holds(after, r.tunnelID, r.record) && !r.record.status.scrubbed
    && (r.newTunnel <==> r.tunnelID !in before)
    && (!r.newTunnel ==>
          Lookup(before, r.tunnelID).Some? && r.previous == Some(Captured(Lookup(before, r.tunnelID).value, refresh))
          && !r.previous.value.status.scrubbed)
    && ValidTunnelID(r.tunnelID)
  }

  /** The record an item asks for: built from scratch, or over what is remembered of the existing tunnel. */
  function RecordFor(item: Item, fate: Fate, previous: Option<Session>, lib: Library): Session {
    match previous
    case None => BuildRecord(Fresh(item, fate.now, fate.salt, lib),
                             fate.place.(secret := fate.newSecret, createdAt := ""))
    case Some(s) =>
      Reapplied(item, fate.now, fate.salt, s,
                fate.place.(secret := s.auth.secret, createdAt := s.stamps.createdAt), lib)
  }

  lemma MergedKeepsRest(s: Session, state: Remote)
    ensures Merged(s, state).tunnelID == s.tunnelID && Merged(s, state).status == s.status
    ensures Clean(s) ==> Clean(Merged(s, state))
  {}

  /** Saving over an entry that is not scrubbed, or saving what is already scrubbed clean, stores the record itself. */
  lemma SavedHolds(files: Files, s: Session, p: Process)
    requires Written(files, s, p).Some?
    requires ScrubbedAt(files, s.tunnelID) ==> Clean(s) && s.status.lastError != ""
    ensures Holds(Saved(files, s, p), s.tunnelID, s)
    ensures OnlyEntries(files, Saved(files, s, p), {s.tunnelID})
  {
    ReturnedIsWritten(files, s, p);
  }

  /** Writing the merged record, or leaving the file alone when the merge changed nothing. */
  lemma MergeWritten(files: Files, existing: Session, merged: Session, p: Process)
    requires Lookup(files, existing.tunnelID) == Some(existing) && ScrubNoted(files, existing.tunnelID)
    requires merged.tunnelID == existing.tunnelID && merged.status == existing.status
      && (Clean(existing) ==> Clean(merged))
    requires Written(files, merged, p).Some?
    ensures var after := Saved(files, merged, p);
      && OnlyEntries(files, after, {existing.tunnelID}) && Holds(after, existing.tunnelID, merged)
      && (ScrubbedAt(after, existing.tunnelID) <==> existing.status.scrubbed)
  {
    SavedHolds(files, merged, p);
  }

  /** What the merge under the store lock decides for this record. */
  function Decision(existing: Session, merged: Session): Mutation {
    if merged != existing then Change(merged) else Keep(existing)
  }

  lemma MergeDecides(existing: Session, state: Remote)
    ensures MergeMutation(state)(existing) == Decision(existing, Merged(existing, state))
  {}

  // ---- when an item applies ----

  /** The remote state of an existing tunnel could be read and its merge stored. */
  predicate RefreshWorks(existing: Session, fate: Fate) {
    match fate.refresh
    case NoState => true
    case RefreshFailed => false
    case RefreshedWith(state) => Merged(existing, state) == existing || fate.refreshing.disk
  }

  /** The record could be refreshed and still has its secret; a requested domain points here. */
  predicate CanGoOn(captured: Session, existing: Session, item: Item, fate: Fate) {
    && RefreshWorks(existing, fate) && TrimSpace(captured.auth.secret) != ""
    && (item.customDomain != "" ==> fate.cnameVerified)
  }

  predicate Ready(existing: Session, item: Item, fate: Fate) {
    fate.scopeMatches && CanGoOn(Captured(existing, fate.refresh), existing, item, fate)
  }

  /** Provisioning worked, a domain no longer wanted was cleared, and the tunnel came up. */
  predicate ProvisionsOver(captured: Session, item: Item, fate: Fate) {
    && fate.ensured && fate.ready
    && (captured.endpoint.customDomain != "" && item.customDomain == "" ==> fate.domainCleared)
  }

  predicate Provisions(existing: Option<Session>, item: Item, fate: Fate) {
    match existing
    case None => fate.ensured && fate.ready
    case Some(s) => ProvisionsOver(Captured(s, fate.refresh), item, fate)
  }

  /** The item gets as far as touching the cluster. */
  predicate Attempted(files: Files, item: Item, fate: Fate) {
    && fate.fieldsValid && ValidTunnelID(item.id)
    && (item.id in files ==>
          Lookup(files, item.id).Some? && Ready(Lookup(files, item.id).value, item, fate))
  }

  /** The item is applied. */
  predicate Applies(files: Files, item: Item, fate: Fate) {
    Attempted(files, item, fate) && Provisions(Lookup(files, item.id), item, fate) && fate.saving.disk
  }

  /** Going back over the item reports nothing. */
  predicate Reverts(files: Files, id: string, fate: Fate) {
    fate.undoing.disk && if id in files then fate.restored else fate.cleanedUp
  }

  /** An item that failed leaves nothing to report: it never touched the cluster, or there was nothing before it, or it
      was rolled back. */
  predicate LeavesNothing(files: Files, item: Item, fate: Fate) {
    !Attempted(files, item, fate) || item.id !in files || (fate.restored && fate.undoing.disk)
  }

  // ---- one item ----

  /** The entry is untouched or holds the captured record, and is marked scrubbed as before. */
  ghost predicate Refreshed(before: Files, after: Files, existing: Session, captured: Session) {
    && OnlyEntries(before, after, {existing.tunnelID})
    && (after == before || Holds(after, existing.tunnelID, captured))
    && (ScrubbedAt(after, existing.tunnelID) <==> existing.status.scrubbed)
  }

  /** `refreshSessionFromRemoteLocked`. */
  method RefreshLocked(store: SessionStore, existing: Session, fate: Fate) returns (r: Option<Session>)
    requires Lookup(store.files, existing.tunnelID) == Some(existing) && ScrubNoted(store.files, existing.tunnelID)
    modifies store
    ensures r == if RefreshWorks(existing, fate) then Some(Captured(existing, fate.refresh)) else None
    ensures Refreshed(old(store.files), store.files, existing, Captured(existing, fate.refresh))
  {
    match fate.refresh
    case NoState => return Some(existing);
    case RefreshFailed => return None;
    case RefreshedWith(state) =>
      r := MergeRemote(store, existing, state, fate.refreshing);
  }

  method MergeRemote(store: SessionStore, existing: Session, state: Remote, p: Process) returns (r: Option<Session>)
    requires Lookup(store.files, existing.tunnelID) == Some(existing) && ScrubNoted(store.files, existing.tunnelID)
    modifies store
    ensures r == if Merged(existing, state) == existing || p.disk then Some(Merged(existing, state)) else None
    ensures Refreshed(old(store.files), store.files, existing, Merged(existing, state))
  {
    MergedKeepsRest(existing, state);
    MergeDecides(existing, state);
    r := MergeLocked(store, existing, Merged(existing, state), MergeMutation(state), p);
  }

  /** The merge under the store lock. */
  method MergeLocked(store: SessionStore, existing: Session, ghost merged: Session, mutate: Session -> Mutation,
                     p: Process)
    returns (r: Option<Session>)
    requires Lookup(store.files, existing.tunnelID) == Some(existing) && ScrubNoted(store.files, existing.tunnelID)
    requires merged.tunnelID == existing.tunnelID && merged.status == existing.status
      && (Clean(existing) ==> Clean(merged))
    requires mutate(existing) == Decision(existing, merged)
    modifies store
    ensures r == if merged == existing || p.disk then Some(merged) else None
    ensures Refreshed(old(store.files), store.files, existing, merged)
  {
    r := store.UpdateAtomic(existing.tunnelID, mutate, p);
    if r.Some? && merged != existing {
      MergeWritten(old(store.files), existing, merged, p);
    }
  }

  /** `rollbackExistingApplyTunnel`: the remote restore and the local save are both attempted. */
  method RollbackExisting(store: SessionStore, previous: Session, restored: bool, p: Process) returns (ok: bool)
    requires !ScrubbedAt(store.files, previous.tunnelID)
    modifies store
    ensures OnlyEntries(old(store.files), store.files, {previous.tunnelID})
    ensures ok ==> Holds(store.files, previous.tunnelID, previous)
    ensures Lookup(old(store.files), previous.tunnelID).Some? ==> (ok <==> restored && p.disk)
  {
    var saved := store.Save(previous, p);
    ok := restored && saved;
    if saved { SavedHolds(old(store.files), previous, p); }
  }

  /** `applyOneTunnel`. `undone` says that a failed item left nothing to report beyond its own error. */
  method ApplyOneTunnel(store: SessionStore, item: Item, fate: Fate, lib: Library)
    returns (ok: bool, result: ApplyResult, undone: bool)
    requires ScrubNoted(store.files, item.id)
    modifies store
    ensures OnlyEntries(old(store.files), store.files, {item.id})
    ensures ok ==> result.tunnelID == item.id && AppliedAs(old(store.files), store.files, result, fate.refresh)
    ensures ok ==>
      result.record == RecordFor(item, fate, result.previous, lib) && (result.newTunnel <==> result.previous.None?)
    ensures ok ==> CarriesOver(result) && (Sound(item, lib) ==> BuiltFor(result.record, item, lib))
    ensures !ok && undone ==> Back(old(store.files), store.files, item.id, fate.refresh)
    ensures ok <==> Applies(old(store.files), item, fate)
    ensures undone <==> ok || LeavesNothing(old(store.files), item, fate)
  {
    ok, undone, result := false, true, NewResult(item, fate, lib);
    if !fate.fieldsValid || !ValidTunnelID(item.id) {
      return;
    }
    var existing := store.Get(item.id);
    if existing.None? && item.id in store.files {
      return;
    }
    if existing.None? {
      ok := ApplyNew(store, result, item, fate);
    } else if fate.scopeMatches {
      ok, result, undone := ApplyExisting(store, existing.value, item, fate, lib);
    }
    if ok && Sound(item, lib) { RecordIsBuiltFor(item, fate, result.previous, lib); }
  }

  /** The tunnel's secret and creation time survive an apply over it. */
  predicate CarriesOver(r: ApplyResult) {
    r.previous.Some? ==>
      && r.record.auth.secret == r.previous.value.auth.secret
      && r.record.stamps.createdAt == r.previous.value.stamps.createdAt
  }

  function NewResult(item: Item, fate: Fate, lib: Library): ApplyResult {
    var place := fate.place.(secret := fate.newSecret, createdAt := "");
    ApplyResult(item.id, true, None, BuildRecord(Fresh(item, fate.now, fate.salt, lib), place))
  }

  /** The rest of an apply where there was no record. */
  method ApplyNew(store: SessionStore, result: ApplyResult, item: Item, fate: Fate) returns (ok: bool)
    requires item.id !in store.files && ValidTunnelID(item.id) && result.record.tunnelID == item.id
    modifies store
    ensures OnlyEntries(old(store.files), store.files, {item.id})
    ensures ok <==> fate.ensured && fate.ready && fate.saving.disk
    ensures ok ==> Holds(store.files, item.id, result.record)
    ensures !ok ==> store.files == old(store.files)
  {
    if !fate.ensured || !fate.ready {
      // Nothing was saved; the deferred clean-up deletes a record that is not there.
      if fate.ensured {
        var deleted := store.Delete(item.id, fate.undoing.disk);
      }
      return false;
    }
    ok := store.Save(result.record, fate.saving);
    if !ok {
      var deleted := store.Delete(item.id, fate.undoing.disk);
      return;
    }
    SavedHolds(old(store.files), result.record, fate.saving);
  }

  /** The rest of an apply over a record in scope: refresh, reuse, provision, save. */
  method ApplyExisting(store: SessionStore, existing: Session, item: Item, fate: Fate, lib: Library)
    returns (ok: bool, result: ApplyResult, undone: bool)
    requires Lookup(store.files, item.id) == Some(existing) && ScrubNoted(store.files, item.id)
    modifies store
    ensures OnlyEntries(old(store.files), store.files, {item.id})
    ensures ok ==> result.tunnelID == item.id && AppliedAs(old(store.files), store.files, result, fate.refresh)
    ensures ok ==> !result.newTunnel && result.previous == Some(Captured(existing, fate.refresh))
    ensures ok ==> result.record == RecordFor(item, fate, result.previous, lib)
    ensures !ok && undone ==> Back(old(store.files), store.files, item.id, fate.refresh)
    ensures var captured := Captured(existing, fate.refresh);
      && (ok <==> CanGoOn(captured, existing, item, fate) && ProvisionsOver(captured, item, fate) && fate.saving.disk)
      && (undone <==> ok || !CanGoOn(captured, existing, item, fate) || (fate.restored && fate.undoing.disk))
  {
    ok, undone, result := false, true, NewResult(item, fate, lib);
    var refreshed := RefreshLocked(store, existing, fate);
    if refreshed.None? || TrimSpace(refreshed.value.auth.secret) == "" {
      return;
    }
    var n := Reused(Fresh(item, fate.now, fate.salt, lib), refreshed.value, fate.now, lib);
    n := ReusedBasicAuth(n, refreshed.value.auth.basicAuth, lib);
    var place := fate.place.(secret := refreshed.value.auth.secret, createdAt := refreshed.value.stamps.createdAt);
    result := ApplyResult(item.id, false, refreshed, BuildRecord(n, place));
    MergeStatus(existing, fate.refresh);
    ok, undone := ApplyOverExisting(store, result, item, fate);
  }

  /** What an apply writes is built for the item, over nothing and over any captured record. */
  lemma RecordIsBuiltFor(item: Item, fate: Fate, previous: Option<Session>, lib: Library)
    requires Sound(item, lib)
    ensures BuiltFor(RecordFor(item, fate, previous, lib), item, lib)
  {
    match previous
    case None => FirstApply(item, fate.now, fate.salt, fate.place.(secret := fate.newSecret, createdAt := ""), lib);
    case Some(s) =>
      ReappliedIsBuiltFor(item, fate.now, fate.salt, s,
                          fate.place.(secret := s.auth.secret, createdAt := s.stamps.createdAt), lib);
  }

  lemma MergeStatus(original: Session, refresh: Refresh)
    ensures Captured(original, refresh).status == original.status
      && Captured(original, refresh).tunnelID == original.tunnelID
    ensures Clean(original) ==> Captured(original, refresh).auth.secret == ""
  {}

  /** The rest of an apply over an existing record, with its deferred rollback. */
  method ApplyOverExisting(store: SessionStore, result: ApplyResult, item: Item, fate: Fate)
    returns (ok: bool, undone: bool)
    requires result.previous.Some? && result.previous.value.tunnelID == result.tunnelID == result.record.tunnelID
    requires !result.record.status.scrubbed && !ScrubbedAt(store.files, result.tunnelID)
    modifies store
    ensures OnlyEntries(old(store.files), store.files, {result.tunnelID})
    ensures ok ==> Holds(store.files, result.tunnelID, result.record)
    ensures !ok && undone ==>
      store.files == old(store.files) || Holds(store.files, result.tunnelID, result.previous.value)
    ensures Lookup(old(store.files), result.tunnelID).Some? ==>
      (ok <==> (item.customDomain != "" ==> fate.cnameVerified) && ProvisionsOver(result.previous.value, item, fate)
               && fate.saving.disk)
      && (undone <==>
            ok || (item.customDomain != "" && !fate.cnameVerified) || (fate.restored && fate.undoing.disk))
  {
    if item.customDomain != "" && !fate.cnameVerified {
      return false, true;
    }
    var clears := result.previous.value.endpoint.customDomain != "" && item.customDomain == "";
    if fate.ensured && (!clears || fate.domainCleared) && fate.ready {
      var saved := store.Save(result.record, fate.saving);
      if saved {
        SavedHolds(old(store.files), result.record, fate.saving);
        return true, true;
      }
    }
    undone := RollbackExisting(store, result.previous.value, fate.restored, fate.undoing);
    return false, undone;
  }

  // ---- the batch ----

  /** `applyTunnelID`: a name like any tunnel id, but not one of the reserved ones. */
  predicate NameAllowed(id: string) {
    ValidTunnelID(id) && !HasPrefix(id, "mesh-")
  }

  /** The reserved names are those that begin with the letters of mesh and a dash. */
  lemma ReservedNames(id: string)
    ensures NameAllowed(id) <==>
      ValidTunnelID(id)
      && !(|id| >= 5 && id[0] == 'm' && id[1] == 'e' && id[2] == 's' && id[3] == 'h' && id[4] == '-')
  {
    if |id| >= 5 && id[0] == 'm' && id[1] == 'e' && id[2] == 's' && id[3] == 'h' && id[4] == '-' {
      assert id[..5] == "mesh-";
    }
  }

  predicate LinkNamesDistinct(item: Item) {
    item.policy.Some? ==>
      forall i, j | 0 <= i < j < |item.policy.value.links| ::
        item.policy.value.links[i].name != item.policy.value.links[j].name
  }

  /** Allowed and pairwise different tunnel names, each with pairwise different link names. */
  predicate NamesValid(items: seq<Item>) {
    (forall i | 0 <= i < |items| :: NameAllowed(items[i].id) && LinkNamesDistinct(items[i]))
    && forall i, j | 0 <= i < j < |items| :: items[i].id != items[j].id
  }

  method ValidateLinkNames(item: Item) returns (ok: bool)
    ensures ok <==> LinkNamesDistinct(item)
  {
    if item.policy.None? {
      return true;
    }
    var links := item.policy.value.links;
    var seen: set<string> := {};
    for i := 0 to |links|
      invariant forall j, k | 0 <= j < k < i :: links[j].name != links[k].name
      invariant forall n :: n in seen <==> exists j | 0 <= j < i :: links[j].name == n
    {
      if links[i].name in seen {
        return false;
      }
      seen := seen + {links[i].name};
    }
    return true;
  }

  lemma NamesValidNext(items: seq<Item>, i: nat)
    requires i < |items|
    ensures NamesValid(items[..i + 1]) <==>
      NamesValid(items[..i]) && NameAllowed(items[i].id) && LinkNamesDistinct(items[i])
      && forall j | 0 <= j < i :: items[j].id != items[i].id
    ensures NamesValid(items) ==> NamesValid(items[..i + 1])
  {
    var next := items[..i + 1];
    assert forall j | 0 <= j < i :: items[..i][j] == next[j] == items[j];
    assert next[i] == items[i];
    if NamesValid(next) {
      forall j | 0 <= j < i ensures NameAllowed(items[..i][j].id) && LinkNamesDistinct(items[..i][j]) {
        assert NameAllowed(next[j].id);
      }
      forall j, k | 0 <= j < k < i ensures items[..i][j].id != items[..i][k].id { assert next[j].id != next[k].id; }
    }
  }

  /** `validateApplyTunnelNames`. */
  method ValidateNames(items: seq<Item>) returns (ok: bool)
    ensures ok <==> NamesValid(items)
  {
    var seen: set<string> := {};
    for i := 0 to |items|
      invariant NamesValid(items[..i])
      invariant forall id :: id in seen <==> exists j | 0 <= j < i :: items[j].id == id
    {
      NamesValidNext(items, i);
      if !NameAllowed(items[i].id) {
        return false;
      }
      if items[i].id in seen {
        return false;
      }
      seen := seen + {items[i].id};
      var links := ValidateLinkNames(items[i]);
      if !links {
        return false;
      }
    }
    assert items[..|items|] == items;
    return true;
  }

  function Ids(items: seq<Item>): set<string> {
    set i | 0 <= i < |items| :: items[i].id
  }

  /** The results of the first items, each in force. */
  ghost predicate ResultsHold(before: Files, now: Files, items: seq<Item>, results: seq<ApplyResult>,
                              fates: seq<Fate>) {
    |results| <= |items| == |fates| &&
    forall j | 0 <= j < |results| ::
      results[j].tunnelID == items[j].id && AppliedAs(before, now, results[j], fates[j].refresh)
  }

  /** Each result's record is the one its item asks for. */
  ghost predicate RecordsBuilt(items: seq<Item>, results: seq<ApplyResult>, fates: seq<Fate>, lib: Library) {
    |results| <= |items| == |fates| &&
    forall j | 0 <= j < |results| :: results[j].record == RecordFor(items[j], fates[j], results[j].previous, lib)
  }

  /** One item of a batch that was given up after k items were applied and that was undone without an error: the
      applied ones hold their captured records or are gone, the failed one is untouched or holds its captured
      record, and the others are untouched. */
  predicate ItemUndone(before: Files, after: Files, items: seq<Item>, fates: seq<Fate>, k: nat, j: nat)
    requires |items| == |fates| && j < |items|
  {
    if j < k then RolledTo(before, after, items[j].id, fates[j].refresh)
    else if j == k then Back(before, after, items[j].id, fates[j].refresh)
    else SameEntry(before, after, items[j].id)
  }

  ghost predicate BatchUndone(before: Files, after: Files, items: seq<Item>, fates: seq<Fate>, k: nat)
    requires |items| == |fates|
  {
    forall j | 0 <= j < |items| :: ItemUndone(before, after, items, fates, k, j)
  }

  ghost predicate AllRolled(before: Files, after: Files, items: seq<Item>, fates: seq<Fate>, from: nat, to: nat)
    requires |items| == |fates|
  {
    forall j | from <= j < to && j < |items| :: RolledTo(before, after, items[j].id, fates[j].refresh)
  }

  predicate AllRevert(before: Files, items: seq<Item>, fates: seq<Fate>, from: nat, to: nat)
    requires |items| == |fates|
  {
    forall j | from <= j < to && j < |items| :: Reverts(before, items[j].id, fates[j])
  }

  lemma OtherEntry(now: Files, next: Files, items: seq<Item>, i: nat, j: nat)
    requires NamesValid(items) && i < |items| && j < |items| && i != j && OnlyEntries(now, next, {items[i].id})
    ensures SameEntry(now, next, items[j].id)
  {
    assert items[i].id != items[j].id by {
      if i < j { assert items[i].id != items[j].id; } else { assert items[j].id != items[i].id; }
    }
  }

  /** `rollbackApplyResults`, last result first. */
  method RollbackResults(store: SessionStore, results: seq<ApplyResult>, items: seq<Item>, fates: seq<Fate>,
                         ghost before: Files)
    returns (ok: bool)
    requires NamesValid(items) && ResultsHold(before, store.files, items, results, fates)
    modifies store
    ensures OnlyEntries(old(store.files), store.files, Ids(items[..|results|]))
    ensures ok ==> AllRolled(before, store.files, items, fates, 0, |results|)
    ensures ok <==> AllRevert(before, items, fates, 0, |results|)
  {
    ok := true;
    var i: nat := |results|;
    while i > 0
      invariant i <= |results| && RollbackAt(before, old(store.files), store.files, items, results, fates, i, ok)
    {
      i := i - 1;
      ghost var now := store.files;
      var one := RollbackOne(store, results[i], fates[i], before);
      RollbackNext(before, old(store.files), now, store.files, items, results, fates, i, ok, one);
      ok := ok && one;
    }
  }

  /** The results from number i on have been gone back over. */
  ghost predicate RollbackAt(before: Files, start: Files, now: Files, items: seq<Item>, results: seq<ApplyResult>,
                             fates: seq<Fate>, i: nat, ok: bool)
  {
    && |results| <= |items| == |fates| && OnlyEntries(start, now, Ids(items[..|results|]))
    && (forall j | 0 <= j < i && j < |results| ::
          results[j].tunnelID == items[j].id && AppliedAs(before, now, results[j], fates[j].refresh))
    && (ok ==> AllRolled(before, now, items, fates, i, |results|))
    && (ok <==> AllRevert(before, items, fates, i, |results|))
  }

  lemma RollbackNext(before: Files, start: Files, now: Files, next: Files, items: seq<Item>, results: seq<ApplyResult>,
                     fates: seq<Fate>, i: nat, ok: bool, one: bool)
    requires NamesValid(items) && RollbackAt(before, start, now, items, results, fates, i + 1, ok) && i < |results|
    requires OnlyEntries(now, next, {items[i].id}) && (one ==> RolledTo(before, next, items[i].id, fates[i].refresh))
    requires one <==> Reverts(before, items[i].id, fates[i])
    ensures RollbackAt(before, start, next, items, results, fates, i, ok && one)
  {
    forall j | 0 <= j < |results| && j != i ensures SameEntry(now, next, items[j].id) {
      OtherEntry(now, next, items, i, j);
    }
    assert items[..|results|][i].id in Ids(items[..|results|]);
    OnlyEntriesTogether(start, now, next, Ids(items[..|results|]), {items[i].id});
  }

  /** The item's entry was as at the start when its turn came. */
  lemma FirstState(before: Files, now: Files, next: Files, id: string, r: ApplyResult, refresh: Refresh)
    requires SameEntry(before, now, id)
    ensures Back(now, next, id, refresh) ==> Back(before, next, id, refresh)
    ensures r.tunnelID == id && AppliedAs(now, next, r, refresh) ==> AppliedAs(before, next, r, refresh)
  {}

  /** One item's turn leaves the earlier results in force and the later entries alone. */
  lemma NextItem(before: Files, now: Files, next: Files, items: seq<Item>, results: seq<ApplyResult>, fates: seq<Fate>)
    requires NamesValid(items) && |results| < |items| && OnlyEntries(now, next, {items[|results|].id})
    requires ResultsHold(before, now, items, results, fates)
    requires forall j | |results| <= j < |items| :: SameEntry(before, now, items[j].id)
    ensures ResultsHold(before, next, items, results, fates)
    ensures forall j | |results| < j < |items| :: SameEntry(before, next, items[j].id)
  {
    var i := |results|;
    forall j | 0 <= j < |items| && j != i ensures SameEntry(now, next, items[j].id) {
      OtherEntry(now, next, items, i, j);
    }
  }

  /** Going back over the applied items leaves the others as they were. */
  lemma RestUntouched(before: Files, now: Files, next: Files, items: seq<Item>, fates: seq<Fate>, k: nat)
    requires NamesValid(items) && |fates| == |items| && k <= |items|
    requires OnlyEntries(now, next, Ids(items[..k])) && AllRolled(before, next, items, fates, 0, k)
    requires k < |items| ==> Back(before, now, items[k].id, fates[k].refresh)
    requires forall j | k < j < |items| :: SameEntry(before, now, items[j].id)
    ensures BatchUndone(before, next, items, fates, k)
  {
    forall j | 0 <= j < |items| ensures ItemUndone(before, next, items, fates, k, j) {
      if j >= k {
        assert items[j].id !in Ids(items[..k]) by {
          forall i | 0 <= i < k ensures items[..k][i].id != items[j].id {
            assert items[i].id != items[j].id;
          }
        }
        assert SameEntry(now, next, items[j].id);
      }
    }
  }

  lemma SameSessions(before: Files, after: Files, items: seq<Item>, fates: seq<Fate>, k: nat)
    requires |fates| == |items| && OnlyEntries(before, after, Ids(items)) && BatchUndone(before, after, items, fates, k)
    ensures after.Keys == before.Keys
  {
    forall id ensures id in after <==> id in before {
      if id in Ids(items) {
        var i :| 0 <= i < |items| && items[i].id == id;
        assert ItemUndone(before, after, items, fates, k, i);
      } else {
        assert SameEntry(before, after, id);
      }
    }
  }

  /** Saving keeps every scrubbed record clean and noted, provided nobody hands in a record that is marked
      scrubbed and is not; scrubbing an entry makes it so. */
  lemma NotesKept(files: Files, s: Session, p: Process, id: string)
    requires ScrubNoted(files, id) && (s.status.scrubbed ==> Clean(s) && s.status.lastError != "")
    ensures ScrubNoted(Saved(files, s, p), id)
    ensures ScrubNoted(EntryScrubbed(files, id, p), id)
  {}

  /** The batch so far: the results are in force, and the entries from number k on are as they were. */
  ghost predicate BatchAt(before: Files, now: Files, items: seq<Item>, fates: seq<Fate>, results: seq<ApplyResult>,
                          k: nat, lib: Library)
  {
    && OnlyEntries(before, now, Ids(items)) && ResultsHold(before, now, items, results, fates)
    && RecordsBuilt(items, results, fates, lib)
    && (forall j | k <= j < |items| :: SameEntry(before, now, items[j].id))
    && forall j | 0 <= j < |results| :: Applies(before, items[j], fates[j])
  }

  lemma BatchNext(before: Files, now: Files, next: Files, items: seq<Item>, fates: seq<Fate>,
                  results: seq<ApplyResult>, lib: Library)
    requires NamesValid(items) && |results| < |items| && BatchAt(before, now, items, fates, results, |results|, lib)
    requires OnlyEntries(now, next, {items[|results|].id})
    ensures BatchAt(before, next, items, fates, results, |results| + 1, lib)
  {
    assert items[|results|].id in Ids(items);
    OnlyEntriesTogether(before, now, next, Ids(items), {items[|results|].id});
    NextItem(before, now, next, items, results, fates);
  }

  lemma BatchGrows(before: Files, now: Files, items: seq<Item>, fates: seq<Fate>, results: seq<ApplyResult>,
                   result: ApplyResult, lib: Library)
    requires |results| < |items| && BatchAt(before, now, items, fates, results, |results| + 1, lib)
    requires result.tunnelID == items[|results|].id && AppliedAs(before, now, result, fates[|results|].refresh)
    requires result.record == RecordFor(items[|results|], fates[|results|], result.previous, lib)
    requires Applies(before, items[|results|], fates[|results|])
    ensures BatchAt(before, now, items, fates, results + [result], |results| + 1, lib)
  {}

  /** One turn of the loop over the items. */
  method ApplyNext(store: SessionStore, items: seq<Item>, fates: seq<Fate>, results: seq<ApplyResult>, lib: Library,
                   ghost before: Files)
    returns (ok: bool, result: ApplyResult, undone: bool)
    requires NamesValid(items) && |results| < |items| && ScrubNoted(before, items[|results|].id)
    requires BatchAt(before, store.files, items, fates, results, |results|, lib)
    modifies store
    ensures BatchAt(before, store.files, items, fates, results, |results| + 1, lib)
    ensures ok ==> BatchAt(before, store.files, items, fates, results + [result], |results| + 1, lib)
    ensures !ok && undone ==> Back(before, store.files, items[|results|].id, fates[|results|].refresh)
    ensures ok <==> Applies(before, items[|results|], fates[|results|])
    ensures !ok ==> (undone <==> LeavesNothing(before, items[|results|], fates[|results|]))
  {
    ghost var now := store.files;
    var i := |results|;
    assert SameEntry(before, now, items[i].id);
    ok, result, undone := ApplyOneTunnel(store, items[i], fates[i], lib);
    BatchNext(before, now, store.files, items, fates, results, lib);
    FirstState(before, now, store.files, items[i].id, result, fates[i].refresh);
    if ok { BatchGrows(before, store.files, items, fates, results, result, lib); }
  }

  /** The loop over the items: it stops at the first that fails. */
  method ApplyItems(store: SessionStore, items: seq<Item>, fates: seq<Fate>, lib: Library)
    returns (results: seq<ApplyResult>, undone: bool)
    requires NamesValid(items) && |fates| == |items|
    requires forall i | 0 <= i < |items| :: ScrubNoted(store.files, items[i].id)
    modifies store
    ensures BatchAt(old(store.files), store.files, items, fates, results, |results| + 1, lib)
    ensures undone && |results| < |items| ==>
      Back(old(store.files), store.files, items[|results|].id, fates[|results|].refresh)
    ensures |results| < |items| ==>
      !Applies(old(store.files), items[|results|], fates[|results|])
      && (undone <==> LeavesNothing(old(store.files), items[|results|], fates[|results|]))
    ensures |results| == |items| ==> undone
  {
    results, undone := [], true;
    for i := 0 to |items|
      invariant |results| == i && undone
      invariant BatchAt(old(store.files), store.files, items, fates, results, i, lib)
    {
      var ok, result;
      ok, result, undone := ApplyNext(store, items, fates, results, lib, old(store.files));
      if !ok {
        return;
      }
      undone := true;
      results := results + [result];
    }
  }

  /** How many items are applied before the first that is not. */
  function Applied(files: Files, items: seq<Item>, fates: seq<Fate>): nat
    requires |items| == |fates|
  {
    if items == [] || !Applies(files, items[0], fates[0]) then 0 else 1 + Applied(files, items[1..], fates[1..])
  }

  predicate AllApply(files: Files, items: seq<Item>, fates: seq<Fate>)
    requires |items| == |fates|
  {
    forall i | 0 <= i < |items| :: Applies(files, items[i], fates[i])
  }

  lemma {:induction false} AppliedUpTo(files: Files, items: seq<Item>, fates: seq<Fate>, k: nat)
    requires |items| == |fates| && k <= |items| && forall i | 0 <= i < k :: Applies(files, items[i], fates[i])
    requires k < |items| ==> !Applies(files, items[k], fates[k])
    ensures Applied(files, items, fates) == k
  {
    if k > 0 { AppliedUpTo(files, items[1..], fates[1..], k - 1); }
  }

  method RollbackOne(store: SessionStore, r: ApplyResult, fate: Fate, ghost before: Files) returns (ok: bool)
    requires AppliedAs(before, store.files, r, fate.refresh)
    modifies store
    ensures OnlyEntries(old(store.files), store.files, {r.tunnelID})
    ensures ok ==> RolledTo(before, store.files, r.tunnelID, fate.refresh)
    ensures ok <==> Reverts(before, r.tunnelID, fate)
  {
    if r.newTunnel {
      var deleted := store.Delete(r.tunnelID, fate.undoing.disk);
      return fate.cleanedUp && deleted;
    }
    MergeStatus(Lookup(before, r.tunnelID).value, fate.refresh);
    ok := RollbackExisting(store, r.previous.value, fate.restored, fate.undoing);
  }

  /** `runApplyConfig` with its locks held: apply each item, start the daemon, wait for every connection. `undone`
      says that nothing was reported wrong with going back. */
  method RunApply(store: SessionStore, items: seq<Item>, fates: seq<Fate>, daemonStarts: bool, connects: seq<bool>,
                  lib: Library)
    returns (ok: bool, results: seq<ApplyResult>, undone: bool)
    requires |fates| == |items| == |connects|
    requires forall i | 0 <= i < |items| :: ScrubNoted(store.files, items[i].id)
    modifies store
    ensures OnlyEntries(old(store.files), store.files, Ids(items))
    ensures ok <==>
      items != [] && NamesValid(items) && AllApply(old(store.files), items, fates) && daemonStarts
      && forall i | 0 <= i < |items| :: connects[i]
    ensures ok ==> |results| == |items|
    ensures items == [] || !NamesValid(items) ==> undone && results == [] && store.files == old(store.files)
    ensures items != [] && NamesValid(items) ==> |results| == Applied(old(store.files), items, fates)
    ensures items != [] && NamesValid(items) && !ok ==>
      (undone <==> AllRevert(old(store.files), items, fates, 0, |results|)
                   && (|results| < |items| ==> LeavesNothing(old(store.files), items[|results|], fates[|results|])))
    ensures ok ==> ResultsHold(old(store.files), store.files, items, results, fates)
    ensures RecordsBuilt(items, results, fates, lib)
    ensures !ok ==> |results| <= |items|
    ensures !ok && undone ==> BatchUndone(old(store.files), store.files, items, fates, |results|)
    ensures !ok && undone ==> store.files.Keys == old(store.files).Keys
  {
    ok, results, undone := false, [], true;
    var valid := ValidateNames(items);
    if |items| == 0 || !valid {
      return;
    }
    var applied, itemUndone := ApplyItems(store, items, fates, lib);
    results := applied;
    AppliedUpTo(old(store.files), items, fates, |results|);
    if |results| == |items| && daemonStarts && forall i | 0 <= i < |items| :: connects[i] {
      ok := true;
      return;
    }
    ghost var now := store.files;
    var back := RollbackResults(store, results, items, fates, old(store.files));
    IdsPrefix(items, |results|);
    OnlyEntriesTogether(old(store.files), now, store.files, Ids(items), Ids(items[..|results|]));
    undone := itemUndone && back;
    if undone {
      RestUntouched(old(store.files), now, store.files, items, fates, |results|);
      SameSessions(old(store.files), store.files, items, fates, |results|);
    }
  }
}
