/** What holds of the assistant tables after every history: coherence, and the fate of deleted ids. */
module StorageLaws {
  import opened Prelude
  import opened Text
  import opened AssistantTables
  import opened AssistantService
  import opened AssistantInvariants
  import opened AssistantRuns
  import opened AssistantUpdates
  import opened AssistantBootstrap
  import opened AssistantConversation
  import opened StorageHistory

  // ---------------------------------------------------------------------------------------
  // Defaults and preferences
  // ---------------------------------------------------------------------------------------

  /** Entry `n` of the history is a choice that overtakes a default fixed since its conversation began. */
  predicate OvertakenAt(s: Store, h: History, n: nat, i: DefId)
    requires n < |h|
  {
    h[n].1.OpChoose? && Overtakes(Run(s, h[..n]), h[n].1.cid, h[n].1.model, h[n].1.permission, i)
  }

  lemma RunSplits(s: Store, h: History, n: nat)
    requires 0 < n <= |h|
    ensures Run(s, h[..n]) == Run(Apply(h[0].0, s, h[0].1), h[1..][..n - 1])
  {
    assert h[..n][1..] == h[1..][..n - 1];
  }

  lemma OvertakenFirst(s: Store, h: History, i: DefId)
    requires h != [] && h[0].1.OpChoose? && !Strays(s, i) && Strays(Apply(h[0].0, s, h[0].1), i)
    ensures OvertakenAt(s, h, 0, i)
  {
    assert h[..0] == [];
    ChooseStraysIff(s, h[0].1.cid, h[0].1.model, h[0].1.permission, i);
  }

  lemma OvertakenLater(s: Store, h: History, n: nat, i: DefId)
    requires h != [] && n < |h| - 1 && OvertakenAt(Apply(h[0].0, s, h[0].1), h[1..], n, i)
    ensures OvertakenAt(s, h, n + 1, i)
  {
    RunSplits(s, h, n + 1);
  }

  /** A preference strays from a fixed default only where an older conversation overtook it. */
  lemma {:induction false} StraysComeFromOlderConversations(s: Store, h: History, i: DefId)
    requires Inv(s) && GoodHistory(h) && !Strays(s, i) && Strays(Run(s, h), i)
    ensures exists n :: 0 <= n < |h| && OvertakenAt(s, h, n, i)
    decreases |h|
  {
    var t := Apply(h[0].0, s, h[0].1);
    ApplyKeepsInv(h[0].0, s, h[0].1);
    assert GoodHistory(h[1..]);
    if Strays(t, i) {
      OvertakenFirst(s, h, i);
    } else {
      StraysComeFromOlderConversations(t, h[1..], i);
      var n :| 0 <= n < |h[1..]| && OvertakenAt(t, h[1..], n, i);
      OvertakenLater(s, h, n, i);
    }
  }

  /**
   A default fixed at `v` is stored as the preference `v`, an absent row being read as empty, in every
   history in which no older conversation overtook a default of the assistant.
   */
  lemma FixedDefaultsArePreferences(h: History, i: DefId)
    requires GoodHistory(h) && forall n :: 0 <= n < |h| ==> !OvertakenAt(EMPTY, h, n, i)
    ensures var s := Run(EMPTY, h);
            LiveAt(s.defs, i) && s.defs[i].source != Generated ==>
              && (s.defs[i].model.mode.Fixed? ==> PreferenceOf(s, i).model == s.defs[i].model.value)
              && (s.defs[i].permission.mode.Fixed? ==> PreferenceOf(s, i).permission == s.defs[i].permission.value)
              && (s.defs[i].mcps.mode.Fixed? ==> PreferenceOf(s, i).mcps == s.defs[i].mcps.ids)
  {
    if Strays(Run(EMPTY, h), i) { StraysComeFromOlderConversations(EMPTY, h, i); }
  }

  /** Where one did, the next state has strayed: the condition is exact at each step. */
  lemma OvertakingStrays(s: Store, h: History, n: nat, i: DefId)
    requires n < |h| && h[n].1.OpChoose? && !Strays(Run(s, h[..n]), i)
    ensures Strays(Apply(h[n].0, Run(s, h[..n]), h[n].1), i) <==> OvertakenAt(s, h, n, i)
  {
    ChooseStraysIff(Run(s, h[..n]), h[n].1.cid, h[n].1.model, h[n].1.permission, i);
  }

  /** An empty preference row was put there by a conversation that had nothing to remember. */
  predicate EmptiedAt(s: Store, h: History, n: nat, i: DefId)
    requires n < |h|
  {
    && (h[n].1.OpConverse? || h[n].1.OpChoose?)
    && StoresEmpty(Run(s, h[..n + 1]), i) && !StoresEmpty(Run(s, h[..n]), i)
  }

  /** The service itself never stores an all-empty row: conversations do, when they start or choose. */
  lemma {:induction false} EmptyRowsComeFromConversations(s: Store, h: History, i: DefId)
    requires Inv(s) && GoodHistory(h) && !StoresEmpty(s, i) && StoresEmpty(Run(s, h), i)
    ensures exists n :: 0 <= n < |h| && EmptiedAt(s, h, n, i)
    decreases |h|
  {
    var t := Apply(h[0].0, s, h[0].1);
    ApplyKeepsInv(h[0].0, s, h[0].1);
    assert GoodHistory(h[1..]);
    assert h[..0] == [] && h[1..][..0] == [];
    RunSplits(s, h, 1);
    if StoresEmpty(t, i) {
      assert EmptiedAt(s, h, 0, i);
    } else {
      EmptyRowsComeFromConversations(t, h[1..], i);
      var n :| 0 <= n < |h[1..]| && EmptiedAt(t, h[1..], n, i);
      RunSplits(s, h, n + 1);
      RunSplits(s, h, n + 2);
      assert EmptiedAt(s, h, n + 1, i);
    }
  }

  /** Without conversations no all-empty preference row is ever stored. */
  lemma NoEmptyPreferenceIsStored(h: History, i: DefId)
    requires GoodHistory(h) && forall n :: 0 <= n < |h| ==> !h[n].1.OpConverse? && !h[n].1.OpChoose?
    ensures !StoresEmpty(Run(EMPTY, h), i)
  {
    if StoresEmpty(Run(EMPTY, h), i) { EmptyRowsComeFromConversations(EMPTY, h, i); }
  }

  /** Defaults stay well formed on every row, deleted ones included: auto has no value, fixed a non-blank one. */
  lemma DefaultsStayWellFormed(h: History, i: DefId)
    requires GoodHistory(h)
    ensures var s := Run(EMPTY, h);
            i in s.defs ==> WellFormed(s.defs[i].model) && WellFormed(s.defs[i].permission)
  {
    RunKeepsInv(EMPTY, h);
    var s := Run(EMPTY, h);
    if i in s.defs { assert RowInv(s, i); }
  }

  /** The downgrade copy of an overlay always says what the overlay says. */
  lemma OverridesMirrorOverlays(h: History, i: DefId)
    requires GoodHistory(h)
    ensures var s := Run(EMPTY, h);
            LiveAt(s.defs, i) ==>
              && (i in s.overlays ==> s.defs[i].key in s.overrides)
              && (s.defs[i].key in s.overrides ==> s.overrides[s.defs[i].key] == OverlayOf(s, i))
  {
    RunKeepsInv(EMPTY, h);
    var s := Run(EMPTY, h);
    if i in s.defs { assert RowInv(s, i); }
  }

  // ---------------------------------------------------------------------------------------
  // Deleted ids
  // ---------------------------------------------------------------------------------------

  /** A deleted row keeps its key for ever. */
  lemma TombstonesAreForever(s: Store, h: History, k: Key)
    requires Inv(s) && GoodHistory(h) && Tombstone(s.defs, k)
    ensures Tombstone(Run(s, h).defs, k) && LiveByKey(Run(s, h).defs, k) == None
  {
    RunKeepsInv(s, h);
    var i :| i in s.defs && s.defs[i].key == k && s.defs[i].deleted;
    assert Run(s, h).defs[i].key == k;
    DeadIsTombstone(Run(s, h), k);
  }

  /** A create request that passes every check made before the first write. */
  predicate Acceptable(c: Config, s: Store, id: Key, r: CreateReq, providerEnabled: bool) {
    && !Blank(r.name) && !IsBuiltin(c, id) && FromParts(r.recommended, r.defaults).Ok?
    && BackendFor(r.backend, providerEnabled).Ok? && id !in s.legacy
  }

  /** `create` succeeds iff the request is acceptable and the id was never deleted. */
  lemma CreateSucceedsIff(c: Config, s: Store, id: Key, r: CreateReq, providerEnabled: bool)
    requires Inv(s)
    ensures Create(c, s, id, r, providerEnabled).error == None <==>
            Acceptable(c, s, id, r, providerEnabled) && !Tombstone(s.defs, id)
    ensures Acceptable(c, s, id, r, providerEnabled) && Tombstone(s.defs, id) ==>
              var d := Create(c, s, id, r, providerEnabled);
              d.error == Some(InternalError) && id in d.store.legacy && d.store.defs == s.defs
    ensures !Acceptable(c, s, id, r, providerEnabled) ==> Create(c, s, id, r, providerEnabled).store == s
  {
    if Acceptable(c, s, id, r, providerEnabled) {
      var o := FromParts(r.recommended, r.defaults).value;
      var row := NewLegacyRow(r, BackendFor(r.backend, providerEnabled).value);
      StoreUserEffect(s, id, row, r.recommended, false, None, r.defaults);
      DeadIsTombstone(s, id);
      assert Create(c, s, id, r, providerEnabled) == StoreUser(s, id, row, o, false, None, r.defaults);
    }
  }

  /** A successful delete leaves no live row, and a marked one that stays. */
  lemma DeleteLeavesTombstone(c: Config, s: Store, id: Key)
    requires Inv(s) && Delete(c, s, id).error == None
    ensures Tombstone(Delete(c, s, id).store.defs, id)
  {
    var found := LiveByKey(s.defs, id);
    var t := Delete(c, s, id).store;
    if found.Some? {
      assert t.defs[found.value].key == id && t.defs[found.value].deleted;
    } else {
      DeadIsTombstone(s, id);
    }
  }

  /**
   An id once deleted can never be used again: whatever happens in between, creating it fails,
   and the failed attempt leaves a legacy row with which the next bootstrap fails too.
   */
  lemma DeletedIdsAreLost(
      c: Config, s: Store, id: Key, h: History, r: CreateReq, providerEnabled: bool, users: seq<Key>, rows: seq<DefId>)
    requires Inv(s) && GoodConfig(c) && GoodHistory(h) && Delete(c, s, id).error == None
    ensures var u := Run(Delete(c, s, id).store, h);
            var d := Create(c, u, id, r, providerEnabled);
            && d.error.Some?
            && (Acceptable(c, u, id, r, providerEnabled) && id in users ==>
                Bootstrap(c, d.store, users, rows).error.Some?)
  {
    DeletedIsMarked(c, s, id);
    LostAfter(c, Delete(c, s, id).store, id, h, r, providerEnabled, users, rows);
  }

  lemma DeletedIsMarked(c: Config, s: Store, id: Key)
    requires Inv(s) && Delete(c, s, id).error == None
    ensures Inv(Delete(c, s, id).store) && Tombstone(Delete(c, s, id).store.defs, id)
  {
    DeleteKeepsInv(c, s, id);
    DeleteLeavesTombstone(c, s, id);
  }

  /** The same of any state in which the id is marked. */
  lemma LostAfter(
      c: Config, t: Store, id: Key, h: History, r: CreateReq, providerEnabled: bool, users: seq<Key>, rows: seq<DefId>)
    requires Inv(t) && GoodConfig(c) && GoodHistory(h) && Tombstone(t.defs, id)
    ensures var u := Run(t, h);
            var d := Create(c, u, id, r, providerEnabled);
            && d.error.Some?
            && (Acceptable(c, u, id, r, providerEnabled) && id in users ==>
                Bootstrap(c, d.store, users, rows).error.Some?)
  {
    TombstonesAreForever(t, h, id);
    RunKeepsInv(t, h);
    RefusedNow(c, Run(t, h), id, r, providerEnabled, users, rows);
  }

  lemma RefusedNow(
      c: Config, u: Store, id: Key, r: CreateReq, providerEnabled: bool, users: seq<Key>, rows: seq<DefId>)
    requires Inv(u) && GoodConfig(c) && Tombstone(u.defs, id)
    ensures var d := Create(c, u, id, r, providerEnabled);
            && d.error.Some?
            && (Acceptable(c, u, id, r, providerEnabled) && id in users ==>
                Bootstrap(c, d.store, users, rows).error.Some?)
  {
    CreateSucceedsIff(c, u, id, r, providerEnabled);
    if Acceptable(c, u, id, r, providerEnabled) && id in users {
      RefusedStopsBootstrap(c, u, id, r, providerEnabled, users, rows);
    }
  }

  lemma RefusedStopsBootstrap(
      c: Config, s: Store, id: Key, r: CreateReq, providerEnabled: bool, users: seq<Key>, rows: seq<DefId>)
    requires Inv(s) && GoodConfig(c) && Tombstone(s.defs, id) && Acceptable(c, s, id, r, providerEnabled) && id in users
    ensures Bootstrap(c, Create(c, s, id, r, providerEnabled).store, users, rows).error.Some?
  {
    CreateSucceedsIff(c, s, id, r, providerEnabled);
    CreateKeepsInv(c, s, id, r, providerEnabled);
    OrphanStopsBootstrap(c, Create(c, s, id, r, providerEnabled).store, id, users, rows);
  }

  lemma OrphanStopsBootstrap(c: Config, s: Store, id: Key, users: seq<Key>, rows: seq<DefId>)
    requires Inv(s) && GoodConfig(c) && Tombstone(s.defs, id) && Migrates(c, s, id) && id in users
    ensures Bootstrap(c, s, users, rows).error.Some?
  {
    BootstrapSucceedsIff(c, s, users, rows);
    assert id in Migrating(c, s, users);
  }

  /** Such a leftover can still be deleted, after which bootstrap no longer trips over it. */
  lemma DeletingTheLeftoverHelps(c: Config, s: Store, id: Key)
    requires Inv(s) && Tombstone(s.defs, id) && Migrates(c, s, id)
    ensures Delete(c, s, id).error == None && !Migrates(c, Delete(c, s, id).store, id)
    ensures Delete(c, s, id).store.defs == s.defs
  {
    DeadIsTombstone(s, id);
  }
}
