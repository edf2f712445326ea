/** Updating built-in assistants, deleting, state overlays: each keeps the invariant. */
module AssistantUpdates {
  import opened Prelude
  import opened AssistantTables
  import opened AssistantService
  import opened ProfileCompiler
  import opened AssistantInvariants
  import opened AssistantEffects
  import opened AssistantRuns

  /** The built-in path keeps agreement although it compares with the row it has already patched. */
  lemma BuiltinDefaultsAgree(
      d: Definition, p: Preference, prompts: Option<seq<string>>, reset: bool, r: Option<DefaultsReq>)
    requires Agrees(d, p) && FromParts(prompts, r).Ok? && (r.Some? ==> r.value.mcps.None?)
    ensures var x := Patched(d, FromParts(prompts, r).value, reset);
            Agrees(x, Seeded(p, Some(x), r))
  {
    ValidatedRequestsSync(prompts, r, p, Some(Patched(d, FromParts(prompts, r).value, reset)));
  }

  /** The new overlay row of a built-in update. */
  function BuiltinOverlay(s: Store, id: Key, r: UpdateReq): Overlay {
    (if id in s.overrides then s.overrides[id] else DEFAULT_OVERLAY).(backendOverride := r.backend)
  }

  /** Row `i` of `v` is live, and of what belongs to other rows nothing has changed. */
  ghost predicate Touched(s: Store, v: Store, i: DefId, d: Definition) {
    && LiveAt(s.defs, i) && d.key == s.defs[i].key && !d.deleted && i < s.nextDef
    && v.defs == s.defs[i := d]
    && v.prefs - {i} == s.prefs - {i} && v.overlays - {i} == s.overlays - {i}
    && v.legacy - {d.key} == s.legacy - {d.key} && v.overrides - {d.key} == s.overrides - {d.key}
    && v.profiles == s.profiles && v.nextProfile == s.nextProfile && v.nextDef == s.nextDef
    && (StoresEmpty(v, i) ==> StoresEmpty(s, i)) && (!Agrees(d, PreferenceOf(v, i)) ==> Strays(s, i))
  }

  /** What is left after the mirror is rebuilt: the last step of the built-in update and of `set_state`. */
  lemma MirrorRewrites(s: Store, v: Store, i: DefId, d: Definition)
    requires Touched(s, v, i, d)
    ensures Rewritten(s, Mirror(v, i), i)
  {
    var u := Mirror(v, i);
    assert u.legacy - {d.key} == v.legacy - {d.key};
    assert u.overrides - {d.key} == v.overrides - {d.key};
  }

  lemma MirrorRowOk(s: Store, v: Store, i: DefId, d: Definition)
    requires Touched(s, v, i, d) && RowInv(s, i)
    requires RowOk(v, d) && d.source != Generated
    ensures RowInv(Mirror(v, i), i)
  {
    var u := Mirror(v, i);
    assert u.defs[i] == d;
    assert PreferenceOf(u, i) == PreferenceOf(v, i);
    assert OverlayOf(u, i) == OverlayOf(v, i);
  }

  /** The stages of the built-in update on a live row: overlay, patch, preferences, mirror. */
  lemma UpdateBuiltinStages(s: Store, i: DefId, id: Key, r: UpdateReq)
    returns (p: Store, v: Store)
    requires i < s.nextDef && LiveByKey(s.defs, id) == Some(i)
    requires FromParts(r.recommended, r.defaults).Ok? && !TouchesBuiltin(r) && r.backend.Some?
    ensures var o := FromParts(r.recommended, r.defaults).value;
            var reset := BackendOf(s, i) != r.backend.value;
            var t := s.(overlays := s.overlays[i := BuiltinOverlay(s, id, r)]);
            var d := Patched(s.defs[i], o, reset);
            && Patches(t, p, i, id, d) && p.prefs == s.prefs
            && v == p.(prefs := v.prefs) && v.prefs - {i} == s.prefs - {i}
            && (StoresEmpty(v, i) ==> StoresEmpty(s, i))
            && PreferenceOf(v, i) == Seeded(PreferenceOf(s, i), Some(d), r.defaults)
            && UpdateBuiltin(s, id, r) == Done(Mirror(v, i), None)
  {
    var o := FromParts(r.recommended, r.defaults).value;
    var reset := BackendOf(s, i) != r.backend.value;
    var t := s.(overlays := s.overlays[i := BuiltinOverlay(s, id, r)]);
    var d := Patched(s.defs[i], o, reset);
    OverridesPatch(t, i, id, o, reset);
    p := ApplyOverrides(t, id, o, reset).store;
    SyncEffect(p, i, r.recommended, Some(d), r.defaults);
    v := SyncPreferences(p, i, Some(d), r.defaults).store;
    assert UpdateBuiltin(s, id, r) == Fetch(Mirror(v, i), id);
  }

  lemma UpdateBuiltinRewrites(s: Store, i: DefId, id: Key, r: UpdateReq)
    requires i < s.nextDef && LiveByKey(s.defs, id) == Some(i) && RowInv(s, i) && !(PREFIX <= id)
    requires FromParts(r.recommended, r.defaults).Ok? && !TouchesBuiltin(r) && r.backend.Some?
    ensures var u := UpdateBuiltin(s, id, r).store;
            Rewritten(s, u, i) && RowInv(u, i)
  {
    var p, v := UpdateBuiltinStages(s, i, id, r);
    var reset := BackendOf(s, i) != r.backend.value;
    var d := Patched(s.defs[i], FromParts(r.recommended, r.defaults).value, reset);
    ValidatedRequestsSync(r.recommended, r.defaults, NO_PREFERENCE, None);
    if !Strays(s, i) {
      BuiltinDefaultsAgree(s.defs[i], PreferenceOf(s, i), r.recommended, reset, r.defaults);
    }
    BuiltinTouches(s, p, v, i, id, d, BuiltinOverlay(s, id, r));
    MirrorRewrites(s, v, i, d);
    MirrorRowOk(s, v, i, d);
  }

  lemma BuiltinTouches(s: Store, p: Store, v: Store, i: DefId, id: Key, d: Definition, o: Overlay)
    requires i < s.nextDef && LiveByKey(s.defs, id) == Some(i) && d.key == id && !d.deleted
    requires Patches(s.(overlays := s.overlays[i := o]), p, i, id, d)
    requires v == p.(prefs := v.prefs) && v.prefs - {i} == s.prefs - {i}
    requires (StoresEmpty(v, i) ==> StoresEmpty(s, i)) && (!Agrees(d, PreferenceOf(v, i)) ==> Strays(s, i))
    ensures Touched(s, v, i, d)
  {
    assert v.overlays - {i} == s.overlays - {i};
    assert v.overrides - {id} == s.overrides - {id};
  }

  lemma UpdateBuiltinKeepsInv(s: Store, id: Key, r: UpdateReq)
    requires Inv(s) && !(PREFIX <= id)
    ensures Keeps(s, UpdateBuiltin(s, id, r).store)
  {
    var found := LiveByKey(s.defs, id);
    if FromParts(r.recommended, r.defaults).Ok? && !TouchesBuiltin(r) && r.backend.Some? && found.Some? {
      assert RowInv(s, found.value);
      UpdateBuiltinRewrites(s, found.value, id, r);
      RewriteKeepsInv(s, UpdateBuiltin(s, id, r).store, found.value);
    }
  }

  function Deleted(s: Store, i: DefId, id: Key): Store {
    s.(legacy := s.legacy - {id}, overrides := s.overrides - {id}, overlays := s.overlays - {i}, prefs := s.prefs - {i},
       defs := SoftDelete(s.defs, i))
  }

  lemma DeletedRewrites(s: Store, i: DefId, id: Key)
    requires LiveByKey(s.defs, id) == Some(i) && i < s.nextDef && RowInv(s, i)
    ensures Rewritten(s, Deleted(s, i, id), i) && RowInv(Deleted(s, i, id), i)
  {
    var u := Deleted(s, i, id);
    assert u.legacy - {id} == s.legacy - {id} && u.overrides - {id} == s.overrides - {id};
    assert u.overlays - {i} == s.overlays - {i} && u.prefs - {i} == s.prefs - {i};
  }

  function Dropped(s: Store, id: Key): Store {
    s.(legacy := s.legacy - {id}, overrides := s.overrides - {id})
  }

  lemma DroppedRowOk(s: Store, id: Key, j: DefId)
    requires j in s.defs && RowInv(s, j) && (s.defs[j].deleted || s.defs[j].key != id)
    ensures RowInv(Dropped(s, id), j)
  {
    var u := Dropped(s, id);
    assert PreferenceOf(u, j) == PreferenceOf(s, j) && OverlayOf(u, j) == OverlayOf(s, j);
  }

  lemma DropKeepsInv(s: Store, id: Key)
    requires Inv(s) && LiveByKey(s.defs, id).None?
    ensures Keeps(s, Dropped(s, id))
  {
    forall j | j in s.defs
      ensures RowInv(Dropped(s, id), j)
    {
      assert RowInv(s, j);
      DroppedRowOk(s, id, j);
    }
    RowsSuffice(s, Dropped(s, id));
  }

  lemma DeletedKeepsInv(s: Store, i: DefId, id: Key)
    requires Inv(s) && LiveByKey(s.defs, id) == Some(i)
    ensures Keeps(s, Deleted(s, i, id))
  {
    assert RowInv(s, i);
    DeletedRewrites(s, i, id);
    RewriteKeepsInv(s, Deleted(s, i, id), i);
  }

  lemma DeleteKeepsInv(c: Config, s: Store, id: Key)
    requires Inv(s)
    ensures Keeps(s, Delete(c, s, id).store)
  {
    if !IsBuiltin(c, id) && id in s.legacy {
      var found := LiveByKey(s.defs, id);
      if found.Some? {
        DeletedKeepsInv(s, found.value, id);
        assert Delete(c, s, id).store == Deleted(s, found.value, id);
      } else {
        DropKeepsInv(s, id);
      }
    }
  }

  lemma SetStateRewrites(s: Store, i: DefId, o: Overlay)
    requires LiveAt(s.defs, i) && i < s.nextDef && RowInv(s, i) && s.defs[i].source != Generated
    ensures var u := Mirror(s.(overlays := s.overlays[i := o]), i);
            Rewritten(s, u, i) && RowInv(u, i)
  {
    var v := s.(overlays := s.overlays[i := o]);
    var d := s.defs[i];
    assert v.overlays - {i} == s.overlays - {i};
    assert v.defs == s.defs[i := d];
    assert PreferenceOf(v, i) == PreferenceOf(s, i);
    MirrorRewrites(s, v, i, d);
    MirrorRowOk(s, v, i, d);
  }

  lemma SetStateKeepsInv(c: Config, s: Store, id: Key, r: StateReq)
    requires Inv(s) && (IsBuiltin(c, id) ==> !(PREFIX <= id))
    ensures Keeps(s, SetState(c, s, id, r).store)
  {
    var found := LiveByKey(s.defs, id);
    if (IsBuiltin(c, id) || id in s.legacy) && found.Some? {
      var o := MergedOverlay(s, found.value, id, r);
      assert RowInv(s, found.value);
      SetStateRewrites(s, found.value, o);
      RewriteKeepsInv(s, Mirror(s.(overlays := s.overlays[found.value := o]), found.value), found.value);
    }
  }

  lemma ListedRowOk(s: Store, j: DefId)
    requires j in s.defs && RowInv(s, j)
    ensures RowInv(List(s), j)
  {
    var t := List(s);
    assert PreferenceOf(t, j) == PreferenceOf(s, j) && OverlayOf(t, j) == OverlayOf(s, j);
    assert !s.defs[j].deleted ==> LiveByKey(s.defs, s.defs[j].key) == Some(j);
  }

  lemma ListKeepsInv(s: Store)
    requires Inv(s)
    ensures Keeps(s, List(s))
  {
    forall j | j in s.defs
      ensures RowInv(List(s), j)
    {
      assert RowInv(s, j);
      ListedRowOk(s, j);
    }
    RowsSuffice(s, List(s));
  }
}
