/** What the shared steps of the service do to tables whose rows are in order. */
module AssistantEffects {
  import opened Prelude
  import opened AssistantTables
  import opened AssistantService
  import opened AssistantInvariants

  ghost predicate DefsOk(s: Store) {
    forall i :: i in s.defs ==> i < s.nextDef && RowOk(s, s.defs[i])
  }

  lemma InvGivesDefsOk(s: Store)
    requires Inv(s)
    ensures DefsOk(s)
  {
    forall i | i in s.defs ensures i < s.nextDef && RowOk(s, s.defs[i]) { assert RowInv(s, i); }
  }

  /** The row a service write goes to: the live row of the key, or a new one; a marked row blocks the key. */
  ghost function Written(s: Store, d: Definition): Done {
    var found := LiveByKey(s.defs, d.key);
    if found.None? && HasRow(s.defs, d.key) then Done(s, Some(InternalError))
    else
      var i := UnwrapOr(found, s.nextDef);
      if Clashes(s.defs, i, d) then Done(s, Some(InternalError))
      else Done(s.(defs := s.defs[i := d], nextDef := if found.Some? then s.nextDef else i + 1), None)
  }

  predicate OwnRef(d: Definition) {
    d.source != Generated && d.sourceRef == Some(FromKey(d.key)) && !d.deleted
  }

  lemma NoClash(s: Store, i: DefId, d: Definition)
    requires DefsOk(s) && OwnRef(d)
    requires LiveByKey(s.defs, d.key) == Some(i) || !HasRow(s.defs, d.key)
    ensures !Clashes(s.defs, i, d)
  {
    forall j | j in s.defs && j != i
      ensures !Clash(s.defs[j], d)
    {
      assert RowOk(s, s.defs[j]);
      assert LiveByKey(s.defs, d.key) == Some(i) ==> !Clash(s.defs[i], s.defs[j]);
    }
  }

  /**
   A service write for a key succeeds iff the key has a live row or has never had one; it then
   rewrites that row, or adds a new one.  A key whose row is marked deleted is refused.
   */
  lemma WriteEffect(s: Store, d: Definition)
    requires DefsOk(s) && OwnRef(d)
    ensures var (i, k) := ResolveIdentity(s, d.source, d.key);
            k == d.key && WriteDefinition(s, i, d) == Written(s, d)
    ensures Written(s, d).error.None? <==> LiveByKey(s.defs, d.key).Some? || !HasRow(s.defs, d.key)
  {
    var byRef := LiveByRef(s.defs, d.source, FromKey(d.key));
    var found := LiveByKey(s.defs, d.key);
    if byRef.Some? {
      assert RowOk(s, s.defs[byRef.value]);
      assert found == byRef;
    }
    if found.None? && HasRow(s.defs, d.key) {
      var j :| j in s.defs && s.defs[j].key == d.key;
      assert Clash(s.defs[j], d) && j != s.nextDef;
    } else {
      NoClash(s, UnwrapOr(found, s.nextDef), d);
    }
    assert d.(deleted := false) == d;
  }

  // ---------------------------------------------------------------------------------------
  // Patching and preferences
  // ---------------------------------------------------------------------------------------

  /** Overrides that come out of validation. */
  predicate Validated(o: Overrides) {
    (o.model.Some? ==> WellFormed(o.model.value)) && (o.permission.Some? ==> WellFormed(o.permission.value))
  }

  /** Every request that passes validation can be recorded as a preference: the later error branches are dead. */
  lemma ValidatedRequestsSync(
      prompts: Option<seq<string>>, r: Option<DefaultsReq>, p: Preference, previous: Option<Definition>)
    requires FromParts(prompts, r).Ok?
    ensures Validated(FromParts(prompts, r).value)
    ensures r.Some? ==> SyncedPreference(p, previous, r.value).Ok?
  {
  }

  lemma PatchedEffect(s: Store, i: DefId, key: Key, o: Overrides, reset: bool)
    requires LiveByKey(s.defs, key) == Some(i) && i < s.nextDef
    ensures !Clashes(s.defs, i, Patched(s.defs[i], o, reset))
    ensures var d := ApplyOverrides(s, key, o, reset);
            var defs: Defs := s.defs[i := Patched(s.defs[i], o, reset)];
            && d.error == None
            && d.store == if o == NO_OVERRIDES && !reset then s else Mirror(s.(defs := defs), i)
    ensures o == NO_OVERRIDES && !reset ==> Patched(s.defs[i], o, reset) == s.defs[i]
  {
    var d := Patched(s.defs[i], o, reset);
    forall j | j in s.defs && j != i
      ensures !Clash(s.defs[j], d)
    {
      assert !Clash(s.defs[j], s.defs[i]);
    }
    assert d.(deleted := false) == d;
  }

  function WithPreference(s: Store, i: DefId, p: Preference): Store {
    s.(prefs := if p == NO_PREFERENCE then s.prefs - {i} else s.prefs[i := p])
  }

  /** The preference left by a write with request `r`. */
  function Seeded(p: Preference, previous: Option<Definition>, r: Option<DefaultsReq>): Preference {
    match r
    case None => p
    case Some(q) =>
      match SyncedPreference(p, previous, q)
      case Ok(x) => x
      case Err(_) => p
  }

  lemma SyncEffect(
      s: Store, i: DefId, prompts: Option<seq<string>>, previous: Option<Definition>, r: Option<DefaultsReq>)
    requires FromParts(prompts, r).Ok?
    ensures var p := Seeded(PreferenceOf(s, i), previous, r);
            SyncPreferences(s, i, previous, r) == Done(if r.None? then s else WithPreference(s, i, p), None)
    ensures PreferenceOf(SyncPreferences(s, i, previous, r).store, i) == Seeded(PreferenceOf(s, i), previous, r)
    ensures SyncPreferences(s, i, previous, r).store.prefs - {i} == s.prefs - {i}
    ensures StoresEmpty(SyncPreferences(s, i, previous, r).store, i) ==> StoresEmpty(s, i)
  {
    ValidatedRequestsSync(prompts, r, PreferenceOf(s, i), previous);
  }

  /** Everything but row `i`, its preference and the legacy rows of `id` is as before. */
  ghost predicate Patches(s: Store, u: Store, i: DefId, id: Key, d: Definition) {
    && i in s.defs && s.defs[i].key == id
    && u.defs == s.defs[i := d] && u.prefs - {i} == s.prefs - {i} && u.overlays == s.overlays
    && (StoresEmpty(u, i) ==> StoresEmpty(s, i))
    && ((u.legacy == s.legacy && d == s.defs[i]) || u.legacy == MirroredLegacy(s.legacy, d))
    && (u.overrides == s.overrides || u.overrides == s.overrides[id := OverlayOf(s, i)])
    && u.profiles == s.profiles && u.nextProfile == s.nextProfile && u.nextDef == s.nextDef
  }

  lemma OverridesPatch(s: Store, i: DefId, id: Key, o: Overrides, reset: bool)
    requires LiveByKey(s.defs, id) == Some(i) && i < s.nextDef
    ensures var d := ApplyOverrides(s, id, o, reset);
            && d.error == None && d.store.prefs == s.prefs
            && Patches(s, d.store, i, id, Patched(s.defs[i], o, reset))
            && LiveByKey(d.store.defs, id) == Some(i)
  {
    PatchedEffect(s, i, id, o, reset);
    var t := ApplyOverrides(s, id, o, reset).store;
    var d := Patched(s.defs[i], o, reset);
    if o == NO_OVERRIDES && !reset {
      assert s.defs[i := d] == s.defs;
    } else {
      var defs: Defs := s.defs[i := d];
      MirrorPatches(s, s.(defs := defs), i, id, d);
    }
    assert LiveAt(t.defs, i) && t.defs[i].key == id;
  }

  lemma MirrorPatches(s: Store, t: Store, i: DefId, id: Key, d: Definition)
    requires i in s.defs && s.defs[i].key == id && d.key == id
    requires t.defs == s.defs[i := d] && t == s.(defs := t.defs)
    ensures Patches(s, Mirror(t, i), i, id, d) && Mirror(t, i).defs == t.defs && Mirror(t, i).prefs == s.prefs
  {
    assert OverlayOf(t, i) == OverlayOf(s, i);
  }

  lemma FinishSteps(
      s: Store, t: Store, i: DefId, id: Key, o: Overrides, reset: bool, previous: Option<Definition>,
      r: Option<DefaultsReq>)
    requires ApplyOverrides(s, id, o, reset) == Done(t, None) && LiveByKey(t.defs, id) == Some(i)
    requires SyncPreferences(t, i, previous, r).error == None && SyncPreferences(t, i, previous, r).store.defs == t.defs
    ensures FinishWrite(s, id, o, reset, previous, r) == SyncPreferences(t, i, previous, r)
  {
  }

  /** Patch, then preferences, on a live row: neither can fail, and only the row and what belongs to it changes. */
  lemma FinishEffect(
      s: Store, i: DefId, id: Key, prompts: Option<seq<string>>, reset: bool, previous: Option<Definition>,
      r: Option<DefaultsReq>)
    requires i < s.nextDef && LiveByKey(s.defs, id) == Some(i) && FromParts(prompts, r).Ok?
    ensures var o := FromParts(prompts, r).value;
            var d := FinishWrite(s, id, o, reset, previous, r);
            && d.error == None
            && Patches(s, d.store, i, id, Patched(s.defs[i], o, reset))
            && PreferenceOf(d.store, i) == Seeded(PreferenceOf(s, i), previous, r)
  {
    var o := FromParts(prompts, r).value;
    OverridesPatch(s, i, id, o, reset);
    var t := ApplyOverrides(s, id, o, reset).store;
    SyncEffect(t, i, prompts, previous, r);
    FinishSteps(s, t, i, id, o, reset, previous, r);
  }

  /** The heart of the coherence of fixed defaults: on the user path every default starts as auto. */
  lemma FreshDefaultsAgree(
      d: Definition, p: Preference, prompts: Option<seq<string>>, reset: bool, previous: Option<Definition>,
      r: Option<DefaultsReq>)
    requires d.model == Scalar(Auto, None) && d.permission == Scalar(Auto, None) && d.mcps.mode == Auto
    requires FromParts(prompts, r).Ok?
    ensures Agrees(Patched(d, FromParts(prompts, r).value, reset), Seeded(p, previous, r))
  {
    ValidatedRequestsSync(prompts, r, p, previous);
  }
}
