/**
 What every operation keeps true of the tables together: defaults agree with preferences, the
 legacy mirror agrees with the overlays, generated rows agree with their profiles.
 */
module AssistantInvariants {
  import opened Prelude
  import opened AssistantTables
  import opened AssistantService
  import opened ProfileCompiler

  /** A fixed default is also the stored preference; an absent row counts as empty. */
  predicate Agrees(d: Definition, p: Preference) {
    && (d.model.mode.Fixed? ==> p.model == d.model.value)
    && (d.permission.mode.Fixed? ==> p.permission == d.permission.value)
    && (d.mcps.mode.Fixed? ==> p.mcps == d.mcps.ids)
  }

  predicate RefOk(s: Store, d: Definition) {
    && PREFIX <= d.key && d.sourceRef.Some? && d.sourceRef.value.FromProfile?
    && d.sourceRef.value.profile < s.nextProfile
    && (d.sourceRef.value.profile in s.profiles ==> d.key == KeyFor(s.profiles[d.sourceRef.value.profile].name))
  }

  predicate RowOk(s: Store, d: Definition) {
    && WellFormed(d.model) && WellFormed(d.permission)
    && (if d.source == Generated then RefOk(s, d) else d.sourceRef == Some(FromKey(d.key)))
  }

  /** The overlay and its legacy copy: a copy exists for every overlay, and says the same. */
  predicate MirrorOk(s: Store, i: DefId)
    requires i in s.defs
  {
    var k := s.defs[i].key;
    (i in s.overlays ==> k in s.overrides) && (k in s.overrides ==> s.overrides[k] == OverlayOf(s, i))
  }

  /** The legacy row of a user assistant says what its definition says; the modes of defaults have no place there. */
  predicate Describes(row: Legacy, d: Definition) {
    && row.name == d.name && row.description == d.description && row.backend == d.backend
    && UnwrapOr(row.prompts, []) == d.prompts && UnwrapOr(row.skills, []) == d.skills.ids
  }

  predicate Described(s: Store, d: Definition) {
    d.source == User ==> d.key in s.legacy && Describes(s.legacy[d.key], d)
  }

  predicate Compiled(s: Store, d: Definition)
    requires d.sourceRef.Some? && d.sourceRef.value.FromProfile?
  {
    var pid := d.sourceRef.value.profile;
    && d.key !in s.legacy && pid in s.profiles && Wanted(s.profiles[pid]) && Matches(Desired(pid, s.profiles[pid]), d)
    && d.prompts == [] && d.permission == Scalar(Auto, None)
  }

  predicate RowInv(s: Store, i: DefId)
    requires i in s.defs
  {
    var d := s.defs[i];
    && RowOk(s, d)
    && (!d.deleted ==> MirrorOk(s, i) && Described(s, d))
    && (!d.deleted && d.source == Generated ==> Compiled(s, d))
  }

  /** The preference of a user or built-in assistant has strayed from a fixed default. */
  predicate Strays(s: Store, i: DefId) {
    LiveAt(s.defs, i) && s.defs[i].source != Generated && !Agrees(s.defs[i], PreferenceOf(s, i))
  }

  ghost predicate NoNewStrays(s: Store, t: Store) {
    forall i :: Strays(t, i) ==> Strays(s, i)
  }

  /** A row resolves to its preference exactly if the two agree. */
  lemma ResolvesPreferenceIff(s: Store, i: DefId)
    requires i in s.defs
    ensures EffectiveOf(s, i) == PreferredOf(s, i) <==> Agrees(s.defs[i], PreferenceOf(s, i))
  {
  }

  /** A preference row in which nothing is remembered. */
  predicate StoresEmpty(s: Store, i: DefId) {
    i in s.prefs && s.prefs[i] == NO_PREFERENCE
  }

  ghost predicate NoNewEmpty(s: Store, t: Store) {
    forall i :: StoresEmpty(t, i) ==> StoresEmpty(s, i)
  }

  ghost predicate KeysOk(s: Store) {
    && (forall i :: i in s.defs ==> i < s.nextDef)
    && s.prefs.Keys <= s.defs.Keys && s.overlays.Keys <= s.defs.Keys
    && (forall k :: k in s.legacy ==> HasRow(s.defs, k))
    && (forall k :: k in s.overrides ==> HasRow(s.defs, k))
  }

  ghost predicate ProfilesOk(s: Store) {
    && (forall p :: p in s.profiles ==>
          p < s.nextProfile && ValidBody(s.profiles[p].body) &&
          (Wanted(s.profiles[p]) ==> HasRow(s.defs, KeyFor(s.profiles[p].name))))
    && (forall p, q :: p in s.profiles && q in s.profiles && s.profiles[p].name == s.profiles[q].name ==> p == q)
  }

  ghost predicate Inv(s: Store) {
    && (forall i :: i in s.defs ==> RowInv(s, i))
    && KeysOk(s) && ProfilesOk(s)
  }

  // ---------------------------------------------------------------------------------------
  // Most operations touch one row and what belongs to it
  // ---------------------------------------------------------------------------------------

  /** `t` differs from `s` at most in row `i`, its preference, its overlay, and the legacy rows of its key. */
  ghost predicate Rewritten(s: Store, t: Store, i: DefId) {
    && i in t.defs && t.defs.Keys == s.defs.Keys + {i} && s.nextDef <= t.nextDef && i < t.nextDef
    && (i in s.defs ==> t.defs[i].key == s.defs[i].key && (s.defs[i].deleted ==> t.defs[i].deleted))
    && (forall j :: j in s.defs && j != i ==> t.defs[j] == s.defs[j])
    && (StoresEmpty(t, i) ==> StoresEmpty(s, i)) && (Strays(t, i) ==> Strays(s, i))
    && t.prefs - {i} == s.prefs - {i} && t.overlays - {i} == s.overlays - {i}
    && t.legacy - {t.defs[i].key} == s.legacy - {t.defs[i].key}
    && t.overrides - {t.defs[i].key} == s.overrides - {t.defs[i].key}
    && t.profiles == s.profiles && t.nextProfile == s.nextProfile
  }

  lemma OtherRowsKeepInv(s: Store, t: Store, i: DefId, j: DefId)
    requires Rewritten(s, t, i) && j in s.defs && j != i && RowInv(s, j)
    ensures RowInv(t, j)
  {
    var k := s.defs[j].key;
    assert !Clash(t.defs[i], t.defs[j]);
    assert k != t.defs[i].key;
    assert j in t.prefs <==> j in (t.prefs - {i});
    assert j in s.prefs <==> j in (s.prefs - {i});
    assert j in t.overlays <==> j in (t.overlays - {i});
    assert j in s.overlays <==> j in (s.overlays - {i});
    assert k in t.legacy <==> k in (t.legacy - {t.defs[i].key});
    assert k in s.legacy <==> k in (s.legacy - {t.defs[i].key});
    assert k in t.overrides <==> k in (t.overrides - {t.defs[i].key});
    assert k in s.overrides <==> k in (s.overrides - {t.defs[i].key});
    assert j in t.prefs ==> t.prefs[j] == (t.prefs - {i})[j] == (s.prefs - {i})[j] == s.prefs[j];
    assert j in t.overlays ==> t.overlays[j] == (t.overlays - {i})[j] == (s.overlays - {i})[j] == s.overlays[j];
    assert k in t.legacy ==>
        t.legacy[k] == (t.legacy - {t.defs[i].key})[k] == (s.legacy - {t.defs[i].key})[k] == s.legacy[k];
    assert k in t.overrides ==>
        t.overrides[k] == (t.overrides - {t.defs[i].key})[k] == (s.overrides - {t.defs[i].key})[k] == s.overrides[k];
  }

  lemma RowsStay(s: Store, t: Store, i: DefId, k: Key)
    requires Rewritten(s, t, i)
    ensures HasRow(s.defs, k) || k == t.defs[i].key ==> HasRow(t.defs, k)
  {
    if HasRow(s.defs, k) {
      var j :| j in s.defs && s.defs[j].key == k;
      assert j in t.defs && t.defs[j].key == k;
    }
  }

  lemma RewriteKeepsKeys(s: Store, t: Store, i: DefId)
    requires KeysOk(s) && Rewritten(s, t, i)
    ensures KeysOk(t)
  {
    forall k | k in t.legacy
      ensures HasRow(t.defs, k)
    {
      assert k != t.defs[i].key ==>
          k in (t.legacy - {t.defs[i].key}) && k in (s.legacy - {t.defs[i].key}) && k in s.legacy;
      RowsStay(s, t, i, k);
    }
    forall k | k in t.overrides
      ensures HasRow(t.defs, k)
    {
      assert k != t.defs[i].key ==>
          k in (t.overrides - {t.defs[i].key}) && k in (s.overrides - {t.defs[i].key}) && k in s.overrides;
      RowsStay(s, t, i, k);
    }
    forall j | j in t.prefs
      ensures j in t.defs
    {
      if j != i { assert j in (t.prefs - {i}) && j in (s.prefs - {i}); }
    }
    forall j | j in t.overlays
      ensures j in t.defs
    {
      if j != i { assert j in (t.overlays - {i}) && j in (s.overlays - {i}); }
    }
  }

  /** The rows alone; the profiles may have changed just before, with row `i` not yet compiled. */
  lemma RewriteKeepsRows(s: Store, t: Store, i: DefId)
    requires (forall j :: j in s.defs && j != i ==> RowInv(s, j)) && KeysOk(s) && Rewritten(s, t, i) && RowInv(t, i)
    ensures (forall j :: j in t.defs ==> RowInv(t, j)) && KeysOk(t) && Grows(s.defs, t.defs)
  {
    forall j | j in t.defs
      ensures RowInv(t, j)
    {
      if j != i { OtherRowsKeepInv(s, t, i, j); }
    }
    RewriteKeepsKeys(s, t, i);
  }

  lemma OtherPreferences(s: Store, t: Store, i: DefId, j: DefId)
    requires t.prefs - {i} == s.prefs - {i} && j != i
    ensures j in t.prefs <==> j in s.prefs
    ensures PreferenceOf(t, j) == PreferenceOf(s, j)
  {
    assert j in t.prefs <==> j in (t.prefs - {i});
    assert j in s.prefs <==> j in (s.prefs - {i});
    assert j in t.prefs ==> t.prefs[j] == (t.prefs - {i})[j] == (s.prefs - {i})[j] == s.prefs[j];
  }

  lemma RewriteAddsNothing(s: Store, t: Store, i: DefId)
    requires Rewritten(s, t, i)
    ensures NoNewEmpty(s, t) && NoNewStrays(s, t)
  {
    forall j
      ensures (StoresEmpty(t, j) ==> StoresEmpty(s, j)) && (Strays(t, j) ==> Strays(s, j))
    {
      if j != i { OtherPreferences(s, t, i, j); }
    }
  }

  lemma RewriteKeepsProfiles(s: Store, t: Store, i: DefId)
    requires ProfilesOk(s) && Rewritten(s, t, i)
    ensures ProfilesOk(t)
  {
    forall p | p in t.profiles
      ensures Wanted(t.profiles[p]) ==> HasRow(t.defs, KeyFor(t.profiles[p].name))
    {
      RowsStay(s, t, i, KeyFor(t.profiles[p].name));
    }
  }

  lemma RewriteKeepsInv(s: Store, t: Store, i: DefId)
    requires Inv(s) && Rewritten(s, t, i) && RowInv(t, i)
    ensures Inv(t) && Grows(s.defs, t.defs) && NoNewEmpty(s, t) && NoNewStrays(s, t)
  {
    RewriteKeepsRows(s, t, i);
    RewriteAddsNothing(s, t, i);
    RewriteKeepsProfiles(s, t, i);
  }
}
