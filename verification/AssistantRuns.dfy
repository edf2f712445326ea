/**
 Runs of the assistant storage: any operations, in any order, each under the configuration of
 the release that performs it.  Every operation keeps the invariant, whether it succeeds or not.
 */
module AssistantRuns {
  import opened Prelude
  import opened Text
  import opened AssistantTables
  import opened AssistantService
  import opened AssistantInvariants
  import opened AssistantEffects

  ghost predicate Keeps(s: Store, t: Store) {
    Inv(t) && Grows(s.defs, t.defs) && NoNewEmpty(s, t) && NoNewStrays(s, t)
  }

  lemma GrowsTransitive(a: Defs, b: Defs, c: Defs)
    requires Grows(a, b) && Grows(b, c)
    ensures Grows(a, c)
  {
  }

  lemma KeepsTransitive(a: Store, b: Store, c: Store)
    requires Keeps(a, b) && Keeps(b, c)
    ensures Keeps(a, c)
  {
    GrowsTransitive(a.defs, b.defs, c.defs);
  }

  /** An operation that leaves the definitions alone and adds no keys: only the rows need looking at. */
  lemma RowsSuffice(s: Store, t: Store)
    requires Inv(s) && t.defs == s.defs && t.prefs == s.prefs && t.profiles == s.profiles
    requires t.nextDef == s.nextDef && t.nextProfile == s.nextProfile && t.overlays.Keys <= s.defs.Keys
    requires t.overrides.Keys <= s.overrides.Keys && (forall k :: k in t.legacy ==> k in s.legacy || HasRow(s.defs, k))
    requires forall j :: j in s.defs ==> RowInv(t, j)
    ensures Keeps(s, t)
  {
  }

  // ---------------------------------------------------------------------------------------
  // User rows
  // ---------------------------------------------------------------------------------------

  function WithLegacy(s: Store, id: Key, row: Legacy): Store {
    s.(legacy := s.legacy[id := row])
  }

  lemma OrphanRowOk(s: Store, id: Key, row: Legacy, j: DefId)
    requires j in s.defs && RowInv(s, j) && (s.defs[j].deleted || s.defs[j].key != id)
    ensures RowInv(WithLegacy(s, id, row), j)
  {
    assert PreferenceOf(WithLegacy(s, id, row), j) == PreferenceOf(s, j);
  }

  /** A refused write leaves the legacy row behind. */
  lemma OrphanKeepsInv(s: Store, id: Key, row: Legacy)
    requires Inv(s) && LiveByKey(s.defs, id).None? && HasRow(s.defs, id)
    ensures Keeps(s, WithLegacy(s, id, row))
  {
    forall j | j in s.defs
      ensures RowInv(WithLegacy(s, id, row), j)
    {
      assert RowInv(s, j);
      assert s.defs[j].deleted || s.defs[j].key != id;
      OrphanRowOk(s, id, row, j);
    }
    RowsSuffice(s, WithLegacy(s, id, row));
  }

  /** A legacy row and its definition, written and then patched: what `create` and the user `update` do. */
  function StoreUser(
      s: Store, id: Key, row: Legacy, o: Overrides, reset: bool, previous: Option<Definition>,
      r: Option<DefaultsReq>): Done {
    var written := WriteUser(WithLegacy(s, id, row), id, row);
    if written.error.Some? then written else FinishWrite(written.store, id, o, reset, previous, r)
  }

  /** Row `i` is the outcome of storing `row` with those overrides. */
  ghost predicate Stored(
      s: Store, u: Store, i: DefId, id: Key, row: Legacy, o: Overrides, reset: bool, previous: Option<Definition>,
      r: Option<DefaultsReq>) {
    && LiveByKey(u.defs, id) == Some(i)
    && u.defs[i] == Patched(UserDefinition(id, id, row), o, reset)
    && PreferenceOf(u, i) == Seeded(PreferenceOf(s, i), previous, r)
    && i == UnwrapOr(LiveByKey(s.defs, id), s.nextDef)
  }

  /** Where a write for `id` goes: nothing belongs to a new row yet. */
  ghost predicate Target(s: Store, i: DefId, id: Key) {
    && (i in s.defs ==> i < s.nextDef && LiveByKey(s.defs, id) == Some(i) && MirrorOk(s, i))
    && (i !in s.defs ==> i == s.nextDef && i !in s.overlays && i !in s.prefs && id !in s.overrides)
  }

  lemma TargetOf(s: Store, id: Key)
    requires Inv(s) && (LiveByKey(s.defs, id).Some? || !HasRow(s.defs, id))
    ensures Target(s, UnwrapOr(LiveByKey(s.defs, id), s.nextDef), id)
  {
    var found := LiveByKey(s.defs, id);
    if found.Some? { assert RowInv(s, found.value); }
  }

  /** `w` is `s` after the legacy row and the definition were written. */
  ghost predicate UserWritten(s: Store, w: Store, i: DefId, id: Key, row: Legacy) {
    && i in w.defs && w.defs[i] == UserDefinition(id, id, row)
    && w.defs == s.defs[i := UserDefinition(id, id, row)]
    && w.legacy == s.legacy[id := row] && w.overlays == s.overlays && w.prefs == s.prefs && w.overrides == s.overrides
    && w.profiles == s.profiles && w.nextProfile == s.nextProfile && w.nextDef == if i in s.defs then s.nextDef
        else i + 1
  }

  /** The legacy rows of other ids stay. */
  lemma StoreUserSparesLegacy(s: Store, w: Store, u: Store, i: DefId, id: Key, row: Legacy, d: Definition)
    requires w.legacy == s.legacy[id := row] && d.key == id && w.overrides == s.overrides
    requires Patches(w, u, i, id, d)
    ensures u.legacy - {id} == s.legacy - {id} && u.overrides - {id} == s.overrides - {id}
  {
  }

  lemma StoreUserRewrites(s: Store, w: Store, u: Store, i: DefId, id: Key, row: Legacy, d: Definition)
    requires Target(s, i, id) && UserWritten(s, w, i, id, row) && Patches(w, u, i, id, d)
    requires d.key == id && !d.deleted && Agrees(d, PreferenceOf(u, i))
    ensures Rewritten(s, u, i)
  {
    StoreUserSparesLegacy(s, w, u, i, id, row, d);
    assert u.defs == s.defs[i := d];
  }

  lemma StoreUserMirrors(s: Store, w: Store, u: Store, i: DefId, id: Key, row: Legacy, d: Definition)
    requires Target(s, i, id) && UserWritten(s, w, i, id, row) && Patches(w, u, i, id, d)
    requires d.key == id && !d.deleted
    ensures MirrorOk(u, i) && Described(u, d)
    ensures LiveByKey(u.defs, id) == Some(i)
  {
    assert u.defs[i] == d;
    assert LiveAt(u.defs, i);
    assert OverlayOf(u, i) == OverlayOf(s, i);
  }

  lemma WrittenIsReady(s: Store, id: Key, row: Legacy)
    requires Inv(s) && (LiveByKey(s.defs, id).Some? || !HasRow(s.defs, id))
    requires Written(WithLegacy(s, id, row), UserDefinition(id, id, row)).error == None
    ensures Ready(s, Written(WithLegacy(s, id, row), UserDefinition(id, id, row)).store,
            UnwrapOr(LiveByKey(s.defs, id), s.nextDef), id, row)
  {
    TargetOf(s, id);
    var w := Written(WithLegacy(s, id, row), UserDefinition(id, id, row)).store;
    var i := UnwrapOr(LiveByKey(s.defs, id), s.nextDef);
    assert w.defs == s.defs[i := UserDefinition(id, id, row)];
    assert LiveAt(w.defs, i) && w.defs[i].key == id;
  }

  /** The first two writes: the legacy row always, the definition unless the key's row is marked. */
  lemma WriteUserEffect(s: Store, id: Key, row: Legacy)
    requires Inv(s)
    ensures var w := WriteUser(WithLegacy(s, id, row), id, row);
            if LiveByKey(s.defs, id).None? && HasRow(s.defs, id) then
                w == Done(WithLegacy(s, id, row), Some(InternalError))
            else w.error == None && Ready(s, w.store, UnwrapOr(LiveByKey(s.defs, id), s.nextDef), id, row)
  {
    InvGivesDefsOk(s);
    WriteEffect(WithLegacy(s, id, row), UserDefinition(id, id, row));
    assert WriteUser(WithLegacy(s, id, row), id, row) == Written(WithLegacy(s, id, row), UserDefinition(id, id, row));
    if LiveByKey(s.defs, id).Some? || !HasRow(s.defs, id) { WrittenIsReady(s, id, row); }
  }

  lemma UserRowIsOk(u: Store, i: DefId, id: Key, row: Legacy, o: Overrides, reset: bool)
    requires Validated(o) && i in u.defs && u.defs[i] == Patched(UserDefinition(id, id, row), o, reset)
    requires MirrorOk(u, i) && Described(u, u.defs[i])
    ensures RowInv(u, i)
  {
  }

  lemma StoreUserFinished(s: Store, w: Store, u: Store, i: DefId, id: Key, row: Legacy, o: Overrides, reset: bool)
    requires Inv(s) && Target(s, i, id) && UserWritten(s, w, i, id, row) && Validated(o)
    requires Patches(w, u, i, id, Patched(UserDefinition(id, id, row), o, reset))
    requires Agrees(Patched(UserDefinition(id, id, row), o, reset), PreferenceOf(u, i))
    ensures Keeps(s, u) && LiveByKey(u.defs, id) == Some(i)
  {
    var d := Patched(UserDefinition(id, id, row), o, reset);
    StoreUserRewrites(s, w, u, i, id, row, d);
    StoreUserMirrors(s, w, u, i, id, row, d);
    UserRowIsOk(u, i, id, row, o, reset);
    RewriteKeepsInv(s, u, i);
  }

  lemma StoreUserSucceeds(
      s: Store, w: Store, u: Store, i: DefId, id: Key, row: Legacy, prompts: Option<seq<string>>, reset: bool,
      previous: Option<Definition>, r: Option<DefaultsReq>)
    requires Inv(s) && FromParts(prompts, r).Ok? && i == UnwrapOr(LiveByKey(s.defs, id), s.nextDef)
    requires UserWritten(s, w, i, id, row) && Target(s, i, id)
    requires var o := FromParts(prompts, r).value;
             Patches(w, u, i, id, Patched(UserDefinition(id, id, row), o, reset))
    requires PreferenceOf(u, i) == Seeded(PreferenceOf(w, i), previous, r)
    ensures Keeps(s, u)
    ensures Stored(s, u, i, id, row, FromParts(prompts, r).value, reset, previous, r)
  {
    assert PreferenceOf(w, i) == PreferenceOf(s, i);
    ValidatedRequestsSync(prompts, r, NO_PREFERENCE, None);
    FreshDefaultsAgree(UserDefinition(id, id, row), PreferenceOf(s, i), prompts, reset, previous, r);
    StoreUserFinished(s, w, u, i, id, row, FromParts(prompts, r).value, reset);
  }

  /** The outcome of storing a user assistant. */
  ghost predicate StoredOrRefused(
      s: Store, d: Done, id: Key, row: Legacy, o: Overrides, reset: bool, previous: Option<Definition>,
      r: Option<DefaultsReq>) {
    if LiveByKey(s.defs, id).None? && HasRow(s.defs, id) then d == Done(WithLegacy(s, id, row), Some(InternalError))
    else d.error == None && Stored(s, d.store, UnwrapOr(LiveByKey(s.defs, id), s.nextDef), id, row, o, reset, previous,
        r)
  }

  /** The definition is written and the row in order. */
  ghost predicate Ready(s: Store, w: Store, i: DefId, id: Key, row: Legacy) {
    && i == UnwrapOr(LiveByKey(s.defs, id), s.nextDef)
    && UserWritten(s, w, i, id, row) && i < w.nextDef && LiveByKey(w.defs, id) == Some(i) && Target(s, i, id)
  }

  lemma StoreUserReady(
      s: Store, w: Store, i: DefId, id: Key, row: Legacy, prompts: Option<seq<string>>, reset: bool,
      previous: Option<Definition>, r: Option<DefaultsReq>)
    requires Inv(s) && Ready(s, w, i, id, row) && FromParts(prompts, r).Ok?
    ensures var o := FromParts(prompts, r).value;
            var d := FinishWrite(w, id, o, reset, previous, r);
            d.error == None && Keeps(s, d.store) && Stored(s, d.store, i, id, row, o, reset, previous, r)
  {
    FinishEffect(w, i, id, prompts, reset, previous, r);
    var u := FinishWrite(w, id, FromParts(prompts, r).value, reset, previous, r).store;
    StoreUserSucceeds(s, w, u, i, id, row, prompts, reset, previous, r);
  }

  lemma StoreUserEffect(
      s: Store, id: Key, row: Legacy, prompts: Option<seq<string>>, reset: bool, previous: Option<Definition>,
      r: Option<DefaultsReq>)
    requires Inv(s) && FromParts(prompts, r).Ok?
    ensures var o := FromParts(prompts, r).value;
            var d := StoreUser(s, id, row, o, reset, previous, r);
            Keeps(s, d.store) && StoredOrRefused(s, d, id, row, o, reset, previous, r)
  {
    WriteUserEffect(s, id, row);
    var written := WriteUser(WithLegacy(s, id, row), id, row);
    if written.error.Some? {
      OrphanKeepsInv(s, id, row);
    } else {
      StoreUserReady(s, written.store, UnwrapOr(LiveByKey(s.defs, id), s.nextDef), id, row, prompts, reset, previous,
          r);
    }
  }

  lemma CreateKeepsInv(c: Config, s: Store, id: Key, r: CreateReq, providerEnabled: bool)
    requires Inv(s)
    ensures Keeps(s, Create(c, s, id, r, providerEnabled).store)
  {
    var o := FromParts(r.recommended, r.defaults);
    var backend := BackendFor(r.backend, providerEnabled);
    if !Blank(r.name) && !IsBuiltin(c, id) && o.Ok? && backend.Ok? && id !in s.legacy {
      var row := NewLegacyRow(r, backend.value);
      StoreUserEffect(s, id, row, r.recommended, false, None, r.defaults);
      assert Create(c, s, id, r, providerEnabled) == StoreUser(s, id, row, o.value, false, None, r.defaults);
    }
  }

  lemma UpdateUserKeepsInv(s: Store, id: Key, r: UpdateReq)
    requires Inv(s)
    ensures Keeps(s, UpdateUser(s, id, r).store)
  {
    var o := FromParts(r.recommended, r.defaults);
    var found := LiveByKey(s.defs, id);
    if o.Ok? && found.Some? && id in s.legacy {
      var current := s.defs[found.value];
      var reset := r.backend.Some? && r.backend.value != current.backend;
      var row := MergedLegacyRow(s.legacy[id], r);
      StoreUserEffect(s, id, row, r.recommended, reset, Some(current), r.defaults);
      assert UpdateUser(s, id, r) == StoreUser(s, id, row, o.value, reset, Some(current), r.defaults);
    }
  }
}
