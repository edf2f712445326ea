/** What an update and a state change mean for the assistant, stated without their steps. */
module UpdateLaws {
  import opened Prelude
  import opened AssistantTables
  import opened AssistantService
  import opened RequestFields
  import opened ProfileCompiler
  import opened AssistantInvariants
  import opened AssistantEffects
  import opened AssistantRuns
  import opened AssistantUpdates

  // ---------------------------------------------------------------------------------------
  // Defaults
  // ---------------------------------------------------------------------------------------

  /**
   The value in effect after an update, from the default and the last preference.  A fixed request sets
   it.  An auto request shows the preference, which the user path forgets on leaving a fixed default.  A
   field the request leaves out resolves as before unless the row is rewritten with auto modes; then it
   too shows the preference.
   */
  function NewScalar(
      d: Scalar, last: Option<string>, r: Option<ScalarReq>, userPath: bool, rewritten: bool): Option<string> {
    if r.None? then (if rewritten then last else Resolve(d, last))
    else if r.value.mode == "fixed" then r.value.value
    else if userPath && d.mode == Fixed then None
    else last
  }

  function NewList(d: ListDefault, last: seq<string>, r: Option<ListReq>, rewritten: bool): seq<string> {
    if r.None? then (if rewritten || d.mode == Auto then last else d.ids)
    else if r.value.mode == "fixed" then r.value.value
    else if d.mode == Fixed then []
    else last
  }

  function DefaultsOf(r: UpdateReq): DefaultsReq {
    UnwrapOr(r.defaults, NO_DEFAULTS)
  }

  /** The defaults in effect after a successful update. */
  function NewEffective(d: Definition, p: Preference, q: DefaultsReq, userPath: bool, rewritten: bool): Effective {
    Effective(NewScalar(d.model, p.model, q.model, userPath, rewritten),
              NewScalar(d.permission, p.permission, q.permission, userPath, rewritten),
              NewList(d.mcps, p.mcps, q.mcps, userPath))
  }

  /** Whether a default and the preference it shadows say the same. */
  predicate ScalarAgrees(d: Scalar, last: Option<string>) {
    d.mode.Fixed? ==> last == d.value
  }

  predicate ListAgrees(d: ListDefault, last: seq<string>) {
    d.mode.Fixed? ==> last == d.ids
  }

  /** Shadowing: what row and preference resolve to after patching, on the user path. */
  lemma UserRowResolves(
      d: Definition, user: Definition, p: Preference, prompts: Option<seq<string>>, reset: bool, r: Option<DefaultsReq>)
    requires FromParts(prompts, r).Ok? && user.model == Scalar(Auto, None) && user.permission == Scalar(Auto, None)
    ensures var x := Patched(user, FromParts(prompts, r).value, reset);
            var p' := Seeded(p, Some(d), r);
            var q := UnwrapOr(r, NO_DEFAULTS);
            && Resolve(x.model, p'.model) == NewScalar(d.model, p.model, q.model, true, true)
            && Resolve(x.permission, p'.permission) == NewScalar(d.permission, p.permission, q.permission, true, true)
            && x.model == Requested(q.model) && x.permission == Requested(q.permission)
  {
    ValidatedRequestsSync(prompts, r, p, Some(d));
  }

  lemma UserRowResolvesMcps(
      d: Definition, user: Definition, p: Preference, prompts: Option<seq<string>>, reset: bool, r: Option<DefaultsReq>)
    requires FromParts(prompts, r).Ok? && user.mcps.mode == Auto
    ensures var x := Patched(user, FromParts(prompts, r).value, reset);
            var p' := Seeded(p, Some(d), r);
            (if x.mcps.mode.Fixed? then x.mcps.ids else p'.mcps)
            == NewList(d.mcps, p.mcps, UnwrapOr(r, NO_DEFAULTS).mcps, true)
  {
    ValidatedRequestsSync(prompts, r, p, Some(d));
  }

  /** Which user assistants an update reaches. */
  predicate UpdatesUser(s: Store, i: DefId, id: Key, r: UpdateReq) {
    FromParts(r.recommended, r.defaults).Ok? && LiveByKey(s.defs, id) == Some(i) && id in s.legacy
  }

  lemma UserUpdateStores(s: Store, i: DefId, id: Key, r: UpdateReq)
    requires Inv(s) && UpdatesUser(s, i, id, r)
    ensures var reset := r.backend.Some? && r.backend.value != s.defs[i].backend;
            var d := UpdateUser(s, id, r);
            && d.error == None
            && Stored(s, d.store, i, id, MergedLegacyRow(s.legacy[id], r), FromParts(r.recommended, r.defaults).value,
                reset, Some(s.defs[i]), r.defaults)
  {
    var current := s.defs[i];
    var reset := r.backend.Some? && r.backend.value != current.backend;
    var row := MergedLegacyRow(s.legacy[id], r);
    StoreUserEffect(s, id, row, r.recommended, reset, Some(current), r.defaults);
    assert UpdateUser(s, id, r) == StoreUser(s, id, row, FromParts(r.recommended, r.defaults).value, reset,
        Some(current), r.defaults);
  }

  /**
   Updating a user assistant: the model and permission defaults are exactly the validated ones of
   the request, otherwise auto, whatever they were; what the request leaves out shows the preference.
   */
  lemma UserUpdateDefaults(s: Store, i: DefId, id: Key, r: UpdateReq)
    requires Inv(s) && UpdatesUser(s, i, id, r)
    ensures var u := UpdateUser(s, id, r).store;
            && LiveByKey(u.defs, id) == Some(i)
            && u.defs[i].model == Requested(DefaultsOf(r).model)
            && u.defs[i].permission == Requested(DefaultsOf(r).permission)
            && EffectiveOf(u, i) == NewEffective(s.defs[i], PreferenceOf(s, i), DefaultsOf(r), true, true)
  {
    UserUpdateStores(s, i, id, r);
    var reset := r.backend.Some? && r.backend.value != s.defs[i].backend;
    var user := UserDefinition(id, id, MergedLegacyRow(s.legacy[id], r));
    UserRowResolves(s.defs[i], user, PreferenceOf(s, i), r.recommended, reset, r.defaults);
    UserRowResolvesMcps(s.defs[i], user, PreferenceOf(s, i), r.recommended, reset, r.defaults);
  }

  /**
   A field the request leaves out resolves as before exactly if its default, where fixed, was also the
   preference; in particular an update of other fields changes nothing exactly if nothing had strayed.
   */
  lemma UserUpdateKeepsUnnamedIff(s: Store, i: DefId, id: Key, r: UpdateReq)
    requires Inv(s) && UpdatesUser(s, i, id, r)
    ensures var u, d, p, q := UpdateUser(s, id, r).store, s.defs[i], PreferenceOf(s, i), DefaultsOf(r);
            && LiveAt(u.defs, i)
            && (q.model == None ==> (EffectiveOf(u, i).model == EffectiveOf(s, i).model <==>
                ScalarAgrees(d.model, p.model)))
            && (q.permission == None ==>
                  (EffectiveOf(u, i).permission == EffectiveOf(s, i).permission <==>
                   ScalarAgrees(d.permission, p.permission)))
            && (q.mcps == None ==> (EffectiveOf(u, i).mcps == EffectiveOf(s, i).mcps <==> ListAgrees(d.mcps, p.mcps)))
            && (r.defaults == None ==> (EffectiveOf(u, i) == EffectiveOf(s, i) <==> !Strays(s, i)))
  {
    UserUpdateDefaults(s, i, id, r);
    assert RowInv(s, i);
  }

  /**
   The other fields of a user assistant are kept unless the request names them, with one
   exception: skills come back as a fixed list, even if their default was auto.
   */
  ghost predicate FieldsUpdated(d: Definition, e: Definition, r: UpdateReq) {
    && e.key == d.key && e.source == User && e.sourceRef == d.sourceRef && e.owner == Person && e.rule == UserFile
    && e.name == UnwrapOr(r.name, d.name)
    && e.description == Or(r.description, d.description)
    && e.backend == UnwrapOr(r.backend, d.backend)
    && e.prompts == UnwrapOr(r.recommended, UnwrapOr(r.prompts, d.prompts))
    && e.skills == (if DefaultsOf(r).skills.Some? then RequestedList(DefaultsOf(r).skills)
                    else ListDefault(Fixed, UnwrapOr(r.skills, d.skills.ids)))
    && e.mcps == RequestedList(DefaultsOf(r).mcps)
  }

  lemma RowFieldsUpdated(d: Definition, row: Legacy, r: UpdateReq, reset: bool)
    requires Describes(row, d) && d.sourceRef == Some(FromKey(d.key)) && FromParts(r.recommended, r.defaults).Ok?
    ensures FieldsUpdated(d, Patched(UserDefinition(d.key, d.key, MergedLegacyRow(row, r)),
            FromParts(r.recommended, r.defaults).value, reset), r)
  {
  }

  /** A fixed list of skills is remembered; fixing one and leaving one both forget which skills were disabled. */
  predicate SkillsRemembered(d: ListDefault, before: Preference, after: Preference, r: Option<ListReq>) {
    if r.None? || (r.value.mode == "auto" && d.mode == Auto) then
      after.skills == before.skills && after.disabledSkills == before.disabledSkills
    else after.skills == RequestedList(r).ids && after.disabledSkills == []
  }

  lemma SeededSkills(p: Preference, d: Definition, prompts: Option<seq<string>>, r: Option<DefaultsReq>)
    requires FromParts(prompts, r).Ok?
    ensures SkillsRemembered(d.skills, p, Seeded(p, Some(d), r), UnwrapOr(r, NO_DEFAULTS).skills)
  {
    ValidatedRequestsSync(prompts, r, p, Some(d));
  }

  lemma UserUpdateFields(s: Store, i: DefId, id: Key, r: UpdateReq)
    requires Inv(s) && UpdatesUser(s, i, id, r) && s.defs[i].source == User
    ensures var u := UpdateUser(s, id, r).store;
            && i in u.defs && FieldsUpdated(s.defs[i], u.defs[i], r)
            && SkillsRemembered(s.defs[i].skills, PreferenceOf(s, i), PreferenceOf(u, i), DefaultsOf(r).skills)
  {
    UserUpdateStores(s, i, id, r);
    assert RowInv(s, i);
    RowFieldsUpdated(s.defs[i], s.legacy[id], r, r.backend.Some? && r.backend.value != s.defs[i].backend);
    SeededSkills(PreferenceOf(s, i), s.defs[i], r.recommended, r.defaults);
  }

  /** Which built-in assistants an update reaches. */
  predicate UpdatesBuiltin(s: Store, i: DefId, id: Key, r: UpdateReq) {
    && LiveByKey(s.defs, id) == Some(i) && FromParts(r.recommended, r.defaults).Ok?
    && !TouchesBuiltin(r) && r.backend.Some? && !(PREFIX <= id)
  }

  lemma BuiltinRowResolves(
      d: Definition, p: Preference, prompts: Option<seq<string>>, reset: bool, r: Option<DefaultsReq>)
    requires FromParts(prompts, r).Ok?
    ensures var x := Patched(d, FromParts(prompts, r).value, reset);
            var p' := Seeded(p, Some(x), r);
            var q := UnwrapOr(r, NO_DEFAULTS);
            && Resolve(x.model, p'.model) == NewScalar(d.model, p.model, q.model, false, reset)
            && Resolve(x.permission, p'.permission) == NewScalar(d.permission, p.permission, q.permission, false, reset)
            && (reset ==> x.model == Requested(q.model) && x.permission == Requested(q.permission))
  {
    ValidatedRequestsSync(prompts, r, p, Some(Patched(d, FromParts(prompts, r).value, reset)));
  }

  lemma BuiltinMcpsKept(d: Definition, p: Preference, prompts: Option<seq<string>>, reset: bool, r: Option<DefaultsReq>)
    requires FromParts(prompts, r).Ok? && (r.Some? ==> r.value.mcps.None?)
    ensures var x := Patched(d, FromParts(prompts, r).value, reset);
            x.mcps == d.mcps && Seeded(p, Some(x), r).mcps == p.mcps
  {
    ValidatedRequestsSync(prompts, r, p, Some(Patched(d, FromParts(prompts, r).value, reset)));
  }

  /**
   Of the content of a built-in row only the model and permission defaults change: those the request names, and
   on a change of backend both.
   */
  ghost predicate OnlyModesChanged(d: Definition, e: Definition, r: UpdateReq, rewritten: bool) {
    && e.model == (if DefaultsOf(r).model.Some? || rewritten then Requested(DefaultsOf(r).model) else d.model)
    && e.permission == (if DefaultsOf(r).permission.Some? || rewritten then Requested(DefaultsOf(r).permission)
                        else d.permission)
    && e == d.(model := e.model, permission := e.permission)
  }

  lemma PatchedBuiltin(d: Definition, p: Preference, r: UpdateReq, reset: bool)
    requires FromParts(r.recommended, r.defaults).Ok? && !TouchesBuiltin(r)
    ensures var x := Patched(d, FromParts(r.recommended, r.defaults).value, reset);
            && OnlyModesChanged(d, x, r, reset)
            && Seeded(p, Some(x), r.defaults).skills == p.skills
            && Seeded(p, Some(x), r.defaults).disabledSkills == p.disabledSkills
  {
    var x := Patched(d, FromParts(r.recommended, r.defaults).value, reset);
    ValidatedRequestsSync(r.recommended, r.defaults, p, Some(x));
  }

  /** Updating a built-in assistant leaves everything else about it as it was shipped, and its skills as remembered. */
  lemma BuiltinUpdateFields(s: Store, i: DefId, id: Key, r: UpdateReq)
    requires Inv(s) && UpdatesBuiltin(s, i, id, r)
    ensures var u := UpdateBuiltin(s, id, r).store;
            && i in u.defs && OnlyModesChanged(s.defs[i], u.defs[i], r, BackendOf(s, i) != r.backend.value)
            && PreferenceOf(u, i).skills == PreferenceOf(s, i).skills
            && PreferenceOf(u, i).disabledSkills == PreferenceOf(s, i).disabledSkills
  {
    assert RowInv(s, i);
    BuiltinUpdateStages(s, i, id, r);
    PatchedBuiltin(s.defs[i], PreferenceOf(s, i), r, BackendOf(s, i) != r.backend.value);
  }

  lemma BuiltinUpdateStages(s: Store, i: DefId, id: Key, r: UpdateReq)
    requires UpdatesBuiltin(s, i, id, r) && i < s.nextDef
    ensures var u := UpdateBuiltin(s, id, r).store;
            var d := Patched(s.defs[i], FromParts(r.recommended, r.defaults).value, BackendOf(s, i) != r.backend.value);
            && UpdateBuiltin(s, id, r).error == None
            && i in u.defs && u.defs[i] == d && !d.deleted
            && OverlayOf(u, i) == BuiltinOverlay(s, id, r)
            && PreferenceOf(u, i) == Seeded(PreferenceOf(s, i), Some(d), r.defaults)
  {
    var p, v := UpdateBuiltinStages(s, i, id, r);
    assert PreferenceOf(Mirror(v, i), i) == PreferenceOf(v, i);
  }

  /**
   Updating a built-in assistant: it then runs on the requested backend, its other state is kept;
   a change of backend resets the stored defaults to the request's or auto, and what the request then
   leaves out shows the preference.
   */
  lemma BuiltinUpdateDefaults(s: Store, i: DefId, id: Key, r: UpdateReq)
    requires Inv(s) && UpdatesBuiltin(s, i, id, r)
    ensures var u := UpdateBuiltin(s, id, r).store;
            && UpdateBuiltin(s, id, r).error == None
            && LiveAt(u.defs, i) && BackendOf(u, i) == r.backend.value
            && OverlayOf(u, i) == OverlayOf(s, i).(backendOverride := r.backend)
            && (BackendOf(s, i) != r.backend.value ==>
                  u.defs[i].model == Requested(DefaultsOf(r).model)
                      && u.defs[i].permission == Requested(DefaultsOf(r).permission))
            && EffectiveOf(u, i) == NewEffective(s.defs[i], PreferenceOf(s, i), DefaultsOf(r), false,
                                                 BackendOf(s, i) != r.backend.value)
  {
    assert RowInv(s, i);
    BuiltinRowUpdated(s, i, id, r);
  }

  lemma BuiltinRowUpdated(s: Store, i: DefId, id: Key, r: UpdateReq)
    requires UpdatesBuiltin(s, i, id, r) && i < s.nextDef && MirrorOk(s, i)
    ensures var u := UpdateBuiltin(s, id, r).store;
            && UpdateBuiltin(s, id, r).error == None
            && LiveAt(u.defs, i) && BackendOf(u, i) == r.backend.value
            && OverlayOf(u, i) == OverlayOf(s, i).(backendOverride := r.backend)
            && (BackendOf(s, i) != r.backend.value ==>
                  u.defs[i].model == Requested(DefaultsOf(r).model)
                      && u.defs[i].permission == Requested(DefaultsOf(r).permission))
            && EffectiveOf(u, i) == NewEffective(s.defs[i], PreferenceOf(s, i), DefaultsOf(r), false,
                                                 BackendOf(s, i) != r.backend.value)
  {
    BuiltinUpdateStages(s, i, id, r);
    var reset := BackendOf(s, i) != r.backend.value;
    BuiltinRowResolves(s.defs[i], PreferenceOf(s, i), r.recommended, reset, r.defaults);
    BuiltinMcpsKept(s.defs[i], PreferenceOf(s, i), r.recommended, reset, r.defaults);
  }

  /**
   On the built-in path a field left out resolves as before exactly if the backend stays or its default,
   where fixed, was also the preference.
   */
  lemma BuiltinUpdateKeepsUnnamedIff(s: Store, i: DefId, id: Key, r: UpdateReq)
    requires Inv(s) && UpdatesBuiltin(s, i, id, r)
    ensures var u, d, p, q := UpdateBuiltin(s, id, r).store, s.defs[i], PreferenceOf(s, i), DefaultsOf(r);
            var same := BackendOf(s, i) == r.backend.value;
            && LiveAt(u.defs, i)
            && (q.model == None ==>
                  (EffectiveOf(u, i).model == EffectiveOf(s, i).model <==> same || ScalarAgrees(d.model, p.model)))
            && (q.permission == None ==>
                  (EffectiveOf(u, i).permission == EffectiveOf(s, i).permission <==>
                   same || ScalarAgrees(d.permission, p.permission)))
            && EffectiveOf(u, i).mcps == EffectiveOf(s, i).mcps
  {
    BuiltinUpdateDefaults(s, i, id, r);
  }

  /**
   A change of backend that names no defaults clears them in the row only: the preference stays, and the
   new backend goes on being asked for the old model and permission exactly if these had not strayed.
   */
  lemma BackendChangeKeepsWhatIsResolvedIff(s: Store, i: DefId, id: Key, r: UpdateReq)
    requires Inv(s) && r.defaults == None && r.backend.Some?
    requires UpdatesUser(s, i, id, r) || (UpdatesBuiltin(s, i, id, r) && r.backend.value != BackendOf(s, i))
    ensures var u := if UpdatesUser(s, i, id, r) then UpdateUser(s, id, r).store else UpdateBuiltin(s, id, r).store;
            var d, p := s.defs[i], PreferenceOf(s, i);
            && LiveAt(u.defs, i) && u.defs[i].model == Scalar(Auto, None) && u.defs[i].permission == Scalar(Auto, None)
            && (EffectiveOf(u, i).model == EffectiveOf(s, i).model <==> ScalarAgrees(d.model, p.model))
            && (EffectiveOf(u, i).permission == EffectiveOf(s, i).permission <==>
                ScalarAgrees(d.permission, p.permission))
  {
    if UpdatesUser(s, i, id, r) {
      UserUpdateDefaults(s, i, id, r);
      UserUpdateKeepsUnnamedIff(s, i, id, r);
    } else {
      BuiltinUpdateDefaults(s, i, id, r);
      BuiltinUpdateKeepsUnnamedIff(s, i, id, r);
    }
  }

  // ---------------------------------------------------------------------------------------
  // State requests
  // ---------------------------------------------------------------------------------------

  /** The later request wins field by field. */
  function Later(a: StateReq, b: StateReq): StateReq {
    StateReq(Or(b.enabled, a.enabled), Or(b.sortOrder, a.sortOrder), Or(b.lastUsed, a.lastUsed))
  }

  function MergedReq(rs: seq<StateReq>): StateReq {
    if rs == [] then StateReq(None, None, None)
    else Later(MergedReq(rs[..|rs| - 1]), rs[|rs| - 1])
  }

  /** One request after the other, stopping at nothing. */
  function SetStates(c: Config, s: Store, id: Key, rs: seq<StateReq>): Done {
    if rs == [] then Done(s, None)
    else SetState(c, SetStates(c, s, id, rs[..|rs| - 1]).store, id, rs[|rs| - 1])
  }

  /** What a request makes of an overlay. */
  function Over(o: Overlay, r: StateReq): Overlay {
    Overlay(UnwrapOr(r.enabled, o.enabled), UnwrapOr(r.sortOrder, o.sortOrder), o.backendOverride,
        Or(r.lastUsed, o.lastUsed))
  }

  function WithOverlay(s: Store, i: DefId, o: Overlay): Store
    requires i in s.defs
  {
    Mirror(s.(overlays := s.overlays[i := o]), i)
  }

  /** The overlay is what counts: the legacy override it falls back to never says anything else. */
  lemma SetStateOverlays(c: Config, s: Store, i: DefId, id: Key, r: StateReq)
    requires LiveByKey(s.defs, id) == Some(i) && MirrorOk(s, i) && (IsBuiltin(c, id) || id in s.legacy)
    ensures SetState(c, s, id, r) == Done(WithOverlay(s, i, Over(OverlayOf(s, i), r)), None)
  {
  }

  lemma OverlayTwice(s: Store, i: DefId, a: Overlay, b: Overlay)
    requires i in s.defs
    ensures WithOverlay(WithOverlay(s, i, a), i, b) == WithOverlay(s, i, b)
    ensures OverlayOf(WithOverlay(s, i, a), i) == a && MirrorOk(WithOverlay(s, i, a), i)
  {
    var d := s.defs[i];
    assert s.overlays[i := a][i := b] == s.overlays[i := b];
    assert MirroredLegacy(MirroredLegacy(s.legacy, d), d) == MirroredLegacy(s.legacy, d);
    assert s.overrides[d.key := a][d.key := b] == s.overrides[d.key := b];
  }

  /** The assistant is one that state requests reach, before and after. */
  predicate Reaches(c: Config, s: Store, i: DefId, id: Key) {
    LiveByKey(s.defs, id) == Some(i) && (IsBuiltin(c, id) || (id in s.legacy && s.defs[i].source == User))
  }

  lemma StateAfterState(c: Config, s: Store, i: DefId, id: Key, o: Overlay, r: StateReq)
    requires Reaches(c, s, i, id)
    ensures SetState(c, WithOverlay(s, i, o), id, r) == Done(WithOverlay(s, i, Over(o, r)), None)
  {
    OverlayTwice(s, i, o, Over(o, r));
    SetStateOverlays(c, WithOverlay(s, i, o), i, id, r);
  }

  lemma OverOver(o: Overlay, a: StateReq, b: StateReq)
    ensures Over(Over(o, a), b) == Over(o, Later(a, b))
  {
  }

  lemma {:induction false} StatesMerge(c: Config, s: Store, i: DefId, id: Key, rs: seq<StateReq>)
    requires rs != [] && Reaches(c, s, i, id) && i in s.defs && MirrorOk(s, i)
    ensures SetStates(c, s, id, rs) == Done(WithOverlay(s, i, Over(OverlayOf(s, i), MergedReq(rs))), None)
    decreases |rs|
  {
    var last := rs[|rs| - 1];
    var before := rs[..|rs| - 1];
    if before == [] {
      assert SetStates(c, s, id, before) == Done(s, None);
      SetStateOverlays(c, s, i, id, last);
    } else {
      StatesMerge(c, s, i, id, before);
      OverOver(OverlayOf(s, i), MergedReq(before), last);
      StateAfterState(c, s, i, id, Over(OverlayOf(s, i), MergedReq(before)), last);
    }
  }

  /**
   A live row of a built-in assistant that this release does not ship, with a legacy row: the first
   request reaches it and removes the legacy row, so that the next one does not.
   */
  predicate Withdrawn(c: Config, s: Store, id: Key) {
    !IsBuiltin(c, id) && id in s.legacy && LiveByKey(s.defs, id).Some?
        && s.defs[LiveByKey(s.defs, id).value].source != User
  }

  lemma WithdrawnOnce(c: Config, s: Store, id: Key, r: StateReq)
    requires Inv(s) && Withdrawn(c, s, id)
    ensures SetState(c, s, id, r).error == None && id !in SetState(c, s, id, r).store.legacy
  {
    assert RowInv(s, LiveByKey(s.defs, id).value);
  }

  lemma {:induction false} OutOfReach(c: Config, s: Store, id: Key, rs: seq<StateReq>)
    requires rs != [] && !IsBuiltin(c, id) && id !in s.legacy
    ensures SetStates(c, s, id, rs) == Done(s, Some(NotFound))
    decreases |rs|
  {
    if |rs| > 1 { OutOfReach(c, s, id, rs[..|rs| - 1]); }
  }

  lemma {:induction false} NoSuchRow(c: Config, s: Store, id: Key, rs: seq<StateReq>)
    requires rs != [] && LiveByKey(s.defs, id) == None
    ensures SetStates(c, s, id, rs) == Done(s, Some(NotFound))
    decreases |rs|
  {
    if |rs| > 1 { NoSuchRow(c, s, id, rs[..|rs| - 1]); }
  }

  /** From the second request on, a withdrawn assistant is not found. */
  lemma {:induction false} WithdrawnTwice(c: Config, s: Store, id: Key, rs: seq<StateReq>)
    requires |rs| >= 2 && Inv(s) && Withdrawn(c, s, id)
    ensures SetStates(c, s, id, rs).error == Some(NotFound) && id !in SetStates(c, s, id, rs).store.legacy
    decreases |rs|
  {
    var before := rs[..|rs| - 1];
    if |rs| == 2 {
      assert before == [before[0]];
      OneRequestIsItself(c, s, id, before[0]);
      WithdrawnOnce(c, s, id, MergedReq(before));
    } else {
      WithdrawnTwice(c, s, id, before);
    }
    NotFoundWithoutLegacy(c, SetStates(c, s, id, before).store, id, rs[|rs| - 1]);
  }

  lemma NotFoundWithoutLegacy(c: Config, s: Store, id: Key, r: StateReq)
    requires !IsBuiltin(c, id) && id !in s.legacy
    ensures SetState(c, s, id, r) == Done(s, Some(NotFound))
  {
  }

  /**
   "Any sequence of state requests on one id is one request with the later values" fails here: two
   requests against one.
   */
  lemma WithdrawnAssistantsTellApart(c: Config, s: Store, id: Key, a: StateReq, b: StateReq)
    requires Inv(s) && Withdrawn(c, s, id)
    ensures SetStates(c, s, id, [a, b]).error == Some(NotFound)
    ensures SetState(c, s, id, MergedReq([a, b])).error == None
  {
    WithdrawnTwice(c, s, id, [a, b]);
    WithdrawnOnce(c, s, id, MergedReq([a, b]));
  }

  lemma OneRequestIsItself(c: Config, s: Store, id: Key, r: StateReq)
    ensures SetStates(c, s, id, [r]) == SetState(c, s, id, MergedReq([r]))
  {
    assert [r][..0] == [];
    assert MergedReq([r]) == Later(MergedReq([]), r) == r;
  }

  /**
   On any id, whether requests on it succeed or not: a sequence of state requests is one request with the
   later values, field by field, exactly if there is only one or the assistant is not withdrawn.
   */
  lemma StatesAreOneStateIff(c: Config, s: Store, id: Key, rs: seq<StateReq>)
    requires rs != [] && Inv(s)
    ensures SetStates(c, s, id, rs) == SetState(c, s, id, MergedReq(rs)) <==> |rs| == 1 || !Withdrawn(c, s, id)
  {
    var found := LiveByKey(s.defs, id);
    if |rs| == 1 {
      assert rs == [rs[0]];
      OneRequestIsItself(c, s, id, rs[0]);
    } else if Withdrawn(c, s, id) {
      WithdrawnTwice(c, s, id, rs);
      WithdrawnOnce(c, s, id, MergedReq(rs));
    } else if found == None {
      NoSuchRow(c, s, id, rs);
    } else if !IsBuiltin(c, id) && id !in s.legacy {
      OutOfReach(c, s, id, rs);
    } else {
      StatesAreOneState(c, s, found.value, id, rs);
    }
  }

  /** What the one request does to an assistant it reaches. */
  lemma StatesAreOneState(c: Config, s: Store, i: DefId, id: Key, rs: seq<StateReq>)
    requires rs != [] && Inv(s) && Reaches(c, s, i, id)
    ensures SetStates(c, s, id, rs) == SetState(c, s, id, MergedReq(rs))
    ensures SetStates(c, s, id, rs) == Done(WithOverlay(s, i, Over(OverlayOf(s, i), MergedReq(rs))), None)
  {
    assert RowInv(s, i);
    StatesMerge(c, s, i, id, rs);
    SetStateOverlays(c, s, i, id, MergedReq(rs));
  }

  /** No state request changes the backend in force, and one that fails changes nothing. */
  lemma StateKeepsBackend(c: Config, s: Store, id: Key, r: StateReq, j: DefId)
    requires Inv(s) && LiveAt(s.defs, j)
    ensures var d := SetState(c, s, id, r);
            && d.store.defs == s.defs && BackendOf(d.store, j) == BackendOf(s, j)
            && (d.error.Some? ==> d.store == s)
            && (s.defs[j].key != id ==> OverlayOf(d.store, j) == OverlayOf(s, j))
  {
    var found := LiveByKey(s.defs, id);
    if (IsBuiltin(c, id) || id in s.legacy) && found.Some? {
      assert RowInv(s, found.value);
      SetStateOverlays(c, s, found.value, id, r);
      OverlayKeepsBackends(s, found.value, Over(OverlayOf(s, found.value), r), j);
    }
  }

  lemma OverlayKeepsBackends(s: Store, i: DefId, o: Overlay, j: DefId)
    requires LiveAt(s.defs, i) && LiveAt(s.defs, j) && o.backendOverride == OverlayOf(s, i).backendOverride
    ensures var t := WithOverlay(s, i, o);
            t.defs == s.defs && BackendOf(t, j) == BackendOf(s, j) && (j != i ==> OverlayOf(t, j) == OverlayOf(s, j))
  {
  }
}
