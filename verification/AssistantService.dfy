/**
 The assistant service as functions on the tables: create, update, delete, state, bootstrap.
 A failing operation returns the tables as its earlier writes left them.
 */
module AssistantService {
  import opened Prelude
  import opened Text
  import opened AssistantTables

  datatype BuiltinAssistant = BuiltinAssistant(
    id: Key, name: string, description: Option<string>, backend: string, skills: seq<string>, prompts: seq<string>,
    hasRule: bool)

  /** What the application ships: `builtins` in the order the registry yields them. */
  datatype Config = Config(builtins: seq<BuiltinAssistant>)

  predicate IsBuiltin(c: Config, id: Key) {
    exists n :: 0 <= n < |c.builtins| && c.builtins[n].id == id
  }

  // ---------------------------------------------------------------------------------------
  // Requests and their validation
  // ---------------------------------------------------------------------------------------

  datatype ScalarReq = ScalarReq(mode: string, value: Option<string>)
  datatype ListReq = ListReq(mode: string, value: seq<string>)
  datatype DefaultsReq = DefaultsReq(
    model: Option<ScalarReq>, permission: Option<ScalarReq>, skills: Option<ListReq>, mcps: Option<ListReq>)

  /** The validated part of a request that patches a definition. */
  datatype Overrides = Overrides(
    prompts: Option<seq<string>>, model: Option<Scalar>, permission: Option<Scalar>,
    skills: Option<ListDefault>, mcps: Option<ListDefault>)

  function NonBlank(v: Option<string>): Option<string> {
    if v.Some? && !Blank(v.value) then v else None
  }

  predicate WellFormed(d: Scalar) {
    match d.mode
    case Auto => d.value == None
    case Fixed => d.value.Some? && !Blank(d.value.value)
  }

  function ValidateScalar(r: ScalarReq): (d: Result<Scalar, Error>)
    ensures d.Ok? ==> WellFormed(d.value) && (d.value.mode.Fixed? ==> d.value.value == NonBlank(r.value))
    ensures d.Ok? <==> r.mode == "auto" || (r.mode == "fixed" && NonBlank(r.value).Some?)
  {
    if r.mode == "auto" then Ok(Scalar(Auto, None))
    else if r.mode == "fixed" then
      if NonBlank(r.value).Some? then Ok(Scalar(Fixed, r.value)) else Err(BadRequest)
    else Err(BadRequest)
  }

  function ValidateList(r: ListReq): (d: Result<ListDefault, Error>)
    ensures d.Ok? <==> r.mode == "auto" || r.mode == "fixed"
    ensures d.Ok? && d.value.mode.Fixed? ==> d.value.ids == r.value
  {
    if r.mode == "auto" then Ok(ListDefault(Auto, []))
    else if r.mode == "fixed" then Ok(ListDefault(Fixed, r.value))
    else Err(BadRequest)
  }

  function Each<A, B>(f: A -> Result<B, Error>, a: Option<A>): Result<Option<B>, Error> {
    match a
    case None => Ok(None)
    case Some(x) =>
      match f(x)
      case Ok(y) => Ok(Some(y))
      case Err(e) => Err(e)
  }

  const NO_DEFAULTS := DefaultsReq(None, None, None, None)

  function FromParts(prompts: Option<seq<string>>, defaults: Option<DefaultsReq>): Result<Overrides, Error> {
    var d := UnwrapOr(defaults, NO_DEFAULTS);
    var model := Each(ValidateScalar, d.model);
    var permission := Each(ValidateScalar, d.permission);
    var skills := Each(ValidateList, d.skills);
    var mcps := Each(ValidateList, d.mcps);
    if model.Err? then Err(model.error)
    else if permission.Err? then Err(permission.error)
    else if skills.Err? then Err(skills.error)
    else if mcps.Err? then Err(mcps.error)
    else Ok(Overrides(prompts, model.value, permission.value, skills.value, mcps.value))
  }

  const NO_OVERRIDES := Overrides(None, None, None, None, None)

  // ---------------------------------------------------------------------------------------
  // Steps shared by the operations
  // ---------------------------------------------------------------------------------------

  /** The id and key a definition is written under: a live row by reference, by key, or a fresh id. */
  function ResolveIdentity(s: Store, source: Source, key: Key): (DefId, Key) {
    var byRef := LiveByRef(s.defs, source, FromKey(key));
    if byRef.Some? then (byRef.value, s.defs[byRef.value].key)
    else if LiveByKey(s.defs, key).Some? then (LiveByKey(s.defs, key).value, key)
    else (s.nextDef, key)
  }

  /** Write a row and move past the id if it was a fresh one. */
  function WriteDefinition(s: Store, i: DefId, d: Definition): Done {
    match Upsert(s.defs, i, d)
    case Err(e) => Done(s, Some(e))
    case Ok(defs) => Done(s.(defs := defs, nextDef := if i < s.nextDef then s.nextDef else i + 1), None)
  }

  function UserDefinition(id: Key, key: Key, row: Legacy): Definition {
    Definition(key, User, Person, Some(FromKey(id)), row.name, row.description, row.backend, UserFile,
               UnwrapOr(row.prompts, []), Scalar(Auto, None), Scalar(Auto, None),
               ListDefault(Fixed, UnwrapOr(row.skills, [])), ListDefault(Auto, []), false)
  }

  function BuiltinDefinition(b: BuiltinAssistant, key: Key): Definition {
    Definition(key, Builtin, System, Some(FromKey(b.id)), b.name, b.description, b.backend,
               if b.hasRule then Asset else NoRule, b.prompts, Scalar(Auto, None), Scalar(Auto, None),
               ListDefault(Fixed, b.skills), ListDefault(Auto, []), false)
  }

  /** `upsert_definition_from_legacy_user_row`: every default but the skills starts as auto. */
  function WriteUser(s: Store, id: Key, row: Legacy): Done {
    var (i, key) := ResolveIdentity(s, User, id);
    WriteDefinition(s, i, UserDefinition(id, key, row))
  }

  function WriteBuiltin(s: Store, b: BuiltinAssistant): Done {
    var (i, key) := ResolveIdentity(s, Builtin, b.id);
    WriteDefinition(s, i, BuiltinDefinition(b, key))
  }

  function Patched(d: Definition, o: Overrides, reset: bool): Definition {
    var auto := Scalar(Auto, None);
    d.(prompts := UnwrapOr(o.prompts, d.prompts),
       model := UnwrapOr(o.model, if reset then auto else d.model),
       permission := UnwrapOr(o.permission, if reset then auto else d.permission),
       skills := UnwrapOr(o.skills, d.skills),
       mcps := UnwrapOr(o.mcps, d.mcps))
  }

  /** `apply_detail_overrides`: patch the live row of `key`, then rebuild its mirror. */
  function ApplyOverrides(s: Store, key: Key, o: Overrides, reset: bool): Done {
    var found := LiveByKey(s.defs, key);
    if (o == NO_OVERRIDES && !reset) || found.None? then Done(s, None)
    else
      var written := WriteDefinition(s, found.value, Patched(s.defs[found.value], o, reset));
      if written.error.Some? then written else Done(Mirror(written.store, found.value), None)
  }

  /** A scalar preference after a request for the default it shadows. */
  function SyncedScalar(
      last: Option<string>, previous: Option<Mode>, r: Option<ScalarReq>): Result<Option<string>, Error> {
    if r.None? then Ok(last)
    else if r.value.mode == "fixed" then Ok(NonBlank(r.value.value))
    else if r.value.mode == "auto" then Ok(if previous == Some(Fixed) then None else last)
    else Err(BadRequest)
  }

  function SyncedList(last: seq<string>, previous: Option<Mode>, r: Option<ListReq>): Result<seq<string>, Error> {
    if r.None? then Ok(last)
    else if r.value.mode == "fixed" then Ok(r.value.value)
    else if r.value.mode == "auto" then Ok(if previous == Some(Fixed) then [] else last)
    else Err(BadRequest)
  }

  /** The list of disabled built-in skills: cleared by a fixed list, and by leaving one. */
  function SyncedDisabled(last: seq<string>, previous: Option<Mode>, r: Option<ListReq>): seq<string> {
    if r.None? then last
    else if r.value.mode == "fixed" || previous == Some(Fixed) then []
    else last
  }

  function SyncedPreference(p: Preference, previous: Option<Definition>, r: DefaultsReq): Result<Preference, Error> {
    var model := SyncedScalar(p.model, if previous.Some? then Some(previous.value.model.mode) else None, r.model);
    var permission := SyncedScalar(p.permission, if previous.Some? then Some(previous.value.permission.mode)
        else None, r.permission);
    var skillsMode := if previous.Some? then Some(previous.value.skills.mode) else None;
    var skills := SyncedList(p.skills, skillsMode, r.skills);
    var mcps := SyncedList(p.mcps, if previous.Some? then Some(previous.value.mcps.mode) else None, r.mcps);
    if model.Err? || permission.Err? || skills.Err? || mcps.Err? then Err(BadRequest)
    else Ok(Preference(model.value, permission.value, skills.value,
        SyncedDisabled(p.disabledSkills, skillsMode, r.skills), mcps.value))
  }

  /** `sync_preferences_from_defaults_request`: an empty preference is a missing row. */
  function SyncPreferences(s: Store, i: DefId, previous: Option<Definition>, r: Option<DefaultsReq>): Done {
    if r.None? then Done(s, None)
    else
      match SyncedPreference(PreferenceOf(s, i), previous, r.value)
      case Err(e) => Done(s, Some(e))
      case Ok(p) => Done(s.(prefs := if p == NO_PREFERENCE then s.prefs - {i} else s.prefs[i := p]), None)
  }

  // ---------------------------------------------------------------------------------------
  // Create, update, delete
  // ---------------------------------------------------------------------------------------

  datatype CreateReq = CreateReq(
    name: string, description: Option<string>, backend: Option<string>, skills: Option<seq<string>>,
    prompts: Option<seq<string>>, recommended: Option<seq<string>>, defaults: Option<DefaultsReq>)

  datatype UpdateReq = UpdateReq(
    name: Option<string>, description: Option<string>, backend: Option<string>, skills: Option<seq<string>>,
    prompts: Option<seq<string>>, recommended: Option<seq<string>>, defaults: Option<DefaultsReq>)

  /** `resolve_default_agent_type`. */
  function DefaultBackend(providerEnabled: bool): Result<string, Error> {
    if providerEnabled then Ok("aionrs") else Err(BadRequest)
  }

  function BackendFor(requested: Option<string>, providerEnabled: bool): Result<string, Error> {
    if requested.Some? && requested.value != "" then Ok(requested.value) else DefaultBackend(providerEnabled)
  }

  /** The final lookup of create and update. */
  function Fetch(s: Store, id: Key): Done {
    Done(s, if LiveByKey(s.defs, id).Some? then None else Some(NotFound))
  }

  /** Patch the row just written, seed its preferences, fetch it. */
  function FinishWrite(
      s: Store, id: Key, o: Overrides, reset: bool, previous: Option<Definition>, r: Option<DefaultsReq>): Done {
    var patched := ApplyOverrides(s, id, o, reset);
    if patched.error.Some? then patched
    else
      var found := LiveByKey(patched.store.defs, id);
      var synced := if found.Some? then SyncPreferences(patched.store, found.value, previous, r) else patched;
      if synced.error.Some? then synced else Fetch(synced.store, id)
  }

  function NewLegacyRow(r: CreateReq, backend: string): Legacy {
    Legacy(Trim(r.name), r.description, backend, r.skills, r.prompts)
  }

  /** `create`, for the id the request names or the service generated. */
  function Create(c: Config, s: Store, id: Key, r: CreateReq, providerEnabled: bool): Done {
    var o := FromParts(r.recommended, r.defaults);
    var backend := BackendFor(r.backend, providerEnabled);
    if Blank(r.name) || IsBuiltin(c, id) then Done(s, Some(BadRequest))
    else if o.Err? then Done(s, Some(o.error))
    else if backend.Err? then Done(s, Some(backend.error))
    else if id in s.legacy then Done(s, Some(Conflict))
    else
      var row := NewLegacyRow(r, backend.value);
      var written := WriteUser(s.(legacy := s.legacy[id := row]), id, row);
      if written.error.Some? then written else FinishWrite(written.store, id, o.value, false, None, r.defaults)
  }

  /** Fields a built-in assistant does not let a request touch. */
  predicate TouchesBuiltin(r: UpdateReq) {
    r.name.Some? || r.description.Some? || r.skills.Some? || r.prompts.Some? || r.recommended.Some? ||
    (r.defaults.Some? && (r.defaults.value.skills.Some? || r.defaults.value.mcps.Some?))
  }

  function UpdateBuiltin(s: Store, id: Key, r: UpdateReq): Done {
    var o := FromParts(r.recommended, r.defaults);
    var found := LiveByKey(s.defs, id);
    if o.Err? then Done(s, Some(o.error))
    else if TouchesBuiltin(r) then Done(s, Some(Forbidden))
    else if r.backend.None? then Done(s, Some(BadRequest))
    else if found.None? then Done(s, Some(NotFound))
    else
      var i := found.value;
      var existing := if id in s.overrides then s.overrides[id] else DEFAULT_OVERLAY;
      var reset := BackendOf(s, i) != r.backend.value;
      var t := s.(overlays := s.overlays[i := existing.(backendOverride := r.backend)]);
      var patched := ApplyOverrides(t, id, o.value, reset);
      if patched.error.Some? then patched else FinishBuiltin(patched.store, id, r)
  }

  /** The patched row is read again, and passed as the previous one too. */
  function FinishBuiltin(s: Store, id: Key, r: UpdateReq): Done {
    var again := LiveByKey(s.defs, id);
    if again.None? then Done(s, Some(NotFound))
    else
      var synced := SyncPreferences(s, again.value, Some(s.defs[again.value]), r.defaults);
      if synced.error.Some? || again.value !in synced.store.defs then synced
      else Fetch(Mirror(synced.store, again.value), id)
  }

  function MergedLegacyRow(row: Legacy, r: UpdateReq): Legacy {
    Legacy(UnwrapOr(r.name, row.name), Or(r.description, row.description), UnwrapOr(r.backend, row.backend),
           Or(r.skills, row.skills), Or(r.prompts, row.prompts))
  }

  function UpdateUser(s: Store, id: Key, r: UpdateReq): Done {
    var o := FromParts(r.recommended, r.defaults);
    var found := LiveByKey(s.defs, id);
    if o.Err? then Done(s, Some(o.error))
    else if found.None? || id !in s.legacy then Done(s, Some(NotFound))
    else
      var current := s.defs[found.value];
      var reset := r.backend.Some? && r.backend.value != current.backend;
      var row := MergedLegacyRow(s.legacy[id], r);
      var written := WriteUser(s.(legacy := s.legacy[id := row]), id, row);
      if written.error.Some? then written
      else FinishWrite(written.store, id, o.value, reset, Some(current), r.defaults)
  }

  function Update(c: Config, s: Store, id: Key, r: UpdateReq): Done {
    if IsBuiltin(c, id) then UpdateBuiltin(s, id, r) else UpdateUser(s, id, r)
  }

  function Delete(c: Config, s: Store, id: Key): Done {
    if IsBuiltin(c, id) then Done(s, Some(Forbidden))
    else if id !in s.legacy then Done(s, Some(NotFound))
    else
      var t := s.(legacy := s.legacy - {id}, overrides := s.overrides - {id});
      match LiveByKey(t.defs, id)
      case None => Done(t, None)
      case Some(i) =>
        Done(t.(overlays := t.overlays - {i}, prefs := t.prefs - {i}, defs := SoftDelete(t.defs, i)), None)
  }

  // ---------------------------------------------------------------------------------------
  // State overlays
  // ---------------------------------------------------------------------------------------

  datatype StateReq = StateReq(enabled: Option<bool>, sortOrder: Option<int>, lastUsed: Option<int>)

  /** Each field from the request, else the overlay, else the legacy override, else the default. */
  function MergedOverlay(s: Store, i: DefId, id: Key, r: StateReq): Overlay {
    var state := if i in s.overlays then Some(s.overlays[i]) else None;
    var legacy := if id in s.overrides then Some(s.overrides[id]) else None;
    Overlay(
      UnwrapOr(r.enabled, if state.Some? then state.value.enabled else legacy.None? || legacy.value.enabled),
      UnwrapOr(r.sortOrder, if state.Some? then state.value.sortOrder else if legacy.Some? then legacy.value.sortOrder
          else 0),
      Or(if state.Some? then state.value.backendOverride else None, if legacy.Some? then legacy.value.backendOverride
          else None),
      Or(r.lastUsed, Or(if state.Some? then state.value.lastUsed else None, if legacy.Some? then legacy.value.lastUsed
          else None)))
  }

  function SetState(c: Config, s: Store, id: Key, r: StateReq): Done {
    var found := LiveByKey(s.defs, id);
    if !IsBuiltin(c, id) && id !in s.legacy then Done(s, Some(NotFound))
    else if found.None? then Done(s, Some(NotFound))
    else
      var i := found.value;
      Fetch(Mirror(s.(overlays := s.overlays[i := MergedOverlay(s, i, id, r)]), i), id)
  }

  /** `list` also drops override rows of assistants that are no longer there. */
  function List(s: Store): Store {
    s.(overrides := map k | k in s.overrides && LiveByKey(s.defs, k).Some? :: s.overrides[k])
  }

  // ---------------------------------------------------------------------------------------
  // Bootstrap
  // ---------------------------------------------------------------------------------------

  function WriteBuiltins(s: Store, bs: seq<BuiltinAssistant>): Done
    decreases |bs|
  {
    if bs == [] then Done(s, None)
    else
      var d := WriteBuiltin(s, bs[0]);
      if d.error.Some? then d else WriteBuiltins(d.store, bs[1..])
  }

  /** `order` lists the legacy rows as the repository yields them. */
  function WriteLegacyUsers(c: Config, s: Store, order: seq<Key>): Done
    decreases |order|
  {
    if order == [] then Done(s, None)
    else if IsBuiltin(c, order[0]) || order[0] !in s.legacy then WriteLegacyUsers(c, s, order[1..])
    else
      var d := WriteUser(s, order[0], s.legacy[order[0]]);
      if d.error.Some? then d else WriteLegacyUsers(c, d.store, order[1..])
  }

  /** Overrides of assistants without a definition are skipped. */
  function CopyOverrides(s: Store): Store {
    s.(overlays := map i | i in s.overlays.Keys + s.defs.Keys && (i in s.overlays || HasOverride(s, i)) ::
                     if HasOverride(s, i) then s.overrides[s.defs[i].key] else s.overlays[i])
  }

  predicate HasOverride(s: Store, i: DefId) {
    LiveAt(s.defs, i) && s.defs[i].key in s.overrides
  }

  function MirrorEach(s: Store, rows: seq<DefId>): Store
    decreases |rows|
  {
    if rows == [] then s else MirrorEach(if LiveAt(s.defs, rows[0]) then Mirror(s, rows[0]) else s, rows[1..])
  }

  /** `bootstrap_assistant_storage`; `users` and `rows` are the orders the repositories list their rows in. */
  function Bootstrap(c: Config, s: Store, users: seq<Key>, rows: seq<DefId>): Done {
    var builtins := WriteBuiltins(s, c.builtins);
    if builtins.error.Some? then builtins
    else
      var written := WriteLegacyUsers(c, builtins.store, users);
      if written.error.Some? then written
      else Done(MirrorEach(CopyOverrides(written.store), rows), None)
  }
}
