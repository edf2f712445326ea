/**
 The tables behind assistants.  A row of `assistant_definitions` is never removed: deleting only
 marks it, and the unique indexes on `assistant_key` and on `(source, source_ref)` also cover
 marked rows.  `upsert` resolves conflicts on the definition id alone, so it fails on a clash
 with another row, live or marked.
 */
module AssistantTables {
  import opened Prelude

  type Key = string
  type DefId = nat
  type ProfileId = nat
  type ConversationId = nat

  datatype Source = Builtin | User | Generated
  datatype SourceRef = FromKey(key: Key) | FromProfile(profile: ProfileId)
  datatype Owner = System | Person
  datatype Rule = NoRule | Asset | UserFile | Inline(content: string)
  datatype Mode = Auto | Fixed
  datatype Scalar = Scalar(mode: Mode, value: Option<string>)
  datatype ListDefault = ListDefault(mode: Mode, ids: seq<string>)

  /** A row of `assistant_definitions`; JSON list columns are the lists they encode. */
  datatype Definition = Definition(
    key: Key, source: Source, owner: Owner, sourceRef: Option<SourceRef>,
    name: string, description: Option<string>, backend: string, rule: Rule, prompts: seq<string>,
    model: Scalar, permission: Scalar, skills: ListDefault, mcps: ListDefault, deleted: bool)

  /** A row of `assistant_overlays`, and of the legacy `assistant_overrides`. */
  datatype Overlay = Overlay(enabled: bool, sortOrder: int, backendOverride: Option<string>, lastUsed: Option<int>)

  const DEFAULT_OVERLAY := Overlay(true, 0, None, None)

  /** A row of `assistant_preferences`. */
  datatype Preference = Preference(
    model: Option<string>, permission: Option<string>, skills: seq<string>, disabledSkills: seq<string>,
    mcps: seq<string>)

  /** A row of `conversation_assistant_snapshots`: the modes a conversation began under. */
  datatype Snapshot = Snapshot(definition: DefId, model: Mode, permission: Mode)

  const NO_PREFERENCE := Preference(None, None, [], [], [])

  /** A row of the legacy `assistants` table. */
  datatype Legacy = Legacy(
    name: string, description: Option<string>, backend: string, skills: Option<seq<string>>,
    prompts: Option<seq<string>>)

  /** The parts of a profile's JSON definition the compiler reads. */
  datatype ProfileBody = ProfileBody(
    engines: seq<string>, soul: string, primaryModel: string, skills: seq<string>, mcps: seq<string>)

  datatype Profile = Profile(name: string, title: string, active: bool, body: ProfileBody)

  datatype Error = BadRequest | Forbidden | NotFound | Conflict | InternalError

  // ---------------------------------------------------------------------------------------
  // The definition table
  // ---------------------------------------------------------------------------------------

  predicate SameRef(a: Definition, b: Definition) {
    a.sourceRef.Some? && a.source == b.source && a.sourceRef == b.sourceRef
  }

  /** Two rows that one of the unique indexes keeps apart. */
  predicate Clash(a: Definition, b: Definition) {
    a.key == b.key || SameRef(a, b)
  }

  predicate Unique(t: map<DefId, Definition>) {
    forall i, j {:trigger Clash(t[i], t[j])} :: i in t && j in t && i != j ==> !Clash(t[i], t[j])
  }

  type Defs = t: map<DefId, Definition> | Unique(t) witness map[]

  /** One row for a key, and one for a source reference. */
  lemma RowsApart(t: Defs)
    ensures forall i, j :: i in t && j in t && t[i].key == t[j].key ==> i == j
    ensures forall i, j :: i in t && j in t && SameRef(t[i], t[j]) ==> i == j
  {
    forall i, j | i in t && j in t && i != j
      ensures !Clash(t[i], t[j])
    {
    }
  }

  predicate LiveAt(t: Defs, i: DefId) {
    i in t && !t[i].deleted
  }

  function LiveByKey(t: Defs, k: Key): (r: Option<DefId>)
    ensures r.Some? ==> LiveAt(t, r.value) && t[r.value].key == k
    ensures forall i :: LiveAt(t, i) && t[i].key == k ==> r == Some(i)
  {
    RowsApart(t);
    if exists i :: i in t && !t[i].deleted && t[i].key == k then
      var i :| i in t && !t[i].deleted && t[i].key == k;
      Some(i)
    else None
  }

  function LiveByRef(t: Defs, source: Source, r: SourceRef): (found: Option<DefId>)
    ensures found.Some? ==>
            LiveAt(t, found.value) && t[found.value].source == source && t[found.value].sourceRef == Some(r)
    ensures forall i :: LiveAt(t, i) && t[i].source == source && t[i].sourceRef == Some(r) ==> found == Some(i)
  {
    RowsApart(t);
    if exists i :: i in t && !t[i].deleted && t[i].source == source && t[i].sourceRef == Some(r) then
      var i :| i in t && !t[i].deleted && t[i].source == source && t[i].sourceRef == Some(r);
      Some(i)
    else None
  }

  predicate HasRow(t: Defs, k: Key) {
    exists i :: i in t && t[i].key == k
  }

  /** A key whose row is marked deleted: no live row can take it any more. */
  predicate Tombstone(t: Defs, k: Key) {
    exists i :: i in t && t[i].key == k && t[i].deleted
  }

  predicate Clashes(t: Defs, i: DefId, d: Definition) {
    exists j :: j in t && j != i && Clash(t[j], d)
  }

  /** INSERT .. ON CONFLICT(definition_id) DO UPDATE: writes the row live, or fails on a unique index. */
  function Upsert(t: Defs, i: DefId, d: Definition): (r: Result<Defs, Error>)
    ensures r.Ok? <==> !Clashes(t, i, d)
    ensures r.Ok? ==> r.value == t[i := d.(deleted := false)]
    ensures r.Err? ==> r.error == InternalError
  {
    if Clashes(t, i, d) then Err(InternalError) else Ok(t[i := d.(deleted := false)])
  }

  /** A write goes through exactly if the table it leaves still satisfies both unique indexes. */
  lemma UpsertKeepsIndexes(t: Defs, i: DefId, d: Definition)
    ensures Upsert(t, i, d).Ok? <==> Unique(t[i := d.(deleted := false)])
    ensures Upsert(t, i, d).Ok? ==> LiveByKey(Upsert(t, i, d).value, d.key) == Some(i)
  {
    var u := t[i := d.(deleted := false)];
    if Unique(u) {
      forall j | j in t && j != i
        ensures !Clash(t[j], d)
      {
        assert !Clash(u[j], u[i]);
      }
    } else {
      var j, k :| j in u && k in u && j != k && Clash(u[j], u[k]);
      var other := if j == i then k else j;
      assert Clash(t[other], d);
    }
    if Upsert(t, i, d).Ok? { assert LiveAt(Upsert(t, i, d).value, i); }
  }

  function SoftDelete(t: Defs, i: DefId): (r: Defs)
    ensures r.Keys == t.Keys
    ensures forall j :: j in t ==> r[j] == if j == i then t[j].(deleted := true) else t[j]
  {
    assert forall j, k :: j in t && k in t && j != k ==> !Clash(t[j], t[k]);
    if i in t then t[i := t[i].(deleted := true)] else t
  }

  /** Rows stay, keep their key, and once marked stay marked. */
  predicate Grows(a: Defs, b: Defs) {
    forall i :: i in a ==> i in b && b[i].key == a[i].key && (a[i].deleted ==> b[i].deleted)
  }

  // ---------------------------------------------------------------------------------------
  // All tables
  // ---------------------------------------------------------------------------------------

  datatype Store = Store(
    defs: Defs, overlays: map<DefId, Overlay>, prefs: map<DefId, Preference>,
    legacy: map<Key, Legacy>, overrides: map<Key, Overlay>, profiles: map<ProfileId, Profile>,
    nextDef: DefId, nextProfile: ProfileId, snapshots: map<ConversationId, Snapshot>)

  const EMPTY := Store(map[], map[], map[], map[], map[], map[], 0, 0, map[])

  /** A finished operation: the tables it leaves, and why it failed if it did. */
  datatype Done = Done(store: Store, error: Option<Error>)

  function PreferenceOf(s: Store, i: DefId): Preference {
    if i in s.prefs then s.prefs[i] else NO_PREFERENCE
  }

  function OverlayOf(s: Store, i: DefId): Overlay {
    if i in s.overlays then s.overlays[i] else DEFAULT_OVERLAY
  }

  /** Only user assistants have a legacy row. */
  function MirroredLegacy(legacy: map<Key, Legacy>, d: Definition): map<Key, Legacy> {
    if d.source == User then legacy[d.key :=
        Legacy(d.name, d.description, d.backend, Some(d.skills.ids), Some(d.prompts))]
    else legacy - {d.key}
  }

  /** `rebuild_legacy_assistant_mirror`: the downgrade rows of one definition. */
  function Mirror(s: Store, i: DefId): Store
    requires i in s.defs
  {
    var d := s.defs[i];
    s.(legacy := MirroredLegacy(s.legacy, d), overrides := s.overrides[d.key := OverlayOf(s, i)])
  }

  // ---------------------------------------------------------------------------------------
  // What a new conversation resolves
  // ---------------------------------------------------------------------------------------

  function Resolve(d: Scalar, preference: Option<string>): Option<string> {
    if d.mode.Fixed? then d.value else preference
  }

  /** The defaults in effect: a fixed one as it is, an automatic one from the last preference. */
  datatype Effective = Effective(model: Option<string>, permission: Option<string>, mcps: seq<string>)

  function EffectiveOf(s: Store, i: DefId): Effective
    requires i in s.defs
  {
    var d, p := s.defs[i], PreferenceOf(s, i);
    Effective(Resolve(d.model, p.model), Resolve(d.permission, p.permission), if d.mcps.mode.Fixed? then d.mcps.ids
        else p.mcps)
  }

  /** What the preference alone would have it resolve to. */
  function PreferredOf(s: Store, i: DefId): Effective {
    var p := PreferenceOf(s, i);
    Effective(p.model, p.permission, p.mcps)
  }

  /** The backend in force: the overlay's, otherwise the definition's. */
  function BackendOf(s: Store, i: DefId): string
    requires i in s.defs
  {
    UnwrapOr(OverlayOf(s, i).backendOverride, s.defs[i].backend)
  }
}
