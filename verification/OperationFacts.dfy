/** What each operation means for its caller, on tables that agree with each other. */
module OperationFacts {
  import opened Prelude
  import opened Text
  import opened AssistantTables
  import opened AssistantService
  import opened RequestFields
  import opened ProfileCompiler
  import opened AssistantInvariants
  import opened AssistantEffects
  import opened AssistantRuns
  import opened AssistantUpdates
  import opened AssistantBootstrap
  import opened BootstrapRows
  import opened AssistantConversation
  import opened StorageHistory
  import opened StorageLaws
  import opened UpdateLaws

  /** The row of a created assistant, field by field. */
  predicate CreatedFrom(d: Definition, id: Key, r: CreateReq) {
    var q := UnwrapOr(r.defaults, NO_DEFAULTS);
    && d.source == User && d.owner == Person && d.sourceRef == Some(FromKey(id)) && d.rule == UserFile
    && d.name == Trim(r.name) && d.description == r.description && TakesBackend(d.backend, r.backend)
    && d.prompts == UnwrapOr(r.recommended, UnwrapOr(r.prompts, []))
    && d.model == Requested(q.model) && d.permission == Requested(q.permission)
    && d.skills == (if q.skills.Some? then RequestedList(q.skills) else ListDefault(Fixed, UnwrapOr(r.skills, [])))
    && d.mcps == RequestedList(q.mcps)
  }

  /** The fixed defaults of the request are remembered; of anything else, what was. */
  predicate RemembersFixed(before: Preference, after: Preference, q: DefaultsReq) {
    && after.model == (if Requested(q.model).mode == Fixed then Requested(q.model).value else before.model)
    && after.permission
       == (if Requested(q.permission).mode == Fixed then Requested(q.permission).value else before.permission)
    && (if RequestedList(q.skills).mode == Fixed then after.skills == q.skills.value.value && after.disabledSkills == []
        else after.skills == before.skills && after.disabledSkills == before.disabledSkills)
    && after.mcps == (if RequestedList(q.mcps).mode == Fixed then q.mcps.value.value else before.mcps)
  }

  /** The new assistant is live, its legacy row says the same, and its preference agrees with its fixed defaults. */
  ghost predicate ShowsCreated(s: Store, t: Store, id: Key, r: CreateReq) {
    var found := LiveByKey(t.defs, id);
    && found.Some? && CreatedFrom(t.defs[found.value], id, r)
    && id in t.legacy && Describes(t.legacy[id], t.defs[found.value])
    && RemembersFixed(PreferenceOf(s, found.value), PreferenceOf(t, found.value), UnwrapOr(r.defaults, NO_DEFAULTS))
    && Agrees(t.defs[found.value], PreferenceOf(t, found.value))
  }

  /** Why creating an assistant fails: the request, the legacy row of the id, or its marked definition. */
  ghost predicate CreateFails(
      c: Config, s: Store, id: Key, r: CreateReq, providerEnabled: bool, error: Option<Error>) {
    && (error == Some(BadRequest) <==> !WellMade(c, id, r, providerEnabled))
    && (error == Some(Conflict) <==> WellMade(c, id, r, providerEnabled) && id in s.legacy)
    && (error == Some(InternalError) <==>
        WellMade(c, id, r, providerEnabled) && id !in s.legacy && Tombstone(s.defs, id))
    && (error == None <==> WellMade(c, id, r, providerEnabled) && id !in s.legacy && !Tombstone(s.defs, id))
  }

  lemma CreateFacts(c: Config, s: Store, id: Key, r: CreateReq, providerEnabled: bool)
    requires Inv(s)
    ensures var d := Create(c, s, id, r, providerEnabled);
            && Inv(d.store)
            && CreateFails(c, s, id, r, providerEnabled, d.error)
            && (d.error == None ==> ShowsCreated(s, d.store, id, r))
  {
    CreateKeepsInv(c, s, id, r, providerEnabled);
    CreateSucceedsIff(c, s, id, r, providerEnabled);
    AcceptableIff(c, s, id, r, providerEnabled);
    CreateRefuses(c, s, id, r, providerEnabled);
    if Create(c, s, id, r, providerEnabled).error == None { CreatedShows(c, s, id, r, providerEnabled); }
  }

  lemma AcceptableIff(c: Config, s: Store, id: Key, r: CreateReq, providerEnabled: bool)
    ensures Acceptable(c, s, id, r, providerEnabled) <==> WellMade(c, id, r, providerEnabled) && id !in s.legacy
  {
    DefaultsAcceptedIff(r.recommended, r.defaults);
    BackendIsTaken(r.backend, providerEnabled);
  }

  lemma CreateRefuses(c: Config, s: Store, id: Key, r: CreateReq, providerEnabled: bool)
    requires !Acceptable(c, s, id, r, providerEnabled)
             || Create(c, s, id, r, providerEnabled).error in [None, Some(InternalError)]
    ensures var error := Create(c, s, id, r, providerEnabled).error;
            && (error == Some(BadRequest) <==> !WellMade(c, id, r, providerEnabled))
            && (error == Some(Conflict) <==> WellMade(c, id, r, providerEnabled) && id in s.legacy)
  {
    AcceptableIff(c, s, id, r, providerEnabled);
    DefaultsAcceptedIff(r.recommended, r.defaults);
    BackendIsTaken(r.backend, providerEnabled);
  }

  lemma CreatedShows(c: Config, s: Store, id: Key, r: CreateReq, providerEnabled: bool)
    requires Inv(s) && Create(c, s, id, r, providerEnabled).error == None
             && Inv(Create(c, s, id, r, providerEnabled).store)
    requires Acceptable(c, s, id, r, providerEnabled)
    ensures ShowsCreated(s, Create(c, s, id, r, providerEnabled).store, id, r)
  {
    var row := NewLegacyRow(r, BackendFor(r.backend, providerEnabled).value);
    CreatedIsStored(c, s, id, r, providerEnabled);
    NewRowIsTaken(r, providerEnabled);
    PatchedUserShows(id, row, r);
    LiveUserFacts(Create(c, s, id, r, providerEnabled).store, id);
    var i := LiveByKey(Create(c, s, id, r, providerEnabled).store.defs, id).value;
    SeededRemembers(PreferenceOf(s, i), r.recommended, r.defaults);
  }

  lemma CreatedIsStored(c: Config, s: Store, id: Key, r: CreateReq, providerEnabled: bool)
    requires Inv(s) && Create(c, s, id, r, providerEnabled).error == None && Acceptable(c, s, id, r, providerEnabled)
    ensures var t := Create(c, s, id, r, providerEnabled).store;
            var row := NewLegacyRow(r, BackendFor(r.backend, providerEnabled).value);
            && LiveByKey(t.defs, id).Some?
            && var i := LiveByKey(t.defs, id).value;
               && t.defs[i] == Patched(UserDefinition(id, id, row), FromParts(r.recommended, r.defaults).value, false)
               && PreferenceOf(t, i) == Seeded(PreferenceOf(s, i), None, r.defaults)
               && Agrees(t.defs[i], PreferenceOf(t, i))
  {
    var o := FromParts(r.recommended, r.defaults).value;
    var row := NewLegacyRow(r, BackendFor(r.backend, providerEnabled).value);
    StoreUserEffect(s, id, row, r.recommended, false, None, r.defaults);
    assert Create(c, s, id, r, providerEnabled) == StoreUser(s, id, row, o, false, None, r.defaults);
    var p := PreferenceOf(s, UnwrapOr(LiveByKey(s.defs, id), s.nextDef));
    FreshDefaultsAgree(UserDefinition(id, id, row), p, r.recommended, false, None, r.defaults);
  }

  lemma LiveUserFacts(t: Store, id: Key)
    requires Inv(t) && LiveByKey(t.defs, id).Some? && t.defs[LiveByKey(t.defs, id).value].source == User
    ensures id in t.legacy && Describes(t.legacy[id], t.defs[LiveByKey(t.defs, id).value])
  {
    assert RowInv(t, LiveByKey(t.defs, id).value);
  }

  lemma PatchedUserShows(id: Key, row: Legacy, r: CreateReq)
    requires FromParts(r.recommended, r.defaults).Ok? && TakenFrom(row, r)
    ensures CreatedFrom(Patched(UserDefinition(id, id, row), FromParts(r.recommended, r.defaults).value, false), id, r)
  {
  }

  lemma SeededRemembers(p: Preference, prompts: Option<seq<string>>, r: Option<DefaultsReq>)
    requires FromParts(prompts, r).Ok?
    ensures RemembersFixed(p, Seeded(p, None, r), UnwrapOr(r, NO_DEFAULTS))
  {
    ValidatedRequestsSync(prompts, r, p, None);
  }

  /** The requests that find their assistant and are allowed. */
  predicate Reached(c: Config, s: Store, id: Key, r: UpdateReq) {
    var found := LiveByKey(s.defs, id);
    found.Some? && if IsBuiltin(c, id) then UpdatesBuiltin(s, found.value, id, r)
        else UpdatesUser(s, found.value, id, r)
  }

  /** Whether an update writes the model and permission modes anew: always for users, else on a change of backend. */
  predicate RewritesModes(c: Config, s: Store, i: DefId, id: Key, r: UpdateReq)
    requires i in s.defs
  {
    !IsBuiltin(c, id) || r.backend != Some(BackendOf(s, i))
  }

  /**
   What the assistant resolves afterwards; without defaults in the request, what it did unless its
   preference had strayed.
   */
  ghost predicate ShowsUpdated(c: Config, s: Store, t: Store, id: Key, r: UpdateReq)
    requires LiveByKey(s.defs, id).Some?
  {
    var i := LiveByKey(s.defs, id).value;
    && LiveAt(t.defs, i)
    && EffectiveOf(t, i) == NewEffective(s.defs[i], PreferenceOf(s, i), DefaultsOf(r), !IsBuiltin(c, id),
                                         RewritesModes(c, s, i, id, r))
    && (r.defaults == None && !Strays(s, i) ==> EffectiveOf(t, i) == EffectiveOf(s, i))
    && (if IsBuiltin(c, id) then ShowsBuiltinUpdated(s, t, i, r) else ShowsUserUpdated(s, t, i, r))
  }

  /** The fields of a user assistant follow the request, and its skills are remembered. */
  ghost predicate ShowsUserUpdated(s: Store, t: Store, i: DefId, r: UpdateReq)
    requires i in s.defs && i in t.defs
  {
    s.defs[i].source == User ==>
      && FieldsUpdated(s.defs[i], t.defs[i], r)
      && SkillsRemembered(s.defs[i].skills, PreferenceOf(s, i), PreferenceOf(t, i), DefaultsOf(r).skills)
  }

  /** A built-in assistant runs on the requested backend; its row keeps what was shipped but for the modes. */
  ghost predicate ShowsBuiltinUpdated(s: Store, t: Store, i: DefId, r: UpdateReq)
    requires i in s.defs && i in t.defs
  {
    && r.backend == Some(BackendOf(t, i))
    && OverlayOf(t, i) == OverlayOf(s, i).(backendOverride := r.backend)
    && OnlyModesChanged(s.defs[i], t.defs[i], r, r.backend != Some(BackendOf(s, i)))
    && PreferenceOf(t, i).skills == PreferenceOf(s, i).skills
    && PreferenceOf(t, i).disabledSkills == PreferenceOf(s, i).disabledSkills
  }

  /** The request is one that the assistant allows. */
  predicate Allowed(c: Config, id: Key, r: UpdateReq) {
    DefaultsAccepted(r.defaults) && (IsBuiltin(c, id) ==> OnlyChooses(r) && r.backend.Some?)
  }

  /** Why updating an assistant fails. */
  ghost predicate UpdateFails(c: Config, s: Store, id: Key, r: UpdateReq, error: Option<Error>) {
    var there := LiveByKey(s.defs, id).Some? && (IsBuiltin(c, id) || id in s.legacy);
    && (error == None <==> Allowed(c, id, r) && there)
    && (error == Some(NotFound) <==> Allowed(c, id, r) && !there)
    && (error == Some(Forbidden) <==> DefaultsAccepted(r.defaults) && IsBuiltin(c, id) && !OnlyChooses(r))
    && (error == Some(BadRequest) <==>
        !DefaultsAccepted(r.defaults) || (IsBuiltin(c, id) && OnlyChooses(r) && r.backend == None))
  }

  lemma UpdateFacts(c: Config, s: Store, id: Key, r: UpdateReq)
    requires Inv(s) && GoodConfig(c)
    ensures var d := Update(c, s, id, r);
            && Inv(d.store)
            && UpdateFails(c, s, id, r, d.error)
            && (d.error == None ==> ShowsUpdated(c, s, d.store, id, r))
            && (d.error != None ==> d.store == s)
  {
    UpdateKeepsInv(c, s, id, r);
    if IsBuiltin(c, id) { BuiltinIdsAreGood(c, id); }
    UpdateShows(c, s, id, r);
    ReachedIff(c, s, id, r);
    if !Reached(c, s, id, r) { UpdateRefuses(c, s, id, r); }
  }

  lemma ReachedIff(c: Config, s: Store, id: Key, r: UpdateReq)
    requires IsBuiltin(c, id) ==> !(PREFIX <= id)
    ensures Reached(c, s, id, r) <==>
            Allowed(c, id, r) && LiveByKey(s.defs, id).Some? && (IsBuiltin(c, id) || id in s.legacy)
  {
    DefaultsAcceptedIff(r.recommended, r.defaults);
  }

  lemma UpdateRefuses(c: Config, s: Store, id: Key, r: UpdateReq)
    requires !Reached(c, s, id, r) && (IsBuiltin(c, id) ==> !(PREFIX <= id))
    ensures UpdateFails(c, s, id, r, Update(c, s, id, r).error) && Update(c, s, id, r).store == s
  {
    DefaultsAcceptedIff(r.recommended, r.defaults);
  }

  lemma UpdateShows(c: Config, s: Store, id: Key, r: UpdateReq)
    requires Inv(s) && (IsBuiltin(c, id) ==> !(PREFIX <= id))
    ensures var d := Update(c, s, id, r);
            && (d.error == None <==> Reached(c, s, id, r))
            && (d.error == None ==> ShowsUpdated(c, s, d.store, id, r))
  {
    if Reached(c, s, id, r) {
      if IsBuiltin(c, id) { BuiltinUpdateShows(c, s, id, r); } else { UserUpdateShows(c, s, id, r); }
    }
  }

  lemma UserUpdateShows(c: Config, s: Store, id: Key, r: UpdateReq)
    requires Inv(s) && Reached(c, s, id, r) && !IsBuiltin(c, id)
    ensures var d := UpdateUser(s, id, r);
            d.error == None && ShowsUpdated(c, s, d.store, id, r)
  {
    var i := LiveByKey(s.defs, id).value;
    UserUpdateStores(s, i, id, r);
    UserUpdateDefaults(s, i, id, r);
    if r.defaults == None { UserUpdateKeepsUnnamedIff(s, i, id, r); }
    if s.defs[i].source == User { UserUpdateFields(s, i, id, r); }
  }

  lemma BuiltinUpdateShows(c: Config, s: Store, id: Key, r: UpdateReq)
    requires Inv(s) && Reached(c, s, id, r) && IsBuiltin(c, id)
    ensures var d := UpdateBuiltin(s, id, r);
            d.error == None && ShowsUpdated(c, s, d.store, id, r)
  {
    var i := LiveByKey(s.defs, id).value;
    assert RowInv(s, i);
    BuiltinUpdateDefaults(s, i, id, r);
    BuiltinUpdateFields(s, i, id, r);
    if r.defaults == None { BuiltinUpdateKeepsUnnamedIff(s, i, id, r); }
  }

  predicate DeleteFails(c: Config, s: Store, id: Key, error: Option<Error>) {
    && (error == None <==> !IsBuiltin(c, id) && id in s.legacy)
    && (error == Some(Forbidden) <==> IsBuiltin(c, id))
    && (error == Some(NotFound) <==> !IsBuiltin(c, id) && id !in s.legacy)
  }

  /** A deleted assistant leaves its marked row and nothing else; whatever belongs to other ids stays. */
  ghost predicate OnlyDeleted(s: Store, t: Store, id: Key) {
    && t.defs.Keys == s.defs.Keys
    && (forall j :: j in s.defs ==>
          if s.defs[j].key == id then t.defs[j] == s.defs[j].(deleted := true)
          else t.defs[j] == s.defs[j] && PreferenceOf(t, j) == PreferenceOf(s, j) && OverlayOf(t, j) == OverlayOf(s, j))
    && (forall j :: LiveAt(s.defs, j) && s.defs[j].key == id ==> j !in t.prefs && j !in t.overlays)
    && t.legacy == s.legacy - {id} && t.overrides == s.overrides - {id}
    && t.profiles == s.profiles && t.snapshots == s.snapshots
  }

  lemma DeleteSparesOthers(c: Config, s: Store, id: Key)
    requires Delete(c, s, id).error == None
    ensures OnlyDeleted(s, Delete(c, s, id).store, id)
  {
    var found := LiveByKey(s.defs, id);
    if found.Some? { DeletedSpares(s, found.value, id); } else { DroppedSpares(s, id); }
  }

  lemma DeletedSpares(s: Store, i: DefId, id: Key)
    requires LiveByKey(s.defs, id) == Some(i)
    ensures OnlyDeleted(s, Deleted(s, i, id), id)
  {
    forall j | j in s.defs && s.defs[j].key == id
      ensures j == i
    {
      assert j != i ==> !Clash(s.defs[j], s.defs[i]);
    }
  }

  lemma DroppedSpares(s: Store, id: Key)
    requires LiveByKey(s.defs, id) == None
    ensures OnlyDeleted(s, Dropped(s, id), id)
  {
    forall j | j in s.defs && s.defs[j].key == id
      ensures s.defs[j].deleted
    {
      assert !LiveAt(s.defs, j);
    }
  }

  lemma DeleteFacts(c: Config, s: Store, id: Key)
    requires Inv(s)
    ensures var d := Delete(c, s, id);
            && Inv(d.store)
            && DeleteFails(c, s, id, d.error)
            && (d.error == None ==>
                  && Tombstone(d.store.defs, id) && LiveByKey(d.store.defs, id) == None && id !in d.store.legacy
                  && OnlyDeleted(s, d.store, id))
            && (d.error != None ==> d.store == s)
  {
    DeleteKeepsInv(c, s, id);
    if Delete(c, s, id).error == None {
      DeleteSparesOthers(c, s, id);
      DeleteLeavesTombstone(c, s, id);
      DeadIsTombstone(Delete(c, s, id).store, id);
    }
  }

  /** Live assistants keep their backend, and all but the one their state. */
  ghost predicate OnlyStateChanged(s: Store, t: Store, id: Key) {
    t.defs == s.defs && forall j :: LiveAt(s.defs, j) ==>
      BackendOf(t, j) == BackendOf(s, j) && (s.defs[j].key != id ==> OverlayOf(t, j) == OverlayOf(s, j))
  }

  /** The state named in the request, and otherwise the one before. */
  ghost predicate ShowsState(s: Store, t: Store, id: Key, r: StateReq) {
    var found := LiveByKey(s.defs, id);
    && found.Some?
    && var before, after := OverlayOf(s, found.value), OverlayOf(t, found.value);
       && after.enabled == UnwrapOr(r.enabled, before.enabled)
       && after.sortOrder == UnwrapOr(r.sortOrder, before.sortOrder)
       && after.lastUsed == Or(r.lastUsed, before.lastUsed)
       && after.backendOverride == before.backendOverride
  }

  lemma StateIsShown(c: Config, s: Store, id: Key, r: StateReq)
    requires Inv(s) && SetState(c, s, id, r).error == None
    ensures ShowsState(s, SetState(c, s, id, r).store, id, r)
  {
    var i := LiveByKey(s.defs, id).value;
    assert RowInv(s, i);
    SetStateOverlays(c, s, i, id, r);
  }

  lemma StateFacts(c: Config, s: Store, id: Key, r: StateReq)
    requires Inv(s) && GoodConfig(c)
    ensures var d := SetState(c, s, id, r);
            && Inv(d.store)
            && (d.error == None <==> (IsBuiltin(c, id) || id in s.legacy) && LiveByKey(s.defs, id).Some?)
            && (d.error != None ==> d == Done(s, Some(NotFound)))
            && OnlyStateChanged(s, d.store, id)
            && (d.error == None ==> ShowsState(s, d.store, id, r))
  {
    if IsBuiltin(c, id) { BuiltinIdsAreGood(c, id); }
    SetStateKeepsInv(c, s, id, r);
    StateShows(c, s, id, r);
    StateOutcome(c, s, id, r);
    if SetState(c, s, id, r).error == None { StateIsShown(c, s, id, r); }
  }

  lemma StateOutcome(c: Config, s: Store, id: Key, r: StateReq)
    ensures var d := SetState(c, s, id, r);
            && (d.error == None <==> (IsBuiltin(c, id) || id in s.legacy) && LiveByKey(s.defs, id).Some?)
            && (d.error != None ==> d == Done(s, Some(NotFound))) && d.store.defs == s.defs
  {
  }

  lemma StateShows(c: Config, s: Store, id: Key, r: StateReq)
    requires Inv(s)
    ensures var d := SetState(c, s, id, r);
            && (d.error == None <==> (IsBuiltin(c, id) || id in s.legacy) && LiveByKey(s.defs, id).Some?)
            && (d.error != None ==> d.store == s)
            && OnlyStateChanged(s, d.store, id)
  {
    var d := SetState(c, s, id, r);
    StateOutcome(c, s, id, r);
    forall j | LiveAt(s.defs, j)
      ensures BackendOf(d.store, j) == BackendOf(s, j)
              && (s.defs[j].key != id ==> OverlayOf(d.store, j) == OverlayOf(s, j))
    {
      StateKeepsBackend(c, s, id, r, j);
    }
  }

  /** Every live assistant resolves the same model, permission and mcps. */
  ghost predicate ResolvesAlike(s: Store, t: Store) {
    forall i :: LiveAt(s.defs, i) ==> LiveAt(t.defs, i) && EffectiveOf(t, i) == EffectiveOf(s, i)
  }

  /**
   Overlays are kept, and a live assistant resolves differently exactly if its row was rewritten and its
   preference had strayed.
   */
  ghost predicate ResolvesUnlessStrayed(s: Store, t: Store) {
    forall i :: LiveAt(s.defs, i) ==>
      && LiveAt(t.defs, i) && OverlayOf(t, i) == OverlayOf(s, i)
      && (EffectiveOf(t, i) == EffectiveOf(s, i) <==> !(Strays(s, i) && t.defs[i] != s.defs[i]))
      && (t.defs[i] != s.defs[i] ==> EffectiveOf(t, i) == PreferredOf(s, i))
  }

  /** Every shipped assistant and every one of the legacy table has its row. */
  ghost predicate ShowsBootstrapped(c: Config, s: Store, t: Store, users: seq<Key>) {
    && (forall n: nat :: LastOfItsId(c.builtins, n) ==> Shows(t, c.builtins[n]))
    && (forall k :: k in users && Migrates(c, s, k) ==> ShowsLegacy(t, k, s.legacy[k]))
  }

  lemma BootstrapFacts(c: Config, s: Store, users: seq<Key>, rows: seq<DefId>)
    requires Inv(s) && GoodConfig(c)
    ensures var d := Bootstrap(c, s, users, rows);
            && Inv(d.store) && ResolvesUnlessStrayed(s, d.store)
            && (d.error == None <==> NoneBlocked(s, Ids(c.builtins)) && NoneBlocked(s, Migrating(c, s, users)))
            && (d.error == None ==> ShowsBootstrapped(c, s, d.store, users))
  {
    BootstrapKeepsEffectiveDefaults(c, s, users, rows);
    BootstrapSucceedsIff(c, s, users, rows);
    if Bootstrap(c, s, users, rows).error == None { BootstrappedShows(c, s, users, rows); }
  }

  lemma BootstrappedShows(c: Config, s: Store, users: seq<Key>, rows: seq<DefId>)
    requires Inv(s) && GoodConfig(c) && Bootstrap(c, s, users, rows).error == None
    ensures ShowsBootstrapped(c, s, Bootstrap(c, s, users, rows).store, users)
  {
    forall n: nat | LastOfItsId(c.builtins, n)
      ensures Shows(Bootstrap(c, s, users, rows).store, c.builtins[n])
    {
      ShippedRows(c, s, users, rows, n);
    }
    forall k | k in users && Migrates(c, s, k)
      ensures ShowsLegacy(Bootstrap(c, s, users, rows).store, k, s.legacy[k])
    {
      MigratedRows(c, s, users, rows, k);
    }
  }

  /** Open defaults of the assistant follow the choice; fixed ones, and other assistants, resolve as before. */
  ghost predicate ShowsStarted(s: Store, t: Store, cid: ConversationId, key: Key, ch: Chosen) {
    && t.defs == s.defs && NoNewStrays(s, t) && (LiveByKey(s.defs, key).None? ==> t == s)
    && (forall i :: LiveAt(s.defs, i) ==> StartShown(s, t, cid, key, ch, i))
    && forall i :: LiveAt(s.defs, i) ==>
         EffectiveOf(t, i) == if s.defs[i].key == key then Follows(s.defs[i], EffectiveOf(s, i), ch)
             else EffectiveOf(s, i)
  }

  lemma StartFacts(s: Store, cid: ConversationId, key: Key, ch: Chosen)
    requires Inv(s)
    ensures var t := StartConversation(s, cid, key, ch);
            Inv(t) && ShowsStarted(s, t, cid, key, ch)
  {
    StartKeepsInv(s, cid, key, ch);
    forall i | LiveAt(s.defs, i)
      ensures EffectiveOf(StartConversation(s, cid, key, ch), i)
           == if s.defs[i].key == key then Follows(s.defs[i], EffectiveOf(s, i), ch) else EffectiveOf(s, i)
    {
      StartResolves(s, cid, key, ch, i);
    }
    forall i | LiveAt(s.defs, i)
      ensures StartShown(s, StartConversation(s, cid, key, ch), cid, key, ch, i)
    {
      StartRemembers(s, cid, key, ch, i);
    }
  }

  /** No row changes, and a preference strays anew exactly where the choice overtakes a default fixed since. */
  ghost predicate ShowsChosen(
      s: Store, t: Store, cid: ConversationId, model: Option<string>, permission: Option<string>) {
    && t.defs == s.defs
    && (forall i :: !Strays(s, i) ==> (Strays(t, i) <==> Overtakes(s, cid, model, permission, i)))
    && (forall i :: i in s.defs ==> ChoiceShown(s, t, cid, model, permission, i))
  }

  lemma ChooseFacts(s: Store, cid: ConversationId, model: Option<string>, permission: Option<string>)
    requires Inv(s)
    ensures var t := ChooseInConversation(s, cid, model, permission);
            Inv(t) && ShowsChosen(s, t, cid, model, permission)
  {
    ChooseKeepsInv(s, cid, model, permission);
    forall i | !Strays(s, i)
      ensures Strays(ChooseInConversation(s, cid, model, permission), i) <==> Overtakes(s, cid, model, permission, i)
    {
      ChooseStraysIff(s, cid, model, permission, i);
    }
    forall i | i in s.defs
      ensures ChoiceShown(s, ChooseInConversation(s, cid, model, permission), cid, model, permission, i)
    {
      ChooseRemembers(s, cid, model, permission, i);
    }
  }
}
