/**
 The service as it runs: an object whose methods write the tables one after the other.  Each
 method is tied to its function on the tables, about which everything else is proved.
 */
module AssistantTablesInPlace {
  import opened Prelude
  import opened Text
  import opened AssistantTables
  import opened AssistantService
  import opened ProfileCompiler
  import opened AssistantInvariants
  import opened AssistantUpdates
  import opened AssistantBootstrap
  import opened AssistantConversation
  import opened StorageHistory
  import opened ProfileLaws
  import opened OperationFacts
  import opened ProfileFacts

  class Assistants {
    var defs: Defs
    var overlays: map<DefId, Overlay>
    var prefs: map<DefId, Preference>
    var legacy: map<Key, Legacy>
    var overrides: map<Key, Overlay>
    var profiles: map<ProfileId, Profile>
    var nextDef: DefId
    var nextProfile: ProfileId
    var snapshots: map<ConversationId, Snapshot>

    function Tables(): Store
      reads this
    {
      Store(defs, overlays, prefs, legacy, overrides, profiles, nextDef, nextProfile, snapshots)
    }

    /** The tables agree with each other. */
    ghost predicate Valid()
      reads this
    {
      Inv(Tables())
    }

    constructor ()
      ensures Valid() && Tables() == EMPTY
    {
      defs, overlays, prefs, legacy, overrides, profiles := map[], map[], map[], map[], map[], map[];
      nextDef, nextProfile, snapshots := 0, 0, map[];
    }

    // -------------------------------------------------------------------------------------
    // Definitions
    // -------------------------------------------------------------------------------------

    method StoreDefinition(i: DefId, d: Definition) returns (error: Option<Error>)
      modifies this
      ensures Done(Tables(), error) == WriteDefinition(old(Tables()), i, d)
    {
      match Upsert(defs, i, d) {
        case Err(e) => return Some(e);
        case Ok(written) =>
          defs := written;
          nextDef := if i < nextDef then nextDef else i + 1;
          return None;
      }
    }

    method StoreUserDefinition(id: Key, row: Legacy) returns (error: Option<Error>)
      modifies this
      ensures Done(Tables(), error) == WriteUser(old(Tables()), id, row)
    {
      var (i, key) := ResolveIdentity(Tables(), User, id);
      error := StoreDefinition(i, UserDefinition(id, key, row));
    }

    method StoreBuiltinDefinition(b: BuiltinAssistant) returns (error: Option<Error>)
      modifies this
      ensures Done(Tables(), error) == WriteBuiltin(old(Tables()), b)
    {
      var (i, key) := ResolveIdentity(Tables(), Builtin, b.id);
      error := StoreDefinition(i, BuiltinDefinition(b, key));
    }

    method RebuildLegacyMirror(i: DefId)
      requires i in defs
      modifies this
      ensures Tables() == Mirror(old(Tables()), i)
    {
      var d, o := defs[i], OverlayOf(Tables(), i);
      legacy := MirroredLegacy(legacy, d);
      overrides := overrides[d.key := o];
    }

    method ApplyDetailOverrides(key: Key, o: Overrides, reset: bool) returns (error: Option<Error>)
      modifies this
      ensures Done(Tables(), error) == ApplyOverrides(old(Tables()), key, o, reset)
    {
      if o == NO_OVERRIDES && !reset {
        return None;
      }
      var found := LiveByKey(defs, key);
      if found.None? {
        return None;
      }
      error := StoreDefinition(found.value, Patched(defs[found.value], o, reset));
      if error.None? {
        RebuildLegacyMirror(found.value);
      }
    }

    // -------------------------------------------------------------------------------------
    // Preferences
    // -------------------------------------------------------------------------------------

    /** A missing row is read as empty, and an empty one is not stored. */
    method SyncPreferencesFromDefaults(
        i: DefId, previous: Option<Definition>, defaults: Option<DefaultsReq>) returns (error: Option<Error>)
      modifies this`prefs
      ensures Done(Tables(), error) == SyncPreferences(old(Tables()), i, previous, defaults)
    {
      if defaults.None? {
        return None;
      }
      var synced := SyncFields(PreferenceOf(Tables(), i), previous, defaults.value);
      if synced.Err? {
        return Some(synced.error);
      }
      var p := synced.value;
      if p.model == None && p.permission == None && p.skills == [] && p.disabledSkills == [] && p.mcps == [] {
        prefs := prefs - {i};
      } else {
        prefs := prefs[i := p];
      }
      return None;
    }

    // -------------------------------------------------------------------------------------
    // The operations, step by step
    // -------------------------------------------------------------------------------------

    method FinishStoring(
        id: Key, o: Overrides, reset: bool, previous: Option<Definition>, defaults: Option<DefaultsReq>)
        returns (error: Option<Error>)
      modifies this
      ensures Done(Tables(), error) == FinishWrite(old(Tables()), id, o, reset, previous, defaults)
    {
      error := ApplyDetailOverrides(id, o, reset);
      if error.Some? {
        return;
      }
      var found := LiveByKey(defs, id);
      if found.Some? {
        error := SyncPreferencesFromDefaults(found.value, previous, defaults);
        if error.Some? {
          return;
        }
      }
      return if LiveByKey(defs, id).Some? then None else Some(NotFound);
    }

    method CreateRows(c: Config, id: Key, r: CreateReq, providerEnabled: bool) returns (error: Option<Error>)
      modifies this
      ensures Done(Tables(), error) == Create(c, old(Tables()), id, r, providerEnabled)
    {
      if Blank(r.name) || IsBuiltin(c, id) {
        return Some(BadRequest);
      }
      var o := FromParts(r.recommended, r.defaults);
      if o.Err? {
        return Some(o.error);
      }
      var backend := BackendFor(r.backend, providerEnabled);
      if backend.Err? {
        return Some(backend.error);
      }
      if id in legacy {
        return Some(Conflict);
      }
      var row := NewLegacyRow(r, backend.value);
      legacy := legacy[id := row];
      error := StoreUserDefinition(id, row);
      if error.Some? {
        return;
      }
      error := FinishStoring(id, o.value, false, None, r.defaults);
    }

    method UpdateUserRows(id: Key, r: UpdateReq) returns (error: Option<Error>)
      modifies this
      ensures Done(Tables(), error) == UpdateUser(old(Tables()), id, r)
    {
      var o := FromParts(r.recommended, r.defaults);
      if o.Err? {
        return Some(o.error);
      }
      var found := LiveByKey(defs, id);
      if found.None? {
        return Some(NotFound);
      }
      var current := defs[found.value];
      var reset := r.backend.Some? && r.backend.value != current.backend;
      if id !in legacy {
        return Some(NotFound);
      }
      var row := MergedLegacyRow(legacy[id], r);
      legacy := legacy[id := row];
      error := StoreUserDefinition(id, row);
      if error.Some? {
        return;
      }
      error := FinishStoring(id, o.value, reset, Some(current), r.defaults);
    }

    method UpdateBuiltinRows(id: Key, r: UpdateReq) returns (error: Option<Error>)
      modifies this
      ensures Done(Tables(), error) == UpdateBuiltin(old(Tables()), id, r)
    {
      var o := FromParts(r.recommended, r.defaults);
      if o.Err? {
        return Some(o.error);
      }
      if TouchesBuiltin(r) {
        return Some(Forbidden);
      }
      if r.backend.None? {
        return Some(BadRequest);
      }
      var found := LiveByKey(defs, id);
      if found.None? {
        return Some(NotFound);
      }
      var i := found.value;
      var existing := if id in overrides then overrides[id] else DEFAULT_OVERLAY;
      var reset := BackendOf(Tables(), i) != r.backend.value;
      overlays := overlays[i := existing.(backendOverride := r.backend)];
      error := ApplyDetailOverrides(id, o.value, reset);
      if error.Some? {
        return;
      }
      var again := LiveByKey(defs, id);
      if again.None? {
        return Some(NotFound);
      }
      error := SyncPreferencesFromDefaults(again.value, Some(defs[again.value]), r.defaults);
      if error.Some? {
        return;
      }
      RebuildLegacyMirror(again.value);
      return if LiveByKey(defs, id).Some? then None else Some(NotFound);
    }

    method UpdateRows(c: Config, id: Key, r: UpdateReq) returns (error: Option<Error>)
      modifies this
      ensures Done(Tables(), error) == Update(c, old(Tables()), id, r)
    {
      if IsBuiltin(c, id) {
        error := UpdateBuiltinRows(id, r);
      } else {
        error := UpdateUserRows(id, r);
      }
    }

    method DeleteRows(c: Config, id: Key) returns (error: Option<Error>)
      modifies this
      ensures Done(Tables(), error) == Delete(c, old(Tables()), id)
    {
      if IsBuiltin(c, id) {
        return Some(Forbidden);
      }
      if id !in legacy {
        return Some(NotFound);
      }
      legacy := legacy - {id};
      overrides := overrides - {id};
      var found := LiveByKey(defs, id);
      if found.Some? {
        overlays := overlays - {found.value};
        prefs := prefs - {found.value};
        defs := SoftDelete(defs, found.value);
      }
      return None;
    }

    method StateRows(c: Config, id: Key, r: StateReq) returns (error: Option<Error>)
      modifies this
      ensures Done(Tables(), error) == SetState(c, old(Tables()), id, r)
    {
      if !IsBuiltin(c, id) && id !in legacy {
        return Some(NotFound);
      }
      var found := LiveByKey(defs, id);
      if found.None? {
        return Some(NotFound);
      }
      overlays := overlays[found.value := MergedOverlay(Tables(), found.value, id, r)];
      RebuildLegacyMirror(found.value);
      return if LiveByKey(defs, id).Some? then None else Some(NotFound);
    }

    // -------------------------------------------------------------------------------------
    // Bootstrap
    // -------------------------------------------------------------------------------------

    method StoreBuiltins(c: Config) returns (error: Option<Error>)
      modifies this
      ensures Done(Tables(), error) == WriteBuiltins(old(Tables()), c.builtins)
    {
      var n := 0;
      while n < |c.builtins|
        invariant 0 <= n <= |c.builtins|
        invariant WriteBuiltins(Tables(), c.builtins[n..]) == WriteBuiltins(old(Tables()), c.builtins)
      {
        assert c.builtins[n..][1..] == c.builtins[n + 1..];
        error := StoreBuiltinDefinition(c.builtins[n]);
        if error.Some? {
          return;
        }
        n := n + 1;
      }
      return None;
    }

    method StoreLegacyUsers(c: Config, order: seq<Key>) returns (error: Option<Error>)
      modifies this
      ensures Done(Tables(), error) == WriteLegacyUsers(c, old(Tables()), order)
    {
      var n := 0;
      while n < |order|
        invariant 0 <= n <= |order|
        invariant WriteLegacyUsers(c, Tables(), order[n..]) == WriteLegacyUsers(c, old(Tables()), order)
      {
        assert order[n..][1..] == order[n + 1..];
        var id := order[n];
        n := n + 1;
        if IsBuiltin(c, id) || id !in legacy {
          continue;
        }
        error := StoreUserDefinition(id, legacy[id]);
        if error.Some? {
          return;
        }
      }
      return None;
    }

    /** The overrides come in any order; those without a live definition are skipped. */
    method CopyLegacyOverrides()
      modifies this`overlays
      ensures Tables() == CopyOverrides(old(Tables()))
    {
      ghost var before := Tables();
      var rest := overrides.Keys;
      NoneCopied(before);
      while rest != {}
        invariant rest <= overrides.Keys
        invariant overlays == CopiedBut(before, rest)
        decreases |rest|
      {
        var k :| k in rest;
        CopyOne(before, rest, k);
        rest := rest - {k};
        var found := LiveByKey(defs, k);
        if found.Some? {
          overlays := overlays[found.value := overrides[k]];
        }
      }
      AllCopied(before);
    }

    method DropOrphanedOverrides()
      modifies this`overrides
      ensures Tables() == List(old(Tables()))
    {
      var rest := overrides.Keys;
      while rest != {}
        invariant rest <= old(overrides).Keys
        invariant forall k :: k in overrides <==> k in old(overrides) && (k in rest || LiveByKey(defs, k).Some?)
        invariant forall k :: k in overrides ==> overrides[k] == old(overrides)[k]
        decreases |rest|
      {
        var k :| k in rest;
        rest := rest - {k};
        if LiveByKey(defs, k).None? {
          overrides := overrides - {k};
        }
      }
      assert overrides == List(old(Tables())).overrides;
    }

    method MirrorRows(rows: seq<DefId>)
      modifies this
      ensures Tables() == MirrorEach(old(Tables()), rows)
    {
      var n := 0;
      while n < |rows|
        invariant 0 <= n <= |rows|
        invariant MirrorEach(Tables(), rows[n..]) == MirrorEach(old(Tables()), rows)
      {
        assert rows[n..][1..] == rows[n + 1..];
        if LiveAt(defs, rows[n]) {
          RebuildLegacyMirror(rows[n]);
        }
        n := n + 1;
      }
    }

    method BootstrapRows(c: Config, users: seq<Key>, rows: seq<DefId>) returns (error: Option<Error>)
      modifies this
      ensures Done(Tables(), error) == Bootstrap(c, old(Tables()), users, rows)
    {
      error := StoreBuiltins(c);
      if error.Some? {
        return;
      }
      error := StoreLegacyUsers(c, users);
      if error.Some? {
        return;
      }
      CopyLegacyOverrides();
      MirrorRows(rows);
    }

    // -------------------------------------------------------------------------------------
    // Profiles
    // -------------------------------------------------------------------------------------

    method MaterializeRows(pid: ProfileId, p: Profile) returns (outcome: Result<Outcome, Error>)
      modifies this
      ensures (Tables(), outcome) == Materialize(old(Tables()), pid, p)
      ensures CompiledAs(old(Tables()), Tables(), pid, p, outcome)
    {
      CompileOutcomes(Tables(), pid, p);
      var existing := Existing(Tables(), pid);
      if !p.active {
        outcome := RetireDefinition(existing);
        return;
      }
      if !ValidBody(p.body) {
        return Err(BadRequest);
      }
      if "copilot" !in p.body.engines {
        outcome := RetireDefinition(existing);
        return;
      }
      var want := Desired(pid, p);
      if existing.Some? && Matches(want, defs[existing.value]) {
        return Ok(Unchanged);
      }
      var error := StoreDefinition(UnwrapOr(existing, nextDef), want);
      return if error.Some? then Err(error.value) else if existing.Some? then Ok(Updated) else Ok(Created);
    }

    method RetireDefinition(existing: Option<DefId>) returns (outcome: Result<Outcome, Error>)
      modifies this
      ensures (Tables(), outcome) == RetireIfPresent(old(Tables()), existing)
    {
      if existing.None? {
        return Ok(NotApplicable);
      }
      defs := SoftDelete(defs, existing.value);
      return Ok(Retired);
    }

    // -------------------------------------------------------------------------------------
    // The operations, as their callers see them
    // -------------------------------------------------------------------------------------

    /** Succeeds exactly for a well-made request on an unused id that was never deleted. */
    method CreateAssistant(c: Config, id: Key, r: CreateReq, providerEnabled: bool) returns (error: Option<Error>)
      requires Valid()
      modifies this
      ensures Valid() && Done(Tables(), error) == Create(c, old(Tables()), id, r, providerEnabled)
      ensures CreateFails(c, old(Tables()), id, r, providerEnabled, error)
      ensures error == None ==> ShowsCreated(old(Tables()), Tables(), id, r)
    {
      CreateFacts(c, Tables(), id, r, providerEnabled);
      error := CreateRows(c, id, r, providerEnabled);
    }

    /**
     Succeeds exactly for requests that reach their assistant, which then resolves what it did, but
     for what was asked.
     */
    method UpdateAssistant(c: Config, id: Key, r: UpdateReq) returns (error: Option<Error>)
      requires Valid() && GoodConfig(c)
      modifies this
      ensures Valid() && Done(Tables(), error) == Update(c, old(Tables()), id, r)
      ensures UpdateFails(c, old(Tables()), id, r, error)
      ensures error == None ==> ShowsUpdated(c, old(Tables()), Tables(), id, r)
      ensures error != None ==> Tables() == old(Tables())
    {
      UpdateFacts(c, Tables(), id, r);
      error := UpdateRows(c, id, r);
    }

    /** Succeeds exactly for user assistants with a legacy row; the id is lost for ever. */
    method DeleteAssistant(c: Config, id: Key) returns (error: Option<Error>)
      requires Valid()
      modifies this
      ensures Valid() && Done(Tables(), error) == Delete(c, old(Tables()), id)
      ensures DeleteFails(c, old(Tables()), id, error)
      ensures error == None ==> Tombstone(defs, id) && LiveByKey(defs, id) == None && id !in legacy
      ensures error == None ==> OnlyDeleted(old(Tables()), Tables(), id)
      ensures error != None ==> Tables() == old(Tables())
    {
      DeleteFacts(c, Tables(), id);
      error := DeleteRows(c, id);
    }

    /** Succeeds exactly for assistants that exist; only the state of that one changes, and never its backend. */
    method SetAssistantState(c: Config, id: Key, r: StateReq) returns (error: Option<Error>)
      requires Valid() && GoodConfig(c)
      modifies this
      ensures Valid() && Done(Tables(), error) == SetState(c, old(Tables()), id, r)
      ensures error == None <==> (IsBuiltin(c, id) || id in old(legacy)) && LiveByKey(old(defs), id).Some?
      ensures error != None ==> error == Some(NotFound) && Tables() == old(Tables())
      ensures defs == old(defs) && OnlyStateChanged(old(Tables()), Tables(), id)
      ensures error == None ==> ShowsState(old(Tables()), Tables(), id, r)
    {
      StateFacts(c, Tables(), id, r);
      error := StateRows(c, id, r);
    }

    /**
     Succeeds exactly if no key to be written is blocked, and then shows what is shipped and what was in the
     legacy table.  In any case only strayed assistants resolve differently.
     */
    method BootstrapStorage(c: Config, users: seq<Key>, rows: seq<DefId>) returns (error: Option<Error>)
      requires Valid() && GoodConfig(c)
      modifies this
      ensures Valid() && Done(Tables(), error) == Bootstrap(c, old(Tables()), users, rows)
      ensures error == None <==>
              NoneBlocked(old(Tables()), Ids(c.builtins))
              && NoneBlocked(old(Tables()), Migrating(c, old(Tables()), users))
      ensures ResolvesUnlessStrayed(old(Tables()), Tables())
      ensures error == None ==> ShowsBootstrapped(c, old(Tables()), Tables(), users)
    {
      BootstrapFacts(c, Tables(), users, rows);
      error := BootstrapRows(c, users, rows);
    }

    /** Drops the overrides of assistants that are gone; nothing a live assistant shows depends on them. */
    method ListAssistants()
      requires Valid()
      modifies this`overrides
      ensures Valid() && Tables() == List(old(Tables())) && ResolvesAlike(old(Tables()), Tables())
      ensures forall k :: k in overrides <==> k in old(overrides) && exists i :: LiveAt(defs, i) && defs[i].key == k
      ensures forall k :: k in overrides ==> overrides[k] == old(overrides)[k]
    {
      ListKeepsInv(Tables());
      DropOrphanedOverrides();
    }

    /** A new conversation remembers its choices where the assistant leaves them open. */
    method RememberConversation(cid: ConversationId, key: Key, ch: Chosen)
      requires Valid()
      modifies this`prefs, this`snapshots
      ensures Valid() && Tables() == StartConversation(old(Tables()), cid, key, ch)
      ensures ShowsStarted(old(Tables()), Tables(), cid, key, ch)
    {
      StartFacts(Tables(), cid, key, ch);
      RecordConversation(cid, key, ch);
    }

    method RecordConversation(cid: ConversationId, key: Key, ch: Chosen)
      modifies this`prefs, this`snapshots
      ensures Tables() == StartConversation(old(Tables()), cid, key, ch)
    {
      var found := LiveByKey(defs, key);
      if found.Some? {
        var d := defs[found.value];
        prefs := prefs[found.value := Remembered(d, PreferenceOf(Tables(), found.value), ch)];
        snapshots := snapshots[cid := Snapshot(found.value, d.model.mode, d.permission.mode)];
      }
    }

    /** A running conversation chooses a model or a permission. */
    method ChooseForConversation(cid: ConversationId, model: Option<string>, permission: Option<string>)
      requires Valid()
      modifies this`prefs
      ensures Valid() && Tables() == ChooseInConversation(old(Tables()), cid, model, permission)
      ensures ShowsChosen(old(Tables()), Tables(), cid, model, permission)
    {
      ChooseFacts(Tables(), cid, model, permission);
      RecordChoice(cid, model, permission);
    }

    method RecordChoice(cid: ConversationId, model: Option<string>, permission: Option<string>)
      modifies this`prefs
      ensures Tables() == ChooseInConversation(old(Tables()), cid, model, permission)
    {
      if cid in snapshots && snapshots[cid].definition in defs {
        var n := snapshots[cid];
        prefs := prefs[n.definition := Rechosen(PreferenceOf(Tables(), n.definition), n, model, permission)];
      }
    }

    // -------------------------------------------------------------------------------------
    // Profiles: stored first, then compiled; a failing compilation is not reported
    // -------------------------------------------------------------------------------------

    method StoreProfile(pid: ProfileId, p: Profile)
      modifies this
      ensures Tables() == Materialize(old(Tables()).(profiles := old(profiles)[pid := p]), pid, p).0
    {
      profiles := profiles[pid := p];
      var outcome := MaterializeRows(pid, p);
    }

    method AddProfile(name: string, title: string, body: ProfileBody) returns (error: Option<Error>)
      requires Valid()
      modifies this
      ensures Valid() && Done(Tables(), error) == CreateProfile(old(Tables()), name, title, body)
      ensures AddFails(old(Tables()), name, title, body, error)
      ensures error == None ==> AddedProfile(old(Tables()), Tables(), name, title, body)
    {
      AddProfileFacts(Tables(), name, title, body);
      error := AddProfileRows(name, title, body);
    }

    method AddProfileRows(name: string, title: string, body: ProfileBody) returns (error: Option<Error>)
      modifies this
      ensures Done(Tables(), error) == CreateProfile(old(Tables()), name, title, body)
    {
      if Blank(name) || Blank(title) || !ValidBody(body) {
        return Some(BadRequest);
      }
      if NameTaken(Tables(), Trim(name)) {
        return Some(Conflict);
      }
      AddCompiled(Profile(Trim(name), Trim(title), true, body));
      return None;
    }

    method AddCompiled(p: Profile)
      modifies this
      ensures Tables() == Materialize(WithNewProfile(old(Tables()), p), old(nextProfile), p).0
    {
      var pid := nextProfile;
      profiles, nextProfile := profiles[pid := p], pid + 1;
      assert Tables() == WithNewProfile(old(Tables()), p);
      var outcome := MaterializeRows(pid, p);
    }

    method EditProfile(
        pid: ProfileId, title: Option<string>, body: Option<ProfileBody>, active: Option<bool>)
        returns (error: Option<Error>)
      requires Valid()
      modifies this
      ensures Valid() && Done(Tables(), error) == UpdateProfile(old(Tables()), pid, title, body, active)
      ensures EditFails(old(Tables()), pid, title, body, error)
      ensures error == None ==> EditedProfile(old(Tables()), Tables(), pid, title, body, active)
      ensures error != None ==> Tables() == old(Tables())
    {
      EditProfileFacts(Tables(), pid, title, body, active);
      if pid !in profiles {
        return Some(NotFound);
      }
      if (body.Some? && !ValidBody(body.value)) || (title.Some? && Blank(title.value)) {
        return Some(BadRequest);
      }
      StoreProfile(pid, ProfileAfter(profiles[pid], title, body, active));
      return None;
    }

    method RemoveProfile(pid: ProfileId) returns (error: Option<Error>)
      requires Valid()
      modifies this
      ensures Valid() && Done(Tables(), error) == DeleteProfile(old(Tables()), pid)
      ensures error == if pid in old(profiles) then None else Some(NotFound)
      ensures profiles == old(profiles) - {pid} && Existing(Tables(), pid) == None
    {
      RemoveProfileFacts(Tables(), pid);
      if pid !in profiles {
        return Some(NotFound);
      }
      var p := profiles[pid].(active := false);
      profiles := profiles - {pid};
      var outcome := MaterializeRows(pid, p);
      return None;
    }
  }

  /** The overlays when the overrides of `rest` are still to be copied. */
  function CopiedBut(s: Store, rest: set<Key>): map<DefId, Overlay> {
    map i | i in s.overlays.Keys + s.defs.Keys && (i in s.overlays || (HasOverride(s, i) && s.defs[i].key !in rest)) ::
      if HasOverride(s, i) && s.defs[i].key !in rest then s.overrides[s.defs[i].key] else s.overlays[i]
  }

  lemma NoneCopied(s: Store)
    ensures CopiedBut(s, s.overrides.Keys) == s.overlays
  {
  }

  lemma AllCopied(s: Store)
    ensures CopyOverrides(s) == s.(overlays := CopiedBut(s, {}))
  {
  }

  lemma CopyOne(s: Store, rest: set<Key>, k: Key)
    requires k in rest && k in s.overrides
    ensures var found := LiveByKey(s.defs, k);
            CopiedBut(s, rest - {k}) ==
            if found.Some? then CopiedBut(s, rest)[found.value := s.overrides[k]] else CopiedBut(s, rest)
  {
    forall i | HasOverride(s, i)
      ensures s.defs[i].key == k <==> LiveByKey(s.defs, k) == Some(i)
    {
    }
  }

  /** Updates the fields of the last preference one by one. */
  method SyncFields(
      existing: Preference, previous: Option<Definition>, r: DefaultsReq) returns (synced: Result<Preference, Error>)
    ensures synced == SyncedPreference(existing, previous, r)
  {
    ghost var modes := PreviousModes(previous);
    var model, permission := existing.model, existing.permission;
    var skills, disabled, mcps := existing.skills, existing.disabledSkills, existing.mcps;
    if r.model.Some? {
      if r.model.value.mode == "fixed" {
        model := NonBlank(r.model.value.value);
      } else if r.model.value.mode == "auto" {
        if previous.Some? && previous.value.model.mode == Fixed { model := None; }
      } else {
        return Err(BadRequest);
      }
    }
    assert SyncedScalar(existing.model, modes.0, r.model) == Ok(model);
    if r.permission.Some? {
      if r.permission.value.mode == "fixed" {
        permission := NonBlank(r.permission.value.value);
      } else if r.permission.value.mode == "auto" {
        if previous.Some? && previous.value.permission.mode == Fixed { permission := None; }
      } else {
        return Err(BadRequest);
      }
    }
    assert SyncedScalar(existing.permission, modes.1, r.permission) == Ok(permission);
    if r.skills.Some? {
      if r.skills.value.mode == "fixed" {
        skills, disabled := r.skills.value.value, [];
      } else if r.skills.value.mode == "auto" {
        if previous.Some? && previous.value.skills.mode == Fixed { skills, disabled := [], []; }
      } else {
        return Err(BadRequest);
      }
    }
    assert SyncedList(existing.skills, modes.2, r.skills) == Ok(skills);
    assert SyncedDisabled(existing.disabledSkills, modes.2, r.skills) == disabled;
    if r.mcps.Some? {
      if r.mcps.value.mode == "fixed" {
        mcps := r.mcps.value.value;
      } else if r.mcps.value.mode == "auto" {
        if previous.Some? && previous.value.mcps.mode == Fixed { mcps := []; }
      } else {
        return Err(BadRequest);
      }
    }
    assert SyncedList(existing.mcps, modes.3, r.mcps) == Ok(mcps);
    var p := Preference(model, permission, skills, disabled, mcps);
    assert SyncedPreference(existing, previous, r) == Ok(p);
    return Ok(p);
  }

  /** The modes of the model, permission, skills and mcps defaults before a write. */
  function PreviousModes(d: Option<Definition>): (Option<Mode>, Option<Mode>, Option<Mode>, Option<Mode>) {
    if d.None? then (None, None, None, None)
    else (Some(d.value.model.mode), Some(d.value.permission.mode), Some(d.value.skills.mode), Some(d.value.mcps.mode))
  }
}
