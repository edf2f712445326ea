/** Generated assistants over whole histories: which profiles have one, and what can become of it. */
module ProfileLaws {
  import opened Prelude
  import opened Text
  import opened AssistantTables
  import opened AssistantService
  import opened ProfileCompiler
  import opened AssistantInvariants
  import opened AssistantRuns
  import opened AssistantBootstrap
  import opened ProfileRuns
  import opened AssistantImport
  import opened AssistantUpdates
  import opened StorageHistory
  import opened StorageLaws

  // ---------------------------------------------------------------------------------------
  // The compiler
  // ---------------------------------------------------------------------------------------

  /** Compiling the same profile again writes nothing, whatever the first compilation did. */
  lemma CompilingAgainWritesNothing(s: Store, pid: ProfileId, p: Profile)
    ensures var (t, outcome) := Materialize(s, pid, p);
            && Materialize(t, pid, p).0 == t
            && (outcome == Ok(Created) || outcome == Ok(Updated) ==> Materialize(t, pid, p).1 == Ok(Unchanged))
            && (outcome == Ok(Retired) ==> Materialize(t, pid, p).1 == Ok(NotApplicable))
            && (outcome.Err? ==> t == s)
  {
    var (t, outcome) := Materialize(s, pid, p);
    var found := Existing(s, pid);
    if outcome == Ok(Created) || outcome == Ok(Updated) {
      var i := UnwrapOr(found, s.nextDef);
      assert t.defs[i] == Desired(pid, p);
      assert LiveAt(t.defs, i);
      assert Existing(t, pid) == Some(i);
    } else if outcome == Ok(Retired) {
      NoneAfterRetiring(s, pid);
    }
  }

  lemma NoneAfterRetiring(s: Store, pid: ProfileId)
    requires Existing(s, pid).Some?
    ensures Existing(s.(defs := SoftDelete(s.defs, Existing(s, pid).value)), pid) == None
  {
    var i := Existing(s, pid).value;
    var t := s.(defs := SoftDelete(s.defs, i));
    assert forall j :: LiveAt(t.defs, j) ==> LiveAt(s.defs, j) && j != i && t.defs[j] == s.defs[j];
  }

  /** What the compiler compares: all of it comes from the profile, or is the same for every profile. */
  predicate CompiledFrom(d: Definition, p: Profile) {
    && d.key == "profile:" + p.name && d.owner == System
    && d.name == p.title && d.description == Some(p.title)
    && d.backend == "aionrs" && d.rule == Inline(p.body.soul)
    && d.model == Scalar(Fixed, Some(p.body.primaryModel))
    && d.skills == ListDefault(Fixed, p.body.skills) && d.mcps == ListDefault(Fixed, p.body.mcps)
  }

  /** A generated row as it is written. */
  predicate GeneratedFrom(d: Definition, p: Profile) {
    CompiledFrom(d, p) && d.prompts == [] && d.permission == Scalar(Auto, None)
  }

  /** Why a profile is not compiled, and what it is compiled to. */
  ghost predicate CompiledAs(s: Store, t: Store, pid: ProfileId, p: Profile, outcome: Result<Outcome, Error>) {
    var before, after := Existing(s, pid), Existing(t, pid);
    && (outcome == Err(BadRequest) <==> p.active && !ValidBody(p.body))
    && (outcome in [Ok(Retired), Ok(NotApplicable)] <==>
        !p.active || (ValidBody(p.body) && "copilot" !in p.body.engines))
    && (outcome == Ok(Retired) ==> before.Some? && after.None?) && (outcome == Ok(NotApplicable) ==> before.None?)
    && (outcome == Ok(Unchanged) <==>
        p.active && ValidBody(p.body) && "copilot" in p.body.engines
        && before.Some? && CompiledFrom(s.defs[before.value], p))
    && (outcome == Ok(Updated) ==> after == before)
    && (outcome in [Ok(Created), Ok(Updated)] ==> after.Some? && GeneratedFrom(t.defs[after.value], p))
    && (outcome == Ok(Created) ==> before.None?)
    && (outcome.Err? || outcome in [Ok(Unchanged), Ok(NotApplicable)] ==> t == s)
  }

  /** The compiler by its outcomes; it needs nothing of the tables. */
  lemma CompileOutcomes(s: Store, pid: ProfileId, p: Profile)
    ensures CompiledAs(s, Materialize(s, pid, p).0, pid, p, Materialize(s, pid, p).1)
  {
    var (t, outcome) := Materialize(s, pid, p);
    var before := Existing(s, pid);
    if before.Some? {
      ComparesAllFields(s, pid, p);
      NoneAfterRetiring(s, pid);
    }
    if outcome == Ok(Created) || outcome == Ok(Updated) {
      assert LiveAt(t.defs, UnwrapOr(before, s.nextDef));
    }
  }

  lemma ComparesAllFields(s: Store, pid: ProfileId, p: Profile)
    requires Existing(s, pid).Some?
    ensures Matches(Desired(pid, p), s.defs[Existing(s, pid).value])
         <==> CompiledFrom(s.defs[Existing(s, pid).value], p)
  {
    assert KeyFor(p.name) == "profile:" + p.name;
  }

  /** A stored profile has the engines and the model the schema asks for, in every history. */
  lemma StoredProfilesAreValid(h: History, pid: ProfileId)
    requires GoodHistory(h)
    ensures var s := Run(EMPTY, h);
            pid in s.profiles ==>
              && s.profiles[pid].body.engines != [] && Trim(s.profiles[pid].body.primaryModel) != ""
              && forall e :: e in s.profiles[pid].body.engines ==> e in ["hermes", "openclaw", "copilot"]
  {
    RunKeepsInv(EMPTY, h);
  }

  /** The compiled fields of a generated row are those of its profile, and a wanted profile's at that. */
  lemma GeneratedRowsMatchProfiles(h: History, i: DefId)
    requires GoodHistory(h)
    ensures var s := Run(EMPTY, h);
            LiveAt(s.defs, i) && s.defs[i].source == Generated ==>
              && s.defs[i].sourceRef.Some? && s.defs[i].sourceRef.value.FromProfile?
              && var pid := s.defs[i].sourceRef.value.profile;
                 && pid in s.profiles && s.profiles[pid].active && "copilot" in s.profiles[pid].body.engines
                 && Existing(s, pid) == Some(i) && GeneratedFrom(s.defs[i], s.profiles[pid])
  {
    RunKeepsInv(EMPTY, h);
    var s := Run(EMPTY, h);
    if LiveAt(s.defs, i) && s.defs[i].source == Generated { assert RowInv(s, i); }
  }

  /**
   The other half of the bijection: a profile that wants an assistant has exactly one iff the one
   row that ever had its key is live and still generated.
   */
  lemma WantedProfileHasAssistantIff(h: History, pid: ProfileId)
    requires GoodHistory(h)
    ensures var s := Run(EMPTY, h);
            pid in s.profiles && Wanted(s.profiles[pid]) ==>
              && (Existing(s, pid).Some? <==>
                  !Tombstone(s.defs, KeyFor(s.profiles[pid].name)) &&
                  forall i :: LiveAt(s.defs, i) && s.defs[i].key == KeyFor(s.profiles[pid].name) ==>
                      s.defs[i].source == Generated)
              && HasRow(s.defs, KeyFor(s.profiles[pid].name))
  {
    RunKeepsInv(EMPTY, h);
    var s := Run(EMPTY, h);
    if pid in s.profiles && Wanted(s.profiles[pid]) { AssistantIffRowSurvives(s, pid); }
  }

  lemma KeyForIsInjective(a: string, b: string)
    requires KeyFor(a) == KeyFor(b)
    ensures a == b
  {
    assert KeyFor(a)[|PREFIX|..] == a && KeyFor(b)[|PREFIX|..] == b;
  }

  lemma AssistantIffRowSurvives(s: Store, pid: ProfileId)
    requires Inv(s) && pid in s.profiles && Wanted(s.profiles[pid])
    ensures var k := KeyFor(s.profiles[pid].name);
            Existing(s, pid).Some? <==>
            !Tombstone(s.defs, k) && forall i :: LiveAt(s.defs, i) && s.defs[i].key == k ==>
                s.defs[i].source == Generated
  {
    var k := KeyFor(s.profiles[pid].name);
    DeadIsTombstone(s, k);
    var found := LiveByKey(s.defs, k);
    if Existing(s, pid).Some? {
      assert RowInv(s, Existing(s, pid).value);
      assert s.defs[Existing(s, pid).value].key == k;
      assert found == Existing(s, pid);
    } else if found.Some? && s.defs[found.value].source == Generated {
      var i := found.value;
      assert RowInv(s, i);
      var q := s.defs[i].sourceRef.value.profile;
      KeyForIsInjective(s.profiles[q].name, s.profiles[pid].name);
      assert false;
    }
  }

  // ---------------------------------------------------------------------------------------
  // Editing and retiring
  // ---------------------------------------------------------------------------------------

  /** Storing a profile that wants an assistant gives it one iff it had one or its key was never used. */
  lemma CompilingYieldsAssistantIff(s: Store, s1: Store, pid: ProfileId, p: Profile)
    requires Inv(s) && ProfileSet(s, s1, pid, p) && pid in s1.profiles && Wanted(p)
    ensures var (t, outcome) := Materialize(s1, pid, p);
            && (outcome.Ok? <==> Existing(s, pid).Some? || !HasRow(s.defs, KeyFor(p.name)))
            && (outcome.Ok? <==> Existing(t, pid).Some?)
            && (Existing(s, pid).Some? ==> Existing(t, pid) == Existing(s, pid))
            && (outcome.Err? ==> outcome.error == InternalError && t == s1)
  {
    CompileFits(s, s1, pid, p);
    var (t, outcome) := Materialize(s1, pid, p);
    WantedOutcome(s1, pid, p);
    CompiledIsFound(s1, t, outcome, UnwrapOr(Existing(s1, pid), s1.nextDef), pid, p);
  }

  lemma CompiledIsFound(s1: Store, t: Store, o: Result<Outcome, Error>, i: DefId, pid: ProfileId, p: Profile)
    requires CompiledTo(s1, t, o, i, pid, p) && i == UnwrapOr(Existing(s1, pid), s1.nextDef)
    ensures o.Ok? ==> Existing(t, pid) == Some(i)
    ensures o.Err? ==> o.error == InternalError && t == s1
  {
    if o.Ok? && t != s1 { assert LiveAt(t.defs, i) && IsFor(t.defs[i], pid); }
  }

  /** Deactivating a profile marks its row. */
  lemma DeactivatingLeavesTombstone(s: Store, pid: ProfileId)
    requires Inv(s) && pid in s.profiles && Existing(s, pid).Some?
    ensures Tombstone(UpdateProfile(s, pid, None, None, Some(false)).store.defs, KeyFor(s.profiles[pid].name))
  {
    AssistantKey(s, pid);
    SwitchedOffMarks(s, pid, Existing(s, pid).value);
  }

  lemma SwitchedOffMarks(s: Store, pid: ProfileId, i: DefId)
    requires pid in s.profiles && ValidBody(s.profiles[pid].body) && Existing(s, pid) == Some(i)
    ensures var t := UpdateProfile(s, pid, None, None, Some(false)).store;
            && t.defs == SoftDelete(s.defs, i) && Tombstone(t.defs, s.defs[i].key)
            && pid in t.profiles && t.profiles[pid].name == s.profiles[pid].name
  {
    var p := s.profiles[pid].(active := false);
    var s1 := s.(profiles := s.profiles[pid := p]);
    assert Existing(s1, pid) == Some(i);
    assert SoftDelete(s.defs, i)[i].deleted;
    UnwantedOutcome(s1, pid, p);
    assert UpdateProfile(s, pid, None, None, Some(false)).store == Materialize(s1, pid, p).0;
  }

  /** A profile whose row was once marked never has an assistant again, however often it is activated. */
  lemma RetiredProfilesStayWithout(s: Store, pid: ProfileId, h: History)
    requires Inv(s) && pid in s.profiles && Tombstone(s.defs, KeyFor(s.profiles[pid].name)) && GoodHistory(h)
    ensures Existing(Run(s, h), pid) == None
  {
    var k := KeyFor(s.profiles[pid].name);
    var u := Run(s, h);
    TombstonesAreForever(s, h, k);
    RunKeepsInv(s, h);
    NamesStay(s, h);
    if Existing(u, pid).Some? {
      AssistantKey(u, pid);
      assert false;
    }
  }

  lemma AssistantKey(s: Store, pid: ProfileId)
    requires Inv(s) && Existing(s, pid).Some?
    ensures pid in s.profiles && Wanted(s.profiles[pid])
            && LiveByKey(s.defs, KeyFor(s.profiles[pid].name)) == Existing(s, pid)
  {
    assert RowInv(s, Existing(s, pid).value);
  }

  /** Deactivating a profile that has an assistant, once, is for good. */
  lemma DeactivationIsForGood(s: Store, pid: ProfileId, h: History)
    requires Inv(s) && GoodHistory(h) && pid in s.profiles && Existing(s, pid).Some?
    ensures Existing(Run(UpdateProfile(s, pid, None, None, Some(false)).store, h), pid) == None
  {
    var t := UpdateProfile(s, pid, None, None, Some(false)).store;
    DeactivatingLeavesTombstone(s, pid);
    SwitchedOffMarks(s, pid, Existing(s, pid).value);
    UpdateProfileKeepsInv(s, pid, None, None, Some(false));
    RetiredProfilesStayWithout(t, pid, h);
  }

  // ---------------------------------------------------------------------------------------
  // Names and row ids
  // ---------------------------------------------------------------------------------------

  /** Profiles keep their name, and their numbers are not used again. */
  ghost predicate SameNames(s: Store, t: Store) {
    && s.nextProfile <= t.nextProfile
    && forall p :: p in t.profiles && p < s.nextProfile ==> p in s.profiles && t.profiles[p].name == s.profiles[p].name
  }

  lemma WritingKeepsProfiles(s: Store, existing: Option<DefId>, want: Definition)
    ensures ProfilesSame(s, WriteCompiled(s, existing, want).0)
  {
  }

  lemma CompilingKeepsProfiles(s: Store, pid: ProfileId, p: Profile)
    ensures ProfilesSame(s, Materialize(s, pid, p).0)
  {
    WritingKeepsProfiles(s, Existing(s, pid), Desired(pid, p));
  }

  lemma {:induction false} MirrorsKeepProfiles(s: Store, rows: seq<DefId>)
    ensures ProfilesSame(s, MirrorEach(s, rows))
    decreases |rows|
  {
    if rows != [] { MirrorsKeepProfiles(if LiveAt(s.defs, rows[0]) then Mirror(s, rows[0]) else s, rows[1..]); }
  }

  ghost predicate ProfilesSame(s: Store, t: Store) {
    t.profiles == s.profiles && t.nextProfile == s.nextProfile && t.snapshots == s.snapshots
  }

  lemma {:induction false} BuiltinsKeepProfiles(s: Store, bs: seq<BuiltinAssistant>)
    ensures ProfilesSame(s, WriteBuiltins(s, bs).store)
    decreases |bs|
  {
    if bs != [] { BuiltinsKeepProfiles(WriteBuiltin(s, bs[0]).store, bs[1..]); }
  }

  lemma {:induction false} UsersKeepProfiles(c: Config, s: Store, order: seq<Key>)
    ensures ProfilesSame(s, WriteLegacyUsers(c, s, order).store)
    decreases |order|
  {
    if order != [] {
      UsersKeepProfiles(c, s, order[1..]);
      if order[0] in s.legacy { UsersKeepProfiles(c, WriteUser(s, order[0], s.legacy[order[0]]).store, order[1..]); }
    }
  }

  lemma BootstrapKeepsProfiles(c: Config, s: Store, users: seq<Key>, rows: seq<DefId>)
    ensures ProfilesSame(s, Bootstrap(c, s, users, rows).store)
  {
    var b := WriteBuiltins(s, c.builtins).store;
    var w := WriteLegacyUsers(c, b, users).store;
    BuiltinsKeepProfiles(s, c.builtins);
    UsersKeepProfiles(c, b, users);
    MirrorsKeepProfiles(CopyOverrides(w), rows);
  }

  lemma UserOperationsKeepProfiles(
      c: Config, s: Store, id: Key, create: CreateReq, update: UpdateReq, providerEnabled: bool)
    ensures ProfilesSame(s, Create(c, s, id, create, providerEnabled).store)
    ensures ProfilesSame(s, Update(c, s, id, update).store)
  {
    var o := FromParts(create.recommended, create.defaults);
    var backend := BackendFor(create.backend, providerEnabled);
    if o.Ok? && backend.Ok? {
      StoreUserKeepsProfiles(s, id, NewLegacyRow(create, backend.value), o.value, false, None, create.defaults);
    }
    var p := FromParts(update.recommended, update.defaults);
    var found := LiveByKey(s.defs, id);
    if p.Ok? && found.Some? && id in s.legacy {
      var current := s.defs[found.value];
      var reset := update.backend.Some? && update.backend.value != current.backend;
      StoreUserKeepsProfiles(s, id, MergedLegacyRow(s.legacy[id], update), p.value, reset, Some(current),
          update.defaults);
    }
    UpdateBuiltinKeepsProfiles(s, id, update);
  }

  lemma OverridesKeepProfiles(s: Store, key: Key, o: Overrides, reset: bool)
    ensures ProfilesSame(s, ApplyOverrides(s, key, o, reset).store)
  {
  }

  lemma SyncKeepsProfiles(s: Store, i: DefId, previous: Option<Definition>, r: Option<DefaultsReq>)
    ensures ProfilesSame(s, SyncPreferences(s, i, previous, r).store)
  {
  }

  lemma FinishKeepsProfiles(
      s: Store, id: Key, o: Overrides, reset: bool, previous: Option<Definition>, r: Option<DefaultsReq>)
    ensures ProfilesSame(s, FinishWrite(s, id, o, reset, previous, r).store)
  {
    OverridesKeepProfiles(s, id, o, reset);
    var t := ApplyOverrides(s, id, o, reset).store;
    var found := LiveByKey(t.defs, id);
    if found.Some? { SyncKeepsProfiles(t, found.value, previous, r); }
  }

  lemma StoreUserKeepsProfiles(
      s: Store, id: Key, row: Legacy, o: Overrides, reset: bool, previous: Option<Definition>, r: Option<DefaultsReq>)
    ensures ProfilesSame(s, StoreUser(s, id, row, o, reset, previous, r).store)
  {
    var w := WriteUser(WithLegacy(s, id, row), id, row);
    FinishKeepsProfiles(w.store, id, o, reset, previous, r);
  }

  lemma MirrorKeepsProfiles(s: Store, i: DefId)
    requires i in s.defs
    ensures ProfilesSame(s, Mirror(s, i))
  {
  }

  lemma UpdateBuiltinKeepsProfiles(s: Store, id: Key, r: UpdateReq)
    ensures ProfilesSame(s, UpdateBuiltin(s, id, r).store)
  {
    var o := FromParts(r.recommended, r.defaults);
    var found := LiveByKey(s.defs, id);
    if o.Ok? && !TouchesBuiltin(r) && r.backend.Some? && found.Some? {
      var t := s.(overlays := s.overlays[found.value := BuiltinOverlay(s, id, r)]);
      var patched := ApplyOverrides(t, id, o.value, BackendOf(s, found.value) != r.backend.value);
      OverridesKeepProfiles(t, id, o.value, BackendOf(s, found.value) != r.backend.value);
      PatchedBuiltinKeepsProfiles(patched.store, id, r);
    }
  }

  lemma PatchedBuiltinKeepsProfiles(p: Store, id: Key, r: UpdateReq)
    ensures ProfilesSame(p, FinishBuiltin(p, id, r).store)
  {
    var again := LiveByKey(p.defs, id);
    if again.Some? {
      SyncKeepsProfiles(p, again.value, Some(p.defs[again.value]), r.defaults);
      MirrorKeepsProfiles(SyncPreferences(p, again.value, Some(p.defs[again.value]), r.defaults).store, again.value);
    }
  }

  lemma ImportOneKeepsProfiles(c: Config, s: Store, e: Entry, providerEnabled: bool)
    ensures ProfilesSame(s, ImportOne(c, s, e, providerEnabled).0)
  {
  }

  lemma {:induction false} ImportKeepsProfiles(
      c: Config, s: Store, entries: seq<Entry>, providerEnabled: bool, t: Tally)
    ensures ProfilesSame(s, ImportFrom(c, s, entries, providerEnabled, t).store)
    decreases |entries|
  {
    if entries != [] {
      var (u, v) := ImportOne(c, s, entries[0], providerEnabled);
      ImportOneKeepsProfiles(c, s, entries[0], providerEnabled);
      if !v.Aborted? { ImportKeepsProfiles(c, u, entries[1..], providerEnabled, Count(t, entries[0].id, v)); }
    }
  }

  const NO_CREATE := CreateReq("", None, None, None, None, None, None)
  const NO_UPDATE := UpdateReq(None, None, None, None, None, None, None)

  const NO_STATE := StateReq(None, None, None)

  lemma OtherOperationsKeepProfiles(c: Config, s: Store, id: Key, r: StateReq)
    ensures ProfilesSame(s, Delete(c, s, id).store) && ProfilesSame(s, SetState(c, s, id, r).store)
  {
  }

  lemma CreateProfileKeepsNames(s: Store, name: string, title: string, body: ProfileBody)
    requires ProfilesOk(s)
    ensures SameNames(s, CreateProfile(s, name, title, body).store)
  {
    var p := Profile(Trim(name), Trim(title), true, body);
    CompilingKeepsProfiles(WithNewProfile(s, p), s.nextProfile, p);
  }

  lemma UpdateProfileKeepsNames(
      s: Store, pid: ProfileId, title: Option<string>, body: Option<ProfileBody>, active: Option<bool>)
    ensures SameNames(s, UpdateProfile(s, pid, title, body, active).store)
  {
    if pid in s.profiles {
      var p := ProfileAfter(s.profiles[pid], title, body, active);
      CompilingKeepsProfiles(s.(profiles := s.profiles[pid := p]), pid, p);
    }
  }

  lemma DeleteProfileKeepsNames(s: Store, pid: ProfileId)
    ensures SameNames(s, DeleteProfile(s, pid).store)
  {
    if pid in s.profiles { CompilingKeepsProfiles(s.(profiles := s.profiles - {pid}), pid,
        s.profiles[pid].(active := false)); }
  }

  lemma ProfileOperationsKeepNames(c: Config, s: Store, op: Op)
    requires ProfilesOk(s) && OnProfiles(op)
    ensures SameNames(s, Apply(c, s, op))
  {
    match op {
      case OpCreateProfile(name, title, body) => CreateProfileKeepsNames(s, name, title, body);
      case OpUpdateProfile(pid, title, body, active) => UpdateProfileKeepsNames(s, pid, title, body, active);
      case OpDeleteProfile(pid) => DeleteProfileKeepsNames(s, pid);
    }
  }

  lemma ServiceKeepsProfiles(c: Config, s: Store, op: Op)
    requires !OnProfiles(op) && !OnConversations(op)
    ensures ProfilesSame(s, Apply(c, s, op))
  {
    match op {
      case OpCreate(id, r, enabled) => UserOperationsKeepProfiles(c, s, id, r, NO_UPDATE, enabled);
      case OpUpdate(id, r) => UserOperationsKeepProfiles(c, s, id, NO_CREATE, r, true);
      case OpDelete(id) => OtherOperationsKeepProfiles(c, s, id, NO_STATE);
      case OpSetState(id, r) => OtherOperationsKeepProfiles(c, s, id, r);
      case OpList =>
      case OpImport(entries, enabled) => ImportKeepsProfiles(c, s, entries, enabled, NO_TALLY);
      case OpBootstrap(users, rows) => BootstrapKeepsProfiles(c, s, users, rows);
    }
  }

  lemma ApplyKeepsNames(c: Config, s: Store, op: Op)
    requires ProfilesOk(s)
    ensures SameNames(s, Apply(c, s, op))
  {
    if OnProfiles(op) {
      ProfileOperationsKeepNames(c, s, op);
    } else if !OnConversations(op) {
      ServiceKeepsProfiles(c, s, op);
    }
  }

  lemma {:induction false} NamesStay(s: Store, h: History)
    requires Inv(s) && GoodHistory(h)
    ensures SameNames(s, Run(s, h))
    decreases |h|
  {
    if h != [] {
      ApplyKeepsInv(h[0].0, s, h[0].1);
      ApplyKeepsNames(h[0].0, s, h[0].1);
      assert GoodHistory(h[1..]);
      NamesStay(Apply(h[0].0, s, h[0].1), h[1..]);
    }
  }

  /** A profile's assistant keeps its definition id for as long as it exists. */
  lemma DefinitionIdsNeverChange(s: Store, pid: ProfileId, h: History)
    requires Inv(s) && GoodHistory(h) && Existing(s, pid).Some? && Existing(Run(s, h), pid).Some?
    ensures Existing(Run(s, h), pid) == Existing(s, pid)
  {
    var u := Run(s, h);
    RunKeepsInv(s, h);
    NamesStay(s, h);
    AssistantKey(s, pid);
    AssistantKey(u, pid);
    var k := KeyFor(s.profiles[pid].name);
    assert u.defs[Existing(s, pid).value].key == k;
    if !LiveAt(u.defs, Existing(s, pid).value) {
      DeadIsTombstone(u, k);
    }
  }

  // ---------------------------------------------------------------------------------------
  // Requests on generated assistants
  // ---------------------------------------------------------------------------------------

  /**
   Generated assistants cannot be edited, deleted, enabled or sorted: every such request finds
   nothing and writes nothing.
   */
  lemma GeneratedAssistantsAreOutOfReach(c: Config, s: Store, i: DefId, u: UpdateReq, r: StateReq)
    requires Inv(s) && GoodConfig(c) && LiveAt(s.defs, i) && s.defs[i].source == Generated
    ensures var id := s.defs[i].key;
            && Delete(c, s, id) == Done(s, Some(NotFound))
            && SetState(c, s, id, r) == Done(s, Some(NotFound))
            && Update(c, s, id, u).store == s && Update(c, s, id, u).error.Some?
            && (FromParts(u.recommended, u.defaults).Ok? ==> Update(c, s, id, u).error == Some(NotFound))
  {
    assert RowInv(s, i);
    if IsBuiltin(c, s.defs[i].key) { BuiltinIdsAreGood(c, s.defs[i].key); }
  }

  /**
   Creating an assistant under the key of a generated one succeeds and takes its row over: the
   profile is left without an assistant, and editing it cannot bring one back while the row is kept.
   */
  lemma CreateTakesOverGeneratedRow(c: Config, s: Store, i: DefId, r: CreateReq, providerEnabled: bool)
    requires Inv(s) && GoodConfig(c) && LiveAt(s.defs, i) && s.defs[i].source == Generated
    requires Acceptable(c, s, s.defs[i].key, r, providerEnabled)
    ensures var d := Create(c, s, s.defs[i].key, r, providerEnabled);
            var pid := s.defs[i].sourceRef.value.profile;
            && d.error == None && LiveAt(d.store.defs, i) && d.store.defs[i].source == User
            && pid in d.store.profiles && Wanted(d.store.profiles[pid])
            && Existing(d.store, pid) == None
            && Materialize(d.store, pid, d.store.profiles[pid]) == (d.store, Err(InternalError))
  {
    var id := s.defs[i].key;
    var o := FromParts(r.recommended, r.defaults).value;
    var row := NewLegacyRow(r, BackendFor(r.backend, providerEnabled).value);
    assert RowInv(s, i);
    var pid := s.defs[i].sourceRef.value.profile;
    StoreUserEffect(s, id, row, r.recommended, false, None, r.defaults);
    StoreUserKeepsProfiles(s, id, row, o, false, None, r.defaults);
    var d := Create(c, s, id, r, providerEnabled);
    assert d == StoreUser(s, id, row, o, false, None, r.defaults);
    TakenOver(d.store, i, pid);
  }

  lemma TakenOver(t: Store, i: DefId, pid: ProfileId)
    requires Inv(t) && pid in t.profiles && Wanted(t.profiles[pid])
    requires LiveAt(t.defs, i) && t.defs[i].source == User && t.defs[i].key == KeyFor(t.profiles[pid].name)
    ensures Existing(t, pid) == None
    ensures Materialize(t, pid, t.profiles[pid]) == (t, Err(InternalError))
  {
    AssistantIffRowSurvives(t, pid);
    var want := Desired(pid, t.profiles[pid]);
    assert Clash(t.defs[i], want) && i != t.nextDef;
  }
}
