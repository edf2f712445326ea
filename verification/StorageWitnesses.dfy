/**
 Histories from an empty database that reach the states the failure laws speak of.
 */
module StorageWitnesses {
  import opened Prelude
  import opened Text
  import opened AssistantTables
  import opened AssistantService
  import opened ProfileCompiler
  import opened AssistantInvariants
  import opened AssistantRuns
  import opened AssistantBootstrap
  import opened AssistantConversation
  import opened AssistantImport
  import opened ImportLaws
  import opened StorageHistory
  import opened StorageLaws
  import opened ProfileLaws
  import opened UpdateLaws

  /** A release that ships nothing, and one that ships the assistant `b`. */
  const Plain := Config([])
  const Shipping := Config([BuiltinAssistant("b", "Shipped", None, "acp", [], [], false)])

  const Request := CreateReq("Helper", None, Some("acp"), None, None, None, None)

  function NewRow(): Legacy {
    NewLegacyRow(Request, "acp")
  }

  lemma RequestIsAcceptable(s: Store, id: Key)
    requires id !in s.legacy
    ensures Acceptable(Plain, s, id, Request, true)
  {
    assert Trim("Helper") == "Helper";
  }

  lemma Run1(c: Config, s: Store, op: Op)
    ensures Run(s, [(c, op)]) == Apply(c, s, op)
  {
    var h: History := [(c, op)];
    assert h[1..] == [];
    assert Run(Apply(c, s, op), []) == Apply(c, s, op);
  }

  lemma {:induction false} RunAppend(s: Store, h: History, more: History)
    ensures Run(s, h + more) == Run(Run(s, h), more)
    decreases |h|
  {
    if h == [] {
      assert h + more == more;
    } else {
      assert (h + more)[1..] == h[1..] + more;
      RunAppend(Apply(h[0].0, s, h[0].1), h[1..], more);
    }
  }

  /** `s` is reached from an empty database. */
  ghost predicate Reachable(s: Store) {
    exists h :: GoodHistory(h) && s == Run(EMPTY, h)
  }

  lemma EmptyIsReachable()
    ensures Reachable(EMPTY)
  {
    var h: History := [];
    assert GoodHistory(h) && Run(EMPTY, h) == EMPTY;
  }

  lemma StepIsReachable(c: Config, s: Store, op: Op)
    requires Reachable(s) && GoodConfig(c)
    ensures Reachable(Apply(c, s, op))
  {
    var h :| GoodHistory(h) && s == Run(EMPTY, h);
    RunAppend(EMPTY, h, [(c, op)]);
    Run1(c, s, op);
    assert GoodHistory(h + [(c, op)]);
  }

  lemma ReachableInv(s: Store)
    requires Reachable(s)
    ensures Inv(s)
  {
    var h :| GoodHistory(h) && s == Run(EMPTY, h);
    RunKeepsInv(EMPTY, h);
  }

  // ---------------------------------------------------------------------------------------
  // A user assistant
  // ---------------------------------------------------------------------------------------

  /** Creating `id` where it was never used: a live user row with its legacy row. */
  lemma Created(s: Store, id: Key) returns (t: Store)
    requires Reachable(s) && id !in s.legacy && !Tombstone(s.defs, id)
    ensures Reachable(t) && Create(Plain, s, id, Request, true) == Done(t, None)
    ensures LiveByKey(t.defs, id).Some? && t.defs[LiveByKey(t.defs, id).value] == UserDefinition(id, id, NewRow())
    ensures id in t.legacy
    ensures forall k :: k != id ==> (k in t.legacy <==> k in s.legacy) && (HasRow(t.defs, k) <==> HasRow(s.defs, k))
  {
    ReachableInv(s);
    RequestIsAcceptable(s, id);
    CreateSucceedsIff(Plain, s, id, Request, true);
    StepIsReachable(Plain, s, OpCreate(id, Request, true));
    t := Create(Plain, s, id, Request, true).store;
    assert t == Apply(Plain, s, OpCreate(id, Request, true));
    CreatedRows(s, id, t);
  }

  lemma CreatedRows(s: Store, id: Key, t: Store)
    requires Inv(s) && id !in s.legacy && Create(Plain, s, id, Request, true) == Done(t, None)
    ensures LiveByKey(t.defs, id).Some? && t.defs[LiveByKey(t.defs, id).value] == UserDefinition(id, id, NewRow())
    ensures id in t.legacy
    ensures forall k :: k != id ==> (k in t.legacy <==> k in s.legacy) && (HasRow(t.defs, k) <==> HasRow(s.defs, k))
  {
    RequestIsAcceptable(s, id);
    var row := NewRow();
    assert FromParts(None, None) == Ok(NO_OVERRIDES);
    var w := WriteUser(WithLegacy(s, id, row), id, row);
    WriteUserEffect(s, id, row);
    assert Create(Plain, s, id, Request, true) == if w.error.Some? then w
        else FinishWrite(w.store, id, NO_OVERRIDES, false, None, None);
    assert t == w.store;
    OtherRows(s, t, UnwrapOr(LiveByKey(s.defs, id), s.nextDef), id, row);
  }

  lemma OtherRows(s: Store, t: Store, i: DefId, id: Key, row: Legacy)
    requires UserWritten(s, t, i, id, row) && Target(s, i, id)
    ensures forall k :: k != id ==> (HasRow(t.defs, k) <==> HasRow(s.defs, k))
  {
    forall k | k != id
      ensures HasRow(t.defs, k) <==> HasRow(s.defs, k)
    {
      if HasRow(s.defs, k) {
        var j :| j in s.defs && s.defs[j].key == k;
        assert t.defs[j] == s.defs[j];
      }
      if HasRow(t.defs, k) {
        var j :| j in t.defs && t.defs[j].key == k;
        assert s.defs[j] == t.defs[j];
      }
    }
  }

  lemma Removed(s: Store, id: Key) returns (t: Store)
    requires Reachable(s) && id in s.legacy && LiveByKey(s.defs, id).Some?
    ensures Reachable(t) && Delete(Plain, s, id) == Done(t, None)
    ensures t.legacy == s.legacy - {id} && Tombstone(t.defs, id)
    ensures forall k :: HasRow(t.defs, k) ==> HasRow(s.defs, k)
  {
    StepIsReachable(Plain, s, OpDelete(id));
    t := Delete(Plain, s, id).store;
    assert t == Apply(Plain, s, OpDelete(id));
    RemovedRows(s, id, LiveByKey(s.defs, id).value);
  }

  lemma RemovedRows(s: Store, id: Key, i: DefId)
    requires id in s.legacy && LiveByKey(s.defs, id) == Some(i)
    ensures var t := Delete(Plain, s, id).store;
            && Delete(Plain, s, id).error == None && t.legacy == s.legacy - {id} && t.defs == SoftDelete(s.defs, i)
            && Tombstone(t.defs, id) && forall k :: HasRow(t.defs, k) ==> HasRow(s.defs, k)
  {
    var defs := SoftDelete(s.defs, i);
    assert defs[i].key == id && defs[i].deleted;
    forall k | HasRow(defs, k)
      ensures HasRow(s.defs, k)
    {
      var j :| j in defs && defs[j].key == k;
      assert j in s.defs && s.defs[j].key == k;
    }
  }

  /** Create, delete, create again, start up: the second creation is refused, and so is the start. */
  lemma RecreatingStopsStartup()
    ensures var s1 := Create(Plain, EMPTY, "a", Request, true);
            var s2 := Delete(Plain, s1.store, "a");
            var s3 := Create(Plain, s2.store, "a", Request, true);
            && s1.error == None && s2.error == None && s3.error == Some(InternalError)
            && Reachable(s3.store)
            && Bootstrap(Plain, s3.store, ["a"], []).error.Some?
  {
    EmptyIsReachable();
    var t1 := Created(EMPTY, "a");
    var t2 := Removed(t1, "a");
    var t3 := Refused(t2, "a");
    ReachableInv(t3);
    OrphanStopsBootstrap(Plain, t3, "a", ["a"], []);
  }

  /** Creating a deleted id is refused, and leaves a legacy row. */
  lemma Refused(s: Store, id: Key) returns (t: Store)
    requires Reachable(s) && id !in s.legacy && Tombstone(s.defs, id)
    ensures Reachable(t) && Create(Plain, s, id, Request, true) == Done(t, Some(InternalError))
    ensures t.defs == s.defs && id in t.legacy && forall k :: k != id && k in t.legacy ==> k in s.legacy
  {
    ReachableInv(s);
    RequestIsAcceptable(s, id);
    CreateSucceedsIff(Plain, s, id, Request, true);
    StepIsReachable(Plain, s, OpCreate(id, Request, true));
    t := Create(Plain, s, id, Request, true).store;
    assert t == Apply(Plain, s, OpCreate(id, Request, true));
    RefusedRows(s, id);
  }

  lemma RefusedRows(s: Store, id: Key)
    requires Inv(s) && id !in s.legacy && Tombstone(s.defs, id)
    ensures Create(Plain, s, id, Request, true).store.legacy.Keys == s.legacy.Keys + {id}
  {
    RequestIsAcceptable(s, id);
    DeadIsTombstone(s, id);
    WriteUserEffect(s, id, NewLegacyRow(Request, "acp"));
  }

  /** A state with a left-over legacy row `a` and a live user assistant `b`. */
  lemma Leftover() returns (t: Store)
    ensures Reachable(t) && "a" in t.legacy && Tombstone(t.defs, "a")
    ensures "b" in t.legacy && LiveByKey(t.defs, "b").Some?
  {
    EmptyIsReachable();
    t := LeftoverBeside(EMPTY, "a", "b");
  }

  lemma LeftoverBeside(s: Store, a: Key, b: Key) returns (t: Store)
    requires Reachable(s) && a != b && a !in s.legacy && b !in s.legacy && !HasRow(s.defs, a) && !HasRow(s.defs, b)
    ensures Reachable(t) && a in t.legacy && Tombstone(t.defs, a)
    ensures b in t.legacy && LiveByKey(t.defs, b).Some?
  {
    var t1 := Created(s, a);
    var t2 := Removed(t1, a);
    var t3 := Refused(t2, a);
    t := CreatedBeside(t3, b, a);
  }

  lemma CreatedBeside(s: Store, id: Key, k: Key) returns (t: Store)
    requires Reachable(s) && id !in s.legacy && !HasRow(s.defs, id) && k in s.legacy && Tombstone(s.defs, k)
    ensures Reachable(t) && k in t.legacy && Tombstone(t.defs, k)
    ensures id in t.legacy && LiveByKey(t.defs, id).Some?
  {
    t := Created(s, id);
    KeepsTombstone(s, OpCreate(id, Request, true), k);
  }

  lemma KeepsTombstone(s: Store, op: Op, k: Key)
    requires Reachable(s) && Tombstone(s.defs, k)
    ensures Tombstone(Apply(Plain, s, op).defs, k)
  {
    ReachableInv(s);
    Run1(Plain, s, op);
    TombstonesAreForever(s, [(Plain, op)], k);
  }

  /** Importing the deleted id aborts, and importing it again skips it. */
  lemma ImportLosesTheEntry()
    ensures exists s ::
              && Reachable(s) && Import(Plain, s, [Entry("a", Request)], true).aborted == Some(InternalError)
              && var u := Import(Plain, s, [Entry("a", Request)], true).store;
                 Import(Plain, u, [Entry("a", Request)], true) == Batch(u, Tally(0, 1, 0, []), None)
  {
    EmptyIsReachable();
    var t1 := Created(EMPTY, "a");
    var t2 := Removed(t1, "a");
    ReachableInv(t2);
    RequestIsAcceptable(t2, "a");
    assert Creatable(Plain, t2, Entry("a", Request), true);
    RetryAfterAbortSkips(Plain, t2, Entry("a", Request), true, true);
  }

  // ---------------------------------------------------------------------------------------
  // A withdrawn built-in assistant
  // ---------------------------------------------------------------------------------------

  /**
   A release that ships `b` starts on that state, takes the row of `b` over and gives up on `a`; going back
   to a release without `b` leaves an assistant on which two state requests are not one.
   */
  lemma WithdrawnIsReachable(a: StateReq, b: StateReq)
    ensures exists s ::
              && Reachable(s) && Withdrawn(Plain, s, "b")
              && SetStates(Plain, s, "b", [a, b]).error == Some(NotFound)
              && SetState(Plain, s, "b", MergedReq([a, b])).error == None
  {
    var t := Leftover();
    StepIsReachable(Shipping, t, OpBootstrap(["a", "b"], []));
    var s := Apply(Shipping, t, OpBootstrap(["a", "b"], []));
    FailedStartTakesOver(t);
    ReachableInv(s);
    WithdrawnAssistantsTellApart(Plain, s, "b", a, b);
  }

  lemma FailedStartTakesOver(t: Store)
    requires Reachable(t) && "a" in t.legacy && Tombstone(t.defs, "a") && "b" in t.legacy
             && LiveByKey(t.defs, "b").Some?
    ensures Withdrawn(Plain, Bootstrap(Shipping, t, ["a", "b"], []).store, "b")
  {
    ReachableInv(t);
    ShippedRowIsTaken(t);
    GivesUpAfter(t, WriteBuiltin(t, Shipping.builtins[0]).store);
  }

  lemma GivesUpAfter(t: Store, s: Store)
    requires WriteBuiltin(t, Shipping.builtins[0]) == Done(s, None) && Inv(s)
    requires "a" in s.legacy && Tombstone(s.defs, "a") && "b" in s.legacy
    requires LiveByKey(s.defs, "b").Some? && s.defs[LiveByKey(s.defs, "b").value].source == Builtin
    ensures Withdrawn(Plain, Bootstrap(Shipping, t, ["a", "b"], []).store, "b")
  {
    GivesUpOn(s, "a", ["b"]);
    FailedStartStops(t, s);
  }

  lemma FailedStartStops(t: Store, s: Store)
    requires WriteBuiltin(t, Shipping.builtins[0]) == Done(s, None)
    requires WriteLegacyUsers(Shipping, s, ["a"] + ["b"]) == Done(s, Some(InternalError))
    ensures Bootstrap(Shipping, t, ["a", "b"], []).store == s
  {
    assert Shipping.builtins[1..] == [] && ["a"] + ["b"] == ["a", "b"];
    assert WriteBuiltins(s, []) == Done(s, None);
    assert WriteBuiltins(t, Shipping.builtins) == Done(s, None);
  }

  lemma ShippedRowIsTaken(t: Store)
    requires Inv(t) && LiveByKey(t.defs, "b").Some?
    ensures var w := WriteBuiltin(t, Shipping.builtins[0]);
            && w.error == None && Inv(w.store) && w.store.legacy == t.legacy && SameTombstones(t, w.store)
            && LiveByKey(w.store.defs, "b").Some? && w.store.defs[LiveByKey(w.store.defs, "b").value].source == Builtin
  {
    var d := BuiltinDefinition(Shipping.builtins[0], "b");
    WriteOnce(t, d);
    BuiltinCarries(t, Shipping.builtins[0]);
    var w := WriteBuiltin(t, Shipping.builtins[0]);
    var i := LiveByKey(t.defs, "b").value;
    assert LiveAt(w.store.defs, i) && w.store.defs[i] == d;
  }

  lemma GivesUpOn(s: Store, id: Key, more: seq<Key>)
    requires Inv(s) && id in s.legacy && Tombstone(s.defs, id) && !IsBuiltin(Shipping, id)
    ensures WriteLegacyUsers(Shipping, s, [id] + more) == Done(s, Some(InternalError))
  {
    DeadIsTombstone(s, id);
    WriteOnce(s, UserDefinition(id, id, s.legacy[id]));
  }

  // ---------------------------------------------------------------------------------------
  // A conversation that began before a default was fixed
  // ---------------------------------------------------------------------------------------

  const NoChoice := Chosen(None, None, None, None, None)
  const FixModel :=
    UpdateReq(None, None, None, None, None, None,
        Some(DefaultsReq(Some(ScalarReq("fixed", Some("v"))), None, None, None)))
  const Rename := UpdateReq(Some("Renamed"), None, None, None, None, None, None)

  /** A live user assistant under `id`, whose preference has not strayed. */
  ghost predicate Settled(s: Store, id: Key, i: DefId) {
    Reachable(s) && LiveByKey(s.defs, id) == Some(i) && id in s.legacy && !Strays(s, i)
  }

  lemma Conversed(s: Store, id: Key, i: DefId, cid: ConversationId) returns (t: Store)
    requires Settled(s, id, i)
    ensures Settled(t, id, i) && cid in t.snapshots
    ensures t.snapshots[cid] == Snapshot(i, s.defs[i].model.mode, s.defs[i].permission.mode)
  {
    StepIsReachable(Plain, s, OpConverse(cid, id, NoChoice));
    t := StartConversation(s, cid, id, NoChoice);
    assert t == Apply(Plain, s, OpConverse(cid, id, NoChoice));
    StartedRows(s, id, i, cid);
  }

  lemma StartedRows(s: Store, id: Key, i: DefId, cid: ConversationId)
    requires Reachable(s) && LiveByKey(s.defs, id) == Some(i) && !Strays(s, i)
    ensures var t := StartConversation(s, cid, id, NoChoice);
            && t.defs == s.defs && t.legacy == s.legacy && !Strays(t, i) && cid in t.snapshots
            && t.snapshots[cid] == Snapshot(i, s.defs[i].model.mode, s.defs[i].permission.mode)
  {
    ReachableInv(s);
    StartKeepsInv(s, cid, id, NoChoice);
  }

  lemma ModelFixed(s: Store, id: Key, i: DefId) returns (t: Store)
    requires Settled(s, id, i)
    ensures Settled(t, id, i) && t.snapshots == s.snapshots
    ensures t.defs[i].model == Scalar(Fixed, Some("v")) && t.defs[i].source == User
  {
    ReachableInv(s);
    StepIsReachable(Plain, s, OpUpdate(id, FixModel));
    t := UpdateUser(s, id, FixModel).store;
    assert t == Apply(Plain, s, OpUpdate(id, FixModel));
    FixedRow(s, id, i);
    UpdateUserKeepsInv(s, id, FixModel);
    UserOperationsKeepProfiles(Plain, s, id, NO_CREATE, FixModel, true);
    assert Update(Plain, s, id, FixModel).store == t;
    StillHasLegacy(t, i);
  }

  lemma StillHasLegacy(t: Store, i: DefId)
    requires Reachable(t) && LiveAt(t.defs, i) && t.defs[i].source == User
    ensures t.defs[i].key in t.legacy
  {
    ReachableInv(t);
    assert RowInv(t, i);
  }

  lemma FixedRow(s: Store, id: Key, i: DefId)
    requires Inv(s) && LiveByKey(s.defs, id) == Some(i) && id in s.legacy
    ensures var t := UpdateUser(s, id, FixModel).store;
            && LiveByKey(t.defs, id) == Some(i) && t.defs[i].source == User
            && t.defs[i].model == Scalar(Fixed, Some("v"))
  {
    FixModelIsValid();
    UserUpdateDefaults(s, i, id, FixModel);
    UserUpdateStores(s, i, id, FixModel);
  }

  lemma FixModelIsValid()
    ensures FromParts(FixModel.recommended, FixModel.defaults).Ok?
  {
    assert Trim("v") == "v";
  }

  lemma Overtook(s: Store, id: Key, i: DefId, cid: ConversationId) returns (t: Store)
    requires Settled(s, id, i) && s.defs[i].model == Scalar(Fixed, Some("v")) && s.defs[i].source == User
    requires cid in s.snapshots && s.snapshots[cid].definition == i && s.snapshots[cid].model == Auto
    ensures Reachable(t) && t.defs == s.defs && t.legacy == s.legacy
    ensures Strays(t, i) && PreferenceOf(t, i).model == Some("w")
  {
    StepIsReachable(Plain, s, OpChoose(cid, Some("w"), None));
    t := ChooseInConversation(s, cid, Some("w"), None);
    assert t == Apply(Plain, s, OpChoose(cid, Some("w"), None));
    ChooseStraysIff(s, cid, Some("w"), None, i);
  }

  /** Create, converse, fix the model at `v`, choose `w` in the conversation: the preference has strayed. */
  lemma Strayed() returns (t: Store, i: DefId)
    ensures Reachable(t) && LiveByKey(t.defs, "a") == Some(i) && "a" in t.legacy && Strays(t, i)
    ensures EffectiveOf(t, i).model == Some("v") && PreferredOf(t, i).model == Some("w")
  {
    EmptyIsReachable();
    var t0 := Created(EMPTY, "a");
    i := LiveByKey(t0.defs, "a").value;
    var t1 := Conversed(t0, "a", i, 0);
    var t2 := ModelFixed(t1, "a", i);
    t := Overtook(t2, "a", i, 0);
  }

  /** The next start of the application then resolves `w` instead of `v`, though nobody asked for it. */
  lemma StartingChangesTheModel()
    ensures exists s, i ::
              && Reachable(s) && LiveAt(s.defs, i) && EffectiveOf(s, i).model == Some("v")
              && var d := Bootstrap(Plain, s, ["a"], []);
                 d.error == None && LiveAt(d.store.defs, i) && EffectiveOf(d.store, i).model == Some("w")
  {
    var s, i := Strayed();
    ReachableInv(s);
    StartShowsPreference(s, "a", i);
  }

  lemma StartShowsPreference(s: Store, id: Key, i: DefId)
    requires Inv(s) && LiveByKey(s.defs, id) == Some(i) && id in s.legacy && Strays(s, i)
    ensures var d := Bootstrap(Plain, s, [id], []);
            d.error == None && LiveAt(d.store.defs, i) && EffectiveOf(d.store, i) == PreferredOf(s, i)
  {
    DeadIsTombstone(s, id);
    assert Migrates(Plain, s, id);
    BootstrapSucceedsIff(Plain, s, [id], []);
    BootstrapChangesResolvedIff(Plain, s, [id], [], i);
    BootstrapKeepsEffectiveDefaults(Plain, s, [id], []);
  }

  /** So does renaming the assistant. */
  lemma RenamingChangesTheModel()
    ensures exists s, i ::
              && Reachable(s) && LiveAt(s.defs, i) && EffectiveOf(s, i).model == Some("v")
              && var d := Update(Plain, s, "a", Rename);
                 d.error == None && LiveAt(d.store.defs, i) && EffectiveOf(d.store, i).model == Some("w")
  {
    var s, i := Strayed();
    ReachableInv(s);
    RenameShowsPreference(s, "a", i);
  }

  lemma RenameShowsPreference(s: Store, id: Key, i: DefId)
    requires Inv(s) && LiveByKey(s.defs, id) == Some(i) && id in s.legacy
    ensures var d := Update(Plain, s, id, Rename);
            d.error == None && LiveAt(d.store.defs, i) && EffectiveOf(d.store, i) == PreferredOf(s, i)
  {
    UserUpdateStores(s, i, id, Rename);
    UserUpdateDefaults(s, i, id, Rename);
  }

  // ---------------------------------------------------------------------------------------
  // A profile
  // ---------------------------------------------------------------------------------------

  const Body := ProfileBody(["copilot"], "soul", "m", [], [])

  lemma BodyIsValid()
    ensures ValidBody(Body) && Trim("p") == "p" && Trim("P") == "P" && !Blank("p") && !Blank("P")
  {
    assert Trim("m") == "m";
  }

  /** A profile with a fresh name whose key was never used gets its assistant. */
  lemma NewProfileCompiles(s: Store, p: Profile)
    requires Inv(s) && !NameTaken(s, p.name) && ValidBody(p.body) && Wanted(p) && !HasRow(s.defs, KeyFor(p.name))
    ensures var t := Materialize(WithNewProfile(s, p), s.nextProfile, p).0;
            ProfilesSame(WithNewProfile(s, p), t) && Existing(t, s.nextProfile).Some?
  {
    NewProfileIsSet(s, p);
    CompilingYieldsAssistantIff(s, WithNewProfile(s, p), s.nextProfile, p);
    CompilingKeepsProfiles(WithNewProfile(s, p), s.nextProfile, p);
  }

  lemma CompiledHasKey(t: Store, pid: ProfileId)
    requires Reachable(t) && Existing(t, pid).Some?
    ensures pid in t.profiles && t.defs[Existing(t, pid).value].key == KeyFor(t.profiles[pid].name)
  {
    ReachableInv(t);
    AssistantKey(t, pid);
  }

  /** A profile created in an empty database has its assistant. */
  lemma ProfileCreated() returns (t: Store)
    ensures Reachable(t) && CreateProfile(EMPTY, "p", "P", Body) == Done(t, None)
    ensures 0 in t.profiles && Wanted(t.profiles[0]) && t.profiles[0].name == "p" && KeyFor("p") !in t.legacy
    ensures Existing(t, 0).Some? && t.defs[Existing(t, 0).value].key == KeyFor("p")
  {
    EmptyIsReachable();
    ReachableInv(EMPTY);
    BodyIsValid();
    var p := Profile("p", "P", true, Body);
    NewProfileCompiles(EMPTY, p);
    StepIsReachable(Plain, EMPTY, OpCreateProfile("p", "P", Body));
    t := Materialize(WithNewProfile(EMPTY, p), 0, p).0;
    ReachesMaterialized(t, p);
    CompiledHasKey(t, 0);
    GeneratedHasNoLegacy(t, Existing(t, 0).value);
  }

  lemma ReachesMaterialized(t: Store, p: Profile)
    requires p == Profile("p", "P", true, Body) && t == Materialize(WithNewProfile(EMPTY, p), 0, p).0
    ensures CreateProfile(EMPTY, "p", "P", Body) == Done(t, None)
    ensures Apply(Plain, EMPTY, OpCreateProfile("p", "P", Body)) == t
  {
    BodyIsValid();
  }

  lemma GeneratedHasNoLegacy(t: Store, i: DefId)
    requires Reachable(t) && LiveAt(t.defs, i) && t.defs[i].source == Generated
    ensures t.defs[i].key !in t.legacy
  {
    ReachableInv(t);
    assert RowInv(t, i);
  }

  /** Created, deactivated and activated again: the profile wants an assistant and has none. */
  lemma ReactivatedProfileHasNone()
    ensures var s1 := CreateProfile(EMPTY, "p", "P", Body).store;
            var s2 := UpdateProfile(s1, 0, None, None, Some(false)).store;
            var s3 := UpdateProfile(s2, 0, None, None, Some(true)).store;
            && Existing(s1, 0).Some?
            && Reachable(s3) && 0 in s3.profiles && Wanted(s3.profiles[0]) && Existing(s3, 0) == None
  {
    var t := ProfileCreated();
    OffAndOn(t, 0);
  }

  lemma OffAndOn(s: Store, pid: ProfileId)
    requires Reachable(s) && pid in s.profiles && Wanted(s.profiles[pid]) && Existing(s, pid).Some?
    ensures var t := UpdateProfile(UpdateProfile(s, pid, None, None, Some(false)).store, pid, None, None,
            Some(true)).store;
            Reachable(t) && pid in t.profiles && Wanted(t.profiles[pid]) && Existing(t, pid) == None
  {
    var off := Switched(s, pid, false);
    ReachableInv(s);
    DeactivatingLeavesTombstone(s, pid);
    var on := Switched(off, pid, true);
    KeepsTombstone(off, OpUpdateProfile(pid, None, None, Some(true)), KeyFor(s.profiles[pid].name));
    NoneWhileMarked(on, pid);
  }

  lemma NoneWhileMarked(s: Store, pid: ProfileId)
    requires Reachable(s) && pid in s.profiles && Tombstone(s.defs, KeyFor(s.profiles[pid].name))
    ensures Existing(s, pid) == None
  {
    ReachableInv(s);
    DeadIsTombstone(s, KeyFor(s.profiles[pid].name));
    if Existing(s, pid).Some? {
      AssistantKey(s, pid);
      assert false;
    }
  }

  lemma Switched(s: Store, pid: ProfileId, active: bool) returns (t: Store)
    requires Reachable(s) && pid in s.profiles
    ensures Reachable(t) && t == UpdateProfile(s, pid, None, None, Some(active)).store
    ensures t == Apply(Plain, s, OpUpdateProfile(pid, None, None, Some(active)))
    ensures t.profiles == s.profiles[pid := s.profiles[pid].(active := active)]
  {
    var op := OpUpdateProfile(pid, None, None, Some(active));
    StepIsReachable(Plain, s, op);
    t := Apply(Plain, s, op);
    var p := s.profiles[pid].(active := active);
    CompilingKeepsProfiles(s.(profiles := s.profiles[pid := p]), pid, p);
  }

  /** A user assistant created under the key of a generated one takes its row. */
  lemma GeneratedRowIsTaken()
    ensures var s1 := CreateProfile(EMPTY, "p", "P", Body).store;
            var s2 := Create(Plain, s1, KeyFor("p"), Request, true);
            s2.error == None && Existing(s1, 0).Some? && Existing(s2.store, 0) == None
  {
    var t := ProfileCreated();
    ReachableInv(t);
    var i := Existing(t, 0).value;
    RequestIsAcceptable(t, KeyFor("p"));
    CreateTakesOverGeneratedRow(Plain, t, i, Request, true);
  }
}
