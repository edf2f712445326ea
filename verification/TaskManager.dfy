/**
 What every interleaving of the task manager guarantees, and the manager itself as an object.
 */
module TaskManager {
  import opened Prelude
  import opened TaskProtocol

  lemma {:induction false} RunKeepsInv(s: State, es: seq<Event>)
    requires Inv(s)
    ensures Inv(Run(s, es))
    decreases |es|
  {
    if es != [] {
      NextKeepsInv(s, es[0]);
      RunKeepsInv(Next(s, es[0]), es[1..]);
    }
  }

  // ---------------------------------------------------------------------------------------
  // Single flight
  // ---------------------------------------------------------------------------------------

  /** How many times along a run the factory's result is stored into `slot`. */
  ghost function Initialisations(s: State, es: seq<Event>, slot: SlotId): nat
    decreases |es|
  {
    if es == [] then 0
    else
      (if es[0].InitOk? && es[0].call in s.calls && s.calls[es[0].call] == Running(slot) then 1 else 0)
      + Initialisations(Next(s, es[0]), es[1..], slot)
  }

  lemma ReadyStays(s: State, e: Event, slot: SlotId)
    requires Inv(s) && CellOf(s, slot).Ready?
    ensures CellOf(Next(s, e), slot) == CellOf(s, slot)
  {
  }

  lemma {:induction false} InitialisedAtMostOnce(s: State, es: seq<Event>, slot: SlotId)
    requires Inv(s)
    ensures Initialisations(s, es, slot) <= if CellOf(s, slot).Ready? then 0 else 1
    decreases |es|
  {
    if es != [] {
      NextKeepsInv(s, es[0]);
      if CellOf(s, slot).Ready? { ReadyStays(s, es[0], slot); }
      InitialisedAtMostOnce(Next(s, es[0]), es[1..], slot);
    }
  }

  /** At most one factory call runs for `slot`. */
  ghost predicate OneBuilder(s: State, slot: SlotId) {
    forall c, d :: c in s.calls && d in s.calls && s.calls[c] == Running(slot) && s.calls[d] == Running(slot) ==> c == d
  }

  /** All callers that got `slot` and returned Ok hold the same instance. */
  ghost predicate SameInstance(s: State, slot: SlotId) {
    forall c, d :: c in s.calls && d in s.calls && s.calls[c].Returned? && s.calls[d].Returned? &&
                   s.calls[c].slot == slot && s.calls[d].slot == slot ==>
                     s.calls[c].instance == s.calls[d].instance
  }

  lemma InvSharesSlots(s: State, slot: SlotId)
    requires Inv(s)
    ensures OneBuilder(s, slot) && SameInstance(s, slot)
  {
    assert forall c :: c in s.calls ==> CallOk(s, c, s.calls[c]);
  }

  /**
   In every interleaving, failed and cancelled builds included: a slot is initialised at most
   once, at most one factory call runs per slot, and all callers that got a slot and returned
   Ok returned the same instance.
   */
  lemma SingleFlight(es: seq<Event>, slot: SlotId)
    ensures Initialisations(Init, es, slot) <= 1
    ensures OneBuilder(Run(Init, es), slot) && SameInstance(Run(Init, es), slot)
  {
    InitialisedAtMostOnce(Init, es, slot);
    RunKeepsInv(Init, es);
    InvSharesSlots(Run(Init, es), slot);
  }

  // ---------------------------------------------------------------------------------------
  // No instance is lost, except through an abandoned slot
  // ---------------------------------------------------------------------------------------

  ghost predicate BeingRemoved(s: State, i: Instance)
    requires i < |s.homes|
  {
    exists c :: HeldBy(s, s.homes[i], c)
  }

  ghost predicate Leaked(s: State, i: Instance)
    requires i < |s.homes|
  {
    s.homes[i] < |s.fate| && s.fate[s.homes[i]].Abandoned?
  }

  ghost predicate AccountedFor(s: State, i: Instance)
    requires i < |s.homes|
  {
    Mapped(s, s.homes[i]) || i in s.killed || BeingRemoved(s, i) || Leaked(s, i)
  }

  lemma InvAccounts(s: State, i: Instance)
    requires Inv(s) && i < |s.homes|
    ensures AccountedFor(s, i)
  {
    var slot := s.homes[i];
    if s.fate[slot].Held? { assert HeldBy(s, slot, s.fate[slot].holder); }
  }

  /**
   Every built instance is in the map's current slot, or was killed, or is held by a remover,
   or was built into a removed slot whose cell was empty when the remover looked.
   */
  lemma EveryInstanceIsAccountedFor(es: seq<Event>, i: Instance)
    requires i < |Run(Init, es).homes|
    ensures AccountedFor(Run(Init, es), i)
  {
    RunKeepsInv(Init, es);
    InvAccounts(Run(Init, es), i);
  }

  /** An instance somebody may still be using: neither killed nor in the hands of a remover. */
  ghost predicate Live(s: State, i: Instance) {
    i < |s.homes| && i !in s.killed && !BeingRemoved(s, i)
  }

  /** Two live instances of one conversation can only be there because one of them leaked. */
  lemma OneLiveInstancePerConversation(es: seq<Event>, i: Instance, j: Instance)
    requires var s := Run(Init, es);
             Live(s, i) && Live(s, j) && i != j &&
             s.homes[i] < |s.convs| && s.homes[j] < |s.convs| && s.convs[s.homes[i]] == s.convs[s.homes[j]]
    ensures var s := Run(Init, es); Leaked(s, i) || Leaked(s, j)
  {
    RunKeepsInv(Init, es);
    InvAccounts(Run(Init, es), i);
    InvAccounts(Run(Init, es), j);
  }

  /** Over any interleaving of kill, kill_and_wait and clear no instance is killed twice. */
  lemma NoInstanceIsKilledTwice(es: seq<Event>)
    ensures Distinct(Run(Init, es).killed)
  {
    RunKeepsInv(Init, es);
  }

  // ---------------------------------------------------------------------------------------
  // Exactly the leaked instances can never be killed again
  // ---------------------------------------------------------------------------------------

  ghost predicate Killable(s: State, i: Instance) {
    exists es :: i in Run(s, es).killed
  }

  lemma NextKeepsLeak(s: State, e: Event, i: Instance)
    requires Inv(s) && i < |s.homes| && Leaked(s, i)
    ensures i < |Next(s, e).homes| && Leaked(Next(s, e), i)
  {
  }

  lemma {:induction false} RunKeepsLeak(s: State, es: seq<Event>, i: Instance)
    requires Inv(s) && i < |s.homes| && Leaked(s, i)
    ensures Inv(Run(s, es)) && i < |Run(s, es).homes| && Leaked(Run(s, es), i)
    decreases |es|
  {
    if es != [] {
      NextKeepsInv(s, es[0]);
      NextKeepsLeak(s, es[0], i);
      RunKeepsLeak(Next(s, es[0]), es[1..], i);
    }
  }

  lemma FreshCall(calls: map<CallId, Call>) returns (c: CallId)
    ensures c !in calls
  {
    c := 0;
    var below: set<CallId> := {};
    while c in calls
      invariant forall k :: k in below ==> k < c
      invariant below <= calls.Keys
      decreases calls.Keys - below
    {
      below := below + {c};
      c := c + 1;
    }
  }

  lemma Run1(s: State, a: Event)
    ensures Run(s, [a]) == Next(s, a)
  {
  }

  lemma HeldIsKillable(s: State, i: Instance, c: CallId)
    requires Inv(s) && i < |s.homes| && HeldBy(s, s.homes[i], c)
    ensures Killable(s, i)
    decreases if s.calls[c].stage.Killing? then 0 else 1
  {
    if s.calls[c].stage.Killing? {
      Run1(s, Kill(c));
      assert CallOk(s, c, s.calls[c]);
      var killed := Next(s, Kill(c)).killed;
      assert killed[|killed| - 1] == i;
      assert i in Run(s, [Kill(c)]).killed;
    } else {
      assert CallOk(s, c, s.calls[c]);
      NextKeepsInv(s, Look(c));
      var t := Next(s, Look(c));
      HeldIsKillable(t, i, c);
      KillableBefore(s, Look(c), i);
    }
  }

  lemma MappedIsKillable(s: State, i: Instance)
    requires Inv(s) && i < |s.homes| && Mapped(s, s.homes[i])
    ensures Killable(s, i)
  {
    var c := FreshCall(s.calls);
    var a, b := Remove(c, [s.convs[s.homes[i]]]), Take(c);
    var t := Next(s, a);
    var u := Next(t, b);
    NextKeepsInv(s, a);
    NextKeepsInv(t, b);
    assert HeldBy(u, u.homes[i], c);
    HeldIsKillable(u, i, c);
    KillableBefore(t, b, i);
    KillableBefore(s, a, i);
  }

  lemma KillableBefore(s: State, e: Event, i: Instance)
    requires Killable(Next(s, e), i)
    ensures Killable(s, i)
  {
    var es :| i in Run(Next(s, e), es).killed;
    assert ([e] + es)[1..] == es;
    assert Run(s, [e] + es) == Run(Next(s, e), es);
  }

  lemma KillableIff(s: State, i: Instance)
    requires Inv(s) && i < |s.homes|
    ensures Killable(s, i) <==> !Leaked(s, i)
  {
    if Leaked(s, i) {
      forall es
        ensures i !in Run(s, es).killed
      {
        RunKeepsLeak(s, es, i);
      }
    } else {
      InvAccounts(s, i);
      if i in s.killed {
        assert i in Run(s, []).killed;
      } else if Mapped(s, s.homes[i]) {
        MappedIsKillable(s, i);
      } else {
        var c :| HeldBy(s, s.homes[i], c);
        HeldIsKillable(s, i, c);
      }
    }
  }

  /**
   From every reachable state, an instance is killed by some continuation if and only if it has
   not leaked: what the remover missed, the manager can never stop.
   */
  lemma KillableIffNotLeaked(es: seq<Event>, i: Instance)
    requires i < |Run(Init, es).homes|
    ensures Killable(Run(Init, es), i) <==> !Leaked(Run(Init, es), i)
  {
    RunKeepsInv(Init, es);
    KillableIff(Run(Init, es), i);
  }

  /** A kill that takes the slot and looks while the first build is in flight; then a second build. */
  const RemoveDuringBuild := [Get(0, "c"), BeginInit(0), Remove(1, ["c"]), Take(1), Look(1)]
  const BuildTwice := [Get(2, "c"), BeginInit(2), InitOk(2), InitOk(0)]
  const Orphaned :=
    State(map[], [Building(0)], map[0 := Running(0), 1 := Removing([], Idle)], [], ["c"], [], [Abandoned])
  const TwoTasks :=
    State(map["c" := 1], [Ready(1), Ready(0)],
          map[0 := Returned(0, 1), 1 := Removing([], Idle), 2 := Returned(1, 0)], [], ["c", "c"], [1, 0],
              [Abandoned, InMap])

  lemma Run2(s: State, a: Event, b: Event)
    ensures Run(s, [a, b]) == Next(Next(s, a), b)
  {
    assert [a, b][1..] == [b];
    Run1(Next(s, a), b);
  }

  lemma RemoveDuringBuildAbandons()
    ensures Run(Init, RemoveDuringBuild) == Orphaned
  {
    assert RemoveDuringBuild == [Get(0, "c"), BeginInit(0)] + ([Remove(1, ["c"]), Take(1)] + [Look(1)]);
    RunAppend(Init, [Get(0, "c"), BeginInit(0)], [Remove(1, ["c"]), Take(1)] + [Look(1)]);
    BuildBegins();
    RunAppend(Begun, [Remove(1, ["c"]), Take(1)], [Look(1)]);
    SlotIsTaken();
    Run1(Taken, Look(1));
  }

  const Begun := State(map["c" := 0], [Building(0)], map[0 := Running(0)], [], ["c"], [], [InMap])
  const Taken :=
    State(map[], [Building(0)], map[0 := Running(0), 1 := Removing([], Looking(0))], [], ["c"], [], [Held(1)])

  lemma BuildBegins()
    ensures Run(Init, [Get(0, "c"), BeginInit(0)]) == Begun
  {
    Run2(Init, Get(0, "c"), BeginInit(0));
  }

  lemma SlotIsTaken()
    ensures Run(Begun, [Remove(1, ["c"]), Take(1)]) == Taken
  {
    Run2(Begun, Remove(1, ["c"]), Take(1));
    assert ["c"][1..] == [];
  }

  lemma BuildTwiceLeavesTwo()
    ensures Run(Orphaned, BuildTwice) == TwoTasks
  {
    var a, b := [Get(2, "c"), BeginInit(2)], [InitOk(2), InitOk(0)];
    assert BuildTwice == a + b;
    RunAppend(Orphaned, a, b);
    Run2(Orphaned, a[0], a[1]);
    Run2(Run(Orphaned, a), b[0], b[1]);
  }

  lemma TwoTasksAreLive()
    ensures Live(TwoTasks, 0) && Live(TwoTasks, 1) && Leaked(TwoTasks, 1)
  {
    assert forall c :: c in TwoTasks.calls && TwoTasks.calls[c].Removing? ==> TwoTasks.calls[c].stage == Idle;
  }

  /**
   "Each conversation has at most one active task" fails: a kill that looks while the build is
   in flight leaves a second instance behind, and nothing can kill it any more.
   */
  lemma ConversationCanHaveTwoTasks()
    ensures var s := Run(Init, RemoveDuringBuild + BuildTwice);
            Live(s, 0) && Live(s, 1) && s.homes[0] < |s.convs| && s.homes[1] < |s.convs| &&
            s.convs[s.homes[0]] == s.convs[s.homes[1]] && !Killable(s, 1)
  {
    var es := RemoveDuringBuild + BuildTwice;
    RunAppend(Init, RemoveDuringBuild, BuildTwice);
    RemoveDuringBuildAbandons();
    BuildTwiceLeavesTwo();
    assert Run(Init, es) == TwoTasks;
    TwoTasksAreLive();
    KillableIffNotLeaked(es, 1);
  }

  // ---------------------------------------------------------------------------------------
  // The manager as an object
  // ---------------------------------------------------------------------------------------

  /** What taking `conv` out of the map kills. */
  function Victims(tasks: map<Conversation, SlotId>, cells: seq<Cell>, conv: Conversation): seq<Instance> {
    if conv in tasks && tasks[conv] < |cells| && cells[tasks[conv]].Ready? then [cells[tasks[conv]].instance] else []
  }

  ghost predicate Reachable(s: State) {
    exists es :: s == Run(Init, es)
  }

  lemma ReachableInv(s: State)
    requires Reachable(s)
    ensures Inv(s)
  {
    var es :| s == Run(Init, es);
    RunKeepsInv(Init, es);
  }

  lemma ReachableNext(s: State, e: Event)
    requires Reachable(s)
    ensures Reachable(Next(s, e))
  {
    var es :| s == Run(Init, es);
    RunAppend(Init, es, [e]);
    Run1(s, e);
  }

  lemma TakeStep(s: State, c: CallId) returns (t: State)
    requires Reachable(s) && c in s.calls && s.calls[c].Removing? && s.calls[c].stage.Idle? && s.calls[c].todo != []
    ensures Reachable(t) && t.cells == s.cells && t.homes == s.homes && t.killed == s.killed
    ensures var Removing(todo, _) := s.calls[c];
            && t.tasks == s.tasks - {todo[0]}
            && t.calls == s.calls[c := Removing(todo[1..], if todo[0] in s.tasks then Looking(s.tasks[todo[0]])
                else Idle)]
  {
    ReachableNext(s, Take(c));
    t := Next(s, Take(c));
    assert s.calls[c].todo[0] !in s.tasks ==> s.tasks - {s.calls[c].todo[0]} == s.tasks;
  }

  lemma LookStep(s: State, c: CallId) returns (t: State)
    requires Reachable(s) && c in s.calls && s.calls[c].Removing? && s.calls[c].stage.Looking?
    requires s.calls[c].stage.slot < |s.cells|
    ensures Reachable(t) && t.cells == s.cells && t.homes == s.homes && t.tasks == s.tasks && t.killed == s.killed
    ensures var Removing(todo, Looking(slot)) := s.calls[c];
            t.calls == s.calls[c := Removing(todo, if s.cells[slot].Ready? then Killing(s.cells[slot].instance, slot)
                else Idle)]
  {
    ReachableNext(s, Look(c));
    t := Next(s, Look(c));
  }

  lemma KillStep(s: State, c: CallId) returns (t: State)
    requires Reachable(s) && c in s.calls && s.calls[c].Removing? && s.calls[c].stage.Killing?
    ensures Reachable(t) && t.cells == s.cells && t.homes == s.homes && t.tasks == s.tasks
    ensures t.killed == s.killed + [s.calls[c].stage.instance]
    ensures t.calls == s.calls[c := Removing(s.calls[c].todo, Idle)]
  {
    ReachableNext(s, Kill(c));
    t := Next(s, Kill(c));
  }

  /** One turn of a remover's loop, uninterrupted: take the key, look, kill what is there. */
  lemma RemoveHead(s: State, c: CallId) returns (t: State)
    requires Reachable(s) && c in s.calls && s.calls[c].Removing? && s.calls[c].stage.Idle? && s.calls[c].todo != []
    ensures Reachable(t) && t.cells == s.cells && t.homes == s.homes
    ensures t.tasks == s.tasks - {s.calls[c].todo[0]}
    ensures t.killed == s.killed + Victims(s.tasks, s.cells, s.calls[c].todo[0])
    ensures t.calls == s.calls[c := Removing(s.calls[c].todo[1..], Idle)]
  {
    ReachableInv(s);
    t := TakeStep(s, c);
    if t.calls[c].stage.Looking? {
      t := LookStep(t, c);
      if t.calls[c].stage.Killing? { t := KillStep(t, c); }
    }
  }

  lemma StartRemoval(s: State, c: CallId, keys: seq<Conversation>) returns (t: State)
    requires Reachable(s) && c !in s.calls
    ensures Reachable(t) && t == s.(calls := s.calls[c := Removing(keys, Idle)])
  {
    ReachableNext(s, Remove(c, keys));
    t := Next(s, Remove(c, keys));
  }

  lemma GetStep(s: State, c: CallId, conv: Conversation) returns (t: State)
    requires Reachable(s) && c !in s.calls
    ensures Reachable(t) && t.homes == s.homes && t.killed == s.killed
    ensures conv in s.tasks ==> t.tasks == s.tasks && t.cells == s.cells
    ensures conv !in s.tasks ==> t.tasks == s.tasks[conv := |s.cells|] && t.cells == s.cells + [Empty]
    ensures t.calls == s.calls[c := Waiting(t.tasks[conv])]
    ensures t.tasks[conv] < |t.cells|
  {
    ReachableInv(s);
    ReachableNext(s, Get(c, conv));
    t := Next(s, Get(c, conv));
  }

  lemma BeginStep(s: State, c: CallId, slot: SlotId) returns (t: State)
    requires Reachable(s) && c in s.calls && s.calls[c] == Waiting(slot) && slot < |s.cells| && s.cells[slot].Empty?
    ensures Reachable(t) && t.tasks == s.tasks && t.killed == s.killed && t.homes == s.homes
    ensures t.cells == s.cells[slot := Building(c)] && t.calls == s.calls[c := Running(slot)]
  {
    ReachableNext(s, BeginInit(c));
    t := Next(s, BeginInit(c));
  }

  lemma BuildStep(s: State, c: CallId, slot: SlotId, ok: bool) returns (t: State)
    requires Reachable(s) && c in s.calls && s.calls[c] == Waiting(slot) && slot < |s.cells| && s.cells[slot].Empty?
    ensures Reachable(t) && t.tasks == s.tasks && t.killed == s.killed && t.calls.Keys == s.calls.Keys
    ensures t.cells == s.cells[slot := if ok then Ready(|s.homes|) else Empty]
    ensures |t.homes| == |s.homes| + if ok then 1 else 0
  {
    var u := BeginStep(s, c, slot);
    if ok { t := StoreStep(u, c, slot); } else { t := ReleaseStep(u, c, slot); }
  }

  lemma StoreStep(s: State, c: CallId, slot: SlotId) returns (t: State)
    requires Reachable(s) && c in s.calls && s.calls[c] == Running(slot) && slot < |s.cells|
    ensures Reachable(t) && t.tasks == s.tasks && t.killed == s.killed && t.calls.Keys == s.calls.Keys
    ensures t.cells == s.cells[slot := Ready(|s.homes|)] && |t.homes| == |s.homes| + 1
  {
    ReachableNext(s, InitOk(c));
    t := Next(s, InitOk(c));
  }

  lemma ReleaseStep(s: State, c: CallId, slot: SlotId) returns (t: State)
    requires Reachable(s) && c in s.calls && s.calls[c] == Running(slot) && slot < |s.cells|
    ensures Reachable(t) && t.tasks == s.tasks && t.killed == s.killed && t.calls.Keys == s.calls.Keys
    ensures t.cells == s.cells[slot := Empty] && t.homes == s.homes
  {
    ReachableNext(s, InitErr(c));
    t := Next(s, InitErr(c));
  }

  /** Everything killed by removing `keys`, one after the other. */
  ghost function AllVictims(
      tasks: map<Conversation, SlotId>, cells: seq<Cell>, keys: seq<Conversation>): seq<Instance> {
    if keys == [] then []
    else Victims(tasks, cells, keys[0]) + AllVictims(tasks - {keys[0]}, cells, keys[1..])
  }

  lemma VictimsAfter(tasks: map<Conversation, SlotId>, cells: seq<Cell>, gone: Conversation, k: Conversation)
    ensures Victims(tasks - {gone}, cells, k) == if k == gone then [] else Victims(tasks, cells, k)
  {
  }

  lemma {:induction false} AllVictimsMembers(
      tasks: map<Conversation, SlotId>, cells: seq<Cell>, keys: seq<Conversation>, i: Instance)
    ensures i in AllVictims(tasks, cells, keys) <==> exists k :: k in keys && Victims(tasks, cells, k) == [i]
    decreases |keys|
  {
    if keys != [] {
      var first, rest := keys[0], tasks - {keys[0]};
      AllVictimsMembers(rest, cells, keys[1..], i);
      forall k
        ensures Victims(rest, cells, k) == if k == first then [] else Victims(tasks, cells, k)
      {
        VictimsAfter(tasks, cells, first, k);
      }
      assert forall k :: k in keys <==> k == first || k in keys[1..];
    }
  }

  /**
   The manager driven by one caller at a time.  `view` is the state of the step system its
   fields project, and a reachable one, so everything proved of runs holds of the object.
   */
  class WorkerTaskManager {
    var tasks: map<Conversation, SlotId>
    var cells: seq<Cell>
    var killed: seq<Instance>
    var built: nat
    var nextCall: nat
    ghost var view: State

    ghost predicate Valid()
      reads this
    {
      && Reachable(view)
      && view.tasks == tasks && view.cells == cells && view.killed == killed && |view.homes| == built
      && (forall c :: c in view.calls ==> c < nextCall)
      && (forall k :: 0 <= k < |cells| ==> !cells[k].Building?)
    }

    constructor ()
      ensures Valid() && tasks == map[] && killed == []
    {
      tasks, cells, killed, built, nextCall, view := map[], [], [], 0, 0, Init;
      assert Init == Run(Init, []);
    }

    /** `kill` and `kill_and_wait`. */
    method Kill(conv: Conversation)
      requires Valid()
      modifies this
      ensures Valid() && cells == old(cells) && built == old(built)
      ensures tasks == old(tasks) - {conv}
      ensures killed == old(killed) + Victims(old(tasks), cells, conv)
      ensures Distinct(killed)
    {
      var c := nextCall;
      nextCall := nextCall + 1;
      view := StartRemoval(view, c, [conv]);
      RemoveKey(c, conv);
      ReachableInv(view);
    }

    /** The body of the removers' loop. */
    method RemoveKey(c: CallId, key: Conversation)
      requires Valid() && c in view.calls && view.calls[c].Removing? && view.calls[c].stage.Idle?
      requires view.calls[c].todo != [] && view.calls[c].todo[0] == key
      modifies this`tasks, this`killed, this`view
      ensures Valid()
      ensures tasks == old(tasks) - {key}
      ensures killed == old(killed) + Victims(old(tasks), cells, key)
      ensures c in view.calls && view.calls[c] == Removing(old(view.calls[c].todo)[1..], Idle)
    {
      ReachableInv(view);
      view := RemoveHead(view, c);
      if key in tasks {
        var slot := tasks[key];
        tasks := tasks - {key};
        if cells[slot].Ready? {
          killed := killed + [cells[slot].instance];
        }
      }
    }

    /** `clear` run alone: an empty map, and every initialised instance in it killed, once. */
    method Clear()
      requires Valid()
      modifies this
      ensures Valid() && cells == old(cells) && built == old(built)
      ensures tasks == map[]
      ensures old(killed) <= killed && Distinct(killed)
      ensures forall i :: i in killed[|old(killed)|..] <==>
                exists conv :: conv in old(tasks) && Victims(old(tasks), cells, conv) == [i]
    {
      var keys := SnapshotKeys();
      var c := nextCall;
      nextCall := nextCall + 1;
      view := StartRemoval(view, c, keys);
      RemoveAll(c, keys);
      forall i: Instance
        ensures i in AllVictims(old(tasks), cells, keys) <==>
                exists k :: k in keys && Victims(old(tasks), cells, k) == [i]
      {
        AllVictimsMembers(old(tasks), cells, keys, i);
      }
      ReachableInv(view);
    }

    /** The loop of `clear` over its snapshot of keys. */
    method RemoveAll(c: CallId, keys: seq<Conversation>)
      requires Valid() && c in view.calls && view.calls[c] == Removing(keys, Idle)
      requires forall k :: k in tasks ==> k in keys
      modifies this`tasks, this`killed, this`view
      ensures Valid() && tasks == map[]
      ensures killed == old(killed) + AllVictims(old(tasks), cells, keys)
    {
      var n := 0;
      assert keys[0..] == keys;
      while n < |keys|
        invariant 0 <= n <= |keys|
        invariant Valid() && c in view.calls && view.calls[c] == Removing(keys[n..], Idle)
        invariant forall k :: k in tasks ==> k in keys[n..]
        invariant killed + AllVictims(tasks, cells, keys[n..]) == old(killed) + AllVictims(old(tasks), cells, keys)
      {
        RemoveNth(c, keys, n);
        n := n + 1;
      }
      assert keys[n..] == [];
    }

    method RemoveNth(c: CallId, keys: seq<Conversation>, n: nat)
      requires Valid() && n < |keys| && c in view.calls && view.calls[c] == Removing(keys[n..], Idle)
      modifies this`tasks, this`killed, this`view
      ensures Valid() && c in view.calls && view.calls[c] == Removing(keys[n + 1..], Idle)
      ensures (forall k :: k in old(tasks) ==> k in keys[n..]) ==> forall k :: k in tasks ==> k in keys[n + 1..]
      ensures killed + AllVictims(tasks, cells, keys[n + 1..]) == old(killed) + AllVictims(old(tasks), cells, keys[n..])
    {
      assert keys[n..][0] == keys[n] && keys[n..][1..] == keys[n + 1..];
      RemoveKey(c, keys[n]);
    }

    /** The keys of the map, each once, in whatever order the map yields them. */
    method SnapshotKeys() returns (keys: seq<Conversation>)
      ensures Distinct(keys) && forall k :: k in keys <==> k in tasks
    {
      keys := [];
      var rest := tasks.Keys;
      while rest != {}
        invariant Distinct(keys)
        invariant forall k :: k in tasks <==> (k in keys || k in rest)
        invariant forall k :: k in keys ==> k !in rest
        decreases rest
      {
        var k :| k in rest;
        rest := rest - {k};
        keys := keys + [k];
      }
    }

    /** `get_or_build_task` with no other caller about; `ok` is what the factory answers if asked. */
    method GetOrBuildTask(conv: Conversation, ok: bool) returns (r: Option<Instance>)
      requires Valid()
      modifies this
      ensures Valid() && killed == old(killed)
      ensures tasks.Keys == old(tasks).Keys + {conv} && forall k :: k in old(tasks) ==> tasks[k] == old(tasks)[k]
      ensures Victims(old(tasks), old(cells), conv) != [] ==>
                r == Some(Victims(old(tasks), old(cells), conv)[0]) && built == old(built)
      ensures Victims(old(tasks), old(cells), conv) == [] ==>
                if ok then r == Some(old(built)) && built == old(built) + 1 else r == None && built == old(built)
      ensures r.Some? ==> Victims(tasks, cells, conv) == [r.value]
    {
      var c, slot := EntryFor(conv);
      if cells[slot].Ready? {
        r := Some(cells[slot].instance);
      } else {
        RunBuild(c, slot, ok);
        r := if ok then Some(built - 1) else None;
      }
    }

    /** The conversation's slot, new and empty if it had none, and the call that got it. */
    method EntryFor(conv: Conversation) returns (c: CallId, slot: SlotId)
      requires Valid()
      modifies this`tasks, this`cells, this`nextCall, this`view
      ensures Valid() && c in view.calls && view.calls[c] == Waiting(slot) && slot < |cells|
      ensures tasks == old(tasks)[conv := slot]
      ensures conv in old(tasks) ==> slot == old(tasks)[conv] && slot < |old(cells)| && cells == old(cells)
      ensures conv !in old(tasks) ==> slot == |old(cells)| && cells == old(cells) + [Empty]
    {
      c := nextCall;
      nextCall := nextCall + 1;
      view := GetStep(view, c, conv);
      if conv !in tasks {
        tasks := tasks[conv := |cells|];
        cells := cells + [Empty];
      }
      slot := tasks[conv];
    }

    /** The factory call: its result is stored, or the cell stays empty for a later caller. */
    method RunBuild(c: CallId, slot: SlotId, ok: bool)
      requires Valid() && c in view.calls && view.calls[c] == Waiting(slot)
      requires slot < |cells| && cells[slot].Empty?
      modifies this`cells, this`built, this`view
      ensures Valid()
      ensures cells == if ok then old(cells)[slot := Ready(old(built))] else old(cells)
      ensures built == if ok then old(built) + 1 else old(built)
    {
      view := BuildStep(view, c, slot, ok);
      if ok {
        cells := cells[slot := Ready(built)];
        built := built + 1;
      }
    }
  }
}
