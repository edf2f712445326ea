/**
 When a conversation can have two live instances: exactly when a remover gives up on a slot whose
 cell is not set while some call is still waiting for it or building into it.
 */
module TaskLeaks {
  import opened TaskProtocol
  import opened TaskManager

  /** The instances still in use are those in the map and those that leaked, in every reachable state. */
  lemma LiveIff(es: seq<Event>, i: Instance)
    requires i < |Run(Init, es).homes|
    ensures var s := Run(Init, es);
            Live(s, i) <==> Mapped(s, s.homes[i]) || Leaked(s, i)
  {
    RunKeepsInv(Init, es);
    InvLiveIff(Run(Init, es), i);
  }

  lemma InvLiveIff(s: State, i: Instance)
    requires Inv(s) && i < |s.homes|
    ensures Live(s, i) <==> Mapped(s, s.homes[i]) || Leaked(s, i)
  {
    InvAccounts(s, i);
    var k := s.homes[i];
    forall c
      ensures HeldBy(s, k, c) ==> s.fate[k] == Held(c)
    {
      if c in s.calls { assert CallOk(s, c, s.calls[c]); }
    }
  }

  // ---------------------------------------------------------------------------------------
  // Slots out of the map
  // ---------------------------------------------------------------------------------------

  /** A call that may yet build into the slot. */
  ghost predicate Wanted(s: State, k: SlotId) {
    exists c :: c in s.calls && (s.calls[c] == Waiting(k) || s.calls[c] == Running(k))
  }

  ghost predicate IsAbandoned(s: State, k: SlotId) {
    k < |s.fate| && s.fate[k].Abandoned?
  }

  /** An abandoned slot that nobody waits for stays as it is. */
  ghost predicate Dead(s: State, k: SlotId) {
    IsAbandoned(s, k) && !CellOf(s, k).Ready? && !Wanted(s, k)
  }

  lemma NotMappedWhenAbandoned(s: State, k: SlotId)
    requires Inv(s) && IsAbandoned(s, k)
    ensures forall conv :: conv in s.tasks ==> s.tasks[conv] != k
  {
    assert !Mapped(s, k);
  }

  lemma CallsJoinOnlyMappedSlots(s: State, e: Event, c: CallId, k: SlotId)
    requires Inv(s) && IsAbandoned(s, k)
    requires c in Next(s, e).calls && (Next(s, e).calls[c] == Waiting(k) || Next(s, e).calls[c] == Running(k))
    ensures c in s.calls && (s.calls[c] == Waiting(k) || s.calls[c] == Running(k))
  {
    NotMappedWhenAbandoned(s, k);
  }

  lemma NextKeepsAbandoned(s: State, e: Event, k: SlotId)
    requires Inv(s) && IsAbandoned(s, k)
    ensures IsAbandoned(Next(s, e), k)
  {
  }

  lemma OnlyRunningCallsSetCells(s: State, e: Event, k: SlotId)
    requires Inv(s) && k < |s.cells| && !s.cells[k].Ready? && CellOf(Next(s, e), k).Ready?
    ensures Wanted(s, k)
  {
    assert e.call in s.calls && s.calls[e.call] == Running(k);
  }

  lemma NextKeepsDead(s: State, e: Event, k: SlotId)
    requires Inv(s) && Dead(s, k)
    ensures Dead(Next(s, e), k)
  {
    NextKeepsAbandoned(s, e, k);
    if CellOf(Next(s, e), k).Ready? { OnlyRunningCallsSetCells(s, e, k); }
    if Wanted(Next(s, e), k) {
      var c :| c in Next(s, e).calls && (Next(s, e).calls[c] == Waiting(k) || Next(s, e).calls[c] == Running(k));
      CallsJoinOnlyMappedSlots(s, e, c, k);
    }
  }

  lemma {:induction false} RunKeepsDead(s: State, es: seq<Event>, k: SlotId)
    requires Inv(s) && Dead(s, k)
    ensures Dead(Run(s, es), k)
    decreases |es|
  {
    if es != [] {
      NextKeepsInv(s, es[0]);
      NextKeepsDead(s, es[0], k);
      RunKeepsDead(Next(s, es[0]), es[1..], k);
    }
  }

  // ---------------------------------------------------------------------------------------
  // Builds that can still be completed
  // ---------------------------------------------------------------------------------------

  ghost predicate SomeBuild(s: State, k: SlotId) {
    exists es :: CellOf(Run(s, es), k).Ready?
  }

  lemma RunCons(s: State, e: Event, es: seq<Event>)
    ensures Run(s, [e] + es) == Run(Next(s, e), es)
  {
    assert ([e] + es)[1..] == es;
  }

  lemma RunningBuilds(s: State, k: SlotId, c: CallId)
    requires Inv(s) && c in s.calls && s.calls[c] == Running(k)
    ensures CellOf(Run(s, [InitOk(c)]), k).Ready?
  {
    assert CallOk(s, c, s.calls[c]);
    Run1(s, InitOk(c));
  }

  lemma WantedBuilds(s: State, k: SlotId)
    requires Inv(s) && k < |s.cells| && Wanted(s, k)
    ensures SomeBuild(s, k)
  {
    var c :| c in s.calls && (s.calls[c] == Waiting(k) || s.calls[c] == Running(k));
    if s.calls[c] == Running(k) {
      RunningBuilds(s, k, c);
    } else if s.cells[k].Building? {
      RunningBuilds(s, k, s.cells[k].builder);
    } else if s.cells[k].Ready? {
      assert CellOf(Run(s, []), k).Ready?;
    } else {
      var t := Next(s, BeginInit(c));
      NextKeepsInv(s, BeginInit(c));
      RunningBuilds(t, k, c);
      RunCons(s, BeginInit(c), [InitOk(c)]);
    }
  }

  /**
   In every reachable state, an instance can still be built into an abandoned slot whose cell is not
   set if and only if a call waits for the slot or is building into it.
   */
  lemma AbandonedSlotIsBuiltIff(es: seq<Event>, k: SlotId)
    requires IsAbandoned(Run(Init, es), k) && !CellOf(Run(Init, es), k).Ready?
    ensures SomeBuild(Run(Init, es), k) <==> Wanted(Run(Init, es), k)
  {
    RunKeepsInv(Init, es);
    AbandonedBuildsIff(Run(Init, es), k);
  }

  lemma AbandonedBuildsIff(s: State, k: SlotId)
    requires Inv(s) && IsAbandoned(s, k) && !CellOf(s, k).Ready?
    ensures SomeBuild(s, k) <==> Wanted(s, k)
  {
    if Wanted(s, k) {
      WantedBuilds(s, k);
    } else {
      forall fs
        ensures !CellOf(Run(s, fs), k).Ready?
      {
        RunKeepsDead(s, fs, k);
      }
    }
  }

  // ---------------------------------------------------------------------------------------
  // Runs in which every remover looks in time
  // ---------------------------------------------------------------------------------------

  /** A remover gives up on a slot for which a build is still to come. */
  ghost predicate Misses(s: State, e: Event) {
    && e.Look? && e.call in s.calls && s.calls[e.call].Removing? && s.calls[e.call].stage.Looking?
    && !CellOf(s, s.calls[e.call].stage.slot).Ready? && Wanted(s, s.calls[e.call].stage.slot)
  }

  ghost predicate NoMiss(s: State, es: seq<Event>)
    decreases |es|
  {
    es == [] || (!Misses(s, es[0]) && NoMiss(Next(s, es[0]), es[1..]))
  }

  ghost predicate AllAbandonedDead(s: State) {
    forall k :: IsAbandoned(s, k) ==> Dead(s, k)
  }

  lemma NewlyAbandoned(s: State, e: Event, k: SlotId)
    requires Inv(s) && IsAbandoned(Next(s, e), k) && !IsAbandoned(s, k)
    ensures e.Look? && e.call in s.calls && s.calls[e.call].Removing? && s.calls[e.call].stage == Looking(k)
    ensures !CellOf(s, k).Ready?
    ensures Next(s, e).cells == s.cells
    ensures Wanted(Next(s, e), k) <==> Wanted(s, k)
  {
    OnlyLooksAbandon(s, e, k);
    LookingLeavesWanted(s, e.call, k);
  }

  lemma OnlyLooksAbandon(s: State, e: Event, k: SlotId)
    requires Inv(s) && IsAbandoned(Next(s, e), k) && !IsAbandoned(s, k)
    ensures e.Look? && e.call in s.calls && s.calls[e.call].Removing? && s.calls[e.call].stage == Looking(k)
    ensures !CellOf(s, k).Ready?
  {
  }

  lemma LookingLeavesWanted(s: State, c: CallId, k: SlotId)
    requires c in s.calls && s.calls[c].Removing? && s.calls[c].stage == Looking(k)
    ensures Next(s, Look(c)).cells == s.cells
    ensures Wanted(Next(s, Look(c)), k) <==> Wanted(s, k)
  {
    var t := Next(s, Look(c));
    assert forall d :: d != c ==> (d in t.calls <==> d in s.calls) && (d in s.calls ==> t.calls[d] == s.calls[d]);
    assert t.calls[c].Removing?;
  }

  lemma NextKeepsAbandonedDead(s: State, e: Event)
    requires Inv(s) && AllAbandonedDead(s) && !Misses(s, e)
    ensures AllAbandonedDead(Next(s, e))
  {
    forall k | IsAbandoned(Next(s, e), k)
      ensures Dead(Next(s, e), k)
    {
      if IsAbandoned(s, k) { NextKeepsDead(s, e, k); } else { NewlyAbandoned(s, e, k); }
    }
  }

  lemma {:induction false} RunKeepsAbandonedDead(s: State, es: seq<Event>)
    requires Inv(s) && AllAbandonedDead(s) && NoMiss(s, es)
    ensures Inv(Run(s, es)) && AllAbandonedDead(Run(s, es))
    decreases |es|
  {
    if es != [] {
      NextKeepsInv(s, es[0]);
      NextKeepsAbandonedDead(s, es[0]);
      RunKeepsAbandonedDead(Next(s, es[0]), es[1..]);
    }
  }

  /** Two live instances of one conversation. */
  ghost predicate TwoLive(s: State, i: Instance, j: Instance) {
    && Live(s, i) && Live(s, j) && i != j
    && s.homes[i] < |s.convs| && s.homes[j] < |s.convs| && s.convs[s.homes[i]] == s.convs[s.homes[j]]
  }

  /** "Each conversation has at most one active task" holds of every run in which no remover misses a build. */
  lemma WithoutMissesOneTask(es: seq<Event>, i: Instance, j: Instance)
    requires NoMiss(Init, es)
    ensures !TwoLive(Run(Init, es), i, j)
  {
    SafeRun(es);
    if TwoLive(Run(Init, es), i, j) { OneSlotOneInstance(Run(Init, es), i, j); }
  }

  lemma SafeRun(es: seq<Event>)
    requires NoMiss(Init, es)
    ensures Inv(Run(Init, es)) && AllAbandonedDead(Run(Init, es))
  {
    NothingAbandonedYet();
    RunKeepsAbandonedDead(Init, es);
  }

  lemma NothingAbandonedYet()
    ensures Inv(Init) && AllAbandonedDead(Init)
  {
  }

  /** With every abandoned slot dead, what is live is in the map, once for a conversation. */
  lemma OneSlotOneInstance(s: State, i: Instance, j: Instance)
    requires Inv(s) && AllAbandonedDead(s) && Live(s, i) && Live(s, j)
    requires s.homes[i] < |s.convs| && s.homes[j] < |s.convs| && s.convs[s.homes[i]] == s.convs[s.homes[j]]
    ensures i == j
  {
    InvLiveIff(s, i);
    InvLiveIff(s, j);
    assert CellOf(s, s.homes[i]) == Ready(i) && CellOf(s, s.homes[j]) == Ready(j);
    assert !IsAbandoned(s, s.homes[i]) && !IsAbandoned(s, s.homes[j]);
  }

  // ---------------------------------------------------------------------------------------
  // After a miss
  // ---------------------------------------------------------------------------------------

  /** An instance for `conv` can be had in the map from any state. */
  lemma MappedBuilds(s: State, conv: Conversation) returns (es: seq<Event>)
    requires Inv(s)
    ensures var t := Run(s, es); conv in t.tasks && CellOf(t, t.tasks[conv]).Ready?
  {
    if conv in s.tasks && s.cells[s.tasks[conv]].Ready? {
      es := [];
    } else if conv in s.tasks && s.cells[s.tasks[conv]].Building? {
      es := [InitOk(s.cells[s.tasks[conv]].builder)];
      RunningBuilds(s, s.tasks[conv], s.cells[s.tasks[conv]].builder);
      Run1(s, es[0]);
    } else {
      var c := FreshCall(s.calls);
      var t := Next(s, Get(c, conv));
      NextKeepsInv(s, Get(c, conv));
      WaitingBuilds(t, c, conv);
      es := [Get(c, conv)] + ([BeginInit(c)] + [InitOk(c)]);
      RunCons(s, Get(c, conv), [BeginInit(c)] + [InitOk(c)]);
    }
  }

  lemma WaitingBuilds(t: State, c: CallId, conv: Conversation)
    requires Inv(t) && conv in t.tasks && c in t.calls && t.calls[c] == Waiting(t.tasks[conv])
    requires CellOf(t, t.tasks[conv]).Empty?
    ensures var u := Run(t, [BeginInit(c)] + [InitOk(c)]); conv in u.tasks && CellOf(u, u.tasks[conv]).Ready?
  {
    var u := Next(t, BeginInit(c));
    NextKeepsInv(t, BeginInit(c));
    RunningBuilds(u, t.tasks[conv], c);
    Run1(u, InitOk(c));
    RunCons(t, BeginInit(c), [InitOk(c)]);
  }

  /** The names of slots never change. */
  lemma {:induction false} RunKeepsConvs(s: State, es: seq<Event>, k: SlotId)
    requires k < |s.convs|
    ensures k < |Run(s, es).convs| && Run(s, es).convs[k] == s.convs[k]
    decreases |es|
  {
    if es != [] {
      assert k < |Next(s, es[0]).convs| && Next(s, es[0]).convs[k] == s.convs[k];
      RunKeepsConvs(Next(s, es[0]), es[1..], k);
    }
  }

  /** Two instances, one of them in slot `k`, can be live together some time after `s`. */
  ghost predicate CanHaveTwo(s: State, k: SlotId) {
    exists es :: HasTwo(Run(s, es), k)
  }

  ghost predicate HasTwo(s: State, k: SlotId) {
    exists i: Instance, j: Instance :: TwoLive(s, i, j) && s.homes[i] == k
  }

  lemma LeakThenSecond(s: State, k: SlotId, i: Instance)
    requires Inv(s) && i < |s.homes| && s.homes[i] == k && IsAbandoned(s, k)
    ensures CanHaveTwo(s, k)
  {
    var conv := s.convs[k];
    var es := MappedBuilds(s, conv);
    var t := Run(s, es);
    RunKeepsLeak(s, es, i);
    RunKeepsHomes(s, es, i);
    RunKeepsConvs(s, es, k);
    var j := t.cells[t.tasks[conv]].instance;
    assert t.homes[j] == t.tasks[conv];
    assert Mapped(t, t.homes[j]);
    InvLiveIff(t, i);
    InvLiveIff(t, j);
    NotMappedWhenAbandoned(t, k);
    assert TwoLive(t, i, j);
    assert HasTwo(Run(s, es), k);
  }

  lemma {:induction false} RunKeepsHomes(s: State, es: seq<Event>, i: Instance)
    requires i < |s.homes|
    ensures i < |Run(s, es).homes| && Run(s, es).homes[i] == s.homes[i]
    decreases |es|
  {
    if es != [] {
      assert i < |Next(s, es[0]).homes| && Next(s, es[0]).homes[i] == s.homes[i];
      RunKeepsHomes(Next(s, es[0]), es[1..], i);
    }
  }

  lemma {:induction false} RunKeepsAbandoned(s: State, es: seq<Event>, k: SlotId)
    requires Inv(s) && IsAbandoned(s, k)
    ensures IsAbandoned(Run(s, es), k)
    decreases |es|
  {
    if es != [] {
      NextKeepsInv(s, es[0]);
      NextKeepsAbandoned(s, es[0], k);
      RunKeepsAbandoned(Next(s, es[0]), es[1..], k);
    }
  }

  lemma CanHaveTwoAfter(s: State, es: seq<Event>, k: SlotId)
    requires CanHaveTwo(Run(s, es), k)
    ensures CanHaveTwo(s, k)
  {
    var fs :| HasTwo(Run(Run(s, es), fs), k);
    RunAppend(s, es, fs);
    assert HasTwo(Run(s, es + fs), k);
  }

  lemma AbandonedCanHaveTwoIff(s: State, k: SlotId)
    requires Inv(s) && IsAbandoned(s, k) && !CellOf(s, k).Ready?
    ensures CanHaveTwo(s, k) <==> Wanted(s, k)
  {
    if Wanted(s, k) {
      WantedBuilds(s, k);
      var es :| CellOf(Run(s, es), k).Ready?;
      RunKeepsInv(s, es);
      RunKeepsAbandoned(s, es, k);
      LeakThenSecond(Run(s, es), k, CellOf(Run(s, es), k).instance);
      CanHaveTwoAfter(s, es, k);
    } else {
      forall es
        ensures !HasTwo(Run(s, es), k)
      {
        RunKeepsInv(s, es);
        RunKeepsDead(s, es, k);
        var t := Run(s, es);
        assert forall i: Instance :: i < |t.homes| ==> CellOf(t, t.homes[i]).Ready?;
      }
    }
  }

  /**
   The moment that decides: a remover looks at a slot whose cell is not set.  The conversation can come
   to have two live instances, one of them in that slot, if and only if a call is then waiting for the
   slot or building into it.
   */
  lemma LookLeavesTwoIff(es: seq<Event>, c: CallId, k: SlotId)
    requires var s := Run(Init, es);
             c in s.calls && s.calls[c].Removing? && s.calls[c].stage == Looking(k) && !CellOf(s, k).Ready?
    ensures var s := Run(Init, es);
            && (CanHaveTwo(Next(s, Look(c)), k) <==> Wanted(s, k))
            && (Wanted(s, k) <==> Misses(s, Look(c)))
  {
    RunKeepsInv(Init, es);
    LookDecides(Run(Init, es), c, k);
  }

  lemma LookDecides(s: State, c: CallId, k: SlotId)
    requires Inv(s) && c in s.calls && s.calls[c].Removing? && s.calls[c].stage == Looking(k) && !CellOf(s, k).Ready?
    ensures CanHaveTwo(Next(s, Look(c)), k) <==> Wanted(s, k)
    ensures Wanted(s, k) <==> Misses(s, Look(c))
  {
    assert CallOk(s, c, s.calls[c]);
    assert IsAbandoned(Next(s, Look(c)), k);
    NextKeepsInv(s, Look(c));
    NewlyAbandoned(s, Look(c), k);
    AbandonedCanHaveTwoIff(Next(s, Look(c)), k);
  }

  /**
   Over whole runs: two live instances of one conversation are always preceded by a miss.  That a miss can
   lead to two is the other direction of `LookLeavesTwoIff`.
   */
  lemma MissComesFirst(es: seq<Event>, i: Instance, j: Instance)
    requires TwoLive(Run(Init, es), i, j)
    ensures exists n :: 0 <= n < |es| && Misses(Run(Init, es[..n]), es[n])
  {
    if !NoMiss(Init, es) {
      FindMiss(Init, es);
    } else {
      WithoutMissesOneTask(es, i, j);
    }
  }

  lemma {:induction false} FindMiss(s: State, es: seq<Event>)
    requires !NoMiss(s, es)
    ensures exists n :: 0 <= n < |es| && Misses(Run(s, es[..n]), es[n])
    decreases |es|
  {
    assert es[..0] == [];
    if Misses(s, es[0]) {
      assert Misses(Run(s, es[..0]), es[0]);
    } else {
      FindMiss(Next(s, es[0]), es[1..]);
      var n :| 0 <= n < |es[1..]| && Misses(Run(Next(s, es[0]), es[1..][..n]), es[1..][n]);
      assert es[..n + 1][1..] == es[1..][..n];
      assert Misses(Run(s, es[..n + 1]), es[n + 1]);
    }
  }
}
