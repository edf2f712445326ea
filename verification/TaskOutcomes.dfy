/**
 What becomes of a call to `get_or_build_task`: it fails only by its own doing, and otherwise gets
 the slot's instance.
 */
module TaskOutcomes {
  import opened TaskProtocol
  import opened TaskManager

  /** The call is still on its way: waiting for its slot, or building into it. */
  predicate Underway(s: State, c: CallId) {
    c in s.calls && (s.calls[c].Waiting? || s.calls[c].Running?)
  }

  predicate IsFailed(s: State, c: CallId) {
    c in s.calls && s.calls[c].Failed?
  }

  predicate IsReturned(s: State, c: CallId) {
    c in s.calls && s.calls[c].Returned?
  }

  /** The call is cancelled while underway, or the factory it runs fails. */
  predicate GivesUp(s: State, e: Event, c: CallId) {
    (e == Cancel(c) && Underway(s, c)) || (e == InitErr(c) && c in s.calls && s.calls[c].Running?)
  }

  lemma NextFailedIff(s: State, e: Event, c: CallId)
    ensures IsFailed(Next(s, e), c) <==> IsFailed(s, c) || GivesUp(s, e, c)
  {
  }

  lemma {:induction false} RunFailedIff(s: State, es: seq<Event>, c: CallId)
    ensures IsFailed(Run(s, es), c) <==>
            IsFailed(s, c) || exists n :: 0 <= n < |es| && GivesUp(Run(s, es[..n]), es[n], c)
    decreases |es|
  {
    if es != [] {
      var t := Next(s, es[0]);
      NextFailedIff(s, es[0], c);
      RunFailedIff(t, es[1..], c);
      assert es[..0] == [] && Run(s, es[..0]) == s;
      forall n | 0 < n < |es|
        ensures Run(s, es[..n]) == Run(t, es[1..][..n - 1]) && es[n] == es[1..][n - 1]
      {
        assert es[..n][1..] == es[1..][..n - 1];
      }
      assert forall m :: 0 <= m < |es| - 1 ==> Run(s, es[..m + 1]) == Run(t, es[1..][..m]) && es[m + 1] == es[1..][m];
    }
  }

  /** In every run a call ends in failure exactly if it was cancelled while underway or its own build failed. */
  lemma CallFailsIff(es: seq<Event>, c: CallId)
    ensures IsFailed(Run(Init, es), c) <==> exists n :: 0 <= n < |es| && GivesUp(Run(Init, es[..n]), es[n], c)
  {
    RunFailedIff(Init, es, c);
  }

  /** A call that is never cancelled and builds without error never fails, whatever happens to the others. */
  lemma OthersFailuresDoNoHarm(es: seq<Event>, c: CallId)
    requires Cancel(c) !in es && InitErr(c) !in es
    ensures !IsFailed(Run(Init, es), c)
  {
    CallFailsIff(es, c);
    assert forall n :: 0 <= n < |es| ==> es[n] in es;
  }

  /** The instance a call gets: that of the cell it waited for, or the one it built. */
  predicate Gets(s: State, e: Event, c: CallId, slot: SlotId, i: Instance) {
    || (e == Observe(c) && c in s.calls && s.calls[c] == Waiting(slot) && CellOf(s, slot) == Ready(i))
    || (e == InitOk(c) && c in s.calls && s.calls[c] == Running(slot) && i == |s.homes|)
  }

  /**
   In every reachable state a call that waits for a set cell can return, and whatever step of its own is not
   a cancellation either leaves it waiting or returns exactly that cell's instance.
   */
  lemma WaiterGetsTheInstance(es: seq<Event>, c: CallId, slot: SlotId, i: Instance, e: Event)
    requires var s := Run(Init, es); c in s.calls && s.calls[c] == Waiting(slot) && CellOf(s, slot) == Ready(i)
    ensures var s := Run(Init, es);
            && Next(s, Observe(c)).calls == s.calls[c := Returned(slot, i)] && c in Next(s, e).calls
            && (e != Cancel(c) ==> Next(s, e).calls[c] == Waiting(slot) || Next(s, e).calls[c] == Returned(slot, i))
            && (e.call != c ==> Next(s, e).calls[c] == Waiting(slot) && CellOf(Next(s, e), slot) == Ready(i))
  {
    RunKeepsInv(Init, es);
    WaiterSteps(Run(Init, es), c, slot, i, e);
    ReadyStays(Run(Init, es), e, slot);
  }

  lemma WaiterSteps(s: State, c: CallId, slot: SlotId, i: Instance, e: Event)
    requires c in s.calls && s.calls[c] == Waiting(slot) && CellOf(s, slot) == Ready(i)
    ensures Next(s, Observe(c)).calls == s.calls[c := Returned(slot, i)]
    ensures c in Next(s, e).calls
    ensures e != Cancel(c) ==> Next(s, e).calls[c] == Waiting(slot) || Next(s, e).calls[c] == Returned(slot, i)
    ensures e.call != c ==> Next(s, e).calls[c] == Waiting(slot)
  {
  }

  lemma NextReturnedIff(s: State, e: Event, c: CallId, slot: SlotId, i: Instance)
    ensures c in Next(s, e).calls && Next(s, e).calls[c] == Returned(slot, i) <==>
            (c in s.calls && s.calls[c] == Returned(slot, i)) || Gets(s, e, c, slot, i)
  {
  }

  /** A call that builds returns the instance it built, and leaves it in the slot for everybody else. */
  lemma BuilderGetsItsOwn(es: seq<Event>, c: CallId, slot: SlotId)
    requires var s := Run(Init, es); c in s.calls && s.calls[c] == Running(slot)
    ensures var s := Run(Init, es);
            var t := Next(s, InitOk(c));
            && t.calls == s.calls[c := Returned(slot, |s.homes|)] && t.homes == s.homes + [slot]
            && CellOf(t, slot) == Ready(|s.homes|)
            && CellOf(Next(s, InitErr(c)), slot) == Empty && CellOf(Next(s, Cancel(c)), slot) == Empty
  {
    RunKeepsInv(Init, es);
    assert CallOk(Run(Init, es), c, Run(Init, es).calls[c]);
    BuilderSteps(Run(Init, es), c, slot);
  }

  lemma BuilderSteps(s: State, c: CallId, slot: SlotId)
    requires c in s.calls && s.calls[c] == Running(slot) && slot < |s.cells|
    ensures var t := Next(s, InitOk(c));
            && t.calls == s.calls[c := Returned(slot, |s.homes|)] && t.homes == s.homes + [slot]
            && CellOf(t, slot) == Ready(|s.homes|)
    ensures CellOf(Next(s, InitErr(c)), slot) == Empty && CellOf(Next(s, Cancel(c)), slot) == Empty
  {
  }

  /** A call joins the conversation's slot if there is one, and otherwise makes the one the next call will join. */
  lemma CallsShareTheSlot(s: State, c: CallId, d: CallId, conv: Conversation)
    requires c !in s.calls && d !in s.calls && c != d
    ensures var t := Next(Next(s, Get(c, conv)), Get(d, conv));
            && t.calls[c] == t.calls[d] == Waiting(t.tasks[conv])
            && (conv in s.tasks ==> t.tasks == s.tasks && t.cells == s.cells)
            && (conv !in s.tasks ==> t.tasks == s.tasks[conv := |s.cells|] && t.cells == s.cells + [Empty])
  {
  }

  /** A call waiting for an empty cell can begin to build, and then nobody else can. */
  lemma OneCallBuilds(s: State, c: CallId, d: CallId, slot: SlotId)
    requires c in s.calls && d in s.calls && c != d && s.calls[c] == s.calls[d] == Waiting(slot)
    requires slot < |s.cells| && s.cells[slot] == Empty
    ensures var t := Next(s, BeginInit(c));
            t.calls == s.calls[c := Running(slot)] && Next(t, BeginInit(d)) == t
  {
  }
}
