/**
 The status machine shared by all agents.  `Finished` absorbs until the next reset; an emit
 writes the status under the lock and broadcasts after releasing it, so a terminal event that
 was claimed may still be on its way when the next turn begins.
 */
module AgentRuntime {
  import opened Prelude

  datatype Status = Pending | Running | Finished

  /** The two events that end a turn for its subscribers. */
  datatype Terminal = Finish(session: Option<string>) | Error(message: string)

  /** `Claim` is the locked part of `emit_finish` and `emit_error_data`, `Send` the broadcast after it. */
  datatype Event =
    | Transition(status: Status)
    | Reset(status: Status)
    | Claim(terminal: Terminal)
    | Send(terminal: Terminal)

  datatype State = State(status: Option<Status>, pending: multiset<Terminal>, sent: seq<Terminal>)

  const Init := State(None, multiset{}, [])

  function Next(s: State, e: Event): State {
    match e
    case Transition(status) => if s.status == Some(Finished) then s else s.(status := Some(status))
    case Reset(status) => s.(status := Some(status))
    case Claim(t) =>
      if s.status == Some(Finished) then s else s.(status := Some(Finished), pending := s.pending + multiset{t})
    case Send(t) => if t in s.pending then s.(pending := s.pending - multiset{t}, sent := s.sent + [t]) else s
  }

  function Run(s: State, es: seq<Event>): State
    decreases |es|
  {
    if es == [] then s else Run(Next(s, es[0]), es[1..])
  }

  // ---------------------------------------------------------------------------------------
  // Turns, described without the machine
  // ---------------------------------------------------------------------------------------

  /** The events between two resets; `open` unless the reset that began it already said Finished. */
  datatype Turn = Turn(open: bool, events: seq<Event>)

  function Turns(open: bool, es: seq<Event>): (ts: seq<Turn>)
    ensures ts != [] && ts[0].open == open
    decreases |es|
  {
    if es == [] then [Turn(open, [])]
    else if es[0].Reset? then [Turn(open, [])] + Turns(es[0].status != Finished, es[1..])
    else
      var ts := Turns(open, es[1..]);
      [Turn(open, [es[0]] + ts[0].events)] + ts[1..]
  }

  function Resets(es: seq<Event>): nat {
    if es == [] then 0 else (if es[0].Reset? then 1 else 0) + Resets(es[1..])
  }

  predicate Finishes(e: Event) {
    e.Claim? || e == Transition(Finished)
  }

  function FirstFinisher(es: seq<Event>): Option<Event> {
    if es == [] then None else if Finishes(es[0]) then Some(es[0]) else FirstFinisher(es[1..])
  }

  /** The terminal event a turn yields: that of its first writer of Finished, if that is an emit. */
  function Outcome(t: Turn): seq<Terminal> {
    var f := FirstFinisher(t.events);
    if t.open && f.Some? && f.value.Claim? then [f.value.terminal] else []
  }

  function Outcomes(ts: seq<Turn>): seq<Terminal> {
    if ts == [] then [] else Outcome(ts[0]) + Outcomes(ts[1..])
  }

  predicate TurnFinished(t: Turn) {
    !t.open || FirstFinisher(t.events).Some?
  }

  // ---------------------------------------------------------------------------------------
  // The machine does what the turns say
  // ---------------------------------------------------------------------------------------

  lemma {:induction false} ClosedTurns(es: seq<Event>)
    ensures Turns(true, es)[1..] == Turns(false, es)[1..]
    ensures Turns(true, es)[0].events == Turns(false, es)[0].events
    decreases |es|
  {
    if es != [] && !es[0].Reset? { ClosedTurns(es[1..]); }
  }

  /** Whether the turn is still open after `e`, and what `e` claims in it. */
  predicate OpenAfter(open: bool, e: Event) {
    if e.Reset? then e.status != Finished else open && !Finishes(e)
  }

  function Gain(open: bool, e: Event): seq<Terminal> {
    if open && e.Claim? then [e.terminal] else []
  }

  lemma TurnsUnfold(open: bool, es: seq<Event>)
    requires es != []
    ensures es[0].Reset? ==> Turns(open, es) == [Turn(open, [])] + Turns(OpenAfter(open, es[0]), es[1..])
    ensures !es[0].Reset? ==>
              var ts := Turns(OpenAfter(open, es[0]), es[1..]);
              Turns(open, es) == [Turn(open, [es[0]] + ts[0].events)] + ts[1..]
  {
    ClosedTurns(es[1..]);
  }

  lemma OutcomesCons(t: Turn, ts: seq<Turn>)
    ensures Outcomes([t] + ts) == Outcome(t) + Outcomes(ts)
  {
    assert ([t] + ts)[1..] == ts;
  }

  lemma FirstFinisherCons(e: Event, es: seq<Event>)
    ensures FirstFinisher([e] + es) == if Finishes(e) then Some(e) else FirstFinisher(es)
  {
    assert ([e] + es)[1..] == es;
  }

  lemma OutcomesStep(open: bool, es: seq<Event>)
    requires es != []
    ensures Outcomes(Turns(open, es)) == Gain(open, es[0]) + Outcomes(Turns(OpenAfter(open, es[0]), es[1..]))
  {
    TurnsUnfold(open, es);
    var ts := Turns(OpenAfter(open, es[0]), es[1..]);
    if es[0].Reset? {
      OutcomesCons(Turn(open, []), ts);
    } else {
      FirstFinisherCons(es[0], ts[0].events);
      OutcomesCons(Turn(open, [es[0]] + ts[0].events), ts[1..]);
    }
  }

  lemma NextAccounts(s: State, e: Event)
    ensures var t := Next(s, e);
            && multiset(t.sent) + t.pending
                == multiset(s.sent) + s.pending + multiset(Gain(s.status != Some(Finished), e))
            && (t.status != Some(Finished) <==> OpenAfter(s.status != Some(Finished), e))
  {
  }

  lemma {:induction false} RunAccounts(s: State, es: seq<Event>)
    ensures multiset(Run(s, es).sent) + Run(s, es).pending
         == multiset(s.sent) + s.pending + multiset(Outcomes(Turns(s.status != Some(Finished), es)))
    decreases |es|
  {
    var open := s.status != Some(Finished);
    if es == [] {
      assert Outcomes(Turns(open, es)) == [];
    } else {
      NextAccounts(s, es[0]);
      OutcomesStep(open, es);
      RunAccounts(Next(s, es[0]), es[1..]);
    }
  }

  /**
   For every interleaving, the terminal events broadcast together with those still pending are
   exactly the outcomes of the turns: one for each turn whose first writer of Finished is an
   emit, none for the others.
   */
  lemma TerminalEventsAreTurnOutcomes(es: seq<Event>)
    ensures var s := Run(Init, es);
            multiset(s.sent) + s.pending == multiset(Outcomes(Turns(true, es)))
  {
    RunAccounts(Init, es);
  }

  lemma {:induction false} OutcomesBounded(ts: seq<Turn>)
    ensures |Outcomes(ts)| <= |ts|
  {
    if ts != [] { OutcomesBounded(ts[1..]); }
  }

  lemma {:induction false} TurnsCounted(open: bool, es: seq<Event>)
    ensures |Turns(open, es)| == 1 + Resets(es)
    decreases |es|
  {
    if es != [] { TurnsCounted(if es[0].Reset? then es[0].status != Finished else open, es[1..]); }
  }

  /** Broadcast plus pending never exceeds one plus the number of resets. */
  lemma TerminalEventsBounded(es: seq<Event>)
    ensures var s := Run(Init, es); |s.sent| + |s.pending| <= 1 + Resets(es)
  {
    var s := Run(Init, es);
    TerminalEventsAreTurnOutcomes(es);
    OutcomesBounded(Turns(true, es));
    TurnsCounted(true, es);
    assert |multiset(s.sent) + s.pending| == |s.sent| + |s.pending|;
  }

  /** The last turn of `es` ends finished. */
  predicate LastFinished(open: bool, es: seq<Event>) {
    var ts := Turns(open, es);
    TurnFinished(ts[|ts| - 1])
  }

  lemma LastTurnStep(open: bool, es: seq<Event>)
    requires es != []
    ensures LastFinished(open, es) <==> LastFinished(OpenAfter(open, es[0]), es[1..])
  {
    TurnsUnfold(open, es);
    var us := Turns(OpenAfter(open, es[0]), es[1..]);
    if !es[0].Reset? { FirstFinisherCons(es[0], us[0].events); }
  }

  lemma StatusStep(s: State, e: Event)
    ensures (Next(s, e).status != Some(Finished)) == OpenAfter(s.status != Some(Finished), e)
  {
  }

  lemma {:induction false} RunStatus(s: State, es: seq<Event>)
    ensures Run(s, es).status == Some(Finished) <==> LastFinished(s.status != Some(Finished), es)
    decreases |es|
  {
    if es != [] {
      StatusStep(s, es[0]);
      LastTurnStep(s.status != Some(Finished), es);
      RunStatus(Next(s, es[0]), es[1..]);
    }
  }

  /** The status is Finished exactly when the last turn finished or was begun as finished. */
  lemma FinishedIffLastTurnFinished(es: seq<Event>)
    ensures var ts := Turns(true, es);
            Run(Init, es).status == Some(Finished) <==> TurnFinished(ts[|ts| - 1])
  {
    RunStatus(Init, es);
  }

  // ---------------------------------------------------------------------------------------
  // Delivery in order, and in time
  // ---------------------------------------------------------------------------------------

  /** No reset fires while a broadcast is outstanding. */
  predicate Prompt(s: State, es: seq<Event>)
    decreases |es|
  {
    es == [] || ((es[0].Reset? ==> s.pending == multiset{}) && Prompt(Next(s, es[0]), es[1..]))
  }

  /** `outcomes` has been broadcast in this order, up to at most one event still outstanding. */
  ghost predicate InOrder(s: State, outcomes: seq<Terminal>) {
    || (s.pending == multiset{} && s.sent == outcomes)
    || (s.status == Some(Finished) && exists t :: s.pending == multiset{t} && s.sent + [t] == outcomes)
  }

  lemma NextInOrder(s: State, e: Event, outcomes: seq<Terminal>)
    requires InOrder(s, outcomes) && (e.Reset? ==> s.pending == multiset{})
    ensures InOrder(Next(s, e), outcomes + Gain(s.status != Some(Finished), e))
  {
    if s.pending != multiset{} {
      var t :| s.pending == multiset{t} && s.sent + [t] == outcomes;
      assert multiset{t} - multiset{t} == multiset{};
      assert outcomes + [] == outcomes;
    } else if e.Claim? && s.status != Some(Finished) {
      assert Next(s, e).pending == multiset{e.terminal};
    } else {
      assert outcomes + [] == outcomes;
    }
  }

  lemma OutcomesAfter(outcomes: seq<Terminal>, open: bool, es: seq<Event>)
    requires es != []
    ensures outcomes + Outcomes(Turns(open, es))
         == (outcomes + Gain(open, es[0])) + Outcomes(Turns(OpenAfter(open, es[0]), es[1..]))
  {
    OutcomesStep(open, es);
  }

  lemma {:induction false} RunInOrder(s: State, es: seq<Event>, outcomes: seq<Terminal>)
    requires InOrder(s, outcomes) && Prompt(s, es)
    ensures InOrder(Run(s, es), outcomes + Outcomes(Turns(s.status != Some(Finished), es)))
    decreases |es|
  {
    var open := s.status != Some(Finished);
    if es == [] {
      assert outcomes + Outcomes(Turns(open, es)) == outcomes;
    } else {
      NextInOrder(s, es[0], outcomes);
      StatusStep(s, es[0]);
      RunInOrder(Next(s, es[0]), es[1..], outcomes + Gain(open, es[0]));
      OutcomesAfter(outcomes, open, es);
    }
  }

  /**
   If no reset fires while a broadcast is outstanding, the events sent are the outcomes of the turns
   in the order of the turns; at most the last one is still on its way.
   */
  lemma PromptRunsDeliverInOrder(es: seq<Event>)
    requires Prompt(Init, es)
    ensures InOrder(Run(Init, es), Outcomes(Turns(true, es)))
  {
    RunInOrder(Init, es, []);
    assert [] + Outcomes(Turns(true, es)) == Outcomes(Turns(true, es));
  }

  /** By the time each reset fires, exactly the outcomes of the turns before it have been sent, in order. */
  ghost predicate OnTime(es: seq<Event>) {
    forall n :: 0 <= n < |es| && es[n].Reset? ==> Run(Init, es[..n]).sent == Outcomes(Turns(true, es[..n]))
  }

  lemma {:induction false} PromptIff(s: State, es: seq<Event>)
    ensures Prompt(s, es) <==> forall n :: 0 <= n < |es| && es[n].Reset? ==> Run(s, es[..n]).pending == multiset{}
    decreases |es|
  {
    if es != [] {
      var t := Next(s, es[0]);
      PromptIff(t, es[1..]);
      assert es[..0] == [];
      forall n | 0 < n < |es|
        ensures Run(s, es[..n]) == Run(t, es[1..][..n - 1]) && es[n] == es[1..][n - 1]
      {
        assert es[..n][1..] == es[1..][..n - 1];
      }
      assert forall m :: 0 <= m < |es| - 1 ==> es[1..][m] == es[m + 1] && Run(s, es[..m + 1]) == Run(t, es[1..][..m]);
    }
  }

  lemma PrefixIsPrompt(s: State, es: seq<Event>, n: nat)
    requires n <= |es| && Prompt(s, es)
    ensures Prompt(s, es[..n])
  {
    PromptIff(s, es);
    PromptIff(s, es[..n]);
    assert forall m :: 0 <= m < n ==> es[..n][..m] == es[..m];
  }

  /**
   "Set the status and broadcast, atomically" holds of a run exactly if no reset fires while a
   broadcast is outstanding: then, and only then, each turn has delivered its event before the next begins.
   */
  lemma OnTimeIffPrompt(es: seq<Event>)
    ensures OnTime(es) <==> Prompt(Init, es)
  {
    PromptIff(Init, es);
    forall n | 0 <= n < |es|
      ensures Run(Init, es[..n]).sent == Outcomes(Turns(true, es[..n])) ==> Run(Init, es[..n]).pending == multiset{}
    {
      var s := Run(Init, es[..n]);
      TerminalEventsAreTurnOutcomes(es[..n]);
      assert |multiset(s.sent) + s.pending| == |s.sent| + |s.pending|;
    }
    if Prompt(Init, es) {
      forall n | 0 <= n < |es| && es[n].Reset?
        ensures Run(Init, es[..n]).sent == Outcomes(Turns(true, es[..n]))
      {
        PrefixIsPrompt(Init, es, n);
        PromptRunsDeliverInOrder(es[..n]);
      }
    }
  }

  /** Conversely, an event outstanding when a turn is begun can be delivered inside that turn, whatever its status. */
  lemma OutstandingEventCanArriveInTheNextTurn(s: State, t: Terminal, status: Status)
    requires t in s.pending
    ensures Run(s, [Reset(status), Send(t)]) == State(Some(status), s.pending - multiset{t}, s.sent + [t])
  {
    assert [Reset(status), Send(t)][1..] == [Send(t)];
    var u := Next(s, Reset(status));
    assert Run(u, [Send(t)]) == Next(u, Send(t));
  }

  /**
   Writing Finished and broadcasting are not one action: here the Finish of the first turn is
   delivered while the second turn is running.
   */
  lemma TerminalEventCanArriveInTheNextTurn(t: Terminal)
    ensures Run(Init, [Claim(t), Reset(Running), Send(t)]) == State(Some(Running), multiset{}, [t])
  {
    var es := [Claim(t), Reset(Running), Send(t)];
    var s1 := Next(Init, es[0]);
    var s2 := Next(s1, es[1]);
    assert es[1..][1..] == [es[2]];
    assert Run(s2, [es[2]]) == Next(s2, es[2]);
    assert multiset{t} - multiset{t} == multiset{};
    assert s2.pending == multiset{t};
  }

  lemma {:induction false} RunAppend(s: State, es: seq<Event>, fs: seq<Event>)
    ensures Run(s, es + fs) == Run(Run(s, es), fs)
    ensures Prompt(s, es + fs) <==> Prompt(s, es) && Prompt(Run(s, es), fs)
    decreases |es|
  {
    if es == [] {
      assert es + fs == fs;
    } else {
      assert (es + fs)[1..] == es[1..] + fs;
      RunAppend(Next(s, es[0]), es[1..], fs);
    }
  }

  /** A call that leaves nothing outstanding has broadcast all outcomes so far. */
  lemma NothingOutstanding(trace: seq<Event>, es: seq<Event>)
    requires Prompt(Init, trace) && Prompt(Run(Init, trace), es) && Run(Run(Init, trace), es).pending == multiset{}
    ensures Run(Init, trace + es) == Run(Run(Init, trace), es) && Prompt(Init, trace + es)
    ensures Run(Init, trace + es).sent == Outcomes(Turns(true, trace + es))
  {
    RunAppend(Init, trace, es);
    PromptRunsDeliverInOrder(trace + es);
  }

  /**
   The runtime used by one caller at a time.  `trace` records the calls; nothing is left outstanding
   between them, so the events sent are the outcomes of the turns, in order.
   */
  class Runtime {
    var status: Option<Status>
    var sent: seq<Terminal>
    ghost var trace: seq<Event>

    ghost predicate Valid()
      reads this
    {
      && State(status, multiset{}, sent) == Run(Init, trace) && Prompt(Init, trace)
      && sent == Outcomes(Turns(true, trace))
    }

    constructor ()
      ensures Valid() && trace == []
    {
      status, sent, trace := None, [], [];
    }

    method TransitionTo(next: Status)
      requires Valid()
      modifies this
      ensures Valid() && trace == old(trace) + [Transition(next)]
      ensures sent == old(sent) && status == if old(status) == Some(Finished) then Some(Finished) else Some(next)
    {
      if status != Some(Finished) {
        status := Some(next);
      }
      ghost var s := Run(Init, trace);
      assert Run(s, [Transition(next)]) == Next(s, Transition(next));
      NothingOutstanding(trace, [Transition(next)]);
      trace := trace + [Transition(next)];
    }

    method ResetForNewTurn(next: Status)
      requires Valid()
      modifies this
      ensures Valid() && trace == old(trace) + [Reset(next)]
      ensures sent == old(sent) && status == Some(next)
    {
      status := Some(next);
      ghost var s := Run(Init, trace);
      assert Run(s, [Reset(next)]) == Next(s, Reset(next));
      NothingOutstanding(trace, [Reset(next)]);
      trace := trace + [Reset(next)];
    }

    /** `emit_finish` and `emit_error_data`: the claim, then the broadcast unless already finished. */
    method Emit(t: Terminal)
      requires Valid()
      modifies this
      ensures Valid() && trace == old(trace) + [Claim(t), Send(t)]
      ensures status == Some(Finished)
      ensures sent == old(sent) + if old(status) == Some(Finished) then [] else [t]
    {
      var alreadyFinished := status == Some(Finished);
      if !alreadyFinished {
        status := Some(Finished);
      }
      if !alreadyFinished {
        sent := sent + [t];
      }
      ghost var s := Run(Init, trace);
      ghost var claimed := Next(s, Claim(t));
      assert [Claim(t), Send(t)][1..] == [Send(t)];
      assert Run(claimed, [Send(t)]) == Next(claimed, Send(t));
      assert multiset{} + multiset{t} - multiset{t} == multiset{};
      NothingOutstanding(trace, [Claim(t), Send(t)]);
      trace := trace + [Claim(t), Send(t)];
    }
  }
}
