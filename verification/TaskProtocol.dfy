/**
 The worker task manager as a step system.

 A conversation id maps to a shared single-assignment cell (a slot).  Any number of
 `get_or_build_task`, `kill`, `kill_and_wait` and `clear` calls interleave; one event is one
 indivisible action of one call.  Taking a slot out of the map and looking into its cell are
 two actions, so a build can still be in flight when its slot is removed.

 `convs`, `homes` and `fate` are history: no step reads them.
 */
module TaskProtocol {
  import opened Prelude

  type Conversation = string
  type SlotId = nat
  type Instance = nat
  type CallId = nat

  /** A `OnceCell`: empty, being initialised by one call, or set for ever. */
  datatype Cell = Empty | Building(builder: CallId) | Ready(instance: Instance)

  /** Where a remover stands with the key at the head of its list. */
  datatype Stage = Idle | Looking(slot: SlotId) | Killing(instance: Instance, from: SlotId)

  datatype Call =
    | Waiting(slot: SlotId)
    | Running(slot: SlotId)
    | Returned(slot: SlotId, instance: Instance)
    | Failed(slot: SlotId)
    | Removing(todo: seq<Conversation>, stage: Stage)

  /** What became of a slot: in the map, held by a remover, looked at while empty, or its instance killed. */
  datatype Fate = InMap | Held(holder: CallId) | Abandoned | Disposed

  datatype State = State(
    tasks: map<Conversation, SlotId>,
    cells: seq<Cell>,
    calls: map<CallId, Call>,
    killed: seq<Instance>,
    convs: seq<Conversation>,
    homes: seq<SlotId>,
    fate: seq<Fate>)

  /** `Remove` starts `kill` and `kill_and_wait` (one key) and `clear` (any snapshot of keys). */
  datatype Event =
    | Get(call: CallId, conversation: Conversation)
    | BeginInit(call: CallId)
    | InitOk(call: CallId)
    | InitErr(call: CallId)
    | Cancel(call: CallId)
    | Observe(call: CallId)
    | Remove(call: CallId, keys: seq<Conversation>)
    | Take(call: CallId)
    | Look(call: CallId)
    | Kill(call: CallId)

  const Init := State(map[], [], map[], [], [], [], [])

  function CellOf(s: State, slot: SlotId): Cell {
    if slot < |s.cells| then s.cells[slot] else Empty
  }

  function SetCell(s: State, slot: SlotId, cell: Cell): State {
    if slot < |s.cells| then s.(cells := s.cells[slot := cell]) else s
  }

  function SetFate(s: State, slot: SlotId, fate: Fate): State {
    if slot < |s.fate| then s.(fate := s.fate[slot := fate]) else s
  }

  function SetCall(s: State, c: CallId, call: Call): State {
    s.(calls := s.calls[c := call])
  }

  /** `entry(id).or_insert_with(..)`: the map's slot, or a fresh empty one. */
  function TakeOrCreate(s: State, c: CallId, conv: Conversation): State {
    if conv in s.tasks then SetCall(s, c, Waiting(s.tasks[conv]))
    else
      SetCall(s.(tasks := s.tasks[conv := |s.cells|], cells := s.cells + [Empty],
                 convs := s.convs + [conv], fate := s.fate + [InMap]), c, Waiting(|s.cells|))
  }

  /** One action of one call; an event whose call is not at that point changes nothing. */
  function Next(s: State, e: Event): State {
    match e
    case Get(c, conv) => if c in s.calls then s else TakeOrCreate(s, c, conv)
    case Remove(c, keys) => if c in s.calls then s else SetCall(s, c, Removing(keys, Idle))
    case _ => if e.call in s.calls then Advance(s, e, s.calls[e.call]) else s
  }

  function Advance(s: State, e: Event, call: Call): State {
    var c := e.call;
    match (e, call)
    case (BeginInit(_), Waiting(slot)) =>
      if CellOf(s, slot).Empty? then SetCall(SetCell(s, slot, Building(c)), c, Running(slot)) else s
    case (InitOk(_), Running(slot)) =>
      var i := |s.homes|;
      SetCall(SetCell(s.(homes := s.homes + [slot]), slot, Ready(i)), c, Returned(slot, i))
    case (InitErr(_), Running(slot)) => SetCall(SetCell(s, slot, Empty), c, Failed(slot))
    case (Cancel(_), Running(slot)) => SetCall(SetCell(s, slot, Empty), c, Failed(slot))
    case (Cancel(_), Waiting(slot)) => SetCall(s, c, Failed(slot))
    case (Observe(_), Waiting(slot)) =>
      if CellOf(s, slot).Ready? then SetCall(s, c, Returned(slot, CellOf(s, slot).instance)) else s
    case (Take(_), Removing(todo, Idle)) =>
      if todo == [] then s
      else if todo[0] in s.tasks then
        var slot := s.tasks[todo[0]];
        SetFate(SetCall(s.(tasks := s.tasks - {todo[0]}), c, Removing(todo[1..], Looking(slot))), slot, Held(c))
      else SetCall(s, c, Removing(todo[1..], Idle))
    case (Look(_), Removing(todo, Looking(slot))) =>
      if CellOf(s, slot).Ready? then
        SetCall(s, c, Removing(todo, Killing(CellOf(s, slot).instance, slot)))
      else SetFate(SetCall(s, c, Removing(todo, Idle)), slot, Abandoned)
    case (Kill(_), Removing(todo, Killing(i, from))) =>
      SetFate(SetCall(s.(killed := s.killed + [i]), c, Removing(todo, Idle)), from, Disposed)
    case _ => s
  }

  function Run(s: State, es: seq<Event>): State
    decreases |es|
  {
    if es == [] then s else Run(Next(s, es[0]), es[1..])
  }

  lemma {:induction false} RunAppend(s: State, es: seq<Event>, fs: seq<Event>)
    ensures Run(s, es + fs) == Run(Run(s, es), fs)
    decreases |es|
  {
    if es == [] {
      assert es + fs == fs;
    } else {
      assert (es + fs)[1..] == es[1..] + fs;
      RunAppend(Next(s, es[0]), es[1..], fs);
    }
  }

  // ---------------------------------------------------------------------------------------
  // The invariant
  // ---------------------------------------------------------------------------------------

  predicate HeldBy(s: State, slot: SlotId, c: CallId) {
    c in s.calls && s.calls[c].Removing? &&
    (s.calls[c].stage == Looking(slot) || (s.calls[c].stage.Killing? && s.calls[c].stage.from == slot))
  }

  predicate Mapped(s: State, slot: SlotId) {
    slot < |s.convs| && s.convs[slot] in s.tasks && s.tasks[s.convs[slot]] == slot
  }

  ghost predicate Shape(s: State) {
    && |s.convs| == |s.cells| == |s.fate|
    && (forall k :: k in s.tasks ==> s.tasks[k] < |s.cells| && s.convs[s.tasks[k]] == k)
    && (forall c :: c in s.calls ==> CallOk(s, c, s.calls[c]))
  }

  ghost predicate CallOk(s: State, c: CallId, call: Call)
    requires |s.cells| == |s.fate|
  {
    match call
    case Waiting(slot) => slot < |s.cells|
    case Running(slot) => slot < |s.cells| && s.cells[slot] == Building(c)
    case Returned(slot, i) => slot < |s.cells| && s.cells[slot] == Ready(i)
    case Failed(slot) => slot < |s.cells|
    case Removing(_, Idle) => true
    case Removing(_, Looking(slot)) => slot < |s.cells| && s.fate[slot] == Held(c)
    case Removing(_, Killing(i, from)) =>
      from < |s.cells| && s.fate[from] == Held(c) && s.cells[from] == Ready(i)
  }

  /** Every built instance sits in the one cell it was built into, and conversely. */
  ghost predicate CellsOk(s: State)
    requires |s.convs| == |s.cells| == |s.fate|
  {
    && (forall k :: 0 <= k < |s.cells| && s.cells[k].Building? ==>
          s.cells[k].builder in s.calls && s.calls[s.cells[k].builder] == Running(k))
    && (forall k :: 0 <= k < |s.cells| && s.cells[k].Ready? ==>
          s.cells[k].instance < |s.homes| && s.homes[s.cells[k].instance] == k)
    && (forall i :: 0 <= i < |s.homes| ==> s.homes[i] < |s.cells| && s.cells[s.homes[i]] == Ready(i))
  }

  /** The history of each slot says where it really is. */
  ghost predicate FateOk(s: State)
    requires |s.convs| == |s.cells| == |s.fate|
  {
    && (forall k :: 0 <= k < |s.fate| ==> (s.fate[k].InMap? <==> Mapped(s, k)))
    && (forall k :: 0 <= k < |s.fate| && s.fate[k].Held? ==> HeldBy(s, k, s.fate[k].holder))
    && (forall k :: 0 <= k < |s.fate| && s.fate[k].Disposed? ==> s.cells[k].Ready? && s.cells[k].instance in s.killed)
    && (forall i :: 0 <= i < |s.killed| ==>
          s.killed[i] < |s.homes| && s.homes[s.killed[i]] < |s.fate| && s.fate[s.homes[s.killed[i]]].Disposed?)
    && Distinct(s.killed)
  }

  ghost predicate Inv(s: State) {
    Shape(s) && CellsOk(s) && FateOk(s)
  }

  lemma NextKeepsInv(s: State, e: Event)
    requires Inv(s)
    ensures Inv(Next(s, e))
  {
    match e
    case Get(c, conv) => if c !in s.calls { GetKeepsInv(s, c, conv); }
    case Remove(c, keys) => if c !in s.calls { StartRemoveKeepsInv(s, c, keys); }
    case _ => if e.call in s.calls { AdvanceKeepsInv(s, e); }
  }

  lemma GetKeepsInv(s: State, c: CallId, conv: Conversation)
    requires Inv(s) && c !in s.calls
    ensures Inv(TakeOrCreate(s, c, conv))
  {
    GetKeepsCells(s, c, conv);
    GetKeepsFates(s, c, conv);
  }

  lemma GetKeepsCells(s: State, c: CallId, conv: Conversation)
    requires Inv(s) && c !in s.calls
    ensures var t := TakeOrCreate(s, c, conv); Shape(t) && CellsOk(t)
  {
    GetKeepsShape(s, c, conv);
  }

  lemma GetKeepsShape(s: State, c: CallId, conv: Conversation)
    requires Inv(s) && c !in s.calls
    ensures Shape(TakeOrCreate(s, c, conv))
  {
  }

  lemma GetKeepsFates(s: State, c: CallId, conv: Conversation)
    requires Inv(s) && c !in s.calls && Shape(TakeOrCreate(s, c, conv))
    ensures FateOk(TakeOrCreate(s, c, conv))
  {
  }

  lemma StartRemoveKeepsInv(s: State, c: CallId, keys: seq<Conversation>)
    requires Inv(s) && c !in s.calls
    ensures Inv(SetCall(s, c, Removing(keys, Idle)))
  {
  }

  lemma AdvanceKeepsInv(s: State, e: Event)
    requires Inv(s) && e.call in s.calls
    ensures Inv(Advance(s, e, s.calls[e.call]))
  {
    var c := e.call;
    match (e, s.calls[c])
    case (BeginInit(_), Waiting(slot)) => BeginKeepsInv(s, c);
    case (InitOk(_), Running(slot)) => InitOkKeepsInv(s, c);
    case (InitErr(_), Running(slot)) => ReleaseKeepsInv(s, c);
    case (Cancel(_), Running(slot)) => ReleaseKeepsInv(s, c);
    case (Cancel(_), Waiting(slot)) => LeaveKeepsInv(s, c);
    case (Observe(_), Waiting(slot)) => ObserveKeepsInv(s, c);
    case (Take(_), Removing(todo, Idle)) => TakeKeepsInv(s, c);
    case (Look(_), Removing(todo, Looking(slot))) => LookKeepsInv(s, c);
    case (Kill(_), Removing(todo, Killing(i, from))) => KillKeepsInv(s, c);
    case _ =>
  }

  lemma BeginKeepsInv(s: State, c: CallId)
    requires Inv(s) && c in s.calls && s.calls[c].Waiting?
    ensures Inv(Advance(s, BeginInit(c), s.calls[c]))
  {
  }

  lemma InitOkKeepsInv(s: State, c: CallId)
    requires Inv(s) && c in s.calls && s.calls[c].Running?
    ensures Inv(Advance(s, InitOk(c), s.calls[c]))
  {
  }

  lemma ReleaseKeepsInv(s: State, c: CallId)
    requires Inv(s) && c in s.calls && s.calls[c].Running?
    ensures Inv(SetCall(SetCell(s, s.calls[c].slot, Empty), c, Failed(s.calls[c].slot)))
  {
  }

  lemma LeaveKeepsInv(s: State, c: CallId)
    requires Inv(s) && c in s.calls && s.calls[c].Waiting?
    ensures Inv(SetCall(s, c, Failed(s.calls[c].slot)))
  {
  }

  lemma ObserveKeepsInv(s: State, c: CallId)
    requires Inv(s) && c in s.calls && s.calls[c].Waiting?
    ensures Inv(Advance(s, Observe(c), s.calls[c]))
  {
  }

  lemma TakeKeepsCells(s: State, c: CallId)
    requires Inv(s) && c in s.calls && s.calls[c].Removing? && s.calls[c].stage.Idle?
    ensures var t := Advance(s, Take(c), s.calls[c]); Shape(t) && CellsOk(t)
  {
  }

  lemma TakeKeepsInv(s: State, c: CallId)
    requires Inv(s) && c in s.calls && s.calls[c].Removing? && s.calls[c].stage.Idle?
    ensures Inv(Advance(s, Take(c), s.calls[c]))
  {
    TakeKeepsCells(s, c);
  }

  lemma LookKeepsShape(s: State, c: CallId)
    requires Inv(s) && c in s.calls && s.calls[c].Removing? && s.calls[c].stage.Looking?
    ensures Shape(Advance(s, Look(c), s.calls[c]))
  {
  }

  lemma LookKeepsCells(s: State, c: CallId)
    requires Inv(s) && c in s.calls && s.calls[c].Removing? && s.calls[c].stage.Looking?
    ensures var t := Advance(s, Look(c), s.calls[c]); Shape(t) && CellsOk(t)
  {
    LookKeepsShape(s, c);
  }

  lemma LookKeepsFates(s: State, c: CallId)
    requires Inv(s) && c in s.calls && s.calls[c].Removing? && s.calls[c].stage.Looking?
    requires Shape(Advance(s, Look(c), s.calls[c]))
    ensures FateOk(Advance(s, Look(c), s.calls[c]))
  {
  }

  lemma LookKeepsInv(s: State, c: CallId)
    requires Inv(s) && c in s.calls && s.calls[c].Removing? && s.calls[c].stage.Looking?
    ensures Inv(Advance(s, Look(c), s.calls[c]))
  {
    LookKeepsCells(s, c);
    LookKeepsFates(s, c);
  }

  lemma KillKeepsCells(s: State, c: CallId)
    requires Inv(s) && c in s.calls && s.calls[c].Removing? && s.calls[c].stage.Killing?
    ensures var t := Advance(s, Kill(c), s.calls[c]); Shape(t) && CellsOk(t)
  {
  }

  lemma KillKeepsInv(s: State, c: CallId)
    requires Inv(s) && c in s.calls && s.calls[c].Removing? && s.calls[c].stage.Killing?
    ensures Inv(Advance(s, Kill(c), s.calls[c]))
  {
    KillKeepsCells(s, c);
  }
}
