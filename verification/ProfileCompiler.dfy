/** The compiler from profiles to generated assistants, and the profile operations that call it. */
module ProfileCompiler {
  import opened Prelude
  import opened Text
  import opened AssistantTables

  datatype Outcome = Created | Updated | Unchanged | NotApplicable | Retired

  const PREFIX := "profile:"
  const BACKEND := "aionrs"

  function KeyFor(name: string): Key {
    PREFIX + name
  }

  /** The schema checks on the parts that are modelled. */
  predicate ValidBody(b: ProfileBody) {
    b.engines != [] && !Blank(b.primaryModel) &&
    forall n :: 0 <= n < |b.engines| ==>
        b.engines[n] == "hermes" || b.engines[n] == "openclaw" || b.engines[n] == "copilot"
  }

  /** The profile calls for an assistant. */
  predicate Wanted(p: Profile) {
    p.active && "copilot" in p.body.engines
  }

  function Desired(pid: ProfileId, p: Profile): Definition {
    Definition(KeyFor(p.name), Generated, System, Some(FromProfile(pid)), p.title, Some(p.title), BACKEND,
        Inline(p.body.soul), [],
               Scalar(Fixed, Some(p.body.primaryModel)), Scalar(Auto, None),
               ListDefault(Fixed, p.body.skills), ListDefault(Fixed, p.body.mcps), false)
  }

  /** The comparison that decides whether a row is rewritten: prompts and permission are not compared. */
  predicate Matches(want: Definition, have: Definition) {
    && have.key == want.key && have.source == want.source && have.owner == want.owner
        && have.sourceRef == want.sourceRef
    && have.name == want.name && have.description == want.description && have.backend == want.backend
        && have.rule == want.rule
    && have.model == want.model && have.skills == want.skills && have.mcps == want.mcps
  }

  function Existing(s: Store, pid: ProfileId): Option<DefId> {
    LiveByRef(s.defs, Generated, FromProfile(pid))
  }

  function RetireIfPresent(s: Store, existing: Option<DefId>): (Store, Result<Outcome, Error>) {
    match existing
    case None => (s, Ok(NotApplicable))
    case Some(i) => (s.(defs := SoftDelete(s.defs, i)), Ok(Retired))
  }

  function Materialize(s: Store, pid: ProfileId, p: Profile): (Store, Result<Outcome, Error>) {
    var existing := Existing(s, pid);
    if !p.active then RetireIfPresent(s, existing)
    else if !ValidBody(p.body) then (s, Err(BadRequest))
    else if "copilot" !in p.body.engines then RetireIfPresent(s, existing)
    else
      var want := Desired(pid, p);
      if existing.Some? && Matches(want, s.defs[existing.value]) then (s, Ok(Unchanged))
      else
        WriteCompiled(s, existing, want)
  }

  function WriteCompiled(s: Store, existing: Option<DefId>, want: Definition): (Store, Result<Outcome, Error>) {
    var i := UnwrapOr(existing, s.nextDef);
    match Upsert(s.defs, i, want)
    case Err(e) => (s, Err(e))
    case Ok(defs) =>
      (s.(defs := defs, nextDef := if i < s.nextDef then s.nextDef else i + 1),
       Ok(if existing.Some? then Updated else Created))
  }

  // ---------------------------------------------------------------------------------------
  // Profile operations: the profile is stored first, a failing compilation is only logged
  // ---------------------------------------------------------------------------------------

  predicate NameTaken(s: Store, name: string) {
    exists pid :: pid in s.profiles && s.profiles[pid].name == name
  }

  function CreateProfile(s: Store, name: string, title: string, body: ProfileBody): Done {
    if Blank(name) || Blank(title) || !ValidBody(body) then Done(s, Some(BadRequest))
    else if NameTaken(s, Trim(name)) then Done(s, Some(Conflict))
    else
      var pid, p := s.nextProfile, Profile(Trim(name), Trim(title), true, body);
      Done(Materialize(s.(profiles := s.profiles[pid := p], nextProfile := pid + 1), pid, p).0, None)
  }

  /** The profile an edit leaves; its name never changes. */
  function ProfileAfter(
      current: Profile, title: Option<string>, body: Option<ProfileBody>, active: Option<bool>): Profile {
    Profile(current.name, if title.Some? then Trim(title.value) else current.title,
            UnwrapOr(active, current.active), UnwrapOr(body, current.body))
  }

  function UpdateProfile(
      s: Store, pid: ProfileId, title: Option<string>, body: Option<ProfileBody>, active: Option<bool>): Done {
    if pid !in s.profiles then Done(s, Some(NotFound))
    else if (body.Some? && !ValidBody(body.value)) || (title.Some? && Blank(title.value)) then Done(s, Some(BadRequest))
    else
      var p := ProfileAfter(s.profiles[pid], title, body, active);
      Done(Materialize(s.(profiles := s.profiles[pid := p]), pid, p).0, None)
  }

  function DeleteProfile(s: Store, pid: ProfileId): Done {
    if pid !in s.profiles then Done(s, Some(NotFound))
    else Done(Materialize(s.(profiles := s.profiles - {pid}), pid, s.profiles[pid].(active := false)).0, None)
  }
}
