/**
 Histories of the assistant storage from an empty database.  Each operation runs under the
 configuration of the release that performs it, so a history may span upgrades.
 */
module StorageHistory {
  import opened Prelude
  import opened Text
  import opened AssistantTables
  import opened AssistantService
  import opened ProfileCompiler
  import opened AssistantInvariants
  import opened AssistantRuns
  import opened AssistantUpdates
  import opened AssistantBootstrap
  import opened AssistantImport
  import opened ImportLaws
  import opened ProfileRuns
  import opened AssistantConversation

  datatype Op =
    | OpCreate(id: Key, create: CreateReq, providerEnabled: bool)
    | OpUpdate(id: Key, update: UpdateReq)
    | OpDelete(id: Key)
    | OpSetState(id: Key, state: StateReq)
    | OpList
    | OpImport(entries: seq<Entry>, providerEnabled: bool)
    | OpBootstrap(users: seq<Key>, rows: seq<DefId>)
    | OpCreateProfile(name: string, title: string, body: ProfileBody)
    | OpUpdateProfile(pid: ProfileId, newTitle: Option<string>, newBody: Option<ProfileBody>, active: Option<bool>)
    | OpDeleteProfile(pid: ProfileId)
    | OpConverse(cid: ConversationId, id: Key, chosen: Chosen)
    | OpChoose(cid: ConversationId, model: Option<string>, permission: Option<string>)

  function Apply(c: Config, s: Store, op: Op): Store {
    match op
    case OpCreate(id, r, enabled) => Create(c, s, id, r, enabled).store
    case OpUpdate(id, r) => Update(c, s, id, r).store
    case OpDelete(id) => Delete(c, s, id).store
    case OpSetState(id, r) => SetState(c, s, id, r).store
    case OpList => List(s)
    case OpImport(entries, enabled) => Import(c, s, entries, enabled).store
    case OpBootstrap(users, rows) => Bootstrap(c, s, users, rows).store
    case OpCreateProfile(name, title, body) => CreateProfile(s, name, title, body).store
    case OpUpdateProfile(pid, title, body, active) => UpdateProfile(s, pid, title, body, active).store
    case OpDeleteProfile(pid) => DeleteProfile(s, pid).store
    case OpConverse(cid, id, chosen) => StartConversation(s, cid, id, chosen)
    case OpChoose(cid, model, permission) => ChooseInConversation(s, cid, model, permission)
  }

  type History = seq<(Config, Op)>

  function Run(s: Store, h: History): Store
    decreases |h|
  {
    if h == [] then s else Run(Apply(h[0].0, s, h[0].1), h[1..])
  }

  /** The shipped ids stay clear of the profile prefix. */
  predicate GoodHistory(h: History) {
    forall n :: 0 <= n < |h| ==> GoodConfig(h[n].0)
  }

  lemma BuiltinIdsAreGood(c: Config, id: Key)
    requires GoodConfig(c) && IsBuiltin(c, id)
    ensures !(PREFIX <= id)
  {
    var n :| 0 <= n < |c.builtins| && c.builtins[n].id == id;
    assert !Prefixed(c.builtins[n].id);
  }

  function WithNewProfile(s: Store, p: Profile): Store {
    s.(profiles := s.profiles[s.nextProfile := p], nextProfile := s.nextProfile + 1)
  }

  lemma NewProfileIsSet(s: Store, p: Profile)
    requires ProfilesOk(s) && !NameTaken(s, p.name) && ValidBody(p.body)
    ensures ProfileSet(s, WithNewProfile(s, p), s.nextProfile, p)
  {
    assert s.nextProfile !in s.profiles;
    assert WithNewProfile(s, p).profiles - {s.nextProfile} == s.profiles - {s.nextProfile};
  }

  lemma NewProfileKeepsInv(s: Store, p: Profile)
    requires Inv(s) && !NameTaken(s, p.name) && ValidBody(p.body)
    ensures Keeps(s, Materialize(WithNewProfile(s, p), s.nextProfile, p).0)
  {
    NewProfileIsSet(s, p);
    MaterializeKeepsInv(s, WithNewProfile(s, p), s.nextProfile, p);
  }

  lemma CreateProfileKeepsInv(s: Store, name: string, title: string, body: ProfileBody)
    requires Inv(s)
    ensures Keeps(s, CreateProfile(s, name, title, body).store)
  {
    var p := Profile(Trim(name), Trim(title), true, body);
    if !Blank(name) && !Blank(title) && ValidBody(body) && !NameTaken(s, Trim(name)) {
      NewProfileKeepsInv(s, p);
      assert CreateProfile(s, name, title, body).store == Materialize(WithNewProfile(s, p), s.nextProfile, p).0;
    }
  }

  lemma UpdateProfileKeepsInv(
      s: Store, pid: ProfileId, title: Option<string>, body: Option<ProfileBody>, active: Option<bool>)
    requires Inv(s)
    ensures Keeps(s, UpdateProfile(s, pid, title, body, active).store)
  {
    if pid in s.profiles && (body.Some? ==> ValidBody(body.value)) && (title.Some? ==> !Blank(title.value)) {
      var p := ProfileAfter(s.profiles[pid], title, body, active);
      var s1 := s.(profiles := s.profiles[pid := p]);
      assert s1.profiles - {pid} == s.profiles - {pid};
      MaterializeKeepsInv(s, s1, pid, p);
    }
  }

  lemma DeleteProfileKeepsInv(s: Store, pid: ProfileId)
    requires Inv(s)
    ensures Keeps(s, DeleteProfile(s, pid).store)
  {
    if pid in s.profiles {
      var s1 := s.(profiles := s.profiles - {pid});
      MaterializeKeepsInv(s, s1, pid, s.profiles[pid].(active := false));
    }
  }

  predicate OnProfiles(op: Op) {
    op.OpCreateProfile? || op.OpUpdateProfile? || op.OpDeleteProfile?
  }

  predicate OnConversations(op: Op) {
    op.OpConverse? || op.OpChoose?
  }

  lemma UpdateKeepsInv(c: Config, s: Store, id: Key, r: UpdateReq)
    requires Inv(s) && GoodConfig(c)
    ensures Keeps(s, Update(c, s, id, r).store)
  {
    if IsBuiltin(c, id) {
      BuiltinIdsAreGood(c, id);
      UpdateBuiltinKeepsInv(s, id, r);
    } else {
      UpdateUserKeepsInv(s, id, r);
    }
  }

  lemma ServiceKeepsInv(c: Config, s: Store, op: Op)
    requires Inv(s) && GoodConfig(c) && !OnProfiles(op) && !OnConversations(op)
    ensures Keeps(s, Apply(c, s, op))
  {
    match op {
      case OpCreate(id, r, enabled) => CreateKeepsInv(c, s, id, r, enabled);
      case OpUpdate(id, r) => UpdateKeepsInv(c, s, id, r);
      case OpDelete(id) => DeleteKeepsInv(c, s, id);
      case OpSetState(id, r) =>
        if IsBuiltin(c, id) { BuiltinIdsAreGood(c, id); }
        SetStateKeepsInv(c, s, id, r);
      case OpList => ListKeepsInv(s);
      case OpImport(entries, enabled) => ImportFromKeepsInv(c, s, entries, enabled, NO_TALLY);
      case OpBootstrap(users, rows) => BootstrapKeepsEffectiveDefaults(c, s, users, rows);
    }
  }

  lemma ProfilesKeepInv(c: Config, s: Store, op: Op)
    requires Inv(s) && OnProfiles(op)
    ensures Keeps(s, Apply(c, s, op))
  {
    match op {
      case OpCreateProfile(name, title, body) => CreateProfileKeepsInv(s, name, title, body);
      case OpUpdateProfile(pid, title, body, active) => UpdateProfileKeepsInv(s, pid, title, body, active);
      case OpDeleteProfile(pid) => DeleteProfileKeepsInv(s, pid);
    }
  }

  /**
   Every operation keeps the invariant, successful or not.  Only conversations can store an empty
   preference, and only a choice in a running one can let a preference stray from a fixed default.
   */
  lemma ApplyKeepsInv(c: Config, s: Store, op: Op)
    requires Inv(s) && GoodConfig(c)
    ensures Inv(Apply(c, s, op)) && Grows(s.defs, Apply(c, s, op).defs)
    ensures !OnConversations(op) ==> NoNewEmpty(s, Apply(c, s, op))
    ensures !op.OpChoose? ==> NoNewStrays(s, Apply(c, s, op))
  {
    match op {
      case OpConverse(cid, id, chosen) => StartKeepsInv(s, cid, id, chosen);
      case OpChoose(cid, model, permission) => ChooseKeepsInv(s, cid, model, permission);
      case _ => if OnProfiles(op) { ProfilesKeepInv(c, s, op); } else { ServiceKeepsInv(c, s, op); }
    }
  }

  lemma {:induction false} RunKeepsInv(s: Store, h: History)
    requires Inv(s) && GoodHistory(h)
    ensures Inv(Run(s, h)) && Grows(s.defs, Run(s, h).defs)
    decreases |h|
  {
    if h != [] {
      var t := Apply(h[0].0, s, h[0].1);
      ApplyKeepsInv(h[0].0, s, h[0].1);
      assert GoodHistory(h[1..]);
      RunKeepsInv(t, h[1..]);
      GrowsTransitive(s.defs, t.defs, Run(t, h[1..]).defs);
    }
  }
}
