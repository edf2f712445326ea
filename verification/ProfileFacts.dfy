/** What the profile operations mean for their caller. */
module ProfileFacts {
  import opened Prelude
  import opened Text
  import opened AssistantTables
  import opened ProfileCompiler
  import opened AssistantInvariants
  import opened ProfileRuns
  import opened StorageHistory
  import opened ProfileLaws

  /** Field by field, what the schema asks of a profile. */
  predicate SchemaAccepts(body: ProfileBody) {
    && body.engines != [] && Trim(body.primaryModel) != ""
    && forall e :: e in body.engines ==> e in ["hermes", "openclaw", "copilot"]
  }

  lemma SchemaAcceptsIff(body: ProfileBody)
    ensures ValidBody(body) <==> SchemaAccepts(body)
  {
    if ValidBody(body) {
      forall e | e in body.engines
        ensures e in ["hermes", "openclaw", "copilot"]
      {
        var n :| 0 <= n < |body.engines| && body.engines[n] == e;
      }
    }
    if SchemaAccepts(body) {
      forall n | 0 <= n < |body.engines|
        ensures body.engines[n] in ["hermes", "openclaw", "copilot"]
      {
        assert body.engines[n] in body.engines;
      }
    }
  }

  /** The assistant of a profile, if it has one, is the one the profile describes. */
  ghost predicate ShowsProfile(t: Store, pid: ProfileId) {
    var found := Existing(t, pid);
    found.Some? ==> pid in t.profiles && GeneratedFrom(t.defs[found.value], t.profiles[pid])
  }

  lemma ProfileIsShown(t: Store, pid: ProfileId)
    requires Inv(t)
    ensures ShowsProfile(t, pid)
  {
    if Existing(t, pid).Some? { assert RowInv(t, Existing(t, pid).value); }
  }

  /** Why adding a profile fails. */
  predicate AddFails(s: Store, name: string, title: string, body: ProfileBody, error: Option<Error>) {
    var well := Trim(name) != "" && Trim(title) != "" && SchemaAccepts(body);
    var taken := exists p :: p in s.profiles && s.profiles[p].name == Trim(name);
    && (error == None <==> well && !taken)
    && (error == Some(BadRequest) <==> !well)
    && (error == Some(Conflict) <==> well && taken)
  }

  /** The profile is stored, active, and has an assistant exactly if it wants one and its key was never used. */
  ghost predicate AddedProfile(s: Store, t: Store, name: string, title: string, body: ProfileBody) {
    var pid := s.nextProfile;
    && t.profiles == s.profiles[pid := Profile(Trim(name), Trim(title), true, body)]
    && (Existing(t, pid).Some? <==> "copilot" in body.engines && !HasRow(s.defs, "profile:" + Trim(name)))
    && ShowsProfile(t, pid)
  }

  lemma AddProfileFacts(s: Store, name: string, title: string, body: ProfileBody)
    requires Inv(s)
    ensures var d := CreateProfile(s, name, title, body);
            && Inv(d.store)
            && AddFails(s, name, title, body, d.error)
            && (d.error == None ==> AddedProfile(s, d.store, name, title, body))
  {
    CreateProfileKeepsInv(s, name, title, body);
    SchemaAcceptsIff(body);
    if CreateProfile(s, name, title, body).error == None {
      var p := Profile(Trim(name), Trim(title), true, body);
      NewProfileIsSet(s, p);
      CompilingKeepsProfiles(WithNewProfile(s, p), s.nextProfile, p);
      NewProfileHasNone(s);
      ProfileIsShown(CreateProfile(s, name, title, body).store, s.nextProfile);
      if Wanted(p) {
        CompilingYieldsAssistantIff(s, WithNewProfile(s, p), s.nextProfile, p);
      } else {
        UnwantedHasNone(WithNewProfile(s, p), s.nextProfile, p);
      }
    }
  }

  lemma NewProfileHasNone(s: Store)
    requires Inv(s)
    ensures Existing(s, s.nextProfile) == None
  {
    if Existing(s, s.nextProfile).Some? {
      AssistantKey(s, s.nextProfile);
      assert false;
    }
  }

  /** Why editing a profile fails. */
  predicate EditFails(
      s: Store, pid: ProfileId, title: Option<string>, body: Option<ProfileBody>, error: Option<Error>) {
    var well := (title.Some? ==> Trim(title.value) != "") && (body.Some? ==> SchemaAccepts(body.value));
    && (error == None <==> pid in s.profiles && well)
    && (error == Some(NotFound) <==> pid !in s.profiles)
    && (error == Some(BadRequest) <==> pid in s.profiles && !well)
  }

  /** What is named is edited, the name never. */
  predicate Edited(
      p: Profile, q: Profile, title: Option<string>, body: Option<ProfileBody>, active: Option<bool>) {
    && q.name == p.name && (title.Some? ==> q.title == Trim(title.value)) && (title.None? ==> q.title == p.title)
    && (body.Some? ==> q.body == body.value) && (body.None? ==> q.body == p.body)
    && (active.Some? ==> q.active == active.value) && (active.None? ==> q.active == p.active)
  }

  /** After an edit the profile has an assistant exactly if it wants one and had one, or its key was never used. */
  ghost predicate EditedProfile(
      s: Store, t: Store, pid: ProfileId, title: Option<string>, body: Option<ProfileBody>, active: Option<bool>) {
    && pid in s.profiles && pid in t.profiles && t.profiles == s.profiles[pid := t.profiles[pid]]
    && Edited(s.profiles[pid], t.profiles[pid], title, body, active)
    && ShowsProfile(t, pid)
    && (Existing(t, pid).Some? <==>
        Wanted(t.profiles[pid]) && (Existing(s, pid).Some? || !HasRow(s.defs, KeyFor(s.profiles[pid].name))))
    && (Existing(t, pid).Some? && Existing(s, pid).Some? ==> Existing(t, pid) == Existing(s, pid))
  }

  lemma EditProfileFacts(
      s: Store, pid: ProfileId, title: Option<string>, body: Option<ProfileBody>, active: Option<bool>)
    requires Inv(s)
    ensures var d := UpdateProfile(s, pid, title, body, active);
            && Inv(d.store)
            && EditFails(s, pid, title, body, d.error)
            && (d.error == None ==> EditedProfile(s, d.store, pid, title, body, active))
            && (d.error != None ==> d.store == s)
  {
    UpdateProfileKeepsInv(s, pid, title, body, active);
    if body.Some? { SchemaAcceptsIff(body.value); }
    if UpdateProfile(s, pid, title, body, active).error == None {
      ProfileIsShown(UpdateProfile(s, pid, title, body, active).store, pid);
      EditedFacts(s, pid, ProfileAfter(s.profiles[pid], title, body, active), title, body, active);
    }
  }

  lemma EditedFacts(
      s: Store, pid: ProfileId, p: Profile, title: Option<string>, body: Option<ProfileBody>, active: Option<bool>)
    requires Inv(s) && pid in s.profiles && Edited(s.profiles[pid], p, title, body, active) && ValidBody(p.body)
    requires ShowsProfile(Materialize(s.(profiles := s.profiles[pid := p]), pid, p).0, pid)
    ensures var t := Materialize(s.(profiles := s.profiles[pid := p]), pid, p).0;
            EditedProfile(s, t, pid, title, body, active)
  {
    var s1 := s.(profiles := s.profiles[pid := p]);
    assert s1.profiles - {pid} == s.profiles - {pid};
    CompilingKeepsProfiles(s1, pid, p);
    if Wanted(p) { CompilingYieldsAssistantIff(s, s1, pid, p); } else { UnwantedHasNone(s1, pid, p); }
  }

  lemma UnwantedHasNone(s1: Store, pid: ProfileId, p: Profile)
    requires !Wanted(p) && ValidBody(p.body)
    ensures Existing(Materialize(s1, pid, p).0, pid) == None
  {
    UnwantedOutcome(s1, pid, p);
    if Existing(s1, pid).Some? { NoneAfterRetiring(s1, pid); }
  }

  lemma RemoveProfileFacts(s: Store, pid: ProfileId)
    requires Inv(s)
    ensures var d := DeleteProfile(s, pid);
            && Inv(d.store)
            && d.error == (if pid in s.profiles then None else Some(NotFound))
            && d.store.profiles == s.profiles - {pid} && Existing(d.store, pid) == None
  {
    DeleteProfileKeepsInv(s, pid);
    if pid in s.profiles {
      var s1 := s.(profiles := s.profiles - {pid});
      CompilingKeepsProfiles(s1, pid, s.profiles[pid].(active := false));
      if Existing(s1, pid).Some? { NoneAfterRetiring(s1, pid); }
    }
  }
}
