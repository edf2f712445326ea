/**
 What conversations write into the assistant tables.  A new conversation remembers what it was
 started with in the preference of its assistant; changing the model or the permission later does
 the same, but by the modes of defaults the conversation was started under.
 */
module AssistantConversation {
  import opened Prelude
  import opened AssistantTables
  import opened AssistantInvariants

  /** What the caller chose for this conversation; absent fields follow the assistant. */
  datatype Chosen = Chosen(
    model: Option<string>, permission: Option<string>, skills: Option<seq<string>>,
    disabledSkills: Option<seq<string>>, mcps: Option<seq<string>>)

  /** `persist_assistant_preferences_from_snapshot`: only automatic defaults are remembered. */
  function Remembered(d: Definition, p: Preference, ch: Chosen): Preference {
    Preference(
      if d.model.mode.Auto? then Or(ch.model, p.model) else p.model,
      if d.permission.mode.Auto? then Or(ch.permission, p.permission) else p.permission,
      if d.skills.mode.Auto? then UnwrapOr(ch.skills, p.skills) else p.skills,
      if d.skills.mode.Auto? then UnwrapOr(ch.disabledSkills, p.disabledSkills) else p.disabledSkills,
      if d.mcps.mode.Auto? then UnwrapOr(ch.mcps, p.mcps) else p.mcps)
  }

  /** Starting a conversation with an assistant: its modes are recorded, its preference is stored, empty or not. */
  function StartConversation(s: Store, cid: ConversationId, key: Key, ch: Chosen): Store {
    match LiveByKey(s.defs, key)
    case None => s
    case Some(i) =>
      var d := s.defs[i];
      s.(prefs := s.prefs[i := Remembered(d, PreferenceOf(s, i), ch)],
         snapshots := s.snapshots[cid := Snapshot(i, d.model.mode, d.permission.mode)])
  }

  /** A preference after a running conversation chose a model or a permission. */
  function Rechosen(p: Preference, n: Snapshot, model: Option<string>, permission: Option<string>): Preference {
    p.(model := if n.model.Auto? then Or(model, p.model) else p.model,
       permission := if n.permission.Auto? then Or(permission, p.permission) else p.permission)
  }

  /** `persist_runtime_assistant_preferences`: goes by the recorded modes, and stores the row, empty or not. */
  function ChooseInConversation(
      s: Store, cid: ConversationId, model: Option<string>, permission: Option<string>): Store {
    if cid !in s.snapshots || s.snapshots[cid].definition !in s.defs then s
    else
      var n := s.snapshots[cid];
      s.(prefs := s.prefs[n.definition := Rechosen(PreferenceOf(s, n.definition), n, model, permission)])
  }

  // ---------------------------------------------------------------------------------------
  // What is remembered
  // ---------------------------------------------------------------------------------------

  /** A choice is remembered where the default was left open; anything else stays. */
  predicate RemembersScalar(mode: Mode, chosen: Option<string>, before: Option<string>, after: Option<string>) {
    && (mode == Auto && chosen.Some? ==> after == chosen)
    && (mode == Fixed || chosen == None ==> after == before)
  }

  predicate RemembersList(mode: Mode, chosen: Option<seq<string>>, before: seq<string>, after: seq<string>) {
    && (mode == Auto && chosen.Some? ==> after == chosen.value)
    && (mode == Fixed || chosen == None ==> after == before)
  }

  predicate RemembersChosen(d: Definition, ch: Chosen, before: Preference, after: Preference) {
    && RemembersScalar(d.model.mode, ch.model, before.model, after.model)
    && RemembersScalar(d.permission.mode, ch.permission, before.permission, after.permission)
    && RemembersList(d.skills.mode, ch.skills, before.skills, after.skills)
    && RemembersList(d.skills.mode, ch.disabledSkills, before.disabledSkills, after.disabledSkills)
    && RemembersList(d.mcps.mode, ch.mcps, before.mcps, after.mcps)
  }

  /** The modes the conversation starts under are recorded and its choices remembered; no other assistant notices. */
  predicate StartShown(s: Store, t: Store, cid: ConversationId, key: Key, ch: Chosen, i: DefId)
    requires i in s.defs
  {
    if s.defs[i].key == key then
      && t.snapshots == s.snapshots[cid := Snapshot(i, s.defs[i].model.mode, s.defs[i].permission.mode)]
      && RemembersChosen(s.defs[i], ch, PreferenceOf(s, i), PreferenceOf(t, i))
    else PreferenceOf(t, i) == PreferenceOf(s, i)
  }

  lemma StartRemembers(s: Store, cid: ConversationId, key: Key, ch: Chosen, i: DefId)
    requires LiveAt(s.defs, i)
    ensures StartShown(s, StartConversation(s, cid, key, ch), cid, key, ch, i)
  {
    var found := LiveByKey(s.defs, key);
    if found.Some? && found.value != i {
      StartIsOnePreference(s, cid, key, ch);
      OtherPreferences(s, StartConversation(s, cid, key, ch), found.value, i);
    }
  }

  /** A choice in a running conversation goes by the modes recorded when it started. */
  predicate ChoiceShown(
      s: Store, t: Store, cid: ConversationId, model: Option<string>, permission: Option<string>, i: DefId) {
    var p, q := PreferenceOf(s, i), PreferenceOf(t, i);
    if cid in s.snapshots && s.snapshots[cid].definition == i then
      && RemembersScalar(s.snapshots[cid].model, model, p.model, q.model)
      && RemembersScalar(s.snapshots[cid].permission, permission, p.permission, q.permission)
      && q.skills == p.skills && q.disabledSkills == p.disabledSkills && q.mcps == p.mcps
    else q == p
  }

  lemma ChooseRemembers(s: Store, cid: ConversationId, model: Option<string>, permission: Option<string>, i: DefId)
    requires i in s.defs
    ensures ChoiceShown(s, ChooseInConversation(s, cid, model, permission), cid, model, permission, i)
    ensures ChooseInConversation(s, cid, model, permission).snapshots == s.snapshots
  {
    if cid in s.snapshots && s.snapshots[cid].definition in s.defs {
      var j := s.snapshots[cid].definition;
      ChooseIsOnePreference(s, cid, model, permission);
      if i != j { OtherPreferences(s, ChooseInConversation(s, cid, model, permission), j, i); }
    }
  }

  // ---------------------------------------------------------------------------------------
  // The tables stay in order
  // ---------------------------------------------------------------------------------------

  /** `t` differs from `s` in the preference of one row, and in what conversations recorded. */
  ghost predicate OnePreference(s: Store, t: Store, i: DefId) {
    && i in s.defs && t == s.(prefs := t.prefs, snapshots := t.snapshots) && i in t.prefs
    && t.prefs - {i} == s.prefs - {i}
  }

  lemma PreferencesKeepInv(s: Store, t: Store, i: DefId)
    requires Inv(s) && OnePreference(s, t, i)
    ensures Inv(t)
  {
    forall j | j in s.defs
      ensures RowInv(t, j)
    {
      assert RowInv(s, j);
      assert OverlayOf(t, j) == OverlayOf(s, j);
    }
    forall j | j in t.prefs
      ensures j in t.defs
    {
      if j != i { OtherPreferences(s, t, i, j); }
    }
  }

  lemma StartIsOnePreference(s: Store, cid: ConversationId, key: Key, ch: Chosen)
    requires LiveByKey(s.defs, key).Some?
    ensures OnePreference(s, StartConversation(s, cid, key, ch), LiveByKey(s.defs, key).value)
  {
  }

  lemma ChooseIsOnePreference(s: Store, cid: ConversationId, model: Option<string>, permission: Option<string>)
    requires cid in s.snapshots && s.snapshots[cid].definition in s.defs
    ensures OnePreference(s, ChooseInConversation(s, cid, model, permission), s.snapshots[cid].definition)
  {
  }

  /** Starting a conversation keeps the invariant, and lets no preference stray: what is fixed is left alone. */
  lemma StartKeepsInv(s: Store, cid: ConversationId, key: Key, ch: Chosen)
    requires Inv(s)
    ensures var t := StartConversation(s, cid, key, ch);
            Inv(t) && t.defs == s.defs && NoNewStrays(s, t)
  {
    var found := LiveByKey(s.defs, key);
    if found.Some? {
      var t := StartConversation(s, cid, key, ch);
      StartIsOnePreference(s, cid, key, ch);
      PreferencesKeepInv(s, t, found.value);
      forall j
        ensures Strays(t, j) ==> Strays(s, j)
      {
        if j != found.value { OtherPreferences(s, t, found.value, j); }
      }
    }
  }

  /** Choosing in a running conversation keeps the invariant. */
  lemma ChooseKeepsInv(s: Store, cid: ConversationId, model: Option<string>, permission: Option<string>)
    requires Inv(s)
    ensures var t := ChooseInConversation(s, cid, model, permission);
            Inv(t) && t.defs == s.defs
  {
    if cid in s.snapshots && s.snapshots[cid].definition in s.defs {
      ChooseIsOnePreference(s, cid, model, permission);
      PreferencesKeepInv(s, ChooseInConversation(s, cid, model, permission), s.snapshots[cid].definition);
    }
  }

  // ---------------------------------------------------------------------------------------
  // Empty rows
  // ---------------------------------------------------------------------------------------

  /** Nothing was remembered, and what is left open is not chosen either. */
  predicate NothingToRemember(d: Definition, p: Preference, ch: Chosen) {
    && p.model == None && (d.model.mode.Auto? ==> ch.model == None)
    && p.permission == None && (d.permission.mode.Auto? ==> ch.permission == None)
    && (if d.skills.mode.Auto? && ch.skills.Some? then ch.skills.value == [] else p.skills == [])
    && (if d.skills.mode.Auto? && ch.disabledSkills.Some? then ch.disabledSkills.value == []
        else p.disabledSkills == [])
    && (if d.mcps.mode.Auto? && ch.mcps.Some? then ch.mcps.value == [] else p.mcps == [])
  }

  /** Exactly when starting a conversation stores an empty row. */
  lemma StartStoresEmptyIff(s: Store, i: DefId, cid: ConversationId, key: Key, ch: Chosen)
    requires LiveByKey(s.defs, key) == Some(i)
    ensures StoresEmpty(StartConversation(s, cid, key, ch), i) <==>
            NothingToRemember(s.defs[i], PreferenceOf(s, i), ch)
  {
  }

  /** Exactly when choosing in a running conversation stores an empty row. */
  lemma ChooseStoresEmptyIff(s: Store, cid: ConversationId, model: Option<string>, permission: Option<string>)
    requires cid in s.snapshots && s.snapshots[cid].definition in s.defs
    ensures var n := s.snapshots[cid];
            StoresEmpty(ChooseInConversation(s, cid, model, permission), n.definition) <==>
            && PreferenceOf(s, n.definition) == NO_PREFERENCE
            && (n.model.Auto? ==> model == None) && (n.permission.Auto? ==> permission == None)
  {
  }

  // ---------------------------------------------------------------------------------------
  // Fixed defaults
  // ---------------------------------------------------------------------------------------

  /** The conversation brings a value for a default that has been fixed to another one since. */
  predicate Overtaken(d: Scalar, recorded: Mode, value: Option<string>) {
    d.mode.Fixed? && recorded.Auto? && value.Some? && value != d.value
  }

  /** `cid` is a conversation with assistant `i`, and its choice is at odds with a default fixed since it began. */
  predicate Overtakes(s: Store, cid: ConversationId, model: Option<string>, permission: Option<string>, i: DefId) {
    && cid in s.snapshots && s.snapshots[cid].definition == i && LiveAt(s.defs, i) && s.defs[i].source != Generated
    && (Overtaken(s.defs[i].model, s.snapshots[cid].model, model)
        || Overtaken(s.defs[i].permission, s.snapshots[cid].permission, permission))
  }

  /**
   "A fixed default is the stored preference" does not survive conversations: a choice lets the preference
   stray exactly if the default was automatic when the conversation began, has been fixed since, and the
   conversation chooses something else.
   */
  lemma ChooseStraysIff(s: Store, cid: ConversationId, model: Option<string>, permission: Option<string>, i: DefId)
    requires !Strays(s, i)
    ensures Strays(ChooseInConversation(s, cid, model, permission), i) <==> Overtakes(s, cid, model, permission, i)
  {
    if cid in s.snapshots && s.snapshots[cid].definition in s.defs {
      var j := s.snapshots[cid].definition;
      ChooseIsOnePreference(s, cid, model, permission);
      if i != j { OtherPreferences(s, ChooseInConversation(s, cid, model, permission), j, i); }
    }
  }

  /** What an assistant resolves once a conversation was started: its open defaults follow the choice. */
  function Follows(d: Definition, before: Effective, ch: Chosen): Effective {
    Effective(if d.model.mode.Auto? then Or(ch.model, before.model) else before.model,
              if d.permission.mode.Auto? then Or(ch.permission, before.permission) else before.permission,
              if d.mcps.mode.Auto? then UnwrapOr(ch.mcps, before.mcps) else before.mcps)
  }

  lemma StartResolves(s: Store, cid: ConversationId, key: Key, ch: Chosen, i: DefId)
    requires LiveAt(s.defs, i)
    ensures EffectiveOf(StartConversation(s, cid, key, ch), i)
         == if s.defs[i].key == key then Follows(s.defs[i], EffectiveOf(s, i), ch) else EffectiveOf(s, i)
  {
    var found := LiveByKey(s.defs, key);
    if found.Some? && found.value != i {
      StartIsOnePreference(s, cid, key, ch);
      OtherPreferences(s, StartConversation(s, cid, key, ch), found.value, i);
    }
  }
}
