/**
 Profiles and the assistants generated from them.  A profile gets an assistant as long as none
 of its rows was ever deleted: retiring marks the row, and the row keeps the key.
 */
module ProfileRuns {
  import opened Prelude
  import opened AssistantTables
  import opened ProfileCompiler
  import opened AssistantInvariants
  import opened AssistantRuns
  import opened AssistantBootstrap

  /** `s1` is `s` with profile `pid` stored as `p`, or removed when `p` is the inactive copy of a removed one. */
  ghost predicate ProfileSet(s: Store, s1: Store, pid: ProfileId, p: Profile) {
    && s1 == s.(profiles := s1.profiles, nextProfile := s1.nextProfile)
    && s.nextProfile <= s1.nextProfile && pid < s1.nextProfile
    && s1.profiles - {pid} == s.profiles - {pid}
    && (pid in s.profiles ==> s.profiles[pid].name == p.name)
    && (pid !in s.profiles ==> pid == s.nextProfile && !NameTaken(s, p.name))
    && (if pid in s1.profiles then s1.profiles[pid] == p else pid in s.profiles && !p.active)
    && ValidBody(p.body)
  }

  /** The live generated row of a profile. */
  predicate IsFor(d: Definition, pid: ProfileId) {
    !d.deleted && d.source == Generated && d.sourceRef == Some(FromProfile(pid))
  }

  lemma SameElsewhere(s: Store, s1: Store, pid: ProfileId, p: Profile, q: ProfileId)
    requires ProfileSet(s, s1, pid, p) && q != pid
    ensures q in s1.profiles <==> q in s.profiles
    ensures q in s.profiles ==> s1.profiles[q] == s.profiles[q]
  {
    assert q in s1.profiles <==> q in (s1.profiles - {pid});
    assert q in s.profiles <==> q in (s.profiles - {pid});
    assert q in s.profiles ==> (s1.profiles - {pid})[q] == (s.profiles - {pid})[q];
  }

  lemma RefSurvives(s: Store, s1: Store, pid: ProfileId, p: Profile, d: Definition)
    requires ProfileSet(s, s1, pid, p) && RowOk(s, d)
    ensures RowOk(s1, d)
  {
    if d.source == Generated && d.sourceRef.value.profile != pid {
      SameElsewhere(s, s1, pid, p, d.sourceRef.value.profile);
    }
  }

  lemma OtherRowSurvives(s: Store, s1: Store, pid: ProfileId, p: Profile, j: DefId)
    requires ProfileSet(s, s1, pid, p) && j in s.defs && RowInv(s, j) && !IsFor(s.defs[j], pid)
    ensures RowInv(s1, j)
  {
    var d := s.defs[j];
    RefSurvives(s, s1, pid, p, d);
    assert PreferenceOf(s1, j) == PreferenceOf(s, j) && OverlayOf(s1, j) == OverlayOf(s, j);
    if d.source == Generated && !d.deleted { SameElsewhere(s, s1, pid, p, d.sourceRef.value.profile); }
  }

  /** All rows of other profiles are untouched by the profile write. */
  lemma OthersSurvive(s: Store, s1: Store, pid: ProfileId, p: Profile)
    requires Inv(s) && ProfileSet(s, s1, pid, p)
    ensures forall j :: j in s1.defs && Some(j) != Existing(s1, pid) ==> RowInv(s1, j)
    ensures KeysOk(s1)
  {
    forall j | j in s1.defs && Some(j) != Existing(s1, pid)
      ensures RowInv(s1, j)
    {
      assert RowInv(s, j);
      OtherRowSurvives(s, s1, pid, p, j);
    }
  }

  ghost predicate PidHasRow(t: Store, pid: ProfileId) {
    pid in t.profiles && Wanted(t.profiles[pid]) ==> HasRow(t.defs, KeyFor(t.profiles[pid].name))
  }

  lemma ProfilesSurvive(s: Store, s1: Store, t: Store, pid: ProfileId, p: Profile)
    requires ProfilesOk(s) && ProfileSet(s, s1, pid, p)
    requires t.profiles == s1.profiles && t.nextProfile == s1.nextProfile && PidHasRow(t, pid)
    requires forall k :: HasRow(s.defs, k) ==> HasRow(t.defs, k)
    ensures ProfilesOk(t)
  {
    forall q | q in t.profiles
      ensures q < t.nextProfile && ValidBody(t.profiles[q].body)
              && (Wanted(t.profiles[q]) ==> HasRow(t.defs, KeyFor(t.profiles[q].name)))
    {
      if q != pid { SameElsewhere(s, s1, pid, p, q); }
    }
    forall q, r | q in t.profiles && r in t.profiles && t.profiles[q].name == t.profiles[r].name
      ensures q == r
    {
      if q != pid { SameElsewhere(s, s1, pid, p, q); }
      if r != pid { SameElsewhere(s, s1, pid, p, r); }
    }
  }

  // ---------------------------------------------------------------------------------------
  // The cases of the compiler
  // ---------------------------------------------------------------------------------------

  lemma RetireRewrites(s: Store, s1: Store, pid: ProfileId, p: Profile, i: DefId)
    requires Inv(s) && ProfileSet(s, s1, pid, p) && Existing(s1, pid) == Some(i)
    ensures var t := s1.(defs := SoftDelete(s1.defs, i));
            Rewritten(s1, t, i) && RowInv(t, i)
  {
    assert RowInv(s, i);
    RefSurvives(s, s1, pid, p, s.defs[i]);
    MarkingRewrites(s1, i);
  }

  /** Marking one row. */
  lemma MarkingRewrites(s: Store, i: DefId)
    requires i in s.defs && i < s.nextDef && RowOk(s, s.defs[i])
    ensures var t := s.(defs := SoftDelete(s.defs, i));
            Rewritten(s, t, i) && RowInv(t, i)
  {
  }

  ghost predicate Fits(s1: Store, i: DefId, pid: ProfileId, p: Profile) {
    && pid in s1.profiles && s1.profiles[pid] == p && Wanted(p) && pid < s1.nextProfile
    && Target(s1, i, KeyFor(p.name)) && KeyFor(p.name) !in s1.legacy
    && (i !in s1.defs ==> !HasRow(s1.defs, KeyFor(p.name)))
  }

  lemma WriteRewrites(s1: Store, t: Store, i: DefId, pid: ProfileId, p: Profile)
    requires Fits(s1, i, pid, p) && ValidBody(p.body) && Put(s1, t, i, Desired(pid, p))
    ensures Rewritten(s1, t, i) && RowInv(t, i)
  {
    assert PREFIX <= KeyFor(p.name);
    assert OverlayOf(t, i) == OverlayOf(s1, i);
  }

  lemma ExistingFits(s: Store, s1: Store, pid: ProfileId, p: Profile, i: DefId)
    requires Inv(s) && ProfileSet(s, s1, pid, p) && pid in s1.profiles && Wanted(p) && Existing(s1, pid) == Some(i)
    ensures Fits(s1, i, pid, p) && s1.defs[i].key == KeyFor(p.name)
  {
    assert RowInv(s, i);
    RefSurvives(s, s1, pid, p, s.defs[i]);
    assert LiveByKey(s1.defs, KeyFor(p.name)) == Some(i);
  }

  /** For a profile that calls for one: the compiler fails iff the key of a missing row is taken. */
  lemma CompileFits(s: Store, s1: Store, pid: ProfileId, p: Profile)
    requires Inv(s) && ProfileSet(s, s1, pid, p) && pid in s1.profiles && Wanted(p)
    ensures var i := UnwrapOr(Existing(s1, pid), s1.nextDef);
            && (Existing(s1, pid).Some? || !HasRow(s1.defs, KeyFor(p.name)) ==> Fits(s1, i, pid, p))
            && (Clashes(s1.defs, i, Desired(pid, p)) <==> Existing(s1, pid).None? && HasRow(s1.defs, KeyFor(p.name)))
  {
    var want := Desired(pid, p);
    var found := Existing(s1, pid);
    var i := UnwrapOr(found, s1.nextDef);
    assert KeyFor(p.name) == want.key && PREFIX <= want.key;
    if found.Some? { ExistingFits(s, s1, pid, p, i); }
    forall j | j in s1.defs && j != i
      ensures Clash(s1.defs[j], want) <==> found.None? && s1.defs[j].key == want.key
    {
      assert RowInv(s, j);
      RefSurvives(s, s1, pid, p, s.defs[j]);
      if found.Some? { assert !Clash(s1.defs[j], s1.defs[i]); }
    }
  }

  /** What compiling a wanted profile comes to: nothing to do, a clash, or its row written. */
  ghost predicate CompiledTo(s1: Store, t: Store, o: Result<Outcome, Error>, i: DefId, pid: ProfileId, p: Profile) {
    var want, found := Desired(pid, p), Existing(s1, pid);
    if found.Some? && Matches(want, s1.defs[found.value]) then t == s1 && o == Ok(Unchanged)
    else if Clashes(s1.defs, i, want) then t == s1 && o == Err(InternalError)
    else Put(s1, t, i, want) && o.Ok?
  }

  lemma WantedOutcome(s1: Store, pid: ProfileId, p: Profile)
    requires Wanted(p) && ValidBody(p.body) && forall j :: j in s1.defs ==> j < s1.nextDef
    ensures var (t, o) := Materialize(s1, pid, p);
            CompiledTo(s1, t, o, UnwrapOr(Existing(s1, pid), s1.nextDef), pid, p)
  {
  }

  lemma UnwantedOutcome(s1: Store, pid: ProfileId, p: Profile)
    requires !Wanted(p) && ValidBody(p.body)
    ensures Materialize(s1, pid, p) == RetireIfPresent(s1, Existing(s1, pid))
  {
  }

  /** Storing a profile and compiling it, whether the compilation succeeds or not. */
  lemma MaterializeKeepsInv(s: Store, s1: Store, pid: ProfileId, p: Profile)
    requires Inv(s) && ProfileSet(s, s1, pid, p)
    ensures Keeps(s, Materialize(s1, pid, p).0)
  {
    if Wanted(p) {
      var (t, o) := Materialize(s1, pid, p);
      WantedOutcome(s1, pid, p);
      CompiledKeepsInv(s, s1, t, o, pid, p);
    } else {
      UnwantedOutcome(s1, pid, p);
      RetiredKeepsInv(s, s1, pid, p);
    }
  }

  lemma RetiredKeepsInv(s: Store, s1: Store, pid: ProfileId, p: Profile)
    requires Inv(s) && ProfileSet(s, s1, pid, p) && !Wanted(p)
    ensures Keeps(s, RetireIfPresent(s1, Existing(s1, pid)).0)
  {
    var found := Existing(s1, pid);
    if found.Some? {
      RowRetires(s, s1, s1.(defs := SoftDelete(s1.defs, found.value)), pid, p, found.value);
    } else {
      NothingRetires(s, s1, pid, p);
    }
  }

  lemma RowRetires(s: Store, s1: Store, t: Store, pid: ProfileId, p: Profile, i: DefId)
    requires Inv(s) && ProfileSet(s, s1, pid, p) && !Wanted(p) && Existing(s1, pid) == Some(i)
    requires t == s1.(defs := SoftDelete(s1.defs, i))
    ensures Keeps(s, t)
  {
    OthersSurvive(s, s1, pid, p);
    RetireRewrites(s, s1, pid, p, i);
    FinishCompile(s, s1, t, pid, p, i);
  }

  lemma NothingRetires(s: Store, s1: Store, pid: ProfileId, p: Profile)
    requires Inv(s) && ProfileSet(s, s1, pid, p) && !Wanted(p) && Existing(s1, pid) == None
    ensures Keeps(s, s1)
  {
    OthersSurvive(s, s1, pid, p);
    ProfilesSurvive(s, s1, s1, pid, p);
  }

  lemma AddsNothing(s: Store, s1: Store, t: Store, i: DefId)
    requires Rewritten(s1, t, i) && s1.defs == s.defs && s1.prefs == s.prefs
    ensures NoNewEmpty(s, t) && NoNewStrays(s, t)
  {
    RewriteAddsNothing(s1, t, i);
    forall j
      ensures (StoresEmpty(s1, j) <==> StoresEmpty(s, j)) && (Strays(s1, j) <==> Strays(s, j))
    {
    }
  }

  lemma FinishCompile(s: Store, s1: Store, t: Store, pid: ProfileId, p: Profile, i: DefId)
    requires Inv(s) && ProfileSet(s, s1, pid, p) && KeysOk(s1)
    requires forall j :: j in s1.defs && j != i ==> RowInv(s1, j)
    requires Rewritten(s1, t, i) && RowInv(t, i) && PidHasRow(t, pid)
    ensures Keeps(s, t)
  {
    RewriteKeepsRows(s1, t, i);
    AddsNothing(s, s1, t, i);
    forall k | HasRow(s.defs, k) ensures HasRow(t.defs, k) { RowsStay(s1, t, i, k); }
    ProfilesSurvive(s, s1, t, pid, p);
  }

  lemma CompiledKeepsInv(s: Store, s1: Store, t: Store, o: Result<Outcome, Error>, pid: ProfileId, p: Profile)
    requires Inv(s) && ProfileSet(s, s1, pid, p) && Wanted(p)
    requires CompiledTo(s1, t, o, UnwrapOr(Existing(s1, pid), s1.nextDef), pid, p)
    ensures Keeps(s, t)
  {
    var i := UnwrapOr(Existing(s1, pid), s1.nextDef);
    OthersSurvive(s, s1, pid, p);
    CompileFits(s, s1, pid, p);
    if t == s1 {
      NothingWritten(s, s1, o, pid, p);
    } else {
      WrittenKeepsInv(s, s1, t, pid, p, i);
    }
  }

  lemma WrittenKeepsInv(s: Store, s1: Store, t: Store, pid: ProfileId, p: Profile, i: DefId)
    requires Inv(s) && ProfileSet(s, s1, pid, p) && KeysOk(s1)
    requires forall j :: j in s1.defs && j != i ==> RowInv(s1, j)
    requires Fits(s1, i, pid, p) && Put(s1, t, i, Desired(pid, p))
    ensures Keeps(s, t)
  {
    WriteRewrites(s1, t, i, pid, p);
    assert t.defs[i].key == KeyFor(p.name);
    FinishCompile(s, s1, t, pid, p, i);
  }

  lemma UnchangedRowOk(s: Store, s1: Store, pid: ProfileId, p: Profile, i: DefId)
    requires Inv(s) && ProfileSet(s, s1, pid, p) && Wanted(p) && pid in s1.profiles && Existing(s1, pid) == Some(i)
    requires Matches(Desired(pid, p), s1.defs[i])
    ensures RowInv(s1, i)
  {
    assert RowInv(s, i);
    RefSurvives(s, s1, pid, p, s.defs[i]);
    assert OverlayOf(s1, i) == OverlayOf(s, i);
  }

  lemma NothingWritten(s: Store, s1: Store, o: Result<Outcome, Error>, pid: ProfileId, p: Profile)
    requires Inv(s) && ProfileSet(s, s1, pid, p) && Wanted(p) && pid in s1.profiles
    requires CompiledTo(s1, s1, o, UnwrapOr(Existing(s1, pid), s1.nextDef), pid, p)
    ensures Keeps(s, s1)
  {
    var found := Existing(s1, pid);
    CompileFits(s, s1, pid, p);
    if found.Some? { UnchangedRowOk(s, s1, pid, p, found.value); }
    RowsSurvive(s, s1, pid, p);
  }

  lemma RowsSurvive(s: Store, s1: Store, pid: ProfileId, p: Profile)
    requires Inv(s) && ProfileSet(s, s1, pid, p) && PidHasRow(s1, pid)
    requires Existing(s1, pid).Some? ==> RowInv(s1, Existing(s1, pid).value)
    ensures Keeps(s, s1)
  {
    OthersSurvive(s, s1, pid, p);
    ProfilesSurvive(s, s1, s1, pid, p);
  }
}
