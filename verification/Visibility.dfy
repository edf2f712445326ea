/** The gate that hides generated assistants from users without a grant on the profile. */
module Visibility {
  import opened Prelude
  import opened AssistantTables
  import opened StorageHistory
  import opened ProfileLaws

  datatype Person = Person(id: string, roles: seq<string>)

  predicate IsAdmin(u: Person) {
    "admin" in u.roles
  }

  /** One access control lookup; it may fail. */
  type Acl = (ProfileId, string) -> Result<bool, Error>

  /** The profile behind each live generated row. */
  type Gate = map<Key, ProfileId>

  predicate Gates(t: Defs, i: DefId) {
    LiveAt(t, i) && t[i].source == Generated && t[i].sourceRef.Some? && t[i].sourceRef.value.FromProfile?
  }

  function GateOf(t: Defs): (g: Gate)
    ensures forall i :: Gates(t, i) ==> t[i].key in g && g[t[i].key] == t[i].sourceRef.value.profile
    ensures forall k :: k in g ==> LiveByKey(t, k).Some? && Gates(t, LiveByKey(t, k).value)
  {
    RowsApart(t);
    map i | i in t && Gates(t, i) :: t[i].key := t[i].sourceRef.value.profile
  }

  datatype Item = Item(id: Key, name: string)

  // ---------------------------------------------------------------------------------------
  // The check of one profile
  // ---------------------------------------------------------------------------------------

  /** The answer of the first lookup that grants or fails. */
  function FirstAnswer(acl: Acl, p: ProfileId, subjects: seq<string>): Result<bool, Error> {
    if subjects == [] then Ok(false)
    else
      var first := acl(p, subjects[0]);
      if first == Ok(false) then FirstAnswer(acl, p, subjects[1..]) else first
  }

  function Subjects(u: Person): seq<string> {
    [u.id] + u.roles
  }

  /** `is_profile_visible_to_user`: the user, then each role, until one grants. */
  method IsProfileVisibleToUser(acl: Acl, u: Person, p: ProfileId) returns (r: Result<bool, Error>)
    ensures r == FirstAnswer(acl, p, Subjects(u))
  {
    assert Subjects(u)[0] == u.id && Subjects(u)[1..] == u.roles;
    var own := acl(p, u.id);
    if own != Ok(false) {
      return own;
    }
    var n := 0;
    while n < |u.roles|
      invariant 0 <= n <= |u.roles|
      invariant FirstAnswer(acl, p, Subjects(u)) == FirstAnswer(acl, p, u.roles[n..])
    {
      var answer := acl(p, u.roles[n]);
      if answer != Ok(false) {
        return answer;
      }
      assert u.roles[n..][1..] == u.roles[n + 1..];
      n := n + 1;
    }
    return Ok(false);
  }

  // ---------------------------------------------------------------------------------------
  // The list
  // ---------------------------------------------------------------------------------------

  /** Item by item, asking afresh each time, until a lookup fails. */
  function Asked(g: Gate, acl: Acl, u: Person, items: seq<Item>): Result<seq<Item>, Error> {
    if items == [] then Ok([])
    else
      var answer := if items[0].id in g then FirstAnswer(acl, g[items[0].id], Subjects(u)) else Ok(true);
      if answer.Err? then Err(answer.error)
      else
        match Asked(g, acl, u, items[1..])
        case Err(e) => Err(e)
        case Ok(rest) => Ok(if answer.value then [items[0]] + rest else rest)
  }

  function Filtered(g: Gate, acl: Acl, u: Person, items: seq<Item>): Result<seq<Item>, Error> {
    if IsAdmin(u) then Ok(items) else Asked(g, acl, u, items)
  }

  lemma {:induction false} EmptyGateFiltersNothing(acl: Acl, u: Person, items: seq<Item>)
    ensures Asked(map[], acl, u, items) == Ok(items)
  {
    if items != [] {
      EmptyGateFiltersNothing(acl, u, items[1..]);
      assert items == [items[0]] + items[1..];
    }
  }

  function Prepended(kept: seq<Item>, r: Result<seq<Item>, Error>): Result<seq<Item>, Error> {
    match r
    case Ok(rest) => Ok(kept + rest)
    case Err(e) => Err(e)
  }

  lemma PrependedTwice(a: seq<Item>, b: seq<Item>, r: Result<seq<Item>, Error>)
    ensures Prepended(a, Prepended(b, r)) == Prepended(a + b, r)
    ensures b == [] ==> Prepended(b, r) == r
  {
    if r.Ok? {
      assert a + (b + r.value) == (a + b) + r.value;
      assert b == [] ==> b + r.value == r.value;
    }
  }

  /** `filter_visible_assistants`: memoised, with two fast paths; `asked` records the profiles looked up. */
  method FilterVisibleAssistants(g: Gate, acl: Acl, u: Person, items: seq<Item>)
    returns (r: Result<seq<Item>, Error>, asked: seq<ProfileId>)
    ensures r == Filtered(g, acl, u, items)
    ensures Distinct(asked) && forall p :: p in asked ==>
            exists n :: 0 <= n < |items| && items[n].id in g && g[items[n].id] == p
    ensures IsAdmin(u) || g == map[] ==> asked == []
  {
    asked := [];
    if g == map[] {
      EmptyGateFiltersNothing(acl, u, items);
      return Ok(items), asked;
    }
    if IsAdmin(u) {
      return Ok(items), asked;
    }
    var checked: set<ProfileId>, visible: set<ProfileId> := {}, {};
    var kept: seq<Item> := [];
    var n := 0;
    assert items[0..] == items;
    PrependedTwice([], [], Asked(g, acl, u, items));
    while n < |items|
      invariant 0 <= n <= |items|
      invariant Asked(g, acl, u, items) == Prepended(kept, Asked(g, acl, u, items[n..]))
      invariant forall p: ProfileId :: p in checked ==> FirstAnswer(acl, p, Subjects(u)) == Ok(p in visible)
      invariant visible <= checked && Distinct(asked) && forall p :: p in asked <==> p in checked
      invariant forall p :: p in asked ==> exists m :: 0 <= m < n && items[m].id in g && g[items[m].id] == p
    {
      var item := items[n];
      assert items[n..][0] == item && items[n..][1..] == items[n + 1..];
      PrependedTwice(kept, [item], Asked(g, acl, u, items[n + 1..]));
      PrependedTwice(kept, [], Asked(g, acl, u, items[n + 1..]));
      n := n + 1;
      if item.id !in g {
        kept := kept + [item];
        continue;
      }
      var p := g[item.id];
      if p !in checked {
        asked := asked + [p];
        var answer := IsProfileVisibleToUser(acl, u, p);
        if answer.Err? {
          return Err(answer.error), asked;
        }
        checked := checked + {p};
        if answer.value {
          visible := visible + {p};
        }
      }
      if p in visible {
        kept := kept + [item];
      }
    }
    assert items[n..] == [] && kept + [] == kept;
    return Ok(kept), asked;
  }

  // ---------------------------------------------------------------------------------------
  // What the list means
  // ---------------------------------------------------------------------------------------

  /** Grants as a set, when no lookup fails. */
  type Grants = set<(ProfileId, string)>

  ghost predicate Answers(acl: Acl, grants: Grants) {
    forall p: ProfileId, subject: string :: acl(p, subject) == Ok((p, subject) in grants)
  }

  predicate Granted(grants: Grants, u: Person, p: ProfileId) {
    (p, u.id) in grants || exists n :: 0 <= n < |u.roles| && (p, u.roles[n]) in grants
  }

  predicate Sees(g: Gate, grants: Grants, u: Person, item: Item) {
    item.id !in g || "admin" in u.roles || Granted(grants, u, g[item.id])
  }

  function Visible(g: Gate, grants: Grants, u: Person, items: seq<Item>): seq<Item> {
    if items == [] then []
    else (if Sees(g, grants, u, items[0]) then [items[0]] else []) + Visible(g, grants, u, items[1..])
  }

  lemma {:induction false} FirstAnswerGrants(acl: Acl, grants: Grants, p: ProfileId, subjects: seq<string>)
    requires Answers(acl, grants)
    ensures FirstAnswer(acl, p, subjects) == Ok(exists n :: 0 <= n < |subjects| && (p, subjects[n]) in grants)
  {
    if subjects != [] {
      FirstAnswerGrants(acl, grants, p, subjects[1..]);
      assert forall n :: 0 < n < |subjects| ==> subjects[1..][n - 1] == subjects[n];
      assert forall n :: 0 <= n < |subjects| - 1 ==> subjects[1..][n] == subjects[n + 1];
    }
  }

  lemma SubjectsGranted(grants: Grants, u: Person, p: ProfileId)
    ensures Granted(grants, u, p) <==> exists n :: 0 <= n < |Subjects(u)| && (p, Subjects(u)[n]) in grants
  {
    assert Subjects(u)[0] == u.id;
    assert forall n :: 0 <= n < |u.roles| ==> Subjects(u)[n + 1] == u.roles[n];
    assert forall n :: 0 < n < |Subjects(u)| ==> Subjects(u)[n] == u.roles[n - 1];
  }

  /** The memoised loop is the order-preserving filter "not generated, or admin, or granted by user or role". */
  lemma FilteredIsVisible(g: Gate, acl: Acl, grants: Grants, u: Person, items: seq<Item>)
    requires Answers(acl, grants)
    ensures Filtered(g, acl, u, items) == Ok(Visible(g, grants, u, items))
  {
    if IsAdmin(u) { AdminSeesAll(g, grants, u, items); } else { AskedIsVisible(g, acl, grants, u, items); }
  }

  lemma {:induction false} AdminSeesAll(g: Gate, grants: Grants, u: Person, items: seq<Item>)
    requires IsAdmin(u)
    ensures Visible(g, grants, u, items) == items
  {
    if items != [] { AdminSeesAll(g, grants, u, items[1..]); }
  }

  lemma {:induction false} AskedIsVisible(g: Gate, acl: Acl, grants: Grants, u: Person, items: seq<Item>)
    requires Answers(acl, grants) && !IsAdmin(u)
    ensures Asked(g, acl, u, items) == Ok(Visible(g, grants, u, items))
  {
    if items != [] {
      AskedIsVisible(g, acl, grants, u, items[1..]);
      if items[0].id in g {
        FirstAnswerGrants(acl, grants, g[items[0].id], Subjects(u));
        SubjectsGranted(grants, u, g[items[0].id]);
      }
      assert [] + Visible(g, grants, u, items[1..]) == Visible(g, grants, u, items[1..]);
    }
  }

  /** At least as many grants and roles. */
  predicate Stronger(grants: Grants, u: Person, more: Grants, v: Person) {
    && grants <= more && u.id == v.id
    && forall n :: 0 <= n < |u.roles| ==> u.roles[n] in v.roles
  }

  lemma StrongerSees(g: Gate, grants: Grants, u: Person, more: Grants, v: Person, item: Item)
    requires Stronger(grants, u, more, v) && Sees(g, grants, u, item)
    ensures Sees(g, more, v, item)
  {
    if item.id in g && !IsAdmin(u) && (g[item.id], u.id) !in grants {
      var n :| 0 <= n < |u.roles| && (g[item.id], u.roles[n]) in grants;
      var m :| 0 <= m < |v.roles| && v.roles[m] == u.roles[n];
    } else if IsAdmin(u) {
      var n :| 0 <= n < |u.roles| && u.roles[n] == "admin";
      assert u.roles[n] in v.roles;
    }
  }

  /** Monotone: what is seen with less is what is seen, with less, of what is seen with more. */
  lemma {:induction false} VisibleIsMonotone(
      g: Gate, grants: Grants, u: Person, more: Grants, v: Person, items: seq<Item>)
    requires Stronger(grants, u, more, v)
    ensures Visible(g, grants, u, items) == Visible(g, grants, u, Visible(g, more, v, items))
  {
    if items != [] {
      VisibleIsMonotone(g, grants, u, more, v, items[1..]);
      var rest := Visible(g, more, v, items[1..]);
      if Sees(g, grants, u, items[0]) { StrongerSees(g, grants, u, more, v, items[0]); }
      assert ([items[0]] + rest)[1..] == rest && [] + rest == rest;
    }
  }

  lemma {:induction false} VisibleMembers(g: Gate, grants: Grants, u: Person, items: seq<Item>, item: Item)
    ensures item in Visible(g, grants, u, items) <==> item in items && Sees(g, grants, u, item)
  {
    if items != [] {
      VisibleMembers(g, grants, u, items[1..], item);
      assert item in items <==> item == items[0] || item in items[1..];
    }
  }

  /** A grant on the profile a row was generated from. */
  predicate GrantedBehind(grants: Grants, u: Person, d: Definition) {
    d.sourceRef.Some? && d.sourceRef.value.FromProfile? && Granted(grants, u, d.sourceRef.value.profile)
  }

  /** In every history, each generated assistant is behind the gate, and each other one in front of it. */
  lemma GeneratedAssistantsAreGated(h: History, grants: Grants, u: Person, items: seq<Item>, i: DefId, name: string)
    requires GoodHistory(h) && LiveAt(Run(EMPTY, h).defs, i)
    ensures var s := Run(EMPTY, h);
            var item := Item(s.defs[i].key, name);
            item in Visible(GateOf(s.defs), grants, u, items) <==>
              && item in items
              && (s.defs[i].source == Generated ==> "admin" in u.roles || GrantedBehind(grants, u, s.defs[i]))
  {
    var s := Run(EMPTY, h);
    var item := Item(s.defs[i].key, name);
    GeneratedRowsMatchProfiles(h, i);
    VisibleMembers(GateOf(s.defs), grants, u, items, item);
    assert LiveByKey(s.defs, s.defs[i].key) == Some(i);
    assert s.defs[i].source == Generated ==> Gates(s.defs, i);
  }
}
