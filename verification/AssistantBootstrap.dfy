/**
 Bootstrap rebuilds definitions from what is shipped and from the legacy rows.  It resets the
 modes of defaults to auto, yet no assistant resolves differently afterwards; and it fails
 exactly when some key it has to write belongs to a deleted row.
 */
module AssistantBootstrap {
  import opened Prelude
  import opened AssistantTables
  import opened AssistantService
  import opened ProfileCompiler
  import opened AssistantInvariants
  import opened AssistantEffects
  import opened AssistantRuns

  /** A key that no live row can take: its row is marked deleted. */
  ghost predicate Dead(s: Store, k: Key) {
    HasRow(s.defs, k) && LiveByKey(s.defs, k).None?
  }

  lemma DeadIsTombstone(s: Store, k: Key)
    ensures Dead(s, k) <==> Tombstone(s.defs, k)
  {
    if Dead(s, k) {
      var i :| i in s.defs && s.defs[i].key == k;
      assert LiveAt(s.defs, i) ==> LiveByKey(s.defs, k) == Some(i);
    } else if Tombstone(s.defs, k) {
      var i :| i in s.defs && s.defs[i].key == k && s.defs[i].deleted;
      assert Clash(s.defs[i], s.defs[LiveByKey(s.defs, k).value]);
    }
  }

  predicate StartsAuto(d: Definition) {
    d.model == Scalar(Auto, None) && d.permission == Scalar(Auto, None) && d.mcps.mode == Auto
  }

  // ---------------------------------------------------------------------------------------
  // Writing one definition
  // ---------------------------------------------------------------------------------------

  /** `u` is `s` with row `i` set to `d`, new or rewritten. */
  ghost predicate Put(s: Store, u: Store, i: DefId, d: Definition) {
    && u.defs == s.defs[i := d] && i in u.defs && u.defs[i] == d
    && u == s.(defs := u.defs, nextDef := if i in s.defs then s.nextDef else i + 1)
  }

  lemma PutKeepsInv(s: Store, u: Store, i: DefId, d: Definition)
    requires Inv(s) && Target(s, i, d.key) && Put(s, u, i, d) && OwnRef(d) && StartsAuto(d) && Described(s, d)
    ensures Keeps(s, u)
  {
    PutRewrites(s, u, i, d);
    RewriteKeepsInv(s, u, i);
  }

  lemma PutRewrites(s: Store, u: Store, i: DefId, d: Definition)
    requires Target(s, i, d.key) && Put(s, u, i, d) && OwnRef(d) && StartsAuto(d) && Described(s, d)
    ensures Rewritten(s, u, i) && RowInv(u, i)
  {
    assert OverlayOf(u, i) == OverlayOf(s, i);
  }

  ghost predicate SameTombstones(s: Store, u: Store) {
    forall k :: Tombstone(u.defs, k) <==> Tombstone(s.defs, k)
  }

  lemma PutKeepsTombstones(s: Store, u: Store, i: DefId, d: Definition)
    requires i in u.defs && u.defs == s.defs[i := d] && !d.deleted && (i in s.defs ==> !s.defs[i].deleted)
    ensures SameTombstones(s, u)
  {
    forall k
      ensures Tombstone(u.defs, k) <==> Tombstone(s.defs, k)
    {
      if Tombstone(s.defs, k) {
        var j :| j in s.defs && s.defs[j].key == k && s.defs[j].deleted;
        assert u.defs[j] == s.defs[j];
      }
      if Tombstone(u.defs, k) {
        var j :| j in u.defs && u.defs[j].key == k && u.defs[j].deleted;
        assert s.defs[j] == u.defs[j];
      }
    }
  }

  /** One write, seen from outside: refused on a dead key, else every default of that row is auto. */
  ghost predicate WroteOrRefused(s: Store, d: Definition, done: Done) {
    if Dead(s, d.key) then done == Done(s, Some(InternalError))
    else
      var i := UnwrapOr(LiveByKey(s.defs, d.key), s.nextDef);
      done.error == None && Target(s, i, d.key) && Put(s, done.store, i, d) && (i !in s.defs ==> !HasRow(s.defs, d.key))
  }

  lemma WriteOnce(s: Store, d: Definition)
    requires Inv(s) && OwnRef(d)
    ensures var (i, k) := ResolveIdentity(s, d.source, d.key);
            k == d.key && WroteOrRefused(s, d, WriteDefinition(s, i, d))
  {
    InvGivesDefsOk(s);
    WriteEffect(s, d);
    if !Dead(s, d.key) { TargetOf(s, d.key); }
  }

  /** What the loops of bootstrap keep, from the first tables to the last. */
  ghost predicate Carries(s: Store, u: Store) {
    && Keeps(s, u) && u.legacy == s.legacy && u.prefs == s.prefs
    && (forall i :: LiveAt(s.defs, i) ==>
          LiveAt(u.defs, i) && RowCarried(s.defs[i], u.defs[i]) && OverlayOf(u, i) == OverlayOf(s, i))
  }

  /** A row that bootstrap leaves alone, or writes anew with every mode but that of the skills reset. */
  predicate RowCarried(d: Definition, e: Definition) {
    e == d || (d.source != Generated && StartsAuto(e))
  }

  predicate Prefixed(k: Key) {
    PREFIX <= k
  }

  predicate GoodConfig(c: Config) {
    forall n :: 0 <= n < |c.builtins| ==> !Prefixed(c.builtins[n].id)
  }

  /** Which live rows a write of `keys` rewrites: no others, and if it succeeds all of them. */
  ghost predicate Rewrites(s: Store, d: Done, keys: seq<Key>) {
    forall i :: LiveAt(s.defs, i) && i in d.store.defs ==>
      && (s.defs[i].key !in keys ==> d.store.defs[i] == s.defs[i])
      && (s.defs[i].key in keys && d.error == None ==> StartsAuto(d.store.defs[i]))
  }

  lemma PutCarries(s: Store, u: Store, i: DefId, d: Definition)
    requires Target(s, i, d.key) && Put(s, u, i, d) && StartsAuto(d) && !d.deleted
    requires i !in s.defs ==> !HasRow(s.defs, d.key)
    requires i in s.defs ==> s.defs[i].source != Generated
    ensures forall j :: LiveAt(s.defs, j) ==>
              LiveAt(u.defs, j) && RowCarried(s.defs[j], u.defs[j]) && OverlayOf(u, j) == OverlayOf(s, j)
    ensures Rewrites(s, Done(u, None), [d.key])
  {
    forall j | LiveAt(s.defs, j)
      ensures s.defs[j].key == d.key <==> j == i
    {
      assert s.defs[j].key == d.key ==> LiveByKey(s.defs, d.key) == Some(j);
      assert i !in s.defs && s.defs[j].key == d.key ==> HasRow(s.defs, d.key);
    }
  }

  lemma WriteCarries(s: Store, d: Definition, done: Done)
    requires Inv(s) && OwnRef(d) && StartsAuto(d) && Described(s, d) && WroteOrRefused(s, d, done)
    requires Prefixed(d.key) ==> d.key in s.legacy
    ensures Carries(s, done.store)
    ensures SameTombstones(s, done.store) && (done.error == None <==> !Tombstone(s.defs, d.key))
    ensures Rewrites(s, done, [d.key])
  {
    DeadIsTombstone(s, d.key);
    if done.error == None {
      var i := UnwrapOr(LiveByKey(s.defs, d.key), s.nextDef);
      PutKeepsTombstones(s, done.store, i, d);
      if i in s.defs { assert RowInv(s, i); }
      PutKeepsInv(s, done.store, i, d);
      PutCarries(s, done.store, i, d);
    }
  }

  // ---------------------------------------------------------------------------------------
  // The loops
  // ---------------------------------------------------------------------------------------

  lemma CarriesTransitive(a: Store, b: Store, c: Store)
    requires Carries(a, b) && Carries(b, c)
    ensures Carries(a, c) && (SameTombstones(a, b) && SameTombstones(b, c) ==> SameTombstones(a, c))
  {
    forall i | LiveAt(a.defs, i)
      ensures LiveAt(c.defs, i) && RowCarried(a.defs[i], c.defs[i])
    {
      assert LiveAt(b.defs, i) && RowCarried(a.defs[i], b.defs[i]) && RowCarried(b.defs[i], c.defs[i]);
    }
  }

  /** None of the keys to write belongs to a deleted row. */
  ghost predicate NoneBlocked(s: Store, keys: seq<Key>) {
    forall k :: k in keys ==> !Tombstone(s.defs, k)
  }

  lemma NoneBlockedCons(s: Store, u: Store, keys: seq<Key>)
    requires keys != [] && SameTombstones(s, u)
    ensures NoneBlocked(s, keys) <==> !Tombstone(s.defs, keys[0]) && NoneBlocked(u, keys[1..])
  {
    assert keys == [keys[0]] + keys[1..];
  }

  function Ids(bs: seq<BuiltinAssistant>): seq<Key> {
    if bs == [] then [] else [bs[0].id] + Ids(bs[1..])
  }

  /** The legacy rows bootstrap turns into definitions, in the order given. */
  function Migrating(c: Config, s: Store, order: seq<Key>): (ids: seq<Key>)
    ensures forall k :: k in ids <==> k in order && Migrates(c, s, k)
  {
    if order == [] then []
    else if Migrates(c, s, order[0]) then [order[0]] + Migrating(c, s, order[1..])
    else Migrating(c, s, order[1..])
  }

  lemma {:induction false} MigratingSame(c: Config, s: Store, u: Store, order: seq<Key>)
    requires s.legacy == u.legacy
    ensures Migrating(c, s, order) == Migrating(c, u, order)
  {
    if order != [] { MigratingSame(c, s, u, order[1..]); }
  }

  /** The outcome of writing `keys`: it carries everything over, and succeeds iff none is blocked. */
  ghost predicate Passes(s: Store, d: Done, keys: seq<Key>) {
    && Carries(s, d.store) && SameTombstones(s, d.store) && (d.error == None <==> NoneBlocked(s, keys))
    && Rewrites(s, d, keys)
  }

  lemma RewritesOn(s: Store, d: Done, last: Done, k: Key, more: seq<Key>)
    requires Carries(s, d.store) && Carries(d.store, last.store)
    requires Rewrites(s, d, [k]) && d.error == None && Rewrites(d.store, last, more)
    ensures Rewrites(s, last, [k] + more)
  {
    forall i | LiveAt(s.defs, i) && i in last.store.defs
      ensures s.defs[i].key !in [k] + more ==> last.store.defs[i] == s.defs[i]
      ensures s.defs[i].key in [k] + more && last.error == None ==> StartsAuto(last.store.defs[i])
    {
      assert LiveAt(d.store.defs, i) && d.store.defs[i].key == s.defs[i].key;
      assert RowCarried(d.store.defs[i], last.store.defs[i]);
    }
  }

  lemma RewritesAll(s: Store, d: Done, last: Done, keys: seq<Key>)
    requires keys != [] && Carries(s, d.store) && Carries(d.store, last.store)
    requires Rewrites(s, d, [keys[0]]) && d.error == None && Rewrites(d.store, last, keys[1..])
    ensures Rewrites(s, last, keys)
  {
    RewritesOn(s, d, last, keys[0], keys[1..]);
    assert [keys[0]] + keys[1..] == keys;
  }

  lemma PassOn(s: Store, d: Done, last: Done, keys: seq<Key>)
    requires keys != [] && Passes(s, d, [keys[0]]) && d.error == None && Passes(d.store, last, keys[1..])
    ensures Passes(s, last, keys)
  {
    NoneBlockedCons(s, d.store, keys);
    CarriesTransitive(s, d.store, last.store);
    RewritesAll(s, d, last, keys);
  }

  lemma StopsAt(s: Store, d: Done, keys: seq<Key>)
    requires keys != [] && Passes(s, d, [keys[0]]) && d.error != None
    ensures Passes(s, d, keys)
  {
  }

  lemma {:induction false} BuiltinsCarry(s: Store, bs: seq<BuiltinAssistant>)
    requires Inv(s) && forall n :: 0 <= n < |bs| ==> !Prefixed(bs[n].id)
    ensures Passes(s, WriteBuiltins(s, bs), Ids(bs))
    decreases |bs|
  {
    if bs != [] {
      var d := WriteBuiltin(s, bs[0]);
      BuiltinCarries(s, bs[0]);
      assert Ids(bs)[1..] == Ids(bs[1..]);
      if d.error == None {
        BuiltinsCarry(d.store, bs[1..]);
        PassOn(s, d, WriteBuiltins(d.store, bs[1..]), Ids(bs));
      } else {
        StopsAt(s, d, Ids(bs));
      }
    }
  }

  lemma BuiltinCarries(s: Store, b: BuiltinAssistant)
    requires Inv(s) && !Prefixed(b.id)
    ensures Passes(s, WriteBuiltin(s, b), [b.id])
  {
    var d := BuiltinDefinition(b, b.id);
    WriteOnce(s, d);
    WriteCarries(s, d, WriteBuiltin(s, b));
  }

  lemma UserCarries(s: Store, id: Key)
    requires Inv(s) && id in s.legacy
    ensures Passes(s, WriteUser(s, id, s.legacy[id]), [id])
  {
    var d := UserDefinition(id, id, s.legacy[id]);
    WriteOnce(s, d);
    WriteCarries(s, d, WriteUser(s, id, s.legacy[id]));
  }

  /** A legacy row that bootstrap turns into a definition. */
  predicate Migrates(c: Config, s: Store, id: Key) {
    id in s.legacy && !IsBuiltin(c, id)
  }

  lemma {:induction false} UsersCarry(c: Config, s: Store, order: seq<Key>)
    requires Inv(s)
    ensures Passes(s, WriteLegacyUsers(c, s, order), Migrating(c, s, order))
    decreases |order|
  {
    if order != [] {
      if Migrates(c, s, order[0]) {
        var d := WriteUser(s, order[0], s.legacy[order[0]]);
        UserCarries(s, order[0]);
        var keys := Migrating(c, s, order);
        assert keys[0] == order[0] && keys[1..] == Migrating(c, s, order[1..]);
        if d.error == None {
          MigratingSame(c, s, d.store, order[1..]);
          UsersCarry(c, d.store, order[1..]);
          PassOn(s, d, WriteLegacyUsers(c, d.store, order[1..]), keys);
        } else {
          StopsAt(s, d, keys);
        }
      } else {
        UsersCarry(c, s, order[1..]);
      }
    }
  }

  lemma CopiedRowOk(s: Store, j: DefId)
    requires j in s.defs && RowInv(s, j)
    ensures RowInv(CopyOverrides(s), j)
  {
    var t := CopyOverrides(s);
    assert PreferenceOf(t, j) == PreferenceOf(s, j);
    assert LiveAt(s.defs, j) ==> OverlayOf(t, j) == OverlayOf(s, j);
  }

  lemma CopiedRowsOk(s: Store)
    requires Inv(s)
    ensures forall j :: j in s.defs ==> RowInv(CopyOverrides(s), j)
  {
    forall j | j in s.defs
      ensures RowInv(CopyOverrides(s), j)
    {
      assert RowInv(s, j);
      CopiedRowOk(s, j);
    }
  }

  lemma CopyKeepsInv(s: Store)
    requires Inv(s)
    ensures Keeps(s, CopyOverrides(s))
  {
    CopiedRowsOk(s);
    RowsSuffice(s, CopyOverrides(s));
  }

  lemma CopyCarries(s: Store)
    requires Inv(s)
    ensures Carries(s, CopyOverrides(s))
  {
    CopyKeepsInv(s);
  }

  lemma MirrorRow(s: Store, i: DefId)
    requires LiveAt(s.defs, i) && i < s.nextDef && RowInv(s, i)
    ensures Rewritten(s, Mirror(s, i), i) && RowInv(Mirror(s, i), i)
  {
    var u := Mirror(s, i);
    var k := s.defs[i].key;
    assert u.legacy - {k} == s.legacy - {k} && u.overrides - {k} == s.overrides - {k};
    assert PreferenceOf(u, i) == PreferenceOf(s, i) && OverlayOf(u, i) == OverlayOf(s, i);
  }

  lemma {:induction false} MirrorsKeepInv(s: Store, rows: seq<DefId>)
    requires Inv(s)
    ensures var u := MirrorEach(s, rows);
            Inv(u) && u.defs == s.defs && u.prefs == s.prefs && u.overlays == s.overlays
    decreases |rows|
  {
    if rows != [] {
      if LiveAt(s.defs, rows[0]) {
        assert RowInv(s, rows[0]);
        MirrorRow(s, rows[0]);
        RewriteKeepsInv(s, Mirror(s, rows[0]), rows[0]);
        MirrorsKeepInv(Mirror(s, rows[0]), rows[1..]);
      } else {
        MirrorsKeepInv(s, rows[1..]);
      }
    }
  }

  // ---------------------------------------------------------------------------------------
  // Bootstrap as a whole
  // ---------------------------------------------------------------------------------------

  lemma FinishCarries(s: Store, w: Store, rows: seq<DefId>)
    requires Carries(s, w)
    ensures var u := MirrorEach(CopyOverrides(w), rows);
            && Keeps(s, u) && u.prefs == s.prefs && u.defs == w.defs
            && (forall i :: LiveAt(s.defs, i) ==>
                  LiveAt(u.defs, i) && RowCarried(s.defs[i], u.defs[i]) && OverlayOf(u, i) == OverlayOf(s, i))
  {
    CopyCarries(w);
    var copied := CopyOverrides(w);
    CarriesTransitive(s, w, copied);
    MirrorsKeepInv(copied, rows);
    MirrorsCarry(s, copied, MirrorEach(copied, rows));
  }

  lemma BootstrapCarries(c: Config, s: Store, users: seq<Key>, rows: seq<DefId>)
    requires Inv(s) && GoodConfig(c)
    ensures var d := Bootstrap(c, s, users, rows);
            && Keeps(s, d.store) && d.store.prefs == s.prefs
            && (forall i :: LiveAt(s.defs, i) ==>
                  && LiveAt(d.store.defs, i) && RowCarried(s.defs[i], d.store.defs[i])
                  && OverlayOf(d.store, i) == OverlayOf(s, i))
            && (d.error == None ==> Rewrites(s, d, Ids(c.builtins) + Migrating(c, s, users)))
  {
    BuiltinsCarry(s, c.builtins);
    var b := WriteBuiltins(s, c.builtins);
    if b.error == None {
      UsersCarry(c, b.store, users);
      MigratingSame(c, s, b.store, users);
      var w := WriteLegacyUsers(c, b.store, users);
      CarriesTransitive(s, b.store, w.store);
      if w.error == None {
        RewritesBoth(s, b, w, Ids(c.builtins), Migrating(c, s, users));
        FinishCarries(s, w.store, rows);
      }
    }
  }

  lemma RewritesBoth(s: Store, b: Done, w: Done, first: seq<Key>, more: seq<Key>)
    requires Carries(s, b.store) && Carries(b.store, w.store) && b.error == None
    requires Rewrites(s, b, first) && Rewrites(b.store, w, more)
    ensures Rewrites(s, w, first + more)
  {
    forall i | LiveAt(s.defs, i) && i in w.store.defs
      ensures s.defs[i].key !in first + more ==> w.store.defs[i] == s.defs[i]
      ensures s.defs[i].key in first + more && w.error == None ==> StartsAuto(w.store.defs[i])
    {
      assert LiveAt(b.store.defs, i) && b.store.defs[i].key == s.defs[i].key;
      assert RowCarried(b.store.defs[i], w.store.defs[i]);
    }
  }

  lemma MirrorsCarry(s: Store, copied: Store, u: Store)
    requires Carries(s, copied) && Inv(u) && u.defs == copied.defs && u.prefs == copied.prefs
    requires u.overlays == copied.overlays
    ensures Keeps(s, u) && u.prefs == s.prefs
    ensures forall i :: LiveAt(s.defs, i) ==>
              LiveAt(u.defs, i) && RowCarried(s.defs[i], u.defs[i]) && OverlayOf(u, i) == OverlayOf(s, i)
  {
    forall i
      ensures (StoresEmpty(u, i) ==> StoresEmpty(s, i)) && (Strays(u, i) ==> Strays(s, i))
    {
      assert StoresEmpty(u, i) <==> StoresEmpty(copied, i);
      assert Strays(u, i) <==> Strays(copied, i);
    }
  }

  /** What a row resolves after it was carried over: what it did, or what it prefers. */
  lemma CarriedResolves(s: Store, u: Store, i: DefId)
    requires LiveAt(s.defs, i) && LiveAt(u.defs, i) && RowCarried(s.defs[i], u.defs[i]) && u.prefs == s.prefs
    ensures EffectiveOf(u, i) == EffectiveOf(s, i) <==> !(Strays(s, i) && u.defs[i] != s.defs[i])
    ensures u.defs[i] != s.defs[i] ==> EffectiveOf(u, i) == PreferredOf(s, i)
  {
    ResolvesPreferenceIff(s, i);
  }

  /**
   Bootstrap, finished or given up half way, keeps every overlay and turns fixed defaults of user and
   built-in assistants into automatic ones.  A live assistant resolves another model,
       permission or mcps afterwards exactly if its
   row was rewritten and its preference had strayed from a fixed default; it then resolves its preference.
   */
  lemma BootstrapKeepsEffectiveDefaults(c: Config, s: Store, users: seq<Key>, rows: seq<DefId>)
    requires Inv(s) && GoodConfig(c)
    ensures var u := Bootstrap(c, s, users, rows).store;
            && Keeps(s, u)
            && u.prefs == s.prefs
            && forall i :: LiveAt(s.defs, i) ==>
                 && LiveAt(u.defs, i) && OverlayOf(u, i) == OverlayOf(s, i)
                 && (EffectiveOf(u, i) == EffectiveOf(s, i) <==> !(Strays(s, i) && u.defs[i] != s.defs[i]))
                 && (u.defs[i] != s.defs[i] ==> EffectiveOf(u, i) == PreferredOf(s, i))
  {
    BootstrapCarries(c, s, users, rows);
    var u := Bootstrap(c, s, users, rows).store;
    forall i | LiveAt(s.defs, i)
      ensures EffectiveOf(u, i) == EffectiveOf(s, i) <==> !(Strays(s, i) && u.defs[i] != s.defs[i])
      ensures u.defs[i] != s.defs[i] ==> EffectiveOf(u, i) == PreferredOf(s, i)
    {
      CarriedResolves(s, u, i);
    }
  }

  /**
   A successful bootstrap changes what a live assistant resolves exactly if the preference has strayed and
   the key is one it ships or migrates.
   */
  lemma BootstrapChangesResolvedIff(c: Config, s: Store, users: seq<Key>, rows: seq<DefId>, i: DefId)
    requires Inv(s) && GoodConfig(c) && LiveAt(s.defs, i) && Bootstrap(c, s, users, rows).error == None
    ensures var u := Bootstrap(c, s, users, rows).store;
            && LiveAt(u.defs, i)
            && (EffectiveOf(u, i) != EffectiveOf(s, i) <==>
                Strays(s, i) && s.defs[i].key in Ids(c.builtins) + Migrating(c, s, users))
  {
    BootstrapCarries(c, s, users, rows);
    CarriedResolves(s, Bootstrap(c, s, users, rows).store, i);
  }

  /** Bootstrap succeeds iff it has to write no key whose row is marked deleted. */
  lemma BootstrapSucceedsIff(c: Config, s: Store, users: seq<Key>, rows: seq<DefId>)
    requires Inv(s) && GoodConfig(c)
    ensures Bootstrap(c, s, users, rows).error == None <==>
            NoneBlocked(s, Ids(c.builtins)) && NoneBlocked(s, Migrating(c, s, users))
  {
    BuiltinsCarry(s, c.builtins);
    var b := WriteBuiltins(s, c.builtins);
    if b.error == None {
      UsersCarry(c, b.store, users);
      MigratingSame(c, s, b.store, users);
    }
  }
}
