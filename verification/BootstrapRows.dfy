/** What the rows hold after a bootstrap: those of the shipped assistants and those taken over from the legacy table. */
module BootstrapRows {
  import opened Prelude
  import opened AssistantTables
  import opened AssistantService
  import opened AssistantInvariants
  import opened AssistantBootstrap

  /** The live row of a shipped assistant says what the release ships. */
  predicate Shows(t: Store, b: BuiltinAssistant) {
    var found := LiveByKey(t.defs, b.id);
    && found.Some?
    && var d := t.defs[found.value];
       && d.source == Builtin && d.owner == System && d.sourceRef == Some(FromKey(b.id))
       && d.name == b.name && d.description == b.description && d.backend == b.backend
       && (d.rule == Asset <==> b.hasRule) && (d.rule == NoRule <==> !b.hasRule)
       && d.prompts == b.prompts
       && d.model == Scalar(Auto, None) && d.permission == Scalar(Auto, None)
       && d.skills == ListDefault(Fixed, b.skills) && d.mcps == ListDefault(Auto, [])
  }

  /** The live row of a user assistant says what its legacy row did. */
  predicate ShowsLegacy(t: Store, id: Key, row: Legacy) {
    var found := LiveByKey(t.defs, id);
    && found.Some?
    && var d := t.defs[found.value];
       && d.source == User && d.owner == Person && d.sourceRef == Some(FromKey(id))
       && d.name == row.name && d.description == row.description && d.backend == row.backend
       && d.rule == UserFile && d.prompts == UnwrapOr(row.prompts, [])
       && d.model == Scalar(Auto, None) && d.permission == Scalar(Auto, None)
       && d.skills == ListDefault(Fixed, UnwrapOr(row.skills, [])) && d.mcps == ListDefault(Auto, [])
  }

  /** Entry `n` is the one that counts for its id. */
  predicate LastOfItsId(bs: seq<BuiltinAssistant>, n: nat) {
    n < |bs| && forall m :: n < m < |bs| ==> bs[m].id != bs[n].id
  }

  lemma WrittenRow(s: Store, d: Definition, done: Done)
    requires WroteOrRefused(s, d, done) && done.error == None && !d.deleted
    ensures LiveByKey(done.store.defs, d.key).Some?
    ensures done.store.defs[LiveByKey(done.store.defs, d.key).value] == d
  {
    assert LiveAt(done.store.defs, UnwrapOr(LiveByKey(s.defs, d.key), s.nextDef));
  }

  /** A live row whose key is not written again stays as it is. */
  lemma RowStays(s: Store, d: Done, keys: seq<Key>, k: Key)
    requires Carries(s, d.store) && Rewrites(s, d, keys) && k !in keys && LiveByKey(s.defs, k).Some?
    ensures LiveByKey(d.store.defs, k) == LiveByKey(s.defs, k)
    ensures d.store.defs[LiveByKey(s.defs, k).value] == s.defs[LiveByKey(s.defs, k).value]
  {
    var i := LiveByKey(s.defs, k).value;
    assert LiveAt(d.store.defs, i) && d.store.defs[i].key == k;
  }

  lemma BuiltinShows(s: Store, b: BuiltinAssistant)
    requires Inv(s) && WriteBuiltin(s, b).error == None
    ensures Shows(WriteBuiltin(s, b).store, b)
  {
    var d := BuiltinDefinition(b, b.id);
    WriteOnce(s, d);
    WrittenRow(s, d, WriteBuiltin(s, b));
  }

  lemma {:induction false} BuiltinsShow(s: Store, bs: seq<BuiltinAssistant>, n: nat)
    requires Inv(s) && (forall m :: 0 <= m < |bs| ==> !Prefixed(bs[m].id)) && LastOfItsId(bs, n)
    requires WriteBuiltins(s, bs).error == None
    ensures Shows(WriteBuiltins(s, bs).store, bs[n])
    decreases |bs|
  {
    var d := WriteBuiltin(s, bs[0]);
    BuiltinCarries(s, bs[0]);
    if n == 0 {
      BuiltinShows(s, bs[0]);
      ShownStays(d.store, bs[1..], bs[0]);
    } else {
      assert forall m :: n < m < |bs| ==> bs[m] == bs[1..][m - 1];
      BuiltinsShow(d.store, bs[1..], n - 1);
    }
  }

  lemma ShownStays(s: Store, more: seq<BuiltinAssistant>, b: BuiltinAssistant)
    requires Inv(s) && Shows(s, b) && forall m :: 0 <= m < |more| ==> !Prefixed(more[m].id) && more[m].id != b.id
    ensures Shows(WriteBuiltins(s, more).store, b)
  {
    BuiltinsCarry(s, more);
    NotAmong(more, b.id);
    RowStays(s, WriteBuiltins(s, more), Ids(more), b.id);
  }

  lemma {:induction false} NotAmong(bs: seq<BuiltinAssistant>, k: Key)
    requires forall m :: 0 <= m < |bs| ==> bs[m].id != k
    ensures k !in Ids(bs)
  {
    if bs != [] { NotAmong(bs[1..], k); }
  }

  lemma UserShows(s: Store, id: Key)
    requires Inv(s) && id in s.legacy && WriteUser(s, id, s.legacy[id]).error == None
    ensures ShowsLegacy(WriteUser(s, id, s.legacy[id]).store, id, s.legacy[id])
  {
    var d := UserDefinition(id, id, s.legacy[id]);
    WriteOnce(s, d);
    WrittenRow(s, d, WriteUser(s, id, s.legacy[id]));
  }

  lemma {:induction false} UsersShow(c: Config, s: Store, order: seq<Key>, k: Key)
    requires Inv(s) && k in order && Migrates(c, s, k) && WriteLegacyUsers(c, s, order).error == None
    ensures ShowsLegacy(WriteLegacyUsers(c, s, order).store, k, s.legacy[k])
    decreases |order|
  {
    if Migrates(c, s, order[0]) {
      var d := WriteUser(s, order[0], s.legacy[order[0]]);
      UserCarries(s, order[0]);
      if k in order[1..] {
        UsersShow(c, d.store, order[1..], k);
      } else {
        UserShows(s, k);
        UsersCarry(c, d.store, order[1..]);
        RowStays(d.store, WriteLegacyUsers(c, d.store, order[1..]), Migrating(c, d.store, order[1..]), k);
      }
    } else {
      UsersShow(c, s, order[1..], k);
    }
  }

  /**
   After a successful bootstrap every shipped assistant has a live row with what the release ships for it,
   the last entry counting where an id is shipped twice.
   */
  lemma ShippedRows(c: Config, s: Store, users: seq<Key>, rows: seq<DefId>, n: nat)
    requires Inv(s) && GoodConfig(c) && Bootstrap(c, s, users, rows).error == None && LastOfItsId(c.builtins, n)
    ensures Shows(Bootstrap(c, s, users, rows).store, c.builtins[n])
  {
    var b := WriteBuiltins(s, c.builtins);
    var w := WriteLegacyUsers(c, b.store, users);
    BuiltinsCarry(s, c.builtins);
    BuiltinsShow(s, c.builtins, n);
    UsersCarry(c, b.store, users);
    RowStays(b.store, w, Migrating(c, b.store, users), c.builtins[n].id);
    RowsAreFinal(c, s, users, rows);
  }

  /** And every legacy row of a user assistant is taken over as it was. */
  lemma MigratedRows(c: Config, s: Store, users: seq<Key>, rows: seq<DefId>, k: Key)
    requires Inv(s) && GoodConfig(c) && Bootstrap(c, s, users, rows).error == None && k in users && Migrates(c, s, k)
    ensures ShowsLegacy(Bootstrap(c, s, users, rows).store, k, s.legacy[k])
  {
    var b := WriteBuiltins(s, c.builtins);
    BuiltinsCarry(s, c.builtins);
    UsersShow(c, b.store, users, k);
    RowsAreFinal(c, s, users, rows);
  }

  /** The last steps of a bootstrap leave the definitions alone. */
  lemma RowsAreFinal(c: Config, s: Store, users: seq<Key>, rows: seq<DefId>)
    requires Inv(s) && GoodConfig(c) && Bootstrap(c, s, users, rows).error == None
    ensures var w := WriteLegacyUsers(c, WriteBuiltins(s, c.builtins).store, users).store;
            Bootstrap(c, s, users, rows).store.defs == w.defs
  {
    var b := WriteBuiltins(s, c.builtins).store;
    BuiltinsCarry(s, c.builtins);
    UsersCarry(c, b, users);
    var w := WriteLegacyUsers(c, b, users).store;
    CopyKeepsInv(w);
    MirrorsKeepInv(CopyOverrides(w), rows);
  }
}
