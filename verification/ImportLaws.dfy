/** What a batch import does to the tables, for every batch and every reachable table state. */
module ImportLaws {
  import opened Prelude
  import opened Text
  import opened AssistantTables
  import opened AssistantService
  import opened RequestFields
  import opened AssistantInvariants
  import opened AssistantRuns
  import opened AssistantBootstrap
  import opened BootstrapRows
  import opened AssistantImport

  /** The entry would be stored, as far as the legacy table can tell. */
  predicate Creatable(c: Config, s: Store, e: Entry, providerEnabled: bool) {
    !IsBuiltin(c, e.id) && e.id !in s.legacy && !Blank(e.request.name)
        && BackendFor(e.request.backend, providerEnabled).Ok?
  }

  function RowFor(e: Entry, providerEnabled: bool): Legacy
    requires BackendFor(e.request.backend, providerEnabled).Ok?
  {
    NewLegacyRow(e.request, BackendFor(e.request.backend, providerEnabled).value)
  }

  /** Definitions of keys the import must not touch are the same rows. */
  ghost predicate Spares(c: Config, s: Store, u: Store) {
    && (forall k :: k in s.legacy ==> k in u.legacy && u.legacy[k] == s.legacy[k])
    && (forall k :: k in u.legacy && k !in s.legacy ==> !IsBuiltin(c, k))
    && (forall i :: i in s.defs && (s.defs[i].deleted || s.defs[i].key in s.legacy || IsBuiltin(c, s.defs[i].key)) ==>
          i in u.defs && u.defs[i] == s.defs[i])
    && u.prefs == s.prefs && u.overlays == s.overlays && u.overrides == s.overrides && u.profiles == s.profiles
  }

  lemma SparesTransitive(c: Config, a: Store, b: Store, d: Store)
    requires Spares(c, a, b) && Spares(c, b, d)
    ensures Spares(c, a, d)
  {
  }

  /** The entry goes in, unless its id belongs to a deleted row; then only the legacy row does. */
  lemma StoreEntryEffect(c: Config, s: Store, id: Key, row: Legacy)
    requires Inv(s) && id !in s.legacy && !IsBuiltin(c, id)
    ensures var w := WriteUser(WithLegacy(s, id, row), id, row);
            && Spares(c, s, w.store) && SameTombstones(s, w.store)
            && (w.error.None? <==> !Tombstone(s.defs, id))
            && w.store.legacy == s.legacy[id := row]
  {
    WriteUserEffect(s, id, row);
    DeadIsTombstone(s, id);
    if !Tombstone(s.defs, id) {
      var i := UnwrapOr(LiveByKey(s.defs, id), s.nextDef);
      UserWrittenSpares(c, s, WriteUser(WithLegacy(s, id, row), id, row).store, i, id, row);
    }
  }

  lemma UserWrittenSpares(c: Config, s: Store, u: Store, i: DefId, id: Key, row: Legacy)
    requires UserWritten(s, u, i, id, row) && Target(s, i, id) && id !in s.legacy && !IsBuiltin(c, id)
    ensures Spares(c, s, u) && SameTombstones(s, u)
  {
    PutKeepsTombstones(s, u, i, UserDefinition(id, id, row));
  }

  /** One entry: skipped, failed, stored, or refused by a deleted row of its id. */
  lemma ImportOneEffect(c: Config, s: Store, e: Entry, providerEnabled: bool)
    requires Inv(s)
    ensures var (u, v) := ImportOne(c, s, e, providerEnabled);
            && Spares(c, s, u) && SameTombstones(s, u)
            && (v.Imported? || v.Aborted? <==> Creatable(c, s, e, providerEnabled))
            && (v.Skipped? <==> IsBuiltin(c, e.id) || e.id in s.legacy)
            && (v.Aborted? <==> Creatable(c, s, e, providerEnabled) && Tombstone(s.defs, e.id))
            && (v.Skipped? || v.Failed? ==> u == s) && (v.Failed? ==> v.error == BadRequest)
            && u.legacy == if Creatable(c, s, e, providerEnabled) then s.legacy[e.id := RowFor(e, providerEnabled)]
                else s.legacy
  {
    if Creatable(c, s, e, providerEnabled) { StoreEntryEffect(c, s, e.id, RowFor(e, providerEnabled)); }
  }

  lemma ImportOneKeepsInv(c: Config, s: Store, e: Entry, providerEnabled: bool)
    requires Inv(s)
    ensures Keeps(s, ImportOne(c, s, e, providerEnabled).0)
  {
    if Creatable(c, s, e, providerEnabled) {
      var row := RowFor(e, providerEnabled);
      WriteUserEffect(s, e.id, row);
      if LiveByKey(s.defs, e.id).None? && HasRow(s.defs, e.id) {
        OrphanKeepsInv(s, e.id, row);
      } else {
        var w := ImportOne(c, s, e, providerEnabled).0;
        StoredBareKeepsInv(s, w, UnwrapOr(LiveByKey(s.defs, e.id), s.nextDef), e.id, row);
      }
    }
  }

  lemma StoredBareKeepsInv(s: Store, w: Store, i: DefId, id: Key, row: Legacy)
    requires Inv(s) && Target(s, i, id) && UserWritten(s, w, i, id, row) && LiveByKey(w.defs, id) == Some(i)
    ensures Keeps(s, w)
  {
    assert Patched(UserDefinition(id, id, row), NO_OVERRIDES, false) == UserDefinition(id, id, row);
    assert w.defs[i := UserDefinition(id, id, row)] == w.defs;
    StoreUserFinished(s, w, w, i, id, row, NO_OVERRIDES, false);
  }

  lemma {:induction false} ImportFromKeepsInv(c: Config, s: Store, entries: seq<Entry>, providerEnabled: bool, t: Tally)
    requires Inv(s)
    ensures Keeps(s, ImportFrom(c, s, entries, providerEnabled, t).store)
    decreases |entries|
  {
    if entries != [] {
      var (u, v) := ImportOne(c, s, entries[0], providerEnabled);
      ImportOneKeepsInv(c, s, entries[0], providerEnabled);
      if !v.Aborted? {
        var t' := Count(t, entries[0].id, v);
        ImportFromKeepsInv(c, u, entries[1..], providerEnabled, t');
        KeepsTransitive(s, u, ImportFrom(c, u, entries[1..], providerEnabled, t').store);
      }
    }
  }

  // ---------------------------------------------------------------------------------------
  // Whole batches
  // ---------------------------------------------------------------------------------------

  function Total(t: Tally): nat {
    t.imported + t.skipped + t.failed
  }

  /** Every entry of a finished batch is counted once, and each failure is reported. */
  lemma {:induction false} EntriesConserved(c: Config, s: Store, entries: seq<Entry>, providerEnabled: bool, t: Tally)
    ensures var b := ImportFrom(c, s, entries, providerEnabled, t);
            && Total(b.tally) <= Total(t) + |entries|
            && (b.aborted == None <==> Total(b.tally) == Total(t) + |entries|)
            && b.tally.failed - |b.tally.errors| == t.failed - |t.errors|
    decreases |entries|
  {
    if entries != [] {
      var (u, v) := ImportOne(c, s, entries[0], providerEnabled);
      if !v.Aborted? { EntriesConserved(c, u, entries[1..], providerEnabled, Count(t, entries[0].id, v)); }
    }
  }

  /** No batch changes an existing legacy row, the definition behind it, or anything of a built-in id. */
  lemma {:induction false} ImportSparesExisting(
      c: Config, s: Store, entries: seq<Entry>, providerEnabled: bool, t: Tally)
    requires Inv(s)
    ensures Spares(c, s, ImportFrom(c, s, entries, providerEnabled, t).store)
    decreases |entries|
  {
    if entries != [] {
      var (u, v) := ImportOne(c, s, entries[0], providerEnabled);
      ImportOneEffect(c, s, entries[0], providerEnabled);
      if !v.Aborted? {
        var t' := Count(t, entries[0].id, v);
        ImportOneKeepsInv(c, s, entries[0], providerEnabled);
        ImportSparesExisting(c, u, entries[1..], providerEnabled, t');
        SparesTransitive(c, s, u, ImportFrom(c, u, entries[1..], providerEnabled, t').store);
      }
    }
  }

  /** The entry of a batch that supplies the row of a new id: the first one that can be stored. */
  function Supplier(c: Config, s: Store, entries: seq<Entry>, providerEnabled: bool, k: Key): (e: Option<Entry>)
    ensures e.Some? ==> e.value in entries && e.value.id == k && Creatable(c, s, e.value, providerEnabled)
    ensures e.None? ==> forall x :: x in entries && x.id == k ==> !Creatable(c, s, x, providerEnabled)
  {
    if entries == [] then None
    else if entries[0].id == k && Creatable(c, s, entries[0], providerEnabled) then Some(entries[0])
    else Supplier(c, s, entries[1..], providerEnabled, k)
  }

  lemma {:induction false} SupplierAfter(
      c: Config, s: Store, u: Store, id: Key, entries: seq<Entry>, providerEnabled: bool, k: Key)
    requires forall x :: x != id ==> (x in u.legacy <==> x in s.legacy)
    requires k != id
    ensures Supplier(c, u, entries, providerEnabled, k) == Supplier(c, s, entries, providerEnabled, k)
  {
    if entries != [] { SupplierAfter(c, s, u, id, entries[1..], providerEnabled, k); }
  }

  /** The batch is given up iff it would store an id whose row is marked deleted. */
  lemma {:induction false} ImportAbortsIff(c: Config, s: Store, entries: seq<Entry>, providerEnabled: bool, t: Tally)
    requires Inv(s)
    ensures ImportFrom(c, s, entries, providerEnabled, t).aborted.Some? <==>
            exists e :: e in entries && Creatable(c, s, e, providerEnabled) && Tombstone(s.defs, e.id)
    decreases |entries|
  {
    if entries != [] {
      var (u, v) := ImportOne(c, s, entries[0], providerEnabled);
      ImportOneEffect(c, s, entries[0], providerEnabled);
      if !v.Aborted? {
        ImportOneKeepsInv(c, s, entries[0], providerEnabled);
        ImportAbortsIff(c, u, entries[1..], providerEnabled, Count(t, entries[0].id, v));
        forall e
          ensures (e in entries && Creatable(c, s, e, providerEnabled) && Tombstone(s.defs, e.id)) <==>
                  (e in entries[1..] && Creatable(c, u, e, providerEnabled) && Tombstone(u.defs, e.id))
        {
          assert e in entries <==> e == entries[0] || e in entries[1..];
        }
      } else {
        assert entries[0] in entries;
      }
    }
  }

  /** An entry that is not skipped is stored exactly if it has a name, and a backend can be found for it. */
  lemma CreatableIff(c: Config, s: Store, e: Entry, providerEnabled: bool)
    ensures Creatable(c, s, e, providerEnabled) <==>
            && (forall b :: b in c.builtins ==> b.id != e.id) && e.id !in s.legacy
            && Trim(e.request.name) != "" && (NamesBackend(e.request.backend) || providerEnabled)
  {
    BackendIsTaken(e.request.backend, providerEnabled);
  }

  /** After a finished batch an id has the row it had, or one taken from its supplier, field by field. */
  lemma {:induction false} ImportedRows(
      c: Config, s: Store, entries: seq<Entry>, providerEnabled: bool, t: Tally, k: Key)
    requires Inv(s) && ImportFrom(c, s, entries, providerEnabled, t).aborted == None
    ensures var u := ImportFrom(c, s, entries, providerEnabled, t).store;
            var e := Supplier(c, s, entries, providerEnabled, k);
            if k in s.legacy then k in u.legacy && u.legacy[k] == s.legacy[k]
            else if e.Some? then k in u.legacy && TakenFrom(u.legacy[k], e.value.request)
            else k !in u.legacy
    decreases |entries|
  {
    if entries != [] {
      var (u, v) := ImportOne(c, s, entries[0], providerEnabled);
      ImportOneEffect(c, s, entries[0], providerEnabled);
      ImportOneKeepsInv(c, s, entries[0], providerEnabled);
      var t' := Count(t, entries[0].id, v);
      ImportedRows(c, u, entries[1..], providerEnabled, t', k);
      SuppliedOn(c, s, u, entries, providerEnabled, k);
      if Creatable(c, s, entries[0], providerEnabled) { NewRowIsTaken(entries[0].request, providerEnabled); }
    }
  }

  /** The entry just stored has its assistant. */
  lemma StoredEntryShows(c: Config, s: Store, e: Entry, providerEnabled: bool)
    requires Inv(s) && ImportOne(c, s, e, providerEnabled).1.Imported?
    ensures ShowsLegacy(ImportOne(c, s, e, providerEnabled).0, e.id, RowFor(e, providerEnabled))
  {
    WriteUserEffect(s, e.id, RowFor(e, providerEnabled));
  }

  /** A row of an id that has a legacy row outlives the rest of the batch. */
  lemma ShownStays(c: Config, u: Store, w: Store, k: Key, row: Legacy)
    requires Spares(c, u, w) && k in u.legacy && ShowsLegacy(u, k, row)
    ensures ShowsLegacy(w, k, row)
  {
    assert LiveAt(w.defs, LiveByKey(u.defs, k).value);
  }

  /** And the assistant of a new id is a live user assistant with what its legacy row says, all defaults open. */
  lemma {:induction false} ImportedDefinitions(
      c: Config, s: Store, entries: seq<Entry>, providerEnabled: bool, t: Tally, k: Key)
    requires Inv(s) && ImportFrom(c, s, entries, providerEnabled, t).aborted == None
    ensures var u := ImportFrom(c, s, entries, providerEnabled, t).store;
            k !in s.legacy && k in u.legacy ==> ShowsLegacy(u, k, u.legacy[k])
    decreases |entries|
  {
    if entries != [] {
      var (u, v) := ImportOne(c, s, entries[0], providerEnabled);
      ImportOneEffect(c, s, entries[0], providerEnabled);
      ImportOneKeepsInv(c, s, entries[0], providerEnabled);
      var t' := Count(t, entries[0].id, v);
      if v.Imported? && k == entries[0].id {
        StoredEntryShows(c, s, entries[0], providerEnabled);
        ImportSparesExisting(c, u, entries[1..], providerEnabled, t');
        ShownStays(c, u, ImportFrom(c, u, entries[1..], providerEnabled, t').store, k, u.legacy[k]);
      } else {
        ImportedDefinitions(c, u, entries[1..], providerEnabled, t', k);
      }
    }
  }

  // ---------------------------------------------------------------------------------------
  // The counters
  // ---------------------------------------------------------------------------------------

  /** Whether an entry that is not skipped has what it takes. */
  predicate WellNamed(e: Entry, providerEnabled: bool) {
    Trim(e.request.name) != "" && (NamesBackend(e.request.backend) || providerEnabled)
  }

  predicate KnownTo(c: Config, known: set<Key>, e: Entry) {
    e.id in known || IsBuiltin(c, e.id)
  }

  /** What is reported of a batch when `known` ids have a legacy row: the ids without a name or a backend, in order. */
  function Reported(c: Config, known: set<Key>, entries: seq<Entry>, providerEnabled: bool): seq<(Key, Error)>
    decreases |entries|
  {
    if entries == [] then []
    else
      var e := entries[0];
      if KnownTo(c, known, e) then Reported(c, known, entries[1..], providerEnabled)
      else if WellNamed(e, providerEnabled) then Reported(c, known + {e.id}, entries[1..], providerEnabled)
      else [(e.id, BadRequest)] + Reported(c, known, entries[1..], providerEnabled)
  }

  /** Imported are as many as there are new legacy rows, and the failures are reported in order. */
  lemma {:induction false} CountersTellTheTruth(
      c: Config, s: Store, entries: seq<Entry>, providerEnabled: bool, t: Tally)
    requires Inv(s) && ImportFrom(c, s, entries, providerEnabled, t).aborted == None
    ensures var b := ImportFrom(c, s, entries, providerEnabled, t);
            && b.tally.imported - t.imported == |b.store.legacy.Keys| - |s.legacy.Keys|
            && b.tally.errors == t.errors + Reported(c, s.legacy.Keys, entries, providerEnabled)
    decreases |entries|
  {
    if entries != [] {
      var (u, v) := ImportOne(c, s, entries[0], providerEnabled);
      ImportOneEffect(c, s, entries[0], providerEnabled);
      ImportOneKeepsInv(c, s, entries[0], providerEnabled);
      var t' := Count(t, entries[0].id, v);
      EntryCounted(c, s, u, entries[0], providerEnabled, v, t, t');
      CountersTellTheTruth(c, u, entries[1..], providerEnabled, t');
      ReportedOn(c, s.legacy.Keys, u.legacy.Keys, entries, providerEnabled, t.errors, t'.errors);
    }
  }

  /** One turn of the counters. */
  lemma EntryCounted(
      c: Config, s: Store, u: Store, e: Entry, providerEnabled: bool, v: Verdict, t: Tally, t': Tally)
    requires t' == Count(t, e.id, v) && !v.Aborted? && (v.Failed? ==> v.error == BadRequest)
    requires v.Skipped? <==> IsBuiltin(c, e.id) || e.id in s.legacy
    requires u.legacy == if Creatable(c, s, e, providerEnabled) then s.legacy[e.id := RowFor(e, providerEnabled)]
                         else s.legacy
    requires v.Imported? <==> Creatable(c, s, e, providerEnabled)
    ensures t'.imported - t.imported == |u.legacy.Keys| - |s.legacy.Keys|
    ensures u.legacy.Keys == s.legacy.Keys + if Creatable(c, s, e, providerEnabled) then {e.id} else {}
    ensures Creatable(c, s, e, providerEnabled) <==> !KnownTo(c, s.legacy.Keys, e) && WellNamed(e, providerEnabled)
    ensures t'.errors == t.errors + (if KnownTo(c, s.legacy.Keys, e) || WellNamed(e, providerEnabled) then []
                                     else [(e.id, BadRequest)])
  {
    BackendIsTaken(e.request.backend, providerEnabled);
    if Creatable(c, s, e, providerEnabled) { assert u.legacy.Keys == s.legacy.Keys + {e.id}; }
  }

  lemma ReportedOn(
      c: Config, known: set<Key>, after: set<Key>, entries: seq<Entry>, providerEnabled: bool,
      errors: seq<(Key, Error)>, errors': seq<(Key, Error)>)
    requires entries != []
    requires after == known + if !KnownTo(c, known, entries[0]) && WellNamed(entries[0], providerEnabled)
                              then {entries[0].id} else {}
    requires errors' == errors + (if KnownTo(c, known, entries[0]) || WellNamed(entries[0], providerEnabled) then []
                                  else [(entries[0].id, BadRequest)])
    ensures errors' + Reported(c, after, entries[1..], providerEnabled)
         == errors + Reported(c, known, entries, providerEnabled)
  {
    assert known + {} == known;
  }

  lemma SuppliedOn(c: Config, s: Store, u: Store, entries: seq<Entry>, providerEnabled: bool, k: Key)
    requires entries != []
    requires u.legacy == if Creatable(c, s, entries[0], providerEnabled)
                         then s.legacy[entries[0].id := RowFor(entries[0], providerEnabled)] else s.legacy
    ensures Supplier(c, s, entries, providerEnabled, k)
         == if k == entries[0].id && Creatable(c, s, entries[0], providerEnabled) then Some(entries[0])
            else Supplier(c, u, entries[1..], providerEnabled, k)
  {
    if k != entries[0].id {
      SupplierAfter(c, s, u, entries[0].id, entries[1..], providerEnabled, k);
    } else if !Creatable(c, s, entries[0], providerEnabled) {
      SupplierSame(c, s, u, entries[1..], providerEnabled, k);
    }
  }

  lemma {:induction false} SupplierSame(
      c: Config, s: Store, u: Store, entries: seq<Entry>, providerEnabled: bool, k: Key)
    requires s.legacy == u.legacy
    ensures Supplier(c, u, entries, providerEnabled, k) == Supplier(c, s, entries, providerEnabled, k)
  {
    if entries != [] { SupplierSame(c, s, u, entries[1..], providerEnabled, k); }
  }

  // ---------------------------------------------------------------------------------------
  // Running a batch again
  // ---------------------------------------------------------------------------------------

  predicate Settled(c: Config, s: Store, entries: seq<Entry>) {
    forall e :: e in entries ==> IsBuiltin(c, e.id) || e.id in s.legacy
  }

  lemma {:induction false} SettledIsSkipped(c: Config, s: Store, entries: seq<Entry>, providerEnabled: bool, t: Tally)
    requires Settled(c, s, entries)
    ensures ImportFrom(c, s, entries, providerEnabled, t) == Batch(s, t.(skipped := t.skipped + |entries|), None)
    decreases |entries|
  {
    if entries != [] {
      assert entries[0] in entries;
      SettledIsSkipped(c, s, entries[1..], providerEnabled, t.(skipped := t.skipped + 1));
    }
  }

  lemma {:induction false} FailureFreeSettles(c: Config, s: Store, entries: seq<Entry>, providerEnabled: bool, t: Tally)
    requires Inv(s)
    requires var b := ImportFrom(c, s, entries, providerEnabled, t);
             b.aborted == None && |b.tally.errors| == |t.errors|
    ensures Settled(c, ImportFrom(c, s, entries, providerEnabled, t).store, entries)
    decreases |entries|
  {
    if entries != [] {
      var (u, v) := ImportOne(c, s, entries[0], providerEnabled);
      var t' := Count(t, entries[0].id, v);
      ImportOneEffect(c, s, entries[0], providerEnabled);
      ImportOneKeepsInv(c, s, entries[0], providerEnabled);
      ErrorsGrow(c, u, entries[1..], providerEnabled, t');
      FailureFreeSettles(c, u, entries[1..], providerEnabled, t');
      ImportSparesExisting(c, u, entries[1..], providerEnabled, t');
      assert IsBuiltin(c, entries[0].id) || entries[0].id in u.legacy;
    }
  }

  lemma {:induction false} ErrorsGrow(c: Config, s: Store, entries: seq<Entry>, providerEnabled: bool, t: Tally)
    ensures |ImportFrom(c, s, entries, providerEnabled, t).tally.errors| >= |t.errors|
    decreases |entries|
  {
    if entries != [] {
      var (u, v) := ImportOne(c, s, entries[0], providerEnabled);
      if !v.Aborted? { ErrorsGrow(c, u, entries[1..], providerEnabled, Count(t, entries[0].id, v)); }
    }
  }

  /** Running a batch that neither failed nor aborted once more skips every entry and changes nothing. */
  lemma FailureFreeImportIsIdempotent(c: Config, s: Store, entries: seq<Entry>, providerEnabled: bool, later: bool)
    requires Inv(s)
    requires var b := Import(c, s, entries, providerEnabled);
             b.aborted == None && b.tally.errors == []
    ensures var u := Import(c, s, entries, providerEnabled).store;
            Import(c, u, entries, later) == Batch(u, Tally(0, |entries|, 0, []), None)
  {
    FailureFreeSettles(c, s, entries, providerEnabled, NO_TALLY);
    SettledIsSkipped(c, Import(c, s, entries, providerEnabled).store, entries, later, NO_TALLY);
  }

  /**
   Retrying an aborted batch hides the loss: the entry that could not be stored has left a legacy
   row without an assistant, and the retry counts it as skipped.
   */
  lemma RetryAfterAbortSkips(c: Config, s: Store, e: Entry, providerEnabled: bool, later: bool)
    requires Inv(s) && Creatable(c, s, e, providerEnabled) && Tombstone(s.defs, e.id)
    ensures var u := Import(c, s, [e], providerEnabled).store;
            && Import(c, s, [e], providerEnabled).aborted == Some(InternalError)
            && e.id in u.legacy && LiveByKey(u.defs, e.id).None?
            && Import(c, u, [e], later) == Batch(u, Tally(0, 1, 0, []), None)
  {
    ImportOneEffect(c, s, e, providerEnabled);
    WriteUserEffect(s, e.id, RowFor(e, providerEnabled));
    DeadIsTombstone(s, e.id);
    var u := Import(c, s, [e], providerEnabled).store;
    SettledIsSkipped(c, u, [e], later, NO_TALLY);
  }

  // ---------------------------------------------------------------------------------------
  // The loop with its cached backend
  // ---------------------------------------------------------------------------------------

  /** One turn of the loop; `cached` is the default backend if it was already resolved. */
  method ImportEntry(c: Config, s: Store, e: Entry, providerEnabled: bool, cached: Option<string>)
    returns (u: Store, v: Verdict, cache: Option<string>, looked: bool)
    requires cached.Some? ==> DefaultBackend(providerEnabled) == Ok(cached.value)
    ensures (u, v) == ImportOne(c, s, e, providerEnabled)
    ensures cache.Some? ==> DefaultBackend(providerEnabled) == Ok(cache.value)
    ensures (cached.Some? ==> cache == cached && !looked) && (looked && providerEnabled ==> cache.Some?)
  {
    u, cache, looked := s, cached, false;
    if IsBuiltin(c, e.id) || e.id in s.legacy {
      v := Skipped;
      return;
    }
    if Blank(e.request.name) {
      v := Failed(BadRequest);
      return;
    }
    var backend;
    if e.request.backend.Some? && e.request.backend.value != "" {
      backend := e.request.backend.value;
    } else if cached.Some? {
      backend := cached.value;
    } else {
      looked := true;
      match DefaultBackend(providerEnabled) {
        case Ok(b) =>
          cache, backend := Some(b), b;
        case Err(error) =>
          v := Failed(error);
          return;
      }
    }
    var row := NewLegacyRow(e.request, backend);
    var written := WriteUser(s.(legacy := s.legacy[e.id := row]), e.id, row);
    u := written.store;
    v := if written.error.None? then Imported else Aborted(written.error.value);
  }

  /** `import`: the default backend is resolved at most once in a batch. */
  method ImportBatch(c: Config, s: Store, entries: seq<Entry>, providerEnabled: bool) returns (b: Batch, lookups: nat)
    ensures b == Import(c, s, entries, providerEnabled)
    ensures providerEnabled ==> lookups <= 1
  {
    var store, tally, cached := s, NO_TALLY, None;
    lookups := 0;
    var n := 0;
    assert entries[0..] == entries;
    while n < |entries|
      invariant 0 <= n <= |entries|
      invariant ImportFrom(c, store, entries[n..], providerEnabled, tally)
             == ImportFrom(c, s, entries, providerEnabled, NO_TALLY)
      invariant cached.Some? ==> DefaultBackend(providerEnabled) == Ok(cached.value)
      invariant providerEnabled ==> lookups <= if cached.Some? then 1 else 0
    {
      assert entries[n..][0] == entries[n] && entries[n..][1..] == entries[n + 1..];
      var u, v, cache, looked := ImportEntry(c, store, entries[n], providerEnabled, cached);
      store, cached := u, cache;
      lookups := if looked then lookups + 1 else lookups;
      if v.Aborted? {
        return Batch(store, tally, Some(v.error)), lookups;
      }
      tally := Count(tally, entries[n].id, v);
      n := n + 1;
    }
    return Batch(store, tally, None), lookups;
  }
}
