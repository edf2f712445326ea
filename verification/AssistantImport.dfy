/** The insert-only import of legacy rows. */
module AssistantImport {
  import opened Prelude
  import opened Text
  import opened AssistantTables
  import opened AssistantService

  /** One entry of a batch, under the id it names or was given. */
  datatype Entry = Entry(id: Key, request: CreateReq)

  datatype Verdict = Imported | Skipped | Failed(error: Error) | Aborted(error: Error)

  /** The fate of one entry; the default backend is resolved from the providers each time. */
  function ImportOne(c: Config, s: Store, e: Entry, providerEnabled: bool): (Store, Verdict) {
    var backend := BackendFor(e.request.backend, providerEnabled);
    if IsBuiltin(c, e.id) || e.id in s.legacy then (s, Skipped)
    else if Blank(e.request.name) then (s, Failed(BadRequest))
    else if backend.Err? then (s, Failed(backend.error))
    else
      var row := NewLegacyRow(e.request, backend.value);
      var written := WriteUser(s.(legacy := s.legacy[e.id := row]), e.id, row);
      (written.store, if written.error.None? then Imported else Aborted(written.error.value))
  }

  datatype Tally = Tally(imported: nat, skipped: nat, failed: nat, errors: seq<(Key, Error)>)

  datatype Batch = Batch(store: Store, tally: Tally, aborted: Option<Error>)

  function Count(t: Tally, id: Key, v: Verdict): Tally {
    match v
    case Imported => t.(imported := t.imported + 1)
    case Skipped => t.(skipped := t.skipped + 1)
    case Failed(e) => t.(failed := t.failed + 1, errors := t.errors + [(id, e)])
    case Aborted(_) => t
  }

  /** A failing definition write aborts the whole batch. */
  function ImportFrom(c: Config, s: Store, entries: seq<Entry>, providerEnabled: bool, t: Tally): Batch
    decreases |entries|
  {
    if entries == [] then Batch(s, t, None)
    else
      var (s', v) := ImportOne(c, s, entries[0], providerEnabled);
      if v.Aborted? then Batch(s', t, Some(v.error))
      else ImportFrom(c, s', entries[1..], providerEnabled, Count(t, entries[0].id, v))
  }

  const NO_TALLY := Tally(0, 0, 0, [])

  function Import(c: Config, s: Store, entries: seq<Entry>, providerEnabled: bool): Batch {
    ImportFrom(c, s, entries, providerEnabled, NO_TALLY)
  }
}
