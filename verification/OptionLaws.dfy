/**
 When an accepted configuration option stays in the table.  One write drops a stored option exactly
 if the consumer neither read it in the cache nor was sent it; and no option is ever lost on a run
 in which every update of a row is received while the cached copy of the row is up to date.
 */
module OptionLaws {
  import opened Prelude
  import opened ConfigOptions
  import opened AgentCatalog
  import opened RegistryProtocol

  /** The option a reader finds under `k`. */
  function OptionOf(v: Option<ConfigValue>, k: string): Option<ConfigOption> {
    if AsOptions(v).Some? then Find(AsOptions(v).value, k) else None
  }

  /** The options of a row, whether or not the rest of it decodes. */
  function RowOptions(row: Row): Option<ConfigValue> {
    Parse(row.columns.configOptions)
  }

  // ---------------------------------------------------------------------------------------
  // One write
  // ---------------------------------------------------------------------------------------

  lemma {:induction false} FindLastIff(options: seq<ConfigOption>, k: string)
    ensures FindLast(options, k).Some? <==> Find(options, k).Some?
  {
    if options != [] { FindLastIff(options[1..], k); }
  }

  /** What a reader finds after merging `incoming` into `base`. */
  function MergedOption(
      base: Option<ConfigValue>, incoming: Option<ConfigValue>, stored: Option<ConfigOption>,
      k: string): Option<ConfigOption> {
    if incoming.None? then stored
    else if AsOptions(incoming).None? then None
    else if AsOptions(base).None? then OptionOf(incoming, k)
    else Or(FindLast(AsOptions(incoming).value, k), OptionOf(base, k))
  }

  lemma WrittenOption(env: Env, row: Row, base: Option<ConfigValue>, h: Handshake, k: string)
    ensures OptionOf(RowOptions(ApplyToRow(row, Prepare(env, base, h))), k)
         == MergedOption(base, h.configOptions, OptionOf(RowOptions(row), k), k)
  {
    if AsOptions(h.configOptions).Some? { MergeFinds(AsOptions(base), AsOptions(h.configOptions).value, k); }
  }

  ghost predicate SnapshotOk(env: Env, s: State) {
    s.consumer.Prepared? ==> s.consumer.snapshot == Prepare(env, s.consumer.base, s.consumer.msg.handshake)
  }

  lemma {:induction false} RunKeepsSnapshot(env: Env, s: State, es: seq<Event>)
    requires SnapshotOk(env, s)
    ensures SnapshotOk(env, Run(env, s, es))
    decreases |es|
  {
    if es != [] {
      assert SnapshotOk(env, Next(env, s, es[0]));
      RunKeepsSnapshot(env, Next(env, s, es[0]), es[1..]);
    }
  }

  /**
   In every run: the consumer's write drops a stored option exactly if it writes options at all and the
   option was neither in the cached options it read on receiving the update nor in the update.
   */
  lemma WriteDropsIff(env: Env, db: map<Id, Row>, es: seq<Event>, k: string)
    requires var s := Run(env, Init(db), es);
             s.consumer.Prepared? && s.consumer.msg.id in s.db && OptionOf(RowOptions(s.db[s.consumer.msg.id]), k).Some?
    ensures var s := Run(env, Init(db), es);
            var Prepared(m, base, _) := s.consumer;
            var t := Next(env, s, WriteRow);
            m.id in t.db &&
            (OptionOf(RowOptions(t.db[m.id]), k).None? <==>
             m.handshake.configOptions.Some? && OptionOf(m.handshake.configOptions, k).None?
             && (AsOptions(m.handshake.configOptions).Some? ==> OptionOf(base, k).None?))
  {
    RunKeepsSnapshot(env, Init(db), es);
    var s := Run(env, Init(db), es);
    var Prepared(m, base, _) := s.consumer;
    WrittenOption(env, s.db[m.id], base, m.handshake, k);
    if AsOptions(m.handshake.configOptions).Some? { FindLastIff(AsOptions(m.handshake.configOptions).value, k); }
  }

  // ---------------------------------------------------------------------------------------
  // Whole runs
  // ---------------------------------------------------------------------------------------

  /** Whether the accepted updates leave an option list in the row. */
  function Listed(initial: Option<ConfigValue>, msgs: seq<Msg>, id: Id): bool {
    if msgs == [] then AsOptions(initial).Some?
    else
      var m := msgs[|msgs| - 1];
      if m.id != id || m.handshake.configOptions.None? then Listed(initial, msgs[..|msgs| - 1], id)
      else AsOptions(m.handshake.configOptions).Some?
  }

  /**
   The reference: the last accepted value of option `k`, or the initial one.  In one list sent to a row
   with options the last entry counts, in the first list of a row the first; a value that is no list
   clears the options.
   */
  function LastOption(initial: Option<ConfigValue>, msgs: seq<Msg>, id: Id, k: string): Option<ConfigOption> {
    if msgs == [] then OptionOf(initial, k)
    else
      var m := msgs[|msgs| - 1];
      var before := msgs[..|msgs| - 1];
      if m.id != id || m.handshake.configOptions.None? then LastOption(initial, before, id, k)
      else
        var incoming := AsOptions(m.handshake.configOptions);
        if incoming.None? then None
        else if Listed(initial, before, id) then Or(FindLast(incoming.value, k), LastOption(initial, before, id, k))
        else Find(incoming.value, k)
  }

  /** Each update of `id` is received while the cached copy of its row is up to date. */
  predicate ReceivedFresh(env: Env, s: State, es: seq<Event>, id: Id)
    decreases |es|
  {
    es == [] ||
    (&& (es[0].Receive? && s.consumer.Waiting? && s.queue != [] && s.queue[0].id == id ==> id !in s.stale)
     && ReceivedFresh(env, Next(env, s, es[0]), es[1..], id))
  }

  ghost predicate OptionsAre(v: Option<ConfigValue>, initial: Option<ConfigValue>, applied: seq<Msg>, id: Id) {
    && (AsOptions(v).Some? <==> Listed(initial, applied, id))
    && forall k :: OptionOf(v, k) == LastOption(initial, applied, id, k)
  }

  ghost predicate OptionInv(env: Env, s: State, initial: Option<ConfigValue>, id: Id) {
    && id in s.db && Decode(env, id, s.db[id]).Some?
    && OptionsAre(RowOptions(s.db[id]), initial, s.applied, id)
    && SnapshotOk(env, s)
    && (s.consumer.Prepared? && s.consumer.msg.id == id ==> s.consumer.base == RowOptions(s.db[id]))
  }

  /** One more update, merged with what the row holds. */
  lemma OptionsAfterWrite(
    env: Env, row: Row, initial: Option<ConfigValue>, applied: seq<Msg>, m: Msg)
    requires OptionsAre(RowOptions(row), initial, applied, m.id)
    ensures OptionsAre(RowOptions(ApplyToRow(row, Prepare(env, RowOptions(row), m.handshake))), initial, applied + [m],
            m.id)
  {
    var v := RowOptions(ApplyToRow(row, Prepare(env, RowOptions(row), m.handshake)));
    assert (applied + [m])[..|applied|] == applied;
    forall k
      ensures OptionOf(v, k) == LastOption(initial, applied + [m], m.id, k)
    {
      WrittenOption(env, row, RowOptions(row), m.handshake, k);
    }
  }

  lemma OptionsOfOthers(v: Option<ConfigValue>, initial: Option<ConfigValue>, applied: seq<Msg>, m: Msg, id: Id)
    requires OptionsAre(v, initial, applied, id) && m.id != id
    ensures OptionsAre(v, initial, applied + [m], id)
  {
    assert (applied + [m])[..|applied|] == applied;
  }

  lemma WriteRowKeepsOptions(env: Env, s: State, initial: Option<ConfigValue>, id: Id)
    requires OptionInv(env, s, initial, id)
    ensures OptionInv(env, Next(env, s, WriteRow), initial, id)
  {
    if s.consumer.Prepared? {
      var m := s.consumer.msg;
      if m.id == id {
        OptionsAfterWrite(env, s.db[id], initial, s.applied, m);
      } else {
        OptionsOfOthers(RowOptions(s.db[id]), initial, s.applied, m, id);
      }
    }
  }

  lemma ReceiveKeepsOptions(env: Env, s: State, initial: Option<ConfigValue>, id: Id)
    requires OptionInv(env, s, initial, id) && CacheInv(env, s)
    requires s.consumer.Waiting? && s.queue != [] && s.queue[0].id == id ==> id !in s.stale
    ensures OptionInv(env, Next(env, s, Receive), initial, id)
  {
    if s.consumer.Waiting? && s.queue != [] && s.queue[0].id == id {
      assert Coherent(env, s.db, s.cache, id);
      assert CachedOptions(s.cache, id) == RowOptions(s.db[id]);
    }
  }

  lemma NextKeepsOptions(env: Env, s: State, e: Event, initial: Option<ConfigValue>, id: Id)
    requires OptionInv(env, s, initial, id) && CacheInv(env, s) && !WritesTable(e)
    requires e.Receive? && s.consumer.Waiting? && s.queue != [] && s.queue[0].id == id ==> id !in s.stale
    ensures OptionInv(env, Next(env, s, e), initial, id)
  {
    match e
    case Send(_) =>
    case Receive => ReceiveKeepsOptions(env, s, initial, id);
    case WriteRow => WriteRowKeepsOptions(env, s, initial, id);
    case _ => NextFrame(env, s, e);
  }

  lemma {:induction false} RunKeepsOptions(env: Env, s: State, es: seq<Event>, initial: Option<ConfigValue>, id: Id)
    requires OptionInv(env, s, initial, id) && CacheInv(env, s) && ReceivedFresh(env, s, es, id)
    requires forall e :: e in es ==> !WritesTable(e)
    ensures OptionInv(env, Run(env, s, es), initial, id)
    decreases |es|
  {
    if es != [] {
      NextKeepsOptions(env, s, es[0], initial, id);
      NextKeepsCacheInv(env, s, es[0]);
      RunKeepsOptions(env, Next(env, s, es[0]), es[1..], initial, id);
    }
  }

  /**
   No option is lost: once the queue is drained, each option of a row that decodes holds its last accepted
   value or its initial one, provided each update of the row was received while its cached copy was up
   to date, however sends, hydrations and refreshes interleaved.
   */
  lemma DrainedRowsHoldTheLastAcceptedOptions(env: Env, db: map<Id, Row>, es: seq<Event>, id: Id, k: string)
    requires id in db && Decode(env, id, db[id]).Some?
    requires ReceivedFresh(env, Init(db), es, id) && forall e :: e in es ==> !WritesTable(e)
    requires var s := Run(env, Init(db), es); s.queue == [] && !s.consumer.Prepared?
    ensures var s := Run(env, Init(db), es);
            id in s.db && OptionOf(RowOptions(s.db[id]), k) == LastOption(RowOptions(db[id]), Accepted(s.sent), id, k)
  {
    RunKeepsOptions(env, Init(db), es, RowOptions(db[id]), id);
    MessagesConserved(env, Init(db), es);
    assert Accepted(Run(env, Init(db), es).sent) == Run(env, Init(db), es).applied;
  }

  // ---------------------------------------------------------------------------------------
  // What keeps the cached copy up to date
  // ---------------------------------------------------------------------------------------

  /** No hydration that read the table before a write to `id` replaces the cache after it. */
  predicate SwapsFresh(env: Env, s: State, es: seq<Event>, id: Id)
    decreases |es|
  {
    es == [] ||
    (&& (es[0].SwapCache? && es[0].h in s.hydrations ==> id !in s.hydrations[es[0].h].touched)
     && SwapsFresh(env, Next(env, s, es[0]), es[1..], id))
  }

  /** Between updates the copy is up to date; while one is written, the consumer is about to renew it. */
  ghost predicate FreshInv(env: Env, s: State, id: Id) {
    && id in s.db && Decode(env, id, s.db[id]).Some? && CacheInv(env, s)
    && (id in s.stale ==> s.consumer.Written? && s.consumer.id == id && s.consumer.current)
    && (s.consumer.Written? ==> s.consumer.current)
  }

  lemma NextKeepsFresh(env: Env, s: State, e: Event, id: Id)
    requires FreshInv(env, s, id) && !WritesTable(e)
    requires e.SwapCache? && e.h in s.hydrations ==> id !in s.hydrations[e.h].touched
    ensures FreshInv(env, Next(env, s, e), id)
  {
    NextKeepsCacheInv(env, s, e);
    match e
    case Send(_) =>
    case Receive =>
    case WriteRow =>
    case UpdateCache =>
    case _ => NextFrame(env, s, e);
  }

  /** While no such hydration interferes, every update is received fresh, once the row has been loaded. */
  lemma {:induction false} FreshSwapsGiveFreshReceives(env: Env, s: State, es: seq<Event>, id: Id)
    requires FreshInv(env, s, id) && SwapsFresh(env, s, es, id) && forall e :: e in es ==> !WritesTable(e)
    ensures ReceivedFresh(env, s, es, id)
    decreases |es|
  {
    if es != [] {
      NextKeepsFresh(env, s, es[0], id);
      FreshSwapsGiveFreshReceives(env, Next(env, s, es[0]), es[1..], id);
    }
  }

  function Load(h: nat): seq<Event> {
    [ReadTable(h), SwapCache(h)]
  }

  lemma LoadedIsFresh(env: Env, db: map<Id, Row>, h: nat, id: Id)
    requires id in db && Decode(env, id, db[id]).Some?
    ensures Run(env, Init(db), Load(h)) == Init(db).(cache := DecodeAll(env, db), stale := {})
    ensures FreshInv(env, Run(env, Init(db), Load(h)), id)
  {
    var s := Next(env, Init(db), ReadTable(h));
    assert Load(h)[1..] == [SwapCache(h)];
    assert Run(env, s, [SwapCache(h)]) == Next(env, s, SwapCache(h));
    assert s.hydrations - {h} == map[];
    RunKeepsCacheInv(env, Init(db), Load(h));
  }

  /**
   After the first loading, options are only ever lost to a hydration that read the table before a write
   and replaces the cache after it: on every run without one, each option of a row that decodes holds,
   after draining, its last accepted value or its initial one.
   */
  lemma OptionsSurviveFreshSwaps(env: Env, db: map<Id, Row>, h: nat, es: seq<Event>, id: Id, k: string)
    requires id in db && Decode(env, id, db[id]).Some? && forall e :: e in es ==> !WritesTable(e)
    requires SwapsFresh(env, Run(env, Init(db), Load(h)), es, id)
    requires var s := Run(env, Init(db), Load(h) + es); s.queue == [] && !s.consumer.Prepared?
    ensures var s := Run(env, Init(db), Load(h) + es);
            id in s.db && OptionOf(RowOptions(s.db[id]), k) == LastOption(RowOptions(db[id]), Accepted(s.sent), id, k)
  {
    LoadedIsFresh(env, db, h, id);
    var t := Run(env, Init(db), Load(h));
    FreshSwapsGiveFreshReceives(env, t, es, id);
    var s1 := Next(env, Init(db), ReadTable(h));
    var all := Load(h) + es;
    assert all[0] == ReadTable(h) && all[1..][0] == SwapCache(h) && all[1..][1..] == es;
    assert Load(h)[1..] == [SwapCache(h)];
    assert t == Run(env, s1, [SwapCache(h)]) == Next(env, s1, SwapCache(h));
    assert ReceivedFresh(env, s1, all[1..], id);
    DrainedRowsHoldTheLastAcceptedOptions(env, db, all, id, k);
  }

  // ---------------------------------------------------------------------------------------
  // What can still be lost
  // ---------------------------------------------------------------------------------------

  /** The update leaves options alone or brings a list of them. */
  predicate Listy(m: Msg) {
    m.handshake.configOptions.Some? ==> m.handshake.configOptions.value.Options?
  }

  /**
   Nothing but the cached copy can cost `id` an option: no late swap, no outside write, no options
   that are no list.
   */
  predicate Benign(env: Env, s: State, es: seq<Event>, id: Id) {
    && SwapsFresh(env, s, es, id)
    && forall e :: e in es ==> !WritesTable(e) && (e.Send? && e.msg.id == id ==> Listy(e.msg))
  }

  ghost predicate CanLose(env: Env, s: State, id: Id, k: string) {
    exists es :: Benign(env, s, es, id) && Lost(Run(env, s, es), id, k)
  }

  predicate Lost(s: State, id: Id, k: string) {
    id in s.db && OptionOf(RowOptions(s.db[id]), k).None?
  }

  /** Option `k` is in the row, in the cached copy, and in whatever the consumer holds of the row. */
  ghost predicate KeptInv(env: Env, s: State, id: Id, k: string) {
    && id in s.db && Decode(env, id, s.db[id]).Some? && OptionOf(RowOptions(s.db[id]), k).Some?
    && OptionOf(CachedOptions(s.cache, id), k).Some?
    && (forall n :: 0 <= n < |s.queue| && s.queue[n].id == id ==> Listy(s.queue[n]))
    && SnapshotOk(env, s)
    && (s.consumer.Prepared? && s.consumer.msg.id == id ==>
          Listy(s.consumer.msg) && OptionOf(s.consumer.base, k).Some?)
    && (s.consumer.Written? && s.consumer.id == id ==>
          Decode(env, id, s.consumer.row).Some? && OptionOf(RowOptions(s.consumer.row), k).Some?)
  }

  lemma KeptWrite(env: Env, row: Row, base: Option<ConfigValue>, m: Msg, k: string)
    requires OptionOf(RowOptions(row), k).Some? && OptionOf(base, k).Some? && Listy(m)
    ensures OptionOf(RowOptions(ApplyToRow(row, Prepare(env, base, m.handshake))), k).Some?
  {
    WrittenOption(env, row, base, m.handshake, k);
  }

  lemma WriteRowKeepsKept(env: Env, s: State, id: Id, k: string)
    requires KeptInv(env, s, id, k)
    ensures KeptInv(env, Next(env, s, WriteRow), id, k)
  {
    if s.consumer.Prepared? && s.consumer.msg.id == id {
      KeptWrite(env, s.db[id], s.consumer.base, s.consumer.msg, k);
    }
  }

  lemma CachedAsDecoded(env: Env, cache: map<Id, Meta>, id: Id, row: Row)
    requires Decode(env, id, row).Some?
    ensures CachedOptions(cache[id := Decode(env, id, row).value], id) == RowOptions(row)
  {
  }

  lemma CacheStepKeepsKept(env: Env, s: State, e: Event, id: Id, k: string)
    requires KeptInv(env, s, id, k) && CacheInv(env, s) && (e.UpdateCache? || e.SwapCache? || e.Refresh?)
    requires e.SwapCache? && e.h in s.hydrations ==> id !in s.hydrations[e.h].touched
    ensures KeptInv(env, Next(env, s, e), id, k)
  {
    match e
    case UpdateCache =>
      if s.consumer.Written? && s.consumer.id == id { CachedAsDecoded(env, s.cache, id, s.consumer.row); }
    case SwapCache(h) => if h in s.hydrations { assert SameRow(s.hydrations[h].rows, s.db, id); }
    case Refresh =>
  }

  lemma NextKeepsKept(env: Env, s: State, e: Event, id: Id, k: string)
    requires KeptInv(env, s, id, k) && CacheInv(env, s) && !WritesTable(e)
    requires e.Send? && e.msg.id == id ==> Listy(e.msg)
    requires e.SwapCache? && e.h in s.hydrations ==> id !in s.hydrations[e.h].touched
    ensures KeptInv(env, Next(env, s, e), id, k)
  {
    match e
    case Send(_) =>
    case Receive =>
    case ReadTable(_) =>
    case WriteRow => WriteRowKeepsKept(env, s, id, k);
    case _ => CacheStepKeepsKept(env, s, e, id, k);
  }

  lemma {:induction false} RunKeepsKept(env: Env, s: State, es: seq<Event>, id: Id, k: string)
    requires KeptInv(env, s, id, k) && CacheInv(env, s) && Benign(env, s, es, id)
    ensures KeptInv(env, Run(env, s, es), id, k)
    decreases |es|
  {
    if es != [] {
      NextKeepsKept(env, s, es[0], id, k);
      NextKeepsCacheInv(env, s, es[0]);
      RunKeepsKept(env, Next(env, s, es[0]), es[1..], id, k);
    }
  }

  /** An update with an empty list: what it leaves is what was cached. */
  lemma EmptyUpdateLoses(env: Env, s: State, id: Id, k: string)
    requires s.queue == [] && s.consumer.Waiting? && id in s.db && OptionOf(CachedOptions(s.cache, id), k).None?
    ensures CanLose(env, s, id, k)
  {
    var m := Msg(id, Handshake(None, None, Some(Options([])), None, None, None));
    var es := Consume(m);
    Run3(env, s, Send(m), Receive, WriteRow);
    assert Run(env, s, es).db == s.db[id :=
        ApplyToRow(s.db[id], Prepare(env, CachedOptions(s.cache, id), m.handshake))];
    WrittenOption(env, s.db[id], CachedOptions(s.cache, id), m.handshake, k);
    FreshWithoutSwaps(env, s, es, id);
    assert Benign(env, s, es, id) && Lost(Run(env, s, es), id, k);
  }

  lemma {:induction false} FreshWithoutSwaps(env: Env, s: State, es: seq<Event>, id: Id)
    requires forall e :: e in es ==> !e.SwapCache?
    ensures SwapsFresh(env, s, es, id)
    decreases |es|
  {
    if es != [] { FreshWithoutSwaps(env, Next(env, s, es[0]), es[1..], id); }
  }

  /**
   The converse, over whole continuations: from any reachable state with nothing on its way, a stored option
   can still be lost without another late swap exactly if it is missing from the cached copy.
   */
  lemma OptionCanBeLostIff(env: Env, db: map<Id, Row>, es: seq<Event>, id: Id, k: string)
    requires var s := Run(env, Init(db), es);
             && s.queue == [] && s.consumer.Waiting?
             && id in s.db && Decode(env, id, s.db[id]).Some? && OptionOf(RowOptions(s.db[id]), k).Some?
    ensures var s := Run(env, Init(db), es);
            CanLose(env, s, id, k) <==> OptionOf(CachedOptions(s.cache, id), k).None?
  {
    var s := Run(env, Init(db), es);
    RunKeepsCacheInv(env, Init(db), es);
    if OptionOf(CachedOptions(s.cache, id), k).None? {
      EmptyUpdateLoses(env, s, id, k);
    } else {
      forall fs | Benign(env, s, fs, id)
        ensures !Lost(Run(env, s, fs), id, k)
      {
        RunKeepsKept(env, s, fs, id, k);
      }
    }
  }

  /** After a hydration replaced the cache: exactly the options that its reading of the row lacks can be lost. */
  lemma SwapLosesIff(env: Env, db: map<Id, Row>, es: seq<Event>, h: nat, id: Id, k: string)
    requires var s := Run(env, Init(db), es);
             && h in s.hydrations && s.queue == [] && s.consumer.Waiting?
             && id in s.db && Decode(env, id, s.db[id]).Some? && OptionOf(RowOptions(s.db[id]), k).Some?
    ensures var s := Run(env, Init(db), es);
            CanLose(env, Next(env, s, SwapCache(h)), id, k) <==>
            OptionOf(StoredOptions(env, s.hydrations[h].rows, id), k).None?
  {
    var s := Run(env, Init(db), es);
    RunAppend(env, Init(db), es, [SwapCache(h)]);
    assert Run(env, s, [SwapCache(h)]) == Next(env, s, SwapCache(h));
    OptionCanBeLostIff(env, db, es + [SwapCache(h)], id, k);
    assert CachedOptions(DecodeAll(env, s.hydrations[h].rows), id) == StoredOptions(env, s.hydrations[h].rows, id);
  }
}
