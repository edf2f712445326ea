/**
 The catalog cache under interleaving: producers push onto a bounded queue, one consumer reads
 the cache, writes the database and updates the cache in three actions, and any number of
 hydrations read the table in one action and swap the cache in a later one.

 `sent`, `applied`, `stale`, `base`, `touched` and `current` are history: no step depends on them.
 */
module RegistryProtocol {
  import opened Prelude
  import opened ConfigOptions
  import opened AgentCatalog

  const CAPACITY: nat := 256

  datatype Msg = Msg(id: Id, handshake: Handshake)

  /** A message handed to `send_partial`, and whether the queue took it. */
  datatype Sent = Sent(msg: Msg, accepted: bool)

  /**
   Between its actions the consumer holds the snapshot merged with the options it read as `base`,
   then the row it wrote.
   */
  datatype Consumer =
    | Waiting
    | Prepared(msg: Msg, base: Option<ConfigValue>, snapshot: Handshake)
    | Written(id: Id, row: Row, current: bool)

  /** A hydration that has read the table, and what was written to the table since. */
  datatype Hydration = Hydration(rows: map<Id, Row>, touched: set<Id>)

  datatype State = State(
    db: map<Id, Row>, cache: map<Id, Meta>, queue: seq<Msg>, consumer: Consumer, hydrations: map<nat, Hydration>,
    sent: seq<Sent>, applied: seq<Msg>, stale: set<Id>)

  datatype Event =
    | Send(msg: Msg)
    | Receive
    | WriteRow
    | UpdateCache
    | ReadTable(h: nat)
    | SwapCache(h: nat)
    | Refresh
    | PutRow(id: Id, row: Row)
    | DeleteRow(id: Id)

  /** Before the first hydration nothing is cached. */
  function Init(db: map<Id, Row>): State {
    State(db, map[], [], Waiting, map[], [], [], db.Keys)
  }

  /** A write to the row of `id`: every table read so far is out of date for it. */
  function WriteDb(s: State, id: Id, db: map<Id, Row>): State {
    s.(db := db, stale := s.stale + {id},
       hydrations := map h | h in s.hydrations :: s.hydrations[h].(touched := s.hydrations[h].touched + {id}))
  }

  function Next(env: Env, s: State, e: Event): State {
    match e
    case Send(msg) =>
      if |s.queue| < CAPACITY then
        s.(queue := s.queue + [msg], sent := s.sent + [Sent(msg, true)])
      else s.(sent := s.sent + [Sent(msg, false)])
    case Receive =>
      if !s.consumer.Waiting? || s.queue == [] then s
      else
        var msg := s.queue[0];
        var base := CachedOptions(s.cache, msg.id);
        s.(queue := s.queue[1..], consumer := Prepared(msg, base, Prepare(env, base, msg.handshake)))
    case WriteRow =>
      if !s.consumer.Prepared? then s
      else
        var id := s.consumer.msg.id;
        var t := s.(applied := s.applied + [s.consumer.msg]);
        if id !in s.db then t.(consumer := Waiting)
        else
          var row := ApplyToRow(s.db[id], s.consumer.snapshot);
          WriteDb(t, id, s.db[id := row]).(consumer := Written(id, row, true))
    case UpdateCache =>
      if !s.consumer.Written? then s
      else
        var Written(id, row, current) := s.consumer;
        var meta := Decode(env, id, row);
        if meta.None? then s.(consumer := Waiting)
        else s.(cache := s.cache[id := meta.value], consumer := Waiting,
                stale := if current then s.stale - {id} else s.stale + {id})
    case ReadTable(h) => s.(hydrations := s.hydrations[h := Hydration(s.db, {})])
    case SwapCache(h) =>
      if h !in s.hydrations then s
      else s.(cache := DecodeAll(env, s.hydrations[h].rows), stale := s.hydrations[h].touched,
              hydrations := s.hydrations - {h})
    case Refresh => s.(cache := ProbeAll(env, s.cache))
    case PutRow(id, row) => Outdate(WriteDb(s, id, s.db[id := row]), id)
    case DeleteRow(id) => Outdate(WriteDb(s, id, s.db - {id}), id)
  }

  /** The consumer's row is no longer the one in the table. */
  function Outdate(s: State, id: Id): State {
    if s.consumer.Written? && s.consumer.id == id then s.(consumer := s.consumer.(current := false)) else s
  }

  function Run(env: Env, s: State, es: seq<Event>): State
    decreases |es|
  {
    if es == [] then s else Run(env, Next(env, s, es[0]), es[1..])
  }

  // ---------------------------------------------------------------------------------------
  // The cache is the decoded table, except where a write overtook a read
  // ---------------------------------------------------------------------------------------

  /** The cache entry of `id` is what its row decodes to, absent exactly when there is none. */
  predicate Coherent(env: Env, db: map<Id, Row>, cache: map<Id, Meta>, id: Id) {
    if id in db && Decode(env, id, db[id]).Some? then id in cache && cache[id] == Decode(env, id, db[id]).value
    else id !in cache
  }

  predicate SameRow(a: map<Id, Row>, b: map<Id, Row>, id: Id) {
    (id in a <==> id in b) && (id in a ==> a[id] == b[id])
  }

  ghost predicate CacheInv(env: Env, s: State) {
    && (forall id :: id !in s.stale ==> Coherent(env, s.db, s.cache, id))
    && (forall h, id :: h in s.hydrations && id !in s.hydrations[h].touched ==> SameRow(s.hydrations[h].rows, s.db, id))
    && (s.consumer.Written? && s.consumer.current ==> s.consumer.id in s.db && s.db[s.consumer.id] == s.consumer.row)
    && (forall id :: id in s.cache ==> Sound(env, s.cache[id]) && s.cache[id].id == id)
  }

  lemma DecodeIsSound(env: Env, id: Id, row: Row)
    ensures Decode(env, id, row).Some? ==> Sound(env, Decode(env, id, row).value) && Decode(env, id, row).value.id == id
  {
    RefreshAfterLoadIsNoop(env, map[id := row]);
    assert Decode(env, id, row).Some? ==> id in DecodeAll(env, map[id := row]);
  }

  lemma NextKeepsCacheInv(env: Env, s: State, e: Event)
    requires CacheInv(env, s)
    ensures CacheInv(env, Next(env, s, e))
  {
    match e
    case Send(_) =>
    case Receive =>
    case WriteRow => WriteRowKeepsCacheInv(env, s);
    case UpdateCache => UpdateCacheKeepsCacheInv(env, s);
    case ReadTable(h) =>
    case SwapCache(h) => SwapKeepsCacheInv(env, s, h);
    case Refresh => assert ProbeAll(env, s.cache) == s.cache;
    case PutRow(id, row) => OutdateKeepsCacheInv(env, s, id, s.db[id := row]);
    case DeleteRow(id) => OutdateKeepsCacheInv(env, s, id, s.db - {id});
  }

  lemma OutdateKeepsCacheInv(env: Env, s: State, id: Id, db: map<Id, Row>)
    requires CacheInv(env, s) && forall k :: k != id ==> SameRow(s.db, db, k)
    ensures CacheInv(env, Outdate(WriteDb(s, id, db), id))
  {
    assert s.consumer.Written? ==> SameRow(s.db, db, s.consumer.id) || s.consumer.id == id;
    forall h, k | h in s.hydrations && k !in s.hydrations[h].touched + {id}
      ensures SameRow(s.hydrations[h].rows, db, k)
    {
      assert SameRow(s.hydrations[h].rows, s.db, k) && SameRow(s.db, db, k);
    }
    forall k | k !in s.stale + {id}
      ensures Coherent(env, db, s.cache, k)
    {
      assert Coherent(env, s.db, s.cache, k) && SameRow(s.db, db, k);
    }
  }

  lemma WriteRowKeepsCacheInv(env: Env, s: State)
    requires CacheInv(env, s)
    ensures CacheInv(env, Next(env, s, WriteRow))
  {
    if s.consumer.Prepared? && s.consumer.msg.id in s.db {
      var id := s.consumer.msg.id;
      var row := ApplyToRow(s.db[id], s.consumer.snapshot);
      OutdateKeepsCacheInv(env, s, id, s.db[id := row]);
    }
  }

  lemma UpdateCacheKeepsCacheInv(env: Env, s: State)
    requires CacheInv(env, s)
    ensures CacheInv(env, Next(env, s, UpdateCache))
  {
    if s.consumer.Written? {
      DecodeIsSound(env, s.consumer.id, s.consumer.row);
    }
  }

  lemma SwapKeepsCacheInv(env: Env, s: State, h: nat)
    requires CacheInv(env, s)
    ensures CacheInv(env, Next(env, s, SwapCache(h)))
  {
    if h in s.hydrations {
      var rows := s.hydrations[h].rows;
      RefreshAfterLoadIsNoop(env, rows);
      forall id | id !in s.hydrations[h].touched
        ensures Coherent(env, s.db, DecodeAll(env, rows), id)
      {
        assert SameRow(rows, s.db, id);
      }
    }
  }

  lemma {:induction false} RunKeepsCacheInv(env: Env, s: State, es: seq<Event>)
    requires CacheInv(env, s)
    ensures CacheInv(env, Run(env, s, es))
    decreases |es|
  {
    if es != [] {
      NextKeepsCacheInv(env, s, es[0]);
      RunKeepsCacheInv(env, Next(env, s, es[0]), es[1..]);
    }
  }

  /**
   In every interleaving, a cached row differs from the decoding of its database row only for an
   id that was written since the cache's copy of it was read; for all others, merging
   configuration options against the cache is merging against the database.
   */
  lemma CacheMirrorsTable(env: Env, db: map<Id, Row>, es: seq<Event>, id: Id, h: Handshake)
    requires id !in Run(env, Init(db), es).stale
    ensures var s := Run(env, Init(db), es);
            && Coherent(env, s.db, s.cache, id)
            && Prepare(env, CachedOptions(s.cache, id), h) == Prepare(env, StoredOptions(env, s.db, id), h)
  {
    RunKeepsCacheInv(env, Init(db), es);
  }

  predicate DecodesAlike(env: Env, a: map<Id, Row>, b: map<Id, Row>, id: Id) {
    (if id in a then Decode(env, id, a[id]) else None) == (if id in b then Decode(env, id, b[id]) else None)
  }

  /**
   A hydration leaves the cache right for an id exactly if its row still decodes as it did when the
   table was read.
   */
  lemma SwapIsCoherentIff(env: Env, db: map<Id, Row>, es: seq<Event>, h: nat, id: Id)
    requires h in Run(env, Init(db), es).hydrations
    ensures var s := Run(env, Init(db), es);
            var t := Next(env, s, SwapCache(h));
            && (Coherent(env, t.db, t.cache, id) <==> DecodesAlike(env, s.hydrations[h].rows, s.db, id))
            && (id !in s.hydrations[h].touched ==> Coherent(env, t.db, t.cache, id))
  {
    RunKeepsCacheInv(env, Init(db), es);
    var s := Run(env, Init(db), es);
    assert id !in s.hydrations[h].touched ==> SameRow(s.hydrations[h].rows, s.db, id);
  }

  /** In every interleaving: available implies enabled, an unavailable row has a reason, refreshing is a no-op. */
  lemma CachedRowsAreSound(env: Env, db: map<Id, Row>, es: seq<Event>)
    ensures var s := Run(env, Init(db), es);
            && (forall id :: id in s.cache ==> Sound(env, s.cache[id]))
            && (forall id :: id in s.cache ==>
                  (s.cache[id].available <==> Usable(env, s.cache[id]))
                      && s.cache[id].resolved == SpawnPath(env, s.cache[id]))
            && Next(env, s, Refresh) == s
  {
    RunKeepsCacheInv(env, Init(db), es);
    var s := Run(env, Init(db), es);
    forall id | id in s.cache
      ensures (s.cache[id].available <==> Usable(env, s.cache[id]))
              && s.cache[id].resolved == SpawnPath(env, s.cache[id])
    {
      AvailableIff(env, s.cache[id]);
    }
    assert ProbeAll(env, s.cache) == s.cache;
  }

  // ---------------------------------------------------------------------------------------
  // Messages
  // ---------------------------------------------------------------------------------------

  /** The messages the queue took, in the order they were sent. */
  function Accepted(sent: seq<Sent>): seq<Msg> {
    if sent == [] then []
    else
      var last := sent[|sent| - 1];
      Accepted(sent[..|sent| - 1]) + if last.accepted then [last.msg] else []
  }

  function InFlight(c: Consumer): seq<Msg> {
    if c.Prepared? then [c.msg] else []
  }

  ghost predicate QueueInv(s: State) {
    && |s.queue| <= CAPACITY
    && Accepted(s.sent) == s.applied + InFlight(s.consumer) + s.queue
  }

  /** Only sending, receiving and writing move messages; only a table write changes the table. */
  lemma NextFrame(env: Env, s: State, e: Event)
    requires !e.Send? && !e.Receive? && !e.WriteRow?
    ensures var t := Next(env, s, e);
            && t.queue == s.queue && t.sent == s.sent && t.applied == s.applied
            && (t.consumer.Prepared? <==> s.consumer.Prepared?) && (t.consumer.Prepared? ==> t.consumer == s.consumer)
            && (!WritesTable(e) ==> t.db == s.db)
  {
  }

  lemma SendKeepsQueueInv(env: Env, s: State, m: Msg)
    requires QueueInv(s)
    ensures QueueInv(Next(env, s, Send(m)))
  {
    var t := Next(env, s, Send(m));
    assert t.sent[..|t.sent| - 1] == s.sent;
  }

  lemma NextKeepsQueueInv(env: Env, s: State, e: Event)
    requires QueueInv(s)
    ensures QueueInv(Next(env, s, e))
  {
    match e
    case Send(m) => SendKeepsQueueInv(env, s, m);
    case Receive =>
    case WriteRow =>
    case _ => NextFrame(env, s, e);
  }

  /**
   The updates applied are, in order and each once, a prefix of those accepted, the rest being in
   the consumer's hands or in the queue; those accepted are those sent that found room, in the
   order sent; the queue never exceeds its capacity.
   */
  lemma {:induction false} MessagesConserved(env: Env, s: State, es: seq<Event>)
    requires QueueInv(s)
    ensures QueueInv(Run(env, s, es))
    decreases |es|
  {
    if es != [] {
      NextKeepsQueueInv(env, s, es[0]);
      MessagesConserved(env, Next(env, s, es[0]), es[1..]);
    }
  }

  /** In every run an update is refused exactly if 256 accepted ones have not been received yet. */
  lemma SendFindsRoomIff(env: Env, db: map<Id, Row>, es: seq<Event>, m: Msg)
    ensures var s := Run(env, Init(db), es);
            var outstanding := |Accepted(s.sent)| - |s.applied| - if s.consumer.Prepared? then 1 else 0;
            Next(env, s, Send(m)).sent == s.sent + [Sent(m, outstanding < 256)]
  {
    MessagesConserved(env, Init(db), es);
  }

  // ---------------------------------------------------------------------------------------
  // Plain fields
  // ---------------------------------------------------------------------------------------

  /** The three fields that no derivation touches. */
  datatype Plain = Plain(capabilities: Option<string>, authMethods: Option<string>, commands: Option<string>)

  function PlainOf(row: Row): Plain {
    Plain(Parse(row.columns.capabilities), Parse(row.columns.authMethods), Parse(row.columns.commands))
  }

  /** The last value sent for `id`, field by field, or the initial one. */
  function LastSent(initial: Plain, msgs: seq<Msg>, id: Id): Plain {
    if msgs == [] then initial
    else
      var m := msgs[|msgs| - 1];
      var before := LastSent(initial, msgs[..|msgs| - 1], id);
      if m.id != id then before
      else Plain(Or(m.handshake.capabilities, before.capabilities),
                 Or(m.handshake.authMethods, before.authMethods),
                 Or(m.handshake.commands, before.commands))
  }

  predicate WritesTable(e: Event) {
    e.PutRow? || e.DeleteRow?
  }

  ghost predicate PlainInv(s: State, db: map<Id, Row>) {
    && s.db.Keys == db.Keys
    && (forall id :: id in db ==> PlainOf(s.db[id]) == LastSent(PlainOf(db[id]), s.applied, id))
    && (s.consumer.Prepared? ==>
          var m, p := s.consumer.msg.handshake, s.consumer.snapshot;
          p.capabilities == m.capabilities && p.authMethods == m.authMethods && p.commands == m.commands)
  }

  /** Writing one row is sending one message to it. */
  lemma AppliedToRow(row: Row, initial: Plain, applied: seq<Msg>, m: Msg, snapshot: Handshake)
    requires PlainOf(row) == LastSent(initial, applied, m.id)
    requires snapshot.capabilities == m.handshake.capabilities && snapshot.authMethods == m.handshake.authMethods
    requires snapshot.commands == m.handshake.commands
    ensures PlainOf(ApplyToRow(row, snapshot)) == LastSent(initial, applied + [m], m.id)
  {
    assert (applied + [m])[..|applied|] == applied;
  }

  lemma SentToOther(initial: Plain, applied: seq<Msg>, m: Msg, id: Id)
    requires m.id != id
    ensures LastSent(initial, applied + [m], id) == LastSent(initial, applied, id)
  {
    assert (applied + [m])[..|applied|] == applied;
  }

  lemma AppliedToTable(
      before: map<Id, Row>, table: map<Id, Row>, db: map<Id, Row>, applied: seq<Msg>, m: Msg, snapshot: Handshake)
    requires before.Keys == db.Keys && (forall id :: id in db ==>
             PlainOf(before[id]) == LastSent(PlainOf(db[id]), applied, id))
    requires snapshot.capabilities == m.handshake.capabilities && snapshot.authMethods == m.handshake.authMethods
    requires snapshot.commands == m.handshake.commands
    requires table == if m.id in before then before[m.id := ApplyToRow(before[m.id], snapshot)] else before
    ensures table.Keys == db.Keys && (forall id :: id in db ==>
            PlainOf(table[id]) == LastSent(PlainOf(db[id]), applied + [m], id))
  {
    forall id | id in db
      ensures PlainOf(table[id]) == LastSent(PlainOf(db[id]), applied + [m], id)
    {
      if id == m.id {
        AppliedToRow(before[id], PlainOf(db[id]), applied, m, snapshot);
      } else {
        SentToOther(PlainOf(db[id]), applied, m, id);
      }
    }
  }

  lemma WriteRowKeepsPlainInv(env: Env, s: State, db: map<Id, Row>)
    requires PlainInv(s, db)
    ensures PlainInv(Next(env, s, WriteRow), db)
  {
    if s.consumer.Prepared? {
      AppliedToTable(s.db, Next(env, s, WriteRow).db, db, s.applied, s.consumer.msg, s.consumer.snapshot);
    }
  }

  lemma NextKeepsPlainInv(env: Env, s: State, db: map<Id, Row>, e: Event)
    requires PlainInv(s, db) && !WritesTable(e)
    ensures PlainInv(Next(env, s, e), db)
  {
    match e
    case Send(_) =>
    case Receive =>
    case WriteRow => WriteRowKeepsPlainInv(env, s, db);
    case _ => NextFrame(env, s, e);
  }

  lemma {:induction false} RunKeepsPlainInv(env: Env, s: State, db: map<Id, Row>, es: seq<Event>)
    requires PlainInv(s, db) && forall e :: e in es ==> !WritesTable(e)
    ensures PlainInv(Run(env, s, es), db)
    decreases |es|
  {
    if es != [] {
      NextKeepsPlainInv(env, s, db, es[0]);
      RunKeepsPlainInv(env, Next(env, s, es[0]), db, es[1..]);
    }
  }

  /**
   Once the queue is drained, each plain field of each row holds the last accepted value or its
   initial one, however sends, hydrations and refreshes interleaved with the consumer.
   */
  lemma DrainedRowsHoldTheLastAcceptedValues(env: Env, db: map<Id, Row>, es: seq<Event>, id: Id)
    requires id in db && forall e :: e in es ==> !WritesTable(e)
    requires var s := Run(env, Init(db), es); s.queue == [] && !s.consumer.Prepared?
    ensures var s := Run(env, Init(db), es);
            id in s.db && PlainOf(s.db[id]) == LastSent(PlainOf(db[id]), Accepted(s.sent), id)
  {
    RunKeepsPlainInv(env, Init(db), db, es);
    MessagesConserved(env, Init(db), es);
    var s := Run(env, Init(db), es);
    assert Accepted(s.sent) == s.applied;
  }

  // ---------------------------------------------------------------------------------------
  // A hydration can lose an option
  // ---------------------------------------------------------------------------------------

  lemma {:induction false} RunAppend(env: Env, s: State, es: seq<Event>, fs: seq<Event>)
    ensures Run(env, s, es + fs) == Run(env, Run(env, s, es), fs)
    decreases |es|
  {
    if es == [] {
      assert es + fs == fs;
    } else {
      assert (es + fs)[1..] == es[1..] + fs;
      RunAppend(env, Next(env, s, es[0]), es[1..], fs);
    }
  }

  function OptionMsg(id: Id, o: ConfigOption): Msg {
    Msg(id, Handshake(None, None, Some(Options([o])), None, None, None))
  }

  /** The table is read, an update is applied, then the old reading becomes the cache. */
  function OverlappingHydration(m: Msg): seq<Event> {
    [ReadTable(0), Send(m), Receive, WriteRow, UpdateCache, SwapCache(0)]
  }

  function Consume(m: Msg): seq<Event> {
    [Send(m), Receive, WriteRow]
  }

  lemma Run3(env: Env, s: State, a: Event, b: Event, c: Event)
    ensures Run(env, s, [a, b, c]) == Next(env, Next(env, Next(env, s, a), b), c)
  {
    var es := [a, b, c];
    assert es[1..][1..] == [c] && es[1..] == [b, c];
    assert Run(env, Next(env, Next(env, s, a), b), [c]) == Next(env, Next(env, Next(env, s, a), b), c);
  }

  /** A state with nothing going on. */
  ghost predicate AtRest(s: State) {
    s.queue == [] && s.consumer == Waiting && 0 !in s.hydrations
  }

  /** From a quiet state, a hydration overlapping one update leaves the cache as it was before the update. */
  lemma OverlapLeavesOldCache(env: Env, s: State, m: Msg)
    requires AtRest(s) && m.id in s.db && Decode(env, m.id, s.db[m.id]).Some? && s.cache == DecodeAll(env, s.db)
    ensures var t := Run(env, s, OverlappingHydration(m));
            && AtRest(t) && t.cache == s.cache
            && t.db == s.db[m.id := ApplyToRow(s.db[m.id], Prepare(env, CachedOptions(s.cache, m.id), m.handshake))]
  {
    var es, fs := [ReadTable(0), Send(m), Receive], [WriteRow, UpdateCache, SwapCache(0)];
    assert OverlappingHydration(m) == es + fs;
    RunAppend(env, s, es, fs);
    var u := ReadThenReceive(env, s, m);
    var t := WriteThenSwap(env, u, m.id);
  }

  lemma ReadThenReceive(env: Env, s: State, m: Msg) returns (u: State)
    requires AtRest(s)
    ensures u == Run(env, s, [ReadTable(0), Send(m), Receive])
    ensures u.queue == [] && u.db == s.db && u.cache == s.cache && 0 in u.hydrations && u.hydrations[0].rows == s.db
    ensures u.consumer == Prepared(m, CachedOptions(s.cache, m.id),
            Prepare(env, CachedOptions(s.cache, m.id), m.handshake))
  {
    Run3(env, s, ReadTable(0), Send(m), Receive);
    var s1 := Next(env, s, ReadTable(0));
    var s2 := Next(env, s1, Send(m));
    u := Next(env, s2, Receive);
  }

  lemma WriteThenSwap(env: Env, u: State, id: Id) returns (t: State)
    requires u.queue == [] && 0 in u.hydrations && id in u.db && u.consumer.Prepared? && u.consumer.msg.id == id
    ensures t == Run(env, u, [WriteRow, UpdateCache, SwapCache(0)])
    ensures AtRest(t) && t.cache == DecodeAll(env, u.hydrations[0].rows)
    ensures t.db == u.db[id := ApplyToRow(u.db[id], u.consumer.snapshot)]
  {
    Run3(env, u, WriteRow, UpdateCache, SwapCache(0));
    var u1 := Next(env, u, WriteRow);
    assert u1.hydrations[0].rows == u.hydrations[0].rows && u1.consumer.Written?;
    var u2 := Next(env, u1, UpdateCache);
    assert u2.hydrations == u1.hydrations && u2.consumer.Waiting?;
    t := Next(env, u2, SwapCache(0));
  }

  lemma ConsumeWritesRow(env: Env, s: State, m: Msg)
    requires AtRest(s) && m.id in s.db
    ensures Run(env, s, Consume(m)).db
         == s.db[m.id := ApplyToRow(s.db[m.id], Prepare(env, CachedOptions(s.cache, m.id), m.handshake))]
  {
    Run3(env, s, Send(m), Receive, WriteRow);
  }

  /**
   The stale copy is not harmless: option `a`, accepted and written, is gone from the database
   after the next update, which was merged against a cache that had never heard of `a`.
   */
  lemma HydrationLosesAnOption(env: Env, s: State, id: Id, a: ConfigOption, b: ConfigOption)
    requires AtRest(s) && id in s.db && Decode(env, id, s.db[id]).Some? && s.cache == DecodeAll(env, s.db)
    requires s.db[id].columns.configOptions == None && a.id != b.id
    ensures var t := Run(env, s, OverlappingHydration(OptionMsg(id, a)));
            && StoredOptions(env, t.db, id) == Some(Options([a]))
            && StoredOptions(env, Run(env, t, Consume(OptionMsg(id, b))).db, id) == Some(Options([b]))
  {
    OverlapLeavesOldCache(env, s, OptionMsg(id, a));
    var t := Run(env, s, OverlappingHydration(OptionMsg(id, a)));
    ConsumeWritesRow(env, t, OptionMsg(id, b));
  }
}
