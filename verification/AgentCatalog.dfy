/**
 Catalog rows, their decoded form, and the probe that decides availability.

 PATH, the managed runtime and the schema of advertised options are outside the model: they
 are the functions of an `Env`.
 */
module AgentCatalog {
  import opened Prelude
  import opened ConfigOptions

  type Id = string

  datatype Source = Internal | Builtin | Extension | Custom

  /** A JSON text column: the encoding of a value, or text that does not parse. */
  datatype Column<T> = Encoded(value: T) | Garbage(text: string)

  function Parse<T>(column: Option<Column<T>>): Option<T> {
    if column.Some? && column.value.Encoded? then Some(column.value.value) else None
  }

  /** The snapshot an agent sends: absent fields mean "leave alone". */
  datatype Handshake = Handshake(
    capabilities: Option<string>, authMethods: Option<string>, configOptions: Option<ConfigValue>,
    modes: Option<string>, models: Option<string>, commands: Option<string>)

  datatype Columns = Columns(
    capabilities: Option<Column<string>>, authMethods: Option<Column<string>>,
    configOptions: Option<Column<ConfigValue>>,
    modes: Option<Column<string>>, models: Option<Column<string>>, commands: Option<Column<string>>)

  /** `agentType` and `source` are the parsed columns, absent when the text names no variant. */
  datatype Row = Row(
    name: string, sortOrder: int, agentType: Option<string>, source: Option<Source>, backend: Option<string>,
    enabled: bool, command: Option<string>, bridge: Option<string>, binary: Option<string>, columns: Columns)

  datatype Meta = Meta(
    id: Id, name: string, sortOrder: int, agentType: string, source: Source, backend: Option<string>,
    enabled: bool, available: bool, command: Option<string>, resolved: Option<string>,
    bridge: Option<string>, binary: Option<string>, handshake: Handshake)

  datatype Reason =
    | Disabled
    | NoCommand
    | BridgeMissing(bridge: string)
    | PrimaryMissing(binary: string)
    | CommandMissing(command: string)
    | ManagedRuntimeUnavailable(resource: string)

  datatype Env = Env(
    which: string -> Option<string>,
    managedTool: string -> Option<string>,
    nodeSupported: bool,
    toolSupported: string -> bool,
    deriveModes: seq<ConfigOption> -> Option<string>,
    deriveModels: seq<ConfigOption> -> Option<string>)

  // ---------------------------------------------------------------------------------------
  // Probing
  // ---------------------------------------------------------------------------------------

  predicate Missing(env: Env, binary: Option<string>) {
    binary.Some? && env.which(binary.value).None?
  }

  function ManagedTool(env: Env, m: Meta): Option<string> {
    if m.source == Builtin && m.backend.Some? then env.managedTool(m.backend.value) else None
  }

  /** The spawn command's path, or the first thing that is missing. */
  function Probe(env: Env, m: Meta): Result<string, Reason> {
    if !m.enabled then Err(Disabled)
    else if ManagedTool(env, m).Some? then
      var tool := ManagedTool(env, m).value;
      if !env.nodeSupported then Err(ManagedRuntimeUnavailable("node"))
      else if !env.toolSupported(tool) then Err(ManagedRuntimeUnavailable(tool))
      else if Missing(env, m.binary) then Err(PrimaryMissing(m.binary.value))
      else Ok(tool)
    else if m.command.None? || m.command.value == "" then Err(NoCommand)
    else if m.bridge != m.command && Missing(env, m.bridge) then Err(BridgeMissing(m.bridge.value))
    else if m.binary != m.command && m.bridge != m.binary && Missing(env, m.binary) then
        Err(PrimaryMissing(m.binary.value))
    else if env.which(m.command.value).None? then Err(CommandMissing(m.command.value))
    else Ok(env.which(m.command.value).value)
  }

  /** What `decode_row` and `refresh_availability` both do after building the row. */
  function Probed(env: Env, m: Meta): Meta {
    var path := match Probe(env, m) case Ok(p) => Some(p) case Err(_) => None;
    m.(resolved := path, available := path.Some? || (m.enabled && m.command.None? && m.source == Internal))
  }

  function Decode(env: Env, id: Id, row: Row): Option<Meta> {
    if row.agentType.None? || row.source.None? then None
    else
      var c := row.columns;
      Some(Probed(env, Meta(
        id, row.name, row.sortOrder, row.agentType.value, row.source.value, row.backend, row.enabled, false,
        row.command,
        None, row.bridge, row.binary,
        Handshake(Parse(c.capabilities), Parse(c.authMethods), Parse(c.configOptions), Parse(c.modes), Parse(c.models),
            Parse(c.commands)))))
  }

  /** The rows the cache holds after loading `db`: undecodable ones are skipped. */
  function DecodeAll(env: Env, db: map<Id, Row>): map<Id, Meta> {
    map id | id in db && Decode(env, id, db[id]).Some? :: Decode(env, id, db[id]).value
  }

  function ProbeAll(env: Env, cache: map<Id, Meta>): map<Id, Meta> {
    map id | id in cache :: Probed(env, cache[id])
  }

  lemma ProbedTwice(env: Env, m: Meta)
    ensures Probed(env, Probed(env, m)) == Probed(env, m)
  {
    assert Probe(env, Probed(env, m)) == Probe(env, m);
  }

  /** The facts every cached row carries. */
  predicate Sound(env: Env, m: Meta) {
    && Probed(env, m) == m
    && (m.available ==> m.enabled)
    && (!m.available ==> Probe(env, m).Err?)
  }

  lemma ProbedIsSound(env: Env, m: Meta)
    ensures Sound(env, Probed(env, m))
  {
    ProbedTwice(env, m);
  }

  // ---------------------------------------------------------------------------------------
  // What availability means, on the fields of a row
  // ---------------------------------------------------------------------------------------

  /** The piece is not asked for, or it is on PATH. */
  predicate Found(env: Env, piece: Option<string>) {
    piece.Some? ==> env.which(piece.value).Some?
  }

  /** A built-in agent whose backend comes with the managed runtime. */
  predicate IsManaged(env: Env, m: Meta) {
    m.source == Builtin && m.backend.Some? && env.managedTool(m.backend.value).Some?
  }

  /** Everything a managed agent needs is there. */
  predicate ManagedReady(env: Env, m: Meta)
    requires IsManaged(env, m)
  {
    env.nodeSupported && env.toolSupported(env.managedTool(m.backend.value).value) && Found(env, m.binary)
  }

  /** Every program an unmanaged agent with a command needs is on PATH: command, bridge and binary. */
  predicate CommandReady(env: Env, m: Meta) {
    && m.command.Some? && m.command.value != ""
    && Found(env, m.command) && Found(env, m.bridge) && Found(env, m.binary)
  }

  predicate Usable(env: Env, m: Meta) {
    && m.enabled
    && if IsManaged(env, m) then ManagedReady(env, m)
       else CommandReady(env, m) || (m.command == None && m.source == Internal)
  }

  /** What would be spawned. */
  function SpawnPath(env: Env, m: Meta): Option<string> {
    if IsManaged(env, m) then (if m.enabled && ManagedReady(env, m) then env.managedTool(m.backend.value) else None)
    else if m.enabled && CommandReady(env, m) then env.which(m.command.value)
    else None
  }

  /** A cached row is available exactly if all it needs is there, and resolved to the tool or to its command on PATH. */
  lemma AvailableIff(env: Env, m: Meta)
    requires Probed(env, m) == m
    ensures m.available <==> Usable(env, m)
    ensures m.resolved == SpawnPath(env, m)
  {
  }

  /**
   The first missing piece, in the order they are looked for, is the reason; there is one exactly if
   no path is resolved.
   */
  lemma ReasonIff(env: Env, m: Meta, reason: Reason)
    ensures Probe(env, m) == Err(reason) <==>
            match reason
            case Disabled => !m.enabled
            case ManagedRuntimeUnavailable(what) =>
              m.enabled && IsManaged(env, m) &&
              (if !env.nodeSupported then what == "node"
               else what == env.managedTool(m.backend.value).value && !env.toolSupported(what))
            case NoCommand => m.enabled && !IsManaged(env, m) && (m.command == None || m.command == Some(""))
            case BridgeMissing(what) =>
              && m.enabled && !IsManaged(env, m) && m.command.Some? && m.command.value != ""
              && m.bridge == Some(what) && m.bridge != m.command && env.which(what) == None
            case PrimaryMissing(what) =>
              && m.enabled && m.binary == Some(what) && env.which(what) == None
              && (if IsManaged(env, m) then
                  env.nodeSupported && env.toolSupported(env.managedTool(m.backend.value).value)
                  else m.command.Some? && m.command.value != "" && m.binary != m.command &&
                       (m.bridge == m.command || Found(env, m.bridge)))
            case CommandMissing(what) =>
              && m.enabled && !IsManaged(env, m) && m.command == Some(what) && what != "" && env.which(what) == None
              && (m.bridge == m.command || Found(env, m.bridge)) && (m.binary == m.command || Found(env, m.binary))
  {
  }

  /** What a row decodes to, field by field; a JSON column that does not parse reads as absent. */
  lemma DecodedFields(env: Env, id: Id, row: Row)
    ensures Decode(env, id, row).Some? <==> row.agentType.Some? && row.source.Some?
    ensures Decode(env, id, row).Some? ==>
              var m, c := Decode(env, id, row).value, row.columns;
              && m.id == id && m.name == row.name && m.sortOrder == row.sortOrder
              && row.agentType == Some(m.agentType) && row.source == Some(m.source) && m.backend == row.backend
              && m.enabled == row.enabled && m.command == row.command && m.bridge == row.bridge
                  && m.binary == row.binary
              && Reads(m.handshake.capabilities, c.capabilities) && Reads(m.handshake.authMethods, c.authMethods)
              && Reads(m.handshake.configOptions, c.configOptions) && Reads(m.handshake.modes, c.modes)
              && Reads(m.handshake.models, c.models) && Reads(m.handshake.commands, c.commands)
              && (m.available <==> Usable(env, m)) && m.resolved == SpawnPath(env, m)
  {
    if Decode(env, id, row).Some? {
      DecodedIsProbed(env, id, row);
      AvailableIff(env, Decode(env, id, row).value);
    }
  }

  ghost predicate Reads<T(!new)>(v: Option<T>, column: Option<Column<T>>) {
    forall x :: v == Some(x) <==> column == Some(Encoded(x))
  }

  lemma DecodedIsProbed(env: Env, id: Id, row: Row)
    ensures Decode(env, id, row).Some? ==> Probed(env, Decode(env, id, row).value) == Decode(env, id, row).value
  {
    if Decode(env, id, row).Some? {
      var c := row.columns;
      ProbedTwice(env, Meta(
        id, row.name, row.sortOrder, row.agentType.value, row.source.value, row.backend, row.enabled, false,
        row.command, None, row.bridge, row.binary,
        Handshake(Parse(c.capabilities), Parse(c.authMethods), Parse(c.configOptions), Parse(c.modes),
                  Parse(c.models), Parse(c.commands))));
    }
  }

  /** Refreshing a freshly loaded cache changes nothing while PATH stays the same. */
  lemma RefreshAfterLoadIsNoop(env: Env, db: map<Id, Row>)
    ensures ProbeAll(env, DecodeAll(env, db)) == DecodeAll(env, db)
    ensures forall id :: id in DecodeAll(env, db) ==> Sound(env, DecodeAll(env, db)[id])
  {
    forall id | id in DecodeAll(env, db)
      ensures Sound(env, DecodeAll(env, db)[id])
    {
      var row := db[id];
      var c := row.columns;
      ProbedIsSound(env, Meta(
        id, row.name, row.sortOrder, row.agentType.value, row.source.value, row.backend, row.enabled, false,
        row.command,
        None, row.bridge, row.binary,
        Handshake(Parse(c.capabilities), Parse(c.authMethods), Parse(c.configOptions), Parse(c.modes), Parse(c.models),
            Parse(c.commands))));
    }
  }

  /**
   A resolved path is not what availability means: the two differ exactly on enabled internal
   rows without a command.
   */
  lemma AvailableWithoutPathIff(env: Env, m: Meta)
    requires Sound(env, m)
    ensures m.available && m.resolved.None? <==> m.enabled && m.command.None? && m.source == Internal
    ensures m.resolved.Some? ==> m.available
  {
  }

  // ---------------------------------------------------------------------------------------
  // Applying a handshake
  // ---------------------------------------------------------------------------------------

  function AsOptions(v: Option<ConfigValue>): Option<seq<ConfigOption>> {
    if v.Some? && v.value.Options? then Some(v.value.options) else None
  }

  /** Merge the incoming options into `existing`, then derive modes and models from the result. */
  function Prepare(env: Env, existing: Option<ConfigValue>, h: Handshake): Handshake {
    var incoming := AsOptions(h.configOptions);
    if incoming.None? then h
    else
      var merged := Merge(AsOptions(existing), incoming.value);
      h.(configOptions := Some(Options(merged)),
         modes := Or(env.deriveModes(merged), h.modes),
         models := Or(env.deriveModels(merged), h.models))
  }

  function Overwrite<T>(incoming: Option<T>, column: Option<Column<T>>): Option<Column<T>> {
    if incoming.Some? then Some(Encoded(incoming.value)) else column
  }

  /** `apply_handshake` on the row: absent fields keep their column. */
  function ApplyToRow(row: Row, h: Handshake): Row {
    var c := row.columns;
    row.(columns := Columns(
      Overwrite(h.capabilities, c.capabilities), Overwrite(h.authMethods, c.authMethods),
      Overwrite(h.configOptions, c.configOptions), Overwrite(h.modes, c.modes),
      Overwrite(h.models, c.models), Overwrite(h.commands, c.commands)))
  }

  /** The other columns of a row after a handshake: what it brought, and otherwise what was there. */
  lemma AppliedFields(env: Env, row: Row, existing: Option<ConfigValue>, h: Handshake)
    ensures var p := Prepare(env, existing, h);
            var t := ApplyToRow(row, p);
            && t == row.(columns := t.columns)
            && Brings(t.columns.capabilities, h.capabilities, row.columns.capabilities)
            && Brings(t.columns.authMethods, h.authMethods, row.columns.authMethods)
            && Brings(t.columns.commands, h.commands, row.columns.commands)
  {
  }

  predicate Brings<T(==)>(after: Option<Column<T>>, incoming: Option<T>, before: Option<Column<T>>) {
    match incoming
    case Some(v) => after == Some(Encoded(v))
    case None => after == before
  }

  /**
   Modes and models follow the options: whenever an update brings options, what can be derived from the list
   then stored in the row is stored beside it, and otherwise what the update itself says.
   */
  lemma CatalogFollowsOptions(env: Env, row: Row, existing: Option<ConfigValue>, h: Handshake)
    ensures var c, t := row.columns, ApplyToRow(row, Prepare(env, existing, h)).columns;
            match h.configOptions
            case Some(Options(_)) =>
              && t.configOptions.Some? && t.configOptions.value.Encoded? && t.configOptions.value.value.Options?
              && var stored := t.configOptions.value.value.options;
                 && Brings(t.modes, if env.deriveModes(stored).Some? then env.deriveModes(stored) else h.modes, c.modes)
                 && Brings(t.models, if env.deriveModels(stored).Some? then env.deriveModels(stored)
                     else h.models, c.models)
            case Some(Opaque(text)) =>
              t.configOptions == Some(Encoded(Opaque(text))) && Brings(t.modes, h.modes, c.modes)
                  && Brings(t.models, h.models, c.models)
            case None =>
              t.configOptions == c.configOptions && Brings(t.modes, h.modes, c.modes)
                  && Brings(t.models, h.models, c.models)
  {
  }

  /** Writing a row leaves it as decodable as it was; the decoded table changes with it. */
  lemma DecodeAllAfter(env: Env, db: map<Id, Row>, id: Id, h: Handshake)
    requires id in db
    ensures var row := ApplyToRow(db[id], h);
            var meta := Decode(env, id, row);
            DecodeAll(env, db[id := row]) == if meta.Some? then DecodeAll(env, db)[id := meta.value]
                else DecodeAll(env, db)
  {
  }

  /** The options the cache offers to merge against. */
  function CachedOptions(cache: map<Id, Meta>, id: Id): Option<ConfigValue> {
    if id in cache then cache[id].handshake.configOptions else None
  }

  /** The options stored in the database, for a row that decodes. */
  function StoredOptions(env: Env, db: map<Id, Row>, id: Id): Option<ConfigValue> {
    if id in db && Decode(env, id, db[id]).Some? then Parse(db[id].columns.configOptions) else None
  }

  // ---------------------------------------------------------------------------------------
  // Listing
  // ---------------------------------------------------------------------------------------

  predicate Visible(m: Meta) {
    m.enabled && m.available
  }

  predicate TextLe(a: string, b: string) {
    a == [] || (b != [] && (a[0] < b[0] || (a[0] == b[0] && TextLe(a[1..], b[1..]))))
  }

  /** `sort_order`, then name. */
  predicate Before(a: Meta, b: Meta) {
    a.sortOrder < b.sortOrder || (a.sortOrder == b.sortOrder && TextLe(a.name, b.name))
  }

  lemma {:induction false} TextLeTotal(a: string, b: string)
    ensures TextLe(a, b) || TextLe(b, a)
  {
    if a != [] && b != [] { TextLeTotal(a[1..], b[1..]); }
  }

  lemma {:induction false} TextLeTransitive(a: string, b: string, c: string)
    requires TextLe(a, b) && TextLe(b, c)
    ensures TextLe(a, c)
  {
    if a != [] && b[0] == a[0] && c[0] == b[0] { TextLeTransitive(a[1..], b[1..], c[1..]); }
  }

  lemma BeforeIsAnOrder(a: Meta, b: Meta, c: Meta)
    ensures Before(a, b) || Before(b, a)
    ensures Before(a, b) && Before(b, c) ==> Before(a, c)
  {
    TextLeTotal(a.name, b.name);
    if TextLe(a.name, b.name) && TextLe(b.name, c.name) { TextLeTransitive(a.name, b.name, c.name); }
  }

  ghost predicate SortedRows(rows: seq<Meta>) {
    forall i, j :: 0 <= i < j < |rows| ==>
      rows[i].sortOrder < rows[j].sortOrder ||
      (rows[i].sortOrder == rows[j].sortOrder && TextLe(rows[i].name, rows[j].name))
  }
}
