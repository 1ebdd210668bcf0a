/** The backend's registry service (`MCPAgentService`) over its two SQLite
    tables: `mcp_agents`, one row per agent, and `agent_files`, one row per
    creation batch holding the comma-separated ids of the agents created in
    it. A table is the sequence of its rows in rowid order: SQLite gives a
    new row the largest rowid plus one (1 in an empty table), and a query
    without `ORDER BY` returns rows in rowid order, which is the order
    `.first()`, `offset` and `limit` are read on. The configuration files
    the service writes are returned as values instead of being written. */
module Registry {
  import opened Base
  import opened Text
  import Records

  /** One agent of a create request (`MCPAgentBase`, defaults applied). */
  datatype AgentIn = AgentIn(
    name: string,
    agentType: string,
    command: string,
    args: seq<string>,
    env: map<string, string>,
    isActive: bool)

  /** One row of `mcp_agents`; the timestamps are left out. */
  datatype AgentRow = AgentRow(
    id: nat,
    name: string,
    agentType: string,
    command: string,
    args: seq<string>,
    env: map<string, string>,
    isActive: bool)

  /** One row of `agent_files`: the batch file name and its id list. */
  datatype FileRow = FileRow(id: nat, name: string, mcpAgents: string)

  /** One entry under `mcpServers` in a written configuration. */
  datatype ServerConfig = ServerConfig(command: string, args: seq<string>, env: map<string, string>)

  /** The exceptions the service lets escape, by cause. */
  datatype Fault =
    | NameExists(name: string)          // ValueError: an agent of that name exists
    | FileNameExists(fileName: string)  // IntegrityError on `agent_files.name`
    | MissingAttribute(attr: string)    // AttributeError while writing a config
    | NotAnInteger(piece: string)       // ValueError from `int()` on an id piece

  function RowOf(id: nat, a: AgentIn): AgentRow {
    AgentRow(id, a.name, a.agentType, a.command, a.args, a.env, a.isActive)
  }

  function ConfigOf(row: AgentRow): ServerConfig {
    ServerConfig(row.command, row.args, row.env)
  }

  /** Two agent rows in table order: rowids increase and names are unique. */
  predicate AgentBefore(a: AgentRow, b: AgentRow) {
    a.id < b.id && a.name != b.name
  }

  /** Two file rows in table order: rowids increase and names are unique. */
  predicate FileBefore(a: FileRow, b: FileRow) {
    a.id < b.id && a.name != b.name
  }

  /** The rowid SQLite gives the next agent row: the largest plus one. */
  function NextAgentId(rows: seq<AgentRow>): (n: nat)
    ensures Pairwise(rows, AgentBefore) ==> forall i :: 0 <= i < |rows| ==> rows[i].id < n
    ensures rows == [] ==> n == 1
    ensures rows != [] ==> exists i :: 0 <= i < |rows| && rows[i].id + 1 == n
  {
    if rows == [] then 1 else rows[|rows| - 1].id + 1
  }

  /** The rowid SQLite gives the next file row: the largest plus one. */
  function NextFileId(rows: seq<FileRow>): (n: nat)
    ensures Pairwise(rows, FileBefore) ==> forall i :: 0 <= i < |rows| ==> rows[i].id < n
    ensures rows == [] ==> n == 1
    ensures rows != [] ==> exists i :: 0 <= i < |rows| && rows[i].id + 1 == n
  {
    if rows == [] then 1 else rows[|rows| - 1].id + 1
  }

  // ---------------------------------------------------------------------
  // Creating a batch
  // ---------------------------------------------------------------------

  /** Some agent row has this name. */
  predicate NameTaken(rows: seq<AgentRow>, name: string) {
    exists i :: 0 <= i < |rows| && rows[i].name == name
  }

  /** Some file row has this name. */
  predicate FileNameTaken(rows: seq<FileRow>, name: string) {
    exists i :: 0 <= i < |rows| && rows[i].name == name
  }

  /** The `j`-th agent of a batch is refused: its name is in the table, or an
      earlier agent of the same batch, committed by then, has it. */
  predicate Clashes(rows: seq<AgentRow>, batch: seq<AgentIn>, j: nat)
    requires j < |batch|
  {
    NameTaken(rows, batch[j].name) || exists m :: 0 <= m < j && batch[m].name == batch[j].name
  }

  /** The first refused agent at or after position `j`. */
  function ClashFrom(rows: seq<AgentRow>, batch: seq<AgentIn>, j: nat): (r: Option<nat>)
    requires j <= |batch|
    ensures r.None? <==> forall m :: j <= m < |batch| ==> !Clashes(rows, batch, m)
    ensures r.Some? ==> j <= r.value < |batch| && Clashes(rows, batch, r.value)
    ensures r.Some? ==> forall m :: j <= m < r.value ==> !Clashes(rows, batch, m)
    decreases |batch| - j
  {
    if j == |batch| then None
    else if Clashes(rows, batch, j) then Some(j)
    else ClashFrom(rows, batch, j + 1)
  }

  /** The position of the first refused agent of a batch, if any. */
  function FirstClash(rows: seq<AgentRow>, batch: seq<AgentIn>): Option<nat>
  {
    ClashFrom(rows, batch, 0)
  }

  function BatchNames(batch: seq<AgentIn>): seq<string> {
    seq(|batch|, i requires 0 <= i < |batch| => batch[i].name)
  }

  /** A batch goes through exactly when its names are pairwise different and
      none is in the table yet. */
  lemma CreateAcceptedIff(rows: seq<AgentRow>, batch: seq<AgentIn>)
    ensures FirstClash(rows, batch).None? <==>
      Distinct(BatchNames(batch)) && forall j :: 0 <= j < |batch| ==> !NameTaken(rows, batch[j].name)
  {
    var names := BatchNames(batch);
    if FirstClash(rows, batch).None? {
      forall i, j | 0 <= i < j < |names| ensures names[i] != names[j] {
        assert !Clashes(rows, batch, j);
      }
      forall j | 0 <= j < |batch| ensures !NameTaken(rows, batch[j].name) {
        assert !Clashes(rows, batch, j);
      }
    }
    if Distinct(names) && forall j :: 0 <= j < |batch| ==> !NameTaken(rows, batch[j].name) {
      forall j | 0 <= j < |batch| ensures !Clashes(rows, batch, j) {
        forall m | 0 <= m < j ensures batch[m].name != batch[j].name {
          assert names[m] != names[j];
        }
      }
    }
  }

  /** The rows a batch becomes when its rows start at rowid `base`. */
  function RowsFrom(base: nat, batch: seq<AgentIn>): (rows: seq<AgentRow>)
    ensures |rows| == |batch|
  {
    seq(|batch|, j requires 0 <= j < |batch| => RowOf(base + j, batch[j]))
  }

  /** The rowids of some rows. */
  function Ids(rows: seq<AgentRow>): seq<nat> {
    seq(|rows|, i requires 0 <= i < |rows| => rows[i].id)
  }

  /** `[str(agent.id) for agent in created_agents]`. */
  function IdTexts(rows: seq<AgentRow>): seq<string> {
    seq(|rows|, i requires 0 <= i < |rows| => Decimal(rows[i].id))
  }

  /** `",".join(...)` of the rowids: the stored `mcp_agents` column. */
  function IdList(rows: seq<AgentRow>): string {
    Join(IdTexts(rows), ",")
  }

  /** `all_agents_config["mcpServers"]` after the rows were added in order
      (a later entry for a name replaces an earlier one). */
  function BatchConfig(rows: seq<AgentRow>): map<string, ServerConfig> {
    if rows == [] then map[]
    else BatchConfig(rows[..|rows| - 1])[rows[|rows| - 1].name := ConfigOf(rows[|rows| - 1])]
  }

  /** The configuration written for a batch has one entry per created agent,
      keyed by its name, and nothing else. */
  lemma {:induction false} BatchConfigContents(rows: seq<AgentRow>)
    requires Pairwise(rows, AgentBefore)
    ensures forall i :: 0 <= i < |rows| ==>
      rows[i].name in BatchConfig(rows) && BatchConfig(rows)[rows[i].name] == ConfigOf(rows[i])
    ensures forall k :: k in BatchConfig(rows) ==> NameTaken(rows, k)
  {
    if rows != [] {
      var init := rows[..|rows| - 1];
      assert Pairwise(init, AgentBefore) by {
        forall i, j | 0 <= i < j < |init| ensures AgentBefore(init[i], init[j]) {
          assert init[i] == rows[i] && init[j] == rows[j];
        }
      }
      BatchConfigContents(init);
      forall k | k in BatchConfig(rows) ensures NameTaken(rows, k) {
        if k != rows[|rows| - 1].name {
          var i :| 0 <= i < |init| && init[i].name == k;
          assert rows[i] == init[i];
        }
      }
      forall i | 0 <= i < |rows| - 1
        ensures rows[i].name in BatchConfig(rows) && BatchConfig(rows)[rows[i].name] == ConfigOf(rows[i])
      {
        assert init[i] == rows[i];
        assert AgentBefore(rows[i], rows[|rows| - 1]);
      }
    }
  }

  /** `mcp_agents_{timestamp}.json`; the timestamp is an input of the model. */
  function BatchFileName(timestamp: string): string {
    "mcp_agents_" + timestamp + ".json"
  }

  /** The console labels a batch's group by the last four digits of its
      timestamp, which for `%Y%m%d_%H%M%S` are the minutes and seconds. */
  lemma BatchFileLabel(timestamp: string)
    requires |timestamp| >= 4
    requires forall i :: |timestamp| - 4 <= i < |timestamp| ==> IsDigit(timestamp[i])
    ensures Records.GroupedLabel(BatchFileName(timestamp))
      == Records.GroupedPrefix + timestamp[|timestamp| - 4..]
  {
    var stem := "mcp_agents_" + timestamp[..|timestamp| - 4];
    var digits := timestamp[|timestamp| - 4..];
    assert forall i :: 0 <= i < 4 ==> IsDigit(digits[i]) by {
      forall i | 0 <= i < 4 ensures IsDigit(digits[i]) {
        assert digits[i] == timestamp[|timestamp| - 4 + i];
      }
    }
    assert timestamp == timestamp[..|timestamp| - 4] + digits;
    assert BatchFileName(timestamp) == stem + digits + Records.JsonExtension;
    Records.GroupedLabelDigits(stem, digits);
  }

  /** The name of the `j`-th batch agent is in the table extended by the
      batch's rows before it exactly when that agent is refused. */
  lemma ClashIsTaken(rows: seq<AgentRow>, base: nat, batch: seq<AgentIn>, j: nat)
    requires j < |batch|
    ensures NameTaken(rows + RowsFrom(base, batch[..j]), batch[j].name) <==> Clashes(rows, batch, j)
  {
    var made := RowsFrom(base, batch[..j]);
    var all := rows + made;
    var name := batch[j].name;
    if NameTaken(all, name) {
      var i :| 0 <= i < |all| && all[i].name == name;
      if i >= |rows| {
        assert all[i] == made[i - |rows|];
        assert batch[i - |rows|].name == name;
      } else {
        assert all[i] == rows[i];
      }
    }
    if NameTaken(rows, name) {
      var i :| 0 <= i < |rows| && rows[i].name == name;
      assert all[i] == rows[i];
    }
    if exists m :: 0 <= m < j && batch[m].name == name {
      var m :| 0 <= m < j && batch[m].name == name;
      assert all[|rows| + m] == made[m];
    }
  }

  /** One accepted agent of a batch: its row extends the created rows, gets
      the next rowid and keeps the table in order. */
  lemma CreateStep(before: seq<AgentRow>, base: nat, batch: seq<AgentIn>, j: nat)
    requires j < |batch|
    requires NextAgentId(before + RowsFrom(base, batch[..j])) == base + j
    requires Pairwise(before + RowsFrom(base, batch[..j]), AgentBefore)
    requires !NameTaken(before + RowsFrom(base, batch[..j]), batch[j].name)
    ensures var created := RowsFrom(base, batch[..j]);
            var row := RowOf(base + j, batch[j]);
            RowsFrom(base, batch[..j + 1]) == created + [row]
            && before + created + [row] == before + (created + [row])
            && NextAgentId(before + created + [row]) == base + j + 1
            && Pairwise(before + created + [row], AgentBefore)
            && BatchConfig(created + [row]) == BatchConfig(created)[row.name := ConfigOf(row)]
  {
    var created := RowsFrom(base, batch[..j]);
    var agents := before + created;
    var row := RowOf(base + j, batch[j]);
    assert RowsFrom(base, batch[..j + 1]) == created + [row];
    assert (created + [row])[..|created|] == created;
    forall i | 0 <= i < |agents| ensures AgentBefore(agents[i], row) {
      assert agents[i].name != batch[j].name;
    }
    PairwiseSnoc(agents, row, AgentBefore);
  }

  // ---------------------------------------------------------------------
  // Listing
  // ---------------------------------------------------------------------

  /** `offset(skip).limit(limit)` as SQLite applies it: a negative offset is
      no offset and a negative limit is no limit. */
  function Window<T>(rows: seq<T>, skip: int, limit: int): (w: seq<T>)
    ensures |w| <= |rows|
    ensures limit >= 0 ==> |w| <= limit
  {
    var start := if skip <= 0 then 0 else if skip < |rows| then skip else |rows|;
    var rest := rows[start..];
    if 0 <= limit < |rest| then rest[..limit] else rest
  }

  /** Two consecutive pages are the page of twice the size: paging neither
      skips nor repeats a row. */
  lemma WindowPages<T>(rows: seq<T>, skip: nat, limit: nat)
    ensures Window(rows, skip, limit) + Window(rows, skip + limit, limit) == Window(rows, skip, 2 * limit)
  {
    if skip + 2 * limit <= |rows| {
      assert rows[skip..][..2 * limit] == rows[skip..][..limit] + rows[skip + limit..][..limit];
    } else if skip + limit <= |rows| {
      assert rows[skip..] == rows[skip..][..limit] + rows[skip + limit..];
    }
  }

  /** A negative limit and no offset list the whole table. */
  lemma WindowUnlimited<T>(rows: seq<T>, limit: int)
    requires limit < 0
    ensures Window(rows, 0, limit) == rows
  {
  }

  /** An agent row with the batch file found for it (`file_id` 0 for none). */
  datatype Listed = Listed(row: AgentRow, fileName: Option<string>, fileId: nat)

  /** The index of the first file row at or after `k` whose id list contains
      `needle` as a substring (`mcp_agents LIKE '%needle%'`, `.first()`). */
  function FirstLikeFrom(files: seq<FileRow>, needle: string, k: nat): (r: Option<nat>)
    requires k <= |files|
    ensures r.Some? ==> k <= r.value < |files| && Contains(files[r.value].mcpAgents, needle)
    ensures r.Some? ==> forall m :: k <= m < r.value ==> !Contains(files[m].mcpAgents, needle)
    ensures r.None? <==> forall m :: k <= m < |files| ==> !Contains(files[m].mcpAgents, needle)
    decreases |files| - k
  {
    if k == |files| then None
    else if Contains(files[k].mcpAgents, needle) then Some(k)
    else FirstLikeFrom(files, needle, k + 1)
  }

  function FirstLike(files: seq<FileRow>, needle: string): Option<nat> {
    FirstLikeFrom(files, needle, 0)
  }

  /** The file name and id `get_agents` attaches to one agent row. */
  function Annotate(files: seq<FileRow>, row: AgentRow): Listed {
    match FirstLike(files, Decimal(row.id))
    case Some(k) => Listed(row, Some(files[k].name), files[k].id)
    case None => Listed(row, None, 0)
  }

  /** What `get_agents(skip, limit)` returns. */
  function Listing(agents: seq<AgentRow>, files: seq<FileRow>, skip: int, limit: int): seq<Listed> {
    var w := Window(agents, skip, limit);
    seq(|w|, i requires 0 <= i < |w| => Annotate(files, w[i]))
  }

  /** An agent whose id is in some file's list is never listed without a
      file, and the file it is listed with is that one or an earlier one. */
  lemma ListedWithItsBatch(files: seq<FileRow>, rows: seq<AgentRow>, k: nat, i: nat)
    requires k < |files| && files[k].mcpAgents == IdList(rows)
    requires i < |rows|
    ensures FirstLike(files, Decimal(rows[i].id)).Some?
    ensures FirstLike(files, Decimal(rows[i].id)).value <= k
    ensures Pairwise(files, FileBefore) ==> Annotate(files, rows[i]).fileId <= files[k].id
  {
    JoinContainsPart(IdTexts(rows), ",", i);
  }

  /** The substring match attaches agent 1 to the earlier batch of agents 10
      and 11 although the later batch lists agent 1 itself. */
  lemma ListedWithWrongBatch()
    ensures var row := AgentRow(1, "a", "slack", "npx", [], map[], true);
            var files := [FileRow(1, "mcp_agents_first.json", "10,11"), FileRow(2, "mcp_agents_second.json", "1")];
            Annotate(files, row) == Listed(row, Some("mcp_agents_first.json"), 1)
  {
    var files := [FileRow(1, "mcp_agents_first.json", "10,11"), FileRow(2, "mcp_agents_second.json", "1")];
    assert Decimal(1) == "1";
    assert OccursAt("10,11", "1", 0);
    assert FirstLike(files, "1") == Some(0);
  }

  // ---------------------------------------------------------------------
  // Updating
  // ---------------------------------------------------------------------

  /** A value `setattr` can receive. */
  datatype Value = Text(text: string) | Texts(items: seq<string>) | Vars(vars: map<string, string>) | Flag(flag: bool)

  /** `MCPAgentUpdate`: every field optional, absent when not supplied. */
  datatype AgentUpdate = AgentUpdate(
    name: Option<string>,
    agentType: Option<string>,
    command: Option<string>,
    args: Option<seq<string>>,
    env: Option<map<string, string>>,
    isActive: Option<bool>)

  /** The item for one field, when it was supplied. */
  function Part(key: string, v: Option<Value>): seq<(string, Value)> {
    if v.Some? then [(key, v.value)] else []
  }

  function TextOf(v: Option<string>): Option<Value> {
    if v.Some? then Some(Text(v.value)) else None
  }

  /** `agent.dict(exclude_unset=True).items()`: the supplied fields in
      declaration order. */
  function UpdateItems(u: AgentUpdate): seq<(string, Value)> {
    Part("name", TextOf(u.name))
    + Part("agent_type", TextOf(u.agentType))
    + Part("command", TextOf(u.command))
    + Part("args", if u.args.Some? then Some(Texts(u.args.value)) else None)
    + Part("env", if u.env.Some? then Some(Vars(u.env.value)) else None)
    + Part("is_active", if u.isActive.Some? then Some(Flag(u.isActive.value)) else None)
  }

  /** The object `update_agent` works on: an `agent_files` row (what
      `get_agent` loads) and the plain attributes `setattr` put on it. */
  datatype Loaded = Loaded(file: FileRow, extra: map<string, Value>)

  /** `setattr(db_agent, field, value)`: `name` is the row's mapped column;
      any other field becomes a plain attribute that is never stored. */
  function SetAttr(o: Loaded, item: (string, Value)): Loaded {
    if item.0 == "name" && item.1.Text? then o.(file := o.file.(name := item.1.text))
    else o.(extra := o.extra[item.0 := item.1])
  }

  /** The attributes after `setattr` of the items in order. */
  function ApplyItems(o: Loaded, items: seq<(string, Value)>): (r: Loaded)
    ensures r.file.id == o.file.id && r.file.mcpAgents == o.file.mcpAgents
  {
    if items == [] then o else SetAttr(ApplyItems(o, items[..|items| - 1]), items[|items| - 1])
  }

  lemma {:induction false} ApplyAppend(o: Loaded, a: seq<(string, Value)>, b: seq<(string, Value)>)
    ensures ApplyItems(o, a + b) == ApplyItems(ApplyItems(o, a), b)
  {
    if b != [] {
      assert (a + b)[..|a + b| - 1] == a + b[..|b| - 1];
      ApplyAppend(o, a, b[..|b| - 1]);
    } else {
      assert a + b == a;
    }
  }

  lemma ApplyPart(o: Loaded, key: string, v: Option<Value>)
    ensures ApplyItems(o, Part(key, v)) == if v.Some? then SetAttr(o, (key, v.value)) else o
  {
    if v.Some? {
      assert Part(key, v)[..0] == [];
    }
  }

  /** The loaded row after applying an update to a freshly loaded file row. */
  function Applied(f: FileRow, u: AgentUpdate): Loaded {
    ApplyItems(Loaded(f, map[]), UpdateItems(u))
  }

  /** Adds `key` with value `v` when `v` is present. */
  function MaybeSet(m: map<string, Value>, key: string, v: Option<Value>): map<string, Value> {
    if v.Some? then m[key := v.value] else m
  }

  /** The plain attributes an update leaves on the loaded row. */
  function Extras(u: AgentUpdate): map<string, Value> {
    var m1 := MaybeSet(map[], "agent_type", TextOf(u.agentType));
    var m2 := MaybeSet(m1, "command", TextOf(u.command));
    var m3 := MaybeSet(m2, "args", if u.args.Some? then Some(Texts(u.args.value)) else None);
    var m4 := MaybeSet(m3, "env", if u.env.Some? then Some(Vars(u.env.value)) else None);
    MaybeSet(m4, "is_active", if u.isActive.Some? then Some(Flag(u.isActive.value)) else None)
  }

  /** Applying the item of a field other than `name` adds that attribute. */
  lemma ApplyExtraPart(o: Loaded, key: string, v: Option<Value>)
    requires key != "name"
    ensures ApplyItems(o, Part(key, v)) == o.(extra := MaybeSet(o.extra, key, v))
  {
    ApplyPart(o, key, v);
  }

  lemma AppliedIs(f: FileRow, u: AgentUpdate)
    ensures Applied(f, u) == Loaded(f.(name := if u.name.Some? then u.name.value else f.name), Extras(u))
  {
    var v3 := if u.args.Some? then Some(Texts(u.args.value)) else None;
    var v4 := if u.env.Some? then Some(Vars(u.env.value)) else None;
    var v5 := if u.isActive.Some? then Some(Flag(u.isActive.value)) else None;
    var p1 := Part("name", TextOf(u.name));
    var p2 := Part("agent_type", TextOf(u.agentType));
    var p3 := Part("command", TextOf(u.command));
    var p4 := Part("args", v3);
    var p5 := Part("env", v4);
    var p6 := Part("is_active", v5);
    var o0 := Loaded(f, map[]);
    ApplyAppend(o0, p1 + p2 + p3 + p4 + p5, p6);
    ApplyAppend(o0, p1 + p2 + p3 + p4, p5);
    ApplyAppend(o0, p1 + p2 + p3, p4);
    ApplyAppend(o0, p1 + p2, p3);
    ApplyAppend(o0, p1, p2);
    var o1 := ApplyItems(o0, p1);
    ApplyPart(o0, "name", TextOf(u.name));
    assert o1 == Loaded(f.(name := if u.name.Some? then u.name.value else f.name), map[]);
    ApplyExtraPart(o1, "agent_type", TextOf(u.agentType));
    var o2 := ApplyItems(o1, p2);
    ApplyExtraPart(o2, "command", TextOf(u.command));
    var o3 := ApplyItems(o2, p3);
    ApplyExtraPart(o3, "args", v3);
    var o4 := ApplyItems(o3, p4);
    ApplyExtraPart(o4, "env", v4);
    var o5 := ApplyItems(o4, p5);
    ApplyExtraPart(o5, "is_active", v5);
  }

  /** Exactly the supplied fields are set: `name` renames the file row, every
      other supplied field is an unstored attribute with the given value, and
      nothing else changes. */
  lemma UpdateSetsSupplied(f: FileRow, u: AgentUpdate)
    ensures Applied(f, u).file == f.(name := if u.name.Some? then u.name.value else f.name)
    ensures "name" !in Applied(f, u).extra
    ensures ("agent_type" in Applied(f, u).extra <==> u.agentType.Some?)
      && (u.agentType.Some? ==> Applied(f, u).extra["agent_type"] == Text(u.agentType.value))
    ensures ("command" in Applied(f, u).extra <==> u.command.Some?)
      && (u.command.Some? ==> Applied(f, u).extra["command"] == Text(u.command.value))
    ensures ("args" in Applied(f, u).extra <==> u.args.Some?)
      && (u.args.Some? ==> Applied(f, u).extra["args"] == Texts(u.args.value))
    ensures ("env" in Applied(f, u).extra <==> u.env.Some?)
      && (u.env.Some? ==> Applied(f, u).extra["env"] == Vars(u.env.value))
    ensures ("is_active" in Applied(f, u).extra <==> u.isActive.Some?)
      && (u.isActive.Some? ==> Applied(f, u).extra["is_active"] == Flag(u.isActive.value))
    ensures Applied(f, u).extra.Keys <= {"agent_type", "command", "args", "env", "is_active"}
  {
    AppliedIs(f, u);
  }

  /** The first attribute `_save_agent_config` reads that was not supplied:
      it reads `name` (always present), then `command`, `args` and `env`. */
  function MissingAttr(extra: map<string, Value>): (r: Option<string>)
    ensures r.None? <==> "command" in extra && "args" in extra && "env" in extra
  {
    if "command" !in extra then Some("command")
    else if "args" !in extra then Some("args")
    else if "env" !in extra then Some("env")
    else None
  }

  /** An update only gets past writing its configuration when it supplies
      `command`, `args` and `env`. */
  lemma UpdateWritesConfigIff(f: FileRow, u: AgentUpdate)
    ensures MissingAttr(Applied(f, u).extra).None? <==> u.command.Some? && u.args.Some? && u.env.Some?
  {
    UpdateSetsSupplied(f, u);
  }

  /** The index of the first file row with this rowid. */
  function FindFile(files: seq<FileRow>, id: int): (r: Option<nat>)
    ensures r.Some? ==> r.value < |files| && files[r.value].id == id
    ensures r.Some? ==> forall k :: 0 <= k < r.value ==> files[k].id != id
    ensures r.None? <==> forall k :: 0 <= k < |files| ==> files[k].id != id
  {
    if files == [] then None
    else if files[0].id == id then Some(0)
    else match FindFile(files[1..], id)
      case None => None
      case Some(k) => Some(k + 1)
  }

  /** Another file row than the `k`-th already has this name. */
  predicate OtherFileNamed(files: seq<FileRow>, k: nat, name: string) {
    exists i :: 0 <= i < |files| && i != k && files[i].name == name
  }

  // ---------------------------------------------------------------------
  // Deleting a batch
  // ---------------------------------------------------------------------

  /** `[int(piece) for piece in pieces]`: the numbers, or the first piece
      that is not one. */
  function ParsePieces(ps: seq<string>): (r: Result<seq<nat>, string>)
    ensures r.Success? ==> |r.value| == |ps| && forall i :: 0 <= i < |ps| ==> ParseNat(ps[i]) == Some(r.value[i])
    ensures r.Failure? ==> ParseNat(r.error).None? && r.error in ps
    ensures r.Failure? ==> exists i :: 0 <= i < |ps| && ps[i] == r.error && forall m :: 0 <= m < i ==> ParseNat(ps[m]).Some?
    ensures r.Failure? <==> exists i :: 0 <= i < |ps| && ParseNat(ps[i]).None?
  {
    if ps == [] then Success([])
    else match ParseNat(ps[0])
      case None => Failure(ps[0])
      case Some(n) =>
        match ParsePieces(ps[1..])
        case Failure(e) => Failure(e)
        case Success(ns) =>
          assert forall i :: 1 <= i < |ps| ==> ps[i] == ps[1..][i - 1];
          Success([n] + ns)
  }

  /** The agent ids a file row lists, read back from `mcp_agents`. */
  function ParseIds(s: string): Result<seq<nat>, string> {
    ParsePieces(Split(s, ','))
  }

  /** The id list stored for a non-empty batch reads back as its rowids. */
  lemma IdListRoundTrip(rows: seq<AgentRow>)
    requires rows != []
    ensures ParseIds(IdList(rows)) == Success(Ids(rows))
  {
    var parts := IdTexts(rows);
    forall i | 0 <= i < |parts| ensures ',' !in parts[i] {
      assert !IsDigit(',');
    }
    SplitJoin(parts, ',');
    assert Split(IdList(rows), ',') == parts;
    forall i | 0 <= i < |parts| ensures ParseNat(parts[i]) == Some(rows[i].id) {
      ParseDecimal(rows[i].id);
    }
    var r := ParsePieces(parts);
    assert r.Success?;
    forall i | 0 <= i < |rows| ensures r.value[i] == Ids(rows)[i] {
      assert ParseNat(parts[i]) == Some(r.value[i]);
    }
    assert r.value == Ids(rows);
  }

  /** An empty batch stores an empty id list, which does not read back: its
      file row cannot be deleted. */
  lemma EmptyIdListFails()
    ensures ParseIds(IdList([])) == Failure("")
  {
    assert IdTexts([]) == [];
    assert Split("", ',') == [""];
  }

  /** Keeps rows whose id is not among `ids`. */
  function IdNotIn(ids: seq<nat>): AgentRow -> bool {
    (a: AgentRow) => a.id !in ids
  }

  /** Keeps rows whose id is not `id`. */
  function IdIsNot(id: nat): AgentRow -> bool {
    (a: AgentRow) => a.id != id
  }

  /** Keeps file rows whose id is not `id`. */
  function FileIdIsNot(id: int): FileRow -> bool {
    (f: FileRow) => f.id != id
  }

  /** Deleting one more listed id is one more filter. */
  lemma DeleteStep(rows: seq<AgentRow>, ids: seq<nat>, k: nat)
    requires k < |ids|
    ensures Filter(Filter(rows, IdNotIn(ids[..k])), IdIsNot(ids[k])) == Filter(rows, IdNotIn(ids[..k + 1]))
  {
    TakeSnoc(ids, k);
    FilterTwice(rows, IdNotIn(ids[..k]), IdIsNot(ids[k]), IdNotIn(ids[..k + 1]));
  }

  /** Deleting the listed ids removes exactly the rows with those ids,
      skipping ids without a row, and keeps the order of the others. */
  lemma DeleteRemovesListed(rows: seq<AgentRow>, ids: seq<nat>, row: AgentRow)
    ensures row in Filter(rows, IdNotIn(ids)) <==> row in rows && row.id !in ids
  {
    FilterMembership(rows, IdNotIn(ids), row);
  }

  class Service {
    var agents: seq<AgentRow>
    var files: seq<FileRow>

    /** Both tables are in rowid order with unique names. */
    ghost predicate Valid()
      reads this
    {
      Pairwise(agents, AgentBefore) && Pairwise(files, FileBefore)
    }

    /** An empty database. */
    constructor ()
      ensures agents == [] && files == [] && Valid()
    {
      agents := [];
      files := [];
    }

    /** `get_agent(agent_id)`: the `agent_files` row with that id (the
        service looks the id up among files, not agents). */
    function GetAgent(id: int): (r: Option<FileRow>)
      reads this
      ensures r.Some? ==> r.value in files && r.value.id == id
      ensures r.None? <==> forall k :: 0 <= k < |files| ==> files[k].id != id
    {
      match FindFile(files, id)
      case Some(k) => Some(files[k])
      case None => None
    }

    /** `get_agent_file_for_agent(agent_file_id)`: that file row's name. */
    function GetAgentFileForAgent(id: int): (r: Option<string>)
      reads this
      ensures r.Some? <==> exists k :: 0 <= k < |files| && files[k].id == id
      ensures r.Some? ==> exists k :: 0 <= k < |files| && files[k].id == id && files[k].name == r.value
    {
      match FindFile(files, id)
      case Some(k) => Some(files[k].name)
      case None => None
    }

    /** The loop of `create_agents`: each agent is checked against the table
        and committed on its own, and its configuration added to the batch's;
        the first refused one stops the loop with the earlier ones kept. */
    method InsertBatch(batch: seq<AgentIn>)
      returns (created: seq<AgentRow>, servers: map<string, ServerConfig>, clash: Option<nat>)
      requires Pairwise(agents, AgentBefore)
      modifies this`agents
      ensures Pairwise(agents, AgentBefore)
      ensures clash == FirstClash(old(agents), batch)
      ensures created == RowsFrom(NextAgentId(old(agents)), batch[..if clash.Some? then clash.value else |batch|])
      ensures agents == old(agents) + created
      ensures servers == BatchConfig(created)
    {
      var base := NextAgentId(agents);
      ghost var before := agents;
      created := [];
      servers := map[];
      var j := 0;
      while j < |batch|
        invariant 0 <= j <= |batch|
        invariant created == RowsFrom(base, batch[..j])
        invariant agents == before + created
        invariant NextAgentId(agents) == base + j
        invariant servers == BatchConfig(created)
        invariant FirstClash(before, batch) == ClashFrom(before, batch, j)
        invariant Pairwise(agents, AgentBefore)
      {
        var a := batch[j];
        ClashIsTaken(before, base, batch, j);
        if exists i :: 0 <= i < |agents| && agents[i].name == a.name {
          clash := Some(j);
          return;
        }
        var row := RowOf(NextAgentId(agents), a);
        CreateStep(before, base, batch, j);
        assert row == RowOf(base + j, batch[j]);
        agents := agents + [row];
        created := created + [row];
        servers := servers[row.name := ConfigOf(row)];
        j := j + 1;
      }
      assert batch[..j] == batch;
      clash := None;
    }

    /** `create_agents(batch)`: the agents are inserted one by one (a refused
        name raises with the earlier ones kept); then the configuration is
        written and a file row listing the created ids is added, which raises
        when a file row of that name exists (the agents stay). */
    method CreateAgents(batch: seq<AgentIn>, timestamp: string)
      returns (r: Result<seq<AgentRow>, Fault>, config: Option<map<string, ServerConfig>>)
      requires Valid()
      modifies this
      ensures Valid()
      ensures var clash := FirstClash(old(agents), batch);
              var made := if clash.Some? then clash.value else |batch|;
              agents == old(agents) + RowsFrom(NextAgentId(old(agents)), batch[..made])
      ensures FirstClash(old(agents), batch).Some? ==>
                r == Failure(NameExists(batch[FirstClash(old(agents), batch).value].name))
                && config.None? && files == old(files)
      ensures FirstClash(old(agents), batch).None? ==>
                var created := RowsFrom(NextAgentId(old(agents)), batch);
                var fileName := BatchFileName(timestamp);
                config == Some(BatchConfig(created))
                && (FileNameTaken(old(files), fileName) ==>
                      r == Failure(FileNameExists(fileName)) && files == old(files))
                && (!FileNameTaken(old(files), fileName) ==>
                      r == Success(created)
                      && files == old(files) + [FileRow(NextFileId(old(files)), fileName, IdList(created))])
    {
      var created, servers, clash := InsertBatch(batch);
      if clash.Some? {
        r := Failure(NameExists(batch[clash.value].name));
        config := None;
        return;
      }
      assert batch[..|batch|] == batch;
      config := Some(servers);
      var fileName := BatchFileName(timestamp);
      if exists i :: 0 <= i < |files| && files[i].name == fileName {
        r := Failure(FileNameExists(fileName));
        return;
      }
      var file := FileRow(NextFileId(files), fileName, IdList(created));
      PairwiseSnoc(files, file, FileBefore);
      files := files + [file];
      r := Success(created);
    }

    /** `get_agents(skip, limit)`: the window of agent rows, each with the
        first file whose id list contains its id as text. */
    method GetAgents(skip: int, limit: int) returns (listed: seq<Listed>)
      ensures listed == Listing(agents, files, skip, limit)
    {
      var w := Window(agents, skip, limit);
      var fs := files;
      listed := [];
      var i := 0;
      while i < |w|
        invariant 0 <= i <= |w|
        invariant |listed| == i
        invariant forall m :: 0 <= m < i ==> listed[m] == Annotate(fs, w[m])
      {
        var needle := Decimal(w[i].id);
        var k := FirstLike(fs, needle);
        var entry := if k.Some? then Listed(w[i], Some(fs[k.value].name), fs[k.value].id)
                     else Listed(w[i], None, 0);
        listed := listed + [entry];
        i := i + 1;
      }
    }

    /** `for field, value in items: setattr(obj, field, value)`. */
    static method SetAll(o: Loaded, items: seq<(string, Value)>) returns (r: Loaded)
      ensures r == ApplyItems(o, items)
    {
      r := o;
      var i := 0;
      while i < |items|
        invariant 0 <= i <= |items|
        invariant r == ApplyItems(o, items[..i])
      {
        assert items[..i + 1][..i] == items[..i];
        r := SetAttr(r, items[i]);
        i := i + 1;
      }
      assert items[..i] == items;
    }

    /** `update_agent(agent_id, update)`: loads the file row with that id
        (none: nothing happens), applies the supplied fields, commits (a
        rename onto another file's name raises and changes nothing), and then
        writes the agent configuration, which raises after the commit unless
        `command`, `args` and `env` were supplied. */
    method UpdateAgent(agentId: int, u: AgentUpdate) returns (r: Result<Option<Loaded>, Fault>)
      requires Valid()
      modifies this
      ensures Valid()
      ensures agents == old(agents)
      ensures FindFile(old(files), agentId).None? ==> r == Success(None) && files == old(files)
      ensures FindFile(old(files), agentId).Some? ==>
                var k := FindFile(old(files), agentId).value;
                var obj := Applied(old(files)[k], u);
                (OtherFileNamed(old(files), k, obj.file.name) ==>
                   r == Failure(FileNameExists(obj.file.name)) && files == old(files))
                && (!OtherFileNamed(old(files), k, obj.file.name) ==>
                   files == old(files)[k := obj.file]
                   && (MissingAttr(obj.extra).Some? ==> r == Failure(MissingAttribute(MissingAttr(obj.extra).value)))
                   && (MissingAttr(obj.extra).None? ==> r == Success(Some(obj))))
    {
      var found := FindFile(files, agentId);
      if found.None? {
        return Success(None);
      }
      var k := found.value;
      var obj := SetAll(Loaded(files[k], map[]), UpdateItems(u));
      if exists m :: 0 <= m < |files| && m != k && files[m].name == obj.file.name {
        return Failure(FileNameExists(obj.file.name));
      }
      files := files[k := obj.file];
      var missing := MissingAttr(obj.extra);
      if missing.Some? {
        return Failure(MissingAttribute(missing.value));
      }
      r := Success(Some(obj));
    }

    /** The loop of `delete_agent_file`: for each listed id, the agent row
        with that id is deleted when there is one. */
    method DeleteListed(ids: seq<nat>)
      requires Pairwise(agents, AgentBefore)
      modifies this`agents
      ensures Pairwise(agents, AgentBefore)
      ensures agents == Filter(old(agents), IdNotIn(ids))
    {
      ghost var before := agents;
      FilterAll(before, IdNotIn([]));
      assert ids[..0] == [];
      var k := 0;
      while k < |ids|
        invariant 0 <= k <= |ids|
        invariant agents == Filter(before, IdNotIn(ids[..k]))
        invariant Pairwise(agents, AgentBefore)
      {
        var id := ids[k];
        DeleteStep(before, ids, k);
        if exists i :: 0 <= i < |agents| && agents[i].id == id {
          FilterPairwise(agents, IdIsNot(id), AgentBefore);
          agents := Filter(agents, IdIsNot(id));
        } else {
          FilterAll(agents, IdIsNot(id));
        }
        k := k + 1;
      }
      assert ids[..k] == ids;
    }

    /** `delete_agent_file(agent_file_id)`: `false` for an unknown id; an id
        list with a piece that is not a number raises before anything is
        deleted; otherwise every listed agent that exists is deleted, then the
        file row, and the answer is `true`. */
    method DeleteAgentFile(fileId: int) returns (r: Result<bool, Fault>)
      requires Valid()
      modifies this
      ensures Valid()
      ensures FindFile(old(files), fileId).None? ==>
                r == Success(false) && agents == old(agents) && files == old(files)
      ensures FindFile(old(files), fileId).Some? ==>
                var parsed := ParseIds(old(files)[FindFile(old(files), fileId).value].mcpAgents);
                (parsed.Failure? ==>
                   r == Failure(NotAnInteger(parsed.error)) && agents == old(agents) && files == old(files))
                && (parsed.Success? ==>
                   r == Success(true)
                   && agents == Filter(old(agents), IdNotIn(parsed.value))
                   && files == Filter(old(files), FileIdIsNot(fileId)))
    {
      var found := FindFile(files, fileId);
      if found.None? {
        return Success(false);
      }
      var parsed := ParseIds(files[found.value].mcpAgents);
      if parsed.Failure? {
        return Failure(NotAnInteger(parsed.error));
      }
      DeleteListed(parsed.value);
      FilterPairwise(files, FileIdIsNot(fileId), FileBefore);
      files := Filter(files, FileIdIsNot(fileId));
      r := Success(true);
    }
  }
}
