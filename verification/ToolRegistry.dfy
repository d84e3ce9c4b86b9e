/** The tool registry and the table behind it: declarations guarded by an optimistic lock, built-in
    tools seeded at start-up, and the registry that decides which tools may run. */
module ToolRegistry {
  datatype Spec = Spec(
    name: string, display: string, description: string, permission: string, schema: string, category: string)

  datatype Row = Row(spec: Spec, enabled: bool, version: nat)

  type Rows = map<string, Row>

  /** The two writes an administrator can make. */
  datatype Change =
    | Redefine(display: string, description: string, permission: string, schema: string)
    | Enable(on: bool)

  datatype Outcome = Written(row: Row) | NotFound | Conflict

  /** The entity after the write's assignments. */
  function Changed(row: Row, c: Change): Row {
    match c
    case Redefine(d, t, p, s) =>
      row.(spec := row.spec.(display := d, description := t, permission := p, schema := s), version := row.version + 1)
    case Enable(on) => row.(enabled := on, version := row.version + 1)
  }

  function Fresh(s: Spec): Row { Row(s, true, 0) }

  function Seeded(rows: Rows, specs: seq<Spec>): Rows {
    if specs == [] then rows
    else
      var r, s := Seeded(rows, specs[..|specs| - 1]), specs[|specs| - 1];
      if s.name in r then r else r[s.name := Fresh(s)]
  }

  function SpecsOf(rows: Rows): map<string, Spec> { map n | n in rows :: rows[n].spec }

  function EnabledIn(rows: Rows): set<string> { set n | n in rows && rows[n].enabled }

  /** Rows are stored under their own name. */
  ghost predicate Keyed(rows: Rows) { forall n | n in rows :: rows[n].spec.name == n }

  /** `list_all`: every row of the table once. */
  ghost predicate Lists(list: seq<Row>, rows: Rows) {
    && (forall r | r in list :: r.spec.name in rows && rows[r.spec.name] == r)
    && (forall n | n in rows :: rows[n] in list)
  }

  // ---- The table, one call at a time ----

  class Table {
    var rows: Rows

    constructor ()
      ensures rows == map[]
    {
      rows := map[];
    }

    method Create(spec: Spec) returns (ok: bool)
      modifies this
      ensures ok <==> spec.name !in old(rows)
      ensures rows == if ok then old(rows)[spec.name := Fresh(spec.(category := "ai_tool"))] else old(rows)
    {
      if spec.name in rows { return false; }
      rows := rows[spec.name := Row(spec.(category := "ai_tool"), true, 0)];
      ok := true;
    }

    /** `update` and `set_enabled`: both look the row up, compare the version, assign and count. */
    method Write(name: string, version: int, change: Change) returns (o: Outcome)
      modifies this
      ensures o == if name !in old(rows) then NotFound
                   else if old(rows)[name].version != version then Conflict
                   else Written(Changed(old(rows)[name], change))
      ensures rows == if o.Written? then old(rows)[name := o.row] else old(rows)
    {
      if name !in rows { return NotFound; }
      var entity := rows[name];
      if entity.version != version { return Conflict; }
      match change {
        case Redefine(d, t, p, s) =>
          entity := entity.(spec := entity.spec.(display := d, description := t, permission := p, schema := s));
        case Enable(on) =>
          entity := entity.(enabled := on);
      }
      entity := entity.(version := entity.version + 1);
      rows := rows[name := entity];
      o := Written(entity);
    }

    /** `seed_missing_builtin_tools`. */
    method SeedMissing(specs: seq<Spec>) returns (inserted: nat)
      modifies this
      ensures rows == Seeded(old(rows), specs)
      ensures inserted == |rows| - |old(rows)|
    {
      inserted := 0;
      for k := 0 to |specs|
        invariant rows == Seeded(old(rows), specs[..k]) && inserted == |rows| - |old(rows)|
      {
        assert specs[..k + 1][..k] == specs[..k];
        if specs[k].name !in rows {
          assert (rows[specs[k].name := Fresh(specs[k])]).Keys == rows.Keys + {specs[k].name};
          KeysCount(rows);
          KeysCount(rows[specs[k].name := Fresh(specs[k])]);
          rows := rows[specs[k].name := Row(specs[k], true, 0)];
          inserted := inserted + 1;
        }
      }
      assert specs[..|specs|] == specs;
    }
  }

  lemma KeysCount(rows: Rows)
    ensures |rows| == |rows.Keys|
  {
  }

  function Names(specs: seq<Spec>): set<string> { set s | s in specs :: s.name }

  lemma NamesMore(specs: seq<Spec>, s: Spec)
    ensures Names(specs + [s]) == Names(specs) + {s.name}
  {
  }

  lemma SeededMore(rows: Rows, specs: seq<Spec>, s: Spec)
    ensures var r := Seeded(rows, specs); Seeded(rows, specs + [s]) == if s.name in r then r else r[s.name := Fresh(s)]
  {
    assert (specs + [s])[..|specs|] == specs;
  }

  /** The row a seeded name gets, if it was not there. */
  ghost predicate IsSeed(specs: seq<Spec>, name: string, row: Row) {
    row.spec in specs && row == Fresh(row.spec) && row.spec.name == name
  }

  /** Seeding alters no row that is there, adds exactly the missing built-in tools, enabled and never
      written, and does nothing the second time. */
  lemma {:induction false} SeedingOnlyAdds(rows: Rows, specs: seq<Spec>)
    ensures Seeded(rows, specs).Keys == rows.Keys + Names(specs)
    ensures forall n | n in rows :: Seeded(rows, specs)[n] == rows[n]
    ensures forall n | n in Seeded(rows, specs) && n !in rows :: IsSeed(specs, n, Seeded(rows, specs)[n])
    ensures Keyed(rows) ==> Keyed(Seeded(rows, specs))
  {
    if specs != [] {
      var front, last := specs[..|specs| - 1], specs[|specs| - 1];
      assert specs == front + [last];
      SeedingOnlyAdds(rows, front);
      NamesMore(front, last);
      SeededMore(rows, front, last);
      hide Names, Seeded;
      assert forall n, r :: IsSeed(front, n, r) ==> IsSeed(specs, n, r);
    }
  }

  lemma {:induction false} SeedingTwice(rows: Rows, specs: seq<Spec>)
    requires forall s | s in specs :: s.name in rows
    ensures Seeded(rows, specs) == rows
  {
    if specs != [] { SeedingTwice(rows, specs[..|specs| - 1]); }
  }

  lemma SeedingIsIdempotent(rows: Rows, specs: seq<Spec>)
    ensures Seeded(Seeded(rows, specs), specs) == Seeded(rows, specs)
  {
    SeedingOnlyAdds(rows, specs);
    SeedingTwice(Seeded(rows, specs), specs);
  }

  // ---- The registry ----

  datatype Verdict = Allowed(spec: Spec) | UnknownTool | DisabledTool

  class Registry {
    var tools: map<string, Spec>
    var enabled: set<string>

    constructor ()
      ensures tools == map[] && enabled == {}
    {
      tools, enabled := map[], {};
    }

    method Register(spec: Spec) returns (ok: bool)
      modifies this`tools
      ensures ok <==> spec.name !in old(tools)
      ensures tools == if ok then old(tools)[spec.name := spec] else old(tools)
    {
      if spec.name in tools { return false; }
      tools := tools[spec.name := spec];
      ok := true;
    }

    /** The initial registration: it fails at the first repeated name, and otherwise enables all. */
    method Start(specs: seq<Spec>) returns (ok: bool)
      requires tools == map[]
      modifies this
      ensures ok <==> forall i, j | 0 <= i < j < |specs| :: specs[i].name != specs[j].name
      ensures ok ==> tools == SpecsOf(Seeded(map[], specs)) && enabled == EnabledIn(Seeded(map[], specs)) == tools.Keys
    {
      DistinctMeans(specs);
      StartsEmpty(specs);
      hide *;
      for k := 0 to |specs|
        invariant Distinct(specs[..k]) && tools == SpecsOf(Seeded(map[], specs[..k]))
      {
        RegisterNext(specs, k);
        ok := Register(specs[k]);
        if !ok { return; }
      }
      enabled := tools.Keys;
      ok := true;
    }

    /** Whatever rows the registry was loaded from: a tool without a row is unknown, one with a disabled
        row is refused, and any other is allowed with the declaration of its row. */
    method Validate(name: string, ghost rows: Rows) returns (v: Verdict)
      ensures tools == SpecsOf(rows) && enabled == EnabledIn(rows) ==>
                && (v == UnknownTool <==> name !in rows)
                && (v == DisabledTool <==> name in rows && !rows[name].enabled)
                && (v.Allowed? <==> name in rows && rows[name].enabled && v == Allowed(rows[name].spec))
      ensures v.Allowed? ==> name in tools && name in enabled && v.spec == tools[name]
      ensures v.UnknownTool? <==> name !in tools
      ensures v.DisabledTool? <==> name in tools && name !in enabled
    {
      if name !in tools { return UnknownTool; }
      if name !in enabled { return DisabledTool; }
      v := Allowed(tools[name]);
    }

    /** `reload_from_db`, given the rows of the table in any order. */
    method ReloadFromDb(list: seq<Row>, ghost rows: Rows)
      requires Lists(list, rows) && Keyed(rows)
      modifies this
      ensures tools == SpecsOf(rows) && enabled == EnabledIn(rows)
    {
      tools, enabled := map[], {};
      ReloadEnds(list, rows);
      for k := 0 to |list|
        invariant tools == ReloadedTools(list[..k]) && enabled == ReloadedEnabled(list[..k])
      {
        assert list[..k + 1][..k] == list[..k];
        tools := tools[list[k].spec.name := list[k].spec];
        if list[k].enabled { enabled := enabled + {list[k].spec.name}; }
      }
    }
  }

  function ReloadedTools(list: seq<Row>): map<string, Spec> {
    if list == [] then map[] else ReloadedTools(list[..|list| - 1])[list[|list| - 1].spec.name := list[|list| - 1].spec]
  }

  function ReloadedEnabled(list: seq<Row>): set<string> {
    if list == [] then {}
    else ReloadedEnabled(list[..|list| - 1]) + (if list[|list| - 1].enabled then {list[|list| - 1].spec.name} else {})
  }

  lemma {:induction false} ReloadedAt(list: seq<Row>, rows: Rows, n: string)
    requires Keyed(rows) && forall r | r in list :: r.spec.name in rows && rows[r.spec.name] == r
    ensures n in ReloadedTools(list) <==> n in rows && rows[n] in list
    ensures n in ReloadedTools(list) ==> ReloadedTools(list)[n] == rows[n].spec
    ensures n in ReloadedEnabled(list) <==> n in rows && rows[n] in list && rows[n].enabled
  {
    if list != [] {
      var front, last := list[..|list| - 1], list[|list| - 1];
      assert list == front + [last] && last in list;
      ReloadedAt(front, rows, n);
    }
  }

  lemma ReloadEnds(list: seq<Row>, rows: Rows)
    requires Lists(list, rows) && Keyed(rows)
    ensures list[..0] == [] && list[..|list|] == list
    ensures ReloadedTools(list) == SpecsOf(rows) && ReloadedEnabled(list) == EnabledIn(rows)
  {
    forall n { ReloadedAt(list, rows, n); }
  }

  ghost predicate Distinct(specs: seq<Spec>) {
    specs == [] || (Distinct(specs[..|specs| - 1]) && specs[|specs| - 1].name !in Names(specs[..|specs| - 1]))
  }

  lemma {:induction false} DistinctMeans(specs: seq<Spec>)
    ensures Distinct(specs) <==> forall i, j | 0 <= i < j < |specs| :: specs[i].name != specs[j].name
  {
    if specs != [] {
      var front, last := specs[..|specs| - 1], specs[|specs| - 1];
      DistinctMeans(front);
      assert last.name in Names(front) <==> exists i :: 0 <= i < |front| && front[i].name == last.name;
      assert specs == front + [last];
    }
  }

  lemma {:induction false} DistinctPrefix(specs: seq<Spec>, k: nat)
    requires k <= |specs| && Distinct(specs)
    ensures Distinct(specs[..k])
    decreases |specs|
  {
    if k < |specs| {
      DistinctPrefix(specs[..|specs| - 1], k);
      assert specs[..|specs| - 1][..k] == specs[..k];
    } else {
      assert specs[..k] == specs;
    }
  }

  lemma StartsEmpty(specs: seq<Spec>)
    ensures Distinct(specs[..0]) && SpecsOf(Seeded(map[], specs[..0])) == map[] && specs[..|specs|] == specs
    ensures EnabledIn(Seeded(map[], specs)) == SpecsOf(Seeded(map[], specs)).Keys
  {
    SeedingOnlyAdds(map[], specs);
  }

  lemma SpecsOfMore(rows: Rows, s: Spec)
    ensures SpecsOf(rows[s.name := Fresh(s)]) == SpecsOf(rows)[s.name := s] && SpecsOf(rows).Keys == rows.Keys
  {
  }

  lemma DistinctMore(specs: seq<Spec>, k: nat)
    requires k < |specs| && Distinct(specs[..k])
    ensures Distinct(specs[..k + 1]) <==> specs[k].name !in Names(specs[..k])
    ensures !Distinct(specs[..k + 1]) ==> !Distinct(specs)
    ensures specs[..k + 1] == specs[..k] + [specs[k]]
  {
    assert specs[..k + 1][..k] == specs[..k];
    if Distinct(specs) { DistinctPrefix(specs, k + 1); }
  }

  lemma RegisterNext(specs: seq<Spec>, k: nat)
    requires k < |specs| && Distinct(specs[..k])
    ensures var tools, s := SpecsOf(Seeded(map[], specs[..k])), specs[k];
            && (s.name in tools ==> !Distinct(specs))
            && (s.name !in tools ==>
                  Distinct(specs[..k + 1]) && SpecsOf(Seeded(map[], specs[..k + 1])) == tools[s.name := s])
  {
    SeedingOnlyAdds(map[], specs[..k]);
    DistinctMore(specs, k);
    SeededMore(map[], specs[..k], specs[k]);
    SpecsOfMore(Seeded(map[], specs[..k]), specs[k]);
    hide *;
  }

  // ---- Sessions that interleave ----

  /** A write between its read and its flush: the row it read, the change it makes, and how many
      writes of the row had been flushed when it read. */
  datatype Session = Session(name: string, read: Row, change: Change, seen: nat)

  /** The table and the registry; the open sessions; and what the run so far amounts to: the writes
      flushed for each tool, the tools with a stale flush, and the table as last loaded. */
  datatype World = World(rows: Rows, tools: map<string, Spec>, enabled: set<string>, sessions: map<nat, Session>,
                         writes: map<string, nat>, stale: set<string>, loaded: Rows)

  datatype Action =
    | Create(spec: Spec)
    | Open(id: nat, name: string, version: int, change: Change)
    | Flush(id: nat)
    | Write(name: string, version: int, change: Change)
    | Seed
    | Reload

  function Writes(w: World, name: string): nat { if name in w.writes then w.writes[name] else 0 }

  /** The flushed UPDATE names the columns in which the entity differs from the row that was read. */
  function Merged(current: Row, read: Row, wanted: Row): Row {
    var c, r, x := current.spec, read.spec, wanted.spec;
    Row(Spec(c.name,
             if x.display != r.display then x.display else c.display,
             if x.description != r.description then x.description else c.description,
             if x.permission != r.permission then x.permission else c.permission,
             if x.schema != r.schema then x.schema else c.schema,
             c.category),
        if wanted.enabled != read.enabled then wanted.enabled else current.enabled,
        if wanted.version != read.version then wanted.version else current.version)
  }

  function Opened(w: World, id: nat, name: string, version: int, change: Change): World {
    if id in w.sessions || name !in w.rows || w.rows[name].version != version then w
    else w.(sessions := w.sessions[id := Session(name, w.rows[name], change, Writes(w, name))])
  }

  function Flushed(w: World, id: nat): World {
    if id !in w.sessions || w.sessions[id].name !in w.rows then w
    else
      var s := w.sessions[id];
      w.(rows := w.rows[s.name := Merged(w.rows[s.name], s.read, Changed(s.read, s.change))],
         sessions := w.sessions - {id},
         writes := w.writes[s.name := Writes(w, s.name) + 1],
         stale := if s.seen == Writes(w, s.name) then w.stale else w.stale + {s.name})
  }

  function Step(builtin: seq<Spec>, w: World, a: Action): World {
    match a
    case Create(spec) =>
      if spec.name in w.rows then w else w.(rows := w.rows[spec.name := Fresh(spec.(category := "ai_tool"))])
    case Open(id, name, version, change) => Opened(w, id, name, version, change)
    case Flush(id) => Flushed(w, id)
    case Write(name, version, change) =>
      if name !in w.rows || w.rows[name].version != version then w
      else w.(rows := w.rows[name := Changed(w.rows[name], change)], writes := w.writes[name := Writes(w, name) + 1])
    case Seed => w.(rows := Seeded(w.rows, builtin))
    case Reload => w.(tools := SpecsOf(w.rows), enabled := EnabledIn(w.rows), loaded := w.rows)
  }

  function Start(builtin: seq<Spec>): World {
    var first := Seeded(map[], builtin);
    World(map[], SpecsOf(first), EnabledIn(first), map[], map[], {}, first)
  }

  function Run(builtin: seq<Spec>, run: seq<Action>): World {
    if run == [] then Start(builtin) else Step(builtin, Run(builtin, run[..|run| - 1]), run[|run| - 1])
  }

  /** A write done in one step is a session that nothing interrupts. */
  lemma WriteIsOpenThenFlush(builtin: seq<Spec>, w: World, id: nat, name: string, version: int, change: Change)
    requires id !in w.sessions
    ensures Step(builtin, w, Write(name, version, change)) == Flushed(Opened(w, id, name, version, change), id)
  {
    if name in w.rows && w.rows[name].version == version {
      var o := Opened(w, id, name, version, change);
      assert o.sessions - {id} == w.sessions;
    }
  }

  ghost predicate RowInv(w: World, name: string) {
    && (name in w.rows ==>
          w.rows[name].version <= Writes(w, name) && (w.rows[name].version == Writes(w, name) <==> name !in w.stale))
    && (name !in w.rows ==> Writes(w, name) == 0 && name !in w.stale)
  }

  ghost predicate SessionInv(w: World, s: Session) {
    && s.name in w.rows && s.read.version <= s.seen <= Writes(w, s.name)
    && (s.seen == Writes(w, s.name) ==> s.read == w.rows[s.name])
  }

  ghost predicate Inv(w: World) {
    && Keyed(w.rows) && Keyed(w.loaded)
    && (forall n :: RowInv(w, n))
    && (forall id | id in w.sessions :: SessionInv(w, w.sessions[id]))
    && w.tools == SpecsOf(w.loaded) && w.enabled == EnabledIn(w.loaded)
  }

  lemma FlushKeeps(w: World, id: nat)
    requires Inv(w)
    ensures Inv(Flushed(w, id))
  {
    if id in w.sessions {
      var v, s := Flushed(w, id), w.sessions[id];
      forall n ensures RowInv(v, n) { assert RowInv(w, n); }
      forall i | i in v.sessions ensures SessionInv(v, v.sessions[i]) { assert SessionInv(w, w.sessions[i]); }
    }
  }

  lemma OpenKeeps(w: World, id: nat, name: string, version: int, change: Change)
    requires Inv(w)
    ensures Inv(Opened(w, id, name, version, change))
  {
    var v := Opened(w, id, name, version, change);
    forall n ensures RowInv(v, n) { assert RowInv(w, n); }
    forall i | i in v.sessions ensures SessionInv(v, v.sessions[i]) {
      if i in w.sessions { assert SessionInv(w, w.sessions[i]); } else { assert RowInv(w, name); }
    }
  }

  lemma WriteKeeps(builtin: seq<Spec>, w: World, name: string, version: int, change: Change)
    requires Inv(w)
    ensures Inv(Step(builtin, w, Write(name, version, change)))
  {
    var v := Step(builtin, w, Write(name, version, change));
    forall n ensures RowInv(v, n) { assert RowInv(w, n); }
    forall i | i in v.sessions ensures SessionInv(v, v.sessions[i]) { assert SessionInv(w, w.sessions[i]); }
  }

  lemma AddingKeeps(w: World, rows: Rows)
    requires Inv(w) && Keyed(rows)
    requires forall n | n in w.rows :: n in rows && rows[n] == w.rows[n]
    requires forall n | n in rows && n !in w.rows :: rows[n].version == 0
    ensures Inv(w.(rows := rows))
  {
    var v := w.(rows := rows);
    forall n ensures RowInv(v, n) { assert RowInv(w, n); }
    forall i | i in v.sessions ensures SessionInv(v, v.sessions[i]) { assert SessionInv(w, w.sessions[i]); }
  }

  lemma ReloadKeeps(builtin: seq<Spec>, w: World)
    requires Inv(w)
    ensures Inv(Step(builtin, w, Reload))
  {
    var v := Step(builtin, w, Reload);
    forall n ensures RowInv(v, n) { assert RowInv(w, n); }
    forall i | i in v.sessions ensures SessionInv(v, v.sessions[i]) { assert SessionInv(w, w.sessions[i]); }
  }

  lemma StepKeeps(builtin: seq<Spec>, w: World, a: Action)
    requires Inv(w)
    ensures Inv(Step(builtin, w, a))
  {
    match a {
      case Create(spec) =>
        if spec.name !in w.rows { AddingKeeps(w, w.rows[spec.name := Fresh(spec.(category := "ai_tool"))]); }
      case Open(id, name, version, change) => OpenKeeps(w, id, name, version, change);
      case Flush(id) => FlushKeeps(w, id);
      case Write(name, version, change) => WriteKeeps(builtin, w, name, version, change);
      case Seed => SeedingOnlyAdds(w.rows, builtin); AddingKeeps(w, Seeded(w.rows, builtin));
      case Reload => ReloadKeeps(builtin, w);
    }
  }

  lemma {:induction false} RunKeeps(builtin: seq<Spec>, run: seq<Action>)
    ensures Inv(Run(builtin, run))
  {
    if run == [] {
      SeedingOnlyAdds(map[], builtin);
    } else {
      RunKeeps(builtin, run[..|run| - 1]);
      StepKeeps(builtin, Run(builtin, run[..|run| - 1]), run[|run| - 1]);
    }
  }

  // ---- What the registry and the lock promise ----

  predicate Validates(w: World, name: string) { name in w.tools && name in w.enabled }

  /** Over any run, a tool validates exactly when the row loaded last was enabled. */
  lemma {:induction false} ValidatesWhatWasLoaded(builtin: seq<Spec>, run: seq<Action>, name: string)
    ensures var w := Run(builtin, run);
            && (Validates(w, name) <==> name in w.loaded && w.loaded[name].enabled)
            && (Validates(w, name) ==> w.tools[name] == w.loaded[name].spec)
  {
    RunKeeps(builtin, run);
  }

  /** Over any run, sessions interleaved in any way, a tool's lock version never exceeds the number of
      its flushed writes, and equals it exactly when no session flushed a write of that tool over a
      write flushed after its read. */
  lemma VersionCountsWrites(builtin: seq<Spec>, run: seq<Action>, name: string)
    requires name in Run(builtin, run).rows
    ensures var w := Run(builtin, run);
            && w.rows[name].version <= Writes(w, name)
            && (w.rows[name].version == Writes(w, name) <==> name !in w.stale)
  {
    RunKeeps(builtin, run);
    assert RowInv(Run(builtin, run), name);
  }

  /** In a run of one-step writes nothing is ever stale, so a write succeeds exactly when its version
      is the number of earlier writes: no write can overwrite one its caller has not seen. */
  lemma AtomicWritesAreOrdered(builtin: seq<Spec>, run: seq<Action>, name: string, version: int, change: Change)
    requires forall a | a in run :: !a.Open?
    ensures var w := Run(builtin, run); var v := Step(builtin, w, Write(name, version, change));
            && w.stale == {}
            && (name in w.rows && version == Writes(w, name) <==> Writes(v, name) == Writes(w, name) + 1)
            && (!(name in w.rows && version == Writes(w, name)) <==> v == w)
  {
    NeverStale(builtin, run);
    RunKeeps(builtin, run);
    assert RowInv(Run(builtin, run), name);
  }

  lemma {:induction false} NeverStale(builtin: seq<Spec>, run: seq<Action>)
    requires forall a | a in run :: !a.Open?
    ensures Run(builtin, run).stale == {} && Run(builtin, run).sessions == map[]
  {
    if run != [] { NeverStale(builtin, run[..|run| - 1]); }
  }

  /** From any state, two sessions opened at the current version both pass the version check: both
      flush, the version counts one of the two writes, and a column the second one sets is lost to
      the first. */
  lemma OverlappingSessionsLoseAWrite(w: World, i: nat, j: nat, name: string, c1: Change, c2: Change)
    requires name in w.rows && i != j && i !in w.sessions && j !in w.sessions
    ensures var version := w.rows[name].version;
            var v := Flushed(Flushed(Opened(Opened(w, i, name, version, c1), j, name, version, c2), i), j);
            && name in v.rows && Writes(v, name) == Writes(w, name) + 2 && v.rows[name].version == version + 1
            && name in v.stale
            && (c2.Redefine? && c2.display != w.rows[name].spec.display ==> v.rows[name].spec.display == c2.display)
  {
    var row := w.rows[name];
    var w2 := Opened(Opened(w, i, name, row.version, c1), j, name, row.version, c2);
    var w3 := Flushed(w2, i);
    assert w3.rows[name] == Merged(row, row, Changed(row, c1));
    hide Opened;
    assert Flushed(w3, j).rows[name] == Merged(w3.rows[name], row, Changed(row, c2));
  }

  /** What an administrator wrote is what the registry has after the next reload: a redefined tool has
      the new declaration under its old name and category and validates as before; an enabled or
      disabled one validates accordingly and keeps its declaration. A stale write shows nothing. */
  lemma {:induction false} ReloadShowsTheWrite(
      builtin: seq<Spec>, run: seq<Action>, name: string, version: int, change: Change)
    ensures var w := Run(builtin, run); var v := Step(builtin, Step(builtin, w, Write(name, version, change)), Reload);
            if name !in w.rows || w.rows[name].version != version then
              v == Step(builtin, w, Reload)
            else match change
              case Redefine(d, t, p, s) =>
                && name in v.tools && v.tools[name] == Spec(name, d, t, p, s, w.rows[name].spec.category)
                && (Validates(v, name) <==> w.rows[name].enabled)
              case Enable(on) =>
                && name in v.tools && v.tools[name] == w.rows[name].spec
                && (Validates(v, name) <==> on)
  {
    RunKeeps(builtin, run);
  }

  /** No step removes a row, and a row changes only by a write of its own tool. */
  lemma RowsOnlyChangeByWrites(builtin: seq<Spec>, w: World, a: Action, name: string)
    requires name in w.rows
    ensures var v := Step(builtin, w, a);
            && name in v.rows
            && (v.rows[name] != w.rows[name] ==> Writes(v, name) == Writes(w, name) + 1)
  {
    if a.Seed? { SeedingOnlyAdds(w.rows, builtin); }
  }

  /** A tool that an administrator adds is there after the next reload, under category "ai_tool", and
      validates; one whose name is taken changes nothing. */
  lemma ReloadShowsTheCreation(builtin: seq<Spec>, run: seq<Action>, spec: Spec)
    ensures var w := Run(builtin, run); var v := Step(builtin, Step(builtin, w, Create(spec)), Reload);
            if spec.name in w.rows then
              v == Step(builtin, w, Reload)
            else
              && Validates(v, spec.name) && v.tools[spec.name] == spec.(category := "ai_tool")
              && v.rows[spec.name].version == 0
              && forall n | n != spec.name :: n in v.rows <==> n in w.rows
  {
    RunKeeps(builtin, run);
  }

  /** After a seeding every built-in tool is in the table, the missing ones enabled and as declared, and
      the rows that were there are untouched. */
  lemma SeedingCompletes(builtin: seq<Spec>, w: World, spec: Spec)
    requires spec in builtin
    ensures var v := Step(builtin, w, Seed);
            && spec.name in v.rows
            && (spec.name !in w.rows ==>
                  v.rows[spec.name].enabled && v.rows[spec.name].version == 0 && v.rows[spec.name].spec in builtin)
            && forall n | n in w.rows :: n in v.rows && v.rows[n] == w.rows[n]
  {
    SeedingOnlyAdds(w.rows, builtin);
    assert spec.name in Names(builtin);
  }

  /** Two sessions that set different columns lose nothing: from any state, a redefinition and a switch,
      opened at the same version and flushed in either order, both show. */
  lemma DisjointWritesBothShow(w: World, i: nat, j: nat, name: string, c: Change, on: bool, swapped: bool)
    requires name in w.rows && i != j && i !in w.sessions && j !in w.sessions && c.Redefine?
    ensures var version := w.rows[name].version;
            var both := Opened(Opened(w, i, name, version, c), j, name, version, Enable(on));
            var v := if swapped then Flushed(Flushed(both, j), i) else Flushed(Flushed(both, i), j);
            && name in v.rows && v.rows[name].enabled == on
            && v.rows[name].spec
               == Spec(w.rows[name].spec.name, c.display, c.description, c.permission, c.schema,
                       w.rows[name].spec.category)
  {
    var row := w.rows[name];
    var both := Opened(Opened(w, i, name, row.version, c), j, name, row.version, Enable(on));
    assert both.sessions[i].read == row && both.sessions[j].read == row;
    var first, second := if swapped then j else i, if swapped then i else j;
    var u := Flushed(both, first);
    assert u.sessions[second] == both.sessions[second];
  }
}
