/** The streamed chat completion: text passed on as it arrives, tool calls put together from their
    fragments by index, and one closing event; next to the parser of the one-shot response. */
module ToolStream {
  import opened Sets
  import opened Text

  // ---- What arrives ----

  /** A tool-call fragment; an empty string stands for an absent or empty field. */
  datatype Fragment = Fragment(index: Option<int>, id: string, name: string, arguments: string) {
    /** A missing index counts as 0. */
    function At(): int { if index.Some? then index.value else 0 }
  }

  datatype Delta = Delta(reasoning: string, content: string, calls: seq<Fragment>)

  datatype Chunk = NoChoices | Chunk(delta: Delta, finish: string)

  /** `json.loads` of an argument text. */
  datatype Loaded<V> = Malformed | NotObject | Object(value: V)

  /** JSON, uninterpreted: reading an event, reading arguments, and the empty object. */
  datatype Json<!V> = Json(event: string -> Option<Chunk>, arguments: string -> Loaded<V>, empty: V) {
    ghost predicate Valid() { arguments("{}") == Object(empty) }

    /** The arguments a text stands for; anything but an object counts as none. */
    function Args(text: string): V {
      if text == "" then empty
      else match arguments(text)
        case Object(v) => v
        case _ => empty
    }
  }

  datatype Line = Line(text: string, cancelled: bool)

  /** How the response body ends, when neither the end marker nor a cancellation ends it first. */
  datatype Ending = Complete | Timeout | HttpError | AppFailure(message: string)

  // ---- What leaves ----

  datatype Call<V> = Call(id: string, tool: string, args: V, summary: string)

  datatype Problem = BadStatus(code: int) | Cancelled | TimedOut | Disconnected | Refused(message: string) | OutOfTokens

  datatype Event<V> = Reasoning(text: string) | Text(text: string) | Done(calls: seq<Call<V>>) | Error(problem: Problem)

  const Calling := "调用工具 "

  // ---- Reading lines ----

  datatype Reading = Skip | EndMarker | Data(chunk: Chunk)

  function Classify<V>(cs: Chars, json: Json<V>, text: string): Reading {
    var line := Trim(cs, text);
    if line == "" || !("data: " <= line) then Skip
    else if Trim(cs, line[6..]) == "[DONE]" then EndMarker
    else match json.event(line[6..])
      case None => Skip
      case Some(NoChoices) => Skip
      case Some(c) => Data(c)
  }

  lemma ClassifiedChunk<V>(cs: Chars, json: Json<V>, text: string)
    ensures Classify(cs, json, text).Data? ==> Classify(cs, json, text).chunk.Chunk?
  {
  }

  /** The chunks that reach the accumulator, and the problem that cuts the stream off, if any. */
  datatype Stream = Stream(chunks: seq<Chunk>, cut: Option<Problem>)

  function Cut(ending: Ending): Option<Problem> {
    match ending
    case Complete => None
    case Timeout => Some(TimedOut)
    case HttpError => Some(Disconnected)
    case AppFailure(m) => Some(Refused(m))
  }

  function Read<V>(cs: Chars, json: Json<V>, lines: seq<Line>, ending: Ending): (s: Stream)
    ensures forall c | c in s.chunks :: c.Chunk?
  {
    if lines == [] then Stream([], Cut(ending))
    else if lines[0].cancelled then Stream([], Some(Cancelled))
    else match Classify(cs, json, lines[0].text)
      case Skip => Read(cs, json, lines[1..], ending)
      case EndMarker => Stream([], None)
      case Data(c) => var s := Read(cs, json, lines[1..], ending); Stream([c] + s.chunks, s.cut)
  }

  // ---- The reference: each index on its own ----

  function Calls(chunks: seq<Chunk>): seq<Fragment> {
    if chunks == [] then []
    else Calls(chunks[..|chunks| - 1]) + (match chunks[|chunks| - 1] case NoChoices => [] case Chunk(d, _) => d.calls)
  }

  /** The fragments of one index, in their order. */
  function Sub(frags: seq<Fragment>, i: int): seq<Fragment> {
    if frags == [] then []
    else Sub(frags[..|frags| - 1], i) + (if frags[|frags| - 1].At() == i then [frags[|frags| - 1]] else [])
  }

  function Indices(frags: seq<Fragment>): set<int> { set f | f in frags :: f.At() }

  datatype Spelled = Spelled(id: string, tool: string, arguments: string)

  function Or(newer: string, older: string): string { if newer != "" then newer else older }

  /** What fragments of one call spell: the last id, the last name, all argument text in order. */
  function Spell(frags: seq<Fragment>): Spelled {
    if frags == [] then Spelled("", "", "")
    else
      var s, f := Spell(frags[..|frags| - 1]), frags[|frags| - 1];
      Spelled(Or(f.id, s.id), Or(f.name, s.tool), s.arguments + f.arguments)
  }

  /** `sorted(keys)`. */
  function Ascending(s: set<int>): seq<int> {
    if s == {} then [] else [Least(s)] + Ascending(s - {Least(s)})
  }

  lemma SortedCons(m: int, rest: seq<int>)
    requires forall i, j | 0 <= i < j < |rest| :: rest[i] < rest[j]
    requires forall x | x in rest :: m < x
    ensures forall i, j | 0 <= i < j < |[m] + rest| :: ([m] + rest)[i] < ([m] + rest)[j]
    ensures forall x :: x in [m] + rest <==> x == m || x in rest
  {
    var all := [m] + rest;
    assert all[0] == m;
    forall i, j | 0 <= i < j < |all| ensures all[i] < all[j] {
      assert all[j] == rest[j - 1] && rest[j - 1] in rest;
      assert i > 0 ==> all[i] == rest[i - 1];
    }
    forall x | x in rest ensures x in all {
      var i :| 0 <= i < |rest| && rest[i] == x;
      assert all[i + 1] == x;
    }
  }

  lemma {:induction false} AscendingIsSorted(s: set<int>)
    ensures |Ascending(s)| == |s|
    ensures forall x :: x in s <==> x in Ascending(s)
    ensures forall i, j | 0 <= i < j < |Ascending(s)| :: Ascending(s)[i] < Ascending(s)[j]
  {
    if s != {} {
      var m, rest := Least(s), Ascending(s - {Least(s)});
      AscendingIsSorted(s - {m});
      SortedCons(m, rest);
      hide Least;
      assert forall x :: x in s <==> x == m || x in s - {m};
    }
  }

  /** The dictionary made from an entry: id, tool, parsed arguments and a summary. */
  function CallOf<V>(json: Json<V>, s: Spelled): Call<V> {
    Call(s.id, s.tool, json.Args(s.arguments), Calling + s.tool)
  }

  function CallsAt<V>(json: Json<V>, frags: seq<Fragment>, indices: seq<int>): seq<Call<V>> {
    if indices == [] then []
    else CallsAt(json, frags, indices[..|indices| - 1]) + [CallOf(json, Spell(Sub(frags, indices[|indices| - 1])))]
  }

  /** One call for each index, in ascending order of index. */
  function Assemble<V>(json: Json<V>, frags: seq<Fragment>): seq<Call<V>> {
    CallsAt(json, frags, Ascending(Indices(frags)))
  }

  function Finish(chunks: seq<Chunk>): string {
    if chunks == [] then ""
    else
      var last := chunks[|chunks| - 1];
      if last.Chunk? && last.finish != "" then last.finish else Finish(chunks[..|chunks| - 1])
  }

  function Content(chunks: seq<Chunk>): string {
    if chunks == [] then ""
    else
      Content(chunks[..|chunks| - 1]) + (match chunks[|chunks| - 1] case NoChoices => "" case Chunk(d, _) => d.content)
  }

  function Heard<V>(c: Chunk): seq<Event<V>> {
    match c
    case NoChoices => []
    case Chunk(d, _) =>
      (if d.reasoning != "" then [Reasoning(d.reasoning)] else []) + (if d.content != "" then [Text(d.content)] else [])
  }

  function Passed<V>(chunks: seq<Chunk>): seq<Event<V>> {
    if chunks == [] then [] else Passed(chunks[..|chunks| - 1]) + Heard(chunks[|chunks| - 1])
  }

  function Closing<V>(json: Json<V>, s: Stream): Event<V> {
    if s.cut.Some? then Error(s.cut.value)
    else if Finish(s.chunks) == "length" && Content(s.chunks) == "" then Error(OutOfTokens)
    else Done(Assemble(json, Calls(s.chunks)))
  }

  function Events<V>(json: Json<V>, s: Stream): seq<Event<V>> {
    Passed(s.chunks) + [Closing(json, s)]
  }

  // ---- The accumulator ----

  /** Absorbing one fragment into the table of fragments by index. */
  function Absorb(table: map<int, Spelled>, f: Fragment): map<int, Spelled> {
    var s := if f.At() in table then table[f.At()] else Spelled("", "", "");
    table[f.At() := Spelled(Or(f.id, s.id), Or(f.name, s.tool), s.arguments + f.arguments)]
  }

  function AbsorbAll(frags: seq<Fragment>): map<int, Spelled> {
    if frags == [] then map[] else Absorb(AbsorbAll(frags[..|frags| - 1]), frags[|frags| - 1])
  }

  lemma SpellMore(frags: seq<Fragment>, f: Fragment)
    ensures Spell(frags + [f])
            == Spelled(Or(f.id, Spell(frags).id), Or(f.name, Spell(frags).tool), Spell(frags).arguments + f.arguments)
  {
    assert (frags + [f])[..|frags|] == frags;
  }

  lemma {:induction false} SubOfAbsent(frags: seq<Fragment>, i: int)
    ensures i !in Indices(frags) ==> Sub(frags, i) == []
  {
    if frags != [] {
      SubOfAbsent(frags[..|frags| - 1], i);
      IndicesMore(frags[..|frags| - 1], frags[|frags| - 1], frags);
    }
  }

  lemma IndicesMore(front: seq<Fragment>, last: Fragment, frags: seq<Fragment>)
    requires |frags| > 0 && front == frags[..|frags| - 1] && last == frags[|frags| - 1]
    ensures Indices(frags) == Indices(front) + {last.At()}
  {
    assert frags == front + [last];
  }

  /** The table holds, at each index, what the fragments of that index spell by themselves. */
  lemma {:induction false} TableAt(frags: seq<Fragment>, i: int)
    ensures i in AbsorbAll(frags) <==> i in Indices(frags)
    ensures i in AbsorbAll(frags) ==> AbsorbAll(frags)[i] == Spell(Sub(frags, i))
  {
    if frags != [] {
      var front, last := frags[..|frags| - 1], frags[|frags| - 1];
      TableAt(front, i);
      IndicesMore(front, last, frags);
      SubOfAbsent(front, i);
      if i == last.At() {
        SpellMore(Sub(front, i), last);
      } else {
        assert Sub(frags, i) == Sub(front, i);
      }
    }
  }

  lemma TableIsByIndex(frags: seq<Fragment>)
    ensures AbsorbAll(frags).Keys == Indices(frags)
    ensures forall i | i in AbsorbAll(frags) :: AbsorbAll(frags)[i] == Spell(Sub(frags, i))
  {
    forall i { TableAt(frags, i); }
  }

  lemma {:induction false} AbsorbConcat(a: seq<Fragment>, f: Fragment)
    ensures AbsorbAll(a + [f]) == Absorb(AbsorbAll(a), f)
  {
    assert (a + [f])[..|a|] == a;
  }

  /** Absorbing one fragment field by field, an empty field leaving the entry as it is. */
  method AbsorbOne(table: map<int, Spelled>, f: Fragment) returns (t: map<int, Spelled>)
    ensures t == Absorb(table, f)
  {
    var idx := f.At();
    t := table;
    if idx !in t { t := t[idx := Spelled("", "", "")]; }
    var frag := t[idx];
    assert frag.arguments + [] == frag.arguments;
    if f.id != "" { frag := frag.(id := f.id); }
    if f.name != "" { frag := frag.(tool := f.name); }
    if f.arguments != "" { frag := frag.(arguments := frag.arguments + f.arguments); }
    t := t[idx := frag];
  }

  lemma AbsorbNext(before: seq<Fragment>, calls: seq<Fragment>, k: nat)
    requires k < |calls|
    ensures AbsorbAll(before + calls[..k + 1]) == Absorb(AbsorbAll(before + calls[..k]), calls[k])
  {
    assert before + calls[..k + 1] == before + calls[..k] + [calls[k]];
    AbsorbConcat(before + calls[..k], calls[k]);
  }

  lemma AbsorbEnds(before: seq<Fragment>, calls: seq<Fragment>)
    ensures before + calls[..0] == before && before + calls[..|calls|] == before + calls
  {
  }

  method AbsorbCalls(table: map<int, Spelled>, ghost before: seq<Fragment>, calls: seq<Fragment>)
    returns (t: map<int, Spelled>)
    requires table == AbsorbAll(before)
    ensures t == AbsorbAll(before + calls)
  {
    t := table;
    AbsorbEnds(before, calls);
    hide AbsorbAll, Absorb;
    for k := 0 to |calls|
      invariant t == AbsorbAll(before + calls[..k])
    {
      AbsorbNext(before, calls, k);
      t := AbsorbOne(t, calls[k]);
    }
  }

  /** The whole reading, when `seen` has been read already and the lines from `i` on are left. */
  ghost function Reached<V>(
      cs: Chars, json: Json<V>, lines: seq<Line>, ending: Ending, i: nat, seen: seq<Chunk>): Stream
    requires i <= |lines|
  {
    var s := Read(cs, json, lines[i..], ending);
    Stream(seen + s.chunks, s.cut)
  }

  lemma ReachedStart<V>(cs: Chars, json: Json<V>, lines: seq<Line>, ending: Ending)
    ensures Reached(cs, json, lines, ending, 0, []) == Read(cs, json, lines, ending)
    ensures forall seen :: Reached(cs, json, lines, ending, |lines|, seen) == Stream(seen, Cut(ending))
  {
    assert lines[0..] == lines && lines[|lines|..] == [];
    assert [] + Read(cs, json, lines, ending).chunks == Read(cs, json, lines, ending).chunks;
    forall seen: seq<Chunk> ensures Reached(cs, json, lines, ending, |lines|, seen) == Stream(seen, Cut(ending)) {
      assert seen + [] == seen;
    }
  }

  lemma ReachedNext<V>(cs: Chars, json: Json<V>, lines: seq<Line>, ending: Ending, i: nat, seen: seq<Chunk>)
    requires i < |lines|
    ensures Reached(cs, json, lines, ending, i, seen) ==
            if lines[i].cancelled then Stream(seen, Some(Cancelled))
            else match Classify(cs, json, lines[i].text)
              case Skip => Reached(cs, json, lines, ending, i + 1, seen)
              case EndMarker => Stream(seen, None)
              case Data(c) => Reached(cs, json, lines, ending, i + 1, seen + [c])
  {
    hide Classify;
    assert lines[i..][1..] == lines[i + 1..];
    assert seen + [] == seen;
    if Classify(cs, json, lines[i].text).Data? {
      Assoc(seen, [Classify(cs, json, lines[i].text).chunk], Read(cs, json, lines[i + 1..], ending).chunks);
    }
  }

  /** What the accumulator has made of the chunks seen so far. */
  ghost predicate Absorbed<V(!new)>(
      seen: seq<Chunk>, events: seq<Event<V>>, table: map<int, Spelled>, finish: string, hasContent: bool) {
    && events == Passed(seen)
    && table == AbsorbAll(Calls(seen))
    && finish == Finish(seen)
    && hasContent == (Content(seen) != "")
  }

  /** The loop over the lines of the body: events out, fragments and flags kept. */
  method ReadBody<V(!new)>(cs: Chars, json: Json<V>, lines: seq<Line>, ending: Ending)
    returns (events: seq<Event<V>>, table: map<int, Spelled>, finish: string, hasContent: bool, cut: Option<Problem>)
    ensures var s := Read(cs, json, lines, ending);
            cut == s.cut && Absorbed(s.chunks, events, table, finish, hasContent)
  {
    events, table, finish, hasContent := [], map[], "", false;
    ghost var seen: seq<Chunk> := [];
    var i := 0;
    ReachedStart(cs, json, lines, ending);
    assert Absorbed(seen, events, table, finish, hasContent);
    hide Classify, Absorbed, Read, Reached;
    while i < |lines|
      invariant 0 <= i <= |lines|
      invariant Reached(cs, json, lines, ending, i, seen) == Read(cs, json, lines, ending)
      invariant Absorbed(seen, events, table, finish, hasContent)
    {
      ReachedNext(cs, json, lines, ending, i, seen);
      if lines[i].cancelled {
        return events, table, finish, hasContent, Some(Cancelled);
      }
      var reading := Classify(cs, json, lines[i].text);
      if reading.EndMarker? {
        return events, table, finish, hasContent, None;
      }
      if reading.Data? {
        ClassifiedChunk(cs, json, lines[i].text);
        events, table, finish, hasContent := Feed(seen, events, table, finish, hasContent, reading.chunk);
        seen := seen + [reading.chunk];
      }
      i := i + 1;
    }
    cut := Cut(ending);
  }

  lemma SeenNext<V>(seen: seq<Chunk>, chunk: Chunk)
    ensures Passed<V>(seen + [chunk]) == Passed<V>(seen) + Heard(chunk)
    ensures Calls(seen + [chunk]) == Calls(seen) + (if chunk.Chunk? then chunk.delta.calls else [])
    ensures Finish(seen + [chunk]) == if chunk.Chunk? && chunk.finish != "" then chunk.finish else Finish(seen)
    ensures Content(seen + [chunk]) == Content(seen) + (if chunk.Chunk? then chunk.delta.content else "")
  {
    assert (seen + [chunk])[..|seen|] == seen;
  }

  /** One chunk: reasoning and text are passed on, fragments absorbed, the finish reason noted. */
  method Feed<V(!new)>(
      ghost seen: seq<Chunk>, events: seq<Event<V>>, table: map<int, Spelled>, finish: string, hasContent: bool,
      chunk: Chunk)
    returns (e: seq<Event<V>>, t: map<int, Spelled>, f: string, h: bool)
    requires Absorbed(seen, events, table, finish, hasContent) && chunk.Chunk?
    ensures Absorbed(seen + [chunk], e, t, f, h)
  {
    e, t, f, h := events, table, finish, hasContent;
    SeenNext<V>(seen, chunk);
    hide Passed, Calls, Finish, Content, AbsorbAll;
    var d := chunk.delta;
    if d.reasoning != "" { e := e + [Reasoning(d.reasoning)]; }
    if d.content != "" {
      h := true;
      e := e + [Text(d.content)];
    }
    assert e == events + Heard(chunk);
    t := AbsorbCalls(t, Calls(seen), d.calls);
    if chunk.finish != "" { f := chunk.finish; }
  }

  /** `sorted(tool_calls_fragments)`, each entry made into a call. */
  method AssembleCalls<V>(json: Json<V>, ghost frags: seq<Fragment>, table: map<int, Spelled>)
    returns (calls: seq<Call<V>>)
    requires table == AbsorbAll(frags)
    ensures calls == Assemble(json, frags)
  {
    var indices := Ascending(table.Keys);
    TableAtIndices(frags, indices);
    calls := CallEach(json, frags, table, indices);
  }

  method CallEach<V>(json: Json<V>, ghost frags: seq<Fragment>, table: map<int, Spelled>, indices: seq<int>)
    returns (calls: seq<Call<V>>)
    requires forall k | 0 <= k < |indices| :: indices[k] in table && table[indices[k]] == Spell(Sub(frags, indices[k]))
    ensures calls == CallsAt(json, frags, indices)
  {
    calls := [];
    CallsAtEnds(json, frags, indices);
    hide Sub, Spell, CallsAt, CallOf;
    for k := 0 to |indices|
      invariant calls == CallsAt(json, frags, indices[..k])
    {
      CallsAtNext(json, frags, indices, k);
      calls := calls + [CallOf(json, table[indices[k]])];
    }
  }

  lemma TableAtIndices(frags: seq<Fragment>, indices: seq<int>)
    requires indices == Ascending(AbsorbAll(frags).Keys)
    ensures indices == Ascending(Indices(frags))
    ensures forall k | 0 <= k < |indices| ::
              indices[k] in AbsorbAll(frags) && AbsorbAll(frags)[indices[k]] == Spell(Sub(frags, indices[k]))
  {
    TableIsByIndex(frags);
    AscendingIsSorted(AbsorbAll(frags).Keys);
    forall k | 0 <= k < |indices| ensures indices[k] in AbsorbAll(frags) { assert indices[k] in indices; }
  }

  lemma CallsAtEnds<V>(json: Json<V>, frags: seq<Fragment>, indices: seq<int>)
    ensures CallsAt(json, frags, indices[..0]) == [] && indices[..|indices|] == indices
  {
  }

  lemma CallsAtNext<V>(json: Json<V>, frags: seq<Fragment>, indices: seq<int>, k: nat)
    requires k < |indices|
    ensures CallsAt(json, frags, indices[..k + 1])
            == CallsAt(json, frags, indices[..k]) + [CallOf(json, Spell(Sub(frags, indices[k])))]
  {
    assert indices[..k + 1][..k] == indices[..k];
  }

  /** `stream_complete`. */
  method StreamComplete<V(!new)>(cs: Chars, json: Json<V>, status: int, lines: seq<Line>, ending: Ending)
    returns (events: seq<Event<V>>)
    ensures events == if status != 200 then [Error(BadStatus(status))] else Events(json, Read(cs, json, lines, ending))
  {
    if status != 200 {
      return [Error(BadStatus(status))];
    }
    var passed, table, finish, hasContent, cut := ReadBody(cs, json, lines, ending);
    ghost var s := Read(cs, json, lines, ending);
    if cut.Some? {
      return passed + [Error(cut.value)];
    }
    if finish == "length" && !hasContent {
      return passed + [Error(OutOfTokens)];
    }
    var calls := AssembleCalls(json, Calls(s.chunks), table);
    events := passed + [Done(calls)];
  }

  // ---- What the stream promises ----

  predicate Terminal<V>(e: Event<V>) { e.Done? || e.Error? }

  lemma {:induction false} PassedIsText<V>(chunks: seq<Chunk>, e: Event<V>)
    requires e in Passed<V>(chunks)
    ensures !Terminal(e)
  {
    if chunks != [] {
      if e !in Heard<V>(chunks[|chunks| - 1]) { PassedIsText(chunks[..|chunks| - 1], e); }
    }
  }

  /** Whatever arrives, the events are text and reasoning followed by exactly one closing event. */
  lemma OneClosingEvent<V>(cs: Chars, json: Json<V>, lines: seq<Line>, ending: Ending)
    ensures var events := Events(json, Read(cs, json, lines, ending));
            && events != []
            && Terminal(events[|events| - 1])
            && forall k | 0 <= k < |events| - 1 :: !Terminal(events[k])
  {
    var s := Read(cs, json, lines, ending);
    forall k | 0 <= k < |Passed<V>(s.chunks)| ensures !Terminal(Passed<V>(s.chunks)[k]) {
      PassedIsText(s.chunks, Passed<V>(s.chunks)[k]);
    }
  }

  function TextOf<V>(events: seq<Event<V>>): string {
    if events == [] then ""
    else TextOf(events[..|events| - 1]) + (if events[|events| - 1].Text? then events[|events| - 1].text else "")
  }

  lemma {:induction false} TextOfConcat<V>(a: seq<Event<V>>, b: seq<Event<V>>)
    ensures TextOf(a + b) == TextOf(a) + TextOf(b)
  {
    if b == [] {
      assert a + b == a;
    } else {
      assert (a + b)[..|a + b| - 1] == a + b[..|b| - 1];
      TextOfConcat(a, b[..|b| - 1]);
    }
  }

  /** The text events carry the content deltas, all of them and in order. */
  lemma {:induction false} TextIsContent<V>(chunks: seq<Chunk>)
    ensures TextOf(Passed<V>(chunks)) == Content(chunks)
  {
    if chunks != [] {
      var front, last := chunks[..|chunks| - 1], chunks[|chunks| - 1];
      TextIsContent<V>(front);
      TextOfConcat(Passed<V>(front), Heard<V>(last));
      if last.Chunk? {
        var r: seq<Event<V>> := if last.delta.reasoning != "" then [Reasoning(last.delta.reasoning)] else [];
        var t: seq<Event<V>> := if last.delta.content != "" then [Text(last.delta.content)] else [];
        TextOfConcat(r, t);
        assert r != [] ==> r[..0] == [];
        assert t != [] ==> t[..0] == [];
      }
    }
  }

  /** Two lists of fragments that spell the same at every index, over the same indices, assemble to
      the same calls: neither the order in which indices alternate nor the places where a call's
      text is cut make a difference. */
  lemma ChunkingDoesNotMatter<V>(json: Json<V>, a: seq<Fragment>, b: seq<Fragment>)
    requires Indices(a) == Indices(b)
    requires forall i | i in Indices(a) :: Spell(Sub(a, i)) == Spell(Sub(b, i))
    ensures Assemble(json, a) == Assemble(json, b)
  {
    AscendingIsSorted(Indices(a));
    forall k | 0 <= k < |Ascending(Indices(a))| ensures Ascending(Indices(a))[k] in Indices(a) {
      assert Ascending(Indices(a))[k] in Ascending(Indices(a));
    }
    SameCalls(json, a, b, Ascending(Indices(a)));
  }

  lemma {:induction false} SameCalls<V>(json: Json<V>, a: seq<Fragment>, b: seq<Fragment>, indices: seq<int>)
    requires forall k | 0 <= k < |indices| :: Spell(Sub(a, indices[k])) == Spell(Sub(b, indices[k]))
    ensures CallsAt(json, a, indices) == CallsAt(json, b, indices)
  {
    if indices != [] { SameCalls(json, a, b, indices[..|indices| - 1]); }
  }

  lemma {:induction false} SubConcat(a: seq<Fragment>, b: seq<Fragment>, i: int)
    ensures Sub(a + b, i) == Sub(a, i) + Sub(b, i)
  {
    if b == [] {
      assert a + b == a && Sub(a, i) + [] == Sub(a, i);
    } else {
      assert (a + b)[..|a + b| - 1] == a + b[..|b| - 1];
      SubConcat(a, b[..|b| - 1], i);
    }
  }

  lemma Snoc<T>(a: seq<T>, c: seq<T>)
    requires c != []
    ensures a + c == a + c[..|c| - 1] + [c[|c| - 1]]
  {
  }

  lemma {:induction false} SpellSuffix(a: seq<Fragment>, b: seq<Fragment>, c: seq<Fragment>)
    requires Spell(a) == Spell(b)
    ensures Spell(a + c) == Spell(b + c)
  {
    if c == [] {
      assert a + c == a && b + c == b;
    } else {
      hide Spell;
      var front, last := c[..|c| - 1], c[|c| - 1];
      SpellSuffix(a, b, front);
      SpellMore(a + front, last);
      SpellMore(b + front, last);
      Snoc(a, c);
      Snoc(b, c);
    }
  }

  /** Cutting a fragment's argument text in two, with fragments of other indices in between, changes
      nothing; repeated, this covers any number of deltas. */
  lemma CutAnywhere<V>(json: Json<V>, before: seq<Fragment>, f: Fragment, head: string, tail: string,
                       between: seq<Fragment>, after: seq<Fragment>)
    requires f.arguments == head + tail && forall g | g in between :: g.At() != f.At()
    ensures Assemble(json, before + [f] + between + after)
         == Assemble(json, before + [f.(arguments := head)] + between + [Fragment(Some(f.At()), "", "", tail)] + after)
  {
    var f1, f2 := f.(arguments := head), Fragment(Some(f.At()), "", "", tail);
    var a, b := before + [f] + between + after, before + [f1] + between + [f2] + after;
    CutIndices(before, f, f1, f2, between, after);
    forall i ensures Spell(Sub(a, i)) == Spell(Sub(b, i)) {
      CutAt(before, f, f1, f2, between, after, i);
    }
    ChunkingDoesNotMatter(json, a, b);
  }

  lemma IndicesConcat(a: seq<Fragment>, b: seq<Fragment>)
    ensures Indices(a + b) == Indices(a) + Indices(b)
  {
    assert forall f :: f in a + b <==> f in a || f in b;
  }

  lemma CutIndices(
      before: seq<Fragment>, f: Fragment, f1: Fragment, f2: Fragment, between: seq<Fragment>, after: seq<Fragment>)
    requires f.At() == f1.At() == f2.At()
    ensures Indices(before + [f] + between + after) == Indices(before + [f1] + between + [f2] + after)
  {
    hide Indices;
    IndicesConcat(before + [f] + between, after);
    IndicesConcat(before + [f], between);
    IndicesConcat(before, [f]);
    IndicesConcat(before + [f1] + between + [f2], after);
    IndicesConcat(before + [f1] + between, [f2]);
    IndicesConcat(before + [f1], between);
    IndicesConcat(before, [f1]);
    IndexOfOne(f);
    IndexOfOne(f1);
    IndexOfOne(f2);
  }

  lemma IndexOfOne(f: Fragment)
    ensures Indices([f]) == {f.At()}
  {
    assert f in [f];
  }

  lemma CutAt(
      before: seq<Fragment>, f: Fragment, f1: Fragment, f2: Fragment, between: seq<Fragment>, after: seq<Fragment>,
      i: int)
    requires f.arguments == f1.arguments + f2.arguments && f1 == f.(arguments := f1.arguments)
    requires f2.At() == f.At() && f2.id == "" && f2.name == "" && forall g | g in between :: g.At() != f.At()
    ensures Spell(Sub(before + [f] + between + after, i)) == Spell(Sub(before + [f1] + between + [f2] + after, i))
  {
    SubOfAbsent(between, i);
    assert i == f.At() ==> i !in Indices(between);
    SubOne(f, i);
    SubOne(f1, i);
    SubOne(f2, i);
    hide Spell, Sub, Indices;
    SubConcat(before + [f] + between, after, i);
    SubConcat(before + [f], between, i);
    SubConcat(before, [f], i);
    SubConcat(before + [f1] + between + [f2], after, i);
    SubConcat(before + [f1] + between, [f2], i);
    SubConcat(before + [f1], between, i);
    SubConcat(before, [f1], i);
    if i == f.At() {
      CutInTwo(Sub(before, i), f, f1, f2);
      assert Sub(before, i) + [f] + [] == Sub(before, i) + [f];
      assert Sub(before, i) + [f1] + [] == Sub(before, i) + [f1];
      SpellSuffix(Sub(before, i) + [f], Sub(before, i) + [f1] + [f2], Sub(after, i));
    } else {
      assert Sub(before, i) + [] == Sub(before, i);
      assert Sub(before, i) + Sub(between, i) + [] == Sub(before, i) + Sub(between, i);
    }
  }

  lemma SubOne(f: Fragment, i: int)
    ensures Sub([f], i) == if f.At() == i then [f] else []
  {
    assert [f][..0] == [];
  }

  lemma CutInTwo(s: seq<Fragment>, f: Fragment, f1: Fragment, f2: Fragment)
    requires f.arguments == f1.arguments + f2.arguments && f1 == f.(arguments := f1.arguments)
    requires f2.id == "" && f2.name == ""
    ensures Spell(s + [f]) == Spell(s + [f1] + [f2])
  {
    SpellMore(s, f);
    SpellMore(s, f1);
    SpellMore(s + [f1], f2);
    Assoc(Spell(s).arguments, f1.arguments, f2.arguments);
  }

  // ---- The one-shot response ----

  /** The function name of a complete call: the key missing, null, or a string. */
  datatype Name = Absent | Null | Named(text: string) {
    function Tool(): string { if Named? then text else "" }

    function Shown(): string {
      match this
      case Absent => "unknown"
      case Null => "None"
      case Named(t) => t
    }
  }

  /** The arguments of a complete call: JSON text, or a value given outright. */
  datatype Given<V> = Encoded(text: string) | Plain(value: V)

  datatype WholeCall<V> = WholeCall(id: string, name: Name, arguments: Given<V>)

  datatype Message<V> = Message(content: string, calls: seq<WholeCall<V>>)

  datatype Parsed<V> = EmptyResponse | Parsed(answer: string, calls: seq<Call<V>>)

  function Loads<V>(json: Json<V>, text: string): V {
    match json.arguments(text)
    case Object(v) => v
    case _ => json.empty
  }

  function WholeArgs<V>(json: Json<V>, g: Given<V>): V {
    match g
    case Encoded(t) => Loads(json, if t == "" then "{}" else t)
    case Plain(v) => v
  }

  function ParsedCall<V>(json: Json<V>, w: WholeCall<V>): Call<V> {
    Call(w.id, w.name.Tool(), WholeArgs(json, w.arguments), Calling + w.name.Shown())
  }

  /** `_parse_response`; None stands for a response without choices. */
  method ParseResponse<V>(json: Json<V>, message: Option<Message<V>>) returns (r: Parsed<V>)
    ensures message.None? ==> r == EmptyResponse
    ensures message.Some? ==>
      && r.Parsed? && r.answer == message.value.content && |r.calls| == |message.value.calls|
      && forall k | 0 <= k < |r.calls| :: r.calls[k] == ParsedCall(json, message.value.calls[k])
  {
    if message.None? { return EmptyResponse; }
    var raw := message.value.calls;
    var calls: seq<Call<V>> := [];
    for k := 0 to |raw|
      invariant |calls| == k
      invariant forall j | 0 <= j < k :: calls[j] == ParsedCall(json, raw[j])
    {
      var args := json.empty;
      match raw[k].arguments {
        case Encoded(text) =>
          var loaded := json.arguments(if text == "" then "{}" else text);
          if loaded.Object? { args := loaded.value; }
        case Plain(v) => args := v;
      }
      calls := calls + [Call(raw[k].id, raw[k].name.Tool(), args, Calling + raw[k].name.Shown())];
    }
    r := Parsed(message.value.content, calls);
  }

  // ---- Streaming against the one-shot parse ----

  function Upto(n: nat): (s: set<int>)
    ensures forall i :: i in s <==> 0 <= i < n
  {
    if n == 0 then {} else Upto(n - 1) + {n - 1}
  }

  /** What the fragments of a call must spell for it to be that call. */
  function Wanted<V>(w: WholeCall<V>): Spelled
    requires w.arguments.Encoded?
  {
    Spelled(w.id, w.name.Tool(), w.arguments.text)
  }

  ghost predicate AllEncoded<V>(m: Message<V>) { forall w | w in m.calls :: w.arguments.Encoded? }

  /** The deltas spell out the message: its text in pieces, and at index k the pieces of call k. */
  ghost predicate Spells<V>(chunks: seq<Chunk>, m: Message<V>) {
    && AllEncoded(m)
    && Content(chunks) == m.content
    && Indices(Calls(chunks)) == Upto(|m.calls|)
    && forall k | 0 <= k < |m.calls| :: Spell(Sub(Calls(chunks), k)) == Wanted(m.calls[k])
  }

  lemma {:induction false} UptoSize(n: nat)
    ensures |Upto(n)| == n
  {
    if n > 0 {
      UptoSize(n - 1);
    }
  }

  lemma {:induction false} AtLeastPosition(s: seq<int>, k: nat)
    requires forall i, j | 0 <= i < j < |s| :: s[i] < s[j]
    requires k < |s| && s[0] >= 0
    ensures s[k] >= k
  {
    if k > 0 { AtLeastPosition(s, k - 1); }
  }

  lemma {:induction false} AtMostPosition(s: seq<int>, k: nat)
    requires forall i, j | 0 <= i < j < |s| :: s[i] < s[j]
    requires k < |s| && s[|s| - 1] < |s|
    ensures s[k] <= k
    decreases |s| - k
  {
    if k < |s| - 1 { AtMostPosition(s, k + 1); }
  }

  lemma Positions(s: seq<int>)
    requires forall i, j | 0 <= i < j < |s| :: s[i] < s[j]
    requires forall k | 0 <= k < |s| :: 0 <= s[k] < |s|
    ensures forall k | 0 <= k < |s| :: s[k] == k
  {
    forall k | 0 <= k < |s| ensures s[k] == k {
      AtLeastPosition(s, k);
      AtMostPosition(s, k);
    }
  }

  lemma AscendingUpto(n: nat)
    ensures |Ascending(Upto(n))| == n
    ensures forall k | 0 <= k < n :: Ascending(Upto(n))[k] == k
  {
    hide Ascending;
    var s := Ascending(Upto(n));
    AscendingIsSorted(Upto(n));
    UptoSize(n);
    forall k | 0 <= k < n ensures 0 <= s[k] < n { assert s[k] in s; }
    Positions(s);
  }

  lemma {:induction false} CallsAtEach<V>(json: Json<V>, frags: seq<Fragment>, indices: seq<int>)
    ensures |CallsAt(json, frags, indices)| == |indices|
    ensures forall k | 0 <= k < |indices| ::
              CallsAt(json, frags, indices)[k] == CallOf(json, Spell(Sub(frags, indices[k])))
  {
    hide Spell, Sub, CallOf;
    if indices != [] { CallsAtEach(json, frags, indices[..|indices| - 1]); }
  }

  /** A call and its streamed counterpart: same id, same tool, same arguments; and the same summary
      exactly when the provider named the function. */
  ghost predicate SameCall<V>(streamed: Call<V>, whole: Call<V>, name: Name) {
    && streamed.id == whole.id && streamed.tool == whole.tool && streamed.args == whole.args
    && (streamed.summary == whole.summary <==> name.Named?)
  }

  lemma CallAgrees<V>(json: Json<V>, w: WholeCall<V>)
    requires json.Valid() && w.arguments.Encoded?
    ensures SameCall(CallOf(json, Wanted(w)), ParsedCall(json, w), w.name)
  {
    var a, b := Calling + w.name.Tool(), Calling + w.name.Shown();
    assert !w.name.Named? ==> |a| != |b|;
  }

  ghost predicate AllAgree<V>(json: Json<V>, streamed: seq<Call<V>>, m: Message<V>) {
    && |streamed| == |m.calls|
    && forall k | 0 <= k < |m.calls| :: SameCall(streamed[k], ParsedCall(json, m.calls[k]), m.calls[k].name)
  }

  lemma CallsAgree<V>(json: Json<V>, chunks: seq<Chunk>, m: Message<V>)
    requires json.Valid() && Spells(chunks, m)
    ensures AllAgree(json, Assemble(json, Calls(chunks)), m)
  {
    AscendingUpto(|m.calls|);
    CallsAtEach(json, Calls(chunks), Ascending(Upto(|m.calls|)));
    hide Ascending, CallsAt, SameCall, CallOf, ParsedCall, Spell, Sub, Wanted;
    forall k | 0 <= k < |m.calls|
      ensures SameCall(CallOf(json, Wanted(m.calls[k])), ParsedCall(json, m.calls[k]), m.calls[k].name)
    {
      CallAgrees(json, m.calls[k]);
    }
  }

  lemma TextOfEvents<V>(json: Json<V>, s: Stream)
    ensures TextOf(Events(json, s)) == Content(s.chunks)
  {
    var closing := Closing(json, s);
    TextOfConcat(Passed<V>(s.chunks), [closing]);
    TextIsContent<V>(s.chunks);
    assert [closing][..0] == [];
    assert Content(s.chunks) + "" == Content(s.chunks);
  }

  /** Deltas that spell out a message give what the one-shot parser makes of that message, unless
      the stream was stopped for length before any text: then the stream fails and the parser does
      not. */
  lemma StreamAgreesWithParse<V>(json: Json<V>, chunks: seq<Chunk>, m: Message<V>)
    requires json.Valid() && Spells(chunks, m)
    ensures var events := Events(json, Stream(chunks, None)); var last := events[|events| - 1];
            && TextOf(events) == m.content
            && (last.Done? <==> !(Finish(chunks) == "length" && m.content == ""))
            && (last.Done? ==> AllAgree(json, last.calls, m))
            && (!last.Done? ==> last == Error(OutOfTokens))
  {
    TextOfEvents(json, Stream(chunks, None));
    CallsAgree(json, chunks, m);
    hide AllAgree, Assemble, Calls, Passed, TextOf;
  }

  // ---- Every message can be spelled out ----

  /** One fragment for each call, the simplest deltas a provider could send. */
  ghost function Whole<V>(calls: seq<WholeCall<V>>): seq<Fragment>
    requires forall w | w in calls :: w.arguments.Encoded?
  {
    if calls == [] then []
    else
      var n := |calls| - 1;
      Whole(calls[..n]) + [Fragment(Some(n), calls[n].id, calls[n].name.Tool(), calls[n].arguments.text)]
  }

  lemma SubMore(frags: seq<Fragment>, f: Fragment, i: int)
    ensures Sub(frags + [f], i) == Sub(frags, i) + (if f.At() == i then [f] else [])
    ensures Indices(frags + [f]) == Indices(frags) + {f.At()}
  {
    assert (frags + [f])[..|frags|] == frags;
    IndicesMore(frags, f, frags + [f]);
  }

  lemma {:induction false} WholeSpells<V>(calls: seq<WholeCall<V>>, i: int)
    requires forall w | w in calls :: w.arguments.Encoded?
    ensures i in Indices(Whole(calls)) <==> 0 <= i < |calls|
    ensures Sub(Whole(calls), i)
            == if 0 <= i < |calls|
               then [Fragment(Some(i), calls[i].id, calls[i].name.Tool(), calls[i].arguments.text)]
               else []
  {
    if calls != [] {
      hide Sub, Indices;
      var n := |calls| - 1;
      WholeSpells(calls[..n], i);
      SubMore(Whole(calls[..n]), Fragment(Some(n), calls[n].id, calls[n].name.Tool(), calls[n].arguments.text), i);
    }
  }

  lemma SpellOne(f: Fragment)
    ensures Spell([f]) == Spelled(f.id, f.name, f.arguments)
  {
    assert [f][..0] == [];
    assert "" + f.arguments == f.arguments;
  }

  lemma OneChunk(d: Delta, finish: string)
    ensures Calls([Chunk(d, finish)]) == d.calls && Content([Chunk(d, finish)]) == d.content
  {
    assert [Chunk(d, finish)][..0] == [];
    assert [] + d.calls == d.calls && "" + d.content == d.content;
  }

  lemma WholeIsWanted<V>(calls: seq<WholeCall<V>>, k: nat)
    requires forall w | w in calls :: w.arguments.Encoded?
    requires k < |calls|
    ensures Spell(Sub(Whole(calls), k)) == Wanted(calls[k])
  {
    WholeSpells(calls, k);
    SpellOne(Fragment(Some(k), calls[k].id, calls[k].name.Tool(), calls[k].arguments.text));
  }

  lemma WholeIndices<V>(calls: seq<WholeCall<V>>)
    requires forall w | w in calls :: w.arguments.Encoded?
    ensures Indices(Whole(calls)) == Upto(|calls|)
  {
    forall i ensures i in Indices(Whole(calls)) <==> i in Upto(|calls|) { WholeSpells(calls, i); }
  }

  lemma EveryMessageIsSpelled<V>(m: Message<V>, reasoning: string, finish: string)
    requires AllEncoded(m)
    ensures Spells([Chunk(Delta(reasoning, m.content, Whole(m.calls)), finish)], m)
  {
    OneChunk(Delta(reasoning, m.content, Whole(m.calls)), finish);
    WholeIndices(m.calls);
    forall k | 0 <= k < |m.calls| ensures Spell(Sub(Whole(m.calls), k)) == Wanted(m.calls[k]) {
      WholeIsWanted(m.calls, k);
    }
  }

  // ---- From lines to calls ----

  /** The line, but for whitespace around it, is the prefix and then `t`. */
  ghost predicate Prefixed(cs: Chars, line: Line, t: string) { !line.cancelled && Core(cs, line.text, "data: " + t) }

  ghost predicate IsMarker(cs: Chars, line: Line) {
    exists t :: Prefixed(cs, line, t) && Core(cs, t, "[DONE]")
  }

  /** The line carries this chunk. */
  ghost predicate Sends<V>(cs: Chars, json: Json<V>, line: Line, c: Chunk) {
    c.Chunk? && exists t :: Prefixed(cs, line, t) && !Core(cs, t, "[DONE]") && json.event(t) == Some(c)
  }

  /** The line carries nothing: it is blank, has no prefix, cannot be read or has no choices. */
  ghost predicate IsNoise<V>(cs: Chars, json: Json<V>, line: Line) {
    && !line.cancelled
    && (|| Blank(cs, line.text)
        || (forall t :: !Prefixed(cs, line, t))
        || (exists t :: Prefixed(cs, line, t) && !Core(cs, t, "[DONE]")
                        && (json.event(t) == None || json.event(t) == Some(NoChoices))))
  }

  lemma PrefixedIs(cs: Chars, line: Line, t: string)
    ensures Prefixed(cs, line, t) <==> !line.cancelled && Trim(cs, line.text) == "data: " + t
    ensures Prefixed(cs, line, t) ==> "data: " <= Trim(cs, line.text) && Trim(cs, line.text)[6..] == t
  {
    TrimExactly(cs, line.text, "data: " + t);
    hide Core, Trim;
    assert ("data: " + t)[6..] == t;
  }

  lemma PrefixedBy(cs: Chars, line: Line)
    requires !line.cancelled && "data: " <= Trim(cs, line.text)
    ensures Prefixed(cs, line, Trim(cs, line.text)[6..])
  {
    var s := Trim(cs, line.text);
    assert s == "data: " + s[6..];
    PrefixedIs(cs, line, s[6..]);
  }

  lemma ReadsAsPrefixed<V>(cs: Chars, json: Json<V>, line: Line, t: string)
    requires Prefixed(cs, line, t)
    ensures Classify(cs, json, line.text)
            == if Core(cs, t, "[DONE]") then EndMarker
               else match json.event(t)
                 case None => Skip
                 case Some(NoChoices) => Skip
                 case Some(c) => Data(c)
  {
    PrefixedIs(cs, line, t);
    TrimExactly(cs, t, "[DONE]");
    hide Trim, Core, Prefixed;
  }

  lemma ReadsAsNoise<V>(cs: Chars, json: Json<V>, line: Line)
    requires !line.cancelled && (Blank(cs, line.text) || forall t :: !Prefixed(cs, line, t))
    ensures Classify(cs, json, line.text) == Skip
  {
    TrimExactly(cs, line.text, "");
    hide Trim, Core, Prefixed;
    if "data: " <= Trim(cs, line.text) { PrefixedBy(cs, line); }
  }

  /** Each line that is not cancelled is the end marker, or carries nothing, or carries one chunk. */
  lemma LineCarries<V>(cs: Chars, json: Json<V>, line: Line)
    requires !line.cancelled
    ensures match Classify(cs, json, line.text)
            case EndMarker => IsMarker(cs, line)
            case Skip => IsNoise(cs, json, line)
            case Data(c) => Sends(cs, json, line, c)
  {
    if "data: " <= Trim(cs, line.text) {
      var t := Trim(cs, line.text)[6..];
      PrefixedBy(cs, line);
      ReadsAsPrefixed(cs, json, line, t);
      hide Classify, Core, Prefixed;
    } else {
      forall t ensures !Prefixed(cs, line, t) { PrefixedIs(cs, line, t); }
      ReadsAsNoise(cs, json, line);
      hide Classify, Core, Prefixed;
    }
  }

  lemma CarriesOne<V>(cs: Chars, json: Json<V>, line: Line)
    ensures IsMarker(cs, line) ==> Classify(cs, json, line.text) == EndMarker
    ensures IsNoise(cs, json, line) ==> Classify(cs, json, line.text) == Skip
    ensures forall c | Sends(cs, json, line, c) :: Classify(cs, json, line.text) == Data(c)
  {
    forall t | Prefixed(cs, line, t)
      ensures Classify(cs, json, line.text)
              == if Core(cs, t, "[DONE]") then EndMarker
                 else match json.event(t)
                   case None => Skip
                   case Some(NoChoices) => Skip
                   case Some(c) => Data(c)
    {
      ReadsAsPrefixed(cs, json, line, t);
    }
    if !line.cancelled && (Blank(cs, line.text) || forall t :: !Prefixed(cs, line, t)) {
      ReadsAsNoise(cs, json, line);
    }
    hide Classify, Core, Prefixed, Blank;
  }

  /** The lines carry these chunks, in order and with noise in between. */
  ghost predicate Carry<V(!new)>(cs: Chars, json: Json<V>, lines: seq<Line>, chunks: seq<Chunk>) {
    if lines == [] then chunks == []
    else
      || (IsNoise(cs, json, lines[0]) && Carry(cs, json, lines[1..], chunks))
      || (chunks != [] && Sends(cs, json, lines[0], chunks[0]) && Carry(cs, json, lines[1..], chunks[1..]))
  }

  /** What lines carry is read, whatever follows them. */
  lemma {:induction false} CarriedIsRead<V(!new)>(
      cs: Chars, json: Json<V>, lines: seq<Line>, chunks: seq<Chunk>, rest: seq<Line>, ending: Ending)
    requires Carry(cs, json, lines, chunks)
    ensures var s := Read(cs, json, rest, ending);
            Read(cs, json, lines + rest, ending) == Stream(chunks + s.chunks, s.cut)
  {
    if lines == [] {
      CarriedNothing(cs, json, rest, ending);
      assert lines + rest == rest;
    } else {
      var line, more := lines[0], lines[1..];
      assert lines + rest == [line] + (more + rest);
      ReadOn(cs, json, line, more + rest, ending);
      hide Read, IsNoise, Sends;
      if IsNoise(cs, json, line) && Carry(cs, json, more, chunks) {
        CarriedIsRead(cs, json, more, chunks, rest, ending);
      } else {
        CarriedIsRead(cs, json, more, chunks[1..], rest, ending);
        FirstBack(chunks, Read(cs, json, rest, ending).chunks);
      }
    }
  }

  lemma CarriedNothing<V>(cs: Chars, json: Json<V>, rest: seq<Line>, ending: Ending)
    ensures var s := Read(cs, json, rest, ending); Stream([] + s.chunks, s.cut) == s
  {
    hide Read;
  }

  lemma FirstBack<T>(a: seq<T>, b: seq<T>)
    requires a != []
    ensures [a[0]] + (a[1..] + b) == a + b
  {
  }

  lemma ReadOn<V>(cs: Chars, json: Json<V>, line: Line, rest: seq<Line>, ending: Ending)
    ensures var s := Read(cs, json, rest, ending);
            && (IsNoise(cs, json, line) ==> Read(cs, json, [line] + rest, ending) == s)
            && forall c | Sends(cs, json, line, c) ::
                 Read(cs, json, [line] + rest, ending) == Stream([c] + s.chunks, s.cut)
  {
    CarriesOne(cs, json, line);
    NotCancelled(cs, json, line);
    hide Classify, IsNoise, Sends;
    assert ([line] + rest)[0] == line && ([line] + rest)[1..] == rest;
  }

  lemma NotCancelled<V>(cs: Chars, json: Json<V>, line: Line)
    ensures IsNoise(cs, json, line) ==> !line.cancelled
    ensures forall c | Sends(cs, json, line, c) :: !line.cancelled
    ensures IsMarker(cs, line) ==> !line.cancelled
  {
    hide Core;
  }

  /** Lines that carry the chunks and then the end marker give those chunks and no problem, whatever
      comes after it; when the request is cancelled first, or the body ends first, the stream has those
      chunks and the problem that says so, or none when the body is complete. */
  lemma LinesAreRead<V(!new)>(
      cs: Chars, json: Json<V>, lines: seq<Line>, chunks: seq<Chunk>, next: Line, rest: seq<Line>, ending: Ending)
    requires Carry(cs, json, lines, chunks)
    ensures IsMarker(cs, next) ==> Read(cs, json, lines + ([next] + rest), ending) == Stream(chunks, None)
    ensures next.cancelled ==> Read(cs, json, lines + ([next] + rest), ending) == Stream(chunks, Some(Cancelled))
    ensures Read(cs, json, lines, Complete) == Stream(chunks, None)
    ensures Read(cs, json, lines, Timeout) == Stream(chunks, Some(TimedOut))
    ensures Read(cs, json, lines, HttpError) == Stream(chunks, Some(Disconnected))
    ensures forall m :: Read(cs, json, lines, AppFailure(m)) == Stream(chunks, Some(Refused(m)))
  {
    CarriesOne(cs, json, next);
    NotCancelled(cs, json, next);
    CarriedIsRead(cs, json, lines, chunks, [next] + rest, ending);
    assert ([next] + rest)[0] == next && chunks + [] == chunks && lines + [] == lines;
    hide Carry, Classify, IsMarker;
    forall e: Ending ensures Read(cs, json, lines, e) == Stream(chunks, Cut(e)) {
      CarriedIsRead(cs, json, lines, chunks, [], e);
    }
  }

  /** Every body does so: up to its end, its first cancelled line or its end marker, its lines carry
      chunks. */
  lemma {:induction false} EveryBodyCarries<V(!new)>(cs: Chars, json: Json<V>, lines: seq<Line>, ending: Ending)
    returns (n: nat)
    ensures n <= |lines| && Carry(cs, json, lines[..n], Read(cs, json, lines, ending).chunks)
    ensures n < |lines| ==> lines[n].cancelled || IsMarker(cs, lines[n])
  {
    n := 0;
    assert lines[..0] == [];
    if lines != [] && !lines[0].cancelled {
      LineCarries(cs, json, lines[0]);
      CarriesOne(cs, json, lines[0]);
      hide Classify, IsNoise, Sends, IsMarker;
      if !IsMarker(cs, lines[0]) {
        var m := EveryBodyCarries(cs, json, lines[1..], ending);
        n := m + 1;
        CarryCons(cs, json, lines, ending, n);
      }
    }
  }

  lemma CarryCons<V(!new)>(cs: Chars, json: Json<V>, lines: seq<Line>, ending: Ending, n: nat)
    requires 0 < n <= |lines| && !lines[0].cancelled && !IsMarker(cs, lines[0])
    requires Carry(cs, json, lines[1..][..n - 1], Read(cs, json, lines[1..], ending).chunks)
    ensures Carry(cs, json, lines[..n], Read(cs, json, lines, ending).chunks)
  {
    var l, s := lines[..n], Read(cs, json, lines[1..], ending);
    LineCarries(cs, json, lines[0]);
    hide Classify, IsNoise, Sends, IsMarker;
    assert l[0] == lines[0] && l[1..] == lines[1..][..n - 1];
    var r := Classify(cs, json, lines[0].text);
    if r.Data? { assert ([r.chunk] + s.chunks)[1..] == s.chunks; }
  }

  /** A line as providers write it. */
  lemma PlainLine<V>(cs: Chars, json: Json<V>, t: string, c: Chunk)
    requires Trimmed(cs, "data: " + t) && !Core(cs, t, "[DONE]") && json.event(t) == Some(c) && c.Chunk?
    ensures Sends(cs, json, Line("data: " + t, false), c)
  {
    PlainIsPrefixed(cs, t);
  }

  lemma PlainIsPrefixed(cs: Chars, t: string)
    requires Trimmed(cs, "data: " + t)
    ensures Prefixed(cs, Line("data: " + t, false), t)
  {
    assert Blank(cs, "") && "data: " + t == "" + ("data: " + t) + "";
  }

  lemma PlainMarker(cs: Chars)
    requires cs.space !! {'d', '[', ']'}
    ensures IsMarker(cs, Line("data: [DONE]", false))
  {
    assert "data: " + "[DONE]" == "data: [DONE]";
    PlainIsPrefixed(cs, "[DONE]");
    assert Blank(cs, "") && "[DONE]" == "" + "[DONE]" + "";
  }

  /** From lines to calls: a body whose lines carry deltas that spell out a message, and then the end
      marker, gives the events that agree with the one-shot parse of the message. */
  lemma BodyAgreesWithParse<V(!new)>(
      cs: Chars, json: Json<V>, lines: seq<Line>, chunks: seq<Chunk>, marker: Line, rest: seq<Line>, ending: Ending,
      m: Message<V>)
    requires json.Valid() && Carry(cs, json, lines, chunks) && IsMarker(cs, marker) && Spells(chunks, m)
    ensures var events := Events(json, Read(cs, json, lines + ([marker] + rest), ending));
            var last := events[|events| - 1];
            && TextOf(events) == m.content
            && (last.Done? <==> !(Finish(chunks) == "length" && m.content == ""))
            && (last.Done? ==> AllAgree(json, last.calls, m))
            && (!last.Done? ==> last == Error(OutOfTokens))
  {
    LinesAreRead(cs, json, lines, chunks, marker, rest, ending);
    hide Read, Carry, IsMarker, Spells, AllAgree, TextOf;
    StreamAgreesWithParse(json, chunks, m);
  }

  // ---- Reasoning and the reason to finish ----

  function ReasoningOf<V>(events: seq<Event<V>>): string {
    if events == [] then ""
    else
      ReasoningOf(events[..|events| - 1])
      + (if events[|events| - 1].Reasoning? then events[|events| - 1].text else "")
  }

  function Thoughts(chunks: seq<Chunk>): string {
    if chunks == [] then ""
    else
      Thoughts(chunks[..|chunks| - 1])
      + (match chunks[|chunks| - 1] case NoChoices => "" case Chunk(d, _) => d.reasoning)
  }

  lemma {:induction false} ReasoningOfConcat<V>(a: seq<Event<V>>, b: seq<Event<V>>)
    ensures ReasoningOf(a + b) == ReasoningOf(a) + ReasoningOf(b)
  {
    if b == [] {
      assert a + b == a;
    } else {
      assert (a + b)[..|a + b| - 1] == a + b[..|b| - 1];
      ReasoningOfConcat(a, b[..|b| - 1]);
    }
  }

  /** The reasoning events carry the reasoning deltas, all of them and in order. */
  lemma {:induction false} ReasoningIsPassed<V>(chunks: seq<Chunk>)
    ensures ReasoningOf(Passed<V>(chunks)) == Thoughts(chunks)
  {
    if chunks != [] {
      var front, last := chunks[..|chunks| - 1], chunks[|chunks| - 1];
      ReasoningIsPassed<V>(front);
      ReasoningOfConcat(Passed<V>(front), Heard<V>(last));
      if last.Chunk? {
        var r: seq<Event<V>> := if last.delta.reasoning != "" then [Reasoning(last.delta.reasoning)] else [];
        var t: seq<Event<V>> := if last.delta.content != "" then [Text(last.delta.content)] else [];
        ReasoningOfConcat(r, t);
        assert r != [] ==> r[..0] == [];
        assert t != [] ==> t[..0] == [];
      }
    }
  }

  /** The finish reason is the last one given. */
  lemma {:induction false} FinishIsLast(chunks: seq<Chunk>, k: nat)
    requires k < |chunks| && chunks[k].Chunk? && chunks[k].finish != ""
    requires forall j | k < j < |chunks| :: chunks[j].NoChoices? || chunks[j].finish == ""
    ensures Finish(chunks) == chunks[k].finish
  {
    if k < |chunks| - 1 { FinishIsLast(chunks[..|chunks| - 1], k); }
  }

  /** A body that ends in a problem passes on what came before and closes with that problem: no calls are
      made of a stream that was cut off. */
  lemma CutBodyFails<V(!new)>(
      cs: Chars, json: Json<V>, lines: seq<Line>, chunks: seq<Chunk>, next: Line, rest: seq<Line>, ending: Ending)
    requires Carry(cs, json, lines, chunks)
    ensures next.cancelled ==>
      Events(json, Read(cs, json, lines + ([next] + rest), ending)) == Passed(chunks) + [Error(Cancelled)]
    ensures Events(json, Read(cs, json, lines, Timeout)) == Passed(chunks) + [Error(TimedOut)]
    ensures Events(json, Read(cs, json, lines, HttpError)) == Passed(chunks) + [Error(Disconnected)]
    ensures forall m :: Events(json, Read(cs, json, lines, AppFailure(m))) == Passed(chunks) + [Error(Refused(m))]
  {
    LinesAreRead(cs, json, lines, chunks, next, rest, ending);
    hide Read, Carry, Passed, IsMarker;
  }

  /** The events of a delta: its reasoning before its text, and nothing for what is empty. */
  lemma HeardInOrder<V>(d: Delta, finish: string)
    ensures var e := Heard<V>(Chunk(d, finish));
            && (d.reasoning != "" && d.content != "" ==> e == [Reasoning(d.reasoning), Text(d.content)])
            && (d.reasoning != "" && d.content == "" ==> e == [Reasoning(d.reasoning)])
            && (d.reasoning == "" && d.content != "" ==> e == [Text(d.content)])
            && (d.reasoning == "" && d.content == "" ==> e == [])
  {
  }

  // ---- What fragments spell ----

  /** All argument text of the fragments, in order. */
  function ArgumentText(frags: seq<Fragment>): string {
    if frags == [] then "" else frags[0].arguments + ArgumentText(frags[1..])
  }

  lemma {:induction false} ArgumentTextMore(frags: seq<Fragment>, f: Fragment)
    ensures ArgumentText(frags + [f]) == ArgumentText(frags) + f.arguments
  {
    if frags == [] {
      assert frags + [f] == [f] && [f][1..] == [] && f.arguments + "" == "" + f.arguments;
    } else {
      assert (frags + [f])[0] == frags[0] && (frags + [f])[1..] == frags[1..] + [f];
      ArgumentTextMore(frags[1..], f);
      Assoc(frags[0].arguments, ArgumentText(frags[1..]), f.arguments);
    }
  }

  /** Fragments spell all their argument text in order, the last identifier that is not empty, and the
      last name that is not empty. */
  lemma {:induction false} SpellIsLast(frags: seq<Fragment>, k: nat)
    ensures Spell(frags).arguments == ArgumentText(frags)
    ensures (forall j | 0 <= j < |frags| :: frags[j].id == "") ==> Spell(frags).id == ""
    ensures (forall j | 0 <= j < |frags| :: frags[j].name == "") ==> Spell(frags).tool == ""
    ensures k < |frags| && frags[k].id != "" && (forall j | k < j < |frags| :: frags[j].id == "") ==>
              Spell(frags).id == frags[k].id
    ensures k < |frags| && frags[k].name != "" && (forall j | k < j < |frags| :: frags[j].name == "") ==>
              Spell(frags).tool == frags[k].name
  {
    if frags != [] {
      var front, last := frags[..|frags| - 1], frags[|frags| - 1];
      SpellIsLast(front, k);
      ArgumentTextMore(front, last);
      assert frags == front + [last];
    }
  }

  /** A fragment without an index belongs to call 0. */
  lemma MissingIndexIsZero<V>(json: Json<V>, before: seq<Fragment>, f: Fragment, after: seq<Fragment>)
    requires f.index == None
    ensures Assemble(json, before + [f] + after) == Assemble(json, before + [f.(index := Some(0))] + after)
  {
    var g := f.(index := Some(0));
    var a, b := before + [f] + after, before + [g] + after;
    IndicesConcat(before + [f], after);
    IndicesConcat(before, [f]);
    IndicesConcat(before + [g], after);
    IndicesConcat(before, [g]);
    IndexOfOne(f);
    IndexOfOne(g);
    forall i ensures Spell(Sub(a, i)) == Spell(Sub(b, i)) { MissingAt(before, f, g, after, i); }
    hide Indices, Spell, Sub, Assemble;
    ChunkingDoesNotMatter(json, a, b);
  }

  lemma MissingAt(before: seq<Fragment>, f: Fragment, g: Fragment, after: seq<Fragment>, i: int)
    requires f.index == None && g == f.(index := Some(0))
    ensures Spell(Sub(before + [f] + after, i)) == Spell(Sub(before + [g] + after, i))
  {
    SubOne(f, i);
    SubOne(g, i);
    SpellMore(Sub(before, i), f);
    SpellMore(Sub(before, i), g);
    hide Spell, Sub;
    SubConcat(before + [f], after, i);
    SubConcat(before, [f], i);
    SubConcat(before + [g], after, i);
    SubConcat(before, [g], i);
    if i == 0 { SpellSuffix(Sub(before, i) + [f], Sub(before, i) + [g], Sub(after, i)); }
  }
}
