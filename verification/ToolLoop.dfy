/** The question-answering loop: run the tool calls a model asked for, append what they gave to the
    transcript, ask the model again, and stop after a bounded number of rounds. */
module ToolLoop {
  import opened Decimal
  import opened Text

  /** A tool call; `args` is the JSON text of its arguments. */
  datatype Call = Call(id: string, tool: string, args: string)

  datatype Response = Response(answer: string, calls: seq<Call>, uncertainty: string)

  datatype Body = Failure(message: string) | Payload(json: string)

  datatype Message = Past(text: string) | Assistant(content: string, calls: seq<Call>) | Tool(id: string, body: Body)

  datatype Status = Rejected | NotAllowed | Executed | Errored

  datatype Record = Record(tool: string, args: string, summary: string, status: Status, result: string)

  /** What happens to one call: the registry or the permission check turns it down, the tool raises,
      or it returns; a tool that returned may still have a result that cannot be written as JSON, or
      fail in the bookkeeping (the citations) that follows. */
  datatype Outcome =
    | Unknown
    | Forbidden(permission: string)
    | Raised(error: string)
    | Unserialisable(summary: string, shown: string, result: string, error: string)
    | Uncited(summary: string, shown: string, result: string, json: string, cited: seq<string>, error: string)
    | Ran(summary: string, shown: string, result: string, json: string, cited: seq<string>)
  {
    predicate Doubled() { Unserialisable? || Uncited? }
  }

  /** Everything the loop cannot see into: the outcome of call k of a round, the model's reply in a
      round (None when the completion raises), and the redaction of credentials. */
  datatype Env = Env(outcome: (nat, nat) -> Outcome, reply: nat -> Option<Response>, redact: string -> string)

  const MAX_ROUNDS := 10

  // ---- One batch of tool calls ----

  datatype Batch = Batch(executed: seq<Record>, messages: seq<Message>, cited: seq<string>)

  function Mended(id: string, fallback: string): string { if id != "" then id else fallback }

  /** The fallback identifier of a tool message counts the records written so far. */
  function BatchId(tool: string, recorded: nat): string { "call_" + tool + "_" + Dec(recorded) }

  /** The fallback identifier of an entry of the assistant message. */
  function EntryId(round: nat, tool: string, k: nat): string {
    if round == 1 then "call_" + tool + "_" + Dec(k) else "call_r" + Dec(round) + "_" + Dec(k)
  }

  function Done(c: Call, summary: string, shown: string, result: string): Record {
    Record(c.tool, c.args, if summary != "" then summary else "已执行 " + shown, Executed, result)
  }

  function Broken(c: Call, error: string): Record { Record(c.tool, c.args, "工具执行失败: " + error, Errored, "") }

  function Records(o: Outcome, c: Call): seq<Record> {
    match o
    case Unknown => [Record(c.tool, c.args, "拒绝执行：未知工具 '" + c.tool + "'", Rejected, "")]
    case Forbidden(p) => [Record(c.tool, c.args, "拒绝执行：缺少权限 '" + p + "'", NotAllowed, "")]
    case Raised(e) => [Broken(c, e)]
    case Unserialisable(s, shown, r, e) => [Done(c, s, shown, r), Broken(c, e)]
    case Uncited(s, shown, r, _, _, e) => [Done(c, s, shown, r), Broken(c, e)]
    case Ran(s, shown, r, _, _) => [Done(c, s, shown, r)]
  }

  function Messages(o: Outcome, c: Call, id: string): seq<Message> {
    match o
    case Unknown => [Tool(id, Failure("未知工具: " + c.tool))]
    case Forbidden(p) => [Tool(id, Failure("权限不足: 需要 " + p))]
    case Raised(e) => [Tool(id, Failure("工具执行失败: " + e))]
    case Unserialisable(_, _, _, e) => [Tool(id, Failure("工具执行失败: " + e))]
    case Uncited(_, _, _, json, _, e) => [Tool(id, Payload(json)), Tool(id, Failure("工具执行失败: " + e))]
    case Ran(_, _, _, json, _) => [Tool(id, Payload(json))]
  }

  function Cited(o: Outcome): seq<string> { if o.Ran? || o.Uncited? then o.cited else [] }

  function Batched(env: Env, round: nat, calls: seq<Call>): Batch {
    if calls == [] then Batch([], [], [])
    else
      var n := |calls| - 1;
      var b, c, o := Batched(env, round, calls[..n]), calls[n], env.outcome(round, n);
      var answers := Messages(o, c, Mended(c.id, BatchId(c.tool, |b.executed|)));
      Batch(b.executed + Records(o, c), b.messages + answers, b.cited + Cited(o))
  }

  lemma BatchedMore(env: Env, round: nat, calls: seq<Call>, k: nat)
    requires k < |calls|
    ensures var b, c, o := Batched(env, round, calls[..k]), calls[k], env.outcome(round, k);
            Batched(env, round, calls[..k + 1])
            == Batch(b.executed + Records(o, c),
                     b.messages + Messages(o, c, Mended(c.id, BatchId(c.tool, |b.executed|))),
                     b.cited + Cited(o))
  {
    assert calls[..k + 1][..k] == calls[..k];
  }

  /** `_process_tool_calls`. */
  method ProcessToolCalls(env: Env, round: nat, calls: seq<Call>)
    returns (executed: seq<Record>, messages: seq<Message>, cited: seq<string>)
    ensures Batch(executed, messages, cited) == Batched(env, round, calls)
  {
    executed, messages, cited := [], [], [];
    for k := 0 to |calls|
      invariant Batch(executed, messages, cited) == Batched(env, round, calls[..k])
    {
      BatchedMore(env, round, calls, k);
      hide Batched;
      executed, messages, cited := ProcessOne(env, round, k, calls[k], executed, messages, cited);
    }
    assert calls[..|calls|] == calls;
  }

  /** One call: checked, run, recorded, answered and cited, in this order. */
  method ProcessOne(
      env: Env, round: nat, k: nat, c: Call, executed: seq<Record>, messages: seq<Message>, cited: seq<string>)
    returns (e: seq<Record>, m: seq<Message>, q: seq<string>)
    ensures var o := env.outcome(round, k);
            && e == executed + Records(o, c)
            && m == messages + Messages(o, c, Mended(c.id, BatchId(c.tool, |executed|)))
            && q == cited + Cited(o)
  {
    e, m, q := executed, messages, cited;
    var id := if c.id != "" then c.id else "call_" + c.tool + "_" + Dec(|e|);
    var o := env.outcome(round, k);
    var failure: Option<string> := None;
    match o {
      case Unknown =>
        e := e + [Record(c.tool, c.args, "拒绝执行：未知工具 '" + c.tool + "'", Rejected, "")];
        m := m + [Tool(id, Failure("未知工具: " + c.tool))];
      case Forbidden(p) =>
        e := e + [Record(c.tool, c.args, "拒绝执行：缺少权限 '" + p + "'", NotAllowed, "")];
        m := m + [Tool(id, Failure("权限不足: 需要 " + p))];
      case Raised(error) => failure := Some(error);
      case Unserialisable(s, shown, r, error) =>
        e := e + [Done(c, s, shown, r)];
        failure := Some(error);
      case Uncited(s, shown, r, json, cs, error) =>
        e := e + [Done(c, s, shown, r)];
        m := m + [Tool(id, Payload(json))];
        q := q + cs;
        failure := Some(error);
      case Ran(s, shown, r, json, cs) =>
        e := e + [Done(c, s, shown, r)];
        m := m + [Tool(id, Payload(json))];
        q := q + cs;
    }
    if failure.Some? {
      e := e + [Broken(c, failure.value)];
      m := m + [Tool(id, Failure("工具执行失败: " + failure.value))];
    }
  }

  // ---- When a batch answers its calls ----

  /** The calls as the assistant message carries them. */
  function Entries(round: nat, calls: seq<Call>): seq<Call> {
    seq(|calls|, k requires 0 <= k < |calls| => calls[k].(id := Mended(calls[k].id, EntryId(round, calls[k].tool, k))))
  }

  /** One tool message for each call, in order and with the call's identifier. */
  ghost predicate Answered(entries: seq<Call>, messages: seq<Message>) {
    && |messages| == |entries|
    && forall k | 0 <= k < |entries| :: messages[k].Tool? && messages[k].id == entries[k].id
  }

  /** How many of the first k calls left a second record. */
  function Extra(env: Env, round: nat, k: nat): nat {
    if k == 0 then 0 else Extra(env, round, k - 1) + (if env.outcome(round, k - 1).Doubled() then 1 else 0)
  }

  /** No call of the batch failed in the bookkeeping after its result was already written out. */
  ghost predicate Clean(env: Env, round: nat, n: nat) { forall k: nat | k < n :: !env.outcome(round, k).Uncited? }

  /** Call k has the same identifier at both sites: the provider's, or fallbacks that happen to meet. */
  ghost predicate Meets(env: Env, round: nat, calls: seq<Call>, k: nat)
    requires k < |calls|
  {
    calls[k].id != "" || (Extra(env, round, k) == 0 && (round == 1 || calls[k].tool == "r" + Dec(round)))
  }

  ghost predicate Sound(env: Env, round: nat, calls: seq<Call>) {
    Clean(env, round, |calls|) && forall k: nat | k < |calls| :: Meets(env, round, calls, k)
  }

  lemma SizesOf(o: Outcome, c: Call, id: string)
    ensures |Records(o, c)| == if o.Doubled() then 2 else 1
    ensures |Messages(o, c, id)| == if o.Uncited? then 2 else 1
  {
  }

  lemma {:induction false} BatchSize(env: Env, round: nat, calls: seq<Call>)
    ensures |Batched(env, round, calls).executed| == |calls| + Extra(env, round, |calls|)
    ensures |Batched(env, round, calls).messages| >= |calls|
    ensures |Batched(env, round, calls).messages| == |calls| <==> Clean(env, round, |calls|)
  {
    hide Records, Messages, Mended, BatchId, Cited;
    if calls != [] {
      var n := |calls| - 1;
      var o, c := env.outcome(round, n), calls[n];
      BatchSize(env, round, calls[..n]);
      SizesOf(o, c, Mended(c.id, BatchId(c.tool, |Batched(env, round, calls[..n]).executed|)));
      assert Clean(env, round, n + 1) <==> Clean(env, round, n) && !o.Uncited?;
    }
  }

  lemma MessageOf(o: Outcome, c: Call, id: string)
    requires !o.Uncited?
    ensures |Messages(o, c, id)| == 1 && Answers(o, id, Messages(o, c, id)[0])
  {
  }

  /** The message answers a call: with the JSON of its result exactly when the call ran through, and
      with a failure otherwise. */
  ghost predicate Answers(o: Outcome, id: string, m: Message) {
    m.Tool? && m.id == id && (m.body.Payload? <==> o.Ran?) && (o.Ran? ==> m.body == Payload(o.json))
  }

  /** The identifier that call k is answered with. */
  function AnswerId(env: Env, round: nat, calls: seq<Call>, k: nat): string
    requires k < |calls|
  {
    Mended(calls[k].id, BatchId(calls[k].tool, k + Extra(env, round, k)))
  }

  ghost predicate MessageAt(env: Env, round: nat, calls: seq<Call>, k: nat, m: Message)
    requires k < |calls|
  {
    Answers(env.outcome(round, k), AnswerId(env, round, calls, k), m)
  }

  lemma AppendOne<T>(s: seq<T>, t: seq<T>)
    requires |t| == 1
    ensures |s + t| == |s| + 1 && (s + t)[..|s|] == s && (s + t)[|s|] == t[0]
  {
  }

  lemma CleanFront(env: Env, round: nat, n: nat)
    requires Clean(env, round, n + 1)
    ensures Clean(env, round, n) && !env.outcome(round, n).Uncited?
  {
  }

  lemma IsMessageAt(env: Env, round: nat, calls: seq<Call>, k: nat, id: string, m: Message)
    requires k < |calls| && Answers(env.outcome(round, k), id, m)
    requires id == Mended(calls[k].id, BatchId(calls[k].tool, k + Extra(env, round, k)))
    ensures MessageAt(env, round, calls, k, m)
  {
  }

  lemma LastMessage(env: Env, round: nat, calls: seq<Call>, n: nat)
    requires Clean(env, round, |calls|) && n + 1 == |calls|
    ensures var older, all := Batched(env, round, calls[..n]).messages, Batched(env, round, calls).messages;
            |older| == n && |all| == n + 1 && all[..n] == older && MessageAt(env, round, calls, n, all[n])
  {
    hide *;
    CleanFront(env, round, n);
    BatchSize(env, round, calls[..n]);
    BatchedMore(env, round, calls, n);
    assert calls[..n + 1] == calls;
    var b, o := Batched(env, round, calls[..n]), env.outcome(round, n);
    var id := Mended(calls[n].id, BatchId(calls[n].tool, |b.executed|));
    MessageOf(o, calls[n], id);
    AppendOne(b.messages, Messages(o, calls[n], id));
    IsMessageAt(env, round, calls, n, id, Messages(o, calls[n], id)[0]);
  }

  lemma MessageAtFront(env: Env, round: nat, calls: seq<Call>, k: nat, m: Message)
    requires k + 1 < |calls| && MessageAt(env, round, calls[..|calls| - 1], k, m)
    ensures MessageAt(env, round, calls, k, m)
  {
    hide Answers;
  }

  /** In a batch whose bookkeeping did not fail, message k answers call k, under its identifier. */
  lemma {:induction false} BatchMessage(env: Env, round: nat, calls: seq<Call>, k: nat)
    requires Clean(env, round, |calls|) && k < |calls|
    ensures |Batched(env, round, calls).messages| == |calls|
            && MessageAt(env, round, calls, k, Batched(env, round, calls).messages[k])
  {
    hide Batched, MessageAt;
    var n := |calls| - 1;
    LastMessage(env, round, calls, n);
    if k < n {
      BatchMessage(env, round, calls[..n], k);
      MessageAtFront(env, round, calls, k, Batched(env, round, calls[..n]).messages[k]);
      assert Batched(env, round, calls).messages[k] == Batched(env, round, calls).messages[..n][k];
    }
  }

  /** A tool that was let through and returned. */
  predicate Returned(o: Outcome) { !o.Unknown? && !o.Forbidden? && !o.Raised? }

  ghost predicate RanFor(env: Env, round: nat, calls: seq<Call>, r: Record, k: nat) {
    && k < |calls| && Returned(env.outcome(round, k))
    && r.tool == calls[k].tool && r.args == calls[k].args && r.result == env.outcome(round, k).result
  }

  lemma RanForMore(env: Env, round: nat, calls: seq<Call>, r: Record, k: nat)
    requires calls != [] && k < |calls| - 1
    ensures RanFor(env, round, calls, r, k) <==> RanFor(env, round, calls[..|calls| - 1], r, k)
  {
  }

  lemma RecordsMore(env: Env, round: nat, calls: seq<Call>, n: nat)
    requires n + 1 == |calls|
    ensures Batched(env, round, calls).executed
            == Batched(env, round, calls[..n]).executed + Records(env.outcome(round, n), calls[n])
  {
  }

  /** A call recorded as executed was known, permitted and returned, and the record has its result. */
  lemma {:induction false} ExecutedMeansReturned(env: Env, round: nat, calls: seq<Call>, r: Record) returns (k: nat)
    requires r in Batched(env, round, calls).executed && r.status.Executed?
    ensures RanFor(env, round, calls, r, k)
  {
    k := 0;
    if calls != [] {
      var n := |calls| - 1;
      RecordsMore(env, round, calls, n);
      LastRecords(env.outcome(round, n), calls[n]);
      if r in Batched(env, round, calls[..n]).executed {
        k := ExecutedMeansReturned(env, round, calls[..n], r);
        RanForMore(env, round, calls, r, k);
      } else {
        k := n;
      }
    }
  }

  /** Every call that was known, permitted and returned is so recorded. */
  lemma {:induction false} ReturnedIsRecorded(env: Env, round: nat, calls: seq<Call>, k: nat) returns (r: Record)
    requires k < |calls| && Returned(env.outcome(round, k))
    ensures r in Batched(env, round, calls).executed && r.status.Executed? && RanFor(env, round, calls, r, k)
  {
    hide Batched, Records;
    var n := |calls| - 1;
    RecordsMore(env, round, calls, n);
    LastRecords(env.outcome(round, n), calls[n]);
    if k < n {
      r := ReturnedIsRecorded(env, round, calls[..n], k);
      RanForMore(env, round, calls, r, k);
    } else {
      r := Records(env.outcome(round, n), calls[n])[0];
    }
  }

  lemma LastRecords(o: Outcome, c: Call)
    ensures forall r | r in Records(o, c) && r.status.Executed? ::
              Returned(o) && r.tool == c.tool && r.args == c.args && r.result == o.result
    ensures Returned(o) ==>
              Records(o, c) != [] && Records(o, c)[0] in Records(o, c) && Records(o, c)[0].status.Executed?
  {
  }

  // ---- What the model is shown ----

  /** A call whose result reached the messages. */
  predicate WrittenOut(o: Outcome) { o.Ran? || o.Uncited? }

  /** The message is the JSON of call k's result. */
  ghost predicate ShownFor(env: Env, round: nat, calls: seq<Call>, m: Message, k: nat) {
    && k < |calls| && WrittenOut(env.outcome(round, k))
    && m == Tool(AnswerId(env, round, calls, k), Payload(env.outcome(round, k).json))
  }

  lemma LastShown(o: Outcome, c: Call, id: string)
    ensures forall m | m in Messages(o, c, id) :: m.Tool? && m.id == id
    ensures forall m | m in Messages(o, c, id) && m.body.Payload? :: WrittenOut(o) && m.body == Payload(o.json)
    ensures WrittenOut(o) ==> Tool(id, Payload(o.json)) in Messages(o, c, id)
    ensures o.Ran? <==> forall m | m in Messages(o, c, id) :: m.body.Payload?
  {
  }

  lemma MessagesMore(env: Env, round: nat, calls: seq<Call>, n: nat)
    requires n + 1 == |calls|
    ensures Batched(env, round, calls).messages
            == Batched(env, round, calls[..n]).messages
               + Messages(env.outcome(round, n), calls[n], AnswerId(env, round, calls, n))
  {
    BatchSize(env, round, calls[..n]);
  }

  lemma ShownMore(env: Env, round: nat, calls: seq<Call>, m: Message, k: nat)
    requires calls != [] && k < |calls| - 1
    ensures ShownFor(env, round, calls, m, k) <==> ShownFor(env, round, calls[..|calls| - 1], m, k)
  {
  }

  /** Every result in the messages is that of a call which was known, permitted and returned. */
  lemma {:induction false} ShownIsResult(env: Env, round: nat, calls: seq<Call>, m: Message) returns (k: nat)
    requires m in Batched(env, round, calls).messages && m.Tool? && m.body.Payload?
    ensures ShownFor(env, round, calls, m, k)
  {
    hide Messages, AnswerId;
    k := 0;
    if calls != [] {
      var n := |calls| - 1;
      MessagesMore(env, round, calls, n);
      LastShown(env.outcome(round, n), calls[n], AnswerId(env, round, calls, n));
      hide Batched;
      if m in Batched(env, round, calls[..n]).messages {
        k := ShownIsResult(env, round, calls[..n], m);
        ShownMore(env, round, calls, m, k);
      } else {
        k := n;
      }
    }
  }

  /** Every such result is in the messages, under the call's identifier. */
  lemma {:induction false} ResultIsShown(env: Env, round: nat, calls: seq<Call>, k: nat) returns (m: Message)
    requires k < |calls| && WrittenOut(env.outcome(round, k))
    ensures m in Batched(env, round, calls).messages && ShownFor(env, round, calls, m, k)
  {
    hide Batched, Messages, AnswerId;
    var n := |calls| - 1;
    MessagesMore(env, round, calls, n);
    LastShown(env.outcome(round, n), calls[n], AnswerId(env, round, calls, n));
    if k < n {
      m := ResultIsShown(env, round, calls[..n], k);
      ShownMore(env, round, calls, m, k);
    } else {
      m := Tool(AnswerId(env, round, calls, n), Payload(env.outcome(round, n).json));
    }
  }

  /** A citation of call k, whose tool ran. */
  ghost predicate CitedBy(env: Env, round: nat, calls: seq<Call>, c: string, k: nat) {
    k < |calls| && WrittenOut(env.outcome(round, k)) && c in env.outcome(round, k).cited
  }

  /** A batch cites exactly what the calls cite whose result was written out. */
  lemma {:induction false} CitedExactly(env: Env, round: nat, calls: seq<Call>, c: string)
    ensures c in Batched(env, round, calls).cited <==> exists k: nat :: CitedBy(env, round, calls, c, k)
  {
    if calls != [] {
      var n := |calls| - 1;
      CitedExactly(env, round, calls[..n], c);
      CitedMore(env, round, calls, c, n);
      hide Batched, CitedBy;
      if k: nat :| CitedBy(env, round, calls[..n], c, k) { assert CitedBy(env, round, calls, c, k); }
    }
  }

  lemma CitedMore(env: Env, round: nat, calls: seq<Call>, c: string, n: nat)
    requires n + 1 == |calls|
    ensures c in Batched(env, round, calls).cited
       <==> c in Batched(env, round, calls[..n]).cited || CitedBy(env, round, calls, c, n)
    ensures forall k: nat :: CitedBy(env, round, calls[..n], c, k) <==> k < n && CitedBy(env, round, calls, c, k)
    ensures forall k: nat :: CitedBy(env, round, calls, c, k) ==> k <= n
  {
  }

  /** What a call's own record says. */
  ghost predicate Recorded(o: Outcome, c: Call, r: Record) {
    && r.tool == c.tool && r.args == c.args
    && (r.status.Rejected? <==> o.Unknown?)
    && (r.status.NotAllowed? <==> o.Forbidden?)
    && (r.status.Errored? <==> o.Raised?)
    && (r.status.Executed? ==> r.result == o.result)
  }

  ghost predicate RecordedAt(o: Outcome, c: Call, executed: seq<Record>, i: nat) {
    i < |executed| && Recorded(o, c, executed[i])
  }

  /** The records are in the order of the calls, and each call's first record says what happened to it. */
  lemma {:induction false} RecordTellsOutcome(env: Env, round: nat, calls: seq<Call>, k: nat)
    requires k < |calls|
    ensures RecordedAt(env.outcome(round, k), calls[k], Batched(env, round, calls).executed, k + Extra(env, round, k))
  {
    hide *;
    var n := |calls| - 1;
    var o, c, front := env.outcome(round, n), calls[n], calls[..n];
    RecordsMore(env, round, calls, n);
    if k < n {
      RecordTellsOutcome(env, round, front, k);
      var at := k + Extra(env, round, k);
      InFront(env.outcome(round, k), calls[k], Batched(env, round, front).executed, Records(o, c), at);
    } else {
      BatchSize(env, round, front);
      FirstRecord(o, c);
      Behind(o, c, Batched(env, round, front).executed, Records(o, c));
    }
  }

  lemma InFront(o: Outcome, c: Call, a: seq<Record>, b: seq<Record>, i: nat)
    requires RecordedAt(o, c, a, i)
    ensures RecordedAt(o, c, a + b, i)
  {
    hide Recorded;
  }

  lemma Behind(o: Outcome, c: Call, a: seq<Record>, b: seq<Record>)
    requires b != [] && Recorded(o, c, b[0])
    ensures RecordedAt(o, c, a + b, |a|)
  {
    hide Recorded;
  }

  lemma FirstRecord(o: Outcome, c: Call)
    ensures Records(o, c) != [] && Recorded(o, c, Records(o, c)[0])
    ensures |Records(o, c)| == 2 ==> Records(o, c)[1].status.Errored? && Records(o, c)[1].tool == c.tool
  {
  }

  lemma {:induction false} OnlyTools(env: Env, round: nat, calls: seq<Call>)
    ensures forall m | m in Batched(env, round, calls).messages :: m.Tool?
  {
    if calls != [] { OnlyTools(env, round, calls[..|calls| - 1]); }
  }

  lemma DigitsOnly(n: nat)
    ensures '_' !in Dec(n)
  {
    DecReads(n);
  }

  lemma DecInjective(m: nat, n: nat)
    ensures Dec(m) == Dec(n) <==> m == n
  {
    DecReads(m);
    DecReads(n);
  }

  lemma UnderscoreAt(a: string, x: string)
    requires '_' !in x
    ensures var s := a + "_" + x;
            s[|a|] == '_' && (forall i | |a| < i < |s| :: s[i] != '_') && s[..|a|] == a && s[|a| + 1..] == x
  {
    var s := a + "_" + x;
    forall i | |a| < i < |s| ensures s[i] != '_' { assert s[i] == x[i - |a| - 1]; }
  }

  /** A text splits at its last underscore in one way. */
  lemma LastUnderscore(a: string, b: string, x: string, y: string)
    requires '_' !in x && '_' !in y && a + "_" + x == b + "_" + y
    ensures a == b && x == y
  {
    UnderscoreAt(a, x);
    UnderscoreAt(b, y);
  }

  lemma AfterCall(a: string, b: string)
    ensures "call_" + a == "call_" + b <==> a == b
  {
    assert ("call_" + a)[5..] == a && ("call_" + b)[5..] == b;
  }

  /** When the two fallback identifiers are equal. */
  lemma FallbacksMeet(round: nat, tool: string, k: nat, recorded: nat)
    ensures BatchId(tool, recorded) == EntryId(round, tool, k)
       <==> recorded == k && (round == 1 || tool == "r" + Dec(round))
  {
    DigitsOnly(recorded);
    DigitsOnly(k);
    DecInjective(recorded, k);
    var name := if round == 1 then tool else "r" + Dec(round);
    assert EntryId(round, tool, k) == "call_" + name + "_" + Dec(k);
    Assoc("call_r", Dec(round), "_" + Dec(k));
    AfterCall(tool, name);
    if BatchId(tool, recorded) == EntryId(round, tool, k) {
      LastUnderscore("call_" + tool, "call_" + name, Dec(recorded), Dec(k));
    }
  }

  lemma NumberedDiffer(a: string, k: nat, b: string, j: nat)
    requires j != k
    ensures a + "_" + Dec(k) != b + "_" + Dec(j)
  {
    DigitsOnly(k);
    DigitsOnly(j);
    DecInjective(k, j);
    hide Dec;
    if a + "_" + Dec(k) == b + "_" + Dec(j) { LastUnderscore(a, b, Dec(k), Dec(j)); }
  }

  lemma EntryIdIs(round: nat, tool: string, k: nat)
    ensures EntryId(round, tool, k) == "call_" + (if round == 1 then tool else "r" + Dec(round)) + "_" + Dec(k)
  {
    Assoc("call_r", Dec(round), "_" + Dec(k));
  }

  /** The fallback identifiers of one assistant message differ, and so do those of one batch. */
  lemma FallbacksDiffer(round: nat, tool: string, k: nat, other: string, j: nat)
    requires j != k
    ensures EntryId(round, tool, k) != EntryId(round, other, j) && BatchId(tool, k) != BatchId(other, j)
  {
    EntryIdIs(round, tool, k);
    EntryIdIs(round, other, j);
    NumberedDiffer("call_" + tool, k, "call_" + other, j);
    hide EntryId, Dec;
    var a, b := if round == 1 then tool else "r" + Dec(round), if round == 1 then other else "r" + Dec(round);
    NumberedDiffer("call_" + a, k, "call_" + b, j);
  }

  /** The assistant message carries the calls as the model made them, each under an identifier. */
  lemma EntriesKeepCalls(round: nat, calls: seq<Call>)
    ensures |Entries(round, calls)| == |calls|
    ensures forall k | 0 <= k < |calls| ::
              var e := Entries(round, calls)[k];
              && e.tool == calls[k].tool && e.args == calls[k].args
              && e.id != "" && (calls[k].id != "" ==> e.id == calls[k].id)
  {
  }

  lemma IdMeets(env: Env, round: nat, calls: seq<Call>, k: nat)
    requires Clean(env, round, |calls|) && k < |calls|
    ensures |Batched(env, round, calls).messages| == |calls| && Batched(env, round, calls).messages[k].Tool?
    ensures Batched(env, round, calls).messages[k].id == Entries(round, calls)[k].id <==> Meets(env, round, calls, k)
  {
    hide Batched, BatchId, EntryId, Extra;
    BatchMessage(env, round, calls, k);
    FallbacksMeet(round, calls[k].tool, k, k + Extra(env, round, k));
  }

  /** A batch answers its assistant message exactly when no bookkeeping failed after a result was
      written, and every identifier comes from the provider or the fallbacks meet. */
  lemma BatchAnswers(env: Env, round: nat, calls: seq<Call>)
    ensures Answered(Entries(round, calls), Batched(env, round, calls).messages) <==> Sound(env, round, calls)
  {
    BatchSize(env, round, calls);
    hide Batched, Meets, Mended;
    if Clean(env, round, |calls|) {
      forall k: nat | k < |calls|
        ensures Batched(env, round, calls).messages[k].Tool?
        ensures Batched(env, round, calls).messages[k].id == Entries(round, calls)[k].id
                <==> Meets(env, round, calls, k)
      {
        IdMeets(env, round, calls, k);
      }
    }
  }

  // ---- The transcript ----

  /** The response of a round: the first one is given, later ones are the model's replies. */
  function At(env: Env, first: Response, round: nat): Response {
    if round > 1 && env.reply(round).Some? then env.reply(round).value else first
  }

  function Block(env: Env, first: Response, round: nat): seq<Message> {
    var r := At(env, first, round);
    [Assistant(r.answer, Entries(round, r.calls))] + Batched(env, round, r.calls).messages
  }

  /** The blocks of the rounds lo..hi. */
  function Turns(env: Env, first: Response, lo: nat, hi: nat): seq<Message>
    decreases hi + 1 - lo
  {
    if lo > hi then [] else Block(env, first, lo) + Turns(env, first, lo + 1, hi)
  }

  function AllRecords(env: Env, first: Response, hi: nat): seq<Record> {
    if hi == 0 then [] else AllRecords(env, first, hi - 1) + Batched(env, hi, At(env, first, hi).calls).executed
  }

  function AllCited(env: Env, first: Response, hi: nat): seq<string> {
    if hi == 0 then [] else AllCited(env, first, hi - 1) + Batched(env, hi, At(env, first, hi).calls).cited
  }

  /** What a provider accepts after the history: assistant messages that call tools, each followed by
      exactly the answers to its calls. Read message by message. */
  ghost predicate WellFormed(ms: seq<Message>)
    decreases |ms|
  {
    ms == [] ||
    (&& ms[0].Assistant? && ms[0].calls != [] && |ms| > |ms[0].calls|
     && Answered(ms[0].calls, ms[1..1 + |ms[0].calls|])
     && WellFormed(ms[1 + |ms[0].calls|..]))
  }

  lemma {:induction false} TurnsMore(env: Env, first: Response, lo: nat, hi: nat)
    requires lo <= hi + 1
    ensures Turns(env, first, lo, hi + 1) == Turns(env, first, lo, hi) + Block(env, first, hi + 1)
    decreases hi + 1 - lo
  {
    hide Block;
    if lo <= hi {
      TurnsMore(env, first, lo + 1, hi);
      Assoc(Block(env, first, lo), Turns(env, first, lo + 1, hi), Block(env, first, hi + 1));
    } else {
      assert Turns(env, first, lo + 1, hi + 1) == [];
      assert [] + Block(env, first, hi + 1) == Block(env, first, hi + 1) + [];
    }
  }

  /** Reading one block off a transcript. */
  lemma BlockReads(a: string, entries: seq<Call>, ms: seq<Message>, rest: seq<Message>)
    requires entries != [] && (forall m | m in ms :: m.Tool?) && (rest == [] || rest[0].Assistant?)
    ensures WellFormed([Assistant(a, entries)] + ms + rest) <==> Answered(entries, ms) && WellFormed(rest)
  {
    var all, n := [Assistant(a, entries)] + ms + rest, |entries|;
    if |ms| == n {
      BlockSlices(Assistant(a, entries), ms, rest);
    } else if |ms| < n {
      TooFew(all, |ms|);
    } else {
      assert all[1 + n] == ms[n] && ms[n] in ms;
      TooMany(all);
    }
  }

  lemma BlockSlices<T>(head: T, ms: seq<T>, rest: seq<T>)
    ensures var all := [head] + ms + rest; all[1..1 + |ms|] == ms && all[1 + |ms|..] == rest
  {
  }

  lemma TooFew(all: seq<Message>, k: nat)
    requires all != [] && all[0].Assistant? && k < |all[0].calls|
    requires |all| <= 1 + k || !all[1 + k].Tool?
    ensures !WellFormed(all)
  {
    if |all| > |all[0].calls| { assert all[1..1 + |all[0].calls|][k] == all[1 + k]; }
  }

  lemma TooMany(all: seq<Message>)
    requires all != [] && all[0].Assistant? && |all| > 1 + |all[0].calls| && all[1 + |all[0].calls|].Tool?
    ensures !WellFormed(all)
  {
    assert all[1 + |all[0].calls|..][0] == all[1 + |all[0].calls|];
  }

  ghost predicate SoundRound(env: Env, first: Response, q: nat) { Sound(env, q, At(env, first, q).calls) }

  lemma BlockThenRest(env: Env, first: Response, q: nat, rest: seq<Message>)
    requires At(env, first, q).calls != [] && (rest == [] || rest[0].Assistant?)
    ensures WellFormed(Block(env, first, q) + rest) <==> SoundRound(env, first, q) && WellFormed(rest)
  {
    var r := At(env, first, q);
    OnlyTools(env, q, r.calls);
    BatchAnswers(env, q, r.calls);
    hide At, Sound, Answered, WellFormed, Batched;
    BlockReads(r.answer, Entries(q, r.calls), Batched(env, q, r.calls).messages, rest);
  }

  lemma BlockStarts(env: Env, first: Response, q: nat)
    ensures Block(env, first, q) != [] && Block(env, first, q)[0].Assistant?
  {
  }

  ghost predicate AllSound(env: Env, first: Response, lo: nat, hi: nat)
    decreases hi + 1 - lo
  {
    lo > hi || (SoundRound(env, first, lo) && AllSound(env, first, lo + 1, hi))
  }

  lemma {:induction false} AllSoundMeans(env: Env, first: Response, lo: nat, hi: nat)
    ensures AllSound(env, first, lo, hi) <==> forall q | lo <= q <= hi :: SoundRound(env, first, q)
    decreases hi + 1 - lo
  {
    if lo <= hi {
      AllSoundMeans(env, first, lo + 1, hi);
      hide SoundRound;
    }
  }

  lemma {:induction false} TurnsStart(env: Env, first: Response, lo: nat, hi: nat)
    ensures var t := Turns(env, first, lo, hi); t == [] || t[0].Assistant?
  {
    if lo <= hi {
      BlockStarts(env, first, lo);
      hide Block;
    }
  }

  /** A transcript is well formed exactly when each of its batches is sound. */
  lemma {:induction false} TranscriptWellFormed(env: Env, first: Response, lo: nat, hi: nat)
    requires forall q | lo <= q <= hi :: At(env, first, q).calls != []
    ensures WellFormed(Turns(env, first, lo, hi)) <==> AllSound(env, first, lo, hi)
    decreases hi + 1 - lo
  {
    if lo <= hi {
      TranscriptWellFormed(env, first, lo + 1, hi);
      TurnsStart(env, first, lo + 1, hi);
      BlockThenRest(env, first, lo, Turns(env, first, lo + 1, hi));
      hide Block, SoundRound, WellFormed, At;
    }
  }

  // ---- The loop ----

  /** A round ends the loop: no reply, a reply without calls, or the round limit. */
  predicate Ends(env: Env, round: nat) {
    env.reply(round).None? || env.reply(round).value.calls == [] || round > MAX_ROUNDS
  }

  /** The first ending round, counting from `round`. */
  function Stop(env: Env, round: nat): (s: nat)
    requires round <= MAX_ROUNDS + 1
    ensures round <= s <= MAX_ROUNDS + 1 && Ends(env, s) && forall q | round <= q < s :: !Ends(env, q)
    decreases MAX_ROUNDS + 1 - round
  {
    if Ends(env, round) then round else Stop(env, round + 1)
  }

  /** `"\n".join` over the records of executed tools. */
  function Summaries(records: seq<Record>): seq<string> {
    if records == [] then []
    else
      var r := records[|records| - 1];
      Summaries(records[..|records| - 1]) + (if r.status.Executed? then ["- " + r.tool + ": " + r.summary] else [])
  }

  function Joined(lines: seq<string>): string {
    if lines == [] then ""
    else if |lines| == 1 then lines[0]
    else Joined(lines[..|lines| - 1]) + "\n" + lines[|lines| - 1]
  }

  /** The answer when a completion fails: the last answer, and what the executed tools gave. */
  function Fallback(answer: string, records: seq<Record>): string {
    var text := Joined(Summaries(records));
    answer + (if text != "" then "\n\n工具执行结果：\n" + text else "")
  }

  datatype Final = Final(
    requests: seq<seq<Message>>, answer: string, uncertainty: string, records: seq<Record>, cited: seq<string>)

  /** Each request was the history and the blocks so far. */
  ghost predicate Asked(env: Env, history: seq<Message>, first: Response, requests: seq<seq<Message>>) {
    forall j | 0 <= j < |requests| :: requests[j] == history + Turns(env, first, 1, j + 1)
  }

  lemma AskedMore(env: Env, history: seq<Message>, first: Response, requests: seq<seq<Message>>, messages: seq<Message>)
    requires Asked(env, history, first, requests) && messages == history + Turns(env, first, 1, |requests| + 1)
    ensures Asked(env, history, first, requests + [messages]) && |requests + [messages]| == |requests| + 1
  {
    hide Turns;
  }

  /** The outcome of a question, told from the round `stop` at which the loop ends: the completions
      of rounds 2..stop were asked, the tools of rounds 1..stop - 1 were run. */
  ghost predicate Told(env: Env, history: seq<Message>, first: Response, stop: nat, f: Final)
    requires stop >= 2
  {
    && |f.requests| == stop - 1 && Asked(env, history, first, f.requests)
    && f.records == AllRecords(env, first, stop - 1)
    && f.cited == AllCited(env, first, stop - 1)
    && (env.reply(stop).Some? ==>
          f.answer == env.redact(env.reply(stop).value.answer) && f.uncertainty == env.reply(stop).value.uncertainty)
    && (env.reply(stop).None? ==>
          && f.answer == env.redact(Fallback(At(env, first, stop - 1).answer, f.records))
          && f.uncertainty == At(env, first, stop - 1).uncertainty)
  }

  ghost predicate FinalOf(env: Env, history: seq<Message>, first: Response, f: Final) {
    if first.calls == [] then f == Final([], env.redact(first.answer), first.uncertainty, [], [])
    else Told(env, history, first, Stop(env, 2), f)
  }

  lemma SumsMore(env: Env, first: Response, round: nat)
    requires round > 1 && env.reply(round).Some?
    ensures AllRecords(env, first, round)
            == AllRecords(env, first, round - 1) + Batched(env, round, env.reply(round).value.calls).executed
    ensures AllCited(env, first, round)
            == AllCited(env, first, round - 1) + Batched(env, round, env.reply(round).value.calls).cited
    ensures Turns(env, first, 1, round) == Turns(env, first, 1, round - 1)
              + [Assistant(env.reply(round).value.answer, Entries(round, env.reply(round).value.calls))]
              + Batched(env, round, env.reply(round).value.calls).messages
  {
    TurnsMore(env, first, 1, round - 1);
    var r := env.reply(round).value;
    Assoc(Turns(env, first, 1, round - 1), [Assistant(r.answer, Entries(round, r.calls))],
      Batched(env, round, r.calls).messages);
  }

  lemma SumsStart(env: Env, first: Response)
    ensures AllRecords(env, first, 1) == Batched(env, 1, first.calls).executed
    ensures AllCited(env, first, 1) == Batched(env, 1, first.calls).cited
    ensures Turns(env, first, 1, 1)
            == [Assistant(first.answer, Entries(1, first.calls))] + Batched(env, 1, first.calls).messages
  {
    var b := Batched(env, 1, first.calls);
    assert AllRecords(env, first, 0) == [] && [] + b.executed == b.executed;
    assert AllCited(env, first, 0) == [] && [] + b.cited == b.cited;
    assert Turns(env, first, 2, 1) == [] && Block(env, first, 1) + [] == Block(env, first, 1);
  }

  /** Where the loop stands before the completion of `round`. */
  ghost predicate Before(env: Env, history: seq<Message>, first: Response, round: nat,
                         messages: seq<Message>, requests: seq<seq<Message>>, records: seq<Record>, cited: seq<string>)
    requires round >= 2
  {
    && messages == history + Turns(env, first, 1, round - 1)
    && |requests| == round - 2 && Asked(env, history, first, requests)
    && records == AllRecords(env, first, round - 1)
    && cited == AllCited(env, first, round - 1)
  }

  lemma BeforeStart(env: Env, history: seq<Message>, first: Response)
    ensures var b := Batched(env, 1, first.calls);
            Before(env, history, first, 2,
                   history + [Assistant(first.answer, Entries(1, first.calls))] + b.messages, [], b.executed, b.cited)
  {
    var b := Batched(env, 1, first.calls);
    SumsStart(env, first);
    Assoc(history, [Assistant(first.answer, Entries(1, first.calls))], b.messages);
  }

  lemma BeforeNext(env: Env, history: seq<Message>, first: Response, round: nat,
                   messages: seq<Message>, requests: seq<seq<Message>>, records: seq<Record>, cited: seq<string>)
    requires round >= 2 && env.reply(round).Some?
    requires Before(env, history, first, round, messages, requests, records, cited)
    ensures var r := env.reply(round).value; var b := Batched(env, round, r.calls);
            Before(env, history, first, round + 1,
                   messages + [Assistant(r.answer, Entries(round, r.calls))] + b.messages,
                   requests + [messages], records + b.executed, cited + b.cited)
  {
    var r := env.reply(round).value;
    var b, t := Batched(env, round, r.calls), Turns(env, first, 1, round - 1);
    SumsMore(env, first, round);
    AskedMore(env, history, first, requests, messages);
    hide Batched, Turns, AllRecords, AllCited, Entries, Asked;
    Assoc(history, t, [Assistant(r.answer, Entries(round, r.calls))]);
    Assoc(history, t + [Assistant(r.answer, Entries(round, r.calls))], b.messages);
  }

  lemma RoundStep(env: Env, first: Response, round: nat)
    requires 2 <= round <= MAX_ROUNDS + 1
    ensures env.reply(round).None? || env.reply(round).value.calls == [] || round > MAX_ROUNDS
            ==> Stop(env, round) == round
    ensures env.reply(round).Some? && env.reply(round).value.calls != [] && round <= MAX_ROUNDS ==>
              Stop(env, round) == Stop(env, round + 1) && At(env, first, round) == env.reply(round).value
  {
  }

  lemma FinalNow(env: Env, history: seq<Message>, first: Response, round: nat,
                 messages: seq<Message>, requests: seq<seq<Message>>, records: seq<Record>, cited: seq<string>,
                 answer: string, uncertainty: string)
    requires first.calls != [] && round == Stop(env, 2)
    requires Before(env, history, first, round, messages, requests, records, cited)
    requires env.reply(round).Some? ==>
             answer == env.redact(env.reply(round).value.answer) && uncertainty == env.reply(round).value.uncertainty
    requires env.reply(round).None? ==>
      && answer == env.redact(Fallback(At(env, first, round - 1).answer, records))
      && uncertainty == At(env, first, round - 1).uncertainty
    ensures FinalOf(env, history, first, Final(requests + [messages], answer, uncertainty, records, cited))
  {
    AskedMore(env, history, first, requests, messages);
    hide Turns, AllRecords, AllCited, Fallback, At, Stop, Asked;
  }

  lemma NothingToAnswer(env: Env, first: Response)
    ensures Batched(env, 1, first.calls).messages == [] <==> first.calls == []
  {
    BatchSize(env, 1, first.calls);
  }

  /** `_build_final_response`, called with what the first batch gave. */
  method BuildFinalResponse(env: Env, history: seq<Message>, first: Response,
                            executed: seq<Record>, toolMessages: seq<Message>, citations: seq<string>)
    returns (f: Final)
    requires Batch(executed, toolMessages, citations) == Batched(env, 1, first.calls)
    ensures FinalOf(env, history, first, f)
  {
    NothingToAnswer(env, first);
    if toolMessages == [] {
      return Final([], env.redact(first.answer), first.uncertainty, executed, citations);
    }
    BeforeStart(env, history, first);
    assert At(env, first, 1) == first;
    hide *;
    var messages := history + [Assistant(first.answer, Entries(1, first.calls))] + toolMessages;
    var requests: seq<seq<Message>> := [];
    var records, cited := executed, citations;
    var current, answer, uncertainty := first, env.redact(first.answer), first.uncertainty;
    var round := 2;
    while true
      invariant 2 <= round <= MAX_ROUNDS + 1 && Stop(env, 2) == Stop(env, round)
      invariant Before(env, history, first, round, messages, requests, records, cited)
      invariant current == At(env, first, round - 1)
      decreases MAX_ROUNDS + 1 - round
    {
      var reply := env.reply(round);
      RoundStep(env, first, round);
      if reply.None? {
        answer := env.redact(Fallback(current.answer, records));
        uncertainty := current.uncertainty;
        FinalNow(env, history, first, round, messages, requests, records, cited, answer, uncertainty);
        return Final(requests + [messages], answer, uncertainty, records, cited);
      }
      answer, uncertainty, current := env.redact(reply.value.answer), reply.value.uncertainty, reply.value;
      if reply.value.calls == [] || round > MAX_ROUNDS {
        FinalNow(env, history, first, round, messages, requests, records, cited, answer, uncertainty);
        return Final(requests + [messages], answer, uncertainty, records, cited);
      }
      var more, answers, extra := ProcessToolCalls(env, round, reply.value.calls);
      BeforeNext(env, history, first, round, messages, requests, records, cited);
      requests, records, cited := requests + [messages], records + more, cited + extra;
      messages := messages + [Assistant(reply.value.answer, Entries(round, reply.value.calls))] + answers;
      round := round + 1;
    }
  }

  /** A question from its first response to its final answer. */
  method Ask(env: Env, history: seq<Message>, first: Response) returns (f: Final)
    ensures FinalOf(env, history, first, f)
  {
    var executed, messages, cited := ProcessToolCalls(env, 1, first.calls);
    f := BuildFinalResponse(env, history, first, executed, messages, cited);
  }

  // ---- What the loop promises ----

  lemma RoundsBeforeStop(env: Env, first: Response)
    requires first.calls != []
    ensures forall q | 1 <= q < Stop(env, 2) :: At(env, first, q).calls != []
  {
  }

  /** At most ten further completions, and as many batches run, the first included; every
      request extends the history by a transcript that is well formed exactly when each batch in it
      was sound; and each request is the one before plus one block. */
  lemma RequestsAreTranscripts(env: Env, history: seq<Message>, first: Response, f: Final)
    requires FinalOf(env, history, first, f) && first.calls != []
    ensures 1 <= |f.requests| <= 10
    ensures forall j | 0 <= j < |f.requests| ::
              && history <= f.requests[j]
              && (WellFormed(f.requests[j][|history|..]) <==> forall q | 1 <= q <= j + 1 :: SoundRound(env, first, q))
    ensures forall j | 0 < j < |f.requests| :: f.requests[j] == f.requests[j - 1] + Block(env, first, j + 1)
  {
    RoundsBeforeStop(env, first);
    forall j | 0 <= j < |f.requests|
      ensures history <= f.requests[j]
      ensures WellFormed(f.requests[j][|history|..]) <==> forall q | 1 <= q <= j + 1 :: SoundRound(env, first, q)
    {
      TranscriptWellFormed(env, first, 1, j + 1);
      AllSoundMeans(env, first, 1, j + 1);
      assert f.requests[j][|history|..] == Turns(env, first, 1, j + 1);
    }
    forall j | 0 < j < |f.requests| ensures f.requests[j] == f.requests[j - 1] + Block(env, first, j + 1) {
      TurnsMore(env, first, 1, j);
      Assoc(history, Turns(env, first, 1, j), Block(env, first, j + 1));
    }
  }

  /** Provider identifiers everywhere and no failed bookkeeping: every request is well formed. */
  lemma ProviderIdsAreEnough(env: Env, history: seq<Message>, first: Response, f: Final)
    requires FinalOf(env, history, first, f) && first.calls != []
    requires forall q, k: nat :: !env.outcome(q, k).Uncited?
    requires forall q: nat, c | c in At(env, first, q).calls :: c.id != ""
    ensures forall j | 0 <= j < |f.requests| :: WellFormed(f.requests[j][|history|..])
  {
    RequestsAreTranscripts(env, history, first, f);
    forall q: nat ensures SoundRound(env, first, q) {}
  }

  lemma {:induction false} TurnsHave(env: Env, first: Response, lo: nat, hi: nat, m: Message)
    ensures m in Turns(env, first, lo, hi) <==> exists q :: lo <= q <= hi && m in Block(env, first, q)
    decreases hi + 1 - lo
  {
    hide Block;
    if lo <= hi {
      TurnsHave(env, first, lo + 1, hi, m);
      assert m in Turns(env, first, lo, hi) <==> m in Block(env, first, lo) || m in Turns(env, first, lo + 1, hi);
    }
  }

  lemma RequestIs(env: Env, history: seq<Message>, first: Response, f: Final, j: nat)
    requires FinalOf(env, history, first, f) && first.calls != [] && j < |f.requests|
    ensures history <= f.requests[j] && f.requests[j][|history|..] == Turns(env, first, 1, j + 1)
  {
    hide Turns, AllRecords, AllCited, Fallback, At;
    assert f.requests[j] == history + Turns(env, first, 1, j + 1);
  }

  lemma RequestHas(env: Env, history: seq<Message>, first: Response, f: Final, j: nat, m: Message)
    requires FinalOf(env, history, first, f) && first.calls != [] && j < |f.requests|
    ensures history <= f.requests[j]
    ensures m in f.requests[j][|history|..] <==> exists q :: 1 <= q <= j + 1 && m in Block(env, first, q)
  {
    RequestIs(env, history, first, f, j);
    hide *;
    TurnsHave(env, first, 1, j + 1, m);
  }

  /** The result of each call, in the rounds before a request, is in that request: the JSON the tool
      returned, under the identifier of the call. */
  lemma RequestsShowResults(env: Env, history: seq<Message>, first: Response, f: Final, j: nat, q: nat, k: nat)
    requires FinalOf(env, history, first, f) && first.calls != [] && j < |f.requests| && 1 <= q <= j + 1
    requires k < |At(env, first, q).calls| && WrittenOut(env.outcome(q, k))
    ensures history <= f.requests[j]
    ensures Tool(AnswerId(env, q, At(env, first, q).calls, k), Payload(env.outcome(q, k).json))
              in f.requests[j][|history|..]
  {
    var m := ResultIsShown(env, q, At(env, first, q).calls, k);
    assert m in Block(env, first, q);
    RequestHas(env, history, first, f, j, m);
    hide *;
  }

  /** And a request holds no other results: each is that of a call of a round before it. */
  lemma RequestsShowOnlyResults(env: Env, history: seq<Message>, first: Response, f: Final, j: nat, m: Message)
    returns (q: nat, k: nat)
    requires FinalOf(env, history, first, f) && first.calls != [] && j < |f.requests|
    requires history <= f.requests[j] && m in f.requests[j][|history|..] && m.Tool? && m.body.Payload?
    ensures 1 <= q <= j + 1 && ShownFor(env, q, At(env, first, q).calls, m, k)
  {
    RequestHas(env, history, first, f, j, m);
    q :| 1 <= q <= j + 1 && m in Block(env, first, q);
    k := ShownIsResult(env, q, At(env, first, q).calls, m);
  }

  /** The whole question cites exactly what the calls of its rounds cite whose result was written out. */
  lemma AnswerCites(env: Env, history: seq<Message>, first: Response, f: Final, c: string)
    requires FinalOf(env, history, first, f) && first.calls != []
    ensures c in f.cited
       <==> exists q: nat, k: nat :: 1 <= q < Stop(env, 2) && CitedBy(env, q, At(env, first, q).calls, c, k)
  {
    assert f.cited == AllCited(env, first, Stop(env, 2) - 1);
    hide *;
    AllCitedExactly(env, first, Stop(env, 2) - 1, c);
  }

  lemma {:induction false} AllCitedExactly(env: Env, first: Response, hi: nat, c: string)
    ensures c in AllCited(env, first, hi)
       <==> exists q: nat, k: nat :: 1 <= q <= hi && CitedBy(env, q, At(env, first, q).calls, c, k)
  {
    hide Batched, At, CitedBy;
    if hi > 0 {
      AllCitedExactly(env, first, hi - 1, c);
      CitedExactly(env, hi, At(env, first, hi).calls, c);
    }
  }

  // ---- The answer ----

  /** The question ends with the first reply that makes no calls, or with the eleventh round; the answer
      is that reply's, redacted. When the completion fails, it is the answer before with what the tools
      gave, redacted as well. */
  lemma AnswerIs(env: Env, history: seq<Message>, first: Response, f: Final)
    requires FinalOf(env, history, first, f) && first.calls != []
    ensures var stop := |f.requests| + 1;
            && 2 <= stop <= 11
            && (forall q | 2 <= q < stop :: env.reply(q).Some? && env.reply(q).value.calls != [])
            && (env.reply(stop).Some? ==>
                  && (stop < 11 ==> env.reply(stop).value.calls == [])
                  && f.answer == env.redact(env.reply(stop).value.answer)
                  && f.uncertainty == env.reply(stop).value.uncertainty)
            && (env.reply(stop).None? ==>
                  var last := if stop == 2 then first else env.reply(stop - 1).value;
                  f.answer == env.redact(Fallback(last.answer, f.records)) && f.uncertainty == last.uncertainty)
  {
    hide Turns, AllRecords, AllCited, Fallback, Asked;
  }

  /** A first response without calls is the answer, redacted. */
  lemma NothingAsked(env: Env, history: seq<Message>, first: Response, f: Final)
    requires FinalOf(env, history, first, f) && first.calls == []
    ensures f.answer == env.redact(first.answer) && f.requests == [] && f.records == [] && f.cited == []
  {
  }

  /** Each request repeats what the model itself said in the rounds before it, with the calls it made. */
  lemma RequestsShowReplies(env: Env, history: seq<Message>, first: Response, f: Final, j: nat, q: nat)
    requires FinalOf(env, history, first, f) && first.calls != [] && j < |f.requests| && 1 <= q <= j + 1
    ensures history <= f.requests[j] && (q > 1 ==> env.reply(q).Some?)
    ensures var r := if q == 1 then first else env.reply(q).value;
            Assistant(r.answer, Entries(q, r.calls)) in f.requests[j][|history|..]
  {
    AnswerIs(env, history, first, f);
    var r := At(env, first, q);
    assert Assistant(r.answer, Entries(q, r.calls)) in Block(env, first, q);
    RequestHas(env, history, first, f, j, Assistant(r.answer, Entries(q, r.calls)));
    hide FinalOf, Entries, Batched;
  }

  ghost predicate Within(part: string, text: string) { exists a, b :: text == a + part + b }

  function Line(r: Record): string { "- " + r.tool + ": " + r.summary }

  lemma WithinMore(part: string, text: string, a: string, b: string)
    requires Within(part, text)
    ensures Within(part, a + text + b)
  {
    var x, y :| text == x + part + y;
    assert a + text + b == (a + x) + part + (y + b);
  }

  lemma {:induction false} JoinedHas(lines: seq<string>, k: nat)
    requires k < |lines|
    ensures Within(lines[k], Joined(lines))
  {
    var n := |lines| - 1;
    assert "" + lines[n] + "" == lines[n];
    if n > 0 {
      if k < n {
        JoinedHas(lines[..n], k);
        WithinMore(lines[k], Joined(lines[..n]), "", "\n" + lines[n]);
        assert "" + Joined(lines[..n]) + ("\n" + lines[n]) == Joined(lines);
      } else {
        assert Joined(lines[..n]) + "\n" + lines[n] + "" == Joined(lines);
      }
    }
  }

  /** Lines keep their order. */
  lemma {:induction false} JoinedConcat(a: seq<string>, b: seq<string>)
    requires a != [] && b != []
    ensures Joined(a + b) == Joined(a) + "\n" + Joined(b)
  {
    var n := |b| - 1;
    assert (a + b)[..|a + b| - 1] == a + b[..n];
    if n == 0 {
      assert a + b[..0] == a && b == [b[0]];
    } else {
      JoinedConcat(a, b[..n]);
      Assoc(Joined(a) + "\n", Joined(b[..n]), "\n");
      Assoc(Joined(a) + "\n", Joined(b[..n]) + "\n", b[n]);
    }
  }

  lemma {:induction false} SummariesHas(records: seq<Record>, line: string)
    ensures line in Summaries(records) <==> exists r :: r in records && r.status.Executed? && line == Line(r)
  {
    if records != [] {
      var n := |records| - 1;
      SummariesHas(records[..n], line);
      assert records == records[..n] + [records[n]];
    }
  }

  /** The fallback starts with the answer there was and shows what each executed tool gave; without one it
      is just that answer. */
  lemma FallbackShows(answer: string, records: seq<Record>)
    ensures answer <= Fallback(answer, records)
    ensures forall r | r in records && r.status.Executed? :: Within(Line(r), Fallback(answer, records))
    ensures (forall r | r in records :: !r.status.Executed?) ==> Fallback(answer, records) == answer
  {
    var lines := Summaries(records);
    forall r | r in records && r.status.Executed? ensures Within(Line(r), Fallback(answer, records)) {
      SummariesHas(records, Line(r));
      var k :| 0 <= k < |lines| && lines[k] == Line(r);
      JoinedHas(lines, k);
      FallbackOf(answer, records, Line(r));
    }
    if forall r | r in records :: !r.status.Executed? {
      if lines != [] { SummariesHas(records, lines[0]); }
    }
  }

  lemma FallbackOf(answer: string, records: seq<Record>, line: string)
    requires Within(line, Joined(Summaries(records))) && line != ""
    ensures Within(line, Fallback(answer, records))
  {
    var text := Joined(Summaries(records));
    hide Joined, Summaries;
    assert text != "";
    WithinMore(line, text, answer + "\n\n工具执行结果：\n", "");
    assert answer + "\n\n工具执行结果：\n" + text + "" == Fallback(answer, records);
  }

  /** An executed tool is summarised in its own words, or by its name on display if it has none; a
      failed one with its error. */
  lemma SummaryTells(o: Outcome, c: Call)
    ensures Returned(o) ==>
      Records(o, c)[0].summary == if o.summary != "" then o.summary else "已执行 " + o.shown
    ensures o.Raised? || o.Doubled() ==>
      Within(o.error, Records(o, c)[|Records(o, c)| - 1].summary)
  {
    if o.Raised? || o.Doubled() { assert "工具执行失败: " + o.error + "" == Broken(c, o.error).summary; }
  }

  ghost predicate NoneDoubled(env: Env) { forall q: nat, k: nat :: !env.outcome(q, k).Doubled() }

  /** A record for every call of every batch, and exactly one when none was recorded twice. */
  lemma {:induction false} EveryCallIsRecorded(env: Env, first: Response, hi: nat)
    ensures |AllRecords(env, first, hi)| >= CallCount(env, first, hi)
    ensures NoneDoubled(env) ==> |AllRecords(env, first, hi)| == CallCount(env, first, hi)
  {
    if hi > 0 {
      EveryCallIsRecorded(env, first, hi - 1);
      BatchSize(env, hi, At(env, first, hi).calls);
      NoExtra(env, hi, |At(env, first, hi).calls|);
      hide Batched, At, Extra, NoneDoubled, Clean;
    }
  }

  function CallCount(env: Env, first: Response, hi: nat): nat {
    if hi == 0 then 0 else CallCount(env, first, hi - 1) + |At(env, first, hi).calls|
  }

  lemma {:induction false} NoExtra(env: Env, round: nat, k: nat)
    ensures NoneDoubled(env) ==> Extra(env, round, k) == 0
  {
    if k > 0 { NoExtra(env, round, k - 1); }
  }
}
