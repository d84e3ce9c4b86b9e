/** Workers that claim research rows by compare-and-set, under at-least-once delivery and next to a
    reconciler that requeues or fails stale rows.

    Every action below is one committed transaction, one call outside the database, or one crash, so
    a list of actions is an interleaving. An action that would wait for a row lock is not enabled. */
module ResearchTimeline {
  import opened Sets

  datatype Status = Queued | Running | Succeeded | Failed | Cancelled {
    predicate Terminal() { Succeeded? || Failed? || Cancelled? }
  }

  /** A run, or the candidate extraction job of a run; a run has at most one such job. */
  datatype Key = RunRow(id: nat) | JobRow(run: nat)

  datatype Row = Row(status: Status, submitted: int)

  /** Where a worker stands that has claimed a row: the AI not yet called; an outcome known; or,
      for a run, the finalizer between its read of the row and its write. */
  datatype Worker = Claimed(key: Key) | Decided(key: Key, ok: bool) | Writing(key: Key, final: Status)

  /** An open reconciler transaction: the rows it locked and the status it read from each. Next to the
      passes, `cancels` holds the runs that requests to cancel have read as active and not yet written. */
  datatype Pass = Pass(picked: seq<Key>, seen: map<Key, Status>)

  datatype Sys = Sys(
    now: int,
    rows: map<Key, Row>,
    outbox: seq<Key>,
    aiCalls: seq<Key>,
    workers: map<nat, Worker>,
    passes: map<nat, Pass>,
    cancels: map<nat, nat>)

  const Init := Sys(0, map[], [], [], map[], map[], map[])

  const StaleAfter := 600
  const Limit := 100

  datatype Action =
    | Submit(run: nat)
    | Tick(seconds: nat)
    | Deliver(w: nat, key: Key)
    | Refuse(key: Key)
    | ConfigMissing(w: nat)
    | CallAi(w: nat, answered: bool)
    | FinishJob(w: nat, success: bool)
    | ReadRun(w: nat, success: bool)
    | WriteRun(w: nat)
    | WriteFails(w: nat)
    | Crash(w: nat)
    | BeginPass(p: nat, picked: seq<Key>)
    | CommitPass(p: nat)
    | AbortPass(p: nat)
    | ReadCancel(c: nat, run: nat)
    | WriteCancel(c: nat)
    | DropCancel(c: nat)

  // ---- Row operations ----

  predicate HasStatus(rows: map<Key, Row>, k: Key, st: Status) {
    k in rows && rows[k].status == st
  }

  function SetStatus(rows: map<Key, Row>, k: Key, st: Status): map<Key, Row>
    requires k in rows
  {
    rows[k := rows[k].(status := st)]
  }

  /** UPDATE ... SET status = next WHERE id = k AND status = expected. */
  function CompareAndSet(rows: map<Key, Row>, k: Key, expected: Status, next: Status): map<Key, Row> {
    if HasStatus(rows, k, expected) then SetStatus(rows, k, next) else rows
  }

  predicate Stale(s: Sys, k: Key) {
    k in s.rows && s.rows[k].status in {Queued, Running} && s.rows[k].submitted < s.now - StaleAfter
  }

  predicate Locked(s: Sys, k: Key) {
    exists p | p in s.passes :: k in s.passes[p].picked
  }

  predicate Distinct<T(==)>(l: seq<T>) {
    forall i, j | 0 <= i < j < |l| :: l[i] != l[j]
  }

  /** What the two `LIMIT 100 ... FOR UPDATE SKIP LOCKED` queries may return, taken at one instant; see
      `TwoQueriesAsOne` for the time that passes between them. */
  predicate Selectable(s: Sys, picked: seq<Key>) {
    && Distinct(picked)
    && (forall k | k in picked :: Stale(s, k) && !Locked(s, k))
    && |set k | k in picked && k.RunRow?| <= Limit
    && |set k | k in picked && k.JobRow?| <= Limit
  }

  /** The statuses the pass writes: rows it read as running fail. */
  function Settle(rows: map<Key, Row>, seen: map<Key, Status>): map<Key, Row> {
    map k | k in rows ::
      if k in seen && seen[k] == Running then rows[k].(status := Failed) else rows[k]
  }

  /** The rows it read as queued, in the order it visited them. */
  function Requeued(picked: seq<Key>, seen: map<Key, Status>): seq<Key> {
    if picked == [] then []
    else
      (if picked[0] in seen && seen[picked[0]] == Queued then [picked[0]] else []) + Requeued(picked[1..], seen)
  }

  // ---- Steps ----

  predicate Enabled(s: Sys, a: Action) {
    match a
    case Submit(run) => RunRow(run) !in s.rows
    case Tick(_) => true
    case Deliver(w, k) => w !in s.workers && k in s.outbox && !Locked(s, k)
    case Refuse(k) => k.JobRow? && k in s.outbox && !Locked(s, k)
    case ConfigMissing(w) => w in s.workers && s.workers[w].Claimed?
    case CallAi(w, _) => w in s.workers && s.workers[w].Claimed?
    case FinishJob(w, success) =>
      && w in s.workers && s.workers[w].Decided? && s.workers[w].key.JobRow?
      && !Locked(s, s.workers[w].key) && (success ==> s.workers[w].ok)
    case ReadRun(w, success) =>
      && w in s.workers && s.workers[w].Decided? && s.workers[w].key.RunRow?
      && (success ==> s.workers[w].ok)
    case WriteRun(w) =>
      w in s.workers && s.workers[w].Writing? && s.workers[w].key in s.rows && !Locked(s, s.workers[w].key)
    case WriteFails(w) => w in s.workers && s.workers[w].Writing?
    case Crash(w) => w in s.workers
    case BeginPass(p, picked) => p !in s.passes && Selectable(s, picked)
    case CommitPass(p) => p in s.passes
    case AbortPass(p) => p in s.passes
    case ReadCancel(c, _) => c !in s.cancels
    case WriteCancel(c) => c in s.cancels && RunRow(s.cancels[c]) in s.rows && !Locked(s, RunRow(s.cancels[c]))
    case DropCancel(c) => c in s.cancels
  }

  function Apply(s: Sys, a: Action): Sys
    requires Enabled(s, a)
  {
    match a
    case Submit(run) =>
      s.(rows := s.rows[RunRow(run) := Row(Queued, s.now)], outbox := s.outbox + [RunRow(run)])
    case Tick(d) => s.(now := s.now + d)
    case Deliver(w, k) =>
      // The claim: only the row's queued status admits the worker.
      if HasStatus(s.rows, k, Queued)
      then s.(rows := CompareAndSet(s.rows, k, Queued, Running), workers := s.workers[w := Claimed(k)])
      else s
    case Refuse(k) =>
      // Claimed and failed in one transaction: the job's turn or plan is missing.
      s.(rows := CompareAndSet(s.rows, k, Queued, Failed))
    case ConfigMissing(w) => s.(workers := s.workers[w := Decided(s.workers[w].key, false)])
    case CallAi(w, answered) =>
      s.(aiCalls := s.aiCalls + [s.workers[w].key], workers := s.workers[w := Decided(s.workers[w].key, answered)])
    case FinishJob(w, success) =>
      // A rejected final compare-and-set is swallowed.
      s.(rows := CompareAndSet(s.rows, s.workers[w].key, Running, if success then Succeeded else Failed),
         workers := s.workers - {w})
    case ReadRun(w, success) =>
      var k := s.workers[w].key;
      if HasStatus(s.rows, k, Queued) || HasStatus(s.rows, k, Running)
      then s.(workers := s.workers[w := Writing(k, if success then Succeeded else Failed)])
      // On reachable states no worker gets here: see `NoWorkerOnSucceeded`.
      else if HasStatus(s.rows, k, Succeeded)
      then s.(workers := s.workers - {w})
      else if success
      // `complete` refuses a failed or cancelled run; the task then calls `fail`.
      then s.(workers := s.workers[w := Decided(k, false)])
      else if HasStatus(s.rows, k, Failed)
      then s.(workers := s.workers - {w})
      // `fail` spares only succeeded and failed runs.
      else s.(workers := s.workers[w := Writing(k, Failed)])
    case WriteRun(w) =>
      // The write names the row by id only.
      var k, final := s.workers[w].key, s.workers[w].final;
      if final == Succeeded && k.RunRow? then
        var job := JobRow(k.id);
        var rows := SetStatus(s.rows, k, Succeeded);
        s.(rows := if job in rows then rows else rows[job := Row(Queued, s.now)],
           outbox := s.outbox + [job], workers := s.workers - {w})
      else s.(rows := SetStatus(s.rows, k, final), workers := s.workers - {w})
    case WriteFails(w) => s.(workers := s.workers[w := Decided(s.workers[w].key, false)])
    case Crash(w) => s.(workers := s.workers - {w})
    case BeginPass(p, picked) =>
      s.(passes := s.passes[p := Pass(picked, map k | k in picked && k in s.rows :: s.rows[k].status)])
    case CommitPass(p) =>
      s.(rows := Settle(s.rows, s.passes[p].seen),
         outbox := s.outbox + Requeued(s.passes[p].picked, s.passes[p].seen),
         passes := s.passes - {p})
    case AbortPass(p) => s.(passes := s.passes - {p})
    case ReadCancel(c, run) =>
      // Only an active run can be cancelled...
      if HasStatus(s.rows, RunRow(run), Queued) || HasStatus(s.rows, RunRow(run), Running)
      then s.(cancels := s.cancels[c := run])
      else s
    case WriteCancel(c) =>
      // ... but the write names it by id only.
      s.(rows := SetStatus(s.rows, RunRow(s.cancels[c]), Cancelled), cancels := s.cancels - {c})
    case DropCancel(c) => s.(cancels := s.cancels - {c})
  }

  predicate CanRun(s: Sys, acts: seq<Action>)
    decreases |acts|
  {
    acts == [] || (Enabled(s, acts[0]) && CanRun(Apply(s, acts[0]), acts[1..]))
  }

  function After(s: Sys, acts: seq<Action>): Sys
    requires CanRun(s, acts)
    decreases |acts|
  {
    if acts == [] then s else After(Apply(s, acts[0]), acts[1..])
  }

  // ---- What a step changes ----

  /** The step writes this row; commits of passes apart. */
  predicate Touches(s: Sys, a: Action, k: Key)
    requires Enabled(s, a)
  {
    match a
    case Deliver(_, j) => j == k && HasStatus(s.rows, k, Queued)
    case Refuse(j) => j == k && HasStatus(s.rows, k, Queued)
    case FinishJob(w, _) => s.workers[w].key == k && HasStatus(s.rows, k, Running)
    case WriteRun(w) => s.workers[w].key == k
    case WriteCancel(c) => RunRow(s.cancels[c]) == k
    case _ => false
  }

  lemma Untouched(s: Sys, a: Action, k: Key)
    requires Enabled(s, a) && k in s.rows && !a.CommitPass? && !Touches(s, a, k)
    ensures k in Apply(s, a).rows && Apply(s, a).rows[k] == s.rows[k]
  {
  }

  lemma CancelTouches(s: Sys, c: nat, k: Key)
    requires Enabled(s, WriteCancel(c)) && Touches(s, WriteCancel(c), k)
    ensures HasStatus(Apply(s, WriteCancel(c)).rows, k, Cancelled)
  {
  }

  /** A step of this worker, after its claim. */
  predicate OfWorker(a: Action, w: nat) {
    || (a.ConfigMissing? && a.w == w)
    || (a.CallAi? && a.w == w)
    || (a.FinishJob? && a.w == w)
    || (a.ReadRun? && a.w == w)
    || (a.WriteRun? && a.w == w)
    || (a.WriteFails? && a.w == w)
    || (a.Crash? && a.w == w)
  }

  lemma OthersKeepWorker(s: Sys, a: Action, w: nat)
    requires Enabled(s, a) && w in s.workers && !OfWorker(a, w)
    ensures w in Apply(s, a).workers && Apply(s, a).workers[w] == s.workers[w]
  {
  }

  /** Only a delivery of a queued row brings a new worker, and no worker changes rows. */
  lemma WorkersAfter(s: Sys, a: Action, w: nat)
    requires Enabled(s, a) && w in Apply(s, a).workers
    ensures var k := Apply(s, a).workers[w].key;
            (w in s.workers && s.workers[w].key == k) || (a.Deliver? && a.key == k && HasStatus(s.rows, k, Queued))
  {
  }

  // ---- What every step keeps ----

  /** What a finalizer may write. */
  predicate IsOutcome(st: Status) { st == Succeeded || st == Failed }

  /** Each row has at most one worker, and none while it is queued. */
  ghost predicate Owners(s: Sys) {
    && (forall w | w in s.workers :: s.workers[w].key in s.rows && s.rows[s.workers[w].key].status != Queued)
    && (forall w, v | w in s.workers && v in s.workers && s.workers[w].key == s.workers[v].key :: w == v)
    && (forall w | w in s.workers && s.workers[w].Writing? :: s.workers[w].key.RunRow? && IsOutcome(s.workers[w].final))
  }

  /** A row whose AI call is still to come has none behind it. */
  ghost predicate Calls(s: Sys) {
    && Distinct(s.aiCalls)
    && (forall k | k in s.aiCalls :: k in s.rows && s.rows[k].status != Queued)
    && (forall w | w in s.workers && s.workers[w].Claimed? :: s.workers[w].key !in s.aiCalls)
  }

  /** What an open pass has read is still what the rows hold. */
  ghost predicate Fresh(s: Sys, p: nat)
    requires p in s.passes
  {
    && Distinct(s.passes[p].picked)
    && s.passes[p].seen.Keys == (set k | k in s.passes[p].picked)
    && (forall k | k in s.passes[p].seen :: k in s.rows && s.rows[k].status == s.passes[p].seen[k])
    && (forall k | k in s.passes[p].seen :: s.passes[p].seen[k] == Queued || s.passes[p].seen[k] == Running)
  }

  ghost predicate Locks(s: Sys) {
    && (forall p | p in s.passes :: Fresh(s, p))
    && (forall p, q | p in s.passes && q in s.passes && p != q :: s.passes[p].seen.Keys !! s.passes[q].seen.Keys)
  }

  ghost predicate Inv(s: Sys) {
    Owners(s) && Calls(s) && Locks(s)
  }

  predicate OfPass(a: Action) { a.BeginPass? || a.CommitPass? || a.AbortPass? }

  predicate OfCancel(a: Action) { a.ReadCancel? || a.WriteCancel? || a.DropCancel? }

  lemma OwnersCancel(s: Sys, a: Action)
    requires Owners(s) && Enabled(s, a) && OfCancel(a)
    ensures Owners(Apply(s, a))
  {
  }

  lemma CallsCancel(s: Sys, a: Action)
    requires Calls(s) && Enabled(s, a) && OfCancel(a)
    ensures Calls(Apply(s, a))
  {
  }

  lemma OwnersPass(s: Sys, a: Action)
    requires Owners(s) && Enabled(s, a) && OfPass(a)
    ensures Owners(Apply(s, a))
  {
  }

  lemma OwnersWrite(s: Sys, w: nat)
    requires Owners(s) && Enabled(s, WriteRun(w))
    ensures Owners(Apply(s, WriteRun(w)))
  {
  }

  /** A read of a run moves its worker on, or ends it, and changes no row. */
  lemma ReadMoves(s: Sys, w: nat, success: bool)
    requires Enabled(s, ReadRun(w, success))
    ensures var t, k := Apply(s, ReadRun(w, success)), s.workers[w].key;
            && k.RunRow? && t.rows == s.rows && t.aiCalls == s.aiCalls
            && (t.workers == s.workers - {w} || t.workers == s.workers[w := Decided(k, false)]
                || t.workers == s.workers[w := Writing(k, Failed)]
                || t.workers == s.workers[w := Writing(k, Succeeded)])
  {
  }

  lemma OwnersRead(s: Sys, w: nat, success: bool)
    requires Owners(s) && Enabled(s, ReadRun(w, success))
    ensures Owners(Apply(s, ReadRun(w, success)))
  {
    ReadMoves(s, w, success);
    hide Apply, Enabled;
  }

  lemma OwnersFail(s: Sys, w: nat)
    requires Owners(s) && Enabled(s, WriteFails(w))
    ensures Owners(Apply(s, WriteFails(w)))
  {
  }

  lemma OwnersStep(s: Sys, a: Action)
    requires Owners(s) && Enabled(s, a)
    ensures Owners(Apply(s, a))
  {
    if OfPass(a) {
      OwnersPass(s, a);
    } else if OfCancel(a) {
      OwnersCancel(s, a);
    } else if a.WriteRun? {
      OwnersWrite(s, a.w);
    } else if a.ReadRun? {
      OwnersRead(s, a.w, a.success);
    } else if a.WriteFails? {
      OwnersFail(s, a.w);
    }
  }

  lemma CallsPass(s: Sys, a: Action)
    requires Calls(s) && Enabled(s, a) && OfPass(a)
    ensures Calls(Apply(s, a))
  {
  }

  lemma CallsRead(s: Sys, w: nat, success: bool)
    requires Calls(s) && Enabled(s, ReadRun(w, success))
    ensures Calls(Apply(s, ReadRun(w, success)))
  {
    ReadMoves(s, w, success);
    hide Apply, Enabled;
  }

  lemma CallsWrite(s: Sys, w: nat)
    requires Owners(s) && Calls(s) && Enabled(s, WriteRun(w))
    ensures Calls(Apply(s, WriteRun(w)))
  {
  }

  lemma CallsStep(s: Sys, a: Action)
    requires Owners(s) && Calls(s) && Enabled(s, a)
    ensures Calls(Apply(s, a))
  {
    if OfPass(a) {
      CallsPass(s, a);
    } else if OfCancel(a) {
      CallsCancel(s, a);
    } else if a.ReadRun? {
      CallsRead(s, a.w, a.success);
    } else if a.WriteRun? {
      CallsWrite(s, a.w);
    }
  }

  lemma UnlockedCommit(s: Sys, q: nat, k: Key)
    requires Enabled(s, CommitPass(q)) && k in s.rows && k !in s.passes[q].seen
    ensures k in Apply(s, CommitPass(q)).rows && Apply(s, CommitPass(q)).rows[k] == s.rows[k]
  {
  }

  lemma LockedOtherwise(s: Sys, a: Action, k: Key)
    requires Enabled(s, a) && !a.CommitPass? && Locked(s, k) && k in s.rows
    ensures k in Apply(s, a).rows && Apply(s, a).rows[k] == s.rows[k]
  {
    Untouched(s, a, k);
    hide Apply, Locked;
  }

  /** No step but the end of the pass itself changes a row that a pass has locked. */
  lemma LockedRowKept(s: Sys, a: Action, p: nat, k: Key)
    requires Owners(s) && Locks(s) && Enabled(s, a)
    requires p in s.passes && k in s.passes[p].seen && a != CommitPass(p)
    ensures k in s.rows && k in Apply(s, a).rows && Apply(s, a).rows[k] == s.rows[k]
  {
    assert Fresh(s, p);
    assert k in s.passes[p].picked && Locked(s, k);
    if a.CommitPass? {
      assert k !in s.passes[a.p].seen.Keys;
      UnlockedCommit(s, a.p, k);
    } else {
      LockedOtherwise(s, a, k);
    }
    hide Apply, Owners;
  }

  lemma BeginPassFresh(s: Sys, p: nat, picked: seq<Key>)
    requires Locks(s) && Enabled(s, BeginPass(p, picked))
    ensures Fresh(Apply(s, BeginPass(p, picked)), p)
    ensures forall q | q in s.passes :: Apply(s, BeginPass(p, picked)).passes[p].seen.Keys !! s.passes[q].seen.Keys
  {
    forall q, k | q in s.passes && k in s.passes[q].seen ensures k !in picked {
      assert Fresh(s, q);
      assert k in s.passes[q].picked;
    }
  }

  lemma FreshStays(s: Sys, a: Action, p: nat)
    requires Owners(s) && Locks(s) && Enabled(s, a) && p in s.passes && p in Apply(s, a).passes
    ensures Apply(s, a).passes[p] == s.passes[p] && Fresh(Apply(s, a), p)
  {
    PassStays(s, a, p);
    forall k | k in s.passes[p].seen ensures k in s.rows && k in Apply(s, a).rows && Apply(s, a).rows[k] == s.rows[k] {
      LockedRowKept(s, a, p, k);
    }
    assert Fresh(s, p);
    hide Apply, Enabled, Owners, Locks;
  }

  lemma PassStays(s: Sys, a: Action, p: nat)
    requires Enabled(s, a) && p in s.passes && p in Apply(s, a).passes
    ensures Apply(s, a).passes[p] == s.passes[p] && a != CommitPass(p)
  {
  }

  lemma PassEnds(s: Sys, a: Action, p: nat)
    requires Enabled(s, a) && p in s.passes && a != CommitPass(p) && a != AbortPass(p)
    ensures p in Apply(s, a).passes
  {
  }

  lemma PassesAfter(s: Sys, a: Action)
    requires Enabled(s, a)
    ensures forall p | p in Apply(s, a).passes :: p in s.passes || (a.BeginPass? && a.p == p)
  {
  }

  lemma LocksStep(s: Sys, a: Action)
    requires Owners(s) && Locks(s) && Enabled(s, a)
    ensures Locks(Apply(s, a))
  {
    var s' := Apply(s, a);
    PassesAfter(s, a);
    if a.BeginPass? { BeginPassFresh(s, a.p, a.picked); }
    forall p | p in s'.passes ensures Fresh(s', p) ensures p in s.passes ==> s'.passes[p] == s.passes[p] {
      if p in s.passes { FreshStays(s, a, p); }
    }
    hide Apply, Enabled, Fresh, Owners;
  }

  lemma InvStep(s: Sys, a: Action)
    requires Inv(s) && Enabled(s, a)
    ensures Inv(Apply(s, a))
  {
    OwnersStep(s, a);
    CallsStep(s, a);
    LocksStep(s, a);
  }

  lemma {:induction false} InvRun(s: Sys, acts: seq<Action>)
    requires Inv(s) && CanRun(s, acts)
    ensures Inv(After(s, acts))
    decreases |acts|
  {
    if acts != [] {
      InvStep(s, acts[0]);
      InvRun(Apply(s, acts[0]), acts[1..]);
    }
  }

  // ---- Safety over every run ----

  /** Whatever the interleaving of duplicate deliveries, crashes and reconciler passes, the model is
      called at most once for each run and for each extraction job. */
  lemma AiCalledAtMostOnce(acts: seq<Action>)
    requires CanRun(Init, acts)
    ensures Distinct(After(Init, acts).aiCalls)
  {
    InvRun(Init, acts);
  }

  predicate Edge(k: Key, a: Status, b: Status) {
    || a == b
    || (a == Queued && b == Running)
    || (a == Running && (b == Succeeded || b == Failed))
    || (k.JobRow? && a == Queued && b == Failed)
    || (k.RunRow? && (a == Queued || a == Running) && b == Cancelled)
  }

  predicate HasEnded(rows: map<Key, Row>, k: Key) { k in rows && rows[k].status.Terminal() }

  /** A run's finalizer, or a request to cancel it, is about to write over a run that has ended with
      another outcome since it was read. */
  predicate Overwrites(s: Sys, a: Action, k: Key) {
    && HasEnded(s.rows, k)
    && ((a.WriteRun? && a.w in s.workers && s.workers[a.w].Writing? && s.workers[a.w].key == k
         && s.rows[k].status != s.workers[a.w].final)
        || (a.WriteCancel? && a.c in s.cancels && RunRow(s.cancels[a.c]) == k && s.rows[k].status != Cancelled))
  }

  lemma WriteFollowsEdges(s: Sys, w: nat, k: Key)
    requires Inv(s) && Enabled(s, WriteRun(w)) && k in s.rows
    ensures k in Apply(s, WriteRun(w)).rows
    ensures Edge(k, s.rows[k].status, Apply(s, WriteRun(w)).rows[k].status) <==> !Overwrites(s, WriteRun(w), k)
    ensures Overwrites(s, WriteRun(w), k) ==> k.RunRow?
  {
  }

  lemma CancelFollowsEdges(s: Sys, c: nat, k: Key)
    requires Enabled(s, WriteCancel(c)) && k in s.rows
    ensures k in Apply(s, WriteCancel(c)).rows
    ensures Edge(k, s.rows[k].status, Apply(s, WriteCancel(c)).rows[k].status) <==> !Overwrites(s, WriteCancel(c), k)
  {
  }

  lemma OthersFollowEdges(s: Sys, a: Action, k: Key)
    requires Inv(s) && Enabled(s, a) && !a.WriteRun? && !a.WriteCancel? && k in s.rows
    ensures k in Apply(s, a).rows && Edge(k, s.rows[k].status, Apply(s, a).rows[k].status)
  {
    if a.CommitPass? { assert Fresh(s, a.p); }
  }

  /** Every step moves every row along an edge, except exactly the steps in which a run's finalizer, or
      a request to cancel it, overwrites an ended run with another outcome. */
  lemma RowsFollowEdges(s: Sys, a: Action, k: Key)
    requires Inv(s) && Enabled(s, a) && k in s.rows
    ensures k in Apply(s, a).rows
    ensures Edge(k, s.rows[k].status, Apply(s, a).rows[k].status) <==> !Overwrites(s, a, k)
    ensures Overwrites(s, a, k) ==> k.RunRow?
  {
    if a.WriteRun? {
      WriteFollowsEdges(s, a.w, k);
    } else if a.WriteCancel? {
      CancelFollowsEdges(s, a.c, k);
    } else {
      OthersFollowEdges(s, a, k);
    }
  }

  predicate Forward(a: Status, b: Status) {
    a == b || (a == Queued && b != Queued) || (a == Running && b.Terminal())
  }

  /** No step of the run overwrites the row. */
  predicate NeverOverwritten(s: Sys, acts: seq<Action>, k: Key)
    requires CanRun(s, acts)
    decreases |acts|
  {
    acts == [] || (!Overwrites(s, acts[0], k) && NeverOverwritten(Apply(s, acts[0]), acts[1..], k))
  }

  /** Over any run an extraction job only moves forward and an ended one never changes; so does a run
      that is never overwritten. No row ever returns to the queue. */
  lemma {:induction false} StatusOnlyMovesForward(s: Sys, acts: seq<Action>, k: Key)
    requires Inv(s) && CanRun(s, acts) && k in s.rows
    ensures k in After(s, acts).rows
    ensures k.JobRow? || NeverOverwritten(s, acts, k) ==> Forward(s.rows[k].status, After(s, acts).rows[k].status)
    ensures s.rows[k].status != Queued ==> After(s, acts).rows[k].status != Queued
    decreases |acts|
  {
    if acts != [] {
      InvStep(s, acts[0]);
      RowsFollowEdges(s, acts[0], k);
      hide Apply, Enabled, Overwrites, Inv;
      StatusOnlyMovesForward(Apply(s, acts[0]), acts[1..], k);
    }
  }

  // ---- A reconciler pass ----

  predicate Keeps(acts: seq<Action>, p: nat) {
    CommitPass(p) !in acts && AbortPass(p) !in acts
  }

  lemma PassKeptOnce(s: Sys, a: Action, p: nat)
    requires Inv(s) && Enabled(s, a) && p in s.passes && a != CommitPass(p) && a != AbortPass(p)
    ensures var t := Apply(s, a);
            && Inv(t) && p in t.passes && t.passes[p] == s.passes[p]
            && forall k | k in s.passes[p].seen :: k in s.rows && k in t.rows && t.rows[k] == s.rows[k]
  {
    var t := Apply(s, a);
    PassEnds(s, a, p);
    PassStays(s, a, p);
    InvStep(s, a);
    forall k | k in s.passes[p].seen ensures k in s.rows && k in t.rows && t.rows[k] == s.rows[k] {
      LockedRowKept(s, a, p, k);
    }
    hide Apply, Enabled, Owners, Locks, Calls;
  }

  lemma {:induction false} PassKept(s: Sys, acts: seq<Action>, p: nat)
    requires Inv(s) && CanRun(s, acts) && p in s.passes && Keeps(acts, p)
    ensures p in After(s, acts).passes && After(s, acts).passes[p] == s.passes[p]
    ensures forall k | k in s.passes[p].seen :: k in After(s, acts).rows && After(s, acts).rows[k] == s.rows[k]
    decreases |acts|
  {
    assert Fresh(s, p);
    hide Inv, Apply;
    if acts != [] {
      assert acts[0] in acts;
      PassKeptOnce(s, acts[0], p);
      PassKept(Apply(s, acts[0]), acts[1..], p);
    }
  }

  lemma {:induction false} RequeuedOnce(picked: seq<Key>, seen: map<Key, Status>, k: Key)
    requires Distinct(picked)
    ensures multiset(Requeued(picked, seen))[k] == if k in picked && k in seen && seen[k] == Queued then 1 else 0
  {
    if picked != [] {
      RequeuedOnce(picked[1..], seen, k);
      assert picked == [picked[0]] + picked[1..];
    }
  }

  /** The stale rows of one table that no transaction has locked. */
  function StaleRuns(s: Sys): set<Key> { set k | k in s.rows && Stale(s, k) && !Locked(s, k) && k.RunRow? }

  function StaleJobs(s: Sys): set<Key> { set k | k in s.rows && Stale(s, k) && !Locked(s, k) && k.JobRow? }

  /** The two queries stop short of a stale row only at the limit. */
  predicate RunsFull(s: Sys, picked: seq<Key>) {
    (forall k | k in StaleRuns(s) :: k in picked) || |set k | k in picked && k.RunRow?| == Limit
  }

  predicate JobsFull(s: Sys, picked: seq<Key>) {
    (forall k | k in StaleJobs(s) :: k in picked) || |set k | k in picked && k.JobRow?| == Limit
  }

  predicate Full(s: Sys, picked: seq<Key>) { Selectable(s, picked) && RunsFull(s, picked) && JobsFull(s, picked) }

  lemma FewAreAllPicked(s: Sys, picked: seq<Key>, k: Key)
    requires Selectable(s, picked) && Stale(s, k) && !Locked(s, k)
    requires k.RunRow? ==> RunsFull(s, picked) && |StaleRuns(s)| <= Limit
    requires k.JobRow? ==> JobsFull(s, picked) && |StaleJobs(s)| <= Limit
    ensures k in picked
  {
    var runs, jobs := set k | k in picked && k.RunRow?, set k | k in picked && k.JobRow?;
    assert runs <= StaleRuns(s) && jobs <= StaleJobs(s);
    if k !in picked {
      assert k in if k.RunRow? then StaleRuns(s) else StaleJobs(s);
      if k.RunRow? { SubsetOfSameSize(runs, StaleRuns(s)); } else { SubsetOfSameSize(jobs, StaleJobs(s)); }
    }
  }

  /** What the commit of a pass does to a row, by what the pass read. */
  ghost predicate Settles(s: Sys, before: Sys, p: nat, k: Key, picked: bool)
    requires Enabled(before, CommitPass(p)) && (picked ==> k in s.rows)
  {
    var after := Apply(before, CommitPass(p));
    && before.outbox <= after.outbox
    && var sent := multiset(after.outbox[|before.outbox|..])[k];
    if picked then
      && k in after.rows
      && (s.rows[k].status == Running ==> after.rows[k].status == Failed && sent == 0)
      && (s.rows[k].status == Queued ==> after.rows[k].status == Queued && sent == 1)
    else
      sent == 0 && (k in before.rows ==> k in after.rows && after.rows[k] == before.rows[k])
  }

  /** Whatever happens between the queries of a pass and its commit, no row it picked is left running
      and each one it read as queued is still queued and put in the outbox exactly once; other rows are
      as it found them. */
  lemma PassSettles(s: Sys, p: nat, picked: seq<Key>, acts: seq<Action>, k: Key)
    requires Inv(s) && Enabled(s, BeginPass(p, picked))
    requires CanRun(Apply(s, BeginPass(p, picked)), acts) && Keeps(acts, p)
    ensures k in picked ==> k in s.rows && (s.rows[k].status == Queued || s.rows[k].status == Running)
    ensures var before := After(Apply(s, BeginPass(p, picked)), acts);
            Enabled(before, CommitPass(p)) && Settles(s, before, p, k, k in picked)
  {
    var start := Apply(s, BeginPass(p, picked));
    InvStep(s, BeginPass(p, picked));
    PassKept(start, acts, p);
    var before := After(start, acts);
    PickedIsRead(s, p, picked, k);
    CommitSettles(s, before, p, k);
    hide Inv, CanRun, After, Apply, Selectable, Settles;
  }

  lemma PickedIsRead(s: Sys, p: nat, picked: seq<Key>, k: Key)
    requires Enabled(s, BeginPass(p, picked))
    ensures var pass := Apply(s, BeginPass(p, picked)).passes[p];
            && p in Apply(s, BeginPass(p, picked)).passes && pass.picked == picked && Distinct(picked)
            && (k in pass.seen <==> k in picked)
            && (k in picked ==> k in s.rows && pass.seen[k] == s.rows[k].status && pass.seen[k] in {Queued, Running})
    ensures Apply(s, BeginPass(p, picked)).rows == s.rows
  {
    if k in picked { assert Stale(s, k); }
  }

  lemma CommitSettles(s: Sys, before: Sys, p: nat, k: Key)
    requires p in before.passes
    requires var pass := before.passes[p];
             && Distinct(pass.picked) && (k in pass.seen <==> k in pass.picked)
             && (k in pass.picked ==> k in s.rows && k in before.rows)
             && (k in pass.picked ==> before.rows[k] == s.rows[k] && pass.seen[k] == s.rows[k].status)
    ensures Settles(s, before, p, k, k in before.passes[p].picked)
  {
    var pass := before.passes[p];
    RequeuedOnce(pass.picked, pass.seen, k);
    assert Apply(before, CommitPass(p)).outbox[|before.outbox|..] == Requeued(pass.picked, pass.seen);
  }

  /** A pass whose queries find at most a hundred stale rows in each table settles every one of them. */
  lemma PassSettlesStaleRows(s: Sys, p: nat, picked: seq<Key>, acts: seq<Action>, k: Key)
    requires Inv(s) && Full(s, picked) && Enabled(s, BeginPass(p, picked))
    requires |StaleRuns(s)| <= Limit && |StaleJobs(s)| <= Limit
    requires CanRun(Apply(s, BeginPass(p, picked)), acts) && Keeps(acts, p)
    ensures var before := After(Apply(s, BeginPass(p, picked)), acts);
            Enabled(before, CommitPass(p)) && Settles(s, before, p, k, Stale(s, k) && !Locked(s, k))
  {
    PassSettles(s, p, picked, acts, k);
    if Stale(s, k) && !Locked(s, k) { FewAreAllPicked(s, picked, k); }
    assert k in picked <==> Stale(s, k) && !Locked(s, k);
    hide Settles, Inv, CanRun, After;
  }

  /** Without pass p. */
  function Forgetting(s: Sys, p: nat): Sys { s.(passes := s.passes - {p}) }

  /** A row that an open pass has picked may still be picked, were the pass to begin only now. */
  lemma StillPickable(s: Sys, p: nat, k: Key, since: int)
    requires Inv(s) && p in s.passes && k in s.passes[p].picked && since <= s.now
    requires k in s.rows && s.rows[k].submitted < since - StaleAfter
    requires k in s.passes[p].seen && s.passes[p].seen[k] in {Queued, Running}
    ensures Stale(Forgetting(s, p), k) && !Locked(Forgetting(s, p), k) && s.rows[k].status == s.passes[p].seen[k]
  {
    assert Fresh(s, p);
    forall q | q in s.passes && q != p ensures k !in s.passes[q].picked {
      assert Fresh(s, q);
      assert k in s.passes[p].seen.Keys;
    }
  }

  lemma RunsThenJobs(s: Sys, runs: seq<Key>, jobs: seq<Key>)
    requires (forall k | k in runs :: k.RunRow?) && forall k | k in jobs :: k.JobRow?
    requires Distinct(runs) && |set k | k in runs && k.RunRow?| <= Limit
    requires Distinct(jobs) && |set k | k in jobs && k.JobRow?| <= Limit
    requires forall k | k in runs + jobs :: Stale(s, k) && !Locked(s, k)
    ensures Selectable(s, runs + jobs)
  {
    forall i, j | 0 <= i < j < |runs + jobs| ensures (runs + jobs)[i] != (runs + jobs)[j] {
      if i < |runs| <= j { assert runs[i] in runs && jobs[j - |runs|] in jobs; }
    }
    assert (set k | k in runs + jobs && k.RunRow?) == set k | k in runs && k.RunRow?;
    assert (set k | k in runs + jobs && k.JobRow?) == set k | k in jobs && k.JobRow?;
  }

  lemma ForgetEnables(s: Sys, a: Action, p: nat)
    requires Enabled(s, a) && p in s.passes && a != CommitPass(p) && a != AbortPass(p)
    ensures Enabled(Forgetting(s, p), a)
  {
    assert forall k | !Locked(s, k) :: !Locked(Forgetting(s, p), k);
  }

  lemma ForgetOnce(s: Sys, a: Action, p: nat)
    requires Enabled(s, a) && Enabled(Forgetting(s, p), a)
    requires p in s.passes && a != CommitPass(p) && a != AbortPass(p)
    ensures p in Apply(s, a).passes && Apply(Forgetting(s, p), a) == Forgetting(Apply(s, a), p)
  {
    PassEnds(s, a, p);
    if OfPass(a) {
      ForgetPass(s, a, p);
    } else {
      PassesKept(s, a);
      ForgetOther(s, a, s.passes - {p});
    }
    hide Apply, Enabled;
  }

  lemma ForgetOther(s: Sys, a: Action, passes: map<nat, Pass>)
    requires Enabled(s, a) && Enabled(s.(passes := passes), a) && !OfPass(a)
    ensures Apply(s.(passes := passes), a) == Apply(s, a).(passes := passes)
  {
  }

  lemma ForgetPass(s: Sys, a: Action, p: nat)
    requires Enabled(s, a) && Enabled(Forgetting(s, p), a) && OfPass(a)
    requires p in s.passes && a != CommitPass(p) && a != AbortPass(p)
    ensures Apply(Forgetting(s, p), a) == Forgetting(Apply(s, a), p)
  {
    assert a.p != p && (a.BeginPass? || Forgetting(s, p).passes[a.p] == s.passes[a.p]);
    hide Settle, Requeued;
    assert s.passes - {p} - {a.p} == s.passes - {a.p} - {p};
    if a.BeginPass? {
      var pass := Apply(s, a).passes[a.p];
      assert (s.passes - {p})[a.p := pass] == s.passes[a.p := pass] - {p};
    }
  }

  /** An open pass only holds others up: what happens next to it could happen just so without it. */
  lemma {:induction false} ForgetCommutes(s: Sys, acts: seq<Action>, p: nat)
    requires CanRun(s, acts) && p in s.passes && Keeps(acts, p)
    ensures CanRun(Forgetting(s, p), acts) && After(Forgetting(s, p), acts) == Forgetting(After(s, acts), p)
    decreases |acts|
  {
    hide Apply, Enabled, Forgetting;
    if acts != [] {
      var a := acts[0];
      assert a in acts;
      ForgetEnables(s, a, p);
      ForgetOnce(s, a, p);
      ForgetCommutes(Apply(s, a), acts[1..], p);
    }
  }

  /** The source asks for stale runs, loops over them, and only then asks for stale jobs. Both queries
      may be taken at the instant of the second one: what happens in between happens just so without
      the pass; the runs may then be picked together with the jobs, and are read with the status that
      the first query read. A run that turns stale in between is left to the next pass, so `RunsFull`
      holds at the first query and need not hold at the second. */
  lemma TwoQueriesAsOne(s: Sys, p: nat, runs: seq<Key>, acts: seq<Action>, jobs: seq<Key>)
    requires Inv(s) && Enabled(s, BeginPass(p, runs)) && forall k | k in runs :: k.RunRow?
    requires CanRun(Apply(s, BeginPass(p, runs)), acts) && Keeps(acts, p)
    requires Selectable(After(Apply(s, BeginPass(p, runs)), acts), jobs) && forall k | k in jobs :: k.JobRow?
    ensures var t := After(Apply(s, BeginPass(p, runs)), acts);
            && CanRun(s, acts) && After(s, acts) == Forgetting(t, p)
            && Enabled(After(s, acts), BeginPass(p, runs + jobs))
            && forall k | k in runs :: k in s.rows && k in t.rows && t.rows[k] == s.rows[k]
  {
    var t := After(Apply(s, BeginPass(p, runs)), acts);
    BetweenQueries(s, p, runs, acts);
    ForgetPicks(t, p, jobs);
    hide Inv, CanRun, After, Apply, Forgetting, Stale, Locked, Keeps;
    RunsThenJobs(Forgetting(t, p), runs, jobs);
  }

  lemma BetweenQueries(s: Sys, p: nat, runs: seq<Key>, acts: seq<Action>)
    requires Inv(s) && Enabled(s, BeginPass(p, runs))
    requires CanRun(Apply(s, BeginPass(p, runs)), acts) && Keeps(acts, p)
    ensures var t := After(Apply(s, BeginPass(p, runs)), acts);
            && CanRun(s, acts) && After(s, acts) == Forgetting(t, p)
            && forall k | k in runs ::
                 && k in s.rows && k in t.rows && t.rows[k] == s.rows[k]
                 && Stale(Forgetting(t, p), k) && !Locked(Forgetting(t, p), k)
  {
    var start := Apply(s, BeginPass(p, runs));
    var t := After(start, acts);
    InvStep(s, BeginPass(p, runs));
    InvRun(start, acts);
    PassKept(start, acts, p);
    ForgetBegin(s, p, runs);
    ForgetCommutes(start, acts, p);
    NowGrows(start, acts);
    hide Inv, CanRun, After, Apply, Forgetting, Stale, Locked;
    forall k | k in runs
      ensures k in s.rows && k in t.rows && t.rows[k] == s.rows[k]
      ensures Stale(Forgetting(t, p), k) && !Locked(Forgetting(t, p), k)
    {
      PickedIsRead(s, p, runs, k);
      StillPickable(t, p, k, s.now);
    }
  }

  lemma ForgetBegin(s: Sys, p: nat, picked: seq<Key>)
    requires Enabled(s, BeginPass(p, picked))
    ensures Forgetting(Apply(s, BeginPass(p, picked)), p) == s
    ensures Apply(s, BeginPass(p, picked)).now == s.now
    ensures forall k | k in picked :: Stale(s, k) && s.rows[k].submitted < s.now - StaleAfter
  {
  }

  lemma ForgetPicks(s: Sys, p: nat, picked: seq<Key>)
    requires Selectable(s, picked)
    ensures Selectable(Forgetting(s, p), picked) && p !in Forgetting(s, p).passes && Forgetting(s, p).rows == s.rows
  {
  }

  // ---- Two runs worth knowing ----

  lemma Prefix(s: Sys, a: Action, t: Sys, acts: seq<Action>)
    requires Enabled(s, a) && t == Apply(s, a) && CanRun(t, acts)
    ensures CanRun(s, [a] + acts) && After(s, [a] + acts) == After(t, acts)
  {
    assert ([a] + acts)[1..] == acts;
  }

  /** A run that a worker claimed and whose answer it has, submitted `age` seconds ago. */
  function Answered(age: nat): Sys {
    var k := RunRow(0);
    Sys(age, map[k := Row(Running, 0)], [k], [k], map[0 := Decided(k, true)], map[], map[])
  }

  function ToAnswered(age: nat): seq<Action> {
    [Submit(0), Tick(age), Deliver(0, RunRow(0)), CallAi(0, true)]
  }

  /** The states on the way there. */
  function Submitted(age: nat): Sys {
    Sys(age, map[RunRow(0) := Row(Queued, 0)], [RunRow(0)], [], map[], map[], map[])
  }

  function Delivered(age: nat): Sys {
    Sys(age, map[RunRow(0) := Row(Running, 0)], [RunRow(0)], [], map[0 := Claimed(RunRow(0))], map[], map[])
  }

  lemma SubmitLeads(age: nat)
    ensures Enabled(Init, Submit(0)) && Apply(Init, Submit(0)) == Submitted(0)
    ensures Enabled(Submitted(0), Tick(age)) && Apply(Submitted(0), Tick(age)) == Submitted(age)
  {
  }

  lemma DeliverLeads(age: nat)
    ensures Enabled(Submitted(age), Deliver(0, RunRow(0)))
    ensures Apply(Submitted(age), Deliver(0, RunRow(0))) == Delivered(age)
  {
  }

  lemma CallLeads(age: nat)
    ensures Enabled(Delivered(age), CallAi(0, true)) && Apply(Delivered(age), CallAi(0, true)) == Answered(age)
  {
  }

  lemma AnsweredReached(age: nat)
    ensures CanRun(Init, ToAnswered(age)) && After(Init, ToAnswered(age)) == Answered(age)
  {
    SubmitLeads(age);
    DeliverLeads(age);
    CallLeads(age);
    var a, b, c, d := Submit(0), Tick(age), Deliver(0, RunRow(0)), CallAi(0, true);
    assert ToAnswered(age) == [a] + ([b] + ([c] + [d]));
    hide *;
    One(Delivered(age), d);
    Prefix(Submitted(age), c, Delivered(age), [d]);
    Prefix(Submitted(0), b, Submitted(age), [c] + [d]);
    Prefix(Init, a, Submitted(0), [b] + ([c] + [d]));
  }

  lemma PickOne(s: Sys, k: Key)
    requires Stale(s, k) && !Locked(s, k)
    ensures Selectable(s, [k])
  {
    SubsetIsSmaller(set j | j in [k] && j.RunRow?, {k});
    SubsetIsSmaller(set j | j in [k] && j.JobRow?, {k});
  }

  /** A pass on its own fails a stale running row. */
  lemma PassFails(s: Sys, k: Key)
    requires Stale(s, k) && s.passes == map[] && s.rows[k].status == Running
    ensures var acts := [BeginPass(0, [k]), CommitPass(0)];
            CanRun(s, acts) && After(s, acts) == s.(rows := SetStatus(s.rows, k, Failed))
  {
    PickOne(s, k);
    var s1, s2 := s.(passes := map[0 := Pass([k], map[k := Running])]), s.(rows := SetStatus(s.rows, k, Failed));
    BeginOne(s, k);
    CommitOne(s, k);
    hide Apply, Enabled;
    One(s1, CommitPass(0));
    Prefix(s, BeginPass(0, [k]), s1, [CommitPass(0)]);
    assert [BeginPass(0, [k])] + [CommitPass(0)] == [BeginPass(0, [k]), CommitPass(0)];
  }

  lemma BeginOne(s: Sys, k: Key)
    requires s.passes == map[] && HasStatus(s.rows, k, Running) && Selectable(s, [k])
    ensures Enabled(s, BeginPass(0, [k]))
    ensures Apply(s, BeginPass(0, [k])) == s.(passes := map[0 := Pass([k], map[k := Running])])
  {
    assert (map j | j in [k] && j in s.rows :: s.rows[j].status) == map[k := Running];
  }

  lemma CommitOne(s: Sys, k: Key)
    requires s.passes == map[] && HasStatus(s.rows, k, Running)
    ensures var t := s.(passes := map[0 := Pass([k], map[k := Running])]);
            Enabled(t, CommitPass(0)) && Apply(t, CommitPass(0)) == s.(rows := SetStatus(s.rows, k, Failed))
  {
    var t := s.(passes := map[0 := Pass([k], map[k := Running])]);
    assert Requeued([k], map[k := Running]) == [];
    assert Settle(t.rows, map[k := Running]) == SetStatus(s.rows, k, Failed);
    assert t.passes - {0} == map[];
  }

  lemma {:induction false} RunConcat(s: Sys, a: seq<Action>, b: seq<Action>)
    requires CanRun(s, a) && CanRun(After(s, a), b)
    ensures CanRun(s, a + b) && After(s, a + b) == After(After(s, a), b)
    decreases |a|
  {
    if a == [] {
      assert a + b == b;
    } else {
      assert (a + b)[1..] == a[1..] + b;
      RunConcat(Apply(s, a[0]), a[1..], b);
    }
  }

  lemma One(s: Sys, a: Action)
    requires Enabled(s, a)
    ensures CanRun(s, [a]) && After(s, [a]) == Apply(s, a)
  {
    Prefix(s, a, Apply(s, a), []);
  }

  /** The answered run after a pass has failed it, its worker standing where it stood. */
  function FailedUnder(worker: Worker): Sys {
    Sys(601, map[RunRow(0) := Row(Failed, 0)], [RunRow(0)], [RunRow(0)], map[0 := worker], map[], map[])
  }

  lemma PassFailsAnswered(worker: Worker)
    ensures var s, acts := Answered(601).(workers := map[0 := worker]), [BeginPass(0, [RunRow(0)]), CommitPass(0)];
            CanRun(s, acts) && After(s, acts) == FailedUnder(worker)
  {
    var s := Answered(601).(workers := map[0 := worker]);
    PassFails(s, RunRow(0));
    assert s.(rows := SetStatus(s.rows, RunRow(0), Failed)) == FailedUnder(worker);
  }

  /** `complete` refuses the failed run, and `fail` leaves it alone. */
  lemma ReadFailed()
    ensures var s := FailedUnder(Decided(RunRow(0), true));
            Enabled(s, ReadRun(0, true)) && Apply(s, ReadRun(0, true)) == FailedUnder(Decided(RunRow(0), false))
    ensures var s := FailedUnder(Decided(RunRow(0), false));
            Enabled(s, ReadRun(0, false)) && Apply(s, ReadRun(0, false)) == s.(workers := map[])
  {
  }

  lemma ReadAnswered(age: nat)
    ensures Enabled(Answered(age), ReadRun(0, true))
    ensures Apply(Answered(age), ReadRun(0, true)) == Answered(age).(workers := map[0 := Writing(RunRow(0), Succeeded)])
  {
  }

  lemma WriteOverFailed()
    ensures var s := FailedUnder(Writing(RunRow(0), Succeeded));
            && HasStatus(s.rows, RunRow(0), Failed) && Enabled(s, WriteRun(0))
            && HasStatus(Apply(s, WriteRun(0)).rows, RunRow(0), Succeeded)
  {
  }

  lemma AnsweredIs(age: nat)
    ensures Answered(age) == Answered(age).(workers := map[0 := Decided(RunRow(0), true)])
  {
  }

  lemma LateClaim() returns (acts: seq<Action>)
    ensures CanRun(Init, acts) && After(Init, acts) == FailedUnder(Decided(RunRow(0), true)).(workers := map[])
  {
    FailedWithoutWorker();
    hide *;
    var k, pass := RunRow(0), [BeginPass(0, [RunRow(0)]), CommitPass(0)];
    var complete, fail := ReadRun(0, true), ReadRun(0, false);
    AnsweredReached(601);
    AnsweredIs(601);
    PassFailsAnswered(Decided(k, true));
    ReadFailed();
    One(FailedUnder(Decided(k, true)), complete);
    One(FailedUnder(Decided(k, false)), fail);
    RunConcat(Init, ToAnswered(601), pass);
    RunConcat(Init, ToAnswered(601) + pass, [complete]);
    RunConcat(Init, ToAnswered(601) + pass + [complete], [fail]);
    acts := ToAnswered(601) + pass + [complete] + [fail];
  }

  lemma FailedWithoutWorker()
    ensures FailedUnder(Decided(RunRow(0), false)).(workers := map[])
         == FailedUnder(Decided(RunRow(0), true)).(workers := map[])
  {
  }

  /** The reconciler measures age from submission, so a run claimed late can be failed while its
      worker is alive and has its answer: the call is paid for and lost. */
  lemma LateClaimIsPaidAndLost()
    ensures exists acts :: CanRun(Init, acts) && var s := After(Init, acts);
              s.aiCalls == [RunRow(0)] && HasStatus(s.rows, RunRow(0), Failed) && s.workers == map[]
  {
    var acts := LateClaim();
    hide CanRun, After;
  }

  lemma PassBetweenReadAndWrite() returns (acts: seq<Action>)
    ensures CanRun(Init, acts) && After(Init, acts) == FailedUnder(Writing(RunRow(0), Succeeded))
  {
    hide *;
    var k, pass, read := RunRow(0), [BeginPass(0, [RunRow(0)]), CommitPass(0)], ReadRun(0, true);
    AnsweredReached(601);
    ReadAnswered(601);
    One(Answered(601), read);
    PassFailsAnswered(Writing(k, Succeeded));
    RunConcat(Init, ToAnswered(601), [read]);
    RunConcat(Init, ToAnswered(601) + [read], pass);
    acts := ToAnswered(601) + [read] + pass;
  }

  /** The finalizer reads a run and then writes it by id. A pass that commits in between is
      overwritten: the failed run becomes succeeded, so an ended run can still change. */
  lemma FinalizerOverwritesReconciler()
    ensures exists acts :: CanRun(Init, acts) && var s := After(Init, acts);
              && HasStatus(s.rows, RunRow(0), Failed) && Enabled(s, WriteRun(0))
              && HasStatus(Apply(s, WriteRun(0)).rows, RunRow(0), Succeeded)
  {
    var acts := PassBetweenReadAndWrite();
    WriteOverFailed();
    hide CanRun, After, Apply, Enabled;
  }

  // ---- Exactly when an answer can be lost ----

  predicate LeavesAlone(acts: seq<Action>, w: nat) { forall a | a in acts :: !OfWorker(a, w) }

  /** A request to cancel the run has read it and not yet written. */
  predicate InFlight(s: Sys, k: Key) { exists c | c in s.cancels :: RunRow(s.cancels[c]) == k }

  /** No request to cancel the run comes in. */
  predicate NoCancel(acts: seq<Action>, k: Key) { forall a | a in acts && a.ReadCancel? :: RunRow(a.run) != k }

  /** The worker holds its running row, no open pass has read it, and no request to cancel it is under way. */
  predicate Safe(s: Sys, w: nat, worker: Worker) {
    && w in s.workers && s.workers[w] == worker && HasStatus(s.rows, worker.key, Running)
    && !Locked(s, worker.key) && !InFlight(s, worker.key)
  }

  /** The row is, at this time, not yet stale. */
  predicate Young(s: Sys, k: Key, time: int) { k in s.rows && s.rows[k].submitted >= time - StaleAfter }

  lemma SafePass(s: Sys, a: Action, w: nat, worker: Worker)
    requires Inv(s) && Enabled(s, a) && OfPass(a) && Safe(s, w, worker) && Young(s, worker.key, s.now)
    ensures Safe(Apply(s, a), w, worker) && Apply(s, a).rows[worker.key] == s.rows[worker.key]
  {
    if a.CommitPass? {
      assert Fresh(s, a.p);
      assert worker.key !in s.passes[a.p].picked;
    }
  }

  lemma SafeOther(s: Sys, a: Action, w: nat, worker: Worker)
    requires Inv(s) && Enabled(s, a) && !OfPass(a) && !OfWorker(a, w) && Safe(s, w, worker)
    requires a.ReadCancel? ==> RunRow(a.run) != worker.key
    ensures Safe(Apply(s, a), w, worker) && Apply(s, a).rows[worker.key] == s.rows[worker.key]
  {
    RowKept(s, a, w);
    PassesKept(s, a);
    CancelsKept(s, a, worker.key);
    hide Inv, Apply, Enabled;
  }

  lemma PassesKept(s: Sys, a: Action)
    requires Enabled(s, a) && !OfPass(a)
    ensures Apply(s, a).passes == s.passes
  {
  }

  lemma CancelsKept(s: Sys, a: Action, k: Key)
    requires Enabled(s, a) && !InFlight(s, k) && (a.ReadCancel? ==> RunRow(a.run) != k)
    ensures !InFlight(Apply(s, a), k)
  {
  }

  /** A running row changes by its own worker, by passes, and by requests to cancel it only. */
  lemma RowKept(s: Sys, a: Action, w: nat)
    requires Inv(s) && Enabled(s, a) && !OfPass(a) && !OfWorker(a, w) && w in s.workers
    requires HasStatus(s.rows, s.workers[w].key, Running) && !InFlight(s, s.workers[w].key)
    ensures var t, k := Apply(s, a), s.workers[w].key;
            w in t.workers && t.workers[w] == s.workers[w] && k in t.rows && t.rows[k] == s.rows[k]
  {
    OthersKeepWorker(s, a, w);
    Untouched(s, a, s.workers[w].key);
    hide Apply, Calls, Locks, Locked;
  }

  lemma NowStep(s: Sys, a: Action)
    requires Enabled(s, a)
    ensures Apply(s, a).now == s.now + (if a.Tick? then a.seconds else 0)
  {
  }

  lemma {:induction false} NowGrows(s: Sys, acts: seq<Action>)
    requires CanRun(s, acts)
    ensures After(s, acts).now >= s.now
    decreases |acts|
  {
    hide Apply;
    if acts != [] {
      NowStep(s, acts[0]);
      NowGrows(Apply(s, acts[0]), acts[1..]);
    }
  }

  /** As long as its row is young and unread, and nobody cancels it, nothing that others do touches a
      worker or its row. */
  lemma {:induction false} SafeRun(s: Sys, acts: seq<Action>, w: nat, worker: Worker)
    requires Inv(s) && CanRun(s, acts) && LeavesAlone(acts, w) && NoCancel(acts, worker.key)
    requires Safe(s, w, worker) && Young(s, worker.key, After(s, acts).now)
    ensures Safe(After(s, acts), w, worker) && After(s, acts).rows[worker.key] == s.rows[worker.key]
    decreases |acts|
  {
    hide Apply, Inv, Safe;
    if acts != [] {
      var t := Apply(s, acts[0]);
      assert acts[0] in acts && !OfWorker(acts[0], w);
      NowGrows(s, acts);
      SafeIsThere(s, w, worker);
      if OfPass(acts[0]) { SafePass(s, acts[0], w, worker); } else { SafeOther(s, acts[0], w, worker); }
      InvStep(s, acts[0]);
      SafeIsThere(t, w, worker);
      SafeRun(t, acts[1..], w, worker);
    }
  }

  lemma SafeIsThere(s: Sys, w: nat, worker: Worker)
    requires Safe(s, w, worker)
    ensures worker.key in s.rows
  {
  }

  lemma OpenPassFails(s: Sys, k: Key, p: nat)
    requires Inv(s) && HasStatus(s.rows, k, Running) && p in s.passes && k in s.passes[p].picked
    ensures Enabled(s, CommitPass(p)) && HasStatus(Apply(s, CommitPass(p)).rows, k, Failed)
  {
    assert Fresh(s, p);
  }

  lemma NewPassReads(s: Sys, k: Key, p: nat)
    requires HasStatus(s.rows, k, Running) && Stale(s, k) && !Locked(s, k) && p !in s.passes
    ensures Enabled(s, BeginPass(p, [k]))
    ensures var t := Apply(s, BeginPass(p, [k]));
            HasStatus(t.rows, k, Running) && p in t.passes && k in t.passes[p].picked && t.now == s.now
  {
    PickOne(s, k);
  }

  /** A run of this length that others can make, in which the row leaves the status running. */
  ghost predicate Loses(s: Sys, acts: seq<Action>, w: nat, k: Key, d: nat, cancel: bool) {
    && CanRun(s, acts) && LeavesAlone(acts, w) && (cancel || NoCancel(acts, k))
    && After(s, acts).now == s.now + d && !HasStatus(After(s, acts).rows, k, Running)
  }

  lemma LoseInOne(s: Sys, a: Action, w: nat, k: Key, cancel: bool)
    requires Enabled(s, a) && !OfWorker(a, w) && !a.ReadCancel? && !a.Tick? && !HasStatus(Apply(s, a).rows, k, Running)
    ensures Loses(s, [a], w, k, 0, cancel)
  {
    NowStep(s, a);
    One(s, a);
    hide Apply, Enabled;
  }

  lemma LoseInMore(s: Sys, a: Action, acts: seq<Action>, w: nat, k: Key, d: nat, cancel: bool)
    requires Enabled(s, a) && !OfWorker(a, w) && (cancel || !a.ReadCancel?)
    requires Loses(Apply(s, a), acts, w, k, d, cancel)
    ensures Loses(s, [a] + acts, w, k, d + (if a.Tick? then a.seconds else 0), cancel)
  {
    NowStep(s, a);
    Prefix(s, a, Apply(s, a), acts);
    hide Apply, Enabled, CanRun, After;
  }

  lemma LoseToOpenPass(s: Sys, w: nat, k: Key, cancel: bool) returns (acts: seq<Action>)
    requires Inv(s) && HasStatus(s.rows, k, Running) && Locked(s, k)
    ensures Loses(s, acts, w, k, 0, cancel)
  {
    var p :| p in s.passes && k in s.passes[p].picked;
    OpenPassFails(s, k, p);
    LoseInOne(s, CommitPass(p), w, k, cancel);
    acts := [CommitPass(p)];
  }

  lemma LoseToNewPass(s: Sys, w: nat, k: Key, cancel: bool) returns (acts: seq<Action>)
    requires Inv(s) && HasStatus(s.rows, k, Running) && !Locked(s, k) && Stale(s, k)
    ensures Loses(s, acts, w, k, 0, cancel)
  {
    var p := Unused(s.passes.Keys);
    var a := BeginPass(p, [k]);
    NewPassReads(s, k, p);
    InvStep(s, a);
    NowLocked(Apply(s, a), p, k);
    hide Apply, Inv, Enabled, Stale, Locked, HasStatus, Loses;
    var rest := LoseToOpenPass(Apply(s, a), w, k, cancel);
    LoseInMore(s, a, rest, w, k, 0, cancel);
    acts := [a] + rest;
  }

  lemma NowLocked(s: Sys, p: nat, k: Key)
    requires p in s.passes && k in s.passes[p].picked
    ensures Locked(s, k)
  {
  }

  lemma LoseToOpenCancel(s: Sys, w: nat, k: Key, cancel: bool) returns (acts: seq<Action>)
    requires k in s.rows && !Locked(s, k) && InFlight(s, k)
    ensures Loses(s, acts, w, k, 0, cancel)
  {
    var c :| c in s.cancels && RunRow(s.cancels[c]) == k;
    LoseInOne(s, WriteCancel(c), w, k, cancel);
    acts := [WriteCancel(c)];
  }

  lemma LoseToNewCancel(s: Sys, w: nat, k: Key) returns (acts: seq<Action>)
    requires k.RunRow? && HasStatus(s.rows, k, Running) && !Locked(s, k)
    ensures Loses(s, acts, w, k, 0, true)
  {
    var c := Unused(s.cancels.Keys);
    var a := ReadCancel(c, k.id);
    assert c !in s.cancels.Keys;
    var t := Apply(s, a);
    assert t.cancels[c] == k.id && InFlight(t, k) && !Locked(t, k);
    hide Apply, Enabled, Locked, HasStatus, Loses, InFlight;
    var rest := LoseToOpenCancel(t, w, k, true);
    LoseInMore(s, a, rest, w, k, 0, true);
    acts := [a] + rest;
  }

  lemma TickOnly(s: Sys, d: nat, k: Key)
    requires Inv(s)
    ensures Enabled(s, Tick(d)) && Inv(Apply(s, Tick(d))) && Apply(s, Tick(d)) == s.(now := s.now + d)
    ensures Locked(Apply(s, Tick(d)), k) <==> Locked(s, k)
    ensures InFlight(Apply(s, Tick(d)), k) <==> InFlight(s, k)
  {
    InvStep(s, Tick(d));
  }

  /** What can take the row away from its worker by some time. */
  predicate CanBeLost(s: Sys, k: Key, time: int, cancel: bool) {
    (cancel && k.RunRow?) || InFlight(s, k) || Locked(s, k) || !Young(s, k, time)
  }

  lemma Lose(s: Sys, w: nat, k: Key, d: nat, cancel: bool) returns (acts: seq<Action>)
    requires Inv(s) && HasStatus(s.rows, k, Running) && CanBeLost(s, k, s.now + d, cancel)
    ensures Loses(s, acts, w, k, d, cancel)
  {
    TickOnly(s, d, k);
    hide Locked, Apply, Inv, Enabled, InFlight, Loses;
    var t := s.(now := s.now + d);
    if Locked(t, k) {
      acts := LoseToOpenPass(t, w, k, cancel);
    } else if InFlight(t, k) {
      acts := LoseToOpenCancel(t, w, k, cancel);
    } else if cancel && k.RunRow? {
      acts := LoseToNewCancel(t, w, k);
    } else {
      acts := LoseToNewPass(t, w, k, cancel);
    }
    LoseInMore(s, Tick(d), acts, w, k, 0, cancel);
    acts := [Tick(d)] + acts;
  }

  /** From any state and within any time: others can take a worker's running row away exactly when an
      open pass has read it, or a request to cancel it is under way or may come in, or the time is more
      than ten minutes after its submission. */
  lemma CanBeLostExactly(s: Sys, w: nat, d: nat, cancel: bool)
    requires Inv(s) && w in s.workers && HasStatus(s.rows, s.workers[w].key, Running)
    ensures var k := s.workers[w].key;
            (exists acts :: Loses(s, acts, w, k, d, cancel)) <==> CanBeLost(s, k, s.now + d, cancel)
  {
    var k := s.workers[w].key;
    if acts :| Loses(s, acts, w, k, d, cancel) {
      if !CanBeLost(s, k, s.now + d, cancel) {
        if k.JobRow? { assert NoCancel(acts, k); }
        SafeRun(s, acts, w, s.workers[w]);
      }
    }
    if CanBeLost(s, k, s.now + d, cancel) {
      var acts := Lose(s, w, k, d, cancel);
    }
  }

  /** The worker is still at its row, which runs or was failed or cancelled by others. */
  predicate Held(s: Sys, w: nat, worker: Worker) {
    && w in s.workers && s.workers[w] == worker && worker.key in s.rows
    && s.rows[worker.key].status in {Running, Failed, Cancelled}
  }

  lemma HeldOnce(s: Sys, a: Action, w: nat, worker: Worker)
    requires Inv(s) && Enabled(s, a) && !OfWorker(a, w) && Held(s, w, worker)
    ensures Held(Apply(s, a), w, worker)
  {
    if OfPass(a) {
      HeldPass(s, a, w, worker);
    } else {
      HeldOther(s, a, w, worker);
    }
    hide Inv, Apply, Enabled, Held;
  }

  lemma HeldPass(s: Sys, a: Action, w: nat, worker: Worker)
    requires Inv(s) && Enabled(s, a) && OfPass(a) && Held(s, w, worker)
    ensures Held(Apply(s, a), w, worker)
  {
    if a.CommitPass? { assert Fresh(s, a.p); }
  }

  lemma HeldOther(s: Sys, a: Action, w: nat, worker: Worker)
    requires Inv(s) && Enabled(s, a) && !OfPass(a) && !OfWorker(a, w) && Held(s, w, worker)
    ensures Held(Apply(s, a), w, worker)
  {
    OthersKeepWorker(s, a, w);
    if Touches(s, a, worker.key) {
      OnlyCancelTouches(s, a, w);
      CancelTouches(s, a.c, worker.key);
    } else {
      Untouched(s, a, worker.key);
    }
    hide Apply, Inv, Enabled, Touches, OfWorker;
  }

  /** Others do not write the row of a worker, but for requests to cancel it. */
  lemma OnlyCancelTouches(s: Sys, a: Action, w: nat)
    requires Inv(s) && Enabled(s, a) && !OfWorker(a, w) && w in s.workers && Touches(s, a, s.workers[w].key)
    ensures a.WriteCancel?
  {
    hide Apply, Calls, Locks, Locked;
  }

  lemma {:induction false} HeldRun(s: Sys, acts: seq<Action>, w: nat, worker: Worker)
    requires Inv(s) && CanRun(s, acts) && LeavesAlone(acts, w) && Held(s, w, worker)
    ensures Held(After(s, acts), w, worker)
    decreases |acts|
  {
    hide Apply, Inv, Held, Enabled;
    if acts != [] {
      assert acts[0] in acts;
      HeldOnce(s, acts[0], w, worker);
      InvStep(s, acts[0]);
      HeldRun(Apply(s, acts[0]), acts[1..], w, worker);
    }
  }

  /** A run after which this worker's write of success would overwrite an ended run. */
  ghost predicate Exposes(s: Sys, acts: seq<Action>, w: nat, k: Key, d: nat, cancel: bool) {
    && CanRun(s, acts) && LeavesAlone(acts, w) && (cancel || NoCancel(acts, k))
    && After(s, acts).now == s.now + d && Overwrites(After(s, acts), WriteRun(w), k)
  }

  lemma ExposesIsLoses(s: Sys, acts: seq<Action>, w: nat, k: Key, d: nat, cancel: bool)
    requires Inv(s) && w in s.workers && s.workers[w] == Writing(k, Succeeded) && HasStatus(s.rows, k, Running)
    ensures Exposes(s, acts, w, k, d, cancel) <==> Loses(s, acts, w, k, d, cancel)
  {
    if CanRun(s, acts) && LeavesAlone(acts, w) {
      HeldRun(s, acts, w, Writing(k, Succeeded));
    }
    hide CanRun, After, Inv, LeavesAlone, NoCancel;
  }

  /** A finalizer that has read its running row and means to write success can come to write over a
      failed or cancelled run, within any time, under exactly the same condition. */
  lemma CanOverwriteExactly(s: Sys, w: nat, k: Key, d: nat, cancel: bool)
    requires Inv(s) && w in s.workers && s.workers[w] == Writing(k, Succeeded) && HasStatus(s.rows, k, Running)
    ensures (exists acts :: Exposes(s, acts, w, k, d, cancel)) <==> CanBeLost(s, k, s.now + d, cancel)
  {
    CanBeLostExactly(s, w, d, cancel);
    if acts :| Exposes(s, acts, w, k, d, cancel) { ExposesIsLoses(s, acts, w, k, d, cancel); }
    if acts :| Loses(s, acts, w, k, d, cancel) { ExposesIsLoses(s, acts, w, k, d, cancel); }
    hide Exposes, Loses, CanBeLost;
  }

  /** Between its answer and its finalizer's read, and between that read and the write, a worker's run
      that is young and unread, and that nobody cancels, stays as it is; its write goes through, writes
      over nothing, and keeps the answer. */
  lemma YoungAnswerIsKept(s: Sys, w: nat, k: Key, before: seq<Action>, between: seq<Action>)
    requires Inv(s) && k.RunRow? && Safe(s, w, Decided(k, true))
    requires LeavesAlone(before, w) && LeavesAlone(between, w) && NoCancel(before, k) && NoCancel(between, k)
    requires CanRun(s, before + [ReadRun(w, true)] + between)
    requires Young(s, k, After(s, before + [ReadRun(w, true)] + between).now)
    ensures var t := After(s, before + [ReadRun(w, true)] + between);
            && Enabled(t, WriteRun(w)) && !Overwrites(t, WriteRun(w), k)
            && HasStatus(Apply(t, WriteRun(w)).rows, k, Succeeded)
  {
    var read := ReadRun(w, true);
    RunSplits(s, before + [read], between);
    RunSplits(s, before, [read]);
    var s1 := After(s, before);
    OneAfter(s1, read);
    var s2 := Apply(s1, read);
    NowGrows(s2, between);
    NowStep(s1, read);
    InvRun(s, before);
    hide CanRun, After, Inv, Apply;
    SafeRun(s, before, w, Decided(k, true));
    SafeRead(s1, w, k);
    InvStep(s1, read);
    SafeRun(s2, between, w, Writing(k, Succeeded));
    SafeWrite(After(s2, between), w, k);
  }

  lemma SafeRead(s: Sys, w: nat, k: Key)
    requires k.RunRow? && Safe(s, w, Decided(k, true))
    ensures Enabled(s, ReadRun(w, true)) && Safe(Apply(s, ReadRun(w, true)), w, Writing(k, Succeeded))
    ensures Apply(s, ReadRun(w, true)).rows == s.rows
  {
  }

  lemma SafeWrite(s: Sys, w: nat, k: Key)
    requires k.RunRow? && Safe(s, w, Writing(k, Succeeded))
    ensures Enabled(s, WriteRun(w)) && !Overwrites(s, WriteRun(w), k)
    ensures HasStatus(Apply(s, WriteRun(w)).rows, k, Succeeded)
  {
  }

  /** The same for an extraction job, whose final write is a compare-and-set. */
  lemma YoungJobIsKept(s: Sys, w: nat, k: Key, before: seq<Action>)
    requires Inv(s) && k.JobRow? && Safe(s, w, Decided(k, true))
    requires LeavesAlone(before, w) && CanRun(s, before) && Young(s, k, After(s, before).now)
    ensures var t := After(s, before);
            Enabled(t, FinishJob(w, true)) && HasStatus(Apply(t, FinishJob(w, true)).rows, k, Succeeded)
  {
    assert NoCancel(before, k);
    SafeRun(s, before, w, Decided(k, true));
    hide CanRun, After, Inv;
  }

  // ---- A cancelled run ----

  /** The run is cancelled and no worker is on it. */
  ghost predicate AtRest(s: Sys, k: Key) {
    HasStatus(s.rows, k, Cancelled) && forall w | w in s.workers :: s.workers[w].key != k
  }

  lemma AtRestOnce(s: Sys, a: Action, k: Key)
    requires Inv(s) && Enabled(s, a) && AtRest(s, k)
    ensures AtRest(Apply(s, a), k)
  {
    if OfPass(a) {
      AtRestPass(s, a, k);
    } else {
      AtRestOther(s, a, k);
    }
    hide Inv, Apply, Enabled, AtRest;
  }

  lemma AtRestPass(s: Sys, a: Action, k: Key)
    requires Inv(s) && Enabled(s, a) && OfPass(a) && AtRest(s, k)
    ensures AtRest(Apply(s, a), k)
  {
    if a.CommitPass? { assert Fresh(s, a.p); }
  }

  lemma AtRestOther(s: Sys, a: Action, k: Key)
    requires Enabled(s, a) && !OfPass(a) && AtRest(s, k)
    ensures AtRest(Apply(s, a), k)
  {
    forall w | w in Apply(s, a).workers ensures Apply(s, a).workers[w].key != k { WorkersAfter(s, a, w); }
    if Touches(s, a, k) {
      assert a.WriteCancel?;
      CancelTouches(s, a.c, k);
    } else {
      Untouched(s, a, k);
    }
    hide Apply, Locked;
  }

  lemma {:induction false} AtRestRun(s: Sys, acts: seq<Action>, k: Key)
    requires Inv(s) && CanRun(s, acts) && AtRest(s, k)
    ensures HasStatus(After(s, acts).rows, k, Cancelled)
    decreases |acts|
  {
    if acts != [] {
      AtRestOnce(s, acts[0], k);
      InvStep(s, acts[0]);
      hide Apply, Inv, AtRest, Enabled;
      AtRestRun(Apply(s, acts[0]), acts[1..], k);
    }
  }

  lemma CancelledIsUnlocked(s: Sys, k: Key)
    requires Inv(s) && HasStatus(s.rows, k, Cancelled)
    ensures !Locked(s, k)
  {
    forall p | p in s.passes ensures k !in s.passes[p].picked { assert Fresh(s, p); }
  }

  /** A run that writes over the cancellation. */
  ghost predicate Undoes(s: Sys, acts: seq<Action>, k: Key) {
    CanRun(s, acts) && !HasStatus(After(s, acts).rows, k, Cancelled)
  }

  lemma UndoFirst(s: Sys, a: Action, acts: seq<Action>, k: Key)
    requires Enabled(s, a) && Undoes(Apply(s, a), acts, k)
    ensures Undoes(s, [a] + acts, k)
  {
    Prefix(s, a, Apply(s, a), acts);
    hide Apply, Enabled, CanRun, After;
  }

  lemma UndoByWrite(s: Sys, w: nat, k: Key) returns (acts: seq<Action>)
    requires Inv(s) && HasStatus(s.rows, k, Cancelled)
    requires w in s.workers && s.workers[w].Writing? && s.workers[w].key == k
    ensures Undoes(s, acts, k)
  {
    CancelledIsUnlocked(s, k);
    One(s, WriteRun(w));
    acts := [WriteRun(w)];
  }

  lemma UndoByRead(s: Sys, w: nat, k: Key) returns (acts: seq<Action>)
    requires Inv(s) && HasStatus(s.rows, k, Cancelled) && k.RunRow? && w in s.workers
    requires s.workers[w].Decided? && s.workers[w].key == k
    ensures Undoes(s, acts, k)
  {
    var a := ReadRun(w, false);
    var t := Apply(s, a);
    assert t.workers[w] == Writing(k, Failed) && t.rows == s.rows;
    InvStep(s, a);
    hide Apply, Inv, Enabled, Undoes;
    var rest := UndoByWrite(t, w, k);
    UndoFirst(s, a, rest, k);
    acts := [a] + rest;
  }

  lemma UndoByClaim(s: Sys, w: nat, k: Key) returns (acts: seq<Action>)
    requires Inv(s) && HasStatus(s.rows, k, Cancelled) && k.RunRow? && w in s.workers
    requires s.workers[w].Claimed? && s.workers[w].key == k
    ensures Undoes(s, acts, k)
  {
    var a := ConfigMissing(w);
    var t := Apply(s, a);
    assert t.workers[w] == Decided(k, false) && t.rows == s.rows;
    InvStep(s, a);
    hide Apply, Inv, Enabled, Undoes;
    var rest := UndoByRead(t, w, k);
    UndoFirst(s, a, rest, k);
    acts := [a] + rest;
  }

  /** A cancelled run stays cancelled over every continuation exactly when no worker is on it: one that
      is on it ends it as failed, or writes the outcome it already meant to write. */
  lemma CancelledStaysExactly(s: Sys, k: Key)
    requires Inv(s) && k.RunRow? && HasStatus(s.rows, k, Cancelled)
    ensures (forall acts | CanRun(s, acts) :: HasStatus(After(s, acts).rows, k, Cancelled))
       <==> forall w | w in s.workers :: s.workers[w].key != k
  {
    hide CanRun, After, Inv;
    if w :| w in s.workers && s.workers[w].key == k {
      var acts := Undo(s, w, k);
      assert CanRun(s, acts) && !HasStatus(After(s, acts).rows, k, Cancelled);
    } else {
      forall acts | CanRun(s, acts) ensures HasStatus(After(s, acts).rows, k, Cancelled) { AtRestRun(s, acts, k); }
    }
  }

  lemma Undo(s: Sys, w: nat, k: Key) returns (acts: seq<Action>)
    requires Inv(s) && HasStatus(s.rows, k, Cancelled) && k.RunRow? && w in s.workers && s.workers[w].key == k
    ensures Undoes(s, acts, k)
  {
    hide Inv, Undoes, HasStatus;
    match s.workers[w] {
      case Claimed(_) => acts := UndoByClaim(s, w, k);
      case Decided(_, _) => acts := UndoByRead(s, w, k);
      case Writing(_, _) => acts := UndoByWrite(s, w, k);
    }
  }

  /** The answered run while a request to cancel it is under way, and after it. */
  function BeingCancelled(age: nat): Sys { Answered(age).(cancels := map[0 := 0]) }

  function CancelledAt(age: nat): Sys { Answered(age).(rows := map[RunRow(0) := Row(Cancelled, 0)]) }

  lemma CancelReads(age: nat)
    ensures Enabled(Answered(age), ReadCancel(0, 0)) && Apply(Answered(age), ReadCancel(0, 0)) == BeingCancelled(age)
  {
  }

  lemma CancelWrites(age: nat)
    ensures Enabled(BeingCancelled(age), WriteCancel(0))
    ensures Apply(BeingCancelled(age), WriteCancel(0)) == CancelledAt(age)
  {
    var s := BeingCancelled(age);
    assert s.cancels - {0} == map[];
    assert SetStatus(s.rows, RunRow(0), Cancelled) == map[RunRow(0) := Row(Cancelled, 0)];
  }

  function CancelledUnder(age: nat, worker: Worker): Sys { CancelledAt(age).(workers := map[0 := worker]) }

  /** The run failed over its cancellation, with no worker left. */
  function FailedAgain(age: nat): Sys { CancelledAt(age).(rows := map[RunRow(0) := Row(Failed, 0)], workers := map[]) }

  /** `complete` refuses a cancelled run, the task then calls `fail`, and `fail` does not spare it. */
  lemma ReadCancelled(age: nat)
    ensures var s := CancelledUnder(age, Decided(RunRow(0), true));
            && s == CancelledAt(age) && Enabled(s, ReadRun(0, true))
            && Apply(s, ReadRun(0, true)) == CancelledUnder(age, Decided(RunRow(0), false))
    ensures var s := CancelledUnder(age, Decided(RunRow(0), false));
            && Enabled(s, ReadRun(0, false))
            && Apply(s, ReadRun(0, false)) == CancelledUnder(age, Writing(RunRow(0), Failed))
  {
  }

  lemma WriteOverCancelled(age: nat)
    ensures var s := CancelledUnder(age, Writing(RunRow(0), Failed));
            Enabled(s, WriteRun(0)) && Apply(s, WriteRun(0)) == FailedAgain(age)
  {
    assert SetStatus(CancelledAt(age).rows, RunRow(0), Failed) == map[RunRow(0) := Row(Failed, 0)];
    assert map[0 := Writing(RunRow(0), Failed)] - {0} == map[];
  }

  lemma FailsOverCancel(age: nat) returns (acts: seq<Action>)
    ensures CanRun(CancelledAt(age), acts) && After(CancelledAt(age), acts) == FailedAgain(age)
  {
    hide *;
    var k, complete, fail, write := RunRow(0), ReadRun(0, true), ReadRun(0, false), WriteRun(0);
    ReadCancelled(age);
    WriteOverCancelled(age);
    One(CancelledUnder(age, Writing(k, Failed)), write);
    Prefix(CancelledUnder(age, Decided(k, false)), fail, CancelledUnder(age, Writing(k, Failed)), [write]);
    Prefix(CancelledAt(age), complete, CancelledUnder(age, Decided(k, false)), [fail] + [write]);
    acts := [complete] + ([fail] + [write]);
  }

  /** However young, a run whose worker has its answer can be cancelled; its own worker then turns it
      from cancelled into failed. */
  lemma CancelledUnderItsWorker(age: nat)
    ensures exists before, after ::
              && CanRun(Init, before) && CanRun(After(Init, before), after)
              && var s, t := After(Init, before), After(After(Init, before), after);
              && t.now == age && t.aiCalls == [RunRow(0)] && t.workers == map[]
              && HasStatus(s.rows, RunRow(0), Cancelled) && HasStatus(t.rows, RunRow(0), Failed)
  {
    var before := CancelledThere(age);
    var after := FailsOverCancel(age);
    hide CanRun, After;
  }

  lemma CancelledThere(age: nat) returns (acts: seq<Action>)
    ensures CanRun(Init, acts) && After(Init, acts) == CancelledAt(age)
  {
    hide *;
    var a, b := ReadCancel(0, 0), WriteCancel(0);
    AnsweredReached(age);
    CancelReads(age);
    CancelWrites(age);
    One(Answered(age), a);
    One(BeingCancelled(age), b);
    RunConcat(Init, ToAnswered(age), [a]);
    RunConcat(Init, ToAnswered(age) + [a], [b]);
    acts := ToAnswered(age) + [a] + [b];
  }

  lemma {:induction false} RunSplits(s: Sys, a: seq<Action>, b: seq<Action>)
    requires CanRun(s, a + b)
    ensures CanRun(s, a) && CanRun(After(s, a), b) && After(s, a + b) == After(After(s, a), b)
    decreases |a|
  {
    hide Apply, Enabled;
    if a == [] {
      assert a + b == b;
    } else {
      assert (a + b)[1..] == a[1..] + b;
      RunSplits(Apply(s, a[0]), a[1..], b);
    }
  }

  lemma OneAfter(s: Sys, a: Action)
    requires CanRun(s, [a])
    ensures Enabled(s, a) && After(s, [a]) == Apply(s, a)
  {
    assert [a][1..] == [];
  }

  // ---- Rows, events and answers ----

  /** Rows and events go together, and a run that succeeded has its extraction job. */
  ghost predicate Linked(s: Sys) {
    && (forall k :: k in s.rows <==> k in s.outbox)
    && (forall r :: HasStatus(s.rows, RunRow(r), Succeeded) ==> JobRow(r) in s.rows)
  }

  lemma {:induction false} RequeuedArePicked(picked: seq<Key>, seen: map<Key, Status>)
    ensures forall k | k in Requeued(picked, seen) :: k in picked && k in seen
  {
    if picked != [] {
      RequeuedArePicked(picked[1..], seen);
      assert picked == [picked[0]] + picked[1..];
    }
  }

  lemma LinkedPass(s: Sys, a: Action)
    requires Inv(s) && Linked(s) && Enabled(s, a) && OfPass(a)
    ensures Linked(Apply(s, a))
  {
    if a.CommitPass? {
      assert Fresh(s, a.p);
      RequeuedArePicked(s.passes[a.p].picked, s.passes[a.p].seen);
    }
  }

  lemma LinkedWrite(s: Sys, w: nat)
    requires Inv(s) && Linked(s) && Enabled(s, WriteRun(w))
    ensures Linked(Apply(s, WriteRun(w)))
  {
    var k := s.workers[w].key;
    var t := Apply(s, WriteRun(w));
    assert k == RunRow(k.id);
    forall j ensures j in t.rows <==> j in t.outbox {}
    forall r | HasStatus(t.rows, RunRow(r), Succeeded) ensures JobRow(r) in t.rows {
      if RunRow(r) != k { assert HasStatus(s.rows, RunRow(r), Succeeded); }
    }
  }

  lemma LinkedFinish(s: Sys, w: nat, success: bool)
    requires Linked(s) && Enabled(s, FinishJob(w, success))
    ensures Linked(Apply(s, FinishJob(w, success)))
  {
  }

  lemma LinkedOther(s: Sys, a: Action)
    requires Linked(s) && Enabled(s, a) && !OfPass(a) && !a.WriteRun? && !a.FinishJob?
    ensures Linked(Apply(s, a))
  {
  }

  lemma LinkedStep(s: Sys, a: Action)
    requires Inv(s) && Linked(s) && Enabled(s, a)
    ensures Linked(Apply(s, a))
  {
    hide Apply, Inv, Linked, Enabled;
    if OfPass(a) {
      LinkedPass(s, a);
    } else if a.WriteRun? {
      LinkedWrite(s, a.w);
    } else if a.FinishJob? {
      LinkedFinish(s, a.w, a.success);
    } else {
      LinkedOther(s, a);
    }
  }

  lemma {:induction false} LinkedRun(s: Sys, acts: seq<Action>)
    requires Inv(s) && Linked(s) && CanRun(s, acts)
    ensures Linked(After(s, acts))
    decreases |acts|
  {
    hide Apply, Inv, Linked, Enabled;
    if acts != [] {
      LinkedStep(s, acts[0]);
      InvStep(s, acts[0]);
      LinkedRun(Apply(s, acts[0]), acts[1..]);
    }
  }

  /** Over every run: exactly the rows that there are have had an event sent, and a run that succeeded has
      its extraction job, with its event. */
  lemma EventsMatchRows(acts: seq<Action>, k: Key, r: nat)
    requires CanRun(Init, acts)
    ensures var s := After(Init, acts);
            && (k in s.rows <==> k in s.outbox)
            && (HasStatus(s.rows, RunRow(r), Succeeded) ==> JobRow(r) in s.rows && JobRow(r) in s.outbox)
  {
    LinkedRun(Init, acts);
  }

  /** The rows for which the model answered in the course of the run. */
  function AnsweredIn(s: Sys, acts: seq<Action>): set<Key>
    requires CanRun(s, acts)
    decreases |acts|
  {
    if acts == [] then {}
    else AnsweredBy(s, acts[0]) + AnsweredIn(Apply(s, acts[0]), acts[1..])
  }

  function AnsweredBy(s: Sys, a: Action): set<Key>
    requires Enabled(s, a)
  {
    if a.CallAi? && a.answered then {s.workers[a.w].key} else {}
  }

  /** Whatever has succeeded, or may yet, was answered. */
  ghost predicate Backed(s: Sys, keys: set<Key>) {
    && (forall k | HasStatus(s.rows, k, Succeeded) :: k in keys)
    && (forall w | w in s.workers && s.workers[w].Decided? && s.workers[w].ok :: s.workers[w].key in keys)
    && (forall w | w in s.workers && s.workers[w].Writing? && s.workers[w].final == Succeeded ::
          s.workers[w].key in keys)
  }

  lemma BackedRead(s: Sys, w: nat, success: bool, keys: set<Key>)
    requires Backed(s, keys) && Enabled(s, ReadRun(w, success))
    ensures Backed(Apply(s, ReadRun(w, success)), keys)
  {
  }

  lemma BackedWrite(s: Sys, a: Action, keys: set<Key>)
    requires Backed(s, keys) && Enabled(s, a) && (a.WriteRun? || a.FinishJob? || a.WriteCancel?)
    ensures Backed(Apply(s, a), keys)
  {
  }

  lemma BackedPass(s: Sys, a: Action, keys: set<Key>)
    requires Backed(s, keys) && Enabled(s, a) && OfPass(a)
    ensures Backed(Apply(s, a), keys)
  {
  }

  lemma BackedOther(s: Sys, a: Action, keys: set<Key>)
    requires Backed(s, keys) && Enabled(s, a) && !OfPass(a)
    requires !a.ReadRun? && !a.WriteRun? && !a.FinishJob? && !a.WriteCancel?
    ensures Backed(Apply(s, a), keys + AnsweredBy(s, a))
  {
  }

  lemma BackedStep(s: Sys, a: Action, keys: set<Key>)
    requires Backed(s, keys) && Enabled(s, a)
    ensures Backed(Apply(s, a), keys + AnsweredBy(s, a))
  {
    hide Apply, Backed, Enabled;
    if OfPass(a) {
      BackedPass(s, a, keys);
    } else if a.ReadRun? {
      BackedRead(s, a.w, a.success, keys);
    } else if a.WriteRun? || a.FinishJob? || a.WriteCancel? {
      BackedWrite(s, a, keys);
    } else {
      BackedOther(s, a, keys);
    }
    assert !a.CallAi? ==> keys + AnsweredBy(s, a) == keys;
  }

  lemma {:induction false} BackedRun(s: Sys, acts: seq<Action>, keys: set<Key>)
    requires Backed(s, keys) && CanRun(s, acts)
    ensures Backed(After(s, acts), keys + AnsweredIn(s, acts))
    decreases |acts|
  {
    hide Apply, Backed, Enabled, AnsweredBy;
    if acts == [] {
      assert keys + {} == keys;
    } else {
      BackedStep(s, acts[0], keys);
      BackedRun(Apply(s, acts[0]), acts[1..], keys + AnsweredBy(s, acts[0]));
      assert keys + AnsweredBy(s, acts[0]) + AnsweredIn(Apply(s, acts[0]), acts[1..]) == keys + AnsweredIn(s, acts);
    }
  }

  /** Over every run: nothing succeeds for which the model has not answered. */
  lemma SucceededWasAnswered(acts: seq<Action>, k: Key)
    requires CanRun(Init, acts) && HasStatus(After(Init, acts).rows, k, Succeeded)
    ensures k in AnsweredIn(Init, acts)
  {
    BackedRun(Init, acts, {});
  }

  // ---- Lost workers, and the way out ----

  /** The row was claimed and no worker is on it any more. */
  ghost predicate Abandoned(s: Sys, k: Key) {
    && k in s.rows && s.rows[k].status in {Running, Failed, Cancelled}
    && forall w | w in s.workers :: s.workers[w].key != k
  }

  lemma AbandonedOnce(s: Sys, a: Action, k: Key)
    requires Inv(s) && Enabled(s, a) && Abandoned(s, k)
    ensures Abandoned(Apply(s, a), k)
  {
    if a.CommitPass? {
      AbandonedPass(s, a.p, k);
    } else {
      forall w | w in Apply(s, a).workers ensures Apply(s, a).workers[w].key != k { WorkersAfter(s, a, w); }
      if Touches(s, a, k) {
        assert a.WriteCancel?;
        CancelTouches(s, a.c, k);
      } else {
        Untouched(s, a, k);
      }
    }
    hide Apply, Locked, Inv;
  }

  lemma AbandonedPass(s: Sys, p: nat, k: Key)
    requires Inv(s) && Enabled(s, CommitPass(p)) && Abandoned(s, k)
    ensures Abandoned(Apply(s, CommitPass(p)), k)
  {
  }

  /** A row whose worker is gone never succeeds: no delivery of it is let through again, and only passes
      and requests to cancel still change it. */
  lemma {:induction false} AbandonedNeverSucceeds(s: Sys, acts: seq<Action>, k: Key)
    requires Inv(s) && CanRun(s, acts) && Abandoned(s, k)
    ensures Abandoned(After(s, acts), k)
    decreases |acts|
  {
    hide Apply, Inv, Abandoned, Enabled;
    if acts != [] {
      AbandonedOnce(s, acts[0], k);
      InvStep(s, acts[0]);
      AbandonedNeverSucceeds(Apply(s, acts[0]), acts[1..], k);
    }
  }

  /** A crash leaves its row so. */
  lemma CrashAbandons(s: Sys, w: nat)
    requires Inv(s) && w in s.workers && s.rows[s.workers[w].key].status in {Running, Failed, Cancelled}
    ensures Enabled(s, Crash(w)) && Abandoned(Apply(s, Crash(w)), s.workers[w].key)
  {
    hide Calls, Locks;
  }

  lemma RunningCanEnd(s: Sys, k: Key) returns (acts: seq<Action>)
    requires Inv(s) && HasStatus(s.rows, k, Running)
    ensures CanRun(s, acts) && HasEnded(After(s, acts).rows, k)
  {
    var wait := s.rows[k].submitted + StaleAfter + 1 - s.now;
    var d: nat := if wait < 0 then 0 else wait;
    hide Inv, CanRun, After, Locked, InFlight;
    acts := Lose(s, 0, k, d, false);
    StatusOnlyMovesForward(s, acts, k);
  }

  lemma Unlock(s: Sys, k: Key) returns (acts: seq<Action>)
    requires Inv(s) && Linked(s) && HasStatus(s.rows, k, Queued)
    ensures CanRun(s, acts)
    ensures var t := After(s, acts); Inv(t) && Linked(t) && HasStatus(t.rows, k, Queued) && !Locked(t, k)
  {
    acts := [];
    if Locked(s, k) {
      var p :| p in s.passes && k in s.passes[p].picked;
      OnePassLocks(s, p, k);
      InvStep(s, AbortPass(p));
      LinkedStep(s, AbortPass(p));
      One(s, AbortPass(p));
      acts := [AbortPass(p)];
    }
  }

  lemma OnePassLocks(s: Sys, p: nat, k: Key)
    requires Inv(s) && p in s.passes && k in s.passes[p].picked
    ensures Enabled(s, AbortPass(p)) && !Locked(Apply(s, AbortPass(p)), k)
    ensures Apply(s, AbortPass(p)).rows == s.rows
  {
    assert Fresh(s, p) && k in s.passes[p].seen.Keys;
    forall q | q in s.passes && q != p ensures k !in s.passes[q].picked { assert Fresh(s, q); }
  }

  lemma QueuedCanRun(s: Sys, k: Key) returns (acts: seq<Action>)
    requires Inv(s) && Linked(s) && HasStatus(s.rows, k, Queued) && !Locked(s, k)
    ensures CanRun(s, acts) && Inv(After(s, acts)) && HasStatus(After(s, acts).rows, k, Running)
  {
    var w := Unused(s.workers.Keys);
    var a := Deliver(w, k);
    assert w !in s.workers.Keys;
    Claim(s, w, k);
    hide Inv, Locked, Apply, Enabled;
    InvStep(s, a);
    One(s, a);
    acts := [a];
  }

  /** There is no dead end: from every state that a run reaches, every row can still end. */
  lemma EveryRowCanEnd(acts: seq<Action>, k: Key)
    requires CanRun(Init, acts) && k in After(Init, acts).rows
    ensures exists more :: CanRun(After(Init, acts), more) && HasEnded(After(After(Init, acts), more).rows, k)
  {
    InvRun(Init, acts);
    LinkedRun(Init, acts);
    var more := CanEnd(After(Init, acts), k);
    hide CanRun, After, HasEnded;
  }

  lemma CanEnd(s: Sys, k: Key) returns (acts: seq<Action>)
    requires Inv(s) && Linked(s) && k in s.rows
    ensures CanRun(s, acts) && HasEnded(After(s, acts).rows, k)
  {
    if s.rows[k].status == Running {
      acts := RunningCanEnd(s, k);
    } else if s.rows[k].status == Queued {
      acts := QueuedCanEnd(s, k);
    } else {
      acts := [];
    }
    hide Inv, Linked;
  }

  lemma QueuedCanEnd(s: Sys, k: Key) returns (acts: seq<Action>)
    requires Inv(s) && Linked(s) && HasStatus(s.rows, k, Queued)
    ensures CanRun(s, acts) && HasEnded(After(s, acts).rows, k)
  {
    hide *;
    var free := Unlock(s, k);
    var t := After(s, free);
    var claim := QueuedCanRun(t, k);
    var end := RunningCanEnd(After(t, claim), k);
    RunConcat(t, claim, end);
    RunConcat(s, free, claim + end);
    acts := free + (claim + end);
  }

  /** Workers, passes and requests can all be lost without a trace in the rows. */
  lemma {:induction false} AllCanBeLost(s: Sys) returns (acts: seq<Action>)
    ensures CanRun(s, acts) && After(s, acts) == s.(workers := map[], passes := map[], cancels := map[])
    decreases |s.workers| + |s.passes| + |s.cancels|
  {
    if s.workers.Keys == {} && s.passes.Keys == {} && s.cancels.Keys == {} {
      acts := [];
      assert s.workers == map[] && s.passes == map[] && s.cancels == map[];
    } else {
      var a := LoseSomething(s);
      var t := Apply(s, a);
      hide Apply, Enabled;
      var rest := AllCanBeLost(t);
      Prefix(s, a, t, rest);
      acts := [a] + rest;
    }
  }

  lemma LoseSomething(s: Sys) returns (a: Action)
    requires s.workers.Keys != {} || s.passes.Keys != {} || s.cancels.Keys != {}
    ensures Enabled(s, a)
    ensures var t := Apply(s, a);
            && t.(workers := s.workers, passes := s.passes, cancels := s.cancels) == s
            && |t.workers| + |t.passes| + |t.cancels| < |s.workers| + |s.passes| + |s.cancels|
  {
    if s.workers.Keys != {} {
      var w := Member(s.workers.Keys);
      OneLess(s.workers, w);
      a := Crash(w);
    } else if s.passes.Keys != {} {
      var p := Member(s.passes.Keys);
      OneLess(s.passes, p);
      a := AbortPass(p);
    } else {
      var c := Member(s.cancels.Keys);
      OneLess(s.cancels, c);
      a := DropCancel(c);
    }
  }

  lemma OneLess<T>(m: map<nat, T>, k: nat)
    requires k in m
    ensures |m - {k}| < |m|
  {
    assert (m - {k}).Keys == m.Keys - {k};
    RemoveMember(m.Keys, k);
    assert |m.Keys| == |m| && |(m - {k}).Keys| == |m - {k}|;
  }

  // ---- Exactly when an outcome is final ----

  /** Only the worker of a row makes it succeed, and it is gone then. */
  ghost predicate Done(s: Sys) {
    forall w | w in s.workers :: !HasStatus(s.rows, s.workers[w].key, Succeeded)
  }

  lemma DoneWrite(s: Sys, a: Action)
    requires Inv(s) && Done(s) && Enabled(s, a) && (a.WriteRun? || a.FinishJob?)
    ensures Done(Apply(s, a))
  {
    hide Calls, Locks, Locked;
  }

  lemma DoneOther(s: Sys, a: Action)
    requires Inv(s) && Done(s) && Enabled(s, a) && !a.WriteRun? && !a.FinishJob?
    ensures Done(Apply(s, a))
  {
    forall w | w in Apply(s, a).workers ensures !HasStatus(Apply(s, a).rows, Apply(s, a).workers[w].key, Succeeded) {
      WorkersAfter(s, a, w);
      NoneSucceeds(s, a, Apply(s, a).workers[w].key);
    }
    hide Apply, Inv, Enabled;
  }

  lemma NoneSucceeds(s: Sys, a: Action, k: Key)
    requires Enabled(s, a) && !a.WriteRun? && !a.FinishJob? && !HasStatus(s.rows, k, Succeeded)
    ensures !HasStatus(Apply(s, a).rows, k, Succeeded)
  {
  }

  lemma {:induction false} DoneRun(s: Sys, acts: seq<Action>)
    requires Inv(s) && Done(s) && CanRun(s, acts)
    ensures Done(After(s, acts))
    decreases |acts|
  {
    hide Apply, Inv, Done, Enabled;
    if acts != [] {
      if acts[0].WriteRun? || acts[0].FinishJob? { DoneWrite(s, acts[0]); } else { DoneOther(s, acts[0]); }
      InvStep(s, acts[0]);
      DoneRun(Apply(s, acts[0]), acts[1..]);
    }
  }

  /** No request to cancel the run is under way, and no finalizer is about to write success over it. */
  ghost predicate Settled(s: Sys, k: Key) {
    && !InFlight(s, k)
    && forall w | w in s.workers && s.workers[w].key == k :: !s.workers[w].Writing? || s.workers[w].final == Failed
  }

  /** The row has this outcome, and nothing under way can change it. */
  ghost predicate Final(s: Sys, k: Key, st: Status) {
    && HasStatus(s.rows, k, st) && Settled(s, k)
    && (st == Succeeded ==> forall w | w in s.workers :: s.workers[w].key != k)
  }

  lemma FinalRows(s: Sys, a: Action, k: Key, st: Status)
    requires Inv(s) && Enabled(s, a) && !a.CommitPass? && (st == Succeeded || st == Failed) && Final(s, k, st)
    ensures HasStatus(Apply(s, a).rows, k, st)
  {
    if a.WriteRun? && s.workers[a.w].key == k {
      assert s.workers[a.w].final == Failed;
    } else {
      hide InFlight;
      assert !a.WriteCancel? || RunRow(s.cancels[a.c]) != k by { assert !InFlight(s, k); UnderWay(s, k); }
      Untouched(s, a, k);
    }
  }

  lemma UnderWay(s: Sys, k: Key)
    requires !InFlight(s, k)
    ensures forall c | c in s.cancels :: RunRow(s.cancels[c]) != k
  {
  }

  lemma FinalPass(s: Sys, p: nat, k: Key, st: Status)
    requires Inv(s) && Enabled(s, CommitPass(p)) && (st == Succeeded || st == Failed) && Final(s, k, st)
    ensures HasStatus(Apply(s, CommitPass(p)).rows, k, st)
  {
    assert Fresh(s, p);
  }

  lemma FinalCancels(s: Sys, a: Action, k: Key, st: Status)
    requires Enabled(s, a) && (st == Succeeded || st == Failed) && HasStatus(s.rows, k, st) && !InFlight(s, k)
    ensures !InFlight(Apply(s, a), k)
  {
    if a.ReadCancel? && RunRow(a.run) == k {
      assert Apply(s, a) == s;
    } else {
      CancelsKept(s, a, k);
    }
  }

  lemma FinalWorkers(s: Sys, a: Action, k: Key, w: nat)
    requires Enabled(s, a) && HasStatus(s.rows, k, Failed) && Settled(s, k) && w in Apply(s, a).workers
    requires Apply(s, a).workers[w].key == k
    ensures !Apply(s, a).workers[w].Writing? || Apply(s, a).workers[w].final == Failed
  {
    hide InFlight, Locked;
  }

  lemma FinalOnce(s: Sys, a: Action, k: Key, st: Status)
    requires Inv(s) && Enabled(s, a) && (st == Succeeded || st == Failed) && Final(s, k, st)
    ensures Final(Apply(s, a), k, st)
  {
    if a.CommitPass? { FinalPass(s, a.p, k, st); } else { FinalRows(s, a, k, st); }
    FinalCancels(s, a, k, st);
    forall w | w in Apply(s, a).workers && Apply(s, a).workers[w].key == k
      ensures st != Succeeded
      ensures !Apply(s, a).workers[w].Writing? || Apply(s, a).workers[w].final == Failed
    {
      WorkersAfter(s, a, w);
      if st == Failed { FinalWorkers(s, a, k, w); }
    }
    hide Apply, Inv, Enabled, InFlight;
  }

  lemma {:induction false} FinalRun(s: Sys, acts: seq<Action>, k: Key, st: Status)
    requires Inv(s) && CanRun(s, acts) && (st == Succeeded || st == Failed) && Final(s, k, st)
    ensures HasStatus(After(s, acts).rows, k, st)
    decreases |acts|
  {
    if acts != [] {
      FinalOnce(s, acts[0], k, st);
      InvStep(s, acts[0]);
      hide Apply, Inv, Final, Enabled;
      FinalRun(Apply(s, acts[0]), acts[1..], k, st);
    }
  }

  lemma EndedIsUnlocked(s: Sys, k: Key)
    requires Inv(s) && HasEnded(s.rows, k)
    ensures !Locked(s, k)
  {
    forall p | p in s.passes ensures k !in s.passes[p].picked { assert Fresh(s, p); }
  }

  lemma ChangedByCancel(s: Sys, k: Key, st: Status) returns (acts: seq<Action>)
    requires Inv(s) && HasStatus(s.rows, k, st) && (st == Succeeded || st == Failed) && InFlight(s, k)
    ensures CanRun(s, acts) && !HasStatus(After(s, acts).rows, k, st)
  {
    EndedIsUnlocked(s, k);
    var c :| c in s.cancels && RunRow(s.cancels[c]) == k;
    One(s, WriteCancel(c));
    acts := [WriteCancel(c)];
  }

  lemma ChangedByWrite(s: Sys, w: nat, k: Key) returns (acts: seq<Action>)
    requires Inv(s) && HasStatus(s.rows, k, Failed) && w in s.workers && s.workers[w].key == k
    requires s.workers[w].Writing? && s.workers[w].final != Failed
    ensures CanRun(s, acts) && !HasStatus(After(s, acts).rows, k, Failed)
  {
    EndedIsUnlocked(s, k);
    One(s, WriteRun(w));
    acts := [WriteRun(w)];
  }

  /** From any state without a worker on a succeeded row, which is every state that a run reaches: a row
      that succeeded or failed stays so over every continuation exactly when no request to cancel it is
      under way and no finalizer is about to write success over it. */
  lemma OutcomeStaysExactly(s: Sys, k: Key, st: Status)
    requires Inv(s) && Done(s) && HasStatus(s.rows, k, st) && (st == Succeeded || st == Failed)
    ensures (forall acts | CanRun(s, acts) :: HasStatus(After(s, acts).rows, k, st)) <==> Settled(s, k)
  {
    hide CanRun, After, Inv, InFlight;
    if Settled(s, k) {
      forall acts | CanRun(s, acts) ensures HasStatus(After(s, acts).rows, k, st) { FinalRun(s, acts, k, st); }
    } else if InFlight(s, k) {
      var acts := ChangedByCancel(s, k, st);
      assert CanRun(s, acts) && !HasStatus(After(s, acts).rows, k, st);
    } else {
      var w :| w in s.workers && s.workers[w].key == k && s.workers[w].Writing? && s.workers[w].final != Failed;
      assert st == Failed;
      var acts := ChangedByWrite(s, w, k);
      assert CanRun(s, acts) && !HasStatus(After(s, acts).rows, k, st);
    }
  }

  lemma NoWorkerOnSucceeded(acts: seq<Action>)
    requires CanRun(Init, acts)
    ensures Inv(After(Init, acts)) && Done(After(Init, acts))
  {
    InvRun(Init, acts);
    DoneRun(Init, acts);
  }

  // ---- The tasks ----

  lemma Claim(s: Sys, w: nat, k: Key)
    requires w !in s.workers && k in s.outbox && !Locked(s, k) && HasStatus(s.rows, k, Queued)
    ensures Enabled(s, Deliver(w, k))
    ensures Apply(s, Deliver(w, k)) == s.(rows := SetStatus(s.rows, k, Running), workers := s.workers[w := Claimed(k)])
  {
  }

  /** The step in which a worker learns its outcome. */
  function Asking(w: nat, configFound: bool, answered: bool): Action {
    if configFound then CallAi(w, answered) else ConfigMissing(w)
  }

  lemma Ask(s: Sys, w: nat, k: Key, configFound: bool, answered: bool)
    requires w in s.workers && s.workers[w] == Claimed(k)
    ensures Enabled(s, Asking(w, configFound, answered))
    ensures Apply(s, Asking(w, configFound, answered))
         == s.(aiCalls := s.aiCalls + (if configFound then [k] else []),
               workers := s.workers[w := Decided(k, configFound && answered)])
  {
  }

  lemma EndJob(s: Sys, w: nat, k: Key, ok: bool)
    requires w in s.workers && s.workers[w] == Decided(k, ok)
    requires k.JobRow? && !Locked(s, k) && HasStatus(s.rows, k, Running)
    ensures Enabled(s, FinishJob(w, ok))
    ensures Apply(s, FinishJob(w, ok))
         == s.(rows := SetStatus(s.rows, k, if ok then Succeeded else Failed), workers := s.workers - {w})
  {
  }

  /** A delivery that nothing interferes with, as `ExtractCandidates` below performs it, is a run of the
      protocol: claim, call if it is configured, final compare-and-set. */
  lemma JobTaskIsARun(s: Sys, w: nat, run: nat, configFound: bool, answered: bool)
    requires w !in s.workers && JobRow(run) in s.outbox
    requires !Locked(s, JobRow(run)) && HasStatus(s.rows, JobRow(run), Queued)
    ensures var ok := configFound && answered;
            var acts := [Deliver(w, JobRow(run)), Asking(w, configFound, answered), FinishJob(w, ok)];
            && CanRun(s, acts)
            && After(s, acts)
               == s.(rows := CompareAndSet(s.rows, JobRow(run), Queued, if ok then Succeeded else Failed),
                     aiCalls := s.aiCalls + (if configFound then [JobRow(run)] else []))
  {
    var k, ok := JobRow(run), configFound && answered;
    var a, b, c := Deliver(w, k), Asking(w, configFound, answered), FinishJob(w, ok);
    hide CanRun, After, Enabled, Apply, Asking;
    Claim(s, w, k);
    var s1 := Apply(s, a);
    Ask(s1, w, k, configFound, answered);
    var s2 := Apply(s1, b);
    EndJob(s2, w, k, ok);
    var s3 := Apply(s2, c);
    assert s3.workers == s.workers && s3.rows == CompareAndSet(s.rows, k, Queued, if ok then Succeeded else Failed);
    assert [a, b, c] == [a] + ([b] + [c]);
    One(s2, c);
    Prefix(s1, b, s2, [c]);
    Prefix(s, a, s1, [b] + [c]);
  }

  /** One whose job has lost its turn or plan is a single step. */
  lemma RefusalIsARun(s: Sys, run: nat)
    requires JobRow(run) in s.outbox && !Locked(s, JobRow(run))
    ensures CanRun(s, [Refuse(JobRow(run))])
    ensures After(s, [Refuse(JobRow(run))]) == s.(rows := CompareAndSet(s.rows, JobRow(run), Queued, Failed))
  {
    One(s, Refuse(JobRow(run)));
  }

  /** The rows and the outbox when a finalizer has written: a run that succeeded has its extraction job,
      and the job one more event. */
  function Written(s: Sys, w: nat, run: nat, ok: bool): Sys {
    var k, job := RunRow(run), JobRow(run);
    var done := CompareAndSet(s.rows, k, Running, if ok then Succeeded else Failed);
    if ok
    then
      s.(rows := if job in done then done else done[job := Row(Queued, s.now)], outbox := s.outbox + [job],
         workers := s.workers - {w})
    else s.(rows := done, workers := s.workers - {w})
  }

  lemma ReadOwn(s: Sys, w: nat, run: nat, ok: bool)
    requires w in s.workers && s.workers[w] == Decided(RunRow(run), ok) && HasStatus(s.rows, RunRow(run), Running)
    ensures Enabled(s, ReadRun(w, ok))
    ensures Apply(s, ReadRun(w, ok))
         == s.(workers := s.workers[w := Writing(RunRow(run), if ok then Succeeded else Failed)])
  {
  }

  lemma WriteOwn(s: Sys, w: nat, run: nat, ok: bool)
    requires w in s.workers && s.workers[w] == Writing(RunRow(run), if ok then Succeeded else Failed)
    requires !Locked(s, RunRow(run)) && HasStatus(s.rows, RunRow(run), Running)
    ensures Enabled(s, WriteRun(w)) && Apply(s, WriteRun(w)) == Written(s, w, run, ok)
  {
  }

  lemma WrittenAgain(s: Sys, t: Sys, w: nat, run: nat, ok: bool)
    requires w !in s.workers && HasStatus(s.rows, RunRow(run), Queued)
    requires t.rows == SetStatus(s.rows, RunRow(run), Running)
    requires t.workers == s.workers[w := Writing(RunRow(run), if ok then Succeeded else Failed)]
    ensures var done := CompareAndSet(s.rows, RunRow(run), Queued, if ok then Succeeded else Failed);
            Written(t, w, run, ok)
            == t.(rows := if ok && JobRow(run) !in done then done[JobRow(run) := Row(Queued, t.now)] else done,
                  outbox := t.outbox + (if ok then [JobRow(run)] else []), workers := s.workers)
  {
    assert t.workers - {w} == s.workers;
    var done := CompareAndSet(t.rows, RunRow(run), Running, if ok then Succeeded else Failed);
    assert done == CompareAndSet(s.rows, RunRow(run), Queued, if ok then Succeeded else Failed);
  }

  /** The same of a run: claim, call if it is configured, the finalizer's read and its write. What is
      left is what `ExecuteAnalysisRun` leaves. */
  lemma RunTaskIsARun(s: Sys, w: nat, run: nat, configFound: bool, answered: bool)
    requires w !in s.workers && RunRow(run) in s.outbox
    requires !Locked(s, RunRow(run)) && HasStatus(s.rows, RunRow(run), Queued)
    ensures var ok, k, job := configFound && answered, RunRow(run), JobRow(run);
            var acts := [Deliver(w, k), Asking(w, configFound, answered), ReadRun(w, ok), WriteRun(w)];
            var done := CompareAndSet(s.rows, k, Queued, if ok then Succeeded else Failed);
            && CanRun(s, acts)
            && After(s, acts)
               == s.(rows := if ok && job !in done then done[job := Row(Queued, s.now)] else done,
                     outbox := s.outbox + (if ok then [job] else []),
                     aiCalls := s.aiCalls + (if configFound then [k] else []))
  {
    var k, ok := RunRow(run), configFound && answered;
    var a, b, c, d := Deliver(w, k), Asking(w, configFound, answered), ReadRun(w, ok), WriteRun(w);
    hide CanRun, After, Enabled, Apply, Asking;
    Claim(s, w, k);
    var s1 := Apply(s, a);
    Ask(s1, w, k, configFound, answered);
    var s2 := Apply(s1, b);
    ReadOwn(s2, w, run, ok);
    var s3 := Apply(s2, c);
    WriteOwn(s3, w, run, ok);
    var s4 := Apply(s3, d);
    WrittenAgain(s, s3, w, run, ok);
    hide Written, CompareAndSet, SetStatus;
    assert [a, b, c, d] == [a] + ([b] + ([c] + [d]));
    One(s3, d);
    Prefix(s2, c, s3, [d]);
    Prefix(s1, b, s2, [c] + [d]);
    Prefix(s, a, s1, [b] + ([c] + [d]));
  }

  /** A finalizer whose transaction does not commit fails the run instead. */
  lemma FailedWriteFailsRun(s: Sys, w: nat, run: nat, final: Status)
    requires w in s.workers && s.workers[w] == Writing(RunRow(run), final)
    requires !Locked(s, RunRow(run)) && HasStatus(s.rows, RunRow(run), Running)
    ensures var acts := [WriteFails(w), ReadRun(w, false), WriteRun(w)];
            && CanRun(s, acts)
            && After(s, acts) == s.(rows := SetStatus(s.rows, RunRow(run), Failed), workers := s.workers - {w})
  {
    var a, b, c := WriteFails(w), ReadRun(w, false), WriteRun(w);
    var s1 := Apply(s, a);
    assert s1 == s.(workers := s.workers[w := Decided(RunRow(run), false)]);
    hide CanRun, After, Enabled, Apply;
    ReadOwn(s1, w, run, false);
    var s2 := Apply(s1, b);
    WriteOwn(s2, w, run, false);
    var s3 := Apply(s2, c);
    assert s3.workers == s.workers - {w};
    assert [a, b, c] == [a] + ([b] + [c]);
    One(s2, c);
    Prefix(s1, b, s2, [c]);
    Prefix(s, a, s1, [b] + [c]);
  }

  /** And a cancellation, as `CancelRun` below performs it: its read and its write, or only the read. */
  lemma CancelIsARun(s: Sys, c: nat, run: nat)
    requires c !in s.cancels && !Locked(s, RunRow(run))
    ensures if HasStatus(s.rows, RunRow(run), Queued) || HasStatus(s.rows, RunRow(run), Running)
            then
              && CanRun(s, [ReadCancel(c, run)] + [WriteCancel(c)])
              && After(s, [ReadCancel(c, run)] + [WriteCancel(c)])
                 == s.(rows := SetStatus(s.rows, RunRow(run), Cancelled))
            else
              CanRun(s, [ReadCancel(c, run)]) && After(s, [ReadCancel(c, run)]) == s
  {
    var a, b := ReadCancel(c, run), WriteCancel(c);
    One(s, a);
    if HasStatus(s.rows, RunRow(run), Queued) || HasStatus(s.rows, RunRow(run), Running) {
      var t := s.(cancels := s.cancels[c := run]);
      assert Apply(t, b) == s.(rows := SetStatus(s.rows, RunRow(run), Cancelled)) by {
        assert t.cancels - {c} == s.cancels;
      }
      One(t, b);
      Prefix(s, a, t, [b]);
    }
  }

  function Statuses(rows: map<Key, Row>, picked: seq<Key>): map<Key, Status> {
    map k | k in picked && k in rows :: rows[k].status
  }

  function CountRunning(picked: seq<Key>, seen: map<Key, Status>): nat {
    if picked == [] then 0
    else (if picked[0] in seen && seen[picked[0]] == Running then 1 else 0) + CountRunning(picked[1..], seen)
  }

  lemma {:induction false} ExtendRequeued(picked: seq<Key>, k: Key, seen: map<Key, Status>)
    ensures Requeued(picked + [k], seen)
         == Requeued(picked, seen) + (if k in seen && seen[k] == Queued then [k] else [])
  {
    if picked == [] {
      assert picked + [k] == [k] && [k][1..] == [];
    } else {
      var first := if picked[0] in seen && seen[picked[0]] == Queued then [picked[0]] else [];
      var last := Requeued([k], seen);
      assert (picked + [k])[0] == picked[0] && (picked + [k])[1..] == picked[1..] + [k];
      ExtendRequeued(picked[1..], k, seen);
      assert first + (Requeued(picked[1..], seen) + last) == (first + Requeued(picked[1..], seen)) + last;
    }
  }

  lemma {:induction false} ExtendCount(picked: seq<Key>, k: Key, seen: map<Key, Status>)
    ensures CountRunning(picked + [k], seen)
         == CountRunning(picked, seen) + (if k in seen && seen[k] == Running then 1 else 0)
  {
    if picked == [] {
      assert picked + [k] == [k] && [k][1..] == [];
    } else {
      assert (picked + [k])[0] == picked[0] && (picked + [k])[1..] == picked[1..] + [k];
      ExtendCount(picked[1..], k, seen);
    }
  }

  /** Visiting one more locked row settles that row and no other. */
  lemma SettleOneMore(rows: map<Key, Row>, picked: seq<Key>, k: Key)
    requires k in rows && k !in picked
    ensures var before := Settle(rows, Statuses(rows, picked));
            && k in before && before[k] == rows[k]
            && Settle(rows, Statuses(rows, picked + [k]))
               == if rows[k].status == Running then before[k := rows[k].(status := Failed)] else before
  {
    assert forall j | j in picked + [k] :: j in picked || j == k;
  }

  /** How far the two loops of a pass have come: `done` lists the rows they have visited. */
  datatype Progress = Progress(rows: map<Key, Row>, outbox: seq<Key>, requeued: nat, lost: nat)

  function ProgressAt(rows: map<Key, Row>, outbox: seq<Key>, seen: map<Key, Status>, done: seq<Key>): Progress {
    var sent := Requeued(done, seen);
    Progress(Settle(rows, Statuses(rows, done)), outbox + sent, |sent|, CountRunning(done, seen))
  }

  function Visit(pr: Progress, k: Key): Progress {
    if k !in pr.rows then pr
    else if pr.rows[k].status == Queued then pr.(outbox := pr.outbox + [k], requeued := pr.requeued + 1)
    else if pr.rows[k].status == Running then pr.(rows := SetStatus(pr.rows, k, Failed), lost := pr.lost + 1)
    else pr
  }

  /** Visiting the rows one after the other. */
  function VisitAll(pr: Progress, keys: seq<Key>): Progress {
    if keys == [] then pr else Visit(VisitAll(pr, keys[..|keys| - 1]), keys[|keys| - 1])
  }

  lemma {:induction false} VisitAllConcat(pr: Progress, x: seq<Key>, y: seq<Key>)
    ensures VisitAll(pr, x + y) == VisitAll(VisitAll(pr, x), y)
  {
    if y == [] {
      assert x + y == x;
    } else {
      assert (x + y)[..|x + y| - 1] == x + y[..|y| - 1];
      VisitAllConcat(pr, x, y[..|y| - 1]);
    }
  }

  lemma {:induction false} VisitAllIsProgress(
      rows: map<Key, Row>, outbox: seq<Key>, seen: map<Key, Status>, done: seq<Key>)
    requires Distinct(done) && forall k | k in done :: k in rows && k in seen && seen[k] == rows[k].status
    ensures VisitAll(Progress(rows, outbox, 0, 0), done) == ProgressAt(rows, outbox, seen, done)
  {
    if done != [] {
      var n := |done| - 1;
      VisitAllIsProgress(rows, outbox, seen, done[..n]);
      assert done == done[..n] + [done[n]];
      VisitLast(rows, outbox, seen, done[..n], done[n]);
    }
  }

  lemma VisitLast(rows: map<Key, Row>, outbox: seq<Key>, seen: map<Key, Status>, done: seq<Key>, k: Key)
    requires k !in done && k in rows && k in seen && seen[k] == rows[k].status
    ensures var pr := ProgressAt(rows, outbox, seen, done);
            k in pr.rows && ProgressAt(rows, outbox, seen, done + [k]) == Visit(pr, k)
  {
    ExtendRequeued(done, k, seen);
    ExtendCount(done, k, seen);
    SettleOneMore(rows, done, k);
    hide Settle, Requeued, CountRunning;
    assert outbox + (Requeued(done, seen) + [k]) == outbox + Requeued(done, seen) + [k];
  }

  /** The research tables and the outbox as the tasks update them. */
  class Tables {
    var rows: map<Key, Row>
    var outbox: seq<Key>

    constructor ()
      ensures rows == map[] && outbox == []
    {
      rows, outbox := map[], [];
    }

    method UpdateStatus(k: Key, expected: Status, next: Status) returns (ok: bool)
      modifies this`rows
      ensures rows == CompareAndSet(old(rows), k, expected, next)
      ensures ok == HasStatus(old(rows), k, expected)
    {
      ok := k in rows && rows[k].status == expected;
      if ok {
        rows := rows[k := rows[k].(status := next)];
      }
    }

    /** `extract_candidates` without interference: a queued job is claimed and ends; any other
        delivery changes nothing and does not reach the model. */
    method ExtractCandidates(run: nat, contextFound: bool, configFound: bool, answered: bool) returns (called: bool)
      modifies this`rows
      ensures called == (HasStatus(old(rows), JobRow(run), Queued) && contextFound && configFound)
      ensures rows == CompareAndSet(old(rows), JobRow(run), Queued, if called && answered then Succeeded else Failed)
    {
      called := false;
      var claimed := UpdateStatus(JobRow(run), Queued, Running);
      if !claimed {
        return;
      }
      if !contextFound || !configFound {
        var _ := UpdateStatus(JobRow(run), Running, Failed);
        return;
      }
      called := true;
      var _ := UpdateStatus(JobRow(run), Running, if answered then Succeeded else Failed);
    }

    /** `execute_analysis_run` without interference, with the finalizer's transaction at its end. */
    method ExecuteAnalysisRun(run: nat, now: int, configFound: bool, answered: bool) returns (called: bool)
      modifies this
      ensures called == (HasStatus(old(rows), RunRow(run), Queued) && configFound)
      ensures var final, job := if called && answered then Succeeded else Failed, JobRow(run);
              var done := CompareAndSet(old(rows), RunRow(run), Queued, final);
              if final == Succeeded
              then
                && rows == (if job in done then done else done[job := Row(Queued, now)])
                && outbox == old(outbox) + [job]
              else rows == done && outbox == old(outbox)
    {
      called := false;
      var k := RunRow(run);
      var claimed := UpdateStatus(k, Queued, Running);
      if !claimed {
        return;
      }
      called := configFound;
      if called && answered {
        rows := rows[k := rows[k].(status := Succeeded)];
        if JobRow(run) !in rows {
          rows := rows[JobRow(run) := Row(Queued, now)];
        }
        outbox := outbox + [JobRow(run)];
      } else {
        rows := rows[k := rows[k].(status := Failed)];
      }
    }

    /** `cancel_run` without interference: an active run is cancelled, any other refused. */
    method CancelRun(run: nat) returns (ok: bool)
      modifies this`rows
      ensures ok == (HasStatus(old(rows), RunRow(run), Queued) || HasStatus(old(rows), RunRow(run), Running))
      ensures rows == if ok then SetStatus(old(rows), RunRow(run), Cancelled) else old(rows)
    {
      var k := RunRow(run);
      if k !in rows { return false; }
      if rows[k].status != Queued && rows[k].status != Running { return false; }
      rows := rows[k := rows[k].(status := Cancelled)];
      ok := true;
    }

    /** The two loops of `reconcile_timeline` have the same body; each runs over its query's rows. */
    method VisitRows(keys: seq<Key>, requeued: nat, markedLost: nat) returns (r: nat, m: nat)
      requires forall k | k in keys :: k in rows
      modifies this
      ensures Progress(rows, outbox, r, m) == VisitAll(Progress(old(rows), old(outbox), requeued, markedLost), keys)
      ensures rows.Keys == old(rows).Keys
    {
      r, m := requeued, markedLost;
      ghost var start := Progress(rows, outbox, r, m);
      for i := 0 to |keys|
        invariant rows.Keys == old(rows).Keys
        invariant Progress(rows, outbox, r, m) == VisitAll(start, keys[..i])
      {
        var k := keys[i];
        assert keys[..i + 1][..i] == keys[..i];
        if rows[k].status == Queued {
          outbox := outbox + [k];
          r := r + 1;
        } else if rows[k].status == Running {
          rows := rows[k := rows[k].(status := Failed)];
          m := m + 1;
        }
      }
      assert keys[..|keys|] == keys;
    }

    /** `reconcile_timeline`: its two loops write what a committed pass writes. */
    method ReconcileTimeline(runs: seq<Key>, jobs: seq<Key>) returns (requeued: nat, markedLost: nat)
      requires Distinct(runs + jobs) && forall k | k in runs + jobs :: k in rows
      modifies this
      ensures Progress(rows, outbox, requeued, markedLost)
              == ProgressAt(old(rows), old(outbox), Statuses(old(rows), runs + jobs), runs + jobs)
    {
      VisitAllIsProgress(rows, outbox, Statuses(rows, runs + jobs), runs + jobs);
      VisitAllConcat(Progress(rows, outbox, 0, 0), runs, jobs);
      hide ProgressAt, VisitAll;
      requeued, markedLost := VisitRows(runs, 0, 0);
      requeued, markedLost := VisitRows(jobs, requeued, markedLost);
    }
  }
}
