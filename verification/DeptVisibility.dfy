/** Department visibility: the recursive query behind row-level security, and the triggers that guard
    the department tree and the visibility of rows. */
module DeptVisibility {
  import opened Sets
  import opened Text

  type Id = int

  datatype Dept = Dept(parent: Option<Id>, code: string, status: string)

  type Table = map<Id, Dept>

  /** The foreign key of `parent_id`. */
  ghost predicate Closed(t: Table) { forall d | d in t && t[d].parent.Some? :: t[d].parent.value in t }

  /** A depth that grows from parent to child and stays below `top`. */
  ghost predicate Ranked(t: Table, depth: map<Id, nat>, top: nat) {
    && Closed(t)
    && (forall d | d in t :: d in depth && depth[d] < top)
    && (forall d | d in t && t[d].parent.Some? :: t[d].parent.value in depth && depth[t[d].parent.value] < depth[d])
  }

  ghost predicate Acyclic(t: Table) { exists depth: map<Id, nat>, top: nat :: Ranked(t, depth, top) }

  // ---- The reference: chains of parents ----

  /** The n-th ancestor; a department is its own ancestor number 0. */
  function Ancestor(t: Table, d: Id, n: nat): Option<Id> {
    if n == 0 then Some(d)
    else
      var a := Ancestor(t, d, n - 1);
      if a.Some? && a.value in t then t[a.value].parent else None
  }

  /** a is an ancestor of d, or d itself. */
  ghost predicate Above(t: Table, a: Id, d: Id) { exists n: nat :: Ancestor(t, d, n) == Some(a) }

  lemma {:induction false} AncestorOfParent(t: Table, d: Id, n: nat)
    requires d in t
    ensures Ancestor(t, d, n + 1) == if t[d].parent.Some? then Ancestor(t, t[d].parent.value, n) else None
  {
    if n == 0 {
      assert Ancestor(t, d, 0) == Some(d);
    } else {
      AncestorOfParent(t, d, n - 1);
    }
  }

  // ---- The query ----

  /** `department d JOIN working s ON d.parent_id = s.id`: a bag, one row for each match. */
  function ChildrenOf(t: Table, rows: seq<Id>, s: Id): seq<Id> {
    if rows == [] then []
    else
      var d := rows[|rows| - 1];
      ChildrenOf(t, rows[..|rows| - 1], s) + (if d in t && t[d].parent == Some(s) then [d] else [])
  }

  function JoinDown(t: Table, rows: seq<Id>, working: seq<Id>): seq<Id> {
    if working == [] then []
    else JoinDown(t, rows, working[..|working| - 1]) + ChildrenOf(t, rows, working[|working| - 1])
  }

  /** `SELECT d.parent_id FROM department d JOIN working ON d.id = working.id WHERE d.parent_id IS NOT NULL`. */
  function JoinUp(t: Table, working: seq<Id>): seq<Id> {
    if working == [] then []
    else
      var d := working[|working| - 1];
      JoinUp(t, working[..|working| - 1]) + (if d in t && t[d].parent.Some? then [t[d].parent.value] else [])
  }

  lemma {:induction false} ChildrenHas(t: Table, rows: seq<Id>, s: Id, x: Id)
    ensures x in ChildrenOf(t, rows, s) <==> x in rows && x in t && t[x].parent == Some(s)
  {
    if rows != [] {
      ChildrenHas(t, rows[..|rows| - 1], s, x);
      assert rows == rows[..|rows| - 1] + [rows[|rows| - 1]];
    }
  }

  lemma {:induction false} JoinDownHas(t: Table, rows: seq<Id>, working: seq<Id>, x: Id)
    ensures x in JoinDown(t, rows, working)
            <==> x in rows && x in t && t[x].parent.Some? && t[x].parent.value in working
  {
    if working != [] {
      var front, s := working[..|working| - 1], working[|working| - 1];
      JoinDownHas(t, rows, front, x);
      ChildrenHas(t, rows, s, x);
      assert working == front + [s];
    }
  }

  lemma {:induction false} JoinUpHas(t: Table, working: seq<Id>, x: Id)
    ensures x in JoinUp(t, working) <==> exists d :: d in working && d in t && t[d].parent == Some(x)
  {
    if working != [] {
      var front, d := working[..|working| - 1], working[|working| - 1];
      JoinUpHas(t, front, x);
      assert working == front + [d];
    }
  }

  ghost predicate Scans(rows: seq<Id>, t: Table) { forall d :: d in rows <==> d in t }

  lemma JoinDownSteps(t: Table, rows: seq<Id>, working: seq<Id>, depth: map<Id, nat>, top: nat, n: nat)
    requires Ranked(t, depth, top) && Scans(rows, t)
    requires forall w | w in working :: w in t && top - depth[w] <= n
    ensures working != [] ==> n > 0
    ensures forall w | w in JoinDown(t, rows, working) :: w in t && top - depth[w] <= n - 1
  {
    if working != [] {
      var w := working[0];
      assert w in working;
      assert w in t;
      assert w in depth;
    }
    forall w | w in JoinDown(t, rows, working) ensures w in t && top - depth[w] <= n - 1 {
      JoinDownHas(t, rows, working, w);
      var p := t[w].parent.value;
      assert p in working && depth[p] < depth[w] && top - depth[p] <= n;
    }
  }

  lemma JoinUpSteps(t: Table, working: seq<Id>, depth: map<Id, nat>, top: nat, n: nat)
    requires Ranked(t, depth, top)
    requires forall w | w in working :: w in t && depth[w] < n
    ensures working != [] ==> n > 0
    ensures forall w | w in JoinUp(t, working) :: w in t && depth[w] < n - 1
  {
    if working != [] { assert working[0] in working; }
    forall w | w in JoinUp(t, working) ensures w in t && depth[w] < n - 1 {
      JoinUpHas(t, working, w);
      var d :| d in working && d in t && t[d].parent == Some(w);
    }
  }

  /** The working-table evaluation of `down`: the rows of the working table, and then those of the
      table joined with it, until it is empty. It ends because depth grows. */
  function Down(
      t: Table, rows: seq<Id>, working: seq<Id>, ghost depth: map<Id, nat>, ghost top: nat, ghost n: nat): seq<Id>
    requires Ranked(t, depth, top) && Scans(rows, t)
    requires forall w | w in working :: w in t && top - depth[w] <= n
    decreases n
  {
    if working == [] then []
    else
      JoinDownSteps(t, rows, working, depth, top, n);
      working + Down(t, rows, JoinDown(t, rows, working), depth, top, n - 1)
  }

  /** The same for `up`, which ends because depth falls. */
  function Up(t: Table, working: seq<Id>, ghost depth: map<Id, nat>, ghost top: nat, ghost n: nat): seq<Id>
    requires Ranked(t, depth, top)
    requires forall w | w in working :: w in t && depth[w] < n
    decreases n
  {
    if working == [] then []
    else
      JoinUpSteps(t, working, depth, top, n);
      working + Up(t, JoinUp(t, working), depth, top, n - 1)
  }

  /** `current_visible_dept_ids()` for a user of the given departments. */
  function Visible(t: Table, rows: seq<Id>, depts: seq<Id>, ghost depth: map<Id, nat>, ghost top: nat): set<Id>
    requires Ranked(t, depth, top) && Scans(rows, t) && forall d | d in depts :: d in t
  {
    JoinUpSteps(t, depts, depth, top, top);
    (set x | x in Down(t, rows, depts, depth, top, top)) + (set x | x in Up(t, JoinUp(t, depts), depth, top, top))
  }

  // ---- What the query returns ----

  ghost predicate BelowAny(t: Table, depts: seq<Id>, x: Id) { exists s :: s in depts && Above(t, s, x) }

  ghost predicate AboveAny(t: Table, depts: seq<Id>, x: Id) { exists s :: s in depts && Above(t, x, s) }

  lemma DownOfNone(t: Table, rows: seq<Id>, depth: map<Id, nat>, top: nat, n: nat, x: Id)
    requires Ranked(t, depth, top) && Scans(rows, t)
    ensures x !in Down(t, rows, [], depth, top, n) && !BelowAny(t, [], x)
  {
  }

  lemma DownRound(t: Table, rows: seq<Id>, working: seq<Id>, depth: map<Id, nat>, top: nat, n: nat, x: Id)
    requires Ranked(t, depth, top) && Scans(rows, t) && working != []
    requires forall w | w in working :: w in t && top - depth[w] <= n
    ensures n > 0 && forall w | w in JoinDown(t, rows, working) :: w in t && top - depth[w] <= n - 1
    ensures x in Down(t, rows, working, depth, top, n)
            <==> x in working || x in Down(t, rows, JoinDown(t, rows, working), depth, top, n - 1)
  {
    JoinDownSteps(t, rows, working, depth, top, n);
    hide Ranked, JoinDown;
  }

  lemma {:induction false} DownIsBelow(
      t: Table, rows: seq<Id>, working: seq<Id>, depth: map<Id, nat>, top: nat, n: nat, x: Id)
    requires Ranked(t, depth, top) && Scans(rows, t)
    requires forall w | w in working :: w in t && top - depth[w] <= n
    ensures x in Down(t, rows, working, depth, top, n) <==> BelowAny(t, working, x)
    decreases n
  {
    hide *;
    if working == [] {
      DownOfNone(t, rows, depth, top, n, x);
    } else {
      DownRound(t, rows, working, depth, top, n, x);
      BelowJoin(t, rows, working, x);
      DownIsBelow(t, rows, JoinDown(t, rows, working), depth, top, n - 1, x);
    }
  }

  lemma StepDown(t: Table, rows: seq<Id>, working: seq<Id>, s: Id, x: Id)
    requires Scans(rows, t) && s in working && Above(t, s, x)
    ensures x in working || BelowAny(t, JoinDown(t, rows, working), x)
  {
    var n: nat :| Ancestor(t, x, n) == Some(s);
    if n > 0 {
      var c := Ancestor(t, x, n - 1).value;
      JoinDownHas(t, rows, working, c);
      assert Above(t, c, x);
    }
  }

  lemma BackDown(t: Table, rows: seq<Id>, working: seq<Id>, c: Id, x: Id)
    requires c in JoinDown(t, rows, working) && Above(t, c, x)
    ensures BelowAny(t, working, x)
  {
    JoinDownHas(t, rows, working, c);
    var n: nat :| Ancestor(t, x, n) == Some(c);
    assert Ancestor(t, x, n + 1) == t[c].parent;
    assert Above(t, t[c].parent.value, x);
  }

  lemma AboveSelf(t: Table, x: Id)
    ensures Above(t, x, x)
  {
    assert Ancestor(t, x, 0) == Some(x);
  }

  /** Below the working table: in it, or below its children. */
  lemma BelowJoin(t: Table, rows: seq<Id>, working: seq<Id>, x: Id)
    requires Scans(rows, t)
    ensures BelowAny(t, working, x) <==> x in working || BelowAny(t, JoinDown(t, rows, working), x)
  {
    AboveSelf(t, x);
    if BelowAny(t, working, x) {
      var s :| s in working && Above(t, s, x);
      StepDown(t, rows, working, s, x);
    }
    if BelowAny(t, JoinDown(t, rows, working), x) {
      var c :| c in JoinDown(t, rows, working) && Above(t, c, x);
      BackDown(t, rows, working, c, x);
    }
  }

  lemma UpOfNone(t: Table, depth: map<Id, nat>, top: nat, n: nat, x: Id)
    requires Ranked(t, depth, top)
    ensures x !in Up(t, [], depth, top, n) && !AboveAny(t, [], x)
  {
  }

  lemma UpRound(t: Table, working: seq<Id>, depth: map<Id, nat>, top: nat, n: nat, x: Id)
    requires Ranked(t, depth, top) && working != []
    requires forall w | w in working :: w in t && depth[w] < n
    ensures n > 0 && forall w | w in JoinUp(t, working) :: w in t && depth[w] < n - 1
    ensures x in Up(t, working, depth, top, n) <==> x in working || x in Up(t, JoinUp(t, working), depth, top, n - 1)
  {
    JoinUpSteps(t, working, depth, top, n);
    hide Ranked, JoinUp;
  }

  lemma {:induction false} UpIsAbove(t: Table, working: seq<Id>, depth: map<Id, nat>, top: nat, n: nat, x: Id)
    requires Ranked(t, depth, top)
    requires forall w | w in working :: w in t && depth[w] < n
    ensures x in Up(t, working, depth, top, n) <==> AboveAny(t, working, x)
    decreases n
  {
    hide *;
    if working == [] {
      UpOfNone(t, depth, top, n, x);
    } else {
      UpRound(t, working, depth, top, n, x);
      AboveJoin(t, working, x);
      UpIsAbove(t, JoinUp(t, working), depth, top, n - 1, x);
    }
  }

  lemma StepUp(t: Table, working: seq<Id>, s: Id, x: Id)
    requires s in working && s in t && Above(t, x, s)
    ensures x in working || AboveAny(t, JoinUp(t, working), x)
  {
    var n: nat :| Ancestor(t, s, n) == Some(x);
    if n > 0 {
      AncestorOfParent(t, s, n - 1);
      JoinUpHas(t, working, t[s].parent.value);
      assert Above(t, x, t[s].parent.value);
    }
  }

  lemma BackUp(t: Table, working: seq<Id>, p: Id, x: Id)
    requires p in JoinUp(t, working) && Above(t, x, p)
    ensures AboveAny(t, working, x)
  {
    JoinUpHas(t, working, p);
    var s :| s in working && s in t && t[s].parent == Some(p);
    var n: nat :| Ancestor(t, p, n) == Some(x);
    AncestorOfParent(t, s, n);
    assert Above(t, x, s);
  }

  lemma AboveJoin(t: Table, working: seq<Id>, x: Id)
    requires forall w | w in working :: w in t
    ensures AboveAny(t, working, x) <==> x in working || AboveAny(t, JoinUp(t, working), x)
  {
    AboveSelf(t, x);
    if AboveAny(t, working, x) {
      var s :| s in working && Above(t, x, s);
      StepUp(t, working, s, x);
    }
    if AboveAny(t, JoinUp(t, working), x) {
      var p :| p in JoinUp(t, working) && Above(t, x, p);
      BackUp(t, working, p, x);
    }
  }

  /** A user of some department sees x: x is that department, below it, or above it. */
  ghost predicate Sees(t: Table, depts: seq<Id>, x: Id) { exists s :: s in depts && (Above(t, s, x) || Above(t, x, s)) }

  /** The query returns exactly the departments of the user, everything below them, and their proper
      ancestors, in whatever order the table is scanned. */
  lemma VisibleIsSeen(t: Table, rows: seq<Id>, depts: seq<Id>, depth: map<Id, nat>, top: nat, x: Id)
    requires Ranked(t, depth, top) && Scans(rows, t) && forall d | d in depts :: d in t
    ensures x in Visible(t, rows, depts, depth, top) <==> Sees(t, depts, x)
  {
    hide *;
    VisibleMeans(t, rows, depts, depth, top, x);
    DownIsBelow(t, rows, depts, depth, top, top, x);
    UpIsAbove(t, JoinUp(t, depts), depth, top, top, x);
    AboveJoin(t, depts, x);
    SelfIsBelow(t, depts, x);
    SeenEitherWay(t, depts, x);
  }

  lemma DeptDepths(t: Table, depts: seq<Id>, depth: map<Id, nat>, top: nat)
    requires Ranked(t, depth, top) && forall d | d in depts :: d in t
    ensures forall w | w in depts :: w in t && w in depth && depth[w] < top && top - depth[w] <= top
  {
  }

  lemma VisibleMeans(t: Table, rows: seq<Id>, depts: seq<Id>, depth: map<Id, nat>, top: nat, x: Id)
    requires Ranked(t, depth, top) && Scans(rows, t) && forall d | d in depts :: d in t
    ensures forall w | w in depts :: w in t && w in depth && depth[w] < top && top - depth[w] <= top
    ensures forall w | w in JoinUp(t, depts) :: w in t && w in depth && depth[w] < top
    ensures x in Visible(t, rows, depts, depth, top)
       <==> x in Down(t, rows, depts, depth, top, top) || x in Up(t, JoinUp(t, depts), depth, top, top)
  {
    DeptDepths(t, depts, depth, top);
    JoinUpSteps(t, depts, depth, top, top);
    DeptDepths(t, JoinUp(t, depts), depth, top);
    hide Down, Up, JoinUp, Ranked, Scans, Closed;
  }

  lemma SelfIsBelow(t: Table, depts: seq<Id>, x: Id)
    ensures x in depts ==> BelowAny(t, depts, x)
  {
    AboveSelf(t, x);
  }

  lemma SeenEitherWay(t: Table, depts: seq<Id>, x: Id)
    ensures Sees(t, depts, x) <==> BelowAny(t, depts, x) || AboveAny(t, depts, x)
  {
    hide Above;
  }

  // ---- When the query ends ----

  /** The working table of `down` after n rounds. */
  function Working(t: Table, rows: seq<Id>, depts: seq<Id>, n: nat): seq<Id> {
    if n == 0 then depts else JoinDown(t, rows, Working(t, rows, depts, n - 1))
  }

  /** The departments after n steps up; from the first step on these are the working tables of `up`. */
  function Climbed(t: Table, depts: seq<Id>, n: nat): seq<Id> {
    if n == 0 then depts else JoinUp(t, Climbed(t, depts, n - 1))
  }

  ghost predicate DownEnds(t: Table, rows: seq<Id>, depts: seq<Id>) {
    exists n: nat :: Working(t, rows, depts, n) == []
  }

  ghost predicate UpEnds(t: Table, depts: seq<Id>) { exists n: nat :: n > 0 && Climbed(t, depts, n) == [] }

  /** The chain of ancestors of d comes to an end. */
  ghost predicate ChainEnds(t: Table, d: Id) { exists n: nat :: Ancestor(t, d, n).None? }

  lemma {:induction false} WorkingHas(t: Table, rows: seq<Id>, depts: seq<Id>, n: nat, x: Id)
    requires Scans(rows, t) && x in t && Ancestor(t, x, n).Some? && Ancestor(t, x, n).value in depts
    ensures x in Working(t, rows, depts, n)
  {
    hide JoinDown;
    if n > 0 {
      AncestorOfParent(t, x, n - 1);
      var p := t[x].parent.value;
      JoinDownHas(t, rows, Working(t, rows, depts, n - 1), x);
      if p in t {
        WorkingHas(t, rows, depts, n - 1, p);
      } else {
        OutsideHasNoAncestor(t, p, n - 1);
      }
    }
  }

  lemma {:induction false} WorkingIsBelow(t: Table, rows: seq<Id>, depts: seq<Id>, n: nat, x: Id)
    requires Scans(rows, t) && x in Working(t, rows, depts, n) && forall d | d in depts :: d in t
    ensures x in t && Ancestor(t, x, n).Some? && Ancestor(t, x, n).value in depts
  {
    hide JoinDown;
    if n > 0 {
      JoinDownHas(t, rows, Working(t, rows, depts, n - 1), x);
      WorkingIsBelow(t, rows, depts, n - 1, t[x].parent.value);
      AncestorOfParent(t, x, n - 1);
    }
  }

  lemma {:induction false} ClimbedHas(t: Table, depts: seq<Id>, n: nat, x: Id)
    ensures x in Climbed(t, depts, n) <==> exists d :: d in depts && Ancestor(t, d, n) == Some(x)
  {
    hide JoinUp;
    if n > 0 {
      JoinUpHas(t, Climbed(t, depts, n - 1), x);
      if x in Climbed(t, depts, n) {
        var c :| c in Climbed(t, depts, n - 1) && c in t && t[c].parent == Some(x);
        ClimbedHas(t, depts, n - 1, c);
        var d :| d in depts && Ancestor(t, d, n - 1) == Some(c);
        assert Ancestor(t, d, n) == Some(x);
      }
      if d :| d in depts && Ancestor(t, d, n) == Some(x) {
        ClimbedHas(t, depts, n - 1, Ancestor(t, d, n - 1).value);
      }
    }
  }

  lemma {:induction false} OutsideHasNoAncestor(t: Table, x: Id, n: nat)
    requires x !in t
    ensures n > 0 ==> Ancestor(t, x, n).None?
  {
    if n > 1 { OutsideHasNoAncestor(t, x, n - 1); }
  }

  lemma {:induction false} AncestorConcat(t: Table, x: Id, m: nat, n: nat)
    requires Ancestor(t, x, m).Some?
    ensures Ancestor(t, x, m + n) == Ancestor(t, Ancestor(t, x, m).value, n)
  {
    if n > 0 { AncestorConcat(t, x, m, n - 1); }
  }

  lemma {:induction false} SomeBefore(t: Table, d: Id, k: nat, m: nat)
    requires Ancestor(t, d, k).Some? && m <= k
    ensures Ancestor(t, d, m).Some?
  {
    if m < k { SomeBefore(t, d, k - 1, m); }
  }

  /** After enough steps every chain that ends has ended. */
  lemma {:induction false} AllEnded(t: Table, depts: seq<Id>) returns (n: nat)
    requires forall d | d in depts :: ChainEnds(t, d)
    ensures n > 0 && forall d | d in depts :: Ancestor(t, d, n).None?
  {
    if depts == [] {
      n := 1;
    } else {
      var front, last := depts[..|depts| - 1], depts[|depts| - 1];
      var m := AllEnded(t, front);
      assert last in depts;
      assert ChainEnds(t, last);
      var k: nat :| Ancestor(t, last, k).None?;
      n := if m > k then m else k;
      forall d | d in depts ensures Ancestor(t, d, n).None? {
        if Ancestor(t, d, n).Some? {
          SomeBefore(t, d, n, m);
          SomeBefore(t, d, n, k);
          assert d == last || d in front;
        }
      }
    }
  }

  lemma UpEndsExactly(t: Table, depts: seq<Id>)
    ensures UpEnds(t, depts) <==> forall d | d in depts :: ChainEnds(t, d)
  {
    if UpEnds(t, depts) {
      var n: nat :| n > 0 && Climbed(t, depts, n) == [];
      forall d | d in depts ensures ChainEnds(t, d) {
        if Ancestor(t, d, n).Some? { ClimbedHas(t, depts, n, Ancestor(t, d, n).value); }
      }
    }
    if forall d | d in depts :: ChainEnds(t, d) {
      var n := AllEnded(t, depts);
      if Climbed(t, depts, n) != [] {
        ClimbedHas(t, depts, n, Climbed(t, depts, n)[0]);
      }
      assert Climbed(t, depts, n) == [];
    }
  }

  // ---- Long chains repeat ----

  /** The first n departments of a chain. */
  function Chain(t: Table, x: Id, n: nat): set<Id> {
    if n == 0 then {}
    else Chain(t, x, n - 1) + (if Ancestor(t, x, n - 1).Some? then {Ancestor(t, x, n - 1).value} else {})
  }

  ghost predicate Repeats(t: Table, x: Id, i: nat, j: nat) {
    i < j && Ancestor(t, x, i).Some? && Ancestor(t, x, i) == Ancestor(t, x, j)
  }

  lemma {:induction false} ChainFrom(t: Table, x: Id, n: nat, a: Id) returns (i: nat)
    requires a in Chain(t, x, n)
    ensures i < n && Ancestor(t, x, i) == Some(a)
  {
    if a in Chain(t, x, n - 1) { i := ChainFrom(t, x, n - 1, a); } else { i := n - 1; }
  }

  ghost predicate RepeatsBefore(t: Table, x: Id, n: nat) { exists i: nat, j: nat :: j < n && Repeats(t, x, i, j) }

  lemma RepeatsLater(t: Table, x: Id, n: nat)
    requires RepeatsBefore(t, x, n)
    ensures RepeatsBefore(t, x, n + 1)
  {
    var i: nat, j: nat :| j < n && Repeats(t, x, i, j);
    assert j < n + 1 && Repeats(t, x, i, j);
  }

  lemma RepeatsNow(t: Table, x: Id, n: nat)
    requires Ancestor(t, x, n).Some? && Ancestor(t, x, n).value in Chain(t, x, n)
    ensures RepeatsBefore(t, x, n + 1)
  {
    var i := ChainFrom(t, x, n, Ancestor(t, x, n).value);
    assert n < n + 1 && Repeats(t, x, i, n);
  }

  lemma {:induction false} ChainSize(t: Table, x: Id, n: nat)
    requires forall i: nat | i < n :: Ancestor(t, x, i).Some?
    ensures |Chain(t, x, n)| == n || RepeatsBefore(t, x, n)
  {
    hide Ancestor, RepeatsBefore;
    if n > 0 {
      ChainSize(t, x, n - 1);
      var a := Ancestor(t, x, n - 1).value;
      assert Chain(t, x, n) == Chain(t, x, n - 1) + {a};
      if a in Chain(t, x, n - 1) {
        RepeatsNow(t, x, n - 1);
      } else if RepeatsBefore(t, x, n - 1) {
        RepeatsLater(t, x, n - 1);
      } else {
        AddMember(Chain(t, x, n - 1), a);
      }
    }
  }

  lemma ChainWithin(t: Table, x: Id, n: nat)
    requires Ancestor(t, x, n).Some? && Ancestor(t, x, n).value in t
    ensures forall i: nat | i < n + 1 :: Ancestor(t, x, i).Some?
    ensures Chain(t, x, n + 1) <= t.Keys
  {
    forall i: nat | i < n + 1 ensures Ancestor(t, x, i).Some? && Ancestor(t, x, i).value in t {
      SomeBefore(t, x, n, i);
      if i < n {
        SomeBefore(t, x, n, i + 1);
      }
    }
    forall a | a in Chain(t, x, n + 1) ensures a in t { var i := ChainFrom(t, x, n + 1, a); }
  }

  /** A chain that repeats never ends. */
  lemma {:induction false} RepeatsForEver(t: Table, x: Id, i: nat, j: nat, m: nat)
    requires Repeats(t, x, i, j)
    ensures Ancestor(t, x, m).Some?
    decreases m
  {
    if m <= j {
      SomeBefore(t, x, j, m);
    } else {
      RepeatsForEver(t, x, i, j, m - (j - i));
      AncestorConcat(t, x, j, m - j);
      AncestorConcat(t, x, i, m - j);
    }
  }

  /** No department has an ancestor further away than there are departments, unless that ancestor's own
      chain goes on for ever. */
  lemma LongChains(t: Table, x: Id)
    requires Ancestor(t, x, |t.Keys|).Some? && Ancestor(t, x, |t.Keys|).value in t
    ensures !ChainEnds(t, Ancestor(t, x, |t.Keys|).value)
  {
    var n := |t.Keys|;
    ChainWithin(t, x, n);
    ChainSize(t, x, n + 1);
    SubsetIsSmaller(Chain(t, x, n + 1), t.Keys);
    var i: nat, j: nat :| j < n + 1 && Repeats(t, x, i, j);
    forall m: nat ensures Ancestor(t, Ancestor(t, x, n).value, m).Some? {
      RepeatsForEver(t, x, i, j, n + m);
      AncestorConcat(t, x, n, m);
    }
  }

  lemma DownEndsIfChainsDo(t: Table, rows: seq<Id>, depts: seq<Id>)
    requires Scans(rows, t) && forall d | d in depts :: d in t && ChainEnds(t, d)
    ensures DownEnds(t, rows, depts)
  {
    var n := |t.Keys|;
    if Working(t, rows, depts, n) != [] {
      var x := Working(t, rows, depts, n)[0];
      WorkingIsBelow(t, rows, depts, n, x);
      LongChains(t, x);
    }
    assert Working(t, rows, depts, n) == [];
  }

  /** The query ends, both of its working tables empty at last, exactly when the chain of ancestors of
      each of the user's departments ends: a cycle matters if it is above a department or through it. */
  lemma QueryEndsExactly(t: Table, rows: seq<Id>, depts: seq<Id>)
    requires Scans(rows, t) && forall d | d in depts :: d in t
    ensures DownEnds(t, rows, depts) && UpEnds(t, depts) <==> forall d | d in depts :: ChainEnds(t, d)
  {
    UpEndsExactly(t, depts);
    if forall d | d in depts :: ChainEnds(t, d) { DownEndsIfChainsDo(t, rows, depts); }
  }

  /** In an acyclic table every chain ends. */
  lemma {:induction false} AcyclicChainsEnd(t: Table, depth: map<Id, nat>, top: nat, d: Id)
    requires Ranked(t, depth, top) && d in t
    ensures ChainEnds(t, d)
    decreases depth[d]
  {
    if t[d].parent.None? {
      AncestorOfParent(t, d, 0);
      assert Ancestor(t, d, 1).None?;
    } else {
      var p := t[d].parent.value;
      AcyclicChainsEnd(t, depth, top, p);
      var n: nat :| Ancestor(t, p, n).None?;
      AncestorOfParent(t, d, n);
      assert Ancestor(t, d, n + 1).None?;
    }
  }

  /** A cycle through a department of the user leaves the working table of `down` empty after no round. */
  lemma {:induction false} CycleNeverEnds(t: Table, rows: seq<Id>, depts: seq<Id>, d: Id, k: nat, n: nat)
    requires Scans(rows, t) && forall d | d in depts :: d in t
    requires d in depts && k > 0 && Ancestor(t, d, k) == Some(d)
    ensures Working(t, rows, depts, n) != []
  {
    var x := OnCycle(t, d, k, n);
    WorkingHas(t, rows, depts, n, x);
  }

  /** Some department of the cycle has d as its n-th ancestor. */
  lemma {:induction false} OnCycle(t: Table, d: Id, k: nat, n: nat) returns (x: Id)
    requires d in t && k > 0 && Ancestor(t, d, k) == Some(d)
    ensures x in t && Ancestor(t, x, n) == Some(d)
    decreases n
  {
    if n == 0 {
      x := d;
    } else if n >= k {
      x := OnCycle(t, d, k, n - k);
      AncestorConcat(t, x, n - k, k);
    } else {
      SomeBefore(t, d, k, k - n);
      x := Ancestor(t, d, k - n).value;
      AncestorConcat(t, d, k - n, n);
      if x !in t { OutsideHasNoAncestor(t, x, n); }
    }
  }

  // ---- Consequences ----

  lemma SeesIsMutual(t: Table, a: Id, b: Id)
    ensures Sees(t, [a], b) <==> Sees(t, [b], a)
  {
    assert a in [a] && b in [b];
  }

  lemma SeesIsAUnion(t: Table, a: seq<Id>, b: seq<Id>, x: Id)
    ensures Sees(t, a + b, x) <==> Sees(t, a, x) || Sees(t, b, x)
  {
    if Sees(t, a, x) {
      var s :| s in a && (Above(t, s, x) || Above(t, x, s));
      assert s in a + b;
    }
    if Sees(t, b, x) {
      var s :| s in b && (Above(t, s, x) || Above(t, x, s));
      assert s in a + b;
    }
  }

  /** Of two users with one department each, the query shows the first the other's department exactly
      when it shows the other the first's, however each query scans the table. */
  lemma SightIsMutual(t: Table, rows: seq<Id>, scan: seq<Id>, depth: map<Id, nat>, top: nat, a: Id, b: Id)
    requires Ranked(t, depth, top) && Scans(rows, t) && Scans(scan, t) && a in t && b in t
    ensures b in Visible(t, rows, [a], depth, top) <==> a in Visible(t, scan, [b], depth, top)
  {
    VisibleIsSeen(t, rows, [a], depth, top, b);
    VisibleIsSeen(t, scan, [b], depth, top, a);
    SeesIsMutual(t, a, b);
  }

  /** For a user of more departments the query returns what it returns for each part, and no more. */
  lemma SightIsAUnion(t: Table, rows: seq<Id>, depth: map<Id, nat>, top: nat, a: seq<Id>, b: seq<Id>)
    requires Ranked(t, depth, top) && Scans(rows, t) && forall d | d in a + b :: d in t
    ensures (forall d | d in a :: d in t) && forall d | d in b :: d in t
    ensures Visible(t, rows, a + b, depth, top) == Visible(t, rows, a, depth, top) + Visible(t, rows, b, depth, top)
  {
    forall d | d in a ensures d in t { assert d in a + b; }
    forall d | d in b ensures d in t { assert d in a + b; }
    forall x
      ensures x in Visible(t, rows, a + b, depth, top)
              <==> x in Visible(t, rows, a, depth, top) + Visible(t, rows, b, depth, top)
    {
      VisibleIsSeen(t, rows, a + b, depth, top, x);
      VisibleIsSeen(t, rows, a, depth, top, x);
      VisibleIsSeen(t, rows, b, depth, top, x);
      SeesIsAUnion(t, a, b, x);
    }
  }

  /** No other department is without a parent. */
  ghost predicate SoleRoot(t: Table, root: Id) { root in t && forall d | d in t :: t[d].parent.None? <==> d == root }

  lemma {:induction false} RootIsAbove(t: Table, root: Id, depth: map<Id, nat>, top: nat, x: Id)
    requires Ranked(t, depth, top) && SoleRoot(t, root) && x in t
    ensures Above(t, root, x)
    decreases depth[x]
  {
    if x == root {
      assert Ancestor(t, x, 0) == Some(root);
    } else {
      RootIsAbove(t, root, depth, top, t[x].parent.value);
      var n: nat :| Ancestor(t, t[x].parent.value, n) == Some(root);
      AncestorOfParent(t, x, n);
    }
  }

  /** In a tree with one root, a member of the root sees every department. */
  lemma RootSeesAll(t: Table, root: Id, depts: seq<Id>, x: Id)
    requires Acyclic(t) && SoleRoot(t, root) && root in depts && x in t
    ensures Sees(t, depts, x)
  {
    var depth: map<Id, nat>, top: nat :| Ranked(t, depth, top);
    RootIsAbove(t, root, depth, top, x);
  }

  lemma {:induction false} AncestorsAreInside(t: Table, d: Id, n: nat)
    requires Closed(t) && d in t && Ancestor(t, d, n).Some?
    ensures Ancestor(t, d, n).value in t
  {
    if n > 0 {
      SomeBefore(t, d, n, n - 1);
      AncestorsAreInside(t, d, n - 1);
      var a := Ancestor(t, d, n - 1).value;
      assert a in t && Ancestor(t, d, n) == t[a].parent;
    }
  }

  lemma SightIsInside(t: Table, depts: seq<Id>, x: Id)
    requires Closed(t) && Sees(t, depts, x) && forall d | d in depts :: d in t
    ensures x in t
  {
    var s :| s in depts && (Above(t, s, x) || Above(t, x, s));
    if Above(t, s, x) {
      var n: nat :| Ancestor(t, x, n) == Some(s);
      if x !in t { OutsideHasNoAncestor(t, x, n); }
    } else {
      var n: nat :| Ancestor(t, s, n) == Some(x);
      AncestorsAreInside(t, s, n);
    }
  }

  /** In a tree with one root the query returns the whole table to a member of the root. */
  lemma RootQueryReturnsAll(t: Table, rows: seq<Id>, root: Id, depts: seq<Id>, depth: map<Id, nat>, top: nat)
    requires Ranked(t, depth, top) && Scans(rows, t) && SoleRoot(t, root) && root in depts
             && forall d | d in depts :: d in t
    ensures Visible(t, rows, depts, depth, top) == t.Keys
  {
    forall x ensures x in Visible(t, rows, depts, depth, top) <==> x in t {
      VisibleIsSeen(t, rows, depts, depth, top, x);
      if x in t { RootSeesAll(t, root, depts, x); }
      if Sees(t, depts, x) { SightIsInside(t, depts, x); }
    }
  }

  // ---- The triggers ----

  datatype Action = Insert(id: Id, dept: Dept) | Update(id: Id, dept: Dept) | Delete(id: Id)

  predicate Sentinel(code: string) { code == "root" || code == "system" }

  /** `protect_sentinel_dept`. */
  predicate Allowed(t: Table, a: Action) {
    match a
    case Insert(_, _) => true
    case Update(id, dept) =>
      id in t && Sentinel(t[id].code) ==> dept.parent == t[id].parent && dept.status == t[id].status
    case Delete(id) => id in t ==> !Sentinel(t[id].code)
  }

  /** Another department with this parent has this code; departments without a parent never clash. */
  predicate Clashes(t: Table, id: Id, dept: Dept) {
    dept.parent.Some? && exists d :: d in t && d != id && t[d].parent == dept.parent && t[d].code == dept.code
  }

  /** The statement as executed: the trigger, the primary key, the foreign key and the unique constraint. */
  function Apply(t: Table, a: Action): Table {
    if !Allowed(t, a) then t
    else match a
      case Insert(id, dept) =>
        if id !in t && (dept.parent.None? || dept.parent.value in t || dept.parent.value == id) && !Clashes(t, id, dept)
        then t[id := dept] else t
      case Update(id, dept) =>
        if id in t && (dept.parent.None? || dept.parent.value in t) && !Clashes(t, id, dept) then t[id := dept] else t
      case Delete(id) => if exists d :: d in t && t[d].parent == Some(id) && d != id then t else t - {id}
  }

  function Run(t: Table, run: seq<Action>): Table {
    if run == [] then t else Apply(Run(t, run[..|run| - 1]), run[|run| - 1])
  }

  /** The statement leaves the code of this department alone. */
  predicate KeepsCode(a: Action, id: Id, code: string) { a.Update? && a.id == id ==> a.dept.code == code }

  lemma {:induction false} ForeignKeyHolds(t: Table, run: seq<Action>)
    requires Closed(t)
    ensures Closed(Run(t, run))
  {
    if run != [] { ForeignKeyHolds(t, run[..|run| - 1]); }
  }

  /** No two departments under one parent have one code. */
  ghost predicate UniqueCodes(t: Table) {
    forall d, e | d in t && e in t && d != e && t[d].parent.Some? && t[d].parent == t[e].parent ::
      t[d].code != t[e].code
  }

  /** A table that the constraints admit. */
  ghost predicate Sound(t: Table) { Closed(t) && UniqueCodes(t) }

  /** The table as the statement would have it. */
  function Wanted(t: Table, a: Action): Table {
    match a
    case Insert(id, dept) => if id in t then t else t[id := dept]
    case Update(id, dept) => if id in t then t[id := dept] else t
    case Delete(id) => t - {id}
  }

  lemma ClashesExactly(t: Table, id: Id, dept: Dept)
    requires UniqueCodes(t)
    ensures UniqueCodes(t[id := dept]) <==> !Clashes(t, id, dept)
  {
    var u := t[id := dept];
    if Clashes(t, id, dept) {
      var d :| d in t && d != id && t[d].parent == dept.parent && t[d].code == dept.code;
      assert u[d] == t[d] && u[id] == dept;
    }
  }

  lemma ParentThere(t: Table, id: Id, dept: Dept)
    requires Closed(t)
    ensures Closed(t[id := dept]) <==> dept.parent.None? || dept.parent.value in t || dept.parent.value == id
  {
    var u := t[id := dept];
    assert u[id] == dept;
    assert forall d | d in t && d != id :: u[d] == t[d];
  }

  lemma ChildrenStop(t: Table, id: Id)
    requires Closed(t)
    ensures Closed(t - {id}) <==> !exists d :: d in t && t[d].parent == Some(id) && d != id
  {
    var u := t - {id};
    assert forall d | d in u :: u[d] == t[d];
  }

  lemma FewerAreUnique(t: Table, id: Id)
    requires UniqueCodes(t)
    ensures UniqueCodes(t - {id})
  {
  }

  /** A statement takes effect exactly when the trigger allows it and the table it leads to keeps every
      constraint; otherwise nothing changes. */
  lemma AppliesExactly(t: Table, a: Action)
    requires Sound(t)
    ensures Apply(t, a) == if Allowed(t, a) && Sound(Wanted(t, a)) then Wanted(t, a) else t
  {
    match a {
      case Insert(id, dept) =>
        ClashesExactly(t, id, dept);
        ParentThere(t, id, dept);
      case Update(id, dept) =>
        ClashesExactly(t, id, dept);
        ParentThere(t, id, dept);
      case Delete(id) =>
        ChildrenStop(t, id);
        FewerAreUnique(t, id);
    }
    hide Closed, UniqueCodes, Clashes, Allowed;
  }

  /** So every run keeps them. */
  lemma {:induction false} RunsKeepConstraints(t: Table, run: seq<Action>)
    requires Sound(t)
    ensures Sound(Run(t, run))
  {
    if run != [] {
      hide Sound, Apply, Allowed, Wanted;
      RunsKeepConstraints(t, run[..|run| - 1]);
      AppliesExactly(Run(t, run[..|run| - 1]), run[|run| - 1]);
    }
  }

  /** The department is still there, under the same parent and with the same status. */
  predicate Kept(t: Table, u: Table, id: Id) {
    id in t && id in u && u[id].parent == t[id].parent && u[id].status == t[id].status
  }

  /** A statement that disables a department and takes it from under its parent, code and all. */
  function Disable(t: Table, id: Id, code: string): Action
    requires id in t
  {
    Update(id, Dept(None, code, t[id].status + "!"))
  }

  lemma DisableMoves(t: Table, id: Id, code: string)
    requires id in t && !Sentinel(t[id].code)
    ensures !Kept(t, Apply(t, Disable(t, id, code)), id)
  {
    assert |t[id].status + "!"| != |t[id].status|;
  }

  /** For one statement: no statement moves, disables or deletes a department exactly when its code is
      a sentinel's. */
  lemma ProtectedFromOneStatement(t: Table, id: Id)
    requires id in t
    ensures (forall a :: Kept(t, Apply(t, a), id)) <==> Sentinel(t[id].code)
  {
    if !Sentinel(t[id].code) { DisableMoves(t, id, t[id].code); }
  }

  /** The statement gives this department no code but a sentinel's. */
  predicate KeepsSentinel(a: Action, id: Id) { a.Update? && a.id == id ==> Sentinel(a.dept.code) }

  /** Through any run that gives it no other code than a sentinel's, a sentinel department stays where
      it is; if the run leaves its code alone, that stays too. */
  lemma {:induction false} SentinelStays(t: Table, run: seq<Action>, id: Id)
    requires id in t && Sentinel(t[id].code) && forall a | a in run :: KeepsSentinel(a, id)
    ensures Kept(t, Run(t, run), id) && Sentinel(Run(t, run)[id].code)
    ensures (forall a | a in run :: KeepsCode(a, id, t[id].code)) ==> Run(t, run)[id].code == t[id].code
  {
    if run != [] {
      var front, a := run[..|run| - 1], run[|run| - 1];
      assert a in run && KeepsSentinel(a, id);
      SentinelStays(t, front, id);
    }
  }

  ghost predicate AllKeepSentinel(run: seq<Action>, id: Id) { forall a | a in run :: KeepsSentinel(a, id) }

  /** For whole runs: wherever a run has led, every continuation that gives the department no other code
      than a sentinel's leaves it where it is, exactly when its code is a sentinel's now. */
  lemma ProtectedFromRuns(t: Table, run: seq<Action>, id: Id)
    requires id in Run(t, run)
    ensures var u := Run(t, run);
            (forall more :: AllKeepSentinel(more, id) ==> Kept(u, Run(u, more), id)) <==> Sentinel(u[id].code)
  {
    var u := Run(t, run);
    if Sentinel(u[id].code) {
      forall more | AllKeepSentinel(more, id) ensures Kept(u, Run(u, more), id) { SentinelStays(u, more, id); }
    } else {
      var a := Disable(u, id, "root");
      DisableMoves(u, id, "root");
      RunMore(u, [], a);
      assert [] + [a] == [a];
      assert AllKeepSentinel([a], id) && !Kept(u, Run(u, [a]), id);
    }
  }

  /** A code longer than every code in the table. */
  lemma {:induction false} UnusedCode(t: Table) returns (code: string)
    ensures |code| > 10 && forall d | d in t :: |t[d].code| < |code|
    decreases |t.Keys|
  {
    if t.Keys == {} {
      code := "-----------";
    } else {
      var d := Member(t.Keys);
      var c := UnusedCode(t - {d});
      code := c + t[d].code;
      forall e | e in t ensures |t[e].code| < |code| {
        assert e == d || e in t - {d};
      }
    }
  }

  /** Without a restriction on codes two statements always suffice: the first rewrites the code, which
      the trigger lets through, the second moves and disables the department. */
  lemma TwoStatementsMoveAnything(t: Table, id: Id)
    requires Closed(t) && id in t
    ensures exists a, b :: !Kept(t, Run(t, [a, b]), id)
  {
    var code := UnusedCode(t);
    var a := Update(id, t[id].(code := code));
    var u := Apply(t, a);
    RewriteGoesThrough(t, id, code);
    var b := Disable(u, id, code);
    DisableMoves(u, id, code);
    RunMore(t, [], a);
    RunMore(t, [] + [a], b);
    assert [] + [a] + [b] == [a, b];
    hide Apply;
    assert !Kept(t, Run(t, [a, b]), id);
  }

  lemma RewriteGoesThrough(t: Table, id: Id, code: string)
    requires id in t && (t[id].parent.Some? ==> t[id].parent.value in t) && |code| > 10
             && forall d | d in t :: |t[d].code| < |code|
    ensures var u := Apply(t, Update(id, t[id].(code := code)));
            id in u && u[id] == t[id].(code := code) && !Sentinel(u[id].code)
  {
    assert |"root"| == 4 && |"system"| == 6;
  }

  /** Through any such run, whenever the table is acyclic with one department without a parent, a member
      of the root sees every department. Other departments may become roots, or cycles, on the way. */
  lemma RootSeesAllThroughRuns(t: Table, run: seq<Action>, root: Id, other: Id, depts: seq<Id>, x: Id)
    requires root in t && t[root].parent.None? && Sentinel(t[root].code) && root in depts
    requires forall a | a in run :: KeepsSentinel(a, root)
    requires Acyclic(Run(t, run)) && SoleRoot(Run(t, run), other) && x in Run(t, run)
    ensures other == root && Sees(Run(t, run), depts, x)
  {
    SentinelStays(t, run, root);
    RootSeesAll(Run(t, run), root, depts, x);
  }

  /** The table of three departments after the root was moved. */
  function Moved(root: Id, a: Id, b: Id): Table {
    map[root := Dept(Some(a), "x", "active"), a := Dept(None, "a", "active"), b := Dept(Some(a), "b", "active")]
  }

  lemma MovedIsATree(root: Id, a: Id, b: Id)
    requires root != a && a != b && b != root
    ensures Acyclic(Moved(root, a, b)) && SoleRoot(Moved(root, a, b), a)
  {
    assert Ranked(Moved(root, a, b), map[a := 0, b := 1, root := 1], 2);
  }

  function Mischief(root: Id, a: Id, b: Id): seq<Action> {
    [Insert(a, Dept(None, "a", "active")), Insert(b, Dept(Some(a), "b", "active")),
     Update(root, Dept(None, "x", "active")), Update(root, Dept(Some(a), "x", "active"))]
  }

  lemma MischiefMoves(root: Id, a: Id, b: Id)
    requires root != a && a != b && b != root
    ensures Run(map[root := Dept(None, "root", "active")], Mischief(root, a, b)) == Moved(root, a, b)
  {
    var t: Table := map[root := Dept(None, "root", "active")];
    var s := Mischief(root, a, b);
    assert s == [] + [s[0]] + [s[1]] + [s[2]] + [s[3]];
    RunMore(t, [], s[0]);
    RunMore(t, [] + [s[0]], s[1]);
    RunMore(t, [] + [s[0]] + [s[1]], s[2]);
    RunMore(t, [] + [s[0]] + [s[1]] + [s[2]], s[3]);
    hide Run;
    var u1 := t[a := Dept(None, "a", "active")];
    var u2 := u1[b := Dept(Some(a), "b", "active")];
    assert Apply(t, s[0]) == u1;
    assert Apply(u1, s[1]) == u2;
    assert Apply(Apply(u2, s[2]), s[3]) == Moved(root, a, b);
  }

  /** The trigger looks at the old code only: a run that first rewrites it can then move the root under
      another department, after which a member of the root no longer sees all of one tree. */
  lemma RewrittenCodeUnprotects(root: Id, a: Id, b: Id)
    requires root != a && a != b && b != root
    ensures var u := Run(map[root := Dept(None, "root", "active")], Mischief(root, a, b));
            Acyclic(u) && SoleRoot(u, a) && b in u && !Sees(u, [root], b)
  {
    MischiefMoves(root, a, b);
    MovedIsATree(root, a, b);
    Siblings(Moved(root, a, b), root, a, b);
  }

  lemma RunMore(t: Table, run: seq<Action>, a: Action)
    ensures Run(t, run + [a]) == Apply(Run(t, run), a)
  {
    assert (run + [a])[..|run|] == run;
  }

  /** Two leaves under a root are not above each other. */
  lemma Siblings(u: Table, c: Id, a: Id, b: Id)
    requires c != a && a != b && b != c && c in u && a in u && b in u
    requires u[a].parent.None? && u[b].parent == Some(a) && u[c].parent == Some(a)
    ensures !Sees(u, [c], b)
  {
    forall n: nat ensures Ancestor(u, b, n) != Some(c) && Ancestor(u, c, n) != Some(b) {
      ShortChain(u, a, b, n);
      ShortChain(u, a, c, n);
    }
  }

  lemma {:induction false} ShortChain(u: Table, a: Id, d: Id, n: nat)
    requires d in u && a in u && u[a].parent.None? && u[d].parent == Some(a)
    ensures Ancestor(u, d, n) == if n == 0 then Some(d) else if n == 1 then Some(a) else None
  {
    if n > 0 { ShortChain(u, a, d, n - 1); }
  }

  // ---- Row visibility ----

  datatype Guarded = Guarded(scope: string, owner: Option<Id>)

  /** `forbid_reprivatize`: the row after an attempted update. */
  function Rewrite(was: Guarded, next: Guarded): Guarded {
    if was.scope != "private" && next.scope == "private" then was
    else if next.owner != was.owner then was
    else next
  }

  function Rewritten(row: Guarded, updates: seq<Guarded>): Guarded {
    if updates == [] then row else Rewrite(Rewritten(row, updates[..|updates| - 1]), updates[|updates| - 1])
  }

  /** Through any attempted updates, the owner of a row never changes, and a row that is not private
      never becomes private: it ends private only if it started so and stayed so throughout. */
  lemma {:induction false} NeverReprivatized(row: Guarded, updates: seq<Guarded>, k: nat)
    requires k <= |updates|
    ensures Rewritten(row, updates).owner == row.owner
    ensures Rewritten(row, updates).scope == "private" ==> Rewritten(row, updates[..k]).scope == "private"
    decreases |updates|
  {
    if k < |updates| {
      NeverReprivatized(row, updates[..|updates| - 1], k);
      assert updates[..|updates| - 1][..k] == updates[..k];
    } else {
      assert updates[..k] == updates;
      if k > 0 { NeverReprivatized(row, updates[..k - 1], 0); }
    }
  }

  /** The owner is the same, and a row that is not private is not to become so. */
  predicate Permitted(was: Guarded, next: Guarded) {
    next.owner == was.owner && (next.scope == "private" ==> was.scope == "private")
  }

  /** Every permitted update goes through, and any other leaves the row as it was. */
  lemma RewriteExactly(was: Guarded, next: Guarded)
    ensures Rewrite(was, next) == if Permitted(was, next) then next else was
  {
  }

  /** Updates can bring a row to exactly the states that one permitted update brings it to. */
  lemma RewritesReachExactly(row: Guarded, goal: Guarded)
    ensures (exists updates :: Rewritten(row, updates) == goal) <==> Permitted(row, goal)
  {
    if updates :| Rewritten(row, updates) == goal {
      NeverReprivatized(row, updates, 0);
    }
    if Permitted(row, goal) {
      RewriteExactly(row, goal);
      assert [goal][..0] == [] && Rewritten(row, []) == row;
      assert Rewritten(row, [goal]) == goal;
    }
  }
}
