/** File paths as lists of components: their text, and the order in which `sorted` puts them. */
module Paths {
  import opened Text

  type Path = seq<string>

  // ---- Text of a path ----

  predicate Component(c: string) { c != "" && c != "." && '/' !in c }

  /** A path below a directory: at least one component. */
  ghost predicate Proper(p: Path) { p != [] && forall c | c in p :: Component(c) }

  function Join(p: Path): string {
    if p == [] then ""
    else if |p| == 1 then p[0]
    else Join(p[..|p| - 1]) + "/" + p[|p| - 1]
  }

  function Split(s: string): (p: Path)
    ensures p != []
  {
    if s == "" then [""]
    else
      var p, c := Split(s[..|s| - 1]), s[|s| - 1];
      if c == '/' then p + [""] else p[..|p| - 1] + [p[|p| - 1] + [c]]
  }

  function Kept(p: Path): Path {
    if p == [] then []
    else
      var front, c := Kept(p[..|p| - 1]), p[|p| - 1];
      if c == "" || c == "." then front else front + [c]
  }

  /** `directory / text`: empty and "." components vanish. */
  function Below(text: string): Path { Kept(Split(text)) }

  /** The texts that are the text of the path they name. */
  ghost predicate Canonical(text: string) { Proper(Below(text)) && Join(Below(text)) == text }

  /** A list of components with text added to the last one. */
  function Lengthened(p: Path, t: string): Path
    requires p != []
  {
    p[..|p| - 1] + [p[|p| - 1] + t]
  }

  lemma LengthenedMore(p: Path, t: string, c: char)
    requires p != []
    ensures Lengthened(p, "") == p
    ensures Lengthened(Lengthened(p, t), [c]) == Lengthened(p, t + [c])
  {
    Assoc(p[|p| - 1], t, [c]);
    assert p[|p| - 1] + "" == p[|p| - 1];
  }

  lemma SplitMore(s: string, c: char)
    ensures Split(s + [c]) == if c == '/' then Split(s) + [""] else Lengthened(Split(s), [c])
  {
    assert (s + [c])[..|s|] == s;
  }

  lemma {:induction false} SplitComponent(s: string, t: string)
    requires '/' !in t
    ensures Split(s + t) == Lengthened(Split(s), t)
  {
    hide *;
    if t == "" {
      assert s + t == s;
      LengthenedMore(Split(s), "", 'x');
    } else {
      var u, c := t[..|t| - 1], t[|t| - 1];
      SplitComponent(s, u);
      SplitMore(s + u, c);
      Assoc(s, u, [c]);
      assert t == u + [c];
      LengthenedMore(Split(s), u, c);
    }
  }

  lemma SplitOne(t: string)
    requires '/' !in t
    ensures Split(t) == [t]
  {
    SplitComponent("", t);
    assert "" + t == t;
  }

  lemma SplitAfterSlash(s: string, t: string)
    requires '/' !in t
    ensures Split(s + "/" + t) == Split(s) + [t]
  {
    SplitMore(s, '/');
    SplitComponent(s + "/", t);
    assert "" + t == t;
    hide Split;
    assert (Split(s) + [""])[..|Split(s)|] == Split(s);
  }

  ghost predicate NoSlash(p: Path) { forall c | c in p :: '/' !in c }

  lemma Front(p: Path)
    requires |p| > 1 && NoSlash(p)
    ensures NoSlash(p[..|p| - 1]) && '/' !in p[|p| - 1] && p[..|p| - 1] + [p[|p| - 1]] == p
  {
    assert p[|p| - 1] in p;
  }

  lemma JoinMore(p: Path)
    requires |p| > 1
    ensures Join(p) == Join(p[..|p| - 1]) + "/" + p[|p| - 1]
  {
  }

  /** Joining and splitting again. */
  lemma {:induction false} SplitOfJoin(p: Path)
    requires p != [] && NoSlash(p)
    ensures Split(Join(p)) == p
  {
    if |p| == 1 {
      assert p == [p[0]] && '/' !in p[0];
      hide *;
      SplitOne(p[0]);
    } else {
      Front(p);
      JoinMore(p);
      hide *;
      SplitOfJoin(p[..|p| - 1]);
      SplitAfterSlash(Join(p[..|p| - 1]), p[|p| - 1]);
    }
  }

  lemma {:induction false} SplitHasNoSlash(s: string)
    ensures forall c | c in Split(s) :: '/' !in c
  {
    if s != "" { SplitHasNoSlash(s[..|s| - 1]); }
  }

  lemma {:induction false} KeptComponents(p: Path)
    requires forall c | c in p :: '/' !in c
    ensures forall c | c in Kept(p) :: Component(c)
  {
    if p != [] { KeptComponents(p[..|p| - 1]); }
  }

  lemma {:induction false} KeptHas(p: Path, c: string)
    ensures c in Kept(p) <==> c in p && c != "" && c != "."
  {
    if p != [] {
      KeptHas(p[..|p| - 1], c);
      assert p == p[..|p| - 1] + [p[|p| - 1]];
    }
  }

  lemma {:induction false} KeptAll(p: Path)
    requires forall c | c in p :: Component(c)
    ensures Kept(p) == p
  {
    if p != [] {
      KeptAll(p[..|p| - 1]);
      assert Component(p[|p| - 1]) && p == p[..|p| - 1] + [p[|p| - 1]];
    }
  }

  lemma BelowComponents(text: string)
    ensures forall c | c in Below(text) :: Component(c)
  {
    SplitHasNoSlash(text);
    KeptComponents(Split(text));
  }

  /** The text of a path names that path, so the texts of paths are exactly the canonical texts. */
  lemma TextNamesPath(p: Path)
    requires Proper(p)
    ensures Below(Join(p)) == p && Canonical(Join(p))
  {
    SplitOfJoin(p);
    KeptAll(p);
  }

  // ---- Order ----

  /** Negative, zero or positive, as a text comes before, at or after another. */
  function TextOrder(a: string, b: string): int {
    if a == "" then (if b == "" then 0 else -1)
    else if b == "" then 1
    else if a[0] < b[0] then -1
    else if b[0] < a[0] then 1
    else TextOrder(a[1..], b[1..])
  }

  function PathOrder(p: Path, q: Path): int {
    if p == [] then (if q == [] then 0 else -1)
    else if q == [] then 1
    else if TextOrder(p[0], q[0]) != 0 then TextOrder(p[0], q[0])
    else PathOrder(p[1..], q[1..])
  }

  /** The two agree up to n, where the first ends or has the smaller character. */
  ghost predicate TextBefore(a: string, b: string, n: nat) {
    n <= |a| && n < |b| && a[..n] == b[..n] && (n < |a| ==> a[n] < b[n])
  }

  lemma SameFirst<T>(a: seq<T>, b: seq<T>, n: nat)
    requires 0 < n <= |a| && n <= |b| && a[..n] == b[..n]
    ensures a[0] == b[0]
  {
    assert a[..n][0] == b[..n][0];
  }

  /** Texts are ordered by their first difference, a text before its extensions. */
  lemma {:induction false} TextOrderExactly(a: string, b: string)
    ensures TextOrder(a, b) < 0 <==> exists n: nat :: TextBefore(a, b, n)
  {
    forall n: nat | 0 < n && TextBefore(a, b, n) { SameFirst(a, b, n); }
    if a == "" || b == "" || a[0] != b[0] {
      if TextOrder(a, b) < 0 { assert TextBefore(a, b, 0); }
    } else {
      TextOrderExactly(a[1..], b[1..]);
      if n: nat :| TextBefore(a[1..], b[1..], n) {
        assert a[..n + 1] == [a[0]] + a[1..][..n] && b[..n + 1] == [b[0]] + b[1..][..n];
        assert TextBefore(a, b, n + 1);
      }
      if n: nat :| TextBefore(a, b, n) {
        assert n > 0;
        assert a[1..][..n - 1] == a[..n][1..] && b[1..][..n - 1] == b[..n][1..];
        assert TextBefore(a[1..], b[1..], n - 1);
      }
    }
  }

  ghost predicate PathBefore(p: Path, q: Path, n: nat) {
    n <= |p| && n < |q| && p[..n] == q[..n] && (n < |p| ==> TextOrder(p[n], q[n]) < 0)
  }

  /** Paths are ordered by their first different component, a directory before what is in it. */
  lemma {:induction false} PathOrderExactly(p: Path, q: Path)
    ensures PathOrder(p, q) < 0 <==> exists n: nat :: PathBefore(p, q, n)
  {
    hide TextOrder;
    if p != [] && q != [] { TextTotal(p[0], q[0]); }
    forall n: nat | 0 < n && PathBefore(p, q, n) { SameFirst(p, q, n); }
    if p == [] || q == [] || p[0] != q[0] {
      if PathOrder(p, q) < 0 { assert PathBefore(p, q, 0); }
    } else {
      PathOrderExactly(p[1..], q[1..]);
      if n: nat :| PathBefore(p[1..], q[1..], n) {
        assert p[..n + 1] == [p[0]] + p[1..][..n] && q[..n + 1] == [q[0]] + q[1..][..n];
        assert PathBefore(p, q, n + 1);
      }
      if n: nat :| PathBefore(p, q, n) {
        assert n > 0;
        assert p[1..][..n - 1] == p[..n][1..] && q[1..][..n - 1] == q[..n][1..];
        assert PathBefore(p[1..], q[1..], n - 1);
      }
    }
  }

  lemma {:induction false} TextTotal(a: string, b: string)
    ensures TextOrder(a, b) == 0 <==> a == b
    ensures TextOrder(a, b) < 0 <==> TextOrder(b, a) > 0
  {
    if a != "" && b != "" && a[0] == b[0] {
      TextTotal(a[1..], b[1..]);
      assert a == [a[0]] + a[1..] && b == [b[0]] + b[1..];
    }
  }

  lemma {:induction false} TextTransitive(a: string, b: string, c: string)
    requires TextOrder(a, b) < 0 && TextOrder(b, c) < 0
    ensures TextOrder(a, c) < 0
  {
    if a != "" && a[0] == b[0] == c[0] { TextTransitive(a[1..], b[1..], c[1..]); }
  }

  lemma {:induction false} PathTotal(p: Path, q: Path)
    ensures PathOrder(p, q) == 0 <==> p == q
    ensures PathOrder(p, q) < 0 <==> PathOrder(q, p) > 0
  {
    if p != [] && q != [] {
      TextTotal(p[0], q[0]);
      TextTotal(q[0], p[0]);
      if p[0] == q[0] {
        PathTotal(p[1..], q[1..]);
        assert p == [p[0]] + p[1..] && q == [q[0]] + q[1..];
      }
    }
  }

  lemma {:induction false} PathTransitive(p: Path, q: Path, r: Path)
    requires PathOrder(p, q) < 0 && PathOrder(q, r) < 0
    ensures PathOrder(p, r) < 0
  {
    if p != [] {
      TextTotal(p[0], q[0]);
      TextTotal(q[0], r[0]);
      TextTotal(p[0], r[0]);
      if p[0] == q[0] == r[0] {
        PathTransitive(p[1..], q[1..], r[1..]);
      } else if p[0] != q[0] && q[0] != r[0] {
        TextTransitive(p[0], q[0], r[0]);
      }
    }
  }

  /** In strictly ascending order. */
  ghost predicate Ascends(s: seq<Path>) { forall i, j | 0 <= i < j < |s| :: PathOrder(s[i], s[j]) < 0 }

  ghost predicate Same(s: seq<Path>, t: seq<Path>) { forall p :: p in s <==> p in t }

  lemma FirstIsLeast(s: seq<Path>, t: seq<Path>)
    requires Ascends(s) && Ascends(t) && Same(s, t) && s != []
    ensures t != [] && s[0] == t[0]
  {
    assert s[0] in t;
    assert t[0] in s;
    var i :| 0 <= i < |s| && s[i] == t[0];
    var j :| 0 <= j < |t| && t[j] == s[0];
    PathTotal(s[0], t[0]);
  }

  lemma RestIsSame(s: seq<Path>, t: seq<Path>)
    requires Ascends(s) && Ascends(t) && Same(s, t) && s != [] && t != [] && s[0] == t[0]
    ensures Ascends(s[1..]) && Ascends(t[1..]) && Same(s[1..], t[1..])
  {
    forall p ensures p in s[1..] <==> p in s && p != s[0] { RestHas(s, p); }
    forall p ensures p in t[1..] <==> p in t && p != t[0] { RestHas(t, p); }
  }

  lemma RestHas(s: seq<Path>, p: Path)
    requires Ascends(s) && s != []
    ensures p in s[1..] <==> p in s && p != s[0]
  {
    PathTotal(s[0], p);
    if p in s[1..] {
      var i :| 0 <= i < |s[1..]| && s[1..][i] == p;
      assert s[i + 1] == p;
    }
  }

  /** Only one ascending list has given members. */
  lemma {:induction false} OneAscendingList(s: seq<Path>, t: seq<Path>)
    requires Ascends(s) && Ascends(t) && Same(s, t)
    ensures s == t
  {
    if s != [] {
      FirstIsLeast(s, t);
      RestIsSame(s, t);
      OneAscendingList(s[1..], t[1..]);
    } else if t != [] {
      NotSame(t);
    }
  }

  lemma NotSame(t: seq<Path>)
    requires t != []
    ensures !Same([], t)
  {
    assert t[0] in t;
  }

  // ---- `sorted` ----

  function Insert(p: Path, s: seq<Path>): seq<Path> {
    if s == [] || PathOrder(p, s[0]) <= 0 then [p] + s else [s[0]] + Insert(p, s[1..])
  }

  function Sorted(s: seq<Path>): seq<Path> { if s == [] then [] else Insert(s[0], Sorted(s[1..])) }

  lemma {:induction false} InsertSize(p: Path, s: seq<Path>)
    ensures |Insert(p, s)| == |s| + 1
  {
    hide PathOrder;
    if s != [] && PathOrder(p, s[0]) > 0 { InsertSize(p, s[1..]); }
  }

  lemma {:induction false} InsertHas(p: Path, s: seq<Path>)
    ensures forall q :: q in Insert(p, s) <==> q == p || q in s
  {
    if s != [] && PathOrder(p, s[0]) > 0 {
      InsertHas(p, s[1..]);
      assert s == [s[0]] + s[1..];
    }
  }

  lemma AscendsCons(p: Path, s: seq<Path>)
    requires Ascends(s) && forall q | q in s :: PathOrder(p, q) < 0
    ensures Ascends([p] + s)
  {
  }

  lemma FirstBelow(s: seq<Path>, q: Path)
    requires Ascends(s) && s != [] && q in s
    ensures q == s[0] || PathOrder(s[0], q) < 0
  {
  }

  lemma {:induction false} InsertAscends(p: Path, s: seq<Path>)
    requires Ascends(s) && p !in s
    ensures Ascends(Insert(p, s))
  {
    if s != [] {
      PathTotal(p, s[0]);
      if PathOrder(p, s[0]) <= 0 {
        forall q | q in s ensures PathOrder(p, q) < 0 {
          FirstBelow(s, q);
          if q != s[0] { PathTransitive(p, s[0], q); }
        }
        AscendsCons(p, s);
      } else {
        InsertAscends(p, s[1..]);
        InsertHas(p, s[1..]);
        PathTotal(s[0], p);
        forall q | q in Insert(p, s[1..]) ensures PathOrder(s[0], q) < 0 {
          if q != p { RestHas(s, q); FirstBelow(s, q); }
        }
        AscendsCons(s[0], Insert(p, s[1..]));
      }
    }
  }

  ghost predicate NoRepeats(s: seq<Path>) { forall i, j | 0 <= i < j < |s| :: s[i] != s[j] }

  lemma {:induction false} SortedAscends(s: seq<Path>)
    requires NoRepeats(s)
    ensures Ascends(Sorted(s)) && Same(s, Sorted(s))
  {
    if s != [] {
      SortedAscends(s[1..]);
      InsertHas(s[0], Sorted(s[1..]));
      assert s == [s[0]] + s[1..];
      assert s[0] !in s[1..];
      InsertAscends(s[0], Sorted(s[1..]));
    }
  }
}
