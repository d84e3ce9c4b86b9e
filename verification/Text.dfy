/** String vocabulary shared by the models: options, whitespace trimming, joining, decimal numerals. */
module Text {

  datatype Option<+T> = None | Some(value: T)

  /** The two character classes that Python's `str.isalnum` and `str.strip` consult.
      The models never depend on a particular table: only on what `Valid` says. */
  datatype CharTable = CharTable(alnum: set<char>, space: set<char>) {
    predicate Valid() {
      && '$' !in alnum && ';' !in alnum
      && '$' !in space && ';' !in space
    }
  }

  const ASCII := CharTable(
    (set c: char | '0' <= c <= '9' || 'a' <= c <= 'z' || 'A' <= c <= 'Z'),
    {' ', '\t', '\n', '\r'})

  type Chars = t: CharTable | t.Valid() witness ASCII

  function TrimLeft(cs: Chars, s: string): string {
    if s != "" && s[0] in cs.space then TrimLeft(cs, s[1..]) else s
  }

  function TrimRight(cs: Chars, s: string): string {
    if s != "" && s[|s| - 1] in cs.space then TrimRight(cs, s[..|s| - 1]) else s
  }

  /** Python's `str.strip`. */
  function Trim(cs: Chars, s: string): string {
    TrimRight(cs, TrimLeft(cs, s))
  }

  predicate Trimmed(cs: Chars, s: string) {
    s != "" ==> s[0] !in cs.space && s[|s| - 1] !in cs.space
  }

  lemma {:induction false} TrimRightEnds(cs: Chars, s: string)
    ensures TrimRight(cs, s) <= s
    ensures TrimRight(cs, s) != "" ==> TrimRight(cs, s)[|TrimRight(cs, s)| - 1] !in cs.space
    ensures s != "" && s[|s| - 1] !in cs.space ==> TrimRight(cs, s) == s
  {
    if s != "" && s[|s| - 1] in cs.space {
      TrimRightEnds(cs, s[..|s| - 1]);
    }
  }

  lemma {:induction false} TrimLeftStarts(cs: Chars, s: string)
    ensures TrimLeft(cs, s) != "" ==> TrimLeft(cs, s)[0] !in cs.space
    ensures s != "" && s[0] !in cs.space ==> TrimLeft(cs, s) == s
  {
    if s != "" && s[0] in cs.space {
      TrimLeftStarts(cs, s[1..]);
    }
  }

  /** Trimming removes all outer whitespace, and leaves alone exactly the strings that have none. */
  lemma TrimFixpoints(cs: Chars, s: string)
    ensures Trimmed(cs, Trim(cs, s))
    ensures Trim(cs, s) == s <==> Trimmed(cs, s)
  {
    TrimLeftStarts(cs, s);
    TrimRightEnds(cs, TrimLeft(cs, s));
  }

  predicate Blank(cs: Chars, s: string) { forall c | c in s :: c in cs.space }

  /** `r` is `s` without its outer whitespace, and nothing else of it is missing. */
  ghost predicate Core(cs: Chars, s: string, r: string) {
    Trimmed(cs, r) && exists a, b :: Blank(cs, a) && Blank(cs, b) && s == a + r + b
  }

  lemma {:induction false} TrimLeftCuts(cs: Chars, s: string) returns (a: string)
    ensures Blank(cs, a) && s == a + TrimLeft(cs, s)
  {
    a := "";
    if s != "" && s[0] in cs.space {
      a := TrimLeftCuts(cs, s[1..]);
      assert s == [s[0]] + (a + TrimLeft(cs, s[1..]));
      a := [s[0]] + a;
    }
  }

  lemma {:induction false} TrimRightCuts(cs: Chars, s: string) returns (b: string)
    ensures Blank(cs, b) && s == TrimRight(cs, s) + b
  {
    b := "";
    if s != "" && s[|s| - 1] in cs.space {
      var n := |s| - 1;
      b := TrimRightCuts(cs, s[..n]);
      assert s == (TrimRight(cs, s[..n]) + b) + [s[n]];
      b := b + [s[n]];
    }
  }

  lemma TrimIsCore(cs: Chars, s: string)
    ensures Core(cs, s, Trim(cs, s))
  {
    var a := TrimLeftCuts(cs, s);
    var b := TrimRightCuts(cs, TrimLeft(cs, s));
    TrimFixpoints(cs, s);
    hide TrimLeft, TrimRight, Trimmed, Blank;
    assert s == a + Trim(cs, s) + b;
  }

  lemma Around(a: string, r: string, b: string)
    ensures var s := a + r + b;
            && (forall k | 0 <= k < |a| :: s[k] == a[k] && a[k] in a)
            && (forall k | 0 <= k < |r| :: s[|a| + k] == r[k])
            && (forall k | |a| + |r| <= k < |s| :: s[k] == b[k - |a| - |r|] && s[k] in b)
            && s[|a|..|a| + |r|] == r
  {
  }

  /** A core that is not empty lies inside any other one. */
  lemma CoreInside(cs: Chars, a: string, r: string, b: string, a': string, r': string, b': string)
    requires a + r + b == a' + r' + b' && r != ""
    requires Trimmed(cs, r) && Blank(cs, a') && Blank(cs, b')
    ensures r' != "" && |a'| <= |a| && |a| + |r| <= |a'| + |r'|
  {
    var s := a + r + b;
    Around(a, r, b);
    Around(a', r', b');
    assert s[|a|] !in cs.space && s[|a| + (|r| - 1)] !in cs.space;
    assert |s| == |a'| + |r'| + |b'|;
  }

  /** A string has one core. */
  lemma OneCore(cs: Chars, s: string, r: string, t: string)
    requires Core(cs, s, r) && Core(cs, s, t)
    ensures r == t
  {
    var a, b :| Blank(cs, a) && Blank(cs, b) && s == a + r + b;
    var c, d :| Blank(cs, c) && Blank(cs, d) && s == c + t + d;
    Around(a, r, b);
    Around(c, t, d);
    hide Blank, Trimmed;
    if r != "" { CoreInside(cs, a, r, b, c, t, d); }
    if t != "" { CoreInside(cs, c, t, d, a, r, b); }
  }

  lemma BlankCore(cs: Chars, s: string, t: string)
    requires Core(cs, s, t)
    ensures t == "" <==> Blank(cs, s)
  {
    var a, b :| Blank(cs, a) && Blank(cs, b) && s == a + t + b;
    Around(a, t, b);
    if t != "" { assert s[|a|] == t[0] && s[|a|] in s; }
  }

  /** Trimming gives the core of a string; nothing is left exactly of a blank one. */
  lemma TrimExactly(cs: Chars, s: string, r: string)
    ensures Core(cs, s, r) <==> r == Trim(cs, s)
    ensures Trim(cs, s) == "" <==> Blank(cs, s)
  {
    TrimIsCore(cs, s);
    BlankCore(cs, s, Trim(cs, s));
    hide Trim, Core;
    if Core(cs, s, r) { OneCore(cs, s, r, Trim(cs, s)); }
  }

  lemma Assoc<T>(a: seq<T>, b: seq<T>, c: seq<T>)
    ensures a + (b + c) == a + b + c
  {
  }

  lemma Slices<T>(s: seq<T>, n: nat, m: nat)
    requires n + m <= |s|
    ensures s[n..][m..] == s[n + m..]
    ensures s[..n] + s[n..][..m] == s[..n + m]
    ensures s[..n] + s[n..] == s
  {
  }

  lemma PrefixSlice<T>(s: seq<T>, h: nat, t: seq<T>)
    requires h <= |s| && t <= s[h..]
    ensures h + |t| <= |s| && s[..h] + t == s[..h + |t|] && s[..h + |t|][h..] == t
  {
  }

  lemma Cut<T>(x: seq<T>, y: seq<T>, n: nat)
    requires n <= |x|
    ensures (x + y)[..n] == x[..n]
    ensures (x + y)[n..] == x[n..] + y
  {
  }

  // ---- Searching ----

  predicate OccursAt(s: string, t: string, j: int) {
    0 <= j <= |s| - |t| && s[j..j + |t|] == t
  }

  /** Position of the first occurrence of `t` in `s`, -1 when there is none. */
  function Find(s: string, t: string): (k: int)
    ensures k == -1 || 0 <= k <= |s| - |t|
  {
    if |s| < |t| then -1
    else if s[..|t|] == t then 0
    else if s == "" then -1
    else
      var k := Find(s[1..], t);
      if k < 0 then -1 else k + 1
  }

  lemma {:induction false} FindOccurs(s: string, t: string)
    ensures Find(s, t) >= 0 ==> OccursAt(s, t, Find(s, t))
  {
    if |s| >= |t| && s[..|t|] != t && s != "" {
      FindOccurs(s[1..], t);
      var k := Find(s[1..], t);
      assert k >= 0 ==> s[1..][k..k + |t|] == s[k + 1..k + 1 + |t|];
    }
  }

  lemma {:induction false} FindIsFirst(s: string, t: string, j: int)
    requires OccursAt(s, t, j)
    ensures 0 <= Find(s, t) <= j
  {
    if j > 0 && s[..|t|] != t {
      assert s[1..][j - 1..j - 1 + |t|] == s[j..j + |t|];
      FindIsFirst(s[1..], t, j - 1);
    }
  }

  /** A search finds what stands behind text without a telling character of it. */
  lemma FindByMark(pre: string, key: string, post: string, i: nat)
    requires i < |key| && key[i] !in pre && key[i] !in key[..i]
    ensures Find(pre + key + post, key) == |pre|
  {
    var s, c := pre + key + post, key[i];
    assert s[|pre|..|pre| + |key|] == key;
    FindIsFirst(s, key, |pre|);
    FindOccurs(s, key);
    var k := Find(s, key);
    assert s[k + i] == s[k..k + |key|][i] == c;
    assert forall j | 0 <= j < |pre| + i :: s[j] != c by {
      forall j | 0 <= j < |pre| + i ensures s[j] != c {
        if j < |pre| { assert s[j] == pre[j] && pre[j] in pre; } else { assert s[j] == key[..i][j - |pre|]; }
      }
    }
  }
}
