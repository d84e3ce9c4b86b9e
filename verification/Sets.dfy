/** Sizes of finite sets, and the least and highest members of sets of integers. */
module Sets {

  lemma Member<T>(s: set<T>) returns (e: T)
    requires s != {}
    ensures e in s
  {
    e :| e in s;
  }

  lemma AddMember<T>(s: set<T>, e: T)
    requires e !in s
    ensures |s + {e}| == |s| + 1
  {
  }

  lemma RemoveMember<T>(s: set<T>, e: T)
    ensures |s - {e}| == if e in s then |s| - 1 else |s|
  {
    if e !in s { assert s - {e} == s; }
  }

  lemma SubsetIsSmaller<T>(a: set<T>, b: set<T>)
    requires a <= b
    ensures |a| <= |b|
  {
    assert b == a + (b - a);
  }

  lemma SubsetOfSameSize<T>(a: set<T>, b: set<T>)
    requires a <= b && |a| >= |b|
    ensures a == b
  {
    assert b == a + (b - a);
  }

  lemma {:induction false} LeastExists(s: set<int>)
    requires s != {}
    ensures exists m :: m in s && forall x | x in s :: m <= x
  {
    var e := Member(s);
    if s != {e} {
      LeastExists(s - {e});
      var m :| m in s - {e} && forall x | x in s - {e} :: m <= x;
      assert forall x | x in s :: x == e || x in s - {e};
      if e < m {
        assert forall x | x in s :: e <= x;
      } else {
        assert forall x | x in s :: m <= x;
      }
    }
  }

  /** `min`. */
  function Least(s: set<int>): (m: int)
    requires s != {}
    ensures m in s && forall x | x in s :: m <= x
  {
    LeastExists(s);
    var m :| m in s && forall x | x in s :: m <= x;
    m
  }

  lemma {:induction false} HighestExists(s: set<int>)
    requires s != {}
    ensures exists m :: m in s && forall x | x in s :: x <= m
  {
    hide Least;
    var e := Member(s);
    if s != {e} {
      HighestExists(s - {e});
      var m :| m in s - {e} && forall x | x in s - {e} :: x <= m;
      assert forall x | x in s :: x == e || x in s - {e};
      if e > m {
        assert forall x | x in s :: x <= e;
      } else {
        assert forall x | x in s :: x <= m;
      }
    }
  }

  /** `max`. */
  function Highest(s: set<int>): (m: int)
    requires s != {}
    ensures m in s && forall x | x in s :: x <= m
  {
    HighestExists(s);
    var m :| m in s && forall x | x in s :: x <= m;
    m
  }

  /** An identifier not in use. */
  lemma {:induction false} Unused(ids: set<nat>) returns (n: nat)
    ensures forall i | i in ids :: i < n
  {
    n := 0;
    if ids != {} {
      var e := Member(ids);
      var m := Unused(ids - {e});
      n := if m > e then m else e + 1;
      assert forall i | i in ids :: i == e || i in ids - {e};
    }
  }
}
