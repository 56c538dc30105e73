/** Facts about finite sets of integers that the store lookups rely on. */
module Sets {

  /** Every non-empty finite set of integers has a least element. */
  lemma {:induction false} LeastExists(s: set<int>)
    requires s != {}
    ensures exists m :: m in s && forall j :: j in s ==> m <= j
  {
    HasMember(s);
    var x :| x in s;
    var rest := s - {x};
    if rest == {} {
      OnlyMember(s, x);
      assert forall j :: j in s ==> x <= j;
    } else {
      LeastExists(rest);
      var m :| m in rest && forall j :: j in rest ==> m <= j;
      var least := if x < m then x else m;
      assert least in s;
      forall j | j in s ensures least <= j {
        if j != x { assert j in rest; }
      }
    }
  }

  /** A set that loses all its members when `x` is removed holds only `x`. */
  lemma OnlyMember(s: set<int>, x: int)
    requires x in s && s - {x} == {}
    ensures forall j :: j in s ==> j == x
  {
    forall j | j in s ensures j == x {
      assert j == x || j in s - {x};
    }
  }

  /** A set other than the empty set has a member. */
  lemma HasMember(s: set<int>)
    requires s != {}
    ensures exists x :: x in s
  {
    if forall x :: x !in s {
      assert false;
    }
  }
}
