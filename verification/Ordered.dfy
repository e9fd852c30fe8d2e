/** Hash-map keys in ascending order, as the source's `sort` leaves them. */
module Ordered {
  predicate IsLeast(s: set<nat>, i: nat) { i in s && forall j | j in s :: i <= j }

  ghost function Least(s: set<nat>): (i: nat)
    requires s != {}
    ensures IsLeast(s, i)
  {
    LeastExists(s);
    var i :| IsLeast(s, i);
    i
  }

  lemma {:induction false} FindLeast(s: set<nat>) returns (i: nat)
    requires s != {}
    ensures IsLeast(s, i)
    decreases |s|
  {
    var x :| x in s;
    var rest := s - {x};
    assert forall k | k in s :: k == x || k in rest;
    i := x;
    if rest != {} {
      var j := FindLeast(rest);
      i := if j < x then j else x;
    }
  }

  lemma {:induction false} LeastExists(s: set<nat>)
    requires s != {}
    ensures exists i: nat :: IsLeast(s, i)
  {
    var i := FindLeast(s);
  }

  ghost function Ascending(s: set<nat>): seq<nat>
    decreases |s|
  {
    if s == {} then [] else [Least(s)] + Ascending(s - {Least(s)})
  }

  lemma {:induction false} AscendingMembers(s: set<nat>)
    ensures forall i: nat :: i in Ascending(s) <==> i in s
    ensures forall x, y | 0 <= x < y < |Ascending(s)| :: Ascending(s)[x] < Ascending(s)[y]
    decreases |s|
  {
    if s != {} {
      AscendingMembers(s - {Least(s)});
      var rest := Ascending(s - {Least(s)});
      forall x, y | 0 <= x < y < |Ascending(s)| ensures Ascending(s)[x] < Ascending(s)[y] {
        assert Ascending(s)[y] == rest[y - 1];
        assert rest[y - 1] in rest;
        if x > 0 {
          assert Ascending(s)[x] == rest[x - 1];
        }
      }
    }
  }

  lemma {:induction false} AscendingLength(s: set<nat>)
    ensures |Ascending(s)| == |s|
    decreases |s|
  {
    if s != {} {
      AscendingLength(s - {Least(s)});
    }
  }

  lemma {:induction false} LeastUnique(s: set<nat>, i: nat)
    requires IsLeast(s, i)
    ensures s != {} && Least(s) == i
  {
  }

  method LeastOf(s: set<nat>) returns (i: nat)
    requires s != {}
    ensures IsLeast(s, i)
  {
    i :| i in s;
    var rest := s - {i};
    while rest != {}
      invariant rest <= s && i in s && forall j | j in s && j !in rest :: i <= j
      decreases rest
    {
      var j :| j in rest;
      if j < i {
        i := j;
      }
      rest := rest - {j};
    }
  }
}
