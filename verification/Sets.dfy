module Sets {

  /** The least element of a finite set of numbers. */
  ghost function Least(s: set<nat>): (r: nat)
    requires s != {}
    ensures r in s && forall t :: t in s ==> r <= t
  {
    var x :| x in s;
    if s - {x} == {} then
      assert s == {x};
      x
    else
      var r := Least(s - {x});
      assert forall t :: t in s ==> t == x || t in s - {x};
      if x < r then x else r
  }

  /** The sequence holds exactly the members of the set, in ascending order. */
  ghost predicate Lists(at: seq<nat>, s: set<nat>) {
    (forall i, j :: 0 <= i < j < |at| ==> at[i] < at[j]) && forall n: nat :: n in at <==> n in s
  }

  lemma ListsNext(at: seq<nat>, s: set<nat>, n: nat)
    requires Lists(at, s) && forall i :: i in s ==> i < n
    ensures Lists(at + [n], s + {n})
  {
    assert forall i :: 0 <= i < |at| ==> at[i] in at;
    forall x: nat ensures x in at + [n] <==> x in s + {n} {
      assert x in at + [n] <==> x in at || x == n;
    }
  }

  /** There is one such sequence for a set. */
  lemma {:induction false} ListsOnce(a: seq<nat>, b: seq<nat>, s: set<nat>)
    requires Lists(a, s) && Lists(b, s)
    ensures a == b
    decreases |a|
  {
    if a == [] || b == [] {
      assert forall x: nat :: x in a <==> x in b;
      SameLength(a, b);
    } else {
      var m, n := |a| - 1, |b| - 1;
      assert a[m] in b && b[n] in a;
      Shorter(a, s);
      Shorter(b, s);
      ListsOnce(a[..m], b[..n], s - {a[m]});
    }
  }

  lemma SameLength(a: seq<nat>, b: seq<nat>)
    requires (a == [] || b == []) && forall x: nat :: x in a <==> x in b
    ensures a == b
  {
    EmptyHasNone(a);
    EmptyHasNone(b);
  }

  lemma EmptyHasNone(a: seq<nat>)
    ensures a == [] <==> forall x: nat :: x !in a
  {
    if a != [] { assert a[0] in a; }
  }

  lemma Shorter(a: seq<nat>, s: set<nat>)
    requires Lists(a, s) && a != []
    ensures Lists(a[..|a| - 1], s - {a[|a| - 1]})
  {
    var m := |a| - 1;
    forall x: nat ensures x in a[..m] <==> x in s - {a[m]} {
      if x in s && x != a[m] {
        var i :| 0 <= i < |a| && a[i] == x;
        assert a[..m][i] == x;
      }
    }
  }
}
