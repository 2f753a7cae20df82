/** Elements of nonempty sets. */
module Sets {

  lemma HasElement<T>(s: set<T>)
    ensures s == {} || exists x :: x in s
  {
    if forall x :: x !in s { assert s == {}; }
  }

  lemma SubsetSize<T>(a: set<T>, b: set<T>)
    requires a <= b
    ensures |a| <= |b|
  {
    assert b == a + (b - a);
  }

  ghost function Element<T>(s: set<T>): (x: T)
    requires s != {}
    ensures x in s
  {
    HasElement(s);
    var x :| x in s;
    x
  }

  /** The elements of a set in some order, none twice. */
  method AnyOrder<T(==)>(s: set<T>) returns (rows: seq<T>)
    ensures forall i, j | 0 <= i < j < |rows| :: rows[i] != rows[j]
    ensures forall t :: t in rows <==> t in s
  {
    rows := [];
    var rest := s;
    while rest != {}
      invariant rest <= s
      invariant forall i, j | 0 <= i < j < |rows| :: rows[i] != rows[j]
      invariant forall t :: t in rows <==> t in s && t !in rest
      decreases rest
    {
      HasElement(rest);
      var t :| t in rest;
      rest, rows := rest - {t}, rows + [t];
    }
  }

  ghost function Least(s: set<int>): (m: int)
    requires s != {}
    ensures m in s && forall x | x in s :: m <= x
    decreases |s|
  {
    var x := Element(s);
    if s == {x} then x
    else
      assert forall y | y in s :: y == x || y in s - {x};
      var m := Least(s - {x});
      if m <= x then m else x
  }
}
