/** The parts of `java.util.List` and `java.util.stream.Stream` that the line code relies on. */
module Lists {

  /** `Stream.anyMatch`: whether some element of `xs` satisfies `p`. */
  function AnyMatch<T>(xs: seq<T>, p: T -> bool): (r: bool)
    ensures r <==> exists i :: 0 <= i < |xs| && p(xs[i])
  {
    if xs == [] then false
    else if p(xs[0]) then true
    else
      assert forall i :: 1 <= i < |xs| ==> xs[i] == xs[1..][i - 1];
      AnyMatch(xs[1..], p)
  }

  /** `List.indexOf` (equality by `equals`): the first position of `x`, or `|xs|` when absent. */
  function IndexOf<T(==)>(xs: seq<T>, x: T): (i: nat)
    ensures i <= |xs|
    ensures i < |xs| <==> x in xs
    ensures i < |xs| ==> xs[i] == x
    ensures x !in xs[..i]
  {
    if xs == [] then 0
    else if xs[0] == x then 0
    else
      var j := IndexOf(xs[1..], x);
      assert xs[..j + 1] == [xs[0]] + xs[1..][..j];
      j + 1
  }

  /** `List.remove(Object)`: drops the FIRST element equal to `x`; the list is unchanged when there is none. */
  function RemoveFirst<T(==)>(xs: seq<T>, x: T): (r: seq<T>)
    ensures x !in xs ==> r == xs
    ensures x in xs ==> |r| == |xs| - 1
    ensures x in xs ==> r == xs[..IndexOf(xs, x)] + xs[IndexOf(xs, x) + 1..]
  {
    if xs == [] then []
    else if xs[0] == x then xs[1..]
    else
      var r := [xs[0]] + RemoveFirst(xs[1..], x);
      assert x in xs ==> x in xs[1..];
      assert x in xs ==> IndexOf(xs, x) == IndexOf(xs[1..], x) + 1;
      r
  }

  /** When the last element occurs nowhere earlier, removing it by value drops exactly the tail. */
  lemma {:induction false} RemoveFirstOfUniqueLast<T>(xs: seq<T>)
    requires |xs| > 0
    requires xs[|xs| - 1] !in xs[..|xs| - 1]
    ensures RemoveFirst(xs, xs[|xs| - 1]) == xs[..|xs| - 1]
  {
    if |xs| > 1 {
      var tail := xs[1..];
      assert tail[|tail| - 1] == xs[|xs| - 1];
      assert tail[..|tail| - 1] == xs[1..|xs| - 1];
      assert xs[0] in xs[..|xs| - 1];
      RemoveFirstOfUniqueLast(tail);
      assert xs[..|xs| - 1] == [xs[0]] + xs[1..|xs| - 1];
    }
  }

  /** When the last element also occurs earlier, removing it by value drops the earlier copy and keeps the tail. */
  lemma RemoveFirstOfRepeatedLast<T>(xs: seq<T>)
    requires |xs| > 0
    requires xs[|xs| - 1] in xs[..|xs| - 1]
    ensures IndexOf(xs, xs[|xs| - 1]) < |xs| - 1
    ensures |RemoveFirst(xs, xs[|xs| - 1])| == |xs| - 1
    ensures RemoveFirst(xs, xs[|xs| - 1])[|xs| - 2] == xs[|xs| - 1]
  {
  }
}
