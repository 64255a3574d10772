/** The result type shared by all modules, and laws of sequences. */
module Wrappers {

  /** `None` stands for a Java call that throws instead of returning. */
  datatype Option<+T> = None | Some(value: T) {

    predicate IsFailure() {
      None?
    }

    function PropagateFailure<U>(): Option<U>
      requires None?
    {
      None
    }

    function Extract(): T
      requires Some?
    {
      value
    }
  }

  lemma AppendAssociates<T>(x: seq<T>, y: seq<T>, z: seq<T>)
    ensures (x + y) + z == x + (y + z)
  {
  }

  /** Appending a list is appending all but its last element, and then that. */
  lemma AppendLast<T>(x: seq<T>, y: seq<T>)
    requires y != []
    ensures x + y == (x + y[..|y| - 1]) + [y[|y| - 1]]
  {
  }

  /** What holds of all elements holds of the first one and of the others. */
  lemma AllFromHead<T>(s: seq<T>, good: T -> bool)
    requires s != []
    ensures (forall k :: 0 <= k < |s| ==> good(s[k]))
            <==> good(s[0]) && forall k :: 0 <= k < |s[1..]| ==> good(s[1..][k])
  {
    assert forall k :: 0 < k < |s| ==> s[k] == s[1..][k - 1];
  }

  /** The elements with a property, in their order. */
  ghost function Those<T(!new)>(s: seq<T>, keep: T -> bool): (rest: seq<T>)
    ensures forall x :: x in rest <==> x in s && keep(x)
  {
    if s == [] then []
    else
      var last := |s| - 1;
      var before := Those(s[..last], keep);
      assert s == s[..last] + [s[last]];
      if keep(s[last]) then before + [s[last]] else before
  }
}
