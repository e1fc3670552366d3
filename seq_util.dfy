/**
 * Sequence helpers for the handler's "append unless already present" loops:
 * `AddNew` is one such loop, `UnionAll` is one loop per group.
 */
module SeqUtil {

  predicate NoDup<T(==,!new)>(s: seq<T>) {
    forall i, j :: 0 <= i < j < |s| ==> s[i] != s[j]
  }

  /** Positions in strictly increasing order: a selection that keeps the original order. */
  predicate Increasing(ids: seq<int>) {
    forall a, b :: 0 <= a < b < |ids| ==> ids[a] < ids[b]
  }

  /** Appends, in order, every element of `xs` that is not already in the result. */
  function AddNew<T(==,!new)>(acc: seq<T>, xs: seq<T>): (r: seq<T>)
    ensures forall x :: x in r <==> x in acc || x in xs
    ensures NoDup(acc) ==> NoDup(r)
    ensures |acc| <= |r| && r[..|acc|] == acc
    decreases |xs|
  {
    if xs == [] then acc
    else
      var prev := AddNew(acc, xs[..|xs| - 1]);
      assert xs == xs[..|xs| - 1] + [xs[|xs| - 1]];
      if xs[|xs| - 1] in prev then prev else prev + [xs[|xs| - 1]]
  }

  /** The concatenation of a sequence of sequences. */
  function Flatten<T>(xss: seq<seq<T>>): seq<T>
    decreases |xss|
  {
    if xss == [] then [] else Flatten(xss[..|xss| - 1]) + xss[|xss| - 1]
  }

  /** Group-by-group union: the elements of every group, each once. */
  function UnionAll<T(==,!new)>(xss: seq<seq<T>>): (r: seq<T>)
    ensures NoDup(r)
    ensures forall x :: x in r <==> exists i :: 0 <= i < |xss| && x in xss[i]
    decreases |xss|
  {
    if xss == [] then []
    else
      var init := xss[..|xss| - 1];
      var r := AddNew(UnionAll(init), xss[|xss| - 1]);
      assert forall i :: 0 <= i < |init| ==> init[i] == xss[i];
      r
  }

  /** The union of the first `i + 1` groups adds group `i` to the union of the first `i`. */
  lemma UnionAllStep<T(!new)>(xss: seq<seq<T>>, i: nat)
    requires i < |xss|
    ensures UnionAll(xss[..i + 1]) == AddNew(UnionAll(xss[..i]), xss[i])
  {
    assert xss[..i + 1][..i] == xss[..i];
  }

  /** Adding `xs + ys` is adding `xs`, then `ys`. */
  lemma {:induction false} AddNewConcat<T(!new)>(acc: seq<T>, xs: seq<T>, ys: seq<T>)
    ensures AddNew(acc, xs + ys) == AddNew(AddNew(acc, xs), ys)
    decreases |ys|
  {
    if ys == [] {
      assert xs + ys == xs;
    } else {
      var zs, front, y := xs + ys, ys[..|ys| - 1], ys[|ys| - 1];
      assert zs[..|zs| - 1] == xs + front;
      AddNewConcat(acc, xs, front);
      var prev := AddNew(acc, xs + front);
      assert AddNew(acc, zs) == if y in prev then prev else prev + [y];
    }
  }

  /**
   * The group-by-group union keeps the first occurrence of every element of the
   * concatenated groups, in the order they were first seen.
   */
  lemma {:induction false} UnionAllFirstSeen<T(!new)>(xss: seq<seq<T>>)
    ensures UnionAll(xss) == AddNew([], Flatten(xss))
    decreases |xss|
  {
    if xss != [] {
      var init := xss[..|xss| - 1];
      UnionAllFirstSeen(init);
      AddNewConcat([], Flatten(init), xss[|xss| - 1]);
    }
  }
}
