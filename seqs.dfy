/** Concatenation of a list of frames, as `pd.concat` does with row order kept. */
module Seqs {

  /** The frames of `xss` one after the other, in list order. */
  function Concat<T>(xss: seq<seq<T>>): seq<T>
  {
    if xss == [] then [] else Concat(xss[..|xss| - 1]) + xss[|xss| - 1]
  }

  lemma {:induction false} ConcatAppend<T>(xss: seq<seq<T>>, yss: seq<seq<T>>)
    ensures Concat(xss + yss) == Concat(xss) + Concat(yss)
    decreases |yss|
  {
    if yss == [] {
      assert xss + yss == xss;
    } else {
      var init, last := yss[..|yss| - 1], yss[|yss| - 1];
      assert (xss + yss)[..|xss + yss| - 1] == xss + init;
      assert (xss + yss)[|xss + yss| - 1] == last;
      ConcatAppend(xss, init);
      assert Concat(yss) == Concat(init) + last;
    }
  }

  lemma ConcatPrepend<T>(xs: seq<T>, yss: seq<seq<T>>)
    ensures Concat([xs] + yss) == xs + Concat(yss)
  {
    ConcatAppend([xs], yss);
    assert [xs][..0] == [];
  }

  /** An element of one of the frames is an element of their concatenation. */
  lemma {:induction false} ConcatMember<T>(xss: seq<seq<T>>, k: nat, x: T)
    requires k < |xss| && x in xss[k]
    ensures x in Concat(xss)
    decreases |xss|
  {
    if k < |xss| - 1 {
      ConcatMember(xss[..|xss| - 1], k, x);
    }
  }

  /** A prefix one element longer. */
  lemma TakeSnoc<T>(s: seq<T>, k: nat)
    requires k < |s|
    ensures s[..k + 1] == s[..k] + [s[k]]
  {
  }

  lemma ConcatSnoc<T>(xss: seq<seq<T>>, ys: seq<T>)
    ensures Concat(xss + [ys]) == Concat(xss) + ys
  {
    assert (xss + [ys])[..|xss|] == xss;
  }

  /** A non-empty sequence is its front followed by its last element. */
  lemma DropLast<T>(s: seq<T>)
    requires s != []
    ensures s == s[..|s| - 1] + [s[|s| - 1]]
  {
  }
}
