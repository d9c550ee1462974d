/**
 * Insertion-ordered, duplicate-free collections as sequences: the behaviour
 * of an `IndexSet` that is only ever inserted into.
 */
module Seqs {

  predicate NoDup<T(==)>(s: seq<T>) {
    forall i, j :: 0 <= i < j < |s| ==> s[i] != s[j]
  }

  /** `IndexSet::insert`: append `y` unless it is already there. */
  function Insert<T(==,!new)>(xs: seq<T>, y: T): seq<T> {
    if y in xs then xs else xs + [y]
  }

  /** Inserting keeps the set duplicate-free and in insertion order, and
      adds exactly `y`. */
  lemma InsertProps<T(!new)>(xs: seq<T>, y: T)
    ensures NoDup(xs) ==> NoDup(Insert(xs, y))
    ensures y in Insert(xs, y) && |xs| <= |Insert(xs, y)| <= |xs| + 1
    ensures Insert(xs, y)[..|xs|] == xs
    ensures forall z :: z in Insert(xs, y) <==> z in xs || z == y
  {
  }

  /** Insert every element of `ys`, in order. */
  function AddAll<T(==,!new)>(xs: seq<T>, ys: seq<T>): seq<T>
    decreases |ys|
  {
    if ys == [] then xs else AddAll(Insert(xs, ys[0]), ys[1..])
  }

  /** Inserting a list keeps the set duplicate-free, keeps what was there
      in front, and adds exactly the list's elements. */
  lemma {:induction false} AddAllProps<T(!new)>(xs: seq<T>, ys: seq<T>)
    ensures NoDup(xs) ==> NoDup(AddAll(xs, ys))
    ensures |xs| <= |AddAll(xs, ys)| && AddAll(xs, ys)[..|xs|] == xs
    ensures forall z :: z in AddAll(xs, ys) <==> z in xs || z in ys
    decreases |ys|
  {
    if ys != [] {
      InsertProps(xs, ys[0]);
      AddAllProps(Insert(xs, ys[0]), ys[1..]);
      var m := Insert(xs, ys[0]);
      assert AddAll(m, ys[1..])[..|xs|] == AddAll(m, ys[1..])[..|m|][..|xs|];
      assert forall z :: z in ys <==> z == ys[0] || z in ys[1..];
    }
  }

  /** Inserting `a` and then `b` is inserting `a + b`. */
  lemma {:induction false} AddAllConcat<T(!new)>(xs: seq<T>, a: seq<T>, b: seq<T>)
    ensures AddAll(AddAll(xs, a), b) == AddAll(xs, a + b)
    decreases |a|
  {
    if a == [] {
      assert a + b == b;
    } else {
      assert (a + b)[0] == a[0];
      assert (a + b)[1..] == a[1..] + b;
      AddAllConcat(Insert(xs, a[0]), a[1..], b);
    }
  }

  /** The concatenation of a list of strings. */
  function Concat(chunks: seq<string>): string {
    if chunks == [] then "" else Concat(chunks[..|chunks| - 1]) + chunks[|chunks| - 1]
  }
}
