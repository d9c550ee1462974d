/**
 * Per-file section redirection: which sections a file contributes while the
 * writer is filling one output section, and in which order.
 *
 * A file's `section_order` maps a section of the file (the key) to the
 * section it should be placed in (the value). While section `s` is being
 * filled, the file contributes `s` itself unless `s` is a key, plus every key
 * whose value is `s`; that list is then sorted by each name's position in
 * the segment's section list, names missing from the list first.
 */
module SectionOrder {

  /** `sections.iter().position(..)`: the index of the first occurrence of
      `k`, or -1 for `None`, which orders before every `Some`. */
  function Position<T(==)>(sections: seq<T>, k: T): (r: int)
    ensures -1 <= r < |sections|
  {
    if sections == [] then -1
    else if sections[0] == k then 0
    else
      var p := Position(sections[1..], k);
      if p == -1 then -1 else p + 1
  }

  predicate SortedBy<T(==)>(xs: seq<T>, sections: seq<T>) {
    forall i, j :: 0 <= i < j < |xs| ==> Position(sections, xs[i]) <= Position(sections, xs[j])
  }

  /** Insert `x` into `p` after every element at the end whose key is
      greater than its own: a stable insertion into a sorted list. */
  function InsertSorted<T(==)>(p: seq<T>, x: T, sections: seq<T>): seq<T>
    decreases |p|
  {
    if p == [] || Position(sections, p[|p| - 1]) <= Position(sections, x) then
      p + [x]
    else
      InsertSorted(p[..|p| - 1], x, sections) + [p[|p| - 1]]
  }

  /** Inserting adds exactly `x`. */
  lemma {:induction false} InsertSortedPermutes<T>(p: seq<T>, x: T, sections: seq<T>)
    ensures |InsertSorted(p, x, sections)| == |p| + 1
    ensures multiset(InsertSorted(p, x, sections)) == multiset(p) + multiset{x}
    decreases |p|
  {
    if !(p == [] || Position(sections, p[|p| - 1]) <= Position(sections, x)) {
      InsertSortedPermutes(p[..|p| - 1], x, sections);
      assert p == p[..|p| - 1] + [p[|p| - 1]];
    }
  }

  lemma {:induction false} InsertSortedKeepsSorted<T>(p: seq<T>, x: T, sections: seq<T>)
    requires SortedBy(p, sections)
    ensures SortedBy(InsertSorted(p, x, sections), sections)
    decreases |p|
  {
    var r := InsertSorted(p, x, sections);
    if p == [] || Position(sections, p[|p| - 1]) <= Position(sections, x) {
      forall i, j | 0 <= i < j < |r| ensures Position(sections, r[i]) <= Position(sections, r[j]) {
        if j == |p| && i < |p| - 1 {
          assert Position(sections, p[i]) <= Position(sections, p[|p| - 1]);
        }
      }
    } else {
      var q := p[..|p| - 1];
      var last := p[|p| - 1];
      assert SortedBy(q, sections);
      InsertSortedKeepsSorted(q, x, sections);
      var r' := InsertSorted(q, x, sections);
      InsertSortedPermutes(q, x, sections);
      assert r == r' + [last];
      forall i, j | 0 <= i < j < |r| ensures Position(sections, r[i]) <= Position(sections, r[j]) {
        if j == |r'| {
          assert r[i] == r'[i] && r'[i] in multiset(q) + multiset{x};
          if r[i] != x {
            assert r[i] in q;
            var m :| 0 <= m < |q| && q[m] == r[i];
            assert Position(sections, p[m]) <= Position(sections, p[|p| - 1]);
          }
        }
      }
    }
  }

  /** The order `sort_by_key` with the position key leaves a list in, ties
      kept in their original order. */
  function SortByPosition<T(==)>(xs: seq<T>, sections: seq<T>): seq<T>
    decreases |xs|
  {
    if xs == [] then []
    else InsertSorted(SortByPosition(xs[..|xs| - 1], sections), xs[|xs| - 1], sections)
  }

  /** Sorting is a permutation. */
  lemma {:induction false} SortByPositionPermutes<T>(xs: seq<T>, sections: seq<T>)
    ensures |SortByPosition(xs, sections)| == |xs|
    ensures multiset(SortByPosition(xs, sections)) == multiset(xs)
    decreases |xs|
  {
    if xs != [] {
      SortByPositionPermutes(xs[..|xs| - 1], sections);
      InsertSortedPermutes(SortByPosition(xs[..|xs| - 1], sections), xs[|xs| - 1], sections);
      assert xs == xs[..|xs| - 1] + [xs[|xs| - 1]];
    }
  }

  lemma {:induction false} SortByPositionSorted<T>(xs: seq<T>, sections: seq<T>)
    ensures SortedBy(SortByPosition(xs, sections), sections)
    decreases |xs|
  {
    if xs != [] {
      SortByPositionSorted(xs[..|xs| - 1], sections);
      InsertSortedKeepsSorted(SortByPosition(xs[..|xs| - 1], sections), xs[|xs| - 1], sections);
    }
  }

  /** Inserting at index `j` of a sorted list, after every smaller-or-equal key
      and before every greater one, is `InsertSorted`. */
  lemma {:induction false} InsertSortedAt<T>(p: seq<T>, x: T, sections: seq<T>, j: nat)
    requires j <= |p|
    requires j > 0 ==> Position(sections, p[j - 1]) <= Position(sections, x)
    requires forall t :: j <= t < |p| ==> Position(sections, p[t]) > Position(sections, x)
    ensures InsertSorted(p, x, sections) == p[..j] + [x] + p[j..]
    decreases |p|
  {
    if j == |p| {
      assert p[..j] == p && p[j..] == [];
    } else {
      var q := p[..|p| - 1];
      var last := p[|p| - 1];
      assert p == q + [last];
      calc {
        InsertSorted(p, x, sections);
        InsertSorted(q, x, sections) + [last];
        { InsertSortedAt(q, x, sections, j); }
        q[..j] + [x] + q[j..] + [last];
        { assert q[..j] == p[..j]; assert q[j..] + [last] == p[j..]; }
        p[..j] + [x] + p[j..];
      }
    }
  }

  /** Move `a[i]` left past every element of `a[..i]` with a greater key. */
  method InsertInPlace<T(==)>(a: array<T>, i: nat, sections: seq<T>)
    requires i < a.Length
    modifies a
    ensures a[..i + 1] == InsertSorted(old(a[..i]), old(a[i]), sections)
    ensures forall k :: i < k < a.Length ==> a[k] == old(a[k])
  {
    ghost var p := a[..i];
    var x := a[i];
    var kx := Position(sections, x);
    var j := i;
    while j > 0 && Position(sections, a[j - 1]) > kx
      invariant 0 <= j <= i
      invariant forall k :: 0 <= k < j ==> a[k] == p[k]
      invariant forall k :: j < k <= i ==> a[k] == p[k - 1]
      invariant forall k :: i < k < a.Length ==> a[k] == old(a[k])
      invariant forall t :: j <= t < i ==> Position(sections, p[t]) > kx
    {
      a[j] := a[j - 1];
      j := j - 1;
    }
    a[j] := x;
    InsertedAt(a[..i + 1], p, x, sections, j);
  }

  lemma InsertedAt<T>(s: seq<T>, p: seq<T>, x: T, sections: seq<T>, j: nat)
    requires |s| == |p| + 1 && j <= |p|
    requires forall k :: 0 <= k < j ==> s[k] == p[k]
    requires s[j] == x
    requires forall k :: j < k < |s| ==> s[k] == p[k - 1]
    requires j > 0 ==> Position(sections, p[j - 1]) <= Position(sections, x)
    requires forall t :: j <= t < |p| ==> Position(sections, p[t]) > Position(sections, x)
    ensures s == InsertSorted(p, x, sections)
  {
    InsertSortedAt(p, x, sections, j);
    assert s == p[..j] + [x] + p[j..];
  }

  /** `sort_unstable_by_key` on the `Vec` of section names, in place: an
      insertion sort by position. */
  method SortInPlace<T(==)>(a: array<T>, sections: seq<T>)
    modifies a
    ensures a[..] == SortByPosition(old(a[..]), sections)
  {
    ghost var orig := a[..];
    var i := 0;
    while i < a.Length
      invariant 0 <= i <= a.Length
      invariant a[..i] == SortByPosition(orig[..i], sections)
      invariant forall k :: i <= k < a.Length ==> a[k] == orig[k]
    {
      assert orig[..i + 1] == orig[..i] + [orig[i]];
      InsertInPlace(a, i, sections);
      i := i + 1;
    }
    assert a[..] == a[..a.Length];
    assert orig[..a.Length] == orig;
  }

  /** `contains_key`. */
  predicate HasKey(order: seq<(string, string)>, k: string) {
    exists i :: 0 <= i < |order| && order[i].0 == k
  }

  /** The keys whose destination is `section`, in iteration order. */
  function KeysTo(order: seq<(string, string)>, section: string): seq<string>
    decreases |order|
  {
    if order == [] then []
    else
      var last := order[|order| - 1];
      KeysTo(order[..|order| - 1], section) + (if last.1 == section then [last.0] else [])
  }

  /** Exactly the keys whose destination is `section`. */
  lemma {:induction false} KeysToMembers(order: seq<(string, string)>, section: string)
    ensures forall k :: k in KeysTo(order, section) <==> (k, section) in order
    decreases |order|
  {
    if order != [] {
      KeysToMembers(order[..|order| - 1], section);
      assert order == order[..|order| - 1] + [order[|order| - 1]];
    }
  }

  /** The unsorted list built before sorting. */
  function Candidates(order: seq<(string, string)>, section: string): seq<string> {
    (if HasKey(order, section) then [] else [section]) + KeysTo(order, section)
  }

  /** The sections a file with a non-empty `section_order` contributes while
      `section` is being filled, in emission order. */
  function Resolve(order: seq<(string, string)>, section: string, sections: seq<string>): seq<string> {
    SortByPosition(Candidates(order, section), sections)
  }

  /** The contributed sections follow the segment's section list: one that
      sits earlier in the list is contributed earlier. */
  lemma ResolveFollowsSectionList(order: seq<(string, string)>, section: string, sections: seq<string>)
    ensures var r := Resolve(order, section, sections);
      forall i, j :: 0 <= i < |r| && 0 <= j < |r| && Position(sections, r[i]) < Position(sections, r[j]) ==> i < j
  {
    SortByPositionSorted(Candidates(order, section), sections);
  }

  /** The contributed set: the section itself unless it is redirected away,
      and every section redirected into it. */
  lemma ResolveMembers(order: seq<(string, string)>, section: string, sections: seq<string>)
    ensures forall k :: k in Resolve(order, section, sections) <==>
      (k == section && !HasKey(order, section)) || (k, section) in order
  {
    var r := Resolve(order, section, sections);
    SortByPositionPermutes(Candidates(order, section), sections);
    KeysToMembers(order, section);
    forall k ensures k in r <==> k in Candidates(order, section) {
      assert k in r <==> k in multiset(r);
    }
  }

  /** A section that is a key is never contributed under its own name,
      unless it is redirected onto itself. */
  lemma RedirectedNotEmittedHere(order: seq<(string, string)>, section: string, sections: seq<string>)
    requires HasKey(order, section) && (section, section) !in order
    ensures section !in Resolve(order, section, sections)
  {
    ResolveMembers(order, section, sections);
  }

  /** Each candidate is contributed exactly as many times as it is listed:
      the sorted list is a permutation of the collected one. */
  lemma ResolveCount(order: seq<(string, string)>, section: string, sections: seq<string>, k: string)
    ensures |Resolve(order, section, sections)| == |Candidates(order, section)|
    ensures multiset(Resolve(order, section, sections))[k] ==
      (if k == section && !HasKey(order, section) then 1 else 0) + multiset(KeysTo(order, section))[k]
  {
    SortByPositionPermutes(Candidates(order, section), sections);
  }

  /** `None` exactly for a name missing from the list. */
  lemma {:induction false} PositionAbsent<T>(sections: seq<T>, k: T)
    ensures Position(sections, k) == -1 <==> k !in sections
    decreases |sections|
  {
    if sections != [] && sections[0] != k {
      PositionAbsent(sections[1..], k);
      assert k in sections <==> k in sections[1..];
    }
  }

  /** Every contributed section missing from the segment's section list is
      contributed before every listed one. */
  lemma UnlistedSectionsFirst(order: seq<(string, string)>, section: string, sections: seq<string>)
    ensures var r := Resolve(order, section, sections);
      forall i, j :: 0 <= i < |r| && 0 <= j < |r| && r[i] !in sections && r[j] in sections ==> i < j
  {
    var r := Resolve(order, section, sections);
    ResolveFollowsSectionList(order, section, sections);
    forall i, j | 0 <= i < |r| && 0 <= j < |r| && r[i] !in sections && r[j] in sections
      ensures i < j
    {
      PositionAbsent(sections, r[i]);
      PositionAbsent(sections, r[j]);
    }
  }

  /** With `section_order = {.rodata: .data}` and sections `[.text, .data]`,
      filling `.data` places `.rodata` first, an instance of
      `UnlistedSectionsFirst`. */
  lemma UnlistedSectionSortsFirst()
    ensures Resolve([(".rodata", ".data")], ".data", [".text", ".data"]) == [".rodata", ".data"]
  {
    var order := [(".rodata", ".data")];
    assert !HasKey(order, ".data");
    assert KeysTo(order, ".data") == [".rodata"];
    assert Position([".text", ".data"], ".rodata") == -1;
    assert Position([".text", ".data"], ".data") == 1;
  }
}
