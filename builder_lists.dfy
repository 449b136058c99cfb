/**
 * What the builder's index loops do to its two parallel lists, stated as functions on
 * sequences: removing every entry whose descriptor is a given one, inserting at a position,
 * and finding the first and the last occurrence of a reference descriptor.
 */
module BuilderLists {
  import opened Definitions

  /** How many entries are the descriptor `d`. */
  function Count(ds: seq<Descriptor>, d: Descriptor): nat
  {
    if ds == [] then 0 else (if ds[0] == d then 1 else 0) + Count(ds[1..], d)
  }

  /** The entries of `xs` whose descriptor in the parallel list `ds` is not `d`, in their order. */
  function Keep<T>(xs: seq<T>, ds: seq<Descriptor>, d: Descriptor): (r: seq<T>)
    requires |xs| == |ds|
    ensures |r| == |ds| - Count(ds, d)
  {
    if ds == [] then []
    else (if ds[0] == d then [] else [xs[0]]) + Keep(xs[1..], ds[1..], d)
  }

  /** `n` copies of `x`. */
  function Repeat<T>(x: T, n: nat): (r: seq<T>)
    ensures |r| == n && forall i :: 0 <= i < n ==> r[i] == x
  {
    if n == 0 then [] else Repeat(x, n - 1) + [x]
  }

  /** `s` with `x` inserted at index `i`: what `IList.Insert(i, x)` leaves. */
  function InsertAt<T>(s: seq<T>, i: nat, x: T): (r: seq<T>)
    requires i <= |s|
    ensures |r| == |s| + 1 && r[i] == x
    ensures forall j :: 0 <= j < i ==> r[j] == s[j]
    ensures forall j :: i < j < |r| ==> r[j] == s[j - 1]
  {
    s[..i] + [x] + s[i..]
  }

  /** The index of the first occurrence of `d`. */
  function IndexOf(ds: seq<Descriptor>, d: Descriptor): (r: nat)
    requires d in ds
    ensures r < |ds| && ds[r] == d
    ensures forall j :: 0 <= j < r ==> ds[j] != d
  {
    if ds[0] == d then 0 else 1 + IndexOf(ds[1..], d)
  }

  /** The index of the last occurrence of `d`. */
  function LastIndexOf(ds: seq<Descriptor>, d: Descriptor): (r: nat)
    requires d in ds
    ensures r < |ds| && ds[r] == d
    ensures forall j :: r < j < |ds| ==> ds[j] != d
  {
    if ds[|ds| - 1] == d then |ds| - 1 else LastIndexOf(ds[..|ds| - 1], d)
  }

  /** `a` is `b` with some entries left out, the rest in their original order. */
  ghost predicate IsSubsequence<T>(a: seq<T>, b: seq<T>)
    decreases |b|
  {
    a == [] ||
    (b != [] && ((a[0] == b[0] && IsSubsequence(a[1..], b[1..])) || IsSubsequence(a, b[1..])))
  }

  // ---------------------------------------------------------------------------------------
  // Lemmas
  // ---------------------------------------------------------------------------------------

  /** Removing `d` leaves exactly the other descriptors. */
  lemma {:induction false} KeepMembers(ds: seq<Descriptor>, d: Descriptor)
    ensures forall x :: x in Keep(ds, ds, d) <==> x in ds && x != d
    decreases |ds|
  {
    if ds != [] {
      KeepMembers(ds[1..], d);
      assert ds == [ds[0]] + ds[1..];
    }
  }

  /** Removing `d` keeps the other entries in their relative order. */
  lemma {:induction false} KeepIsSubsequence<T>(xs: seq<T>, ds: seq<Descriptor>, d: Descriptor)
    requires |xs| == |ds|
    ensures IsSubsequence(Keep(xs, ds, d), xs)
    decreases |ds|
  {
    if ds != [] {
      KeepIsSubsequence(xs[1..], ds[1..], d);
      var rest := Keep(xs[1..], ds[1..], d);
      if ds[0] == d {
        assert Keep(xs, ds, d) == rest;
        assert IsSubsequence(rest, xs[1..]);
      } else {
        var kept := [xs[0]] + rest;
        assert Keep(xs, ds, d) == kept;
        assert kept[0] == xs[0] && kept[1..] == rest;
      }
    }
  }

  /** Removing a descriptor that does not occur changes nothing. */
  lemma {:induction false} KeepAbsent<T>(xs: seq<T>, ds: seq<Descriptor>, d: Descriptor)
    requires |xs| == |ds| && Count(ds, d) == 0
    ensures Keep(xs, ds, d) == xs
    decreases |ds|
  {
    if ds != [] {
      KeepAbsent(xs[1..], ds[1..], d);
      assert xs == [xs[0]] + xs[1..];
    }
  }

  /** `d` occurs exactly when it is counted. */
  lemma {:induction false} CountPositive(ds: seq<Descriptor>, d: Descriptor)
    ensures Count(ds, d) > 0 <==> d in ds
    decreases |ds|
  {
    if ds != [] {
      CountPositive(ds[1..], d);
      assert ds == [ds[0]] + ds[1..];
    }
  }

  /** `Keep` and `Count` on a suffix, unfolded once at its first entry. */
  lemma KeepFrom<T>(xs: seq<T>, ds: seq<Descriptor>, d: Descriptor, i: nat)
    requires |xs| == |ds| && i < |ds|
    ensures Keep(xs[i..], ds[i..], d) == (if ds[i] == d then [] else [xs[i]]) + Keep(xs[i + 1..], ds[i + 1..], d)
    ensures Count(ds[i..], d) == (if ds[i] == d then 1 else 0) + Count(ds[i + 1..], d)
  {
    assert xs[i..][1..] == xs[i + 1..] && ds[i..][1..] == ds[i + 1..];
  }

  /** One step of the backward removal scan: entry `i` is dropped when its descriptor is `d`,
      and the prefix before it is untouched. */
  lemma RemoveStep<T>(cur: seq<T>, xs: seq<T>, ds: seq<Descriptor>, d: Descriptor, i: nat)
    requires |xs| == |ds| && i < |ds|
    requires cur == xs[..i + 1] + Keep(xs[i + 1..], ds[i + 1..], d)
    ensures (if ds[i] == d then cur[..i] + cur[i + 1..] else cur) == xs[..i] + Keep(xs[i..], ds[i..], d)
  {
    KeepFrom(xs, ds, d, i);
    var rest := Keep(xs[i + 1..], ds[i + 1..], d);
    assert xs[..i + 1] == xs[..i] + [xs[i]];
    assert cur == xs[..i] + ([xs[i]] + rest);
    if ds[i] == d {
      assert cur[..i] == xs[..i] && cur[i + 1..] == rest;
    }
  }

  /** Inserting after the last entry is appending: the two branches of `After` agree. */
  lemma InsertAtEndIsAppend<T>(s: seq<T>, x: T)
    ensures InsertAt(s, |s|, x) == s + [x]
  {
    assert s[..|s|] == s;
  }

  /** Inserting at the front is prepending. */
  lemma InsertAtFrontIsPrepend<T>(s: seq<T>, x: T)
    ensures InsertAt(s, 0, x) == [x] + s
  {
    assert s[0..] == s;
  }

  /** `After` places the new descriptor right behind the last occurrence of the reference, and
      `Before` right in front of its first occurrence. */
  lemma AdjacentToReference(ds: seq<Descriptor>, m: Descriptor, ref: Descriptor)
    requires ref in ds
    ensures var k := LastIndexOf(ds, ref);
      InsertAt(ds, k + 1, m)[k] == ref && InsertAt(ds, k + 1, m)[k + 1] == m
    ensures var k := IndexOf(ds, ref);
      InsertAt(ds, k, m)[k] == m && InsertAt(ds, k, m)[k + 1] == ref
  {
  }
}
