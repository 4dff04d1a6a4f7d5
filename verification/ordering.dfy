/** Slice ordering (app.py, `load_dicom_slices`): the series is sorted in
    place by the z position of each slice, falling back to InstanceNumber.
    Python's `list.sort` is stable; the specification below is a stable
    insertion sort, and the in-place method is proved to compute it. */
module Ordering {
  import opened Wrappers
  import opened Slices

  /** Which key a sort uses. `ByPosition` reads z; `ByInstance` reads
      InstanceNumber, counting a missing one as 0 (the `else 0` of the
      fallback key). `ByPosition` is only used when every slice has a z. */
  datatype SortKey = ByPosition | ByInstance

  /** A slice after the first lacks InstanceNumber while the series is
      sorted by it without a default (an AttributeError in the source). */
  datatype OrderError = MissingInstanceNumber

  function Key(k: SortKey, s: SliceRecord): real
  {
    match k
    case ByPosition => (match Z(s) case Some(z) => z case None => 0.0)
    case ByInstance => (match s.instanceNumber case Some(n) => n as real case None => 0.0)
  }

  ghost predicate SortedBy(k: SortKey, s: seq<SliceRecord>)
  {
    forall i, j :: 0 <= i < j < |s| ==> Key(k, s[i]) <= Key(k, s[j])
  }

  /** The slices of `s` whose key is `v`, in their order in `s`. */
  function WithKey(k: SortKey, s: seq<SliceRecord>, v: real): seq<SliceRecord>
  {
    if |s| == 0 then []
    else (if Key(k, s[0]) == v then [s[0]] else []) + WithKey(k, s[1..], v)
  }

  /** `r` is `s` sorted by `k`, and slices with equal keys keep their
      relative order from `s` (stability). */
  ghost predicate StablySorted(k: SortKey, r: seq<SliceRecord>, s: seq<SliceRecord>)
  {
    SortedBy(k, r) && multiset(r) == multiset(s) &&
    forall v :: WithKey(k, r, v) == WithKey(k, s, v)
  }

  /** Inserts `x` before the first slice whose key exceeds its own. */
  function Insert(k: SortKey, x: SliceRecord, s: seq<SliceRecord>): seq<SliceRecord>
  {
    if |s| == 0 then [x]
    else if Key(k, s[0]) <= Key(k, x) then [s[0]] + Insert(k, x, s[1..])
    else [x] + s
  }

  /** Stable insertion sort: the prefix is sorted and the last slice is
      inserted after every slice whose key does not exceed its own. */
  function SortBy(k: SortKey, s: seq<SliceRecord>): seq<SliceRecord>
  {
    if |s| == 0 then [] else Insert(k, s[|s| - 1], SortBy(k, s[..|s| - 1]))
  }

  lemma {:induction false} WithKeyAppend(k: SortKey, a: seq<SliceRecord>, b: seq<SliceRecord>, v: real)
    ensures WithKey(k, a + b, v) == WithKey(k, a, v) + WithKey(k, b, v)
  {
    if |a| == 0 {
      assert a + b == b;
    } else {
      assert (a + b)[0] == a[0] && (a + b)[1..] == a[1..] + b;
      WithKeyAppend(k, a[1..], b, v);
    }
  }

  lemma {:induction false} WithKeyNone(k: SortKey, s: seq<SliceRecord>, v: real)
    requires forall i :: 0 <= i < |s| ==> Key(k, s[i]) > v
    ensures WithKey(k, s, v) == []
  {
    if |s| > 0 {
      WithKeyNone(k, s[1..], v);
    }
  }

  lemma {:induction false} InsertPermutes(k: SortKey, x: SliceRecord, s: seq<SliceRecord>)
    ensures multiset(Insert(k, x, s)) == multiset(s) + multiset{x}
  {
    if |s| > 0 && Key(k, s[0]) <= Key(k, x) {
      InsertPermutes(k, x, s[1..]);
      assert s == [s[0]] + s[1..];
    }
  }

  lemma {:induction false} InsertSorted(k: SortKey, x: SliceRecord, s: seq<SliceRecord>)
    requires SortedBy(k, s)
    ensures SortedBy(k, Insert(k, x, s))
    ensures |Insert(k, x, s)| == |s| + 1
    ensures Insert(k, x, s)[0] == x || (|s| > 0 && Insert(k, x, s)[0] == s[0])
  {
    if |s| > 0 && Key(k, s[0]) <= Key(k, x) {
      InsertSorted(k, x, s[1..]);
      var t := Insert(k, x, s[1..]);
      forall j | 0 < j < |t| + 1 ensures Key(k, s[0]) <= Key(k, ([s[0]] + t)[j]) {
        if j > 1 {
          assert ([s[0]] + t)[j] == t[j - 1];
        }
      }
    }
  }

  lemma {:induction false} InsertStable(k: SortKey, x: SliceRecord, s: seq<SliceRecord>, v: real)
    requires SortedBy(k, s)
    ensures WithKey(k, Insert(k, x, s), v) == WithKey(k, s, v) + WithKey(k, [x], v)
  {
    if |s| == 0 {
      assert Insert(k, x, s) == [x];
      assert WithKey(k, s, v) == [];
    } else if Key(k, s[0]) <= Key(k, x) {
      var t := s[1..];
      SortedTail(k, s);
      InsertStable(k, x, t, v);
      assert Insert(k, x, s) == [s[0]] + Insert(k, x, t);
      ConsStable(k, s[0], t, Insert(k, x, t), WithKey(k, [x], v), v);
      assert [s[0]] + t == s;
    } else {
      InsertFront(k, x, s, v);
    }
  }

  /** Putting the same slice in front of two lists keeps an equation
      between what the two lists hold of one key. */
  lemma ConsStable(k: SortKey, y: SliceRecord, t: seq<SliceRecord>, u: seq<SliceRecord>, w: seq<SliceRecord>, v: real)
    requires WithKey(k, u, v) == WithKey(k, t, v) + w
    ensures WithKey(k, [y] + u, v) == WithKey(k, [y] + t, v) + w
  {
    WithKeyAppend(k, [y], u, v);
    WithKeyAppend(k, [y], t, v);
    Associative(WithKey(k, [y], v), WithKey(k, t, v), w);
  }

  lemma Associative<T>(a: seq<T>, b: seq<T>, c: seq<T>)
    ensures a + (b + c) == (a + b) + c
  {
  }

  lemma SortedTail(k: SortKey, s: seq<SliceRecord>)
    requires |s| > 0 && SortedBy(k, s)
    ensures SortedBy(k, s[1..])
  {
    var t := s[1..];
    forall i, j | 0 <= i < j < |t| ensures Key(k, t[i]) <= Key(k, t[j]) {
      assert t[i] == s[i + 1] && t[j] == s[j + 1];
    }
  }

  /** Inserting before a sorted list whose keys all exceed the new one. */
  lemma InsertFront(k: SortKey, x: SliceRecord, s: seq<SliceRecord>, v: real)
    requires |s| > 0 && SortedBy(k, s) && Key(k, s[0]) > Key(k, x)
    ensures WithKey(k, [x] + s, v) == WithKey(k, s, v) + WithKey(k, [x], v)
  {
    WithKeyAppend(k, [x], s, v);
    if Key(k, x) == v {
      forall i | 0 <= i < |s| ensures Key(k, s[i]) > v {
        assert Key(k, s[0]) <= Key(k, s[i]);
      }
      WithKeyNone(k, s, v);
    }
  }

  /** Inserting a slice whose key is at least every key of `s` appends it. */
  lemma {:induction false} InsertLast(k: SortKey, x: SliceRecord, s: seq<SliceRecord>)
    requires forall i :: 0 <= i < |s| ==> Key(k, s[i]) <= Key(k, x)
    ensures Insert(k, x, s) == s + [x]
  {
    if |s| > 0 {
      InsertLast(k, x, s[1..]);
    }
  }

  /** Where the in-place loop puts `x`: after the first `j` slices, whose
      keys do not exceed its own, and before the rest, whose keys do. */
  lemma {:induction false} InsertAt(k: SortKey, x: SliceRecord, p: seq<SliceRecord>, j: nat)
    requires j <= |p|
    requires SortedBy(k, p)
    requires j > 0 ==> Key(k, p[j - 1]) <= Key(k, x)
    requires forall m :: j <= m < |p| ==> Key(k, p[m]) > Key(k, x)
    ensures Insert(k, x, p) == p[..j] + [x] + p[j..]
  {
    if j > 0 {
      var t := p[1..];
      SortedTail(k, p);
      assert Key(k, p[0]) <= Key(k, x) by {
        assert Key(k, p[0]) <= Key(k, p[j - 1]);
      }
      assert j > 1 ==> t[j - 2] == p[j - 1];
      forall m | j - 1 <= m < |t| ensures Key(k, t[m]) > Key(k, x) {
        assert t[m] == p[m + 1];
      }
      InsertAt(k, x, t, j - 1);
      assert Insert(k, x, p) == [p[0]] + Insert(k, x, t);
      ConsSplit(p, x, j);
    }
  }

  /** Splitting the tail of `p` at `j - 1` and putting its head back in
      front splits `p` itself at `j`. */
  lemma ConsSplit<T>(p: seq<T>, x: T, j: nat)
    requires 0 < j <= |p|
    ensures [p[0]] + (p[1..][..j - 1] + [x] + p[1..][j - 1..]) == p[..j] + [x] + p[j..]
  {
    assert p[1..][..j - 1] == p[1..j] && p[1..][j - 1..] == p[j..];
    assert p[..j] == [p[0]] + p[1..j];
  }

  lemma {:induction false} SortByLength(k: SortKey, s: seq<SliceRecord>)
    ensures |SortBy(k, s)| == |s|
  {
    if |s| > 0 {
      SortByLength(k, s[..|s| - 1]);
      InsertPermutes(k, s[|s| - 1], SortBy(k, s[..|s| - 1]));
      assert |multiset(SortBy(k, s))| == |multiset(SortBy(k, s[..|s| - 1]))| + 1;
    }
  }

  /** The specification sort is a permutation, sorted, and stable. */
  lemma {:induction false} SortByIsStableSort(k: SortKey, s: seq<SliceRecord>)
    ensures StablySorted(k, SortBy(k, s), s)
  {
    if |s| > 0 {
      var x, p := s[|s| - 1], s[..|s| - 1];
      SortByIsStableSort(k, p);
      InsertSorted(k, x, SortBy(k, p));
      InsertPermutes(k, x, SortBy(k, p));
      assert s == p + [x];
      assert SortBy(k, s) == Insert(k, x, SortBy(k, p));
      forall v ensures WithKey(k, SortBy(k, s), v) == WithKey(k, s, v) {
        StableStep(k, x, p, v);
      }
    }
  }

  /** One step of the sort keeps the subsequence of each key. */
  lemma StableStep(k: SortKey, x: SliceRecord, p: seq<SliceRecord>, v: real)
    requires SortedBy(k, SortBy(k, p)) && WithKey(k, SortBy(k, p), v) == WithKey(k, p, v)
    ensures WithKey(k, Insert(k, x, SortBy(k, p)), v) == WithKey(k, p + [x], v)
  {
    InsertStable(k, x, SortBy(k, p), v);
    WithKeyAppend(k, p, [x], v);
  }

  /** The sort result is sorted (the first part of `SortByIsStableSort`). */
  lemma SortByIsSorted(k: SortKey, s: seq<SliceRecord>)
    ensures SortedBy(k, SortBy(k, s))
  {
    SortByIsStableSort(k, s);
  }

  /** Sorting a series that is already in order returns it unchanged. */
  lemma {:induction false} SortBySorted(k: SortKey, s: seq<SliceRecord>)
    requires SortedBy(k, s)
    ensures SortBy(k, s) == s
  {
    if |s| > 0 {
      var x, p := s[|s| - 1], s[..|s| - 1];
      assert SortedBy(k, p);
      SortBySorted(k, p);
      InsertLast(k, x, p);
    }
  }

  /** Stable sorting is determined by its inputs: any sorted sequence with
      the same slices of each key, in the same order, is `SortBy`. */
  lemma {:induction false} StableSortUnique(k: SortKey, r: seq<SliceRecord>, s: seq<SliceRecord>)
    requires SortedBy(k, r) && SortedBy(k, s)
    requires forall v :: WithKey(k, r, v) == WithKey(k, s, v)
    ensures r == s
    decreases |r| + |s|
  {
    if |r| > 0 && |s| > 0 {
      var a, b := Key(k, r[0]), Key(k, s[0]);
      WithKeyHead(k, r);
      WithKeyHead(k, s);
      if a < b {
        WithKeyNone(k, s, a);
        assert false;
      } else if b < a {
        WithKeyNone(k, r, b);
        assert false;
      }
      assert r[0] == WithKey(k, r, a)[0] == WithKey(k, s, a)[0] == s[0];
      assert SortedBy(k, r[1..]) && SortedBy(k, s[1..]);
      forall v ensures WithKey(k, r[1..], v) == WithKey(k, s[1..], v) {
        var h := if a == v then [r[0]] else [];
        assert WithKey(k, r, v) == h + WithKey(k, r[1..], v);
        assert WithKey(k, s, v) == h + WithKey(k, s[1..], v);
        assert WithKey(k, r, v) == WithKey(k, s, v);
        assert WithKey(k, r[1..], v) == WithKey(k, r, v)[|h|..];
        assert WithKey(k, s[1..], v) == WithKey(k, s, v)[|h|..];
      }
      StableSortUnique(k, r[1..], s[1..]);
      assert r == [r[0]] + r[1..] && s == [s[0]] + s[1..];
    } else if |r| > 0 {
      WithKeyHead(k, r);
      assert false;
    } else if |s| > 0 {
      WithKeyHead(k, s);
      assert false;
    }
  }

  lemma WithKeyHead(k: SortKey, s: seq<SliceRecord>)
    requires |s| > 0
    ensures WithKey(k, s, Key(k, s[0])) == [s[0]] + WithKey(k, s[1..], Key(k, s[0]))
  {
  }

  /** So the stable-sort property pins `SortBy` down exactly. */
  lemma StablySortedIsSortBy(k: SortKey, r: seq<SliceRecord>, s: seq<SliceRecord>)
    requires StablySorted(k, r, s)
    ensures r == SortBy(k, s)
  {
    SortByIsStableSort(k, s);
    StableSortUnique(k, r, SortBy(k, s));
  }

  /** The series order chosen by the loader (app.py:59-68). The key of the
      first slice in discovery order picks the branch; a z sort that fails
      on some slice falls back to InstanceNumber with 0 for a missing one. */
  function OrderSlices(s: seq<SliceRecord>): Result<seq<SliceRecord>, OrderError>
  {
    if |s| == 0 then Ok(s)
    else if s[0].position.Present? then
      if AllHaveZ(s) then Ok(SortBy(ByPosition, s)) else Ok(SortBy(ByInstance, s))
    else if s[0].instanceNumber.Some? then
      if AllHaveInstanceNumber(s) then Ok(SortBy(ByInstance, s)) else Err(MissingInstanceNumber)
    else Ok(s)
  }

  /** Ordering fails exactly when the first slice has no position but an
      InstanceNumber and some other slice has none; otherwise the result is
      a permutation of the input, and it is the input itself when the first
      slice carries neither tag. */
  lemma OrderSlicesOutcome(s: seq<SliceRecord>)
    ensures OrderSlices(s).Err? <==>
      |s| > 0 && s[0].position.Absent? && s[0].instanceNumber.Some? && !AllHaveInstanceNumber(s)
    ensures OrderSlices(s).Ok? ==> multiset(OrderSlices(s).value) == multiset(s)
    ensures OrderSlices(s).Ok? ==> |OrderSlices(s).value| == |s|
    ensures |s| > 0 && s[0].position.Absent? && s[0].instanceNumber.None? ==> OrderSlices(s) == Ok(s)
  {
    SortByIsStableSort(ByPosition, s);
    SortByIsStableSort(ByInstance, s);
    SortByLength(ByPosition, s);
    SortByLength(ByInstance, s);
  }

  /** When every slice has a position, the result is the stable sort by z. */
  lemma OrderByPosition(s: seq<SliceRecord>)
    requires |s| > 0 && s[0].position.Present? && AllHaveZ(s)
    ensures OrderSlices(s).Ok? && |OrderSlices(s).value| == |s|
    ensures StablySorted(ByPosition, OrderSlices(s).value, s)
    ensures forall i :: 0 <= i < |s| ==> Z(OrderSlices(s).value[i]).Some?
  {
    SortByIsStableSort(ByPosition, s);
    SortByLength(ByPosition, s);
    var r := OrderSlices(s).value;
    forall i | 0 <= i < |s| ensures Z(r[i]).Some? {
      assert r[i] in multiset(s);
    }
  }

  /** When the first slice has a position but some z cannot be read, the
      result is the stable sort by InstanceNumber, a missing one counting 0. */
  lemma OrderFallback(s: seq<SliceRecord>)
    requires |s| > 0 && s[0].position.Present? && !AllHaveZ(s)
    ensures OrderSlices(s).Ok?
    ensures StablySorted(ByInstance, OrderSlices(s).value, s)
  {
    SortByIsStableSort(ByInstance, s);
  }

  /** When the first slice has no position but has InstanceNumber and every
      slice does, the result is the stable sort by InstanceNumber. */
  lemma OrderByInstance(s: seq<SliceRecord>)
    requires |s| > 0 && s[0].position.Absent? && AllHaveInstanceNumber(s)
    ensures OrderSlices(s).Ok?
    ensures StablySorted(ByInstance, OrderSlices(s).value, s)
  {
    SortByIsStableSort(ByInstance, s);
  }

  /** A series already in z order is returned unchanged, and ordering an
      ordered series by position changes nothing. */
  lemma OrderIdempotentByPosition(s: seq<SliceRecord>)
    requires |s| > 0 && s[0].position.Present? && AllHaveZ(s)
    ensures SortedBy(ByPosition, s) ==> OrderSlices(s) == Ok(s)
    ensures OrderSlices(OrderSlices(s).value) == OrderSlices(s)
  {
    if SortedBy(ByPosition, s) {
      SortBySorted(ByPosition, s);
    }
    OrderByPosition(s);
    var r := OrderSlices(s).value;
    SortByLength(ByPosition, s);
    assert Z(r[0]).Some?;
    SortBySorted(ByPosition, r);
  }

  /** The same for a series ordered by InstanceNumber with every number present. */
  lemma OrderIdempotentByInstance(s: seq<SliceRecord>)
    requires |s| > 0 && s[0].position.Absent? && AllHaveInstanceNumber(s)
    ensures OrderSlices(OrderSlices(s).value) == OrderSlices(s)
  {
    OrderByInstance(s);
    var r := OrderSlices(s).value;
    SortByLength(ByInstance, s);
    forall i | 0 <= i < |r| ensures r[i].instanceNumber.Some? {
      assert r[i] in multiset(s);
    }
    assert s[0] in multiset(r);
    var m :| 0 <= m < |r| && r[m] == s[0];
    assert !AllHaveZ(r);
    SortBySorted(ByInstance, r);
  }

  /** Ordering is not idempotent on every input: after the fallback sort the
      new first slice may lack a position, and a later slice may lack
      InstanceNumber, so a second pass fails. */
  lemma OrderNotIdempotentInFallback()
    ensures exists s :: OrderSlices(s).Ok? && OrderSlices(OrderSlices(s).value).Err?
  {
    var a := SliceRecord(Present(None), None, [[0]], None, None, None, None);
    var b := SliceRecord(Absent, Some(-1), [[0]], None, None, None, None);
    var s := [a, b];
    assert Z(s[0]) == None;
    assert SortBy(ByInstance, s) == Insert(ByInstance, b, SortBy(ByInstance, [a])) by {
      assert s[..1] == [a];
    }
    assert SortBy(ByInstance, [a]) == [a] by {
      assert [a][..0] == [];
    }
    assert Insert(ByInstance, b, [a]) == [b, a];
    assert OrderSlices(s) == Ok([b, a]);
    assert [b, a][1].instanceNumber == None;
  }

  /** Example: z = 2.5, 0.0, 1.25 in discovery order gives the order 1, 2, 0. */
  lemma OrderExample(pixels: seq<seq<int>>)
    ensures var s0 := SliceRecord(Present(Some(2.5)), Some(3), pixels, None, None, None, None);
            var s1 := SliceRecord(Present(Some(0.0)), Some(1), pixels, None, None, None, None);
            var s2 := SliceRecord(Present(Some(1.25)), Some(2), pixels, None, None, None, None);
            OrderSlices([s0, s1, s2]) == Ok([s1, s2, s0])
  {
    var s0 := SliceRecord(Present(Some(2.5)), Some(3), pixels, None, None, None, None);
    var s1 := SliceRecord(Present(Some(0.0)), Some(1), pixels, None, None, None, None);
    var s2 := SliceRecord(Present(Some(1.25)), Some(2), pixels, None, None, None, None);
    var s := [s0, s1, s2];
    assert AllHaveZ(s);
    assert s[..2] == [s0, s1] && [s0, s1][..1] == [s0] && [s0][..0] == [];
    assert SortBy(ByPosition, [s0]) == [s0];
    assert Insert(ByPosition, s1, [s0]) == [s1, s0];
    assert SortBy(ByPosition, [s0, s1]) == [s1, s0];
    assert Insert(ByPosition, s2, [s0]) == [s2, s0];
    assert Insert(ByPosition, s2, [s1, s0]) == [s1, s2, s0] by {
      assert [s1, s0][1..] == [s0];
    }
    assert SortBy(ByPosition, s) == [s1, s2, s0];
  }

  /** Shifts one place right every slice of `a[..i]`, from the right end,
      whose key exceeds that of `x`, and returns the gap left behind. */
  method ShiftLarger(a: array<SliceRecord>, i: nat, k: SortKey, x: SliceRecord) returns (j: nat)
    requires i < a.Length
    modifies a
    ensures j <= i
    ensures forall m :: 0 <= m < j ==> a[m] == old(a[m])
    ensures forall m :: j < m <= i ==> a[m] == old(a[m - 1])
    ensures forall m :: i < m < a.Length ==> a[m] == old(a[m])
    ensures j > 0 ==> Key(k, old(a[j - 1])) <= Key(k, x)
    ensures forall m :: j <= m < i ==> Key(k, old(a[m])) > Key(k, x)
  {
    j := i;
    while j > 0 && Key(k, a[j - 1]) > Key(k, x)
      invariant 0 <= j <= i
      invariant forall m :: 0 <= m < j ==> a[m] == old(a[m])
      invariant forall m :: j < m <= i ==> a[m] == old(a[m - 1])
      invariant forall m :: i < m < a.Length ==> a[m] == old(a[m])
      invariant forall m :: j <= m < i ==> Key(k, old(a[m])) > Key(k, x)
    {
      a[j] := a[j - 1];
      j := j - 1;
    }
  }

  /** Moves `a[i]` left past the larger keys of the sorted prefix `a[..i]`. */
  method InsertInPlace(a: array<SliceRecord>, i: nat, k: SortKey)
    requires i < a.Length
    requires SortedBy(k, a[..i])
    modifies a
    ensures a[..i + 1] == Insert(k, old(a[i]), old(a[..i]))
    ensures a[i + 1..] == old(a[i + 1..])
  {
    var x := a[i];
    ghost var p := a[..i];
    var j := ShiftLarger(a, i, k, x);
    a[j] := x;
    InsertAt(k, x, p, j);
    Spliced(a[..i + 1], p, x, j);
    assert a[i + 1..] == old(a[i + 1..]);
  }

  /** A sequence that holds `p[..j]`, then `x`, then the rest of `p` shifted
      one place right, is `p` with `x` inserted at `j`. */
  lemma Spliced(b: seq<SliceRecord>, p: seq<SliceRecord>, x: SliceRecord, j: nat)
    requires |b| == |p| + 1 && j <= |p|
    requires forall m :: 0 <= m < j ==> b[m] == p[m]
    requires b[j] == x
    requires forall m :: j < m <= |p| ==> b[m] == p[m - 1]
    ensures b == p[..j] + [x] + p[j..]
  {
    var q := p[..j] + [x] + p[j..];
    forall m | 0 <= m < |b| ensures b[m] == q[m] {
      if m < j {
        assert q[m] == p[m];
      } else if j < m {
        assert q[m] == p[j..][m - j - 1];
      }
    }
  }

  /** In-place stable insertion sort of the discovered slices. */
  method SortInPlace(a: array<SliceRecord>, k: SortKey)
    modifies a
    ensures a[..] == SortBy(k, old(a[..]))
  {
    ghost var s := a[..];
    var i := 0;
    while i < a.Length
      invariant 0 <= i <= a.Length
      invariant a[..i] == SortBy(k, s[..i])
      invariant a[i..] == s[i..]
    {
      SortStep(k, s, i);
      DropOne(a[..], s, i);
      InsertInPlace(a, i, k);
      i := i + 1;
    }
    assert a[..] == a[..a.Length] && s == s[..a.Length];
  }

  /** Two sequences that agree from `i` on agree at `i` and from `i + 1` on. */
  lemma DropOne<T>(x: seq<T>, y: seq<T>, i: nat)
    requires i < |x| == |y| && x[i..] == y[i..]
    ensures x[i] == y[i] && x[i + 1..] == y[i + 1..]
  {
    assert x[i] == x[i..][0] && y[i] == y[i..][0];
    assert x[i + 1..] == x[i..][1..] && y[i + 1..] == y[i..][1..];
  }

  /** One more element of the input: its sorted prefix grows by one
      insertion into a prefix that is already sorted. */
  lemma SortStep(k: SortKey, s: seq<SliceRecord>, i: nat)
    requires i < |s|
    ensures SortedBy(k, SortBy(k, s[..i]))
    ensures SortBy(k, s[..i + 1]) == Insert(k, s[i], SortBy(k, s[..i]))
  {
    SortByIsSorted(k, s[..i]);
    assert s[..i + 1][..i] == s[..i];
  }

  /** The loader: copies the decoded slices into a list and sorts it in place
      along the branches of app.py:59-68. */
  method LoadDicomSlices(decoded: seq<SliceRecord>) returns (r: Result<seq<SliceRecord>, OrderError>)
    ensures r == OrderSlices(decoded)
  {
    var slices := new SliceRecord[|decoded|](i requires 0 <= i < |decoded| => decoded[i]);
    assert slices[..] == decoded;
    if slices.Length > 0 && slices[0].position.Present? {
      if AllHaveZ(slices[..]) {
        SortInPlace(slices, ByPosition);
      } else {
        SortInPlace(slices, ByInstance);
      }
    } else if slices.Length > 0 && slices[0].instanceNumber.Some? {
      if !AllHaveInstanceNumber(slices[..]) {
        return Err(MissingInstanceNumber);
      }
      SortInPlace(slices, ByInstance);
    }
    r := Ok(slices[..]);
  }
}
