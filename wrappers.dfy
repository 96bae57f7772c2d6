/** Failure-compatible wrappers and the small list vocabulary shared by every module:
    first-success cascades, fixed-size batching and first-seen de-duplication. */
module Wrappers {

  /** JavaScript `null`/`undefined` versus a present value. */
  datatype Option<+T> = None | Some(value: T) {
    predicate IsFailure() { None? }

    function PropagateFailure<U>(): Option<U>
      requires None?
    {
      None
    }

    function Extract(): T
      requires Some?
    {
      value
    }
  }

  /** A value or a thrown error message. */
  datatype Result<+T> = Ok(value: T) | Err(error: string)

  // ---------------------------------------------------------------------------
  // Cascades: try each candidate in order, the first one that yields a value wins.
  // ---------------------------------------------------------------------------

  function FirstSome<T, U>(xs: seq<T>, f: T -> Option<U>): Option<U>
  {
    if xs == [] then None
    else if f(xs[0]).Some? then f(xs[0])
    else FirstSome(xs[1..], f)
  }

  /** The cascade yields a value exactly when some candidate does, and then it is the
      value of the earliest such candidate: later candidates are irrelevant. */
  lemma {:induction false} FirstSomeIsEarliest<T, U>(xs: seq<T>, f: T -> Option<U>)
    ensures FirstSome(xs, f).Some? <==> exists i :: 0 <= i < |xs| && f(xs[i]).Some?
    ensures FirstSome(xs, f).Some? ==>
              exists i :: 0 <= i < |xs| && FirstSome(xs, f) == f(xs[i]) &&
                          forall j :: 0 <= j < i ==> f(xs[j]).None?
  {
    if xs != [] && f(xs[0]).None? {
      FirstSomeIsEarliest(xs[1..], f);
      if FirstSome(xs, f).Some? {
        var i :| 0 <= i < |xs[1..]| && FirstSome(xs[1..], f) == f(xs[1..][i]) &&
                 forall j :: 0 <= j < i ==> f(xs[1..][j]).None?;
        assert FirstSome(xs, f) == f(xs[i + 1]);
        forall j | 0 <= j < i + 1 ensures f(xs[j]).None? {
          if j > 0 { assert xs[j] == xs[1..][j - 1]; }
        }
      }
      if exists i :: 0 <= i < |xs| && f(xs[i]).Some? {
        var i :| 0 <= i < |xs| && f(xs[i]).Some?;
        assert i > 0 && xs[1..][i - 1] == xs[i];
      }
    }
  }

  /** One step of a cascade, as a loop walking the candidates sees it. */
  lemma FirstSomeStep<T, U>(xs: seq<T>, i: nat, f: T -> Option<U>)
    requires i < |xs|
    ensures FirstSome(xs[i..], f) ==
              if f(xs[i]).Some? then f(xs[i]) else FirstSome(xs[i + 1..], f)
  {
    assert xs[i..][0] == xs[i];
    assert xs[i..][1..] == xs[i + 1..];
  }

  // ---------------------------------------------------------------------------
  // Concatenation and fixed-size batches (`for (i = 0; i < n; i += size) s.slice(i, i + size)`).
  // ---------------------------------------------------------------------------

  function Concat<T>(ss: seq<seq<T>>): seq<T>
  {
    if ss == [] then [] else ss[0] + Concat(ss[1..])
  }

  lemma {:induction false} ConcatAppend<T>(ss: seq<seq<T>>, s: seq<T>)
    ensures Concat(ss + [s]) == Concat(ss) + s
  {
    if ss == [] {
      assert [s][1..] == [];
    } else {
      assert (ss + [s])[1..] == ss[1..] + [s];
      ConcatAppend(ss[1..], s);
    }
  }

  lemma {:induction false} ConcatJoin<T>(a: seq<seq<T>>, b: seq<seq<T>>)
    ensures Concat(a + b) == Concat(a) + Concat(b)
  {
    if a == [] {
      assert a + b == b;
    } else {
      assert (a + b)[1..] == a[1..] + b;
      ConcatJoin(a[1..], b);
    }
  }

  function Chunks<T>(s: seq<T>, size: nat): seq<seq<T>>
    requires size > 0
    decreases |s|
  {
    if |s| == 0 then []
    else if |s| <= size then [s]
    else [s[..size]] + Chunks(s[size..], size)
  }

  /** The batch starting at offset `i`, as the source's `slice(i, i + size)` computes it. */
  lemma ChunksStep<T>(s: seq<T>, i: nat, size: nat)
    requires size > 0 && i < |s|
    ensures Chunks(s[i..], size) ==
              [s[i..if i + size < |s| then i + size else |s|]] +
              (if i + size < |s| then Chunks(s[i + size..], size) else [])
  {
    if i + size < |s| {
      assert s[i..][..size] == s[i..i + size];
      assert s[i..][size..] == s[i + size..];
    } else {
      assert s[i..] == s[i..|s|];
    }
  }

  /** What is left of `s` from offset `i` on (`[]` once `i` has passed the end). */
  function From<T>(s: seq<T>, i: nat): seq<T>
  {
    if i < |s| then s[i..] else []
  }

  lemma ChunksFromStart<T>(s: seq<T>, size: nat)
    requires size > 0
    ensures Chunks(From(s, 0), size) == Chunks(s, size)
  {
    if |s| > 0 { assert s[0..] == s; }
  }

  /** One round of `for (i = 0; i < s.length; i += size) s.slice(i, i + size)`: the
      batches left at offset `i` are this round's slice followed by those left at
      `i + size`, and there are more exactly when `i + size` is still inside `s`. */
  lemma ChunksFrom<T>(s: seq<T>, i: nat, size: nat)
    requires size > 0 && i < |s|
    ensures var bs := Chunks(From(s, i), size);
      bs != [] && bs[0] == s[i..if i + size < |s| then i + size else |s|] &&
      bs[1..] == Chunks(From(s, i + size), size) &&
      (|bs| > 1 <==> i + size < |s|)
  {
    ChunksStep(s, i, size);
    if i + size < |s| {
      assert |s[i + size..]| > 0;
    }
  }

  /** Batching loses nothing and reorders nothing. */
  lemma {:induction false} ChunksConcat<T>(s: seq<T>, size: nat)
    requires size > 0
    ensures Concat(Chunks(s, size)) == s
    decreases |s|
  {
    if |s| == 0 {
    } else if |s| <= size {
      assert Concat([s]) == s + Concat([s][1..]);
    } else {
      var rest := Chunks(s[size..], size);
      ChunksConcat(s[size..], size);
      assert ([s[..size]] + rest)[1..] == rest;
      assert s == s[..size] + s[size..];
    }
  }

  /** Every batch is non-empty and holds at most `size` elements. */
  lemma {:induction false} ChunksBounded<T>(s: seq<T>, size: nat)
    requires size > 0
    ensures forall k :: 0 <= k < |Chunks(s, size)| ==> 1 <= |Chunks(s, size)[k]| <= size
    decreases |s|
  {
    if |s| > size {
      ChunksBounded(s[size..], size);
      var c := Chunks(s, size);
      forall k | 0 <= k < |c| ensures 1 <= |c[k]| <= size {
        if k > 0 { assert c[k] == Chunks(s[size..], size)[k - 1]; }
      }
    }
  }

  /** There are ceil(|s| / size) batches: the smallest count whose capacity covers `s`. */
  lemma {:induction false} ChunksCount<T>(s: seq<T>, size: nat)
    requires size > 0
    ensures |Chunks(s, size)| * size >= |s|
    ensures |Chunks(s, size)| * size < |s| + size
    decreases |s|
  {
    var n := |Chunks(s, size)|;
    if |s| > size {
      ChunksCount(s[size..], size);
      var m := |Chunks(s[size..], size)|;
      assert n == m + 1;
      assert n * size == m * size + size;
    }
  }

  // ---------------------------------------------------------------------------
  // First-seen de-duplication (`if (!ids.includes(x)) ids.push(x)` over a list).
  // ---------------------------------------------------------------------------

  function Distinct<T(==)>(xs: seq<T>): seq<T>
  {
    if xs == [] then []
    else
      var d := Distinct(xs[..|xs| - 1]);
      if xs[|xs| - 1] in d then d else d + [xs[|xs| - 1]]
  }

  predicate NoDuplicates<T(==)>(xs: seq<T>)
  {
    forall i, j :: 0 <= i < j < |xs| ==> xs[i] != xs[j]
  }

  /** Index of the first occurrence of `x` in `xs`. */
  function FirstIndex<T(==)>(xs: seq<T>, x: T): (k: nat)
    requires x in xs
    ensures k < |xs| && xs[k] == x && x !in xs[..k]
  {
    if xs[0] == x then 0 else 1 + FirstIndex(xs[1..], x)
  }

  /** `Distinct` keeps every element once, drops nothing else, and lists the elements
      in the order of their first occurrence. */
  lemma {:induction false} DistinctSpec<T>(xs: seq<T>)
    ensures NoDuplicates(Distinct(xs))
    ensures forall x :: x in Distinct(xs) <==> x in xs
    ensures forall a, b :: 0 <= a < b < |Distinct(xs)| ==>
              FirstIndex(xs, Distinct(xs)[a]) < FirstIndex(xs, Distinct(xs)[b])
  {
    if xs != [] {
      var init, last := xs[..|xs| - 1], xs[|xs| - 1];
      DistinctSpec(init);
      assert xs == init + [last];
      var d := Distinct(init);
      forall x | x in init ensures FirstIndex(xs, x) == FirstIndex(init, x) {
        FirstIndexPrefix(init, [last], x);
      }
      if last !in d {
        var r := d + [last];
        assert last !in init;
        assert FirstIndex(xs, last) == |init|;
        forall a, b | 0 <= a < b < |r|
          ensures FirstIndex(xs, r[a]) < FirstIndex(xs, r[b])
        {
          assert r[a] == d[a] && r[a] in d;
          if b < |d| { assert r[b] == d[b]; }
        }
      }
    }
  }

  lemma FirstIndexPrefix<T>(a: seq<T>, b: seq<T>, x: T)
    requires x in a
    ensures FirstIndex(a + b, x) == FirstIndex(a, x)
  {
    var k := FirstIndex(a, x);
    assert (a + b)[k] == x;
  }

  /** Appending one element keeps or extends the de-duplicated list. */
  lemma DistinctAppend<T>(xs: seq<T>, x: T)
    ensures Distinct(xs + [x]) == if x in Distinct(xs) then Distinct(xs) else Distinct(xs) + [x]
  {
    assert (xs + [x])[..|xs|] == xs;
  }
}
