/** Generic sequence notions used to state what the forecast grouping and the
    per-day summary compute: distinctness, first occurrence, the list of
    distinct values in first-occurrence order, and contiguous runs. */
module Seqs {

  predicate Distinct<T(==)>(s: seq<T>) {
    forall i, j :: 0 <= i < j < |s| ==> s[i] != s[j]
  }

  /** Position of the first occurrence of `x` in `s`. */
  function FirstIndex<T(==)>(s: seq<T>, x: T): (i: nat)
    requires x in s
    ensures i < |s| && s[i] == x
    ensures forall j :: 0 <= j < i ==> s[j] != x
  {
    if s[0] == x then 0 else 1 + FirstIndex(s[1..], x)
  }

  /** Appending at the end does not move an existing first occurrence. */
  lemma FirstIndexAppend<T>(s: seq<T>, y: T, x: T)
    requires x in s
    ensures x in s + [y] && FirstIndex(s + [y], x) == FirstIndex(s, x)
  {
    var i := FirstIndex(s, x);
    var k := FirstIndex(s + [y], x);
    assert (s + [y])[i] == x;
  }

  /** The distinct values of `s`, each once, in the order in which they
      first appear (the key order of a Python dict filled from `s`). */
  function Dedup<T(==)>(s: seq<T>): (r: seq<T>)
    ensures forall i :: 0 <= i < |r| ==> r[i] in s
    ensures forall i :: 0 <= i < |s| ==> s[i] in r
    ensures Distinct(r)
    ensures |r| <= |s|
  {
    if s == [] then []
    else
      var d := Dedup(s[..|s| - 1]);
      var x := s[|s| - 1];
      assert s == s[..|s| - 1] + [x];
      if x in d then d else d + [x]
  }

  /** Appending a value adds it to the distinct values unless already there. */
  lemma DedupSnoc<T>(s: seq<T>, x: T)
    ensures Dedup(s + [x]) == if x in Dedup(s) then Dedup(s) else Dedup(s) + [x]
  {
    assert (s + [x])[..|s|] == s;
  }

  /** The first distinct value is the first value. */
  lemma {:induction false} DedupHead<T>(s: seq<T>)
    requires |s| > 0
    ensures |Dedup(s)| > 0 && Dedup(s)[0] == s[0]
    decreases |s|
  {
    var init := s[..|s| - 1];
    if |init| > 0 {
      DedupHead(init);
      assert init[0] == s[0];
    }
  }

  /** `a` first appears in `s` before `b` does. */
  predicate FirstBefore<T(==)>(s: seq<T>, a: T, b: T) {
    a in s && b in s && FirstIndex(s, a) < FirstIndex(s, b)
  }

  /** Dedup lists the values in strictly increasing order of their first
      occurrence in `s`. */
  lemma {:induction false} DedupFirstOccurrenceOrder<T>(s: seq<T>)
    ensures forall i, j :: 0 <= i < j < |Dedup(s)| ==> FirstBefore(s, Dedup(s)[i], Dedup(s)[j])
    decreases |s|
  {
    if s != [] {
      var init := s[..|s| - 1];
      var x := s[|s| - 1];
      assert s == init + [x];
      DedupFirstOccurrenceOrder(init);
      var d0 := Dedup(init);
      var d := Dedup(s);
      forall i, j | 0 <= i < j < |d|
        ensures FirstBefore(s, d[i], d[j])
      {
        assert d[i] == d0[i] && d0[i] in init;
        FirstIndexAppend(init, x, d0[i]);
        if j < |d0| {
          assert FirstBefore(init, d0[i], d0[j]);
          FirstIndexAppend(init, x, d0[j]);
        } else {
          assert d[j] == x && x !in init;
          assert s[|init|] == x;
        }
      }
    }
  }

  /** Equal values of `s` stand next to each other: a value that has
      already appeared can only continue the run just before it. */
  predicate Grouped<T(==)>(s: seq<T>) {
    forall j :: 0 < j < |s| && s[j] in s[..j] ==> s[j - 1] == s[j]
  }

  /** Dropping the last value keeps a sequence grouped. */
  lemma GroupedPrefix<T>(s: seq<T>)
    requires |s| > 0 && Grouped(s)
    ensures Grouped(s[..|s| - 1])
  {
    var init := s[..|s| - 1];
    forall j | 0 < j < |init| && init[j] in init[..j]
      ensures init[j - 1] == init[j]
    {
      assert init[..j] == s[..j];
    }
  }

  /** In a grouped sequence the last distinct value is the last value. */
  lemma {:induction false} DedupLastGrouped<T>(s: seq<T>)
    requires |s| > 0 && Grouped(s)
    ensures |Dedup(s)| > 0 && Dedup(s)[|Dedup(s)| - 1] == s[|s| - 1]
    decreases |s|
  {
    var n := |s| - 1;
    var init := s[..n];
    var x := s[n];
    if x in Dedup(init) {
      assert x in init;
      assert s[n - 1] == x;
      GroupedPrefix(s);
      DedupLastGrouped(init);
    }
  }

  /** A non-empty sequence is its front followed by its last element. */
  lemma LastSplit<T>(s: seq<T>)
    requires |s| > 0
    ensures s == s[..|s| - 1] + [s[|s| - 1]]
  {
  }
}
