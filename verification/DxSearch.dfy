/** Finding a label by frequency: bsearch with bsearch_freqcomp of rx/rx_cmd.cpp, and its two callers. */
module DxSearch {
  import opened Wrappers

  // The comparator at element i: f holds carrier plus offset, last is the index dx_list_last points at.
  // It answers 0 for a range, not a value.
  function Compare(f: seq<real>, key: real, last: nat, i: nat): int
    requires i < |f| && last <= |f|
  {
    if key == f[i] then 0
    else if key < f[i] then (if i == 0 then 0 else -1)
    else if i + 1 < last then (if key < f[i + 1] then 0 else 1)
    else 0
  }

  // Binary search (section 7.22.5.1 of ISO C11) with any choice of the middle.
  method Bsearch(f: seq<real>, key: real, last: nat, mid: (nat, nat) -> nat) returns (r: Option<nat>)
    requires last <= |f| && forall lo: nat, hi: nat | lo < hi :: lo <= mid(lo, hi) < hi
    ensures r.None? <==> f == []
    ensures r.Some? ==> r.value < |f| && Compare(f, key, last, r.value) == 0
  {
    var lo, hi := 0, |f|;
    while lo < hi
      invariant 0 <= lo <= hi <= |f|
      invariant lo > 0 ==> lo < last && f[lo] <= key
      invariant hi < |f| ==> hi > 0 && key < f[hi]
    {
      var i := mid(lo, hi);
      var c := Compare(f, key, last, i);
      if c < 0 {
        hi := i;
      } else if c > 0 {
        lo := i + 1;
      } else {
        return Some(i);
      }
    }
    r := None;
  }

  predicate Ordered(f: seq<real>) {
    forall i, j | 0 <= i < j < |f| :: f[i] <= f[j]
  }

  // The element at or below the key, with the ends taking what is outside.
  predicate Covers(f: seq<real>, key: real, i: nat)
    requires i < |f|
  {
    && (i > 0 ==> f[i] <= key)
    && (i + 1 < |f| ==> key < f[i + 1])
  }

  // With the end pointer behind the last element, on an ordered list, what is found covers the key, but
  // for frequencies that are there more than once: then it is one of those that are equal to the key.
  lemma FoundCovers(f: seq<real>, key: real, i: nat)
    requires Ordered(f) && i < |f| && Compare(f, key, |f|, i) == 0
    ensures Covers(f, key, i) <==> !(i + 1 < |f| && key == f[i] == f[i + 1])
    ensures (forall j | 0 <= j <= i && i > 0 :: f[j] <= key) && (forall j | i < j < |f| :: key < f[j] || key == f[i])
  {
    if i + 1 < |f| && key != f[i] {
      if key < f[i] {
        assert forall j | i < j < |f| :: f[i] <= f[j];
      } else {
        assert forall j | i + 1 < j < |f| :: f[i + 1] <= f[j];
      }
    }
  }

  // On an ordered list without repetitions the first caller gets the one element that covers the key.
  lemma FoundIsUnique(f: seq<real>, key: real, i: nat, j: nat)
    requires i < |f| && j < |f| && Compare(f, key, |f|, i) == 0
    requires forall a, b | 0 <= a < b < |f| :: f[a] < f[b]
    ensures Covers(f, key, j) <==> j == i
  {
    if i < j {
      assert i + 1 < j ==> f[i + 1] < f[j];
    } else if j < i {
      assert j + 1 < i ==> f[j + 1] < f[i];
      assert j + 1 < |f|;
    }
  }

  // The other caller's end pointer is at the last element: that one is not looked at from its
  // predecessor, and the result can be one too low, there and only there.
  lemma OneTooLow(f: seq<real>, key: real, i: nat)
    requires |f| > 0 && i < |f|
    ensures Compare(f, key, |f| - 1, i) == 0 <==>
            Compare(f, key, |f|, i) == 0 || (i + 2 == |f| && f[i] < key && f[i + 1] <= key)
  {
  }

  // A search that ends too low: three labels, the key above all of them, the middle tried first.
  lemma TooLowHappens()
    ensures var f := [1.0, 2.0, 3.0];
            Ordered(f) && Compare(f, 5.0, 2, 1) == 0 && !Covers(f, 5.0, 1)
  {
  }

  // A frequency that two labels have.
  predicate Twice(f: seq<real>, key: real) {
    exists j | 0 <= j < |f| - 1 :: f[j] == key == f[j + 1]
  }

  // A frequency that belongs to the last label, and not to the one before.
  predicate AtEnd(f: seq<real>, key: real) {
    |f| >= 2 && f[|f| - 2] < key && f[|f| - 1] <= key
  }

  // Every element the comparator accepts, whatever the middles tried, covers the key.
  predicate AlwaysCovers(f: seq<real>, key: real, last: nat)
    requires last <= |f|
  {
    forall i: nat | i < |f| && Compare(f, key, last, i) == 0 :: Covers(f, key, i)
  }

  // The first caller: right for every way to search if and only if the frequency is not there twice.
  lemma FirstCallerIff(f: seq<real>, key: real)
    requires Ordered(f)
    ensures AlwaysCovers(f, key, |f|) <==> !Twice(f, key)
  {
    forall i: nat | i < |f| && Compare(f, key, |f|, i) == 0
      ensures Covers(f, key, i) <==> !(i + 1 < |f| && key == f[i] == f[i + 1])
    {
      FoundCovers(f, key, i);
    }
    if j :| 0 <= j < |f| - 1 && f[j] == key == f[j + 1] {
      assert Compare(f, key, |f|, j) == 0;
    }
  }

  // The second caller: if and only if, besides, it does not belong to the last label.
  lemma SecondCallerIff(f: seq<real>, key: real)
    requires Ordered(f) && f != []
    ensures AlwaysCovers(f, key, |f| - 1) <==> !Twice(f, key) && !AtEnd(f, key)
  {
    FirstCallerIff(f, key);
    forall i: nat | i < |f|
      ensures Compare(f, key, |f| - 1, i) == 0 <==>
              Compare(f, key, |f|, i) == 0 || (i + 2 == |f| && f[i] < key && f[i + 1] <= key)
    {
      OneTooLow(f, key, i);
    }
    if AtEnd(f, key) {
      assert Compare(f, key, |f| - 1, |f| - 2) == 0 && !Covers(f, key, |f| - 2);
    }
  }

  // Two labels on one frequency: the search can end at the first, which does not cover it alone.
  lemma RepetitionHappens()
    ensures var f := [1.0, 2.0, 2.0, 3.0];
            Ordered(f) && Twice(f, 2.0) && Compare(f, 2.0, 4, 1) == 0 && !Covers(f, 2.0, 1)
  {
    var f := [1.0, 2.0, 2.0, 3.0];
    assert f[1] == 2.0 == f[2];
  }

  // The search of the admin page: on a sorted list, the label the frequency belongs to, unless two have it.
  method AdminSearch(f: seq<real>, key: real, mid: (nat, nat) -> nat) returns (i: nat)
    requires f != [] && Ordered(f) && forall lo: nat, hi: nat | lo < hi :: lo <= mid(lo, hi) < hi
    ensures i < |f| && (!Twice(f, key) ==> Covers(f, key, i)) && (Twice(f, key) ==> f[i] == key || Covers(f, key, i))
    ensures (forall j | 0 <= j <= i && i > 0 :: f[j] <= key) && (forall j | i < j < |f| :: key < f[j] || key == f[i])
  {
    var r := Bsearch(f, key, |f|, mid);
    i := r.value;
    FoundCovers(f, key, i);
    FirstCallerIff(f, key);
  }

  // The search for the markers on the waterfall: the same, or the last label but one for a frequency
  // that belongs to the last.
  method MarkerSearch(f: seq<real>, key: real, mid: (nat, nat) -> nat) returns (i: nat)
    requires f != [] && Ordered(f) && forall lo: nat, hi: nat | lo < hi :: lo <= mid(lo, hi) < hi
    ensures i < |f| && (i > 0 ==> f[i] <= key)
    ensures !Twice(f, key) && !AtEnd(f, key) ==> Covers(f, key, i)
    ensures !Twice(f, key) && AtEnd(f, key) ==> i + 2 == |f| || i + 1 == |f|
    ensures Twice(f, key) ==> f[i] == key || Covers(f, key, i) || (AtEnd(f, key) && i + 2 == |f|)
  {
    var r := Bsearch(f, key, |f| - 1, mid);
    i := r.value;
    OneTooLow(f, key, i);
    SecondCallerIff(f, key);
    if Compare(f, key, |f|, i) == 0 {
      FoundCovers(f, key, i);
    }
  }
}
