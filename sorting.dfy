/** The sort that `SymbolIndex::new` applies to its symbols: a stable sort
    by the comparator `Cmp`, i.e. by ASCII-lower-cased name. */
module Sorting {
  import opened Symbols

  /** Sorted non-decreasingly by lower-cased name. */
  predicate SortedByKey(xs: seq<FileSymbol>) {
    forall i, j {:trigger LexLe(Key(xs[i]), Key(xs[j]))} :: 0 <= i < j < |xs| ==> LexLe(Key(xs[i]), Key(xs[j]))
  }

  /** Inserts `x` in front of the first element whose key is not smaller, so
      that `x` precedes the elements with an equal key. */
  function InsertByKey(x: FileSymbol, xs: seq<FileSymbol>): (r: seq<FileSymbol>)
    ensures multiset(r) == multiset(xs) + multiset{x}
    ensures SortedByKey(xs) ==> SortedByKey(r)
  {
    if |xs| == 0 then [x]
    else if Cmp(x, xs[0]) != Greater then
      var r := [x] + xs;
      assert SortedByKey(xs) ==> SortedByKey(r) by {
        if SortedByKey(xs) {
          forall j | 0 < j < |r| ensures LexLe(Key(x), Key(r[j])) {
            if j > 1 { LexLeTransitive(Key(x), Key(xs[0]), Key(r[j])); }
          }
        }
      }
      r
    else
      var rest := InsertByKey(x, xs[1..]);
      var r := [xs[0]] + rest;
      assert xs == [xs[0]] + xs[1..];
      assert SortedByKey(xs) ==> SortedByKey(r) by {
        if SortedByKey(xs) {
          LexLeTotal(Key(x), Key(xs[0]));
          forall j | 0 < j < |r| ensures LexLe(Key(xs[0]), Key(r[j])) {
            assert r[j] in multiset(rest);
            if r[j] != x {
              assert r[j] in multiset(xs[1..]);
              var k :| 0 <= k < |xs[1..]| && xs[1..][k] == r[j];
              assert xs[k + 1] == r[j];
            }
          }
        }
      }
      r
  }

  /** The stable sort by name: each element is inserted in front of the later
      elements with an equal key. */
  function SortByKey(xs: seq<FileSymbol>): (r: seq<FileSymbol>)
    ensures multiset(r) == multiset(xs)
    ensures SortedByKey(r)
  {
    if |xs| == 0 then []
    else
      assert xs == [xs[0]] + xs[1..];
      InsertByKey(xs[0], SortByKey(xs[1..]))
  }

  lemma SortedLength(xs: seq<FileSymbol>)
    ensures |SortByKey(xs)| == |xs|
  {
    assert |multiset(SortByKey(xs))| == |multiset(xs)|;
  }
}
