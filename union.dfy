/** The stream a query reads: each index's map is searched with the
    subsequence automaton, and the per-index streams are combined by a union
    that yields every matching key once, in increasing key order, with the
    values that the key carries in each index that has it. */
module Union {
  import opened Symbols
  import opened RangeCodec
  import opened Index

  /** A value found under a key, tagged with the position of its index in
      the list of searched indices. */
  datatype IndexedValue = IndexedValue(index: nat, value: U64)

  /** One element of the union stream: a key and what each index stores
      under it. */
  datatype StreamItem = StreamItem(key: string, values: seq<IndexedValue>)

  /** The entries of a map whose key contains `q` as a subsequence, in key
      order: what `map.search(Subsequence::new(q))` streams. */
  function Matching(entries: seq<MapEntry>, q: string): (r: seq<MapEntry>)
    ensures forall e :: e in r <==> e in entries && IsSubsequence(q, e.key)
    ensures KeysIncreasing(entries) ==> KeysIncreasing(r)
  {
    if |entries| == 0 then []
    else
      var rest := Matching(entries[1..], q);
      var r := (if IsSubsequence(q, entries[0].key) then [entries[0]] else []) + rest;
      assert KeysIncreasing(entries) ==> KeysIncreasing(r) by {
        if KeysIncreasing(entries) && IsSubsequence(q, entries[0].key) {
          forall k | 0 < k < |r| ensures LexLt(r[0].key, r[k].key) {
            assert r[k] in entries[1..];
            var j :| 0 <= j < |entries[1..]| && entries[1..][j] == r[k];
            assert entries[j + 1] == r[k];
          }
        }
      }
      r
  }

  /** The stream of one index's matches, each value tagged with index `i`. */
  function Lift(i: nat, entries: seq<MapEntry>): (r: seq<StreamItem>)
    ensures |r| == |entries|
  {
    seq(|entries|, t requires 0 <= t < |entries| => StreamItem(entries[t].key, [IndexedValue(i, entries[t].value)]))
  }

  /** Every key of the stream is strictly smaller than the next one. */
  predicate Ascending(s: seq<StreamItem>) {
    forall t :: 0 <= t < |s| - 1 ==> LexLt(s[t].key, s[t + 1].key)
  }

  /** The (key, value) pairs one stream element delivers. */
  function ItemPairs(x: StreamItem): set<(string, IndexedValue)> {
    set v | v in x.values :: (x.key, v)
  }

  /** The (key, value) pairs a stream delivers. */
  function Pairs(s: seq<StreamItem>): set<(string, IndexedValue)> {
    if |s| == 0 then {}
    else ItemPairs(s[0]) + Pairs(s[1..])
  }

  lemma PairsCons(x: StreamItem, s: seq<StreamItem>)
    ensures Pairs([x] + s) == ItemPairs(x) + Pairs(s)
  {
    assert ([x] + s)[1..] == s;
  }

  lemma ItemPairsJoin(x: StreamItem, y: StreamItem)
    requires x.key == y.key
    ensures ItemPairs(StreamItem(x.key, x.values + y.values)) == ItemPairs(x) + ItemPairs(y)
  {
  }

  /** The union of two key-ordered streams: the smaller key goes first, and
      a key present in both is delivered once, with the values of the left
      stream before those of the right one. */
  function Merge(a: seq<StreamItem>, b: seq<StreamItem>): (r: seq<StreamItem>)
    ensures |r| > 0 ==> (|a| > 0 && r[0].key == a[0].key) || (|b| > 0 && r[0].key == b[0].key)
    decreases |a| + |b|
  {
    if |a| == 0 then b
    else if |b| == 0 then a
    else
      var x, y := a[0], b[0];
      match CompareStr(x.key, y.key)
      case Less => [x] + Merge(a[1..], b)
      case Greater => [y] + Merge(a, b[1..])
      case Equal => [StreamItem(x.key, x.values + y.values)] + Merge(a[1..], b[1..])
  }

  /** The union delivers exactly the (key, value) pairs of both streams. */
  lemma {:induction false} MergePairs(a: seq<StreamItem>, b: seq<StreamItem>)
    ensures Pairs(Merge(a, b)) == Pairs(a) + Pairs(b)
    decreases |a| + |b|
  {
    if |a| > 0 && |b| > 0 {
      var x, y := a[0], b[0];
      assert a == [x] + a[1..] && b == [y] + b[1..];
      PairsCons(x, a[1..]);
      PairsCons(y, b[1..]);
      match CompareStr(x.key, y.key)
      case Less =>
        MergePairs(a[1..], b);
        PairsCons(x, Merge(a[1..], b));
      case Greater =>
        MergePairs(a, b[1..]);
        PairsCons(y, Merge(a, b[1..]));
      case Equal =>
        var z := StreamItem(x.key, x.values + y.values);
        CompareEqual(x.key, y.key);
        MergePairs(a[1..], b[1..]);
        PairsCons(z, Merge(a[1..], b[1..]));
        ItemPairsJoin(x, y);
    }
  }

  /** The union of two ascending streams is ascending. */
  lemma {:induction false} MergeAscending(a: seq<StreamItem>, b: seq<StreamItem>)
    requires Ascending(a) && Ascending(b)
    ensures Ascending(Merge(a, b))
    decreases |a| + |b|
  {
    if |a| > 0 && |b| > 0 {
      var x, y := a[0], b[0];
      CompareEqual(x.key, y.key);
      CompareAntisymmetric(y.key, x.key);
      match CompareStr(x.key, y.key)
      case Less =>
        MergeAscending(a[1..], b);
      case Greater =>
        MergeAscending(a, b[1..]);
      case Equal =>
        MergeAscending(a[1..], b[1..]);
    }
  }

  /** `OpBuilder::union` over the searches of `indices`, in order. */
  function UnionStream(indices: seq<SymbolIndex>, q: string): (r: seq<StreamItem>)
  {
    if |indices| == 0 then []
    else
      var n := |indices| - 1;
      Merge(UnionStream(indices[..n], q), Lift(n, Matching(indices[n].entries, q)))
  }

  lemma {:induction false} LiftPairs(i: nat, entries: seq<MapEntry>)
    ensures Pairs(Lift(i, entries)) == set e | e in entries :: (e.key, IndexedValue(i, e.value))
    decreases |entries|
  {
    if |entries| > 0 {
      assert Lift(i, entries)[1..] == Lift(i, entries[1..]);
      LiftPairs(i, entries[1..]);
      assert entries == [entries[0]] + entries[1..];
    }
  }

  lemma LiftAscending(i: nat, entries: seq<MapEntry>)
    requires KeysIncreasing(entries)
    ensures Ascending(Lift(i, entries))
  {
  }

  /** The union delivers a key with a value tagged `i` exactly when index
      `i` stores that value under that key and the key matches `q`. */
  lemma {:induction false} UnionPairs(indices: seq<SymbolIndex>, q: string, k: string, iv: IndexedValue)
    ensures (k, iv) in Pairs(UnionStream(indices, q))
        <==> iv.index < |indices| && MapEntry(k, iv.value) in indices[iv.index].entries && IsSubsequence(q, k)
    decreases |indices|
  {
    if |indices| > 0 {
      var n := |indices| - 1;
      var matching := Matching(indices[n].entries, q);
      UnionPairs(indices[..n], q, k, iv);
      LiftPairs(n, matching);
      MergePairs(UnionStream(indices[..n], q), Lift(n, matching));
      if iv.index == n && MapEntry(k, iv.value) in matching {
        assert (k, iv) == (MapEntry(k, iv.value).key, IndexedValue(n, MapEntry(k, iv.value).value));
      }
    }
  }

  /** The union yields the keys in strictly increasing order. */
  lemma {:induction false} UnionAscending(indices: seq<SymbolIndex>, q: string)
    requires forall i :: 0 <= i < |indices| ==> Valid(indices[i])
    ensures Ascending(UnionStream(indices, q))
    decreases |indices|
  {
    if |indices| > 0 {
      var n := |indices| - 1;
      UnionAscending(indices[..n], q);
      LiftAscending(n, Matching(indices[n].entries, q));
      MergeAscending(UnionStream(indices[..n], q), Lift(n, Matching(indices[n].entries, q)));
    }
  }

  /** Hence every key is delivered at most once. */
  lemma {:induction false} AscendingDistinct(s: seq<StreamItem>, t: nat, u: nat)
    requires Ascending(s) && t < u < |s|
    ensures LexLt(s[t].key, s[u].key)
    decreases u - t
  {
    if t + 1 < u {
      AscendingDistinct(s, t + 1, u);
      LexLeTransitive(s[t].key, s[t + 1].key, s[u].key);
    }
  }
}
