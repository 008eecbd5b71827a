/** `SymbolIndex`: the symbols of one module (or library), sorted by
    lower-cased name, and an ordered map from each distinct lower-cased name
    to the packed range of symbols that carry it. The `fst` map is modelled as
    the sequence of its entries in key order. */
module Index {
  import opened Symbols
  import opened Sorting
  import opened RangeCodec

  datatype Result<T, E> = Ok(value: T) | Err(error: E)

  /** One key of the ordered map with its packed `[start, end)` value. */
  datatype MapEntry = MapEntry(key: string, value: U64)

  datatype SymbolIndex = SymbolIndex(symbols: seq<FileSymbol>, entries: seq<MapEntry>)

  /** Why the map builder refuses a key. */
  datatype BuildError = DuplicateKey | OutOfOrder

  function Start(e: MapEntry): nat {
    MapValueToRange(e.value).0
  }

  function End(e: MapEntry): nat {
    MapValueToRange(e.value).1
  }

  /** The map builder accepts a key only if it is strictly greater than the
      last key inserted. */
  function BuilderInsert(entries: seq<MapEntry>, key: string, value: U64)
    : (r: Result<seq<MapEntry>, BuildError>)
    ensures r.Ok? <==> |entries| == 0 || LexLt(entries[|entries| - 1].key, key)
    ensures r.Ok? ==> r.value == entries + [MapEntry(key, value)]
    ensures r == Err(DuplicateKey) ==> entries[|entries| - 1].key == key
  {
    if |entries| > 0 && CompareStr(entries[|entries| - 1].key, key) == Equal then
      CompareEqual(entries[|entries| - 1].key, key);
      Err(DuplicateKey)
    else if |entries| > 0 && CompareStr(entries[|entries| - 1].key, key) == Greater then
      Err(OutOfOrder)
    else
      Ok(entries + [MapEntry(key, value)])
  }

  /** The ranges of `entries` are non-empty and consecutive, and together
      cover `[0, upto)`. */
  ghost predicate Partition(entries: seq<MapEntry>, upto: nat) {
    && (|entries| == 0 <==> upto == 0)
    && (|entries| > 0 ==> Start(entries[0]) == 0 && End(entries[|entries| - 1]) == upto)
    && (forall i :: 0 <= i < |entries| ==> Start(entries[i]) < End(entries[i]) <= upto)
    && (forall i :: 0 <= i < |entries| - 1 ==> End(entries[i]) == Start(entries[i + 1]))
  }

  /** Each entry's key is the lower-cased name of every symbol in its range. */
  ghost predicate KeysMatch(symbols: seq<FileSymbol>, entries: seq<MapEntry>) {
    forall i, j :: 0 <= i < |entries| && Start(entries[i]) <= j < End(entries[i]) && j < |symbols| ==>
      Key(symbols[j]) == entries[i].key
  }

  /** No run can be extended by the symbol just after it. */
  ghost predicate RightMaximal(symbols: seq<FileSymbol>, entries: seq<MapEntry>) {
    forall i :: 0 <= i < |entries| && End(entries[i]) < |symbols| ==>
      Key(symbols[End(entries[i])]) != entries[i].key
  }

  /** The keys strictly increase, as the map builder requires. */
  ghost predicate KeysIncreasing(entries: seq<MapEntry>) {
    forall i, k {:trigger LexLt(entries[i].key, entries[k].key)} :: 0 <= i < k < |entries| ==> LexLt(entries[i].key, entries[k].key)
  }

  /** `entries` cuts `symbols[..upto]` into consecutive non-empty runs: each
      entry's key is the lower-cased name of every symbol in its range, the
      run cannot be extended to the right, and the keys strictly increase. */
  ghost predicate Runs(symbols: seq<FileSymbol>, entries: seq<MapEntry>, upto: nat) {
    && upto <= |symbols|
    && Partition(entries, upto)
    && KeysMatch(symbols, entries)
    && RightMaximal(symbols, entries)
    && KeysIncreasing(entries)
  }

  /** What `SymbolIndex::new` establishes: ranges addressable in 32 bits,
      symbols sorted by lower-cased name, and the map a partition of all of
      them into maximal runs of equal lower-cased names. */
  ghost predicate Valid(idx: SymbolIndex) {
    && |idx.symbols| <= U32_MAX
    && SortedByKey(idx.symbols)
    && Runs(idx.symbols, idx.entries, |idx.symbols|)
  }

  /** The key of a run that would start at `start` is larger than every key
      so far. */
  lemma NextKeyIncreases(symbols: seq<FileSymbol>, entries: seq<MapEntry>, start: nat)
    requires SortedByKey(symbols)
    requires Runs(symbols, entries, start) && start < |symbols|
    ensures forall i :: 0 <= i < |entries| ==> LexLt(entries[i].key, Key(symbols[start]))
  {
    var key := Key(symbols[start]);
    if |entries| > 0 {
      var n := |entries| - 1;
      var last := entries[n];
      // the previous run ends at `start`, so its key differs from `key` and,
      // the symbols being sorted, is smaller
      assert Start(last) <= start - 1 < End(last);
      assert Key(symbols[start - 1]) == last.key;
      assert Key(symbols[start]) != last.key;
      assert LexLe(last.key, key);
      CompareEqual(last.key, key);
      forall i | 0 <= i < |entries| ensures LexLt(entries[i].key, key) {
        if i < n {
          assert LexLt(entries[i].key, last.key);
          LexLeTransitive(entries[i].key, last.key, key);
        }
      }
    }
  }

  /** Closing the run `[start, end)` under the entry `e` extends the
      partition to `end`. */
  lemma AppendRun(symbols: seq<FileSymbol>, entries: seq<MapEntry>, start: nat, end: nat, e: MapEntry)
    requires SortedByKey(symbols) && |symbols| <= U32_MAX
    requires Runs(symbols, entries, start)
    requires start < end <= |symbols|
    requires forall j :: start <= j < end ==> Key(symbols[j]) == Key(symbols[start])
    requires end < |symbols| ==> Key(symbols[end]) != Key(symbols[start])
    requires e == MapEntry(Key(symbols[start]), RangeToMapValue(start, end))
    ensures |entries| == 0 || LexLt(entries[|entries| - 1].key, e.key)
    ensures Runs(symbols, entries + [e], end)
  {
    RangeRoundTrip(start, end);
    NextKeyIncreases(symbols, entries, start);
    AppendPartition(entries, e, start, end);
    AppendKeysMatch(symbols, entries, e);
    AppendRightMaximal(symbols, entries, e);
    AppendIncreasing(entries, e);
  }

  lemma AppendPartition(entries: seq<MapEntry>, e: MapEntry, start: nat, end: nat)
    requires Partition(entries, start)
    requires Start(e) == start < End(e) == end
    ensures Partition(entries + [e], end)
  {
    var entries' := entries + [e];
    assert forall i :: 0 <= i < |entries| ==> entries'[i] == entries[i];
  }

  lemma AppendKeysMatch(symbols: seq<FileSymbol>, entries: seq<MapEntry>, e: MapEntry)
    requires KeysMatch(symbols, entries)
    requires forall j :: Start(e) <= j < End(e) && j < |symbols| ==> Key(symbols[j]) == e.key
    ensures KeysMatch(symbols, entries + [e])
  {
    var entries' := entries + [e];
    assert forall i :: 0 <= i < |entries| ==> entries'[i] == entries[i];
  }

  lemma AppendRightMaximal(symbols: seq<FileSymbol>, entries: seq<MapEntry>, e: MapEntry)
    requires RightMaximal(symbols, entries)
    requires End(e) < |symbols| ==> Key(symbols[End(e)]) != e.key
    ensures RightMaximal(symbols, entries + [e])
  {
    var entries' := entries + [e];
    assert forall i :: 0 <= i < |entries| ==> entries'[i] == entries[i];
  }

  lemma AppendIncreasing(entries: seq<MapEntry>, e: MapEntry)
    requires KeysIncreasing(entries)
    requires forall i :: 0 <= i < |entries| ==> LexLt(entries[i].key, e.key)
    ensures KeysIncreasing(entries + [e])
  {
    var entries' := entries + [e];
    assert forall i :: 0 <= i < |entries| ==> entries'[i] == entries[i];
  }

  /** The run being scanned in `SymbolIndex::new` before position `i`: every
      symbol from `lastBatchStart` up to `i` has the lower-cased name of the
      first. (The runs already closed are described by `Runs`.) */
  ghost predicate Scanned(symbols: seq<FileSymbol>, lastBatchStart: nat, i: nat) {
    && SortedByKey(symbols) && |symbols| <= U32_MAX
    && lastBatchStart <= i <= |symbols|
    && (lastBatchStart < i ==> i < |symbols|)
    && forall j :: lastBatchStart <= j <= i && j < |symbols| ==>
         Key(symbols[j]) == Key(symbols[lastBatchStart])
  }

  lemma ScanStart(symbols: seq<FileSymbol>)
    requires SortedByKey(symbols) && |symbols| <= U32_MAX
    ensures Scanned(symbols, 0, 0) && Runs(symbols, [], 0)
  {
  }

  /** The next symbol has the same lower-cased name: the run goes on. */
  lemma ScanContinue(symbols: seq<FileSymbol>, lastBatchStart: nat, i: nat)
    requires Scanned(symbols, lastBatchStart, i)
    requires i + 1 < |symbols| && Key(symbols[lastBatchStart]) == Key(symbols[i + 1])
    ensures Scanned(symbols, lastBatchStart, i + 1)
  {
  }

  /** The next symbol differs (or there is none): the run `[lastBatchStart, i + 1)`
      is closed under the entry `e`, whose key is larger than every key
      inserted before, and the next run starts at `i + 1`. */
  lemma ScanClose(symbols: seq<FileSymbol>, builder: seq<MapEntry>, lastBatchStart: nat, i: nat, e: MapEntry)
    requires Scanned(symbols, lastBatchStart, i) && Runs(symbols, builder, lastBatchStart) && i < |symbols|
    requires i + 1 < |symbols| ==> Key(symbols[lastBatchStart]) != Key(symbols[i + 1])
    requires e == MapEntry(Key(symbols[lastBatchStart]), RangeToMapValue(lastBatchStart, i + 1))
    ensures |builder| == 0 || LexLt(builder[|builder| - 1].key, e.key)
    ensures Runs(symbols, builder + [e], i + 1)
    ensures Scanned(symbols, i + 1, i + 1)
  {
    AppendRun(symbols, builder, lastBatchStart, i + 1, e);
  }

  lemma ScanDone(symbols: seq<FileSymbol>, builder: seq<MapEntry>, lastBatchStart: nat)
    requires Scanned(symbols, lastBatchStart, |symbols|) && Runs(symbols, builder, lastBatchStart)
    ensures Valid(SymbolIndex(symbols, builder))
  {
  }

  /** `SymbolIndex::new`: sort the symbols, then walk them once, closing a
      run whenever the next symbol's lower-cased name differs from that of
      the run's first symbol, and insert one map entry per run. */
  method New(input: seq<FileSymbol>) returns (idx: SymbolIndex)
    requires |input| <= U32_MAX
    ensures Valid(idx)
    ensures multiset(idx.symbols) == multiset(input)
    ensures idx.symbols == SortByKey(input)
  {
    var symbols := SortByKey(input);
    SortedLength(input);
    var builder: seq<MapEntry> := [];
    var lastBatchStart := 0;
    ScanStart(symbols);
    for i := 0 to |symbols|
      invariant Scanned(symbols, lastBatchStart, i)
      invariant Runs(symbols, builder, lastBatchStart)
    {
      if i + 1 < |symbols| {
        var sameName := SameKey(symbols[lastBatchStart], symbols[i + 1]);
        if sameName {
          ScanContinue(symbols, lastBatchStart, i);
          continue;
        }
      }
      var start := lastBatchStart;
      var end := i + 1;
      lastBatchStart := end;

      var key := Lower(symbols[start].name);
      var value := RangeToMapValue(start, end);
      ScanClose(symbols, builder, start, i, MapEntry(key, value));
      var inserted := BuilderInsert(builder, key, value);
      // `insert(..).unwrap()` cannot panic: the keys arrive in increasing order
      assert inserted == Ok(builder + [MapEntry(key, value)]);
      builder := inserted.value;
    }
    ScanDone(symbols, builder, lastBatchStart);
    idx := SymbolIndex(symbols, builder);
  }

  /** `len`: the number of indexed symbols, which is where the last run ends. */
  function Len(idx: SymbolIndex): (n: nat)
    requires Valid(idx)
    ensures n <= U32_MAX
    ensures n == if |idx.entries| == 0 then 0 else End(idx.entries[|idx.entries| - 1])
  {
    |idx.symbols|
  }

  /** Some run covers every symbol position. */
  lemma {:induction false} CoveringRun(idx: SymbolIndex, i: nat, j: nat)
    requires Valid(idx)
    requires i < |idx.entries| && Start(idx.entries[i]) <= j < |idx.symbols|
    ensures exists r :: i <= r < |idx.entries| && Start(idx.entries[r]) <= j < End(idx.entries[r])
    decreases |idx.entries| - i
  {
    if End(idx.entries[i]) <= j {
      CoveringRun(idx, i + 1, j);
    }
  }

  /** A symbol lies in the range of entry `i` exactly when its lower-cased
      name is that entry's key: looking a key up finds all and only the
      symbols of that name. */
  lemma RunMembership(idx: SymbolIndex, i: nat, j: nat)
    requires Valid(idx)
    requires i < |idx.entries| && j < |idx.symbols|
    ensures Key(idx.symbols[j]) == idx.entries[i].key <==> Start(idx.entries[i]) <= j < End(idx.entries[i])
  {
    CoveringRun(idx, 0, j);
    var r :| 0 <= r < |idx.entries| && Start(idx.entries[r]) <= j < End(idx.entries[r]);
    if r != i {
      LexLtIrreflexive(idx.entries[r].key);
      LexLtIrreflexive(idx.entries[i].key);
    }
  }

  /** Every key of the map is the lower-cased name of some symbol, and every
      symbol's lower-cased name is a key. */
  lemma KeysAreNames(idx: SymbolIndex, j: nat)
    requires Valid(idx) && j < |idx.symbols|
    ensures exists i :: 0 <= i < |idx.entries| && idx.entries[i].key == Key(idx.symbols[j])
  {
    CoveringRun(idx, 0, j);
  }

  /** `impl PartialEq for SymbolIndex` compares the symbols only. */
  predicate IndexEq(a: SymbolIndex, b: SymbolIndex) {
    a.symbols == b.symbols
  }

  /** The map of a valid index is determined by its symbols, so comparing
      (and hashing) the symbols alone is the same as comparing whole indices. */
  lemma IndexEqIsEquality(a: SymbolIndex, b: SymbolIndex)
    requires Valid(a) && Valid(b)
    ensures IndexEq(a, b) <==> a == b
  {
    if IndexEq(a, b) {
      var m := if |a.entries| < |b.entries| then |a.entries| else |b.entries|;
      SameRuns(a, b, 0, m);
      if m > 0 {
        LastRun(a, m - 1);
        LastRun(b, m - 1);
      }
      assert |a.entries| == |b.entries|;
      assert a.entries == b.entries;
    }
  }

  /** Only the last run ends at the end of the symbols. */
  lemma LastRun(idx: SymbolIndex, k: nat)
    requires Valid(idx) && k < |idx.entries|
    ensures End(idx.entries[k]) == |idx.symbols| <==> k == |idx.entries| - 1
  {
    if k < |idx.entries| - 1 {
      assert End(idx.entries[k]) == Start(idx.entries[k + 1]) < End(idx.entries[k + 1]);
    }
  }

  /** Runs that start at the same position of the same symbols end at the
      same position, since both are maximal; so the first `m` entries of two
      valid maps over the same symbols agree. */
  lemma {:induction false} SameRuns(a: SymbolIndex, b: SymbolIndex, i: nat, m: nat)
    requires Valid(a) && Valid(b) && a.symbols == b.symbols
    requires i <= m <= |a.entries| && m <= |b.entries|
    requires forall k :: 0 <= k < i ==> a.entries[k] == b.entries[k]
    ensures forall k :: 0 <= k < m ==> a.entries[k] == b.entries[k]
    decreases m - i
  {
    if i < m {
      var ea, eb := a.entries[i], b.entries[i];
      assert Start(ea) == Start(eb) by {
        if i > 0 {
          assert End(a.entries[i - 1]) == Start(ea) && End(b.entries[i - 1]) == Start(eb);
        }
      }
      assert ea.key == Key(a.symbols[Start(ea)]) == eb.key;
      assert End(ea) == End(eb);
      MapValueRoundTrip(ea.value);
      MapValueRoundTrip(eb.value);
      assert ea.value == eb.value;
      SameRuns(a, b, i + 1, m);
    }
  }
}
