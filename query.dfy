/** `Query`: a workspace-symbol query, its flags, and the search that reads
    the union stream of several indices and keeps the symbols the flags
    accept, stopping at the limit. */
module Queries {
  import opened Symbols
  import opened RangeCodec
  import opened Index
  import opened Union

  /** The fields of a query, as a value. */
  datatype QueryState = QueryState(
    query: string,
    lowercased: string,
    onlyTypes: bool,
    libs: bool,
    exact: bool,
    caseSensitive: bool,
    limit: Usize)

  /** No character of `query` is missing from `name`. */
  predicate ContainsAllChars(query: string, name: string) {
    forall c :: c in query ==> c in name
  }

  /** `query.chars().any(|c| !name.contains(c))`. */
  function AnyCharMissing(query: string, name: string): (r: bool)
    ensures r <==> !ContainsAllChars(query, name)
  {
    if |query| == 0 then false
    else
      assert query == [query[0]] + query[1..];
      query[0] !in name || AnyCharMissing(query[1..], name)
  }

  /** The per-symbol filters of the search: a symbol is skipped when
      `only_types` is set and it is not a type; when `exact` is set and its
      name is not the query; or, without `exact`, when `case_sensitive` is set
      and some character of the query is missing from its name. */
  predicate Accepts(st: QueryState, sym: FileSymbol) {
    if st.onlyTypes && !IsType(sym.kind) then false
    else if st.exact then sym.name == st.query
    else if st.caseSensitive then !AnyCharMissing(st.query, sym.name)
    else true
  }

  /** What the filters keep, in terms of the symbol alone. */
  lemma AcceptsMeaning(st: QueryState, sym: FileSymbol)
    ensures Accepts(st, sym)
        <==> && (st.onlyTypes ==> IsType(sym.kind))
             && (st.exact ==> sym.name == st.query)
             && (!st.exact && st.caseSensitive ==> forall c :: c in st.query ==> c in sym.name)
  {
  }

  /** The symbols the search reaches, in order, that the filters accept. */
  function Candidates(st: QueryState, syms: seq<FileSymbol>): (r: seq<FileSymbol>)
    ensures |r| <= |syms|
  {
    if |syms| == 0 then []
    else (if Accepts(st, syms[0]) then [syms[0]] else []) + Candidates(st, syms[1..])
  }

  /** The symbols of the range an indexed value names; a range that lay
      outside its index would make the slice panic, and is never produced
      for valid indices (`StreamValueInRange`). */
  function SymbolsOf(indices: seq<SymbolIndex>, iv: IndexedValue): seq<FileSymbol> {
    if iv.index < |indices| then
      var range := MapValueToRange(iv.value);
      var syms := indices[iv.index].symbols;
      if range.0 <= range.1 <= |syms| then syms[range.0..range.1] else []
    else []
  }

  /** The value names a range inside its index. */
  predicate ValueInRange(indices: seq<SymbolIndex>, iv: IndexedValue) {
    && iv.index < |indices|
    && MapValueToRange(iv.value).0 <= MapValueToRange(iv.value).1 <= |indices[iv.index].symbols|
  }

  /** The symbols of the values of one key, in order. */
  function FlatValues(indices: seq<SymbolIndex>, vs: seq<IndexedValue>): seq<FileSymbol> {
    if |vs| == 0 then [] else SymbolsOf(indices, vs[0]) + FlatValues(indices, vs[1..])
  }

  /** The symbols of a whole stream, in the order the search visits them. */
  function FlatStream(indices: seq<SymbolIndex>, s: seq<StreamItem>): seq<FileSymbol> {
    if |s| == 0 then [] else FlatValues(indices, s[0].values) + FlatStream(indices, s[1..])
  }

  /** The number of results after which the search returns: the length is
      checked only after a push, so a limit of 0 still yields one symbol. */
  function Bound(limit: Usize): (n: nat)
    ensures n >= 1 && n >= limit
    ensures n == 1 || n - 1 < limit
  {
    if limit == 0 then 1 else limit
  }

  function Take<T>(s: seq<T>, n: nat): (r: seq<T>)
    ensures r <= s && |r| == if |s| <= n then |s| else n
  {
    if |s| <= n then s else s[..n]
  }

  /** The symbols a search over `indices` returns. */
  function SearchResult(st: QueryState, indices: seq<SymbolIndex>): seq<FileSymbol> {
    Take(Candidates(st, FlatStream(indices, UnionStream(indices, st.lowercased))), Bound(st.limit))
  }

  class Query {
    var query: string
    var lowercased: string
    var onlyTypes: bool
    var libs: bool
    var exact: bool
    var caseSensitive: bool
    var limit: Usize

    function State(): QueryState
      reads this
    {
      QueryState(query, lowercased, onlyTypes, libs, exact, caseSensitive, limit)
    }

    /** `Query::new`: every flag off and no limit. */
    constructor (query: string)
      ensures State() == QueryState(query, Lower(query), false, false, false, false, USIZE_MAX)
    {
      this.query := query;
      lowercased := Lower(query);
      onlyTypes := false;
      libs := false;
      exact := false;
      caseSensitive := false;
      limit := USIZE_MAX;
    }

    method OnlyTypes()
      modifies this
      ensures State() == old(State()).(onlyTypes := true)
    {
      onlyTypes := true;
    }

    method Libs()
      modifies this
      ensures State() == old(State()).(libs := true)
    {
      libs := true;
    }

    method Exact()
      modifies this
      ensures State() == old(State()).(exact := true)
    {
      exact := true;
    }

    method CaseSensitive()
      modifies this
      ensures State() == old(State()).(caseSensitive := true)
    {
      caseSensitive := true;
    }

    method Limit(limit: Usize)
      modifies this
      ensures State() == old(State()).(limit := limit)
    {
      this.limit := limit;
    }

    /** `Query::search`: walk the union stream key by key, scanning the
        values of each key (`ScanValues`), and return as soon as the result
        is long enough. */
    method Search(indices: seq<SymbolIndex>) returns (res: seq<FileSymbol>)
      requires forall i :: 0 <= i < |indices| ==> Valid(indices[i])
      ensures res == SearchResult(State(), indices)
      ensures |res| <= Bound(limit)
      ensures forall s :: s in res ==> Accepts(State(), s)
    {
      var stream := UnionStream(indices, lowercased);
      ghost var st := State();
      res := [];
      var p := 0;
      while p < |stream|
        invariant p <= |stream|
        invariant res == Candidates(st, FlatStream(indices, stream[..p])) && |res| < Bound(limit)
      {
        KeyValuesInRange(indices, lowercased, p);
        ghost var res0 := res;
        var stop;
        res, stop := ScanValues(indices, stream[p].values, res);
        StreamStep(st, indices, stream, p, res0, res, stop);
        if stop {
          return;
        }
        p := p + 1;
      }
      assert stream[..p] == stream;
      ResultsAccepted(st, FlatStream(indices, stream), res);
    }

    /** The loop over the values of one key: scan the range each value
        names (`ScanRange`), and stop as soon as the result reaches the
        bound. */
    method ScanValues(indices: seq<SymbolIndex>, values: seq<IndexedValue>, res0: seq<FileSymbol>)
      returns (res: seq<FileSymbol>, stop: bool)
      requires forall iv :: iv in values ==> ValueInRange(indices, iv)
      requires |res0| < Bound(limit)
      ensures res == Take(res0 + Candidates(State(), FlatValues(indices, values)), Bound(limit))
      ensures stop <==> |res0 + Candidates(State(), FlatValues(indices, values))| >= Bound(limit)
    {
      res := res0;
      for vi := 0 to |values|
        invariant res == res0 + Candidates(State(), FlatValues(indices, values[..vi])) && |res| < Bound(limit)
      {
        var iv := values[vi];
        assert ValueInRange(indices, iv);
        var symbolIndex := indices[iv.index];
        var range := MapValueToRange(iv.value);
        ghost var slice := SymbolsOf(indices, iv);
        assert symbolIndex.symbols[range.0..range.1] == slice;
        res, stop := ScanRange(symbolIndex.symbols[range.0..range.1], res);
        FlatValuesStep(indices, values, vi);
        Accumulate(State(), res0, FlatValues(indices, values[..vi]), slice);
        if stop {
          FlatValuesPrefix(indices, values, vi + 1);
          StopAtBound(State(), FlatValues(indices, values[..vi + 1]), FlatValues(indices, values), res0);
          return;
        }
      }
      assert values[..|values|] == values;
      return res, false;
    }

    /** The loop over `symbol_index.symbols[start..end]`: push each symbol
        the filters accept, and stop as soon as the result reaches the bound.
        The result is what was there before followed by the accepted symbols
        of the range, cut at the bound. */
    method ScanRange(syms: seq<FileSymbol>, res0: seq<FileSymbol>) returns (res: seq<FileSymbol>, stop: bool)
      requires |res0| < Bound(limit)
      ensures res == Take(res0 + Candidates(State(), syms), Bound(limit))
      ensures stop <==> |res0 + Candidates(State(), syms)| >= Bound(limit)
    {
      res := res0;
      for j := 0 to |syms|
        invariant res == res0 + Candidates(State(), syms[..j]) && |res| < Bound(limit)
      {
        var symbol := syms[j];
        PrefixStep(syms, j);
        CandidatesStep(State(), syms[..j], symbol);
        if onlyTypes && !IsType(symbol.kind) {
          continue;
        }
        if exact {
          if symbol.name != query {
            continue;
          }
        } else if caseSensitive {
          if AnyCharMissing(query, symbol.name) {
            continue;
          }
        }
        res := res + [symbol];
        if |res| >= limit {
          PrefixOf(syms, j + 1);
          StopAtBound(State(), syms[..j + 1], syms, res0);
          return res, true;
        }
      }
      assert syms[..|syms|] == syms;
      return res, false;
    }
  }

  /** One key of the stream has been scanned: either the bound is not
      reached and the result covers the stream up to and including that key,
      or the result is the final one and every symbol in it is accepted. */
  lemma StreamStep(st: QueryState, indices: seq<SymbolIndex>, stream: seq<StreamItem>, p: nat,
                   res0: seq<FileSymbol>, res: seq<FileSymbol>, stop: bool)
    requires p < |stream|
    requires res0 == Candidates(st, FlatStream(indices, stream[..p]))
    requires res == Take(res0 + Candidates(st, FlatValues(indices, stream[p].values)), Bound(st.limit))
    requires stop <==> |res0 + Candidates(st, FlatValues(indices, stream[p].values))| >= Bound(st.limit)
    ensures !stop ==> res == Candidates(st, FlatStream(indices, stream[..p + 1])) && |res| < Bound(st.limit)
    ensures stop ==> res == Take(Candidates(st, FlatStream(indices, stream)), Bound(st.limit))
    ensures stop ==> forall s :: s in res ==> Accepts(st, s)
  {
    FlatStreamStep(indices, stream, p);
    Accumulate(st, [], FlatStream(indices, stream[..p]), FlatValues(indices, stream[p].values));
    assert [] + Candidates(st, FlatStream(indices, stream[..p])) == Candidates(st, FlatStream(indices, stream[..p]));
    if stop {
      FlatStreamPrefix(indices, stream, p + 1);
      StopAtBound(st, FlatStream(indices, stream[..p + 1]), FlatStream(indices, stream), []);
      assert [] + Candidates(st, FlatStream(indices, stream)) == Candidates(st, FlatStream(indices, stream));
      ResultsAccepted(st, FlatStream(indices, stream), res);
    }
  }

  lemma PrefixStep<T>(s: seq<T>, k: nat)
    requires k < |s|
    ensures s[..k + 1] == s[..k] + [s[k]]
  {
  }

  /** Scanning `a` and then `x` yields the candidates of `a + x`. */
  lemma Accumulate(st: QueryState, res0: seq<FileSymbol>, a: seq<FileSymbol>, x: seq<FileSymbol>)
    ensures res0 + Candidates(st, a) + Candidates(st, x) == res0 + Candidates(st, a + x)
  {
    CandidatesAppend(st, a, x);
  }

  lemma PrefixOf<T>(s: seq<T>, k: nat)
    requires k <= |s|
    ensures s[..k] <= s
  {
  }

  /** Stopping once the result reaches the bound, after a prefix `pre` of the
      symbols `whole`, returns the first `Bound(limit)` results of `whole`. */
  lemma StopAtBound(st: QueryState, pre: seq<FileSymbol>, whole: seq<FileSymbol>, res0: seq<FileSymbol>)
    requires pre <= whole
    requires |res0 + Candidates(st, pre)| >= Bound(st.limit)
    ensures Take(res0 + Candidates(st, pre), Bound(st.limit)) == Take(res0 + Candidates(st, whole), Bound(st.limit))
    ensures |res0 + Candidates(st, whole)| >= Bound(st.limit)
  {
    CandidatesPrefix(st, pre, whole);
    var a, b := res0 + Candidates(st, pre), res0 + Candidates(st, whole);
    assert a <= b;
  }

  lemma FlatValuesPrefix(indices: seq<SymbolIndex>, vs: seq<IndexedValue>, k: nat)
    requires k <= |vs|
    ensures FlatValues(indices, vs[..k]) <= FlatValues(indices, vs)
  {
    assert vs == vs[..k] + vs[k..];
    FlatValuesAppend(indices, vs[..k], vs[k..]);
  }

  lemma FlatStreamPrefix(indices: seq<SymbolIndex>, s: seq<StreamItem>, k: nat)
    requires k <= |s|
    ensures FlatStream(indices, s[..k]) <= FlatStream(indices, s)
  {
    assert s == s[..k] + s[k..];
    FlatStreamAppend(indices, s[..k], s[k..]);
  }

  lemma ResultsAccepted(st: QueryState, syms: seq<FileSymbol>, res: seq<FileSymbol>)
    requires res <= Candidates(st, syms)
    ensures forall s :: s in res ==> Accepts(st, s)
  {
    forall s | s in res ensures Accepts(st, s) {
      CandidatesMember(st, syms, s);
    }
  }

  lemma CandidatesStep(st: QueryState, syms: seq<FileSymbol>, x: FileSymbol)
    ensures Candidates(st, syms + [x]) == Candidates(st, syms) + if Accepts(st, x) then [x] else []
  {
    CandidatesAppend(st, syms, [x]);
    assert [x][1..] == [];
  }

  lemma {:induction false} CandidatesAppend(st: QueryState, a: seq<FileSymbol>, b: seq<FileSymbol>)
    ensures Candidates(st, a + b) == Candidates(st, a) + Candidates(st, b)
    decreases |a|
  {
    if |a| == 0 {
      assert a + b == b;
    } else {
      var head := if Accepts(st, a[0]) then [a[0]] else [];
      assert (a + b)[0] == a[0] && (a + b)[1..] == a[1..] + b;
      assert Candidates(st, a + b) == head + Candidates(st, a[1..] + b);
      CandidatesAppend(st, a[1..], b);
      assert Candidates(st, a) == head + Candidates(st, a[1..]);
    }
  }

  /** A symbol survives the filtering exactly when it was there and the
      filters accept it. */
  lemma {:induction false} CandidatesMember(st: QueryState, syms: seq<FileSymbol>, x: FileSymbol)
    ensures x in Candidates(st, syms) <==> x in syms && Accepts(st, x)
    decreases |syms|
  {
    if |syms| > 0 {
      CandidatesMember(st, syms[1..], x);
      assert syms == [syms[0]] + syms[1..];
    }
  }

  /** Filtering keeps prefixes: what the search has returned so far is a
      prefix of what it would return without a limit. */
  lemma CandidatesPrefix(st: QueryState, a: seq<FileSymbol>, b: seq<FileSymbol>)
    requires a <= b
    ensures Candidates(st, a) <= Candidates(st, b)
  {
    assert b == a + b[|a|..];
    CandidatesAppend(st, a, b[|a|..]);
  }

  lemma {:induction false} FlatValuesAppend(indices: seq<SymbolIndex>, a: seq<IndexedValue>, b: seq<IndexedValue>)
    ensures FlatValues(indices, a + b) == FlatValues(indices, a) + FlatValues(indices, b)
    decreases |a|
  {
    if |a| == 0 {
      assert a + b == b;
    } else {
      assert (a + b)[1..] == a[1..] + b;
      FlatValuesAppend(indices, a[1..], b);
    }
  }

  lemma {:induction false} FlatStreamAppend(indices: seq<SymbolIndex>, a: seq<StreamItem>, b: seq<StreamItem>)
    ensures FlatStream(indices, a + b) == FlatStream(indices, a) + FlatStream(indices, b)
    decreases |a|
  {
    if |a| == 0 {
      assert a + b == b;
    } else {
      assert (a + b)[1..] == a[1..] + b;
      FlatStreamAppend(indices, a[1..], b);
    }
  }

  lemma FlatValuesStep(indices: seq<SymbolIndex>, vs: seq<IndexedValue>, vi: nat)
    requires vi < |vs|
    ensures FlatValues(indices, vs[..vi + 1]) == FlatValues(indices, vs[..vi]) + SymbolsOf(indices, vs[vi])
  {
    assert vs[..vi + 1] == vs[..vi] + [vs[vi]];
    FlatValuesAppend(indices, vs[..vi], [vs[vi]]);
  }

  lemma FlatStreamStep(indices: seq<SymbolIndex>, s: seq<StreamItem>, p: nat)
    requires p < |s|
    ensures FlatStream(indices, s[..p + 1]) == FlatStream(indices, s[..p]) + FlatValues(indices, s[p].values)
  {
    assert s[..p + 1] == s[..p] + [s[p]];
    FlatStreamAppend(indices, s[..p], [s[p]]);
  }

  lemma {:induction false} PairsMember(s: seq<StreamItem>, t: nat, iv: IndexedValue)
    requires t < |s| && iv in s[t].values
    ensures (s[t].key, iv) in Pairs(s)
    decreases t
  {
    if t > 0 {
      PairsMember(s[1..], t - 1, iv);
    }
  }

  /** A value the union delivers names a non-empty range inside its index,
      so the search's indexing and slicing cannot panic. */
  lemma StreamValueInRange(indices: seq<SymbolIndex>, q: string, p: nat, iv: IndexedValue)
    requires forall i :: 0 <= i < |indices| ==> Valid(indices[i])
    requires p < |UnionStream(indices, q)| && iv in UnionStream(indices, q)[p].values
    ensures iv.index < |indices|
    ensures MapValueToRange(iv.value).0 < MapValueToRange(iv.value).1 <= |indices[iv.index].symbols|
    ensures SymbolsOf(indices, iv)
         == indices[iv.index].symbols[MapValueToRange(iv.value).0..MapValueToRange(iv.value).1]
  {
    var s := UnionStream(indices, q);
    PairsMember(s, p, iv);
    UnionPairs(indices, q, s[p].key, iv);
    var entries := indices[iv.index].entries;
    var e := MapEntry(s[p].key, iv.value);
    var r :| 0 <= r < |entries| && entries[r] == e;
    assert Start(entries[r]) < End(entries[r]);
  }

  lemma KeyValuesInRange(indices: seq<SymbolIndex>, q: string, p: nat)
    requires forall i :: 0 <= i < |indices| ==> Valid(indices[i])
    requires p < |UnionStream(indices, q)|
    ensures forall iv :: iv in UnionStream(indices, q)[p].values ==> ValueInRange(indices, iv)
  {
    forall iv | iv in UnionStream(indices, q)[p].values
      ensures ValueInRange(indices, iv)
    {
      StreamValueInRange(indices, q, p, iv);
    }
  }

  /** A symbol lies in the range of an entry of a valid index exactly when
      it is one of the index's symbols and its lower-cased name is the key. */
  lemma RunSlice(idx: SymbolIndex, e: MapEntry, x: FileSymbol)
    requires Valid(idx) && e in idx.entries
    ensures Start(e) <= End(e) <= |idx.symbols|
    ensures x in idx.symbols[Start(e)..End(e)] <==> x in idx.symbols && Key(x) == e.key
  {
    var r :| 0 <= r < |idx.entries| && idx.entries[r] == e;
    assert Start(e) < End(e) <= |idx.symbols|;
    if x in idx.symbols[Start(e)..End(e)] {
      var j :| 0 <= j < End(e) - Start(e) && idx.symbols[Start(e)..End(e)][j] == x;
      RunMembership(idx, r, Start(e) + j);
    }
    if x in idx.symbols && Key(x) == e.key {
      var j :| 0 <= j < |idx.symbols| && idx.symbols[j] == x;
      RunMembership(idx, r, j);
      assert idx.symbols[Start(e)..End(e)][j - Start(e)] == x;
    }
  }

  lemma {:induction false} FlatValuesMember(indices: seq<SymbolIndex>, vs: seq<IndexedValue>, x: FileSymbol)
    ensures x in FlatValues(indices, vs) <==> exists v :: v in vs && x in SymbolsOf(indices, v)
    decreases |vs|
  {
    if |vs| > 0 {
      FlatValuesMember(indices, vs[1..], x);
      assert FlatValues(indices, vs) == SymbolsOf(indices, vs[0]) + FlatValues(indices, vs[1..]);
      if v :| v in vs && x in SymbolsOf(indices, v) {
        if v != vs[0] {
          assert v in vs[1..];
        }
      }
      if x in FlatValues(indices, vs[1..]) {
        var v :| v in vs[1..] && x in SymbolsOf(indices, v);
        assert v in vs;
      }
    }
  }

  lemma {:induction false} FlatStreamMember(indices: seq<SymbolIndex>, s: seq<StreamItem>, x: FileSymbol)
    ensures x in FlatStream(indices, s) <==> exists kv :: kv in Pairs(s) && x in SymbolsOf(indices, kv.1)
    decreases |s|
  {
    if |s| > 0 {
      FlatStreamMember(indices, s[1..], x);
      FlatValuesMember(indices, s[0].values, x);
      if x in FlatValues(indices, s[0].values) {
        var v :| v in s[0].values && x in SymbolsOf(indices, v);
        assert (s[0].key, v) in ItemPairs(s[0]);
      }
      if kv :| kv in ItemPairs(s[0]) && x in SymbolsOf(indices, kv.1) {
        assert kv.1 in s[0].values;
      }
    }
  }

  /** Every symbol the union stream reaches belongs to one of the indices
      and has a lower-cased name that contains `q` as a subsequence. */
  lemma StreamedSound(indices: seq<SymbolIndex>, q: string, x: FileSymbol)
    requires forall i :: 0 <= i < |indices| ==> Valid(indices[i])
    requires x in FlatStream(indices, UnionStream(indices, q))
    ensures IsSubsequence(q, Key(x)) && exists i :: 0 <= i < |indices| && x in indices[i].symbols
  {
    var s := UnionStream(indices, q);
    FlatStreamMember(indices, s, x);
    var kv :| kv in Pairs(s) && x in SymbolsOf(indices, kv.1);
    var (k, iv) := kv;
    UnionPairs(indices, q, k, iv);
    var e := MapEntry(k, iv.value);
    RunSlice(indices[iv.index], e, x);
  }

  /** Every symbol of the indices whose lower-cased name contains `q` as a
      subsequence is reached by the union stream. */
  lemma StreamedComplete(indices: seq<SymbolIndex>, q: string, x: FileSymbol, i: nat)
    requires forall i :: 0 <= i < |indices| ==> Valid(indices[i])
    requires i < |indices| && x in indices[i].symbols && IsSubsequence(q, Key(x))
    ensures x in FlatStream(indices, UnionStream(indices, q))
  {
    var s := UnionStream(indices, q);
    var j :| 0 <= j < |indices[i].symbols| && indices[i].symbols[j] == x;
    KeysAreNames(indices[i], j);
    var r :| 0 <= r < |indices[i].entries| && indices[i].entries[r].key == Key(x);
    var e := indices[i].entries[r];
    var iv := IndexedValue(i, e.value);
    UnionPairs(indices, q, e.key, iv);
    RunSlice(indices[i], e, x);
    assert x in SymbolsOf(indices, (e.key, iv).1);
    FlatStreamMember(indices, s, x);
  }

  /** Soundness and completeness of the search without a limit: a symbol is
      a candidate exactly when the filters accept it and it belongs to one of
      the indices with a lower-cased name that contains the lower-cased query
      as a subsequence. */
  lemma SearchMembership(st: QueryState, indices: seq<SymbolIndex>, x: FileSymbol)
    requires forall i :: 0 <= i < |indices| ==> Valid(indices[i])
    ensures x in Candidates(st, FlatStream(indices, UnionStream(indices, st.lowercased)))
        <==> Accepts(st, x) && IsSubsequence(st.lowercased, Key(x))
             && exists i :: 0 <= i < |indices| && x in indices[i].symbols
  {
    var q := st.lowercased;
    CandidatesMember(st, FlatStream(indices, UnionStream(indices, q)), x);
    if x in FlatStream(indices, UnionStream(indices, q)) {
      StreamedSound(indices, q, x);
    }
    if IsSubsequence(q, Key(x)) && exists i :: 0 <= i < |indices| && x in indices[i].symbols {
      var i :| 0 <= i < |indices| && x in indices[i].symbols;
      StreamedComplete(indices, q, x, i);
    }
  }

  /** A search returns all its candidates when there are fewer than the
      bound, and otherwise exactly the first `Bound(limit)` of them. */
  lemma SearchResultLength(st: QueryState, indices: seq<SymbolIndex>)
    ensures var all := Candidates(st, FlatStream(indices, UnionStream(indices, st.lowercased)));
      && SearchResult(st, indices) <= all
      && (|all| < Bound(st.limit) ==> SearchResult(st, indices) == all)
      && (|all| >= Bound(st.limit) ==> |SearchResult(st, indices)| == Bound(st.limit))
  {
  }

  /** Every symbol a search returns belongs to one of the indices, passes
      the filters, and has a key containing the lower-cased query as a
      subsequence: every character of that query occurs in the key, and the
      name is at least as long as the lower-cased query. */
  lemma SearchResultMatches(st: QueryState, indices: seq<SymbolIndex>, x: FileSymbol)
    requires forall i :: 0 <= i < |indices| ==> Valid(indices[i])
    requires x in SearchResult(st, indices)
    ensures Accepts(st, x) && exists i :: 0 <= i < |indices| && x in indices[i].symbols
    ensures IsSubsequence(st.lowercased, Key(x))
    ensures forall c :: c in st.lowercased ==> c in Key(x)
    ensures |st.lowercased| <= |x.name|
  {
    SearchMembership(st, indices, x);
    SubsequenceChars(st.lowercased, Key(x));
    SubsequenceLength(st.lowercased, Key(x));
  }

  /** With `exact` set, and the query lower-cased by the same ASCII rule as
      the keys, a symbol is a candidate exactly when it is one of the
      indices' symbols, its name is the query, and `only_types` (if set)
      accepts its kind: the subsequence search on lower-cased names then
      never loses an exact match. */
  lemma ExactMembership(st: QueryState, indices: seq<SymbolIndex>, x: FileSymbol)
    requires forall i :: 0 <= i < |indices| ==> Valid(indices[i])
    requires st.exact && st.lowercased == Lower(st.query)
    ensures x in Candidates(st, FlatStream(indices, UnionStream(indices, st.lowercased)))
        <==> x.name == st.query && (st.onlyTypes ==> IsType(x.kind))
             && exists i :: 0 <= i < |indices| && x in indices[i].symbols
  {
    SearchMembership(st, indices, x);
    if x.name == st.query {
      SubsequenceReflexive(Lower(st.query));
    }
  }

  /** `index_resolve`: an exact query for `name` with a limit of 4, run over
      the indices the workspace search selects (a parameter here). */
  method IndexResolve(name: string, indices: seq<SymbolIndex>) returns (res: seq<FileSymbol>)
    requires forall i :: 0 <= i < |indices| ==> Valid(indices[i])
    ensures |res| <= 4
    ensures forall s :: s in res ==> s.name == name && exists i :: 0 <= i < |indices| && s in indices[i].symbols
    ensures res == SearchResult(QueryState(name, Lower(name), false, false, true, false, 4), indices)
  {
    var query := new Query(name);
    query.Exact();
    query.Limit(4);
    res := query.Search(indices);
    forall s | s in res
      ensures exists i :: 0 <= i < |indices| && s in indices[i].symbols
    {
      ExactMembership(query.State(), indices, s);
    }
  }

  /** `char::to_lowercase` where it adds 32 to the code point: the ASCII
      letters `A`-`Z` and the Latin-1 letters U+00C0-U+00DE other than the
      sign U+00D7. Every other character is kept as it is. */
  function Latin1Lower(c: char): char {
    if 'A' <= c <= 'Z' || ('\U{C0}' <= c <= '\U{DE}' && c != '\U{D7}') then (c as int + 32) as char else c
  }

  /** `str::to_lowercase`, on the characters `Latin1Lower` covers. */
  function UnicodeLower(s: string): string {
    seq(|s|, i requires 0 <= i < |s| => Latin1Lower(s[i]))
  }

  /** The query `index_resolve` builds, as written: `Query::new` lower-cases
      with `to_lowercase`, while the keys are lower-cased with
      `to_ascii_lowercase`. */
  function ResolveQueryAsWritten(name: string): QueryState {
    QueryState(name, UnicodeLower(name), false, false, true, false, 4)
  }

  /** The index of a module that declares one symbol. */
  function SingletonIndex(sym: FileSymbol): (idx: SymbolIndex)
    ensures Valid(idx) && idx.symbols == [sym]
  {
    SymbolIndex([sym], [MapEntry(Key(sym), RangeToMapValue(0, 1))])
  }

  /** As written, `index_resolve("\U{DC}ber")` misses the symbol named
      `\U{DC}ber` although the filters accept it: the query is lower-cased to
      `\U{FC}ber` while the symbol's key stays `\U{DC}ber`, which lacks
      `\U{FC}`, so the subsequence automaton never reaches it. */
  lemma ExactMatchMissedAsWritten(sym: FileSymbol)
    requires sym.name == "\U{DC}ber"
    ensures Accepts(ResolveQueryAsWritten(sym.name), sym)
    ensures sym !in SearchResult(ResolveQueryAsWritten(sym.name), [SingletonIndex(sym)])
  {
    var st, idx := ResolveQueryAsWritten(sym.name), SingletonIndex(sym);
    assert Key(sym) == sym.name;
    assert st.lowercased == "\U{FC}ber";
    SubsequenceMissingChar(st.lowercased, Key(sym), '\U{FC}');
    SearchMembership(st, [idx], sym);
    assert sym !in Candidates(st, FlatStream([idx], UnionStream([idx], st.lowercased)));
  }

  /** With the query lower-cased by the keys' rule, as `Query`'s constructor
      here does, an exact `index_resolve` over one index finds a symbol of
      that index named exactly as the query. */
  lemma ExactMatchFound(sym: FileSymbol)
    ensures sym in SearchResult(QueryState(sym.name, Lower(sym.name), false, false, true, false, 4), [SingletonIndex(sym)])
  {
    var st, idx := QueryState(sym.name, Lower(sym.name), false, false, true, false, 4), SingletonIndex(sym);
    var all := Candidates(st, FlatStream([idx], UnionStream([idx], st.lowercased)));
    ExactMembership(st, [idx], sym);
    ExactMembership(st, [idx], all[0]);
    assert SearchResult(st, [idx])[0] == all[0] == sym;
  }
}
