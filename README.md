# Workspace-symbol index of rust-analyzer, modelled in Dafny

This project models the symbol index in `crates/ide_db/src/symbol_index.rs`.
The index is what answers "go to symbol in workspace" queries. It has four parts:

- **`SymbolIndex`** holds the symbols of one module or library. They are sorted
  by ASCII-lower-cased name. Beside them is an ordered map (an `fst::Map`) from
  each distinct lower-cased name to the range of symbols that carry it. The
  range `[start, end)` is packed into one `u64`.
- **`Query`** is a query string plus four flags and a limit. Its `search` reads
  the union of the matches of every index, in key order. A key matches when it
  contains the lower-cased query as a subsequence. The search expands each
  matching key into its symbols, filters them and stops at the limit.
- **`FileSymbolKind::is_type`** is the predicate behind the `only_types` filter.
- **`SymbolCollector`** gathers the symbols of a module with a worklist. It
  keeps a stack of container names. Each collected symbol records its innermost
  container.

The files:

| file | module | contents |
|---|---|---|
| `symbols.dfy` | `Symbols` | symbol kinds, `FileSymbol`, ASCII lower-casing, the name comparator and its order laws, the subsequence match |
| `range_codec.dfy` | `RangeCodec` | packing a range into a map value and back |
| `sorting.dfy` | `Sorting` | the sort by lower-cased name |
| `symbol_index.dfy` | `Index` | `SymbolIndex::new` as a loop, the run structure of the map, `len`, equality |
| `union.dfy` | `Union` | per-index key matching and the union stream as a fold of two-way merges |
| `query.dfy` | `Queries` | the `Query` class, its setters, `search` as nested loops, and `index_resolve` |
| `collector.dfy` | `Collector` | the `SymbolCollector` class and its worklist, with the database abstracted |

The `fst` map is modelled as the sequence of its `(key, value)` entries in key
order. The map builder's `insert` is modelled by `Index.BuilderInsert`. It fails
unless the key is strictly greater than the last one. `SymbolIndex::new` is
proved never to reach that failure.

The search is specified by `Queries.SearchResult`:

1. the union stream of the indices;
2. flattened into symbols, in visiting order;
3. filtered by the query's flags;
4. cut after `Bound(limit)` symbols.

`Queries.Query.Search` is proved to return exactly that. The lemmas about
`SearchResult` then state what a result contains.

The collector's database is a parameter of type `Collector.Db`. It says, for
each work item, which steps the matching `collect_from_*` routine takes: push
the symbol a lookup yields, or enqueue more work. It also gives the names of
bodies and traits. `Collector.Drain` specifies what the worklist returns, and
`Collector.SymbolCollector.Collect` is proved to return exactly that.

## Model

| member | source | states |
|---|---|---|
| Symbols.IsTypeExactly | crates/ide_db/src/symbol_index.rs:423-432 | `is_type` (`Symbols.IsType`) holds exactly for Struct, Enum, Trait, TypeAlias and Union, and fails exactly for Const, Function, Macro, Module and Static |
| Symbols.AsciiLower | crates/ide_db/src/symbol_index.rs:255-256 | `to_ascii_lowercase` never yields an upper-case ASCII letter, and its result equals the input up to ASCII case (`eq_ignore_ascii_case`); these two facts leave exactly one possible result |
| Symbols.Lower | crates/ide_db/src/symbol_index.rs:277 | the key of a name has the name's length, no upper-case ASCII letter, and each character equal to the name's up to ASCII case |
| Symbols.LowerEqual | crates/ide_db/src/symbol_index.rs:254-258 | two names have the same key exactly when they have the same length and agree character by character up to ASCII case |
| Symbols.LowerIdempotent | crates/ide_db/src/symbol_index.rs:277 | lower-casing a key again does not change it |
| Symbols.SameKey | crates/ide_db/src/symbol_index.rs:254-258 | `cmp(lhs, rhs) == Equal` (`Symbols.Cmp`) exactly when the lower-cased names are equal |
| Symbols.CompareEqual | crates/ide_db/src/symbol_index.rs:254-258 | the lexicographic comparison of names (`Symbols.CompareStr`) yields `Equal` exactly for equal strings |
| Symbols.CompareAntisymmetric | crates/ide_db/src/symbol_index.rs:254-258 | `a < b` exactly when `b > a` under the comparator |
| Symbols.LexLeTransitive | crates/ide_db/src/symbol_index.rs:254-260 | the comparator's order is transitive, and strict if either step is strict; the sort relies on this |
| Symbols.LexLeTotal | crates/ide_db/src/symbol_index.rs:254-260 | any two names are comparable, and names that are each at most the other are equal |
| Symbols.LexLtIrreflexive | crates/ide_db/src/symbol_index.rs:254-258 | no name is strictly smaller than itself |
| Symbols.SubsequenceReflexive | crates/ide_db/src/symbol_index.rs:323-324 | every string is a subsequence of itself (`Symbols.IsSubsequence`, the language of `Subsequence::new`), so the automaton built from a key matches that key |
| Symbols.SubsequenceChars | crates/ide_db/src/symbol_index.rs:323-324 | every character of a query that matches a key occurs in that key |
| Symbols.SubsequenceMissingChar | crates/ide_db/src/symbol_index.rs:323-324 | a query holding a character that the key lacks never matches that key |
| Symbols.SubsequenceLength | crates/ide_db/src/symbol_index.rs:323-324 | a query never matches a key shorter than itself |
| RangeCodec.RangeToMapValue | crates/ide_db/src/symbol_index.rs:304-309 | under the debug assertions, the packed value holds `start` in its high 32 bits and `end` in its low 32 bits |
| RangeCodec.MapValueToRange | crates/ide_db/src/symbol_index.rs:311-315 | both decoded halves of a map value fit in 32 bits |
| RangeCodec.RangeRoundTrip | crates/ide_db/src/symbol_index.rs:304-315 | decoding the packed value of `(start, end)` gives back `(start, end)` whenever both halves satisfy the debug assertions |
| RangeCodec.MapValueRoundTrip | crates/ide_db/src/symbol_index.rs:304-315 | every `u64` is the packed value of the range it decodes to |
| Sorting.InsertByKey | crates/ide_db/src/symbol_index.rs:254-260 | inserting a symbol into a list sorted by lower-cased name keeps it sorted and adds exactly that symbol |
| Sorting.SortByKey | crates/ide_db/src/symbol_index.rs:254-260 | the sorted symbols are a permutation of the input, non-decreasing by lower-cased name |
| Sorting.SortedLength | crates/ide_db/src/symbol_index.rs:260 | sorting keeps the number of symbols |
| Index.BuilderInsert | crates/ide_db/src/symbol_index.rs:280 | the builder accepts a key exactly when it is strictly greater than the last key inserted; it then appends the entry, and otherwise reports a duplicate (equal key) or an out-of-order key |
| Index.NextKeyIncreases | crates/ide_db/src/symbol_index.rs:264-280 | the key of the run that starts next is greater than every key already inserted, so `insert(..).unwrap()` cannot fail |
| Index.AppendRun | crates/ide_db/src/symbol_index.rs:272-280 | inserting the entry of a closed maximal run extends the partition of the sorted symbols into runs up to the run's end |
| Index.ScanStart | crates/ide_db/src/symbol_index.rs:262-266 | before the loop, no run is closed and the (empty) current run starts at 0 |
| Index.ScanContinue | crates/ide_db/src/symbol_index.rs:267-270 | when the next symbol has the same lower-cased name as the run's first, the run goes on |
| Index.ScanClose | crates/ide_db/src/symbol_index.rs:267-281 | when the next symbol differs or there is none, the run `[last_batch_start, idx + 1)` is maximal, its key exceeds every earlier key, and its entry extends the map |
| Index.ScanDone | crates/ide_db/src/symbol_index.rs:266-284 | after the last symbol, the runs partition all of the symbols |
| Index.New | crates/ide_db/src/symbol_index.rs:253-285 | the index holds the input sorted by lower-cased name (a permutation of it). Its entries have non-empty, contiguous `[start, end)` ranges covering `[0, len)`. Each range is a maximal run of one lower-cased name, and that name is its key. Keys strictly increase, and every range fits in 32 bits |
| Index.Len | crates/ide_db/src/symbol_index.rs:287-289 | `len` fits in 32 bits and is where the last run ends (0 for an empty index) |
| Index.CoveringRun | crates/ide_db/src/symbol_index.rs:264-281 | every symbol position lies in the range of some entry |
| Index.RunMembership | crates/ide_db/src/symbol_index.rs:264-281 | a symbol lies in an entry's range exactly when its lower-cased name is that entry's key |
| Index.KeysAreNames | crates/ide_db/src/symbol_index.rs:277 | the lower-cased name of every symbol is a key of the map |
| Index.LastRun | crates/ide_db/src/symbol_index.rs:264-281 | only the last entry's range ends at `len` |
| Index.SameRuns | crates/ide_db/src/symbol_index.rs:264-281 | two valid indices over the same symbols agree on their entries |
| Index.IndexEqIsEquality | crates/ide_db/src/symbol_index.rs:238-250 | for indices built by `new`, comparing (and hashing) only `symbols` agrees with comparing whole indices, map included |
| Union.Matching | crates/ide_db/src/symbol_index.rs:321-325 | `map.search(Subsequence::new(q))` yields exactly the entries whose key contains `q` as a subsequence, still in strictly increasing key order |
| Union.Merge | crates/ide_db/src/symbol_index.rs:327 | the first key of a merged stream is the first key of one of its inputs |
| Union.MergePairs | crates/ide_db/src/symbol_index.rs:327 | a two-way union yields exactly the (key, indexed value) pairs of both streams |
| Union.MergeAscending | crates/ide_db/src/symbol_index.rs:327 | the union of two streams in strictly increasing key order is in strictly increasing key order |
| Union.LiftPairs | crates/ide_db/src/symbol_index.rs:321-325 | tagging one index's matches with its position yields one pair per entry |
| Union.LiftAscending | crates/ide_db/src/symbol_index.rs:321-325 | tagging keeps the increasing key order |
| Union.UnionPairs | crates/ide_db/src/symbol_index.rs:321-327 | `op.union()` delivers value `v` tagged `i` under key `k` exactly when index `i` stores `(k, v)` and `k` contains the lower-cased query as a subsequence |
| Union.UnionAscending | crates/ide_db/src/symbol_index.rs:321-327 | the union stream of valid indices is in strictly increasing key order |
| Union.AscendingDistinct | crates/ide_db/src/symbol_index.rs:327-328 | each key is delivered at most once |
| Queries.AnyCharMissing | crates/ide_db/src/symbol_index.rs:340-344 | `query.chars().any(\|c\| !name.contains(c))` is true exactly when some character of the query does not occur in the name |
| Queries.AcceptsMeaning | crates/ide_db/src/symbol_index.rs:334-345 | the filters (`Queries.Accepts`) keep a symbol exactly when three things hold. With `only_types` it is a type. With `exact` its name equals the query, case included. With `case_sensitive` and not `exact`, every character of the query occurs in its name |
| Queries.Bound | crates/ide_db/src/symbol_index.rs:347-350 | the bound is the least `n >= 1` with `n >= limit`: the first non-empty result length at which `res.len() >= limit` holds. The check after each push that stops the search there is in `Queries.Query.ScanRange` |
| Queries.Take | crates/ide_db/src/symbol_index.rs:347-350 | cutting at the bound keeps a prefix, of length the smaller of the bound and the input length |
| Queries.Candidates | crates/ide_db/src/symbol_index.rs:333-346 | the filters never add symbols |
| Queries.Query.constructor | crates/ide_db/src/symbol_index.rs:64-75 | `Query::new` keeps the query text, sets `lowercased` to its ASCII-lower-cased form (the corrected behaviour of the finding below), clears all four flags and sets the limit to `usize::MAX` |
| Queries.Query.OnlyTypes | crates/ide_db/src/symbol_index.rs:77-79 | sets `only_types` and changes nothing else |
| Queries.Query.Libs | crates/ide_db/src/symbol_index.rs:81-83 | sets `libs` and changes nothing else |
| Queries.Query.Exact | crates/ide_db/src/symbol_index.rs:85-87 | sets `exact` and changes nothing else |
| Queries.Query.CaseSensitive | crates/ide_db/src/symbol_index.rs:89-91 | sets `case_sensitive` and changes nothing else |
| Queries.Query.Limit | crates/ide_db/src/symbol_index.rs:93-95 | sets `limit` to the argument and changes nothing else |
| Queries.Query.Search | crates/ide_db/src/symbol_index.rs:319-355 | the search returns the accepted symbols of the union stream in visiting order, cut at the bound (`SearchResult`). It returns at most `Bound(limit)` symbols, and the filters accept each of them |
| Queries.Query.ScanValues | crates/ide_db/src/symbol_index.rs:329-352 | scanning the values of one key appends the accepted symbols of their ranges, cut at the bound, and reports whether the bound was reached |
| Queries.Query.ScanRange | crates/ide_db/src/symbol_index.rs:333-351 | scanning `symbols[start..end]` appends the symbols the three filters accept, in order. It returns as soon as the result reaches the limit |
| Queries.StreamStep | crates/ide_db/src/symbol_index.rs:328-353 | after one key of the stream, either the result covers the stream up to that key and is below the bound, or it is the final result and the filters accept every symbol in it |
| Queries.StopAtBound | crates/ide_db/src/symbol_index.rs:347-350 | returning early once the bound is reached gives the same result as scanning everything and then cutting at the bound |
| Queries.CandidatesMember | crates/ide_db/src/symbol_index.rs:333-346 | a symbol is kept exactly when it is reached and accepted |
| Queries.CandidatesAppend | crates/ide_db/src/symbol_index.rs:328-353 | filtering a concatenation is concatenating the filtered parts |
| Queries.StreamValueInRange | crates/ide_db/src/symbol_index.rs:329-333 | every value in the union stream of valid indices names an in-bounds, non-empty range of its index, so the slice `symbols[start..end]` cannot panic |
| Queries.RunSlice | crates/ide_db/src/symbol_index.rs:329-333 | the slice a map entry names holds exactly the index's symbols whose lower-cased name is the entry's key |
| Queries.StreamedSound | crates/ide_db/src/symbol_index.rs:321-333 | every symbol the search reaches belongs to one of the indices, and its lower-cased name contains the lower-cased query as a subsequence |
| Queries.StreamedComplete | crates/ide_db/src/symbol_index.rs:321-333 | every symbol of an index whose lower-cased name contains the lower-cased query as a subsequence is reached |
| Queries.SearchMembership | crates/ide_db/src/symbol_index.rs:321-346 | without a limit, a symbol is in the result exactly when three things hold: the filters accept it, it belongs to one of the indices, and its lower-cased name contains the lower-cased query as a subsequence |
| Queries.SearchResultLength | crates/ide_db/src/symbol_index.rs:347-350 | the result is a prefix of all candidates: all of them when fewer than the bound, otherwise exactly the bound |
| Queries.SearchResultMatches | crates/ide_db/src/symbol_index.rs:321-346 | every returned symbol belongs to one of the indices and passes the filters. Its key contains the lower-cased query as a subsequence, so it holds every character of that query and the name is at least as long |
| Queries.ExactMembership | crates/ide_db/src/symbol_index.rs:335-339 | with `exact`, and the query lower-cased by the keys' ASCII rule, a symbol is a candidate exactly when it belongs to an index, its name equals the query, and `only_types` accepts it. Under that lowering the subsequence prefilter never loses an exact match |
| Queries.ExactMatchMissedAsWritten | crates/ide_db/src/symbol_index.rs:64-65 | for the query `index_resolve` builds as written (`Queries.ResolveQueryAsWritten`, 219-224: `Query::new`, then `exact` and `limit(4)`), whose `lowercased` comes from `to_lowercase`, the filters accept the symbol named `Über`, yet a search for that name over the index holding it does not return it |
| Queries.ExactMatchFound | crates/ide_db/src/symbol_index.rs:219-224 | with the query lower-cased by the keys' rule, an exact search with limit 4 for a symbol's own name, over the index holding just that symbol, returns it |
| Queries.IndexResolve | crates/ide_db/src/symbol_index.rs:219-224 | `index_resolve` runs an exact query with limit 4. It returns at most 4 symbols, each named exactly `name` and taken from one of the indices |
| Collector.SumSizeAppend | crates/ide_db/src/symbol_index.rs:464-466 | the termination measure of a stack is additive, so popping an item and pushing what it enqueues shrinks it |
| Collector.DrainStep | crates/ide_db/src/symbol_index.rs:464-466 | popping the top work item yields its symbols first, and what is left to do is smaller |
| Collector.EmittedMembership | crates/ide_db/src/symbol_index.rs:716-720 | a routine's steps push a symbol exactly when one of them pushes a declaration that yields it (`Collector.MakeSymbol`: the declaration's name, kind and location, and its own module or trait as container if it is an associated item that has one, otherwise the current container) |
| Collector.ReachedExactly | crates/ide_db/src/symbol_index.rs:456-469 | the work items `collect` pops (`Collector.Reached`) are exactly those on the initial stack and those that a popped item enqueues |
| Collector.DrainMembership | crates/ide_db/src/symbol_index.rs:452-469 | `collect` returns a symbol exactly when some popped work item pushes a declaration yielding it under that item's container name: every symbol of every item reached from the root module, and nothing else |
| Collector.SymbolCollector.constructor | crates/ide_db/src/symbol_index.rs:457-462 | the collector starts with no symbols, the root module as the only work, and no container name |
| Collector.SymbolCollector.PushFileSymbol | crates/ide_db/src/symbol_index.rs:716-720 | appends the looked-up symbol, if any, under the current container name. `symbols` grows by at most one and earlier entries are unchanged. Work and stack are unchanged |
| Collector.SymbolCollector.RunActions | crates/ide_db/src/symbol_index.rs:488-565 | a `collect_from_*` routine appends the symbols its steps push and enqueues their work items, in order. The container stack is unchanged |
| Collector.SymbolCollector.WithContainerName | crates/ide_db/src/symbol_index.rs:567-579 | the routine's symbols take the given name, if any, as `current_container_name` (the top of the stack), and otherwise the current one. The stack is afterwards as it was before |
| Collector.SymbolCollector.DoWork | crates/ide_db/src/symbol_index.rs:471-486 | a module is collected under its parent body's name, a trait under its own name, and bodies and impls under the current name (`Collector.ContainerFor`). The stack is unchanged |
| Collector.SymbolCollector.PopWork | crates/ide_db/src/symbol_index.rs:464 | `work.pop()` removes and returns the top item, or returns `None` on an empty stack |
| Collector.SymbolCollector.Collect | crates/ide_db/src/symbol_index.rs:456-469 | `collect` terminates and returns exactly `Drain` of the root module: each work item's symbols under that item's own container name, items taken last-in first-out |

## Findings

| source | as written | input that shows it | evidently intended | confidence | as-written member | corrected member |
|---|---|---|---|---|---|---|
| crates/ide_db/src/symbol_index.rs:65 | `Query::new` lower-cases the query with Unicode `to_lowercase`, while the keys are lower-cased with `to_ascii_lowercase` (277) | `index_resolve("Über")` over an index holding a symbol named `Über`: the query becomes `über`, the key stays `Über`, the automaton rejects it, and the exact match is not returned | the query is lower-cased by the keys' rule, so an exact query always reaches its matches | medium, not executed | Queries.ExactMatchMissedAsWritten | Queries.ExactMembership |

## Left out

- The salsa queries `library_symbols`, `module_symbols`, `world_symbols`, `crate_symbols` and `module_ids_for_crate` are not modelled. They choose which indices to search; that choice is the `indices` parameter of `Queries.Query.Search` and `Queries.IndexResolve`. So `index_resolve` is modelled over a given list of indices.
- Rayon is modelled sequentially: `par_sort_by` is the sequential `Sorting.SortByKey`. The `into_par_iter` call (in `library_symbols`), the `par_iter` and `map_with` calls and the `Snap` snapshot wrapper (in `world_symbols` and `crate_symbols`) belong to the salsa plumbing, which is not modelled (see above).
- Sorting.SortByKey: stability of the sort is not stated. The model inserts each symbol before later ones with an equal key, as a stable sort does, but no lemma says so.
- The internals of the `fst` crate are not modelled: the automaton product, the FST encoding and `OpBuilder::union`. A map is its sorted entry list, the `Subsequence` automaton is `Symbols.IsSubsequence`, and the union is a left fold of two-way merges.
- Queries.Query.Search: within one key, the model orders values by index position, left to right. The `fst` union orders the values of a key by its own heap order instead. So when several indices share a key and the limit cuts inside that key, the source may keep a different subset of symbols.
- Keys and the subsequence automaton work on UTF-8 bytes; the model works on characters. Byte order and character order agree, so the key order is the same. The byte-level match can also accept a key in which the bytes of a multi-byte query character occur only scattered over several characters; the model does not accept such a key.
- Queries.Query.constructor: `Query::new` uses Unicode `to_lowercase`; the `Query` constructor here lower-cases ASCII letters only, as the keys do (`to_ascii_lowercase`). This is the corrected behaviour of the finding above. The code as written is `Queries.ResolveQueryAsWritten`, whose `Queries.UnicodeLower` covers only ASCII and the Latin-1 letters U+00C0–U+00DE; the rest of Unicode's case mapping is not modelled.
- Queries.ExactMembership: holds for the ASCII lowering of the query only. With `to_lowercase`, as written, an exact query for a name with a non-ASCII capital such as `Über` misses the symbol of that name (`Queries.ExactMatchMissedAsWritten`).
- RangeCodec.RangeToMapValue: written as `start * 2^32 + end`. That equals the shift-and-or of the source exactly under the debug assertions `start, end <= u32::MAX`, which are required. What a release build packs for an out-of-range `start` or `end` is not modelled: the shift drops the high bits of `start`, and the high bits of `end` are or-ed into the `start` half.
- `memory_size` is not modelled; it depends on the FST's byte size.
- `SymbolIndex::for_files` is not modelled, and neither is `source_file_to_file_symbols`, which is a stub returning no symbols.
- `DeclarationLocation::{syntax, original_range, original_name_range}` and `find_original_file_range` are not modelled; they need syntax trees and macro expansion. A location is three opaque numbers.
- The HIR-dependent parts of the collector are abstracted by `Collector.Db`: `collect_from_module`, `collect_from_body`, `collect_from_impl` and `collect_from_trait`, `def_with_body_id_name`, `push_assoc_item`, and the lookup closures of `push_decl`, `push_decl_assoc`, `push_module` and `push_decl_macro`. The database lists each routine's steps, and it yields a `Decl` or `None` for each lookup. Which steps each kind of work takes is not constrained.
- Collector.SymbolCollector.Collect: it requires a size measure under which every work item enqueues less than itself (`Collector.Terminating`). The source terminates because module and block trees are finite; the model assumes that as this precondition. The measure must shrink for every work item, including items the root module never reaches, so a database whose unreachable items enqueue each other in a cycle is excluded although `collect` would terminate on it.
- `unwind_if_cancelled` (cancellation), profiling spans and the `Debug` impl are not modelled.
- `Queries.Query.Search` is split into three methods, one per loop level (`Search`, `ScanValues`, `ScanRange`), with the same control flow and the same early return. A range that a stream value names outside its index would make the source panic. `Queries.SymbolsOf` maps that case to no symbols, and `Queries.StreamValueInRange` proves it never happens for indices built by `Index.New`.
