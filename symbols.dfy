/** Entities shared by the symbol index: symbol kinds, the indexed symbol
    record, ASCII lower-casing, the lexicographic comparison of names that the
    index is sorted by, and the subsequence match the query automaton uses. */
module Symbols {

  datatype Option<T> = None | Some(value: T)

  datatype Ordering = Less | Equal | Greater

  /** The closed set of symbol kinds that the index stores. */
  datatype FileSymbolKind =
    | Const | Enum | Function | Macro | Module | Static | Struct | Trait | TypeAlias | Union

  /** Whether a kind names a type (the `only_types` filter keeps these). */
  predicate IsType(kind: FileSymbolKind) {
    match kind
    case Struct | Enum | Trait | TypeAlias | Union => true
    case _ => false
  }

  lemma IsTypeExactly(kind: FileSymbolKind)
    ensures IsType(kind) <==> kind in {Struct, Enum, Trait, TypeAlias, Union}
    ensures !IsType(kind) <==> kind in {Const, Function, Macro, Module, Static}
  {
  }

  /** Where a declaration lives: the file and two syntax-node pointers, kept
      abstract (they are only compared and copied by the index). */
  datatype DeclarationLocation = DeclarationLocation(hirFileId: nat, ptr: nat, namePtr: nat)

  datatype FileSymbol = FileSymbol(
    name: string,
    loc: DeclarationLocation,
    kind: FileSymbolKind,
    containerName: Option<string>)

  /** `char::eq_ignore_ascii_case`: the same character, or the upper- and
      lower-case forms of one ASCII letter. */
  predicate EqIgnoreAsciiCase(c: char, d: char) {
    || c == d
    || ('A' <= c <= 'Z' && d as int == c as int + 32)
    || ('A' <= d <= 'Z' && c as int == d as int + 32)
  }

  /** `char::to_ascii_lowercase`: the one character that equals `c` up to
      ASCII case and is not an upper-case ASCII letter. */
  function AsciiLower(c: char): (r: char)
    ensures !('A' <= r <= 'Z')
    ensures EqIgnoreAsciiCase(c, r)
  {
    if 'A' <= c <= 'Z' then (c as int + 32) as char else c
  }

  /** Lower-cases the ASCII letters of a string and keeps every other character. */
  function Lower(s: string): (r: string)
    ensures |r| == |s|
    ensures forall i :: 0 <= i < |s| ==> !('A' <= r[i] <= 'Z') && EqIgnoreAsciiCase(s[i], r[i])
  {
    seq(|s|, i requires 0 <= i < |s| => AsciiLower(s[i]))
  }

  lemma LowerIdempotent(s: string)
    ensures Lower(Lower(s)) == Lower(s)
  {
  }

  /** Two names have the same key exactly when they agree character by
      character up to ASCII case. */
  lemma LowerEqual(a: string, b: string)
    ensures Lower(a) == Lower(b) <==> |a| == |b| && forall i :: 0 <= i < |a| ==> EqIgnoreAsciiCase(a[i], b[i])
  {
    if |a| == |b| && forall i :: 0 <= i < |a| ==> EqIgnoreAsciiCase(a[i], b[i]) {
      forall i | 0 <= i < |a|
        ensures Lower(a)[i] == Lower(b)[i]
      {
        assert EqIgnoreAsciiCase(a[i], b[i]);
      }
    }
    if Lower(a) == Lower(b) {
      forall i | 0 <= i < |a|
        ensures EqIgnoreAsciiCase(a[i], b[i])
      {
        assert AsciiLower(a[i]) == Lower(a)[i] == Lower(b)[i] == AsciiLower(b[i]);
      }
    }
  }

  /** The key a symbol is sorted and indexed under: its ASCII-lower-cased name. */
  function Key(sym: FileSymbol): string {
    Lower(sym.name)
  }

  /** Lexicographic comparison of character sequences, a proper prefix being
      the smaller; this is the order of `Iterator::cmp` on `char`s, and, since
      UTF-8 preserves code-point order, the byte order of the index's keys. */
  function CompareStr(a: string, b: string): Ordering
    decreases |a|
  {
    if |a| == 0 && |b| == 0 then Equal
    else if |a| == 0 then Less
    else if |b| == 0 then Greater
    else if a[0] < b[0] then Less
    else if b[0] < a[0] then Greater
    else CompareStr(a[1..], b[1..])
  }

  /** The comparator the index is sorted with. */
  function Cmp(lhs: FileSymbol, rhs: FileSymbol): Ordering {
    CompareStr(Key(lhs), Key(rhs))
  }

  /** `cmp(lhs, rhs) == Ordering::Equal`: the names agree up to ASCII case. */
  predicate SameKey(lhs: FileSymbol, rhs: FileSymbol)
    ensures SameKey(lhs, rhs) <==> Key(lhs) == Key(rhs)
  {
    CompareEqual(Key(lhs), Key(rhs));
    Cmp(lhs, rhs) == Equal
  }

  predicate LexLe(a: string, b: string) {
    CompareStr(a, b) != Greater
  }

  predicate LexLt(a: string, b: string) {
    CompareStr(a, b) == Less
  }

  lemma {:induction false} CompareEqual(a: string, b: string)
    ensures CompareStr(a, b) == Equal <==> a == b
    decreases |a|
  {
    if |a| > 0 && |b| > 0 && a[0] == b[0] {
      CompareEqual(a[1..], b[1..]);
      if a[1..] == b[1..] {
        assert a == [a[0]] + a[1..] && b == [b[0]] + b[1..];
      }
    }
  }

  lemma {:induction false} CompareAntisymmetric(a: string, b: string)
    ensures CompareStr(a, b) == Less <==> CompareStr(b, a) == Greater
    decreases |a|
  {
    if |a| > 0 && |b| > 0 && a[0] == b[0] {
      CompareAntisymmetric(a[1..], b[1..]);
    }
  }

  lemma {:induction false} LexLeTransitive(a: string, b: string, c: string)
    requires LexLe(a, b) && LexLe(b, c)
    ensures LexLe(a, c)
    ensures LexLt(a, b) || LexLt(b, c) ==> LexLt(a, c)
    decreases |a|
  {
    if |a| > 0 && |b| > 0 && |c| > 0 && a[0] == b[0] == c[0] {
      LexLeTransitive(a[1..], b[1..], c[1..]);
    }
  }

  lemma LexLeTotal(a: string, b: string)
    ensures LexLe(a, b) || LexLe(b, a)
    ensures LexLe(a, b) && LexLe(b, a) ==> a == b
  {
    CompareAntisymmetric(a, b);
    CompareEqual(a, b);
  }

  lemma LexLtIrreflexive(a: string)
    ensures !LexLt(a, a)
  {
    CompareEqual(a, a);
  }

  /** Whether `q` can be obtained from `k` by deleting characters: the
      language of the index's subsequence automaton, matched greedily. */
  predicate IsSubsequence(q: string, k: string)
    decreases |k|
  {
    if |q| == 0 then true
    else if |k| == 0 then false
    else if q[0] == k[0] then IsSubsequence(q[1..], k[1..])
    else IsSubsequence(q, k[1..])
  }

  lemma {:induction false} SubsequenceReflexive(s: string)
    ensures IsSubsequence(s, s)
    decreases |s|
  {
    if |s| > 0 {
      SubsequenceReflexive(s[1..]);
    }
  }

  /** Every character of a matched query occurs in the key. */
  lemma {:induction false} SubsequenceChars(q: string, k: string)
    requires IsSubsequence(q, k)
    ensures forall c :: c in q ==> c in k
    decreases |k|
  {
    if |q| > 0 {
      if q[0] == k[0] {
        SubsequenceChars(q[1..], k[1..]);
        forall c | c in q ensures c in k {
          if c != q[0] {
            assert c in q[1..] by { assert q == [q[0]] + q[1..]; }
            assert c in k[1..];
          }
        }
      } else {
        SubsequenceChars(q, k[1..]);
      }
    }
  }

  /** A query holding a character the key lacks never matches it. */
  lemma {:induction false} SubsequenceMissingChar(q: string, k: string, c: char)
    requires c in q && c !in k
    ensures !IsSubsequence(q, k)
    decreases |k|
  {
    if |k| > 0 {
      assert c !in k[1..] by { assert k == [k[0]] + k[1..]; }
      if q[0] == k[0] {
        assert c in q[1..] by { assert q == [q[0]] + q[1..]; }
        SubsequenceMissingChar(q[1..], k[1..], c);
      } else {
        SubsequenceMissingChar(q, k[1..], c);
      }
    }
  }

  /** A subsequence is never longer than the string it is drawn from. */
  lemma {:induction false} SubsequenceLength(q: string, k: string)
    requires IsSubsequence(q, k)
    ensures |q| <= |k|
    decreases |k|
  {
    if |q| > 0 {
      if q[0] == k[0] {
        SubsequenceLength(q[1..], k[1..]);
      } else {
        SubsequenceLength(q, k[1..]);
      }
    }
  }
}
