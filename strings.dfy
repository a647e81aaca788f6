/** The Python string built-ins the generator and the demo providers are made of:
    `sub in s`, `str.lower`, `str.strip`, `str.split`, `str.join`, `str.replace`,
    `str.endswith` and `str(n)` for a natural number. */
module Strings {

  // ---------------------------------------------------------------------------
  // Substrings: Python's `sub in s`
  // ---------------------------------------------------------------------------

  /** `sub` occurs in `s` starting at index `i`. */
  predicate OccursAt(s: string, sub: string, i: int) {
    0 <= i && i + |sub| <= |s| && s[i..i + |sub|] == sub
  }

  /** Python's `sub in s`. */
  predicate Contains(s: string, sub: string) {
    exists i | 0 <= i <= |s| - |sub| :: OccursAt(s, sub, i)
  }

  /** Python's `s.endswith(suffix)`. */
  predicate EndsWith(s: string, suffix: string) {
    |suffix| <= |s| && s[|s| - |suffix|..] == suffix
  }

  /** Python's `s.startswith(prefix)`. */
  predicate StartsWith(s: string, prefix: string) {
    |prefix| <= |s| && s[..|prefix|] == prefix
  }

  /** A text holds `sub` iff it starts with `sub` or its tail holds `sub`; an occurrence at
      a later index is an occurrence in the tail, one place earlier. */
  lemma ContainsShift(s: string, sub: string)
    requires |s| > 0 && |sub| > 0
    ensures forall j :: 1 <= j ==> (OccursAt(s, sub, j) <==> OccursAt(s[1..], sub, j - 1))
    ensures Contains(s, sub) <==> OccursAt(s, sub, 0) || Contains(s[1..], sub)
  {
    forall j | 1 <= j ensures OccursAt(s, sub, j) <==> OccursAt(s[1..], sub, j - 1) {
      if j + |sub| <= |s| {
        assert s[1..][j - 1..j - 1 + |sub|] == s[j..j + |sub|];
      }
    }
    if Contains(s, sub) && !OccursAt(s, sub, 0) {
      var i :| 0 <= i <= |s| - |sub| && OccursAt(s, sub, i);
      assert OccursAt(s[1..], sub, i - 1);
    }
    if Contains(s[1..], sub) {
      var i :| 0 <= i <= |s| - 1 - |sub| && OccursAt(s[1..], sub, i);
      assert OccursAt(s, sub, i + 1);
    }
  }

  /** Whatever stands between `a` and `c` is a substring of the whole. */
  lemma ContainsInfix(a: string, b: string, c: string)
    ensures Contains(a + b + c, b)
  {
    assert OccursAt(a + b + c, b, |a|);
  }

  /** A substring of a substring is a substring. */
  lemma ContainsTransitive(s: string, t: string, u: string)
    requires Contains(s, t) && Contains(t, u)
    ensures Contains(s, u)
  {
    var i :| 0 <= i <= |s| - |t| && OccursAt(s, t, i);
    var j :| 0 <= j <= |t| - |u| && OccursAt(t, u, j);
    var w := s[i + j..i + j + |u|];
    forall k | 0 <= k < |u| ensures w[k] == u[k] {
      assert w[k] == s[i + j + k] == s[i..i + |t|][j + k];
      assert u[k] == t[j..j + |u|][k] == t[j + k];
    }
    assert w == u;
    assert OccursAt(s, u, i + j);
  }

  /** An occurrence in one operand of a concatenation is an occurrence in the whole. */
  lemma ContainsInConcat(a: string, b: string, u: string)
    requires Contains(a, u) || Contains(b, u)
    ensures Contains(a + b, u)
  {
    if Contains(a, u) {
      ContainsInfix([], a, b);
      assert [] + a + b == a + b;
      ContainsTransitive(a + b, a, u);
    } else {
      ContainsInfix(a, b, []);
      assert a + b + [] == a + b;
      ContainsTransitive(a + b, b, u);
    }
  }

  /** Every character of a substring is a character of the text. */
  lemma ContainsChar(s: string, sub: string, k: nat)
    requires Contains(s, sub) && k < |sub|
    ensures sub[k] in s
  {
    var i :| 0 <= i <= |s| - |sub| && OccursAt(s, sub, i);
    assert s[i + k] == s[i..i + |sub|][k];
  }

  // ---------------------------------------------------------------------------
  // Case: Python's `str.lower()` on ASCII letters
  // ---------------------------------------------------------------------------

  function LowerChar(c: char): char {
    if 'A' <= c <= 'Z' then (c as int + 32) as char else c
  }

  /** Python's `s.lower()`, restricted to the ASCII letters. */
  function Lower(s: string): (r: string)
    ensures |r| == |s|
    ensures forall i :: 0 <= i < |s| ==> r[i] == LowerChar(s[i])
  {
    seq(|s|, i requires 0 <= i < |s| => LowerChar(s[i]))
  }

  /** Lower-casing a lower-case string changes nothing, so lowering is idempotent. */
  lemma LowerIdempotent(s: string)
    ensures Lower(Lower(s)) == Lower(s)
  {
  }

  /** Lower-casing works character by character, so it distributes over concatenation. */
  lemma LowerConcat(a: string, b: string)
    ensures Lower(a + b) == Lower(a) + Lower(b)
  {
  }

  /** An occurrence survives lower-casing: `t in s` implies `t.lower() in s.lower()`. */
  lemma ContainsLowered(s: string, t: string)
    requires Contains(s, t)
    ensures Contains(Lower(s), Lower(t))
  {
    var i :| 0 <= i <= |s| - |t| && OccursAt(s, t, i);
    assert Lower(s)[i..i + |t|] == Lower(s[i..i + |t|]);
    assert OccursAt(Lower(s), Lower(t), i);
  }

  // ---------------------------------------------------------------------------
  // Blank strings: Python's `not s.strip()`
  // ---------------------------------------------------------------------------

  /** Python's `c.isspace()`: the full set of characters `str.strip()` removes. */
  predicate IsSpace(c: char) {
    || ('\t' <= c <= '\r') || ('\U{1C}' <= c <= '\U{20}')
    || c == '\U{85}' || c == '\U{A0}' || c == '\U{1680}' || ('\U{2000}' <= c <= '\U{200A}')
    || c == '\U{2028}' || c == '\U{2029}' || c == '\U{202F}' || c == '\U{205F}' || c == '\U{3000}'
  }

  /** `s.strip()` is empty exactly when every character of `s` is white space. */
  predicate IsBlank(s: string) {
    forall i :: 0 <= i < |s| ==> IsSpace(s[i])
  }

  // ---------------------------------------------------------------------------
  // Python's `s.split(sep)` and `sep.join(xs)` for a one-character separator
  // ---------------------------------------------------------------------------

  /** Python's `s.split(sep)`: the pieces between separators, so never empty (`"".split` is `[""]`). */
  function Split(s: string, sep: char): (r: seq<string>)
    ensures |r| >= 1
  {
    if s == [] then [""]
    else if s[0] == sep then [""] + Split(s[1..], sep)
    else
      var rest := Split(s[1..], sep);
      [[s[0]] + rest[0]] + rest[1..]
  }

  /** Python's `sep.join(xs)`. */
  function Join(xs: seq<string>, sep: char): string {
    if |xs| == 0 then ""
    else if |xs| == 1 then xs[0]
    else xs[0] + [sep] + Join(xs[1..], sep)
  }

  /** The last piece of a split: `s.split(sep)[-1]`. */
  function LastPiece(s: string, sep: char): string {
    var pieces := Split(s, sep);
    pieces[|pieces| - 1]
  }

  /** The last piece of a split is the suffix after the last separator: the whole text
      when there is no separator at all. */
  lemma {:induction false} LastPieceSuffix(s: string, sep: char)
    ensures EndsWith(s, LastPiece(s, sep))
    ensures |LastPiece(s, sep)| < |s| ==> s[|s| - |LastPiece(s, sep)| - 1] == sep
    ensures |Split(s, sep)| == 1 ==> LastPiece(s, sep) == s
    ensures |Split(s, sep)| > 1 ==> |LastPiece(s, sep)| < |s|
  {
    if s != [] {
      var rest := Split(s[1..], sep);
      LastPieceSuffix(s[1..], sep);
      if s[0] == sep {
        assert LastPiece(s, sep) == LastPiece(s[1..], sep);
        SuffixOfTail(s, LastPiece(s[1..], sep), sep);
      } else if |rest| == 1 {
        assert LastPiece(s, sep) == [s[0]] + s[1..];
      } else {
        assert LastPiece(s, sep) == LastPiece(s[1..], sep);
        SuffixOfTail(s, LastPiece(s[1..], sep), sep);
      }
    }
  }

  /** A suffix of the tail is a suffix of the text, and what precedes it stays in place. */
  lemma SuffixOfTail(s: string, x: string, sep: char)
    requires |s| > 0 && EndsWith(s[1..], x)
    ensures EndsWith(s, x)
    ensures |x| < |s| - 1 && s[1..][|s| - 1 - |x| - 1] == sep ==> s[|s| - |x| - 1] == sep
  {
    assert s[|s| - |x|..] == s[1..][|s| - 1 - |x|..];
  }

  /** No piece of a split contains the separator, and every piece is a substring of the input. */
  lemma {:induction false} SplitPiece(s: string, sep: char, k: nat)
    requires k < |Split(s, sep)|
    ensures sep !in Split(s, sep)[k]
    ensures Contains(s, Split(s, sep)[k])
  {
    assert OccursAt(s, "", 0);
    if s != [] {
      var rest := Split(s[1..], sep);
      assert OccursAt(s, s[1..], 1);
      if s[0] == sep && k > 0 {
        SplitPiece(s[1..], sep, k - 1);
        ContainsTransitive(s, s[1..], rest[k - 1]);
      } else if s[0] != sep && k == 0 {
        SplitPiece(s[1..], sep, 0);
        FirstPieceIsPrefix(s[1..], sep);
        assert s[..1 + |rest[0]|] == [s[0]] + rest[0];
        assert OccursAt(s, Split(s, sep)[0], 0);
      } else if s[0] != sep {
        SplitPiece(s[1..], sep, k);
        ContainsTransitive(s, s[1..], rest[k]);
      }
    }
  }

  /** The first piece of a split is a prefix of the input. */
  lemma {:induction false} FirstPieceIsPrefix(s: string, sep: char)
    ensures StartsWith(s, Split(s, sep)[0])
  {
    if s != [] && s[0] != sep {
      FirstPieceIsPrefix(s[1..], sep);
    }
  }

  /** Splitting at a separator the text does not hold gives the text back as the only piece. */
  lemma {:induction false} SplitWithoutSep(s: string, sep: char)
    requires sep !in s
    ensures Split(s, sep) == [s]
  {
    if s != [] {
      SplitWithoutSep(s[1..], sep);
      assert [s[0]] + s[1..] == s;
    }
  }

  /** Splitting distributes over a separator: `(a + sep + b).split(sep) == a.split(sep) + b.split(sep)`. */
  lemma {:induction false} SplitConcat(a: string, b: string, sep: char)
    ensures Split(a + [sep] + b, sep) == Split(a, sep) + Split(b, sep)
  {
    if a == [] {
      assert a + [sep] + b == [sep] + b;
      assert ([sep] + b)[1..] == b;
    } else {
      assert (a + [sep] + b)[0] == a[0];
      assert (a + [sep] + b)[1..] == a[1..] + [sep] + b;
      SplitConcat(a[1..], b, sep);
    }
  }

  /** Join then split gives the list back, when no item holds the separator and the list is
      not empty (`"".split(sep)` is `[""]`, not `[]`). */
  lemma {:induction false} SplitJoin(xs: seq<string>, sep: char)
    requires |xs| > 0
    requires forall k :: 0 <= k < |xs| ==> sep !in xs[k]
    ensures Split(Join(xs, sep), sep) == xs
  {
    if |xs| == 1 {
      SplitWithoutSep(xs[0], sep);
    } else {
      SplitJoin(xs[1..], sep);
      SplitConcat(xs[0], Join(xs[1..], sep), sep);
      SplitWithoutSep(xs[0], sep);
      assert [xs[0]] + xs[1..] == xs;
    }
  }

  /** Split then join gives the text back, whatever it holds. */
  lemma {:induction false} JoinSplit(s: string, sep: char)
    ensures Join(Split(s, sep), sep) == s
  {
    if s != [] {
      JoinSplit(s[1..], sep);
      var rest := Split(s[1..], sep);
      if s[0] == sep {
        assert Split(s, sep) == [""] + rest;
        assert ([""] + rest)[1..] == rest;
        assert s == [sep] + s[1..];
      } else {
        assert Split(s, sep) == [[s[0]] + rest[0]] + rest[1..];
        if |rest| == 1 {
          assert [s[0]] + rest[0] == s;
        } else {
          assert ([[s[0]] + rest[0]] + rest[1..])[1..] == rest[1..];
          assert Join(rest, sep) == rest[0] + [sep] + Join(rest[1..], sep);
          assert s == [s[0]] + s[1..];
        }
      }
    }
  }

  /** `[prefix + x for x in items]`: each item behind the same prefix, in order. */
  function PrefixEach(prefix: string, items: seq<string>): (r: seq<string>)
    ensures |r| == |items|
    ensures forall k :: 0 <= k < |r| ==> r[k] == prefix + items[k]
  {
    seq(|items|, k requires 0 <= k < |items| => prefix + items[k])
  }

  // ---------------------------------------------------------------------------
  // Python's `s.replace(pat, "")`
  // ---------------------------------------------------------------------------

  /** Python's `s.replace(pat, "")`: removes the non-overlapping occurrences of a non-empty
      `pat`, scanning from the left. Only characters of `s` survive and none is added. */
  function RemoveAll(s: string, pat: string): (r: string)
    requires |pat| > 0
    ensures |r| <= |s|
    ensures forall c :: c in r ==> c in s
    ensures Contains(s, pat) <==> |r| < |s|
    ensures !Contains(s, pat) ==> r == s
    decreases |s|
  {
    if |s| < |pat| then s
    else if s[..|pat|] == pat then
      assert OccursAt(s, pat, 0);
      RemoveAll(s[|pat|..], pat)
    else
      ContainsShift(s, pat);
      assert !OccursAt(s, pat, 0);
      [s[0]] + RemoveAll(s[1..], pat)
  }

  /** Python's `s.find(sub)`: the leftmost index where `sub` occurs, or -1. */
  function Find(s: string, sub: string): (r: int)
    requires |sub| > 0
    ensures r == -1 || 0 <= r <= |s| - |sub|
    ensures r == -1 ==> !Contains(s, sub)
    ensures r >= 0 ==> OccursAt(s, sub, r)
    decreases |s|
  {
    if |s| < |sub| then -1
    else if s[..|sub|] == sub then
      assert OccursAt(s, sub, 0);
      0
    else
      ContainsShift(s, sub);
      assert !OccursAt(s, sub, 0);
      var k := Find(s[1..], sub);
      if k == -1 then -1 else k + 1
  }

  /** Removal the way a find loop does it: keep what precedes the leftmost occurrence, drop
      that occurrence, and carry on after it. */
  function RemoveByFind(s: string, pat: string): string
    requires |pat| > 0
    decreases |s|
  {
    var i := Find(s, pat);
    if i < 0 then s else s[..i] + RemoveByFind(s[i + |pat|..], pat)
  }

  /** A text that does not start with `sub` finds it one place later than its tail does. */
  lemma FindStep(s: string, sub: string)
    requires 0 < |sub| <= |s| && s[..|sub|] != sub
    ensures Find(s, sub) == if Find(s[1..], sub) == -1 then -1 else Find(s[1..], sub) + 1
  {
  }

  /** No occurrence of `sub` comes before the one `Find` reports. */
  lemma {:induction false} FindLeftmost(s: string, sub: string)
    requires |sub| > 0
    ensures Find(s, sub) >= 0 ==> forall j :: 0 <= j < Find(s, sub) ==> !OccursAt(s, sub, j)
    decreases |s|
  {
    if |s| >= |sub| && s[..|sub|] != sub {
      FindLeftmost(s[1..], sub);
      ContainsShift(s, sub);
    }
  }

  /** One step of the find loop, at the leftmost occurrence `i`: what precedes it is kept
      and the loop carries on with `rest`, the text after it. */
  lemma RemoveByFindAt(s: string, pat: string, i: int, rest: string)
    requires |pat| > 0 && i >= 0 && Find(s, pat) == i && i + |pat| <= |s|
    requires rest == s[i + |pat|..]
    ensures RemoveByFind(s, pat) == s[..i] + RemoveByFind(rest, pat)
  {
    RemoveByFindUnfold(s, pat, i);
  }

  /** `RemoveByFind`'s recursive case, when the leftmost occurrence is at `i`. */
  lemma RemoveByFindUnfold(s: string, pat: string, i: int)
    requires |pat| > 0 && i >= 0 && Find(s, pat) == i
    ensures i + |pat| <= |s|
    ensures RemoveByFind(s, pat) == s[..i] + RemoveByFind(s[i + |pat|..], pat)
  {
  }

  /** The left-to-right scan removes exactly what the find loop removes: the leftmost
      occurrence, then the leftmost occurrence of what follows it, and so on. */
  lemma {:induction false} RemoveAllByFind(s: string, pat: string)
    requires |pat| > 0
    ensures RemoveAll(s, pat) == RemoveByFind(s, pat)
    decreases |s|
  {
    if |s| < |pat| {
    } else if s[..|pat|] == pat {
      RemoveAllByFind(s[|pat|..], pat);
      assert s[..0] + RemoveByFind(s[|pat|..], pat) == RemoveByFind(s[|pat|..], pat);
    } else {
      RemoveAllByFind(s[1..], pat);
      RemoveByFindMiss(s, pat);
    }
  }

  /** A text that does not start with `pat` keeps its first character under the find loop. */
  lemma RemoveByFindMiss(s: string, pat: string)
    requires 0 < |pat| <= |s| && s[..|pat|] != pat
    ensures RemoveByFind(s, pat) == [s[0]] + RemoveByFind(s[1..], pat)
  {
    var t := s[1..];
    var k := Find(t, pat);
    FindStep(s, pat);
    if k >= 0 {
      TailSlices(s, k, k + |pat|);
      var rest := s[k + 1 + |pat|..];
      RemoveByFindAt(t, pat, k, rest);
      RemoveByFindAt(s, pat, k + 1, rest);
      ConsGlue(RemoveByFind(s, pat), RemoveByFind(t, pat), s[..k + 1], s[0], t[..k], RemoveByFind(rest, pat));
    } else {
      TailSlices(s, |s| - 1, |s| - 1);
    }
  }

  /** Putting a character in front of both halves of a concatenation. */
  lemma ConsGlue(x: string, y: string, a: string, c: char, b: string, r: string)
    requires x == a + r && a == [c] + b && y == b + r
    ensures x == [c] + y
  {
  }

  /** Slices of a text's tail are slices of the text, one place later. */
  lemma TailSlices(s: string, k: nat, j: nat)
    requires k <= j < |s|
    ensures [s[0]] + s[1..][..k] == s[..k + 1]
    ensures s[1..][j..] == s[j + 1..]
    ensures [s[0]] + s[1..] == s
  {
  }

  /** When the first character of `pat` does not occur in `s`, removing `pat` from `s + pat`
      leaves exactly `s`: this is how `"Person.cpp".replace(".cpp", "")` gives `"Person"`. */
  lemma {:induction false} RemoveAllSuffix(s: string, pat: string)
    requires |pat| > 0 && pat[0] !in s
    ensures RemoveAll(s + pat, pat) == s
  {
    if s == [] {
      assert (s + pat)[..|pat|] == pat;
      assert (s + pat)[|pat|..] == [];
    } else {
      assert (s + pat)[0] == s[0] != pat[0];
      assert (s + pat)[..|pat|] != pat by {
        assert (s + pat)[..|pat|][0] == s[0];
      }
      assert (s + pat)[1..] == s[1..] + pat;
      RemoveAllSuffix(s[1..], pat);
    }
  }

  /** A text that does not start with `pat` keeps its first character. */
  lemma RemoveAllMiss(s: string, pat: string, i: nat)
    requires 0 < |pat| <= |s| && i < |pat| && s[i] != pat[i]
    ensures RemoveAll(s, pat) == [s[0]] + RemoveAll(s[1..], pat)
  {
    assert s[..|pat|][i] != pat[i];
  }

  /** A prefix that cannot start an occurrence of `pat` is kept as it is. */
  lemma {:induction false} RemoveAllPrefix(s: string, t: string, pat: string)
    requires |pat| > 0 && pat[0] !in s
    ensures RemoveAll(s + t, pat) == s + RemoveAll(t, pat)
  {
    var u := s + t;
    if s == [] {
      assert u == t;
    } else if |u| >= |pat| {
      assert u[0] == s[0];
      RemoveAllMiss(u, pat, 0);
      assert u[1..] == s[1..] + t;
      RemoveAllPrefix(s[1..], t, pat);
      ConsAppend(s, RemoveAll(t, pat));
    }
  }

  /** A non-empty text is its first character followed by the rest, whatever follows it. */
  lemma ConsAppend(s: string, r: string)
    requires |s| > 0
    ensures [s[0]] + (s[1..] + r) == s + r
  {
    assert [s[0]] + s[1..] == s;
  }

  /** When the first character of `pat` does not occur in `s`, there is nothing to remove. */
  lemma {:induction false} RemoveAllAbsent(s: string, pat: string)
    requires |pat| > 0 && pat[0] !in s
    ensures RemoveAll(s, pat) == s
  {
    if |s| >= |pat| {
      assert s[..|pat|][0] == s[0];
      RemoveAllAbsent(s[1..], pat);
    }
  }

  // ---------------------------------------------------------------------------
  // Positions and numbers
  // ---------------------------------------------------------------------------

  /** Python's `s.rfind(c)`: the last index holding `c`, or -1. */
  function LastIndexOf(s: string, c: char): (r: int)
    ensures -1 <= r < |s|
    ensures r == -1 <==> c !in s
    ensures r >= 0 ==> s[r] == c && c !in s[r + 1..]
  {
    if s == [] then -1
    else if s[|s| - 1] == c then |s| - 1
    else
      var r := LastIndexOf(s[..|s| - 1], c);
      assert s[r + 1..] == s[..|s| - 1][r + 1..] + [s[|s| - 1]];
      r
  }

  /** A position holding `c` with no `c` after it is what `rfind` finds. */
  lemma LastIndexOfAt(s: string, c: char, i: nat)
    requires i < |s| && s[i] == c && c !in s[i + 1..]
    ensures LastIndexOf(s, c) == i
  {
  }

  function DigitChar(d: nat): char
    requires d < 10
  {
    ['0', '1', '2', '3', '4', '5', '6', '7', '8', '9'][d]
  }

  predicate IsDigit(c: char) {
    '0' <= c <= '9'
  }

  /** Python's `str(n)` for a natural number: its decimal digits, most significant first. */
  function NatToString(n: nat): (r: string)
    ensures |r| > 0
    ensures forall i :: 0 <= i < |r| ==> IsDigit(r[i])
    ensures r[0] == '0' ==> n == 0
  {
    if n < 10 then [DigitChar(n)] else NatToString(n / 10) + [DigitChar(n % 10)]
  }

  function DigitValue(c: char): nat
    requires IsDigit(c)
  {
    c as int - '0' as int
  }

  /** Python's `int(s)` for a string of decimal digits. */
  function ParseNat(s: string): nat
    requires forall i :: 0 <= i < |s| ==> IsDigit(s[i])
  {
    if s == [] then 0
    else 10 * ParseNat(s[..|s| - 1]) + DigitValue(s[|s| - 1])
  }

  /** Reading a rendered number back gives the number: `int(str(n)) == n`. */
  lemma {:induction false} ParseNatToString(n: nat)
    ensures ParseNat(NatToString(n)) == n
  {
    if n >= 10 {
      var s := NatToString(n);
      ParseNatToString(n / 10);
      assert s[..|s| - 1] == NatToString(n / 10);
    }
  }

  // ---------------------------------------------------------------------------
  // Texts assembled from pieces
  // ---------------------------------------------------------------------------

  /** The pieces of a text, one after the other: `"".join(parts)`. */
  function Concat(parts: seq<string>): string {
    if parts == [] then "" else parts[0] + Concat(parts[1..])
  }

  /** The first two parts, then the rest. */
  lemma ConcatFirstTwo(parts: seq<string>)
    requires |parts| >= 2
    ensures Concat(parts) == parts[0] + (parts[1] + Concat(parts[2..]))
  {
    assert parts[1..][1..] == parts[2..];
  }

  /** Every piece occurs in the text it is part of. */
  lemma {:induction false} ConcatContainsPart(parts: seq<string>, k: nat)
    requires k < |parts|
    ensures Contains(Concat(parts), parts[k])
  {
    if k == 0 {
      ContainsInfix([], parts[0], Concat(parts[1..]));
      assert [] + parts[0] + Concat(parts[1..]) == Concat(parts);
    } else {
      ConcatContainsPart(parts[1..], k - 1);
      ContainsInConcat(parts[0], Concat(parts[1..]), parts[k]);
    }
  }
}
