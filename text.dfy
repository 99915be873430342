/** String helpers that the pages use: `trim`, `toLowerCase`, `includes` and the default string order of `sort`. */
module Text {

  /** The white-space characters `trim` removes, limited to the common ones (see README, Left out). */
  predicate IsSpace(c: char) {
    c == ' ' || c == '\t' || c == '\n' || c == '\r' || c == '\U{B}' || c == '\U{C}' || c == '\U{A0}' || c == '\U{FEFF}'
  }

  function TrimStart(s: string): (r: string)
    ensures |r| <= |s| && r == s[|s| - |r|..]
    ensures r == [] || !IsSpace(r[0])
    ensures forall i | 0 <= i < |s| - |r| :: IsSpace(s[i])
  {
    if s != [] && IsSpace(s[0]) then TrimStart(s[1..]) else s
  }

  function TrimEnd(s: string): (r: string)
    ensures |r| <= |s| && r == s[..|r|]
    ensures r == [] || !IsSpace(r[|r| - 1])
    ensures forall i | |r| <= i < |s| :: IsSpace(s[i])
  {
    if s != [] && IsSpace(s[|s| - 1]) then TrimEnd(s[..|s| - 1]) else s
  }

  /** `s.trim()`: the longest infix of `s` that neither starts nor ends with white space. */
  function Trim(s: string): (r: string)
    ensures |r| <= |s| && Contains(s, r)
    ensures r != [] ==> !IsSpace(r[0]) && !IsSpace(r[|r| - 1])
    ensures r == [] <==> forall i | 0 <= i < |s| :: IsSpace(s[i])
    ensures exists k :: TrimmedAt(s, r, k)
  {
    var t := TrimStart(s);
    var r := TrimEnd(t);
    TrimOccurs(s, t, r);
    TrimOnlyEnds(s, t, r);
    TrimEnds(t, r);
    TrimBlank(s, t, r);
    r
  }

  /** `r` sits at `k` in `s`, and everything before and after it is white space. */
  predicate TrimmedAt(s: string, r: string, k: int) {
    && OccursAt(s, r, k)
    && (forall i | 0 <= i < k :: IsSpace(s[i]))
    && (forall i | k + |r| <= i < |s| :: IsSpace(s[i]))
  }

  lemma TrimOnlyEnds(s: string, t: string, r: string)
    requires t == TrimStart(s) && r == TrimEnd(t) && OccursAt(s, r, |s| - |t|)
    ensures TrimmedAt(s, r, |s| - |t|)
  {
    var k := |s| - |t|;
    assert t == s[k..];
    forall i | k + |r| <= i < |s| ensures IsSpace(s[i]) {
      assert s[i] == t[i - k];
    }
  }

  lemma TrimOccurs(s: string, t: string, r: string)
    requires |t| <= |s| && t == s[|s| - |t|..]
    requires |r| <= |t| && r == t[..|r|]
    ensures OccursAt(s, r, |s| - |t|)
  {
    var k := |s| - |t|;
    assert forall i | 0 <= i < |r| :: r[i] == s[k + i];
  }

  lemma TrimEnds(t: string, r: string)
    requires r == TrimEnd(t) && (t == [] || !IsSpace(t[0]))
    ensures r != [] ==> !IsSpace(r[0]) && !IsSpace(r[|r| - 1])
  {
    if r != [] {
      assert r == t[..|r|];
      assert r[0] == t[0];
    }
  }

  lemma TrimBlank(s: string, t: string, r: string)
    requires t == TrimStart(s) && r == TrimEnd(t)
    ensures r == [] <==> forall i | 0 <= i < |s| :: IsSpace(s[i])
  {
    var k := |s| - |t|;
    assert t == s[k..];
    if r == [] {
      forall i | k <= i < |s| ensures IsSpace(s[i]) {
        assert t[i - k] == s[i];
      }
    }
  }

  /** Trimming twice is trimming once. */
  lemma TrimIdempotent(s: string)
    ensures Trim(Trim(s)) == Trim(s)
  {
    var r := Trim(s);
    if r != [] {
      assert TrimStart(r) == r;
      assert TrimEnd(r) == r;
    }
  }

  function LowerChar(c: char): (d: char)
    ensures 'A' <= c <= 'Z' ==> d as int == c as int + 32
    ensures !('A' <= c <= 'Z') ==> d == c
  {
    if 'A' <= c <= 'Z' then (c as int + 32) as char else c
  }

  /** `s.toLowerCase()`, on the ASCII letters. */
  function Lower(s: string): (r: string)
    ensures |r| == |s|
    ensures forall i | 0 <= i < |s| :: r[i] == LowerChar(s[i])
  {
    if s == [] then [] else [LowerChar(s[0])] + Lower(s[1..])
  }

  /** Lower-casing twice is lower-casing once. */
  lemma LowerIdempotent(s: string)
    ensures Lower(Lower(s)) == Lower(s)
  {
  }

  /** `s.includes(part)`: `part` occurs in `s` as a contiguous block. */
  predicate Contains(s: string, part: string) {
    exists i | 0 <= i <= |s| - |part| :: OccursAt(s, part, i)
  }

  /** `part` occurs in `s` starting at index `i`. */
  predicate OccursAt(s: string, part: string, i: int) {
    0 <= i <= |s| - |part| && s[i..i + |part|] == part
  }

  /** The case-insensitive search test the pages use: `text.toLowerCase().includes(query.toLowerCase())`. */
  predicate Matches(text: string, query: string) {
    Contains(Lower(text), Lower(query))
  }

  /** The empty search matches every text, so an empty search box filters nothing out. */
  lemma EmptyQueryMatches(text: string)
    ensures Matches(text, "")
  {
    assert OccursAt(Lower(text), Lower(""), 0);
  }

  /** The search ignores case on both sides: lower-casing the text or the query first changes nothing. */
  lemma MatchesIgnoresCase(text: string, query: string)
    ensures Matches(Lower(text), query) == Matches(text, query)
    ensures Matches(text, Lower(query)) == Matches(text, query)
  {
    LowerIdempotent(text);
    LowerIdempotent(query);
  }

  /** A text matches itself in any case. */
  lemma TextMatchesItself(text: string)
    ensures Matches(text, text)
  {
    assert OccursAt(Lower(text), Lower(text), 0);
  }

  /** The UTF-16 code units of a character: itself below U+10000, otherwise a surrogate pair. */
  function CodeUnits(c: char): (u: seq<int>)
    ensures |u| == 1 <==> c as int < 0x10000
    ensures 1 <= |u| <= 2
    ensures forall i | 0 <= i < |u| :: 0 <= u[i] < 0x10000
    ensures c as int < 0x10000 ==> u == [c as int]
    ensures |u| == 2 ==>
      && 0xD800 <= u[0] < 0xDC00 <= u[1] < 0xE000
      && (u[0] - 0xD800) * 0x400 + (u[1] - 0xDC00) + 0x10000 == c as int
  {
    if c as int < 0x10000 then [c as int]
    else [0xD800 + (c as int - 0x10000) / 0x400, 0xDC00 + (c as int - 0x10000) % 0x400]
  }

  /** A string as JavaScript stores it: the code units of its characters, one after another. */
  function Units(s: string): seq<int> {
    if s == [] then [] else CodeUnits(s[0]) + Units(s[1..])
  }

  /** How `Array.prototype.sort` without a comparator orders strings: code unit by code unit. */
  predicate UnitsLe(u: seq<int>, v: seq<int>) {
    u == [] || (v != [] && (u[0] < v[0] || (u[0] == v[0] && UnitsLe(u[1..], v[1..]))))
  }

  /**
   * A number per character that orders characters as their code units do: the first unit
   * times 0x400, plus the low ten bits of the second unit of a surrogate pair.
   */
  function Utf16Key(c: char): int {
    if c as int < 0x10000 then c as int * 0x400 else 0xD800 * 0x400 + (c as int - 0x10000)
  }

  lemma KeyInjective(a: char, b: char)
    requires Utf16Key(a) == Utf16Key(b)
    ensures a == b
  {
  }

  /** The model's string order: character by character, each compared by its UTF-16 code units. */
  predicate LexLe(a: string, b: string) {
    a == [] || (b != [] && (Utf16Key(a[0]) < Utf16Key(b[0]) || (a[0] == b[0] && LexLe(a[1..], b[1..]))))
  }

  /** Two distinct characters decide the comparison of whatever code units follow them. */
  lemma DistinctCharsDecide(c: char, d: char, x: seq<int>, y: seq<int>)
    requires c != d
    ensures UnitsLe(CodeUnits(c) + x, CodeUnits(d) + y) <==> Utf16Key(c) < Utf16Key(d)
  {
    var u, v := CodeUnits(c) + x, CodeUnits(d) + y;
    if |CodeUnits(c)| == 2 {
      var m := c as int - 0x10000;
      assert m == (m / 0x400) * 0x400 + m % 0x400;
    }
    if |CodeUnits(d)| == 2 {
      var m := d as int - 0x10000;
      assert m == (m / 0x400) * 0x400 + m % 0x400;
    }
    if |CodeUnits(c)| == 2 && |CodeUnits(d)| == 2 && u[0] == v[0] {
      assert u[1..][0] == CodeUnits(c)[1] && v[1..][0] == CodeUnits(d)[1];
      assert UnitsLe(u, v) <==> UnitsLe(u[1..], v[1..]);
      assert UnitsLe(u[1..], v[1..]) <==> CodeUnits(c)[1] < CodeUnits(d)[1];
    }
  }

  lemma {:induction false} CommonPrefix(p: seq<int>, x: seq<int>, y: seq<int>)
    ensures UnitsLe(p + x, p + y) <==> UnitsLe(x, y)
  {
    if p != [] {
      assert (p + x)[1..] == p[1..] + x && (p + y)[1..] == p[1..] + y;
      CommonPrefix(p[1..], x, y);
    } else {
      assert p + x == x && p + y == y;
    }
  }

  /** The model's order is exactly the code-unit order on the strings' UTF-16 form. */
  lemma {:induction false} LexLeIsUnitOrder(a: string, b: string)
    ensures LexLe(a, b) <==> UnitsLe(Units(a), Units(b))
  {
    if a != [] && b != [] {
      if a[0] == b[0] {
        LexLeIsUnitOrder(a[1..], b[1..]);
        CommonPrefix(CodeUnits(a[0]), Units(a[1..]), Units(b[1..]));
      } else {
        DistinctCharsDecide(a[0], b[0], Units(a[1..]), Units(b[1..]));
      }
    }
  }

  /** A character above U+FFFF sorts before U+FF21 (full-width A), as its first code unit is a surrogate. */
  lemma AstralBeforeHighBmp()
    ensures LexLe("\U{1F600}", "\U{FF21}") && !LexLe("\U{FF21}", "\U{1F600}")
  {
  }

  lemma {:induction false} LexTotal(a: string, b: string)
    ensures LexLe(a, b) || LexLe(b, a)
  {
    if a != [] && b != [] {
      if a[0] == b[0] {
        LexTotal(a[1..], b[1..]);
      } else if Utf16Key(a[0]) == Utf16Key(b[0]) {
        KeyInjective(a[0], b[0]);
      }
    }
  }

  lemma {:induction false} LexAntisymmetric(a: string, b: string)
    requires LexLe(a, b) && LexLe(b, a)
    ensures a == b
  {
    if a != [] && b != [] {
      LexAntisymmetric(a[1..], b[1..]);
      assert a == [a[0]] + a[1..] && b == [b[0]] + b[1..];
    }
  }

  lemma {:induction false} LexTransitive(a: string, b: string, c: string)
    requires LexLe(a, b) && LexLe(b, c)
    ensures LexLe(a, c)
  {
    if a != [] && b != [] && c != [] && a[0] == b[0] && b[0] == c[0] {
      LexTransitive(a[1..], b[1..], c[1..]);
    }
  }

  predicate Sorted(xs: seq<string>) {
    forall i, j | 0 <= i < j < |xs| :: LexLe(xs[i], xs[j])
  }

  function Insert(x: string, xs: seq<string>): (r: seq<string>)
    requires Sorted(xs)
    ensures Sorted(r)
    ensures multiset(r) == multiset(xs) + multiset{x}
  {
    if xs == [] then [x]
    else if LexLe(x, xs[0]) then
      InsertFront(x, xs);
      [x] + xs
    else
      var rest := Insert(x, xs[1..]);
      InsertBehind(x, xs, rest);
      [xs[0]] + rest
  }

  lemma InsertFront(x: string, xs: seq<string>)
    requires Sorted(xs) && xs != [] && LexLe(x, xs[0])
    ensures Sorted([x] + xs)
  {
    forall j | 0 < j < |xs| ensures LexLe(x, xs[j]) { LexTransitive(x, xs[0], xs[j]); }
  }

  lemma InsertBehind(x: string, xs: seq<string>, rest: seq<string>)
    requires Sorted(xs) && xs != [] && !LexLe(x, xs[0])
    requires Sorted(rest) && multiset(rest) == multiset(xs[1..]) + multiset{x}
    ensures Sorted([xs[0]] + rest)
    ensures multiset([xs[0]] + rest) == multiset(xs) + multiset{x}
  {
    LexTotal(x, xs[0]);
    assert xs == [xs[0]] + xs[1..];
    forall y | y in rest ensures LexLe(xs[0], y) {
      assert y in multiset(rest);
    }
  }

  /** `xs.sort()` on strings: sorted, and a permutation of the input. */
  function Sort(xs: seq<string>): (r: seq<string>)
    ensures Sorted(r)
    ensures multiset(r) == multiset(xs)
  {
    if xs == [] then []
    else
      assert xs == [xs[0]] + xs[1..];
      Insert(xs[0], Sort(xs[1..]))
  }
}
