/**
  * The few Python string operations the engine and tracker rely on, over
  * `seq<char>`: `str.isspace` / `str.isdigit` on single characters,
  * `str.strip()`, `str.split("\n")`, `str.split()` (whitespace runs),
  * `" | ".join(...)`, `"x" * n`, and Python's code-point order on strings.
  */
module Text {

  /** The characters Python's `str.isspace` accepts (and `str.split()` / `str.strip()` cut at). */
  predicate IsSpace(c: char) {
    var n := c as int;
    (9 <= n <= 13) || (28 <= n <= 32) || n == 0x85 || n == 0xA0 || n == 0x1680 ||
    (0x2000 <= n <= 0x200A) || n == 0x2028 || n == 0x2029 || n == 0x202F ||
    n == 0x205F || n == 0x3000
  }

  /** An ASCII decimal digit, the only digits the model gives `\d` and `str.isdigit`. */
  predicate IsDigit(c: char) {
    '0' <= c <= '9'
  }

  predicate AllDigits(s: string) {
    forall i :: 0 <= i < |s| ==> IsDigit(s[i])
  }

  predicate NoDigits(s: string) {
    forall i :: 0 <= i < |s| ==> !IsDigit(s[i])
  }

  predicate NoSpaces(s: string) {
    forall i :: 0 <= i < |s| ==> !IsSpace(s[i])
  }

  /** `s.rstrip()`: drops the trailing whitespace and nothing else. */
  function TrimRight(s: string): (r: string)
    ensures |r| <= |s| && r == s[..|r|]
    ensures r == [] || !IsSpace(r[|r| - 1])
    ensures forall i :: |r| <= i < |s| ==> IsSpace(s[i])
  {
    if |s| == 0 || !IsSpace(s[|s| - 1]) then s else TrimRight(s[..|s| - 1])
  }

  /** The number of whitespace characters `s` starts with. */
  function Lead(s: string): (n: nat)
    ensures n <= |s| && (n == |s| || !IsSpace(s[n]))
    ensures forall i :: 0 <= i < n ==> IsSpace(s[i])
  {
    if |s| == 0 || !IsSpace(s[0]) then 0 else 1 + Lead(s[1..])
  }

  /** `s.strip()`: a slice of `s` with no whitespace at either end, only whitespace cut off. */
  function Strip(s: string): (r: string)
    ensures Lead(s) + |r| <= |s| && r == s[Lead(s)..Lead(s) + |r|]
    ensures r == [] || (!IsSpace(r[0]) && !IsSpace(r[|r| - 1]))
    ensures forall i :: Lead(s) + |r| <= i < |s| ==> IsSpace(s[i])
    ensures r == [] <==> forall i :: 0 <= i < |s| ==> IsSpace(s[i])
  {
    TrimRight(s[Lead(s)..])
  }

  /** Joins `parts` with `sep` between consecutive parts, as `sep.join(parts)`. */
  function Join(parts: seq<string>, sep: string): string {
    if parts == [] then []
    else if |parts| == 1 then parts[0]
    else parts[0] + sep + Join(parts[1..], sep)
  }

  /** `s.split(sep)` for a one-character separator. */
  function SplitOn(s: string, sep: char): (parts: seq<string>)
    ensures |parts| >= 1
    ensures |parts| >= 2 <==> sep in s
    ensures forall k :: 0 <= k < |parts| ==> sep !in parts[k]
    ensures Join(parts, [sep]) == s
    decreases |s|
  {
    if sep !in s then [s]
    else
      var i := FirstIndex(s, sep);
      [s[..i]] + SplitOn(s[i + 1..], sep)
  }

  /** The position of the first `c` in `s`. */
  function FirstIndex(s: string, c: char): (i: nat)
    requires c in s
    ensures i < |s| && s[i] == c && c !in s[..i]
  {
    if s[0] == c then 0 else 1 + FirstIndex(s[1..], c)
  }

  /** Length of the longest prefix of `s` without whitespace. */
  function WordLength(s: string): (n: nat)
    ensures n <= |s| && NoSpaces(s[..n]) && (n == |s| || IsSpace(s[n]))
  {
    if |s| == 0 || IsSpace(s[0]) then 0 else 1 + WordLength(s[1..])
  }

  /** Every element is a non-empty run without whitespace. */
  predicate AreWords(words: seq<string>) {
    forall k :: 0 <= k < |words| ==> words[k] != [] && NoSpaces(words[k])
  }

  /** `s.split()`: the maximal whitespace-free runs of `s`, in order. */
  function Tokens(s: string): (words: seq<string>)
    ensures AreWords(words)
    ensures words == [] <==> Lead(s) == |s|
    decreases |s|
  {
    if |s| == 0 then []
    else if IsSpace(s[0]) then Tokens(s[1..])
    else
      var n := WordLength(s);
      var rest := Tokens(s[n..]);
      assert forall k :: 1 <= k < |rest| + 1 ==> ([s[..n]] + rest)[k] == rest[k - 1];
      [s[..n]] + rest
  }

  /** `s.split()` of a single word is that word. */
  lemma TokensOfWord(w: string)
    requires w != [] && NoSpaces(w)
    ensures Tokens(w) == [w]
  {
    WordLengthAppend(w, []);
    assert w + [] == w;
    assert w[|w|..] == [];
  }

  /** A whitespace-free prefix followed by more text keeps its word length, as long as the word ends inside it or at a space. */
  lemma {:induction false} WordLengthAppend(a: string, x: string)
    requires WordLength(a) < |a| || x == [] || IsSpace(x[0])
    ensures WordLength(a + x) == WordLength(a)
    decreases |a|
  {
    if |a| > 0 && !IsSpace(a[0]) {
      assert (a + x)[1..] == a[1..] + x;
      WordLengthAppend(a[1..], x);
    }
  }

  /** `s.split()` cuts at every whitespace character: the words on either side are kept, in order, and nothing else. */
  lemma TokensSplitAtSpace(a: string, c: char, b: string)
    requires IsSpace(c)
    ensures Tokens(a + [c] + b) == Tokens(a) + Tokens(b)
  {
    var x := [c] + b;
    assert a + [c] + b == a + x && x[1..] == b;
    TokensJoin(a, x);
    SpaceFirst(x);
  }

  /** The words of `a + x`, where `x` starts with whitespace, are those of `a` and then those of `x`. */
  lemma {:induction false} TokensJoin(a: string, x: string)
    requires |x| > 0 && IsSpace(x[0])
    ensures Tokens(a + x) == Tokens(a) + Tokens(x)
    decreases |a|, 1
  {
    if |a| == 0 {
      assert a + x == x;
    } else if IsSpace(a[0]) {
      JoinAfterSpace(a, x);
    } else {
      JoinAfterWord(a, x);
    }
  }

  /** The step of `TokensJoin` when `a` starts with whitespace. */
  lemma {:induction false} JoinAfterSpace(a: string, x: string)
    requires |x| > 0 && IsSpace(x[0])
    requires |a| > 0 && IsSpace(a[0])
    ensures Tokens(a + x) == Tokens(a) + Tokens(x)
    decreases |a|, 0
  {
    TokensJoin(a[1..], x);
    SpaceStep(a, x, Tokens(x));
  }

  /** The step of `TokensJoin` when `a` starts with a word. */
  lemma {:induction false} JoinAfterWord(a: string, x: string)
    requires |x| > 0 && IsSpace(x[0])
    requires |a| > 0 && !IsSpace(a[0])
    ensures Tokens(a + x) == Tokens(a) + Tokens(x)
    decreases |a|, 0
  {
    var m := WordLength(a);
    WordLengthAppend(a, x);
    if m < |a| {
      TokensJoin(a[m..], x);
      InnerWord(a, x, m, Tokens(x));
    } else {
      LastWord(a, x);
    }
  }

  /** `split()` skips a leading whitespace character. */
  lemma SpaceFirst(s: string)
    requires |s| > 0 && IsSpace(s[0])
    ensures Tokens(s) == Tokens(s[1..])
  {
  }

  /** When `a` starts with whitespace, so does `a + rest`, and both skip it. */
  lemma SpaceStep(a: string, rest: string, after: seq<string>)
    requires |a| > 0 && IsSpace(a[0])
    requires Tokens(a[1..] + rest) == Tokens(a[1..]) + after
    ensures Tokens(a + rest) == Tokens(a) + after
  {
    assert (a + rest)[0] == a[0] && (a + rest)[1..] == a[1..] + rest;
    SpaceFirst(a + rest);
    SpaceFirst(a);
  }

  /** When `a` starts with a word that ends inside it, that word comes first on both sides. */
  lemma InnerWord(a: string, rest: string, m: nat, after: seq<string>)
    requires |a| > 0 && !IsSpace(a[0]) && m == WordLength(a) < |a|
    requires WordLength(a + rest) == m
    requires Tokens(a[m..] + rest) == Tokens(a[m..]) + after
    ensures Tokens(a + rest) == Tokens(a) + after
  {
    SliceAround(a, rest, m);
    TokensOfWordFirst(a + rest);
    TokensOfWordFirst(a);
  }

  lemma SliceAround(a: string, x: string, m: nat)
    requires m <= |a|
    ensures (a + x)[..m] == a[..m] && (a + x)[m..] == a[m..] + x
  {
  }

  /** `s.split()` on text that starts with a word: that word, then the words of the rest. */
  lemma TokensOfWordFirst(s: string)
    requires |s| > 0 && !IsSpace(s[0])
    ensures Tokens(s) == [s[..WordLength(s)]] + Tokens(s[WordLength(s)..])
  {
  }

  /** When all of `a` is one word, the words of `a + x` are `a` and then those of `x`. */
  lemma LastWord(a: string, x: string)
    requires |a| > 0 && !IsSpace(a[0]) && WordLength(a) == |a|
    requires WordLength(a + x) == |a|
    ensures Tokens(a + x) == Tokens(a) + Tokens(x)
  {
    assert Tokens(a) == [a] by {
      TokensOfWordFirst(a);
      assert a[..|a|] == a;
      assert |a[|a|..]| == 0;
    }
    assert Tokens(a + x) == [a] + Tokens(x) by {
      SliceAround(a, x, |a|);
      TokensOfWordFirst(a + x);
      assert a[..|a|] == a && a[|a|..] + x == x;
    }
  }

  /** Python's `part in s` for strings: `part` occurs in `s` as a contiguous piece. */
  predicate HasInfix(s: string, part: string)
    decreases |s|
  {
    |part| <= |s| && (s[..|part|] == part || (s != [] && HasInfix(s[1..], part)))
  }

  /** A character of an infix occurs in the text. */
  lemma {:induction false} InfixChars(s: string, part: string, k: nat)
    requires HasInfix(s, part) && k < |part|
    ensures part[k] in s
    decreases |s|
  {
    if s[..|part|] == part {
      assert s[k] == part[k];
    } else {
      InfixChars(s[1..], part, k);
      assert s == [s[0]] + s[1..];
    }
  }

  /** A prefix is an infix. */
  lemma InfixOfPrefix(p: string, x: string)
    ensures HasInfix(p + x, p)
  {
    assert (p + x)[..|p|] == p;
  }

  /** An infix stays one when text is put in front. */
  lemma {:induction false} InfixOfLonger(y: string, s: string, p: string)
    requires HasInfix(s, p)
    ensures HasInfix(y + s, p)
    decreases |y|
  {
    if |y| == 0 {
      assert y + s == s;
    } else {
      assert (y + s)[1..] == y[1..] + s;
      InfixOfLonger(y[1..], s, p);
    }
  }

  /** `(a + sep + x).split(sep)` for `a` without `sep`: `a`, then the parts of `x`. */
  lemma SplitAtFirst(a: string, x: string, sep: char)
    requires sep !in a
    ensures SplitOn(a + [sep] + x, sep) == [a] + SplitOn(x, sep)
  {
    var s := a + [sep] + x;
    assert s[|a|] == sep;
    var i := FirstIndex(s, sep);
    assert i == |a| by {
      assert forall k :: 0 <= k < |a| ==> s[k] == a[k];
    }
    assert s[..i] == a && s[i + 1..] == x;
  }

  /** Text that starts with a character that is not whitespace, a sign or a digit is no integer literal, and neither is the empty text. */
  lemma NotIntLiteral(s: string)
    requires s == [] || (!IsDigit(s[0]) && !IsSpace(s[0]) && s[0] != '+' && s[0] != '-')
    ensures !IntLiteral(s)
  {
    if s != [] {
      var t := Strip(s);
      assert Lead(s) == 0;
      assert t != [] && t[0] == s[0];
    }
  }

  /** A non-empty run of digits is an integer literal. */
  lemma DigitsIntLiteral(s: string)
    requires s != [] && AllDigits(s)
    ensures IntLiteral(s)
  {
    assert Lead(s) == 0 && s[0..] == s;
    assert TrimRight(s) == s;
  }

  /** Digits with single underscores between them, as Python's integer literals allow. */
  predicate DigitGroups(s: string) {
    && s != [] && IsDigit(s[0]) && IsDigit(s[|s| - 1])
    && forall i :: 0 <= i < |s| ==> IsDigit(s[i]) || (s[i] == '_' && i + 1 < |s| && IsDigit(s[i + 1]))
  }

  /** Whether `int(s)` succeeds: optional surrounding whitespace, an optional sign, then digit groups. */
  predicate IntLiteral(s: string) {
    var t := Strip(s);
    var body := if t != [] && (t[0] == '+' || t[0] == '-') then t[1..] else t;
    DigitGroups(body)
  }

  /** `c * n` in Python: `n` copies of `c`, and the empty string when `n <= 0`. */
  function Repeat(c: char, n: int): (r: string)
    ensures |r| == if n <= 0 then 0 else n
    ensures forall i :: 0 <= i < |r| ==> r[i] == c
    decreases n
  {
    if n <= 0 then [] else [c] + Repeat(c, n - 1)
  }

  /** Python's `a < b` on strings: code-point order, a proper prefix comes first. */
  predicate StrLess(a: string, b: string)
    decreases |a|
  {
    if a == [] then b != []
    else if b == [] then false
    else if a[0] != b[0] then a[0] < b[0]
    else StrLess(a[1..], b[1..])
  }

  lemma {:induction false} StrLessIrreflexive(a: string)
    ensures !StrLess(a, a)
    decreases |a|
  {
    if a != [] { StrLessIrreflexive(a[1..]); }
  }

  lemma {:induction false} StrLessTransitive(a: string, b: string, c: string)
    requires StrLess(a, b) && StrLess(b, c)
    ensures StrLess(a, c)
    decreases |a|
  {
    if a != [] && a[0] == b[0] && b[0] == c[0] {
      StrLessTransitive(a[1..], b[1..], c[1..]);
    }
  }

  /** Any two distinct strings are ordered one way or the other. */
  lemma {:induction false} StrLessTotal(a: string, b: string)
    ensures a == b || StrLess(a, b) || StrLess(b, a)
    decreases |a|
  {
    if a != [] && b != [] && a[0] == b[0] {
      StrLessTotal(a[1..], b[1..]);
      if a[1..] == b[1..] {
        assert a == [a[0]] + a[1..] && b == [b[0]] + b[1..];
      }
    }
  }
}
