/**
  * `natural_sort_key` (`re.split(r"(\d+)", name)` with digit runs turned into
  * integers) and the order `sorted(..., key=natural_sort_key)` puts level
  * directories in.
  */
module NaturalSort {
  import opened Text

  /** Length of the longest digit-free prefix. */
  function TextRun(s: string): (n: nat)
    ensures n <= |s| && NoDigits(s[..n]) && (n == |s| || IsDigit(s[n]))
  {
    if s == [] || IsDigit(s[0]) then 0 else 1 + TextRun(s[1..])
  }

  /** Length of the longest all-digit prefix. */
  function DigitRun(s: string): (n: nat)
    ensures n <= |s| && AllDigits(s[..n]) && (n == |s| || !IsDigit(s[n]))
  {
    if s == [] || !IsDigit(s[0]) then 0 else 1 + DigitRun(s[1..])
  }

  /** `re.split(r"(\d+)", s)`: text, digits, text, ..., text. */
  function SplitDigits(s: string): seq<string>
    decreases |s|
  {
    var p := TextRun(s);
    if p == |s| then [s]
    else
      var d := DigitRun(s[p..]);
      [s[..p], s[p..][..d]] + SplitDigits(s[p..][d..])
  }

  function Concat(parts: seq<string>): string {
    if parts == [] then [] else parts[0] + Concat(parts[1..])
  }

  /** The shape of the split: odd length, digit-free text at even positions, non-empty digit runs at odd ones. */
  predicate Alternating(parts: seq<string>) {
    && |parts| % 2 == 1
    && (forall i :: 0 <= i < |parts| && i % 2 == 0 ==> NoDigits(parts[i]))
    && (forall i :: 0 <= i < |parts| && i % 2 == 1 ==> parts[i] != [] && AllDigits(parts[i]))
  }

  lemma ConcatPair(a: string, b: string, rest: seq<string>)
    ensures Concat([a, b] + rest) == a + (b + Concat(rest))
  {
    var parts := [a, b] + rest;
    assert parts[0] == a && parts[1..] == [b] + rest;
    assert ([b] + rest)[0] == b && ([b] + rest)[1..] == rest;
  }

  /** Gluing the pieces of the split back together gives the name. */
  lemma {:induction false} SplitDigitsConcat(s: string)
    ensures Concat(SplitDigits(s)) == s
    decreases |s|
  {
    var p := TextRun(s);
    if p < |s| {
      var u := s[p..];
      var d := DigitRun(u);
      SplitDigitsConcat(u[d..]);
      ConcatPair(s[..p], u[..d], SplitDigits(u[d..]));
      Rejoin(s, p, d);
    }
  }

  lemma Rejoin(s: string, p: nat, d: nat)
    requires p + d <= |s|
    ensures s[..p] + (s[p..][..d] + s[p..][d..]) == s
  {
    assert s[p..][..d] + s[p..][d..] == s[p..];
  }

  lemma AlternatingPair(a: string, b: string, rest: seq<string>)
    requires NoDigits(a) && b != [] && AllDigits(b) && Alternating(rest)
    ensures Alternating([a, b] + rest)
  {
    var parts := [a, b] + rest;
    forall i | 2 <= i < |parts|
      ensures parts[i] == rest[i - 2] && i % 2 == (i - 2) % 2
    {
    }
  }

  /** The split alternates: digit-free text at even positions, non-empty digit runs at odd ones. */
  lemma {:induction false} SplitDigitsAlternates(s: string)
    ensures Alternating(SplitDigits(s))
    decreases |s|
  {
    var p := TextRun(s);
    if p < |s| {
      var u := s[p..];
      var d := DigitRun(u);
      SplitDigitsAlternates(u[d..]);
      AlternatingPair(s[..p], u[..d], SplitDigits(u[d..]));
    }
  }

  lemma {:induction false} TextRunOf(t: string, x: string)
    requires NoDigits(t) && (x == [] || IsDigit(x[0]))
    ensures TextRun(t + x) == |t|
    decreases |t|
  {
    if t != [] {
      assert (t + x)[1..] == t[1..] + x;
      TextRunOf(t[1..], x);
    }
  }

  lemma {:induction false} DigitRunOf(d: string, x: string)
    requires AllDigits(d) && (x == [] || !IsDigit(x[0]))
    ensures DigitRun(d + x) == |d|
    decreases |d|
  {
    if d != [] {
      assert (d + x)[1..] == d[1..] + x;
      DigitRunOf(d[1..], x);
    }
  }

  /** Splitting text, then a digit run, then the rest. */
  lemma SplitDigitsStep(t: string, d: string, x: string)
    requires NoDigits(t) && d != [] && AllDigits(d) && (x == [] || !IsDigit(x[0]))
    ensures SplitDigits(t + d + x) == [t, d] + SplitDigits(x)
  {
    var s := t + d + x;
    TextRunOf(t, d + x);
    assert s == t + (d + x);
    assert s[|t|..] == d + x;
    DigitRunOf(d, x);
    assert s[|t|..][..|d|] == d && s[|t|..][|d|..] == x;
  }

  /** A digit-free name splits into itself. */
  lemma SplitDigitsText(t: string)
    requires NoDigits(t)
    ensures SplitDigits(t) == [t]
  {
    TextRunOf(t, []);
    assert t + [] == t;
  }

  /** One element of the key: a string or an int. */
  datatype KeyPart = Text(s: string) | Num(n: nat)

  /** `int(part)` of a string of ASCII digits. */
  function DigitsValue(s: string): nat
    requires AllDigits(s)
    decreases |s|
  {
    if s == [] then 0
    else DigitsValue(s[..|s| - 1]) * 10 + ((s[|s| - 1] as int) - ('0' as int))
  }

  /** `int(part) if part.isdigit() else part` (`isdigit` is false on the empty string). */
  function PartKey(part: string): KeyPart {
    if part != [] && AllDigits(part) then Num(DigitsValue(part)) else Text(part)
  }

  /** `natural_sort_key` on a directory name. */
  function NaturalKey(name: string): seq<KeyPart> {
    var parts := SplitDigits(name);
    seq(|parts|, i requires 0 <= i < |parts| => PartKey(parts[i]))
  }

  /**
    * The key alternates strings (even positions) and integers (odd
    * positions), so two keys compared position by position never compare a
    * string with an integer.
    */
  lemma KeyAlternates(name: string)
    ensures |NaturalKey(name)| % 2 == 1
    ensures forall i :: 0 <= i < |NaturalKey(name)| ==> (NaturalKey(name)[i].Num? <==> i % 2 == 1)
    ensures forall i :: 0 <= i < |NaturalKey(name)| && i % 2 == 0 ==>
      NaturalKey(name)[i] == Text(SplitDigits(name)[i])
  {
    var parts := SplitDigits(name);
    SplitDigitsAlternates(name);
    forall i | 0 <= i < |parts| && i % 2 == 0
      ensures !(parts[i] != [] && AllDigits(parts[i]))
    {
      if parts[i] != [] {
        assert !IsDigit(parts[i][0]);
      }
    }
  }

  /** The comparison Python makes between two key elements of the same kind. */
  predicate PartLess(a: KeyPart, b: KeyPart) {
    match (a, b)
    case (Text(x), Text(y)) => StrLess(x, y)
    case (Num(x), Num(y)) => x < y
    // Python raises TypeError here; KeyAlternates shows it never arises.
    case (Text(_), Num(_)) => true
    case (Num(_), Text(_)) => false
  }

  /** Python's list `<`: the first differing element decides, a proper prefix comes first. */
  predicate KeyLess(a: seq<KeyPart>, b: seq<KeyPart>)
    decreases |a|
  {
    if a == [] then b != []
    else if b == [] then false
    else if a[0] != b[0] then PartLess(a[0], b[0])
    else KeyLess(a[1..], b[1..])
  }

  lemma PartLessOrder(a: KeyPart, b: KeyPart, c: KeyPart)
    ensures !PartLess(a, a)
    ensures PartLess(a, b) && PartLess(b, c) ==> PartLess(a, c)
    ensures a == b || PartLess(a, b) || PartLess(b, a)
  {
    match a {
      case Text(x) =>
        StrLessIrreflexive(x);
        if b.Text? && c.Text? && PartLess(a, b) && PartLess(b, c) { StrLessTransitive(x, b.s, c.s); }
        if b.Text? { StrLessTotal(x, b.s); }
      case Num(_) =>
    }
  }

  lemma {:induction false} KeyLessIrreflexive(a: seq<KeyPart>)
    ensures !KeyLess(a, a)
    decreases |a|
  {
    if a != [] { KeyLessIrreflexive(a[1..]); }
  }

  lemma {:induction false} KeyLessTransitive(a: seq<KeyPart>, b: seq<KeyPart>, c: seq<KeyPart>)
    requires KeyLess(a, b) && KeyLess(b, c)
    ensures KeyLess(a, c)
    decreases |a|
  {
    if a != [] {
      if a[0] == b[0] && b[0] == c[0] {
        KeyLessTransitive(a[1..], b[1..], c[1..]);
      } else {
        PartLessOrder(a[0], b[0], c[0]);
        PartLessOrder(c[0], c[0], c[0]);
      }
    }
  }

  lemma {:induction false} KeyLessTotal(a: seq<KeyPart>, b: seq<KeyPart>)
    ensures a == b || KeyLess(a, b) || KeyLess(b, a)
    decreases |a|
  {
    if a != [] && b != [] {
      PartLessOrder(a[0], b[0], a[0]);
      if a[0] == b[0] {
        KeyLessTotal(a[1..], b[1..]);
        if a[1..] == b[1..] {
          assert a == [a[0]] + a[1..] && b == [b[0]] + b[1..];
        }
      }
    }
  }

  /** Digit-free text keys as itself. */
  lemma PartKeyText(t: string)
    requires NoDigits(t)
    ensures PartKey(t) == Text(t)
  {
    assert t != [] ==> !IsDigit(t[0]);
  }

  lemma KeyOfThree(name: string, a: string, b: string, c: string)
    requires SplitDigits(name) == [a, b, c]
    ensures NaturalKey(name) == [PartKey(a), PartKey(b), PartKey(c)]
  {
  }

  /** The key of a name made of text, one digit run and digit-free text. */
  lemma KeyOfOneNumber(t: string, d: string, x: string)
    requires NoDigits(t) && NoDigits(x) && d != [] && AllDigits(d)
    ensures NaturalKey(t + d + x) == [Text(t), Num(DigitsValue(d)), Text(x)]
  {
    SplitDigitsText(x);
    SplitDigitsStep(t, d, x);
    KeyOfThree(t + d + x, t, d, x);
    PartKeyText(t);
    PartKeyText(x);
  }

  /** A name whose only digit run is smaller sorts first, whatever text follows. */
  lemma NumberDecides(t: string, d1: string, x: string, d2: string, y: string)
    requires NoDigits(t) && NoDigits(x) && NoDigits(y)
    requires d1 != [] && AllDigits(d1) && d2 != [] && AllDigits(d2) && DigitsValue(d1) < DigitsValue(d2)
    ensures KeyLess(NaturalKey(t + d1 + x), NaturalKey(t + d2 + y))
  {
    KeyOfOneNumber(t, d1, x);
    KeyOfOneNumber(t, d2, y);
  }

  /** The ordering the original is written for: `level-1-z`, `level-2-x`, `level-10-y`. */
  lemma NaturalOrderExample(a: string, b: string, c: string)
    requires a == "level-1-z" && b == "level-2-x" && c == "level-10-y"
    ensures KeyLess(NaturalKey(a), NaturalKey(b)) && KeyLess(NaturalKey(b), NaturalKey(c))
  {
    assert a == "level-" + "1" + "-z";
    assert b == "level-" + "2" + "-x";
    assert c == "level-" + "10" + "-y";
    assert DigitsValue("10") == 10;
    NumberDecides("level-", "1", "-z", "2", "-x");
    NumberDecides("level-", "2", "-x", "10", "-y");
  }

  /** Plain string order would have put `level-10-y` before `level-2-x`. */
  lemma PlainOrderDiffers()
    ensures StrLess("level-10-y", "level-2-x")
  {
    assert "level-10-y"[6..] == "10-y" && "level-2-x"[6..] == "2-x";
    assert StrLess("level-10-y", "level-2-x") == StrLess("10-y", "2-x");
  }
}

/**
  * `sorted(dirs, key=natural_sort_key)` on level directories. As Python
  * does, each directory is paired with its key once; the pairs are then
  * insertion-sorted, each placed after every pair whose key is not greater,
  * which keeps equal keys in their original order as Python's stable sort
  * does.
  */
module LevelOrder {
  import opened NaturalSort
  import opened Catalog

  datatype Keyed = Keyed(key: seq<KeyPart>, entry: Entry)

  predicate Sorted(s: seq<Keyed>) {
    forall i, j :: 0 <= i < j < |s| ==> !KeyLess(s[j].key, s[i].key)
  }

  function Insert(e: Keyed, s: seq<Keyed>): seq<Keyed> {
    if |s| == 0 then [e]
    else if KeyLess(e.key, s[0].key) then [e] + s
    else [s[0]] + Insert(e, s[1..])
  }

  function Sort(ks: seq<Keyed>): seq<Keyed> {
    if |ks| == 0 then [] else Insert(ks[|ks| - 1], Sort(ks[..|ks| - 1]))
  }

  /** Inserting adds the one pair and keeps the others. */
  lemma {:induction false} InsertPermutes(e: Keyed, s: seq<Keyed>)
    ensures multiset(Insert(e, s)) == multiset(s) + multiset{e}
    decreases |s|
  {
    if s != [] && !KeyLess(e.key, s[0].key) {
      InsertPermutes(e, s[1..]);
      assert s == [s[0]] + s[1..];
    }
  }

  /** A pair that sorts before the head of a sorted list can go in front of it. */
  lemma InsertFront(e: Keyed, s: seq<Keyed>)
    requires Sorted(s) && s != [] && KeyLess(e.key, s[0].key)
    ensures Sorted([e] + s)
  {
    var r := [e] + s;
    forall i, j | 0 <= i < j < |r| ensures !KeyLess(r[j].key, r[i].key) {
      if i == 0 {
        if KeyLess(r[j].key, e.key) {
          KeyLessTransitive(r[j].key, e.key, s[0].key);
          if j == 1 { KeyLessIrreflexive(s[0].key); }
        }
      }
    }
  }

  /** A head no greater than every pair of a sorted list can go in front of it. */
  lemma ConsSorted(h: Keyed, rest: seq<Keyed>)
    requires Sorted(rest) && forall x :: x in rest ==> !KeyLess(x.key, h.key)
    ensures Sorted([h] + rest)
  {
    var r := [h] + rest;
    forall i, j | 0 <= i < j < |r| ensures !KeyLess(r[j].key, r[i].key) {
      if i == 0 {
        assert r[j] in rest;
      } else {
        assert r[j] == rest[j - 1] && r[i] == rest[i - 1];
      }
    }
  }

  lemma {:induction false} InsertSorted(e: Keyed, s: seq<Keyed>)
    requires Sorted(s)
    ensures Sorted(Insert(e, s))
    decreases |s|
  {
    if s == [] {
    } else if KeyLess(e.key, s[0].key) {
      InsertFront(e, s);
    } else {
      var tail := s[1..];
      assert Sorted(tail) by {
        forall i, j | 0 <= i < j < |tail| ensures !KeyLess(tail[j].key, tail[i].key) {
          assert tail[j] == s[j + 1] && tail[i] == s[i + 1];
        }
      }
      InsertSorted(e, tail);
      InsertPermutes(e, tail);
      var rest := Insert(e, tail);
      forall x | x in rest ensures !KeyLess(x.key, s[0].key) {
        assert x in multiset(rest);
        assert x == e || x in multiset(tail);
        if x != e {
          var j :| 0 <= j < |tail| && tail[j] == x;
          assert s[j + 1] == x;
        }
      }
      ConsSorted(s[0], rest);
    }
  }

  /** The sort puts the pairs in key order. */
  lemma {:induction false} SortSorts(ks: seq<Keyed>)
    ensures Sorted(Sort(ks))
    decreases |ks|
  {
    if ks != [] {
      SortSorts(ks[..|ks| - 1]);
      InsertSorted(ks[|ks| - 1], Sort(ks[..|ks| - 1]));
    }
  }

  /** The sort keeps exactly the pairs given. */
  lemma {:induction false} SortPermutes(ks: seq<Keyed>)
    ensures multiset(Sort(ks)) == multiset(ks)
    decreases |ks|
  {
    if ks != [] {
      var init := ks[..|ks| - 1];
      SortPermutes(init);
      InsertPermutes(ks[|ks| - 1], Sort(init));
      assert ks == init + [ks[|ks| - 1]];
    }
  }

  /** The sort puts the pairs in key order and keeps exactly the pairs given. */
  lemma SortCorrect(ks: seq<Keyed>)
    ensures Sorted(Sort(ks))
    ensures multiset(Sort(ks)) == multiset(ks)
  {
    SortSorts(ks);
    SortPermutes(ks);
  }

  function Decorate(ds: seq<Entry>): (ks: seq<Keyed>)
    ensures |ks| == |ds|
    ensures forall k :: 0 <= k < |ds| ==> ks[k] == Keyed(NaturalKey(ds[k].name), ds[k])
  {
    if ds == [] then [] else [Keyed(NaturalKey(ds[0].name), ds[0])] + Decorate(ds[1..])
  }

  function Undecorate(ks: seq<Keyed>): (ds: seq<Entry>)
    ensures |ds| == |ks|
    ensures forall k :: 0 <= k < |ks| ==> ds[k] == ks[k].entry
  {
    if ks == [] then [] else [ks[0].entry] + Undecorate(ks[1..])
  }

  /** The level directories of a world, in the order `play_world` plays them. */
  function Levels(items: seq<Entry>): seq<Entry> {
    Undecorate(Sort(Decorate(Dirs(items))))
  }

  /** Every pair of a decorated listing carries its own entry's key. */
  predicate KeysOwn(ks: seq<Keyed>) {
    forall k :: 0 <= k < |ks| ==> ks[k].key == NaturalKey(ks[k].entry.name)
  }

  lemma SortKeepsKeys(ks: seq<Keyed>)
    requires KeysOwn(ks)
    ensures KeysOwn(Sort(ks)) && |Sort(ks)| == |ks|
    ensures forall x :: x in Sort(ks) <==> x in ks
  {
    SortCorrect(ks);
    var sorted := Sort(ks);
    assert |multiset(sorted)| == |multiset(ks)|;
    forall x ensures x in sorted <==> x in ks {
      assert x in sorted <==> x in multiset(sorted);
      assert x in ks <==> x in multiset(ks);
    }
    forall k | 0 <= k < |sorted| ensures sorted[k].key == NaturalKey(sorted[k].entry.name) {
      assert sorted[k] in ks;
    }
  }

  /** `play_world` walks the directories in natural order. */
  lemma LevelsInOrder(items: seq<Entry>)
    ensures var ls := Levels(items);
      forall i, j :: 0 <= i < j < |ls| ==> !KeyLess(NaturalKey(ls[j].name), NaturalKey(ls[i].name))
  {
    var ks := Decorate(Dirs(items));
    SortCorrect(ks);
    SortKeepsKeys(ks);
  }

  lemma LevelsFromDirs(items: seq<Entry>)
    ensures |Levels(items)| == |Dirs(items)|
    ensures forall k :: 0 <= k < |Levels(items)| ==> Levels(items)[k] in Dirs(items)
  {
    var ds := Dirs(items);
    var ks := Decorate(ds);
    SortKeepsKeys(ks);
    var sorted := Sort(ks);
    var ls := Levels(items);
    forall k | 0 <= k < |ls| ensures ls[k] in ds {
      assert sorted[k] in ks;
      var i :| 0 <= i < |ks| && ks[i] == sorted[k];
      assert ls[k] == sorted[k].entry == ks[i].entry == ds[i];
    }
  }

  lemma DirsInLevels(items: seq<Entry>)
    ensures forall e :: e in Dirs(items) ==> e in Levels(items)
  {
    var ds := Dirs(items);
    var ks := Decorate(ds);
    SortKeepsKeys(ks);
    var sorted := Sort(ks);
    var ls := Levels(items);
    forall e | e in ds ensures e in ls {
      var i :| 0 <= i < |ds| && ds[i] == e;
      assert ks[i] in sorted;
      var m :| 0 <= m < |sorted| && sorted[m] == ks[i];
      assert ls[m] == e;
    }
  }

  /** Inserting a pair adds its entry to the entries and keeps the others. */
  lemma {:induction false} InsertKeepsEntries(e: Keyed, s: seq<Keyed>)
    ensures multiset(Undecorate(Insert(e, s))) == multiset(Undecorate(s)) + multiset{e.entry}
    decreases |s|
  {
    if |s| == 0 {
    } else if KeyLess(e.key, s[0].key) {
      assert Undecorate([e] + s) == [e.entry] + Undecorate(s);
    } else {
      InsertKeepsEntries(e, s[1..]);
      assert Undecorate([s[0]] + Insert(e, s[1..])) == [s[0].entry] + Undecorate(Insert(e, s[1..]));
      assert Undecorate(s) == [s[0].entry] + Undecorate(s[1..]);
    }
  }

  /** The sort keeps exactly the entries given, each as often as it occurs. */
  lemma {:induction false} SortKeepsEntries(ks: seq<Keyed>)
    ensures multiset(Undecorate(Sort(ks))) == multiset(Undecorate(ks))
    decreases |ks|
  {
    if |ks| > 0 {
      var init := ks[..|ks| - 1];
      SortKeepsEntries(init);
      InsertKeepsEntries(ks[|ks| - 1], Sort(init));
      var last := ks[|ks| - 1];
      assert Sort(ks) == Insert(last, Sort(init));
      UndecorateLast(ks);
    }
  }

  lemma UndecorateLast(ks: seq<Keyed>)
    requires |ks| > 0
    ensures Undecorate(ks) == Undecorate(ks[..|ks| - 1]) + [ks[|ks| - 1].entry]
  {
    var l, r := Undecorate(ks), Undecorate(ks[..|ks| - 1]) + [ks[|ks| - 1].entry];
    forall k | 0 <= k < |l| ensures l[k] == r[k] {
      if k < |ks| - 1 {
        assert ks[..|ks| - 1][k] == ks[k];
      }
    }
  }

  /**
    * The listing `play_world` walks holds exactly the directories of the
    * world: each one a directory of the world, every directory of the world
    * in it, and each as often as the listing holds it.
    */
  lemma LevelsAreTheDirs(items: seq<Entry>)
    ensures var ls := Levels(items);
      && |ls| == |Dirs(items)|
      && multiset(ls) == multiset(Dirs(items))
      && (forall k :: 0 <= k < |ls| ==> ls[k].isDir && ls[k] in items)
      && (forall e :: e in items && e.isDir ==> e in ls)
  {
    LevelsFromDirs(items);
    DirsInLevels(items);
    DirsSelects(items);
    var ds := Dirs(items);
    SortKeepsEntries(Decorate(ds));
    assert Undecorate(Decorate(ds)) == ds;
  }

  /** The pairs of `s` whose key is `key`, in order. */
  function WithKey(s: seq<Keyed>, key: seq<KeyPart>): seq<Keyed>
    decreases |s|
  {
    if |s| == 0 then [] else (if s[0].key == key then [s[0]] else []) + WithKey(s[1..], key)
  }

  /** The directories among `ds` whose natural key is `key`, in order. */
  function SameKey(ds: seq<Entry>, key: seq<KeyPart>): seq<Entry>
    decreases |ds|
  {
    if |ds| == 0 then [] else (if NaturalKey(ds[0].name) == key then [ds[0]] else []) + SameKey(ds[1..], key)
  }

  lemma {:induction false} WithKeyConcat(a: seq<Keyed>, b: seq<Keyed>, key: seq<KeyPart>)
    ensures WithKey(a + b, key) == WithKey(a, key) + WithKey(b, key)
    decreases |a|
  {
    if |a| == 0 {
      assert a + b == b;
    } else {
      assert (a + b)[0] == a[0] && (a + b)[1..] == a[1..] + b;
      WithKeyConcat(a[1..], b, key);
    }
  }

  lemma {:induction false} WithKeyNone(s: seq<Keyed>, key: seq<KeyPart>)
    requires forall j :: 0 <= j < |s| ==> s[j].key != key
    ensures |WithKey(s, key)| == 0
    decreases |s|
  {
    if |s| > 0 {
      WithKeyNone(s[1..], key);
    }
  }

  lemma SortedTail(s: seq<Keyed>)
    requires Sorted(s) && |s| > 0
    ensures Sorted(s[1..])
  {
    var tail := s[1..];
    forall i, j | 0 <= i < j < |tail| ensures !KeyLess(tail[j].key, tail[i].key) {
      assert tail[j] == s[j + 1] && tail[i] == s[i + 1];
    }
  }

  /** A sorted list whose head's key is greater than `key` holds no pair of key `key`. */
  lemma BelowHead(s: seq<Keyed>, key: seq<KeyPart>)
    requires Sorted(s) && |s| > 0 && KeyLess(key, s[0].key)
    ensures |WithKey(s, key)| == 0
  {
    forall j | 0 <= j < |s| ensures s[j].key != key {
      if j == 0 {
        KeyLessIrreflexive(key);
      } else {
        assert !KeyLess(s[j].key, s[0].key);
      }
    }
    WithKeyNone(s, key);
  }

  /** Inserting into a sorted list places the new pair after every pair of the same key. */
  lemma {:induction false} InsertStable(e: Keyed, s: seq<Keyed>, key: seq<KeyPart>)
    requires Sorted(s)
    ensures WithKey(Insert(e, s), key) == WithKey(s, key) + (if e.key == key then [e] else [])
    decreases |s|
  {
    if |s| == 0 {
      assert [e][1..] == [];
    } else if KeyLess(e.key, s[0].key) {
      assert ([e] + s)[0] == e && ([e] + s)[1..] == s;
      if e.key == key {
        BelowHead(s, key);
      }
    } else {
      SortedTail(s);
      InsertStable(e, s[1..], key);
      assert ([s[0]] + Insert(e, s[1..]))[0] == s[0];
      assert ([s[0]] + Insert(e, s[1..]))[1..] == Insert(e, s[1..]);
    }
  }

  /** The sort is stable: the pairs of any one key keep their order. */
  lemma {:induction false} SortStable(ks: seq<Keyed>, key: seq<KeyPart>)
    ensures WithKey(Sort(ks), key) == WithKey(ks, key)
    decreases |ks|
  {
    if |ks| > 0 {
      var init, last := ks[..|ks| - 1], ks[|ks| - 1];
      SortStable(init, key);
      SortSorts(init);
      InsertStable(last, Sort(init), key);
      assert ks == init + [last];
      WithKeyConcat(init, [last], key);
      assert [last][1..] == [];
    }
  }

  lemma UndecorateConcat(a: seq<Keyed>, b: seq<Keyed>)
    ensures Undecorate(a + b) == Undecorate(a) + Undecorate(b)
  {
    var l, r := Undecorate(a + b), Undecorate(a) + Undecorate(b);
    forall k | 0 <= k < |l| ensures l[k] == r[k] {
      if k < |a| {
        assert (a + b)[k] == a[k];
      } else {
        assert (a + b)[k] == b[k - |a|];
      }
    }
  }

  /** Picking the pairs of one key and dropping the keys commute, when each pair carries its own entry's key. */
  lemma {:induction false} UndecorateWithKey(ks: seq<Keyed>, key: seq<KeyPart>)
    requires KeysOwn(ks)
    ensures Undecorate(WithKey(ks, key)) == SameKey(Undecorate(ks), key)
    decreases |ks|
  {
    if |ks| > 0 {
      var tail := ks[1..];
      assert KeysOwn(tail) by {
        forall k | 0 <= k < |tail| ensures tail[k].key == NaturalKey(tail[k].entry.name) {
          assert tail[k] == ks[k + 1];
        }
      }
      UndecorateWithKey(tail, key);
      var head := if ks[0].key == key then [ks[0]] else [];
      UndecorateConcat(head, WithKey(tail, key));
      var u := Undecorate(ks);
      assert u[0] == ks[0].entry;
      assert u[1..] == Undecorate(tail);
    }
  }

  /**
    * `sorted` is stable: directories whose names have the same natural key,
    * such as `level-1` and `level-01`, are walked in the order the listing
    * gives them.
    */
  lemma LevelsStable(items: seq<Entry>, key: seq<KeyPart>)
    ensures SameKey(Levels(items), key) == SameKey(Dirs(items), key)
  {
    var ds := Dirs(items);
    var ks := Decorate(ds);
    assert KeysOwn(ks);
    SortKeepsKeys(ks);
    SortStable(ks, key);
    UndecorateWithKey(Sort(ks), key);
    UndecorateWithKey(ks, key);
    assert Undecorate(ks) == ds;
  }
}
