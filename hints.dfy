/**
  * `show_progressive_hints`: which of `hint-1.txt`, `hint-2.txt`,
  * `hint-3.txt` exist, the unlocked tier and the `show_all` flag decide what
  * is printed and what is returned.
  */
module Hints {
  import opened Wrappers

  /** The stripped contents of `hint-1.txt` .. `hint-3.txt`; `None` when that file does not exist. */
  datatype HintFiles = HintFiles(first: Option<string>, second: Option<string>, third: Option<string>)

  function FileAt(f: HintFiles, i: nat): Option<string>
    requires 1 <= i <= 3
  {
    if i == 1 then f.first else if i == 2 then f.second else f.third
  }

  /** One element of `hints_available`: the file's number and its text. */
  datatype Hint = Hint(number: nat, text: string)

  function Present(o: Option<string>): nat {
    if o.Some? then 1 else 0
  }

  /** `hints_available`: the existing hint files, in file-number order. */
  function AvailableHints(f: HintFiles): (hs: seq<Hint>)
    ensures |hs| == Present(f.first) + Present(f.second) + Present(f.third) <= 3
    ensures forall k :: 0 <= k < |hs| ==> 1 <= hs[k].number <= 3 && FileAt(f, hs[k].number) == Some(hs[k].text)
    ensures forall k, l :: 0 <= k < l < |hs| ==> hs[k].number < hs[l].number
  {
    (if f.first.Some? then [Hint(1, f.first.value)] else []) +
    (if f.second.Some? then [Hint(2, f.second.value)] else []) +
    (if f.third.Some? then [Hint(3, f.third.value)] else [])
  }

  /** One printed line (or panel) of the hint display. */
  datatype Line =
    | NoHints                           // "No hints available for this level"
    | Header(unlocked: int, total: nat) // "Hints (Unlocked: u/t)"
    | Shown(number: int, text: string) // "Hint n: <text>"
    | Earlier(number: int)              // "Hint j: Previously unlocked"
    | Locked(number: int)               // "Hint j: Locked - try again to unlock"
    | AllUnlocked                       // "All hints have been unlocked!"

  /** What the call prints and what it returns (`None` for Python's bare `return`). */
  datatype Display = Display(lines: seq<Line>, returned: Option<int>)

  function Min(a: int, b: int): int {
    if a <= b then a else b
  }

  /** The status lines after the newest hint: earlier ones unlocked, later ones locked. */
  function StatusLines(level: int, count: nat): seq<Line>
    requires 1 <= level <= count
  {
    seq(count - 1, j requires 0 <= j < count - 1 => if j + 1 < level then Earlier(j + 1) else Locked(j + 2))
  }

  /** The `show_all` listing: every available hint, unlocked when its file number is at most `level`. */
  function AllLines(hs: seq<Hint>, level: int): (ls: seq<Line>)
    ensures |ls| == |hs|
  {
    seq(|hs|, k requires 0 <= k < |hs| =>
      if hs[k].number <= level then Shown(hs[k].number, hs[k].text) else Locked(hs[k].number))
  }

  /**
    * `show_progressive_hints(level_path, hint_level, show_all)`. The
    * newest-hint view picks `hints_available[hint_level - 1]` by position,
    * so a missing file shifts the numbering; the `show_all` view compares
    * file numbers. The result is `min(hint_level, k)` for `k` available
    * hints, and nothing when there are none.
    */
  function ShowProgressiveHints(f: HintFiles, hintLevel: int, showAll: bool): (d: Display)
    requires hintLevel >= 1
    ensures var hs := AvailableHints(f);
      && (hs == [] ==> d == Display([NoHints], None))
      && (hs != [] ==>
            && d.returned == Some(Min(hintLevel, |hs|))
            && 1 <= d.returned.value <= |hs| <= 3
            && |d.lines| >= 2
            && d.lines[0] == Header(Min(hintLevel, |hs|), |hs|))
  {
    var hs := AvailableHints(f);
    if hs == [] then Display([NoHints], None)
    else
      var header := Header(Min(hintLevel, |hs|), |hs|);
      var body :=
        if showAll then AllLines(hs, hintLevel)
        else if hintLevel <= |hs| then [Shown(hintLevel, hs[hintLevel - 1].text)] + StatusLines(hintLevel, |hs|)
        else [AllUnlocked];
      Display([header] + body, Some(Min(hintLevel, |hs|)))
  }

  /**
    * The newest-hint view: the hint at position `hint_level`, then one line
    * per other available hint, earlier ones unlocked and later ones locked;
    * past the last hint, only "All hints have been unlocked!".
    */
  lemma NewestHintView(f: HintFiles, hintLevel: int)
    requires hintLevel >= 1
    ensures var hs, d := AvailableHints(f), ShowProgressiveHints(f, hintLevel, false);
      && (hs != [] && hintLevel <= |hs| ==>
            && |d.lines| == |hs| + 1
            && d.lines[1] == Shown(hintLevel, hs[hintLevel - 1].text)
            && (forall j :: 1 <= j < hintLevel ==> d.lines[j + 1] == Earlier(j))
            && (forall j :: hintLevel < j <= |hs| ==> d.lines[j] == Locked(j)))
      && (hs != [] && hintLevel > |hs| ==> d.lines == [Header(|hs|, |hs|), AllUnlocked])
  {
  }

  /** The `show_all` view: one line per available hint, shown when its file number is at most `hint_level`, locked otherwise. */
  lemma ShowAllView(f: HintFiles, hintLevel: int)
    requires hintLevel >= 1
    ensures var hs, d := AvailableHints(f), ShowProgressiveHints(f, hintLevel, true);
      hs != [] ==>
        && |d.lines| == |hs| + 1
        && forall k :: 0 <= k < |hs| ==>
             d.lines[k + 1] == (if hs[k].number <= hintLevel then Shown(hs[k].number, hs[k].text) else Locked(hs[k].number))
  {
    var hs, d := AvailableHints(f), ShowProgressiveHints(f, hintLevel, true);
    if hs != [] {
      var body := AllLines(hs, hintLevel);
      assert d.lines == [Header(Min(hintLevel, |hs|), |hs|)] + body;
      forall k | 0 <= k < |hs|
        ensures d.lines[k + 1] == (if hs[k].number <= hintLevel then Shown(hs[k].number, hs[k].text) else Locked(hs[k].number))
      {
        assert d.lines[k + 1] == body[k];
      }
    }
  }

  /**
    * Numbering is positional: with only `hint-2.txt` and `hint-3.txt`, the
    * first unlocked hint is labelled "Hint 1" but shows `hint-2.txt`, while
    * the `show_all` view still labels it 2.
    */
  lemma GapShiftsNumbering(b: string, c: string)
    ensures ShowProgressiveHints(HintFiles(None, Some(b), Some(c)), 1, false).lines[1] == Shown(1, b)
    ensures ShowProgressiveHints(HintFiles(None, Some(b), Some(c)), 1, true).lines[1] == Locked(2)
    ensures ShowProgressiveHints(HintFiles(None, Some(b), Some(c)), 2, true).lines[1] == Shown(2, b)
  {
    var f := HintFiles(None, Some(b), Some(c));
    assert AvailableHints(f) == [Hint(2, b), Hint(3, c)];
  }
}
