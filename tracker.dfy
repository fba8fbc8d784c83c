/**
  * `tools/progress_tracker.py`: the report of how many of the fifty levels
  * exist and how many the player has completed. The world table is data;
  * the counts, the status of each world, its bar, the overall percentage and
  * the "next steps" line are computed from the table, the `worlds/`
  * directory and the progress file. The printing is not modelled; the
  * values printed are.
  */
module Tracker {
  import opened Wrappers
  import opened Text
  import opened Progress
  import opened Catalog
  import opened LevelOrder

  /**
    * One entry of the `WORLDS` table, keyed by its directory name; its
    * level numbers are `range(firstLevel, endLevel)`.
    */
  datatype WorldInfo = WorldInfo(dir: string, name: string, firstLevel: int, endLevel: int, totalXp: int, difficulty: string)
  {
    function Levels(): seq<int> {
      Range(firstLevel, endLevel)
    }
  }

  /** `list(range(lo, hi))`. */
  function Range(lo: int, hi: int): (r: seq<int>)
    ensures |r| == if lo <= hi then hi - lo else 0
    ensures forall k :: 0 <= k < |r| ==> r[k] == lo + k
    decreases hi - lo
  {
    if lo >= hi then [] else [lo] + Range(lo + 1, hi)
  }

  /** `WORLDS`, in its insertion order, which is the order the report walks it. */
  const Worlds: seq<WorldInfo> := [
    WorldInfo("world-1-basics", "World 1: Core Kubernetes Basics", 1, 11, 1450, "Beginner"),
    WorldInfo("world-2-deployments", "World 2: Deployments & Scaling", 11, 21, 2000, "Intermediate"),
    WorldInfo("world-3-networking", "World 3: Networking & Services", 21, 31, 2300, "Intermediate"),
    WorldInfo("world-4-storage", "World 4: Storage & Stateful Apps", 31, 41, 2600, "Advanced"),
    WorldInfo("world-5-security", "World 5: Security & Production Ops", 41, 51, 3150, "Advanced")]

  /** The totals the header prints the player's figures against. */
  const HeaderXp: int := 11500
  const HeaderLevels: int := 50

  /** The level numbers of the worlds, one world after the other. */
  function AllLevels(ws: seq<WorldInfo>): seq<int> {
    if ws == [] then [] else ws[0].Levels() + AllLevels(ws[1..])
  }

  function XpSum(ws: seq<WorldInfo>): int {
    if ws == [] then 0 else ws[0].totalXp + XpSum(ws[1..])
  }

  /** `sum(len(info["levels"]) for info in ws)`. */
  function LevelCount(ws: seq<WorldInfo>): nat {
    if ws == [] then 0 else |ws[0].Levels()| + LevelCount(ws[1..])
  }

  /** Two adjacent ranges join into one. */
  lemma RangeJoin(lo: int, mid: int, hi: int)
    requires lo <= mid <= hi
    ensures Range(lo, mid) + Range(mid, hi) == Range(lo, hi)
  {
    var a, b, c := Range(lo, mid), Range(mid, hi), Range(lo, hi);
    assert |a + b| == |c|;
    forall k | 0 <= k < |c| ensures (a + b)[k] == c[k] {
      if k >= |a| {
        assert (a + b)[k] == b[k - |a|];
      }
    }
  }

  /**
    * The table lists the five campaign worlds in campaign order, ten levels
    * each; their level numbers run 1..50 without gap or overlap, the level
    * count is the header's 50 and the XP totals add up to the header's
    * 11,500.
    */
  lemma WorldTable()
    ensures |Worlds| == |AllWorlds| && forall i :: 0 <= i < |Worlds| ==> Worlds[i].dir == AllWorlds[i]
    ensures forall i :: 0 <= i < |Worlds| ==> |Worlds[i].Levels()| == 10
    ensures AllLevels(Worlds) == Range(1, HeaderLevels + 1)
    ensures LevelCount(Worlds) == HeaderLevels
    ensures XpSum(Worlds) == HeaderXp
  {
    RangeJoin(41, 51, 51);
    RangeJoin(31, 41, 51);
    RangeJoin(21, 31, 51);
    RangeJoin(11, 21, 51);
    RangeJoin(1, 11, 51);
    assert Worlds[4..][1..] == [];
    assert AllLevels(Worlds[4..]) == Range(41, 51);
    assert AllLevels(Worlds[3..]) == Range(31, 51) by { assert Worlds[3..][1..] == Worlds[4..]; }
    assert AllLevels(Worlds[2..]) == Range(21, 51) by { assert Worlds[2..][1..] == Worlds[3..]; }
    assert AllLevels(Worlds[1..]) == Range(11, 51) by { assert Worlds[1..][1..] == Worlds[2..]; }
  }

  /** An item of a world directory that counts as a level: a directory holding `mission.yaml`. */
  predicate IsLevel(e: Entry) {
    e.isDir && e.mission.Some?
  }

  function MissionDirs(items: seq<Entry>): (n: nat)
    ensures n <= |items|
  {
    if items == [] then 0 else (if IsLevel(items[0]) then 1 else 0) + MissionDirs(items[1..])
  }

  /** What `count_available_levels(world_dir)` counts: 0 for a world directory that does not exist. */
  function Available(worlds: WorldsDir, dir: string): nat {
    if dir in worlds then MissionDirs(worlds[dir]) else 0
  }

  /** `count_available_levels(world_dir)`, loop for loop. */
  method CountAvailableLevels(worlds: WorldsDir, worldDir: string) returns (count: nat)
    ensures count == Available(worlds, worldDir)
  {
    if worldDir !in worlds {
      return 0;
    }
    var items := worlds[worldDir];
    count := 0;
    for i := 0 to |items|
      invariant count + MissionDirs(items[i..]) == MissionDirs(items)
    {
      assert items[i..][1..] == items[i + 1..];
      if items[i].isDir && items[i].mission.Some? {
        count := count + 1;
      }
    }
  }

  /**
    * The count is of directories with `mission.yaml`: at most the number of
    * directories, with equality exactly when none of them lacks the file,
    * and zero exactly when no item is such a directory.
    */
  lemma {:induction false} MissionDirsOfDirs(items: seq<Entry>)
    ensures MissionDirs(items) <= |Dirs(items)|
    ensures MissionDirs(items) == |Dirs(items)| <==> forall e :: e in items && e.isDir ==> e.mission.Some?
    ensures MissionDirs(items) == 0 <==> forall e :: e in items ==> !IsLevel(e)
  {
    if items != [] {
      MissionDirsOfDirs(items[1..]);
      assert items == [items[0]] + items[1..];
      assert forall e :: e in items <==> e == items[0] || e in items[1..];
    }
  }

  /**
    * The tracker's count for a world that exists never exceeds the number
    * of level directories `play_world` walks through, and equals it when
    * every level directory has its `mission.yaml`.
    */
  lemma AvailableWithinLevels(worlds: WorldsDir, dir: string)
    requires dir in worlds
    ensures Available(worlds, dir) <= |Levels(worlds[dir])|
    ensures Available(worlds, dir) == |Levels(worlds[dir])| <==> forall e :: e in worlds[dir] && e.isDir ==> e.mission.Some?
  {
    MissionDirsOfDirs(worlds[dir]);
    LevelsFromDirs(worlds[dir]);
  }

  /** `s.startswith(prefix)`. */
  predicate StartsWith(s: string, prefix: string) {
    |prefix| <= |s| && s[..|prefix|] == prefix
  }

  /** `sum(1 for level in completed_levels if level.startswith(world_dir))`. */
  function CompletedIn(completed: seq<string>, dir: string): (n: nat)
    ensures n <= |completed|
  {
    if completed == [] then 0
    else CompletedIn(completed[..|completed| - 1], dir) + (if StartsWith(completed[|completed| - 1], dir) then 1 else 0)
  }

  /** How many of the worlds' directory names `s` starts with. */
  function Matches(ws: seq<WorldInfo>, s: string): nat {
    if ws == [] then 0 else (if StartsWith(s, ws[0].dir) then 1 else 0) + Matches(ws[1..], s)
  }

  /** The completed counts of the worlds, added up. */
  function CompletedSum(ws: seq<WorldInfo>, completed: seq<string>): nat {
    if ws == [] then 0 else CompletedIn(completed, ws[0].dir) + CompletedSum(ws[1..], completed)
  }

  lemma {:induction false} CompletedSumAppend(ws: seq<WorldInfo>, completed: seq<string>, s: string)
    ensures CompletedSum(ws, completed + [s]) == CompletedSum(ws, completed) + Matches(ws, s)
  {
    if ws != [] {
      CompletedSumAppend(ws[1..], completed, s);
      assert (completed + [s])[..|completed + [s]| - 1] == completed;
    }
  }

  /** A string that starts with `a` has `a`'s character at every position `a` reaches. */
  lemma PrefixChar(s: string, a: string, i: nat)
    requires StartsWith(s, a) && i < |a|
    ensures i < |s| && s[i] == a[i]
  {
    assert s[..|a|][i] == s[i];
  }

  /** The directory names of `ws` all reach position `i` and differ there pairwise. */
  predicate DistinctAt(ws: seq<WorldInfo>, i: nat) {
    && (forall k :: 0 <= k < |ws| ==> i < |ws[k].dir|)
    && (forall k, l :: 0 <= k < l < |ws| ==> ws[k].dir[i] != ws[l].dir[i])
  }

  /** No name of `ws` has `c` at position `i`: then no string with `c` there starts with one of them. */
  lemma {:induction false} NoMatchAt(ws: seq<WorldInfo>, s: string, i: nat)
    requires i < |s| && forall k :: 0 <= k < |ws| ==> i < |ws[k].dir| && ws[k].dir[i] != s[i]
    ensures Matches(ws, s) == 0
  {
    if ws != [] {
      if StartsWith(s, ws[0].dir) {
        PrefixChar(s, ws[0].dir, i);
      }
      assert forall k :: 0 <= k < |ws[1..]| ==> ws[1..][k] == ws[k + 1];
      NoMatchAt(ws[1..], s, i);
    }
  }

  /** Names that differ pairwise at one position are never prefixes of the same string twice. */
  lemma {:induction false} AtMostOneMatch(ws: seq<WorldInfo>, s: string, i: nat)
    requires DistinctAt(ws, i)
    ensures Matches(ws, s) <= 1
  {
    if ws != [] {
      var rest := ws[1..];
      assert forall k :: 0 <= k < |rest| ==> rest[k] == ws[k + 1];
      if StartsWith(s, ws[0].dir) {
        PrefixChar(s, ws[0].dir, i);
        NoMatchAt(rest, s, i);
      } else {
        AtMostOneMatch(rest, s, i);
      }
    }
  }

  /** The five world directory names differ at their seventh character, the world's digit. */
  lemma WorldsDistinct()
    ensures DistinctAt(Worlds, 6)
  {
    assert Worlds[0].dir[6] == '1' && Worlds[1].dir[6] == '2' && Worlds[2].dir[6] == '3';
    assert Worlds[3].dir[6] == '4' && Worlds[4].dir[6] == '5';
  }

  lemma {:induction false} CompletedNone(ws: seq<WorldInfo>)
    ensures CompletedSum(ws, []) == 0
  {
    if ws != [] {
      CompletedNone(ws[1..]);
    }
  }

  /** Every completed entry counts towards at most one world, so the per-world counts add up to at most `len(completed)`. */
  lemma {:induction false} CompletedCountedOnce(completed: seq<string>)
    ensures CompletedSum(Worlds, completed) <= |completed|
  {
    if completed != [] {
      var init, last := completed[..|completed| - 1], completed[|completed| - 1];
      CompletedCountedOnce(init);
      CompletedSumAppend(Worlds, init, last);
      WorldsDistinct();
      AtMostOneMatch(Worlds, last, 6);
      assert init + [last] == completed;
    } else {
      CompletedNone(Worlds);
    }
  }

  /** The status icon and text of a world. */
  datatype Status = BlueprintOnly | Complete | InProgress

  function StatusOf(available: nat, total: nat): Status {
    if available == 0 then BlueprintOnly
    else if available == total then Complete
    else InProgress
  }

  /**
    * A world of the table is "Blueprint Only" when its directory is missing
    * or holds no level with `mission.yaml`, "Complete" when exactly its ten
    * levels exist, and "In Progress" otherwise, which includes a world with
    * more than ten.
    */
  lemma StatusOfWorld(worlds: WorldsDir, i: nat)
    requires i < |Worlds|
    ensures var a := Available(worlds, Worlds[i].dir);
      var s := StatusOf(a, |Worlds[i].Levels()|);
      && (s == BlueprintOnly <==> Worlds[i].dir !in worlds || forall e :: e in worlds[Worlds[i].dir] ==> !IsLevel(e))
      && (s == Complete <==> a == 10)
      && (s == InProgress <==> 0 < a != 10)
  {
    WorldTable();
    if Worlds[i].dir in worlds {
      MissionDirsOfDirs(worlds[Worlds[i].dir]);
    }
  }

  const BarLength: nat := 40

  /** `int((completed_in_world / available_count) * bar_length)`, on exact fractions. */
  function Filled(completed: nat, available: nat): nat
    requires available > 0
  {
    completed * BarLength / available
  }

  /** `"█" * filled + "░" * (bar_length - filled)`. */
  function Bar(completed: nat, available: nat): string
    requires available > 0
  {
    var filled := Filled(completed, available);
    Repeat('█', filled) + Repeat('░', BarLength - filled)
  }

  /** The number of full cells is the completed share of 40 cells, rounded down. */
  lemma FilledIsFloor(completed: nat, available: nat)
    requires available > 0
    ensures var f := Filled(completed, available);
      f * available <= completed * BarLength < f * available + available
  {
    var x, f := completed * BarLength, Filled(completed, available);
    assert x == f * available + x % available;
  }

  /** Multiplying by a natural number keeps order, and a gap of one becomes a gap of at least the multiplier. */
  lemma {:induction false} MulOrder(x: int, y: int, a: nat)
    ensures x <= y ==> x * a <= y * a
    ensures x < y ==> x * a + a <= y * a
  {
    if a > 0 {
      MulOrder(x, y, a - 1);
      assert x * a == x * (a - 1) + x && y * a == y * (a - 1) + y;
    }
  }

  /**
    * With no more completed than available levels the bar is full exactly
    * when all of them are completed; with more completed than available it
    * is full, or more than full.
    */
  lemma FilledWhenComplete(completed: nat, available: nat)
    requires available > 0
    ensures completed <= available ==> Filled(completed, available) <= BarLength
    ensures completed <= available ==> (Filled(completed, available) == BarLength <==> completed == available)
    ensures completed > available ==> Filled(completed, available) >= BarLength
  {
    var c, a, f := completed, available, Filled(completed, available);
    FilledIsFloor(c, a);
    MulOrder(BarLength, f, a);
    MulOrder(f, BarLength, a);
    MulOrder(c, a, BarLength);
    MulOrder(a, c, BarLength);
    assert a * BarLength == BarLength * a;
  }

  /**
    * The bar is `filled` full cells then empty ones, and has 40 cells unless
    * more than 40 are full, when the empty part is the empty string.
    */
  lemma BarCells(completed: nat, available: nat)
    requires available > 0
    ensures var bar, f := Bar(completed, available), Filled(completed, available);
      && |bar| == (if f <= BarLength then BarLength else f)
      && forall k :: 0 <= k < |bar| ==> bar[k] == if k < f then '█' else '░'
  {
    var bar, f := Bar(completed, available), Filled(completed, available);
    var full, empty := Repeat('█', f), Repeat('░', BarLength - f);
    assert bar == full + empty;
    forall k | 0 <= k < |bar| ensures bar[k] == if k < f then '█' else '░' {
      if k >= f {
        assert bar[k] == empty[k - f];
      }
    }
  }

  /** `overall_pct`: the completed share of the available levels in percent, and 0 when none is available. */
  function OverallPercent(completedCount: nat, totalAvailable: nat): (pct: real)
    ensures totalAvailable == 0 ==> pct == 0.0
    ensures totalAvailable > 0 ==> pct * (totalAvailable as real) == 100.0 * (completedCount as real) && pct >= 0.0
  {
    if totalAvailable > 0 then (completedCount as real / totalAvailable as real) * 100.0 else 0.0
  }

  /** `sum(count_available_levels(w) for w in WORLDS.keys())`, over the worlds `ws`. */
  function AvailableSum(worlds: WorldsDir, ws: seq<WorldInfo>): nat {
    if ws == [] then 0 else Available(worlds, ws[0].dir) + AvailableSum(worlds, ws[1..])
  }

  lemma {:induction false} AvailableSumAppend(worlds: WorldsDir, ws: seq<WorldInfo>, w: WorldInfo)
    ensures AvailableSum(worlds, ws + [w]) == AvailableSum(worlds, ws) + Available(worlds, w.dir)
    decreases |ws|
  {
    if ws != [] {
      AvailableSumAppend(worlds, ws[1..], w);
      assert (ws + [w])[1..] == ws[1..] + [w];
    } else {
      assert [w][1..] == [];
    }
  }

  /** `total_available`, as the report computes it: one `count_available_levels` per world of the table. */
  method TotalAvailable(worlds: WorldsDir) returns (total: nat)
    ensures total == AvailableSum(worlds, Worlds)
  {
    total := 0;
    for i := 0 to |Worlds|
      invariant total == AvailableSum(worlds, Worlds[..i])
    {
      var n := CountAvailableLevels(worlds, Worlds[i].dir);
      AvailableSumAppend(worlds, Worlds[..i], Worlds[i]);
      assert Worlds[..i + 1] == Worlds[..i] + [Worlds[i]];
      total := total + n;
    }
    assert Worlds[..|Worlds|] == Worlds;
  }

  /** The first world of `ws` with fewer levels than it should have: its name and how many are missing. */
  function Shortfall(worlds: WorldsDir, ws: seq<WorldInfo>): Option<(string, nat)> {
    if ws == [] then None
    else
      var available, total := Available(worlds, ws[0].dir), |ws[0].Levels()|;
      if available < total then Some((ws[0].name, total - available)) else Shortfall(worlds, ws[1..])
  }

  /** The "Next Steps" block: `for world_dir, world_info in WORLDS.items(): ... break`, under `if total_available < 50`. */
  method NextStep(worlds: WorldsDir, totalAvailable: nat) returns (next: Option<(string, nat)>)
    ensures next == if totalAvailable < HeaderLevels then Shortfall(worlds, Worlds) else None
  {
    next := None;
    if totalAvailable < 50 {
      var i := 0;
      while i < |Worlds|
        invariant 0 <= i <= |Worlds|
        invariant Shortfall(worlds, Worlds[i..]) == Shortfall(worlds, Worlds)
      {
        var available := CountAvailableLevels(worlds, Worlds[i].dir);
        var total := |Worlds[i].Levels()|;
        assert Worlds[i..][1..] == Worlds[i + 1..];
        if available < total {
          assert Short(worlds, Worlds[i]);
          next := Some((Worlds[i].name, total - available));
          return;
        }
        i := i + 1;
      }
    }
  }

  /** World `w` has fewer levels available than its table entry lists. */
  predicate Short(worlds: WorldsDir, w: WorldInfo) {
    Available(worlds, w.dir) < |w.Levels()|
  }

  /** World `i` of `ws` is short of levels and none before it is. */
  predicate FirstShort(worlds: WorldsDir, ws: seq<WorldInfo>, i: int) {
    0 <= i < |ws| && Short(worlds, ws[i]) && forall j :: 0 <= j < i ==> !Short(worlds, ws[j])
  }

  /** Nothing is reported exactly when no world is short. */
  lemma {:induction false} ShortfallNone(worlds: WorldsDir, ws: seq<WorldInfo>)
    ensures Shortfall(worlds, ws).None? <==> forall j :: 0 <= j < |ws| ==> !Short(worlds, ws[j])
  {
    if ws != [] {
      ShortfallNone(worlds, ws[1..]);
      assert forall j :: 0 < j < |ws| ==> ws[j] == ws[1..][j - 1];
    }
  }

  /** The world reported is the first one short of levels, with the number of levels it lacks, at least one. */
  lemma {:induction false} ShortfallFirst(worlds: WorldsDir, ws: seq<WorldInfo>)
    requires Shortfall(worlds, ws).Some?
    ensures Shortfall(worlds, ws).value.1 >= 1
    ensures exists i :: FirstShort(worlds, ws, i) && Shortfall(worlds, ws).value == (ws[i].name, |ws[i].Levels()| - Available(worlds, ws[i].dir))
  {
    var r := Shortfall(worlds, ws);
    if Short(worlds, ws[0]) {
      assert FirstShort(worlds, ws, 0);
      assert r.value == (ws[0].name, |ws[0].Levels()| - Available(worlds, ws[0].dir));
    } else {
      var rest := ws[1..];
      assert r == Shortfall(worlds, rest);
      ShortfallFirst(worlds, rest);
      var i :| FirstShort(worlds, rest, i) && r.value == (rest[i].name, |rest[i].Levels()| - Available(worlds, rest[i].dir));
      assert forall j :: 0 < j < |ws| ==> ws[j] == rest[j - 1];
      assert FirstShort(worlds, ws, i + 1);
    }
  }

  /** Fewer levels available in all than the worlds should have means some world is short. */
  lemma {:induction false} ShortWhenBelowTotal(worlds: WorldsDir, ws: seq<WorldInfo>)
    requires AvailableSum(worlds, ws) < LevelCount(ws)
    ensures Shortfall(worlds, ws).Some?
  {
    if !Short(worlds, ws[0]) {
      ShortWhenBelowTotal(worlds, ws[1..]);
    }
  }

  /** Whenever fewer than 50 levels exist, "Next Steps" names a world; with 50 or more it names none. */
  lemma NextStepShown(worlds: WorldsDir)
    ensures var total := AvailableSum(worlds, Worlds);
      total < HeaderLevels <==> (if total < HeaderLevels then Shortfall(worlds, Worlds) else None).Some?
  {
    WorldTable();
    if AvailableSum(worlds, Worlds) < HeaderLevels {
      ShortWhenBelowTotal(worlds, Worlds);
    }
  }

  /** The two figures the report takes from the progress file: the completed entries and the XP. */
  datatype TrackerProgress = TrackerProgress(completed: seq<string>, totalXp: int)

  /**
    * `load_progress()` followed by `progress.get("completed", [])` and
    * `progress.get("total_xp", 0)`: no file gives no completions and no XP;
    * a file that is not JSON is an error; each key present gives its
    * value, each absent key its default; a value of another shape is
    * rejected here.
    */
  function TrackerLoad(f: SavedFile): (r: Result<TrackerProgress, LoadError>)
    ensures f.NoFile? ==> r == Ok(TrackerProgress([], 0))
    ensures f.Unparsable? ==> r.Err?
    ensures f.Object? ==>
      (r.Ok? <==> ("completed" in f.fields ==> f.fields["completed"].StrList?) && ("total_xp" in f.fields ==> f.fields["total_xp"].Int?))
    ensures f.Object? && r.Ok? ==>
      && ("completed" in f.fields ==> f.fields["completed"] == StrList(r.value.completed))
      && ("completed" !in f.fields ==> r.value.completed == [])
      && ("total_xp" in f.fields ==> f.fields["total_xp"] == Int(r.value.totalXp))
      && ("total_xp" !in f.fields ==> r.value.totalXp == 0)
  {
    match f
    case NoFile => Ok(TrackerProgress([], 0))
    case Unparsable => Err(CorruptJson)
    case Object(m) =>
      if "completed" in m && !m["completed"].StrList? then Err(BadField("completed"))
      else if "total_xp" in m && !m["total_xp"].Int? then Err(BadField("total_xp"))
      else
        var completed := if "completed" in m then m["completed"].items else [];
        var xp := if "total_xp" in m then m["total_xp"].i else 0;
        Ok(TrackerProgress(completed, xp))
  }

  /**
    * The report reads the key `completed`, while the engine writes
    * `completed_levels`: the engine's completions never reach the report,
    * which shows the engine's XP and only what a `completed` key the
    * engine carries along unread holds; on a file without one, no
    * completed level at all.
    */
  lemma EngineFileShowsNoCompletions(r: Record)
    ensures TrackerLoad(Object(Encode(r))) == TrackerLoad(Object(Encode(r.(completedLevels := []))))
    ensures TrackerLoad(Object(Encode(r))).Ok? ==> TrackerLoad(Object(Encode(r))).value.totalXp == r.totalXp
    ensures "completed" !in r.extra ==> TrackerLoad(Object(Encode(r))) == Ok(TrackerProgress([], r.totalXp))
  {
    var m, m' := Encode(r), Encode(r.(completedLevels := []));
    assert ("completed" in m <==> "completed" in r.extra) && ("completed" in m' <==> "completed" in r.extra);
    assert "completed" in r.extra ==> m["completed"] == m'["completed"] == r.extra["completed"];
    assert m["total_xp"] == m'["total_xp"] == Int(r.totalXp);
  }
}
