/**
  * The `K8sQuest` object: the progress dictionary it updates in place and
  * every record `save_progress` has written, with the level loop of
  * `play_level`, the resume search and level loop of `play_world`, and the
  * world loop of `main`, each proved to do what the functions of `Session`
  * and `Campaign` describe.
  */
module Engine {
  import opened Wrappers
  import opened Progress
  import opened Hints
  import opened Catalog
  import opened LevelOrder
  import opened Session
  import opened Campaign

  /** The resume search of `play_world`: the `for i, level_path in enumerate(levels)` loop with its `break`. */
  method ResumeIndex(levels: seq<Entry>, rec: Record) returns (start: nat)
    ensures start == ResumeAt(levels, rec)
  {
    start := 0;
    if LevelSet(rec.currentLevel) {
      var current := rec.currentLevel.value;
      var i := 0;
      while i < |levels|
        invariant 0 <= i <= |levels|
        invariant current !in Names(levels)[..i]
      {
        if levels[i].name == current {
          assert Names(levels)[i] == current;
          assert IndexOf(Names(levels), current) == Some(i);
          if current in rec.completedLevels {
            start := i + 1;
          } else {
            start := i;
          }
          return;
        }
        assert Names(levels)[..i + 1] == Names(levels)[..i] + [levels[i].name];
        i := i + 1;
      }
      assert Names(levels)[..i] == Names(levels);
    }
  }

  /** The search for `start_world_index` in `main`, with its `break`. */
  method StartWorldIndex(currentWorld: string) returns (start: nat)
    ensures start == StartWorld(currentWorld)
  {
    start := 0;
    var i := 0;
    while i < |AllWorlds|
      invariant 0 <= i <= |AllWorlds|
      invariant currentWorld !in AllWorlds[..i]
    {
      if AllWorlds[i] == currentWorld {
        assert IndexOf(AllWorlds, currentWorld) == Some(i);
        start := i;
        return;
      }
      assert AllWorlds[..i + 1] == AllWorlds[..i] + [AllWorlds[i]];
      i := i + 1;
    }
    assert AllWorlds[..i] == AllWorlds;
  }

  class Quest {
    /** `self.progress`. */
    var progress: Record
    /** Every record `save_progress` has written to `progress.json`, oldest first. */
    var saves: seq<Record>
    /** `RETRO_UI_ENABLED`. */
    const retroUi: bool
    /** The contents of `worlds/`. */
    const worlds: WorldsDir

    constructor(rec: Record, retroUi: bool, worlds: WorldsDir)
      ensures progress == rec && saves == []
      ensures this.retroUi == retroUi && this.worlds == worlds
    {
      progress := rec;
      saves := [];
      this.retroUi := retroUi;
      this.worlds := worlds;
    }

    /** `save_progress`: the whole record is written, nothing else changes. */
    method SaveProgress()
      modifies this
      ensures progress == old(progress) && saves == old(saves) + [progress]
    {
      saves := saves + [progress];
    }

    /** The "select a level" update of `play_specific_level`: in range, the chosen level and its world become current and are saved. */
    method SelectLevel(choices: seq<(string, string)>, levelIndex: int) returns (selected: bool)
      modifies this
      ensures selected <==> 0 <= levelIndex < |choices|
      ensures selected ==>
        && progress == old(progress).(currentLevel := Some(choices[levelIndex].0), currentWorld := choices[levelIndex].1)
        && saves == old(saves) + [progress]
      ensures !selected ==> progress == old(progress) && saves == old(saves)
    {
      selected := 0 <= levelIndex < |choices|;
      if selected {
        var (levelName, worldName) := choices[levelIndex];
        progress := progress.(currentLevel := Some(levelName));
        progress := progress.(currentWorld := worldName);
        SaveProgress();
      }
    }

    /** The first-time setup of `main`: the placeholder name is replaced by the one asked for and saved. */
    method SetUpPlayer(name: string)
      modifies this
      ensures progress == NameSetup(old(progress), name).0
      ensures saves == old(saves) + NameSetup(old(progress), name).1
    {
      if progress.playerName == UnnamedPlayer {
        progress := progress.(playerName := name);
        SaveProgress();
      }
    }

    /** Option 3 of `main`: clear the current level, the completed levels and the XP, and save. */
    method StartOver()
      modifies this
      ensures progress == Restarted(old(progress)) && saves == old(saves) + [progress]
    {
      progress := progress.(currentLevel := None);
      progress := progress.(completedLevels := []);
      progress := progress.(totalXp := 0);
      SaveProgress();
    }

    /** A passing validation: XP added, the level listed once, the record saved, and the milestone for the new count. */
    method RecordPass(name: string, xp: int) returns (celebrations: seq<Notice>)
      modifies this
      ensures progress == Credit(old(progress), name, xp) && saves == old(saves) + [progress]
      ensures celebrations == Celebrations(retroUi, |progress.completedLevels|)
    {
      progress := progress.(totalXp := progress.totalXp + xp);
      if name !in progress.completedLevels {
        progress := progress.(completedLevels := progress.completedLevels + [name]);
      }
      SaveProgress();
      celebrations := [];
      if retroUi {
        var milestone := MilestoneAt(|progress.completedLevels|);
        if milestone.Some? {
          celebrations := [Celebration(milestone.value)];
        }
      }
    }

    /**
      * `play_level`: the action loop over the player's input, updating the
      * tier, the attempt count and the progress record as it goes.
      */
    method PlayLevel(e: Entry, input: seq<Step>) returns (res: Resolution, used: nat, notices: seq<Notice>)
      modifies this
      ensures var o := Play(e, retroUi, old(progress), input);
        && progress == o.last.rec && saves == old(saves) + o.saves
        && res == o.resolution && used == o.used && notices == o.notices
    {
      if !Launches(e, retroUi) {
        return Crashed, 0, [];
      }
      var xp := e.mission.value.xp.value;
      var lv := Level(e.name, xp, e.hints);
      ghost var target := RunFrom(lv, retroUi, input, 0, Loop(progress, 0, 0), [], []);
      ghost var saves0 := saves;
      ghost var made: seq<Record> := [];
      var tier: nat := 0;
      var attempts: nat := 0;
      notices := [];
      var i := 0;
      while i < |input|
        invariant 0 <= i <= |input|
        invariant saves == saves0 + made
        invariant RunFrom(lv, retroUi, input, i, Loop(progress, tier, attempts), made, notices) == target
      {
        RunStep(lv, retroUi, input, i, Loop(progress, tier, attempts), made, notices);
        ghost var t := Take(lv, retroUi, Loop(progress, tier, attempts), input[i]);
        var done, shown;
        tier, attempts, done, shown := Act(lv, tier, attempts, input[i]);
        made := if t.saved then made + [progress] else made;
        notices := notices + shown;
        i := i + 1;
        if done.Some? {
          return done.value, i, notices;
        }
      }
      return Waiting, i, notices;
    }

    /** One pass of the `while True` loop of `play_level`: act on one choice of the player. */
    method Act(lv: Level, tier: nat, attempts: nat, step: Step) returns (tier': nat, attempts': nat, done: Option<Resolution>, shown: seq<Notice>)
      modifies this
      ensures var t := Take(lv, retroUi, Loop(old(progress), tier, attempts), step);
        && Loop(progress, tier', attempts') == t.next && done == t.done && shown == t.notices
        && saves == old(saves) + (if t.saved then [progress] else [])
    {
      tier', attempts', done, shown := tier, attempts, None, [];
      match step {
        case Check =>
        case Guide =>
        case Solution =>
        case RequestHint =>
          tier' := tier + 1;
          shown := [HintShown(tier')];
        case Validate(exitCode, answer) =>
          attempts' := attempts + 1;
          if exitCode == 0 {
            shown := RecordPass(lv.name, lv.xp);
            done := Some(Returned(answer));
          } else {
            tier' := Min(tier + 1, 3);
            shown := [Encouragement(attempts' % 4)];
            if !answer {
              done := Some(Returned(false));
            }
          }
        case Skip(confirmed) =>
          if confirmed {
            done := Some(Returned(true));
          }
        case Quit =>
          done := Some(Exited);
      }
    }

    /** One level of `play_world`: make it the current level and world, save, and play it. */
    method PlayPositioned(level: Entry, world: string, input: seq<Step>) returns (res: Resolution, used: nat)
      modifies this
      ensures var here := PositionedAt(old(progress), world, level);
        var o := SessionOf(retroUi)(level, here, input);
        && progress == o.last.rec && saves == old(saves) + [here] + o.saves
        && res == o.resolution && used == o.used
    {
      progress := progress.(currentLevel := Some(level.name));
      progress := progress.(currentWorld := world);
      SaveProgress();
      var notices;
      res, used, notices := PlayLevel(level, input);
    }

    /** `play_world(world_name)`: resume point, then position, save and play each level until one does not return `True`. */
    method PlayWorld(world: string, input: seq<Step>, pos: nat) returns (end: WorldEnd, used: nat)
      requires pos <= |input|
      modifies this
      ensures var r := Campaign.PlayWorld(Listing(worlds), SessionOf(retroUi), world, old(progress), input, pos);
        progress == r.rec && saves == old(saves) + r.saves && end == r.end && used == r.used
    {
      if world !in worlds {
        assert world !in Listing(worlds);
        assert saves == saves + [];
        return Finished(false), pos;
      }
      var levels := Levels(worlds[world]);
      assert Listing(worlds)[world] == levels;
      var k := ResumeIndex(levels, progress);
      end, used := PlayLevelsFrom(levels, k, world, input, pos);
    }

    /** The `for level_path in levels[start_index:]` loop of `play_world`, from level `k` on. */
    method PlayLevelsFrom(levels: seq<Entry>, k: nat, world: string, input: seq<Step>, pos: nat) returns (end: WorldEnd, used: nat)
      requires k <= |levels| && pos <= |input|
      modifies this
      ensures var r := LevelsFrom(SessionOf(retroUi), levels, k, world, old(progress), input, pos, [], []);
        progress == r.rec && saves == old(saves) + r.saves && end == r.end && used == r.used
    {
      ghost var target := LevelsFrom(SessionOf(retroUi), levels, k, world, progress, input, pos, saves, []);
      LevelsFromAppends(SessionOf(retroUi), levels, k, world, progress, input, pos, saves, [], []);
      assert saves + [] == saves;
      ghost var results: seq<Resolution> := [];
      var j := k;
      used := pos;
      end := Finished(true);
      var going := true;
      while going && j < |levels|
        invariant k <= j <= |levels| && pos <= used <= |input|
        invariant going ==> end == Finished(true) && LevelsFrom(SessionOf(retroUi), levels, j, world, progress, input, used, saves, results) == target
        invariant !going ==> WorldRun(progress, saves, results, end, used) == target
        decreases |levels| - j, going
      {
        ghost var r;
        j, going, end, used, r := LevelIteration(levels, j, world, input, used, results);
        results := r;
      }
      if going {
        assert LevelsFrom(SessionOf(retroUi), levels, j, world, progress, input, used, saves, results) == WorldRun(progress, saves, results, end, used);
      }
    }

    /** One iteration of the level loop of `play_world`, as one step of `LevelsFrom`. */
    method LevelIteration(levels: seq<Entry>, j: nat, world: string, input: seq<Step>, pos: nat, ghost results: seq<Resolution>)
      returns (j': nat, going: bool, end: WorldEnd, used: nat, ghost results': seq<Resolution>)
      requires j < |levels| && pos <= |input|
      modifies this
      ensures j' == (if going then j + 1 else j) && pos <= used <= |input|
      ensures var run := LevelsFrom(SessionOf(retroUi), levels, j, world, old(progress), input, pos, old(saves), results);
        if going then
          end == Finished(true) && run == LevelsFrom(SessionOf(retroUi), levels, j + 1, world, progress, input, used, saves, results')
        else
          run == WorldRun(progress, saves, results', end, used)
    {
      var res, n := PlayLevelAt(levels, j, world, input, pos, results);
      results' := results + [res];
      used := pos + n;
      if res == Returned(true) {
        j', going, end := j + 1, true, Finished(true);
      } else {
        j', going := j, false;
        end := if res == Returned(false) then Finished(false) else Halted(res);
      }
    }

    /** Level `j` of a world's listing, positioned, saved and played. */
    method PlayLevelAt(levels: seq<Entry>, j: nat, world: string, input: seq<Step>, pos: nat, ghost results: seq<Resolution>)
      returns (res: Resolution, used: nat)
      requires j < |levels| && pos <= |input|
      modifies this
      ensures pos + used <= |input|
      ensures var run := LevelsFrom(SessionOf(retroUi), levels, j, world, old(progress), input, pos, old(saves), results);
        var results' := results + [res];
        if res == Returned(true) then
          run == LevelsFrom(SessionOf(retroUi), levels, j + 1, world, progress, input, pos + used, saves, results')
        else
          run == WorldRun(progress, saves, results', if res == Returned(false) then Finished(false) else Halted(res), pos + used)
    {
      ghost var here := PositionedAt(progress, world, levels[j]);
      ghost var o := SessionOf(retroUi)(levels[j], here, input[pos..]);
      LevelStep(SessionOf(retroUi), levels, j, world, progress, input, pos, saves, results);
      res, used := PlayPositioned(levels[j], world, input[pos..]);
      assert progress == o.last.rec && saves == old(saves) + [here] + o.saves && res == o.resolution && used == o.used;
    }

    /** The loop `for world in all_worlds[start:]: if not play_world(world): break`. */
    method PlayWorlds(start: nat, input: seq<Step>, pos: nat) returns (used: nat)
      requires start <= |AllWorlds| && pos <= |input|
      modifies this
      ensures var c := WorldsFrom(Listing(worlds), SessionOf(retroUi), AllWorlds, start, old(progress), input, pos, [], []);
        progress == c.rec && saves == old(saves) + c.saves && used == c.used
    {
      ghost var target := WorldsFrom(Listing(worlds), SessionOf(retroUi), AllWorlds, start, progress, input, pos, saves, []);
      WorldsFromAppends(Listing(worlds), SessionOf(retroUi), AllWorlds, start, progress, input, pos, saves, [], []);
      assert saves + [] == saves;
      ghost var ends: seq<WorldEnd> := [];
      var k := start;
      used := pos;
      var going := true;
      while going && k < |AllWorlds|
        invariant start <= k <= |AllWorlds| && pos <= used <= |input|
        invariant going ==> WorldsFrom(Listing(worlds), SessionOf(retroUi), AllWorlds, k, progress, input, used, saves, ends) == target
        invariant !going ==> CampaignRun(progress, saves, ends, used) == target
        decreases |AllWorlds| - k, going
      {
        ghost var e;
        going, used, e := WorldIteration(k, input, used, ends);
        ends := e;
        if going {
          k := k + 1;
        }
      }
      if going {
        assert WorldsFrom(Listing(worlds), SessionOf(retroUi), AllWorlds, k, progress, input, used, saves, ends) == CampaignRun(progress, saves, ends, used);
      }
    }

    /** One iteration of the world loop of `main`, as one step of `WorldsFrom`. */
    method WorldIteration(k: nat, input: seq<Step>, pos: nat, ghost ends: seq<WorldEnd>) returns (going: bool, used: nat, ghost ends': seq<WorldEnd>)
      requires k < |AllWorlds| && pos <= |input|
      modifies this
      ensures pos <= used <= |input|
      ensures var c := WorldsFrom(Listing(worlds), SessionOf(retroUi), AllWorlds, k, old(progress), input, pos, old(saves), ends);
        if going then c == WorldsFrom(Listing(worlds), SessionOf(retroUi), AllWorlds, k + 1, progress, input, used, saves, ends')
        else c == CampaignRun(progress, saves, ends', used)
    {
      WorldStep(Listing(worlds), SessionOf(retroUi), AllWorlds, k, progress, input, pos, saves, ends);
      var end;
      end, used := PlayWorld(AllWorlds[k], input, pos);
      ends' := ends + [end];
      going := end == Finished(true);
    }
  }
}
