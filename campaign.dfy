/**
  * `play_world` and the world loop of `main`: where a world resumes, the
  * position save before each level, and the early stop at the first level
  * the player does not continue from. Sessions read the one input stream in
  * turn; `pos` is how much of it earlier sessions used.
  */
module Campaign {
  import opened Wrappers
  import opened Progress
  import opened Catalog
  import opened LevelOrder
  import opened Session

  /**
    * How one level is played: the session `play_level` runs on a level
    * directory, from the record positioned at it, on the input left. The
    * world loops below are stated for any such player that uses no more
    * input than it is given; `SessionOf` is the one the engine has.
    */
  type Player = play: (Entry, Record, seq<Step>) -> Outcome | Bounded(play)
    witness (e: Entry, rec: Record, input: seq<Step>) => Outcome(Loop(rec, 0, 0), [], [], Crashed, 0)

  ghost predicate Bounded(play: (Entry, Record, seq<Step>) -> Outcome) {
    forall e, rec, input :: play(e, rec, input).used <= |input|
  }

  /** The session of `play_level`, with or without the retro interface. */
  function SessionOf(retro: bool): Player {
    (e: Entry, rec: Record, input: seq<Step>) => Play(e, retro, rec, input)
  }

  /** Every record a session saves keeps the world and level it was positioned at. */
  ghost predicate KeepsPlace(play: Player) {
    forall e, rec, input, j :: 0 <= j < |play(e, rec, input).saves| ==>
      play(e, rec, input).saves[j].currentWorld == rec.currentWorld && play(e, rec, input).saves[j].currentLevel == rec.currentLevel
  }

  /** A session that ends the program has saved nothing and left the record as it was. */
  ghost predicate ExitsInPlace(play: Player) {
    forall e, rec, input :: play(e, rec, input).resolution == Exited ==>
      play(e, rec, input).last.rec == rec && play(e, rec, input).saves == []
  }

  /** The session of `play_level` saves only the credited record, which keeps its position, and saves nothing when it exits. */
  lemma SessionBehaves(retro: bool)
    ensures KeepsPlace(SessionOf(retro)) && ExitsInPlace(SessionOf(retro))
  {
    var play := SessionOf(retro);
    forall e, rec, input, j | 0 <= j < |play(e, rec, input).saves|
      ensures play(e, rec, input).saves[j].currentWorld == rec.currentWorld && play(e, rec, input).saves[j].currentLevel == rec.currentLevel
    {
      SessionEffect(e, retro, rec, input);
    }
    forall e, rec, input | play(e, rec, input).resolution == Exited
      ensures play(e, rec, input).last.rec == rec && play(e, rec, input).saves == []
    {
      SessionEffect(e, retro, rec, input);
    }
  }

  /** The level directories of every world, each in the order `play_world` plays them. */
  function Listing(worlds: WorldsDir): map<string, seq<Entry>> {
    map w | w in worlds :: Levels(worlds[w])
  }

  function Names(levels: seq<Entry>): (ns: seq<string>)
    ensures |ns| == |levels| && forall k :: 0 <= k < |levels| ==> ns[k] == levels[k].name
  {
    seq(|levels|, k requires 0 <= k < |levels| => levels[k].name)
  }

  /** The first position of `x` in `names`, if any. */
  function IndexOf(names: seq<string>, x: string): (r: Option<nat>)
    ensures r.None? <==> x !in names
    ensures r.Some? ==> r.value < |names| && names[r.value] == x && forall k :: 0 <= k < r.value ==> names[k] != x
  {
    if names == [] then None
    else if names[0] == x then Some(0)
    else match IndexOf(names[1..], x)
      case None => None
      case Some(i) => Some(i + 1)
  }

  /**
    * `start_index`: 0 unless `current_level` is set and names one of the
    * levels; at that level if it is not completed yet, just after it if it
    * is.
    */
  function ResumeAt(levels: seq<Entry>, rec: Record): (start: nat)
    ensures start <= |levels|
    ensures !LevelSet(rec.currentLevel) || rec.currentLevel.value !in Names(levels) ==> start == 0
    ensures LevelSet(rec.currentLevel) && rec.currentLevel.value in Names(levels) ==>
      var i := IndexOf(Names(levels), rec.currentLevel.value).value;
      start == (if rec.currentLevel.value in rec.completedLevels then i + 1 else i)
  {
    if !LevelSet(rec.currentLevel) then 0
    else match IndexOf(Names(levels), rec.currentLevel.value)
      case None => 0
      case Some(i) => if rec.currentLevel.value in rec.completedLevels then i + 1 else i
  }

  /** Resuming at a completed level skips exactly the levels up to and including it. */
  lemma ResumeAfterCompleted(levels: seq<Entry>, rec: Record, i: nat)
    requires i < |levels| && rec.currentLevel == Some(levels[i].name) && levels[i].name != ""
    requires levels[i].name in rec.completedLevels
    requires forall k :: 0 <= k < i ==> levels[k].name != levels[i].name
    ensures levels[ResumeAt(levels, rec)..] == levels[i + 1..]
  {
    assert Names(levels)[i] == levels[i].name;
  }

  /** How `play_world` ends: it returns `True` or `False`, or a session ends the program or blocks. */
  datatype WorldEnd = Finished(ok: bool) | Halted(resolution: Resolution)

  /** A run of levels: the final record, the records saved in order, each session's resolution, the end, and the input used. */
  datatype WorldRun = WorldRun(rec: Record, saves: seq<Record>, results: seq<Resolution>, end: WorldEnd, used: nat)

  /** The record right before level `e` of `world` is played: positioned there. */
  function PositionedAt(rec: Record, world: string, e: Entry): (r: Record)
    ensures r.currentLevel == Some(e.name) && r.currentWorld == world
    ensures r.totalXp == rec.totalXp && r.completedLevels == rec.completedLevels && r.playerName == rec.playerName && r.extra == rec.extra
  {
    rec.(currentLevel := Some(e.name), currentWorld := world)
  }

  /** The `for level_path in levels[start_index:]` loop, from level `k` on. */
  function LevelsFrom(play: Player, levels: seq<Entry>, k: nat, world: string, rec: Record,
                      input: seq<Step>, pos: nat, saves: seq<Record>, results: seq<Resolution>): (r: WorldRun)
    requires k <= |levels| && pos <= |input|
    ensures pos <= r.used <= |input|
    ensures saves <= r.saves
    decreases |levels| - k
  {
    if k == |levels| then WorldRun(rec, saves, results, Finished(true), pos)
    else
      var here := PositionedAt(rec, world, levels[k]);
      var o := play(levels[k], here, input[pos..]);
      var saves' := saves + [here] + o.saves;
      var results' := results + [o.resolution];
      match o.resolution
      case Returned(true) => LevelsFrom(play, levels, k + 1, world, o.last.rec, input, pos + o.used, saves', results')
      case Returned(false) => WorldRun(o.last.rec, saves', results', Finished(false), pos + o.used)
      case Exited => WorldRun(o.last.rec, saves', results', Halted(Exited), pos + o.used)
      case Crashed => WorldRun(o.last.rec, saves', results', Halted(Crashed), pos + o.used)
      case Waiting => WorldRun(o.last.rec, saves', results', Halted(Waiting), pos + o.used)
  }

  /** One iteration of the level loop, unfolded. */
  lemma LevelStep(play: Player, levels: seq<Entry>, k: nat, world: string, rec: Record,
                  input: seq<Step>, pos: nat, saves: seq<Record>, results: seq<Resolution>)
    requires k < |levels| && pos <= |input|
    ensures var here := PositionedAt(rec, world, levels[k]);
      var o := play(levels[k], here, input[pos..]);
      var saves', results' := saves + [here] + o.saves, results + [o.resolution];
      LevelsFrom(play, levels, k, world, rec, input, pos, saves, results) ==
        if o.resolution == Returned(true) then LevelsFrom(play, levels, k + 1, world, o.last.rec, input, pos + o.used, saves', results')
        else if o.resolution == Returned(false) then WorldRun(o.last.rec, saves', results', Finished(false), pos + o.used)
        else WorldRun(o.last.rec, saves', results', Halted(o.resolution), pos + o.used)
  {
  }

  /** Records saved before the run are kept in front and play no part in it. */
  lemma {:induction false} LevelsFromAppends(play: Player, levels: seq<Entry>, k: nat, world: string, rec: Record,
                                             input: seq<Step>, pos: nat, prior: seq<Record>, saves: seq<Record>, results: seq<Resolution>)
    requires k <= |levels| && pos <= |input|
    ensures var r := LevelsFrom(play, levels, k, world, rec, input, pos, saves, results);
      LevelsFrom(play, levels, k, world, rec, input, pos, prior + saves, results) == r.(saves := prior + r.saves)
    decreases |levels| - k
  {
    if k < |levels| {
      var here := PositionedAt(rec, world, levels[k]);
      var o := play(levels[k], here, input[pos..]);
      LevelStep(play, levels, k, world, rec, input, pos, saves, results);
      LevelStep(play, levels, k, world, rec, input, pos, prior + saves, results);
      assert prior + saves + [here] + o.saves == prior + (saves + [here] + o.saves);
      if o.resolution == Returned(true) {
        LevelsFromAppends(play, levels, k + 1, world, o.last.rec, input, pos + o.used, prior, saves + [here] + o.saves, results + [o.resolution]);
      }
    }
  }

  /** The results of the run: the list so far, then one resolution per level played. */
  predicate RunShape(r: WorldRun, results: seq<Resolution>, remaining: nat) {
    && results <= r.results
    && |r.results| <= |results| + remaining
    && (forall j :: |results| <= j < |r.results| - 1 ==> r.results[j] == Returned(true))
    && (r.end == Finished(true) ==>
          |r.results| == |results| + remaining && forall j :: |results| <= j < |r.results| ==> r.results[j] == Returned(true))
    && (r.end == Finished(false) ==> |r.results| > |results| && r.results[|r.results| - 1] == Returned(false))
    && (r.end.Halted? ==> |r.results| > |results| && r.results[|r.results| - 1] == r.end.resolution && !r.end.resolution.Returned?)
  }

  /**
    * Levels are played in order while each returns `True`: every level but
    * the last one played returned `True`; the run ends `True` only after
    * all of them, `False` right after a level returned `False`, and halts
    * with the resolution of the session that ended the program.
    */
  lemma {:induction false} LevelsFromShape(play: Player, levels: seq<Entry>, k: nat, world: string, rec: Record,
                                           input: seq<Step>, pos: nat, saves: seq<Record>, results: seq<Resolution>)
    requires k <= |levels| && pos <= |input|
    ensures RunShape(LevelsFrom(play, levels, k, world, rec, input, pos, saves, results), results, |levels| - k)
    decreases |levels| - k
  {
    if k < |levels| {
      var here := PositionedAt(rec, world, levels[k]);
      var o := play(levels[k], here, input[pos..]);
      var saves' := saves + [here] + o.saves;
      var results' := results + [o.resolution];
      var r := LevelsFrom(play, levels, k, world, rec, input, pos, saves, results);
      if o.resolution.Returned? && o.resolution.proceed {
        LevelsFromShape(play, levels, k + 1, world, o.last.rec, input, pos + o.used, saves', results');
        assert r == LevelsFrom(play, levels, k + 1, world, o.last.rec, input, pos + o.used, saves', results');
        assert results' <= r.results;
        assert r.results[|results|] == Returned(true);
      } else {
        assert r.results == results';
      }
    }
  }

  /** `play_world(world_name)`, with the level listings of the worlds as `listing`. */
  function PlayWorld(listing: map<string, seq<Entry>>, play: Player, world: string, rec: Record, input: seq<Step>, pos: nat): (r: WorldRun)
    requires pos <= |input|
    ensures pos <= r.used <= |input|
    ensures world !in listing ==> r == WorldRun(rec, [], [], Finished(false), pos)
  {
    if world !in listing then WorldRun(rec, [], [], Finished(false), pos)
    else
      var levels := listing[world];
      LevelsFrom(play, levels, ResumeAt(levels, rec), world, rec, input, pos, [], [])
  }

  /**
    * Before each level is played, `current_level` and `current_world` are
    * set to it and saved, and every save a run makes names the world and one
    * of the levels it played.
    */
  lemma {:induction false} SavesNameLevel(play: Player, levels: seq<Entry>, k: nat, world: string, rec: Record,
                                          input: seq<Step>, pos: nat, saves: seq<Record>, results: seq<Resolution>)
    requires k <= |levels| && pos <= |input| && KeepsPlace(play)
    ensures var r := LevelsFrom(play, levels, k, world, rec, input, pos, saves, results);
      && (k < |levels| ==> |r.saves| > |saves| && r.saves[|saves|] == PositionedAt(rec, world, levels[k]))
      && forall j :: |saves| <= j < |r.saves| ==>
           r.saves[j].currentWorld == world && r.saves[j].currentLevel.Some? && r.saves[j].currentLevel.value in Names(levels[k..])
    decreases |levels| - k
  {
    if k < |levels| {
      var here := PositionedAt(rec, world, levels[k]);
      var o := play(levels[k], here, input[pos..]);
      var saves' := saves + [here] + o.saves;
      assert Names(levels[k..])[0] == levels[k].name;
      forall j | |saves| <= j < |saves'|
        ensures saves'[j].currentWorld == world && saves'[j].currentLevel == Some(levels[k].name)
      {
        if j > |saves| {
          assert saves'[j] == o.saves[j - |saves| - 1];
        }
      }
      if o.resolution == Returned(true) {
        SavesNameLevel(play, levels, k + 1, world, o.last.rec, input, pos + o.used, saves', results + [o.resolution]);
        var r := LevelsFrom(play, levels, k, world, rec, input, pos, saves, results);
        forall j | |saves'| <= j < |r.saves|
          ensures r.saves[j].currentLevel.value in Names(levels[k..])
        {
          assert Names(levels[k + 1..]) == Names(levels[k..])[1..];
        }
      }
    }
  }

  /**
    * When a session ends the program, the last save is the final record,
    * positioned at the level being played: the resume point is stored.
    */
  predicate ResumePointStored(r: WorldRun, world: string) {
    r.end.Halted? && r.end.resolution.Exited? ==>
      && r.saves != [] && r.saves[|r.saves| - 1] == r.rec
      && r.rec.currentWorld == world && r.rec.currentLevel.Some?
  }

  lemma {:induction false} ExitKeepsResumePoint(play: Player, levels: seq<Entry>, k: nat, world: string, rec: Record,
                                                input: seq<Step>, pos: nat, saves: seq<Record>, results: seq<Resolution>)
    requires k <= |levels| && pos <= |input| && ExitsInPlace(play)
    ensures ResumePointStored(LevelsFrom(play, levels, k, world, rec, input, pos, saves, results), world)
    decreases |levels| - k
  {
    if k < |levels| {
      var here := PositionedAt(rec, world, levels[k]);
      var o := play(levels[k], here, input[pos..]);
      var saves' := saves + [here] + o.saves;
      var r := LevelsFrom(play, levels, k, world, rec, input, pos, saves, results);
      if o.resolution.Exited? {
        assert o.last.rec == here && o.saves == [];
        assert r == WorldRun(here, saves + [here], results + [Exited], Halted(Exited), pos + o.used);
        assert r.saves[|r.saves| - 1] == here;
        assert ResumePointStored(r, world);
      } else if o.resolution.Returned? && o.resolution.proceed {
        ExitKeepsResumePoint(play, levels, k + 1, world, o.last.rec, input, pos + o.used, saves', results + [o.resolution]);
        assert r == LevelsFrom(play, levels, k + 1, world, o.last.rec, input, pos + o.used, saves', results + [o.resolution]);
      } else {
        assert !r.end.Halted? || !r.end.resolution.Exited?;
      }
    }
  }

  /** `play_world` returns `False` at once for a world directory that does not exist. */
  lemma MissingWorldFails(listing: map<string, seq<Entry>>, play: Player, world: string, rec: Record, input: seq<Step>, pos: nat)
    requires pos <= |input| && world !in listing
    ensures PlayWorld(listing, play, world, rec, input, pos).end == Finished(false)
  {
  }

  /** `play_world` returns `True` exactly when every level from the resume point returned `True`. */
  lemma WorldTrueIffAllLevels(listing: map<string, seq<Entry>>, play: Player, world: string, rec: Record, input: seq<Step>, pos: nat)
    requires pos <= |input| && world in listing
    ensures var levels := listing[world];
      var r := PlayWorld(listing, play, world, rec, input, pos);
      r.end == Finished(true) <==>
        |r.results| == |levels| - ResumeAt(levels, rec) && forall j :: 0 <= j < |r.results| ==> r.results[j] == Returned(true)
  {
    var levels := listing[world];
    var r := PlayWorld(listing, play, world, rec, input, pos);
    LevelsFromShape(play, levels, ResumeAt(levels, rec), world, rec, input, pos, [], []);
    if r.end != Finished(true) && r.results != [] {
      assert r.results[|r.results| - 1] != Returned(true);
    }
  }

  /** `start_world_index`: the position of `current_world` among the five worlds, 0 when it is none of them. */
  function StartWorld(currentWorld: string): (i: nat)
    ensures i < |AllWorlds|
    ensures currentWorld in AllWorlds ==> AllWorlds[i] == currentWorld
    ensures currentWorld !in AllWorlds ==> i == 0
  {
    match IndexOf(AllWorlds, currentWorld)
    case None => 0
    case Some(i) => i
  }

  /** A run of worlds: the final record, the saves, how each world ended, and the input used. */
  datatype CampaignRun = CampaignRun(rec: Record, saves: seq<Record>, ends: seq<WorldEnd>, used: nat)

  /** `for world in all_worlds[start:]: if not play_world(world): break`, from world `k` of `names` on. */
  function WorldsFrom(listing: map<string, seq<Entry>>, play: Player, names: seq<string>, k: nat, rec: Record, input: seq<Step>, pos: nat,
                      saves: seq<Record>, ends: seq<WorldEnd>): (c: CampaignRun)
    requires k <= |names| && pos <= |input|
    ensures pos <= c.used <= |input|
    ensures saves <= c.saves
    decreases |names| - k
  {
    if k == |names| then CampaignRun(rec, saves, ends, pos)
    else
      var r := PlayWorld(listing, play, names[k], rec, input, pos);
      var saves', ends' := saves + r.saves, ends + [r.end];
      if r.end.Finished? && r.end.ok then WorldsFrom(listing, play, names, k + 1, r.rec, input, r.used, saves', ends')
      else CampaignRun(r.rec, saves', ends', r.used)
  }

  /**
    * Worlds are played in order while each returns `True`; the loop stops at
    * the first world that does not, and otherwise plays every world to the
    * end.
    */
  predicate CampaignShape(c: CampaignRun, ends: seq<WorldEnd>, remaining: nat) {
    && ends <= c.ends
    && |c.ends| <= |ends| + remaining
    && (forall j :: |ends| <= j < |c.ends| - 1 ==> c.ends[j] == Finished(true))
    && (|c.ends| < |ends| + remaining ==> |c.ends| > |ends| && c.ends[|c.ends| - 1] != Finished(true))
  }

  lemma {:induction false} WorldsFromShape(listing: map<string, seq<Entry>>, play: Player, names: seq<string>, k: nat, rec: Record,
                                           input: seq<Step>, pos: nat, saves: seq<Record>, ends: seq<WorldEnd>)
    requires k <= |names| && pos <= |input|
    ensures CampaignShape(WorldsFrom(listing, play, names, k, rec, input, pos, saves, ends), ends, |names| - k)
    decreases |names| - k
  {
    if k < |names| {
      var r := PlayWorld(listing, play, names[k], rec, input, pos);
      var c := WorldsFrom(listing, play, names, k, rec, input, pos, saves, ends);
      var ends' := ends + [r.end];
      WorldStep(listing, play, names, k, rec, input, pos, saves, ends);
      if r.end == Finished(true) {
        WorldsFromShape(listing, play, names, k + 1, r.rec, input, r.used, saves + r.saves, ends');
        ShapeAfterContinue(c, ends, r.end, |names| - k);
      } else {
        ShapeAtStop(c, ends, r.end, |names| - k);
      }
    }
  }

  /** One iteration of the world loop. */
  lemma WorldStep(listing: map<string, seq<Entry>>, play: Player, names: seq<string>, k: nat, rec: Record,
                  input: seq<Step>, pos: nat, saves: seq<Record>, ends: seq<WorldEnd>)
    requires k < |names| && pos <= |input|
    ensures var r := PlayWorld(listing, play, names[k], rec, input, pos);
      WorldsFrom(listing, play, names, k, rec, input, pos, saves, ends) ==
        if r.end == Finished(true) then WorldsFrom(listing, play, names, k + 1, r.rec, input, r.used, saves + r.saves, ends + [r.end])
        else CampaignRun(r.rec, saves + r.saves, ends + [r.end], r.used)
  {
  }

  /** Records saved before the world loop are kept in front and play no part in it. */
  lemma {:induction false} WorldsFromAppends(listing: map<string, seq<Entry>>, play: Player, names: seq<string>, k: nat, rec: Record,
                                             input: seq<Step>, pos: nat, prior: seq<Record>, saves: seq<Record>, ends: seq<WorldEnd>)
    requires k <= |names| && pos <= |input|
    ensures var c := WorldsFrom(listing, play, names, k, rec, input, pos, saves, ends);
      WorldsFrom(listing, play, names, k, rec, input, pos, prior + saves, ends) == c.(saves := prior + c.saves)
    decreases |names| - k
  {
    if k < |names| {
      var r := PlayWorld(listing, play, names[k], rec, input, pos);
      assert prior + saves + r.saves == prior + (saves + r.saves);
      if r.end.Finished? && r.end.ok {
        WorldsFromAppends(listing, play, names, k + 1, r.rec, input, r.used, prior, saves + r.saves, ends + [r.end]);
      }
    }
  }

  lemma ShapeAtStop(c: CampaignRun, ends: seq<WorldEnd>, e: WorldEnd, remaining: nat)
    requires remaining > 0 && e != Finished(true) && c.ends == ends + [e]
    ensures CampaignShape(c, ends, remaining)
  {
  }

  lemma ShapeAfterContinue(c: CampaignRun, ends: seq<WorldEnd>, e: WorldEnd, remaining: nat)
    requires remaining > 0 && e == Finished(true) && CampaignShape(c, ends + [e], remaining - 1)
    ensures CampaignShape(c, ends, remaining)
  {
    assert c.ends[|ends|] == (ends + [e])[|ends|];
  }

  /** The top-level menu of `main` when there is progress to resume. */
  datatype Menu = Resume | PickLevel | StartOver | Leave

  /** The record `main` starts over from: no current level, nothing completed, no XP. */
  function Restarted(rec: Record): (r: Record)
    ensures r.currentLevel == None && r.completedLevels == [] && r.totalXp == 0
    ensures r.currentWorld == rec.currentWorld && r.playerName == rec.playerName && r.extra == rec.extra
  {
    rec.(currentLevel := None, completedLevels := [], totalXp := 0)
  }

  /** Whether `main` offers to resume: something completed, or a current level set. */
  predicate HasProgress(rec: Record) {
    |rec.completedLevels| > 0 || LevelSet(rec.currentLevel)
  }

  /** The first-time name setup: a placeholder name is replaced by the name asked for, and saved. */
  function NameSetup(rec: Record, name: string): (r: (Record, seq<Record>))
    ensures rec.playerName != UnnamedPlayer ==> r == (rec, [])
    ensures rec.playerName == UnnamedPlayer ==> r.0 == rec.(playerName := name) && r.1 == [r.0]
  {
    if rec.playerName == UnnamedPlayer then (rec.(playerName := name), [rec.(playerName := name)]) else (rec, [])
  }

  /**
    * `main` after loading: the name setup, then the menu when there is
    * progress (resume from the current world, start over from the first,
    * or leave) or else "Ready to start your training?". The specific-level
    * branch is modelled as leaving the campaign loop.
    */
  function MainRun(worlds: WorldsDir, retro: bool, rec: Record, name: string, menu: Menu, ready: bool, input: seq<Step>): (c: CampaignRun)
    ensures c.used <= |input|
  {
    var (named, first) := NameSetup(rec, name);
    var listing, play := Listing(worlds), SessionOf(retro);
    if HasProgress(named) then
      match menu
      case Resume => WorldsFrom(listing, play, AllWorlds, StartWorld(named.currentWorld), named, input, 0, first, [])
      case StartOver =>
        var reset := Restarted(named);
        WorldsFrom(listing, play, AllWorlds, 0, reset, input, 0, first + [reset], [])
      case PickLevel => CampaignRun(named, first, [], 0)
      case Leave => CampaignRun(named, first, [], 0)
    else if ready then WorldsFrom(listing, play, AllWorlds, 0, named, input, 0, first, [])
    else CampaignRun(named, first, [], 0)
  }

  /**
    * Resuming starts at the current world when it is one of the five, and
    * at the first world otherwise, from the record the name setup left and
    * after its save.
    */
  lemma ResumeStartsAtCurrentWorld(worlds: WorldsDir, retro: bool, rec: Record, name: string, ready: bool, input: seq<Step>)
    requires HasProgress(rec)
    ensures var (named, first) := NameSetup(rec, name);
      var c := MainRun(worlds, retro, rec, name, Resume, ready, input);
      && c == WorldsFrom(Listing(worlds), SessionOf(retro), AllWorlds, StartWorld(rec.currentWorld), named, input, 0, first, [])
      && first <= c.saves
      && (rec.currentWorld in AllWorlds ==> AllWorlds[StartWorld(rec.currentWorld)] == rec.currentWorld)
  {
  }

  /**
    * Starting over saves the reset record right after the name setup's
    * save, before any world is played, and the first world played starts
    * from it.
    */
  lemma StartOverResets(worlds: WorldsDir, retro: bool, rec: Record, name: string, ready: bool, input: seq<Step>)
    requires HasProgress(rec)
    ensures var (named, first) := NameSetup(rec, name);
      var c := MainRun(worlds, retro, rec, name, StartOver, ready, input);
      && first + [Restarted(named)] <= c.saves
      && Restarted(named).totalXp == 0 && Restarted(named).completedLevels == [] && Restarted(named).currentLevel == None
      && Restarted(named).playerName == (if rec.playerName == UnnamedPlayer then name else rec.playerName)
  {
  }
}
