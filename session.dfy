/**
  * `play_level` as a machine over the player's input. Each step is one
  * answer to "Choose your action"; `validate` carries the exit code of
  * `validate.sh` and the answer to the confirm prompt that follows it, and
  * `skip` carries the answer to "Skip this level?". The session keeps the
  * unlocked hint tier and the attempt count, both starting at 0, and ends
  * with `True`, `False` or `sys.exit(0)`.
  */
module Session {
  import opened Wrappers
  import opened Progress
  import opened Hints
  import opened Catalog
  import opened Text

  /** One answer to the action prompt, with the answers of the prompts it leads to. */
  datatype Step =
    | Check
    | Guide
    | RequestHint
    | Solution
    | Validate(exitCode: int, answer: bool)
    | Skip(confirmed: bool)
    | Quit

  datatype Milestone = WorldComplete | Halfway | FinalBoss | GameComplete

  /**
    * What a step shows that the logic decides: the hint display for a tier
    * (what it prints is `ShowProgressiveHints(hints, tier, false)`), an
    * encouragement line, a celebration.
    */
  datatype Notice = HintShown(tier: nat) | Encouragement(index: nat) | Celebration(milestone: Milestone)

  /**
    * How a session ends: `play_level` returns, the program exits on `quit`,
    * `load_mission` raises because `mission.yaml` is missing, or the input
    * runs out while the prompt still waits.
    */
  datatype Resolution = Returned(proceed: bool) | Exited | Crashed | Waiting

  /** The level being played: its directory name, `mission["xp"]` and its hint files. */
  datatype Level = Level(name: string, xp: int, hints: HintFiles)

  /** The loop's state: the progress record, `current_hint_level` and `attempts`. */
  datatype Loop = Loop(rec: Record, tier: nat, attempts: nat)

  /** One step's effect: the next state, whether it saved, what it showed, and whether the session ended. */
  datatype Turn = Turn(next: Loop, saved: bool, notices: seq<Notice>, done: Option<Resolution>)

  /** A whole session: the last state, every record saved in order, every notice, the resolution and the steps used. */
  datatype Outcome = Outcome(last: Loop, saves: seq<Record>, notices: seq<Notice>, resolution: Resolution, used: nat)

  predicate NoDuplicates(s: seq<string>) {
    forall i, j :: 0 <= i < j < |s| ==> s[i] != s[j]
  }

  /**
    * A passing validation's update: `total_xp += xp` on every pass, and the
    * level appended to `completed_levels` only when it is not in it yet.
    */
  function Credit(rec: Record, name: string, xp: int): (r: Record)
    ensures r.totalXp == rec.totalXp + xp
    ensures name in r.completedLevels
    ensures rec.completedLevels <= r.completedLevels && |r.completedLevels| <= |rec.completedLevels| + 1
    ensures forall l :: l in r.completedLevels <==> l in rec.completedLevels || l == name
    ensures NoDuplicates(rec.completedLevels) ==> NoDuplicates(r.completedLevels)
    ensures r.currentWorld == rec.currentWorld && r.currentLevel == rec.currentLevel && r.playerName == rec.playerName && r.extra == rec.extra
  {
    var completed := if name in rec.completedLevels then rec.completedLevels else rec.completedLevels + [name];
    rec.(totalXp := rec.totalXp + xp, completedLevels := completed)
  }

  /** The milestone a completed count triggers; it is an equality test, so it fires whenever the count is exactly one of these. */
  function MilestoneAt(count: int): (m: Option<Milestone>)
    ensures m.Some? <==> count == 10 || count == 25 || count == 49 || count == 50
  {
    if count == 10 then Some(WorldComplete)
    else if count == 25 then Some(Halfway)
    else if count == 49 then Some(FinalBoss)
    else if count == 50 then Some(GameComplete)
    else None
  }

  /** The celebrations after a pass: one at most, and only with the retro interface. */
  function Celebrations(retro: bool, count: int): (ns: seq<Notice>)
    ensures |ns| <= 1
    ensures ns != [] <==> retro && MilestoneAt(count).Some?
  {
    if retro && MilestoneAt(count).Some? then [Celebration(MilestoneAt(count).value)] else []
  }

  /** Whether a step passes validation. */
  predicate Passes(step: Step) {
    step.Validate? && step.exitCode == 0
  }

  /** One pass of `play_level`'s `while True` loop. */
  function Take(lv: Level, retro: bool, s: Loop, step: Step): (t: Turn)
    ensures t.saved <==> Passes(step)
    ensures Passes(step) ==> t.next.rec == Credit(s.rec, lv.name, lv.xp) && t.done == Some(Returned(step.answer))
    ensures !Passes(step) ==> t.next.rec == s.rec
    ensures t.next.tier == (if step.RequestHint? then s.tier + 1
                            else if step.Validate? && !Passes(step) then Min(s.tier + 1, 3)
                            else s.tier)
    ensures t.next.attempts == s.attempts + (if step.Validate? then 1 else 0)
    ensures t.done.Some? <==> Passes(step) || step.Quit? || (step.Validate? && !step.answer) || step == Skip(true)
    ensures t.done == Some(Exited) <==> step.Quit?
  {
    match step
    case Check => Turn(s, false, [], None)
    case Guide => Turn(s, false, [], None)
    case Solution => Turn(s, false, [], None)
    case RequestHint =>
      var tier := s.tier + 1;
      Turn(s.(tier := tier), false, [HintShown(tier)], None)
    case Validate(code, answer) =>
      var attempts := s.attempts + 1;
      if code == 0 then
        var rec := Credit(s.rec, lv.name, lv.xp);
        Turn(Loop(rec, s.tier, attempts), true, Celebrations(retro, |rec.completedLevels|), Some(Returned(answer)))
      else
        var tier := Min(s.tier + 1, 3);
        Turn(Loop(s.rec, tier, attempts), false, [Encouragement(attempts % 4)],
             if answer then None else Some(Returned(false)))
    case Skip(confirmed) => Turn(s, false, [], if confirmed then Some(Returned(true)) else None)
    case Quit => Turn(s, false, [], Some(Exited))
  }

  /** The loop from input position `i`, with `saves` and `notices` accumulated so far. */
  function RunFrom(lv: Level, retro: bool, input: seq<Step>, i: nat, s: Loop, saves: seq<Record>, notices: seq<Notice>): (o: Outcome)
    requires i <= |input|
    ensures i <= o.used <= |input|
    ensures o.resolution != Crashed
    ensures o.resolution == Waiting ==> o.used == |input|
    ensures o.resolution != Waiting ==> o.used > i
    ensures saves <= o.saves && notices <= o.notices
    decreases |input| - i
  {
    if i == |input| then Outcome(s, saves, notices, Waiting, i)
    else
      var t := Take(lv, retro, s, input[i]);
      var saves' := if t.saved then saves + [t.next.rec] else saves;
      var notices' := notices + t.notices;
      match t.done
      case Some(res) => Outcome(t.next, saves', notices', res, i + 1)
      case None => RunFrom(lv, retro, input, i + 1, t.next, saves', notices')
  }

  /** One step of the loop, unfolded. */
  lemma RunStep(lv: Level, retro: bool, input: seq<Step>, i: nat, s: Loop, saves: seq<Record>, notices: seq<Notice>)
    requires i < |input|
    ensures var t := Take(lv, retro, s, input[i]);
      var saves' := if t.saved then saves + [t.next.rec] else saves;
      RunFrom(lv, retro, input, i, s, saves, notices) ==
        if t.done.Some? then Outcome(t.next, saves', notices + t.notices, t.done.value, i + 1)
        else RunFrom(lv, retro, input, i + 1, t.next, saves', notices + t.notices)
  {
  }

  /**
    * Whether the retro start screen's `int(level_name.split("-")[1])`
    * raises: the name contains `level-` and its second `-`-separated field
    * is not an integer literal.
    */
  predicate RetroNumberFails(name: string) {
    HasInfix(name, "level-") &&
      (InfixChars(name, "level-", 5);
       !IntLiteral(SplitOn(name, '-')[1]))
  }

  /** `level-intro`, `level-` and the like: `level-` followed by no number, so the retro start screen raises. */
  lemma RetroNumberMissing(word: string)
    requires '-' !in word
    requires word == [] || (!IsDigit(word[0]) && !IsSpace(word[0]) && word[0] != '+')
    ensures RetroNumberFails("level-" + word)
  {
    var n := "level-" + word;
    InfixOfPrefix("level-", word);
    assert n == "level" + ['-'] + word;
    SplitAtFirst("level", word, '-');
    NotIntLiteral(word);
  }

  /** `my-level-1` and the like: the second field is `level`, not the number, so the retro start screen raises. */
  lemma RetroNumberMisplaced(prefix: string, rest: string)
    requires '-' !in prefix
    ensures RetroNumberFails(prefix + "-level-" + rest)
  {
    MisplacedInfix(prefix, rest);
    MisplacedField(prefix, rest);
    NotIntLiteral("level");
  }

  lemma MisplacedInfix(prefix: string, rest: string)
    ensures HasInfix(prefix + "-level-" + rest, "level-")
  {
    assert prefix + "-level-" + rest == (prefix + "-") + ("level-" + rest);
    InfixOfPrefix("level-", rest);
    InfixOfLonger(prefix + "-", "level-" + rest, "level-");
  }

  lemma MisplacedField(prefix: string, rest: string)
    requires '-' !in prefix
    ensures |SplitOn(prefix + "-level-" + rest, '-')| >= 2 && SplitOn(prefix + "-level-" + rest, '-')[1] == "level"
  {
    assert prefix + "-level-" + rest == prefix + ['-'] + ("level" + ['-'] + rest);
    SplitAtFirst(prefix, "level" + ['-'] + rest, '-');
    SplitAtFirst("level", rest, '-');
  }

  /** `level-3-pods` and the like: a digit run after `level-` numbers the level. */
  lemma RetroNumberParses(digits: string, rest: string)
    requires digits != [] && AllDigits(digits)
    ensures !RetroNumberFails("level-" + digits + "-" + rest)
  {
    var n := "level-" + digits + "-" + rest;
    assert '-' !in digits;
    assert n == "level" + ['-'] + (digits + ['-'] + rest);
    SplitAtFirst("level", digits + ['-'] + rest, '-');
    SplitAtFirst(digits, rest, '-');
    DigitsIntLiteral(digits);
  }

  /** Whether `play_level` reaches its action loop: `mission.yaml` exists, the briefing's keys are there, and the retro screen can number the level. */
  predicate Launches(e: Entry, retro: bool) {
    && e.mission.Some? && Briefable(e.mission.value)
    && !(retro && RetroNumberFails(e.name))
  }

  /** A session of `play_level` on one level directory, from record `rec`. */
  function Play(e: Entry, retro: bool, rec: Record, input: seq<Step>): (o: Outcome)
    ensures o.used <= |input|
    ensures o.resolution == Crashed <==> !Launches(e, retro)
    ensures o.resolution == Crashed ==> o.used == 0 && o.saves == [] && o.last.rec == rec
    ensures o.resolution == Waiting ==> o.used == |input|
  {
    if !Launches(e, retro) then Outcome(Loop(rec, 0, 0), [], [], Crashed, 0)
    else RunFrom(Level(e.name, e.mission.value.xp.value, e.hints), retro, input, 0, Loop(rec, 0, 0), [], [])
  }

  /** Steps that change nothing and end nothing: display actions, a declined skip, a failure the player retries. */
  predicate Passive(step: Step) {
    || step.Check? || step.Guide? || step.RequestHint? || step.Solution?
    || step == Skip(false)
    || (step.Validate? && step.exitCode != 0 && step.answer)
  }

  /** Display actions, declined skips and retried failures leave the record alone, save nothing and wait for more input. */
  lemma {:induction false} PassiveKeepsProgress(lv: Level, retro: bool, input: seq<Step>, i: nat, s: Loop, saves: seq<Record>, notices: seq<Notice>)
    requires i <= |input|
    requires forall k :: i <= k < |input| ==> Passive(input[k])
    ensures var o := RunFrom(lv, retro, input, i, s, saves, notices);
      o.resolution == Waiting && o.last.rec == s.rec && o.saves == saves && o.used == |input|
    decreases |input| - i
  {
    if i < |input| {
      var t := Take(lv, retro, s, input[i]);
      PassiveKeepsProgress(lv, retro, input, i + 1, t.next, saves, notices + t.notices);
    }
  }

  /** The displays of `n` successive `hints` requests from tier `tier`. */
  function HintDisplays(tier: nat, n: nat): (ns: seq<Notice>)
    ensures |ns| == n
    ensures forall k :: 0 <= k < n ==> ns[k] == HintShown(tier + k + 1)
    decreases n
  {
    if n == 0 then [] else [HintShown(tier + 1)] + HintDisplays(tier + 1, n - 1)
  }

  /** The encouragements after `n` successive failures, the first being attempt `attempts + 1`. */
  function Encouragements(attempts: nat, n: nat): (ns: seq<Notice>)
    ensures |ns| == n
    decreases n
  {
    if n == 0 then [] else [Encouragement((attempts + 1) % 4)] + Encouragements(attempts + 1, n - 1)
  }

  /** The `k`-th of those encouragements is message `(attempts + k + 1) % 4`: the four messages in turn. */
  lemma {:induction false} EncouragementsCycle(attempts: nat, n: nat)
    ensures forall k :: 0 <= k < n ==> Encouragements(attempts, n)[k] == Encouragement((attempts + k + 1) % 4)
    decreases n
  {
    if n > 0 {
      EncouragementsCycle(attempts + 1, n - 1);
      var ns := Encouragements(attempts, n);
      assert ns == [Encouragement((attempts + 1) % 4)] + Encouragements(attempts + 1, n - 1);
      forall k | 0 <= k < n
        ensures ns[k] == Encouragement((attempts + k + 1) % 4)
      {
        if k > 0 {
          assert ns[k] == Encouragements(attempts + 1, n - 1)[k - 1];
        }
      }
    }
  }

  /** Each explicit `hints` request adds exactly one to the tier, with no cap, and shows the newest hint of the raised tier. */
  lemma {:induction false} HintRequestsUncapped(lv: Level, retro: bool, input: seq<Step>, i: nat, s: Loop, saves: seq<Record>, notices: seq<Notice>)
    requires i <= |input|
    requires forall k :: i <= k < |input| ==> input[k] == RequestHint
    ensures var o := RunFrom(lv, retro, input, i, s, saves, notices);
      && o.resolution == Waiting
      && o.last == s.(tier := s.tier + (|input| - i))
      && o.saves == saves
      && o.notices == notices + HintDisplays(s.tier, |input| - i)
    decreases |input| - i
  {
    if i < |input| {
      var t := Take(lv, retro, s, input[i]);
      assert t.notices == [HintShown(s.tier + 1)];
      assert t.next == s.(tier := s.tier + 1);
      HintRequestsUncapped(lv, retro, input, i + 1, t.next, saves, notices + t.notices);
      assert HintDisplays(s.tier, |input| - i) == t.notices + HintDisplays(s.tier + 1, |input| - i - 1);
    }
  }

  /**
    * A `hints` request shows `show_progressive_hints(level_path, tier,
    * show_all=False)` for the raised tier: the level's hint at that position,
    * or "All hints have been unlocked!" past the last, or "No hints
    * available" when the level has none.
    */
  lemma HintRequestShows(lv: Level, retro: bool, s: Loop)
    ensures var t := Take(lv, retro, s, RequestHint);
      var hs, d := AvailableHints(lv.hints), ShowProgressiveHints(lv.hints, t.next.tier, false);
      && t.next.tier == s.tier + 1 && t.notices == [HintShown(t.next.tier)]
      && (hs == [] ==> d.lines == [NoHints])
      && (hs != [] && t.next.tier <= |hs| ==> d.lines[1] == Shown(t.next.tier, hs[t.next.tier - 1].text))
      && (hs != [] && t.next.tier > |hs| ==> d.lines == [Header(|hs|, |hs|), AllUnlocked])
  {
    NewestHintView(lv.hints, s.tier + 1);
  }

  /**
    * A failure sets the tier to `min(tier + 1, 3)`, so after four or more
    * `hints` requests a failed validation lowers it to 3.
    */
  lemma FailureLowersTier(lv: Level, retro: bool, s: Loop, code: int, answer: bool)
    requires code != 0 && s.tier > 3
    ensures Take(lv, retro, s, Validate(code, answer)).next.tier == 3 < s.tier
  {
  }

  /** Retried failures raise the tier one at a time up to 3 and no further, and save nothing. */
  lemma {:induction false} FailuresCapTier(lv: Level, retro: bool, input: seq<Step>, i: nat, s: Loop, saves: seq<Record>, notices: seq<Notice>)
    requires i <= |input| && s.tier <= 3
    requires forall k :: i <= k < |input| ==> input[k].Validate? && input[k].exitCode != 0 && input[k].answer
    ensures var o := RunFrom(lv, retro, input, i, s, saves, notices);
      && o.resolution == Waiting
      && o.last == Loop(s.rec, Min(s.tier + (|input| - i), 3), s.attempts + (|input| - i))
      && o.saves == saves
    decreases |input| - i
  {
    if i < |input| {
      var next := Loop(s.rec, Min(s.tier + 1, 3), s.attempts + 1);
      RetriedFailure(lv, retro, input, i, s, saves, notices);
      FailuresCapTier(lv, retro, input, i + 1, next, saves, notices + [Encouragement((s.attempts + 1) % 4)]);
      assert Min(next.tier + (|input| - i - 1), 3) == Min(s.tier + (|input| - i), 3);
    }
  }

  /** After attempt number `a` of a run of retried failures, encouragement message `a % 4` is shown. */
  lemma {:induction false} FailuresEncourage(lv: Level, retro: bool, input: seq<Step>, i: nat, s: Loop, saves: seq<Record>, notices: seq<Notice>)
    requires i <= |input|
    requires forall k :: i <= k < |input| ==> input[k].Validate? && input[k].exitCode != 0 && input[k].answer
    ensures RunFrom(lv, retro, input, i, s, saves, notices).notices == notices + Encouragements(s.attempts, |input| - i)
    decreases |input| - i
  {
    if i < |input| {
      var shown := [Encouragement((s.attempts + 1) % 4)];
      RetriedFailure(lv, retro, input, i, s, saves, notices);
      FailuresEncourage(lv, retro, input, i + 1, Loop(s.rec, Min(s.tier + 1, 3), s.attempts + 1), saves, notices + shown);
      EncouragementsAfter(notices, s.attempts, |input| - i);
    }
  }

  lemma EncouragementsAfter(notices: seq<Notice>, attempts: nat, n: nat)
    requires n > 0
    ensures notices + [Encouragement((attempts + 1) % 4)] + Encouragements(attempts + 1, n - 1) == notices + Encouragements(attempts, n)
  {
    assert Encouragements(attempts, n) == [Encouragement((attempts + 1) % 4)] + Encouragements(attempts + 1, n - 1);
  }

  /** A failed validation the player retries: the tier rises to at most 3, one more attempt, one encouragement. */
  lemma RetriedFailure(lv: Level, retro: bool, input: seq<Step>, i: nat, s: Loop, saves: seq<Record>, notices: seq<Notice>)
    requires i < |input| && input[i].Validate? && input[i].exitCode != 0 && input[i].answer
    ensures RunFrom(lv, retro, input, i, s, saves, notices) ==
      RunFrom(lv, retro, input, i + 1, Loop(s.rec, Min(s.tier + 1, 3), s.attempts + 1), saves, notices + [Encouragement((s.attempts + 1) % 4)])
  {
  }

  /** Without `hints` requests the tier never passes 3, whatever else happens. */
  lemma {:induction false} TierStaysLow(lv: Level, retro: bool, input: seq<Step>, i: nat, s: Loop, saves: seq<Record>, notices: seq<Notice>)
    requires i <= |input| && s.tier <= 3
    requires forall k :: i <= k < |input| ==> !input[k].RequestHint?
    ensures RunFrom(lv, retro, input, i, s, saves, notices).last.tier <= 3
    decreases |input| - i
  {
    if i < |input| {
      var t := Take(lv, retro, s, input[i]);
      if t.done.None? {
        TierStaysLow(lv, retro, input, i + 1, t.next, if t.saved then saves + [t.next.rec] else saves, notices + t.notices);
      }
    }
  }

  /** A confirmed skip returns `True` at once, with no XP, no completion and no save. */
  lemma SkipReturnsTrue(lv: Level, retro: bool, input: seq<Step>, i: nat, s: Loop, saves: seq<Record>, notices: seq<Notice>)
    requires i < |input| && input[i] == Skip(true)
    ensures RunFrom(lv, retro, input, i, s, saves, notices) == Outcome(s, saves, notices, Returned(true), i + 1)
  {
  }

  /** A pass credits the level, saves the credited record, and declining "Ready for the next challenge?" returns `False`. */
  lemma PassThenDecline(lv: Level, retro: bool, input: seq<Step>, i: nat, s: Loop, saves: seq<Record>, notices: seq<Notice>)
    requires i < |input| && input[i] == Validate(0, false)
    ensures var o := RunFrom(lv, retro, input, i, s, saves, notices);
      && o.resolution == Returned(false)
      && o.last.rec == Credit(s.rec, lv.name, lv.xp)
      && o.saves == saves + [o.last.rec]
      && o.used == i + 1
  {
  }

  /** A failure followed by declining "Try again?" returns `False`, with nothing credited or saved. */
  lemma FailThenDecline(lv: Level, retro: bool, input: seq<Step>, i: nat, s: Loop, saves: seq<Record>, notices: seq<Notice>)
    requires i < |input| && input[i].Validate? && input[i].exitCode != 0 && !input[i].answer
    ensures var o := RunFrom(lv, retro, input, i, s, saves, notices);
      && o.resolution == Returned(false)
      && o.last.rec == s.rec
      && o.saves == saves
      && o.notices == notices + [Encouragement((s.attempts + 1) % 4)]
  {
  }

  /** `quit` exits the program without a further save. */
  lemma QuitExits(lv: Level, retro: bool, input: seq<Step>, i: nat, s: Loop, saves: seq<Record>, notices: seq<Notice>)
    requires i < |input| && input[i] == Quit
    ensures var o := RunFrom(lv, retro, input, i, s, saves, notices);
      o.resolution == Exited && o.saves == saves && o.last.rec == s.rec
  {
  }

  /**
    * A session changes the record at most once: either it leaves it as it
    * was and saves nothing, or it credits the level exactly once, saves that
    * record once, and returns.
    */
  lemma {:induction false} AtMostOneCredit(lv: Level, retro: bool, input: seq<Step>, i: nat, s: Loop, notices: seq<Notice>)
    requires i <= |input|
    ensures var o := RunFrom(lv, retro, input, i, s, [], notices);
      || (o.last.rec == s.rec && o.saves == [])
      || (o.resolution.Returned? && o.last.rec == Credit(s.rec, lv.name, lv.xp) && o.saves == [o.last.rec])
    decreases |input| - i
  {
    if i < |input| {
      var t := Take(lv, retro, s, input[i]);
      if t.done.None? {
        AtMostOneCredit(lv, retro, input, i + 1, t.next, notices + t.notices);
      }
    }
  }

  /** The same, for a whole session of `play_level`. */
  lemma SessionEffect(e: Entry, retro: bool, rec: Record, input: seq<Step>)
    ensures var o := Play(e, retro, rec, input);
      || (o.last.rec == rec && o.saves == [])
      || (o.resolution.Returned? && Launches(e, retro) && o.last.rec == Credit(rec, e.name, e.mission.value.xp.value) && o.saves == [o.last.rec])
  {
    if Launches(e, retro) {
      AtMostOneCredit(Level(e.name, e.mission.value.xp.value, e.hints), retro, input, 0, Loop(rec, 0, 0), []);
    }
  }

  /** Passing an already completed level again adds its XP again and leaves `completed_levels` as it was. */
  lemma RePassRecredits(rec: Record, name: string, xp: int)
    requires name in rec.completedLevels
    ensures Credit(rec, name, xp) == rec.(totalXp := rec.totalXp + xp)
  {
  }

  /** Crediting twice adds the XP twice but lists the level once. */
  lemma CreditTwice(rec: Record, name: string, xp: int)
    ensures var twice := Credit(Credit(rec, name, xp), name, xp);
      twice.totalXp == rec.totalXp + 2 * xp && twice.completedLevels == Credit(rec, name, xp).completedLevels
  {
  }

  /** With ten levels completed, passing one of them again celebrates "world complete" again. */
  lemma MilestoneRefires(lv: Level, s: Loop, answer: bool)
    requires lv.name in s.rec.completedLevels && |s.rec.completedLevels| == 10
    ensures Take(lv, true, s, Validate(0, answer)).notices == [Celebration(WorldComplete)]
  {
    RePassRecredits(s.rec, lv.name, lv.xp);
  }
}
