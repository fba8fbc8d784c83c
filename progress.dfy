/**
  * The player's progress record and its persisted form. The engine keeps a
  * dictionary with the keys `total_xp`, `completed_levels`, `current_world`,
  * `current_level` and `player_name`, reads it from `progress.json` once at
  * start-up and writes it back whole on every `save_progress`, keys it does
  * not use included.
  */
module Progress {
  import opened Wrappers

  /** The progress dictionary: its five fields, and in `extra` whatever other keys the loaded file held. */
  datatype Record = Record(
    totalXp: int,
    completedLevels: seq<string>,
    currentWorld: string,
    currentLevel: Option<string>,
    playerName: string,
    extra: map<string, Value>)

  const FirstWorld: string := "world-1-basics"

  /** The placeholder name that makes `main` ask for a real one. */
  const UnnamedPlayer: string := "Padawan"

  /** The record a first run starts from, when there is no progress file. */
  const Fresh: Record := Record(0, [], FirstWorld, None, UnnamedPlayer, map[])

  /** Python's truth test on `progress.get("current_level")`: unset, `None` and `""` are all false. */
  predicate LevelSet(current: Option<string>) {
    current.Some? && current.value != ""
  }

  /** The JSON values the progress file holds; `Other` stands for any other shape. */
  datatype Value = Int(i: int) | Str(s: string) | StrList(items: seq<string>) | Null | Other

  /** What `progress.json` is at load time. */
  datatype SavedFile = NoFile | Unparsable | Object(fields: map<string, Value>)

  datatype LoadError = CorruptJson | BadField(key: string)

  /** The keys the engine reads and writes. */
  const FieldKeys: set<string> := {"total_xp", "completed_levels", "current_world", "current_level", "player_name"}

  /** A record whose `extra` keys are apart from the five fields, as every loaded record's are. */
  predicate Separate(r: Record) {
    r.extra.Keys !! FieldKeys
  }

  /** The dictionary `json.dump` writes for a record: the other keys, then the five fields. */
  function Encode(r: Record): map<string, Value> {
    r.extra + map[
      "total_xp" := Int(r.totalXp),
      "completed_levels" := StrList(r.completedLevels),
      "current_world" := Str(r.currentWorld),
      "current_level" := (match r.currentLevel case None => Null case Some(l) => Str(l)),
      "player_name" := Str(r.playerName)]
  }

  /** The fields a loaded object must have, each of its expected JSON shape. */
  predicate WellTyped(m: map<string, Value>) {
    && "total_xp" in m && m["total_xp"].Int?
    && "completed_levels" in m && m["completed_levels"].StrList?
    && "player_name" in m && m["player_name"].Str?
    && ("current_world" in m ==> m["current_world"].Str?)
    && ("current_level" in m ==> m["current_level"].Str? || m["current_level"].Null?)
  }

  /** The first key of a loaded object that is missing or of the wrong shape. */
  function FirstBadKey(m: map<string, Value>): string
    requires !WellTyped(m)
  {
    if !("total_xp" in m && m["total_xp"].Int?) then "total_xp"
    else if !("completed_levels" in m && m["completed_levels"].StrList?) then "completed_levels"
    else if !("player_name" in m && m["player_name"].Str?) then "player_name"
    else if !("current_world" in m ==> m["current_world"].Str?) then "current_world"
    else "current_level"
  }

  /**
    * `load_progress`: no file gives the fresh record; a file that is not JSON
    * is an error (the source lets `json.load` raise); a missing
    * `current_level` is backfilled with `None`.
    */
  function LoadProgress(f: SavedFile): (r: Result<Record, LoadError>)
    ensures f.NoFile? ==> r == Ok(Fresh)
    ensures f.Unparsable? ==> r == Err(CorruptJson)
    ensures f.Object? ==> (r.Ok? <==> WellTyped(f.fields))
    ensures f.Object? && r.Ok? ==>
      && f.fields["total_xp"] == Int(r.value.totalXp)
      && f.fields["completed_levels"] == StrList(r.value.completedLevels)
      && f.fields["player_name"] == Str(r.value.playerName)
      && ("current_world" in f.fields ==> f.fields["current_world"] == Str(r.value.currentWorld))
      && ("current_world" !in f.fields ==> r.value.currentWorld == FirstWorld)
      && ("current_level" in f.fields && f.fields["current_level"].Str? ==> r.value.currentLevel == Some(f.fields["current_level"].s))
      && ("current_level" in f.fields && f.fields["current_level"] == Null ==> r.value.currentLevel == None)
      && ("current_level" !in f.fields ==> r.value.currentLevel == None)
      && (forall k :: k in f.fields && k !in FieldKeys <==> k in r.value.extra)
      && (forall k :: k in r.value.extra ==> r.value.extra[k] == f.fields[k])
    ensures r.Ok? ==> Separate(r.value)
  {
    match f
    case NoFile => Ok(Fresh)
    case Unparsable => Err(CorruptJson)
    case Object(m) =>
      if !WellTyped(m) then Err(BadField(FirstBadKey(m)))
      else
        var world := if "current_world" in m then m["current_world"].s else FirstWorld;
        var level := if "current_level" in m && m["current_level"].Str? then Some(m["current_level"].s) else None;
        Ok(Record(m["total_xp"].i, m["completed_levels"].items, world, level, m["player_name"].s, m - FieldKeys))
  }

  /** Saving a record and loading it back gives the same record, the other keys included. */
  lemma LoadAfterSave(r: Record)
    requires Separate(r)
    ensures LoadProgress(Object(Encode(r))) == Ok(r)
  {
    var m := Encode(r);
    assert WellTyped(m);
    assert m - FieldKeys == r.extra;
    match r.currentLevel
    case None => assert m["current_level"] == Null;
    case Some(l) => assert m["current_level"] == Str(l);
  }

  /** The backfill: an object without `current_level` loads as if it held `null`. */
  lemma MissingLevelIsNull(m: map<string, Value>)
    requires "current_level" !in m
    ensures LoadProgress(Object(m)) == LoadProgress(Object(m["current_level" := Null]))
  {
    var m' := m["current_level" := Null];
    assert WellTyped(m) <==> WellTyped(m');
    assert m - FieldKeys == m' - FieldKeys;
    if !WellTyped(m) {
      assert FirstBadKey(m) == FirstBadKey(m');
    }
  }
}
