/**
  * The content the engine reads but does not own: the `worlds/` directory,
  * each world's level directories, and per level its `mission.yaml` and hint
  * files.
  */
module Catalog {
  import opened Wrappers
  import opened Hints

  /**
    * The keys of `mission.yaml` that `play_level` indexes directly (the
    * others it reads with `.get` and a default); `None` for a missing key.
    */
  datatype Mission = Mission(name: Option<string>, description: Option<string>, objective: Option<string>, xp: Option<int>)

  /** Whether the briefing's `mission["name"]`, `["description"]`, `["objective"]` and `["xp"]` all succeed. */
  predicate Briefable(m: Mission) {
    m.name.Some? && m.description.Some? && m.objective.Some? && m.xp.Some?
  }

  /**
    * One item of a world directory, as `iterdir` yields it: its name,
    * whether it is a directory, `mission.yaml` if that file exists, and the
    * hint files.
    */
  datatype Entry = Entry(name: string, isDir: bool, mission: Option<Mission>, hints: HintFiles)

  /** `worlds/`: the items of every world directory that exists, keyed by world name. */
  type WorldsDir = map<string, seq<Entry>>

  /** The five worlds in campaign order. */
  const AllWorlds: seq<string> := [
    "world-1-basics",
    "world-2-deployments",
    "world-3-networking",
    "world-4-storage",
    "world-5-security"]

  /** `[d for d in world_path.iterdir() if d.is_dir()]`. */
  function Dirs(items: seq<Entry>): seq<Entry> {
    if |items| == 0 then []
    else (if items[0].isDir then [items[0]] else []) + Dirs(items[1..])
  }

  /**
    * The listing of `a + b` is the listing of `a` followed by that of `b`;
    * with `DirsOne`, the directories keep their order and their number of
    * occurrences.
    */
  lemma {:induction false} DirsConcat(a: seq<Entry>, b: seq<Entry>)
    ensures Dirs(a + b) == Dirs(a) + Dirs(b)
    decreases |a|
  {
    if |a| == 0 {
      assert a + b == b;
    } else {
      assert (a + b)[0] == a[0] && (a + b)[1..] == a[1..] + b;
      DirsConcat(a[1..], b);
    }
  }

  /** The listing of one item: the item itself when it is a directory, nothing otherwise. */
  lemma DirsOne(e: Entry)
    ensures Dirs([e]) == if e.isDir then [e] else []
  {
    assert [e][1..] == [];
  }

  /** `Dirs` keeps exactly the directories among the items. */
  lemma {:induction false} DirsSelects(items: seq<Entry>)
    ensures var ds := Dirs(items);
      && |ds| <= |items|
      && (forall k :: 0 <= k < |ds| ==> ds[k].isDir && ds[k] in items)
      && (forall e :: e in items && e.isDir ==> e in ds)
  {
    if items != [] {
      DirsSelects(items[1..]);
      assert items == [items[0]] + items[1..];
    }
  }
}
