/**
  * `get_resource_status`: one `kubectl get <type> -n k8squest --no-headers`
  * per resource type, in a fixed order, summarised into one line of at most
  * three entries. The commands themselves are not modelled: their outcomes
  * are the input.
  */
module ResourceStatus {
  import opened Text

  const ResourceTypes: seq<string> := ["pods", "deployments", "services", "ingress", "pvc", "configmaps"]

  /** The outcome of one `kubectl get` call: it ran, it hit the 3-second timeout, or it could not run at all. */
  datatype Probe = Ran(returncode: int, stdout: string) | TimedOut | Failed

  function Min(a: int, b: int): int {
    if a <= b then a else b
  }

  /** The entry for one listing row of resource type number `kind`, from the row's whitespace tokens. */
  function Describe(kind: nat, parts: seq<string>): string
    requires kind < 6 && |parts| >= 2
  {
    var name := parts[0];
    if kind == 0 then "Pod " + name + ": " + parts[1]
    else if kind == 1 then "Deploy " + name + ": " + parts[1]
    else if kind == 2 then "Svc " + name + ": " + parts[1]
    else if kind == 3 then "Ingress " + name + ": " + (if |parts| > 2 then parts[2] else "?")
    else if kind == 4 then "PVC " + name + ": " + parts[1]
    else "CM " + name
  }

  /** The entries the given rows produce: one per row with at least two tokens, in row order. */
  function RowEntries(kind: nat, rows: seq<string>): (es: seq<string>)
    requires kind < 6
    ensures |es| <= |rows|
  {
    if |rows| == 0 then []
    else
      var parts := Tokens(rows[|rows| - 1]);
      RowEntries(kind, rows[..|rows| - 1]) + (if |parts| >= 2 then [Describe(kind, parts)] else [])
  }

  /** Whether `e` is the entry of one of `rows`: a row with at least two tokens, the first being the resource name. */
  predicate FromRow(kind: nat, rows: seq<string>, e: string)
    requires kind < 6
  {
    exists i :: 0 <= i < |rows| && |Tokens(rows[i])| >= 2 && e == Describe(kind, Tokens(rows[i]))
  }

  /** Every entry comes from a row with at least two tokens, the first being the resource name. */
  lemma EntriesFromRows(kind: nat, rows: seq<string>)
    requires kind < 6
    ensures forall e :: e in RowEntries(kind, rows) ==> FromRow(kind, rows, e)
  {
    var es := RowEntries(kind, rows);
    forall e | e in es ensures FromRow(kind, rows, e) {
      var k :| 0 <= k < |es| && es[k] == e;
      var i := EntryRow(kind, rows, k);
    }
  }

  /** The row entry number `k` comes from. */
  lemma {:induction false} EntryRow(kind: nat, rows: seq<string>, k: nat) returns (i: nat)
    requires kind < 6 && k < |RowEntries(kind, rows)|
    ensures i < |rows| && |Tokens(rows[i])| >= 2 && RowEntries(kind, rows)[k] == Describe(kind, Tokens(rows[i]))
    decreases |rows|
  {
    var n := |rows| - 1;
    var init := rows[..n];
    var es := RowEntries(kind, rows);
    assert es == RowEntries(kind, init) + (if |Tokens(rows[n])| >= 2 then [Describe(kind, Tokens(rows[n]))] else []);
    if k < |RowEntries(kind, init)| {
      i := EntryRow(kind, init, k);
      assert rows[i] == init[i];
    } else {
      i := n;
    }
  }

  /** Whether a listing produced output worth reading: `returncode == 0 and stdout.strip()`. */
  predicate Listed(p: Probe) {
    p.Ran? && p.returncode == 0 && Strip(p.stdout) != []
  }

  /** The first two rows of a listing: `stdout.strip().split("\n")[:2]`. */
  function FirstRows(p: Probe): (rows: seq<string>)
    requires Listed(p)
    ensures 1 <= |rows| <= 2
  {
    var lines := SplitOn(Strip(p.stdout), '\n');
    lines[..Min(2, |lines|)]
  }

  /** What one listing adds to the summary: nothing unless it was listed, and at most two entries. */
  function Contribution(kind: nat, p: Probe): (es: seq<string>)
    requires kind < 6
    ensures |es| <= 2
    ensures es != [] ==> Listed(p)
  {
    if Listed(p) then RowEntries(kind, FirstRows(p)) else []
  }

  /** One listing as the scan sees it: its entries and whether it was listed, or how it failed. */
  datatype Outcome = Listing(entries: seq<string>, listed: bool) | Timeout | Error

  function OutcomeOf(kind: nat, p: Probe): (o: Outcome)
    requires kind < 6
    ensures o.Listing? ==> |o.entries| <= 2 && (o.entries != [] ==> o.listed)
  {
    match p
    case TimedOut => Timeout
    case Failed => Error
    case Ran(_, _) => Listing(Contribution(kind, p), Listed(p))
  }

  function Outcomes(probes: seq<Probe>): (os: seq<Outcome>)
    requires |probes| == 6
    ensures |os| == |probes|
    ensures forall k :: 0 <= k < |os| ==> os[k] == OutcomeOf(k, probes[k])
  {
    seq(|probes|, k requires 0 <= k < |probes| => OutcomeOf(k, probes[k]))
  }

  /** Where the scan ends: with the collected entries, at a timeout, or at any other failure. */
  datatype Scan = Collected(parts: seq<string>) | HitTimeout | HitError

  /** The loop over resource types from number `kind` on, with `acc` collected so far. */
  function ScanFrom(os: seq<Outcome>, kind: nat, acc: seq<string>): Scan
    requires kind <= |os|
    decreases |os| - kind
  {
    if kind == |os| then Collected(acc)
    else match os[kind]
      case Timeout => HitTimeout
      case Error => HitError
      case Listing(entries, listed) =>
        var acc' := acc + entries;
        if listed && |acc'| >= 3 then Collected(acc')
        else ScanFrom(os, kind + 1, acc')
  }

  function Render(scan: Scan): string {
    match scan
    case HitTimeout => "Timeout"
    case HitError => "Checking..."
    case Collected(ps) => if ps == [] then "No resources found" else Join(ps[..Min(3, |ps|)], " | ")
  }

  /** The string `get_resource_status` returns. */
  function Summary(probes: seq<Probe>): string
    requires |probes| == 6
  {
    Render(ScanFrom(Outcomes(probes), 0, []))
  }

  /** The inner loop of `get_resource_status`: the entries of one listing's first rows, appended to `parts`. */
  method AppendRows(kind: nat, lines: seq<string>, parts: seq<string>) returns (statusParts: seq<string>)
    requires kind < 6
    ensures statusParts == parts + RowEntries(kind, lines)
  {
    statusParts := parts;
    var j := 0;
    while j < |lines|
      invariant 0 <= j <= |lines|
      invariant statusParts == parts + RowEntries(kind, lines[..j])
    {
      var tokens := Tokens(lines[j]);
      if |tokens| >= 2 {
        statusParts := statusParts + [Describe(kind, tokens)];
      }
      assert lines[..j + 1][..j] == lines[..j];
      j := j + 1;
    }
    assert lines[..j] == lines;
  }

  /** `get_resource_status`, loop for loop. */
  method GetResourceStatus(probes: seq<Probe>) returns (status: string)
    requires |probes| == 6
    ensures status == Summary(probes)
  {
    ghost var os := Outcomes(probes);
    var statusParts: seq<string> := [];
    var kind := 0;
    while kind < 6
      invariant 0 <= kind <= 6
      invariant ScanFrom(os, kind, statusParts) == ScanFrom(os, 0, [])
    {
      var result := probes[kind];
      assert os[kind] == OutcomeOf(kind, result);
      if result.TimedOut? {
        return "Timeout";
      }
      if result.Failed? {
        return "Checking...";
      }
      ghost var before := statusParts;
      if Listed(result) {
        statusParts := AppendRows(kind, FirstRows(result), statusParts);
        assert os[kind] == Listing(statusParts[|before|..], true) by {
          assert statusParts[|before|..] == RowEntries(kind, FirstRows(result));
        }
        ScanListing(os, kind, before);
        if |statusParts| >= 3 {
          break;
        }
      } else {
        assert os[kind] == Listing([], false);
        assert before + [] == before;
        ScanListing(os, kind, before);
      }
      kind := kind + 1;
    }
    status := Render(Collected(statusParts));
  }

  /** One step of the scan over a listing. */
  lemma ScanListing(os: seq<Outcome>, kind: nat, acc: seq<string>)
    requires kind < |os| && os[kind].Listing?
    ensures var acc' := acc + os[kind].entries;
      ScanFrom(os, kind, acc) == if os[kind].listed && |acc'| >= 3 then Collected(acc') else ScanFrom(os, kind + 1, acc')
  {
  }

  /** At most four entries are ever collected: the scan stops at three or more, and one type adds at most two. */
  lemma {:induction false} ScanBound(os: seq<Outcome>, kind: nat, acc: seq<string>)
    requires kind <= |os| && |acc| <= 2
    requires forall k :: 0 <= k < |os| && os[k].Listing? ==> |os[k].entries| <= 2 && (os[k].entries != [] ==> os[k].listed)
    ensures ScanFrom(os, kind, acc).Collected? ==> |ScanFrom(os, kind, acc).parts| <= 4
    decreases |os| - kind
  {
    if kind < |os| && os[kind].Listing? {
      var acc' := acc + os[kind].entries;
      if !(os[kind].listed && |acc'| >= 3) {
        ScanBound(os, kind + 1, acc');
      }
    }
  }

  /**
    * The summary is "Timeout" at a timeout, "Checking..." at any other
    * failure, "No resources found" when nothing was collected, and otherwise
    * the first one to three collected entries joined by `" | "`, of at most
    * four collected.
    */
  lemma SummaryShape(probes: seq<Probe>)
    requires |probes| == 6
    ensures var scan := ScanFrom(Outcomes(probes), 0, []);
      && (scan == HitTimeout ==> Summary(probes) == "Timeout")
      && (scan == HitError ==> Summary(probes) == "Checking...")
      && (scan == Collected([]) ==> Summary(probes) == "No resources found")
      && (scan.Collected? && scan.parts != [] ==>
            && |scan.parts| <= 4
            && Summary(probes) == Join(scan.parts[..Min(3, |scan.parts|)], " | "))
  {
    ScanBound(Outcomes(probes), 0, []);
  }

  /** A timeout on the very first listing ends the scan with "Timeout". */
  lemma FirstTimeout(probes: seq<Probe>)
    requires |probes| == 6 && probes[0] == TimedOut
    ensures Summary(probes) == "Timeout"
  {
    assert Outcomes(probes)[0] == Timeout;
  }

  /** The entries listings `lo` up to `hi` (excluded) contribute, in order. */
  function EntriesFrom(probes: seq<Probe>, lo: nat, hi: nat): seq<string>
    requires hi <= |probes| && hi <= 6
    decreases hi - lo
  {
    if lo >= hi then [] else Contribution(lo, probes[lo]) + EntriesFrom(probes, lo + 1, hi)
  }

  /**
    * Once the types up to number `k` have given three or more entries the
    * scan stops at `k` or before: whatever the later listings would have
    * returned, even timeouts, the summary is the same.
    */
  lemma StopsAfterThree(probes: seq<Probe>, others: seq<Probe>, k: nat)
    requires |probes| == 6 && |others| == 6 && k < 6
    requires forall j :: 0 <= j <= k ==> probes[j] == others[j] && probes[j].Ran?
    requires |EntriesFrom(probes, 0, k + 1)| >= 3
    ensures Summary(probes) == Summary(others)
  {
    var os, os' := Outcomes(probes), Outcomes(others);
    forall j | 0 <= j <= k
      ensures os[j] == os'[j] && os[j] == OutcomeOf(j, probes[j])
    {
      assert os[j] == OutcomeOf(j, probes[j]) && os'[j] == OutcomeOf(j, others[j]);
    }
    GatheredContributions(os, probes, 0, k + 1);
    ScanAgrees(os, os', 0, [], k);
  }

  /** The number of entries a run of listings gives. */
  function Gathered(os: seq<Outcome>, lo: nat, hi: nat): nat
    requires lo <= hi <= |os| && forall j :: lo <= j < hi ==> os[j].Listing?
    decreases hi - lo
  {
    if lo == hi then 0 else |os[lo].entries| + Gathered(os, lo + 1, hi)
  }

  /** What the listings that ran give, as the scan sees it, is their contributions. */
  lemma {:induction false} GatheredContributions(os: seq<Outcome>, probes: seq<Probe>, lo: nat, hi: nat)
    requires |probes| == 6 && lo <= hi <= 6 && |os| == 6
    requires forall j :: lo <= j < hi ==> probes[j].Ran? && os[j] == OutcomeOf(j, probes[j])
    ensures forall j :: lo <= j < hi ==> os[j].Listing?
    ensures Gathered(os, lo, hi) == |EntriesFrom(probes, lo, hi)|
    decreases hi - lo
  {
    if lo < hi {
      GatheredContributions(os, probes, lo + 1, hi);
    }
  }

  /** From type `kind` on, with fewer than three entries so far, a scan that reaches three by type `k` ignores the later listings. */
  lemma {:induction false} ScanAgrees(os: seq<Outcome>, os': seq<Outcome>, kind: nat, acc: seq<string>, k: nat)
    requires |os'| == |os| && kind <= k < |os| && |acc| < 3
    requires forall j :: kind <= j <= k ==> os[j] == os'[j] && os[j].Listing? && (os[j].entries != [] ==> os[j].listed)
    requires |acc| + Gathered(os, kind, k + 1) >= 3
    ensures ScanFrom(os, kind, acc) == ScanFrom(os', kind, acc)
    decreases k - kind
  {
    ScanListing(os, kind, acc);
    ScanListing(os', kind, acc);
    var acc' := acc + os[kind].entries;
    if !(os[kind].listed && |acc'| >= 3) {
      ScanAgrees(os, os', kind + 1, acc', k);
    }
  }

  /** Two listings at the front giving three or more entries decide the scan. */
  lemma ScanStops(os: seq<Outcome>)
    requires |os| >= 2 && os[0].Listing? && os[1].Listing?
    requires |os[0].entries| <= 2 && (os[1].entries != [] ==> os[1].listed)
    requires |os[0].entries + os[1].entries| >= 3
    ensures ScanFrom(os, 0, []) == Collected(os[0].entries + os[1].entries)
  {
    ScanListing(os, 0, []);
    assert [] + os[0].entries == os[0].entries;
    ScanListing(os, 1, os[0].entries);
  }
}
