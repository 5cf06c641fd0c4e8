/**
 * The monitor's shared state and the per-line update the tailing loop
 * applies to it: append the line to a recent-lines buffer of capacity ten,
 * dropping the oldest line when full, then bump the counter of the line's
 * category, if it has one.
 */
module Monitor {
  import opened Wrappers
  import opened Text
  import opened Threats

  /** The capacity of the recent-lines buffer. */
  const Capacity: nat := 10

  function Min(a: nat, b: nat): nat { if a <= b then a else b }

  /** The counter of category `k`; absence from the table means zero. */
  function CountFor(counts: map<string, int>, k: string): int
  {
    if k in counts then counts[k] else 0
  }

  // ---------------------------------------------------------------------
  // The recent-lines buffer

  /** The last min(|lines|, Capacity) lines, oldest first. */
  ghost function Window(lines: seq<string>): (r: seq<string>)
    ensures |r| == Min(|lines|, Capacity)
  {
    lines[|lines| - Min(|lines|, Capacity)..]
  }

  /** One buffer step: evict the oldest line when full, then append `line`. */
  function Append(buffer: seq<string>, line: string): (r: seq<string>)
    ensures |buffer| <= |r| <= |buffer| + 1
    ensures |r| == |buffer| + 1 <==> |buffer| < Capacity
    ensures |buffer| <= Capacity ==> |r| <= Capacity
    ensures r[|r| - 1] == line
    ensures r[..|r| - 1] == buffer[|buffer| + 1 - |r|..]
  {
    if |buffer| >= Capacity then buffer[1..] + [line] else buffer + [line]
  }

  /** Appending to the window of a history yields the window of the longer history. */
  lemma WindowStep(lines: seq<string>, line: string)
    ensures Window(lines + [line]) == Append(Window(lines), line)
  {
    var n := |lines|;
    var all := lines + [line];
    if n < Capacity {
      assert Window(lines) == lines;
      assert Window(all) == all;
    } else {
      assert Window(lines) == lines[n - Capacity..];
      assert Window(all) == all[n + 1 - Capacity..];
      assert all[n + 1 - Capacity..] == lines[n + 1 - Capacity..] + [line];
    }
  }

  /** Once at least Capacity lines have been fed, the window is exactly the last Capacity of them. */
  lemma WindowFull(lines: seq<string>)
    requires |lines| >= Capacity
    ensures Window(lines) == lines[|lines| - Capacity..]
    ensures |Window(lines)| == Capacity
  {
  }

  /** With fewer than Capacity lines fed, the window is the whole history. */
  lemma WindowPartial(lines: seq<string>)
    requires |lines| < Capacity
    ensures Window(lines) == lines
  {
  }

  // ---------------------------------------------------------------------
  // The threat counters

  /** One counter step: `threatCount[k]++` when the line has category k. */
  function Record(counts: map<string, int>, category: Option<string>): (r: map<string, int>)
    ensures category.None? ==> r == counts
    ensures category.Some? ==> r.Keys == counts.Keys + {category.value}
    ensures category.Some? ==> CountFor(r, category.value) == CountFor(counts, category.value) + 1
    ensures forall k :: k in counts && (category.None? || k != category.value) ==> k in r && r[k] == counts[k]
  {
    match category
    case None => counts
    case Some(k) => counts[k := CountFor(counts, k) + 1]
  }

  /** A counter step never lowers a counter. */
  lemma RecordNeverDecreases(counts: map<string, int>, category: Option<string>)
    ensures forall k :: CountFor(counts, k) <= CountFor(Record(counts, category), k)
  {
  }

  /** The counter table after feeding `lines` to an empty table, one line at a time. */
  ghost function Tally(lines: seq<string>): (r: map<string, int>)
    ensures r.Keys <= Categories
    ensures forall k :: k in r ==> r[k] >= 1
    decreases |lines|
  {
    if lines == [] then map[]
    else Record(Tally(lines[..|lines| - 1]), Classify(lines[|lines| - 1]))
  }

  /** The number of lines whose first matching keyword is `k`. */
  ghost function CountOf(lines: seq<string>, k: string): nat
    decreases |lines|
  {
    if lines == [] then 0
    else (if Classify(lines[0]) == Some(k) then 1 else 0) + CountOf(lines[1..], k)
  }

  lemma {:induction false} CountOfConcat(a: seq<string>, b: seq<string>, k: string)
    ensures CountOf(a + b, k) == CountOf(a, k) + CountOf(b, k)
    decreases |a|
  {
    if a != [] {
      assert (a + b)[0] == a[0];
      assert (a + b)[1..] == a[1..] + b;
      CountOfConcat(a[1..], b, k);
    } else {
      assert a + b == b;
    }
  }

  /** Feeding one more line applies one counter step to the table. */
  lemma TallyStep(lines: seq<string>, line: string)
    ensures Tally(lines + [line]) == Record(Tally(lines), Classify(line))
  {
    assert (lines + [line])[..|lines|] == lines;
  }

  /** Every counter equals the number of lines classified into its category. */
  lemma {:induction false} TallyCounts(lines: seq<string>, k: string)
    ensures CountFor(Tally(lines), k) == CountOf(lines, k)
    decreases |lines|
  {
    if lines != [] {
      var front, last := lines[..|lines| - 1], lines[|lines| - 1];
      assert lines == front + [last];
      TallyCounts(front, k);
      CountOfConcat(front, [last], k);
      assert CountOf([last], k) == (if Classify(last) == Some(k) then 1 else 0) + CountOf([], k);
    }
  }

  /** Counters never decrease as more lines are fed. */
  lemma CountsMonotonic(lines: seq<string>, more: seq<string>, k: string)
    ensures CountFor(Tally(lines), k) <= CountFor(Tally(lines + more), k)
  {
    TallyCounts(lines, k);
    TallyCounts(lines + more, k);
    CountOfConcat(lines, more, k);
  }

  // ---------------------------------------------------------------------
  // The shared state

  class MonitorState {
    /** Matches per category (`threatCount`). */
    var threatCount: map<string, int>
    /** The most recent lines, oldest first (`lastLogs`). */
    var lastLogs: seq<string>
    /** Every line processed so far, in arrival order. */
    ghost var history: seq<string>

    /** Both fields reflect exactly the lines processed so far. */
    ghost predicate Valid()
      reads this
    {
      lastLogs == Window(history) && threatCount == Tally(history)
    }

    /** The empty state the program starts from. */
    constructor ()
      ensures Valid() && history == []
      ensures threatCount == map[] && lastLogs == []
    {
      threatCount := map[];
      lastLogs := [];
      history := [];
    }

    /** The body of the inner `getline` loop for one line. */
    method ProcessLine(line: string)
      requires Valid()
      modifies this
      ensures Valid() && history == old(history) + [line]
      ensures lastLogs == Append(old(lastLogs), line)
      ensures threatCount == Record(old(threatCount), Classify(line))
      ensures forall k :: CountFor(old(threatCount), k) <= CountFor(threatCount, k)
    {
      ghost var before, counts := history, threatCount;
      WindowStep(before, line);
      TallyStep(before, line);
      RecordNeverDecreases(counts, Classify(line));

      if |lastLogs| >= Capacity {
        lastLogs := lastLogs[1..];
      }
      lastLogs := lastLogs + [line];

      if Contains(line, Malicious) {
        threatCount := threatCount[Malicious := CountFor(threatCount, Malicious) + 1];
      } else if Contains(line, Attack) {
        threatCount := threatCount[Attack := CountFor(threatCount, Attack) + 1];
      }

      history := before + [line];
    }

    /** The inner `getline` loop: process every available line in arrival order. */
    method ProcessLines(lines: seq<string>)
      requires Valid()
      modifies this
      ensures Valid() && history == old(history) + lines
      ensures lastLogs == Window(old(history) + lines)
      ensures forall k :: CountFor(threatCount, k) == CountOf(old(history) + lines, k)
    {
      ghost var start := history;
      for i := 0 to |lines|
        invariant Valid()
        invariant history == start + lines[..i]
      {
        assert start + lines[..i + 1] == start + lines[..i] + [lines[i]];
        ProcessLine(lines[i]);
      }
      assert lines[..|lines|] == lines;
      forall k ensures CountFor(threatCount, k) == CountOf(history, k) {
        TallyCounts(history, k);
      }
    }

    /** A copy of the counters, as `displayStats` reads them under the lock. */
    method SnapshotCounts() returns (counts: map<string, int>)
      requires Valid()
      ensures counts == threatCount
      ensures counts.Keys <= Categories
      ensures forall k :: CountFor(counts, k) == CountOf(history, k)
    {
      counts := threatCount;
      forall k ensures CountFor(counts, k) == CountOf(history, k) {
        TallyCounts(history, k);
      }
    }

    /** A copy of the recent lines, as `displayLastLogs` reads them under the lock. */
    method SnapshotRecentLines() returns (recent: seq<string>)
      requires Valid()
      ensures recent == lastLogs
      ensures recent == Window(history) && |recent| <= Capacity
    {
      recent := lastLogs;
    }
  }

  // ---------------------------------------------------------------------
  // A worked run

  const ScenarioLines: seq<string> := ["ok", "malicious user login", "attack detected", "ok"]

  /** Four lines fed to an empty state: one malicious, one attack, two benign. */
  lemma Scenario()
    ensures Window(ScenarioLines) == ScenarioLines
    ensures Tally(ScenarioLines) == map[Malicious := 1, Attack := 1]
  {
    var l := ScenarioLines;
    assert Classify(l[0]) == None;
    assert Classify(l[1]) == Some(Malicious);
    MissingFirstChar(l[2], Malicious);
    assert Classify(l[2]) == Some(Attack);
    TallyStep([], l[0]);
    TallyStep(l[..1], l[1]);
    assert l[..1] + [l[1]] == l[..2];
    TallyStep(l[..2], l[2]);
    assert l[..2] + [l[2]] == l[..3];
    TallyStep(l[..3], l[3]);
    assert l[..3] + [l[3]] == l;
  }

  /** The same run through the imperative state and its snapshots. */
  method RunScenario() returns (counts: map<string, int>, recent: seq<string>)
    ensures counts == map[Malicious := 1, Attack := 1]
    ensures recent == ScenarioLines
  {
    var state := new MonitorState();
    state.ProcessLines(ScenarioLines);
    counts := state.SnapshotCounts();
    recent := state.SnapshotRecentLines();
    Scenario();
  }
}
