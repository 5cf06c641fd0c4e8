# Real-time threat detection: the per-line monitor update

This project models, in Dafny, the core of a small C++ log monitor. A
tailing thread reads a log file line by line. For every line it

1. appends the line to `lastLogs`, a deque of the ten most recent lines,
   dropping the oldest line first when the deque already holds ten, and
2. classifies the line with an if/else-if chain: if the line contains
   `"malicious"` (case-sensitive substring, `std::string::find`) the counter
   `threatCount["malicious"]` is incremented; otherwise, if it contains
   `"attack"`, `threatCount["attack"]` is incremented; otherwise nothing is
   counted.

The menu thread reads the two structures under the same lock to display
them.

## Layout

- `wrappers.dfy` — module `Wrappers`: an `Option` datatype.
- `text.dfy` — module `Text`: `Find`, the first position of a needle in a
  string (None standing for `npos`, an empty needle found at 0 as in C++),
  and `Contains`, the `find(...) != npos` test.
- `threats.dfy` — module `Threats`: the two keywords, `Classify` (the
  if/else-if chain) and, as an independent reference, `FirstMatch`, an
  ordered scan over a signature list, with a lemma that the two agree.
- `monitor.dfy` — module `Monitor`: the buffer step `Append` and the
  counter step `Record`; the specification functions `Window` (the last
  `min(n, 10)` lines of a history), `Tally` (the counter table obtained by
  folding `Record` over a history) and `CountOf` (the number of lines of a
  history classified into a category, counted from the front); the class
  `MonitorState` holding `threatCount: map<string, int>` and
  `lastLogs: seq<string>` with a ghost `history` of every processed line,
  whose invariant `Valid()` says `lastLogs == Window(history)` and
  `threatCount == Tally(history)`; and the worked four-line run.

`MonitorState.ProcessLine` updates the two fields in place, as the body of
the `getline` loop does; `MonitorState.ProcessLines` is that loop over an
already-split sequence of lines. The two snapshot methods stand for the
reads `displayStats` and `displayLastLogs` perform under the lock.

## Model

| member | source | states |
|---|---|---|
| `Text.FindFrom` | main.cpp:38 | the result, if any, is the least position at or after the start where the needle occurs; None means it occurs at no such position |
| `Text.Find` | main.cpp:38 | `find` returns the least position of the needle; it returns npos (None) exactly when the needle occurs nowhere |
| `Text.Contains` | main.cpp:38-41 | the `line.find(keyword) != npos` test used by both branches of the chain: it holds iff some position of the line holds a copy of the keyword |
| `Text.MissingFirstChar` | main.cpp:38 | a line that lacks the keyword's first character does not contain the keyword |
| `Threats.Classify` | main.cpp:38-44 | a category is reported only if the line contains that keyword; "attack" is reported only when "malicious" is absent; nothing is reported iff the line contains neither keyword |
| `Threats.FirstMatch` | main.cpp:38-44 | the ordered scan returns the category of a signature whose keyword the line contains, and None only when no signature matches |
| `Threats.FirstMatchIsFirst` | main.cpp:38-44 | when signature i matches and no earlier one does, the scan returns signature i's category |
| `Threats.ClassifyIsFirstMatch` | main.cpp:38-44 | the if/else-if chain equals the first-match-wins scan over the list ["malicious", "attack"] |
| `Threats.PriorityOfMalicious` | main.cpp:38-43 | a line containing both keywords is classified as "malicious" only |
| `Monitor.Window` | main.cpp:32-35 | the window of a history holds min(n, 10) lines |
| `Monitor.Append` | main.cpp:32-35 | the new buffer ends with the line; it grows by one exactly when the old buffer held fewer than 10; it never exceeds 10 when the old one did not; everything before the line is a suffix of the old buffer |
| `Monitor.WindowStep` | main.cpp:28-35 | appending line l to the window of a history gives the window of the history followed by l |
| `Monitor.WindowFull` | main.cpp:32-35 | after at least 10 lines the window is exactly the last 10 lines, oldest first |
| `Monitor.WindowPartial` | main.cpp:32-35 | after fewer than 10 lines the window is the whole history |
| `Monitor.Record` | main.cpp:38-44 | an unclassified line leaves the table unchanged; a classified line adds only its category's key and raises that counter by one (absent counting as zero); no other entry changes |
| `Monitor.RecordNeverDecreases` | main.cpp:40-43 | a counter step never lowers any counter |
| `Monitor.Tally` | main.cpp:38-44 | the keys of the table built from any history are among "malicious" and "attack", and every present counter is at least one |
| `Monitor.CountOfConcat` | main.cpp:28-44 | the number of lines of a category in a concatenation is the sum over the two parts |
| `Monitor.TallyStep` | main.cpp:38-44 | feeding one more line applies exactly one counter step to the table |
| `Monitor.TallyCounts` | main.cpp:28-44 | each counter (absent meaning zero) equals the number of lines of the history whose first matching keyword is that category |
| `Monitor.CountsMonotonic` | main.cpp:40-43 | feeding more lines never decreases any counter |
| `Monitor.MonitorState.constructor` | main.cpp:86-87 | the monitor starts with an empty table, an empty buffer and an empty history |
| `Monitor.MonitorState.ProcessLine` | main.cpp:29-47 | one line: the buffer takes the buffer step, the table takes the counter step for the line's category, the history grows by the line, the invariant is kept, and no counter decreases |
| `Monitor.MonitorState.ProcessLines` | main.cpp:28-48 | after a batch of lines the buffer is the last min(n, 10) lines of the whole history and each counter equals the number of lines of that history classified into its category |
| `Monitor.MonitorState.SnapshotCounts` | main.cpp:61-70 | the copy read under the lock has keys among the two categories and each counter equals the number of processed lines of its category |
| `Monitor.MonitorState.SnapshotRecentLines` | main.cpp:73-82 | the copy read under the lock is the window of the processed lines and holds at most 10 entries |
| `Monitor.Scenario` | main.cpp:28-44 | feeding ["ok", "malicious user login", "attack detected", "ok"] to an empty state gives counters {malicious: 1, attack: 1} and all four lines in the buffer |
| `Monitor.RunScenario` | main.cpp:28-44 | the same four lines through the imperative state give the same two snapshots |

## Left out

- Opening the log file and the early return when it cannot be opened (main.cpp:19-25): file I/O; the model starts from lines already read.
- `std::getline` line splitting and the EOF clearing before the next pass (main.cpp:28, 51-53): stream semantics of the C++ library; `ProcessLines` takes an already-split sequence of lines.
- Partial lines: an unterminated trailing line is not held back; `std::getline` hands it over as it is, and the model, taking already-split lines, has no partial-line policy to state.
- Bytes versus characters: a line is modelled as one char per byte of the `std::string`, so `Find`'s positions agree with `find`'s byte offsets only under that reading; the monitor uses only the match test, never the position.
- Threads and synchronisation: the global mutex, the condition variable, the `running` flag and `updated` (main.cpp:12-15, 29, 46-47, 111-112), the thread launch and join (main.cpp:92, 120-122) and the 2-second sleep (main.cpp:55). The model is sequential; each `ProcessLine` call is one critical section, and the snapshots are reads between two such calls.
- Console output: the "Threat detected" and "Log monitoring stopped" messages (main.cpp:39, 42, 57), and the printing in `displayStats` and `displayLastLogs` (main.cpp:63-81); only the values those functions read are modelled, as the snapshot methods.
- The interactive menu in `main` and the hard-coded log path (main.cpp:85, 95-117): user interaction.
- Monitor.MonitorState.ProcessLine: counters are unbounded integers; the C++ `int` counter would overflow after 2^31 - 1 matches, which the model does not capture.
- Monitor.Window: states the length of the window and, through `WindowFull` and `WindowPartial`, its contents, rather than an element-by-element description in its own contract.
