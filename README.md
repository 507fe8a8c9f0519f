# Shavadoop word count, modelled in Dafny

Shavadoop is a small master/slave word-count engine. The master pings its
candidate slaves and writes each non-blank input line to its own split file,
`S0`, `S1`, …. It then runs MAP tasks in waves: each wave gives one split to each
reachable slave, in slave-list order. From the `word:UMx` lines the slaves print,
it builds a key index (word → intermediate files). Next it runs one
SHUFFLE_REDUCE task per non-empty word, in waves again, with result files `RM0`,
`RM1`, …. Finally it collects the slaves' `word:count` lines and sorts them by
count, highest first. The slave program tokenises a split file into
`word: 1` records (MAP). For SHUFFLE_REDUCE, it sums a key's records across the
listed intermediate files, ignoring case.

The project models this pipeline as follows:

- `wrappers.dfy`: `Option` (Java's `null`) and `Result` (Java's exceptions).
- `java_text.dfy`: the pieces of `java.lang.String` and `Integer` that the
  pipeline relies on. These are `split` on a one-character class, `trim`,
  `equalsIgnoreCase`, `Integer.valueOf`, decimal rendering of an `int`, and
  32-bit wrap-around of `+`.
- `java_collections.dfy`: hash-based iteration, modelled as an arbitrary fixed
  listing of each set (`Iteration`). The only guarantee is that every element
  is visited exactly once.
- `slave_threads.dfy`: `SlaveThread.java`. It covers the three task factories,
  the command line, the filtering of the slave's output, and the rule that sets
  `output`. A `SlaveThread` class holds the `output` field that `run` assigns.
- `dispatch.dfy`: the wave schedule and the per-host consolidation shared by
  both stages of the master.
- `slave.dfy`: `Slave.java`, covering MAP and SHUFFLE_REDUCE. Both run over a
  read-only snapshot of the file system. The files they write and the lines
  they print are returned as values.
- `ranking.dfy`: a reference stable sort by count, highest first.
- `master.dfy`: `Master.java`. It covers ping and reachability, input
  splitting, the map stage (`mapRemoteExec`, `mapSplitFiles`), the reduce stage
  (`shuffleReduceRemoteExec`, `shuffleReduceMapFiles`), the ranking
  comparator, and the whole run. The class `Master` holds `UMx_machines`,
  `RMx_machines` and `reachableSlaves`.

Remote execution is an oracle `Executor`. It maps a host and a command line to
an exit status with standard-output lines, or to a raised exception.

Each wave's threads are created and run one after another. Their outputs are
consolidated only once the whole wave has run, as in the source. The source
reads outputs only after joining every thread of a wave, so the result is the
same as with concurrent threads.

Two behaviours of the code are easy to miss; the model keeps both:

- In the reduce stage, the master appends each thread's output without
  checking it for `null` (MasterShavadoop/src/shavadoop/Master.java:348).
  A failed SHUFFLE_REDUCE task therefore ends the run with a
  `NullPointerException`; its contribution is not just dropped
  (`DispatchReduce`, `Failed(NullPointer)`).
- The map records are written as `word: 1`, with a space after the colon
  (SlaveShavadoop/src/shavadoop/Slave.java:82). The reduce output line is
  written as `key:count`, without one (SlaveShavadoop/src/shavadoop/Slave.java:140).

## Model

| member | source | states |
|---|---|---|
| `JavaText.Wrap32` | SlaveShavadoop/src/shavadoop/Slave.java:132 | the value Java's `int` holds is in the 32-bit range and equals the mathematical value whenever that is in range |
| `JavaText.WrapAdd` | SlaveShavadoop/src/shavadoop/Slave.java:132 | wrapping after every `count +=` gives the same result as wrapping the mathematical sum once |
| `JavaText.Trim` | SlaveShavadoop/src/shavadoop/Slave.java:128-129 | `trim()` is empty exactly when every character is at most U+0020, and otherwise starts and ends with a character above U+0020 |
| `JavaText.SplitPair` | MasterShavadoop/src/shavadoop/Master.java:184-186 | `split(":")` of `first:second` gives back exactly the two halves when neither holds a colon and the second is non-empty |
| `JavaText.ParseIntToString` | MasterShavadoop/src/shavadoop/Master.java:99 | `Integer.valueOf` reads back every `int` that string concatenation writes |
| `JavaText.EqualsIgnoreCaseIsUpperEquality` | SlaveShavadoop/src/shavadoop/Slave.java:130 | `equalsIgnoreCase` holds exactly when the upper-case forms are equal |
| `JavaText.NonEmptyAppend` | MasterShavadoop/src/shavadoop/SlaveThread.java:129-133 | dropping empty lines distributes over concatenation, so filtering a stream line by line equals filtering it whole |
| `JavaCollections.EnumerationSize` | MasterShavadoop/src/shavadoop/SlaveThread.java:66 | a listing that visits each element of a set once is exactly as long as the set |
| `SlaveThreads.MapTaskArgs` | MasterShavadoop/src/shavadoop/SlaveThread.java:37-39 | a map task reaches the slave program as `MAP` followed by exactly one argument, its split file |
| `SlaveThreads.PingTaskArgs` | MasterShavadoop/src/shavadoop/SlaveThread.java:49-51 | a ping task reaches the slave program as `PING` alone |
| `SlaveThreads.ReduceTaskFiles` | MasterShavadoop/src/shavadoop/SlaveThread.java:61-68 | a reduce task's parameters are the key, the result file, then every file of the set exactly once, 2 + \|set\| in all |
| `SlaveThreads.CommandLineDeliversArgs` | MasterShavadoop/src/shavadoop/SlaveThread.java:154-163 | with `DEBUG` set, as shipped, the slave program receives exactly the command followed by the task's parameters, each as one argument |
| `SlaveThreads.Read` | MasterShavadoop/src/shavadoop/SlaveThread.java:125-136 | the lines kept are exactly the non-empty lines read, in their order |
| `SlaveThreads.Outcome` | MasterShavadoop/src/shavadoop/SlaveThread.java:172 | the output is present exactly when the process exited with status 0, and is then its filtered standard output with no empty line |
| `SlaveThreads.SlaveThread.Run` | MasterShavadoop/src/shavadoop/SlaveThread.java:180-193 | `run` sets `output` to the outcome when the process exits, and leaves it unchanged (`null`) when an exception is raised |
| `SlaveThreads.Launch` | MasterShavadoop/src/shavadoop/Master.java:144-146 | a freshly started and joined thread holds its task and the task's outcome |
| `Dispatch.WavesFlatten` | MasterShavadoop/src/shavadoop/Master.java:136-147 | the waves, put back together, are the task list: every task is dispatched exactly once, in list order |
| `Dispatch.WavesCount` | MasterShavadoop/src/shavadoop/Master.java:136-147 | n tasks on k slaves take ceil(n / k) waves |
| `Dispatch.WaveElement` | MasterShavadoop/src/shavadoop/Master.java:139-146 | wave w holds 1 to k tasks, only the last wave can be short, and its j-th task is task w·k + j |
| `Dispatch.SlotIsMod` | MasterShavadoop/src/shavadoop/Master.java:139-143 | the slot a position falls to, wave after wave, is the position modulo the pool size |
| `Dispatch.GatherByHost` | MasterShavadoop/src/shavadoop/Master.java:151-160 | consolidation gives an entry to exactly the hosts that ran a task, even if all their tasks failed, and each entry is that host's non-null outputs in run order |
| `Dispatch.ConcatIsPermutation` | MasterShavadoop/src/shavadoop/Master.java:300-302 | reading the consolidated map back host by host yields every returned line exactly as often as it was returned |
| `Slave.UmFileIsSibling` | SlaveShavadoop/src/shavadoop/Slave.java:75-76 | the intermediate file is in the split file's directory, named `UM` followed by the split file's last name without its first character |
| `Slave.UmFileOfSplitName` | SlaveShavadoop/src/shavadoop/Slave.java:75-76 | split file `S<id>` gives intermediate file `UM<id>` |
| `Slave.WordsOfSplit` | SlaveShavadoop/src/shavadoop/Slave.java:80-81 | the non-empty results of `split("[ \t'.,]+")` are exactly the maximal runs of non-separator characters |
| `Slave.Map` | SlaveShavadoop/src/shavadoop/Slave.java:70-92 | anything but one parameter throws IllegalArgumentException, and an unreadable split file throws IOException; otherwise one `word: 1` record and one `word:UMfile` line per word, in order, and the file is written only when there is a word; with one parameter and a readable split file, the call succeeds with exactly those records and lines |
| `Slave.EmitWords` | SlaveShavadoop/src/shavadoop/Slave.java:79-86 | the records and the printed lines are, in order, one per word of each line of the file, so there are as many of one as of the other |
| `Slave.SmFile` | SlaveShavadoop/src/shavadoop/Slave.java:119 | the companion name is the result name with a leading `R` replaced by `S`, and unchanged otherwise |
| `Slave.RecordReadBack` | SlaveShavadoop/src/shavadoop/Slave.java:127-133 | a `word: 1` record written by MAP for a word without `:` reads back as one occurrence when the trimmed word equals the key ignoring case, and as no contribution otherwise |
| `Slave.ShuffleReduce` | SlaveShavadoop/src/shavadoop/Slave.java:113-147 | fewer than three parameters throws IllegalArgumentException; otherwise the output is `key:count`, the wrapped sum of every matching record's count across the files in order, with one `key: 1` line per match written to the companion file when there is one, or the first exception |
| `Slave.ReadMapFiles` | SlaveShavadoop/src/shavadoop/Slave.java:123-135 | the loop over the files yields the wrapped sum and one `key: 1` line per matching record, or the first failure (a missing file is an IOException) |
| `Slave.ScanFile` | SlaveShavadoop/src/shavadoop/Slave.java:126-134 | the loop over one file's lines adds each matching count, wrapping like `int`, and stops at the first failing line |
| `Slave.TotalIsWrappedSum` | SlaveShavadoop/src/shavadoop/Slave.java:132 | adding with wrap-around one record at a time equals the wrapped mathematical total |
| `Slave.CollectErrorSticks` | SlaveShavadoop/src/shavadoop/Slave.java:127-132 | once a line fails, the whole reduction fails with that line's exception |
| `Ranking.Sort` | MasterShavadoop/src/shavadoop/Master.java:95-102 | the reference sort is a permutation of its input, ordered by count, highest first |
| `Ranking.SortStable` | MasterShavadoop/src/shavadoop/Master.java:95-102 | for every count, the entries with that count keep their original relative order |
| `Ranking.EntriesOfSpec` | MasterShavadoop/src/shavadoop/Master.java:99 | entries exist exactly when every line's count can be read, and then each line is paired, in order, with its count |
| `MasterNode.PingRemoteExec` | MasterShavadoop/src/shavadoop/Master.java:204-223 | the status map has one entry per candidate host, true exactly when its ping output is non-null, non-empty and starts with `OK` |
| `MasterNode.PingSlaves` | MasterShavadoop/src/shavadoop/Master.java:238-248 | the reachable list holds each host whose status is true exactly once, in the status map's iteration order, and nothing else |
| `MasterNode.UpInEnumerates` | MasterShavadoop/src/shavadoop/Master.java:242-246 | filtering a listing of the hosts by their status lists exactly the reachable hosts, each once |
| `MasterNode.NothingToDo` | MasterShavadoop/src/shavadoop/Master.java:85 | the master stops with no work exactly when no candidate host answers its ping |
| `MasterNode.SplitInputFile` | MasterShavadoop/src/shavadoop/Master.java:365-377 | the split files are `S0` … `S(m-1)`, one per line whose trimmed form is not empty, and `S<i>` holds the i-th such line in input order |
| `MasterNode.HasContent` | MasterShavadoop/src/shavadoop/Master.java:370 | a line gets a split file exactly when it has a character above U+0020 |
| `MasterNode.ContentLinesAppend` | MasterShavadoop/src/shavadoop/Master.java:369-375 | more input only appends split files, so earlier lines keep their split numbers |
| `MasterNode.SplitNames` | MasterShavadoop/src/shavadoop/Master.java:371 | split names are distinct for distinct numbers, and the slave derives `UM<i>` from `S<i>` |
| `MasterNode.MapSchedule` | MasterShavadoop/src/shavadoop/Master.java:136-147 | the map stage takes ceil(n / k) waves that together dispatch every split once in list order, wave w giving split w·k + j to slave j |
| `MasterNode.MapTaskSlot` | MasterShavadoop/src/shavadoop/Master.java:139-144 | split i goes to slave i mod k |
| `MasterNode.MapTaskReachesSlave` | MasterShavadoop/src/shavadoop/Master.java:139-144 | the i-th MAP task of the stage runs on slave i mod k, reaches the slave program as `MAP S<i>`, and the slave derives `UM<i>` from that name, so `map`'s argument checks pass |
| `MasterNode.MapHosts` | MasterShavadoop/src/shavadoop/Master.java:151-155 | the hosts with a map result are exactly the slaves that were handed a split |
| `MasterNode.ConsolidateWave` | MasterShavadoop/src/shavadoop/Master.java:151-160 | consolidating a wave extends the results exactly as consolidating its runs one by one, with `null` outputs skipped |
| `MasterNode.StartMapWave` | MasterShavadoop/src/shavadoop/Master.java:138-147 | a wave starts one thread per slave in list order, each with the next split, until the slaves or the splits run out |
| `MasterNode.MapRemoteExec` | MasterShavadoop/src/shavadoop/Master.java:132-164 | the results have an entry for exactly the slaves handed a split, each the concatenation in wave order of that slave's non-null outputs, and the waves are the task list cut into chunks of k |
| `MasterNode.EmittedSpec` | MasterShavadoop/src/shavadoop/Master.java:181-183 | the lines read in the index loop are exactly the lines of each host's entry, tagged with that host |
| `MasterNode.ParsedSpec` | MasterShavadoop/src/shavadoop/Master.java:184-186 | the lines are read up to the first that splits into fewer than two items, and each one read keeps its word and file |
| `MasterNode.KeyIndexSpec` | MasterShavadoop/src/shavadoop/Master.java:187-190 | the key index holds exactly the announced words, and each word's set exactly the files it was announced in; duplicates collapse |
| `MasterNode.MachinesSpec` | MasterShavadoop/src/shavadoop/Master.java:191 | `UMx_machines` holds exactly the announced files, each mapped to the host of its last announcement |
| `MasterNode.IndexHostLines` | MasterShavadoop/src/shavadoop/Master.java:183-192 | the inner loop over one host's lines adds each pair to the index and to `UMx_machines`, and stops at the first line without a second item |
| `MasterNode.AnnouncementParses` | MasterShavadoop/src/shavadoop/Master.java:184-186 | a slave's `word:UMfile` line is read back as that word and that file when neither contains `:` |
| `MasterNode.ColonWordMisread` | MasterShavadoop/src/shavadoop/Master.java:184-186 | a word `a:b` is misread as the word `a` announced in the file `b` |
| `MasterNode.ReduceScheduleSpec` | MasterShavadoop/src/shavadoop/Master.java:323-339 | every non-empty key of the index gets exactly one reduce task, on a reachable slave, and task c carries result number c, so the numbers run densely from 0 |
| `MasterNode.ReduceScheduleSlot` | MasterShavadoop/src/shavadoop/Master.java:327-333 | the non-empty key at iteration position p goes to slave p mod k: an empty key still uses up its slave's turn |
| `MasterNode.AssignedTaskSpec` | MasterShavadoop/src/shavadoop/Master.java:333-335 | a reduce task's parameters are its key, `RM<c>`, then exactly the files the index lists for the key |
| `MasterNode.ReduceTaskReachesSlave` | MasterShavadoop/src/shavadoop/Master.java:333-335 | a reduce task planned from a key index reaches the slave program as `SHUFFLE_REDUCE`, its key, `RM<c>` and at least one intermediate file, because the index lists no key without a file; `shuffleReduce`'s check for three arguments passes |
| `MasterNode.ReducedFilesDistinct` | MasterShavadoop/src/shavadoop/Master.java:333 | distinct counter values give distinct result files |
| `MasterNode.StartReduceWave` | MasterShavadoop/src/shavadoop/Master.java:326-339 | a reduce wave takes one key per slave in list order, starts a thread for each non-empty key with the next `RM<i>`, and advances the counter by the number of non-empty keys |
| `MasterNode.ConsolidateReduceWave` | MasterShavadoop/src/shavadoop/Master.java:343-349 | consolidation succeeds exactly when no thread of the wave has a `null` output, and then extends the results as the map stage does |
| `MasterNode.DispatchReduce` | MasterShavadoop/src/shavadoop/Master.java:323-352 | the reduce stage gives the per-host consolidation of all reduce runs, or NullPointerException when any of them has a `null` output |
| `MasterNode.ShuffleReduceRemoteExec` | MasterShavadoop/src/shavadoop/Master.java:318-353 | the reduce stage dispatches exactly the reduce schedule's tasks, with the keys taken in the index's iteration order |
| `MasterNode.AppendAll` | MasterShavadoop/src/shavadoop/Master.java:300-302 | the unsorted results are the hosts' entries concatenated in iteration order |
| `MasterNode.ResultsPermutation` | MasterShavadoop/src/shavadoop/Master.java:296-304 | the unsorted results hold every line any reduce thread returned, as often as it was returned |
| `MasterNode.CountOfCountLine` | MasterShavadoop/src/shavadoop/Master.java:99 | the comparator reads back the count of every `key:count` line a reduce slave prints for a key without `:` |
| `MasterNode.CompareByCount` | MasterShavadoop/src/shavadoop/Master.java:98-100 | for non-negative counts the comparator puts the higher count first and calls equal counts equal |
| `MasterNode.CompareWraps` | MasterShavadoop/src/shavadoop/Master.java:99 | when `o2 - o1` leaves the `int` range (for example `INT_MIN` against 1), the subtraction wraps and inverts the order |
| `MasterNode.RankFails` | MasterShavadoop/src/shavadoop/Master.java:95-102 | the ranking throws exactly when there are two or more lines and one has no readable count |
| `MasterNode.RankPermutes` | MasterShavadoop/src/shavadoop/Master.java:95-102 | the ranked lines are the unsorted lines, each as often as before |
| `MasterNode.RankOrdered` | MasterShavadoop/src/shavadoop/Master.java:95-102 | the ranked lines have readable counts in non-increasing order |
| `MasterNode.RankStable` | MasterShavadoop/src/shavadoop/Master.java:95-102 | lines with equal counts keep their consolidation order |
| `MasterNode.RankedLines` | MasterShavadoop/src/shavadoop/Master.java:92-103 | a run that reaches the ranking prints exactly the lines the reduce threads returned, each as often as it was returned |
| `MasterNode.Master.Process` | MasterShavadoop/src/shavadoop/Master.java:81-107 | the run pings, keeps the reachable hosts in `reachableSlaves` and, if there are any, runs the stages, ending as the pipeline specifies; `UMx_machines` and `RMx_machines` end as `Stages` leaves them, and are untouched when no host answers |
| `MasterNode.Master.Stages` | MasterShavadoop/src/shavadoop/Master.java:86-103 | split, map, reduce and rank in order; the first exception ends the run; `UMx_machines` holds the host of every file announced before the first unreadable line, and `RMx_machines` is reset exactly when the map and reduce stages both succeed |
| `MasterNode.Master.MapSplitFiles` | MasterShavadoop/src/shavadoop/Master.java:176-195 | the key index and `UMx_machines` hold every pair read from the map results, host by host; a line without a second item throws ArrayIndexOutOfBoundsException |
| `MasterNode.Master.ShuffleReduceMapFiles` | MasterShavadoop/src/shavadoop/Master.java:294-305 | on success `RMx_machines` is reset to empty and the unsorted results are a permutation of all reduce outputs; a `null` output throws NullPointerException |

## Left out

- SlaveThreads.CommandLineDeliversArgs: covers only the shipped `DEBUG` mode. With `DEBUG` off, the arguments go through ssh and a remote shell that re-parses them. A key starting with `#` or containing a quote would reach the slave changed; that re-parsing is not modelled.
- Process spawning, ssh and `waitFor` are left out. Remote execution is the `Executor` oracle: (host, command line) → exit status and output lines, or a raised exception.
- Threads are left out: `start`, `join`, and the InterruptedException retry loop of `waitForSlaveThreads` (MasterShavadoop/src/shavadoop/Master.java:385-396). Each wave's threads run one after another. Outputs are consolidated only after the whole wave, so no interleaving can be observed.
- File I/O is left out. The master receives the host list and the input lines as values. It returns the split-file contents. `saveReachabilityStatus` (the status file) is not modelled. The slave reads a snapshot map from path to lines, where a missing path is an IOException, and returns what it would write. A failing `Files.write` (SlaveShavadoop/src/shavadoop/Slave.java:88, 137 and 142) is not modelled: the success equations of `Slave.Map` and `Slave.ShuffleReduce` assume the writes succeed.
- Logging to System.err and the `println` of the final list are left out. The ranked lines are returned instead.
- The slave's 10-second sleep in `ping` is left out. So are the `main` argument checks and the dispatch on the operation name in the `Slave` constructor.
- HashMap and HashSet iteration order is one arbitrary `Iteration` function of the set's contents. Java's order also depends on each table's insertion history and capacity. The model only fixes that each element is visited exactly once.
- `RMx_machines` is allocated but never filled, so only its reset is modelled.
- `JavaText.EqualsIgnoreCase`: case folding covers ASCII letters only. Java also folds other Unicode letters.
- `JavaText.ParseInt`: only ASCII digits are accepted. Java's `Integer.valueOf` also accepts other Unicode decimal digits.
- `Slave.UmFile`: paths are split at `/` with empty names dropped. Further `java.nio.file.Path` normalisation is not modelled.
- `MasterNode.Rank`: it orders by the mathematical count. This matches Java's comparator whenever `o2 - o1` does not overflow, and it always does when counts are non-negative (`CompareByCount`). For counts where the subtraction wraps (`CompareWraps`), Java's order is not modelled, and neither is TimSort's "Comparison method violates its general contract" error. When several lines have unreadable counts, the model reports the first in list order. In Java, the order of TimSort's comparisons decides which one is reported.
- The reduce counter `i` in `shuffleReduceRemoteExec` is unbounded in the model. Java's `int` would wrap only after 2^31 keys.
