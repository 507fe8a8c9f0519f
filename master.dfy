/**
 * The Shavadoop master (Master.java): it pings the candidate slaves, gives
 * every non-blank input line a split file of its own, dispatches MAP tasks in
 * waves, indexes the words the slaves announce, dispatches one SHUFFLE_REDUCE
 * task per word, and ranks the resulting counts.
 */
module MasterNode {
  import opened Wrappers
  import opened JavaText
  import opened JavaCollections
  import opened SlaveThreads
  import opened Dispatch
  import opened Ranking
  import Slave

  /** The exceptions that end the master's run. */
  datatype Failure = NullPointer | ArrayIndexOutOfBounds | NumberFormat

  // ---------------------------------------------------------------------------
  // Pinging the slaves
  // ---------------------------------------------------------------------------

  /** The status rule: a slave is up when its ping printed a first line `OK`. */
  predicate IsUp(output: Option<seq<string>>)
  {
    output.Some? && |output.value| > 0 && output.value[0] == "OK"
  }

  /** Whether `h` answers a ping. */
  predicate Answers(h: string, exec: Executor)
  {
    IsUp(Outcome(PingTask(h), exec))
  }

  /** The candidate hosts that answer a ping. */
  function UpHosts(hosts: seq<string>, exec: Executor): set<string>
  {
    set h | h in hosts && Answers(h, exec)
  }

  /** The hosts of `order` that answer a ping, in that order. */
  function UpIn(order: seq<string>, exec: Executor): seq<string>
  {
    if order == [] then []
    else
      var h := order[|order| - 1];
      UpIn(order[..|order| - 1], exec) + (if Answers(h, exec) then [h] else [])
  }

  /** Filtering an enumeration of a set enumerates the answering part of the set. */
  lemma {:induction false} UpInEnumerates(order: seq<string>, s: set<string>, exec: Executor)
    requires Enumerates(order, s)
    ensures Enumerates(UpIn(order, exec), set h | h in s && Answers(h, exec))
  {
    if order != [] {
      var init := order[..|order| - 1];
      var h := order[|order| - 1];
      var s' := s - {h};
      assert Enumerates(init, s') by {
        forall x ensures x in init <==> x in s' {
          if x in init {
            var i :| 0 <= i < |init| && init[i] == x;
            assert order[i] == x && i < |order| - 1;
          }
          if x in s' {
            var i :| 0 <= i < |order| && order[i] == x;
            assert i != |order| - 1;
            assert init[i] == x;
          }
        }
        forall i, j | 0 <= i < j < |init| ensures init[i] != init[j] {
          assert init[i] == order[i] && init[j] == order[j];
        }
      }
      UpInEnumerates(init, s', exec);
      var up := UpIn(init, exec);
      assert h !in up;
      assert (set x | x in s && Answers(x, exec)) ==
             (set x | x in s' && Answers(x, exec)) + (if Answers(h, exec) then {h} else {});
      if Answers(h, exec) {
        forall i, j | 0 <= i < j < |up + [h]| ensures (up + [h])[i] != (up + [h])[j] {
          if j == |up| {
            assert (up + [h])[i] == up[i];
          } else {
            assert (up + [h])[i] == up[i] && (up + [h])[j] == up[j];
          }
        }
      }
    } else {
      assert s == {};
    }
  }

  /** The PING task of each candidate host, in list order. */
  function PingTasks(hosts: seq<string>): (r: seq<Task>)
    ensures |r| == |hosts|
  {
    seq(|hosts|, i requires 0 <= i < |hosts| => PingTask(hosts[i]))
  }

  /**
   * `pingRemoteExec`: pings every candidate host and records, per host,
   * whether its ping printed `OK` as its first line (a failed ping counts as
   * down). A host listed twice gets one entry.
   */
  method PingRemoteExec(hosts: seq<string>, exec: Executor) returns (results: map<string, bool>)
    ensures results.Keys == Members(hosts)
    ensures forall h :: h in results ==> results[h] == Answers(h, exec)
  {
    ghost var runs := RunsOf(PingTasks(hosts), exec);
    var slaveThreads: seq<SlaveThread> := [];
    var i := 0;
    while i < |hosts|
      invariant 0 <= i <= |hosts| && |slaveThreads| == i
      invariant forall m :: 0 <= m < i ==> Ran(slaveThreads[m], runs[m])
    {
      var t := new SlaveThread(PingTask(hosts[i]));
      t.Run(exec);
      assert Ran(t, runs[i]);
      slaveThreads := slaveThreads + [t];
      i := i + 1;
    }
    results := map[];
    var n := 0;
    while n < |slaveThreads|
      invariant 0 <= n <= |slaveThreads|
      invariant results.Keys == Members(hosts[..n])
      invariant forall h :: h in results ==> results[h] == Answers(h, exec)
    {
      var t := slaveThreads[n];
      assert Ran(t, runs[n]);
      var output := t.output;
      results := results[t.task.host := IsUp(output)];
      assert hosts[..n + 1] == hosts[..n] + [hosts[n]];
      n := n + 1;
    }
    assert hosts[..n] == hosts;
  }

  /**
   * `pingSlaves`: the hosts whose ping succeeded, in the order the status
   * map enumerates its keys; each answering host appears once.
   */
  method PingSlaves(hosts: seq<string>, exec: Executor, iter: Iteration) returns (reachable: seq<string>)
    requires ValidIteration(iter)
    ensures reachable == UpIn(iter(Members(hosts)), exec)
    ensures Enumerates(reachable, UpHosts(hosts, exec))
  {
    var results := PingRemoteExec(hosts, exec);
    var keys := iter(results.Keys);
    assert Enumerates(keys, results.Keys);
    reachable := [];
    var n := 0;
    while n < |keys|
      invariant 0 <= n <= |keys|
      invariant reachable == UpIn(keys[..n], exec)
    {
      var host := keys[n];
      assert keys[..n + 1][..n] == keys[..n];
      if results[host] {
        reachable := reachable + [host];
      }
      n := n + 1;
    }
    assert keys[..n] == keys;
    UpInEnumerates(keys, Members(hosts), exec);
    assert (set h | h in Members(hosts) && Answers(h, exec)) == UpHosts(hosts, exec);
  }

  // ---------------------------------------------------------------------------
  // Splitting the input
  // ---------------------------------------------------------------------------

  /**
   * The input lines that get a split file: those whose trimmed form is not
   * empty, that is, those with a character above U+0020.
   */
  function ContentLines(lines: seq<string>): (r: seq<string>)
    ensures forall l :: l in r <==> l in lines && !IsBlank(l)
  {
    if lines == [] then []
    else
      var l := lines[|lines| - 1];
      ContentLines(lines[..|lines| - 1]) + (if !IsBlank(l) then [l] else [])
  }

  /** Splitting keeps the input order: a longer input only appends split files. */
  lemma {:induction false} ContentLinesAppend(a: seq<string>, b: seq<string>)
    ensures ContentLines(a + b) == ContentLines(a) + ContentLines(b)
    decreases |b|
  {
    if b != [] {
      var b' := b[..|b| - 1];
      var l := b[|b| - 1];
      var tail := if !IsBlank(l) then [l] else [];
      assert (a + b)[..|a + b| - 1] == a + b' && (a + b)[|a + b| - 1] == l;
      assert ContentLines(a + b) == ContentLines(a + b') + tail;
      assert ContentLines(b) == ContentLines(b') + tail;
      ContentLinesAppend(a, b');
      assert ContentLines(a) + ContentLines(b') + tail == ContentLines(a) + (ContentLines(b') + tail);
    } else {
      assert a + b == a;
    }
  }

  /** The name of the `i`-th split file. */
  function SplitName(i: nat): string
  {
    "S" + NatToString(i)
  }

  /**
   * Split files have distinct names, and the slave derives distinct
   * intermediate files `UM<i>` from them.
   */
  lemma SplitNames(i: nat, j: nat)
    ensures SplitName(i) == SplitName(j) <==> i == j
    ensures Slave.UmFile(SplitName(i)) == Ok("UM" + NatToString(i))
  {
    if SplitName(i) == SplitName(j) {
      assert NatToString(i) == SplitName(i)[1..];
      NatToStringInjective(i, j);
    }
    assert NoSeparator(NatToString(i), IsSlash) by {
      forall c | 0 <= c < |NatToString(i)| ensures !IsSlash(NatToString(i)[c]) {
        assert IsDigit(NatToString(i)[c]);
      }
    }
    Slave.UmFileOfSplitName(NatToString(i));
  }

  /**
   * `splitInputFile`: the names of the split files, `S0`, `S1`, ..., one per
   * non-blank input line, and the line written to each, in input order.
   */
  method SplitInputFile(lines: seq<string>) returns (splitFiles: seq<string>, contents: seq<string>)
    ensures contents == ContentLines(lines)
    ensures |splitFiles| == |contents| && forall i :: 0 <= i < |splitFiles| ==> splitFiles[i] == SplitName(i)
  {
    splitFiles, contents := [], [];
    var count := 0;
    var n := 0;
    while n < |lines|
      invariant 0 <= n <= |lines|
      invariant contents == ContentLines(lines[..n])
      invariant count == |splitFiles| == |contents|
      invariant forall i :: 0 <= i < |splitFiles| ==> splitFiles[i] == SplitName(i)
    {
      var line := lines[n];
      assert lines[..n + 1][..n] == lines[..n];
      var hasContent := HasContent(line);
      if hasContent {
        var splitFile := SplitName(count);
        count := count + 1;
        splitFiles := splitFiles + [splitFile];
        contents := contents + [line];
      }
      n := n + 1;
    }
    assert lines[..n] == lines;
  }

  /** `line.trim().length() > 0`. */
  method HasContent(line: string) returns (b: bool)
    ensures b <==> !IsBlank(line)
  {
    b := |Trim(line)| > 0;
  }

  // ---------------------------------------------------------------------------
  // The map stage
  // ---------------------------------------------------------------------------

  /** One wave of `mapRemoteExec`: the `j`-th split of the wave goes to the `j`-th slave. */
  function MapWave(splits: seq<string>, slaves: seq<string>): (r: seq<Task>)
    requires |splits| <= |slaves|
  {
    seq(|splits|, j requires 0 <= j < |splits| => MapTask(slaves[j], splits[j]))
  }

  /** The waves of `mapRemoteExec`: one split per slave per wave, until the splits run out. */
  function MapWaves(sx: seq<string>, slaves: seq<string>): seq<seq<Task>>
    requires |slaves| >= 1
    decreases |sx|
  {
    if sx == [] then []
    else if |sx| <= |slaves| then [MapWave(sx, slaves)]
    else [MapWave(sx[..|slaves|], slaves)] + MapWaves(sx[|slaves|..], slaves)
  }

  /** The first wave takes the first split of each slave, or all splits when fewer remain. */
  lemma MapWavesStep(sx: seq<string>, slaves: seq<string>)
    requires |slaves| >= 1 && sx != []
    ensures var end := if |sx| <= |slaves| then |sx| else |slaves|;
      MapWaves(sx, slaves) == [MapWave(sx[..end], slaves)] + MapWaves(sx[end..], slaves)
  {
    if |sx| <= |slaves| {
      var none := sx[|sx|..];
      assert sx[..|sx|] == sx;
      assert none == [];
      assert MapWaves(none, slaves) == [];
      assert MapWaves(sx, slaves) == [MapWave(sx, slaves)];
    }
  }

  /** The MAP tasks in dispatch order. */
  function MapTasks(sx: seq<string>, slaves: seq<string>): seq<Task>
    requires |slaves| >= 1
  {
    Flatten(MapWaves(sx, slaves))
  }

  lemma {:induction false} MapTasksCons(sx: seq<string>, slaves: seq<string>)
    requires 1 <= |slaves| < |sx|
    ensures MapTasks(sx, slaves) == MapWave(sx[..|slaves|], slaves) + MapTasks(sx[|slaves|..], slaves)
  {
    var ws := MapWaves(sx, slaves);
    assert ws[1..] == MapWaves(sx[|slaves|..], slaves);
  }

  /** One MAP task per split. */
  lemma {:induction false} MapTasksLength(sx: seq<string>, slaves: seq<string>)
    requires |slaves| >= 1
    ensures |MapTasks(sx, slaves)| == |sx|
    decreases |sx|
  {
    if |sx| > |slaves| {
      MapTasksCons(sx, slaves);
      MapTasksLength(sx[|slaves|..], slaves);
    } else if sx != [] {
      assert MapWaves(sx, slaves)[1..] == [];
      assert MapTasks(sx, slaves) == MapWave(sx, slaves) + Flatten([]);
    }
  }

  /** Split `i` is dispatched to slave `i mod k`. */
  lemma {:induction false} MapTaskSlot(sx: seq<string>, slaves: seq<string>, i: nat)
    requires |slaves| >= 1 && i < |sx|
    ensures |MapTasks(sx, slaves)| == |sx|
    ensures MapTasks(sx, slaves)[i] == MapTask(slaves[i % |slaves|], sx[i])
    decreases |sx|
  {
    var k := |slaves|;
    MapTasksLength(sx, slaves);
    if |sx| <= k {
      assert MapWaves(sx, slaves)[1..] == [];
      DivBetween(i, k, 0);
    } else {
      MapTasksCons(sx, slaves);
      if i < k {
        DivBetween(i, k, 0);
      } else {
        MapTaskSlot(sx[k..], slaves, i - k);
        SlotShift(i, k);
      }
    }
  }

  /** The waves are the task list cut into chunks of one task per slave. */
  lemma {:induction false} MapWavesChunks(sx: seq<string>, slaves: seq<string>)
    requires |slaves| >= 1
    ensures MapWaves(sx, slaves) == Waves(MapTasks(sx, slaves), |slaves|)
    decreases |sx|
  {
    var k := |slaves|;
    var tasks := MapTasks(sx, slaves);
    MapTasksLength(sx, slaves);
    if |sx| > k {
      MapTasksCons(sx, slaves);
      MapTasksLength(sx[k..], slaves);
      MapWavesChunks(sx[k..], slaves);
      assert tasks[..k] == MapWave(sx[..k], slaves);
      assert tasks[k..] == MapTasks(sx[k..], slaves);
    } else if sx != [] {
      assert MapWaves(sx, slaves)[1..] == [];
      assert MapTasks(sx, slaves) == MapWave(sx, slaves) + Flatten([]);
      assert tasks == MapWave(sx, slaves);
      assert Waves(tasks, k) == [tasks];
    }
  }

  /**
   * The map schedule: ceil(n / k) waves for n splits and k slaves, together
   * dispatching every split once in list order, wave `w` handing split
   * `w * k + j` to slave `j`.
   */
  lemma MapSchedule(sx: seq<string>, slaves: seq<string>, w: nat, j: nat)
    requires |slaves| >= 1
    ensures |MapWaves(sx, slaves)| == (|sx| + |slaves| - 1) / |slaves|
    ensures Flatten(MapWaves(sx, slaves)) == MapTasks(sx, slaves)
    ensures w < |MapWaves(sx, slaves)| && j < |MapWaves(sx, slaves)[w]| ==>
      j < |slaves| && w * |slaves| + j < |sx| &&
      MapWaves(sx, slaves)[w][j] == MapTask(slaves[j], sx[w * |slaves| + j])
  {
    var k := |slaves|;
    var tasks := MapTasks(sx, slaves);
    MapWavesChunks(sx, slaves);
    MapTasksLength(sx, slaves);
    WavesCount(tasks, k);
    if w < |Waves(tasks, k)| {
      WaveElement(tasks, k, w, j);
      if j < |Waves(tasks, k)[w]| {
        MapTaskSlot(sx, slaves, w * k + j);
        SlotOf(w, k, j);
      }
    }
  }

  /**
   * After the map stage the hosts with an entry are exactly the slaves that
   * were handed a split, whether or not their tasks succeeded.
   */
  lemma MapHosts(sx: seq<string>, slaves: seq<string>, exec: Executor)
    requires |slaves| >= 1
    ensures Hosts(RunsOf(MapTasks(sx, slaves), exec)) == set j | 0 <= j < |sx| && j < |slaves| :: slaves[j]
  {
    var runs := RunsOf(MapTasks(sx, slaves), exec);
    var k := |slaves|;
    MapTasksLength(sx, slaves);
    forall h | h in Hosts(runs) ensures exists j :: 0 <= j < |sx| && j < k && slaves[j] == h {
      var i :| 0 <= i < |runs| && runs[i].host == h;
      MapTaskSlot(sx, slaves, i);
      SlotBelow(i, k);
      assert slaves[i % k] == h;
    }
    forall j | 0 <= j < |sx| && j < k ensures slaves[j] in Hosts(runs) {
      MapTaskSlot(sx, slaves, j);
      DivBetween(j, k, 0);
      assert runs[j].host == slaves[j];
    }
  }

  /** The thread ran and finished as `r` records. */
  ghost predicate Ran(t: SlaveThread, r: Run)
    reads t
  {
    t.task.host == r.host && t.output == r.output
  }

  /** The two updates `mapRemoteExec` makes for one finished thread amount to `Consolidate`. */
  lemma ConsolidateSteps(before: map<string, seq<string>>, started: map<string, seq<string>>,
                         after: map<string, seq<string>>, r: Run)
    requires started == if r.host in before then before else before[r.host := []]
    requires after == if r.output.Some? then started[r.host := started[r.host] + r.output.value] else started
    ensures after == Consolidate(before, r)
  {
    if r.output.None? {
      var entry := if r.host in before then before[r.host] else [];
      assert entry + Lines(r) == entry;
    }
  }

  /** Consolidating the next run of a wave. */
  lemma GatherSlice(done: seq<Run>, wave: seq<Run>, m: nat)
    requires m < |wave|
    ensures Gather(done + wave[..m + 1]) == Consolidate(Gather(done + wave[..m]), wave[m])
  {
    SnocSlice(done, wave, m);
    GatherSnoc(done + wave[..m], wave[m]);
  }

  lemma SnocSlice<T>(done: seq<T>, wave: seq<T>, m: nat)
    requires m < |wave|
    ensures done + wave[..m + 1] == (done + wave[..m]) + [wave[m]]
  {
  }

  /**
   * The consolidation step of `mapRemoteExec`: each finished thread of a wave,
   * in start order, gives its host an entry if it has none and appends the
   * thread's output lines to it unless the output is `null`.
   */
  method ConsolidateWave(results: map<string, seq<string>>, slaveThreads: seq<SlaveThread>,
                         ghost done: seq<Run>, ghost wave: seq<Run>)
    returns (consolidated: map<string, seq<string>>)
    requires results == Gather(done)
    requires |slaveThreads| == |wave|
    requires forall i :: 0 <= i < |wave| ==> Ran(slaveThreads[i], wave[i])
    ensures consolidated == Gather(done + wave)
  {
    consolidated := results;
    var m := 0;
    assert done + wave[..m] == done;
    while m < |slaveThreads|
      invariant 0 <= m <= |slaveThreads|
      invariant consolidated == Gather(done + wave[..m])
    {
      var t := slaveThreads[m];
      ghost var before := consolidated;
      var slave := t.task.host;
      if slave !in consolidated {
        consolidated := consolidated[slave := []];
      }
      ghost var started := consolidated;
      var output := t.output;
      if output.Some? {
        consolidated := consolidated[slave := consolidated[slave] + output.value];
      }
      ConsolidateSteps(before, started, consolidated, wave[m]);
      GatherSlice(done, wave, m);
      m := m + 1;
    }
    assert wave[..m] == wave;
  }

  /**
   * One wave of `mapRemoteExec`: a thread per slave in list order, each given
   * the next split, until every slave has one or the splits run out. The
   * threads are run one after the other (see README).
   */
  method StartMapWave(sx: seq<string>, slaves: seq<string>, start: nat, exec: Executor)
    returns (slaveThreads: seq<SlaveThread>, next: nat)
    requires 1 <= |slaves| && start < |sx|
    ensures next == if |sx| - start <= |slaves| then |sx| else start + |slaves|
    ensures |slaveThreads| == next - start
    ensures forall m :: 0 <= m < |slaveThreads| ==>
      Ran(slaveThreads[m], RunsOf(MapWave(sx[start..next], slaves), exec)[m])
  {
    var k := |slaves|;
    ghost var end := if |sx| - start <= k then |sx| else start + k;
    ghost var waveRuns := RunsOf(MapWave(sx[start..end], slaves), exec);
    slaveThreads := [];
    next := start;
    var j := 0;
    while j < k && next < |sx|
      invariant 0 <= j <= k && next == start + j <= end
      invariant |slaveThreads| == j
      invariant forall m :: 0 <= m < j ==> Ran(slaveThreads[m], waveRuns[m])
    {
      var si := sx[next];
      var t := Launch(MapTask(slaves[j], si), exec);
      assert Ran(t, waveRuns[j]);
      slaveThreads := slaveThreads + [t];
      next := next + 1;
      j := j + 1;
    }
  }

  /** Dispatching one more wave keeps the schedule a prefix of `MapWaves` and extends the runs by the wave's. */
  lemma MapWaveDone(sx: seq<string>, slaves: seq<string>, schedule: seq<seq<Task>>, start: nat, next: nat, exec: Executor)
    requires 1 <= |slaves| && start < |sx|
    requires next == if |sx| - start <= |slaves| then |sx| else start + |slaves|
    requires schedule + MapWaves(sx[start..], slaves) == MapWaves(sx, slaves)
    ensures (schedule + [MapWave(sx[start..next], slaves)]) + MapWaves(sx[next..], slaves) == MapWaves(sx, slaves)
    ensures RunsOf(Flatten(schedule + [MapWave(sx[start..next], slaves)]), exec)
         == RunsOf(Flatten(schedule), exec) + RunsOf(MapWave(sx[start..next], slaves), exec)
  {
    var wave := MapWave(sx[start..next], slaves);
    FlattenSnoc(schedule, wave);
    RunsOfAppend(Flatten(schedule), wave, exec);
    MapWavesStep(sx[start..], slaves);
    assert sx[start..][..next - start] == sx[start..next];
    assert sx[start..][next - start..] == sx[next..];
    var rest := MapWaves(sx[next..], slaves);
    assert MapWaves(sx[start..], slaves) == [wave] + rest;
    assert (schedule + [wave]) + rest == schedule + ([wave] + rest);
  }

  /**
   * `mapRemoteExec`: dispatches the MAP tasks wave by wave and consolidates
   * each wave's outputs per host. `schedule` records the tasks of each wave.
   */
  method MapRemoteExec(sx: seq<string>, slaves: seq<string>, exec: Executor)
    returns (results: map<string, seq<string>>, ghost schedule: seq<seq<Task>>)
    requires |slaves| >= 1
    ensures schedule == MapWaves(sx, slaves) == Waves(MapTasks(sx, slaves), |slaves|)
    ensures results == Gather(RunsOf(MapTasks(sx, slaves), exec))
    ensures results.Keys == set j | 0 <= j < |sx| && j < |slaves| :: slaves[j]
    ensures forall h :: h in results ==> results[h] == HostOutput(RunsOf(MapTasks(sx, slaves), exec), h)
  {
    results := map[];
    schedule := [];
    var next := 0;
    while next < |sx|
      invariant 0 <= next <= |sx|
      invariant schedule + MapWaves(sx[next..], slaves) == MapWaves(sx, slaves)
      invariant results == Gather(RunsOf(Flatten(schedule), exec))
    {
      ghost var start := next;
      var slaveThreads;
      slaveThreads, next := StartMapWave(sx, slaves, next, exec);
      ghost var wave := MapWave(sx[start..next], slaves);
      ghost var waveRuns := RunsOf(wave, exec);
      results := ConsolidateWave(results, slaveThreads, RunsOf(Flatten(schedule), exec), waveRuns);
      MapWaveDone(sx, slaves, schedule, start, next, exec);
      schedule := schedule + [wave];
    }
    assert sx[next..] == [];
    MapWavesChunks(sx, slaves);
    GatherByHost(RunsOf(MapTasks(sx, slaves), exec));
    MapHosts(sx, slaves, exec);
  }

  // ---------------------------------------------------------------------------
  // The key index
  // ---------------------------------------------------------------------------

  /** A line the map stage returned, with the host whose entry held it. */
  datatype Emission = Emission(host: string, pair: string)

  /** The lines of one host, tagged with that host. */
  function Tagged(host: string, lines: seq<string>): seq<Emission>
  {
    seq(|lines|, i requires 0 <= i < |lines| => Emission(host, lines[i]))
  }

  /** The lines of `results`, host by host in `order`, each host's lines in order. */
  function Emitted(order: seq<string>, results: map<string, seq<string>>): seq<Emission>
    requires forall h :: h in order ==> h in results
  {
    if order == [] then []
    else
      var h := order[|order| - 1];
      Emitted(order[..|order| - 1], results) + Tagged(h, results[h])
  }

  /** Every line of every listed host is emitted, tagged with its host, and nothing else is. */
  lemma {:induction false} EmittedSpec(order: seq<string>, results: map<string, seq<string>>, e: Emission)
    requires forall h :: h in order ==> h in results
    ensures e in Emitted(order, results) <==> e.host in order && e.pair in results[e.host]
  {
    if order != [] {
      var init := order[..|order| - 1];
      var h := order[|order| - 1];
      EmittedSpec(init, results, e);
      assert e in Tagged(h, results[h]) <==> e.host == h && e.pair in results[h] by {
        if e in Tagged(h, results[h]) {
          var i :| 0 <= i < |results[h]| && Tagged(h, results[h])[i] == e;
        }
        if e.host == h && e.pair in results[h] {
          var i :| 0 <= i < |results[h]| && results[h][i] == e.pair;
          assert Tagged(h, results[h])[i] == e;
        }
      }
      assert order == init + [h];
    }
  }

  /** A line read as `word:UMx`: the host that returned it, the word and the file. */
  datatype Announced = Announced(host: string, word: string, file: string)

  /**
   * `pair.split(":")` and its first two items; `None` when there are fewer
   * than two, where the master's `items[1]` throws.
   */
  function ReadPair(e: Emission): Option<Announced>
  {
    var items := Split(e.pair, IsColon);
    if |items| < 2 then None else Some(Announced(e.host, items[0], items[1]))
  }

  /** Each line read in turn. */
  function ReadsOf(es: seq<Emission>): (r: seq<Option<Announced>>)
    ensures |r| == |es|
  {
    seq(|es|, i requires 0 <= i < |es| => ReadPair(es[i]))
  }

  lemma ReadsOfAppend(a: seq<Emission>, b: seq<Emission>)
    ensures ReadsOf(a + b) == ReadsOf(a) + ReadsOf(b)
  {
  }

  /** The position of the first line that does not parse, `|os|` when all do. */
  function FirstUnparsed(os: seq<Option<Announced>>): (n: nat)
    ensures n <= |os|
  {
    if os == [] || os[0].None? then 0 else 1 + FirstUnparsed(os[1..])
  }

  /** The lines read before the first one that does not parse. */
  function Parsed(os: seq<Option<Announced>>): seq<Announced>
  {
    if os == [] || os[0].None? then [] else [os[0].value] + Parsed(os[1..])
  }

  /**
   * The master reads lines up to the first one that does not parse, and
   * keeps what it read from each of them.
   */
  lemma {:induction false} ParsedSpec(os: seq<Option<Announced>>)
    ensures var n := FirstUnparsed(os);
      (forall i :: 0 <= i < n ==> os[i].Some?) && (n < |os| ==> os[n].None?)
    ensures |Parsed(os)| == FirstUnparsed(os)
    ensures forall i :: 0 <= i < |Parsed(os)| ==> os[i] == Some(Parsed(os)[i])
  {
    if os != [] && os[0].Some? {
      ParsedSpec(os[1..]);
      assert forall i :: 1 <= i < |os| ==> os[i] == os[1..][i - 1];
    }
  }

  /** Reading on past a prefix that parses. */
  lemma {:induction false} ParsedAppend(a: seq<Option<Announced>>, b: seq<Option<Announced>>)
    requires FirstUnparsed(a) == |a|
    ensures FirstUnparsed(a + b) == |a| + FirstUnparsed(b)
    ensures Parsed(a + b) == Parsed(a) + Parsed(b)
    decreases |a|
  {
    if a == [] {
      assert a + b == b;
    } else {
      assert (a + b)[1..] == a[1..] + b;
      ParsedAppend(a[1..], b);
    }
  }

  /** Nothing after the first line that does not parse is read. */
  lemma {:induction false} ParsedAppendFailed(a: seq<Option<Announced>>, b: seq<Option<Announced>>)
    requires FirstUnparsed(a) < |a|
    ensures FirstUnparsed(a + b) == FirstUnparsed(a)
    ensures Parsed(a + b) == Parsed(a)
    decreases |a|
  {
    if a[0].Some? {
      assert (a + b)[1..] == a[1..] + b;
      ParsedAppendFailed(a[1..], b);
    }
  }

  lemma {:induction false} EmittedAppend(a: seq<string>, b: seq<string>, results: map<string, seq<string>>)
    requires forall h :: h in a + b ==> h in results
    ensures Emitted(a + b, results) == Emitted(a, results) + Emitted(b, results)
    decreases |b|
  {
    if b == [] {
      assert a + b == a;
    } else {
      var b' := b[..|b| - 1];
      assert (a + b)[..|a + b| - 1] == a + b';
      EmittedAppend(a, b', results);
    }
  }

  /** `keys_UMx` after indexing `ann`: each word with the files it was announced in. */
  function KeyIndex(ann: seq<Announced>): (r: map<string, set<string>>)
    ensures forall w :: w in r ==> r[w] != {}
  {
    if ann == [] then map[]
    else
      var m := KeyIndex(ann[..|ann| - 1]);
      var a := ann[|ann| - 1];
      m[a.word := (if a.word in m then m[a.word] else {}) + {a.file}]
  }

  /** `UMx_machines` after indexing `ann`: each file with the host that announced it. */
  function Machines(ann: seq<Announced>): map<string, string>
  {
    if ann == [] then map[]
    else
      var a := ann[|ann| - 1];
      Machines(ann[..|ann| - 1])[a.file := a.host]
  }

  /**
   * The key index holds exactly the announced words, and a word's set
   * exactly the files it was announced in.
   */
  lemma {:induction false} KeyIndexSpec(ann: seq<Announced>, w: string, f: string)
    ensures w in KeyIndex(ann) <==> exists i :: 0 <= i < |ann| && ann[i].word == w
    ensures w in KeyIndex(ann) ==>
      (f in KeyIndex(ann)[w] <==> exists i :: 0 <= i < |ann| && ann[i].word == w && ann[i].file == f)
  {
    if ann != [] {
      var init := ann[..|ann| - 1];
      KeyIndexSpec(init, w, f);
      forall i | 0 <= i < |init| ensures init[i] == ann[i] {
      }
      if exists i :: 0 <= i < |ann| && ann[i].word == w {
        var i :| 0 <= i < |ann| && ann[i].word == w;
        assert i < |init| ==> init[i].word == w;
      }
      if exists i :: 0 <= i < |ann| && ann[i].word == w && ann[i].file == f {
        var i :| 0 <= i < |ann| && ann[i].word == w && ann[i].file == f;
        assert i < |init| ==> init[i].word == w && init[i].file == f;
      }
    }
  }

  /** Indexing one more line: the `put` of its file into the word's set, creating the set first. */
  lemma KeyIndexSnoc(ann: seq<Announced>, a: Announced, created: map<string, set<string>>)
    requires created == if a.word in KeyIndex(ann) then KeyIndex(ann) else KeyIndex(ann)[a.word := {}]
    ensures KeyIndex(ann + [a]) == created[a.word := created[a.word] + {a.file}]
  {
    assert (ann + [a])[..|ann|] == ann;
  }

  lemma MachinesSnoc(ann: seq<Announced>, a: Announced)
    ensures Machines(ann + [a]) == Machines(ann)[a.file := a.host]
  {
    assert (ann + [a])[..|ann|] == ann;
  }

  /**
   * `UMx_machines` holds exactly the announced files, each mapped to the host
   * of its last announcement.
   */
  lemma {:induction false} MachinesSpec(ann: seq<Announced>, f: string)
    ensures f in Machines(ann) <==> exists i :: 0 <= i < |ann| && ann[i].file == f
    ensures f in Machines(ann) ==>
      exists i :: 0 <= i < |ann| && ann[i].file == f && Machines(ann)[f] == ann[i].host &&
        forall j :: i < j < |ann| ==> ann[j].file != f
  {
    if ann != [] {
      var init := ann[..|ann| - 1];
      var a := ann[|ann| - 1];
      MachinesSpec(init, f);
      forall i | 0 <= i < |init| ensures init[i] == ann[i] {
      }
      if a.file != f {
        if exists i :: 0 <= i < |ann| && ann[i].file == f {
          var i :| 0 <= i < |ann| && ann[i].file == f;
          assert i < |init| && init[i].file == f;
        }
        if f in Machines(init) {
          var i :| 0 <= i < |init| && init[i].file == f && Machines(init)[f] == init[i].host &&
            forall j :: i < j < |init| ==> init[j].file != f;
          assert forall j :: i < j < |ann| ==> ann[j].file != f;
        }
      } else {
        assert ann[|ann| - 1].file == f;
      }
    }
  }

  /** Reading one more line that parses. */
  lemma ParsedExtend(os: seq<Option<Announced>>, j: nat)
    requires j < |os| && FirstUnparsed(os[..j]) == j && os[j].Some?
    ensures FirstUnparsed(os[..j + 1]) == j + 1
    ensures Parsed(os[..j + 1]) == Parsed(os[..j]) + [os[j].value]
  {
    assert os[..j + 1] == os[..j] + [os[j]];
    ParsedAppend(os[..j], [os[j]]);
  }

  /** Reading stops at the first line that does not parse. */
  lemma ParsedStop(os: seq<Option<Announced>>, j: nat)
    requires j < |os| && FirstUnparsed(os[..j]) == j && os[j].None?
    ensures FirstUnparsed(os) == j && Parsed(os) == Parsed(os[..j])
  {
    assert os == os[..j] + os[j..];
    ParsedAppend(os[..j], os[j..]);
  }

  /** `pair.split(":")`, keeping the first two items when there are two. */
  method ReadLine(host: string, pair: string) returns (p: Option<Announced>)
    ensures p == ReadPair(Emission(host, pair))
    ensures p.Some? ==> p.value.host == host
  {
    var items := Split(pair, IsColon);
    if |items| < 2 {
      p := None;
    } else {
      p := Some(Announced(host, items[0], items[1]));
    }
  }

  /**
   * One line read: the `put` of its file into its word's set (creating the
   * set on the word's first line) and of its host into `UMx_machines`.
   */
  method IndexLine(a: Announced, keysUmx: map<string, set<string>>, machines: map<string, string>,
                   ghost read: seq<Announced>)
    returns (indexed: map<string, set<string>>, machinesNow: map<string, string>)
    requires keysUmx == KeyIndex(read) && machines == Machines(read)
    ensures indexed == KeyIndex(read + [a]) && machinesNow == Machines(read + [a])
  {
    indexed := keysUmx;
    if a.word !in indexed {
      indexed := indexed[a.word := {}];
    }
    KeyIndexSnoc(read, a, indexed);
    indexed := indexed[a.word := indexed[a.word] + {a.file}];
    MachinesSnoc(read, a);
    machinesNow := machines[a.file := a.host];
  }

  /**
   * The inner loop of `mapSplitFiles`: reads the lines one host returned in
   * order and stops at the first line with fewer than two items, keeping
   * what the lines before it added.
   */
  method IndexHostLines(host: string, lines: seq<string>, keysUmx: map<string, set<string>>,
                        machines: map<string, string>, ghost read: seq<Announced>)
    returns (ok: bool, indexed: map<string, set<string>>, machinesNow: map<string, string>,
             ghost readNow: seq<Announced>)
    requires keysUmx == KeyIndex(read) && machines == Machines(read)
    ensures var os := ReadsOf(Tagged(host, lines));
      (ok <==> FirstUnparsed(os) == |os|) &&
      indexed == KeyIndex(read + Parsed(os)) && machinesNow == Machines(read + Parsed(os))
    ensures readNow == read + Parsed(ReadsOf(Tagged(host, lines)))
  {
    indexed, machinesNow := keysUmx, machines;
    readNow := read;
    ghost var os := ReadsOf(Tagged(host, lines));
    assert |os| == |lines|;
    var j := 0;
    while j < |lines|
      invariant 0 <= j <= |lines|
      invariant FirstUnparsed(os[..j]) == j
      invariant readNow == read + Parsed(os[..j])
      invariant indexed == KeyIndex(readNow) && machinesNow == Machines(readNow)
    {
      var p := ReadLine(host, lines[j]);
      assert os[j] == p;
      if p.None? {
        ParsedStop(os, j);
        assert FirstUnparsed(os) == j < |os|;
        ok := false;
        return;
      }
      indexed, machinesNow := IndexLine(p.value, indexed, machinesNow, readNow);
      ParsedExtend(os, j);
      readNow := readNow + [p.value];
      j := j + 1;
    }
    assert os[..j] == os;
    ok := true;
  }

  /** Reading the lines of one more host, in the order the hosts are visited. */
  lemma EmittedStep(hosts: seq<string>, n: nat, results: map<string, seq<string>>)
    requires n < |hosts| && forall h :: h in hosts ==> h in results
    ensures Emitted(hosts[..n + 1], results) == Emitted(hosts[..n], results) + Tagged(hosts[n], results[hosts[n]])
  {
    assert hosts[..n + 1][..n] == hosts[..n];
  }

  /** A host whose lines do not all parse ends the reading: later hosts are not read. */
  lemma EmittedStop(hosts: seq<string>, n: nat, results: map<string, seq<string>>)
    requires n < |hosts| && forall h :: h in hosts ==> h in results
    requires var os := ReadsOf(Emitted(hosts[..n + 1], results)); FirstUnparsed(os) < |os|
    ensures var os := ReadsOf(Emitted(hosts[..n + 1], results));
      var all := ReadsOf(Emitted(hosts, results));
      FirstUnparsed(all) == FirstUnparsed(os) < |all| && Parsed(all) == Parsed(os)
  {
    ReadsOfSplit(hosts, n + 1, results);
    ParsedAppendFailed(ReadsOf(Emitted(hosts[..n + 1], results)), ReadsOf(Emitted(hosts[n + 1..], results)));
  }

  lemma ReadsOfSplit(hosts: seq<string>, m: nat, results: map<string, seq<string>>)
    requires m <= |hosts| && forall h :: h in hosts ==> h in results
    ensures ReadsOf(Emitted(hosts, results)) ==
      ReadsOf(Emitted(hosts[..m], results)) + ReadsOf(Emitted(hosts[m..], results))
  {
    var front, back := hosts[..m], hosts[m..];
    assert hosts == front + back;
    EmittedAppend(front, back, results);
    ReadsOfAppend(Emitted(front, results), Emitted(back, results));
  }

  // ---------------------------------------------------------------------------
  // The shuffle/reduce stage
  // ---------------------------------------------------------------------------

  /** A reduce task as the schedule decides it: the slave, the key and the number of its result file. */
  datatype Assignment = Assignment(host: string, key: string, reducedFile: nat)

  /**
   * The files the index lists for `w`. Every key the reduce stage looks up
   * comes from the index's own key set, so the empty set is never used.
   */
  function FilesOf(index: map<string, set<string>>, w: string): set<string>
  {
    if w in index then index[w] else {}
  }

  /**
   * One wave of `shuffleReduceRemoteExec`: slave `j` takes the `j`-th key of
   * `chunk`; an empty key takes its slave's turn without a task; a non-empty
   * one gets the next result file `RM<i>`, counting from `i0`.
   */
  function ReduceWave(chunk: seq<string>, slaves: seq<string>, i0: nat)
    : seq<Assignment>
    requires |chunk| <= |slaves|
    decreases |chunk|
  {
    if chunk == [] then []
    else
      var j := |chunk| - 1;
      var w := chunk[j];
      ReduceWave(chunk[..j], slaves, i0) +
        (if w == "" then []
         else [Assignment(slaves[j], w, (i0 + |NonEmpty(chunk[..j])|))])
  }

  /** The waves of the reduce stage: the keys in chunks of one per slave, the counter running on. */
  function ReduceWaves(keys: seq<string>, slaves: seq<string>, i0: nat)
    : seq<seq<Assignment>>
    requires |slaves| >= 1
    decreases |keys|
  {
    if keys == [] then []
    else if |keys| <= |slaves| then [ReduceWave(keys, slaves, i0)]
    else
      var k := |slaves|;
      [ReduceWave(keys[..k], slaves, i0)] +
        ReduceWaves(keys[k..], slaves, i0 + |NonEmpty(keys[..k])|)
  }

  /** The assignments of the reduce stage in dispatch order, the keys taken in the key set's iteration order. */
  function ReduceSchedule(index: map<string, set<string>>, slaves: seq<string>, iter: Iteration): seq<Assignment>
    requires |slaves| >= 1 && ValidIteration(iter)
  {
    var keys := iter(index.Keys);
    assert Enumerates(keys, index.Keys);
    Flatten(ReduceWaves(keys, slaves, 0))
  }

  /** The name of the `i`-th reduce result file. */
  function ReducedFile(i: nat): string
  {
    "RM" + NatToString(i)
  }

  /** `createReduceShuffleSlaveThread` for an assignment: its key's files are looked up in the index. */
  function AssignedTask(a: Assignment, index: map<string, set<string>>, iter: Iteration): Task
  {
    ReduceTask(a.host, a.key, ReducedFile(a.reducedFile), FilesOf(index, a.key), iter)
  }

  /** The tasks of a plan, in order. */
  function ReduceTasksOf(plan: seq<Assignment>, index: map<string, set<string>>, iter: Iteration): (r: seq<Task>)
    ensures |r| == |plan|
  {
    seq(|plan|, i requires 0 <= i < |plan| => AssignedTask(plan[i], index, iter))
  }

  lemma ReduceTasksOfAppend(a: seq<Assignment>, b: seq<Assignment>, index: map<string, set<string>>, iter: Iteration)
    ensures ReduceTasksOf(a + b, index, iter) == ReduceTasksOf(a, index, iter) + ReduceTasksOf(b, index, iter)
  {
  }

  lemma ReduceWavesStep(keys: seq<string>, slaves: seq<string>, i0: nat)
    requires |slaves| >= 1 && keys != []
    ensures var end := if |keys| <= |slaves| then |keys| else |slaves|;
      ReduceWaves(keys, slaves, i0) ==
        [ReduceWave(keys[..end], slaves, i0)] +
        ReduceWaves(keys[end..], slaves, i0 + |NonEmpty(keys[..end])|)
  {
    if |keys| <= |slaves| {
      assert keys[..|keys|] == keys;
      assert keys[|keys|..] == [];
    }
  }

  /** Looking at one more key of a wave. */
  lemma ReduceWaveSnoc(keys: seq<string>, slaves: seq<string>, i0: nat, start: nat, next: nat)
    requires start <= next < |keys| && next - start < |slaves|
    ensures var w := keys[next];
      ReduceWave(keys[start..next + 1], slaves, i0) ==
        ReduceWave(keys[start..next], slaves, i0) +
        (if w == "" then []
         else [Assignment(slaves[next - start], w, (i0 + |NonEmpty(keys[start..next])|))])
    ensures NonEmpty(keys[start..next + 1]) == NonEmpty(keys[start..next]) + (if keys[next] == "" then [] else [keys[next]])
  {
    assert keys[start..next + 1][..next - start] == keys[start..next];
    assert keys[start..next + 1] == keys[start..next] + [keys[next]];
    NonEmptySnoc(keys[start..next], keys[next]);
  }

  /**
   * `r` hands the keys `ks`, in order, to slaves, numbering the result files
   * consecutively from `i0`.
   */
  predicate Numbered(r: seq<Assignment>, ks: seq<string>, slaves: seq<string>, i0: nat)
  {
    |r| == |ks| &&
    forall c :: 0 <= c < |r| ==> r[c].host in slaves && r[c].key == ks[c] && r[c].reducedFile == i0 + c
  }

  lemma NumberedAppend(a: seq<Assignment>, b: seq<Assignment>, ka: seq<string>, kb: seq<string>,
                       slaves: seq<string>, i0: nat)
    requires Numbered(a, ka, slaves, i0) && Numbered(b, kb, slaves, i0 + |ka|)
    ensures Numbered(a + b, ka + kb, slaves, i0)
  {
    forall c | |a| <= c < |a + b|
      ensures (a + b)[c] == b[c - |a|] && (ka + kb)[c] == kb[c - |a|]
    {
    }
  }

  /**
   * A wave hands the `c`-th non-empty key of its chunk, with that key's
   * files, to a slave, with the result file `RM<i0 + c>`; there is one
   * assignment per non-empty key.
   */
  lemma {:induction false} ReduceWaveSpec(chunk: seq<string>, slaves: seq<string>, i0: nat)
    requires |chunk| <= |slaves|
    ensures Numbered(ReduceWave(chunk, slaves, i0), NonEmpty(chunk), slaves, i0)
    decreases |chunk|
  {
    if chunk != [] {
      var j := |chunk| - 1;
      var init := chunk[..j];
      assert chunk == init + [chunk[j]];
      NonEmptySnoc(init, chunk[j]);
      ReduceWaveSpec(init, slaves, i0);
    }
  }

  /** Counting the non-empty keys before position `p` across a wave boundary at `end`. */
  lemma NonEmptyBefore(keys: seq<string>, end: nat, p: nat)
    requires end <= p <= |keys|
    ensures |NonEmpty(keys[..p])| == |NonEmpty(keys[..end])| + |NonEmpty(keys[end..][..p - end])|
  {
    assert keys[..p] == keys[..end] + keys[end..][..p - end];
    NonEmptyAppend(keys[..end], keys[end..][..p - end]);
  }

  /** A prefix of a prefix. */
  lemma PrefixOfPrefix(keys: seq<string>, end: nat, p: nat)
    requires p <= end <= |keys|
    ensures keys[..end][..p] == keys[..p]
  {
  }

  lemma ReduceWaveLength(chunk: seq<string>, slaves: seq<string>, i0: nat)
    requires |chunk| <= |slaves|
    ensures |ReduceWave(chunk, slaves, i0)| == |NonEmpty(chunk)|
  {
    ReduceWaveSpec(chunk, slaves, i0);
  }

  /**
   * The key at slot `p` of a wave, when non-empty, goes to slave `p`,
   * numbered by the non-empty keys before it.
   */
  lemma {:induction false} ReduceWaveSlot(chunk: seq<string>, slaves: seq<string>, i0: nat, p: nat)
    requires |chunk| <= |slaves|
    requires p < |chunk| && chunk[p] != ""
    ensures var r := ReduceWave(chunk, slaves, i0);
      var c := |NonEmpty(chunk[..p])|;
      c < |r| && r[c] == Assignment(slaves[p], chunk[p], (i0 + c))
    decreases |chunk|
  {
    var j := |chunk| - 1;
    var init := chunk[..j];
    var prefix := ReduceWave(init, slaves, i0);
    var w := chunk[j];
    var last := if w == "" then [] else [Assignment(slaves[j], w, (i0 + |NonEmpty(init)|))];
    assert ReduceWave(chunk, slaves, i0) == prefix + last;
    if p < j {
      assert init[..p] == chunk[..p];
      ReduceWaveSlot(init, slaves, i0, p);
    } else {
      assert chunk[..p] == init;
      ReduceWaveLength(init, slaves, i0);
    }
  }

  /** The first wave followed by the rest, flattened. */
  lemma ReduceFlatStep(keys: seq<string>, slaves: seq<string>, i0: nat, end: nat)
    requires |slaves| >= 1 && keys != []
    requires end == if |keys| <= |slaves| then |keys| else |slaves|
    ensures Flatten(ReduceWaves(keys, slaves, i0)) ==
      ReduceWave(keys[..end], slaves, i0) +
      Flatten(ReduceWaves(keys[end..], slaves, i0 + |NonEmpty(keys[..end])|))
  {
    ReduceWavesStep(keys, slaves, i0);
    var ws := ReduceWaves(keys, slaves, i0);
    assert ws[0] == ReduceWave(keys[..end], slaves, i0);
    assert ws[1..] == ReduceWaves(keys[end..], slaves, i0 + |NonEmpty(keys[..end])|);
  }

  /**
   * The reduce waves hand the `c`-th non-empty key, with its files, to one
   * of the slaves, with the result file `RM<i0 + c>`; there is one
   * assignment per non-empty key.
   */
  lemma {:induction false} ReduceWavesSpec(keys: seq<string>, slaves: seq<string>, i0: nat)
    requires |slaves| >= 1
    ensures Numbered(Flatten(ReduceWaves(keys, slaves, i0)), NonEmpty(keys), slaves, i0)
    decreases |keys|
  {
    if keys != [] {
      var end := if |keys| <= |slaves| then |keys| else |slaves|;
      var ka, kb := NonEmpty(keys[..end]), NonEmpty(keys[end..]);
      ReduceFlatStep(keys, slaves, i0, end);
      assert keys == keys[..end] + keys[end..];
      NonEmptyAppend(keys[..end], keys[end..]);
      ReduceWaveSpec(keys[..end], slaves, i0);
      ReduceWavesSpec(keys[end..], slaves, i0 + |ka|);
      NumberedAppend(ReduceWave(keys[..end], slaves, i0), Flatten(ReduceWaves(keys[end..], slaves, i0 + |ka|)),
                     ka, kb, slaves, i0);
    }
  }

  /**
   * The non-empty key at position `p` of the iteration goes to slave
   * `p mod k` (`SlotIsMod`), numbered by the non-empty keys before it.
   */
  lemma {:induction false} ReduceWavesSlot(keys: seq<string>, slaves: seq<string>, i0: nat, p: nat)
    requires |slaves| >= 1
    requires p < |keys| && keys[p] != ""
    ensures var r := Flatten(ReduceWaves(keys, slaves, i0));
      var c := |NonEmpty(keys[..p])|;
      c < |r| && r[c] == Assignment(slaves[Slot(p, |slaves|)], keys[p], (i0 + c))
    decreases |keys|, 1
  {
    if p < |slaves| {
      FirstWaveSlot(keys, slaves, i0, p);
    } else {
      LaterWaveSlot(keys, slaves, i0, p);
    }
  }

  lemma {:induction false} FirstWaveSlot(keys: seq<string>, slaves: seq<string>, i0: nat, p: nat)
    requires |slaves| >= 1
    requires p < |keys| && p < |slaves| && keys[p] != ""
    ensures var r := Flatten(ReduceWaves(keys, slaves, i0));
      var c := |NonEmpty(keys[..p])|;
      c < |r| && r[c] == Assignment(slaves[Slot(p, |slaves|)], keys[p], (i0 + c))
  {
    var k := |slaves|;
    var end := if |keys| <= k then |keys| else k;
    var chunk := keys[..end];
    var r0 := ReduceWave(chunk, slaves, i0);
    var r1 := Flatten(ReduceWaves(keys[end..], slaves, i0 + |NonEmpty(chunk)|));
    ReduceFlatStep(keys, slaves, i0, end);
    PrefixOfPrefix(keys, end, p);
    ReduceWaveSlot(chunk, slaves, i0, p);
    var c := |NonEmpty(keys[..p])|;
    assert (r0 + r1)[c] == r0[c];
  }

  lemma {:induction false} LaterWaveSlot(keys: seq<string>, slaves: seq<string>, i0: nat, p: nat)
    requires |slaves| >= 1
    requires |slaves| <= p < |keys| && keys[p] != ""
    ensures var r := Flatten(ReduceWaves(keys, slaves, i0));
      var c := |NonEmpty(keys[..p])|;
      c < |r| && r[c] == Assignment(slaves[Slot(p, |slaves|)], keys[p], (i0 + c))
    decreases |keys|, 0
  {
    var k := |slaves|;
    var rest := keys[k..];
    var i1 := i0 + |NonEmpty(keys[..k])|;
    var r := Flatten(ReduceWaves(keys, slaves, i0));
    var r0 := ReduceWave(keys[..k], slaves, i0);
    var r1 := Flatten(ReduceWaves(rest, slaves, i1));
    var c1 := |NonEmpty(rest[..p - k])|;
    assert r == r0 + r1 && |r0| == |NonEmpty(keys[..k])| by {
      ReduceFlatStep(keys, slaves, i0, k);
      ReduceWaveLength(keys[..k], slaves, i0);
    }
    assert c1 < |r1| && r1[c1] == Assignment(slaves[Slot(p - k, k)], keys[p], i1 + c1) by {
      assert rest[p - k] == keys[p];
      ReduceWavesSlot(rest, slaves, i1, p - k);
    }
    assert |NonEmpty(keys[..p])| == |r0| + c1 by {
      NonEmptyBefore(keys, k, p);
    }
    IndexAfter(r, r0, r1, c1);
    assert Slot(p, k) == Slot(p - k, k);
  }

  /**
   * The reduce schedule gives every non-empty key of the index exactly one
   * task and nothing else: the `c`-th task carries the `c`-th non-empty key
   * in iteration order and the result file number `c`, so the numbers run
   * densely from 0.
   */
  lemma ReduceScheduleSpec(index: map<string, set<string>>, slaves: seq<string>, iter: Iteration)
    requires |slaves| >= 1 && ValidIteration(iter)
    ensures var plan := ReduceSchedule(index, slaves, iter);
      (forall c :: 0 <= c < |plan| ==>
        plan[c].key in index && plan[c].key != "" && plan[c].host in slaves && plan[c].reducedFile == c) &&
      (forall c, d :: 0 <= c < d < |plan| ==> plan[c].key != plan[d].key) &&
      (forall w :: w in index && w != "" ==> exists c :: 0 <= c < |plan| && plan[c].key == w)
  {
    var keys := iter(index.Keys);
    assert Enumerates(keys, index.Keys);
    var plan := ReduceSchedule(index, slaves, iter);
    assert plan == Flatten(ReduceWaves(keys, slaves, 0));
    ReduceWavesSpec(keys, slaves, 0);
    var ks := NonEmpty(keys);
    NonEmptyDistinct(keys);
    forall c, d | 0 <= c < d < |plan| ensures plan[c].key != plan[d].key {
      assert plan[c].key == ks[c] && plan[d].key == ks[d];
    }
    forall w | w in index && w != "" ensures exists c :: 0 <= c < |plan| && plan[c].key == w {
      assert w in ks;
      var c :| 0 <= c < |ks| && ks[c] == w;
      assert plan[c].key == w;
    }
  }

  /**
   * The non-empty key at position `p` of the iteration goes to slave
   * `p mod k`: an empty key before it still took its slave's turn.
   */
  lemma ReduceScheduleSlot(index: map<string, set<string>>, slaves: seq<string>, iter: Iteration, p: nat)
    requires |slaves| >= 1 && ValidIteration(iter)
    requires p < |iter(index.Keys)| && iter(index.Keys)[p] != ""
    ensures var keys := iter(index.Keys);
      var plan := ReduceSchedule(index, slaves, iter);
      var c := |NonEmpty(keys[..p])|;
      c < |plan| && plan[c] == Assignment(slaves[p % |slaves|], keys[p], c)
  {
    var keys := iter(index.Keys);
    ReduceWavesSlot(keys, slaves, 0, p);
    SlotIsMod(p, |slaves|);
  }

  /**
   * The task made for an assignment whose key is in the index: the key, the
   * result file, then every file of the key exactly once.
   */
  lemma AssignedTaskSpec(a: Assignment, index: map<string, set<string>>, iter: Iteration)
    requires ValidIteration(iter) && a.key in index
    ensures var t := AssignedTask(a, index, iter);
      t.host == a.host && t.command == "SHUFFLE_REDUCE" &&
      |t.params| == 2 + |index[a.key]| &&
      t.params[0] == a.key && t.params[1] == ReducedFile(a.reducedFile) &&
      Enumerates(t.params[2..], index[a.key])
  {
    ReduceTaskFiles(a.host, a.key, ReducedFile(a.reducedFile), index[a.key], iter);
  }

  /** Distinct numbers name distinct result files. */
  lemma ReducedFilesDistinct(i: nat, j: nat)
    requires i != j
    ensures ReducedFile(i) != ReducedFile(j)
  {
    if ReducedFile(i) == ReducedFile(j) {
      assert ReducedFile(i)[2..] == NatToString(i);
      assert ReducedFile(j)[2..] == NatToString(j);
      NatToStringInjective(i, j);
    }
  }

  /** An element of the second part of a concatenation. */
  lemma IndexAfter<T>(r: seq<T>, r0: seq<T>, r1: seq<T>, c1: nat)
    requires r == r0 + r1 && c1 < |r1|
    ensures |r0| + c1 < |r| && r[|r0| + c1] == r1[c1]
  {
  }

  // ---------------------------------------------------------------------------
  // The shuffle/reduce stage
  // ---------------------------------------------------------------------------

  /** Every thread of the runs returned an output: none of them left it `null`. */
  predicate Returned(runs: seq<Run>)
  {
    forall i :: 0 <= i < |runs| ==> runs[i].output.Some?
  }

  lemma ReturnedSnoc(wave: seq<Run>, m: nat)
    requires m < |wave| && Returned(wave[..m]) && wave[m].output.Some?
    ensures Returned(wave[..m + 1])
  {
    assert forall i :: 0 <= i < m ==> wave[..m + 1][i] == wave[..m][i];
  }

  /** The thread was created for `task` and ran it. */
  ghost predicate Performed(t: SlaveThread, task: Task, exec: Executor)
    reads t
  {
    t.task == task && t.output == Outcome(task, exec)
  }

  /** The runs of a plan, each assignment made into its SHUFFLE_REDUCE task. */
  function PlanRuns(plan: seq<Assignment>, index: map<string, set<string>>, iter: Iteration, exec: Executor): seq<Run>
  {
    RunsOf(ReduceTasksOf(plan, index, iter), exec)
  }

  lemma PlanRunsAppend(a: seq<Assignment>, b: seq<Assignment>, index: map<string, set<string>>,
                       iter: Iteration, exec: Executor)
    ensures PlanRuns(a + b, index, iter, exec) == PlanRuns(a, index, iter, exec) + PlanRuns(b, index, iter, exec)
  {
    ReduceTasksOfAppend(a, b, index, iter);
    RunsOfAppend(ReduceTasksOf(a, index, iter), ReduceTasksOf(b, index, iter), exec);
  }

  /**
   * One wave of `shuffleReduceRemoteExec`: for each slave in list order it
   * takes the next key, until the keys run out; a non-empty key gets the next
   * `RM<i>` and a thread, an empty one is skipped. The threads are run one
   * after the other (see README).
   */
  method StartReduceWave(keys: seq<string>, slaves: seq<string>, index: map<string, set<string>>,
                         iter: Iteration, start: nat, i: nat, exec: Executor)
    returns (slaveThreads: seq<SlaveThread>, next: nat, counter: nat)
    requires 1 <= |slaves| && start < |keys|
    requires forall w :: w in keys ==> w in index
    ensures next == if |keys| - start <= |slaves| then |keys| else start + |slaves|
    ensures counter == i + |NonEmpty(keys[start..next])|
    ensures var runs := PlanRuns(ReduceWave(keys[start..next], slaves, i), index, iter, exec);
      |slaveThreads| == |runs| &&
      forall m :: 0 <= m < |runs| ==> Ran(slaveThreads[m], runs[m])
  {
    var k := |slaves|;
    ghost var wave: seq<Assignment> := [];
    slaveThreads := [];
    next := start;
    counter := i;
    assert keys[start..next] == [];
    var j := 0;
    while j < k && next < |keys|
      invariant 0 <= j <= k && next == start + j <= |keys|
      invariant wave == ReduceWave(keys[start..next], slaves, i)
      invariant counter == i + |NonEmpty(keys[start..next])|
      invariant |slaveThreads| == |wave|
      invariant forall m :: 0 <= m < |wave| ==> Performed(slaveThreads[m], AssignedTask(wave[m], index, iter), exec)
    {
      var word := keys[next];
      ReduceWaveSnoc(keys, slaves, i, start, next);
      if |word| > 0 {
        var t := StartReduceTask(slaves[j], word, counter, index, iter, exec);
        slaveThreads := slaveThreads + [t];
        wave := wave + [Assignment(slaves[j], word, counter)];
        counter := counter + 1;
      }
      next := next + 1;
      j := j + 1;
    }
  }

  /** The thread for key `word`: its intermediate files, result file `RM<counter>`, run on `slave`. */
  method StartReduceTask(slave: string, word: string, counter: nat, index: map<string, set<string>>,
                         iter: Iteration, exec: Executor)
    returns (t: SlaveThread)
    requires word in index
    ensures fresh(t) && Performed(t, AssignedTask(Assignment(slave, word, counter), index, iter), exec)
  {
    var rmi := ReducedFile(counter);
    var umx := index[word];
    t := Launch(ReduceTask(slave, word, rmi, umx, iter), exec);
  }

  /**
   * The consolidation step of `shuffleReduceRemoteExec`: like the map
   * stage's, except that the output is appended without a `null` check, so
   * the first `null` output throws NullPointerException (`ok` false).
   */
  method ConsolidateReduceWave(results: map<string, seq<string>>, slaveThreads: seq<SlaveThread>,
                               ghost done: seq<Run>, ghost wave: seq<Run>)
    returns (ok: bool, consolidated: map<string, seq<string>>)
    requires results == Gather(done)
    requires |slaveThreads| == |wave|
    requires forall i :: 0 <= i < |wave| ==> Ran(slaveThreads[i], wave[i])
    ensures ok <==> Returned(wave)
    ensures ok ==> consolidated == Gather(done + wave)
  {
    consolidated := results;
    var m := 0;
    assert done + wave[..m] == done;
    while m < |slaveThreads|
      invariant 0 <= m <= |slaveThreads|
      invariant Returned(wave[..m])
      invariant consolidated == Gather(done + wave[..m])
    {
      var t := slaveThreads[m];
      ghost var before := consolidated;
      var slave := t.task.host;
      if slave !in consolidated {
        consolidated := consolidated[slave := []];
      }
      ghost var started := consolidated;
      var output := t.output;
      if output.None? {
        ok := false;
        return;
      }
      consolidated := consolidated[slave := consolidated[slave] + output.value];
      ConsolidateSteps(before, started, consolidated, wave[m]);
      GatherSlice(done, wave, m);
      ReturnedSnoc(wave, m);
      m := m + 1;
    }
    assert wave[..m] == wave;
    ok := true;
  }

  /** The wave starting at `start` and the waves after it. */
  lemma ReduceWavesAt(keys: seq<string>, slaves: seq<string>, i0: nat, start: nat, next: nat)
    requires 1 <= |slaves| && start < |keys|
    requires next == if |keys| - start <= |slaves| then |keys| else start + |slaves|
    ensures ReduceWaves(keys[start..], slaves, i0) ==
      [ReduceWave(keys[start..next], slaves, i0)] +
      ReduceWaves(keys[next..], slaves, i0 + |NonEmpty(keys[start..next])|)
  {
    var ks := keys[start..];
    assert ks[..next - start] == keys[start..next];
    assert ks[next - start..] == keys[next..];
    ReduceWavesStep(ks, slaves, i0);
  }

  /** Dispatching one more wave keeps the schedule a prefix of `ReduceWaves` and extends the runs by the wave's. */
  lemma ReduceWaveDone(keys: seq<string>, slaves: seq<string>, index: map<string, set<string>>, iter: Iteration,
                       schedule: seq<seq<Assignment>>, wave: seq<Assignment>, start: nat, next: nat, i0: nat, i: nat,
                       exec: Executor)
    requires 1 <= |slaves| && start < |keys|
    requires next == if |keys| - start <= |slaves| then |keys| else start + |slaves|
    requires wave == ReduceWave(keys[start..next], slaves, i0)
    requires i == i0 + |NonEmpty(keys[start..next])|
    requires schedule + ReduceWaves(keys[start..], slaves, i0) == ReduceWaves(keys, slaves, 0)
    ensures (schedule + [wave]) + ReduceWaves(keys[next..], slaves, i) == ReduceWaves(keys, slaves, 0)
    ensures PlanRuns(Flatten(schedule + [wave]), index, iter, exec) == PlanRuns(Flatten(schedule), index, iter, exec) + PlanRuns(wave, index, iter, exec)
  {
    FlattenSnoc(schedule, wave);
    PlanRunsAppend(Flatten(schedule), wave, index, iter, exec);
    ReduceWavesAt(keys, slaves, i0, start, next);
    ScheduleSnoc(schedule, wave, ReduceWaves(keys[start..], slaves, i0), ReduceWaves(keys[next..], slaves, i),
                 ReduceWaves(keys, slaves, 0));
  }

  /** Moving the first pending wave to the dispatched ones. */
  lemma ScheduleSnoc<T>(done: seq<T>, w: T, pending: seq<T>, rest: seq<T>, all: seq<T>)
    requires done + pending == all && pending == [w] + rest
    ensures (done + [w]) + rest == all
  {
    assert (done + [w]) + rest == done + ([w] + rest);
  }

  /** A `null` output in a dispatched wave is a `null` output among all the runs. */
  lemma ReduceWaveFailed(all: seq<seq<Assignment>>, done: seq<seq<Assignment>>, wave: seq<Assignment>,
                         rest: seq<seq<Assignment>>, index: map<string, set<string>>, iter: Iteration, exec: Executor)
    requires all == (done + [wave]) + rest
    requires !Returned(PlanRuns(wave, index, iter, exec))
    ensures !Returned(PlanRuns(Flatten(all), index, iter, exec))
  {
    FlattenAppend(done + [wave], rest);
    FlattenSnoc(done, wave);
    PlanRunsAppend(Flatten(done) + wave, Flatten(rest), index, iter, exec);
    PlanRunsAppend(Flatten(done), wave, index, iter, exec);
    var m :| 0 <= m < |PlanRuns(wave, index, iter, exec)| && PlanRuns(wave, index, iter, exec)[m].output.None?;
    var d := |PlanRuns(Flatten(done), index, iter, exec)|;
    assert PlanRuns(Flatten(all), index, iter, exec)[d + m] == PlanRuns(wave, index, iter, exec)[m];
  }

  /**
   * The loop of `shuffleReduceRemoteExec` over the keys in iteration order:
   * one wave per round, each wave's outputs consolidated per host before the
   * next; a `null` output ends the stage with NullPointerException.
   */
  method DispatchReduce(keys: seq<string>, slaves: seq<string>, index: map<string, set<string>>,
                        exec: Executor, iter: Iteration)
    returns (r: Result<map<string, seq<string>>, Failure>)
    requires |slaves| >= 1
    requires forall w :: w in keys ==> w in index
    ensures var runs := PlanRuns(Flatten(ReduceWaves(keys, slaves, 0)), index, iter, exec);
      r == if Returned(runs) then Ok(Gather(runs)) else Err(NullPointer)
  {
    var results: map<string, seq<string>> := map[];
    ghost var schedule: seq<seq<Assignment>> := [];
    var i := 0;
    var next := 0;
    while next < |keys|
      invariant 0 <= next <= |keys|
      invariant schedule + ReduceWaves(keys[next..], slaves, i) == ReduceWaves(keys, slaves, 0)
      invariant Returned(PlanRuns(Flatten(schedule), index, iter, exec))
      invariant results == Gather(PlanRuns(Flatten(schedule), index, iter, exec))
    {
      ghost var start, i0 := next, i;
      var slaveThreads;
      slaveThreads, next, i := StartReduceWave(keys, slaves, index, iter, next, i, exec);
      ghost var wave := ReduceWave(keys[start..next], slaves, i0);
      ghost var done := PlanRuns(Flatten(schedule), index, iter, exec);
      ReduceWaveDone(keys, slaves, index, iter, schedule, wave, start, next, i0, i, exec);
      var ok;
      ok, results := ConsolidateReduceWave(results, slaveThreads, done, PlanRuns(wave, index, iter, exec));
      if !ok {
        ReduceWaveFailed(ReduceWaves(keys, slaves, 0), schedule, wave,
                         ReduceWaves(keys[next..], slaves, i), index, iter, exec);
        return Err(NullPointer);
      }
      schedule := schedule + [wave];
    }
    assert ReduceWaves(keys[next..], slaves, i) == [];
    assert schedule == ReduceWaves(keys, slaves, 0);
    return Ok(results);
  }

  /**
   * `shuffleReduceRemoteExec`: the SHUFFLE_REDUCE tasks of the reduce
   * schedule, dispatched and consolidated per host.
   */
  method ShuffleReduceRemoteExec(index: map<string, set<string>>, slaves: seq<string>, exec: Executor,
                                 iter: Iteration)
    returns (r: Result<map<string, seq<string>>, Failure>)
    requires |slaves| >= 1 && ValidIteration(iter)
    ensures var runs := PlanRuns(ReduceSchedule(index, slaves, iter), index, iter, exec);
      r == if Returned(runs) then Ok(Gather(runs)) else Err(NullPointer)
  {
    var keys := iter(index.Keys);
    assert Enumerates(keys, index.Keys);
    r := DispatchReduce(keys, slaves, index, exec, iter);
  }

  /**
   * The loop of `shuffleReduceMapFiles`: the entries of `results`, host by
   * host in `hosts` order, appended to one list.
   */
  method AppendAll(results: map<string, seq<string>>, hosts: seq<string>) returns (unsorted: seq<string>)
    requires forall h :: h in hosts ==> h in results
    ensures unsorted == Concat(hosts, results)
  {
    unsorted := [];
    var n := 0;
    while n < |hosts|
      invariant 0 <= n <= |hosts|
      invariant unsorted == Concat(hosts[..n], results)
    {
      assert hosts[..n + 1][..n] == hosts[..n];
      unsorted := unsorted + results[hosts[n]];
      n := n + 1;
    }
    assert hosts[..n] == hosts;
  }

  /**
   * Reading the consolidated reduce results back in the map's iteration
   * order lists every line the reduce threads returned, each once.
   */
  lemma ResultsPermutation(runs: seq<Run>, iter: Iteration)
    requires ValidIteration(iter)
    ensures var g := Gather(runs);
      (forall h :: h in iter(g.Keys) ==> h in g) &&
      multiset(Concat(iter(g.Keys), g)) == multiset(AllOutput(runs))
  {
    var g := Gather(runs);
    GatherByHost(runs);
    assert Enumerates(iter(g.Keys), g.Keys);
    ConcatIsPermutation(iter(g.Keys), runs);
  }

  // ---------------------------------------------------------------------------
  // Ranking the results
  // ---------------------------------------------------------------------------

  /**
   * `Integer.valueOf(o.split(":")[1])`: the count the comparator reads from a
   * result line. A line with fewer than two items throws
   * ArrayIndexOutOfBoundsException, a second item that is not an `int`
   * NumberFormatException.
   */
  function CountOf(line: string): (r: Result<int, Failure>)
    ensures r.Ok? ==> IsInt32(r.value)
  {
    var items := Split(line, IsColon);
    if |items| < 2 then Err(ArrayIndexOutOfBounds)
    else
      match ParseInt(items[1])
      case None => Err(NumberFormat)
      case Some(c) => Ok(c)
  }

  /** The master reads back the count of every line a reduce slave prints for a key without `:`. */
  lemma CountOfCountLine(key: string, count: int)
    requires NoSeparator(key, IsColon) && IsInt32(count)
    ensures CountOf(Slave.CountLine(key, count)) == Ok(count)
  {
    var digits := IntToString(count);
    assert NoSeparator(digits, IsColon) by {
      var n := if count < 0 then -count else count;
      assert AllDigits(NatToString(n));
      forall i | 0 <= i < |digits| ensures !IsColon(digits[i]) {
        if count < 0 && i > 0 {
          assert digits[i] == NatToString(n)[i - 1];
        }
      }
    }
    SplitPair(key, digits);
    ParseIntToString(count);
  }

  /** The comparator of the ranking: `count(o2) - count(o1)` in `int` arithmetic. */
  function Compare(o1: Entry, o2: Entry): int
  {
    Wrap32(o2.count - o1.count)
  }

  /**
   * For counts that are not negative, the subtraction cannot overflow, and the
   * comparator puts the higher count first and calls equal counts equal.
   */
  lemma CompareByCount(o1: Entry, o2: Entry)
    requires 0 <= o1.count <= INT_MAX && 0 <= o2.count <= INT_MAX
    ensures Compare(o1, o2) < 0 <==> o1.count > o2.count
    ensures Compare(o1, o2) == 0 <==> o1.count == o2.count
  {
    assert IsInt32(o2.count - o1.count);
  }

  /** With a negative count the subtraction can wrap around and invert the order. */
  lemma CompareWraps()
    ensures Compare(Entry("a", INT_MIN), Entry("b", 1)) < 0
  {
    assert 1 - INT_MIN == TWO_32 / 2 + 1;
  }

  /**
   * The entries the comparator sees: every line with its count, or the
   * failure of the first line, in list order, whose count cannot be read.
   */
  function Entries(lines: seq<string>): Result<seq<Entry>, Failure>
  {
    EntriesOf(lines, CountOf)
  }

  /**
   * The entries exist exactly when every line's count can be read, and then
   * they pair each line, in order, with its count.
   */
  lemma EntriesSpec(lines: seq<string>)
    ensures Entries(lines).Ok? <==> forall i :: 0 <= i < |lines| ==> CountOf(lines[i]).Ok?
    ensures Entries(lines).Ok? ==>
      |Entries(lines).value| == |lines| &&
      forall i :: 0 <= i < |lines| ==> Entries(lines).value[i] == Entry(lines[i], CountOf(lines[i]).value)
  {
    EntriesOfSpec(lines, CountOf);
  }

  /**
   * `Collections.sort(wordCounts, comparator)`: the lines ordered by count,
   * highest first. Fewer than two lines are never compared, so they come back
   * as they are whatever their form; otherwise a line whose count cannot be
   * read ends the run.
   */
  function Rank(lines: seq<string>): Result<seq<string>, Failure>
  {
    if |lines| < 2 then Ok(lines)
    else
      match Entries(lines)
      case Err(e) => Err(e)
      case Ok(es) => Ok(LinesOf(Sort(es)))
  }

  /** Every entry's count is the one its line holds. */
  ghost predicate CountsRead(es: seq<Entry>)
  {
    forall i :: 0 <= i < |es| ==> CountOf(es[i].line) == Ok(es[i].count)
  }

  /** The lines whose count reads as `c`, in order. */
  function LinesCounting(lines: seq<string>, c: int): seq<string>
  {
    if lines == [] then []
    else (if CountOf(lines[0]) == Ok(c) then [lines[0]] else []) + LinesCounting(lines[1..], c)
  }

  lemma {:induction false} LinesCountingOf(es: seq<Entry>, c: int)
    requires CountsRead(es)
    ensures LinesOf(WithCount(es, c)) == LinesCounting(LinesOf(es), c)
  {
    if es != [] {
      LinesCountingOf(es[1..], c);
      assert LinesOf(es)[1..] == LinesOf(es[1..]);
      LinesOfAppend(if es[0].count == c then [es[0]] else [], WithCount(es[1..], c));
    }
  }

  lemma SortedCountsRead(es: seq<Entry>)
    requires CountsRead(es)
    ensures CountsRead(Sort(es))
  {
    var sorted := Sort(es);
    forall i | 0 <= i < |sorted| ensures CountOf(sorted[i].line) == Ok(sorted[i].count) {
      assert sorted[i] in multiset(es);
      var j :| 0 <= j < |es| && es[j] == sorted[i];
    }
  }

  /**
   * The ranking fails exactly when there are two or more lines and one of
   * them has no readable count.
   */
  lemma RankFails(lines: seq<string>)
    ensures Rank(lines).Err? <==> |lines| >= 2 && exists i :: 0 <= i < |lines| && CountOf(lines[i]).Err?
  {
    EntriesSpec(lines);
  }

  /** The ranking returns the same lines, each as often as before. */
  lemma RankPermutes(lines: seq<string>)
    requires Rank(lines).Ok?
    ensures multiset(Rank(lines).value) == multiset(lines)
  {
    if |lines| >= 2 {
      EntriesSpec(lines);
      var es := Entries(lines).value;
      assert LinesOf(es) == lines;
      LinesOfSort(es);
    }
  }

  /** The ranked lines of two or more all have readable counts, highest first. */
  lemma RankOrdered(lines: seq<string>)
    requires Rank(lines).Ok? && |lines| >= 2
    ensures var out := Rank(lines).value;
      (forall i :: 0 <= i < |out| ==> CountOf(out[i]).Ok?) &&
      forall i, j :: 0 <= i < j < |out| ==> CountOf(out[i]).value >= CountOf(out[j]).value
  {
    EntriesSpec(lines);
    var es := Entries(lines).value;
    SortedCountsRead(es);
  }

  /** The sort is stable: the lines of each count keep their consolidation order. */
  lemma RankStable(lines: seq<string>, c: int)
    requires Rank(lines).Ok?
    ensures LinesCounting(Rank(lines).value, c) == LinesCounting(lines, c)
  {
    if |lines| >= 2 {
      EntriesSpec(lines);
      var es := Entries(lines).value;
      assert LinesOf(es) == lines;
      SortedCountsRead(es);
      SortStable(es, c);
      LinesCountingOf(es, c);
      LinesCountingOf(Sort(es), c);
    }
  }

  // ---------------------------------------------------------------------------
  // The whole run
  // ---------------------------------------------------------------------------

  /** How a run of the master ends: nothing to do, the ranked counts printed, or an exception. */
  datatype RunEnd = NoReachableSlaves | Ranked(lines: seq<string>) | Failed(failure: Failure)

  /** The names `S0`, ..., `S<n-1>`. */
  function SplitFiles(n: nat): (r: seq<string>)
    ensures |r| == n && forall i :: 0 <= i < n ==> r[i] == SplitName(i)
  {
    seq(n, i requires 0 <= i < n => SplitName(i))
  }

  /** What `mapSplitFiles` returns: the key index, or the failure of the first line that is not `word:UMx`. */
  function IndexStage(sx: seq<string>, slaves: seq<string>, exec: Executor, iter: Iteration)
    : Result<map<string, set<string>>, Failure>
    requires |slaves| >= 1 && ValidIteration(iter)
  {
    var results := Gather(RunsOf(MapTasks(sx, slaves), exec));
    assert Enumerates(iter(results.Keys), results.Keys);
    var os := ReadsOf(Emitted(iter(results.Keys), results));
    if FirstUnparsed(os) < |os| then Err(ArrayIndexOutOfBounds) else Ok(KeyIndex(Parsed(os)))
  }

  /**
   * `UMx_machines` once `mapSplitFiles` has run: the host of every file
   * announced on the lines read before the first one without a second item.
   */
  function MapStageMachines(sx: seq<string>, slaves: seq<string>, exec: Executor, iter: Iteration)
    : map<string, string>
    requires |slaves| >= 1 && ValidIteration(iter)
  {
    var results := Gather(RunsOf(MapTasks(sx, slaves), exec));
    assert Enumerates(iter(results.Keys), results.Keys);
    Machines(Parsed(ReadsOf(Emitted(iter(results.Keys), results))))
  }

  /** What `shuffleReduceMapFiles` returns: every host's reduce output, host by host. */
  function ReduceStage(index: map<string, set<string>>, slaves: seq<string>, exec: Executor, iter: Iteration)
    : Result<seq<string>, Failure>
    requires |slaves| >= 1 && ValidIteration(iter)
  {
    var runs := PlanRuns(ReduceSchedule(index, slaves, iter), index, iter, exec);
    if Returned(runs) then
      var g := Gather(runs);
      assert Enumerates(iter(g.Keys), g.Keys);
      Ok(Concat(iter(g.Keys), g))
    else Err(NullPointer)
  }

  /** The stages in the order the master runs them, the first failure ending the run. */
  function Pipeline(hosts: seq<string>, input: seq<string>, exec: Executor, iter: Iteration): RunEnd
    requires ValidIteration(iter)
  {
    var slaves := UpIn(iter(Members(hosts)), exec);
    if |slaves| == 0 then NoReachableSlaves
    else
      var sx := SplitFiles(|ContentLines(input)|);
      match IndexStage(sx, slaves, exec, iter)
      case Err(e) => Failed(e)
      case Ok(index) =>
        match ReduceStage(index, slaves, exec, iter)
        case Err(e) => Failed(e)
        case Ok(wordCounts) =>
          match Rank(wordCounts)
          case Err(e) => Failed(e)
          case Ok(ranked) => Ranked(ranked)
  }

  /** The master does nothing exactly when no candidate host answers its ping. */
  lemma NothingToDo(hosts: seq<string>, input: seq<string>, exec: Executor, iter: Iteration)
    requires ValidIteration(iter)
    ensures Pipeline(hosts, input, exec, iter) == NoReachableSlaves <==> UpHosts(hosts, exec) == {}
  {
    var order := iter(Members(hosts));
    assert Enumerates(order, Members(hosts));
    UpInEnumerates(order, Members(hosts), exec);
    assert (set h | h in Members(hosts) && Answers(h, exec)) == UpHosts(hosts, exec);
    var slaves := UpIn(order, exec);
    if slaves != [] {
      assert slaves[0] in UpHosts(hosts, exec);
    }
  }

  /** A run that gets to the ranking prints the reduce lines, each as often as a reduce thread returned it. */
  lemma RankedLines(hosts: seq<string>, input: seq<string>, exec: Executor, iter: Iteration)
    requires ValidIteration(iter)
    requires Pipeline(hosts, input, exec, iter).Ranked?
    ensures var slaves := UpIn(iter(Members(hosts)), exec);
      |slaves| >= 1 &&
      var index := IndexStage(SplitFiles(|ContentLines(input)|), slaves, exec, iter).value;
      multiset(Pipeline(hosts, input, exec, iter).lines) ==
        multiset(AllOutput(PlanRuns(ReduceSchedule(index, slaves, iter), index, iter, exec)))
  {
    var slaves := UpIn(iter(Members(hosts)), exec);
    var index := IndexStage(SplitFiles(|ContentLines(input)|), slaves, exec, iter).value;
    var runs := PlanRuns(ReduceSchedule(index, slaves, iter), index, iter, exec);
    var wordCounts := ReduceStage(index, slaves, exec, iter).value;
    ResultsPermutation(runs, iter);
    RankPermutes(wordCounts);
  }

  /** The master's state that outlives a stage. */
  class Master {
    /** `UMx_machines`: which host announced each intermediate file. */
    var umxMachines: map<string, string>
    /** `RMx_machines`: reset by the reduce stage, never filled. */
    var rmxMachines: map<string, string>
    /** `reachableSlaves`: the hosts that answered the ping, set once per run. */
    var reachableSlaves: seq<string>

    constructor Init()
      ensures umxMachines == map[] && rmxMachines == map[] && reachableSlaves == []
    {
      umxMachines := map[];
      rmxMachines := map[];
      reachableSlaves := [];
    }

    /**
     * The body of the master's constructor: ping, and with at least one
     * reachable slave run the stages.
     */
    method Process(hosts: seq<string>, input: seq<string>, exec: Executor, iter: Iteration)
      returns (outcome: RunEnd)
      requires ValidIteration(iter)
      modifies this
      ensures reachableSlaves == UpIn(iter(Members(hosts)), exec)
      ensures Enumerates(reachableSlaves, UpHosts(hosts, exec))
      ensures outcome == Pipeline(hosts, input, exec, iter)
      ensures |reachableSlaves| == 0 ==>
        umxMachines == old(umxMachines) && rmxMachines == old(rmxMachines)
      ensures |reachableSlaves| >= 1 ==>
        var sx := SplitFiles(|ContentLines(input)|);
        var index := IndexStage(sx, reachableSlaves, exec, iter);
        umxMachines == MapStageMachines(sx, reachableSlaves, exec, iter) &&
        rmxMachines == (if index.Ok? && ReduceStage(index.value, reachableSlaves, exec, iter).Ok?
                        then map[] else old(rmxMachines))
    {
      var slaves := PingSlaves(hosts, exec, iter);
      reachableSlaves := slaves;
      if |slaves| == 0 {
        return NoReachableSlaves;
      }
      outcome := Stages(slaves, input, exec, iter);
    }

    /**
     * Split the input, run the map and the reduce stages and rank the
     * counts; the first exception ends the run.
     */
    method Stages(slaves: seq<string>, input: seq<string>, exec: Executor, iter: Iteration)
      returns (outcome: RunEnd)
      requires |slaves| >= 1 && ValidIteration(iter)
      modifies this`umxMachines, this`rmxMachines
      ensures outcome != NoReachableSlaves
      ensures var sx := SplitFiles(|ContentLines(input)|);
        outcome == match IndexStage(sx, slaves, exec, iter)
          case Err(e) => Failed(e)
          case Ok(index) =>
            match ReduceStage(index, slaves, exec, iter)
            case Err(e) => Failed(e)
            case Ok(wordCounts) =>
              match Rank(wordCounts)
              case Err(e) => Failed(e)
              case Ok(ranked) => Ranked(ranked)
      ensures var sx := SplitFiles(|ContentLines(input)|);
        var index := IndexStage(sx, slaves, exec, iter);
        umxMachines == MapStageMachines(sx, slaves, exec, iter) &&
        rmxMachines == (if index.Ok? && ReduceStage(index.value, slaves, exec, iter).Ok?
                        then map[] else old(rmxMachines))
    {
      var sx, contents := SplitInputFile(input);
      assert sx == SplitFiles(|ContentLines(input)|);
      var index := MapSplitFiles(sx, slaves, exec, iter);
      if index.Err? {
        return Failed(index.error);
      }
      var wordCounts := ShuffleReduceMapFiles(index.value, slaves, exec, iter);
      if wordCounts.Err? {
        return Failed(wordCounts.error);
      }
      var ranked := Rank(wordCounts.value);
      if ranked.Err? {
        return Failed(ranked.error);
      }
      outcome := Ranked(ranked.value);
    }

    /**
     * `mapSplitFiles`: runs the map stage, then reads every returned line as
     * `word:UMx` host by host, building the key index and `UMx_machines`. A
     * line with fewer than two items ends the stage with
     * `ArrayIndexOutOfBoundsException`, `UMx_machines` keeping the lines read
     * before it.
     */
    method MapSplitFiles(sx: seq<string>, slaves: seq<string>, exec: Executor, iter: Iteration)
      returns (r: Result<map<string, set<string>>, Failure>)
      requires |slaves| >= 1 && ValidIteration(iter)
      modifies this`umxMachines
      ensures var results := Gather(RunsOf(MapTasks(sx, slaves), exec));
        assert Enumerates(iter(results.Keys), results.Keys);
        var os := ReadsOf(Emitted(iter(results.Keys), results));
        umxMachines == Machines(Parsed(os)) &&
        r == if FirstUnparsed(os) < |os| then Err(ArrayIndexOutOfBounds) else Ok(KeyIndex(Parsed(os)))
      ensures r == IndexStage(sx, slaves, exec, iter)
      ensures umxMachines == MapStageMachines(sx, slaves, exec, iter)
    {
      var results;
      ghost var schedule;
      results, schedule := MapRemoteExec(sx, slaves, exec);
      var machines: map<string, string> := map[];
      var keysUmx: map<string, set<string>> := map[];
      var hosts := iter(results.Keys);
      assert Enumerates(hosts, results.Keys);
      ghost var read: seq<Announced> := [];
      var n := 0;
      while n < |hosts|
        invariant 0 <= n <= |hosts|
        invariant FirstUnparsed(ReadsOf(Emitted(hosts[..n], results))) == |Emitted(hosts[..n], results)|
        invariant read == Parsed(ReadsOf(Emitted(hosts[..n], results)))
        invariant machines == Machines(read) && keysUmx == KeyIndex(read)
      {
        var host := hosts[n];
        var ok;
        ghost var done := Emitted(hosts[..n], results);
        ghost var mine := Tagged(host, results[host]);
        EmittedStep(hosts, n, results);
        ReadsOfAppend(done, mine);
        ok, keysUmx, machines, read := IndexHostLines(host, results[host], keysUmx, machines, read);
        ParsedAppend(ReadsOf(done), ReadsOf(mine));
        if !ok {
          EmittedStop(hosts, n, results);
          umxMachines := machines;
          r := Err(ArrayIndexOutOfBounds);
          return;
        }
        n := n + 1;
      }
      assert hosts[..n] == hosts;
      umxMachines := machines;
      r := Ok(keysUmx);
    }

    /**
     * `shuffleReduceMapFiles`: runs the reduce stage, then resets
     * `RMx_machines` and lists the lines of every host's entry, host by host
     * in the map's iteration order. A `null` reduce output ends the stage
     * with NullPointerException before the reset.
     */
    method ShuffleReduceMapFiles(index: map<string, set<string>>, slaves: seq<string>, exec: Executor,
                                 iter: Iteration)
      returns (r: Result<seq<string>, Failure>)
      requires |slaves| >= 1 && ValidIteration(iter)
      modifies this`rmxMachines
      ensures var runs := PlanRuns(ReduceSchedule(index, slaves, iter), index, iter, exec);
        if Returned(runs) then
          var g := Gather(runs);
          rmxMachines == map[] && r.Ok? &&
          (forall h :: h in iter(g.Keys) ==> h in g) &&
          r.value == Concat(iter(g.Keys), g) &&
          multiset(r.value) == multiset(AllOutput(runs))
        else
          r == Err(NullPointer) && rmxMachines == old(rmxMachines)
      ensures r == ReduceStage(index, slaves, exec, iter)
    {
      ghost var runs := PlanRuns(ReduceSchedule(index, slaves, iter), index, iter, exec);
      var results := ShuffleReduceRemoteExec(index, slaves, exec, iter);
      if results.Err? {
        return Err(results.error);
      }
      rmxMachines := map[];
      ResultsPermutation(runs, iter);
      var unsorted := AppendAll(results.value, iter(results.value.Keys));
      r := Ok(unsorted);
    }
  }

  /**
   * A slave's announcement of a word without `:` in a file named without `:`
   * is read back as that word and that file.
   */
  lemma AnnouncementParses(host: string, word: string, umFile: string)
    requires NoSeparator(word, IsColon) && NoSeparator(umFile, IsColon) && umFile != ""
    ensures ReadPair(Emission(host, Slave.Announcement(word, umFile))) == Some(Announced(host, word, umFile))
  {
    SplitPair(word, umFile);
  }

  /**
   * Every MAP task of the map stage reaches the slave program as `MAP` and
   * its own split file `S<i>`, on slave `i mod k`, and the slave derives the
   * intermediate file `UM<i>` from it: `map`'s argument checks pass.
   */
  lemma MapTaskReachesSlave(n: nat, slaves: seq<string>, i: nat)
    requires |slaves| >= 1 && i < n
    ensures |MapTasks(SplitFiles(n), slaves)| == n
    ensures var t := MapTasks(SplitFiles(n), slaves)[i];
      t.host == slaves[i % |slaves|] &&
      SlaveArgs(CommandLine(DEBUG, t)) == Some(["MAP", SplitName(i)]) &&
      Slave.UmFile(SplitName(i)) == Ok("UM" + NatToString(i))
  {
    MapTaskSlot(SplitFiles(n), slaves, i);
    MapTaskArgs(slaves[i % |slaves|], SplitName(i));
    SplitNames(i, i);
  }

  /**
   * Every SHUFFLE_REDUCE task planned from a key index reaches the slave
   * program with its key, its result file `RM<c>` and at least one
   * intermediate file, since the index lists no key without a file: the
   * slave's check for at least three arguments passes.
   */
  lemma ReduceTaskReachesSlave(ann: seq<Announced>, slaves: seq<string>, iter: Iteration, c: nat)
    requires |slaves| >= 1 && ValidIteration(iter)
    requires c < |ReduceSchedule(KeyIndex(ann), slaves, iter)|
    ensures var index := KeyIndex(ann);
      var a := ReduceSchedule(index, slaves, iter)[c];
      var t := AssignedTask(a, index, iter);
      SlaveArgs(CommandLine(DEBUG, t)) == Some(["SHUFFLE_REDUCE"] + t.params) &&
      |t.params| >= 3 && t.params[0] == a.key && t.params[1] == ReducedFile(c) &&
      a.key in index && Enumerates(t.params[2..], index[a.key])
  {
    var index := KeyIndex(ann);
    var a := ReduceSchedule(index, slaves, iter)[c];
    ReduceScheduleSpec(index, slaves, iter);
    AssignedTaskSpec(a, index, iter);
    assert index[a.key] != {};
    CommandLineDeliversArgs(AssignedTask(a, index, iter));
  }

  /**
   * Words may contain `:` (it is not a word separator), and then the master
   * reads the announcement back as another word and another file: `a:b`
   * announced in `UMx` is read as the word `a` in the file `b`.
   */
  lemma ColonWordMisread(host: string, a: string, b: string, umFile: string)
    requires NoSeparator(a, IsColon) && NoSeparator(b, IsColon) && NoSeparator(umFile, IsColon) && umFile != ""
    ensures ReadPair(Emission(host, Slave.Announcement(a + ":" + b, umFile))) == Some(Announced(host, a, b))
  {
    var rest := b + ":" + umFile;
    var s := Slave.Announcement(a + ":" + b, umFile);
    assert s == a + [':'] + rest;
    assert s[|a|] == ':';
    PiecesCons(a, ':', rest, IsColon);
    assert rest == b + [':'] + umFile;
    PiecesCons(b, ':', umFile, IsColon);
    PiecesOfPlain(umFile, IsColon);
    assert Pieces(s, IsColon) == [a, b, umFile];
  }
}
