/**
 * The master's handle on one remote task (SlaveThread.java): the three task
 * factories, the command line that runs the slave program, the filtering of
 * the slave's standard output, and the success rule that sets `output`.
 */
module SlaveThreads {
  import opened Wrappers
  import opened JavaText
  import opened JavaCollections

  /** Whether slaves run locally instead of through ssh; the source ships with `true`. */
  const DEBUG: bool := true
  const SLAVE_JAR: string := "/users/zull/BasicShavadoopSlave.jar"
  const SSH: string := "/usr/bin/ssh"

  /** A command with its parameters, to be run for one slave host. */
  datatype Task = Task(host: string, command: string, params: seq<string>)

  /**
   * How running a command line ended, as seen by `remoteExec`: the process
   * exited with a status after printing `stdout` (one entry per line read), or
   * an IOException or InterruptedException was raised.
   */
  datatype ExecResult = Exited(status: int, stdout: seq<string>) | Raised

  /** Process execution on a host: the model's stand-in for ProcessBuilder and ssh. */
  type Executor = (string, seq<string>) -> ExecResult

  /** `createMapSlaveThread`: one MAP task for one split file. */
  function MapTask(host: string, splitFile: string): (t: Task)
    ensures t.host == host && t.command == "MAP" && t.params == [splitFile]
  {
    Task(host, "MAP", [splitFile])
  }

  /** `createPingSlaveThread`: a PING task without parameters. */
  function PingTask(host: string): (t: Task)
    ensures t.host == host && t.command == "PING" && t.params == []
  {
    Task(host, "PING", [])
  }

  /**
   * `createReduceShuffleSlaveThread`: the key, the result file, then every
   * intermediate file of the set in the set's iteration order.
   */
  function ReduceTask(host: string, key: string, reducedMapFile: string,
                      unsortedMapFiles: set<string>, iter: Iteration): (t: Task)
    ensures t.host == host && t.command == "SHUFFLE_REDUCE"
    ensures |t.params| >= 2 && t.params[0] == key && t.params[1] == reducedMapFile
  {
    Task(host, "SHUFFLE_REDUCE", [key, reducedMapFile] + iter(unsortedMapFiles))
  }

  /** After the key and the result file, the parameters list every intermediate file exactly once. */
  lemma ReduceTaskFiles(host: string, key: string, reducedMapFile: string,
                        unsortedMapFiles: set<string>, iter: Iteration)
    requires ValidIteration(iter)
    ensures var t := ReduceTask(host, key, reducedMapFile, unsortedMapFiles, iter);
      |t.params| == 2 + |unsortedMapFiles| &&
      Enumerates(t.params[2..], unsortedMapFiles)
  {
    var t := ReduceTask(host, key, reducedMapFile, unsortedMapFiles, iter);
    var files := iter(unsortedMapFiles);
    EnumerationSize(files, unsortedMapFiles);
    assert t.params[2..] == files;
  }

  /** The command line `remoteExec` hands to ProcessBuilder. */
  function CommandLine(debug: bool, t: Task): (cmd: seq<string>)
  {
    (if debug then [] else [SSH, t.host]) + ["java", "-jar", SLAVE_JAR, t.command] + t.params
  }

  /**
   * The argument vector the slave program's `main` receives for a command
   * line: what follows `java -jar SLAVE_JAR`, after an optional `ssh host`.
   */
  function SlaveArgs(cmd: seq<string>): Option<seq<string>>
  {
    var local := if |cmd| >= 2 && cmd[0] == SSH then cmd[2..] else cmd;
    if |local| >= 3 && local[..3] == ["java", "-jar", SLAVE_JAR] then Some(local[3..]) else None
  }

  /**
   * With `DEBUG` set, as shipped, the slave program receives the command
   * followed by its parameters, each one argument, unchanged.
   */
  lemma CommandLineDeliversArgs(t: Task)
    ensures SlaveArgs(CommandLine(DEBUG, t)) == Some([t.command] + t.params)
  {
    var cmd := CommandLine(DEBUG, t);
    assert cmd == ["java", "-jar", SLAVE_JAR, t.command] + t.params;
    assert cmd[0] != SSH;
    assert cmd[..3] == ["java", "-jar", SLAVE_JAR];
    assert cmd[3..] == [t.command] + t.params;
  }

  /** A MAP task reaches the slave as `MAP` and exactly one argument, its split file. */
  lemma MapTaskArgs(host: string, splitFile: string)
    ensures SlaveArgs(CommandLine(DEBUG, MapTask(host, splitFile))) == Some(["MAP", splitFile])
  {
    CommandLineDeliversArgs(MapTask(host, splitFile));
    assert ["MAP"] + [splitFile] == ["MAP", splitFile];
  }

  /** A PING task reaches the slave as `PING` and nothing else. */
  lemma PingTaskArgs(host: string)
    ensures SlaveArgs(CommandLine(DEBUG, PingTask(host))) == Some(["PING"])
  {
    CommandLineDeliversArgs(PingTask(host));
    assert ["PING"] + [] == ["PING"];
  }

  /**
   * `read`: the lines of the process's standard output, empty lines dropped,
   * the others kept in order.
   */
  method Read(lines: seq<string>) returns (list: seq<string>)
    ensures list == NonEmpty(lines)
  {
    list := [];
    var i := 0;
    while i < |lines|
      invariant 0 <= i <= |lines|
      invariant list == NonEmpty(lines[..i])
    {
      assert lines[..i + 1] == lines[..i] + [lines[i]];
      NonEmptyAppend(lines[..i], [lines[i]]);
      if |lines[i]| > 0 {
        list := list + [lines[i]];
      }
      i := i + 1;
    }
    assert lines[..i] == lines;
  }

  /**
   * The value `run` leaves in `output` for a thread that starts with `null`:
   * the filtered standard output on exit status 0, `null` on any other status
   * and when an exception was raised.
   */
  function Outcome(t: Task, exec: Executor): (r: Option<seq<string>>)
    ensures var e := exec(t.host, CommandLine(DEBUG, t));
      (r.Some? <==> e.Exited? && e.status == 0) &&
      (r.Some? ==> r.value == NonEmpty(e.stdout))
    ensures r.Some? ==> forall i :: 0 <= i < |r.value| ==> r.value[i] != ""
  {
    match exec(t.host, CommandLine(DEBUG, t))
    case Exited(status, stdout) => if status == 0 then Some(NonEmpty(stdout)) else None
    case Raised => None
  }

  /** A task running in its own thread; `output` is `null` until `run` succeeds. */
  class SlaveThread {
    const task: Task
    var output: Option<seq<string>>

    constructor (task: Task)
      ensures this.task == task && output == None
    {
      this.task := task;
      output := None;
    }

    /** `run`: executes the command line and records the filtered output or `null`. */
    method Run(exec: Executor)
      modifies this
      ensures exec(task.host, CommandLine(DEBUG, task)).Raised? ==> output == old(output)
      ensures exec(task.host, CommandLine(DEBUG, task)).Exited? ==> output == Outcome(task, exec)
    {
      var cmd := CommandLine(DEBUG, task);
      var r := exec(task.host, cmd);
      match r
      case Exited(status, stdout) =>
        var lines := Read(stdout);
        output := if status == 0 then Some(lines) else None;
      case Raised =>
    }
  }

  /**
   * `new SlaveThread(...)` followed by `start()` and, once the wave is
   * complete, `join()`: a fresh thread whose output is the task's outcome.
   */
  method Launch(task: Task, exec: Executor) returns (t: SlaveThread)
    ensures fresh(t) && t.task == task && t.output == Outcome(task, exec)
  {
    t := new SlaveThread(task);
    t.Run(exec);
  }
}
