/**
 * The schedule the master's remote-execution loops follow (Master.java,
 * `mapRemoteExec` and `shuffleReduceRemoteExec`): the task list is cut into
 * waves of one task per reachable slave, and after each wave the outputs of
 * its threads are consolidated, host by host, into the `results` map.
 */
module Dispatch {
  import opened Wrappers
  import opened JavaCollections
  import opened SlaveThreads

  // ---------------------------------------------------------------------------
  // Waves
  // ---------------------------------------------------------------------------

  /** `items` cut into consecutive waves of `k`, the last one possibly shorter. */
  function Waves<T>(items: seq<T>, k: nat): seq<seq<T>>
    requires k >= 1
    decreases |items|
  {
    if items == [] then []
    else if |items| <= k then [items]
    else [items[..k]] + Waves(items[k..], k)
  }

  /** The waves put back together, in order. */
  function Flatten<T>(ws: seq<seq<T>>): seq<T>
  {
    if ws == [] then [] else ws[0] + Flatten(ws[1..])
  }

  /** Every item is dispatched exactly once, in list order. */
  lemma {:induction false} WavesFlatten<T>(items: seq<T>, k: nat)
    requires k >= 1
    ensures Flatten(Waves(items, k)) == items
    decreases |items|
  {
    if |items| > k {
      var ws := Waves(items, k);
      assert ws[0] == items[..k] && ws[1..] == Waves(items[k..], k);
      WavesFlatten(items[k..], k);
      assert items[..k] + items[k..] == items;
    } else if items != [] {
      assert Waves(items, k)[1..] == [];
    }
  }

  lemma MulSign(a: int, b: int)
    ensures a >= 0 && b >= 0 ==> a * b >= 0
  {
  }

  /** `x / k` is `q` when `x` lies between `q * k` and the next multiple of `k`. */
  lemma DivBetween(x: int, k: int, q: int)
    requires k >= 1 && q * k <= x < q * k + k
    ensures x / k == q && x % k == x - q * k
  {
    var d := x / k;
    var t := d - q;
    assert x == d * k + x % k;
    assert t * k == d * k - q * k;
    MulSign(t - 1, k);
    MulSign(-t - 1, k);
    assert (t - 1) * k == t * k - k;
    assert (-t - 1) * k == -(t * k) - k;
  }

  /** `n` items take ceil(n / k) waves. */
  lemma {:induction false} WavesCount<T>(items: seq<T>, k: nat)
    requires k >= 1
    ensures |Waves(items, k)| == (|items| + k - 1) / k
    decreases |items|
  {
    var n := |items|;
    if items == [] {
      DivBetween(k - 1, k, 0);
    } else if n <= k {
      DivBetween(n + k - 1, k, 1);
    } else {
      WavesCount(items[k..], k);
      var q := (n - k + k - 1) / k;
      DivBetween(n - k + k - 1, k, q);
      DivBetween(n + k - 1, k, q + 1);
    }
  }

  lemma MulPred(w: nat, k: nat)
    requires w >= 1
    ensures (w - 1) * k + k == w * k
  {
  }

  /**
   * Wave `w` holds the items from position `w * k` on: its `j`-th item is
   * item `w * k + j`, so it gives at most one item to each of the `k` slots,
   * in slot order, and only the last wave can be shorter than `k`.
   */
  lemma {:induction false} WaveElement<T>(items: seq<T>, k: nat, w: nat, j: nat)
    requires k >= 1 && w < |Waves(items, k)|
    ensures 1 <= |Waves(items, k)[w]| <= k
    ensures w < |Waves(items, k)| - 1 ==> |Waves(items, k)[w]| == k
    ensures j < |Waves(items, k)[w]| ==> w * k + j < |items| && Waves(items, k)[w][j] == items[w * k + j]
    decreases w
  {
    var ws := Waves(items, k);
    if w == 0 {
      if |items| > k {
        assert ws[0] == items[..k];
      } else {
        assert ws == [items];
      }
    } else {
      var rest := Waves(items[k..], k);
      assert ws == [items[..k]] + rest;
      assert ws[w] == rest[w - 1];
      WaveElement(items[k..], k, w - 1, j);
      var before := (w - 1) * k;
      MulPred(w, k);
      if j < |ws[w]| {
        assert items[k..][before + j] == items[before + k + j];
      }
    }
  }

  /** A wave started after `w` full waves is appended as one more wave. */
  lemma {:induction false} WavesSnoc<T>(a: seq<T>, b: seq<T>, k: nat, w: nat)
    requires k >= 1 && |a| == w * k && 1 <= |b| <= k
    ensures Waves(a + b, k) == Waves(a, k) + [b]
    decreases w
  {
    if w == 0 {
      assert a == [];
      assert a + b == b;
    } else {
      MulSign(w - 1, k);
      assert |a| - k == (w - 1) * k;
      assert (a + b)[..k] == a[..k];
      assert (a + b)[k..] == a[k..] + b;
      WavesSnoc(a[k..], b, k, w - 1);
      if |a| == k {
        assert a[k..] == [] && a[..k] == a;
      }
    }
  }

  /** The slot of position `i` is never beyond `i`. */
  lemma SlotBelow(i: nat, k: nat)
    requires k >= 1
    ensures i % k <= i
  {
    assert i == (i / k) * k + i % k;
    MulSign(i / k, k);
  }

  /** Position `w * k + j` of the task list falls to slot `j` of its wave. */
  lemma SlotOf(w: nat, k: nat, j: nat)
    requires k >= 1 && j < k
    ensures (w * k + j) % k == j
  {
    DivBetween(w * k + j, k, w);
  }

  /** The slot of position `i` when items are dealt out `k` per wave. */
  function Slot(i: nat, k: nat): (s: nat)
    requires k >= 1
    ensures s < k
    decreases i
  {
    if i < k then i else Slot(i - k, k)
  }

  /** Positions of the first wave are their own slots. */
  lemma SlotFirst(i: nat, k: nat)
    requires i < k
    ensures i % k == i
  {
    DivBetween(i, k, 0);
  }

  /** Skipping one whole wave keeps the slot. */
  lemma SlotShift(i: nat, k: nat)
    requires k >= 1 && i >= k
    ensures (i - k) % k == i % k
  {
    var q := (i - k) / k;
    assert i - k == q * k + (i - k) % k;
    assert (q + 1) * k == q * k + k;
    DivBetween(i, k, q + 1);
  }

  /** The slot is the remainder of the position by the wave size. */
  lemma {:induction false} SlotIsMod(i: nat, k: nat)
    requires k >= 1
    ensures Slot(i, k) == i % k
    decreases i
  {
    if i < k {
      SlotFirst(i, k);
    } else {
      SlotIsMod(i - k, k);
      SlotShift(i, k);
    }
  }

  lemma FlattenSnoc<T>(ws: seq<seq<T>>, w: seq<T>)
    ensures Flatten(ws + [w]) == Flatten(ws) + w
  {
    if ws != [] {
      assert (ws + [w])[1..] == ws[1..] + [w];
      FlattenSnoc(ws[1..], w);
    }
  }

  lemma {:induction false} FlattenAppend<T>(a: seq<seq<T>>, b: seq<seq<T>>)
    ensures Flatten(a + b) == Flatten(a) + Flatten(b)
  {
    if a == [] {
      assert a + b == b;
    } else {
      assert (a + b)[1..] == a[1..] + b;
      FlattenAppend(a[1..], b);
    }
  }

  // ---------------------------------------------------------------------------
  // Consolidation
  // ---------------------------------------------------------------------------

  /** A finished task as consolidation sees it: its host and its `output` (`None` for `null`). */
  datatype Run = Run(host: string, output: Option<seq<string>>)

  /** The runs of `tasks`, in order, each executed once by `exec`. */
  function RunsOf(tasks: seq<Task>, exec: Executor): seq<Run>
  {
    seq(|tasks|, i requires 0 <= i < |tasks| => Run(tasks[i].host, Outcome(tasks[i], exec)))
  }

  lemma RunsOfAppend(a: seq<Task>, b: seq<Task>, exec: Executor)
    ensures RunsOf(a + b, exec) == RunsOf(a, exec) + RunsOf(b, exec)
  {
  }

  /** The lines a run contributes: its output, nothing for `null`. */
  function Lines(r: Run): seq<string>
  {
    if r.output.Some? then r.output.value else []
  }

  /**
   * The `results` map after consolidating `runs` in order into an empty map:
   * a host gets an entry when its first run is consolidated, and each non-null
   * output is appended to its host's entry.
   */
  function Gather(runs: seq<Run>): map<string, seq<string>>
  {
    if runs == [] then map[]
    else Consolidate(Gather(runs[..|runs| - 1]), runs[|runs| - 1])
  }

  /** Consolidating one run into `m`: only the entry of its host changes. */
  function Consolidate(m: map<string, seq<string>>, r: Run): map<string, seq<string>>
  {
    m[r.host := (if r.host in m then m[r.host] else []) + Lines(r)]
  }

  /** Consolidating one more run updates the entry of its host only. */
  lemma GatherSnoc(runs: seq<Run>, r: Run)
    ensures Gather(runs + [r]) == Consolidate(Gather(runs), r)
  {
    assert (runs + [r])[..|runs|] == runs;
  }

  /** The hosts that ran at least one of `runs`. */
  function Hosts(runs: seq<Run>): set<string>
  {
    set i | 0 <= i < |runs| :: runs[i].host
  }

  /** The outputs of `h`'s runs, concatenated in run order, `null` ones skipped. */
  function HostOutput(runs: seq<Run>, h: string): seq<string>
  {
    if runs == [] then []
    else
      var r := runs[|runs| - 1];
      HostOutput(runs[..|runs| - 1], h) + (if r.host == h then Lines(r) else [])
  }

  /** The outputs of all runs, in run order, `null` ones skipped. */
  function AllOutput(runs: seq<Run>): seq<string>
  {
    if runs == [] then [] else AllOutput(runs[..|runs| - 1]) + Lines(runs[|runs| - 1])
  }

  /**
   * Consolidation has an entry for exactly the hosts that ran something, even
   * when all their runs failed, and each entry is that host's outputs in run
   * order.
   */
  lemma {:induction false} GatherByHost(runs: seq<Run>)
    ensures Gather(runs).Keys == Hosts(runs)
    ensures forall h :: h in Gather(runs) ==> Gather(runs)[h] == HostOutput(runs, h)
  {
    if runs != [] {
      var init := runs[..|runs| - 1];
      var r := runs[|runs| - 1];
      GatherByHost(init);
      assert Hosts(runs) == Hosts(init) + {r.host} by {
        forall h ensures h in Hosts(runs) <==> h in Hosts(init) + {r.host} {
          if h in Hosts(runs) {
            var i :| 0 <= i < |runs| && runs[i].host == h;
            if i < |init| { assert init[i].host == h; }
          }
          if h in Hosts(init) {
            var i :| 0 <= i < |init| && init[i].host == h;
            assert runs[i].host == h;
          }
        }
      }
      if r.host !in Gather(init) {
        HostOutputOfAbsent(init, r.host);
      }
    }
  }

  /** A host without runs has no output. */
  lemma {:induction false} HostOutputOfAbsent(runs: seq<Run>, h: string)
    requires h !in Hosts(runs)
    ensures HostOutput(runs, h) == []
  {
    if runs != [] {
      var init := runs[..|runs| - 1];
      assert h !in Hosts(init) by {
        forall i | 0 <= i < |init| ensures init[i].host != h {
          assert runs[i].host in Hosts(runs);
        }
      }
      HostOutputOfAbsent(init, h);
    }
  }

  /** The strings listed in `order`. */
  function Members(order: seq<string>): set<string>
  {
    set h | h in order
  }

  /** The entries of `m` for the hosts of `order`, concatenated in that order. */
  function Concat(order: seq<string>, m: map<string, seq<string>>): seq<string>
    requires forall h :: h in order ==> h in m
  {
    if order == [] then [] else Concat(order[..|order| - 1], m) + m[order[|order| - 1]]
  }

  /** The outputs of the runs whose host is in `s`, in run order. */
  function OutputsIn(runs: seq<Run>, s: set<string>): seq<string>
  {
    if runs == [] then []
    else
      var r := runs[|runs| - 1];
      OutputsIn(runs[..|runs| - 1], s) + (if r.host in s then Lines(r) else [])
  }

  lemma {:induction false} OutputsInAdd(runs: seq<Run>, s: set<string>, h: string)
    requires h !in s
    ensures multiset(OutputsIn(runs, s + {h})) == multiset(OutputsIn(runs, s)) + multiset(HostOutput(runs, h))
  {
    if runs != [] {
      OutputsInAdd(runs[..|runs| - 1], s, h);
    }
  }

  lemma {:induction false} OutputsInNone(runs: seq<Run>)
    ensures OutputsIn(runs, {}) == []
  {
    if runs != [] {
      OutputsInNone(runs[..|runs| - 1]);
    }
  }

  lemma {:induction false} OutputsInAll(runs: seq<Run>, s: set<string>)
    requires Hosts(runs) <= s
    ensures OutputsIn(runs, s) == AllOutput(runs)
  {
    if runs != [] {
      var init := runs[..|runs| - 1];
      assert Hosts(init) <= s by {
        forall h | h in Hosts(init) ensures h in s {
          var i :| 0 <= i < |init| && init[i].host == h;
          assert runs[i].host == h;
        }
      }
      OutputsInAll(init, s);
      assert runs[|runs| - 1].host in Hosts(runs);
    }
  }

  lemma {:induction false} ConcatByHost(order: seq<string>, runs: seq<Run>)
    requires forall i, j :: 0 <= i < j < |order| ==> order[i] != order[j]
    requires forall h :: h in order ==> h in Hosts(runs)
    ensures forall h :: h in order ==> h in Gather(runs)
    ensures multiset(Concat(order, Gather(runs))) == multiset(OutputsIn(runs, Members(order)))
  {
    GatherByHost(runs);
    if order != [] {
      var init := order[..|order| - 1];
      var h := order[|order| - 1];
      ConcatByHost(init, runs);
      assert Members(order) == Members(init) + {h} by {
        forall x ensures x in order <==> x in init || x == h {
          if x in order {
            var i :| 0 <= i < |order| && order[i] == x;
            if i < |init| { assert init[i] == x; }
          }
        }
      }
      assert h !in Members(init) by {
        forall i | 0 <= i < |init| ensures init[i] != h {
          assert init[i] == order[i];
        }
      }
      OutputsInAdd(runs, Members(init), h);
      assert Concat(order, Gather(runs)) == Concat(init, Gather(runs)) + Gather(runs)[h];
    } else {
      assert Members(order) == {};
      OutputsInNone(runs);
    }
  }

  /**
   * Reading the consolidated map back host by host, in any order that visits
   * each host once, yields exactly the lines of all runs: nothing is lost or
   * duplicated by consolidation.
   */
  lemma ConcatIsPermutation(order: seq<string>, runs: seq<Run>)
    requires Enumerates(order, Hosts(runs))
    ensures forall h :: h in order ==> h in Gather(runs)
    ensures multiset(Concat(order, Gather(runs))) == multiset(AllOutput(runs))
  {
    ConcatByHost(order, runs);
    assert Members(order) == Hosts(runs);
    OutputsInAll(runs, Hosts(runs));
  }
}
