/**
 * The final ranking of the master (Master.java, the comparator handed to
 * `Collections.sort`): result lines ordered by their count, highest first,
 * lines with equal counts keeping their order because the library sort is
 * stable. The library's algorithm is not part of this model; `Sort` is a
 * reference definition with the three properties that pin down the result of
 * any stable sort: it is ordered, a permutation, and stable.
 */
module Ranking {
  import opened Wrappers

  /** A result line with the count the comparator reads from it. */
  datatype Entry = Entry(line: string, count: int)

  /**
   * Every line paired with the count `read` finds in it, or the failure of
   * the first line, in list order, whose count cannot be read.
   */
  function EntriesOf<E>(lines: seq<string>, read: string -> Result<int, E>): Result<seq<Entry>, E>
  {
    if lines == [] then Ok([])
    else
      match read(lines[0])
      case Err(e) => Err(e)
      case Ok(c) =>
        match EntriesOf(lines[1..], read)
        case Err(e) => Err(e)
        case Ok(es) => Ok([Entry(lines[0], c)] + es)
  }

  /**
   * The entries exist exactly when every line's count can be read, and then
   * they pair each line, in order, with its count.
   */
  lemma {:induction false} EntriesOfSpec<E>(lines: seq<string>, read: string -> Result<int, E>)
    ensures EntriesOf(lines, read).Ok? <==> forall i :: 0 <= i < |lines| ==> read(lines[i]).Ok?
    ensures EntriesOf(lines, read).Ok? ==>
      |EntriesOf(lines, read).value| == |lines| &&
      forall i :: 0 <= i < |lines| ==> EntriesOf(lines, read).value[i] == Entry(lines[i], read(lines[i]).value)
  {
    if lines != [] {
      EntriesOfSpec(lines[1..], read);
      assert forall i :: 0 < i < |lines| ==> lines[i] == lines[1..][i - 1];
      if read(lines[0]).Ok? && EntriesOf(lines[1..], read).Err? {
        var i :| 0 <= i < |lines[1..]| && read(lines[1..][i]).Err?;
        assert read(lines[i + 1]).Err?;
      }
    }
  }

  /** Highest count first. */
  predicate Descending(es: seq<Entry>)
  {
    forall i, j :: 0 <= i < j < |es| ==> es[i].count >= es[j].count
  }

  /**
   * `e` placed before the first entry whose count is not higher, so that it
   * precedes the entries of equal count already in `es`.
   */
  function Insert(e: Entry, es: seq<Entry>): (r: seq<Entry>)
    ensures multiset(r) == multiset(es) + multiset{e}
    ensures Descending(es) ==> Descending(r)
  {
    if es == [] || es[0].count <= e.count then [e] + es
    else
      var rest := Insert(e, es[1..]);
      assert es == [es[0]] + es[1..];
      HeadAbove(es[0], e, es[1..], rest);
      [es[0]] + rest
  }

  /** An entry not below `e` and below no entry of a descending `es` can head their merge. */
  lemma HeadAbove(head: Entry, e: Entry, es: seq<Entry>, rest: seq<Entry>)
    requires head.count > e.count
    requires multiset(rest) == multiset(es) + multiset{e}
    ensures Descending([head] + es) && Descending(rest) ==> Descending([head] + rest)
  {
    if Descending([head] + es) && Descending(rest) {
      forall j | 0 <= j < |rest| ensures head.count >= rest[j].count {
        var x := rest[j];
        assert x in multiset(rest);
        assert x == e || x in multiset(es);
        if x != e {
          assert x in es;
          var k :| 0 <= k < |es| && es[k] == x;
          assert ([head] + es)[k + 1] == es[k];
          assert ([head] + es)[0] == head;
        }
      }
    }
  }

  /** The entries ordered by count, highest first, equal counts in their original order. */
  function Sort(es: seq<Entry>): (r: seq<Entry>)
    ensures multiset(r) == multiset(es)
    ensures Descending(r)
  {
    if es == [] then []
    else
      assert es == [es[0]] + es[1..];
      Insert(es[0], Sort(es[1..]))
  }

  /** The entries of count `c`, in order. */
  function WithCount(es: seq<Entry>, c: int): seq<Entry>
  {
    if es == [] then []
    else (if es[0].count == c then [es[0]] else []) + WithCount(es[1..], c)
  }

  lemma WithCountCons(x: Entry, es: seq<Entry>, c: int)
    ensures WithCount([x] + es, c) == (if x.count == c then [x] else []) + WithCount(es, c)
  {
    assert ([x] + es)[1..] == es;
  }

  lemma {:induction false} InsertStable(e: Entry, es: seq<Entry>, c: int)
    ensures WithCount(Insert(e, es), c) == (if e.count == c then [e] else []) + WithCount(es, c)
  {
    if es != [] && es[0].count > e.count {
      var rest := Insert(e, es[1..]);
      InsertStable(e, es[1..], c);
      WithCountCons(es[0], rest, c);
      WithCountCons(es[0], es[1..], c);
      assert [es[0]] + es[1..] == es;
    } else {
      WithCountCons(e, es, c);
    }
  }

  /** The sort is stable: for every count, the entries of that count keep their order. */
  lemma {:induction false} SortStable(es: seq<Entry>, c: int)
    ensures WithCount(Sort(es), c) == WithCount(es, c)
  {
    if es != [] {
      SortStable(es[1..], c);
      InsertStable(es[0], Sort(es[1..]), c);
    }
  }

  /** The lines of `es`, in order. */
  function LinesOf(es: seq<Entry>): (r: seq<string>)
    ensures |r| == |es| && forall i :: 0 <= i < |es| ==> r[i] == es[i].line
  {
    if es == [] then [] else [es[0].line] + LinesOf(es[1..])
  }

  lemma {:induction false} LinesOfInsert(e: Entry, es: seq<Entry>)
    ensures multiset(LinesOf(Insert(e, es))) == multiset(LinesOf(es)) + multiset{e.line}
  {
    if es != [] && es[0].count > e.count {
      LinesOfInsert(e, es[1..]);
      assert Insert(e, es)[1..] == Insert(e, es[1..]);
      assert LinesOf(Insert(e, es)) == [es[0].line] + LinesOf(Insert(e, es[1..]));
    }
  }

  /** Sorting moves lines around without adding or losing any. */
  lemma {:induction false} LinesOfSort(es: seq<Entry>)
    ensures multiset(LinesOf(Sort(es))) == multiset(LinesOf(es))
  {
    if es != [] {
      LinesOfSort(es[1..]);
      LinesOfInsert(es[0], Sort(es[1..]));
    }
  }

  lemma {:induction false} LinesOfAppend(a: seq<Entry>, b: seq<Entry>)
    ensures LinesOf(a + b) == LinesOf(a) + LinesOf(b)
  {
    if a != [] {
      assert (a + b)[1..] == a[1..] + b;
      LinesOfAppend(a[1..], b);
    }
  }
}
