/**
 * The slave program (Slave.java): the MAP operation, which turns the lines of
 * one split file into `word: 1` records and announces `word:UMfile` pairs, and
 * the SHUFFLE_REDUCE operation, which sums the records of one key across
 * intermediate files.
 *
 * Files are a read-only snapshot of the file system passed in; the files an
 * operation writes and the lines it prints are returned.
 */
module Slave {
  import opened Wrappers
  import opened JavaText

  /** The exceptions that end a slave run with a non-zero exit status. */
  datatype Failure =
    | IllegalArgument          // wrong parameter count, or a path without a name
    | StringIndexOutOfBounds   // `substring(1)` of an empty file name
    | IoError                  // a file that cannot be read
    | ArrayIndexOutOfBounds    // a record without a second `:` field
    | NumberFormat             // a matching record whose count is not an `int`

  /** The lines of every readable file, by path. */
  type FileSystem = map<string, seq<string>>

  // ---------------------------------------------------------------------------
  // Paths (java.nio.file.Path on a Unix file system)
  // ---------------------------------------------------------------------------

  predicate IsAbsolute(p: string) {
    p != [] && p[0] == '/'
  }

  /**
   * The name elements of a path: the non-empty pieces between slashes; the
   * empty path has one empty name.
   */
  function PathNames(p: string): (r: seq<string>)
    ensures forall i :: 0 <= i < |r| ==> NoSeparator(r[i], IsSlash)
    ensures p != "" ==> forall i :: 0 <= i < |r| ==> r[i] != ""
  {
    PiecesHaveNoSeparator(p, IsSlash);
    if p == "" then [""] else NonEmpty(Pieces(p, IsSlash))
  }

  /** Name elements separated by slashes. */
  function JoinNames(names: seq<string>): string
  {
    if names == [] then ""
    else if |names| == 1 then names[0]
    else names[0] + "/" + JoinNames(names[1..])
  }

  /** The text of a path with the given root and name elements. */
  function PathString(absolute: bool, names: seq<string>): string
  {
    if absolute then "/" + JoinNames(names) else JoinNames(names)
  }

  /**
   * The intermediate file of a split file: in the same directory, named `UM`
   * followed by the split file's last name without its first character.
   */
  function UmFile(splitFile: string): Result<string, Failure>
  {
    var names := PathNames(splitFile);
    if names == [] then Err(IllegalArgument)
    else
      var last := names[|names| - 1];
      if last == "" then Err(StringIndexOutOfBounds)
      else Ok(PathString(IsAbsolute(splitFile), names[..|names| - 1] + ["UM" + last[1..]]))
  }

  lemma {:induction false} PiecesOfJoin(names: seq<string>)
    requires names != []
    requires forall i :: 0 <= i < |names| ==> NoSeparator(names[i], IsSlash)
    ensures Pieces(JoinNames(names), IsSlash) == names
  {
    if |names| == 1 {
      PiecesOfPlain(names[0], IsSlash);
    } else {
      PiecesCons(names[0], '/', JoinNames(names[1..]), IsSlash);
      PiecesOfJoin(names[1..]);
      assert [names[0]] + names[1..] == names;
    }
  }

  /** The names of a path written out are read back unchanged, and so is its root. */
  lemma PathStringRoundTrip(absolute: bool, names: seq<string>)
    requires names != []
    requires forall i :: 0 <= i < |names| ==> names[i] != "" && NoSeparator(names[i], IsSlash)
    ensures PathNames(PathString(absolute, names)) == names
    ensures IsAbsolute(PathString(absolute, names)) == absolute
  {
    var joined := JoinNames(names);
    PiecesOfJoin(names);
    NonEmptyOfClean(names);
    assert joined != "" && joined[0] == names[0][0] by {
      if |names| > 1 {
        assert joined == names[0] + ("/" + JoinNames(names[1..]));
      }
    }
    if absolute {
      PiecesCons("", '/', joined, IsSlash);
      assert "" + ['/'] + joined == PathString(absolute, names);
      NonEmptyAppend([""], names);
    }
  }

  /** The intermediate file sits in the split file's directory. */
  lemma UmFileIsSibling(splitFile: string)
    requires UmFile(splitFile).Ok?
    ensures var names := PathNames(splitFile);
      var um := UmFile(splitFile).value;
      PathNames(um) == names[..|names| - 1] + ["UM" + names[|names| - 1][1..]] &&
      IsAbsolute(um) == IsAbsolute(splitFile)
  {
    var names := PathNames(splitFile);
    var last := names[|names| - 1];
    var umNames := names[..|names| - 1] + ["UM" + last[1..]];
    assert NoSeparator("UM" + last[1..], IsSlash) by {
      assert forall i :: 0 <= i < |last[1..]| ==> last[1..][i] == last[i + 1];
    }
    assert splitFile != "";
    PathStringRoundTrip(IsAbsolute(splitFile), umNames);
  }

  /** The master's split files `S<n>` map to `UM<n>` in the working directory. */
  lemma UmFileOfSplitName(id: string)
    requires NoSeparator(id, IsSlash)
    ensures UmFile("S" + id) == Ok("UM" + id)
  {
    var s := "S" + id;
    assert NoSeparator(s, IsSlash);
    PiecesOfPlain(s, IsSlash);
    NonEmptyOfClean([s]);
    assert PathNames(s) == [s];
    assert s[1..] == id;
  }

  // ---------------------------------------------------------------------------
  // MAP
  // ---------------------------------------------------------------------------

  /**
   * The words of a line: the maximal runs of characters other than space, tab,
   * `'`, `.` and `,`.
   */
  function Words(line: string): (r: seq<string>)
    ensures forall i :: 0 <= i < |r| ==> r[i] != "" && NoSeparator(r[i], IsWordSeparator)
  {
    PiecesHaveNoSeparator(line, IsWordSeparator);
    NonEmpty(Pieces(line, IsWordSeparator))
  }

  /** What the loop over `line.split("[ \t'.,]+")` keeps: exactly the words. */
  lemma WordsOfSplit(line: string)
    ensures NonEmpty(Split(line, IsWordSeparator)) == Words(line)
  {
    if NoSeparator(line, IsWordSeparator) {
      PiecesOfPlain(line, IsWordSeparator);
    } else {
      NonEmptyStrip(Pieces(line, IsWordSeparator));
    }
  }

  /** A separator between two stretches of text splits their words apart. */
  lemma WordsAround(a: string, c: char, b: string)
    requires NoSeparator(a, IsWordSeparator) && IsWordSeparator(c)
    ensures Words(a + [c] + b) == NonEmpty([a]) + Words(b)
  {
    PiecesCons(a, c, b, IsWordSeparator);
    NonEmptyAppend([a], Pieces(b, IsWordSeparator));
  }

  /** The words of the lines of a file, line after line. */
  function FileWords(lines: seq<string>): (r: seq<string>)
    ensures forall i :: 0 <= i < |r| ==> r[i] != "" && NoSeparator(r[i], IsWordSeparator)
  {
    if lines == [] then [] else FileWords(lines[..|lines| - 1]) + Words(lines[|lines| - 1])
  }

  /** The intermediate record of one occurrence. */
  function Record(word: string): string { word + ": 1" }

  /** The line announcing that `word` occurs in `umFile`. */
  function Announcement(word: string, umFile: string): string { word + ":" + umFile }

  /** One record per word, in order. */
  function Records(words: seq<string>): (r: seq<string>)
    ensures |r| == |words|
  {
    if words == [] then [] else Records(words[..|words| - 1]) + [Record(words[|words| - 1])]
  }

  /** One announcement per word, in order. */
  function Announcements(words: seq<string>, umFile: string): (r: seq<string>)
    ensures |r| == |words|
  {
    if words == [] then []
    else Announcements(words[..|words| - 1], umFile) + [Announcement(words[|words| - 1], umFile)]
  }

  lemma FileWordsStep(lines: seq<string>, i: nat)
    requires i < |lines|
    ensures FileWords(lines[..i + 1]) == FileWords(lines[..i]) + Words(lines[i])
  {
    assert lines[..i + 1][..i] == lines[..i];
  }

  lemma EmitStep(seen: seq<string>, word: string, umFile: string)
    ensures Records(seen + [word]) == Records(seen) + [Record(word)]
    ensures Announcements(seen + [word], umFile) == Announcements(seen, umFile) + [Announcement(word, umFile)]
  {
    assert (seen + [word])[..|seen|] == seen;
  }

  /** What a successful MAP run leaves behind. */
  datatype MapOutput = MapOutput(
    umFile: string,                // the intermediate file's path
    umContent: Option<seq<string>>, // its lines, or None when it is not written
    stdout: seq<string>)           // the lines printed for the master

  /**
   * `map`: exactly one parameter, the split file; one record and one printed
   * `word:UMfile` line per word, in order; the intermediate file is written
   * only when there is at least one word.
   */
  method Map(params: seq<string>, fs: FileSystem) returns (r: Result<MapOutput, Failure>)
    ensures |params| != 1 ==> r == Err(IllegalArgument)
    ensures |params| == 1 && UmFile(params[0]).Err? ==> r == Err(UmFile(params[0]).error)
    ensures |params| == 1 && UmFile(params[0]).Ok? && params[0] !in fs ==> r == Err(IoError)
    ensures |params| == 1 && UmFile(params[0]).Ok? && params[0] in fs ==>
      var umFile := UmFile(params[0]).value;
      var words := FileWords(fs[params[0]]);
      r == Ok(MapOutput(umFile, if words == [] then None else Some(Records(words)),
                        Announcements(words, umFile)))
    ensures r.Ok? ==>
      |params| == 1 && params[0] in fs && UmFile(params[0]) == Ok(r.value.umFile) &&
      var words := FileWords(fs[params[0]]);
      r.value.stdout == Announcements(words, r.value.umFile) &&
      r.value.umContent == (if words == [] then None else Some(Records(words)))
  {
    if |params| != 1 {
      return Err(IllegalArgument);
    }
    var um := UmFile(params[0]);
    if um.Err? {
      return Err(um.error);
    }
    if params[0] !in fs {
      return Err(IoError);
    }
    var umFile := um.value;
    var records, stdout := EmitWords(fs[params[0]], umFile);
    var content := if |records| > 0 then Some(records) else None;
    r := Ok(MapOutput(umFile, content, stdout));
  }

  /**
   * The loops of `map`: for every word of every line, in order, one record
   * for the intermediate file and one announcement on standard output.
   */
  method EmitWords(lines: seq<string>, umFile: string) returns (records: seq<string>, stdout: seq<string>)
    ensures records == Records(FileWords(lines))
    ensures stdout == Announcements(FileWords(lines), umFile)
  {
    records, stdout := [], [];
    ghost var seen: seq<string> := [];
    var i := 0;
    while i < |lines|
      invariant 0 <= i <= |lines|
      invariant seen == FileWords(lines[..i])
      invariant records == Records(seen) && stdout == Announcements(seen, umFile)
    {
      var line := lines[i];
      var pieces := Split(line, IsWordSeparator);
      ghost var before := seen;
      var j := 0;
      while j < |pieces|
        invariant 0 <= j <= |pieces|
        invariant seen == before + NonEmpty(pieces[..j])
        invariant records == Records(seen) && stdout == Announcements(seen, umFile)
      {
        var word := pieces[j];
        NonEmptyPrefixStep(pieces, j);
        if |word| > 0 {
          EmitStep(seen, word, umFile);
          records := records + [Record(word)];
          stdout := stdout + [Announcement(word, umFile)];
          seen := seen + [word];
        }
        j := j + 1;
      }
      assert pieces[..j] == pieces;
      WordsOfSplit(line);
      FileWordsStep(lines, i);
      i := i + 1;
    }
    assert lines[..i] == lines;
  }

  // ---------------------------------------------------------------------------
  // SHUFFLE_REDUCE
  // ---------------------------------------------------------------------------

  /** The companion file: the result file's name with a leading `R` replaced by `S`. */
  function SmFile(rmFile: string): (r: string)
    ensures |r| == |rmFile| && (rmFile != [] ==> r[1..] == rmFile[1..])
    ensures rmFile != [] && rmFile[0] == 'R' ==> r[0] == 'S'
    ensures rmFile == [] || rmFile[0] != 'R' ==> r == rmFile
  {
    if rmFile != [] && rmFile[0] == 'R' then "S" + rmFile[1..] else rmFile
  }

  /** A record line split at its colons: the trimmed first and second fields. */
  datatype Fields = Fields(word: string, occurrence: string)

  /** `line.split(":")` with its first two fields trimmed; None when there is no second field. */
  function ParseFields(line: string): Option<Fields>
  {
    var fields := Split(line, IsColon);
    if |fields| < 2 then None else Some(Fields(Trim(fields[0]), Trim(fields[1])))
  }

  /**
   * What one line contributes to `key`'s count: nothing when its word is
   * another one, its count when the word matches ignoring case, or the
   * exception that stops the reduction.
   */
  function LineValue(key: string, line: string): Result<Option<int>, Failure>
  {
    match ParseFields(line)
    case None => Err(ArrayIndexOutOfBounds)
    case Some(f) =>
      if !EqualsIgnoreCase(f.word, key) then Ok(None)
      else
        match ParseInt(f.occurrence)
        case None => Err(NumberFormat)
        case Some(v) => Ok(Some(v))
  }

  /**
   * A record `word: 1` written by MAP, for a word without `:`, reads back as
   * one occurrence when the trimmed word equals `key` ignoring case, and as
   * no contribution otherwise.
   */
  lemma RecordReadBack(key: string, word: string)
    requires NoSeparator(word, IsColon)
    ensures LineValue(key, Record(word)) ==
      if EqualsIgnoreCase(Trim(word), key) then Ok(Some(1)) else Ok(None)
  {
    assert Record(word) == word + ":" + " 1";
    SplitPair(word, " 1");
    assert Trim(" 1") == "1" by {
      assert FirstKept(" 1", 0) == 1;
      assert LastKept(" 1", 1, 2) == 2;
      assert " 1"[1..2] == "1";
    }
    ParseIntToString(1);
    assert IntToString(1) == "1";
  }

  /** `lvs` lists what each of the lines contributes, in order. */
  ghost predicate Classifies(key: string, lines: seq<string>, lvs: seq<Result<Option<int>, Failure>>) {
    |lvs| == |lines| &&
    forall k {:trigger LineValue(key, lines[k])} :: 0 <= k < |lines| ==> lvs[k] == LineValue(key, lines[k])
  }

  /** What each line of a file contributes to `key`'s count, line by line. */
  ghost function Classify(key: string, lines: seq<string>): (r: seq<Result<Option<int>, Failure>>)
    ensures Classifies(key, lines, r)
  {
    var each := seq(|lines|, k requires 0 <= k < |lines| => LineValue(key, lines[k]));
    assert Classifies(key, lines, each);
    var lvs :| Classifies(key, lines, lvs);
    lvs
  }

  /** The counts carried by a run of line contributions, or the first exception among them. */
  function Collect(lvs: seq<Result<Option<int>, Failure>>): Result<seq<int>, Failure>
  {
    if lvs == [] then Ok([])
    else
      match Collect(lvs[..|lvs| - 1])
      case Err(e) => Err(e)
      case Ok(vs) =>
        match lvs[|lvs| - 1]
        case Err(e) => Err(e)
        case Ok(None) => Ok(vs)
        case Ok(Some(v)) => Ok(vs + [v])
  }

  /** The counts of `key`'s records in the lines, in order, or the first exception. */
  ghost function LinesValues(key: string, lines: seq<string>): Result<seq<int>, Failure>
  {
    Collect(Classify(key, lines))
  }

  /** The counts of `key`'s records across the files, in order, or the first exception. */
  ghost function FilesValues(key: string, files: seq<string>, fs: FileSystem): Result<seq<int>, Failure>
  {
    if files == [] then Ok([])
    else
      match FilesValues(key, files[..|files| - 1], fs)
      case Err(e) => Err(e)
      case Ok(vs) =>
        var file := files[|files| - 1];
        if file !in fs then Err(IoError)
        else
          match LinesValues(key, fs[file])
          case Err(e) => Err(e)
          case Ok(ws) => Ok(vs + ws)
  }

  function Sum(vs: seq<int>): int
  {
    if vs == [] then 0 else Sum(vs[..|vs| - 1]) + vs[|vs| - 1]
  }

  /** The line printed and written to the result file: `key:count`. */
  function CountLine(key: string, count: int): string
  {
    key + ":" + IntToString(count)
  }

  /** What a successful SHUFFLE_REDUCE run leaves behind. */
  datatype ReduceOutput = ReduceOutput(
    rmFile: string,                 // the result file
    rmContent: string,              // its single line `key:count`
    smFile: string,                 // the companion file
    smContent: Option<seq<string>>, // one `key: 1` per matching record, or None when not written
    stdout: seq<string>)            // the lines printed for the master

  /** `n` copies of `line`. */
  function Repeat(line: string, n: nat): (r: seq<string>)
    ensures |r| == n
  {
    if n == 0 then [] else Repeat(line, n - 1) + [line]
  }

  /**
   * `shuffleReduce`: at least three parameters (key, result file, intermediate
   * files); the count is the 32-bit sum of the counts of every record, in every
   * listed file, whose trimmed word equals the key ignoring case.
   */
  method ShuffleReduce(params: seq<string>, fs: FileSystem) returns (r: Result<ReduceOutput, Failure>)
    ensures |params| < 3 ==> r == Err(IllegalArgument)
    ensures |params| >= 3 && FilesValues(params[0], params[2..], fs).Err? ==>
      r == Err(FilesValues(params[0], params[2..], fs).error)
    ensures |params| >= 3 && FilesValues(params[0], params[2..], fs).Ok? ==>
      var key := params[0];
      var vs := FilesValues(key, params[2..], fs).value;
      var line := CountLine(key, Wrap32(Sum(vs)));
      r == Ok(ReduceOutput(params[1], line, SmFile(params[1]),
                           if vs == [] then None else Some(Repeat(key + ": 1", |vs|)),
                           [line]))
  {
    if |params| < 3 {
      return Err(IllegalArgument);
    }
    var key := params[0];
    var rmFile := params[1];
    var smFile := SmFile(rmFile);
    var read := ReadMapFiles(key, params[2..], fs);
    if read.Err? {
      return Err(read.error);
    }
    var (count, results) := read.value;
    var output := CountLine(key, count);
    var smContent := if |results| > 0 then Some(results) else None;
    r := Ok(ReduceOutput(rmFile, output, smFile, smContent, [output]));
  }

  /**
   * The outer loop of `shuffleReduce`, over the intermediate files named
   * after the key and the result file: the wrapped total of `key`'s counts
   * and one `key: 1` line per record, or the first exception.
   */
  method ReadMapFiles(key: string, files: seq<string>, fs: FileSystem)
    returns (r: Result<(int, seq<string>), Failure>)
    ensures FilesValues(key, files, fs).Err? ==> r == Err(FilesValues(key, files, fs).error)
    ensures FilesValues(key, files, fs).Ok? ==>
      var vs := FilesValues(key, files, fs).value;
      r == Ok((Wrap32(Sum(vs)), Repeat(key + ": 1", |vs|)))
  {
    var count := 0;
    var results: seq<string> := [];
    ghost var vals: seq<int> := [];
    var j := 0;
    while j < |files|
      invariant 0 <= j <= |files|
      invariant FilesValues(key, files[..j], fs) == Ok(vals)
      invariant count == Wrap32(Sum(vals))
      invariant results == Repeat(key + ": 1", |vals|)
    {
      var scanned := ReadMapFile(key, files[j], fs, count, results);
      ghost var vals' := ReadStep(key, files, j, fs, vals, count, results, scanned);
      if scanned.Err? {
        return Err(scanned.error);
      }
      count, results := scanned.value.0, scanned.value.1;
      vals := vals';
      j := j + 1;
    }
    assert files[..j] == files;
    r := Ok((count, results));
  }

  /**
   * One iteration of the outer loop of `shuffleReduce`: reading a missing
   * intermediate file raises an `IOException`, otherwise its lines are
   * scanned for `key`.
   */
  method ReadMapFile(key: string, umFile: string, fs: FileSystem, count: int, results: seq<string>)
    returns (r: Result<(int, seq<string>), Failure>)
    requires IsInt32(count)
    ensures umFile !in fs ==> r == Err(IoError)
    ensures umFile in fs && LinesValues(key, fs[umFile]).Err? ==>
      r == Err(LinesValues(key, fs[umFile]).error)
    ensures umFile in fs && LinesValues(key, fs[umFile]).Ok? ==>
      var ws := LinesValues(key, fs[umFile]).value;
      r == Ok((Wrap32(count + Sum(ws)), results + Repeat(key + ": 1", |ws|)))
  {
    if umFile !in fs {
      return Err(IoError);
    }
    ghost var lvs := Classify(key, fs[umFile]);
    r := ScanFile(key, fs[umFile], lvs, count, results);
  }

  /**
   * The inner loop of `shuffleReduce`, over the lines of one intermediate
   * file: every record of `key` adds its count to `count` (wrapping like
   * Java's `int`) and one `key: 1` line to `results`.
   */
  method ScanFile(key: string, lines: seq<string>, ghost lvs: seq<Result<Option<int>, Failure>>,
                  count: int, results: seq<string>)
    returns (r: Result<(int, seq<string>), Failure>)
    requires IsInt32(count) && Classifies(key, lines, lvs)
    ensures Collect(lvs).Err? ==> r == Err(Collect(lvs).error)
    ensures Collect(lvs).Ok? ==>
      var ws := Collect(lvs).value;
      r == Ok((Wrap32(count + Sum(ws)), results + Repeat(key + ": 1", |ws|)))
  {
    var c := count;
    var out := results;
    ghost var ws: seq<int> := [];
    assert Repeat(key + ": 1", 0) == [] && results + [] == results;
    var j := 0;
    while j < |lines|
      invariant 0 <= j <= |lines|
      invariant Collect(lvs[..j]) == Ok(ws)
      invariant c == Total(count, ws)
      invariant out == results + Repeat(key + ": 1", |ws|)
    {
      CollectStep(lvs, j, ws);
      var lv := ParseLine(key, lines, j, lvs);
      if lv.Err? {
        CollectErrorSticks(lvs, j + 1);
        return Err(lv.error);
      }
      if lv.value.Some? {
        var v := lv.value.value;
        TotalStep(count, ws, v, c);
        c := Wrap32(c + v);
        out := out + [key + ": 1"];
        ws := ws + [v];
      }
      j := j + 1;
    }
    assert lvs[..j] == lvs;
    TotalIsWrappedSum(count, ws);
    r := Ok((c, out));
  }

  /** Line `j` of a file whose lines contribute `lvs`, parsed as the inner loop does. */
  method ParseLine(key: string, lines: seq<string>, j: nat, ghost lvs: seq<Result<Option<int>, Failure>>)
    returns (lv: Result<Option<int>, Failure>)
    requires j < |lines| && Classifies(key, lines, lvs)
    ensures lv == lvs[j]
  {
    lv := ParseRecord(key, lines[j]);
  }

  /**
   * The body of the inner loop for one line: split at the colons, trim the
   * first two fields, compare the word with the key ignoring case, and parse
   * the count of a matching record.
   */
  method ParseRecord(key: string, line: string) returns (lv: Result<Option<int>, Failure>)
    ensures lv == LineValue(key, line)
  {
    var fields := Split(line, IsColon);
    if |fields| < 2 {
      return Err(ArrayIndexOutOfBounds);
    }
    var word := Trim(fields[0]);
    var occurrence := Trim(fields[1]);
    if !EqualsIgnoreCase(word, key) {
      return Ok(None);
    }
    var v := ParseInt(occurrence);
    if v.None? {
      return Err(NumberFormat);
    }
    return Ok(Some(v.value));
  }

  /** `count += v` for every value in turn, each addition wrapping like Java's `int`. */
  function Total(count: int, vs: seq<int>): int
  {
    if vs == [] then count else Wrap32(Total(count, vs[..|vs| - 1]) + vs[|vs| - 1])
  }

  /** One more addition to the running count. */
  lemma TotalStep(count: int, vs: seq<int>, v: int, c: int)
    requires c == Total(count, vs)
    ensures Total(count, vs + [v]) == Wrap32(c + v)
  {
    assert (vs + [v])[..|vs|] == vs;
  }

  /** Wrapping after every addition gives the wrapped mathematical sum. */
  lemma {:induction false} TotalIsWrappedSum(count: int, vs: seq<int>)
    requires IsInt32(count)
    ensures Total(count, vs) == Wrap32(count + Sum(vs))
  {
    if vs != [] {
      var init := vs[..|vs| - 1];
      TotalIsWrappedSum(count, init);
      WrapAdd(count + Sum(init), vs[|vs| - 1]);
    }
  }

  lemma {:induction false} SumAppend(a: seq<int>, b: seq<int>)
    ensures Sum(a + b) == Sum(a) + Sum(b)
    decreases |b|
  {
    if b == [] {
      assert a + b == a;
    } else {
      assert (a + b)[..|a + b| - 1] == a + b[..|b| - 1];
      SumAppend(a, b[..|b| - 1]);
    }
  }

  lemma {:induction false} RepeatAppend(line: string, m: nat, n: nat)
    ensures Repeat(line, m) + Repeat(line, n) == Repeat(line, m + n)
  {
    if n == 0 {
      assert Repeat(line, m) + [] == Repeat(line, m);
    } else {
      RepeatAppend(line, m, n - 1);
      assert Repeat(line, m) + Repeat(line, n - 1) + [line] == Repeat(line, m) + (Repeat(line, n - 1) + [line]);
    }
  }

  /** What one more intermediate file does to the values read so far. */
  lemma ReadStep(key: string, files: seq<string>, j: nat, fs: FileSystem, vals: seq<int>,
                 count: int, results: seq<string>, scanned: Result<(int, seq<string>), Failure>)
    returns (vals': seq<int>)
    requires j < |files| && FilesValues(key, files[..j], fs) == Ok(vals)
    requires count == Wrap32(Sum(vals)) && results == Repeat(key + ": 1", |vals|)
    requires files[j] !in fs ==> scanned == Err(IoError)
    requires files[j] in fs && LinesValues(key, fs[files[j]]).Err? ==>
      scanned == Err(LinesValues(key, fs[files[j]]).error)
    requires files[j] in fs && LinesValues(key, fs[files[j]]).Ok? ==>
      var ws := LinesValues(key, fs[files[j]]).value;
      scanned == Ok((Wrap32(count + Sum(ws)), results + Repeat(key + ": 1", |ws|)))
    ensures scanned.Err? ==> FilesValues(key, files, fs) == Err(scanned.error)
    ensures scanned.Ok? ==>
      && FilesValues(key, files[..j + 1], fs) == Ok(vals')
      && scanned.value.0 == Wrap32(Sum(vals'))
      && scanned.value.1 == Repeat(key + ": 1", |vals'|)
  {
    vals' := vals;
    FilesStep(key, files, j, vals, fs);
    if scanned.Err? {
      FilesValuesErrorSticks(key, files, j + 1, fs);
    } else {
      var ws := LinesValues(key, fs[files[j]]).value;
      FileStep(key + ": 1", vals, ws, count, results);
      vals' := vals + ws;
    }
  }

  /** The count and the `key: 1` lines after one more intermediate file. */
  lemma FileStep(line: string, vals: seq<int>, ws: seq<int>, count: int, results: seq<string>)
    requires count == Wrap32(Sum(vals)) && results == Repeat(line, |vals|)
    ensures Wrap32(count + Sum(ws)) == Wrap32(Sum(vals + ws))
    ensures results + Repeat(line, |ws|) == Repeat(line, |vals + ws|)
  {
    WrapAdd(Sum(vals), Sum(ws));
    SumAppend(vals, ws);
    RepeatAppend(line, |vals|, |ws|);
  }

  /** One more line contribution. */
  lemma CollectStep(lvs: seq<Result<Option<int>, Failure>>, j: nat, vs: seq<int>)
    requires j < |lvs| && Collect(lvs[..j]) == Ok(vs)
    ensures Collect(lvs[..j + 1]) ==
      match lvs[j]
      case Err(e) => Err(e)
      case Ok(None) => Ok(vs)
      case Ok(Some(v)) => Ok(vs + [v])
  {
    assert lvs[..j + 1][..j] == lvs[..j];
  }

  /** One more file of the list. */
  lemma FilesStep(key: string, files: seq<string>, i: nat, vs: seq<int>, fs: FileSystem)
    requires i < |files| && FilesValues(key, files[..i], fs) == Ok(vs)
    ensures FilesValues(key, files[..i + 1], fs) ==
      if files[i] !in fs then Err(IoError)
      else
        match LinesValues(key, fs[files[i]])
        case Err(e) => Err(e)
        case Ok(ws) => Ok(vs + ws)
  {
    assert files[..i + 1][..i] == files[..i];
  }

  /** Once a prefix of the lines raises an exception, so do all the lines. */
  lemma {:induction false} CollectErrorSticks(lvs: seq<Result<Option<int>, Failure>>, n: nat)
    requires n <= |lvs| && Collect(lvs[..n]).Err?
    ensures Collect(lvs) == Collect(lvs[..n])
    decreases |lvs|
  {
    if n < |lvs| {
      assert lvs[..|lvs| - 1][..n] == lvs[..n];
      CollectErrorSticks(lvs[..|lvs| - 1], n);
    } else {
      assert lvs[..n] == lvs;
    }
  }

  /** Once a prefix of the files raises an exception, so do all the files. */
  lemma {:induction false} FilesValuesErrorSticks(key: string, files: seq<string>, n: nat, fs: FileSystem)
    requires n <= |files| && FilesValues(key, files[..n], fs).Err?
    ensures FilesValues(key, files, fs) == FilesValues(key, files[..n], fs)
    decreases |files|
  {
    if n < |files| {
      assert files[..|files| - 1][..n] == files[..n];
      FilesValuesErrorSticks(key, files[..|files| - 1], n, fs);
    } else {
      assert files[..n] == files;
    }
  }
}
