/**
 * The log reader: file sources read line by line, then the audit output
 * fetched for the held checkpoint, whose first line becomes the checkpoint
 * when none is held yet.
 */
module Reader {
  import opened Wrappers
  import opened TextLines
  import opened Seqs

  /** A `LogRecord` built from one line; how it parses the line is not part of this model. */
  datatype LogRecord = LogRecord(line: string)

  /**
   * One `std::ifstream`: a file that could not be opened, or the file's
   * contents and the stream's read position.
   */
  datatype FileSource = Unopened | Opened(data: string, pos: nat)

  /** The read position lies within the file. */
  predicate WellPositioned(f: FileSource)
  {
    f.Opened? ==> f.pos <= |f.data|
  }

  /** Opening a source: None stands for a path that cannot be opened. */
  function Open(source: Option<string>): (f: FileSource)
    ensures WellPositioned(f)
    ensures source.None? <==> f.Unopened?
    ensures source.Some? ==> f == Opened(source.value, 0)
  {
    match source
    case None => Unopened
    case Some(data) => Opened(data, 0)
  }

  /** The lines a source still has to deliver (a position past the end, which never arises, leaves none). */
  function Pending(f: FileSource): seq<string>
  {
    match f
    case Unopened => []
    case Opened(data, pos) => if pos <= |data| then LinesFrom(data, pos) else []
  }

  /** The source once every pending line has been read. */
  function Drained(f: FileSource): (g: FileSource)
    ensures WellPositioned(g) && Pending(g) == []
    ensures g.Unopened? <==> f.Unopened?
  {
    match f
    case Unopened => Unopened
    case Opened(data, _) => Opened(data, |data|)
  }

  /**
   * The first `i` sources of `files` read to their end, the others as they
   * were: the state of the file list while `read_logs` walks it.
   */
  predicate DrainedUpTo(cur: seq<FileSource>, files: seq<FileSource>, i: nat)
  {
    && |cur| == |files| && i <= |files|
    && (forall k :: 0 <= k < i ==> cur[k] == Drained(files[k]))
    && (forall k :: i <= k < |cur| ==> cur[k] == files[k])
  }

  /** The records of the lines whose `LogRecord` is valid, in order. */
  function Keep(valid: string -> bool, lines: seq<string>): (rs: seq<LogRecord>)
    ensures |rs| <= |lines|
  {
    if lines == [] then [] else KeepOne(valid, lines[0]) + Keep(valid, lines[1..])
  }

  /** The record of one line, if it is valid. */
  function KeepOne(valid: string -> bool, line: string): (rs: seq<LogRecord>)
    ensures |rs| <= 1
  {
    if valid(line) then [LogRecord(line)] else []
  }

  /** Every source's read position lies within its file. */
  predicate AllWellPositioned(files: seq<FileSource>)
  {
    forall k :: 0 <= k < |files| ==> WellPositioned(files[k])
  }

  /** The records the file sources still hold, first source first. */
  function FileRecords(valid: string -> bool, files: seq<FileSource>): seq<LogRecord>
  {
    ConcatMap(SourceRecords(valid), files)
  }

  /** The records one source still holds. */
  function SourceRecords(valid: string -> bool): FileSource -> seq<LogRecord>
  {
    f => Keep(valid, Pending(f))
  }

  /** The checkpoint after one `append_audit_logs` call on `output`, and the lines left for records. */
  datatype AuditSplit = AuditSplit(checkpoint: string, lines: seq<string>)

  /**
   * Without a checkpoint the first output line is taken as the new one;
   * with one, every output line is a candidate record.
   */
  function SplitAudit(checkpoint: string, output: string): AuditSplit
  {
    var ls := Lines(output);
    if checkpoint != "" then AuditSplit(checkpoint, ls)
    else if ls == [] then AuditSplit("", [])
    else AuditSplit(ls[0], ls[1..])
  }

  /** The file sources in the order the constructor stores them: the last one listed first. */
  function Stored(sources: seq<Option<string>>): (fs: seq<FileSource>)
    ensures |fs| == |sources|
    ensures AllWellPositioned(fs)
  {
    if sources == [] then [] else [Open(sources[|sources| - 1])] + Stored(sources[..|sources| - 1])
  }

  /** The reader: its file streams and the audit checkpoint path. */
  class LogReader {
    /** `LogRecord::valid` on the record built from a line. */
    const valid: string -> bool
    var logFiles: seq<FileSource>
    var checkpoint: string

    ghost predicate Valid()
      reads this
    {
      AllWellPositioned(logFiles)
    }

    /** `emplace_front` for every source: the stored order is the reverse of the given one. */
    constructor (sources: seq<Option<string>>, valid: string -> bool)
      ensures Valid() && this.valid == valid
      ensures logFiles == Stored(sources)
      ensures checkpoint == ""
    {
      this.valid := valid;
      checkpoint := "";
      var files: seq<FileSource> := [];
      var i := 0;
      while i < |sources|
        invariant 0 <= i <= |sources|
        invariant files == Stored(sources[..i])
      {
        assert sources[..i + 1][..i] == sources[..i];
        files := [Open(sources[i])] + files;
        i := i + 1;
      }
      assert sources[..i] == sources;
      logFiles := files;
    }

    /**
     * The `getline` loop on one file stream: nothing when the file is not
     * open, otherwise the valid records of every pending line, leaving the
     * stream at the end of the file.
     */
    static method ReadFile(valid: string -> bool, f: FileSource) returns (records: seq<LogRecord>, g: FileSource)
      requires WellPositioned(f)
      ensures g == Drained(f)
      ensures records == Keep(valid, Pending(f))
    {
      records := [];
      g := f;
      if f.Unopened? {
        return;
      }
      var data, pos := f.data, f.pos;
      var end := pos;
      ghost var consumed: seq<string> := [];
      assert consumed + LinesFrom(data, end) == LinesFrom(data, pos);
      while true
        invariant pos <= end <= |data|
        invariant consumed + LinesFrom(data, end) == LinesFrom(data, pos)
        invariant records == Keep(valid, consumed)
        decreases |data| - end
      {
        var ok, line, next := ReadLineAt(data, end);
        if !ok {
          assert consumed == LinesFrom(data, pos);
          g := Opened(data, end);
          return;
        }
        ReadOneLine(valid, data, pos, end, consumed, line, next);
        if valid(line) {
          records := records + [LogRecord(line)];
        }
        consumed := consumed + [line];
        end := next;
      }
    }

    /**
     * `read_logs`: the records of every file source, first stored source
     * first, then the audit records; every file is left at its end.
     */
    method ReadLogs(getLogs: string -> string) returns (logs: seq<LogRecord>)
      requires Valid()
      modifies this
      ensures Valid()
      ensures var audit := SplitAudit(old(checkpoint), getLogs(old(checkpoint)));
        && logs == FileRecords(valid, old(logFiles)) + Keep(valid, audit.lines)
        && checkpoint == audit.checkpoint
      ensures DrainedUpTo(logFiles, old(logFiles), |logFiles|)
    {
      ghost var files := logFiles;
      logs := [];
      var i := 0;
      while i < |logFiles|
        invariant i <= |files| && AllWellPositioned(files)
        invariant DrainedUpTo(logFiles, files, i)
        invariant checkpoint == old(checkpoint)
        invariant logs == FileRecords(valid, files[..i])
      {
        FileRecordsPrefix(valid, files, i);
        var records, drained := ReadFile(valid, logFiles[i]);
        logs := logs + records;
        DrainOne(logFiles, files, i);
        logFiles := logFiles[i := drained];
        i := i + 1;
      }
      assert files[..i] == files;
      DrainedUpToValid(logFiles, files);
      logs := AppendAuditLogs(logs, getLogs);
    }

    /**
     * `append_audit_logs`: fetches the audit output for the held checkpoint,
     * takes its first line as the checkpoint when none is held, and appends
     * the valid records of the remaining lines.
     */
    method AppendAuditLogs(logList: seq<LogRecord>, getLogs: string -> string) returns (result: seq<LogRecord>)
      modifies this
      ensures logFiles == old(logFiles)
      ensures var audit := SplitAudit(old(checkpoint), getLogs(old(checkpoint)));
        && result == logList + Keep(valid, audit.lines)
        && checkpoint == audit.checkpoint
    {
      var output := getLogs(checkpoint);
      var stream := new LineStream(output);
      ghost var audit := SplitAudit(checkpoint, output);
      if checkpoint == "" {
        var ok;
        ok, checkpoint := stream.ReadLine();
      }
      assert stream.pending == audit.lines;
      var records := ReadStream(valid, stream);
      result := logList + records;
    }

    /** The `getline` loop over the audit output: the valid records of every line still in the stream. */
    static method ReadStream(valid: string -> bool, stream: LineStream) returns (records: seq<LogRecord>)
      modifies stream
      ensures records == Keep(valid, old(stream.pending))
      ensures stream.pending == []
    {
      records := [];
      ghost var consumed: seq<string> := [];
      while true
        invariant consumed + stream.pending == old(stream.pending)
        invariant records == Keep(valid, consumed)
        decreases |stream.pending|
      {
        ghost var pending := stream.pending;
        var ok, line := stream.ReadLine();
        if !ok {
          assert consumed == old(stream.pending);
          return;
        }
        TakeOneLine(valid, consumed, pending);
        if valid(line) {
          records := records + [LogRecord(line)];
        }
        consumed := consumed + [line];
      }
    }
  }

  // ---- Properties ----

  /** The stored order is the given order reversed: the last source listed comes first. */
  lemma {:induction false} StoredReversed(sources: seq<Option<string>>)
    ensures forall k :: 0 <= k < |sources| ==> Stored(sources)[k] == Open(sources[|sources| - 1 - k])
    decreases |sources|
  {
    if sources != [] {
      var n := |sources|;
      var init := sources[..n - 1];
      StoredReversed(init);
      var stored := Stored(sources);
      assert stored == [Open(sources[n - 1])] + Stored(init);
      forall k | 0 <= k < n
        ensures stored[k] == Open(sources[n - 1 - k])
      {
        if k > 0 {
          assert stored[k] == Stored(init)[k - 1];
          assert init[n - 2 - (k - 1)] == sources[n - 1 - k];
        }
      }
    }
  }

  /** Filtering commutes with concatenation: each part keeps its own order. */
  lemma {:induction false} KeepAppend(valid: string -> bool, a: seq<string>, b: seq<string>)
    ensures Keep(valid, a + b) == Keep(valid, a) + Keep(valid, b)
    decreases |a|
  {
    if a == [] {
      assert a + b == b;
    } else {
      var head := KeepOne(valid, a[0]);
      assert (a + b)[0] == a[0] && (a + b)[1..] == a[1..] + b;
      assert Keep(valid, a + b) == head + Keep(valid, a[1..] + b);
      KeepAppend(valid, a[1..], b);
      Associative(head, Keep(valid, a[1..]), Keep(valid, b));
    }
  }

  lemma KeepSnoc(valid: string -> bool, lines: seq<string>, line: string)
    ensures Keep(valid, lines + [line]) == Keep(valid, lines) + KeepOne(valid, line)
  {
    KeepAppend(valid, lines, [line]);
    assert Keep(valid, [line]) == KeepOne(valid, line) + Keep(valid, []);
  }

  /** One successful `getline` on a file: the line joins those consumed, and its record those kept. */
  lemma ReadOneLine(valid: string -> bool, data: string, pos: nat, end: nat, consumed: seq<string>, line: string, next: nat)
    requires pos <= end <= |data|
    requires consumed + LinesFrom(data, end) == LinesFrom(data, pos)
    requires GetLine(data, end) == Some((line, next))
    ensures end < next <= |data|
    ensures (consumed + [line]) + LinesFrom(data, next) == LinesFrom(data, pos)
    ensures Keep(valid, consumed + [line]) == Keep(valid, consumed) + KeepOne(valid, line)
  {
    assert LinesFrom(data, end) == [line] + LinesFrom(data, next);
    Associative(consumed, [line], LinesFrom(data, next));
    KeepSnoc(valid, consumed, line);
  }

  /** One successful `getline` on a string stream: the line joins those consumed, and its record those kept. */
  lemma TakeOneLine(valid: string -> bool, consumed: seq<string>, pending: seq<string>)
    requires pending != []
    ensures (consumed + [pending[0]]) + pending[1..] == consumed + pending
    ensures Keep(valid, consumed + [pending[0]]) == Keep(valid, consumed) + KeepOne(valid, pending[0])
  {
    assert pending == [pending[0]] + pending[1..];
    Associative(consumed, [pending[0]], pending[1..]);
    KeepSnoc(valid, consumed, pending[0]);
  }

  /** A record is kept exactly when its line is one of the lines and is valid. */
  lemma {:induction false} KeepExactlyValid(valid: string -> bool, lines: seq<string>, r: LogRecord)
    ensures r in Keep(valid, lines) <==> r.line in lines && valid(r.line)
    decreases |lines|
  {
    if lines != [] {
      KeepExactlyValid(valid, lines[1..], r);
      assert lines == [lines[0]] + lines[1..];
    }
  }

  /** The records of a run of files are those of each file, in the stored order. */
  lemma FileRecordsAppend(valid: string -> bool, xs: seq<FileSource>, ys: seq<FileSource>)
    ensures FileRecords(valid, xs + ys) == FileRecords(valid, xs) + FileRecords(valid, ys)
  {
    ConcatMapAppend(SourceRecords(valid), xs, ys);
  }

  /** The records of a file put in front of a run come first. */
  lemma FileRecordsCons(valid: string -> bool, f: FileSource, rest: seq<FileSource>)
    ensures FileRecords(valid, [f] + rest) == Keep(valid, Pending(f)) + FileRecords(valid, rest)
  {
    var all := [f] + rest;
    assert all[0] == f && all[1..] == rest;
  }

  /** One more file's records come after those already read. */
  lemma FileRecordsSnoc(valid: string -> bool, xs: seq<FileSource>, f: FileSource)
    ensures FileRecords(valid, xs + [f]) == FileRecords(valid, xs) + Keep(valid, Pending(f))
  {
    FileRecordsAppend(valid, xs, [f]);
    FileRecordsCons(valid, f, []);
    assert [f] + [] == [f];
  }

  /** Reading source `i` to its end moves the walk one source on. */
  lemma DrainOne(cur: seq<FileSource>, files: seq<FileSource>, i: nat)
    requires DrainedUpTo(cur, files, i) && i < |files|
    ensures DrainedUpTo(cur[i := Drained(files[i])], files, i + 1)
  {
  }

  /** Once every source is read, every position is in range again. */
  lemma DrainedUpToValid(cur: seq<FileSource>, files: seq<FileSource>)
    requires DrainedUpTo(cur, files, |files|)
    ensures AllWellPositioned(cur)
  {
    forall k | 0 <= k < |cur|
      ensures WellPositioned(cur[k])
    {
      assert cur[k] == Drained(files[k]);
    }
  }

  /** The records of the first `i + 1` sources: those of the first `i`, then those of source `i`. */
  lemma FileRecordsPrefix(valid: string -> bool, files: seq<FileSource>, i: nat)
    requires i < |files|
    ensures FileRecords(valid, files[..i + 1]) == FileRecords(valid, files[..i]) + Keep(valid, Pending(files[i]))
  {
    assert files[..i + 1] == files[..i] + [files[i]];
    FileRecordsSnoc(valid, files[..i], files[i]);
  }

  /**
   * A fresh reader reads the last source listed first: its file records
   * are those of the last source, then those of the sources before it.
   */
  lemma LastSourceReadFirst(valid: string -> bool, sources: seq<Option<string>>, source: Option<string>)
    ensures FileRecords(valid, Stored(sources + [source]))
         == Keep(valid, Pending(Open(source))) + FileRecords(valid, Stored(sources))
  {
    var all := sources + [source];
    assert all[..|all| - 1] == sources;
    FileRecordsAppend(valid, [Open(source)], Stored(sources));
    assert [Open(source)][..0] == [];
  }

  /** A freshly opened file has every one of its lines still to deliver. */
  lemma OpenedDeliversAll(data: string)
    ensures Pending(Open(Some(data))) == Lines(data)
  {
  }

  /** A source that could not be opened contributes nothing. */
  lemma UnopenedGivesNothing(valid: string -> bool)
    ensures Keep(valid, Pending(Unopened)) == []
  {
  }

  /** Once read, a file delivers nothing more: file lines are delivered at most once. */
  lemma {:induction false} DrainedFilesGiveNothing(valid: string -> bool, files: seq<FileSource>)
    requires forall k :: 0 <= k < |files| ==> files[k] == Drained(files[k])
    ensures AllWellPositioned(files) && FileRecords(valid, files) == []
    decreases |files|
  {
    if files != [] {
      assert files[0] == Drained(files[0]);
      DrainedFilesGiveNothing(valid, files[1..]);
    }
  }

  /**
   * After `read_logs` every file stands at its end, so the next call gets
   * no file records: each file line is delivered at most once.
   */
  lemma NextReadGetsNoFileRecords(valid: string -> bool, cur: seq<FileSource>, files: seq<FileSource>)
    requires DrainedUpTo(cur, files, |files|)
    ensures AllWellPositioned(cur) && FileRecords(valid, cur) == []
  {
    forall k | 0 <= k < |cur|
      ensures cur[k] == Drained(cur[k])
    {
      assert cur[k] == Drained(files[k]);
    }
    DrainedFilesGiveNothing(valid, cur);
  }

  /** Without a checkpoint, the first output line becomes the checkpoint and is never a record. */
  lemma FirstLineBecomesCheckpoint(first: string, rest: string)
    requires '\n' !in first
    ensures SplitAudit("", first + "\n" + rest) == AuditSplit(first, Lines(rest))
    ensures first != "" ==> SplitAudit("", first) == AuditSplit(first, [])
  {
    LinesCons(first, rest);
    if first != "" {
      LinesSingle(first);
    }
  }

  /** A held checkpoint is kept and passed on; every output line is a candidate record. */
  lemma CheckpointKept(checkpoint: string, output: string)
    requires checkpoint != ""
    ensures SplitAudit(checkpoint, output).checkpoint == checkpoint
    ensures SplitAudit(checkpoint, output).lines == Lines(output)
  {
  }

  /** Once a non-empty checkpoint is taken, later calls never replace it. */
  lemma CheckpointNeverOverwritten(output1: string, output2: string)
    requires SplitAudit("", output1).checkpoint != ""
    ensures SplitAudit(SplitAudit("", output1).checkpoint, output2).checkpoint
         == SplitAudit("", output1).checkpoint
  {
  }

  /** No checkpoint and no output: still no checkpoint, and nothing appended. */
  lemma EmptyOutputChangesNothing()
    ensures SplitAudit("", "") == AuditSplit("", [])
  {
  }

  /** An empty first output line leaves the checkpoint unset, so the next call consumes a line again. */
  lemma EmptyFirstLineKeepsCheckpointUnset(rest: string)
    ensures SplitAudit("", "\n" + rest) == AuditSplit("", Lines(rest))
  {
    LinesCons("", rest);
    assert "" + "\n" + rest == "\n" + rest;
  }
}
