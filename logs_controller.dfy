/**
 * The logs tab controller: turns a block of newline-separated JSON entries
 * into adapter rows, at most 127 lines per idle-time call, refreshing the
 * visible-row label after every call that does not fail.
 */
module Controller {
  import opened Wrappers
  import opened StdConv
  import opened TextLines
  import opened LogEntry
  import opened IdleLoop
  import opened Seqs

  /** Lines handled by one call of the batch step. */
  const BatchSize: nat := 127

  /** `unsigned int` holds the visible-row count: values are taken modulo 2^32. */
  const UIntModulus: nat := 0x1_0000_0000

  /** The JSON reader (JsonCpp), seen as a partial map from a line to an entry. */
  type JsonParser = string -> Option<Entry>

  /** Why ingestion stopped: a line that is not JSON (invalid_argument), or a failed number conversion. */
  datatype Failure = InvalidJson | Conversion(error: ConvError)

  /** `parseFromStream` on one line; an empty document is a syntax error. */
  function ParseLine(json: JsonParser, line: string): (r: Option<Entry>)
    ensures line == "" ==> r.None?
    ensures line != "" ==> r == json(line)
  {
    if line == "" then None else json(line)
  }

  /** The status label `refresh` writes for a visible-row count. */
  function RefreshLabel(count: nat): (text: string)
    ensures |text| > 6 && text[0] == ' '
  {
    " " + ToDecimal(count % UIntModulus) + " logs"
  }

  // ---- One line of input ----

  /** One line to one row: parse it as JSON, then map the entry. */
  function DecodeLine(json: JsonParser, line: string): (r: Result<Row, Failure>)
    ensures r == Err(InvalidJson) <==> ParseLine(json, line).None?
    ensures r.Ok? ==> RowFromEntry(ParseLine(json, line).value) == Ok(r.value)
    ensures r.Err? && r != Err(InvalidJson) ==> RowFromEntry(ParseLine(json, line).value) == Err(r.error.error)
  {
    match ParseLine(json, line)
    case None => Err(InvalidJson)
    case Some(entry) =>
      match RowFromEntry(entry)
      case Err(error) => Err(Conversion(error))
      case Ok(row) => Ok(row)
  }

  // ---- The idle loop at 127 lines per call ----

  /** With 127-line batches, `c` batches are the ones that just cover `n` lines exactly when `c == n / 127 + 1`. */
  lemma CallsCoverLines(n: nat, c: nat)
    ensures (c - 1) * BatchSize <= n < c * BatchSize <==> c == n / BatchSize + 1
  {
  }

  /** 254 well-formed lines take three calls: 127, 127, then one that finds the input exhausted. */
  lemma TwoFullBatches(decode: Decoder<Row, Failure>, show: seq<Row> -> string, rows: seq<Row>, lines: seq<string>)
    requires |lines| == 254 && AllDecode(decode, lines)
    ensures Drive(decode, show, BatchSize, rows, lines).calls == 3
    ensures |Drive(decode, show, BatchSize, rows, lines).labels| == 3
    ensures var first := Step(decode, lines, BatchSize);
      first.outcome == Again && |first.rows| == BatchSize
    ensures var second := Step(decode, lines[BatchSize..], BatchSize);
      second.outcome == Again && |second.rows| == BatchSize
    ensures Step(decode, lines[2 * BatchSize..], BatchSize) == StepResult([], 0, Done)
  {
    DriveWellFormed(decode, show, BatchSize, rows, lines);
    StepFullBatch(decode, lines, BatchSize);
    var tail := lines[BatchSize..];
    StepFullBatch(decode, tail, BatchSize);
    assert tail[BatchSize..] == lines[2 * BatchSize..] == [];
    StepHead(decode, lines[2 * BatchSize..], BatchSize);
  }

  /** The label holds the count `std::to_string` printed, taken modulo 2^32, and `std::stol` reads it back. */
  lemma RefreshLabelReadsBack(count: nat)
    ensures Stol(RefreshLabel(count)) == Ok(count % UIntModulus)
  {
    ScanDecimal(" ", count % UIntModulus, " logs");
  }

  /** An empty line, such as the one between two '\n' in a row, is not JSON and stops ingestion. */
  lemma EmptyLineThrows(json: JsonParser)
    ensures DecodeLine(json, "") == Err(InvalidJson)
  {
  }

  /** The controller: what the adapter has received and the labels the tab has shown. */
  class LogsController {
    const json: JsonParser
    /** The line pipeline of the step: `json` to parse, then `add_row_from_json`'s mapping. */
    const decode: Decoder<Row, Failure>
    /** `adapter->get_col_record()->filter_rows()`: visible rows for the adapter's content. */
    const visibleCount: seq<Row> -> nat
    /** What `refresh` shows for the adapter's content. */
    const show: seq<Row> -> string
    /** The `put_data` calls the adapter has received, in order. */
    var rows: seq<Row>
    /** The texts `set_status_label_text` has been given, in order. */
    var labels: seq<string>

    /**
     * `decode` is the composition of the parser and the row mapping, and
     * `show` the refresh label of the visible-row count.
     */
    ghost predicate Decodes()
    {
      && (forall line {:trigger DecodeLine(json, line)} :: decode(line) == DecodeLine(json, line))
      && (forall content {:trigger show(content)} :: show(content) == RefreshLabel(visibleCount(content)))
    }

    constructor (json: JsonParser, visibleCount: seq<Row> -> nat)
      ensures this.json == json && this.visibleCount == visibleCount && Decodes()
      ensures rows == [] && labels == []
    {
      this.json := json;
      this.decode := line => DecodeLine(json, line);
      this.visibleCount := visibleCount;
      this.show := content => RefreshLabel(visibleCount(content));
      rows := [];
      labels := [];
    }

    /** `refresh`: show the current visible-row count. */
    method Refresh()
      modifies this
      ensures rows == old(rows)
      ensures labels == old(labels) + [RefreshLabel(visibleCount(rows))]
    {
      var visible := visibleCount(rows) % UIntModulus;
      labels := labels + [" " + ToDecimal(visible) + " logs"];
    }

    /** `add_row_from_json`: exactly one `put_data` call, unless a conversion throws. */
    method AddRowFromJson(entry: Entry) returns (failure: Option<ConvError>)
      modifies this
      ensures labels == old(labels)
      ensures RowFromEntry(entry).Ok? ==> rows == old(rows) + [RowFromEntry(entry).value] && failure == None
      ensures RowFromEntry(entry).Err? ==> rows == old(rows) && failure == Some(RowFromEntry(entry).error)
    {
      match RowFromEntry(entry)
      case Ok(row) =>
        rows := rows + [row];
        failure := None;
      case Err(error) =>
        failure := Some(error);
    }

    /** One iteration of the helper's loop: read a line, parse it, add its row. */
    method ConsumeLine(stream: LineStream) returns (ok: bool, failure: Option<Failure>)
      requires Decodes()
      modifies this, stream
      ensures labels == old(labels)
      ensures ok <==> old(stream.pending) != []
      ensures !ok ==> rows == old(rows) && failure == None && stream.pending == []
      ensures ok ==> stream.pending == old(stream.pending)[1..]
      ensures ok ==> var r := decode(old(stream.pending)[0]);
        && (r.Ok? ==> rows == old(rows) + [r.value] && failure == None)
        && (r.Err? ==> rows == old(rows) && failure == Some(r.error))
    {
      var line;
      ok, line := stream.ReadLine();
      failure := None;
      if ok {
        assert decode(line) == DecodeLine(json, line);
        var entry := ParseLine(json, line);
        if entry.None? {
          failure := Some(InvalidJson);
        } else {
          var error := AddRowFromJson(entry.value);
          if error.Some? {
            failure := Some(Conversion(error.value));
          }
        }
      }
    }

    /**
     * `add_data_to_record_helper`: up to 127 lines from the shared stream,
     * then one refresh; the result says whether to be called again.
     */
    method AddDataToRecordHelper(stream: LineStream) returns (outcome: StepOutcome<Failure>)
      requires Decodes()
      modifies this, stream
      ensures var s := Step(decode, old(stream.pending), BatchSize);
        && outcome == s.outcome
        && rows == old(rows) + s.rows
        && stream.pending == old(stream.pending)[s.consumed..]
        && labels == old(labels) + (if s.outcome.Threw? then [] else [RefreshLabel(visibleCount(rows))])
    {
      ghost var lines := stream.pending;
      ghost var done: seq<Row> := [];
      var i := 0;
      assert lines[0..] == lines;
      PrefixedNothing(Step(decode, lines, BatchSize));
      outcome := Again;
      while i < BatchSize
        invariant 0 <= i <= BatchSize && i <= |lines|
        invariant stream.pending == lines[i..]
        invariant labels == old(labels)
        invariant rows == old(rows) + done
        invariant Step(decode, lines, BatchSize) == Prefixed(done, i, Step(decode, lines[i..], BatchSize - i))
      {
        ghost var rest := lines[i..];
        StepHead(decode, rest, BatchSize - i);
        var ok, failure := ConsumeLine(stream);
        if !ok {
          outcome := Done;
          break;
        }
        if failure.Some? {
          return Threw(failure.value);
        }
        var row := decode(rest[0]).value;
        assert rest[1..] == lines[i + 1..];
        PrefixedCons(done, i, row, Step(decode, lines[i + 1..], BatchSize - i - 1));
        done := done + [row];
        i := i + 1;
      }
      Refresh();
    }

    /**
     * One idle-time call of the step, seen from the idle loop: what it adds
     * and what of the loop is left.
     */
    method Pump(stream: LineStream, ghost g: Ingestion<Row, Failure>) returns (outcome: StepOutcome<Failure>, ghost rest: Ingestion<Row, Failure>)
      requires Decodes()
      requires g == Drive(decode, show, BatchSize, rows, stream.pending)
      modifies this, stream
      ensures |stream.pending| <= |old(stream.pending)|
      ensures rest == Drive(decode, show, BatchSize, rows, stream.pending)
      ensures var caption := show(rows);
        match outcome
        case Threw(f) => g == Ingestion(rows, [], 1, Some(f)) && labels == old(labels)
        case Done => g == Ingestion(rows, [caption], 1, None) && labels == old(labels) + [caption]
        case Again =>
          (g == Resumed([caption], 1, rest)
           && labels == old(labels) + [caption] && |stream.pending| < |old(stream.pending)|)
    {
      DriveUnfold(decode, show, BatchSize, rows, stream.pending);
      outcome := AddDataToRecordHelper(stream);
      rest := Drive(decode, show, BatchSize, rows, stream.pending);
    }

    /**
     * `add_data_to_record` with the idle scheduling replaced by a loop that
     * calls the step until it returns false or throws.
     */
    method AddDataToRecord(data: string) returns (calls: nat, failure: Option<Failure>)
      requires Decodes()
      modifies this
      ensures var g := Drive(decode, show, BatchSize, old(rows), Lines(data));
        && rows == g.rows
        && labels == old(labels) + g.labels
        && calls == g.calls
        && failure == g.failure
    {
      var stream := new LineStream(data);
      ghost var target := Drive(decode, show, BatchSize, rows, stream.pending);
      ghost var rest := target;
      ghost var shown: seq<string> := [];
      var outcome := Again;
      calls := 0;
      assert target == Resumed(shown, calls, rest);
      while outcome == Again
        invariant labels == old(labels) + shown
        invariant outcome == Again ==> rest == Drive(decode, show, BatchSize, rows, stream.pending)
        invariant outcome == Again ==> target == Resumed(shown, calls, rest)
        invariant outcome == Done ==> target == Ingestion(rows, shown, calls, None)
        invariant outcome.Threw? ==> target == Ingestion(rows, shown, calls, Some(outcome.failure))
        decreases |stream.pending|, if outcome == Again then 1 else 0
      {
        ghost var g := rest;
        outcome, rest := Pump(stream, g);
        ghost var caption := show(rows);
        if outcome.Again? {
          ResumedTwice(shown, calls, [caption], 1, rest);
        }
        if !outcome.Threw? {
          Associative(old(labels), shown, [caption]);
          shown := shown + [caption];
        }
        calls := calls + 1;
      }
      failure := if outcome.Threw? then Some(outcome.failure) else None;
    }
  }
}
