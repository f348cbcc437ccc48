/**
 * The batch step of the logs controller and the idle loop that drives it,
 * over any row type `R` and failure type `F`: the step reads up to
 * `budget` lines, turns each into a row or a failure, and tells the loop
 * whether to call it again.
 */
module IdleLoop {
  import opened Wrappers
  import opened Seqs

  datatype StepOutcome<F> = Again | Done | Threw(failure: F)

  /** Rows sent to the adapter, lines consumed from the stream, and the outcome. */
  datatype StepResult<R, F> = StepResult(rows: seq<R>, consumed: nat, outcome: StepOutcome<F>)

  /** What happens to one line: the row it yields, or why the step throws on it. */
  type Decoder<R, F> = string -> Result<R, F>

  /** One call of `add_data_to_record_helper` with `budget` iterations left. */
  function Step<R, F>(decode: Decoder<R, F>, lines: seq<string>, budget: nat): (s: StepResult<R, F>)
    ensures s.consumed <= |lines|
    ensures s.outcome == Again ==> s.consumed == budget
    decreases budget
  {
    if budget == 0 then StepResult([], 0, Again)
    else if lines == [] then StepResult([], 0, Done)
    else
      match decode(lines[0])
      case Err(failure) => StepResult([], 1, Threw(failure))
      case Ok(row) =>
        var rest := Step(decode, lines[1..], budget - 1);
        StepResult([row] + rest.rows, 1 + rest.consumed, rest.outcome)
  }

  /** A step result preceded by `done` rows already sent and `n` lines already consumed. */
  function Prefixed<R, F>(done: seq<R>, n: nat, s: StepResult<R, F>): (p: StepResult<R, F>)
    ensures p.outcome == s.outcome
  {
    StepResult(done + s.rows, n + s.consumed, s.outcome)
  }

  lemma PrefixedNothing<R, F>(s: StepResult<R, F>)
    ensures Prefixed([], 0, s) == s
  {
    assert [] + s.rows == s.rows;
  }

  lemma PrefixedCons<R, F>(done: seq<R>, n: nat, row: R, s: StepResult<R, F>)
    ensures Prefixed(done, n, StepResult([row] + s.rows, 1 + s.consumed, s.outcome))
         == Prefixed(done + [row], n + 1, s)
  {
    assert done + ([row] + s.rows) == (done + [row]) + s.rows;
  }

  /** The step's first iteration, by cases on the next line. */
  lemma StepHead<R, F>(decode: Decoder<R, F>, lines: seq<string>, budget: nat)
    requires budget > 0
    ensures lines == [] ==> Step(decode, lines, budget) == StepResult([], 0, Done)
    ensures lines != [] && decode(lines[0]).Err? ==>
      Step(decode, lines, budget) == StepResult([], 1, Threw(decode(lines[0]).error))
    ensures lines != [] && decode(lines[0]).Ok? ==>
      Step(decode, lines, budget) == Prefixed([decode(lines[0]).value], 1, Step(decode, lines[1..], budget - 1))
  {
  }

  /** Everything the idle loop produces: rows, labels, number of calls, and the failure if any. */
  datatype Ingestion<R, F> = Ingestion(rows: seq<R>, labels: seq<string>, calls: nat, failure: Option<F>)

  /** An ingestion preceded by `shown` labels and `calls` calls already made. */
  function Resumed<R, F>(shown: seq<string>, calls: nat, g: Ingestion<R, F>): (h: Ingestion<R, F>)
    ensures h.rows == g.rows && h.failure == g.failure
  {
    Ingestion(g.rows, shown + g.labels, calls + g.calls, g.failure)
  }

  lemma ResumedTwice<R, F>(shown: seq<string>, calls: nat, more: seq<string>, n: nat, g: Ingestion<R, F>)
    ensures Resumed(shown, calls, Resumed(more, n, g)) == Resumed(shown + more, calls + n, g)
  {
    assert shown + (more + g.labels) == (shown + more) + g.labels;
  }

  /**
   * The idle loop: call the step until it returns false or throws. `rows`
   * is what the adapter already holds; `show` is the label `refresh` writes
   * for a given content of the adapter; `batch` is the step's iteration budget
   * (`BatchSize` in the controller).
   */
  function Drive<R, F>(decode: Decoder<R, F>, show: seq<R> -> string, batch: nat, rows: seq<R>, lines: seq<string>): (g: Ingestion<R, F>)
    requires batch > 0
    decreases |lines|
  {
    var s := Step(decode, lines, batch);
    var now := rows + s.rows;
    match s.outcome
    case Threw(failure) => Ingestion(now, [], 1, Some(failure))
    case Done => Ingestion(now, [show(now)], 1, None)
    case Again =>
      var rest := Drive(decode, show, batch, now, lines[s.consumed..]);
      Resumed([show(now)], 1, rest)
  }

  /** One call of the step, then the rest of the idle loop. */
  lemma DriveUnfold<R, F>(decode: Decoder<R, F>, show: seq<R> -> string, batch: nat, rows: seq<R>, lines: seq<string>)
    requires batch > 0
    ensures var s := Step(decode, lines, batch);
      var now := rows + s.rows;
      var g := Drive(decode, show, batch, rows, lines);
      match s.outcome
      case Threw(f) => g == Ingestion(now, [], 1, Some(f))
      case Done => g == Ingestion(now, [show(now)], 1, None)
      case Again => g == Resumed([show(now)], 1, Drive(decode, show, batch, now, lines[s.consumed..]))
  {
  }

  // ---- Properties of the step and of the idle loop ----

  /** Every line in `lines` yields a row. */
  predicate AllDecode<R, F>(decode: Decoder<R, F>, lines: seq<string>)
  {
    forall k :: 0 <= k < |lines| ==> decode(lines[k]).Ok?
  }

  /** The rows of lines that all yield one, in order. */
  function DecodeAll<R, F>(decode: Decoder<R, F>, lines: seq<string>): (rows: seq<R>)
    requires AllDecode(decode, lines)
    ensures |rows| == |lines|
    ensures forall k :: 0 <= k < |lines| ==> decode(lines[k]) == Ok(rows[k])
  {
    if lines == [] then [] else [decode(lines[0]).value] + DecodeAll(decode, lines[1..])
  }

  lemma DecodeAllPrefix<R, F>(decode: Decoder<R, F>, lines: seq<string>, n: nat, rows: seq<R>)
    requires n <= |lines| && AllDecode(decode, lines[..n])
    requires |rows| == n && forall k :: 0 <= k < n ==> decode(lines[k]) == Ok(rows[k])
    ensures DecodeAll(decode, lines[..n]) == rows
  {
  }

  /**
   * What one step does: the rows it sends are those of the lines it read,
   * in order, up to the first line that fails; it stops at that line, at
   * the end of the input, or after `budget` lines.
   */
  lemma {:induction false} StepSpec<R, F>(decode: Decoder<R, F>, lines: seq<string>, budget: nat)
    ensures var s := Step(decode, lines, budget);
      && s.consumed <= budget && |s.rows| <= s.consumed
      && (forall k :: 0 <= k < |s.rows| ==> decode(lines[k]) == Ok(s.rows[k]))
      && (s.outcome.Threw? ==>
            (1 <= s.consumed && |s.rows| == s.consumed - 1
             && decode(lines[s.consumed - 1]) == Err(s.outcome.failure)))
      && (s.outcome == Done ==> |s.rows| == s.consumed == |lines| < budget)
      && (s.outcome == Again ==> |s.rows| == s.consumed == budget <= |lines|)
    decreases budget
  {
    if budget > 0 && lines != [] && decode(lines[0]).Ok? {
      StepSpec(decode, lines[1..], budget - 1);
      var rest := Step(decode, lines[1..], budget - 1);
      var s := Step(decode, lines, budget);
      assert s.rows == [decode(lines[0]).value] + rest.rows;
      forall k | 0 <= k < |s.rows|
        ensures decode(lines[k]) == Ok(s.rows[k])
      {
        if k > 0 {
          assert s.rows[k] == rest.rows[k - 1];
          assert lines[k] == lines[1..][k - 1];
        }
      }
      if s.outcome.Threw? {
        assert lines[s.consumed - 1] == lines[1..][rest.consumed - 1];
      }
    }
  }

  /** The idle loop makes at least one call, refreshes after each call that does not throw, and only adds rows. */
  lemma {:induction false} DriveShape<R, F>(decode: Decoder<R, F>, show: seq<R> -> string, batch: nat, rows: seq<R>, lines: seq<string>)
    requires batch > 0
    ensures var g := Drive(decode, show, batch, rows, lines);
      && g.calls >= 1
      && |g.labels| == (if g.failure.None? then g.calls else g.calls - 1)
      && |g.rows| >= |rows| && g.rows[..|rows|] == rows
    decreases |lines|
  {
    var s := Step(decode, lines, batch);
    var now := rows + s.rows;
    if s.outcome == Again {
      DriveShape(decode, show, batch, now, lines[s.consumed..]);
      var rest := Drive(decode, show, batch, now, lines[s.consumed..]);
      assert rest.rows[..|now|][..|rows|] == rest.rows[..|rows|];
    }
  }

  /** When the idle loop ends without a failure, its last label shows every row the adapter then holds. */
  lemma {:induction false} DriveLastLabel<R, F>(decode: Decoder<R, F>, show: seq<R> -> string, batch: nat, rows: seq<R>, lines: seq<string>)
    requires batch > 0 && Drive(decode, show, batch, rows, lines).failure == None
    ensures var g := Drive(decode, show, batch, rows, lines);
      g.labels != [] && g.labels[|g.labels| - 1] == show(g.rows)
    decreases |lines|
  {
    var s := Step(decode, lines, batch);
    DriveUnfold(decode, show, batch, rows, lines);
    if s.outcome == Again {
      DriveLastLabel(decode, show, batch, rows + s.rows, lines[s.consumed..]);
    }
  }

  lemma {:induction false} DecodeAllSplit<R, F>(decode: Decoder<R, F>, lines: seq<string>, n: nat)
    requires n <= |lines| && AllDecode(decode, lines)
    ensures AllDecode(decode, lines[..n]) && AllDecode(decode, lines[n..])
    ensures DecodeAll(decode, lines) == DecodeAll(decode, lines[..n]) + DecodeAll(decode, lines[n..])
  {
    assert forall k :: 0 <= k < n ==> lines[..n][k] == lines[k];
    assert forall k :: 0 <= k < |lines| - n ==> lines[n..][k] == lines[n + k];
    var a := DecodeAll(decode, lines[..n]);
    var b := DecodeAll(decode, lines[n..]);
    var all := DecodeAll(decode, lines);
    forall k | 0 <= k < |lines|
      ensures all[k] == (a + b)[k]
    {
      if k < n {
        assert lines[..n][k] == lines[k];
        assert decode(lines[k]) == Ok(a[k]);
      } else {
        assert lines[n..][k - n] == lines[k];
        assert decode(lines[k]) == Ok(b[k - n]);
      }
    }
    assert all == a + b;
  }

  /** On well-formed input a step reads a full budget, or finishes when fewer lines are left. */
  lemma StepWellFormed<R, F>(decode: Decoder<R, F>, lines: seq<string>, budget: nat)
    requires AllDecode(decode, lines)
    ensures var s := Step(decode, lines, budget);
      && (|lines| < budget ==> s.outcome == Done && s.rows == DecodeAll(decode, lines))
      && (|lines| >= budget ==>
            (s.outcome == Again && s.consumed == budget && AllDecode(decode, lines[..budget])
             && s.rows == DecodeAll(decode, lines[..budget])))
  {
    var s := Step(decode, lines, budget);
    StepSpec(decode, lines, budget);
    DecodeAllPrefix(decode, lines, s.consumed, s.rows);
    assert lines[..|lines|] == lines;
  }

  /** A full batch of well-formed lines: the step sends a row for each and asks to run again; the rest is well-formed too. */
  lemma StepFullBatch<R, F>(decode: Decoder<R, F>, lines: seq<string>, batch: nat)
    requires batch <= |lines| && AllDecode(decode, lines)
    ensures Step(decode, lines, batch).outcome == Again && |Step(decode, lines, batch).rows| == batch
    ensures AllDecode(decode, lines[batch..])
  {
    StepWellFormed(decode, lines, batch);
    DecodeAllSplit(decode, lines, batch);
  }

  /** One more batch in front of `n` lines that `c` batches just cover: `c + 1` batches just cover them all. */
  lemma MoreBatches(c: nat, batch: nat, n: nat)
    requires c >= 1 && (c - 1) * batch <= n < c * batch
    ensures c * batch <= n + batch < (c + 1) * batch
  {
  }

  /**
   * Well-formed input: no failure, one call per full batch plus the one
   * that finds the input exhausted (`(calls - 1) * batch <= n < calls * batch`,
   * that is `n / batch + 1` calls), a label after every call, and one row
   * per line, in order.
   */
  lemma {:induction false} DriveWellFormed<R, F>(decode: Decoder<R, F>, show: seq<R> -> string, batch: nat, rows: seq<R>, lines: seq<string>)
    requires batch > 0 && AllDecode(decode, lines)
    ensures var g := Drive(decode, show, batch, rows, lines);
      && g.failure == None
      && g.calls >= 1 && (g.calls - 1) * batch <= |lines| < g.calls * batch
      && |g.labels| == g.calls
      && g.rows == rows + DecodeAll(decode, lines)
    decreases |lines|
  {
    var s := Step(decode, lines, batch);
    StepWellFormed(decode, lines, batch);
    DriveUnfold(decode, show, batch, rows, lines);
    if |lines| >= batch {
      var tail := lines[batch..];
      DecodeAllSplit(decode, lines, batch);
      DriveWellFormed(decode, show, batch, rows + s.rows, tail);
      var g := Drive(decode, show, batch, rows + s.rows, tail);
      Associative(rows, s.rows, DecodeAll(decode, tail));
      MoreBatches(g.calls, batch, |tail|);
    }
  }

  /** A step that meets the failing line at index `m`: it throws there when `m` is within the budget. */
  lemma StepMalformed<R, F>(decode: Decoder<R, F>, lines: seq<string>, m: nat, budget: nat)
    requires m < |lines| && AllDecode(decode, lines[..m]) && decode(lines[m]).Err?
    ensures var s := Step(decode, lines, budget);
      && (m < budget ==>
            (s.outcome == Threw(decode(lines[m]).error) && s.rows == DecodeAll(decode, lines[..m])))
      && (m >= budget ==>
            (s.outcome == Again && s.consumed == budget
             && AllDecode(decode, lines[..budget]) && s.rows == DecodeAll(decode, lines[..budget])))
  {
    var s := Step(decode, lines, budget);
    StepSpec(decode, lines, budget);
    assert forall k :: 0 <= k < m ==> lines[..m][k] == lines[k];
    if m < budget {
      DecodeAllPrefix(decode, lines, m, s.rows);
    } else {
      DecodeAllPrefix(decode, lines, budget, s.rows);
    }
  }

  /** Past a full first batch, the failing line sits at `m - batch` in what is left. */
  lemma MalformedTail<R, F>(decode: Decoder<R, F>, lines: seq<string>, m: nat, batch: nat)
    requires batch <= m < |lines| && AllDecode(decode, lines[..m]) && decode(lines[m]).Err?
    ensures var tail := lines[batch..];
      && m - batch < |tail| && AllDecode(decode, tail[..m - batch]) && decode(tail[m - batch]).Err?
      && AllDecode(decode, lines[..batch])
      && DecodeAll(decode, lines[..m]) == DecodeAll(decode, lines[..batch]) + DecodeAll(decode, tail[..m - batch])
  {
    var tail := lines[batch..];
    var head := lines[..m];
    assert tail[m - batch] == lines[m];
    assert head[batch..] == tail[..m - batch];
    assert head[..batch] == lines[..batch];
    DecodeAllSplit(decode, head, batch);
  }

  /**
   * A line that fails at index `m`, all lines before it well formed: the
   * call that reaches it throws and shows no label, so one call is made per
   * batch up to and including the one holding line `m`
   * (`(calls - 1) * batch <= m < calls * batch`), a label is shown after
   * every call but the last, and the rows of the first `m` lines stay with
   * the adapter.
   */
  lemma {:induction false} DriveMalformed<R, F>(decode: Decoder<R, F>, show: seq<R> -> string, batch: nat, rows: seq<R>, lines: seq<string>, m: nat)
    requires batch > 0 && m < |lines| && AllDecode(decode, lines[..m]) && decode(lines[m]).Err?
    ensures var g := Drive(decode, show, batch, rows, lines);
      && g.failure == Some(decode(lines[m]).error)
      && g.calls >= 1 && (g.calls - 1) * batch <= m < g.calls * batch
      && |g.labels| == g.calls - 1
      && g.rows == rows + DecodeAll(decode, lines[..m])
    decreases |lines|
  {
    var s := Step(decode, lines, batch);
    StepMalformed(decode, lines, m, batch);
    DriveUnfold(decode, show, batch, rows, lines);
    if m >= batch {
      var tail := lines[batch..];
      MalformedTail(decode, lines, m, batch);
      DriveMalformed(decode, show, batch, rows + s.rows, tail, m - batch);
      var g := Drive(decode, show, batch, rows + s.rows, tail);
      Associative(rows, s.rows, DecodeAll(decode, tail[..m - batch]));
      MoreBatches(g.calls, batch, m - batch);
    }
  }
}
