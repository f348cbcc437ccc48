/**
 * Line splitting as `std::getline` performs it on a character stream:
 * a line ends at '\n', which is consumed but not stored; a final segment
 * without '\n' is still a line; at the end of the stream the call fails.
 */
module TextLines {
  import opened Wrappers
  import opened Seqs

  /** Index of the first '\n' at or after `i`, or `|data|` when there is none. */
  function LineEnd(data: string, i: nat): (e: nat)
    requires i <= |data|
    ensures i <= e <= |data|
    ensures e < |data| ==> data[e] == '\n'
    decreases |data| - i
  {
    if i == |data| || data[i] == '\n' then i else LineEnd(data, i + 1)
  }

  /** No '\n' lies between `i` and the line end. */
  lemma {:induction false} LineEndFirst(data: string, i: nat)
    requires i <= |data|
    ensures forall k :: i <= k < LineEnd(data, i) ==> data[k] != '\n'
    decreases |data| - i
  {
    if i < |data| && data[i] != '\n' {
      LineEndFirst(data, i + 1);
    }
  }

  /**
   * One `std::getline` on a stream positioned at `pos`: the line read and
   * the position after it, or None when the stream is at its end.
   */
  function GetLine(data: string, pos: nat): (r: Option<(string, nat)>)
    requires pos <= |data|
    ensures r.None? <==> pos == |data|
    ensures r.Some? ==> pos < r.value.1 <= |data|
  {
    if pos == |data| then None
    else
      var e := LineEnd(data, pos);
      Some((data[pos..e], if e < |data| then e + 1 else e))
  }

  /** The lines that repeated `std::getline` calls deliver from position `pos` on. */
  function LinesFrom(data: string, pos: nat): (ls: seq<string>)
    requires pos <= |data|
    ensures |ls| <= |data| - pos
    decreases |data| - pos
  {
    match GetLine(data, pos)
    case None => []
    case Some((line, next)) => [line] + LinesFrom(data, next)
  }

  /** All the lines of a whole text. */
  function Lines(data: string): seq<string>
  {
    LinesFrom(data, 0)
  }

  /** The text whose lines are `ls`, each one terminated by '\n'. */
  function Join(ls: seq<string>): (s: string)
    ensures |s| >= |ls|
  {
    if ls == [] then "" else ls[0] + "\n" + Join(ls[1..])
  }

  /** Reads one line the way `std::getline` does: scans for '\n' from `pos`. */
  method ReadLineAt(data: string, pos: nat) returns (ok: bool, line: string, next: nat)
    requires pos <= |data|
    ensures ok <==> GetLine(data, pos).Some?
    ensures ok ==> (line, next) == GetLine(data, pos).value
    ensures !ok ==> line == "" && next == pos
  {
    if pos == |data| {
      return false, "", pos;
    }
    var e := pos;
    while e < |data| && data[e] != '\n'
      invariant pos <= e <= |data|
      invariant LineEnd(data, e) == LineEnd(data, pos)
    {
      e := e + 1;
    }
    line := data[pos..e];
    next := if e < |data| then e + 1 else e;
    ok := true;
  }

  /**
   * An input string stream (`std::istringstream`) read line by line. Its
   * text never changes, so the stream is kept as the queue of lines that
   * `std::getline` will still deliver, split once when the stream is made.
   */
  class LineStream {
    var pending: seq<string>

    constructor (data: string)
      ensures pending == Lines(data)
    {
      var lines: seq<string> := [];
      var pos := 0;
      while true
        invariant pos <= |data|
        invariant lines + LinesFrom(data, pos) == Lines(data)
        decreases |data| - pos
      {
        var ok, line, next := ReadLineAt(data, pos);
        if !ok {
          break;
        }
        assert LinesFrom(data, pos) == [line] + LinesFrom(data, next);
        lines := lines + [line];
        pos := next;
      }
      pending := lines;
    }

    /** `std::getline`: the next line, or failure (and an empty line) at the end. */
    method ReadLine() returns (ok: bool, line: string)
      modifies this
      ensures ok <==> old(pending) != []
      ensures ok ==> line == old(pending)[0] && pending == old(pending)[1..]
      ensures !ok ==> line == "" && pending == []
    {
      if pending == [] {
        return false, "";
      }
      line := pending[0];
      pending := pending[1..];
      ok := true;
    }
  }

  // ---- Properties of the splitting ----

  lemma {:induction false} LineEndShift(x: string, y: string, q: nat)
    requires q <= |y|
    ensures LineEnd(x + y, |x| + q) == |x| + LineEnd(y, q)
    decreases |y| - q
  {
    if q < |y| && y[q] != '\n' {
      assert (x + y)[|x| + q] == y[q];
      LineEndShift(x, y, q + 1);
    } else if q < |y| {
      assert (x + y)[|x| + q] == y[q];
    }
  }

  lemma GetLineShift(x: string, y: string, q: nat)
    requires q <= |y|
    ensures GetLine(x + y, |x| + q).None? <==> GetLine(y, q).None?
    ensures GetLine(y, q).Some? ==>
      GetLine(x + y, |x| + q) == Some((GetLine(y, q).value.0, |x| + GetLine(y, q).value.1))
  {
    if q < |y| {
      LineEndShift(x, y, q);
      var e := LineEnd(y, q);
      assert (x + y)[|x| + q..|x| + e] == y[q..e];
    }
  }

  /** Lines read after a prefix do not depend on that prefix. */
  lemma {:induction false} LinesFromShift(x: string, y: string, q: nat)
    requires q <= |y|
    ensures LinesFrom(x + y, |x| + q) == LinesFrom(y, q)
    decreases |y| - q
  {
    if q < |y| {
      var data := x + y;
      GetLineShift(x, y, q);
      var (line, next) := GetLine(y, q).value;
      assert GetLine(data, |x| + q) == Some((line, |x| + next));
      assert LinesFrom(data, |x| + q) == [line] + LinesFrom(data, |x| + next);
      assert LinesFrom(y, q) == [line] + LinesFrom(y, next);
      LinesFromShift(x, y, next);
    }
  }

  /**
   * The line read is the text from `pos` up to the next '\n', which holds
   * no '\n'; the stream then stands just past that '\n', or at the end.
   */
  lemma GetLineContents(data: string, pos: nat)
    requires pos < |data|
    ensures var (line, next) := GetLine(data, pos).value;
      && pos + |line| <= |data| && line == data[pos..pos + |line|]
      && '\n' !in line
      && ((pos + |line| == |data| && next == |data|)
          || (pos + |line| < |data| && data[pos + |line|] == '\n' && next == pos + |line| + 1))
  {
    LineEndFirst(data, pos);
  }

  /** No line delivered contains '\n': the separator is consumed, never stored. */
  lemma {:induction false} LinesNewlineFree(data: string, pos: nat)
    requires pos <= |data|
    ensures forall k :: 0 <= k < |LinesFrom(data, pos)| ==> '\n' !in LinesFrom(data, pos)[k]
    decreases |data| - pos
  {
    if pos < |data| {
      GetLineContents(data, pos);
      LinesNewlineFree(data, GetLine(data, pos).value.1);
    }
  }

  /** A line followed by '\n' is read as exactly that line, and the rest follows. */
  lemma LinesCons(line: string, rest: string)
    requires '\n' !in line
    ensures Lines(line + "\n" + rest) == [line] + Lines(rest)
  {
    var data := line + "\n" + rest;
    assert data == (line + "\n") + rest;
    assert data[|line|] == '\n';
    assert data[..|line|] == line;
    LineEndFirst(data, 0);
    assert LineEnd(data, 0) == |line|;
    assert GetLine(data, 0) == Some((line, |line| + 1));
    LinesFromShift(line + "\n", rest, 0);
  }

  /** A newline-free text is one line. */
  lemma LinesSingle(line: string)
    requires line != "" && '\n' !in line
    ensures Lines(line) == [line]
  {
    LineEndFirst(line, 0);
    assert LineEnd(line, 0) == |line|;
    assert line[0..|line|] == line;
    assert GetLine(line, 0) == Some((line, |line|));
  }

  /** Splitting the '\n'-terminated join of newline-free lines gives those lines back. */
  lemma {:induction false} LinesOfJoin(ls: seq<string>)
    requires forall k :: 0 <= k < |ls| ==> '\n' !in ls[k]
    ensures Lines(Join(ls)) == ls
  {
    if ls != [] {
      LinesCons(ls[0], Join(ls[1..]));
      LinesOfJoin(ls[1..]);
    }
  }

  /** A final line without '\n' is still a line. */
  lemma LinesUnterminated(ls: seq<string>, last: string)
    requires forall k :: 0 <= k < |ls| ==> '\n' !in ls[k]
    requires last != "" && '\n' !in last
    ensures Lines(Join(ls) + last) == ls + [last]
  {
    LinesOfJoinPrefix(ls, last);
    LinesSingle(last);
  }

  lemma {:induction false} LinesOfJoinPrefix(ls: seq<string>, rest: string)
    requires forall k :: 0 <= k < |ls| ==> '\n' !in ls[k]
    ensures Lines(Join(ls) + rest) == ls + Lines(rest)
  {
    if ls == [] {
      assert Join(ls) + rest == rest;
    } else {
      assert Join(ls) + rest == ls[0] + "\n" + (Join(ls[1..]) + rest);
      LinesCons(ls[0], Join(ls[1..]) + rest);
      LinesOfJoinPrefix(ls[1..], rest);
    }
  }

  /** The '\n' that `Join` adds after the text from `pos`: none when that text is empty or already ends in one. */
  function Terminator(data: string, pos: nat): (t: string)
    requires pos <= |data|
    ensures |t| <= 1
  {
    if pos == |data| || data[|data| - 1] == '\n' then "" else "\n"
  }

  /**
   * Joining the lines of a text gives the text back, with a '\n' added
   * only when a non-empty text did not already end in one.
   */
  lemma JoinOfLines(data: string)
    ensures Join(Lines(data)) == if data == [] || data[|data| - 1] == '\n' then data else data + "\n"
  {
    JoinOfLinesFrom(data, 0);
    assert data[0..] == data;
  }

  /** The text from `pos` is the line up to the '\n' at `e`, that '\n', and the text after it. */
  lemma SplitAtNewline(data: string, pos: nat, e: nat)
    requires pos <= e < |data| && data[e] == '\n'
    ensures data[pos..] == data[pos..e] + "\n" + data[e + 1..]
  {
    assert data[pos..] == data[pos..e] + data[e..];
    assert data[e..] == "\n" + data[e + 1..];
  }

  /** Unfolding `Join` over one `getline`. */
  lemma JoinFirstLine(data: string, pos: nat)
    requires pos < |data|
    ensures var (line, next) := GetLine(data, pos).value;
      Join(LinesFrom(data, pos)) == line + "\n" + Join(LinesFrom(data, next))
  {
    var (line, next) := GetLine(data, pos).value;
    var ls := LinesFrom(data, pos);
    assert ls == [line] + LinesFrom(data, next);
    assert ls[1..] == LinesFrom(data, next);
  }

  /** The last line, which has no '\n' after it: joining adds one. */
  lemma JoinOfUnterminated(data: string, pos: nat)
    requires pos < |data| && LineEnd(data, pos) == |data|
    ensures Join(LinesFrom(data, pos)) == data[pos..] + Terminator(data, pos)
  {
    JoinFirstLine(data, pos);
    LineEndFirst(data, pos);
    assert data[|data| - 1] != '\n';
  }

  lemma {:induction false} JoinOfLinesFrom(data: string, pos: nat)
    requires pos <= |data|
    ensures Join(LinesFrom(data, pos)) == data[pos..] + Terminator(data, pos)
    decreases |data| - pos
  {
    if pos < |data| {
      var e := LineEnd(data, pos);
      if e == |data| {
        JoinOfUnterminated(data, pos);
      } else {
        var line := data[pos..e];
        var next := e + 1;
        JoinFirstLine(data, pos);
        assert GetLine(data, pos) == Some((line, next));
        SplitAtNewline(data, pos, e);
        JoinOfLinesFrom(data, next);
        assert Terminator(data, next) == Terminator(data, pos);
        Associative(line + "\n", data[next..], Terminator(data, pos));
      }
    }
  }
}
