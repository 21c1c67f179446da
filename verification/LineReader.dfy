/** The newline framing of relay_session.cpp: any cutting of the stream gives the lines of the whole stream. */
module LineReader {

  const CHUNK := 4096
  const CAP := 0x10_0000
  const NEWLINE := '\n'
  const RETURN := '\r'

  // ---------- splitting a whole stream ----------

  /** The position of the first newline, or the length. */
  function Newline(s: string): (pos: nat)
    ensures pos <= |s| && (pos < |s| ==> s[pos] == NEWLINE) && forall i | 0 <= i < pos :: s[i] != NEWLINE
  {
    if s == [] || s[0] == NEWLINE then 0 else 1 + Newline(s[1..])
  }

  function Stripped(line: string): (r: string)
  {
    if line != [] && line[|line| - 1] == RETURN then line[..|line| - 1] else line
  }

  datatype Split = Split(lines: seq<string>, rest: string, stopped: bool)

  /** The handler decides from all the lines it has been given whether the session is closed. */
  function SplitLines(stops: seq<string> -> bool, lines: seq<string>, s: string): (r: Split)
    decreases |s|
  {
    var pos := Newline(s);
    if pos == |s| then Split(lines, s, false)
    else
      var line := Stripped(s[..pos]);
      if line == [] then SplitLines(stops, lines, s[pos + 1..])
      else if stops(lines + [line]) then Split(lines + [line], s[pos + 1..], true)
      else SplitLines(stops, lines + [line], s[pos + 1..])
  }

  lemma NewlineIs(s: string, pos: nat)
    requires pos <= |s| && (pos < |s| ==> s[pos] == NEWLINE) && forall i | 0 <= i < pos :: s[i] != NEWLINE
    ensures Newline(s) == pos
  {
    hide Newline;
  }

  lemma NewlineConcat(a: string, b: string)
    ensures Newline(a) < |a| ==> Newline(a + b) == Newline(a) && (a + b)[..Newline(a)] == a[..Newline(a)]
                                 && (a + b)[Newline(a) + 1..] == a[Newline(a) + 1..] + b
  {
    hide Newline;
    if Newline(a) < |a| {
      NewlineIs(a + b, Newline(a));
    }
  }

  /** Splitting can stop anywhere and go on from what is left. */
  lemma {:induction false} MoreText(stops: seq<string> -> bool, lines: seq<string>, a: string, b: string)
    ensures var p, q := SplitLines(stops, lines, a), SplitLines(stops, lines, a + b);
      if p.stopped then q == p.(rest := p.rest + b) else q == SplitLines(stops, p.lines, p.rest + b)
    decreases |a|
  {
    hide Newline, Stripped;
    var pos := Newline(a);
    NewlineConcat(a, b);
    if pos < |a| {
      var line := Stripped(a[..pos]);
      if line == [] {
        MoreText(stops, lines, a[pos + 1..], b);
      } else if !stops(lines + [line]) {
        MoreText(stops, lines + [line], a[pos + 1..], b);
      }
    }
  }

  /** What is left is the end of the stream and holds no newline. */
  lemma {:induction false} RestIsTail(stops: seq<string> -> bool, lines: seq<string>, s: string)
    ensures var r := SplitLines(stops, lines, s);
      && |r.rest| <= |s| && r.rest == s[|s| - |r.rest|..]
      && (!r.stopped ==> forall i | 0 <= i < |r.rest| :: r.rest[i] != NEWLINE)
    decreases |s|
  {
    hide Newline, Stripped;
    var pos := Newline(s);
    if pos < |s| {
      var line, t := Stripped(s[..pos]), s[pos + 1..];
      RestIsTail(stops, if line == [] then lines else lines + [line], t);
    }
  }

  // ---------- the session ----------

  /** No run of more than 2^20 - 4096 bytes without a newline. */
  ghost predicate ShortLines(s: string)
  {
    forall i, j | 0 <= i <= j <= |s| && j - i > CAP - CHUNK :: NEWLINE in s[i..j]
  }

  class Reader {
    const stops: seq<string> -> bool
    var buffer: string
    var lines: seq<string>
    var closed: bool
    var oversize: bool
    ghost var consumed: string

    ghost predicate Valid()
      reads this
    {
      var r := SplitLines(stops, [], consumed);
      && (!oversize ==> lines == r.lines && closed == r.stopped && (!closed ==> buffer == r.rest))
      && (oversize ==> closed && lines <= r.lines)
    }

    constructor (stops: seq<string> -> bool)
      ensures Valid() && !closed && consumed == [] && this.stops == stops
    {
      this.stops := stops;
      buffer, lines, closed, oversize, consumed := [], [], false, false, [];
    }

    /** The lines given to the handler are always those of the whole stream read so far. */
    method OnRead(chunk: string)
      requires Valid() && !closed && |chunk| <= CHUNK
      modifies this
      ensures Valid() && consumed == old(consumed) + chunk
      ensures oversize <==> |old(buffer)| + |chunk| > CAP
      ensures ShortLines(old(consumed)) ==> !oversize
    {
      hide SplitLines;
      MoreText(stops, [], consumed, chunk);
      RestIsTail(stops, [], consumed);
      TailIsShort(consumed, buffer);
      buffer := buffer + chunk;
      consumed := consumed + chunk;
      if |buffer| > CAP {
        GrowsOnly(stops, lines, buffer);
        oversize, closed := true, true;
        return;
      }
      Drain();
    }

    method Drain()
      requires !closed
      modifies this`buffer, this`lines, this`closed
      ensures var r := SplitLines(stops, old(lines), old(buffer));
        lines == r.lines && closed == r.stopped && buffer == r.rest
    {
      hide Newline, Stripped;
      ghost var r := SplitLines(stops, lines, buffer);
      while true
        invariant !closed && SplitLines(stops, lines, buffer) == r
        decreases |buffer|
      {
        var pos := Newline(buffer);
        if pos == |buffer| {
          break;
        }
        var line := Stripped(buffer[..pos]);
        if line != [] {
          lines := lines + [line];
          closed := stops(lines);
        }
        buffer := buffer[pos + 1..];
        if closed {
          return;
        }
      }
    }
  }

  lemma TailIsShort(s: string, rest: string)
    requires |rest| <= |s| && rest == s[|s| - |rest|..] && (forall i | 0 <= i < |rest| :: rest[i] != NEWLINE)
    ensures ShortLines(s) ==> |rest| <= CAP - CHUNK
  {
    assert s[|s| - |rest|..|s|] == rest;
  }

  lemma {:induction false} GrowsOnly(stops: seq<string> -> bool, lines: seq<string>, s: string)
    ensures lines <= SplitLines(stops, lines, s).lines
    decreases |s|
  {
    hide Newline, Stripped;
    var pos := Newline(s);
    if pos < |s| {
      var line := Stripped(s[..pos]);
      GrowsOnly(stops, if line == [] then lines else lines + [line], s[pos + 1..]);
    }
  }

  // ---------- writing and reading back ----------

  /** A line that can be sent: not empty, no newline in it, no return at its end. */
  predicate Sendable(line: string)
  {
    line != [] && NEWLINE !in line && line[|line| - 1] != RETURN
  }

  /** The handler accepts every one of the lines. */
  ghost predicate NeverStops(stops: seq<string> -> bool, before: seq<string>, lines: seq<string>)
  {
    forall i | 0 < i <= |lines| :: !stops(before + lines[..i])
  }

  predicate IsEnding(ending: string)
  {
    ending == [NEWLINE] || ending == [RETURN, NEWLINE]
  }

  function Joined(lines: seq<string>, ending: string): (s: string)
  {
    if lines == [] then [] else lines[0] + ending + Joined(lines[1..], ending)
  }

  /** Lines ended by a newline, with or without a return before it, are read back as they were. */
  lemma {:induction false} SendThenRead(stops: seq<string> -> bool, before: seq<string>, lines: seq<string>, ending: string)
    requires forall i | 0 <= i < |lines| :: Sendable(lines[i])
    requires NeverStops(stops, before, lines)
    requires IsEnding(ending)
    ensures SplitLines(stops, before, Joined(lines, ending)) == Split(before + lines, [], false)
    decreases |lines|
  {
    hide Newline, Stripped, Joined, SplitLines, NeverStops, Sendable, IsEnding;
    if lines == [] {
      NoLines(stops, before, ending);
      assert before + lines == before;
    } else {
      var line, rest := lines[0], lines[1..];
      FirstLine(lines, ending);
      KeepsGoing(stops, before, lines);
      OneLine(stops, before, line, Joined(lines, ending), |line| + |ending|);
      SendThenRead(stops, before + [line], rest, ending);
      assert before + lines == before + [line] + rest;
    }
  }

  lemma NoLines(stops: seq<string> -> bool, before: seq<string>, ending: string)
    ensures SplitLines(stops, before, Joined([], ending)) == Split(before, [], false)
  {
  }

  lemma KeepsGoing(stops: seq<string> -> bool, before: seq<string>, lines: seq<string>)
    requires lines != [] && NeverStops(stops, before, lines)
    ensures !stops(before + [lines[0]]) && NeverStops(stops, before + [lines[0]], lines[1..])
  {
    assert lines[..1] == [lines[0]];
    var first, rest := before + [lines[0]], lines[1..];
    forall i | 0 < i <= |rest|
      ensures !stops(first + rest[..i])
    {
      assert first + rest[..i] == before + lines[..i + 1];
    }
  }

  lemma OneLine(stops: seq<string> -> bool, before: seq<string>, line: string, s: string, n: nat)
    requires 0 < n <= |s| && Newline(s) == n - 1 && Stripped(s[..n - 1]) == line && line != [] && !stops(before + [line])
    ensures SplitLines(stops, before, s) == SplitLines(stops, before + [line], s[n..])
  {
    hide Newline, Stripped;
  }

  lemma FirstLine(lines: seq<string>, ending: string)
    requires lines != [] && Sendable(lines[0]) && IsEnding(ending)
    ensures var s, n := Joined(lines, ending), |lines[0]| + |ending|;
      n > 0 && |s| >= n && lines[0] != [] && Newline(s) == n - 1 && Stripped(s[..n - 1]) == lines[0] && s[n..] == Joined(lines[1..], ending)
  {
    OneEnding(lines[0], ending, Joined(lines[1..], ending));
  }

  lemma OneEnding(line: string, ending: string, rest: string)
    requires Sendable(line) && IsEnding(ending)
    ensures var s, n := line + ending + rest, |line| + |ending|;
      Newline(s) == n - 1 && Stripped(s[..n - 1]) == line && s[n..] == rest
  {
    hide Newline;
    var s, n := line + ending + rest, |line| + |ending|;
    NewlineIs(s, n - 1);
    if ending == [NEWLINE] {
      assert s[..n - 1] == line;
    } else {
      assert s[..n - 1] == line + [RETURN];
    }
  }
}
