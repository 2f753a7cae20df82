/** The streaming line splitter between a worker's terminal and its output channel.  A byte is
    modelled as the character with its code. */
module LineSplitter {
  import opened Pieces

  type Line = string

  /** What one Read returns: n bytes, and whether it also reported an error (end of file is one). */
  datatype Read = Read(bytes: string, failed: bool)

  // ----- the stream, cut by nobody

  function Concat(cut: seq<Read>): string {
    if cut == [] then ""
    else Concat(cut[..|cut| - 1]) + cut[|cut| - 1].bytes
  }

  function WithoutCR(s: string): string {
    if s == [] then s
    else WithoutCR(s[..|s| - 1]) + if s[|s| - 1] == '\r' then "" else [s[|s| - 1]]
  }

  /** The finished lines of a stream. */
  function Lines(stream: string): seq<Line> {
    var pieces := Split(WithoutCR(stream), '\n');
    pieces[..|pieces| - 1]
  }

  /** The unfinished one. */
  function Residue(stream: string): Line {
    var pieces := Split(WithoutCR(stream), '\n');
    pieces[|pieces| - 1]
  }

  /** What is sent once the stream has ended. */
  function AtEnd(stream: string): seq<Line> {
    if Residue(stream) == "" then Lines(stream) else Lines(stream) + [Residue(stream)]
  }

  /** Send number k finds the channel full or not: a full channel drops the line. */
  function Passed(sends: seq<Line>, full: nat -> bool): seq<Line> {
    if sends == [] then []
    else
      var n := |sends| - 1;
      if full(n) then Passed(sends[..n], full) else Passed(sends[..n], full) + [sends[n]]
  }

  datatype Ending = Cancelled | Failed | StillReading

  // ----- the code

  class OutputReader {
    var line: Line
    var output: seq<Line>
    var sent: nat
    const full: nat -> bool
    ghost var stream: string

    /** The state the goroutine is in after reading `stream`. */
    ghost predicate Reading()
      reads this
    {
      line == Residue(stream) && sent == |Lines(stream)| && output == Passed(Lines(stream), full)
    }

    constructor (full: nat -> bool)
      ensures Reading() && stream == "" && this.full == full
    {
      this.full := full;
      line, output, sent, stream := "", [], 0, "";
    }

    /** select { case output <- line: default: } */
    method TrySend(ghost sends: seq<Line>)
      requires sent == |sends| && output == Passed(sends, full)
      modifies this`output, this`sent
      ensures sent == |sends| + 1 && output == Passed(sends + [line], full)
    {
      assert (sends + [line])[..|sends|] == sends;
      if !full(sent) { output := output + [line]; }
      sent := sent + 1;
    }

    method TakeByte(b: char)
      requires Reading()
      modifies this
      ensures Reading() && stream == old(stream) + [b]
    {
      NextByte(stream, b);
      if b == '\n' {
        TrySend(Lines(stream));
        line := "";
      } else if b != '\r' {
        line := line + [b];
      }
      stream := stream + [b];
    }

    method TakeChunk(chunk: string)
      requires Reading()
      modifies this
      ensures Reading() && stream == old(stream) + chunk
    {
      for i := 0 to |chunk|
        invariant Reading() && stream == old(stream) + chunk[..i]
      {
        TakeByte(chunk[i]);
        assert chunk[..i + 1] == chunk[..i] + [chunk[i]];
      }
      assert chunk[..|chunk|] == chunk;
    }

    /** Reads until a read fails or the context is cancelled, which is noticed before read number
        `cancelAt`.  Only the concatenation of what was read matters, never how it was cut. */
    method ReadOutput(cut: seq<Read>, cancelAt: nat) returns (ending: Ending, taken: nat)
      requires Reading() && stream == ""
      modifies this
      ensures taken <= |cut| && taken <= cancelAt
      ensures forall i | 0 <= i < taken - 1 :: !cut[i].failed
      ensures stream == Concat(cut[..taken])
      ensures ending == Failed <==> taken > 0 && cut[taken - 1].failed
      ensures ending == Cancelled ==> taken == cancelAt
      ensures ending == StillReading ==> taken == |cut|
      ensures output == Passed(if ending == Failed then AtEnd(stream) else Lines(stream), full)
      // with room for every line: the text up to one final newline, an unfinished last line included
      ensures (forall k :: !full(k)) && ending == Failed ==>
        var text := WithoutCR(stream);
        && (forall l | l in output :: '\n' !in l)
        && if text == "" then output == []
           else output != [] && text == Join(output, '\n') + if text[|text| - 1] == '\n' then "\n" else ""
      ensures (forall k :: !full(k)) && ending != Failed ==>
        && (forall l | l in output :: '\n' !in l)
        && exists rest :: '\n' !in rest && WithoutCR(stream) == Join(output + [rest], '\n')
    {
      ending, taken := ReadUntil(cut, cancelAt);
      if ending == Failed { SentAtEnd(stream, output, full); } else { SentSoFar(stream, output, full); }
    }

    method ReadUntil(cut: seq<Read>, cancelAt: nat) returns (ending: Ending, taken: nat)
      requires Reading() && stream == ""
      modifies this
      ensures taken <= |cut| && taken <= cancelAt
      ensures forall i | 0 <= i < taken - 1 :: !cut[i].failed
      ensures stream == Concat(cut[..taken])
      ensures ending == Failed <==> taken > 0 && cut[taken - 1].failed
      ensures ending == Cancelled ==> taken == cancelAt
      ensures ending == StillReading ==> taken == |cut|
      ensures output == Passed(if ending == Failed then AtEnd(stream) else Lines(stream), full)
    {
      ending, taken := StillReading, 0;
      while taken < |cut|
        invariant taken <= |cut| && taken <= cancelAt && Reading() && stream == Concat(cut[..taken])
        invariant forall i | 0 <= i < taken :: !cut[i].failed
      {
        if taken == cancelAt { ending := Cancelled; return; }
        var r := cut[taken];
        if |r.bytes| > 0 { TakeChunk(r.bytes); }
        assert cut[..taken + 1][..taken] == cut[..taken];
        taken := taken + 1;
        if r.failed {
          if |line| > 0 { TrySend(Lines(stream)); }
          ending := Failed;
          return;
        }
      }
    }
  }

  lemma NextByte(stream: string, b: char)
    ensures Lines(stream + [b]) == if b == '\n' then Lines(stream) + [Residue(stream)] else Lines(stream)
    ensures Residue(stream + [b]) ==
      if b == '\n' then "" else if b == '\r' then Residue(stream) else Residue(stream) + [b]
  {
    assert (stream + [b])[..|stream|] == stream;
    var text := WithoutCR(stream);
    var a := Split(text, '\n');
    if b == '\r' {
      assert WithoutCR(stream + [b]) == text + "" == text;
    } else {
      assert WithoutCR(stream + [b]) == text + [b];
      SplitSnoc(text, b, '\n');
      assert a == a[..|a| - 1] + [a[|a| - 1]];
    }
  }

  // ----- what the lines say

  /** Nothing is lost or made up: the lines joined with newlines, then the residue, are the stream
      without its carriage returns, and no line holds a line end. */
  lemma LinesAreTheStream(stream: string)
    ensures Join(Lines(stream) + [Residue(stream)], '\n') == WithoutCR(stream)
    ensures forall l | l in Lines(stream) + [Residue(stream)] :: '\n' !in l && '\r' !in l
  {
    var text := WithoutCR(stream);
    var pieces := Split(text, '\n');
    assert Lines(stream) + [Residue(stream)] == pieces;
    JoinSplit(text, '\n');
    SplitHasNoSep(text, '\n');
    WithoutCRHasNone(stream);
    PiecesOfText(text, '\n', '\r');
  }

  /** What is sent at the end, said without cutting: the text up to one final newline. */
  lemma AtEndMeans(stream: string)
    ensures forall l | l in AtEnd(stream) :: '\n' !in l
    ensures var text, lines := WithoutCR(stream), AtEnd(stream);
      if text == "" then lines == []
      else lines != [] && text == Join(lines, '\n') + if text[|text| - 1] == '\n' then "\n" else ""
  {
    LinesAreTheStream(stream);
    var text, lines, rest := WithoutCR(stream), Lines(stream), Residue(stream);
    assert forall l | l in lines + [rest] :: '\n' !in l;
    assert rest in lines + [rest];
    if rest == "" {
      if lines != [] { JoinSnoc(lines, rest, '\n'); }
    } else {
      if lines != [] { JoinSnoc(lines, rest, '\n'); }
      assert text[|text| - 1] == rest[|rest| - 1];
      assert rest[|rest| - 1] in rest;
    }
  }

  lemma SentAtEnd(stream: string, output: seq<Line>, full: nat -> bool)
    requires output == Passed(AtEnd(stream), full)
    ensures (forall k :: !full(k)) ==>
      var text := WithoutCR(stream);
      && (forall l | l in output :: '\n' !in l)
      && if text == "" then output == []
         else output != [] && text == Join(output, '\n') + if text[|text| - 1] == '\n' then "\n" else ""
  {
    AtEndMeans(stream);
    if forall k :: !full(k) { PassedAll(AtEnd(stream), full); }
  }

  lemma SentSoFar(stream: string, output: seq<Line>, full: nat -> bool)
    requires output == Passed(Lines(stream), full)
    ensures (forall k :: !full(k)) ==>
      && (forall l | l in output :: '\n' !in l)
      && exists rest :: '\n' !in rest && WithoutCR(stream) == Join(output + [rest], '\n')
  {
    LinesAreTheStream(stream);
    var all := Lines(stream) + [Residue(stream)];
    assert forall l | l in Lines(stream) :: l in all;
    assert Residue(stream) in all;
    if forall k :: !full(k) { PassedAll(Lines(stream), full); }
  }

  /** kept is what is left of s at the positions `at`: all but the carriage returns. */
  ghost predicate AllButCR(s: string, kept: string, at: seq<nat>) {
    && |at| == |kept| && (forall i | 0 <= i < |at| :: at[i] < |s| && kept[i] == s[at[i]])
    && (forall i, j | 0 <= i < j < |at| :: at[i] < at[j])
    && (forall k: nat :: k in at <==> k < |s| && s[k] != '\r')
  }

  lemma NextKept(s: string, c: char, kept: string, at: seq<nat>)
    requires AllButCR(s, kept, at)
    ensures if c == '\r' then AllButCR(s + [c], kept, at) else AllButCR(s + [c], kept + [c], at + [|s|])
  {
    AtGrows(at, |s|);
  }

  lemma LastOf(front: string, last: char)
    ensures WithoutCR(front + [last]) == if last == '\r' then WithoutCR(front) else WithoutCR(front) + [last]
  {
    assert (front + [last])[..|front|] == front;
  }

  /** Exactly the carriage returns are removed; the other characters keep their order. */
  lemma {:induction false} WithoutCRExactly(s: string) returns (at: seq<nat>)
    ensures AllButCR(s, WithoutCR(s), at)
  {
    at := [];
    if s != [] {
      var front, last := s[..|s| - 1], s[|s| - 1];
      assert s == front + [last];
      var before := WithoutCRExactly(front);
      at := LastKept(front, last, before);
    }
  }

  lemma LastKept(front: string, last: char, before: seq<nat>) returns (at: seq<nat>)
    requires AllButCR(front, WithoutCR(front), before)
    ensures AllButCR(front + [last], WithoutCR(front + [last]), at)
  {
    var kept := WithoutCR(front);
    NextKept(front, last, kept, before);
    LastOf(front, last);
    at := if last == '\r' then before else before + [|front|];
  }

  /** A text determines its lines: whatever lines free of line ends join to it are these. */
  lemma LinesAreUnique(stream: string, lines: seq<Line>, residue: Line)
    requires Join(lines + [residue], '\n') == WithoutCR(stream)
    requires forall l | l in lines + [residue] :: '\n' !in l
    ensures lines == Lines(stream) && residue == Residue(stream)
  {
    SplitJoin(lines + [residue], '\n');
    assert (lines + [residue])[..|lines|] == lines;
  }

  lemma {:induction false} WithoutCRHasNone(s: string)
    ensures '\r' !in WithoutCR(s)
  {
    if s != [] { WithoutCRHasNone(s[..|s| - 1]); }
  }

  lemma {:induction false} PiecesOfText(s: string, sep: char, c: char)
    requires c !in s
    ensures forall p | p in Split(s, sep) :: c !in p
  {
    if s != [] { PiecesOfText(s[1..], sep, c); }
  }

  /** Two ways of cutting one stream into reads, both read to their end with the same sends
      finding room, deliver the same lines. */
  method CutsDoNotMatter(a: seq<Read>, b: seq<Read>, full: nat -> bool) returns (x: seq<Line>, y: seq<Line>)
    requires Whole(a) && Whole(b) && Concat(a) == Concat(b)
    ensures x == y == Passed(AtEnd(Concat(a)), full)
  {
    x := Deliver(a, full);
    y := Deliver(b, full);
  }

  /** The last read, and no other, fails. */
  predicate Whole(cut: seq<Read>) {
    cut != [] && cut[|cut| - 1].failed && forall i | 0 <= i < |cut| - 1 :: !cut[i].failed
  }

  method Deliver(cut: seq<Read>, full: nat -> bool) returns (lines: seq<Line>)
    requires Whole(cut)
    ensures lines == Passed(AtEnd(Concat(cut)), full)
  {
    var r := new OutputReader(full);
    var ending, taken := r.ReadOutput(cut, |cut|);
    assert cut[..taken] == cut;
    lines := r.output;
  }

  /** The lines that get through keep their order: each is a send at its own, later position, and
      the sends that found room are exactly those. */
  ghost predicate InOrder(sends: seq<Line>, got: seq<Line>, at: seq<nat>) {
    && |at| == |got|
    && (forall i | 0 <= i < |at| :: at[i] < |sends| && got[i] == sends[at[i]])
    && (forall i, j | 0 <= i < j < |at| :: at[i] < at[j])
  }

  lemma AtGrows(before: seq<nat>, n: nat)
    ensures forall k :: k in before + [n] <==> k in before || k == n
  {
  }

  lemma {:induction false} PassedInOrder(sends: seq<Line>, full: nat -> bool) returns (at: seq<nat>)
    ensures InOrder(sends, Passed(sends, full), at)
    ensures forall k: nat :: k in at <==> k < |sends| && !full(k)
  {
    at := [];
    if sends != [] {
      var n := |sends| - 1;
      var before := PassedInOrder(sends[..n], full);
      at := before;
      if !full(n) {
        at := before + [n];
        AtGrows(before, n);
      }
    }
  }

  lemma {:induction false} PassedAll(sends: seq<Line>, full: nat -> bool)
    requires forall k: nat | k < |sends| :: !full(k)
    ensures Passed(sends, full) == sends
  {
    if sends != [] {
      PassedAll(sends[..|sends| - 1], full);
      assert sends == sends[..|sends| - 1] + [sends[|sends| - 1]];
    }
  }
}
