/** Texts cut into pieces at a separator, and joined again. */
module Pieces {

  /** What one character in front does to the pieces. */
  function Front(b: char, rest: seq<string>, sep: char): seq<string>
    requires rest != []
  {
    if b == sep then [""] + rest else [[b] + rest[0]] + rest[1..]
  }

  /** strings.Split, with a separator of one character. */
  function Split(s: string, sep: char): (pieces: seq<string>)
    ensures |pieces| >= 1
  {
    if s == [] then [""]
    else Front(s[0], Split(s[1..], sep), sep)
  }

  /** strings.Join. */
  function Join(pieces: seq<string>, sep: char): string {
    if |pieces| == 0 then ""
    else if |pieces| == 1 then pieces[0]
    else pieces[0] + [sep] + Join(pieces[1..], sep)
  }

  lemma {:induction false} SplitAtSep(p: string, rest: string, sep: char)
    requires sep !in p
    ensures Split(p + [sep] + rest, sep) == [p] + Split(rest, sep)
  {
    var s := p + [sep] + rest;
    if p == [] {
      assert s[1..] == rest;
    } else {
      assert s[1..] == p[1..] + [sep] + rest;
      SplitAtSep(p[1..], rest, sep);
      assert p == [p[0]] + p[1..];
    }
  }

  lemma {:induction false} SplitWithoutSep(p: string, sep: char)
    requires sep !in p
    ensures Split(p, sep) == [p]
  {
    if p != [] {
      SplitWithoutSep(p[1..], sep);
      assert p == [p[0]] + p[1..];
    }
  }

  lemma {:induction false} SplitJoin(pieces: seq<string>, sep: char)
    requires |pieces| >= 1 && forall p | p in pieces :: sep !in p
    ensures Split(Join(pieces, sep), sep) == pieces
  {
    if |pieces| == 1 {
      SplitWithoutSep(pieces[0], sep);
    } else {
      SplitJoin(pieces[1..], sep);
      SplitAtSep(pieces[0], Join(pieces[1..], sep), sep);
    }
  }

  lemma {:induction false} SplitHasNoSep(s: string, sep: char)
    ensures forall p | p in Split(s, sep) :: sep !in p
  {
    if s != [] { SplitHasNoSep(s[1..], sep); }
  }

  /** Splitting undoes joining exactly when there is a piece and no piece holds the separator: joining
      nothing reads back as one empty piece. */
  lemma SplitUndoesJoin(pieces: seq<string>, sep: char)
    ensures Split(Join(pieces, sep), sep) == pieces <==> |pieces| >= 1 && forall p | p in pieces :: sep !in p
  {
    if |pieces| >= 1 && forall p | p in pieces :: sep !in p {
      SplitJoin(pieces, sep);
    } else {
      SplitHasNoSep(Join(pieces, sep), sep);
    }
  }

  lemma {:induction false} JoinSplit(s: string, sep: char)
    ensures Join(Split(s, sep), sep) == s
  {
    if s != [] {
      JoinSplit(s[1..], sep);
      var rest := Split(s[1..], sep);
      if s[0] == sep {
        assert Split(s, sep)[1..] == rest;
      } else {
        assert Split(s, sep)[1..] == rest[1..];
      }
      assert s == [s[0]] + s[1..];
    }
  }

  /** One more character ends the last piece or extends it. */
  lemma {:induction false} SplitSnoc(s: string, c: char, sep: char)
    ensures var a := Split(s, sep);
      Split(s + [c], sep) == if c == sep then a + [""] else a[|a| - 1 := a[|a| - 1] + [c]]
  {
    if s == [] {
      assert s + [c] == [c] && [c][1..] == "" && Split("", sep) == [""];
      assert [c] + "" == "" + [c];
      if c == sep { assert Split([c], sep) == [""] + [""]; } else { assert Split([c], sep) == [[c] + ""]; }
    } else {
      var tail, rest := s[1..], Split(s[1..], sep);
      SplitSnoc(tail, c, sep);
      assert (s + [c])[1..] == tail + [c] && (s + [c])[0] == s[0];
      var rest' := if c == sep then rest + [""] else rest[|rest| - 1 := rest[|rest| - 1] + [c]];
      assert Split(tail + [c], sep) == rest';
      assert Split(s + [c], sep) == Front(s[0], rest', sep);
      FrontSnoc(s[0], rest, c, sep);
    }
  }

  lemma FrontSnoc(b: char, rest: seq<string>, c: char, sep: char)
    requires rest != []
    ensures var a := Front(b, rest, sep);
      Front(b, if c == sep then rest + [""] else rest[|rest| - 1 := rest[|rest| - 1] + [c]], sep)
      == if c == sep then a + [""] else a[|a| - 1 := a[|a| - 1] + [c]]
  {
    if c != sep && b != sep && |rest| == 1 {
      assert [b] + (rest[0] + [c]) == ([b] + rest[0]) + [c];
    }
  }

  lemma {:induction false} JoinSnoc(pieces: seq<string>, last: string, sep: char)
    requires pieces != []
    ensures Join(pieces + [last], sep) == Join(pieces, sep) + [sep] + last
  {
    if |pieces| > 1 {
      JoinSnoc(pieces[1..], last, sep);
      assert (pieces + [last])[1..] == pieces[1..] + [last];
    }
  }
}
