/** Owned paths as text: fleetCmd joins them with commas into one column, poll splits the column
    again, trims each piece and drops the empty ones. */
module PathText {
  import opened Pieces

  /** The characters strings.TrimSpace removes: Unicode White_Space. */
  predicate IsSpace(c: char) {
    var n := c as int;
    || 0x09 <= n <= 0x0D || n == 0x20 || n == 0x85 || n == 0xA0 || n == 0x1680
    || 0x2000 <= n <= 0x200A || n == 0x2028 || n == 0x2029 || n == 0x202F || n == 0x205F || n == 0x3000
  }

  function TrimSpace(s: string): string {
    if s == [] then s
    else if IsSpace(s[0]) then TrimSpace(s[1..])
    else if IsSpace(s[|s| - 1]) then TrimSpace(s[..|s| - 1])
    else s
  }

  ghost predicate AllSpace(s: string) {
    forall i | 0 <= i < |s| :: IsSpace(s[i])
  }

  /** Trimming removes exactly the spaces in front and at the end. */
  lemma {:induction false} TrimExactly(s: string) returns (front: string, back: string)
    ensures s == front + TrimSpace(s) + back && AllSpace(front) && AllSpace(back)
    ensures var r := TrimSpace(s); r != "" ==> !IsSpace(r[0]) && !IsSpace(r[|r| - 1])
    decreases |s|
  {
    TrimmedEnds(s);
    front, back := "", "";
    if s != [] && IsSpace(s[0]) {
      front, back := TrimExactly(s[1..]);
      MoreInFront(s, front, TrimSpace(s), back);
      front := [s[0]] + front;
    } else if s != [] && IsSpace(s[|s| - 1]) {
      var n := |s| - 1;
      front, back := TrimExactly(s[..n]);
      MoreAtTheEnd(s, front, TrimSpace(s), back);
      back := back + [s[n]];
    }
  }

  lemma {:induction false} TrimmedEnds(s: string)
    ensures var r := TrimSpace(s); r != "" ==> !IsSpace(r[0]) && !IsSpace(r[|r| - 1])
    decreases |s|
  {
    if s != [] {
      TrimmedEnds(s[1..]);
      TrimmedEnds(s[..|s| - 1]);
    }
  }

  lemma MoreInFront(s: string, front: string, r: string, back: string)
    requires s != [] && IsSpace(s[0]) && s[1..] == front + r + back && AllSpace(front)
    ensures s == [s[0]] + front + r + back && AllSpace([s[0]] + front)
  {
    assert s == [s[0]] + s[1..];
  }

  lemma MoreAtTheEnd(s: string, front: string, r: string, back: string)
    requires s != [] && IsSpace(s[|s| - 1]) && s[..|s| - 1] == front + r + back && AllSpace(back)
    ensures s == front + r + (back + [s[|s| - 1]]) && AllSpace(back + [s[|s| - 1]])
  {
    assert s == s[..|s| - 1] + [s[|s| - 1]];
  }

  /** Among the ASCII characters: the blank, and tab, newline, vertical tab, form feed and return. */
  lemma AsciiSpace(c: char)
    requires c as int < 128
    ensures IsSpace(c) <==> c == ' ' || 9 <= c as int <= 13
  {
  }

  /** The paths poll acquires, in order, from the pieces of the column. */
  function Kept(pieces: seq<string>): seq<string> {
    if pieces == [] then []
    else
      var n := |pieces| - 1;
      Kept(pieces[..n]) + if TrimSpace(pieces[n]) == "" then [] else [TrimSpace(pieces[n])]
  }

  lemma {:induction false} KeptPrefix(pieces: seq<string>, j: nat)
    requires j <= |pieces|
    ensures Kept(pieces[..j]) <= Kept(pieces)
    decreases |pieces|
  {
    var n := |pieces| - 1;
    if j <= n {
      KeptPrefix(pieces[..n], j);
      assert pieces[..n][..j] == pieces[..j];
    } else {
      assert pieces[..j] == pieces;
    }
  }

  /** The next piece adds its path, if it is one, at the next position. */
  lemma KeptNext(pieces: seq<string>, j: nat)
    requires j < |pieces|
    ensures var before, after, p := Kept(pieces[..j]), Kept(pieces[..j + 1]), TrimSpace(pieces[j]);
      if p == "" then |after| == |before|
      else |after| == |before| + 1 <= |Kept(pieces)| && Kept(pieces)[|before|] == p
  {
    assert pieces[..j + 1][..j] == pieces[..j];
    KeptPrefix(pieces, j + 1);
  }

  /** Where the pieces with a path stand. */
  ghost function Positions(pieces: seq<string>): seq<nat> {
    if pieces == [] then []
    else
      var n := |pieces| - 1;
      Positions(pieces[..n]) + if TrimSpace(pieces[n]) == "" then [] else [n]
  }

  lemma {:induction false} PositionsRise(pieces: seq<string>, i: nat, j: nat)
    requires i <= j < |Positions(pieces)|
    ensures Positions(pieces)[i] <= Positions(pieces)[j] < |pieces|
    ensures i < j ==> Positions(pieces)[i] < Positions(pieces)[j]
  {
    var front := pieces[..|pieces| - 1];
    var at := Positions(front);
    if j < |at| {
      PositionsRise(front, i, j);
    } else if i < |at| {
      PositionsRise(front, i, i);
    }
  }

  lemma {:induction false} PositionsCover(pieces: seq<string>, k: nat)
    ensures k in Positions(pieces) <==> k < |pieces| && TrimSpace(pieces[k]) != ""
  {
    if pieces != [] { PositionsCover(pieces[..|pieces| - 1], k); }
  }

  lemma {:induction false} KeptAt(pieces: seq<string>, i: nat)
    ensures |Kept(pieces)| == |Positions(pieces)|
    ensures var at := Positions(pieces); i < |at| ==> at[i] < |pieces| && Kept(pieces)[i] == TrimSpace(pieces[at[i]])
  {
    if pieces != [] { KeptAt(pieces[..|pieces| - 1], i); }
  }

  /** The paths are the trimmed pieces that are not empty, in their order. */
  lemma KeptExactly(pieces: seq<string>) returns (at: seq<nat>)
    ensures |at| == |Kept(pieces)|
    ensures forall i | 0 <= i < |at| :: at[i] < |pieces| && Kept(pieces)[i] == TrimSpace(pieces[at[i]])
    ensures forall i, j | 0 <= i < j < |at| :: at[i] < at[j]
    ensures forall k: nat :: k in at <==> k < |pieces| && TrimSpace(pieces[k]) != ""
  {
    at := Positions(pieces);
    forall i, j | 0 <= i < j < |at| ensures at[i] < at[j] {
      PositionsRise(pieces, i, j);
    }
    KeptAt(pieces, 0);
    forall i | 0 <= i < |at| ensures at[i] < |pieces| && Kept(pieces)[i] == TrimSpace(pieces[at[i]]) {
      KeptAt(pieces, i);
    }
    forall k: nat ensures k in at <==> k < |pieces| && TrimSpace(pieces[k]) != "" {
      PositionsCover(pieces, k);
    }
  }

  function PathsOf(ownedPaths: string): seq<string> {
    Kept(Split(ownedPaths, ','))
  }

  /** A path the text encoding does not disturb. */
  predicate CleanPath(p: string) {
    ',' !in p && TrimSpace(p) == p
  }

  lemma {:induction false} KeptFromPieces(pieces: seq<string>)
    requires forall p | p in pieces :: TrimSpace(p) == p
    ensures forall p | p in Kept(pieces) :: p in pieces
  {
    if pieces != [] {
      var n := |pieces| - 1;
      assert pieces[n] in pieces && forall p | p in pieces[..n] :: p in pieces;
      KeptFromPieces(pieces[..n]);
    }
  }

  lemma {:induction false} KeptWhole(pieces: seq<string>)
    requires forall p | p in pieces :: TrimSpace(p) == p && p != ""
    ensures Kept(pieces) == pieces
  {
    if pieces != [] {
      var n := |pieces| - 1;
      assert pieces[n] in pieces && forall p | p in pieces[..n] :: p in pieces;
      KeptWhole(pieces[..n]);
      assert pieces == pieces[..n] + [pieces[n]];
    }
  }

  /** What poll reads back from a column written from clean paths: declared paths only, and
      exactly the declared list when none of them is empty. */
  lemma PathsReadBack(owned: seq<string>)
    requires forall p | p in owned :: CleanPath(p)
    ensures forall p | p in PathsOf(Join(owned, ',')) :: p in owned
    ensures (forall p | p in owned :: p != "") ==> PathsOf(Join(owned, ',')) == owned
  {
    if owned != [] {
      SplitJoin(owned, ',');
      KeptFromPieces(owned);
      if forall p | p in owned :: p != "" { KeptWhole(owned); }
    } else {
      assert Kept([""]) == Kept([]);
    }
  }
}
