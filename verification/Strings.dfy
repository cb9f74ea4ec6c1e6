/** String.split, and the scanner's rewriting of escape sequences in string literals. */
module Strings {

  /** The pattern stands in the text at the position. */
  predicate MatchesAt(s: string, d: string, i: nat) {
    i + |d| <= |s| && s[i..i + |d|] == d
  }

  // ----- split -----

  /** The buffer belongs to the first piece. */
  function Prepend(buffer: string, pieces: seq<string>): (r: seq<string>)
    requires pieces != []
    ensures |r| == |pieces|
  {
    [buffer + pieces[0]] + pieces[1..]
  }

  predicate NulFree(d: string) { '\U{0000}' !in d }

  /** What is searched for: the delimiter up to its first NUL character. */
  function Pattern(d: string): (p: string)
    ensures NulFree(p) && p <= d
    ensures NulFree(d) ==> p == d
  {
    if d == "" || d[0] == '\U{0000}' then "" else [d[0]] + Pattern(d[1..])
  }

  predicate Found(s: string, d: string, i: nat) { MatchesAt(s, Pattern(d), i) }

  /** What is left behind `n` characters. */
  function Behind(s: string, n: nat): string {
    if n <= |s| then s[n..] else ""
  }

  /** The pieces between successive matches, from left to right, after at most `limit` splits; each match takes
      as many characters as the delimiter has. */
  function Pieces(s: string, d: string, limit: nat, unlimited: bool): (r: seq<string>)
    requires d != ""
    ensures r != []
    decreases |s|
  {
    if s == "" then [""]
    else if (unlimited || limit > 0) && Found(s, d, 0) then
      [""] + Pieces(Behind(s, |d|), d, if limit > 0 then limit - 1 else 0, unlimited)
    else Prepend([s[0]], Pieces(s[1..], d, limit, unlimited))
  }

  function Join(pieces: seq<string>, d: string): string
    requires pieces != []
  {
    if |pieces| == 1 then pieces[0] else pieces[0] + d + Join(pieces[1..], d)
  }

  lemma JoinPrefix(c: string, r: seq<string>, d: string)
    requires r != []
    ensures Join(Prepend(c, r), d) == c + Join(r, d)
  {
    if |r| > 1 {
      assert Prepend(c, r)[1..] == r[1..];
      assert c + r[0] + d + Join(r[1..], d) == c + (r[0] + d + Join(r[1..], d));
    }
  }

  /** Joining the pieces with the delimiter gives the text back. */
  lemma {:induction false} JoinSplit(s: string, d: string, limit: nat, unlimited: bool)
    requires d != "" && NulFree(d)
    ensures Join(Pieces(s, d, limit, unlimited), d) == s
    decreases |s|
  {
    if s != "" {
      if (unlimited || limit > 0) && Found(s, d, 0) {
        var rest := s[|d|..];
        var next := if limit > 0 then limit - 1 else 0;
        JoinSplit(rest, d, next, unlimited);
        var r := Pieces(rest, d, next, unlimited);
        assert ([""] + r)[1..] == r;
        assert "" + d + rest == s;
      } else {
        JoinSplit(s[1..], d, limit, unlimited);
        JoinPrefix([s[0]], Pieces(s[1..], d, limit, unlimited), d);
      }
    }
  }

  /** It does so for every text if and only if the delimiter has no NUL character. */
  lemma JoinSplitExactly(d: string)
    requires d != ""
    ensures NulFree(d) <==> forall s :: Join(Pieces(s, d, 0, true), d) == s
  {
    if NulFree(d) {
      forall s ensures Join(Pieces(s, d, 0, true), d) == s {
        JoinSplit(s, d, 0, true);
      }
    } else {
      var s := Pattern(d) + "a";
      CutShort(d);
      assert Found(s, d, 0) && Behind(s, |d|) == "";
      assert Pieces(s, d, 0, true) == ["", ""];
      assert Join(["", ""], d) == "" + d + "" == d;
      assert NulFree(s);
    }
  }

  lemma CutShort(d: string)
    requires !NulFree(d)
    ensures |Pattern(d)| < |d|
  {
    assert Pattern(d) != d;
  }

  lemma {:induction false} SplitCount(s: string, d: string, limit: nat)
    requires d != ""
    ensures |Pieces(s, d, limit, false)| <= limit + 1
    decreases |s|
  {
    if s != "" {
      if limit > 0 && Found(s, d, 0) {
        SplitCount(Behind(s, |d|), d, limit - 1);
      } else {
        SplitCount(s[1..], d, limit);
      }
    }
  }

  /** Each piece ends at the first match after its start: followed by the delimiter, it has no earlier one. */
  predicate FirstMatch(piece: string, d: string) {
    forall j :: 0 <= j < |piece| ==> !MatchesAt(piece + d, d, j)
  }

  ghost predicate Free(piece: string, d: string) {
    forall j: nat :: !MatchesAt(piece, d, j)
  }

  lemma {:induction false} SplitLeftmost(s: string, d: string, limit: nat, unlimited: bool)
    requires d != "" && NulFree(d)
    ensures var r := Pieces(s, d, limit, unlimited);
            && (forall i :: 0 <= i < |r| - 1 ==> FirstMatch(r[i], d))
            && (unlimited || |r| <= limit ==> Free(r[|r| - 1], d))
    decreases |s|
  {
    hide FirstMatch, Free, MatchesAt, Pieces;
    if s == "" {
      EmptyPieces(d, limit, unlimited);
      EmptyPiece(d);
    } else if (unlimited || limit > 0) && Found(s, d, 0) {
      MatchFits(s, d, 0);
      SplitLeftmost(s[|d|..], d, if limit > 0 then limit - 1 else 0, unlimited);
      EmptyPiece(d);
      PiecesStep(s, d, limit, unlimited);
    } else {
      PiecesStep(s, d, limit, unlimited);
      SplitLeftmost(s[1..], d, limit, unlimited);
      var r, q := Pieces(s, d, limit, unlimited), Pieces(s[1..], d, limit, unlimited);
      JoinSplit(s, d, limit, unlimited);
      if !unlimited {
        SplitCount(s, d, limit);
      }
      if |r| > 1 {
        Longer(s, r[0], q[0], r[1..], d);
      } else if unlimited || |r| <= limit {
        assert s == r[0];
        ShiftFree(s, q[0], d);
      }
    }
  }

  lemma EmptyPiece(d: string)
    requires d != ""
    ensures FirstMatch("", d) && Free("", d)
  {
  }

  /** No match at the start of the text: the first piece stays free of early matches. */
  lemma Longer(s: string, piece: string, tail: string, later: seq<string>, d: string)
    requires s != "" && piece == [s[0]] + tail && FirstMatch(tail, d) && !MatchesAt(s, d, 0)
    requires later != [] && s == piece + d + Join(later, d)
    ensures FirstMatch(piece, d)
  {
    assert s[..|d|] == (piece + d)[..|d|];
    forall j | 0 <= j < |piece| ensures !MatchesAt(piece + d, d, j) {
      if j > 0 {
        assert (piece + d)[j..j + |d|] == (tail + d)[j - 1..j - 1 + |d|];
        assert !MatchesAt(tail + d, d, j - 1);
      }
    }
  }

  lemma ShiftFree(s: string, tail: string, d: string)
    requires d != "" && s != "" && s == [s[0]] + tail && Free(tail, d) && !MatchesAt(s, d, 0)
    ensures Free(s, d)
  {
    forall j: nat ensures !MatchesAt(s, d, j) {
      if j > 0 && j + |d| <= |s| {
        assert s[j..j + |d|] == tail[j - 1..j - 1 + |d|];
        assert !MatchesAt(tail, d, j - 1);
      }
    }
  }

  /** With no maximum, no piece contains the delimiter. */
  lemma NoDelimiterLeft(s: string, d: string)
    requires d != "" && NulFree(d)
    ensures forall i :: 0 <= i < |Pieces(s, d, 0, true)| ==> Free(Pieces(s, d, 0, true)[i], d)
  {
    var r := Pieces(s, d, 0, true);
    SplitLeftmost(s, d, 0, true);
    forall i | 0 <= i < |r| ensures Free(r[i], d) {
      if i < |r| - 1 {
        forall j: nat ensures !MatchesAt(r[i], d, j) {
          if j + |d| <= |r[i]| {
            assert (r[i] + d)[j..j + |d|] == r[i][j..j + |d|];
            assert !MatchesAt(r[i] + d, d, j);
          }
        }
      }
    }
  }

  /** `string::find` from a position; the length stands for npos. */
  method Find(s: string, d: string, from: nat) returns (at: nat)
    requires from < |s|
    ensures from <= at <= |s| && (at < |s| ==> MatchesAt(s, d, at))
    ensures forall j :: from <= j < at ==> !MatchesAt(s, d, j)
  {
    at := from;
    while at < |s| && !(at + |d| <= |s| && s[at..at + |d|] == d)
      invariant from <= at <= |s|
      invariant forall j :: from <= j < at ==> !MatchesAt(s, d, j)
    {
      at := at + 1;
    }
  }

  /** `s.split(d, maximum)`: nothing at all for an empty text, one piece for an empty delimiter; 0 and, as
      the number is taken as unsigned, negative maxima do not limit. */
  method Split(s: string, d: string, maximum: int) returns (list: seq<string>)
    ensures s == "" ==> list == []
    ensures s != "" && d == "" ==> list == [s]
    ensures s != "" && d != "" ==> list == Pieces(s, d, Left(maximum, 0), maximum <= 0)
  {
    hide Pieces, MatchesAt, Pattern;
    list := [];
    if s == "" {
      return;
    }
    if d == "" {
      return [s];
    }
    var buffer := "";
    var position := 0;
    assert s[0..] == s;
    PrependNothing(Pieces(s, d, Left(maximum, 0), maximum <= 0));
    while position < |s|
      invariant list + Prepend(buffer, Pieces(Behind(s, position), d, Left(maximum, |list|), maximum <= 0))
                == Pieces(s, d, Left(maximum, 0), maximum <= 0)
      decreases |s| - position
    {
      var matched := false;
      if maximum <= 0 || |list| < maximum {
        var last := Find(s, Pattern(d), position);
        matched := last == position;
      }
      SplitStep(list, buffer, s, d, position, maximum);
      if matched {
        list := list + [buffer];
        position := position + |d|;
        buffer := "";
      } else {
        buffer := buffer + [s[position]];
        position := position + 1;
      }
    }
    assert Pieces("", d, Left(maximum, |list|), maximum <= 0) == [""]
           by { EmptyPieces(d, Left(maximum, |list|), maximum <= 0); }
    assert Behind(s, position) == "" && buffer + "" == buffer;
    list := list + [buffer];
  }

  /** How many splits are left after n. */
  function Left(maximum: int, n: nat): nat {
    if maximum > n then maximum - n else 0
  }

  lemma EmptyPieces(d: string, limit: nat, unlimited: bool)
    requires d != ""
    ensures Pieces("", d, limit, unlimited) == [""]
  {
  }

  lemma SplitStep(list: seq<string>, buffer: string, s: string, d: string, position: nat, maximum: int)
    requires d != "" && position < |s|
    ensures var now := list + Prepend(buffer, Pieces(s[position..], d, Left(maximum, |list|), maximum <= 0));
            if (maximum <= 0 || |list| < maximum) && Found(s, d, position) then
              var later := Pieces(Behind(s, position + |d|), d, Left(maximum, |list| + 1), maximum <= 0);
              now == list + [buffer] + Prepend("", later)
            else
              now == list + Prepend(buffer + [s[position]],
                                    Pieces(s[position + 1..], d, Left(maximum, |list|), maximum <= 0))
  {
    hide MatchesAt, Pieces, Prepend, Pattern;
    var rest, limit := s[position..], Left(maximum, |list|);
    SameMatch(s, Pattern(d), position);
    PiecesStep(rest, d, limit, maximum <= 0);
    if (maximum <= 0 || |list| < maximum) && Found(s, d, position) {
      assert Behind(rest, |d|) == Behind(s, position + |d|);
      PrependMatch(list, buffer, Pieces(Behind(s, position + |d|), d, Left(maximum, |list| + 1), maximum <= 0));
    } else {
      assert rest[1..] == s[position + 1..];
      PrependMore(buffer, s[position], Pieces(s[position + 1..], d, limit, maximum <= 0));
    }
  }

  lemma PrependMatch(list: seq<string>, buffer: string, pieces: seq<string>)
    requires pieces != []
    ensures list + Prepend(buffer, [""] + pieces) == list + [buffer] + Prepend("", pieces)
  {
    PrependNothing(pieces);
    assert buffer + "" == buffer;
    assert Prepend(buffer, [""] + pieces) == [buffer] + pieces;
  }

  lemma PiecesStep(s: string, d: string, limit: nat, unlimited: bool)
    requires d != "" && s != ""
    ensures Pieces(s, d, limit, unlimited) ==
            if (unlimited || limit > 0) && Found(s, d, 0) then
              [""] + Pieces(Behind(s, |d|), d, if limit > 0 then limit - 1 else 0, unlimited)
            else Prepend([s[0]], Pieces(s[1..], d, limit, unlimited))
  {
  }

  lemma MatchFits(s: string, d: string, i: nat)
    requires MatchesAt(s, d, i)
    ensures i + |d| <= |s|
  {
  }

  lemma SameMatch(s: string, d: string, position: nat)
    requires position <= |s|
    ensures MatchesAt(s[position..], d, 0) == MatchesAt(s, d, position)
  {
    if position + |d| <= |s| {
      assert s[position..][..|d|] == s[position..position + |d|];
    }
  }

  lemma PrependNothing(pieces: seq<string>)
    requires pieces != []
    ensures Prepend("", pieces) == pieces
  {
    assert "" + pieces[0] == pieces[0];
    assert [pieces[0]] + pieces[1..] == pieces;
  }

  lemma PrependMore(buffer: string, c: char, pieces: seq<string>)
    requires pieces != []
    ensures Prepend(buffer, Prepend([c], pieces)) == Prepend(buffer + [c], pieces)
  {
    assert buffer + ([c] + pieces[0]) == buffer + [c] + pieces[0];
  }

  // ----- escape sequences -----

  /** What the character after a backslash stands for between double or single quotes. */
  function Meaning(double: bool, c: char): (r: seq<char>)
    ensures |r| <= 1
  {
    if double then
      match c
      case 'n' => ['\n']
      case 'r' => ['\r']
      case 't' => ['\t']
      case 'v' => ['\U{000B}']
      case '"' => ['"']
      case '\\' => ['\\']
      case _ => []
    else if c == '\'' then ['\'']
    else []
  }

  /** One pass from left to right; a backslash before any other character stands for itself. */
  function Unescaped(double: bool, s: string): string {
    if s == "" then ""
    else if s[0] == '\\' && |s| > 1 && Meaning(double, s[1]) != [] then
      Meaning(double, s[1]) + Unescaped(double, s[2..])
    else [s[0]] + Unescaped(double, s[1..])
  }

  /** The scanner's loop: finds a backslash, rewrites the text in place, and goes on from there. */
  method Unescape(double: bool, literal: string) returns (text: string)
    ensures text == Unescaped(double, literal)
  {
    text := literal;
    assert text[..0] + Unescaped(double, text[0..]) == Unescaped(double, literal);
    var found := FindBackslash(text, 0);
    SkipPlain(double, text, 0, found);
    while found < |text|
      invariant 0 <= found <= |text| && (found < |text| ==> text[found] == '\\')
      invariant text[..found] + Unescaped(double, text[found..]) == Unescaped(double, literal)
      decreases |text| - found
    {
      var r := if found + 1 < |text| then Meaning(double, text[found + 1]) else [];
      if r != [] {
        Rewritten(double, text, found, r);
        text := text[..found] + r + text[found + 2..];
      }
      if r == [] || r[0] == '\\' {
        if r == [] {
          Kept(double, text, found);
        }
        found := found + 1;
      }
      var next := FindBackslash(text, found);
      SkipPlain(double, text, found, next);
      found := next;
    }
    assert text[..found] == text && text[found..] == "";
  }

  /** A backslash that starts no escape sequence stands for itself. */
  lemma Kept(double: bool, s: string, i: nat)
    requires i < |s| && (i + 1 < |s| ==> Meaning(double, s[i + 1]) == [])
    ensures s[..i + 1] + Unescaped(double, s[i + 1..]) == s[..i] + Unescaped(double, s[i..])
  {
    assert s[..i + 1] == s[..i] + [s[i]] && s[i + 1..] == s[i..][1..];
    assert s[..i] + ([s[i]] + Unescaped(double, s[i + 1..])) == s[..i + 1] + Unescaped(double, s[i + 1..]);
  }

  method FindBackslash(s: string, from: nat) returns (at: nat)
    requires from <= |s|
    ensures from <= at <= |s| && (at < |s| ==> s[at] == '\\')
    ensures forall j :: from <= j < at ==> s[j] != '\\'
  {
    at := from;
    while at < |s| && s[at] != '\\'
      invariant from <= at <= |s| && forall j :: from <= j < at ==> s[j] != '\\'
    {
      at := at + 1;
    }
  }

  /** Characters other than backslashes are kept. */
  lemma {:induction false} SkipPlain(double: bool, s: string, from: nat, next: nat)
    requires from <= next <= |s| && forall j :: from <= j < next ==> s[j] != '\\'
    ensures s[..from] + Unescaped(double, s[from..]) == s[..next] + Unescaped(double, s[next..])
    decreases |s| - from
  {
    if from < next {
      assert s[from..][1..] == s[from + 1..];
      assert s[..from + 1] == s[..from] + [s[from]];
      assert s[..from] + ([s[from]] + Unescaped(double, s[from + 1..]))
             == s[..from + 1] + Unescaped(double, s[from + 1..]);
      SkipPlain(double, s, from + 1, next);
    }
  }

  /** Replacing an escape sequence in place: the replacement itself is not read again as an escape. */
  lemma Rewritten(double: bool, s: string, i: nat, r: string)
    requires i + 1 < |s| && s[i] == '\\' && r == Meaning(double, s[i + 1]) && |r| == 1
    ensures var s' := s[..i] + r + s[i + 2..];
            && s'[..i] == s[..i] && s'[i + 1..] == s[i + 2..] && s'[i] == r[0] && |s'| == |s| - 1
            && (r[0] != '\\' ==> s'[..i] + Unescaped(double, s'[i..]) == s[..i] + Unescaped(double, s[i..]))
            && (r[0] == '\\' ==> s'[..i + 1] + Unescaped(double, s'[i + 1..]) == s[..i] + Unescaped(double, s[i..]))
  {
    var s' := s[..i] + r + s[i + 2..];
    assert s[i..][2..] == s[i + 2..];
    assert s'[i..] == r + s[i + 2..];
    assert s'[i..][1..] == s[i + 2..];
    assert s'[..i + 1] == s[..i] + r;
    assert s[..i] + (r + Unescaped(double, s[i + 2..])) == s[..i] + r + Unescaped(double, s[i + 2..]);
  }

  /** How each character can be written in a literal. */
  function Escape(double: bool, c: char): string {
    if double then
      match c
      case '\n' => "\\n"
      case '\r' => "\\r"
      case '\t' => "\\t"
      case '\U{000B}' => "\\v"
      case '"' => "\\\""
      case '\\' => "\\\\"
      case _ => [c]
    else if c == '\'' then "\\'"
    else [c]
  }

  function Escaped(double: bool, s: string): string {
    if s == "" then "" else Escape(double, s[0]) + Escaped(double, s[1..])
  }

  /** A backslash and a character stand for another one if and only if they are how that one is escaped. */
  lemma OnlyEscapes(double: bool, c: char)
    ensures Meaning(double, c) != [] <==> exists x :: Escape(double, x) == ['\\', c]
    ensures forall x :: Escape(double, x) == ['\\', c] ==> Meaning(double, c) == [x]
  {
    if Meaning(double, c) != [] {
      assert Escape(double, Meaning(double, c)[0]) == ['\\', c];
    }
  }

  /** The sequences of the language. */
  lemma EscapeTable(c: char)
    ensures Escape(true, '\n') == "\\n" && Escape(true, '\r') == "\\r" && Escape(true, '\t') == "\\t"
    ensures Escape(true, '\U{000B}') == "\\v" && Escape(true, '"') == "\\\"" && Escape(true, '\\') == "\\\\"
    ensures Escape(false, '\'') == "\\'" && (c != '\'' ==> Escape(false, c) == [c])
    ensures c !in "\n\r\t\U{000B}\"\\" ==> Escape(true, c) == [c]
  {
  }

  /** An escape sequence starts at the position. */
  ghost predicate EscapeAt(double: bool, s: string, i: nat) {
    i + 1 < |s| && exists x :: Escape(double, x) == s[i..i + 2]
  }

  /** Unescaping leaves a text unchanged if and only if no escape sequence starts in it, and shortens it otherwise. */
  lemma {:induction false} UnescapeUnchanged(double: bool, s: string)
    ensures |Unescaped(double, s)| <= |s|
    ensures Unescaped(double, s) == s <==> forall i: nat :: !EscapeAt(double, s, i)
    ensures |Unescaped(double, s)| == |s| <==> Unescaped(double, s) == s
    decreases |s|
  {
    hide Escape, Meaning;
    if s != "" {
      AtStart(double, s);
      if EscapeAt(double, s, 0) {
        UnescapeUnchanged(double, s[2..]);
      } else {
        UnescapeUnchanged(double, s[1..]);
        assert s == [s[0]] + s[1..];
        forall i: nat ensures EscapeAt(double, s, i + 1) == EscapeAt(double, s[1..], i) {
          if i + 2 < |s| {
            assert s[i + 1..i + 3] == s[1..][i..i + 2];
          }
        }
        if forall i: nat :: !EscapeAt(double, s[1..], i) {
          forall i: nat ensures !EscapeAt(double, s, i) {
            if i > 0 {
              assert EscapeAt(double, s, (i - 1) + 1) == EscapeAt(double, s[1..], i - 1);
            }
          }
        } else {
          var i: nat :| EscapeAt(double, s[1..], i);
          assert EscapeAt(double, s, i + 1);
        }
      }
    }
  }

  lemma AtStart(double: bool, s: string)
    requires s != ""
    ensures EscapeAt(double, s, 0) <==> (s[0] == '\\' && |s| > 1 && Meaning(double, s[1]) != [])
  {
    if |s| > 1 {
      OnlyEscapes(double, s[1]);
      assert s[0..2] == [s[0], s[1]];
      if EscapeAt(double, s, 0) {
        var x :| Escape(double, x) == s[0..2];
        TwoCharacters(double, x);
      }
    }
  }

  lemma TwoCharacters(double: bool, x: char)
    ensures |Escape(double, x)| == 2 ==> Escape(double, x)[0] == '\\'
  {
  }

  /** Unescaping inverts escaping on every string, for both kinds of quotes: a backslash needs no escape
      between single quotes. */
  lemma {:induction false} UnescapeInverse(double: bool, s: string)
    ensures Unescaped(double, Escaped(double, s)) == s
    decreases |s|
  {
    if s != "" {
      hide Escape, Meaning;
      UnescapeInverse(double, s[1..]);
      var e, rest := Escape(double, s[0]), Escaped(double, s[1..]);
      EscapeCases(double, s[0]);
      if |e| == 2 {
        assert (e + rest)[2..] == rest;
      } else {
        assert (e + rest)[1..] == rest;
        if |s| > 1 {
          EscapeCases(double, s[1]);
        }
      }
      assert s == [s[0]] + s[1..];
    }
  }

  /** An escape sequence stands for its character; what is not escaped starts none. */
  lemma EscapeCases(double: bool, c: char)
    ensures var e := Escape(double, c);
            && (|e| == 1 || |e| == 2)
            && (|e| == 2 ==> e[0] == '\\' && Meaning(double, e[1]) == [c])
            && (|e| == 1 ==> e == [c] && (c == '\\' ==> !double))
            && (!double ==> Meaning(double, e[0]) == [])
  {
  }
}
