/** Splitting at a one-character separator and joining again, with the string
    semantics the route patterns, permission slugs and tokens rely on. */
module Text {

  /** The pieces between separators; a string without a separator is one piece,
      and the empty string is one empty piece. */
  function Split(s: string, sep: char): (parts: seq<string>)
    ensures parts != []
  {
    if s == "" then [""]
    else
      var rest := Split(s[1..], sep);
      if s[0] == sep then [""] + rest else [[s[0]] + rest[0]] + rest[1..]
  }

  function Join(parts: seq<string>, sep: string): string
  {
    if parts == [] then ""
    else if |parts| == 1 then parts[0]
    else parts[0] + sep + Join(parts[1..], sep)
  }

  predicate StartsWith(s: string, c: char) {
    s != "" && s[0] == c
  }

  lemma {:induction false} SplitPiecesAvoidSeparator(s: string, sep: char)
    ensures forall i :: 0 <= i < |Split(s, sep)| ==> sep !in Split(s, sep)[i]
  {
    if s == "" {
    } else {
      SplitPiecesAvoidSeparator(s[1..], sep);
    }
  }

  lemma JoinAfterSeparator(rest: seq<string>, sep: string)
    requires rest != []
    ensures Join([""] + rest, sep) == sep + Join(rest, sep)
  {
    assert ([""] + rest)[1..] == rest;
  }

  lemma JoinOfLongerHead(c: char, rest: seq<string>, sep: string)
    requires rest != []
    ensures Join([[c] + rest[0]] + rest[1..], sep) == [c] + Join(rest, sep)
  {
    assert ([[c] + rest[0]] + rest[1..])[1..] == rest[1..];
    if |rest| > 1 {
      assert ([c] + rest[0]) + sep + Join(rest[1..], sep) == [c] + (rest[0] + sep + Join(rest[1..], sep));
    }
  }

  lemma {:induction false} JoinUndoesSplit(s: string, sep: char)
    ensures Join(Split(s, sep), [sep]) == s
  {
    if s == "" {
    } else {
      hide Join;
      var rest := Split(s[1..], sep);
      JoinUndoesSplit(s[1..], sep);
      JoinAfterSeparator(rest, [sep]);
      JoinOfLongerHead(s[0], rest, [sep]);
      assert s == [s[0]] + s[1..];
    }
  }

  lemma {:induction false} SplitOfPrefixed(piece: string, tail: string, sep: char)
    requires sep !in piece
    ensures Split(piece + [sep] + tail, sep) == [piece] + Split(tail, sep)
  {
    var s := piece + [sep] + tail;
    if piece == "" {
      assert s[1..] == tail;
    } else {
      SplitOfPrefixed(piece[1..], tail, sep);
      assert s[1..] == piece[1..] + [sep] + tail;
      assert piece == [piece[0]] + piece[1..];
    }
  }

  lemma {:induction false} SplitOfPiece(piece: string, sep: char)
    requires sep !in piece
    ensures Split(piece, sep) == [piece]
  {
    if piece == "" {
    } else {
      SplitOfPiece(piece[1..], sep);
      assert piece == [piece[0]] + piece[1..];
    }
  }

  lemma JoinOfHeadAndTail(parts: seq<string>, sep: string)
    requires |parts| > 1
    ensures Join(parts, sep) == parts[0] + sep + Join(parts[1..], sep)
  {
  }

  lemma {:induction false} SplitUndoesJoin(parts: seq<string>, sep: char)
    requires parts != []
    requires forall i :: 0 <= i < |parts| ==> sep !in parts[i]
    ensures Split(Join(parts, [sep]), sep) == parts
  {
    hide Split;
    if |parts| == 1 {
      SplitOfPiece(parts[0], sep);
    } else {
      hide Join;
      SplitUndoesJoin(parts[1..], sep);
      JoinOfHeadAndTail(parts, [sep]);
      SplitOfPrefixed(parts[0], Join(parts[1..], [sep]), sep);
    }
  }

  lemma JoinOfThree(a: string, b: string, c: string, sep: string)
    ensures Join([a, b, c], sep) == a + sep + b + sep + c
  {
    assert [a, b, c][1..] == [b, c];
    assert [b, c][1..] == [c];
    assert Join([b, c], sep) == b + sep + c;
  }
}
