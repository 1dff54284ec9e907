/** The string operations of Python that the parser of opening hours relies on, and the laws between them. */
module Text {

  /** `str.isspace` for a single character. */
  predicate IsSpace(c: char) {
    var code := c as int;
    || 9 <= code <= 13 || 28 <= code <= 32 || code == 0x85 || code == 0xA0 || code == 0x1680
    || 0x2000 <= code <= 0x200A || code == 0x2028 || code == 0x2029 || code == 0x202F || code == 0x205F
    || code == 0x3000
  }

  predicate IsWord(s: string) {
    s != "" && forall i | 0 <= i < |s| :: !IsSpace(s[i])
  }

  // ─── strip ───

  function StripLeft(s: string): string {
    if s != "" && IsSpace(s[0]) then StripLeft(s[1..]) else s
  }

  function StripRight(s: string): string {
    if s != "" && IsSpace(s[|s| - 1]) then StripRight(s[..|s| - 1]) else s
  }

  function Strip(s: string): string {
    StripRight(StripLeft(s))
  }

  lemma StripPadded(s: string)
    requires s != "" && !IsSpace(s[0]) && !IsSpace(s[|s| - 1])
    ensures Strip(s) == s && Strip(" " + s) == s
  {
    assert (" " + s)[1..] == s;
  }

  predicate IsAllSpace(s: string) {
    forall i | 0 <= i < |s| :: IsSpace(s[i])
  }

  /** Stripping takes away any white space before and after, and nothing else. */
  lemma {:induction false} StripSurrounded(before: string, s: string, after: string)
    requires IsAllSpace(before) && IsAllSpace(after)
    requires s != "" && !IsSpace(s[0]) && !IsSpace(s[|s| - 1])
    ensures Strip(before + s + after) == s
  {
    StripLeftSurrounded(before, s + after);
    StripRightSurrounded(s, after);
    assert before + s + after == before + (s + after);
  }

  lemma {:induction false} StripLeftSurrounded(before: string, s: string)
    requires IsAllSpace(before) && s != "" && !IsSpace(s[0])
    ensures StripLeft(before + s) == s
  {
    if before == "" {
      assert before + s == s;
    } else {
      assert (before + s)[1..] == before[1..] + s;
      StripLeftSurrounded(before[1..], s);
    }
  }

  lemma {:induction false} StripRightSurrounded(s: string, after: string)
    requires IsAllSpace(after) && s != "" && !IsSpace(s[|s| - 1])
    ensures StripRight(s + after) == s
    decreases |after|
  {
    if after == "" {
      assert s + after == s;
    } else {
      var init := after[..|after| - 1];
      assert (s + after)[..|s + after| - 1] == s + init;
      StripRightSurrounded(s, init);
    }
  }

  // ─── split at a character ───

  function Split(s: string, separator: char): (pieces: seq<string>)
    ensures pieces != []
  {
    if s == "" then [""]
    else
      var rest := Split(s[1..], separator);
      if s[0] == separator then [""] + rest else [[s[0]] + rest[0]] + rest[1..]
  }

  function Join(pieces: seq<string>, separator: char): string {
    if pieces == [] then ""
    else if |pieces| == 1 then pieces[0]
    else pieces[0] + [separator] + Join(pieces[1..], separator)
  }

  lemma {:induction false} SplitAfterPiece(piece: string, rest: string, separator: char)
    requires separator !in piece
    ensures Split(piece, separator) == [piece]
    ensures Split(piece + [separator] + rest, separator) == [piece] + Split(rest, separator)
  {
    var whole := piece + [separator] + rest;
    if piece == "" {
      assert whole[1..] == rest;
    } else {
      SplitAfterPiece(piece[1..], rest, separator);
      assert whole[1..] == piece[1..] + [separator] + rest;
      assert piece == [piece[0]] + piece[1..];
      assert ([piece[1..]] + Split(rest, separator))[1..] == Split(rest, separator);
    }
  }

  /** Splitting undoes joining. */
  lemma {:induction false} SplitJoin(pieces: seq<string>, separator: char)
    requires pieces != [] && forall i | 0 <= i < |pieces| :: separator !in pieces[i]
    ensures Split(Join(pieces, separator), separator) == pieces
  {
    if |pieces| == 1 {
      SplitAfterPiece(pieces[0], "", separator);
    } else {
      SplitAfterPiece(pieces[0], Join(pieces[1..], separator), separator);
      SplitJoin(pieces[1..], separator);
    }
  }

  /** Joining undoes splitting, and no piece holds the separator: `Split` loses nothing. */
  lemma {:induction false} JoinSplit(s: string, separator: char)
    ensures Join(Split(s, separator), separator) == s
    ensures forall i | 0 <= i < |Split(s, separator)| :: separator !in Split(s, separator)[i]
  {
    if s != "" {
      JoinSplit(s[1..], separator);
      var rest := Split(s[1..], separator);
      assert s == [s[0]] + s[1..];
      if s[0] == separator {
        assert ([""] + rest)[1..] == rest;
        assert Join([""] + rest, separator) == "" + [separator] + s[1..];
      } else {
        var pieces := [[s[0]] + rest[0]] + rest[1..];
        assert pieces[1..] == rest[1..];
        if |rest| > 1 {
          var tail := [separator] + Join(rest[1..], separator);
          assert [s[0]] + (rest[0] + tail) == pieces[0] + tail;
        }
      }
    }
  }

  // ─── split into words ───

  function Words(s: string): (words: seq<string>)
    ensures s != "" && !IsSpace(s[0]) ==> words != []
  {
    if s == "" then []
    else if IsSpace(s[0]) then Words(s[1..])
    else if |s| == 1 || IsSpace(s[1]) then [[s[0]]] + Words(s[1..])
    else
      var rest := Words(s[1..]);
      [[s[0]] + rest[0]] + rest[1..]
  }

  /** A word, alone or followed by a space. */
  lemma {:induction false} FirstWord(word: string, rest: string)
    requires IsWord(word)
    ensures Words(word) == [word]
    ensures Words(word + " " + rest) == [word] + Words(rest)
  {
    var whole := word + " " + rest;
    if |word| == 1 {
      assert word == [word[0]];
      assert whole[1..] == " " + rest;
      assert Words(" " + rest) == Words(rest) by {
        assert (" " + rest)[1..] == rest;
      }
      assert whole[1] == ' ';
    } else {
      FirstWord(word[1..], rest);
      assert whole[1..] == word[1..] + " " + rest;
      assert word == [word[0]] + word[1..];
      assert ([word[1..]] + Words(rest))[1..] == Words(rest);
    }
  }

  /** Every word is a word. */
  lemma {:induction false} WordsAreWords(s: string)
    ensures forall i | 0 <= i < |Words(s)| :: IsWord(Words(s)[i])
  {
    if s != "" {
      WordsAreWords(s[1..]);
      var rest := Words(s[1..]);
      if !IsSpace(s[0]) && |s| > 1 && !IsSpace(s[1]) {
        assert forall i | 0 < i < |rest| :: Words(s)[i] == rest[i];
        assert IsWord([s[0]] + rest[0]);
      }
    }
  }

  // ─── lower case ───

  function LowerChar(c: char): char {
    if 'A' <= c <= 'Z' then (c as int + 32) as char else c
  }

  function Lower(s: string): string {
    seq(|s|, i requires 0 <= i < |s| => LowerChar(s[i]))
  }

  function LowerEach(pieces: seq<string>): seq<string> {
    seq(|pieces|, i requires 0 <= i < |pieces| => Lower(pieces[i]))
  }

  lemma {:induction false} LowerJoin(pieces: seq<string>, separator: char)
    requires LowerChar(separator) == separator
    ensures Lower(Join(pieces, separator)) == Join(LowerEach(pieces), separator)
  {
    if |pieces| > 1 {
      LowerJoin(pieces[1..], separator);
      assert LowerEach(pieces)[1..] == LowerEach(pieces[1..]);
      var head, tail := pieces[0], Join(pieces[1..], separator);
      assert Lower(head + [separator] + tail) == Lower(head) + [separator] + Lower(tail);
    }
  }
}
