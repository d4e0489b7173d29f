/**
 * components/layout/header.tsx: the avatar initials. The name is split at
 * every space, each piece contributes its first character (an empty piece
 * contributes nothing), and the first two of those, upper-cased, are shown.
 * Upper-casing is ASCII only.
 */
module Header {
  import opened Wrappers
  import opened Strings

  /** The pieces joined back with single spaces. */
  function JoinSpaced(pieces: seq<string>): string
    requires |pieces| >= 1
  {
    if |pieces| == 1 then pieces[0] else pieces[0] + " " + JoinSpaced(pieces[1..])
  }

  /** `s.split(" ")`: at least one piece, none containing a space, and joining them gives `s` back. */
  function Split(s: string): (r: seq<string>)
    ensures |r| >= 1
    ensures forall i :: 0 <= i < |r| ==> ' ' !in r[i]
    ensures JoinSpaced(r) == s
    decreases |s|
  {
    if ' ' !in s then [s]
    else
      var k := IndexOf(s, ' ');
      var rest := Split(s[k + 1..]);
      assert s == s[..k] + " " + s[k + 1..];
      assert ([s[..k]] + rest)[1..] == rest;
      [s[..k]] + rest
  }

  /** `.map(n => n[0]).join("")`: the first character of each non-empty piece. */
  function Heads(pieces: seq<string>): string {
    if pieces == [] then []
    else (if pieces[0] == [] then [] else [pieces[0][0]]) + Heads(pieces[1..])
  }

  /** `.slice(0, 2)`. */
  function Take2(s: string): (r: string)
    ensures |r| == if |s| < 2 then |s| else 2
    ensures r == s[..|r|]
  {
    if |s| <= 2 then s else s[..2]
  }

  /** The avatar text: "U" when the name is absent or empty. */
  function Initials(name: Option<string>): (r: string)
    ensures |r| <= 2
    ensures name.None? || name.value == [] ==> r == "U"
  {
    if name.None? || name.value == [] then "U"
    else Take2(Upper(Heads(Split(name.value))))
  }

  /**
   * The characters that begin a word: a non-space character at the start of
   * the text or right after a space. `afterSpace` tells whether the text
   * begins right after a space (or at the very start).
   */
  function Starts(s: string, afterSpace: bool): string {
    if s == [] then []
    else (if afterSpace && s[0] != ' ' then [s[0]] else []) + Starts(s[1..], s[0] == ' ')
  }

  function WordStarts(s: string): string {
    Starts(s, true)
  }

  lemma {:induction false} InsideWord(w: string, rest: string)
    requires ' ' !in w
    ensures Starts(w + " " + rest, false) == Starts(rest, true)
    ensures Starts(w, false) == []
  {
    if w != [] {
      assert (w + " " + rest)[1..] == w[1..] + " " + rest;
      assert ' ' !in w[1..];
      InsideWord(w[1..], rest);
    } else {
      assert (w + " " + rest)[1..] == rest;
    }
  }

  lemma WordThenSpace(w: string, rest: string)
    requires ' ' !in w
    ensures Starts(w + " " + rest, true) == (if w == [] then [] else [w[0]]) + Starts(rest, true)
  {
    var s := w + " " + rest;
    if w == [] {
      assert s[1..] == rest;
    } else {
      assert s[1..] == w[1..] + " " + rest;
      assert ' ' !in w[1..];
      InsideWord(w[1..], rest);
    }
  }

  /** The pieces' first characters are exactly the characters that begin a word, in order. */
  lemma {:induction false} HeadsAreWordStarts(s: string)
    ensures Heads(Split(s)) == WordStarts(s)
    decreases |s|
  {
    if ' ' !in s {
      if s != [] {
        assert ' ' !in s[1..];
        InsideWord(s[1..], "");
      }
    } else {
      var k := IndexOf(s, ' ');
      var rest := s[k + 1..];
      assert s == s[..k] + " " + rest;
      HeadsAreWordStarts(rest);
      WordThenSpace(s[..k], rest);
      assert ([s[..k]] + Split(rest))[1..] == Split(rest);
    }
  }

  /** A non-empty name shows the first two word-initial characters, upper-cased. */
  lemma InitialsOfName(name: string)
    requires name != []
    ensures Initials(Some(name)) == Take2(Upper(WordStarts(name)))
  {
    HeadsAreWordStarts(name);
  }

  /** An absent or empty name shows "U", but a name of spaces alone shows nothing at all. */
  lemma InitialsOfBlankNames()
    ensures Initials(None) == "U" && Initials(Some("")) == "U"
    ensures Initials(Some("  ")) == ""
  {
    InitialsOfName("  ");
    WordThenSpace("", " ");
    WordThenSpace("", "");
  }

  /** The word starts of two words with two spaces between them are the words' first characters. */
  lemma TwoWordStarts(first: string, last: string)
    requires first != [] && last != [] && ' ' !in first && ' ' !in last
    ensures WordStarts(first + "  " + last) == [first[0], last[0]]
  {
    var tail := " " + last;
    assert first + "  " + last == first + " " + tail;
    WordThenSpace(first, tail);
    assert tail == [] + " " + last;
    WordThenSpace([], last);
    assert ' ' !in last[1..];
    InsideWord(last[1..], "");
    assert Starts(last, true) == [last[0]] + Starts(last[1..], false);
  }

  /** Repeated spaces add nothing: two words with two spaces between them show both initials. */
  lemma InitialsSkipEmptyPieces(first: string, last: string)
    requires first != [] && last != [] && ' ' !in first && ' ' !in last
    ensures Initials(Some(first + "  " + last)) == [UpperChar(first[0]), UpperChar(last[0])]
  {
    var name := first + "  " + last;
    InitialsOfName(name);
    TwoWordStarts(first, last);
    var shown := Upper([first[0], last[0]]);
    assert shown == [UpperChar(first[0]), UpperChar(last[0])];
  }
}
