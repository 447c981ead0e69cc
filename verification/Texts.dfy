/** Splitting a text at spaces and joining the pieces again. */
module Texts {
  import opened Sequences

  function Split(text: string): (r: seq<string>)
    ensures r != []
  {
    if text == [] then [[]]
    else
      var rest := Split(text[1..]);
      if text[0] == ' ' then [[]] + rest else [[text[0]] + rest[0]] + rest[1..]
  }

  function Join(pieces: seq<string>, sep: string): string {
    if pieces == [] then []
    else if |pieces| == 1 then pieces[0]
    else pieces[0] + sep + Join(pieces[1..], sep)
  }

  predicate Spaceless(text: string) { ' ' !in text }

  lemma {:induction false} SplitPiecesAreSpaceless(text: string)
    ensures forall p <- Split(text) :: Spaceless(p)
  {
    if text != [] {
      SplitPiecesAreSpaceless(text[1..]);
      var rest := Split(text[1..]);
      assert rest[0] in rest;
      forall p | p in Split(text) ensures Spaceless(p) {
        if p !in rest && text[0] != ' ' {
          assert p == [text[0]] + rest[0];
        }
      }
    }
  }

  /** Joining what a split gives back the text. */
  lemma {:induction false} JoinSplit(text: string)
    ensures Join(Split(text), " ") == text
  {
    if text != [] {
      JoinSplit(text[1..]);
      var rest := Split(text[1..]);
      if text[0] == ' ' {
        assert Split(text)[1..] == rest;
      } else {
        var pieces := [[text[0]] + rest[0]] + rest[1..];
        assert pieces[1..] == rest[1..];
        assert Join(pieces, " ") == [text[0]] + Join(rest, " ");
      }
    }
  }

  lemma {:induction false} SplitSpaceless(text: string)
    requires Spaceless(text)
    ensures Split(text) == [text]
  {
    if text != [] {
      assert text[0] in text;
      SplitSpaceless(text[1..]);
      assert [text[0]] + text[1..] == text;
    }
  }

  lemma {:induction false} SplitAtSpace(piece: string, rest: string)
    requires Spaceless(piece)
    ensures Split(piece + " " + rest) == [piece] + Split(rest)
  {
    var text := piece + " " + rest;
    if piece == [] {
      assert text[1..] == rest;
    } else {
      assert piece[0] in piece;
      SplitAtSpace(piece[1..], rest);
      assert text[1..] == piece[1..] + " " + rest;
      assert [piece[0]] + piece[1..] == piece;
    }
  }

  /** Splitting what a join of spaceless pieces gives back the pieces. */
  lemma {:induction false} SplitJoin(pieces: seq<string>)
    requires pieces != [] && forall p <- pieces :: Spaceless(p)
    ensures Split(Join(pieces, " ")) == pieces
  {
    hide Spaceless;
    if |pieces| == 1 {
      SplitSpaceless(pieces[0]);
    } else {
      SplitJoin(pieces[1..]);
      SplitAtSpace(pieces[0], Join(pieces[1..], " "));
    }
  }

  lemma {:induction false} JoinConcat(a: seq<string>, b: seq<string>, sep: string)
    requires a != [] && b != []
    ensures Join(a + b, sep) == Join(a, sep) + sep + Join(b, sep)
  {
    assert (a + b)[1..] == a[1..] + b;
    if |a| > 1 {
      JoinConcat(a[1..], b, sep);
      assert Join(a + b, sep) == a[0] + sep + (Join(a[1..], sep) + sep + Join(b, sep));
    }
  }

  function JoinEach(lines: seq<seq<string>>): seq<string> {
    MapSeq(lines, (line: seq<string>) => Join(line, " "))
  }

  /** Joining line by line is joining all pieces. */
  lemma {:induction false} JoinLines(lines: seq<seq<string>>)
    requires lines != [] && forall line <- lines :: line != []
    ensures Join(JoinEach(lines), " ") == Join(Flatten(lines), " ") && Flatten(lines) != []
  {
    assert JoinEach(lines)[1..] == JoinEach(lines[1..]);
    assert lines[0] in lines && forall line <- lines[1..] :: line in lines;
    if |lines| == 1 {
      assert Flatten(lines) == lines[0];
    } else {
      JoinLines(lines[1..]);
      JoinConcat(lines[0], Flatten(lines[1..]), " ");
    }
  }

  lemma SplitSpace(text: string)
    ensures Split(" " + text) == [[]] + Split(text)
  {
    assert (" " + text)[1..] == text;
  }

  /** The tokens of a text that one more character begins. */
  function Prefixed(c: char, tokens: seq<string>): seq<string>
    requires tokens != []
  {
    if c == ' ' then [[]] + tokens else [[c] + tokens[0]] + tokens[1..]
  }

  lemma SplitCons(c: char, text: string)
    ensures Split([c] + text) == Prefixed(c, Split(text))
  {
    assert ([c] + text)[1..] == text;
  }

  lemma SplitHead(c: char, text: string, more: seq<string>)
    ensures Prefixed(c, Split(text) + more) == Prefixed(c, Split(text)) + more
  {
    hide Split;
  }

  lemma {:induction false} SplitConcat(a: string, b: string)
    ensures Split(a + " " + b) == Split(a) + Split(b)
  {
    if a == [] {
      SplitSpace(b);
      assert a + " " + b == " " + b;
    } else {
      SplitConcat(a[1..], b);
      SplitHead(a[0], a[1..], Split(b));
      assert a == [a[0]] + a[1..] && a + " " + b == [a[0]] + (a[1..] + " " + b);
      SplitCons(a[0], a[1..] + " " + b);
      SplitCons(a[0], a[1..]);
    }
  }

  function SplitEach(lines: seq<string>): seq<seq<string>> {
    MapSeq(lines, (line: string) => Split(line))
  }

  /** The tokens of joined lines are the tokens of the lines. */
  lemma {:induction false} SplitJoinedLines(lines: seq<string>)
    requires lines != []
    ensures Split(Join(lines, " ")) == Flatten(SplitEach(lines))
  {
    assert SplitEach(lines)[1..] == SplitEach(lines[1..]);
    if |lines| == 1 {
      assert Flatten(SplitEach(lines)) == Split(lines[0]);
    } else {
      SplitJoinedLines(lines[1..]);
      SplitConcat(lines[0], Join(lines[1..], " "));
    }
  }

  /** The first position of a character, or the length of the text. */
  function IndexOf(text: string, c: char): (n: nat)
    ensures n <= |text|
  {
    if text == [] || text[0] == c then 0 else 1 + IndexOf(text[1..], c)
  }

  lemma {:induction false} IndexAfter(before: string, c: char, after: string)
    requires c !in before
    ensures IndexOf(before + [c] + after, c) == |before|
  {
    if before != [] {
      assert before[0] in before;
      IndexAfter(before[1..], c, after);
      assert (before + [c] + after)[1..] == before[1..] + [c] + after;
    }
  }
}
