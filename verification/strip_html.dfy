/** stripHTML of internal/parse/feed.go: drops tags and collapses white space, in one pass over the characters. */
module StripHtml {
  import opened Text

  /** Whether position |s| lies inside a tag. */
  predicate InTag(s: string) {
    s != "" &&
    var c := s[|s| - 1];
    if c == '<' then true else if c == '>' then false else InTag(s[..|s| - 1])
  }

  /** The text outside tags. */
  function Outside(s: string): string {
    if s == "" then ""
    else
      var front, c := s[..|s| - 1], s[|s| - 1];
      if c == '<' || c == '>' || InTag(front) then Outside(front) else Outside(front) + [c]
  }

  lemma ScanSnoc(front: string, c: char)
    ensures Outside(front + [c]) ==
              if c == '<' || c == '>' || InTag(front) then Outside(front) else Outside(front) + [c]
    ensures InTag(front + [c]) == (c == '<' || (c != '>' && InTag(front)))
  {
    assert (front + [c])[..|front|] == front;
  }

  method StripHtml(s: string) returns (b: string)
    ensures b == Joined(Words(Outside(s)))
  {
    if s == "" { return ""; }
    b := "";
    var inTag, space := false, false;
    for i := 0 to |s|
      invariant b == Joined(Words(Outside(s[..i])))
      invariant inTag == InTag(s[..i])
      invariant space == EndsInSpace(Outside(s[..i]))
    {
      var r := s[i];
      assert s[..i + 1] == s[..i] + [r];
      ScanSnoc(s[..i], r);
      if r == '<' {
        inTag := true;
      } else if r == '>' {
        inTag := false;
      } else if inTag {
      } else if IsSpace(r) {
        WordsSnoc(Outside(s[..i]), r);
        space := true;
      } else {
        Grow(Outside(s[..i]), r);
        if space && b != "" {
          b := b + " ";
        }
        space := false;
        b := b + [r];
      }
    }
    assert s[..|s|] == s;
  }

  /** One more visible character either starts a word or lengthens the last one. */
  lemma Grow(text: string, r: char)
    requires !IsSpace(r)
    ensures var j := Joined(Words(text));
            Joined(Words(text + [r])) == if EndsInSpace(text) && j != "" then j + " " + [r] else j + [r]
  {
    var ws := Words(text);
    WordsSnoc(text, r);
    WordsAreWords(text);
    JoinedSingleSpaced(ws);
    if ws == [] {
      assert Joined([[r]]) == [r];
    } else if EndsInSpace(text) {
      assert (ws + [[r]])[..|ws|] == ws;
    } else {
      Lengthen(ws, r);
    }
  }

  lemma Lengthen(ws: seq<string>, r: char)
    requires ws != []
    ensures Joined(ws[..|ws| - 1] + [ws[|ws| - 1] + [r]]) == Joined(ws) + [r]
  {
    var grown := ws[..|ws| - 1] + [ws[|ws| - 1] + [r]];
    assert grown[..|ws| - 1] == ws[..|ws| - 1];
    if |ws| > 1 {
      assert Joined(ws) + [r] == Joined(ws[..|ws| - 1]) + " " + (ws[|ws| - 1] + [r]);
    }
  }

  ghost predicate NoAngles(s: string) {
    forall i :: 0 <= i < |s| ==> s[i] != '<' && s[i] != '>'
  }

  lemma {:induction false} OutsideHasNoAngles(s: string)
    ensures NoAngles(Outside(s))
  {
    if s != "" { OutsideHasNoAngles(s[..|s| - 1]); }
  }

  lemma {:induction false} OutsidePlainText(s: string)
    requires NoAngles(s)
    ensures !InTag(s) && Outside(s) == s
  {
    if s != "" {
      OutsidePlainText(s[..|s| - 1]);
      assert s[..|s| - 1] + [s[|s| - 1]] == s;
    }
  }

  lemma {:induction false} OpenTag(a: string, tag: string)
    requires !InTag(a) && forall i :: 0 <= i < |tag| ==> tag[i] != '>'
    ensures InTag(a + "<" + tag) && Outside(a + "<" + tag) == Outside(a)
  {
    if tag == "" {
      assert a + "<" + tag == a + ['<'];
      ScanSnoc(a, '<');
    } else {
      var front, c := tag[..|tag| - 1], tag[|tag| - 1];
      OpenTag(a, front);
      assert a + "<" + tag == a + "<" + front + [c];
      ScanSnoc(a + "<" + front, c);
    }
  }

  /** A tag, even an unfinished one, contributes nothing, and text resumes right behind it. */
  lemma {:induction false} OutsideSkipsTag(a: string, tag: string, b: string)
    requires !InTag(a) && forall i :: 0 <= i < |tag| ==> tag[i] != '>'
    ensures InTag(a + "<" + tag) && Outside(a + "<" + tag) == Outside(a)
    ensures Outside(a + "<" + tag + ">" + b) == Outside(a) + Outside(b)
    ensures InTag(a + "<" + tag + ">" + b) == InTag(b)
    decreases |b|
  {
    OpenTag(a, tag);
    if b == "" {
      assert a + "<" + tag + ">" + b == a + "<" + tag + ['>'];
      ScanSnoc(a + "<" + tag, '>');
    } else {
      var front, c := b[..|b| - 1], b[|b| - 1];
      OutsideSkipsTag(a, tag, front);
      assert a + "<" + tag + ">" + b == a + "<" + tag + ">" + front + [c] && b == front + [c];
      ScanSnoc(a + "<" + tag + ">" + front, c);
      ScanSnoc(front, c);
    }
  }

  lemma {:induction false} JoinedAngles(ws: seq<string>)
    requires forall i :: 0 <= i < |ws| ==> NoAngles(ws[i])
    ensures NoAngles(Joined(ws))
  {
    if |ws| > 1 { JoinedAngles(ws[..|ws| - 1]); }
  }

  lemma {:induction false} WordsAngles(s: string)
    requires NoAngles(s)
    ensures forall i :: 0 <= i < |Words(s)| ==> NoAngles(Words(s)[i])
  {
    if s != "" { WordsAngles(s[..|s| - 1]); }
  }

  /** The result has no angle bracket and only single blanks between visible characters. */
  lemma StrippedIsClean(s: string)
    ensures var b := Joined(Words(Outside(s)));
            NoAngles(b) && SingleSpaced(b)
  {
    OutsideHasNoAngles(s);
    WordsAngles(Outside(s));
    JoinedAngles(Words(Outside(s)));
    WordsAreWords(Outside(s));
    JoinedSingleSpaced(Words(Outside(s)));
  }

  /** Stripping what was stripped changes nothing. */
  lemma StripIdempotent(s: string)
    ensures var b := Joined(Words(Outside(s)));
            Joined(Words(Outside(b))) == b
  {
    StrippedIsClean(s);
    OutsidePlainText(Joined(Words(Outside(s))));
    WordsAreWords(Outside(s));
    WordsOfJoined(Words(Outside(s)));
  }
}
