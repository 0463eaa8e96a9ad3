/** White space, trimming and words, as Go's unicode.IsSpace, strings.TrimSpace and strings.Fields see them. */
module Text {
  predicate IsSpace(c: char) {
    var n := c as int;
    || 0x09 <= n <= 0x0D || n == 0x20 || n == 0x85 || n == 0xA0 || n == 0x1680
    || 0x2000 <= n <= 0x200A || n == 0x2028 || n == 0x2029 || n == 0x202F || n == 0x205F || n == 0x3000
  }

  /** The characters with the Unicode property White_Space. */
  const WHITE_SPACE: set<char> := {
    '\t', '\n', '\U{000B}', '\U{000C}', '\r', ' ', '\U{0085}', '\U{00A0}', '\U{1680}', '\U{2000}', '\U{2001}',
    '\U{2002}', '\U{2003}', '\U{2004}', '\U{2005}', '\U{2006}', '\U{2007}', '\U{2008}', '\U{2009}', '\U{200A}',
    '\U{2028}', '\U{2029}', '\U{202F}', '\U{205F}', '\U{3000}'}

  lemma SpacesAreWhite(c: char)
    ensures IsSpace(c) <==> c in WHITE_SPACE
  {
    if IsSpace(c) { assert c == c as int as char; }
  }

  predicate Blank(s: string) {
    forall i :: 0 <= i < |s| ==> IsSpace(s[i])
  }

  function TrimLeft(s: string): string {
    if s != "" && IsSpace(s[0]) then TrimLeft(s[1..]) else s
  }

  function TrimRight(s: string): string {
    if s != "" && IsSpace(s[|s| - 1]) then TrimRight(s[..|s| - 1]) else s
  }

  function Trim(s: string): string {
    TrimRight(TrimLeft(s))
  }

  /** Begins and ends, if at all, with something visible. */
  predicate Tight(s: string) {
    s != "" ==> !IsSpace(s[0]) && !IsSpace(s[|s| - 1])
  }

  lemma {:induction false} TrimLeftMeans(s: string)
    ensures var t := TrimLeft(s);
            |t| <= |s| && t == s[|s| - |t|..] && Blank(s[..|s| - |t|]) && (t != "" ==> !IsSpace(t[0]))
  {
    if s != "" && IsSpace(s[0]) {
      var rest := s[1..];
      var t := TrimLeft(rest);
      var k := |rest| - |t|;
      TrimLeftMeans(rest);
      assert s[k + 1..] == rest[k..];
      forall i | 0 <= i < k + 1 ensures IsSpace(s[i]) {
        if i > 0 { assert rest[..k][i - 1] == s[i]; }
      }
    }
  }

  lemma {:induction false} TrimRightMeans(s: string)
    ensures var t := TrimRight(s); |t| <= |s| && t == s[..|t|] && Blank(s[|t|..]) && (t != "" ==> !IsSpace(t[|t| - 1]))
  {
    if s != "" && IsSpace(s[|s| - 1]) {
      var rest := s[..|s| - 1];
      var t := TrimRight(rest);
      TrimRightMeans(rest);
      assert s[..|t|] == rest[..|t|];
      forall i | |t| <= i < |s| ensures IsSpace(s[i]) {
        if i < |rest| { assert rest[|t|..][i - |t|] == s[i]; }
      }
    }
  }

  /** Trimming removes the white space at both ends and nothing else. */
  lemma TrimTight(s: string)
    ensures Tight(Trim(s))
    ensures exists i, j :: 0 <= i <= j <= |s| && Blank(s[..i]) && Trim(s) == s[i..j] && Blank(s[j..])
    ensures Tight(s) ==> Trim(s) == s
    ensures Trim(s) == "" <==> Blank(s)
  {
    var l := TrimLeft(s);
    var t := TrimRight(l);
    TrimLeftMeans(s);
    TrimRightMeans(l);
    var i := |s| - |l|;
    var j := i + |t|;
    assert t == s[i..j] && s[j..] == l[|t|..];
    if t != "" {
      assert t[0] == l[0] == s[i];
    } else {
      assert s == s[..i] + s[j..];
    }
  }

  // ---------- words ----------

  predicate EndsInSpace(s: string) {
    s != "" && IsSpace(s[|s| - 1])
  }

  /** The maximal runs of visible characters. */
  function Words(s: string): seq<string> {
    if s == "" then [] else WithNext(Words(s[..|s| - 1]), s[..|s| - 1], s[|s| - 1])
  }

  /** The words of `front` followed by `c`, given the words of `front`. */
  function WithNext(ws: seq<string>, front: string, c: char): seq<string> {
    if IsSpace(c) then ws
    else if front == "" || EndsInSpace(front) || ws == [] then ws + [[c]]
    else ws[..|ws| - 1] + [ws[|ws| - 1] + [c]]
  }

  lemma WordsSnoc(front: string, c: char)
    ensures Words(front + [c]) == WithNext(Words(front), front, c)
  {
    assert (front + [c])[..|front|] == front;
  }

  /** Words joined by single blanks. */
  function Joined(ws: seq<string>): string {
    if ws == [] then ""
    else if |ws| == 1 then ws[0]
    else Joined(ws[..|ws| - 1]) + " " + ws[|ws| - 1]
  }

  predicate IsWord(w: string) {
    w != "" && forall i :: 0 <= i < |w| ==> !IsSpace(w[i])
  }

  lemma {:induction false} WordsAreWords(s: string)
    ensures forall i :: 0 <= i < |Words(s)| ==> IsWord(Words(s)[i])
    ensures s != "" && !EndsInSpace(s) ==> Words(s) != []
  {
    if s != "" { WordsAreWords(s[..|s| - 1]); }
  }

  /** White space separates words, whatever is around it. */
  lemma {:induction false} WordsSplit(a: string, space: char, b: string)
    requires IsSpace(space)
    ensures Words(a + [space] + b) == Words(a) + Words(b)
  {
    if b == "" {
      assert a + [space] + b == a + [space];
      WordsSnoc(a, space);
    } else {
      var front, c := b[..|b| - 1], b[|b| - 1];
      assert a + [space] + b == a + [space] + front + [c];
      WordsSplit(a, space, front);
      WordsSnoc(a + [space] + front, c);
      WordsAreWords(front);
      NextAfter(Words(a), Words(front), a + [space], front, c);
    }
  }

  lemma NextAfter(ws: seq<string>, inner: seq<string>, a: string, front: string, c: char)
    requires EndsInSpace(a) && (front == "" ==> inner == []) && (front != "" && !EndsInSpace(front) ==> inner != [])
    ensures WithNext(ws + inner, a + front, c) == ws + WithNext(inner, front, c)
  {
    var starts := front == "" || EndsInSpace(front);
    assert EndsInSpace(a + front) == starts by {
      if front == "" {
        assert a + front == a;
      } else {
        assert (a + front)[|a + front| - 1] == front[|front| - 1];
      }
    }
    if starts {
      assert ws + inner + [[c]] == ws + (inner + [[c]]);
    } else {
      var k := |inner| - 1;
      assert (ws + inner)[..|ws + inner| - 1] == ws + inner[..k] && (ws + inner)[|ws + inner| - 1] == inner[k];
      assert ws + inner[..k] + [inner[k] + [c]] == ws + (inner[..k] + [inner[k] + [c]]);
    }
  }

  lemma {:induction false} WordsOfWord(w: string)
    requires IsWord(w)
    ensures Words(w) == [w]
  {
    var front, c := w[..|w| - 1], w[|w| - 1];
    assert w == front + [c];
    WordsSnoc(front, c);
    if front != "" {
      WordsOfWord(front);
    }
  }

  /** Joining words and splitting again gives the words back. */
  lemma {:induction false} WordsOfJoined(ws: seq<string>)
    requires forall i :: 0 <= i < |ws| ==> IsWord(ws[i])
    ensures Words(Joined(ws)) == ws
  {
    if ws != [] {
      var front, last := ws[..|ws| - 1], ws[|ws| - 1];
      assert ws == front + [last];
      WordsOfWord(last);
      if front == [] {
        assert Joined(ws) == last;
      } else {
        WordsOfJoined(front);
        JoinedSnoc(front, last);
        WordsSplit(Joined(front), ' ', last);
      }
    }
  }

  lemma JoinedSnoc(front: seq<string>, last: string)
    requires front != []
    ensures Joined(front + [last]) == Joined(front) + [' '] + last
  {
    assert (front + [last])[..|front|] == front;
  }

  /** No space but single blanks between words. */
  predicate SingleSpaced(s: string) {
    && Tight(s)
    && forall i :: 0 <= i < |s| && IsSpace(s[i]) ==> s[i] == ' ' && (i + 1 < |s| ==> !IsSpace(s[i + 1]))
  }

  lemma {:induction false} JoinedSingleSpaced(ws: seq<string>)
    requires forall i :: 0 <= i < |ws| ==> IsWord(ws[i])
    ensures SingleSpaced(Joined(ws)) && (ws != [] ==> Joined(ws) != "")
  {
    if |ws| > 1 {
      var front, last := Joined(ws[..|ws| - 1]), ws[|ws| - 1];
      JoinedSingleSpaced(ws[..|ws| - 1]);
      assert forall i :: |front| < i < |Joined(ws)| ==> Joined(ws)[i] == last[i - |front| - 1];
    }
  }
}
