// Python string helpers used by the ATP glue: `in` on strings, `str.split()`
// with no argument, `" ".join`, `list.remove`, `re.sub` with a literal
// pattern, and `str` of a natural number.

module Text {

  /** Python's str.isspace for one character (the characters str.split()
      with no argument splits on). */
  predicate IsSpace(c: char)
  {
    var k := c as int;
    k == 32 || 9 <= k <= 13 || 28 <= k <= 31 || k == 0x85 || k == 0xA0 || k == 0x1680
    || 0x2000 <= k <= 0x200A || k == 0x2028 || k == 0x2029 || k == 0x202F || k == 0x205F || k == 0x3000
  }

  predicate StartsWith(s: string, p: string)
  {
    |p| <= |s| && s[..|p|] == p
  }

  /** Python's `sub in s`. */
  predicate Contains(s: string, sub: string)
    decreases |s|
  {
    StartsWith(s, sub) || (|s| > 0 && Contains(s[1..], sub))
  }

  /** Regrouping an append of three runs of lines. */
  lemma Associative(a: seq<string>, b: seq<string>, c: seq<string>)
    ensures a + (b + c) == (a + b) + c
  {
  }

  /** sub occurs in s starting at position i. */
  predicate OccursAt(s: string, sub: string, i: int)
  {
    0 <= i <= |s| - |sub| && s[i..i + |sub|] == sub
  }

  /** The occurrence test agrees with the definition by positions. */
  lemma {:induction false} ContainsAt(s: string, sub: string)
    ensures Contains(s, sub) <==> exists i :: OccursAt(s, sub, i)
    decreases |s|
  {
    if StartsWith(s, sub) {
      assert OccursAt(s, sub, 0);
    } else if |s| > 0 {
      ContainsAt(s[1..], sub);
      if Contains(s[1..], sub) {
        var i :| OccursAt(s[1..], sub, i);
        assert s[i + 1..i + 1 + |sub|] == s[1..][i..i + |sub|];
        assert OccursAt(s, sub, i + 1);
      }
      if i :| OccursAt(s, sub, i) {
        assert i != 0;
        assert s[1..][i - 1..i - 1 + |sub|] == s[i..i + |sub|];
        assert OccursAt(s[1..], sub, i - 1);
      }
    }
  }

  /** An occurrence fits inside the text, is the whole text when the two
      are as long, and puts the last character of what occurs in the text. */
  lemma ContainsFits(s: string, sub: string)
    ensures Contains(s, sub) ==> |sub| <= |s|
    ensures Contains(s, sub) && |sub| == |s| ==> sub == s
    ensures Contains(s, sub) && |sub| > 0 ==> sub[|sub| - 1] in s
  {
    ContainsAt(s, sub);
    if Contains(s, sub) {
      var i :| OccursAt(s, sub, i);
      if |sub| > 0 {
        assert s[i..i + |sub|][|sub| - 1] == s[i + |sub| - 1];
      }
      if |sub| == |s| {
        assert s[0..|s|] == s;
      }
    }
  }

  // ---------------------------------------------------------------------
  // str.split() and " ".join

  /** s without its leading whitespace. */
  function TrimStart(s: string): (t: string)
    ensures |t| <= |s|
    ensures |t| > 0 ==> !IsSpace(t[0])
  {
    if |s| > 0 && IsSpace(s[0]) then TrimStart(s[1..]) else s
  }

  /** TrimStart drops a run of whitespace from the front and nothing else. */
  lemma {:induction false} TrimStartDrops(s: string)
    ensures TrimStart(s) == s[|s| - |TrimStart(s)|..]
    ensures forall k :: 0 <= k < |s| - |TrimStart(s)| ==> IsSpace(s[k])
    decreases |s|
  {
    if |s| > 0 && IsSpace(s[0]) {
      TrimStartDrops(s[1..]);
    }
  }

  /** The longest prefix of s without whitespace. */
  function Token(s: string): (w: string)
    ensures |w| <= |s|
  {
    if |s| > 0 && !IsSpace(s[0]) then [s[0]] + Token(s[1..]) else []
  }

  /** Token takes the prefix of s up to, not including, its first whitespace. */
  lemma {:induction false} TokenPrefix(s: string)
    ensures Token(s) == s[..|Token(s)|]
    ensures forall k :: 0 <= k < |Token(s)| ==> !IsSpace(Token(s)[k])
    ensures |Token(s)| < |s| ==> IsSpace(s[|Token(s)|])
    decreases |s|
  {
    if |s| > 0 && !IsSpace(s[0]) {
      TokenPrefix(s[1..]);
    }
  }

  /** Python's s.split(): the maximal runs of non-whitespace, in order. */
  function Words(s: string): seq<string>
    decreases |s|
  {
    var t := TrimStart(s);
    if |t| == 0 then []
    else
      var w := Token(t);
      [w] + Words(t[|w|..])
  }

  /** A word as str.split() produces it: non-empty, without whitespace. */
  predicate IsWord(w: string)
  {
    |w| > 0 && forall k :: 0 <= k < |w| ==> !IsSpace(w[k])
  }

  /** Python's sep.join(ws) for a one-character separator. */
  function JoinOn(ws: seq<string>, sep: char): string
  {
    if |ws| == 0 then "" else if |ws| == 1 then ws[0] else ws[0] + [sep] + JoinOn(ws[1..], sep)
  }

  /** Python's " ".join(ws). */
  function Join(ws: seq<string>): string
  {
    JoinOn(ws, ' ')
  }

  /** Python's " ".join(s.split()): runs of whitespace become one space, and
      leading and trailing whitespace is dropped. */
  function Collapse(s: string): string
  {
    Join(Words(s))
  }

  lemma {:induction false} WordsAreWords(s: string)
    ensures forall k :: 0 <= k < |Words(s)| ==> IsWord(Words(s)[k])
    decreases |s|
  {
    var t := TrimStart(s);
    if |t| > 0 {
      var w := Token(t);
      TokenPrefix(t);
      WordsAreWords(t[|w|..]);
    }
  }

  lemma {:induction false} WordsSkipSpace(s: string, rest: string)
    requires forall k :: 0 <= k < |s| ==> IsSpace(s[k])
    ensures Words(s + rest) == Words(rest)
    decreases |s|
  {
    if |s| > 0 {
      assert (s + rest)[1..] == s[1..] + rest;
      WordsSkipSpace(s[1..], rest);
    } else {
      assert s + rest == rest;
    }
  }

  lemma {:induction false} TokenOfWord(w: string, rest: string)
    requires forall k :: 0 <= k < |w| ==> !IsSpace(w[k])
    requires |rest| == 0 || IsSpace(rest[0])
    ensures Token(w + rest) == w
    decreases |w|
  {
    if |w| > 0 {
      assert (w + rest)[1..] == w[1..] + rest;
      TokenOfWord(w[1..], rest);
    } else {
      assert w + rest == rest;
    }
  }

  /** Splitting after joining gives the words back. */
  lemma {:induction false} WordsOfJoin(ws: seq<string>)
    requires forall k :: 0 <= k < |ws| ==> IsWord(ws[k])
    ensures Words(Join(ws)) == ws
  {
    if |ws| == 1 {
      TokenOfWord(ws[0], "");
      assert ws[0] + "" == ws[0];
      assert Join(ws)[|ws[0]|..] == "";
    } else if |ws| > 1 {
      var w, rest := ws[0], Join(ws[1..]);
      assert Join(ws) == w + (" " + rest);
      TokenOfWord(w, " " + rest);
      assert TrimStart(Join(ws)) == Join(ws);
      assert Join(ws)[|w|..] == [' '] + rest;
      WordsSkipSpace([' '], rest);
      WordsOfJoin(ws[1..]);
    }
  }

  /** Collapsing twice is collapsing once. */
  lemma CollapseIdempotent(s: string)
    ensures Collapse(Collapse(s)) == Collapse(s)
    ensures Words(Collapse(s)) == Words(s)
  {
    WordsAreWords(s);
    WordsOfJoin(Words(s));
  }

  // ---------------------------------------------------------------------
  // list.remove

  /** Python's ws.remove(w) when the ValueError of a missing w is ignored:
      the first occurrence of w is dropped, if there is one. */
  function RemoveFirst(ws: seq<string>, w: string): seq<string>
  {
    if |ws| == 0 then []
    else if ws[0] == w then ws[1..]
    else [ws[0]] + RemoveFirst(ws[1..], w)
  }

  /** remove drops exactly one copy of w when there is one, else nothing. */
  lemma {:induction false} RemoveFirstCount(ws: seq<string>, w: string)
    ensures w in ws ==> |RemoveFirst(ws, w)| == |ws| - 1
    ensures w in ws ==> multiset(RemoveFirst(ws, w)) + multiset{w} == multiset(ws)
    ensures w !in ws ==> RemoveFirst(ws, w) == ws
  {
    if |ws| > 0 {
      assert ws == [ws[0]] + ws[1..];
      if ws[0] != w {
        RemoveFirstCount(ws[1..], w);
      }
    }
  }

  /** The data lines of a result listing: whitespace collapsed and the first
      "SPY:" token dropped. */
  function DataLine(s: string): string
  {
    Join(RemoveFirst(Words(s), "SPY:"))
  }

  /** A data line holds exactly the words of the source line less one "SPY:". */
  lemma DataLineWords(s: string)
    ensures Words(DataLine(s)) == RemoveFirst(Words(s), "SPY:")
  {
    var ws := Words(s);
    WordsAreWords(s);
    var r := RemoveFirst(ws, "SPY:");
    RemoveFirstCount(ws, "SPY:");
    forall k | 0 <= k < |r|
      ensures IsWord(r[k])
    {
      assert r[k] in multiset(r);
      assert r[k] in multiset(ws);
    }
    WordsOfJoin(r);
  }

  // ---------------------------------------------------------------------
  // re.sub with a literal pattern

  /** Python's re.sub(pat, rep, s) for a pattern without special characters:
      every occurrence, scanning left to right without overlap, is replaced. */
  function ReplaceAll(s: string, pat: string, rep: string): string
    requires |pat| > 0
    decreases |s|
  {
    if StartsWith(s, pat) then rep + ReplaceAll(s[|pat|..], pat, rep)
    else if |s| == 0 then ""
    else [s[0]] + ReplaceAll(s[1..], pat, rep)
  }

  /** A string without the pattern is left alone; when the replacement
      differs from the pattern, only such a string is. */
  lemma {:induction false} ReplaceAbsent(s: string, pat: string, rep: string)
    requires |pat| > 0
    ensures !Contains(s, pat) ==> ReplaceAll(s, pat, rep) == s
    ensures rep != pat && ReplaceAll(s, pat, rep) == s ==> !Contains(s, pat)
    decreases |s|
  {
    if StartsWith(s, pat) {
      ReplaceLength(s[|pat|..], pat, rep);
      if |rep| == |pat| {
        assert ReplaceAll(s, pat, rep)[..|pat|] == rep;
      }
    } else if |s| > 0 {
      ReplaceAbsent(s[1..], pat, rep);
      assert ReplaceAll(s, pat, rep) == [s[0]] + ReplaceAll(s[1..], pat, rep);
      assert s == [s[0]] + s[1..];
    }
  }

  /** A text whose character i is not in the pattern does not start with
      the pattern when the pattern reaches past i. */
  lemma SeparatorBreaks(s: string, i: nat, pat: string)
    requires i < |s| && i < |pat| && s[i] !in pat
    ensures !StartsWith(s, pat)
  {
    if |pat| <= |s| {
      assert s[..|pat|][i] == s[i];
    }
  }

  /** re.sub works on each side of a character the pattern does not hold
      on its own: no occurrence can span that character. */
  lemma {:induction false} ReplaceSplit(x: string, sep: char, y: string, pat: string, rep: string)
    requires |pat| > 0 && sep !in pat
    ensures ReplaceAll(x + [sep] + y, pat, rep) == ReplaceAll(x, pat, rep) + [sep] + ReplaceAll(y, pat, rep)
    decreases |x|
  {
    var s := x + [sep] + y;
    if |x| == 0 {
      assert s == [sep] + y;
      SeparatorBreaks(s, 0, pat);
      assert s[1..] == y;
    } else if StartsWith(x, pat) {
      assert s[..|pat|] == x[..|pat|];
      assert s[|pat|..] == x[|pat|..] + [sep] + y;
      ReplaceSplit(x[|pat|..], sep, y, pat, rep);
    } else {
      if |pat| <= |x| {
        assert x[..|pat|] == s[..|pat|];
      } else {
        SeparatorBreaks(s, |x|, pat);
      }
      assert s[1..] == x[1..] + [sep] + y;
      ReplaceSplit(x[1..], sep, y, pat, rep);
    }
  }

  /** Scanning left to right, the first occurrence of the pattern is
      replaced where it stands: what precedes it is kept and the scan goes
      on after it. */
  lemma {:induction false} ReplaceAt(a: string, pat: string, b: string, rep: string)
    requires |pat| > 0
    requires forall j :: 0 <= j < |a| ==> !OccursAt(a + pat + b, pat, j)
    ensures ReplaceAll(a + pat + b, pat, rep) == a + rep + ReplaceAll(b, pat, rep)
    decreases |a|
  {
    var s := a + pat + b;
    if |a| == 0 {
      assert s == pat + b;
      assert s[..|pat|] == pat;
      assert s[|pat|..] == b;
    } else {
      assert !OccursAt(s, pat, 0);
      assert s[0..|pat|] == s[..|pat|];
      var a' := a[1..];
      assert s[1..] == a' + pat + b;
      forall j | 0 <= j < |a'|
        ensures !OccursAt(a' + pat + b, pat, j)
      {
        assert !OccursAt(s, pat, j + 1);
        if j + |pat| <= |a' + pat + b| {
          assert (a' + pat + b)[j..j + |pat|] == s[j + 1..j + 1 + |pat|];
        }
      }
      ReplaceAt(a', pat, b, rep);
      assert a == [a[0]] + a';
    }
  }

  /** A longer replacement lengthens the string, a shorter one shortens it. */
  lemma {:induction false} ReplaceLength(s: string, pat: string, rep: string)
    requires |pat| > 0
    ensures |rep| >= |pat| ==> |ReplaceAll(s, pat, rep)| >= |s|
    ensures |rep| <= |pat| ==> |ReplaceAll(s, pat, rep)| <= |s|
    ensures |rep| == |pat| ==> |ReplaceAll(s, pat, rep)| == |s|
    decreases |s|
  {
    if StartsWith(s, pat) {
      ReplaceLength(s[|pat|..], pat, rep);
    } else if |s| > 0 {
      ReplaceLength(s[1..], pat, rep);
    }
  }

  /** Replacing a pattern by itself changes nothing. */
  lemma {:induction false} ReplaceBySelf(s: string, pat: string)
    requires |pat| > 0
    ensures ReplaceAll(s, pat, pat) == s
    decreases |s|
  {
    if StartsWith(s, pat) {
      ReplaceBySelf(s[|pat|..], pat);
      assert s == s[..|pat|] + s[|pat|..];
    } else if |s| > 0 {
      ReplaceBySelf(s[1..], pat);
      assert s == [s[0]] + s[1..];
    }
  }

  // ---------------------------------------------------------------------
  // str of a natural number

  function DigitChar(d: nat): char
    requires d < 10
  {
    "0123456789"[d]
  }

  /** Python's str(n) for n >= 0: decimal digits, no leading zero. */
  function Decimal(n: nat): (s: string)
    ensures |s| > 0
  {
    if n < 10 then [DigitChar(n)] else Decimal(n / 10) + [DigitChar(n % 10)]
  }

  /** str(n) is made of decimal digits, without a leading zero. */
  lemma {:induction false} DecimalDigits(n: nat)
    ensures forall k :: 0 <= k < |Decimal(n)| ==> '0' <= Decimal(n)[k] <= '9'
    ensures n > 0 ==> Decimal(n)[0] != '0'
  {
    if n >= 10 {
      DecimalDigits(n / 10);
    }
  }

  /** The value of a string of decimal digits. */
  function DecimalValue(s: string): int
  {
    if |s| == 0 then 0 else 10 * DecimalValue(s[..|s| - 1]) + (s[|s| - 1] as int - '0' as int)
  }

  /** Reading back the digits of str(n) gives n. */
  lemma {:induction false} DecimalRoundTrip(n: nat)
    ensures DecimalValue(Decimal(n)) == n
  {
    var s := Decimal(n);
    if n >= 10 {
      DecimalRoundTrip(n / 10);
      assert s[..|s| - 1] == Decimal(n / 10);
    }
  }
}
