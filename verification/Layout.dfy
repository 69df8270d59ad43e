/** What stripping, splitting and the payee normal form do to a text, said of its words and
    of the blanks around them. */
module Layout {
  import opened Ascii
  import opened Words

  lemma {:induction false} TrimRightParts(s: string)
    ensures var t := TrimRight(s); |t| <= |s| && t == s[..|t|] && AllBlank(s[|t|..])
  {
    if s != "" && IsBlank(s[|s| - 1]) {
      TrimRightParts(s[..|s| - 1]);
      var t := TrimRight(s);
      assert s[|t|..] == s[..|s| - 1][|t|..] + [s[|s| - 1]];
    }
  }

  /** `strip` is what lies between the blanks at both ends. */
  lemma StripIsBetween(s: string) returns (a: nat, b: nat)
    ensures a <= b <= |s| && Strip(s) == s[a..b] && AllBlank(s[..a]) && AllBlank(s[b..])
    ensures Strip(s) != "" ==> !IsBlank(Strip(s)[0]) && !IsBlank(Strip(s)[|Strip(s)| - 1])
  {
    var t := TrimLeft(s);
    TrimLeftParts(s);
    TrimRightParts(t);
    a := |s| - |t|;
    b := a + |Strip(s)|;
    assert s[a..] == t && s[a..b] == t[..|Strip(s)|] && s[b..] == t[|Strip(s)|..];
    if t != "" { TrimRightKeepsFirst(t); }
  }

  /** `t` is the part of the text from `a` to `b`; only blanks lie before and after it, and
      it neither begins nor ends with one. */
  predicate Core(s: string, a: int, b: int, t: string) {
    0 <= a <= b <= |s| && s[a..b] == t && AllBlank(s[..a]) && AllBlank(s[b..])
    && (t != "" ==> !IsBlank(t[0]) && !IsBlank(t[|t| - 1]))
  }

  predicate Trimmed(s: string, t: string) {
    exists a, b | 0 <= a <= b <= |s| :: Core(s, a, b, t)
  }

  lemma {:induction false} TrimRightOver(s: string, p: string)
    requires AllBlank(p) && (s == "" || !IsBlank(s[|s| - 1]))
    ensures TrimRight(s + p) == s
    decreases |p|
  {
    if p == "" {
      assert s + p == s;
    } else {
      assert (s + p)[..|s + p| - 1] == s + p[..|p| - 1];
      TrimRightOver(s, p[..|p| - 1]);
    }
  }

  lemma CutTwice(s: string, a: int, b: int)
    requires 0 <= a <= b <= |s|
    ensures s[a..] == s[a..b] + s[b..]
  {
  }

  lemma CoreIsStrip(s: string, a: int, b: int, t: string)
    requires Core(s, a, b, t)
    ensures Strip(s) == t
  {
    if t == "" {
      assert s == s[..a] + s[b..];
      StripBlank(s);
    } else {
      assert s == s[..a] + s[a..];
      TrimLeftOver(s[..a], s[a..]);
      CutTwice(s, a, b);
      TrimRightOver(t, s[b..]);
    }
  }

  /** `strip` is the trimmed text. */
  lemma TrimmedIsStrip(s: string, t: string)
    ensures Trimmed(s, t) <==> Strip(s) == t
  {
    if Strip(s) == t {
      var a, b := StripIsBetween(s);
      assert Core(s, a, b, t);
    }
    if a, b :| 0 <= a <= b <= |s| && Core(s, a, b, t) { CoreIsStrip(s, a, b, t); }
  }

  /** The same letters as the code in capitals, in any case. */
  predicate SameLetters(s: string, code: string) {
    |s| == |code|
    && forall i | 0 <= i < |s| :: s[i] == code[i] || ('a' <= s[i] <= 'z' && s[i] as int - 32 == code[i] as int)
  }

  predicate Capital(code: string) { forall i | 0 <= i < |code| :: !IsLower(code[i]) }

  lemma SameLettersMeans(s: string, code: string)
    requires Capital(code)
    ensures SameLetters(s, code) <==> Upper(s) == code
  {
    if Upper(s) == code {
      forall i | 0 <= i < |s| ensures s[i] == code[i] || ('a' <= s[i] <= 'z' && s[i] as int - 32 == code[i] as int) {
        assert Upper(s)[i] == code[i];
      }
    }
  }

  /** The blanks of ASCII text: the space, tab to carriage return, and the four separators. */
  lemma BlankChars(c: char)
    ensures IsBlank(c) <==> c == ' ' || c as int in {9, 10, 11, 12, 13, 28, 29, 30, 31}
  {
  }

  /** A text holds another one when it is that text with something before and after it. */
  lemma ContainsMeans(s: string, part: string)
    ensures Contains(s, part) <==> exists a: string, b: string :: s == a + (part + b)
  {
    if i: nat :| i <= |s| && PartAt(s, part, i) {
      assert s == s[..i] + (part + s[i + |part|..]);
    }
    if a: string, b: string :| s == a + (part + b) {
      assert s[|a|..|a| + |part|] == part;
      assert PartAt(s, part, |a|);
    }
  }

  /** Words with blanks before, between and after them. */
  function Laid(words: seq<string>, gaps: seq<string>): string
    requires |gaps| == |words| + 1
  {
    if words == [] then gaps[0] else gaps[0] + words[0] + Laid(words[1..], gaps[1..])
  }

  predicate IsLayout(words: seq<string>, gaps: seq<string>) {
    && |gaps| == |words| + 1
    && (forall i | 0 <= i < |words| :: Solid(words[i]))
    && (forall i | 0 <= i < |gaps| :: AllBlank(gaps[i]))
    && (forall i | 1 <= i < |words| :: gaps[i] != "")
  }

  lemma {:induction false} WordEnds(w: string, rest: string)
    requires Solid(w) && (rest == "" || IsBlank(rest[0]))
    ensures WordLength(w + rest) == |w|
  {
    if |w| == 1 {
      assert (w + rest)[1..] == rest;
    } else {
      assert (w + rest)[1..] == w[1..] + rest;
      WordEnds(w[1..], rest);
    }
  }

  lemma LaidAfterWord(words: seq<string>, gaps: seq<string>)
    requires IsLayout(words, gaps) && (words != [] ==> gaps[0] != "")
    ensures Laid(words, gaps) == "" || IsBlank(Laid(words, gaps)[0])
  {
  }

  /** `split` finds the words, whatever blanks lie around them. */
  lemma {:induction false} SplitLaid(words: seq<string>, gaps: seq<string>)
    requires IsLayout(words, gaps)
    ensures Split(Laid(words, gaps)) == words
    decreases |words|
  {
    if words == [] {
      TrimLeftBlank(gaps[0]);
    } else {
      var rest := Laid(words[1..], gaps[1..]);
      assert IsLayout(words[1..], gaps[1..]);
      LaidAfterWord(words[1..], gaps[1..]);
      assert Laid(words, gaps) == gaps[0] + (words[0] + rest);
      TrimLeftOver(gaps[0], words[0] + rest);
      WordEnds(words[0], rest);
      assert (words[0] + rest)[..|words[0]|] == words[0] && (words[0] + rest)[|words[0]|..] == rest;
      SplitLaid(words[1..], gaps[1..]);
    }
  }

  lemma LaidStarts(words: seq<string>, gaps: seq<string>)
    requires IsLayout(words, gaps) && words != [] && gaps[0] == ""
    ensures Laid(words, gaps) != "" && !IsBlank(Laid(words, gaps)[0])
  {
    assert Solid(words[0]);
  }

  lemma LayoutJoins(gap: string, word: string, words: seq<string>, gaps: seq<string>)
    requires AllBlank(gap) && Solid(word) && IsLayout(words, gaps)
    requires Laid(words, gaps) == "" || IsBlank(Laid(words, gaps)[0])
    ensures IsLayout([word] + words, [gap] + gaps)
    ensures Laid([word] + words, [gap] + gaps) == gap + (word + Laid(words, gaps))
  {
    if words != [] && gaps[0] == "" { LaidStarts(words, gaps); }
    assert ([word] + words)[1..] == words && ([gap] + gaps)[1..] == gaps;
  }

  lemma Cut(t: string, n: nat)
    requires n <= |t|
    ensures t == t[..n] + t[n..] && |t[n..]| == |t| - n
    ensures n < |t| ==> t[n..] != "" && t[n..][0] == t[n]
    ensures n == |t| ==> t[n..] == ""
  {
  }

  lemma SolidUpTo(t: string, n: nat)
    requires 0 < n <= |t| && forall i | 0 <= i < n :: !IsBlank(t[i])
    ensures Solid(t[..n])
  {
  }

  lemma FirstWord(t: string, n: nat)
    requires t != "" && !IsBlank(t[0]) && n == WordLength(t)
    ensures 0 < n <= |t| && Solid(t[..n]) && t == t[..n] + t[n..] && (t[n..] == "" || IsBlank(t[n..][0]))
  {
    Cut(t, n);
    SolidUpTo(t, n);
  }

  /** Every text is some words with blanks around them. */
  lemma {:induction false} LayoutOf(s: string) returns (words: seq<string>, gaps: seq<string>)
    ensures IsLayout(words, gaps) && Laid(words, gaps) == s
    decreases |s|
  {
    var t := TrimLeft(s);
    TrimLeftParts(s);
    var gap := s[..|s| - |t|];
    if t == "" {
      words, gaps := [], [gap];
    } else {
      var n := WordLength(t);
      FirstWord(t, n);
      var ws, gs := LayoutOf(t[n..]);
      LayoutJoins(gap, t[..n], ws, gs);
      words, gaps := [t[..n]] + ws, [gap] + gs;
    }
  }

  function UpperWords(words: seq<string>): seq<string> {
    seq(|words|, i requires 0 <= i < |words| => Upper(words[i]))
  }

  lemma {:induction false} TrimLeftUpper(s: string)
    ensures TrimLeft(Upper(s)) == Upper(TrimLeft(s))
  {
    if s != "" && IsBlank(s[0]) {
      assert Upper(s)[1..] == Upper(s[1..]);
      TrimLeftUpper(s[1..]);
    }
  }

  lemma {:induction false} WordLengthUpper(s: string)
    ensures WordLength(Upper(s)) == WordLength(s)
  {
    if s != "" && !IsBlank(s[0]) {
      assert Upper(s)[1..] == Upper(s[1..]);
      WordLengthUpper(s[1..]);
    }
  }

  lemma CutUpper(t: string, n: nat)
    requires n <= |t|
    ensures Upper(t)[n..] == Upper(t[n..]) && Upper(t)[..n] == Upper(t[..n])
  {
  }

  lemma OneWordMore(word: string, words: seq<string>)
    ensures UpperWords([word] + words) == [Upper(word)] + UpperWords(words)
  {
  }

  lemma {:induction false} SplitUpper(s: string)
    ensures Split(Upper(s)) == UpperWords(Split(s))
    decreases |s|
  {
    var t := TrimLeft(s);
    TrimLeftUpper(s);
    if t != "" {
      var n := WordLength(t);
      WordLengthUpper(t);
      CutUpper(t, n);
      SplitUpper(t[n..]);
      OneWordMore(t[..n], Split(t[n..]));
    }
  }

  lemma {:induction false} WordLengthOfPrefix(t: string, b: string)
    requires AllBlank(b)
    ensures WordLength(t + b) == WordLength(t)
  {
    if t == "" {
      assert t + b == b;
    } else if !IsBlank(t[0]) {
      assert (t + b)[1..] == t[1..] + b;
      WordLengthOfPrefix(t[1..], b);
    }
  }

  lemma {:induction false} TrimLeftOfPrefix(s: string, b: string)
    requires AllBlank(b)
    ensures TrimLeft(s + b) == if TrimLeft(s) == "" then "" else TrimLeft(s) + b
  {
    if s == "" {
      assert s + b == b;
      TrimLeftBlank(b);
    } else if IsBlank(s[0]) {
      assert (s + b)[1..] == s[1..] + b;
      TrimLeftOfPrefix(s[1..], b);
    }
  }

  lemma CutPrefix(t: string, b: string, n: nat)
    requires n <= |t|
    ensures (t + b)[n..] == t[n..] + b && (t + b)[..n] == t[..n]
  {
  }

  lemma {:induction false} SplitOfPrefix(s: string, b: string)
    requires AllBlank(b)
    ensures Split(s + b) == Split(s)
    decreases |s|
  {
    var t := TrimLeft(s);
    TrimLeftOfPrefix(s, b);
    if t != "" {
      var n := WordLength(t);
      WordLengthOfPrefix(t, b);
      CutPrefix(t, b, n);
      SplitOfPrefix(t[n..], b);
    }
  }

  lemma SplitStrip(s: string)
    ensures Split(Strip(s)) == Split(s)
  {
    var t := TrimLeft(s);
    TrimRightParts(t);
    assert t == Strip(s) + t[|Strip(s)|..];
    SplitOfPrefix(Strip(s), t[|Strip(s)|..]);
    assert TrimLeft(t) == t;
  }

  /** Words, each but the first after one blank. */
  function OneBlankApart(words: seq<string>): string {
    if words == [] then "" else words[0] + Following(words[1..])
  }

  function Following(words: seq<string>): string {
    if words == [] then "" else " " + words[0] + Following(words[1..])
  }

  lemma {:induction false} JoinIsSpaced(words: seq<string>)
    ensures Join(words) == OneBlankApart(words)
  {
    if words != [] { JoinIsSpaced(words[1..]); }
  }

  /** The payee normal form: the words of the text in upper case, one blank apart, whatever
      blanks lie around them. Every text is laid out in this way (`LayoutOf`). */
  lemma NormalizeMeans(words: seq<string>, gaps: seq<string>)
    requires IsLayout(words, gaps)
    ensures NormalizePayee(Laid(words, gaps)) == OneBlankApart(UpperWords(words))
  {
    var s := Laid(words, gaps);
    SplitLaid(words, gaps);
    SplitStrip(s);
    SplitUpper(Strip(s));
    JoinIsSpaced(UpperWords(words));
  }

  /** A payee is nothing exactly when the text is nothing but blanks. */
  lemma NormalizesToNothing(s: string)
    ensures NormalizePayee(s) == "" <==> AllBlank(s)
  {
    var x := Upper(Strip(s));
    StripBlank(s);
    JoinEnds(Split(x));
    if Strip(s) != "" {
      assert !IsBlank(Strip(s)[0]) by { if TrimLeft(s) != "" { TrimRightKeepsFirst(TrimLeft(s)); } }
      assert TrimLeft(x) == x;
    }
  }
}
