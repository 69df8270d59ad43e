/** Text that is compared without its blanks: the pattern that spreads blanks between the
    characters of a searched plate (backend/app/accountant_master_ops.py), and what it finds. */
module Spread {
  import opened Ascii
  import opened Words

  /** `re.sub(r"\s+", "", text)`. */
  function Unspaced(s: string): string {
    if s == "" then "" else (if IsBlank(s[0]) then "" else [s[0]]) + Unspaced(s[1..])
  }

  /** Whether a text begins with the characters of `body` with any blanks between them, and
      what is left after them: the pattern `_plate_flex_body` builds. */
  function AfterSpread(s: string, body: string): (bool, string)
    requires body != ""
    decreases |body|
  {
    if s == "" || s[0] != body[0] then (false, s)
    else if |body| == 1 then (true, s[1..])
    else AfterSpread(TrimLeft(s[1..]), body[1..])
  }

  /** The text begins with `head`, which reads `body` without blanks and is not padded. */
  predicate Heads(s: string, head: string, body: string) {
    && head != "" && |head| <= |s| && s[..|head|] == head
    && !IsBlank(head[0]) && !IsBlank(head[|head| - 1]) && Unspaced(head) == body
  }

  lemma {:induction false} UnspacedConcat(a: string, b: string)
    ensures Unspaced(a + b) == Unspaced(a) + Unspaced(b)
    decreases |a|
  {
    if a == "" {
      assert a + b == b;
    } else {
      assert (a + b)[1..] == a[1..] + b;
      UnspacedConcat(a[1..], b);
    }
  }

  lemma {:induction false} UnspacedBlank(p: string)
    requires AllBlank(p)
    ensures Unspaced(p) == ""
  {
    if p != "" { UnspacedBlank(p[1..]); }
  }

  lemma {:induction false} UnspacedSolid(w: string)
    requires forall i | 0 <= i < |w| :: !IsBlank(w[i])
    ensures Unspaced(w) == w
  {
    if w != "" { UnspacedSolid(w[1..]); }
  }

  /** The spread pattern finds exactly a head that reads as the body. */
  lemma {:induction false} SpreadHasHead(s: string, body: string) returns (head: string)
    requires body != "" && (forall i | 0 <= i < |body| :: !IsBlank(body[i])) && AfterSpread(s, body).0
    ensures Heads(s, head, body) && AfterSpread(s, body) == (true, s[|head|..])
    decreases |body|
  {
    if |body| == 1 {
      head := s[..1];
      UnspacedSolid(head);
      assert head == body;
    } else {
      var t := TrimLeft(s[1..]);
      var rest := SpreadHasHead(t, body[1..]);
      TrimLeftParts(s[1..]);
      var gap := s[1..][..|s| - 1 - |t|];
      head := [s[0]] + (gap + rest);
      LongerHead(s, gap, t, rest, body[1..]);
      assert body == [s[0]] + body[1..];
    }
  }

  lemma LongerHead(s: string, gap: string, t: string, rest: string, body: string)
    requires s != "" && !IsBlank(s[0]) && s[1..] == gap + t && AllBlank(gap) && Heads(t, rest, body)
    ensures var head := [s[0]] + (gap + rest);
      Heads(s, head, [s[0]] + body) && s[|head|..] == t[|rest|..]
  {
    var head := [s[0]] + (gap + rest);
    UnspacedConcat(gap, rest);
    UnspacedBlank(gap);
    assert head[1..] == gap + rest;
    assert t == rest + t[|rest|..];
    assert s == [s[0]] + (gap + t) && s == head + t[|rest|..];
  }

  lemma {:induction false} HeadIsSpread(s: string, head: string, body: string)
    requires body != "" && Heads(s, head, body)
    ensures AfterSpread(s, body) == (true, s[|head|..])
    decreases |head|
  {
    if |head| == 1 {
      assert Unspaced(head) == [head[0]] + Unspaced(head[1..]) && head[1..] == "";
    } else {
      ShorterHead(s, head, body);
      HeadIsSpread(TrimLeft(s[1..]), TrimLeft(head[1..]), body[1..]);
    }
  }

  lemma ShorterHead(s: string, head: string, body: string)
    requires Heads(s, head, body) && |head| > 1
    ensures var t := TrimLeft(head[1..]);
      && |t| < |head| && |body| > 1 && body[0] == s[0]
      && Heads(TrimLeft(s[1..]), t, body[1..]) && TrimLeft(s[1..])[|t|..] == s[|head|..]
  {
    var tail := head[1..];
    var t := TrimLeft(tail);
    var gap := tail[..|tail| - |t|];
    TrimLeftParts(tail);
    TrimSolidEnd(tail);
    HeadReads(head, gap, t);
    assert s[1..] == gap + (t + s[|head|..]);
    TrimLeftOver(gap, t + s[|head|..]);
    assert (t + s[|head|..])[..|t|] == t && (t + s[|head|..])[|t|..] == s[|head|..];
  }

  lemma HeadReads(head: string, gap: string, t: string)
    requires head != "" && !IsBlank(head[0]) && head[1..] == gap + t && AllBlank(gap)
    ensures Unspaced(head) == [head[0]] + Unspaced(t)
  {
    UnspacedConcat(gap, t);
    UnspacedBlank(gap);
  }

  lemma {:induction false} TrimSolidEnd(s: string)
    requires s != "" && !IsBlank(s[|s| - 1])
    ensures TrimLeft(s) != "" && TrimLeft(s)[|TrimLeft(s)| - 1] == s[|s| - 1] && Unspaced(TrimLeft(s)) != ""
  {
    if IsBlank(s[0]) { TrimSolidEnd(s[1..]); }
  }

  // ---------------------------------------------------------------- plate patterns

  /** A searched number, after an optional T, or a searched plate: `body` spread at the
      beginning of the label, case ignored, and then an end of plate. */
  datatype PlatePattern = PlatePattern(optionalT: bool, body: string, letters: bool)

  /** What may follow a plate: nothing, a slash, or, after a bare number, a letter. */
  predicate PlateEnd(rest: string, letters: bool) {
    rest == "" || rest == "\n" ||
    (var t := TrimLeft(rest); t != "" && (t[0] == '/' || (letters && IsUpper(t[0]))))
  }

  /** The end of the text or of its last line, or a slash, or a letter where one is allowed,
      with any blanks before it. */
  lemma PlateEndMeans(rest: string, letters: bool)
    ensures PlateEnd(rest, letters) <==>
      || |rest| == 0 || (|rest| == 1 && rest[0] == '\n')
      || exists i | 0 <= i < |rest| ::
           AllBlank(rest[..i]) && (rest[i] == '/' || (letters && 'A' <= rest[i] <= 'Z'))
  {
    var t := TrimLeft(rest);
    TrimLeftParts(rest);
    var n := |rest| - |t|;
    BlankUpTo(rest, n);
    if t != "" { assert rest[n] == t[0]; }
    forall i: nat | i < |rest| && AllBlank(rest[..i]) && !IsBlank(rest[i]) ensures i == n { BlankUpTo(rest, i); }
  }

  lemma BlankUpTo(s: string, i: nat)
    requires i <= |s| && AllBlank(s[..i])
    ensures forall j | 0 <= j < i :: IsBlank(s[j])
  {
    assert forall j | 0 <= j < i :: s[..i][j] == s[j];
  }

  /** Where the number of a label starts. */
  function NumberPart(s: string): string {
    TrimLeft(if s != "" && s[0] == 'T' then s[1..] else s)
  }

  predicate PatternMatches(p: PlatePattern, text: string) {
    var s := if p.optionalT then NumberPart(Upper(text)) else Upper(text);
    p.body != "" && AfterSpread(s, p.body).0 && PlateEnd(AfterSpread(s, p.body).1, p.letters)
  }

  /** The text begins with something that reads as `body` without blanks, and then ends or
      goes on as a plate may. */
  predicate LabelStarts(s: string, body: string, letters: bool) {
    exists n: nat | n <= |s| :: Heads(s, s[..n], body) && PlateEnd(s[n..], letters)
  }

  /** The pattern finds exactly the labels that begin as the body reads. */
  lemma PatternMeans(p: PlatePattern, text: string)
    requires Solid(p.body)
    ensures PatternMatches(p, text) <==>
      LabelStarts(if p.optionalT then NumberPart(Upper(text)) else Upper(text), p.body, p.letters)
  {
    var s := if p.optionalT then NumberPart(Upper(text)) else Upper(text);
    if PatternMatches(p, text) {
      var head := SpreadHasHead(s, p.body);
      assert s[..|head|] == head;
    }
    if n: nat :| n <= |s| && Heads(s, s[..n], p.body) && PlateEnd(s[n..], p.letters) {
      HeadIsSpread(s, s[..n], p.body);
    }
  }
}
