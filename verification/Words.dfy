/** Python's `strip`, `split` and `" ".join` on ASCII text, and the payee normal form
    of backend/app/import_ops.py built from them. */
module Words {
  import opened Ascii

  /** The dash that stands for an empty cell. */
  const DASH := "\U{2014}"

  function TrimLeft(s: string): (r: string)
    ensures |r| <= |s|
    ensures r == "" || !IsBlank(r[0])
  {
    if s != "" && IsBlank(s[0]) then TrimLeft(s[1..]) else s
  }

  function TrimRight(s: string): (r: string)
    ensures r == "" || !IsBlank(r[|r| - 1])
  {
    if s != "" && IsBlank(s[|s| - 1]) then TrimRight(s[..|s| - 1]) else s
  }

  function Strip(s: string): string { TrimRight(TrimLeft(s)) }

  lemma {:induction false} TrimLeftBlank(s: string)
    ensures TrimLeft(s) == "" <==> AllBlank(s)
  {
    if s != "" && IsBlank(s[0]) {
      TrimLeftBlank(s[1..]);
      assert forall i | 1 <= i < |s| :: s[i] == s[1..][i - 1];
    }
  }

  lemma {:induction false} TrimRightKeepsFirst(s: string)
    requires s != "" && !IsBlank(s[0])
    ensures TrimRight(s) != "" && TrimRight(s)[0] == s[0]
  {
    if IsBlank(s[|s| - 1]) { TrimRightKeepsFirst(s[..|s| - 1]); }
  }

  lemma {:induction false} TrimLeftParts(s: string)
    ensures var t := TrimLeft(s); |t| <= |s| && AllBlank(s[..|s| - |t|]) && s == s[..|s| - |t|] + t
  {
    if s != "" && IsBlank(s[0]) {
      TrimLeftParts(s[1..]);
      var t := TrimLeft(s);
      assert s[..|s| - |t|] == [s[0]] + s[1..][..|s| - 1 - |t|];
    }
  }

  lemma {:induction false} TrimLeftOver(p: string, s: string)
    requires AllBlank(p) && (s == "" || !IsBlank(s[0]))
    ensures TrimLeft(p + s) == s
    decreases |p|
  {
    if p == "" {
      assert p + s == s;
    } else {
      assert (p + s)[1..] == p[1..] + s;
      TrimLeftOver(p[1..], s);
    }
  }

  /** `strip` leaves nothing exactly when everything is blank, and stripping twice is
      stripping once. */
  lemma StripBlank(s: string)
    ensures Strip(s) == "" <==> AllBlank(s)
    ensures Strip(Strip(s)) == Strip(s)
  {
    TrimLeftBlank(s);
    if TrimLeft(s) != "" { TrimRightKeepsFirst(TrimLeft(s)); }
  }

  predicate Solid(w: string) {
    w != "" && forall i | 0 <= i < |w| :: !IsBlank(w[i])
  }

  /** The length of the first word of text that starts with one. */
  function WordLength(s: string): (n: nat)
    ensures n <= |s|
    ensures forall i | 0 <= i < n :: !IsBlank(s[i])
    ensures n < |s| ==> IsBlank(s[n])
  {
    if s == "" || IsBlank(s[0]) then 0 else 1 + WordLength(s[1..])
  }

  /** `str.split()`. */
  function Split(s: string): (ws: seq<string>)
    ensures forall i | 0 <= i < |ws| :: Solid(ws[i])
    decreases |s|
  {
    var t := TrimLeft(s);
    if t == "" then [] else
      var n := WordLength(t);
      [t[..n]] + Split(t[n..])
  }

  /** `" ".join(words)`. */
  function Join(ws: seq<string>): string {
    if ws == [] then "" else if |ws| == 1 then ws[0] else ws[0] + " " + Join(ws[1..])
  }

  lemma {:induction false} SplitJoin(ws: seq<string>)
    requires forall i | 0 <= i < |ws| :: Solid(ws[i])
    ensures Split(Join(ws)) == ws
  {
    if ws != [] {
      var s := Join(ws);
      assert Solid(ws[0]) && s[0] == ws[0][0];
      var n := WordLength(s);
      assert s[..|ws[0]|] == ws[0];
      assert forall i | 0 <= i < |ws[0]| :: s[i] == ws[0][i];
      if |ws| == 1 {
        assert s[n..] == "" && s[..n] == ws[0];
      } else {
        assert s[|ws[0]|] == ' ';
        assert n == |ws[0]|;
        SplitJoin(ws[1..]);
        assert s[n..][1..] == Join(ws[1..]);
        assert TrimLeft(s[n..]) == TrimLeft(Join(ws[1..]));
      }
    }
  }

  predicate NoLower(s: string) {
    forall i | 0 <= i < |s| :: !IsLower(s[i])
  }

  lemma {:induction false} TrimLeftNoLower(s: string)
    requires NoLower(s)
    ensures NoLower(TrimLeft(s))
  {
    if s != "" && IsBlank(s[0]) { TrimLeftNoLower(s[1..]); }
  }

  lemma {:induction false} JoinSplitNoLower(s: string)
    requires NoLower(s)
    ensures NoLower(Join(Split(s)))
    decreases |s|
  {
    var t := TrimLeft(s);
    TrimLeftNoLower(s);
    if t != "" {
      var n := WordLength(t);
      JoinSplitNoLower(t[n..]);
      assert Split(s)[0] == t[..n] && Split(s)[1..] == Split(t[n..]);
    }
  }

  lemma {:induction false} JoinEnds(ws: seq<string>)
    requires forall i | 0 <= i < |ws| :: Solid(ws[i])
    ensures Join(ws) == "" <==> ws == []
    ensures ws != [] ==> !IsBlank(Join(ws)[0]) && !IsBlank(Join(ws)[|Join(ws)| - 1])
  {
    if ws != [] {
      assert Solid(ws[0]);
      JoinEnds(ws[1..]);
    }
  }

  /** `normalize_payee_text`. */
  function NormalizePayee(s: string): string { Join(Split(Upper(Strip(s)))) }

  /** Normalising a normalised payee changes nothing, so a backfill compares and writes
      exactly the text that the insert stored. */
  lemma NormalizeIsIdempotent(s: string)
    ensures NormalizePayee(NormalizePayee(s)) == NormalizePayee(s)
  {
    var x := NormalizePayee(s);
    var ws := Split(Upper(Strip(s)));
    assert NoLower(Upper(Strip(s)));
    JoinSplitNoLower(Upper(Strip(s)));
    JoinEnds(ws);
    assert Strip(x) == x;
    assert Upper(x) == x;
    SplitJoin(ws);
  }
}
