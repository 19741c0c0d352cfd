/** The string helpers of sources/property_reader/property_reader.cpp: trimming, cutting comments off
    and splitting at delimiters. */
module PropertyText {

  // ----- trim -----

  /** What `trim` strips: its literal ends at the NUL character, which leaves tab and space. */
  predicate IsBlank(c: char) {
    c == '\t' || c == ' '
  }

  ghost predicate AllBlank(s: string) {
    forall i :: 0 <= i < |s| ==> IsBlank(s[i])
  }

  /** Empty, or with no blank at either end. */
  predicate Tight(s: string) {
    s != "" ==> !IsBlank(s[0]) && !IsBlank(s[|s| - 1])
  }

  function TrimLeft(s: string): string {
    if s != "" && IsBlank(s[0]) then TrimLeft(s[1..]) else s
  }

  function TrimRight(s: string): string {
    if s != "" && IsBlank(s[|s| - 1]) then TrimRight(s[..|s| - 1]) else s
  }

  function Trimmed(s: string): string {
    TrimRight(TrimLeft(s))
  }

  lemma {:induction false} TrimLeftParts(s: string)
    ensures exists a :: AllBlank(a) && s == a + TrimLeft(s)
    ensures TrimLeft(s) != "" ==> !IsBlank(TrimLeft(s)[0])
  {
    if s != "" && IsBlank(s[0]) {
      TrimLeftParts(s[1..]);
      var a :| AllBlank(a) && s[1..] == a + TrimLeft(s[1..]);
      assert AllBlank([s[0]] + a) && s == ([s[0]] + a) + TrimLeft(s);
    } else {
      assert AllBlank("") && s == "" + TrimLeft(s);
    }
  }

  lemma {:induction false} TrimRightParts(s: string)
    ensures exists b :: AllBlank(b) && s == TrimRight(s) + b
    ensures TrimRight(s) != "" ==> !IsBlank(TrimRight(s)[|TrimRight(s)| - 1]) && TrimRight(s)[0] == s[0]
  {
    if s != "" && IsBlank(s[|s| - 1]) {
      var init := s[..|s| - 1];
      TrimRightParts(init);
      var b :| AllBlank(b) && init == TrimRight(init) + b;
      assert AllBlank(b + [s[|s| - 1]]) && s == TrimRight(s) + (b + [s[|s| - 1]]);
    } else {
      assert AllBlank("") && s == TrimRight(s) + "";
    }
  }

  /** `trim` removes blanks at both ends and nothing else, and leaves none there. */
  lemma TrimmedParts(s: string)
    ensures exists a, b :: AllBlank(a) && AllBlank(b) && s == a + Trimmed(s) + b
    ensures Tight(Trimmed(s))
  {
    TrimLeftParts(s);
    TrimRightParts(TrimLeft(s));
    var a :| AllBlank(a) && s == a + TrimLeft(s);
    var b :| AllBlank(b) && TrimLeft(s) == Trimmed(s) + b;
    assert s == a + Trimmed(s) + b;
  }

  lemma {:induction false} TrimLeftSkips(a: string, s: string)
    requires AllBlank(a)
    ensures TrimLeft(a + s) == TrimLeft(s)
  {
    if a == "" {
      assert a + s == s;
    } else {
      assert (a + s)[1..] == a[1..] + s;
      TrimLeftSkips(a[1..], s);
    }
  }

  lemma {:induction false} TrimRightSkips(s: string, b: string)
    requires AllBlank(b)
    ensures TrimRight(s + b) == TrimRight(s)
    decreases |b|
  {
    if b == "" {
      assert s + b == s;
    } else {
      assert (s + b)[..|s + b| - 1] == s + b[..|b| - 1];
      TrimRightSkips(s, b[..|b| - 1]);
    }
  }

  /** In terms of characters: what is cut off on either side is tabs and spaces, and the rest, if there is any, begins
      and ends with other characters. */
  lemma TrimmedCharacters(s: string)
    ensures exists a, b ::
      && s == a + Trimmed(s) + b
      && (forall i :: 0 <= i < |a| ==> a[i] == ' ' || a[i] == '\t')
      && (forall i :: 0 <= i < |b| ==> b[i] == ' ' || b[i] == '\t')
    ensures var t := Trimmed(s);
      t != "" ==> t[0] !in " \t" && t[|t| - 1] !in " \t"
  {
    TrimmedParts(s);
    var a, b :| AllBlank(a) && AllBlank(b) && s == a + Trimmed(s) + b;
  }

  /** These two facts determine the result: whatever tight text is framed by blanks is what `trim` returns. */
  lemma TrimmedUnique(a: string, t: string, b: string)
    requires AllBlank(a) && AllBlank(b) && Tight(t)
    ensures Trimmed(a + t + b) == t
  {
    assert a + t + b == a + (t + b);
    TrimLeftSkips(a, t + b);
    if t == "" {
      assert t + b == b + "";
      TrimLeftSkips(b, "");
    } else {
      TrimRightSkips(t, b);
    }
  }

  /** Blanks added around a text do not change its trimmed form. */
  lemma TrimmedPadded(a: string, s: string, b: string)
    requires AllBlank(a) && AllBlank(b)
    ensures Trimmed(a + s + b) == Trimmed(s)
  {
    TrimmedParts(s);
    var l, r :| AllBlank(l) && AllBlank(r) && s == l + Trimmed(s) + r;
    assert a + s + b == (a + l) + Trimmed(s) + (r + b);
    TrimmedUnique(a + l, Trimmed(s), r + b);
  }

  /** A tight text is its own trimmed form. */
  lemma TrimmedTight(t: string)
    requires Tight(t)
    ensures Trimmed(t) == t
  {
    assert t == "" + t + "";
    TrimmedUnique("", t, "");
  }

  method FindFirstNotBlank(s: string) returns (i: nat)
    ensures i <= |s| && AllBlank(s[..i]) && (i < |s| ==> !IsBlank(s[i]))
  {
    i := 0;
    while i < |s| && IsBlank(s[i])
      invariant i <= |s| && AllBlank(s[..i])
    {
      i := i + 1;
    }
  }

  method FindLastNotBlank(s: string) returns (n: nat)
    ensures n <= |s| && (forall i :: n <= i < |s| ==> IsBlank(s[i])) && (n > 0 ==> !IsBlank(s[n - 1]))
  {
    n := |s|;
    while n > 0 && IsBlank(s[n - 1])
      invariant n <= |s| && forall i :: n <= i < |s| ==> IsBlank(s[i])
    {
      n := n - 1;
    }
  }

  /** `trim`, which cuts between the first and the last character that is not blank. */
  method Trim(s: string) returns (r: string)
    ensures r == Trimmed(s)
  {
    var first := FindFirstNotBlank(s);
    var end := FindLastNotBlank(s);
    if first == |s| {
      assert s == s + "" + "";
      TrimmedUnique(s, "", "");
      return "";
    }
    assert first < end;
    r := s[first..end];
    assert s == s[..first] + r + s[end..];
    TrimmedUnique(s[..first], r, s[end..]);
  }

  // ----- delete_comment -----

  predicate IsCommentStart(c: char) {
    c == '#' || c == ';'
  }

  function BeforeComment(s: string): (r: string)
    ensures |r| <= |s| && r == s[..|r|]
    ensures forall i :: 0 <= i < |r| ==> s[i] != '#' && s[i] != ';'
    ensures |r| < |s| ==> s[|r|] == '#' || s[|r|] == ';'
  {
    if s == "" || IsCommentStart(s[0]) then "" else [s[0]] + BeforeComment(s[1..])
  }

  function Uncommented(s: string): string {
    Trimmed(BeforeComment(s))
  }

  method DeleteComment(s: string) returns (r: string)
    ensures r == Uncommented(s)
  {
    var index := 0;
    while index < |s| && !IsCommentStart(s[index])
      invariant index <= |s| && forall i :: 0 <= i < index ==> !IsCommentStart(s[i])
    {
      index := index + 1;
    }
    assert |BeforeComment(s)| == index;
    r := Trim(s[..index]);
  }

  // ----- split -----

  /** `boost::algorithm::split` without token compression: the pieces between delimiters, empty or not. */
  function Pieces(s: string, delims: string): (ps: seq<string>)
    ensures |ps| >= 1
  {
    if s == "" then [""]
    else
      var rest := Pieces(s[1..], delims);
      if s[0] in delims then [""] + rest else [[s[0]] + rest[0]] + rest[1..]
  }

  function TrimAll(ps: seq<string>, trimEach: bool): (r: seq<string>)
    ensures |r| == |ps|
  {
    seq(|ps|, i requires 0 <= i < |ps| => if trimEach then Trimmed(ps[i]) else ps[i])
  }

  function NonEmpty(ps: seq<string>): seq<string> {
    if ps == [] then []
    else (if ps[0] == "" then [] else [ps[0]]) + NonEmpty(ps[1..])
  }

  /** What `split` returns. */
  function SplitOf(s: string, delims: string, trimEach: bool): seq<string> {
    NonEmpty(TrimAll(Pieces(s, delims), trimEach))
  }

  lemma {:induction false} PiecesAtDelimiter(a: string, c: char, b: string, delims: string)
    requires c in delims
    ensures Pieces(a + [c] + b, delims) == Pieces(a, delims) + Pieces(b, delims)
  {
    var s := a + [c] + b;
    if a == "" {
      assert s == [c] + b && s[1..] == b;
    } else {
      assert s[0] == a[0] && s[1..] == a[1..] + [c] + b;
      PiecesAtDelimiter(a[1..], c, b, delims);
    }
  }

  lemma {:induction false} NonEmptyConcat(p: seq<string>, q: seq<string>)
    ensures NonEmpty(p + q) == NonEmpty(p) + NonEmpty(q)
  {
    if p == [] {
      assert p + q == q;
    } else {
      assert (p + q)[1..] == p[1..] + q;
      NonEmptyConcat(p[1..], q);
    }
  }

  /** `split` is a homomorphism at delimiters. */
  lemma SplitAtDelimiter(a: string, c: char, b: string, delims: string, trimEach: bool)
    requires c in delims
    ensures SplitOf(a + [c] + b, delims, trimEach) == SplitOf(a, delims, trimEach) + SplitOf(b, delims, trimEach)
  {
    PiecesAtDelimiter(a, c, b, delims);
    var p, q := Pieces(a, delims), Pieces(b, delims);
    assert TrimAll(p + q, trimEach) == TrimAll(p, trimEach) + TrimAll(q, trimEach);
    NonEmptyConcat(TrimAll(p, trimEach), TrimAll(q, trimEach));
  }

  ghost predicate NoDelimiter(s: string, delims: string) {
    forall i :: 0 <= i < |s| ==> s[i] !in delims
  }

  lemma {:induction false} PiecesClean(s: string, delims: string)
    ensures forall k :: 0 <= k < |Pieces(s, delims)| ==> NoDelimiter(Pieces(s, delims)[k], delims)
  {
    if s != "" {
      PiecesClean(s[1..], delims);
    }
  }

  lemma {:induction false} NonEmptyKeeps(ps: seq<string>, delims: string)
    requires forall k :: 0 <= k < |ps| ==> NoDelimiter(ps[k], delims)
    ensures forall k :: 0 <= k < |NonEmpty(ps)| ==> NonEmpty(ps)[k] != "" && NoDelimiter(NonEmpty(ps)[k], delims)
  {
    if ps != [] {
      NonEmptyKeeps(ps[1..], delims);
    }
  }

  /** No token is empty or contains a delimiter. */
  lemma SplitTokensClean(s: string, delims: string, trimEach: bool)
    ensures forall k :: 0 <= k < |SplitOf(s, delims, trimEach)| ==>
      var token := SplitOf(s, delims, trimEach)[k];
      token != "" && NoDelimiter(token, delims)
  {
    var ps := Pieces(s, delims);
    PiecesClean(s, delims);
    forall k | 0 <= k < |ps| ensures NoDelimiter(TrimAll(ps, trimEach)[k], delims) {
      TrimmedParts(ps[k]);
      var a, b :| AllBlank(a) && AllBlank(b) && ps[k] == a + Trimmed(ps[k]) + b;
      assert forall i :: 0 <= i < |Trimmed(ps[k])| ==> Trimmed(ps[k])[i] == ps[k][|a| + i];
    }
    NonEmptyKeeps(TrimAll(ps, trimEach), delims);
  }

  function Join(tokens: seq<string>, c: char): string {
    if tokens == [] then ""
    else if |tokens| == 1 then tokens[0]
    else tokens[0] + [c] + Join(tokens[1..], c)
  }

  lemma {:induction false} PiecesOfToken(s: string, delims: string)
    requires NoDelimiter(s, delims)
    ensures Pieces(s, delims) == [s]
  {
    if s != "" {
      assert s[0] !in delims;
      PiecesOfToken(s[1..], delims);
      assert [s[0]] + s[1..] == s;
    }
  }

  ghost predicate CleanToken(t: string, delims: string, trimEach: bool) {
    t != "" && NoDelimiter(t, delims) && (trimEach ==> Tight(t))
  }

  lemma SplitOfToken(t: string, delims: string, trimEach: bool)
    requires CleanToken(t, delims, trimEach)
    ensures SplitOf(t, delims, trimEach) == [t]
  {
    PiecesOfToken(t, delims);
    if trimEach {
      TrimmedTight(t);
    }
    assert TrimAll([t], trimEach) == [t];
    assert NonEmpty([t][1..]) == [];
  }

  /** Joining clean tokens with a delimiter and splitting again gives the tokens back. */
  lemma {:induction false} SplitOfJoin(tokens: seq<string>, c: char, delims: string, trimEach: bool)
    requires c in delims && forall k :: 0 <= k < |tokens| ==> CleanToken(tokens[k], delims, trimEach)
    ensures SplitOf(Join(tokens, c), delims, trimEach) == tokens
  {
    if tokens == [] {
      TrimmedTight("");
      assert TrimAll([""], trimEach) == [""];
      assert NonEmpty([""][1..]) == [];
    } else if |tokens| == 1 {
      SplitOfToken(tokens[0], delims, trimEach);
      assert tokens == [tokens[0]];
    } else {
      SplitAtDelimiter(tokens[0], c, Join(tokens[1..], c), delims, trimEach);
      SplitOfToken(tokens[0], delims, trimEach);
      SplitOfJoin(tokens[1..], c, delims, trimEach);
      assert tokens == [tokens[0]] + tokens[1..];
    }
  }

  lemma {:induction false} PiecesPaddedLeft(a: string, s: string, delims: string)
    requires NoDelimiter(a, delims)
    ensures Pieces(a + s, delims) == [a + Pieces(s, delims)[0]] + Pieces(s, delims)[1..]
  {
    if a == "" {
      assert a + s == s && a + Pieces(s, delims)[0] == Pieces(s, delims)[0];
    } else {
      assert (a + s)[1..] == a[1..] + s && a[0] !in delims;
      PiecesPaddedLeft(a[1..], s, delims);
      assert [a[0]] + (a[1..] + Pieces(s, delims)[0]) == a + Pieces(s, delims)[0];
    }
  }

  function PutLast(ps: seq<string>, b: string): seq<string>
    requires |ps| >= 1
  {
    ps[|ps| - 1 := ps[|ps| - 1] + b]
  }

  lemma {:induction false} PiecesPaddedRight(s: string, b: string, delims: string)
    requires NoDelimiter(b, delims)
    ensures Pieces(s + b, delims) == PutLast(Pieces(s, delims), b)
  {
    if s == "" {
      assert s + b == b && "" + b == b;
      PiecesOfToken(b, delims);
    } else {
      assert (s + b)[0] == s[0] && (s + b)[1..] == s[1..] + b;
      PiecesPaddedRight(s[1..], b, delims);
      PutLastCons(s[0], Pieces(s[1..], delims), b);
    }
  }

  /** Appending to the last piece commutes with prepending to the first. */
  lemma PutLastCons(c: char, rest: seq<string>, b: string)
    requires |rest| >= 1
    ensures PutLast([""] + rest, b) == [""] + PutLast(rest, b)
    ensures PutLast([[c] + rest[0]] + rest[1..], b) == [[c] + PutLast(rest, b)[0]] + PutLast(rest, b)[1..]
  {
    if |rest| == 1 {
      assert [c] + (rest[0] + b) == [c] + rest[0] + b;
    }
  }

  /** Blanks around a text do not matter to `split` with trimming. */
  lemma SplitPadded(a: string, s: string, b: string, delims: string)
    requires AllBlank(a) && AllBlank(b)
    requires NoDelimiter(a, delims) && NoDelimiter(b, delims)
    ensures SplitOf(a + s + b, delims, true) == SplitOf(s, delims, true)
  {
    hide Pieces, Trimmed, NonEmpty, AllBlank, NoDelimiter;
    var ps, qs, rs := Pieces(s, delims), Pieces(a + s, delims), Pieces(a + s + b, delims);
    PiecesPaddedLeft(a, s, delims);
    PiecesPaddedRight(a + s, b, delims);
    assert a + ps[0] + "" == a + ps[0] && "" + qs[|qs| - 1] + b == qs[|qs| - 1] + b;
    TrimmedPadded(a, ps[0], "");
    TrimmedPadded("", qs[|qs| - 1], b);
    assert TrimAll(qs, true) == TrimAll(ps, true);
    assert TrimAll(rs, true) == TrimAll(qs, true);
  }

  // ----- the loops of `split` -----

  lemma {:induction false} PiecesSnoc(s: string, c: char, delims: string)
    ensures var ps := Pieces(s, delims);
      Pieces(s + [c], delims) ==
        if c in delims then ps + [""] else PutLast(ps, [c])
  {
    if c in delims {
      PiecesAtDelimiter(s, c, "", delims);
      assert s + [c] + "" == s + [c];
    } else {
      PiecesPaddedRight(s, [c], delims);
    }
  }

  lemma {:induction false} NonEmptySnoc(ps: seq<string>, p: string)
    ensures NonEmpty(ps + [p]) == NonEmpty(ps) + (if p == "" then [] else [p])
  {
    NonEmptyConcat(ps, [p]);
    assert NonEmpty([p][1..]) == [];
  }

  /** `split`: cut at every delimiter, trim each piece, then erase the empty ones. */
  method Split(s: string, delims: string, trimEach: bool) returns (result: seq<string>)
    ensures result == SplitOf(s, delims, trimEach)
  {
    var pieces := [""];
    for i := 0 to |s|
      invariant pieces == Pieces(s[..i], delims)
    {
      assert s[..i + 1] == s[..i] + [s[i]];
      PiecesSnoc(s[..i], s[i], delims);
      if s[i] in delims {
        pieces := pieces + [""];
      } else {
        pieces := pieces[|pieces| - 1 := pieces[|pieces| - 1] + [s[i]]];
      }
    }
    assert s[..|s|] == s;
    if trimEach {
      ghost var cut := pieces;
      for i := 0 to |pieces|
        invariant |pieces| == |cut|
        invariant forall k :: 0 <= k < i ==> pieces[k] == Trimmed(cut[k])
        invariant forall k :: i <= k < |cut| ==> pieces[k] == cut[k]
      {
        var t := Trim(pieces[i]);
        pieces := pieces[i := t];
      }
    }
    assert pieces == TrimAll(Pieces(s, delims), trimEach);
    result := [];
    for i := 0 to |pieces|
      invariant result == NonEmpty(pieces[..i])
    {
      assert pieces[..i + 1] == pieces[..i] + [pieces[i]];
      NonEmptySnoc(pieces[..i], pieces[i]);
      if pieces[i] != "" {
        result := result + [pieces[i]];
      }
    }
    assert pieces[..|pieces|] == pieces;
  }
}
