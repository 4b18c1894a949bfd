/** Hardware tag text: splitting, stripping and the normal form the admin panel stores. */
module Tags {
  /** The characters `str.strip` removes. */
  predicate IsSpace(c: char) {
    var n := c as int;
    9 <= n <= 13 || 28 <= n <= 32 || n == 0x85 || n == 0xA0 || n == 0x1680 ||
    0x2000 <= n <= 0x200A || n == 0x2028 || n == 0x2029 || n == 0x202F || n == 0x205F || n == 0x3000
  }

  function StripLeft(s: string): string {
    if s != [] && IsSpace(s[0]) then StripLeft(s[1..]) else s
  }

  function StripRight(s: string): string {
    if s != [] && IsSpace(s[|s| - 1]) then StripRight(s[..|s| - 1]) else s
  }

  function Strip(s: string): string {
    StripRight(StripLeft(s))
  }

  /** `s.split(",")`: never empty. */
  function Split(s: string): (pieces: seq<string>)
    ensures pieces != []
  {
    if s == [] then [""] else
      var rest := Split(s[1..]);
      if s[0] == ',' then [""] + rest else [[s[0]] + rest[0]] + rest[1..]
  }

  /** `",".join(pieces)`. */
  function Join(pieces: seq<string>): string {
    if pieces == [] then ""
    else if |pieces| == 1 then pieces[0]
    else pieces[0] + "," + Join(pieces[1..])
  }

  /** Keep the stripped, non-empty pieces, in order. */
  function Clean(pieces: seq<string>): seq<string> {
    if pieces == [] then []
    else (if Strip(pieces[0]) != "" then [Strip(pieces[0])] else []) + Clean(pieces[1..])
  }

  /** The required tags a submitted form carries. */
  function FormTags(s: string): seq<string> {
    Clean(Split(s))
  }

  /** The text `update_host` stores. */
  function Normalise(s: string): string {
    Join(FormTags(s))
  }

  /** `WorkerHost.tag_set`. */
  function TagSet(s: string): set<string> {
    set t | t in Clean(Split(s))
  }

  // --- what the parser means, without reference to Split -------------------

  /** s[i..j] is a maximal stretch of s without a comma. */
  ghost predicate Segment(s: string, i: nat, j: nat) {
    && i <= j <= |s|
    && (i == 0 || s[i - 1] == ',')
    && (j == |s| || s[j] == ',')
    && ',' !in s[i..j]
  }

  /** Trimmed text: no space at either end. */
  ghost predicate Trimmed(s: string) {
    s != [] ==> !IsSpace(s[0]) && !IsSpace(s[|s| - 1])
  }

  ghost predicate AllSpace(s: string) {
    forall c :: c in s ==> IsSpace(c)
  }

  /** t is p[a..b], and only space surrounds it there. */
  ghost predicate TextAt(p: string, t: string, a: nat, b: nat) {
    a <= b <= |p| && t == p[a..b] && AllSpace(p[..a]) && AllSpace(p[b..])
  }

  /** t is a trimmed, non-empty part of some segment, with only space around it there. */
  ghost predicate IsTagOf(t: string, s: string) {
    && t != "" && Trimmed(t)
    && exists i: nat, j: nat, a: nat, b: nat :: Segment(s, i, j) && TextAt(s[i..j], t, a, b)
  }

  lemma ShiftSlice(s: string, i: nat, j: nat)
    requires s != [] && i <= j < |s|
    ensures s[1..][i..j] == s[i + 1..j + 1]
  {
  }

  /** Every piece of Split is a segment; only the first starts at 0. */
  lemma {:induction false} PieceIsSegment(s: string, k: nat) returns (i: nat, j: nat)
    requires k < |Split(s)|
    ensures Segment(s, i, j) && Split(s)[k] == s[i..j] && (k == 0 <==> i == 0)
  {
    if s == [] || (s[0] == ',' && k == 0) {
      i, j := 0, 0;
    } else if s[0] == ',' {
      i, j := PieceIsSegment(s[1..], k - 1);
      ShiftSlice(s, i, j);
      i, j := i + 1, j + 1;
    } else {
      i, j := PieceIsSegment(s[1..], k);
      ShiftSlice(s, i, j);
      assert s[0..j + 1] == [s[0]] + s[1..j + 1];
      i, j := if k == 0 then 0 else i + 1, j + 1;
    }
  }

  /** Every segment is a piece of Split, the first one when it starts at 0. */
  lemma {:induction false} SegmentIsPiece(s: string, i: nat, j: nat) returns (k: nat)
    requires Segment(s, i, j)
    ensures k < |Split(s)| && Split(s)[k] == s[i..j] && (k == 0 <==> i == 0)
  {
    if s == [] || (i == 0 && s[0] == ',') {
      k := 0;
    } else if s[0] == ',' {
      assert s[1..][i - 1..j - 1] == s[i..j];
      k := SegmentIsPiece(s[1..], i - 1, j - 1);
      k := k + 1;
    } else if i == 0 {
      assert j > 0;
      assert s[1..][0..j - 1] == s[1..j];
      assert s[0..j] == [s[0]] + s[1..j];
      k := SegmentIsPiece(s[1..], 0, j - 1);
    } else {
      assert i > 1;
      assert s[1..][i - 1..j - 1] == s[i..j];
      k := SegmentIsPiece(s[1..], i - 1, j - 1);
    }
  }

  lemma {:induction false} CleanMembers(pieces: seq<string>, t: string)
    ensures t in Clean(pieces) <==> t != "" && exists k :: 0 <= k < |pieces| && t == Strip(pieces[k])
  {
    if pieces != [] {
      CleanMembers(pieces[1..], t);
      assert forall k :: 0 < k < |pieces| ==> pieces[k] == pieces[1..][k - 1];
      assert forall k :: 0 <= k < |pieces| - 1 ==> pieces[1..][k] == pieces[k + 1];
    }
  }

  lemma {:induction false} CleanConcat(front: seq<string>, rest: seq<string>)
    ensures Clean(front + rest) == Clean(front) + Clean(rest)
  {
    if front == [] {
      assert front + rest == rest;
    } else {
      assert (front + rest)[1..] == front[1..] + rest;
      CleanConcat(front[1..], rest);
    }
  }

  /** The parser returns exactly the tags the text denotes. */
  lemma {:induction false} TagSetMeaning(s: string, t: string)
    ensures t in TagSet(s) <==> IsTagOf(t, s)
  {
    CleanMembers(Split(s), t);
    if t in TagSet(s) {
      var k :| 0 <= k < |Split(s)| && t == Strip(Split(s)[k]);
      var i, j := PieceIsSegment(s, k);
      var a, b := StripTrims(s[i..j]);
      assert Segment(s, i, j) && TextAt(s[i..j], t, a, b);
    }
    if IsTagOf(t, s) {
      var i: nat, j: nat, a: nat, b: nat :| Segment(s, i, j) && TextAt(s[i..j], t, a, b);
      StripIsUnique(s[i..j], t, a, b);
      var k := SegmentIsPiece(s, i, j);
    }
  }

  // --- stripping ------------------------------------------------------------

  lemma {:induction false} StripLeftTrims(s: string) returns (a: nat)
    ensures a <= |s| && StripLeft(s) == s[a..] && AllSpace(s[..a])
    ensures a < |s| ==> !IsSpace(s[a])
  {
    a := 0;
    if s != [] && IsSpace(s[0]) {
      a := StripLeftTrims(s[1..]);
      assert s[..a + 1] == [s[0]] + s[1..][..a];
      a := a + 1;
    }
  }

  lemma {:induction false} StripRightTrims(s: string) returns (b: nat)
    ensures b <= |s| && StripRight(s) == s[..b] && AllSpace(s[b..])
    ensures b > 0 ==> !IsSpace(s[b - 1])
  {
    b := |s|;
    if s != [] && IsSpace(s[|s| - 1]) {
      b := StripRightTrims(s[..|s| - 1]);
      assert s[b..] == s[..|s| - 1][b..] + [s[|s| - 1]];
    }
  }

  /** What is left is trimmed, and only space has gone. */
  lemma StripTrims(s: string) returns (a: nat, b: nat)
    ensures Trimmed(Strip(s)) && TextAt(s, Strip(s), a, b)
  {
    a := StripLeftTrims(s);
    var n := StripRightTrims(s[a..]);
    b := a + n;
    assert s[a..][..n] == s[a..b] && s[a..][n..] == s[b..];
  }

  lemma SpaceOutside(s: string, t: string, a: nat, b: nat)
    requires TextAt(s, t, a, b)
    ensures forall k :: 0 <= k < |s| && !(a <= k < b) ==> IsSpace(s[k])
  {
    assert forall k :: 0 <= k < a ==> s[k] == s[..a][k];
    assert forall k :: b <= k < |s| ==> s[k] == s[b..][k - b];
  }

  /** Nothing else is: a trimmed part with only space around it is the stripped text. */
  lemma StripIsUnique(s: string, t: string, a: nat, b: nat)
    requires Trimmed(t) && TextAt(s, t, a, b)
    ensures t == Strip(s)
  {
    var i, j := StripTrims(s);
    SpaceOutside(s, t, a, b);
    SpaceOutside(s, Strip(s), i, j);
    if t != "" { assert !IsSpace(s[a]) && !IsSpace(s[b - 1]); }
    if i < j { assert !IsSpace(s[i]) && !IsSpace(s[j - 1]); }
  }

  /** The white space of Unicode as Python knows it, one by one. */
  const WHITE_SPACE := "\t\n\U{0B}\U{0C}\r\U{1C}\U{1D}\U{1E}\U{1F} \U{85}\U{A0}\U{1680}" +
    "\U{2000}\U{2001}\U{2002}\U{2003}\U{2004}\U{2005}\U{2006}\U{2007}" +
    "\U{2008}\U{2009}\U{200A}\U{2028}\U{2029}\U{202F}\U{205F}\U{3000}"

  lemma SpacesAre(c: char)
    ensures IsSpace(c) <==> c in WHITE_SPACE
  {
  }

  // --- the stored normal form -------------------------------------------------

  /** A piece that survives another round of splitting and stripping. */
  ghost predicate IsClean(p: string) {
    p != "" && ',' !in p && Trimmed(p)
  }

  lemma {:induction false} CleanIsClean(pieces: seq<string>)
    requires forall p :: p in pieces ==> ',' !in p
    ensures forall p :: p in Clean(pieces) ==> IsClean(p)
  {
    if pieces != [] {
      var a, b := StripTrims(pieces[0]);
      assert forall c :: c in Strip(pieces[0]) ==> c in pieces[0];
      CleanIsClean(pieces[1..]);
    }
  }

  lemma {:induction false} CleanKeepsClean(pieces: seq<string>)
    requires forall p :: p in pieces ==> IsClean(p)
    ensures Clean(pieces) == pieces
  {
    if pieces != [] {
      assert IsClean(pieces[0]) && TextAt(pieces[0], pieces[0], 0, |pieces[0]|);
      StripIsUnique(pieces[0], pieces[0], 0, |pieces[0]|);
      CleanKeepsClean(pieces[1..]);
    }
  }

  lemma {:induction false} SplitAtComma(p: string, rest: string)
    requires ',' !in p
    ensures Split(p) == [p]
    ensures Split(p + "," + rest) == [p] + Split(rest)
  {
    if p == [] {
      assert ("," + rest)[1..] == rest;
      assert p + "," + rest == "," + rest;
    } else {
      SplitAtComma(p[1..], rest);
      assert p == [p[0]] + p[1..];
      assert (p + "," + rest)[1..] == p[1..] + "," + rest;
    }
  }

  lemma {:induction false} SplitUndoesJoin(pieces: seq<string>)
    requires forall p :: p in pieces ==> IsClean(p)
    ensures Split(Join(pieces)) == if pieces == [] then [""] else pieces
  {
    if |pieces| == 1 {
      assert IsClean(pieces[0]);
      SplitAtComma(pieces[0], "");
    } else if pieces != [] {
      assert IsClean(pieces[0]);
      SplitUndoesJoin(pieces[1..]);
      SplitAtComma(pieces[0], Join(pieces[1..]));
    }
  }

  /** Joining the pieces gives back the text: no comma or character is lost. */
  lemma {:induction false} JoinUndoesSplit(s: string)
    ensures Join(Split(s)) == s
  {
    if s != [] {
      JoinUndoesSplit(s[1..]);
      var rest := Split(s[1..]);
      assert s == [s[0]] + s[1..];
      if s[0] == ',' {
        assert ([""] + rest)[1..] == rest;
      } else {
        assert ([[s[0]] + rest[0]] + rest[1..])[1..] == rest[1..];
        if |rest| > 1 { assert rest[0] + "," + Join(rest[1..]) == s[1..]; }
      }
    }
  }

  /**
   * The stored text parses back to the very same tags, in the same order; and it holds nothing
   * but them and the commas between them.
   */
  lemma {:induction false} NormalFormRoundTrip(s: string)
    ensures Split(Normalise(s)) == if FormTags(s) == [] then [""] else FormTags(s)
    ensures forall t :: t in FormTags(s) ==> t != "" && ',' !in t && Trimmed(t)
    ensures FormTags(Normalise(s)) == FormTags(s)
    ensures TagSet(Normalise(s)) == TagSet(s)
    ensures Normalise(Normalise(s)) == Normalise(s)
  {
    forall p | p in Split(s) ensures ',' !in p {
      var k :| 0 <= k < |Split(s)| && p == Split(s)[k];
      var i, j := PieceIsSegment(s, k);
    }
    CleanIsClean(Split(s));
    SplitUndoesJoin(FormTags(s));
    CleanKeepsClean(FormTags(s));
    assert Clean([""]) == [];
  }
}
