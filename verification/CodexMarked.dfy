/** A condition on the file itself under which rewriting converges: every begin
    line opens a block, and no end marker runs into a begin marker. */
module CodexMarked {
  import opened Lines
  import opened CodexBlocks
  import opened CodexConfig
  import CodexTables

  /** From `i` on, every begin line is answered by an end line of its own, and no
      begin marker follows on that end line. */
  predicate MarkedFrom(t: string, i: nat)
    requires i <= |t|
    decreases |t| - i
  {
    if BeginAt(t, i) then
      var e := BlockEnd(t, i + |BEGIN|);
      e <= |t| && (LineStart(t, e) || !At(t, e, BEGIN)) && MarkedFrom(t, e)
    else i == |t| || MarkedFrom(t, i + 1)
  }

  predicate WellMarked(t: string) { MarkedFrom(t, 0) }

  /** Text that stays agrees with the source up to the next line break. */
  lemma {:induction false} FirstLineStays(t: string, i: nat, k: nat)
    requires i <= |t| && !BlockAt(t, i) && k <= |StripFrom(t, i)|
    requires forall j :: 0 <= j < k - 1 ==> StripFrom(t, i)[j] != '\n'
    ensures i + k <= |t| && t[i..i + k] == StripFrom(t, i)[..k]
    decreases |t| - i
  {
    hide BlockEnd, At;
    var r := StripFrom(t, i);
    if k > 0 {
      assert r == [t[i]] + StripFrom(t, i + 1) && r[0] == t[i];
      if k > 1 {
        assert !LineStart(t, i + 1);
        var u := StripFrom(t, i + 1);
        assert forall j :: 0 <= j < k - 2 ==> u[j] == r[j + 1];
        FirstLineStays(t, i + 1, k - 1);
      }
      assert r[..k] == [t[i]] + StripFrom(t, i + 1)[..k - 1];
      assert i + k <= |t| ==> t[i..i + k] == [t[i]] + t[i + 1..i + k];
    }
  }

  /** Text without a line break stays whole behind a position that opens no block. */
  lemma {:induction false} OneLineStays(t: string, i: nat, k: nat)
    requires i + k <= |t| && !BlockAt(t, i)
    requires forall j :: i <= j < i + k - 1 ==> t[j] != '\n'
    ensures k <= |StripFrom(t, i)| && StripFrom(t, i)[..k] == t[i..i + k]
    decreases k
  {
    hide BlockEnd, At;
    if k > 0 {
      if k > 1 {
        assert !LineStart(t, i + 1);
        OneLineStays(t, i + 1, k - 1);
      }
      assert StripFrom(t, i) == [t[i]] + StripFrom(t, i + 1);
    }
  }

  lemma BeginStays(t: string, i: nat)
    requires i <= |t| && !BlockAt(t, i)
    ensures At(StripFrom(t, i), 0, BEGIN) <==> At(t, i, BEGIN)
  {
    hide BlockEnd, BEGIN;
    var r := StripFrom(t, i);
    MarkersAreOneLine();
    if At(r, 0, BEGIN) {
      assert forall j :: 0 <= j < |BEGIN| ==> r[j] == r[0..|BEGIN|][j];
      FirstLineStays(t, i, |BEGIN|);
      assert r[..|BEGIN|] == r[0..0 + |BEGIN|];
    }
    if At(t, i, BEGIN) {
      forall j | i <= j < i + |BEGIN| - 1 ensures t[j] != '\n' { AtChar(t, i, BEGIN, j - i); }
      OneLineStays(t, i, |BEGIN|);
      assert r[..|BEGIN|] == r[0..0 + |BEGIN|];
    }
  }

  /** What is left has no begin line, whether or not its first line counts. */
  ghost predicate Clean(r: string, first: bool) {
    (forall k :: 0 < k < |r| ==> !BeginAt(r, k)) && (first ==> !BeginAt(r, 0))
  }

  lemma CleanCons(c: char, u: string, first: bool)
    requires first ==> !At([c] + u, 0, BEGIN)
    ensures Clean([c] + u, first) <==> Clean(u, c == '\n')
  {
    hide At;
    var r := [c] + u;
    forall k | 0 < k < |r|
      ensures BeginAt(r, k) <==> BeginAt(u, k - 1) && (k == 1 ==> c == '\n')
    {
      AtShift([c], u, k - 1, BEGIN);
    }
    if Clean(r, first) {
      forall k | 0 <= k < |u| && (k == 0 ==> c == '\n')
        ensures !BeginAt(u, k)
      {
        assert !BeginAt(r, k + 1);
      }
      if u == "" { NoRoom("", BEGIN) by { MarkersAreOneLine(); } }
    }
  }

  /** Taking out the blocks leaves no begin line if and only if the text is
      well-marked. */
  lemma {:induction false} StripMarked(t: string, i: nat)
    requires i <= |t|
    ensures MarkedFrom(t, i) <==> Clean(StripFrom(t, i), LineStart(t, i))
    decreases |t| - i
  {
    hide BlockEnd, At, BEGIN;
    var r := StripFrom(t, i);
    if BlockAt(t, i) {
      var e := BlockEnd(t, i + |BEGIN|);
      StripMarked(t, e);
      if !LineStart(t, e) { BeginStays(t, e); }
    } else if BeginAt(t, i) {
      BeginStays(t, i);
    } else if i < |t| {
      StripMarked(t, i + 1);
      BeginStays(t, i);
      CleanCons(t[i], StripFrom(t, i + 1), LineStart(t, i));
    } else {
      MarkersAreOneLine();
      NothingAtEnd(t);
      NoRoom("", BEGIN);
    }
  }

  lemma NoRoom(t: string, p: string)
    requires |t| < |p|
    ensures !At(t, 0, p)
  {
  }

  // ---------- lines ----------

  predicate BeginsLike(line: string) { At(line, 0, BEGIN) }

  /** The positional and the line-wise reading of `no begin line` agree. */
  lemma {:induction false} BeginFreeLines(t: string)
    ensures BeginFree(t) <==> forall line :: line in Split(t) ==> !BeginsLike(line)
    decreases |t|
  {
    hide At, BeginsLike;
    var k := NewlineAt(t);
    FirstLineBegins(t);
    if k < |t| {
      var u := t[k + 1..];
      BeginFreeLines(u);
      BeginFreeRest(t);
      assert forall line :: line in Split(t) <==> line == t[..k] || line in Split(u);
    } else {
      assert t[..k] == t;
      assert forall i :: 0 < i < |t| ==> !LineStart(t, i);
      EmptyBegins();
    }
  }

  lemma EmptyBegins()
    ensures !BeginAt("", 0) && !BeginsLike("")
  {
    MarkersAreOneLine();
  }

  lemma BeginFreeRest(t: string)
    requires NewlineAt(t) < |t|
    ensures BeginFree(t) <==> !BeginAt(t, 0) && BeginFree(t[NewlineAt(t) + 1..])
  {
    hide BeginAt, NewlineAt;
    var k := NewlineAt(t);
    var u := t[k + 1..];
    forall i | 0 < i < |t|
      ensures i <= k ==> !BeginAt(t, i)
      ensures i > k ==> BeginAt(t, i) == BeginAt(u, i - k - 1)
    {
      BeginOfRest(t, i);
    }
    if BeginFree(t) {
      forall i | 0 <= i < |u|
        ensures !BeginAt(u, i)
      {
        assert !BeginAt(t, k + 1 + i);
      }
    }
  }

  lemma BeginOfRest(t: string, i: nat)
    requires 0 < i < |t|
    ensures i <= NewlineAt(t) ==> !BeginAt(t, i)
    ensures i > NewlineAt(t) ==> BeginAt(t, i) == BeginAt(t[NewlineAt(t) + 1..], i - NewlineAt(t) - 1)
  {
    hide At, LineStart, NewlineAt;
    var k := NewlineAt(t);
    LineStartOfRest(t, i);
    if i > k {
      assert t == t[..k + 1] + t[k + 1..];
      AtShift(t[..k + 1], t[k + 1..], i - k - 1, BEGIN);
    }
  }

  lemma LineStartOfRest(t: string, i: nat)
    requires 0 < i < |t|
    ensures i <= NewlineAt(t) ==> !LineStart(t, i)
    ensures i > NewlineAt(t) ==> LineStart(t, i) == LineStart(t[NewlineAt(t) + 1..], i - NewlineAt(t) - 1)
  {
    hide NewlineAt;
  }

  lemma FirstLineBegins(t: string)
    ensures BeginAt(t, 0) <==> BeginsLike(t[..NewlineAt(t)])
  {
    hide At;
    var k := NewlineAt(t);
    assert t == t[..k] + t[k..];
    AtPrefix(t[..k], t[k..], 0, BEGIN);
    if At(t, 0, BEGIN) {
      Room(t, BEGIN);
      if k < |BEGIN| {
        AtChar(t, 0, BEGIN, k);
        MarkersAreOneLine();
      } else {
        AtWithin(t[..k], t[k..], 0, BEGIN);
      }
    }
  }

  lemma Room(t: string, p: string)
    requires At(t, 0, p)
    ensures |p| <= |t|
  {
  }

  lemma {:induction false} TrimBeginFree(s: string)
    ensures BeginFree(TrimNewlines(s)) <==> BeginFree(s)
  {
    hide At, LineStart;
    if s != "" && s[|s| - 1] == '\n' {
      var t := s[..|s| - 1];
      assert s == t + "\n";
      MarkersAreOneLine();
      DiffersAt(s, |t|, BEGIN, 0);
      forall i | 0 <= i < |t| ensures BeginAt(s, i) <==> BeginAt(t, i) { BeginBefore(t, i); }
      TrimBeginFree(t);
    }
  }

  /** Clearing leaves no begin line if and only if the file is well-marked. */
  lemma ClearedExactly(text: string)
    ensures BeginFree(StripBlocks(text)) <==> WellMarked(text)
  {
    hide At, MarkedFrom, StripFrom;
    StripMarked(text, 0);
    IsBeginFree(StripBlocks(text));
  }

  /** Taking the blocks out of a well-marked file leaves no begin line. */
  lemma MarkedResidue(text: string)
    requires WellMarked(text)
    ensures BeginFree(StripBlocks(text)) && BeginFree(Residue(text))
  {
    hide At, BeginFree, WellMarked, StripFrom, CodexTables.StripTables, TrimNewlines, BeginsLike, Split, Residue;
    var stripped := StripBlocks(text);
    ClearedExactly(text);
    BeginFreeLines(stripped);
    CodexTables.StripTablesFacts(stripped);
    EmptyBegins();
    BeginFreeLines(CodexTables.StripTables(stripped));
    TrimBeginFree(CodexTables.StripTables(stripped));
    ResidueIs(text);
  }

  /** Clearing a well-marked file is final, keeps the user's text, and keeps it
      well-marked. */
  lemma ClearKeeps(text: string)
    requires WellMarked(text)
    ensures WellMarked(StripBlocks(text)) && Residue(StripBlocks(text)) == Residue(text)
  {
    hide At, BeginFree, MarkedFrom, StripFrom, Residue;
    MarkedResidue(text);
    var stripped := StripBlocks(text);
    StripNothing(stripped, 0);
    BeginFreeIsWellMarked(stripped, 0);
    ResidueIs(text);
    ResidueIs(stripped);
  }

  lemma {:induction false} StripNothing(t: string, i: nat)
    requires i <= |t| && BeginFree(t)
    ensures StripFrom(t, i) == t[i..]
    decreases |t| - i
  {
    hide BlockEnd;
    MarkersAreOneLine();
    if i < |t| {
      StripNothing(t, i + 1);
    }
  }

  /** So does writing a block. */
  lemma SetKeeps(text: string, body: string)
    requires WellMarked(text) && Body(body)
    ensures WellMarked(Managed(text, body)) && Residue(Managed(text, body)) == Residue(text)
  {
    hide At, BeginFree, MarkedFrom, StripFrom, Block, Body, Residue;
    MarkedResidue(text);
    ClearAfterSet(text, body);
    FrontBegins(Residue(text));
    BlockIsMarked(Front(Residue(text)), body, 0);
  }

  lemma {:induction false} BlockIsMarked(x: string, b: string, i: nat)
    requires WholeLines(x) && BeginFree(x) && Body(b) && i <= |x|
    ensures MarkedFrom(x + Block(b), i)
    decreases |x| - i
  {
    hide At, BlockEnd;
    var t := x + Block(b);
    if i < |x| {
      BeginInside(x, Block(b), i);
      BlockIsMarked(x, b, i + 1);
    } else {
      BlockBegins(x, b);
      MarkersAreOneLine();
      NoRoomLeft(t);
    }
  }

  lemma NoRoomLeft(t: string)
    ensures MarkedFrom(t, |t|)
  {
    MarkersAreOneLine();
  }

  /** A well-marked file, in particular one without any begin line or one whose
      last line is an end marker, is one on which every later rewrite agrees. */
  lemma WellMarkedConverges(text: string, b1: string, b2: string)
    requires WellMarked(text) && Body(b1) && Body(b2)
    ensures Managed(Managed(text, b1), b2) == Managed(text, b2)
  {
    hide WellMarked, Residue, Body, Block, BeginFree;
    SetKeeps(text, b1);
  }

  /** Where no server table of the user's stands behind the blocks taken out, the
      well-marked files are exactly those on which rewriting converges. */
  lemma ConvergesUntabled(text: string)
    requires CodexTables.HeaderFree(StripBlocks(text))
    ensures WellMarked(text) <==>
            forall b1, b2 :: Body(b1) && Body(b2) ==> Managed(Managed(text, b1), b2) == Managed(text, b2)
  {
    hide *;
    ClearedExactly(text);
    CodexTables.StripTablesFacts(StripBlocks(text));
    ResidueIs(text);
    TrimBeginFree(StripBlocks(text));
    Converges(text);
  }

  lemma IsBeginFree(r: string)
    ensures BeginFree(r) <==> Clean(r, true)
  {
    hide BeginAt;
    if r == "" { EmptyBegins(); }
  }

  lemma {:induction false} BeginFreeIsWellMarked(t: string, i: nat)
    requires i <= |t| && BeginFree(t)
    ensures MarkedFrom(t, i)
    decreases |t| - i
  {
    hide BlockEnd;
    MarkersAreOneLine();
    if i < |t| {
      BeginFreeIsWellMarked(t, i + 1);
    }
  }
}
