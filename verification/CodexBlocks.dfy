/** Finding and removing the marked block in the Codex configuration text. */
module CodexBlocks {
  const BEGIN_NAME := "# BEGIN multica-managed mcp_servers"
  const BEGIN_NOTE := " (do not edit; regenerated by daemon)"
  const BEGIN := BEGIN_NAME + BEGIN_NOTE
  const END := "# END multica-managed mcp_servers"

  predicate At(t: string, i: nat, p: string) { i + |p| <= |t| && t[i..i + |p|] == p }

  predicate LineStart(t: string, i: nat) { i == 0 || (i <= |t| && t[i - 1] == '\n') }

  predicate BeginAt(t: string, i: nat) { LineStart(t, i) && At(t, i, BEGIN) }

  /** The end of the run of newlines at `i`. */
  function Newlines(t: string, i: nat): (e: nat)
    requires i <= |t|
    ensures i <= e <= |t|
    decreases |t| - i
  {
    if i < |t| && t[i] == '\n' then Newlines(t, i + 1) else i
  }

  /** Where the nearest end marker from `j` on, with the newlines behind it, is
      over; past the text when there is none. */
  function BlockEnd(t: string, j: nat): (e: nat)
    ensures e <= |t| ==> j + |END| <= e
    decreases |t| - j
  {
    if j > |t| then j
    else if LineStart(t, j) && At(t, j, END) then Newlines(t, j + |END|)
    else if j == |t| then j + |END|
    else BlockEnd(t, j + 1)
  }

  predicate BlockAt(t: string, i: nat) { BeginAt(t, i) && BlockEnd(t, i + |BEGIN|) <= |t| }

  /** Replacing every match of the block pattern, left to right, by nothing. */
  function StripFrom(t: string, i: nat): (r: string)
    requires i <= |t|
    ensures |r| <= |t| - i
    decreases |t| - i
  {
    if BlockAt(t, i) then StripFrom(t, BlockEnd(t, i + |BEGIN|))
    else if i == |t| then ""
    else [t[i]] + StripFrom(t, i + 1)
  }

  function StripBlocks(t: string): string { StripFrom(t, 0) }

  /** No line is, or begins like, a begin marker. */
  ghost predicate BeginFree(t: string) { forall i :: 0 <= i < |t| ==> !BeginAt(t, i) }

  // ---------- blocks ----------

  /** What may stand between the markers: whole lines, none beginning like a marker. */
  ghost predicate Body(b: string) {
    && (b == "" || b[|b| - 1] == '\n')
    && forall i :: 0 <= i < |b| && LineStart(b, i) ==> b[i] != '#'
  }

  function Block(b: string): string { BEGIN + "\n" + b + END + "\n" }

  /** Text that a block can follow: nothing, or whole lines. */
  predicate WholeLines(x: string) { x == "" || x[|x| - 1] == '\n' }

  lemma AtShift(x: string, t: string, i: nat, p: string)
    ensures At(x + t, |x| + i, p) == At(t, i, p)
  {
    if i + |p| <= |t| {
      assert (x + t)[|x| + i..|x| + i + |p|] == t[i..i + |p|];
    }
  }

  lemma AtChar(t: string, i: nat, p: string, k: nat)
    requires At(t, i, p) && k < |p|
    ensures t[i + k] == p[k]
  {
    assert t[i..i + |p|][k] == t[i + k];
  }

  /** The end of a block at the very end of a text. */
  lemma EndOfBlock(x: string, b: string, j: nat)
    requires WholeLines(x) && Body(b)
    requires |x| + |BEGIN| <= j <= |x| + |BEGIN| + 1 + |b|
    ensures BlockEnd(x + Block(b), j) == |x + Block(b)|
  {
    hide BlockEnd, Block, Body;
    assert x + Block(b) + "" == x + Block(b);
    EndBeforeText(x, b, "", j);
  }

  lemma NoEndInBody(x: string, b: string, j: nat)
    requires Body(b)
    requires |x| + |BEGIN| <= j < |x| + |BEGIN| + 1 + |b|
    ensures !(LineStart(x + Block(b), j) && At(x + Block(b), j, END))
  {
    hide At;
    var t := x + Block(b);
    var h := x + BEGIN + "\n";
    assert t == h + b + (END + "\n");
    EndIsOneLine();
    if LineStart(t, j) && At(t, j, END) {
      AtChar(t, j, END, 0);
      NoHashInBody(h, b, END + "\n", j);
    }
  }

  lemma NoHashInBody(h: string, b: string, rest: string, j: nat)
    requires Body(b) && h != "" && |h| - 1 <= j < |h| + |b| && h[|h| - 1] == '\n'
    requires LineStart(h + b + rest, j)
    ensures (h + b + rest)[j] != '#'
  {
    if j >= |h| {
      assert LineStart(b, j - |h|);
      assert (h + b + rest)[j] == b[j - |h|];
    }
  }

  /** Markers contain no line break, so none runs over the end of whole lines. */
  lemma MarkerInside(x: string, t: string, i: nat, p: string)
    requires WholeLines(x) && i < |x| && At(x + t, i, p)
    requires p == BEGIN || p == END
    ensures i + |p| < |x| && At(x, i, p)
  {
    assert (x + t)[|x| - 1] == '\n';
    if i + |p| >= |x| {
      AtChar(x + t, i, p, |x| - 1 - i);
      MarkersAreOneLine();
    }
    assert (x + t)[i..i + |p|] == x[i..i + |p|];
  }

  lemma NameIsOneLine()
    ensures '\n' !in BEGIN_NAME && BEGIN_NAME[0] == '#' && BEGIN_NAME[2] == 'B'
  {
  }

  lemma NoteIsOneLine()
    ensures '\n' !in BEGIN_NOTE
  {
  }

  lemma EndIsOneLine()
    ensures '\n' !in END && END[0] == '#' && END[2] == 'E'
  {
  }

  lemma MarkersAreOneLine()
    ensures forall k :: 0 <= k < |BEGIN| ==> BEGIN[k] != '\n'
    ensures forall k :: 0 <= k < |END| ==> END[k] != '\n'
    ensures |BEGIN| > 3 && |END| > 3 && BEGIN[0] == END[0] == '#' && BEGIN[2] != END[2]
  {
    NameIsOneLine();
    NoteIsOneLine();
    EndIsOneLine();
  }

  lemma BeginInside(x: string, t: string, i: nat)
    requires WholeLines(x) && i < |x|
    ensures BeginAt(x + t, i) <==> BeginAt(x, i)
  {
    hide At;
    if At(x + t, i, BEGIN) {
      MarkerInside(x, t, i, BEGIN);
    }
    AtPrefix(x, t, i, BEGIN);
  }

  lemma AtPrefix(x: string, t: string, i: nat, p: string)
    ensures At(x, i, p) ==> At(x + t, i, p)
  {
    if At(x, i, p) {
      assert (x + t)[i..i + |p|] == x[i..i + |p|];
    }
  }

  lemma BlockStarts(b: string)
    ensures At(Block(b), 0, BEGIN) && Block(b)[0] == '#'
  {
    assert Block(b) == BEGIN + ("\n" + b + END + "\n");
    MarkersAreOneLine();
  }

  /** The block itself begins where the lines before it end. */
  lemma BlockBegins(x: string, b: string)
    requires WholeLines(x) && Body(b)
    ensures BeginAt(x + Block(b), |x|) && (x + Block(b))[|x|] == '#'
    ensures BlockEnd(x + Block(b), |x| + |BEGIN|) == |x + Block(b)|
  {
    hide At, BlockEnd;
    BlockStarts(b);
    AtShift(x, Block(b), 0, BEGIN);
    EndOfBlock(x, b, |x| + |BEGIN|);
  }

  /** Removing the block behind begin-free lines leaves those lines. */
  lemma StripBehind(x: string, b: string, i: nat)
    requires WholeLines(x) && Body(b) && BeginFree(x) && i <= |x|
    ensures StripFrom(x + Block(b), i) == x[i..]
  {
    hide StripFrom, Block, Body;
    assert x + Block(b) + "" == x + Block(b) && x[i..] + "" == x[i..];
    StripBetween(x, b, "", i);
  }

  /** The end of a block with text behind it that does not begin with a newline. */
  lemma {:induction false} EndBeforeText(x: string, b: string, y: string, j: nat)
    requires WholeLines(x) && Body(b) && (y == "" || y[0] != '\n')
    requires |x| + |BEGIN| <= j <= |x| + |BEGIN| + 1 + |b|
    ensures BlockEnd(x + Block(b) + y, j) == |x + Block(b)|
    decreases |b| + 1 + |x| + |BEGIN| - j
  {
    hide Newlines, At, Body;
    var t := x + Block(b);
    var e := |x| + |BEGIN| + 1 + |b|;
    EndLine(x, b);
    AtPrefix(t, y, j, END);
    assert LineStart(t + y, j) == LineStart(t, j);
    if j == e {
      BodyEnds(b);
      assert LineStart(t + y, j) && At(t + y, j, END);
      NewlineThenText(t, y, j + |END|);
    } else {
      NoEndInBody(x, b, j);
      if At(t + y, j, END) { MarkerInside(t, y, j, END); }
      EndBeforeText(x, b, y, j + 1);
    }
  }

  lemma BodyEnds(b: string)
    requires Body(b)
    ensures b == "" || b[|b| - 1] == '\n'
  {
  }

  lemma EndLine(x: string, b: string)
    ensures var t := x + Block(b);
            var e := |x| + |BEGIN| + 1 + |b|;
            && |t| == e + |END| + 1 && At(t, e, END) && t[e - 1] == (if b == "" then '\n' else b[|b| - 1])
            && t[|t| - 1] == '\n' && WholeLines(t)
  {
    var t := x + Block(b);
    assert t == (x + BEGIN + "\n" + b) + (END + "\n");
    AtShift(x + BEGIN + "\n" + b, END + "\n", 0, END);
    assert (END + "\n")[..|END|] == END;
  }

  lemma NewlineThenText(t: string, y: string, i: nat)
    requires i + 1 == |t| && t[i] == '\n' && (y == "" || y[0] != '\n')
    ensures Newlines(t + y, i) == |t|
  {
    assert (t + y)[|t|..] == y;
    assert y != "" ==> (t + y)[|t|] == y[0];
  }

  /** Removing a block between the user's lines leaves those in front and those
      behind it as they are. */
  lemma {:induction false} StripBetween(x: string, b: string, y: string, i: nat)
    requires WholeLines(x) && Body(b) && BeginFree(x) && i <= |x|
    requires BeginFree(y) && (y == "" || y[0] != '\n')
    ensures StripFrom(x + Block(b) + y, i) == x[i..] + y
    decreases |x| - i
  {
    hide At, BlockEnd, Block, Body, BeginFree;
    var t := x + Block(b) + y;
    if i == |x| {
      BlockBegins(x, b);
      AtPrefix(x + Block(b), y, |x|, BEGIN);
      EndBeforeText(x, b, y, |x| + |BEGIN|);
      EndLine(x, b);
      StripRest(x + Block(b), y, |x + Block(b)|);
      assert t[|x + Block(b)|..] == y;
      assert x[i..] + y == y;
    } else {
      assert t == x + (Block(b) + y);
      BeginInside(x, Block(b) + y, i);
      NotBegin(x, i);
      StripBetween(x, b, y, i + 1);
      assert t[i] == x[i];
      assert x[i..] + y == [x[i]] + (x[i + 1..] + y);
    }
  }

  lemma NotBegin(x: string, i: nat)
    requires BeginFree(x) && i < |x|
    ensures !BeginAt(x, i)
  {
  }

  lemma {:induction false} StripRest(x: string, y: string, i: nat)
    requires WholeLines(x) && BeginFree(y) && |x| <= i <= |x + y|
    ensures StripFrom(x + y, i) == (x + y)[i..]
    decreases |x + y| - i
  {
    hide BlockEnd, At, BEGIN;
    var t := x + y;
    if i == |t| {
      NothingAtEnd(t);
    } else {
      AtShift(x, y, i - |x|, BEGIN);
      assert LineStart(t, i) ==> LineStart(y, i - |x|);
      NotBegin(y, i - |x|);
      StripRest(x, y, i + 1);
    }
  }

  lemma NothingAtEnd(t: string)
    ensures StripFrom(t, |t|) == ""
  {
  }

  /** A block found in the lines before the last block ends among them or with
      the last block. */
  lemma {:induction false} EndBeforeOrAll(x: string, b: string, j: nat)
    requires WholeLines(x) && Body(b) && j <= |x| + |BEGIN|
    ensures BlockEnd(x + Block(b), j) <= |x| || BlockEnd(x + Block(b), j) == |x + Block(b)|
    decreases |x| + |BEGIN| - j
  {
    hide At, Block;
    var t := x + Block(b);
    BlockBegins(x, b);
    if j < |x| + |BEGIN| {
      if LineStart(t, j) && At(t, j, END) {
        if j < |x| {
          MarkerInside(x, Block(b), j, END);
          NewlinesStop(t, j + |END|, |x|);
        } else {
          InBegin(x, b, j);
        }
      } else {
        EndBeforeOrAll(x, b, j + 1);
      }
    }
  }

  lemma {:induction false} NewlinesStop(t: string, i: nat, k: nat)
    requires i <= k < |t| && t[k] != '\n'
    ensures Newlines(t, i) <= k
    decreases k - i
  {
    if i < k {
      NewlinesStop(t, i + 1, k);
    }
  }

  /** No end marker starts inside the begin line. */
  lemma InBegin(x: string, b: string, j: nat)
    requires |x| <= j < |x| + |BEGIN|
    ensures !(LineStart(x + Block(b), j) && At(x + Block(b), j, END))
  {
    var t := x + Block(b);
    assert forall k :: 0 <= k < |BEGIN| ==> t[|x| + k] == BEGIN[k];
    MarkersAreOneLine();
    if j > |x| {
      assert t[j - 1] == BEGIN[j - 1 - |x|];
    } else {
      assert t[j + 2] == BEGIN[2];
      DiffersAt(t, j, END, 2);
    }
  }

  lemma DiffersAt(t: string, j: nat, p: string, k: nat)
    requires k < |p| && j + k < |t| && t[j + k] != p[k]
    ensures !At(t, j, p)
  {
    if At(t, j, p) {
      AtChar(t, j, p, k);
    }
  }

  /** In any case only text from before the block can be left. */
  lemma {:induction false} StripAtMost(x: string, b: string, i: nat)
    requires WholeLines(x) && Body(b) && i <= |x|
    ensures |StripFrom(x + Block(b), i)| <= |x| - i
    decreases |x| - i
  {
    hide At, BlockEnd, Block;
    var t := x + Block(b);
    if i == |x| {
      BlockBegins(x, b);
      NothingAtEnd(t);
    } else if BlockAt(t, i) {
      EndBeforeOrAll(x, b, i + |BEGIN|);
      NothingAtEnd(t);
      var e := BlockEnd(t, i + |BEGIN|);
      if e <= |x| {
        StripAtMost(x, b, e);
      }
    } else {
      StripAtMost(x, b, i + 1);
    }
  }

  /** A stray begin marker costs text: what is left is then shorter than the
      lines before the block, blank ones apart. */
  lemma {:induction false} StrayCosts(s: string, b: string, p: nat, i: nat)
    requires Body(b) && p < |s| && BeginAt(s, p) && i <= p
    ensures |StripFrom(s + "\n\n" + Block(b), i)| < |s| - i
    decreases p - i
  {
    hide At, Block;
    var x := s + "\n\n";
    var t := x + Block(b);
    assert x[|x| - 1] == '\n';
    StrayBegins(s, b, p);
    if BlockAt(t, i) {
      EndBeforeOrAll(x, b, i + |BEGIN|);
      NothingAtEnd(t);
      var e := BlockEnd(t, i + |BEGIN|);
      if e <= |x| {
        StripAtMost(x, b, e);
      }
    } else {
      StrayCosts(s, b, p, i + 1);
    }
  }

  lemma StrayBegins(s: string, b: string, p: nat)
    requires Body(b) && p < |s| && BeginAt(s, p)
    ensures BlockAt(s + "\n\n" + Block(b), p)
  {
    hide Block, BlockEnd;
    var x := s + "\n\n";
    EndBeforeOrAll(x, b, p + |BEGIN|);
    assert (x + Block(b))[p..p + |BEGIN|] == s[p..p + |BEGIN|];
  }
}
