/** Rewriting the Codex configuration file so that it holds one managed block. */
module CodexConfig {
  import opened Lines
  import opened CodexBlocks
  import opened CodexTables

  /** strings.TrimRight(s, "\n") */
  function TrimNewlines(s: string): (r: string)
    ensures |r| <= |s|
    ensures r == "" || r[|r| - 1] != '\n'
  {
    if s != "" && s[|s| - 1] == '\n' then TrimNewlines(s[..|s| - 1]) else s
  }

  /** What is left of the user's text once everything managed is taken out. */
  function Residue(text: string): string { TrimNewlines(StripTables(StripBlocks(text))) }

  /** The lines in front of the block. */
  function Front(s: string): string { if s == "" then "" else s + "\n\n" }

  /** The text written for a managed configuration with this body. */
  function Managed(text: string, body: string): string { Front(Residue(text)) + Block(body) }

  // ---------- trimming ----------

  lemma TrimAgain(s: string)
    ensures TrimNewlines(s + "\n") == TrimNewlines(s)
  {
    assert (s + "\n")[..|s|] == s;
  }

  lemma TrimFront(s: string)
    requires s == "" || s[|s| - 1] != '\n'
    ensures TrimNewlines(Front(s)) == s
  {
    hide TrimNewlines;
    Trimmed(s);
    TrimAgain(s);
    TrimAgain(s + "\n");
    assert s + "\n" + "\n" == s + "\n\n";
  }

  lemma Trimmed(s: string)
    requires s == "" || s[|s| - 1] != '\n'
    ensures TrimNewlines(s) == s
  {
  }

  lemma {:induction false} TrimHeaders(s: string)
    ensures HeaderFree(TrimNewlines(s)) <==> HeaderFree(s)
  {
    hide HeaderFree;
    if s != "" && s[|s| - 1] == '\n' {
      var t := s[..|s| - 1];
      assert s == t + "\n";
      TrailingFree(t);
      TrimHeaders(t);
    }
  }

  lemma FrontHeaders(s: string)
    ensures HeaderFree(Front(s)) <==> HeaderFree(s)
  {
    hide HeaderFree;
    TrailingFree(s);
    TrailingFree(s + "\n");
    assert s + "\n" + "\n" == s + "\n\n";
  }

  lemma ResidueFacts(text: string)
    ensures HeaderFree(Residue(text))
    ensures |Residue(text)| <= |StripBlocks(text)|
    ensures Residue(text) == "" || Residue(text)[|Residue(text)| - 1] != '\n'
  {
    hide HeaderFree, StripTables, StripBlocks;
    StripTablesFacts(StripBlocks(text));
    TrimHeaders(StripTables(StripBlocks(text)));
  }

  lemma FrontBegins(s: string)
    ensures WholeLines(Front(s))
    ensures BeginFree(Front(s)) <==> BeginFree(s)
  {
    hide At;
    if s != "" {
      MarkersAreOneLine();
      assert WholeLines(s + "\n") && s + "\n" + "\n" == Front(s);
      forall i | 0 <= i < |s|
        ensures BeginAt(Front(s), i) <==> BeginAt(s, i)
      {
        BeginInside(s + "\n", "\n", i);
        BeginBefore(s, i);
      }
      forall i | |s| <= i < |s| + 2
        ensures !BeginAt(Front(s), i)
      {
        DiffersAt(Front(s), i, BEGIN, 0);
      }
    }
  }

  lemma BeginBefore(s: string, i: nat)
    requires i < |s|
    ensures BeginAt(s + "\n", i) <==> BeginAt(s, i)
  {
    hide At;
    AtPrefix(s, "\n", i, BEGIN);
    if At(s + "\n", i, BEGIN) {
      MarkerInside(s + "\n", "", i, BEGIN) by { assert s + "\n" + "" == s + "\n"; }
      AtWithin(s, "\n", i, BEGIN);
    }
  }

  lemma AtWithin(x: string, t: string, i: nat, p: string)
    requires At(x + t, i, p) && i + |p| <= |x|
    ensures At(x, i, p)
  {
    assert (x + t)[i..i + |p|] == x[i..i + |p|];
  }

  // ---------- convergence ----------

  /** Taking the block out again gives back what stood in front of it. */
  lemma ClearAfterSet(text: string, body: string)
    requires Body(body) && BeginFree(Residue(text))
    ensures StripBlocks(Managed(text, body)) == Front(Residue(text))
    ensures Residue(Managed(text, body)) == Residue(text)
  {
    hide HeaderFree, StripTables, Block, StripFrom, TrimNewlines, Residue;
    var s := Residue(text);
    ResidueFacts(text);
    FrontBegins(s);
    StripBehind(Front(s), body, 0);
    FrontHeaders(s);
    StripTablesFacts(Front(s));
    TrimFront(s);
    ResidueIs(Managed(text, body));
  }

  lemma ResidueIs(text: string)
    ensures Residue(text) == TrimNewlines(StripTables(StripBlocks(text)))
  {
  }

  lemma StrayLosesText(text: string, body: string)
    requires Body(body) && !BeginFree(Residue(text))
    ensures |Residue(Managed(text, body))| < |Residue(text)|
  {
    hide HeaderFree, StripTables, Block, TrimNewlines, Residue, StripFrom;
    var s := Residue(text);
    var p :| 0 <= p < |s| && BeginAt(s, p);
    StrayCosts(s, body, p, 0);
    ResidueFacts(Managed(text, body));
  }

  /** Rewriting converges exactly when no line left of the user's text begins
      like a begin marker: then, whatever was managed before, the file ends up as
      if only the last configuration had been written; otherwise the next rewrite
      loses text even with the same configuration. */
  lemma Converges(text: string)
    ensures BeginFree(Residue(text)) <==>
            forall b1, b2 :: Body(b1) && Body(b2) ==> Managed(Managed(text, b1), b2) == Managed(text, b2)
  {
    hide HeaderFree, StripTables, Block, TrimNewlines, Residue, StripFrom, Body;
    if BeginFree(Residue(text)) {
      forall b1, b2 | Body(b1) && Body(b2)
        ensures Managed(Managed(text, b1), b2) == Managed(text, b2)
      {
        ClearAfterSet(text, b1);
      }
    } else {
      EmptyBody();
      StrayLosesText(text, "");
      FrontLength(Residue(Managed(text, "")), Residue(text));
      assert |Managed(Managed(text, ""), "")| < |Managed(text, "")|;
    }
  }

  lemma EmptyBody()
    ensures Body("")
  {
  }

  lemma FrontLength(a: string, b: string)
    requires |a| < |b|
    ensures |Front(a)| < |Front(b)|
  {
  }

  /** No line that the header pattern takes for a server's stands outside the block. */
  lemma HeadersOnlyInBlock(text: string, body: string)
    ensures Managed(text, body) == Front(Residue(text)) + Block(body)
    ensures HeaderFree(Front(Residue(text)))
  {
    hide HeaderFree, Residue;
    ResidueFacts(text);
    FrontHeaders(Residue(text));
  }

  /** The failing family in its smallest form: a file that is one begin line,
      with no end line, changes again when the same rewrite is repeated. */
  lemma StrayBeginExample()
    ensures Managed(Managed(BEGIN, ""), "") != Managed(BEGIN, "")
  {
    hide At, StripTables, StripBlocks, Residue, Block, TrimNewlines;
    BeginLineStays();
    EmptyBody();
    StrayLosesText(BEGIN, "");
    FrontLength(Residue(Managed(BEGIN, "")), Residue(BEGIN));
  }

  lemma BeginLineStays()
    ensures Residue(BEGIN) == BEGIN && !BeginFree(Residue(BEGIN))
  {
    hide BlockEnd, Keep, BEGIN;
    MarkersAreOneLine();
    NoBlockInOneLine(BEGIN, 0);
    NotAHeader(BEGIN);
    assert '\n' !in BEGIN;
    NoNewline(BEGIN);
    StripTablesFacts(BEGIN);
    assert BEGIN[0..|BEGIN|] == BEGIN;
    assert BeginAt(BEGIN, 0);
  }

  lemma NotAHeader(line: string)
    requires line != "" && line[0] == '#'
    ensures !IsHeader(line)
  {
    assert SkipBlanks(line) == line;
  }

  lemma {:induction false} NoBlockInOneLine(t: string, i: nat)
    requires i <= |t| && forall k :: 0 <= k < |t| ==> t[k] != '\n'
    ensures StripFrom(t, i) == t[i..]
    decreases |t| - i
  {
    MarkersAreOneLine();
    NoEndInOneLine(t, i + |BEGIN|);
    if i < |t| {
      NoBlockInOneLine(t, i + 1);
    }
  }

  lemma {:induction false} NoEndInOneLine(t: string, j: nat)
    requires j > 0 && forall k :: 0 <= k < |t| ==> t[k] != '\n'
    ensures BlockEnd(t, j) > |t|
    decreases |t| - j
  {
    MarkersAreOneLine();
    if j < |t| {
      NoEndInOneLine(t, j + 1);
    }
  }
}
