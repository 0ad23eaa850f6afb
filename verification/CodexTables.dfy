/** Removing the user's own `[mcp_servers.*]` tables, line by line. */
module CodexTables {
  import opened Lines
  import opened Strings

  // ---------- the header pattern ----------

  /** White space as the header pattern means it. */
  predicate IsBlank(c: char) { c == ' ' || c == '\t' || c == '\n' || c == '\r' || c == 12 as char }

  function SkipBlanks(t: string): (r: string)
    ensures |r| <= |t|
  {
    if t != "" && IsBlank(t[0]) then SkipBlanks(t[1..]) else t
  }

  /** The rest of a line behind the key: a bracket, then at most a comment. */
  predicate HeaderEnd(t: string) {
    var u := SkipBlanks(t);
    u != "" && u[0] == ']' && (SkipBlanks(u[1..]) == "" || SkipBlanks(u[1..])[0] == '#')
  }

  function UntilQuote(t: string): (k: nat)
    ensures k <= |t|
  {
    if t == "" || t[0] == '\"' then 0 else 1 + UntilQuote(t[1..])
  }

  function BareLen(t: string): (k: nat)
    ensures k <= |t|
  {
    if t == "" || t[0] == ']' || IsBlank(t[0]) then 0 else 1 + BareLen(t[1..])
  }

  /** A quoted key, or failing that a run without brackets and blanks. */
  predicate KeyAndEnd(t: string) {
    || (t != "" && t[0] == '\"' && UntilQuote(t[1..]) < |t| - 1 && HeaderEnd(t[2 + UntilQuote(t[1..])..]))
    || (BareLen(t) > 0 && HeaderEnd(t[BareLen(t)..]))
  }

  /** A header of one of the user's own server tables. */
  predicate IsHeader(line: string) {
    var a := SkipBlanks(line);
    StartsWith(a, "[") &&
    var b := SkipBlanks(a[1..]);
    StartsWith(b, "mcp_servers") &&
    var c := SkipBlanks(b[11..]);
    StartsWith(c, ".") && KeyAndEnd(SkipBlanks(c[1..]))
  }

  // ---------- the removal ----------

  /** What one line does: the lines it lets through and whether to go on skipping. */
  function Pass(line: string, skipping: bool): (seq<string>, bool) {
    if IsHeader(line) then ([], true)
    else if skipping then
      var trimmed := TrimSpace(line);
      if StartsWith(trimmed, "[") && !StartsWith(trimmed, "[mcp_servers.") && !StartsWith(trimmed, "[ mcp_servers.")
      then ([line], false) else ([], true)
    else ([line], false)
  }

  function Keep(lines: seq<string>, skipping: bool): seq<string> {
    if lines == [] then [] else Pass(lines[0], skipping).0 + Keep(lines[1..], Pass(lines[0], skipping).1)
  }

  function StripTables(t: string): string { Join(Keep(Split(t), false)) }

  predicate HeaderFree(t: string) { forall line :: line in Split(t) ==> !IsHeader(line) }

  lemma {:induction false} KeepFacts(lines: seq<string>, skipping: bool)
    ensures forall line :: line in Keep(lines, skipping) ==> line in lines && !IsHeader(line)
    ensures |Join(Keep(lines, skipping))| <= |Join(lines)|
    ensures !skipping && (forall line :: line in lines ==> !IsHeader(line)) ==> Keep(lines, skipping) == lines
  {
    hide IsHeader, TrimSpace, StartsWith, Join;
    JoinNone();
    if lines != [] {
      var rest := Keep(lines[1..], Pass(lines[0], skipping).1);
      KeepFacts(lines[1..], Pass(lines[0], skipping).1);
      assert lines == [lines[0]] + lines[1..];
      JoinOne(lines[0], lines[1..]);
      JoinOne(lines[0], rest);
      assert [] + rest == rest;
    }
  }

  lemma EmptyLine()
    ensures !IsHeader("") && Split("") == [""] && Join([]) == ""
  {
  }

  /** Blank lines at the end carry no header. */
  lemma TrailingFree(t: string)
    ensures HeaderFree(t + "\n") <==> HeaderFree(t)
  {
    hide IsHeader, Split;
    SplitTrailing(t);
    EmptyLine();
    assert forall line :: line in Split(t + "\n") <==> line in Split(t) || line == "";
  }

  // ---------- which lines go ----------

  /** A line that begins a table other than a server's, and so ends any removal. */
  predicate Stops(line: string) {
    var trimmed := TrimSpace(line);
    !IsHeader(line)
    && StartsWith(trimmed, "[")
    && !StartsWith(trimmed, "[mcp_servers.")
    && !StartsWith(trimmed, "[ mcp_servers.")
  }

  /** Line `i` belongs to a server's table: a header stands at or above it, and no
      other table has begun since. */
  predicate InTable(lines: seq<string>, i: nat)
    requires i < |lines|
  {
    exists j :: 0 <= j <= i && IsHeader(lines[j]) && forall k :: j < k <= i ==> !Stops(lines[k])
  }

  /** The lines that belong to no server's table, in their order. */
  function Others(lines: seq<string>): seq<string> {
    if lines == [] then []
    else
      var n := |lines| - 1;
      Others(lines[..n]) + if InTable(lines, n) then [] else [lines[n]]
  }

  function SkippingAfter(lines: seq<string>, skipping: bool): bool {
    if lines == [] then skipping else SkippingAfter(lines[1..], Pass(lines[0], skipping).1)
  }

  lemma {:induction false} KeepSnoc(lines: seq<string>, x: string, skipping: bool)
    ensures Keep(lines + [x], skipping) == Keep(lines, skipping) + Pass(x, SkippingAfter(lines, skipping)).0
    ensures SkippingAfter(lines + [x], skipping) == Pass(x, SkippingAfter(lines, skipping)).1
  {
    hide Pass;
    if lines == [] {
      assert [] + [x] == [x] && [x][1..] == [];
      KeepNone(Pass(x, skipping).1);
      assert Pass(x, skipping).0 + [] == [] + Pass(x, skipping).0;
    } else {
      var p := Pass(lines[0], skipping);
      assert (lines + [x])[1..] == lines[1..] + [x];
      KeepSnoc(lines[1..], x, p.1);
      var rest := SkippingAfter(lines[1..], p.1);
      assert p.0 + (Keep(lines[1..], p.1) + Pass(x, rest).0) == (p.0 + Keep(lines[1..], p.1)) + Pass(x, rest).0;
    }
  }

  lemma PassCases(line: string, skipping: bool)
    ensures Pass(line, skipping).1 == (IsHeader(line) || (skipping && !Stops(line)))
    ensures Pass(line, skipping).0 == if Pass(line, skipping).1 then [] else [line]
  {
    hide IsHeader, TrimSpace, StartsWith;
  }

  /** A line is in a table if it is a header, or if it ends no table and the line
      above it is in one. */
  lemma InTableNext(lines: seq<string>, n: nat)
    requires n < |lines|
    ensures InTable(lines, n) <==> IsHeader(lines[n]) || (!Stops(lines[n]) && n > 0 && InTable(lines, n - 1))
  {
    hide IsHeader, Stops;
    if InTable(lines, n) && !IsHeader(lines[n]) {
      var j :| 0 <= j <= n && IsHeader(lines[j]) && forall k :: j < k <= n ==> !Stops(lines[k]);
      assert InTable(lines, n - 1);
    }
    if n > 0 && InTable(lines, n - 1) && !Stops(lines[n]) {
      var j :| 0 <= j <= n - 1 && IsHeader(lines[j]) && forall k :: j < k <= n - 1 ==> !Stops(lines[k]);
      assert forall k :: j < k <= n ==> !Stops(lines[k]);
    }
  }

  lemma InTablePrefix(lines: seq<string>, n: nat, i: nat)
    requires i < n <= |lines|
    ensures InTable(lines[..n], i) <==> InTable(lines, i)
  {
    hide IsHeader, Stops;
    assert forall k :: 0 <= k <= i ==> lines[..n][k] == lines[k];
    if InTable(lines, i) {
      var j :| 0 <= j <= i && IsHeader(lines[j]) && forall k :: j < k <= i ==> !Stops(lines[k]);
      assert IsHeader(lines[..n][j]) && forall k :: j < k <= i ==> !Stops(lines[..n][k]);
    }
    if InTable(lines[..n], i) {
      var j :| 0 <= j <= i && IsHeader(lines[..n][j]) && forall k :: j < k <= i ==> !Stops(lines[..n][k]);
      assert IsHeader(lines[j]) && forall k :: j < k <= i ==> !Stops(lines[k]);
    }
  }

  /** Exactly the lines of the servers' tables go; all others stay, in their order. */
  lemma {:induction false} KeepIsOthers(lines: seq<string>)
    ensures Keep(lines, false) == Others(lines)
    ensures SkippingAfter(lines, false) == (lines != [] && InTable(lines, |lines| - 1))
    decreases |lines|
  {
    hide IsHeader, Stops, Pass, InTable;
    if lines == [] {
      KeepNone(false);
    } else {
      var n := |lines| - 1;
      assert lines == lines[..n] + [lines[n]];
      KeepIsOthers(lines[..n]);
      KeepSnoc(lines[..n], lines[n], false);
      PassCases(lines[n], SkippingAfter(lines[..n], false));
      InTableNext(lines, n);
      if n > 0 { InTablePrefix(lines, n, n - 1); }
    }
  }

  /** Exactly the lines of the servers' tables go and all others stay in order: so
      no table header is left, a text without any is left as it is, and the text
      does not grow. */
  lemma StripTablesFacts(t: string)
    ensures StripTables(t) == Join(Others(Split(t)))
    ensures HeaderFree(StripTables(t))
    ensures HeaderFree(t) ==> StripTables(t) == t
    ensures |StripTables(t)| <= |t|
    ensures forall line :: line in Split(StripTables(t)) ==> line == "" || line in Split(t)
  {
    hide IsHeader, Keep, Split, Join, Others;
    KeepIsOthers(Split(t));
    var kept := Keep(Split(t), false);
    KeepFacts(Split(t), false);
    JoinSplit(t);
    if kept == [] {
      EmptyLine();
    } else {
      SplitJoin(kept);
    }
  }

  // ---------- the code ----------

  lemma KeepNone(skipping: bool)
    ensures Keep([], skipping) == []
  {
  }

  lemma KeepStep(lines: seq<string>, i: nat, skipping: bool)
    requires i < |lines|
    ensures Keep(lines[i..], skipping) == Pass(lines[i], skipping).0 + Keep(lines[i + 1..], Pass(lines[i], skipping).1)
  {
    hide Pass;
    assert lines[i..][1..] == lines[i + 1..];
  }

  /** stripCodexUserMcpServerTables */
  method StripCodexUserMcpServerTables(content: string) returns (text: string)
    ensures text == StripTables(content)
  {
    hide IsHeader, Split, Join, Keep, TrimSpace;
    var lines := Split(content);
    assert lines[0..] == lines && [] + Keep(lines, false) == Keep(lines, false);
    var kept: seq<string> := [];
    var skipping := false;
    for i := 0 to |lines|
      invariant kept + Keep(lines[i..], skipping) == Keep(lines, false)
    {
      var line := lines[i];
      KeepStep(lines, i, skipping);
      ghost var was := kept;
      ghost var p := Pass(line, skipping);
      if IsHeader(line) {
        skipping := true;
      } else if skipping {
        var trimmed := TrimSpace(line);
        if StartsWith(trimmed, "[") {
          if !StartsWith(trimmed, "[mcp_servers.") && !StartsWith(trimmed, "[ mcp_servers.") {
            skipping := false;
            kept := kept + [line];
          }
        }
      } else {
        kept := kept + [line];
      }
      assert kept == was + p.0 && skipping == p.1;
      assert was + (p.0 + Keep(lines[i + 1..], p.1)) == kept + Keep(lines[i + 1..], skipping);
    }
    KeepNone(skipping);
    assert lines[|lines|..] == [] && kept + [] == kept;
    text := Join(kept);
  }
}
