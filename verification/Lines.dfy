/** Splitting a growing text into lines; shared by the stderr sniffer and the
    dashboard's stream decoder. */
module Lines {
  function NewlineAt(s: string): (k: nat)
    ensures k <= |s| && (k < |s| ==> s[k] == '\n')
    ensures forall i :: 0 <= i < k ==> s[i] != '\n'
  {
    if s == "" || s[0] == '\n' then 0 else 1 + NewlineAt(s[1..])
  }

  /** The lines of `s` that a newline ends, without it. */
  function Complete(s: string): seq<string>
    decreases |s|
  {
    var k := NewlineAt(s);
    if k == |s| then [] else [s[..k]] + Complete(s[k + 1..])
  }

  /** The text behind the last newline. */
  function Rest(s: string): string
    decreases |s|
  {
    var k := NewlineAt(s);
    if k == |s| then s else Rest(s[k + 1..])
  }

  /** strings.Split(s, "\n") and s.split('\n'). */
  function Split(s: string): (r: seq<string>)
    ensures r != []
    decreases |s|
  {
    var k := NewlineAt(s);
    if k == |s| then [s] else [s[..k]] + Split(s[k + 1..])
  }

  lemma {:induction false} SplitIsComplete(s: string)
    ensures Split(s) == Complete(s) + [Rest(s)]
    decreases |s|
  {
    var k := NewlineAt(s);
    if k < |s| {
      SplitIsComplete(s[k + 1..]);
      assert [s[..k]] + (Complete(s[k + 1..]) + [Rest(s)]) == ([s[..k]] + Complete(s[k + 1..])) + [Rest(s)];
    }
  }

  lemma NewlineAtIs(s: string, k: nat)
    requires k < |s| && s[k] == '\n' && forall i :: 0 <= i < k ==> s[i] != '\n'
    ensures NewlineAt(s) == k
  {
  }

  lemma FirstLine(s: string)
    ensures var k := NewlineAt(s);
            && (k < |s| ==> Complete(s) == [s[..k]] + Complete(s[k + 1..]) && Rest(s) == Rest(s[k + 1..]))
            && (k == |s| ==> Complete(s) == [] && Rest(s) == s)
  {
    hide NewlineAt;
  }

  lemma NewlineAtAppend(a: string, b: string)
    requires NewlineAt(a) < |a|
    ensures var k := NewlineAt(a);
            NewlineAt(a + b) == k && (a + b)[..k] == a[..k] && (a + b)[k + 1..] == a[k + 1..] + b
  {
    hide NewlineAt;
    NewlineAtIs(a + b, NewlineAt(a));
  }

  /** Appending text: what was complete stays, and the rest is continued. */
  lemma {:induction false} Append(a: string, b: string)
    ensures Complete(a + b) == Complete(a) + Complete(Rest(a) + b)
    ensures Rest(a + b) == Rest(Rest(a) + b)
    decreases |a|
  {
    hide NewlineAt, Complete, Rest;
    var k := NewlineAt(a);
    FirstLine(a);
    if k < |a| {
      var u := a[k + 1..];
      NewlineAtAppend(a, b);
      FirstLine(a + b);
      Append(u, b);
      assert [a[..k]] + (Complete(u) + Complete(Rest(a) + b)) == ([a[..k]] + Complete(u)) + Complete(Rest(a) + b);
    } else {
      assert [] + Complete(a + b) == Complete(a + b);
    }
  }

  lemma NoNewline(s: string)
    requires '\n' !in s
    ensures Complete(s) == [] && Rest(s) == s && Split(s) == [s]
  {
    var k := NewlineAt(s);
    assert forall i :: 0 <= i < |s| ==> s[i] in s;
  }

  lemma {:induction false} RestHasNone(s: string)
    ensures '\n' !in Rest(s)
    decreases |s|
  {
    var k := NewlineAt(s);
    if k < |s| { RestHasNone(s[k + 1..]); } else { assert s[..k] == s; }
  }

  lemma OneLine(r: string)
    requires '\n' !in r
    ensures Complete(r + "\n") == [r] && Rest(r + "\n") == ""
  {
    var s := r + "\n";
    assert forall i :: 0 <= i < |r| ==> s[i] == r[i] && r[i] in r;
    NewlineAtIs(s, |r|);
    assert s[..|r|] == r && s[|r| + 1..] == "";
  }

  /** strings.LastIndexByte(s, '\n') */
  function LastNewlineAt(s: string): (n: int)
    ensures -1 <= n < |s| && (n >= 0 ==> s[n] == '\n')
    ensures forall i :: n < i < |s| ==> s[i] != '\n'
  {
    if s == "" then -1 else if s[|s| - 1] == '\n' then |s| - 1 else LastNewlineAt(s[..|s| - 1])
  }

  /** Cutting at the last newline, as the sniffer does. */
  lemma LastNewline(s: string, n: nat)
    requires n < |s| && s[n] == '\n' && forall i :: n < i < |s| ==> s[i] != '\n'
    ensures Split(s[..n]) == Complete(s) && Rest(s) == s[n + 1..]
  {
    hide *;
    var a, b := s[..n], s[n + 1..];
    assert s == (a + "\n") + b;
    SplitIsComplete(a);
    Append(a, "\n");
    RestHasNone(a);
    OneLine(Rest(a));
    Append(a + "\n", b);
    assert "" + b == b;
    NoNewline(b);
  }

  /** strings.Join(lines, "\n"). */
  function Join(lines: seq<string>): string {
    if lines == [] then "" else if |lines| == 1 then lines[0] else lines[0] + "\n" + Join(lines[1..])
  }

  lemma JoinNone()
    ensures Join([]) == ""
  {
  }

  lemma JoinOne(line: string, lines: seq<string>)
    ensures |Join([line] + lines)| == |line| + (if lines == [] then 0 else 1 + |Join(lines)|)
  {
    assert ([line] + lines)[1..] == lines;
  }

  lemma {:induction false} JoinSplit(s: string)
    ensures Join(Split(s)) == s
    ensures forall line :: line in Split(s) ==> '\n' !in line
    decreases |s|
  {
    var k := NewlineAt(s);
    if k < |s| {
      JoinSplit(s[k + 1..]);
      assert s == s[..k] + "\n" + s[k + 1..];
    }
  }

  lemma SplitFirst(line: string, rest: string)
    requires '\n' !in line
    ensures Split(line + "\n" + rest) == [line] + Split(rest)
  {
    var s := line + "\n" + rest;
    assert forall i :: 0 <= i < |line| ==> s[i] == line[i] && line[i] in line;
    NewlineAtIs(s, |line|);
    assert s[..|line|] == line && s[|line| + 1..] == rest;
  }

  lemma {:induction false} SplitJoin(lines: seq<string>)
    requires lines != [] && forall line :: line in lines ==> '\n' !in line
    ensures Split(Join(lines)) == lines
  {
    hide NewlineAt, Split;
    if |lines| == 1 {
      NoNewline(lines[0]);
    } else {
      SplitJoin(lines[1..]);
      SplitFirst(lines[0], Join(lines[1..]));
      assert lines == [lines[0]] + lines[1..];
    }
  }

  /** A line break at the end adds an empty line. */
  lemma {:induction false} SplitTrailing(s: string)
    ensures Split(s + "\n") == Split(s) + [""]
    decreases |s|
  {
    hide *;
    SplitIsComplete(s + "\n");
    Append(s, "\n");
    RestHasNone(s);
    OneLine(Rest(s));
    SplitIsComplete(s);
  }
}
