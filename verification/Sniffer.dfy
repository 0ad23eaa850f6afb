/** acpProviderErrorSniffer: a line-buffered, bounded error log behind stderr. */
module Sniffer {
  import opened Strings
  import opened Lines

  const MAX_ERROR_LINES: nat := 8

  /** The two line tests, regular expressions in the source. */
  datatype Tests = Tests(isError: string -> bool, isTerminal: string -> bool)

  datatype Log = Log(lines: seq<string>, seen: set<string>, terminal: bool)

  const Empty := Log([], {}, false)

  function Last(n: nat, xs: seq<string>): (r: seq<string>)
  {
    if |xs| > n then xs[|xs| - n..] else xs
  }

  predicate Relevant(t: Tests, line: string) {
    line != "" && t.isError(line)
  }

  function Note(t: Tests, g: Log, raw: string): Log {
    var line := TrimSpace(raw);
    if !Relevant(t, line) then g
    else
      var terminal := g.terminal || t.isTerminal(line);
      if line in g.seen then g.(terminal := terminal)
      else Log(Last(MAX_ERROR_LINES, g.lines + [line]), g.seen + {line}, terminal)
  }

  function NoteAll(t: Tests, g: Log, raws: seq<string>): Log
    decreases |raws|
  {
    if raws == [] then g else NoteAll(t, Note(t, g, raws[0]), raws[1..])
  }

  class Buffer {
    const tests: Tests
    var remains: string
    var lines: seq<string>
    var seen: set<string>
    var terminal: bool

    ghost function View(): Log
      reads this
    {
      Log(lines, seen, terminal)
    }

    constructor (tests: Tests)
      ensures View() == Empty && remains == "" && this.tests == tests
    {
      this.tests := tests;
      remains, lines, seen, terminal := "", [], {}, false;
    }

    /** One turn of the line loop. */
    method Record(raw: string)
      modifies this`lines, this`seen, this`terminal
      ensures View() == Note(tests, old(View()), raw)
    {
      hide TrimSpace;
      var line := TrimSpace(raw);
      if line == "" || !tests.isError(line) {
        return;
      }
      if tests.isTerminal(line) {
        terminal := true;
      }
      if line in seen {
        return;
      }
      seen := seen + {line};
      lines := lines + [line];
      if |lines| > MAX_ERROR_LINES {
        lines := lines[|lines| - MAX_ERROR_LINES..];
      }
    }

    method Write(p: string) returns (n: nat)
      modifies this
      ensures n == |p|
      ensures View() == NoteAll(tests, old(View()), Complete(old(remains) + p))
      ensures remains == Rest(old(remains) + p)
    {
      hide Note, Split, Complete, Rest, LastNewlineAt;
      var data := remains + p;
      var nl := LastNewlineAt(data);
      if nl < 0 {
        assert data[0..] == data;
        NoNewline(data);
        remains := data;
        return |p|;
      }
      LastNewline(data, nl);
      var complete := Split(data[..nl]);
      remains := data[nl + 1..];
      var i := 0;
      assert complete[0..] == complete;
      while i < |complete|
        invariant i <= |complete|
        invariant NoteAll(tests, View(), complete[i..]) == NoteAll(tests, old(View()), complete)
        modifies this`lines, this`seen, this`terminal
      {
        assert complete[i..][1..] == complete[i + 1..];
        Record(complete[i]);
        i := i + 1;
      }
      assert complete[i..] == [];
      return |p|;
    }
  }

  // ---------- any chunking gives the same log ----------

  /** The buffer after a list of writes. */
  function AfterWrites(t: Tests, g: Log, remains: string, writes: seq<string>): (Log, string)
    decreases |writes|
  {
    if writes == [] then (g, remains)
    else AfterWrites(t, NoteAll(t, g, Complete(remains + writes[0])), Rest(remains + writes[0]), writes[1..])
  }

  lemma {:induction false} NoteAllAppend(t: Tests, g: Log, a: seq<string>, b: seq<string>)
    ensures NoteAll(t, g, a + b) == NoteAll(t, NoteAll(t, g, a), b)
    decreases |a|
  {
    if a == [] { assert a + b == b; }
    else {
      assert (a + b)[1..] == a[1..] + b;
      NoteAllAppend(t, Note(t, g, a[0]), a[1..], b);
    }
  }

  lemma {:induction false} ChunkingIrrelevant(t: Tests, g: Log, remains: string, writes: seq<string>)
    requires '\n' !in remains
    ensures AfterWrites(t, g, remains, writes)
            == (NoteAll(t, g, Complete(remains + Concat(writes))), Rest(remains + Concat(writes)))
    decreases |writes|
  {
    hide Note;
    if writes == [] {
      assert remains + "" == remains;
      NoNewline(remains);
    } else {
      var a, b := remains + writes[0], Concat(writes[1..]);
      assert remains + Concat(writes) == a + b;
      Append(a, b);
      RestHasNone(a);
      NoteAllAppend(t, g, Complete(a), Complete(Rest(a) + b));
      ChunkingIrrelevant(t, NoteAll(t, g, Complete(a)), Rest(a), writes[1..]);
    }
  }

  // ---------- what the log holds ----------

  /** The distinct relevant lines in the order of their first appearance. */
  function Distinct(t: Tests, raws: seq<string>): (r: seq<string>)
  {
    if raws == [] then []
    else
      var before := Distinct(t, raws[..|raws| - 1]);
      var line := TrimSpace(raws[|raws| - 1]);
      if line != "" && t.isError(line) && line !in before then before + [line] else before
  }

  predicate AnyTerminal(t: Tests, raws: seq<string>) {
    exists i :: 0 <= i < |raws| && TrimSpace(raws[i]) != ""
                && t.isError(TrimSpace(raws[i])) && t.isTerminal(TrimSpace(raws[i]))
  }

  lemma {:induction false} LogHolds(t: Tests, raws: seq<string>)
    ensures NoteAll(t, Empty, raws).lines == Last(MAX_ERROR_LINES, Distinct(t, raws))
    ensures forall x :: x in NoteAll(t, Empty, raws).seen <==> x in Distinct(t, raws)
    ensures NoteAll(t, Empty, raws).terminal <==> AnyTerminal(t, raws)
    decreases |raws|
  {
    hide TrimSpace;
    if raws != [] {
      var n := |raws| - 1;
      var init := raws[..n];
      LogHolds(t, init);
      assert raws == init + [raws[n]];
      NoteAllAppend(t, Empty, init, [raws[n]]);
      assert [raws[n]][1..] == [];
      assert NoteAll(t, Empty, raws) == Note(t, NoteAll(t, Empty, init), raws[n]);
      assert forall i :: 0 <= i < n ==> init[i] == raws[i];
      LastOfLast(Distinct(t, init), TrimSpace(raws[n]));
    }
  }

  lemma LastOfLast(xs: seq<string>, x: string)
    ensures Last(MAX_ERROR_LINES, Last(MAX_ERROR_LINES, xs) + [x]) == Last(MAX_ERROR_LINES, xs + [x])
  {
  }

  /** Main result: after any sequence of writes the log is determined by the
      complete lines of the concatenated bytes: the last eight distinct error
      lines in first-seen order, and whether any was terminal. */
  lemma SnifferLog(t: Tests, writes: seq<string>)
    ensures var (g, rest) := AfterWrites(t, Empty, "", writes);
            var all := Complete(Concat(writes));
            var errors := Distinct(t, all);
            && g.lines == (if |errors| > 8 then errors[|errors| - 8..] else errors)
            && (g.terminal <==> AnyTerminal(t, all))
            && rest == Rest(Concat(writes))
  {
    ChunkingIrrelevant(t, Empty, "", writes);
    assert "" + Concat(writes) == Concat(writes);
    LogHolds(t, Complete(Concat(writes)));
  }
}
