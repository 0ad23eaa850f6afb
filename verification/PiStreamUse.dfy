/** Plain conditions under which streaming is exact, and texts on which it is not. */
module PiStreamUse {
  import opened Strings
  import opened Wrappers
  import opened PiMarkup
  import opened PiMarkupFacts
  import opened PiTokens
  import opened PiStream
  import opened PiStreamExact

  function RunLen(s: string): (n: nat)
    ensures n <= |s|
  {
    if s != [] && IsRunByte(s[0]) then 1 + RunLen(s[1..]) else 0
  }

  /** `s` begins with `<`: the run of token bytes behind it is short and does
      not lead into markup. */
  predicate ShortRun(s: string)
    requires s != []
  {
    var r := 1 + RunLen(s[1..]);
    r <= 64 && forall i :: 1 <= i <= r && i < |s| ==> MarkupLen(s[i..]) == 0
  }

  predicate Tame(w: string) {
    forall j :: 0 <= j < |w| && w[j] == '<' ==> ShortRun(w[j..])
  }

  lemma {:induction false} RunLenAtLeast(s: string, n: nat)
    requires n <= |s| && forall i :: 0 <= i < n ==> IsRunByte(s[i])
    ensures RunLen(s) >= n
  {
    if n > 0 { RunLenAtLeast(s[1..], n - 1); }
  }

  lemma TameSuffix(w: string, i: nat)
    requires Tame(w) && i <= |w|
    ensures Tame(w[i..])
  {
    hide ShortRun;
    forall j | 0 <= j < |w[i..]| && w[i..][j] == '<' ensures ShortRun(w[i..][j..]) {
      assert w[i..][j..] == w[i + j..];
    }
  }

  /** A token of a tame text, read in any context that agrees with it up to
      `k`, is short and stays clear of the markup at `k`. */
  lemma TameToken(w: string, k: nat, v: string)
    requires Tame(w) && k == FindMarkup(w) && 0 < k
    requires k == |w| ==> v == ""
    requires TokenLen(w[..k] + v) > 0
    ensures TokenLen(w[..k] + v) <= k && TokenLen(w[..k] + v) <= 64
  {
    hide FindMarkup, MarkupLen, TokenLen, IsRunByte;
    var x := w[..k] + v;
    var n := TokenLen(x);
    TokenBytes(x);
    FindMarkupFirst(w);
    assert w[0] == x[0] && w[0..] == w && ShortRun(w[0..]);
    var m := if n <= k then n else k;
    forall i | 0 <= i < m - 1 ensures IsRunByte(w[1..][i]) { assert w[1..][i] == x[i + 1]; }
    RunLenAtLeast(w[1..], m - 1);
    assert k < |w| ==> MarkupLen(w[0..][k..]) > 0;
  }

  lemma {:induction false} TameStretch(w: string, k: nat, v: string)
    requires Tame(w) && k == FindMarkup(w)
    requires k == |w| ==> v == ""
    ensures TokensFit(w[..k]) && Clean(w[..k], v)
    decreases k
  {
    hide FindMarkup, MarkupLen, TokenLen, ShortRun, IsPartial, PartialHold;
    if k > 0 {
      TokenExtend(w[..k], v);
      if TokenLen(w[..k] + v) > 0 { TameToken(w, k, v); }
      if TokenLen(w[..k]) > 0 { TameStep(w, k); }
      var n := TokenLen(w[..k]);
      var i := if n == 0 then 1 else n;
      TameSuffix(w, i);
      FindMarkupDrop(w, i);
      TameStretch(w[i..], k - i, v);
      assert w[..k][i..] == w[i..][..k - i];
    }
  }

  lemma TameStep(w: string, k: nat)
    requires Tame(w) && k == FindMarkup(w) && 0 < k && TokenLen(w[..k]) > 0
    ensures TokenLen(w[..k]) <= 64
  {
    hide FindMarkup, MarkupLen, TokenLen, IsRunByte;
    var n := TokenLen(w[..k]);
    TokenBytes(w[..k]);
    assert w[0..] == w && ShortRun(w[0..]);
    forall i | 0 <= i < n - 1 ensures IsRunByte(w[1..][i]) { assert w[1..][i] == w[..k][i + 1]; }
    RunLenAtLeast(w[1..], n - 1);
  }

  /** In a tame text every `<` starts a run of at most 64 bytes that does not
      lead into markup; on such a text any split streams to the batch result. */
  lemma {:induction false} TameIsGood(w: string)
    requires Tame(w)
    ensures Good(w)
    decreases |w|
  {
    hide *;
    var k := FindMarkup(w);
    GoodUnfold(w, k);
    if k == |w| {
      assert w[..k] == w;
      TameStretch(w, k, "");
    } else if CallLen(w[k..]).None? {
      TameStretch(w, k, w[k..]);
    } else {
      var n := CallLen(w[k..]).value;
      TameStretch(w, k, Strip(w[k + n..]));
      TameSuffix(w, k + n);
      TameIsGood(w[k + n..]);
    }
  }

  lemma TameChunkInvariance(ds: seq<string>)
    requires Tame(Concat(ds))
    ensures Feed("", ds) == StripAll(Concat(ds))
  {
    hide *;
    TameIsGood(Concat(ds));
    assert "" + Concat(ds) == Concat(ds);
    StreamIsBatch("", ds);
  }

  // ---------- the structural layer alone ----------

  /** Streaming with the control-token pass left out. */
  function RawFeed(p: string, ds: seq<string>): string
    decreases |ds|
  {
    if ds == [] then Drain(p).0 + Drain(p).1
    else
      var (e, q) := Drain(p + ds[0]);
      e + RawFeed(q, ds[1..])
  }

  predicate HasClosing(w: string) {
    exists i :: 0 <= i <= |w| && CLOSING <= w[i..]
  }

  lemma {:induction false} HeldIsSuffix(s: string)
    ensures |Drain(s).1| <= |s| && Drain(s).1 == s[|s| - |Drain(s).1|..]
    decreases |s|
  {
    hide *;
    var k := FindMarkup(s);
    if k == |s| { UnfoldPlain(s); }
    else if CallLen(s[k..]).None? { UnfoldOpen(s); }
    else {
      var n := CallLen(s[k..]).value;
      UnfoldCall(s, k, n);
      HeldIsSuffix(s[k + n..]);
    }
  }

  lemma SuffixClosing(w: string, i: nat)
    requires i <= |w| && HasClosing(w[i..])
    ensures HasClosing(w)
  {
    var j :| 0 <= j <= |w[i..]| && CLOSING <= w[i..][j..];
    assert w[i..][j..] == w[i + j..];
  }

  /** With no closing tag in the text the structural passes lose nothing, for any split. */
  lemma {:induction false} StructuralInvariance(p: string, ds: seq<string>)
    requires !HasClosing(p + Concat(ds))
    ensures RawFeed(p, ds) == Strip(p + Concat(ds))
    decreases |ds|
  {
    hide Drain, Strip, HasClosing;
    var s := if ds == [] then p else p + ds[0];
    var t := if ds == [] then "" else Concat(ds[1..]);
    assert p + Concat(ds) == s + t;
    var (e, q) := Drain(s);
    DrainStep(s, t);
    HeldIsSuffix(s);
    if y :| CutTag(s, t, y) {
      var i := |s| - |q|;
      assert (s + t)[i..] == q + t;
      TagFound(y);
      SuffixClosing(s + t, i);
    }
    HeldIsVerbatim(s);
    assert q + "" == q;
    if ds != [] {
      if HasClosing(q + t) {
        assert (s + t)[|s| - |q|..] == q + t;
        SuffixClosing(s + t, |s| - |q|);
      }
      StructuralInvariance(q, ds[1..]);
    }
  }

  lemma TagFound(y: string)
    ensures HasClosing(CLOSING + y)
  {
    assert (CLOSING + y)[0..] == CLOSING + y;
  }

  // ---------- where streaming differs ----------

  /** The text `<to`, one removable call, and `tail`: what both passes make of it. */
  lemma TornText(tail: string)
    requires FindMarkup(tail) == |tail| && !(CLOSING <= tail)
    ensures var w := "<tocall:x{}" + tail;
            Strip(w) == "<to" + tail && Drain(w) == ("<to" + Drain(tail).0, Drain(tail).1)
  {
    hide *;
    var w := "<tocall:x{}" + tail;
    TornMark(tail);
    EmptyCall(tail);
    assert w[3..] == "call:x{}" + tail && w[..3] == "<to" && w[11..] == tail;
    UnfoldCall(w, 3, 8);
    UnfoldPlain(tail);
  }

  lemma TornMark(tail: string)
    ensures FindMarkup("<tocall:x{}" + tail) == 3
  {
    hide FindMarkup, NameLen;
    var c := "call:x{}" + tail;
    var w := "<tocall:x{}" + tail;
    assert w[0] == '<' && w[1] == 't' && w[2] == 'o' && w[3..] == c;
    assert MarkupLen(c) == 5;
    assert MarkupLen(w[0..]) == 0 && MarkupLen(w[1..]) == 0 && MarkupLen(w[2..]) == 0;
    FindMarkupFrom(w, 3);
    FindMarkupHere(c);
  }

  lemma EmptyCall(tail: string)
    requires !(CLOSING <= tail)
    ensures CallLen("call:x{}" + tail) == Some(8)
  {
    hide CallLen, NameLen, ScanBraces;
    var c := "call:x{}" + tail;
    var b := c[5..];
    assert b == "x{}" + tail;
    NameLenIs(b, 1);
    assert b[1..][0] == '{' && b[1..][1] == '}';
    ScanPair(b[1..]);
    UnfoldCallLen(c, 5);
    assert c[8..] == tail;
  }

  lemma FindMarkupHere(s: string)
    requires s != [] && MarkupLen(s) > 0
    ensures FindMarkup(s) == 0
  {
  }

  lemma ScanPair(s: string)
    requires |s| >= 2 && s[0] == '{' && s[1] == '}'
    ensures ScanBraces(s, 0, false) == Some(2)
  {
    assert QUOTE[0] == '<' && s[1..][0] == '}';
    assert ScanBraces(s[1..], 1, false) == Some(1);
  }

  lemma PlainWord(s: string)
    requires forall i :: 0 <= i < |s| ==> s[i] != ':'
    ensures FindMarkup(s) == |s|
  {
    hide MarkupLen;
    FindMarkupFirst(s);
    if FindMarkup(s) < |s| { Colons(s[FindMarkup(s)..]); }
  }

  lemma {:induction false} DetokPlain(s: string)
    requires '<' !in s
    ensures Detok(s) == s
  {
    if s != [] { DetokPlain(s[1..]); }
  }

  lemma HeldNothing(s: string)
    requires s != [] && '<' !in s && !IsNameByte(s[|s| - 1])
    ensures Held(s) == 0
  {
    hide Held;
    HeldShape(s);
    var r := s[|s| - Held(s)..];
    if IsPartial(r) { PartialNames(r); }
  }

  lemma TornBatch()
    ensures StripAll("<tocall:x{}ken|>") == ""
  {
    hide FindMarkup, Strip, Drain, Held, MarkupLen;
    var tail := "ken|>";
    PlainWord(tail);
    assert !(CLOSING <= tail);
    TornText(tail);
    assert "<tocall:x{}" + tail == "<tocall:x{}ken|>";
    var m := "<to" + tail;
    assert m == "<token|>" && m[1..] == "token|>";
    NameLenIs(m[1..], 5);
    assert TokenLen(m) == 8;
  }

  lemma TornFirst()
    ensures Drain("<tocall:x{}") == ("<to", "") && Detok("<to") == "<to"
  {
    hide FindMarkup, Strip, Drain, Held, MarkupLen;
    var first := "<tocall:x{}";
    assert first + "" == first && "<to" + "" == "<to";
    PlainWord("");
    DrainNil();
    TornText("");
    assert "<to"[1..] == "to";
    NameLenIs("to", 2);
    DetokPlain("to");
  }

  lemma TornSecond()
    ensures Drain("ken|>") == ("ken|>", "") && Detok("ken|>") == "ken|>"
  {
    hide FindMarkup, Strip, Drain, Held, MarkupLen;
    var tail := "ken|>";
    PlainWord(tail);
    UnfoldPlain(tail);
    HeldNothing(tail);
    assert tail[..5] == tail && tail[5..] == "";
    DetokPlain(tail);
  }

  /** A control token that straddles a removed call: the batch function removes
      it, streaming does not. */
  lemma StraddlingToken()
    ensures StripAll("<tocall:x{}ken|>") == ""
    ensures Feed("", ["<tocall:x{}", "ken|>"]) == "<token|>"
  {
    hide Drain, Detok, StripAll;
    TornBatch();
    TornFirst();
    TornSecond();
    DrainNil();
    DetokPlain("");
    var first, tail := "<tocall:x{}", "ken|>";
    assert "" + first == first && "" + tail == tail;
    assert [first, tail][1..] == [tail] && [tail][1..] == [];
    assert FlushText("") == "" + "";
    assert Feed("", [tail]) == tail + "";
    assert "<to" + (tail + "") == "<token|>";
  }
}
