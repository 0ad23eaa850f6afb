/** The loops of the sanitiser, against the functions the theorems are about. */
module PiSanitizer {
  import opened Strings
  import opened Wrappers
  import opened PiMarkup
  import opened PiMarkupFacts
  import opened PiTokens
  import opened PiStream

  /** strings.Index: first occurrence of `sub` in `s`. */
  function Index(s: string, sub: string): (r: Option<nat>)
    ensures r.Some? ==> r.value <= |s| && sub <= s[r.value..]
  {
    if sub <= s then assert s[0..] == s; Some(0)
    else if s == [] then None
    else Shift(1, Index(s[1..], sub))
  }

  method NextMarkupPrefix(s: string, from: nat) returns (best: int, bestLen: nat)
    requires from <= |s|
    ensures var k := FindMarkup(s[from..]);
            if from + k == |s| then best == -1 else best == from + k && bestLen == MarkupLen(s[best..])
  {
    best, bestLen := -1, 0;
    var prefixes := [CALL, RESPONSE];
    for j := 0 to 2
      invariant best == -1 || from <= best < |s|
      invariant j == 0 ==> best == -1
      invariant j == 1 ==> match Index(s[from..], CALL)
                           case None => best == -1
                           case Some(i) => best == from + i && bestLen == |CALL|
      invariant j == 2 ==> var k := FindMarkup(s[from..]);
                           if from + k == |s| then best == -1 else best == from + k && bestLen == MarkupLen(s[best..])
    {
      var i := Index(s[from..], prefixes[j]);
      if i.Some? {
        var abs := from + i.value;
        if best == -1 || abs < best {
          best, bestLen := abs, |prefixes[j]|;
        }
      }
      if j == 1 { FirstOfBoth(s[from..]); assert forall x :: from <= x <= |s| ==> s[from..][x - from..] == s[x..]; }
    }
  }

  /** The nearer of the two prefixes is the first markup. */
  lemma {:induction false} FirstOfBoth(s: string)
    ensures var a, b, k := Index(s, CALL), Index(s, RESPONSE), FindMarkup(s);
            && (k == |s| <==> a.None? && b.None?)
            && (k < |s| && a.Some? && (b.None? || a.value <= b.value) ==> k == a.value && MarkupLen(s[k..]) == |CALL|)
            && (k < |s| && b.Some? && (a.None? || b.value < a.value) ==>
                  k == b.value && MarkupLen(s[k..]) == |RESPONSE|)
            && (a.Some? ==> a.value < |s|) && (b.Some? ==> b.value < |s|)
  {
    hide IsPartial;
    assert s[0..] == s;
    assert CALL[0] != RESPONSE[0];
    if s != [] && MarkupLen(s) == 0 {
      FirstOfBoth(s[1..]);
      assert forall i :: 0 < i <= |s| ==> s[1..][i - 1..] == s[i..];
    }
  }

  method ScanMarkupEnd(s: string, start: nat) returns (end: nat, ok: bool)
    requires start <= |s|
    ensures ok == BodyLen(s[start..]).Some?
    ensures ok ==> end == WithClosing(s, start + BodyLen(s[start..]).value) <= |s|
    ensures ok ==> start < end
  {
    hide *;
    var i := start;
    ghost var t := s[start..];
    while i < |s| && IsNameByte(s[i])
      invariant start <= i <= |s|
      invariant NameLen(t) == i - start + NameLen(s[i..])
    {
      UnfoldName(s[i..]);
      assert s[i..][1..] == s[i + 1..];
      i := i + 1;
    }
    UnfoldName(s[i..]);
    UnfoldBody(t, i - start);
    if i == start || i >= |s| || s[i] != '{' {
      return 0, false;
    }
    ghost var open := i;
    assert t[open - start..] == s[open..];
    var depth := 0;
    var inQuote := false;
    while i < |s|
      invariant open <= i <= |s|
      invariant ScanBraces(s[open..], 0, false) == Shift(i - open, ScanBraces(s[i..], depth, inQuote))
    {
      UnfoldScan(s, open, i, depth, inQuote);
      if QUOTE <= s[i..] {
        inQuote := !inQuote;
        i := i + |QUOTE|;
        continue;
      }
      if !inQuote {
        if s[i] == '{' {
          depth := depth + 1;
        } else if s[i] == '}' {
          depth := depth - 1;
          if depth == 0 {
            i := i + 1;
            UnfoldClosing(s, i);
            if CLOSING <= s[i..] {
              i := i + |CLOSING|;
            }
            return i, true;
          }
        }
      }
      i := i + 1;
    }
    UnfoldScan(s, open, i, depth, inQuote);
    return 0, false;
  }

  lemma UnfoldName(s: string)
    ensures NameLen(s) == if s != [] && IsNameByte(s[0]) then 1 + NameLen(s[1..]) else 0
  {
  }

  lemma UnfoldBody(s: string, n: nat)
    requires n == NameLen(s)
    ensures BodyLen(s) == if n == 0 || n >= |s| || s[n] != '{' then None else Shift(n, ScanBraces(s[n..], 0, false))
    ensures n > 0 && n < |s| && s[n] == '{' ==>
              Shift(0, ScanBraces(s[n..], 0, false)) == ScanBraces(s[n..], 0, false)
    ensures BodyLen(s).Some? ==>
              ScanBraces(s[n..], 0, false).Some? && BodyLen(s).value == n + ScanBraces(s[n..], 0, false).value
    ensures BodyLen(s).None? ==> n == 0 || n >= |s| || s[n] != '{' || ScanBraces(s[n..], 0, false).None?
  {
    hide ScanBraces, NameLen;
  }

  lemma UnfoldClosing(s: string, n: nat)
    requires n <= |s|
    ensures WithClosing(s, n) == if CLOSING <= s[n..] then n + |CLOSING| else n
    ensures |CLOSING| == 12
  {
  }

  /** One turn of the brace loop, `i - open` bytes into the scan. */
  lemma UnfoldScan(s: string, open: nat, i: nat, depth: int, inQuote: bool)
    requires open <= i <= |s|
    ensures |QUOTE| == 5
    ensures var r := Shift(i - open, ScanBraces(s[i..], depth, inQuote));
            if i == |s| then r == None
            else if QUOTE <= s[i..] then
              i + 5 <= |s| && r == Shift(i + 5 - open, ScanBraces(s[i + 5..], depth, !inQuote))
            else if !inQuote && s[i] == '}' && depth == 1 then r == Some(i + 1 - open)
            else
              var d := if inQuote then depth else if s[i] == '{' then depth + 1
                       else if s[i] == '}' then depth - 1 else depth;
              r == Shift(i + 1 - open, ScanBraces(s[i + 1..], d, inQuote))
  {
    if i < |s| {
      assert s[i..][1..] == s[i + 1..];
      if QUOTE <= s[i..] { assert s[i..][5..] == s[i + 5..]; }
    }
  }

  method StripStructuredMarkup(s: string) returns (out: string)
    ensures out == Strip(s)
  {
    hide *;
    out := "";
    var i := 0;
    assert s[0..] == s && "" + Strip(s) == Strip(s);
    while i < |s|
      invariant i <= |s| && out + Strip(s[i..]) == Strip(s)
    {
      ghost var r := s[i..];
      ghost var k := FindMarkup(r);
      FindMarkupFirst(r);
      var start, prefixLen := NextMarkupPrefix(s, i);
      if start == -1 {
        UnfoldPlain(r);
        out := out + s[i..];
        return;
      }
      ghost var before := out;
      out := out + s[i..start];
      assert r[k..] == s[start..] && r[..k] == s[i..start];
      var end, ok := ScanMarkupEnd(s, start + prefixLen);
      MarkupEndIsCall(s, start, prefixLen);
      if !ok {
        UnfoldOpen(r);
        out := out + s[start..];
        assert out == before + r;
        return;
      }
      UnfoldCall(r, k, end - start);
      assert r[k + (end - start)..] == s[end..];
      assert before + (r[..k] + Strip(s[end..])) == (before + r[..k]) + Strip(s[end..]);
      i := end;
    }
    assert s[i..] == "";
    StripNil();
    assert out + "" == out;
  }

  lemma StripNil()
    ensures Strip("") == ""
  {
  }

  /** The scan behind a prefix decides how long the call at the prefix is. */
  lemma MarkupEndIsCall(s: string, start: nat, l: nat)
    requires start <= |s| && l == MarkupLen(s[start..])
    ensures start + l <= |s|
    ensures CallLen(s[start..]).Some? <==> BodyLen(s[start + l..]).Some?
    ensures BodyLen(s[start + l..]).Some? ==>
              CallLen(s[start..]) == Some(WithClosing(s, start + l + BodyLen(s[start + l..]).value) - start)
  {
    hide MarkupLen, BodyLen, CallLen;
    var c := s[start..];
    UnfoldCallLen(c, l);
    assert c[l..] == s[start + l..];
    if BodyLen(c[l..]).Some? {
      var n := l + BodyLen(c[l..]).value;
      assert c[n..] == s[start + n..];
    }
  }

  method LooksLikeControlTokenPrefix(s: string) returns (b: bool)
    ensures b == IsTokenPrefix(s)
  {
    if |s| == 0 || s[0] != '<' || |s| > 64 {
      return false;
    }
    var i := 1;
    while i < |s|
      invariant 1 <= i <= |s| && forall j :: 1 <= j < i ==> IsRunByte(s[j])
    {
      if !IsRunByte(s[i]) {
        return false;
      }
      i := i + 1;
    }
    return true;
  }

  /** strings.LastIndexByte for '<'. */
  function LastMark(s: string): (i: int)
    ensures -1 <= i < |s|
    ensures i >= 0 ==> s[i] == '<'
    ensures forall j :: 0 <= j < |s| && j > i ==> s[j] != '<'
  {
    if s == [] then -1
    else if s[|s| - 1] == '<' then |s| - 1
    else LastMark(s[..|s| - 1])
  }

  predicate HasSuffix(s: string, x: string) {
    |x| <= |s| && s[|s| - |x|..] == x
  }

  method SafeEmitLen(s: string) returns (n: nat)
    ensures n == |s| - Held(s)
  {
    hide Held, IsPartial, IsTokenPrefix, PartialHold;
    var hold := 0;
    var prefixes := [CALL, RESPONSE];
    var j := 0;
    while j < 2
      invariant 0 <= j <= 2 && hold <= |s|
      invariant hold > 0 ==> IsPartial(s[|s| - hold..])
      invariant j >= 1 ==> forall m :: 1 <= m < |CALL| && m <= |s| && HasSuffix(s, CALL[..m]) ==> m <= hold
      invariant j >= 2 ==> forall m :: 1 <= m < |RESPONSE| && m <= |s| && HasSuffix(s, RESPONSE[..m]) ==> m <= hold
    {
      var prefix := prefixes[j];
      var m := 1;
      ghost var hold0 := hold;
      while m < |prefix| && m <= |s|
        invariant 1 <= m && hold0 <= hold <= |s|
        invariant hold > 0 ==> IsPartial(s[|s| - hold..])
        invariant forall x :: 1 <= x < m && x < |prefix| && x <= |s| && HasSuffix(s, prefix[..x]) ==> x <= hold
      {
        if HasSuffix(s, prefix[..m]) && m > hold {
          hold := m;
          PrefixIsPartial(s, prefix, m);
        }
        m := m + 1;
      }
      j := j + 1;
    }
    PartialHoldIs(s, hold);
    var i := LastMark(s);
    if i >= 0 {
      var looks := LooksLikeControlTokenPrefix(s[i..]);
      if looks && |s| - i > hold {
        hold := |s| - i;
      }
    }
    HeldIsLonger(s);
    return |s| - hold;
  }

  lemma PrefixIsPartial(s: string, p: string, m: nat)
    requires (p == CALL || p == RESPONSE) && 1 <= m < |p| && m <= |s| && HasSuffix(s, p[..m])
    ensures IsPartial(s[|s| - m..])
  {
  }

  lemma {:induction false} PartialHoldIs(s: string, hold: nat)
    requires hold <= |s| && (hold > 0 ==> IsPartial(s[|s| - hold..]))
    requires forall m :: 1 <= m < |CALL| && m <= |s| && HasSuffix(s, CALL[..m]) ==> m <= hold
    requires forall m :: 1 <= m < |RESPONSE| && m <= |s| && HasSuffix(s, RESPONSE[..m]) ==> m <= hold
    ensures PartialHold(s) == hold
  {
    hide IsPartial, HasSuffix;
    PartialHoldShape(s);
    var h := PartialHold(s);
    if hold > 0 { PartialHoldLongest(s, |s| - hold); }
    if h > 0 { PartialIsPrefix(s, h); }
  }

  lemma PartialIsPrefix(s: string, h: nat)
    requires 0 < h <= |s| && IsPartial(s[|s| - h..])
    ensures (h < |CALL| && HasSuffix(s, CALL[..h])) || (h < |RESPONSE| && HasSuffix(s, RESPONSE[..h]))
  {
    var p := s[|s| - h..];
    assert p < CALL ==> p == CALL[..h];
    assert p < RESPONSE ==> p == RESPONSE[..h];
  }

  lemma {:induction false} PartialHoldShape(s: string)
    ensures PartialHold(s) > 0 ==> IsPartial(s[|s| - PartialHold(s)..])
  {
    hide IsPartial;
    assert s[0..] == s;
    if s != [] && !IsPartial(s) {
      PartialHoldShape(s[1..]);
      assert s[1..][|s| - 1 - PartialHold(s)..] == s[|s| - PartialHold(s)..];
    }
  }

  lemma {:induction false} PartialHoldLongest(s: string, i: nat)
    requires i < |s| && IsPartial(s[i..])
    ensures PartialHold(s) >= |s| - i
  {
    hide IsPartial;
    if i == 0 { assert s[0..] == s; }
    else { assert s[1..][i - 1..] == s[i..]; PartialHoldLongest(s[1..], i - 1); }
  }

  /** The hold-back is the longer of the two candidates the code computes. */
  lemma {:induction false} HeldIsLonger(s: string)
    ensures var i := LastMark(s);
            var t := if i >= 0 && IsTokenPrefix(s[i..]) then |s| - i else 0;
            Held(s) == if t > PartialHold(s) then t else PartialHold(s)
  {
    hide IsPartial, LastMark;
    var i := LastMark(s);
    if s == [] {
    } else if IsTokenPrefix(s) {
      assert i == 0 && s[0..] == s;
    } else if IsPartial(s) {
    } else {
      HeldIsLonger(s[1..]);
      var d := LastMark(s[1..]);
      assert d >= 0 ==> s[d + 1] == '<';
      assert forall x :: 0 <= x < |s| - 1 ==> s[1..][x] == s[x + 1];
      if i > 0 { assert s[1..][i - 1] == '<'; assert d == i - 1; assert s[1..][d..] == s[i..]; }
      if i == 0 { assert s[0..] == s; }
    }
  }

  method DrainSanitizedText(s: string) returns (emit: string, pending: string)
    ensures emit == Detok(Drain(s).0) && pending == Drain(s).1
  {
    hide *;
    var out := "";
    var i := 0;
    assert s[0..] == s && "" + Drain(s).0 == Drain(s).0;
    while i < |s|
      invariant i <= |s|
      invariant Drain(s) == (out + Drain(s[i..]).0, Drain(s[i..]).1)
    {
      ghost var r := s[i..];
      ghost var k := FindMarkup(r);
      FindMarkupFirst(r);
      var start, prefixLen := NextMarkupPrefix(s, i);
      if start == -1 {
        UnfoldPlain(r);
        var safeLen := SafeEmitLen(s[i..]);
        out := out + s[i..i + safeLen];
        assert r[..safeLen] == s[i..i + safeLen] && r[safeLen..] == s[i + safeLen..];
        return Detok(out), s[i + safeLen..];
      }
      ghost var before := out;
      out := out + s[i..start];
      assert r[k..] == s[start..] && r[..k] == s[i..start];
      var end, ok := ScanMarkupEnd(s, start + prefixLen);
      MarkupEndIsCall(s, start, prefixLen);
      if !ok {
        UnfoldOpen(r);
        return Detok(out), s[start..];
      }
      UnfoldCall(r, k, end - start);
      assert r[k + (end - start)..] == s[end..];
      ghost var e := Drain(s[end..]).0;
      assert before + (r[..k] + e) == (before + r[..k]) + e;
      i := end;
    }
    assert s[i..] == "";
    PiStreamNil();
    assert out + "" == out;
    return Detok(out), "";
  }

  lemma PiStreamNil()
    ensures Drain("") == ("", "")
  {
  }

  /** stripPiToolCallMarkup */
  method StripToolCallMarkup(s: string) returns (out: string)
    ensures out == StripAll(s)
  {
    out := StripStructuredMarkup(s);
    out := Detok(out);
  }

  /** The held text of one assistant message, a strings.Builder in the source. */
  class TextBuffer {
    var held: string

    constructor ()
      ensures held == ""
    {
      held := "";
    }

    method Reset()
      modifies this
      ensures held == ""
    {
      held := "";
    }

    /** drainPiTextBuffer */
    method DrainDelta(delta: string) returns (emit: string)
      modifies this
      ensures emit == Detok(Drain(old(held) + delta).0)
      ensures held == Drain(old(held) + delta).1
      ensures forall ds :: Feed(old(held), [delta] + ds) == emit + Feed(held, ds)
    {
      hide Drain, Detok;
      var pending;
      emit, pending := DrainSanitizedText(held + delta);
      held := pending;
      assert forall ds :: ([delta] + ds)[1..] == ds;
    }

    /** flushPiTextBuffer */
    method Flush() returns (emit: string)
      modifies this
      ensures emit == Feed(old(held), []) && held == ""
    {
      hide Drain, Detok;
      var s := held;
      held := "";
      var e, pending := DrainSanitizedText(s);
      emit := e + Detok(pending);
    }
  }

  /** A whole message through the buffer: the batch result, whenever the text is good. */
  method SanitizeDeltas(ds: seq<string>) returns (text: string)
    ensures text == Feed("", ds)
    ensures Good(Concat(ds)) ==> text == StripAll(Concat(ds))
  {
    hide Drain, Detok, Strip, Good;
    var buf := new TextBuffer();
    text := "";
    var i := 0;
    assert ds[0..] == ds;
    while i < |ds|
      invariant i <= |ds| && text + Feed(buf.held, ds[i..]) == Feed("", ds)
    {
      ghost var before := text;
      ghost var rest := ds[i + 1..];
      assert [ds[i]] + rest == ds[i..];
      var e := buf.DrainDelta(ds[i]);
      text := text + e;
      assert before + (e + Feed(buf.held, rest)) == text + Feed(buf.held, rest);
      i := i + 1;
    }
    assert ds[i..] == [];
    var e := buf.Flush();
    text := text + e;
    assert "" + Concat(ds) == Concat(ds);
    if Good(Concat(ds)) { StreamIsBatch("", ds); }
  }
}
