/** How the structural scan behaves when text is appended or cut off. */
module PiMarkupFacts {
  import opened Wrappers
  import opened PiMarkup

  // One unfolding of the two passes, by the three ways the first markup prefix can turn out.

  lemma UnfoldPlain(s: string)
    requires FindMarkup(s) == |s|
    ensures Strip(s) == s
    ensures Drain(s) == (s[..|s| - Held(s)], s[|s| - Held(s)..])
  {
    hide FindMarkup, CallLen, Held;
  }

  lemma UnfoldOpen(s: string)
    requires FindMarkup(s) < |s| && CallLen(s[FindMarkup(s)..]).None?
    ensures Strip(s) == s
    ensures Drain(s) == (s[..FindMarkup(s)], s[FindMarkup(s)..])
  {
    hide FindMarkup, CallLen;
  }

  lemma UnfoldCall(s: string, k: nat, n: nat)
    requires k == FindMarkup(s) < |s| && CallLen(s[k..]) == Some(n)
    ensures Strip(s) == s[..k] + Strip(s[k + n..])
    ensures Drain(s) == (s[..k] + Drain(s[k + n..]).0, Drain(s[k + n..]).1)
  {
    hide *;
    StripAtCall(s, k, n);
    DrainAtCall(s, k, n);
  }

  lemma StripAtCall(s: string, k: nat, n: nat)
    requires k == FindMarkup(s) < |s| && CallLen(s[k..]) == Some(n)
    ensures Strip(s) == s[..k] + Strip(s[k + n..])
  {
    hide FindMarkup, CallLen, Drain;
  }

  lemma DrainAtCall(s: string, k: nat, n: nat)
    requires k == FindMarkup(s) < |s| && CallLen(s[k..]) == Some(n)
    ensures Drain(s) == (s[..k] + Drain(s[k + n..]).0, Drain(s[k + n..]).1)
  {
    hide FindMarkup, CallLen, Strip;
  }

  lemma MarkupLenExtend(s: string, t: string)
    requires MarkupLen(s) > 0
    ensures MarkupLen(s + t) == MarkupLen(s)
  {
    if CALL <= s { assert (s + t)[..5] == CALL; } else {
      assert (s + t)[..9] == RESPONSE;
      assert (s + t)[0] == 'r';
    }
  }

  lemma {:induction false} FindMarkupExtend(s: string, t: string)
    requires FindMarkup(s) < |s|
    ensures FindMarkup(s + t) == FindMarkup(s)
  {
    hide MarkupLen, IsPartial;
    if MarkupLen(s) > 0 {
      MarkupLenExtend(s, t);
    } else {
      NoMarkupExtend(s, t);
      if IsPartial(s) {
        FindMarkupFirst(s);
        Colons(s);
        Colons(s[FindMarkup(s)..]);
        assert false;
      }
      assert (s + t)[1..] == s[1..] + t;
      FindMarkupExtend(s[1..], t);
    }
  }

  lemma Colons(s: string)
    ensures IsPartial(s) ==> ':' !in s
    ensures MarkupLen(s) > 0 ==> ':' in s
  {
    if CALL <= s { assert s[4] == ':'; }
    if RESPONSE <= s { assert s[8] == ':'; }
    if s < CALL { assert forall i :: 0 <= i < |s| ==> s[i] == CALL[i]; }
    if s < RESPONSE { assert forall i :: 0 <= i < |s| ==> s[i] == RESPONSE[i]; }
  }

  /** Markup can only begin before the end of `s` if a suffix of `s` is a partial prefix. */
  lemma NoMarkupExtend(s: string, t: string)
    requires MarkupLen(s) == 0 && s != []
    ensures MarkupLen(s + t) > 0 ==> IsPartial(s)
  {
    if CALL <= s + t {
      assert s <= CALL || CALL <= s;
    } else if RESPONSE <= s + t {
      assert s <= RESPONSE || RESPONSE <= s;
    }
  }

  lemma {:induction false} HeldSuffix(s: string, i: nat)
    requires i <= |s| - Held(s)
    ensures Held(s[i..]) == Held(s)
  {
    if i == 0 {
      assert s[0..] == s;
    } else {
      assert s[0..] == s;
      HeldSuffix(s[1..], i - 1);
      assert s[1..][i - 1..] == s[i..];
    }
  }

  /** Text released while no markup is in sight stays ordinary text. */
  lemma {:induction false} FindMarkupPast(s: string, t: string)
    requires FindMarkup(s) == |s|
    ensures FindMarkup(s + t) >= |s| - Held(s)
  {
    if s != [] && Held(s) < |s| {
      assert s[0..] == s;
      NoMarkupExtend(s, t);
      assert (s + t)[1..] == s[1..] + t;
      FindMarkupPast(s[1..], t);
    }
  }

  lemma {:induction false} FindMarkupDrop(s: string, i: nat)
    requires i <= FindMarkup(s)
    ensures FindMarkup(s[i..]) == FindMarkup(s) - i
  {
    if i == 0 {
      assert s[0..] == s;
    } else {
      FindMarkupDrop(s[1..], i - 1);
      assert s[1..][i - 1..] == s[i..];
    }
  }

  lemma {:induction false} FindMarkupTake(s: string, i: nat)
    requires i <= FindMarkup(s)
    ensures FindMarkup(s[..i]) == i
  {
    if i > 0 {
      assert s == s[..i] + s[i..];
      if MarkupLen(s[..i]) > 0 {
        MarkupLenExtend(s[..i], s[i..]);
        assert false;
      }
      FindMarkupTake(s[1..], i - 1);
      assert s[..i][1..] == s[1..][..i - 1];
    }
  }

  lemma {:induction false} StripSplit(s: string, i: nat)
    requires i <= FindMarkup(s)
    ensures Strip(s) == s[..i] + Strip(s[i..])
  {
    hide *;
    var k := FindMarkup(s);
    FindMarkupDrop(s, i);
    assert s[..i] + s[i..] == s;
    if k == |s| {
      UnfoldPlain(s);
      UnfoldPlain(s[i..]);
    } else {
      assert s[i..][k - i..] == s[k..];
      if CallLen(s[k..]).None? {
        UnfoldOpen(s);
        UnfoldOpen(s[i..]);
      } else {
        var n := CallLen(s[k..]).value;
        UnfoldCall(s, k, n);
        UnfoldCall(s[i..], k - i, n);
        assert s[i..][k - i + n..] == s[k + n..];
        assert s[..i] + s[i..][..k - i] == s[..k];
        assert s[..i] + (s[i..][..k - i] + Strip(s[k + n..])) == (s[..i] + s[i..][..k - i]) + Strip(s[k + n..]);
      }
    }
  }

  lemma NoBrace(s: string, depth: int, inQuote: bool)
    requires '}' !in s
    ensures ScanBraces(s, depth, inQuote).None?
    decreases |s|
  {
    if s != [] && !(QUOTE <= s) {
      var d := if inQuote then depth else if s[0] == '{' then depth + 1 else depth;
      NoBrace(s[1..], d, inQuote);
    } else if s != [] {
      NoBrace(s[5..], depth, !inQuote);
    }
  }

  /** A finished brace scan is not changed by later text. */
  lemma {:induction false} ScanExtend(s: string, t: string, depth: int, inQuote: bool)
    requires ScanBraces(s, depth, inQuote).Some?
    ensures ScanBraces(s + t, depth, inQuote) == ScanBraces(s, depth, inQuote)
    decreases |s|
  {
    if QUOTE <= s {
      assert (s + t)[..5] == QUOTE;
      assert (s + t)[5..] == s[5..] + t;
      ScanExtend(s[5..], t, depth, !inQuote);
    } else {
      if QUOTE <= s + t {
        assert s <= QUOTE;
        NoBrace(s, depth, inQuote);
        assert false;
      }
      if !(!inQuote && s[0] == '}' && depth == 1) {
        assert (s + t)[1..] == s[1..] + t;
        var d := if inQuote then depth else if s[0] == '{' then depth + 1 else if s[0] == '}' then depth - 1 else depth;
        ScanExtend(s[1..], t, d, inQuote);
      }
    }
  }

  /** ... nor by dropping text behind its end. */
  lemma {:induction false} ScanCut(s: string, m: nat, depth: int, inQuote: bool)
    requires ScanBraces(s, depth, inQuote).Some?
    requires ScanBraces(s, depth, inQuote).value <= m <= |s|
    ensures ScanBraces(s[..m], depth, inQuote) == ScanBraces(s, depth, inQuote)
    decreases |s|
  {
    if QUOTE <= s {
      assert s[..m][..5] == QUOTE;
      assert s[..m][5..] == s[5..][..m - 5];
      ScanCut(s[5..], m - 5, depth, !inQuote);
    } else {
      assert s[..m] <= s;
      if QUOTE <= s[..m] { assert false; }
      if !(!inQuote && s[0] == '}' && depth == 1) {
        assert s[..m][1..] == s[1..][..m - 1];
        var d := if inQuote then depth else if s[0] == '{' then depth + 1 else if s[0] == '}' then depth - 1 else depth;
        ScanCut(s[1..], m - 1, d, inQuote);
      }
    }
  }

  lemma {:induction false} NameExtend(s: string, t: string)
    requires NameLen(s) < |s|
    ensures NameLen(s + t) == NameLen(s)
  {
    if IsNameByte(s[0]) {
      assert (s + t)[1..] == s[1..] + t;
      NameExtend(s[1..], t);
    }
  }

  lemma BodyExtend(s: string, t: string)
    requires BodyLen(s).Some?
    ensures BodyLen(s + t) == BodyLen(s)
  {
    var n := NameLen(s);
    NameExtend(s, t);
    assert (s + t)[n..] == s[n..] + t;
    ScanExtend(s[n..], t, 0, false);
  }

  lemma BodyCut(s: string, m: nat)
    requires BodyLen(s).Some? && BodyLen(s).value <= m <= |s|
    ensures BodyLen(s[..m]) == BodyLen(s)
  {
    var n := NameLen(s);
    assert s[..m][..n + 1] == s[..n + 1];
    NameTake(s, m);
    assert s[..m][n..] == s[n..][..m - n];
    ScanCut(s[n..], m - n, 0, false);
  }

  lemma {:induction false} NameTake(s: string, m: nat)
    requires NameLen(s) < m <= |s|
    ensures NameLen(s[..m]) == NameLen(s)
  {
    if IsNameByte(s[0]) {
      assert s[..m][1..] == s[1..][..m - 1];
      NameTake(s[1..], m - 1);
    }
  }

  lemma UnfoldCallLen(s: string, l: nat)
    requires MarkupLen(s) == l
    ensures CallLen(s) == if BodyLen(s[l..]).None? then None else Some(WithClosing(s, l + BodyLen(s[l..]).value))
  {
    hide MarkupLen, BodyLen;
  }

  /** A closed call stays closed with the same length when text is appended,
      unless the closing tag was cut by the end of `s`. */
  lemma CallExtend(s: string, t: string)
    requires MarkupLen(s) > 0 && CallLen(s).Some?
    ensures var n := CallLen(s).value;
            || CallLen(s + t) == Some(n)
            || (s[n..] < CLOSING && CLOSING <= s[n..] + t && CallLen(s + t) == Some(n + |CLOSING|))
  {
    hide MarkupLen, BodyLen, CallLen;
    MarkupLenExtend(s, t);
    var l := MarkupLen(s);
    UnfoldCallLen(s, l);
    UnfoldCallLen(s + t, l);
    assert (s + t)[l..] == s[l..] + t;
    BodyExtend(s[l..], t);
    var b := l + BodyLen(s[l..]).value;
    assert (s + t)[b..] == s[b..] + t;
    ClosingExtend(s[b..], t);
  }

  lemma ClosingExtend(s: string, t: string)
    ensures CLOSING <= s ==> CLOSING <= s + t
    ensures !(CLOSING <= s) && CLOSING <= s + t ==> s < CLOSING
  {
    if CLOSING <= s { assert (s + t)[..12] == CLOSING; }
    if CLOSING <= s + t { assert CLOSING[..12] == (s + t)[..12]; }
  }

  lemma CallCut(s: string, m: nat)
    requires MarkupLen(s) > 0 && CallLen(s).Some? && CallLen(s).value <= m <= |s|
    ensures MarkupLen(s[..m]) == MarkupLen(s)
    ensures CallLen(s[..m]) == CallLen(s)
  {
    hide MarkupLen, BodyLen, CallLen;
    var l := MarkupLen(s);
    UnfoldCallLen(s, l);
    MarkupCut(s, m);
    UnfoldCallLen(s[..m], l);
    assert s[..m][l..] == s[l..][..m - l];
    BodyCut(s[l..], m - l);
    var n := l + BodyLen(s[l..]).value;
    assert s[..m][n..] == s[n..][..m - n];
    assert s[n..][..m - n] <= s[n..];
  }

  lemma MarkupCut(s: string, m: nat)
    requires 0 < MarkupLen(s) <= m <= |s|
    ensures MarkupLen(s[..m]) == MarkupLen(s)
  {
    if CALL <= s { assert s[..m][..5] == CALL; } else {
      assert s[..m][..9] == RESPONSE;
      assert s[..m][0] == 'r';
    }
  }

  lemma NoMarkupInClosing(s: string, i: nat)
    requires s <= CLOSING || CLOSING <= s
    requires i < |s| && i < |CLOSING|
    ensures MarkupLen(s[i..]) == 0
  {
    var x := s[i..];
    assert x[0] == s[i] == CLOSING[i];
    if |x| > 4 && i == 6 { assert x[4] == s[10] == CLOSING[10] == '|'; }
    assert CALL[0] == 'c' && CALL[4] == ':' && RESPONSE[0] == 'r';
  }

  lemma PartialClosing(s: string)
    requires s < CLOSING
    ensures FindMarkup(s) == |s| && Held(s) == |s| && Drain(s) == ("", s)
  {
    hide *;
    forall i | 0 <= i < |s| ensures MarkupLen(s[i..]) == 0 { NoMarkupInPartial(s, i); }
    FindMarkupFrom(s, |s|);
    UnfoldPlain(s);
    PartialClosingHeld(s);
    assert s[..0] == "" && s[0..] == s;
  }

  lemma NoMarkupInPartial(s: string, i: nat)
    requires s < CLOSING && i < |s|
    ensures MarkupLen(s[i..]) == 0
  {
    hide MarkupLen;
    NoMarkupInClosing(s, i);
  }

  lemma PartialClosingHeld(s: string)
    requires s < CLOSING
    ensures Held(s) == |s|
  {
    hide IsPartial;
    if s != [] {
      assert s[0] == CLOSING[0];
      forall i | 1 <= i < |s| ensures IsRunByte(s[i]) { assert s[i] == CLOSING[i]; }
      assert IsTokenPrefix(s);
    }
  }

  lemma {:induction false} ClosingText(y: string)
    ensures FindMarkup(CLOSING + y) == |CLOSING| + FindMarkup(y)
    ensures Strip(CLOSING + y) == CLOSING + Strip(y)
  {
    hide MarkupLen, Strip;
    var w := CLOSING + y;
    forall i | 0 <= i < 12 ensures MarkupLen(w[i..]) == 0 { NoMarkupInClosing(w, i); }
    FindMarkupFrom(w, 12);
    assert w[12..] == y;
    StripSplit(w, 12);
    assert w[..12] == CLOSING;
  }

  lemma {:induction false} FindMarkupFrom(s: string, i: nat)
    requires i <= |s| && forall j :: 0 <= j < i ==> MarkupLen(s[j..]) == 0
    ensures FindMarkup(s) == i + FindMarkup(s[i..])
  {
    assert s[0..] == s;
    if i > 0 {
      forall j | 0 <= j < i - 1 ensures MarkupLen(s[1..][j..]) == 0 { assert s[1..][j..] == s[j + 1..]; }
      FindMarkupFrom(s[1..], i - 1);
      assert s[1..][i - 1..] == s[i..];
    }
  }

  /** The key step: whatever follows, the text released now is a prefix of what
      the batch function keeps, and the rest is what it keeps of the text held
      back.  The exception is a closing tag cut by the end of the input: it
      comes back at the head of the held text. */
  lemma {:induction false} DrainStep(s: string, t: string)
    ensures var (e, p) := Drain(s);
            || Strip(s + t) == e + Strip(p + t)
            || exists y :: CutTag(s, t, y)
    decreases |s|
  {
    hide *;
    var k := FindMarkup(s);
    if k == |s| {
      DrainStepPlain(s, t);
    } else if CallLen(s[k..]).None? {
      DrainStepOpen(s, t);
    } else {
      DrainStepCall(s, t);
      var n := CallLen(s[k..]).value;
      UnfoldCall(s, k, n);
      var (e, p) := Drain(s[k + n..]);
      if Strip(s + t) == s[..k] + Strip(s[k + n..] + t) {
        DrainStep(s[k + n..], t);
        if Strip(s[k + n..] + t) == e + Strip(p + t) {
          assert s[..k] + (e + Strip(p + t)) == (s[..k] + e) + Strip(p + t);
        } else {
          var y :| CutTag(s[k + n..], t, y);
          CutTagOuter(s, t, y, k, n);
        }
      }
    }
  }

  lemma CutTagOuter(s: string, t: string, y: string, k: nat, n: nat)
    requires k == FindMarkup(s) < |s| && CallLen(s[k..]) == Some(n)
    requires CutTag(s[k + n..], t, y)
    requires Strip(s + t) == s[..k] + Strip(s[k + n..] + t)
    ensures CutTag(s, t, y)
  {
    hide FindMarkup, CallLen, Strip, Drain;
    UnfoldCall(s, k, n);
    var (e, p) := Drain(s[k + n..]);
    assert s[..k] + (e + Strip(y)) == (s[..k] + e) + Strip(y);
  }

  lemma DrainStepPlain(s: string, t: string)
    requires FindMarkup(s) == |s|
    ensures var (e, p) := Drain(s); Strip(s + t) == e + Strip(p + t)
  {
    hide *;
    var h := |s| - Held(s);
    FindMarkupPast(s, t);
    UnfoldPlain(s);
    StripSplit(s + t, h);
    assert (s + t)[..h] == s[..h];
    assert (s + t)[h..] == s[h..] + t;
  }

  lemma DrainStepOpen(s: string, t: string)
    requires FindMarkup(s) < |s| && CallLen(s[FindMarkup(s)..]).None?
    ensures var (e, p) := Drain(s); Strip(s + t) == e + Strip(p + t)
  {
    hide *;
    var k := FindMarkup(s);
    FindMarkupExtend(s, t);
    UnfoldOpen(s);
    StripSplit(s + t, k);
    assert (s + t)[..k] == s[..k];
    assert (s + t)[k..] == s[k..] + t;
  }

  lemma DrainStepCall(s: string, t: string)
    requires FindMarkup(s) < |s| && CallLen(s[FindMarkup(s)..]).Some?
    ensures var k := FindMarkup(s);
            var n := CallLen(s[k..]).value;
            || Strip(s + t) == s[..k] + Strip(s[k + n..] + t)
            || exists y :: CutTag(s, t, y)
  {
    hide FindMarkup, MarkupLen, CallLen, Strip, Drain;
    var k := FindMarkup(s);
    var n := CallLen(s[k..]).value;
    var rest := s[k + n..];
    FindMarkupFirst(s);
    FindMarkupExtend(s, t);
    CallExtend(s[k..], t);
    UnfoldCall(s, k, n);
    assert s[k..][n..] == rest;
    assert (s + t)[k..] == s[k..] + t;
    assert (s + t)[..k] == s[..k];
    assert (s + t)[k + n..] == rest + t;
    if CallLen(s[k..] + t) == Some(n) {
      UnfoldCall(s + t, k, n);
    } else {
      UnfoldCall(s + t, k, n + 12);
      PartialClosing(rest);
      var y := (rest + t)[12..];
      assert rest + t == CLOSING + y;
      assert (s + t)[k + n + 12..] == y;
      assert s[..k] + "" == s[..k];
      assert CutTag(s, t, y);
    }
  }

  /** The end of `s` falls inside a closing tag; `y` is the text behind the tag. */
  ghost predicate CutTag(s: string, t: string, y: string) {
    var (e, p) := Drain(s);
    p < CLOSING && p + t == CLOSING + y && Strip(s + t) == e + Strip(y)
  }
}
