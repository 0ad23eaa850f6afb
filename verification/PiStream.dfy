/** Streaming against batch sanitising of Pi text: both layers together. */
module PiStream {
  import opened Strings
  import opened Wrappers
  import opened PiMarkup
  import opened PiMarkupFacts
  import opened PiTokens

  /** The batch function: structural markup first, then control tokens. */
  function StripAll(s: string): string {
    Detok(Strip(s))
  }

  /** What flushing the held text `p` releases. */
  function FlushText(p: string): string {
    var (e, q) := Drain(p);
    Detok(e) + Detok(q)
  }

  /** Everything released for the deltas `ds` and the final flush, `p` held before. */
  function Feed(p: string, ds: seq<string>): string
    decreases |ds|
  {
    if ds == [] then FlushText(p)
    else
      var (e, q) := Drain(p + ds[0]);
      Detok(e) + Feed(q, ds[1..])
  }

  /** Length of the longest suffix that is a partial markup prefix. */
  function PartialHold(s: string): (h: nat)
    ensures h <= |s|
  {
    if s == [] then 0 else if IsPartial(s) then |s| else PartialHold(s[1..])
  }

  /** Tokens the hold-back window is long enough for: at most 64 bytes, or 65
      when the token does not end like the beginning of a markup prefix. */
  predicate TokenFits(m: string) {
    |m| <= 64 || (|m| == 65 && PartialHold(m) == 0)
  }

  /** Every control token of the stretch `g` fits the window. */
  predicate TokensFit(g: string)
    decreases |g|
  {
    if g == [] then true
    else
      var n := TokenLen(g);
      if n == 0 then TokensFit(g[1..]) else TokenFits(g[..n]) && TokensFit(g[n..])
  }

  /** The texts on which streaming is exact.  Walking over the text call by
      call: tokens in the plain stretches fit the hold-back window, and no token
      reaches over a removed call or into a call that never closes. */
  predicate Good(w: string)
    decreases |w|
  {
    var k := FindMarkup(w);
    TokensFit(w[..k]) &&
    (k < |w| ==>
       match CallLen(w[k..])
       case None => Clean(w[..k], w[k..])
       case Some(n) => Clean(w[..k], Strip(w[k + n..])) && Good(w[k + n..]))
  }

  // ---------- plain stretches ----------

  lemma GoodUnfold(w: string, k: nat)
    requires k == FindMarkup(w)
    ensures Good(w) ==> TokensFit(w[..k])
    ensures k == |w| ==> (Good(w) <==> TokensFit(w))
    ensures k < |w| && CallLen(w[k..]).None? ==> (Good(w) <==> TokensFit(w[..k]) && Clean(w[..k], w[k..]))
    ensures k < |w| && CallLen(w[k..]).Some? ==>
              var n := CallLen(w[k..]).value;
              (Good(w) <==> TokensFit(w[..k]) && Clean(w[..k], Strip(w[k + n..])) && Good(w[k + n..]))
  {
    hide FindMarkup, CallLen, Strip, Clean, TokensFit;
    assert w[..|w|] == w;
  }

  /** The held suffix of `x` starts with `<`, or it is partial markup (or empty). */
  lemma {:induction false} HeldShape(x: string)
    ensures var r := x[|x| - Held(x)..]; r == [] || IsPartial(r) || IsTokenPrefix(r)
  {
    if x != [] && !IsPartial(x) && !IsTokenPrefix(x) {
      HeldShape(x[1..]);
      assert x[1..][|x| - 1 - Held(x[1..])..] == x[|x| - Held(x)..];
    } else {
      assert x[0..] == x;
    }
  }

  lemma PartialNames(p: string)
    requires IsPartial(p)
    ensures |p| <= 8 && forall i :: 0 <= i < |p| ==> IsNameByte(p[i])
  {
    if p < CALL { assert forall i :: 0 <= i < |p| ==> p[i] == CALL[i]; }
    else { assert forall i :: 0 <= i < |p| ==> p[i] == RESPONSE[i]; }
  }

  lemma {:induction false} PartialHoldPositive(s: string, i: nat)
    requires i < |s| && IsPartial(s[i..])
    ensures PartialHold(s) > 0
  {
    if i == 0 { assert s[0..] == s; }
    else { assert s[1..][i - 1..] == s[i..]; PartialHoldPositive(s[1..], i - 1); }
  }

  lemma HeldProper(x: string)
    requires x != [] && Held(x) < |x|
    ensures !IsPartial(x) && !IsTokenPrefix(x)
  {
    hide IsPartial, IsTokenPrefix;
  }

  /** A token that fits never reaches over the end of what is released from `x`. */
  lemma TokenBeforeCut(x: string, y: string)
    requires x != [] && Held(x) < |x|
    requires TokenLen(x + y) > 0 && TokenFits((x + y)[..TokenLen(x + y)])
    requires var r := x[|x| - Held(x)..]; r == [] || IsPartial(r)
    ensures TokenLen(x + y) <= |x| - Held(x)
  {
    hide TokenLen, IsPartial, Held, PartialHold, NameLen;
    var w := x + y;
    var n := TokenLen(w);
    var h := |x| - Held(x);
    TokenBytes(w);
    HeldProper(x);
    assert w[..|x|] == x;
    assert n >= |x| ==> |x| > 64;
    var r := x[h..];
    if r != [] {
      PartialNames(r);
      assert forall i :: h <= i < |x| ==> w[i] == r[i - h];
      PartialHoldPositive(x, h);
    }
  }

  /** Within a plain stretch `x + y`, of which `x` has been read, the point up
      to which text is released is a clean seam. */
  lemma {:induction false} PlainSeam(x: string, y: string)
    requires TokensFit(x + y)
    requires var r := x[|x| - Held(x)..]; r == [] || IsPartial(r)
    ensures Clean(x[..|x| - Held(x)], x[|x| - Held(x)..] + y)
    decreases |x|
  {
    hide TokenLen, IsPartial, IsTokenPrefix, TokenFits, TokensFit, Held, Clean;
    var h := |x| - Held(x);
    if h > 0 {
      var n := TokenLen(x + y);
      var i := if n == 0 then 1 else n;
      FitStep(x + y);
      if n > 0 { TokenBeforeCut(x, y); }
      HeldSuffix(x, i);
      CutSlices(x, y, h, i);
      PlainSeam(x[i..], y);
      CleanStep(x[..h], x[h..] + y);
    } else {
      NothingBefore(x[h..] + y);
    }
  }

  lemma FitStep(g: string)
    requires g != [] && TokensFit(g)
    ensures TokenLen(g) == 0 ==> TokensFit(g[1..])
    ensures TokenLen(g) > 0 ==> TokenFits(g[..TokenLen(g)]) && TokensFit(g[TokenLen(g)..])
  {
    hide TokenLen, TokenFits;
  }

  lemma CutSlices(x: string, y: string, h: nat, i: nat)
    requires i <= h <= |x|
    ensures x[..h] + (x[h..] + y) == x + y
    ensures x[i..][h - i..] == x[h..] && x[..h][i..] == x[i..][..h - i]
    ensures (x + y)[i..] == x[i..] + y
  {
  }

  lemma {:induction false} FitSplit(a: string, b: string)
    requires TokensFit(a + b) && Clean(a, b)
    ensures TokensFit(b)
    decreases |a|
  {
    hide TokenLen, TokenFits, Clean;
    if a == [] {
      assert a + b == b;
    } else {
      var n := TokenLen(a + b);
      var i := if n == 0 then 1 else n;
      CleanStep(a, b);
      assert i <= |a| && (a + b)[i..] == a[i..] + b;
      FitSplit(a[i..], b);
    }
  }

  lemma Slices(w: string, h: nat, k: nat)
    requires h <= k <= |w|
    ensures w[..h] + w[h..k] == w[..k]
    ensures w[h..][..k - h] == w[h..k]
    ensures w[h..][k - h..] == w[k..]
    ensures w[h..k] + w[k..] == w[h..]
  {
  }

  /** Releasing text from the plain beginning of `w == e + q` loses nothing and leaves a good text. */
  lemma GoodSplit(w: string, h: nat)
    requires Good(w) && h <= FindMarkup(w)
    requires Clean(w[..h], w[h..FindMarkup(w)])
    ensures Good(w[h..]) && Clean(w[..h], Strip(w[h..]))
  {
    hide *;
    var k := FindMarkup(w);
    var e, r := w[..h], w[h..k];
    GoodUnfold(w, k);
    FindMarkupDrop(w, h);
    GoodUnfold(w[h..], k - h);
    Slices(w, h, k);
    FitSplit(e, r);
    if k == |w| {
      UnfoldPlain(w[h..]);
      assert w[..k] == w && r == w[h..];
    } else {
      if CallLen(w[k..]).None? {
        UnfoldOpen(w[h..]);
        CleanCompose(e, r, w[k..]);
      } else {
        var n := CallLen(w[k..]).value;
        assert w[h..][k - h + n..] == w[k + n..];
        UnfoldCall(w[h..], k - h, n);
        CleanCompose(e, r, Strip(w[k + n..]));
      }
    }
  }

  /** The seam at the end of what one pass releases, when no markup is in sight. */
  lemma HoldSeam(s: string, t: string)
    requires FindMarkup(s) == |s| && Good(s + t)
    ensures var h := |s| - Held(s); h <= FindMarkup(s + t) && Clean(s[..h], (s + t)[h..FindMarkup(s + t)])
  {
    hide Good, Strip, Drain, FindMarkup, Clean, MarkupLen, TokensFit, Held, IsPartial;
    var w := s + t;
    var k := FindMarkup(w);
    var h := |s| - Held(s);
    FindMarkupPast(s, t);
    GoodUnfold(w, k);
    HeldShape(s);
    var r := w[h..k];
    if s[h..] != [] && !IsPartial(s[h..]) {
      assert r != [] ==> r[0] == s[h] == '<';
      CleanBeforeMark(s[..h], r);
    } else if k >= |s| {
      var y := t[..k - |s|];
      assert w[..k] == s + y;
      assert r == s[h..] + y;
      PlainSeam(s, y);
    } else {
      PartialWhole(s, t, h, k);
      CleanNil(s[..h]);
      assert r == "";
    }
  }

  /** When the held text is partial markup that then completes, the markup begins where it does. */
  lemma PartialWhole(s: string, t: string, h: nat, k: nat)
    requires h <= k < |s| && k == FindMarkup(s + t)
    requires IsPartial(s[h..])
    ensures h == k
  {
    hide FindMarkup, IsPartial;
    var w := s + t;
    FindMarkupFirst(w);
    assert w[k..] == s[k..] + t;
    assert w[k..][0] == s[h..][k - h];
    if k > h { PartialTail(s[h..], k - h); }
  }

  /** Neither prefix occurs inside the other at a later place. */
  lemma PartialTail(p: string, i: nat)
    requires IsPartial(p) && 0 < i < |p|
    ensures p[i] != 'c' && p[i] != 'r'
  {
    if p < CALL { assert p[i] == CALL[i]; } else { assert p[i] == RESPONSE[i]; }
  }

  lemma {:induction false} ClosingGood(y: string)
    ensures Detok(CLOSING + y) == Detok(y)
    ensures Good(y) ==> Good(CLOSING + y)
  {
    hide *;
    var w := CLOSING + y;
    ClosingToken(y);
    DropClosing(y);
    ClosingText(y);
    if Good(y) {
      var k := FindMarkup(y);
      GoodUnfold(y, k);
      GoodUnfold(w, |CLOSING| + k);
      var g := y[..k];
      assert w[..|CLOSING| + k] == CLOSING + g;
      if k < |y| {
        ClosingFit(g);
        assert w[|CLOSING| + k..] == y[k..];
        if CallLen(y[k..]).Some? {
          var n := CallLen(y[k..]).value;
          assert w[|CLOSING| + k + n..] == y[k + n..];
          ClosingClean(g, Strip(y[k + n..]));
        } else {
          ClosingClean(g, y[k..]);
        }
      } else {
        ClosingFit(y);
      }
    }
  }

  lemma ClosingToken(y: string)
    ensures TokenLen(CLOSING + y) == 12
    ensures Detok(CLOSING + y) == Detok(y)
  {
    var w := CLOSING + y;
    assert |CLOSING| == 12 && forall i :: 0 <= i < 12 ==> w[i] == CLOSING[i];
    NameLenIs(w[1..], 9);
    DropClosing(y);
  }

  lemma DropClosing(y: string)
    ensures (CLOSING + y)[|CLOSING|..] == y
  {
  }

  lemma ClosingFit(g: string)
    requires TokensFit(g)
    ensures TokensFit(CLOSING + g)
  {
    hide TokenLen;
    ClosingToken(g);
    assert (CLOSING + g)[12..] == g;
  }

  lemma ClosingClean(g: string, v: string)
    requires Clean(g, v)
    ensures Clean(CLOSING + g, v)
  {
    hide TokenLen;
    ClosingToken(g + v);
    assert (CLOSING + g) + v == CLOSING + (g + v);
    assert (CLOSING + g)[12..] == g;
  }

  // ---------- one pass over a good text ----------

  /** On a good text, releasing the safe part of what has been read and going on
      with the rest gives the batch result, and the rest is good again. */
  lemma {:induction false} GoodStep(s: string, t: string)
    requires Good(s + t)
    ensures var (e, p) := Drain(s);
            Detok(Strip(s + t)) == Detok(e) + Detok(Strip(p + t)) && Good(p + t)
    decreases |s|
  {
    hide *;
    var w := s + t;
    var k := FindMarkup(s);
    if k == |s| {
      var h := |s| - Held(s);
      HoldSeam(s, t);
      UnfoldPlain(s);
      assert w[..h] == s[..h] && w[h..] == s[h..] + t;
      GoodSplit(w, h);
      StripSplit(w, h);
      SeamLaw(s[..h], Strip(w[h..]));
    } else {
      FindMarkupExtend(s, t);
      assert w[..k] == s[..k] && w[k..] == s[k..] + t;
      if CallLen(s[k..]).None? {
        UnfoldOpen(s);
        CleanNil(s[..k]);
        assert w[k..k] == "";
        GoodSplit(w, k);
        StripSplit(w, k);
        SeamLaw(s[..k], Strip(w[k..]));
      } else {
        GoodStepCall(s, t, k, CallLen(s[k..]).value);
      }
    }
  }

  lemma GoodStepCall(s: string, t: string, k: nat, n: nat)
    requires Good(s + t) && k == FindMarkup(s) < |s| && CallLen(s[k..]) == Some(n)
    ensures var (e, p) := Drain(s);
            Detok(Strip(s + t)) == Detok(e) + Detok(Strip(p + t)) && Good(p + t)
    decreases |s|, 0
  {
    hide *;
    var w := s + t;
    var rest := s[k + n..];
    FindMarkupFirst(s);
    FindMarkupExtend(s, t);
    CallExtend(s[k..], t);
    UnfoldCall(s, k, n);
    GoodUnfold(w, k);
    assert w[..k] == s[..k] && w[k..] == s[k..] + t && w[k + n..] == rest + t && s[k..][n..] == rest;
    if CallLen(w[k..]) == Some(n) {
      UnfoldCall(w, k, n);
      GoodStep(rest, t);
      var (e, p) := Drain(rest);
      SeamLaw(s[..k], Strip(rest + t));
      ReleasedPrefix(rest, t);
      var v := Strip(rest + t)[|e|..];
      assert Strip(rest + t) == e + v;
      CleanPrefix(s[..k], e, v);
      SeamLaw(s[..k], e);
    } else {
      UnfoldCall(w, k, n + |CLOSING|);
      PartialClosing(rest);
      var y := (rest + t)[|CLOSING|..];
      assert rest + t == CLOSING + y && w[k + n + |CLOSING|..] == y;
      SeamLaw(s[..k], Strip(y));
      ClosingText(y);
      ClosingGood(y);
      ClosingToken(Strip(y));
      assert s[..k] + "" == s[..k];
    }
  }

  /** What is released is always a prefix of what the batch function keeps. */
  lemma ReleasedPrefix(s: string, t: string)
    ensures Drain(s).0 <= Strip(s + t)
  {
    hide Drain, Strip;
    DrainStep(s, t);
    if y :| CutTag(s, t, y) {}
  }

  lemma GoodFlush(p: string)
    requires Good(p)
    ensures FlushText(p) == StripAll(p)
  {
    hide *;
    var (e, q) := Drain(p);
    assert p + "" == p && q + "" == q;
    GoodStep(p, "");
    HeldIsVerbatim(p);
    UnfoldFlush(p);
  }

  lemma UnfoldFlush(p: string)
    ensures FlushText(p) == Detok(Drain(p).0) + Detok(Drain(p).1)
    ensures StripAll(p) == Detok(Strip(p))
  {
  }

  /** The batch function keeps held text as it is. */
  lemma {:induction false} HeldIsVerbatim(p: string)
    ensures Strip(Drain(p).1) == Drain(p).1
    decreases |p|
  {
    hide *;
    var k := FindMarkup(p);
    if k == |p| {
      UnfoldPlain(p);
      FindMarkupDrop(p, |p| - Held(p));
      UnfoldPlain(p[|p| - Held(p)..]);
    } else if CallLen(p[k..]).None? {
      UnfoldOpen(p);
      FindMarkupDrop(p, k);
      assert p[k..][0..] == p[k..];
      UnfoldOpen(p[k..]);
    } else {
      UnfoldCall(p, k, CallLen(p[k..]).value);
      HeldIsVerbatim(p[k + CallLen(p[k..]).value..]);
    }
  }

  lemma {:induction false} StreamIsBatch(p: string, ds: seq<string>)
    requires Good(p + Concat(ds))
    ensures Feed(p, ds) == StripAll(p + Concat(ds))
    decreases |ds|
  {
    hide Good, Drain, Strip, Detok;
    if ds == [] {
      assert p + "" == p;
      GoodFlush(p);
    } else {
      var (e, q) := Drain(p + ds[0]);
      assert p + (ds[0] + Concat(ds[1..])) == (p + ds[0]) + Concat(ds[1..]);
      GoodStep(p + ds[0], Concat(ds[1..]));
      StreamIsBatch(q, ds[1..]);
    }
  }
}
