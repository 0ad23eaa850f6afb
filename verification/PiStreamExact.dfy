/** The condition `Good` is exact: on every other text some split goes wrong. */
module PiStreamExact {
  import opened Sequences
  import opened Strings
  import opened Wrappers
  import opened PiMarkup
  import opened PiMarkupFacts
  import opened PiTokens
  import opened PiStream

  /** One pass leaves everything the batch function keeps, in order. */
  lemma PassKeeps(s: string, t: string)
    ensures var (e, p) := Drain(s);
            Subsequence(Detok(Strip(s + t)), Detok(e) + Detok(Strip(p + t)))
  {
    hide Drain, Strip, Detok, Clean, Subsequence;
    var (e, p) := Drain(s);
    DrainStep(s, t);
    if y :| CutTag(s, t, y) {
      ClosingText(y);
      ClosingToken(Strip(y));
      SeamKeeps(e, Strip(y));
    } else {
      SeamKeeps(e, Strip(p + t));
    }
  }

  /** For every text and every split the batch result is an in-order subsequence
      of what streaming leaves: streaming never removes a byte more. */
  lemma {:induction false} StreamKeepsAll(p: string, ds: seq<string>)
    ensures Subsequence(StripAll(p + Concat(ds)), Feed(p, ds))
    decreases |ds|
  {
    hide Drain, Strip, Detok, Subsequence;
    if ds == [] {
      assert p + "" == p;
      PassKeeps(p, "");
      HeldIsVerbatim(p);
      assert Drain(p).1 + "" == Drain(p).1;
    } else {
      var (e, q) := Drain(p + ds[0]);
      assert p + (ds[0] + Concat(ds[1..])) == (p + ds[0]) + Concat(ds[1..]);
      PassKeeps(p + ds[0], Concat(ds[1..]));
      StreamKeepsAll(q, ds[1..]);
      SubsequenceSelf(Detok(e));
      var whole, rest := StripAll(q + Concat(ds[1..])), Feed(q, ds[1..]);
      SubsequenceConcat(Detok(e), Detok(e), whole, rest);
      SubsequenceTransitive(StripAll(p + Concat(ds)), Detok(e) + whole, Detok(e) + rest);
    }
  }

  lemma StreamKeepsMore(p: string, ds: seq<string>)
    ensures |Feed(p, ds)| >= |StripAll(p + Concat(ds))|
  {
    hide *;
    StreamKeepsAll(p, ds);
    SubsequenceShorter(StripAll(p + Concat(ds)), Feed(p, ds));
  }

  /** Reading `s` before `t` releases text at a seam where a token is torn. */
  predicate Torn(s: string, t: string) {
    var (e, p) := Drain(s);
    |Detok(Strip(s + t))| < |Detok(e)| + |Detok(Strip(p + t))|
  }

  lemma TornStream(s: string, t: string)
    requires Torn(s, t)
    ensures |Feed("", [s, t])| > |StripAll(Concat([s, t]))|
  {
    hide Drain, Strip, Detok;
    var (e, p) := Drain("" + s);
    assert "" + s == s && Concat([t]) == t + "" == t && Concat([s, t]) == s + Concat([t]);
    assert [s, t][1..] == [t];
    StreamKeepsMore(p, [t]);
  }

  /** Where the token at the head of `x` is too long, reading 65 bytes of it tears it. */
  lemma {:induction false} LongHeld(u: string, z: string)
    requires |z| == 65 && z[0] == '<'
    ensures Held(u + z) == Held(z) < 65
  {
    hide IsPartial;
    if u == "" {
      assert u + z == z;
      PartialShort(z);
    } else {
      assert (u + z)[|u|] == '<';
      assert !IsTokenPrefix(u + z);
      PartialShort(u + z);
      assert (u + z)[1..] == u[1..] + z;
      LongHeld(u[1..], z);
    }
  }

  lemma PartialShort(p: string)
    ensures IsPartial(p) ==> |p| <= 8
  {
  }

  lemma {:induction false} PartialIsHeld(s: string)
    ensures Held(s) >= PartialHold(s)
  {
    hide IsPartial, IsTokenPrefix;
    if s != [] && !IsPartial(s) { PartialIsHeld(s[1..]); }
  }

  /** The first token of the stretch does not fit: cut behind its 65th byte. */
  lemma TearHere(x: string)
    requires TokenLen(x) > 0 && !TokenFits(x[..TokenLen(x)])
    ensures |x| >= 65 && Held(x[..65]) <= 65 && x[0] == '<'
    ensures var h := 65 - Held(x[..65]); !Clean(x[..h], x[h..])
  {
    hide TokenLen, IsPartial, IsTokenPrefix, Held, PartialHold;
    var n := TokenLen(x);
    TokenBytes(x);
    assert "" + x[..65] == x[..65];
    LongHeld("", x[..65]);
    PartialIsHeld(x[..65]);
    var h := 65 - Held(x[..65]);
    assert x[..h] + x[h..] == x;
    assert n == 65 ==> x[..65] == x[..n];
  }

  /** A tearing point stays one when a token, or a byte that begins none, is put in front. */
  lemma TearBehind(x: string, i: nat, d: nat)
    requires x != [] && i == (if TokenLen(x) == 0 then 1 else TokenLen(x))
    requires 65 <= d <= |x| - i && Held(x[i..][..d]) <= d && x[i..][d - 65] == '<'
    requires var h := d - Held(x[i..][..d]); !Clean(x[i..][..h], x[i..][h..])
    ensures Held(x[..i + d]) <= i + d && x[i + d - 65] == '<'
    ensures var h := i + d - Held(x[..i + d]); !Clean(x[..h], x[h..])
  {
    hide TokenLen, IsPartial, IsTokenPrefix, Held, PartialHold, Clean;
    var c := i + d;
    var z := x[i..][d - 65..d];
    assert x[..c] == x[..c - 65] + z;
    assert x[i..][..d] == x[i..][..d - 65] + z;
    LongHeld(x[..c - 65], z);
    LongHeld(x[i..][..d - 65], z);
    var h := c - Held(x[..c]);
    assert x[..h] + x[h..] == x;
    assert x[..h][i..] == x[i..][..h - i];
    assert x[h..] == x[i..][h - i..];
    CleanStep(x[..h], x[h..]);
  }

  /** In a plain stretch with a token that does not fit, a tearing point. */
  lemma {:induction false} TearingPoint(x: string) returns (c: nat)
    requires !TokensFit(x)
    ensures c <= |x| && Held(x[..c]) <= c
    ensures var h := c - Held(x[..c]); !Clean(x[..h], x[h..])
    ensures c >= 65 && x[c - 65] == '<'
    decreases |x|
  {
    hide TokenLen, IsPartial, IsTokenPrefix, Held, PartialHold, Clean;
    var n := TokenLen(x);
    if n > 0 && !TokenFits(x[..n]) {
      c := 65;
      TearHere(x);
    } else {
      var i := if n == 0 then 1 else n;
      var d := TearingPoint(x[i..]);
      c := i + d;
      TearBehind(x, i, d);
    }
  }

  /** On every text that is not good there is a split that tears a token. */
  lemma {:induction false} TearingSplit(w: string) returns (s: string, t: string)
    requires !Good(w)
    ensures s + t == w && Torn(s, t)
    decreases |w|
  {
    hide *;
    var k := FindMarkup(w);
    GoodUnfold(w, k);
    assert w[..k] + w[k..] == w;
    if !TokensFit(w[..k]) {
      s, t := TearPlain(w, k);
    } else if CallLen(w[k..]).None? {
      s, t := w, "";
      assert w + "" == w && w[k..] + "" == w[k..];
      UnfoldOpen(w);
      HeldIsVerbatim(w);
      SeamLaw(w[..k], w[k..]);
      UnfoldTorn(s, t);
    } else {
      var n := CallLen(w[k..]).value;
      UnfoldCall(w, k, n);
      if !Clean(w[..k], Strip(w[k + n..])) {
        s, t := TearCall(w, k, n);
      } else {
        var s', t' := TearingSplit(w[k + n..]);
        s, t := w[..k + n] + s', t';
        TearLater(w, k, n, s', t');
      }
    }
  }

  lemma UnfoldTorn(s: string, t: string)
    ensures Torn(s, t) <==> |Detok(Strip(s + t))| < |Detok(Drain(s).0)| + |Detok(Strip(Drain(s).1 + t))|
  {
    hide Drain, Strip, Detok;
  }

  lemma TearPlain(w: string, k: nat) returns (s: string, t: string)
    requires k == FindMarkup(w) && !TokensFit(w[..k])
    ensures s + t == w && Torn(s, t)
  {
    hide *;
    var c := TearingPoint(w[..k]);
    s, t := w[..c], w[c..];
    assert w[..k][..c] == s;
    FindMarkupTake(w, c);
    UnfoldPlain(s);
    UnfoldTorn(s, t);
    var h := c - Held(s);
    var e, p := s[..h], s[h..];
    assert e == w[..k][..h] && p + t == w[h..] && s + t == w;
    StripSplit(w, h);
    assert w[..h] == e;
    FindMarkupDrop(w, h);
    StripSplit(w[h..], k - h);
    var r := w[..k][h..];
    assert w[h..][..k - h] == r;
    var v := Strip(w[h..][k - h..]);
    if Clean(e, r + v) { CleanPrefix(e, r, v); }
    SeamLaw(e, r + v);
  }

  /** Reading exactly up to the end of a call. */
  lemma CutAfterCall(w: string, k: nat, n: nat, s': string)
    requires k == FindMarkup(w) < |w| && CallLen(w[k..]) == Some(n)
    requires s' <= w[k + n..]
    ensures Drain(w[..k + n] + s') == (w[..k] + Drain(s').0, Drain(s').1)
  {
    hide *;
    var s := w[..k + n] + s';
    var m := n + |s'|;
    assert s == w[..k + m];
    FindMarkupFirst(w);
    CallCut(w[k..], m);
    assert w[k..][..m] == s[k..];
    FindMarkupTake(w, k);
    assert s[..k] == w[..k] && w[..k] + s[k..] == s;
    MarkupAt(s, k, w);
    UnfoldCall(s, k, n);
    assert s[k + n..] == s';
  }

  lemma {:induction false} MarkupAt(s: string, k: nat, w: string)
    requires s <= w && k == FindMarkup(w) < |s| && MarkupLen(s[k..]) > 0
    ensures FindMarkup(s) == k
  {
    hide MarkupLen;
    if k == 0 {
      assert s[0..] == s;
    } else {
      if MarkupLen(s) > 0 { MarkupLenExtend(s, w[|s|..]); }
      assert s + w[|s|..] == w;
      assert s[1..][k - 1..] == s[k..];
      MarkupAt(s[1..], k - 1, w[1..]);
    }
  }

  lemma TearCall(w: string, k: nat, n: nat) returns (s: string, t: string)
    requires k == FindMarkup(w) < |w| && CallLen(w[k..]) == Some(n)
    requires !Clean(w[..k], Strip(w[k + n..]))
    ensures s + t == w && Torn(s, t)
  {
    hide *;
    s, t := w[..k + n], w[k + n..];
    assert s + "" == s;
    CutAfterCall(w, k, n, "");
    DrainNil();
    assert w[..k] + "" == w[..k] && "" + t == t;
    UnfoldCall(w, k, n);
    SeamLaw(w[..k], Strip(t));
    UnfoldTorn(s, t);
  }

  lemma DrainNil()
    ensures Drain("") == ("", "")
  {
  }

  lemma TearLater(w: string, k: nat, n: nat, s': string, t': string)
    requires k == FindMarkup(w) < |w| && CallLen(w[k..]) == Some(n)
    requires Clean(w[..k], Strip(w[k + n..]))
    requires s' + t' == w[k + n..] && Torn(s', t')
    ensures (w[..k + n] + s') + t' == w && Torn(w[..k + n] + s', t')
  {
    hide *;
    var s := w[..k + n] + s';
    assert s + t' == w[..k + n] + (s' + t') == w;
    CutAfterCall(w, k, n, s');
    UnfoldCall(w, k, n);
    UnfoldTorn(s, t');
    UnfoldTorn(s', t');
    var e := Drain(s').0;
    var rest := Strip(s' + t');
    SeamLaw(w[..k], rest);
    ReleasedPrefix(s', t');
    assert rest == e + rest[|e|..];
    CleanPrefix(w[..k], e, rest[|e|..]);
    SeamLaw(w[..k], e);
  }

  /** Main result.  Streaming agrees with the batch function for every split of
      `w` into deltas if and only if `w` is good. */
  lemma ChunkInvariance(w: string)
    ensures (forall ds :: Concat(ds) == w ==> Feed("", ds) == StripAll(w)) <==> Good(w)
  {
    hide *;
    if Good(w) {
      forall ds | Concat(ds) == w ensures Feed("", ds) == StripAll(w) {
        assert "" + Concat(ds) == w;
        StreamIsBatch("", ds);
      }
    } else {
      var s, t := TearingSplit(w);
      TornStream(s, t);
      ConcatTwo(s, t);
    }
  }

  lemma ConcatTwo(s: string, t: string)
    ensures Concat([s, t]) == s + t
  {
    assert [s, t][1..] == [t] && Concat([t]) == t;
  }
}
