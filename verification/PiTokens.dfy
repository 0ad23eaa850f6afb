/** Control-token layer of the Pi sanitiser: the two shapes `<|name>name*` and
    `<name|>` that the regular expression removes. */
module PiTokens {
  import opened Sequences
  import opened PiMarkup

  /** Length of the control token at the head of `s`, 0 if there is none.  The
      two alternatives cannot both apply, and each is forced, so leftmost-first
      matching has exactly one outcome. */
  function TokenLen(s: string): (n: nat)
    ensures n <= |s|
  {
    if |s| < 2 || s[0] != '<' then 0
    else if s[1] == '|' then
      var n := NameLen(s[2..]);
      if n > 0 && 2 + n < |s| && s[2 + n] == '>' then 3 + n + NameLen(s[3 + n..]) else 0
    else
      var n := NameLen(s[1..]);
      if n > 0 && 2 + n < |s| && s[1 + n] == '|' && s[2 + n] == '>' then 3 + n else 0
  }

  /** Removal of every control token, left to right. */
  function Detok(s: string): string
    decreases |s|
  {
    if s == [] then []
    else if TokenLen(s) > 0 then Detok(s[TokenLen(s)..])
    else [s[0]] + Detok(s[1..])
  }

  /** No control token that removal finds in `a + b` reaches over the seam. */
  predicate Clean(a: string, b: string)
    decreases |a|
  {
    if a == [] then true
    else
      var n := TokenLen(a + b);
      if n == 0 then Clean(a[1..], b)
      else n <= |a| && Clean(a[n..], b)
  }

  // ---------- tokens under extension ----------

  lemma NameLenFacts(s: string)
    ensures forall i :: 0 <= i < NameLen(s) ==> IsNameByte(s[i])
    ensures NameLen(s) < |s| ==> !IsNameByte(s[NameLen(s)])
  {
  }

  lemma {:induction false} NameLenIs(s: string, n: nat)
    requires n <= |s| && forall i :: 0 <= i < n ==> IsNameByte(s[i])
    requires n < |s| ==> !IsNameByte(s[n])
    ensures NameLen(s) == n
  {
    if n > 0 { NameLenIs(s[1..], n - 1); }
  }

  /** Every byte of a token behind its `<` is a run byte. */
  lemma TokenBytes(s: string)
    requires TokenLen(s) > 0
    ensures s[0] == '<' && TokenLen(s) >= 4
    ensures forall i :: 1 <= i < TokenLen(s) ==> IsRunByte(s[i]) && s[i] != '<'
    ensures TokenLen(s) < |s| && s[1] == '|' ==> !IsNameByte(s[TokenLen(s)])
    ensures s[1] != '|' ==> s[TokenLen(s) - 1] == '>'
  {
    if s[1] == '|' {
      var n := NameLen(s[2..]);
      NameLenFacts(s[2..]);
      NameLenFacts(s[3 + n..]);
      forall i | 1 <= i < TokenLen(s) ensures IsRunByte(s[i]) && s[i] != '<' {
        if 2 <= i < 2 + n { assert s[i] == s[2..][i - 2]; }
        if i >= 3 + n { assert s[i] == s[3 + n..][i - 3 - n]; }
      }
    } else {
      var n := NameLen(s[1..]);
      NameLenFacts(s[1..]);
      forall i | 1 <= i < TokenLen(s) ensures IsRunByte(s[i]) && s[i] != '<' {
        if i < 1 + n { assert s[i] == s[1..][i - 1]; }
      }
    }
  }

  lemma NameExtends(s: string, t: string)
    ensures NameLen(s + t) >= NameLen(s)
    ensures NameLen(s) < |s| ==> NameLen(s + t) == NameLen(s)
    ensures NameLen(s + t) <= |s| ==> NameLen(s) == NameLen(s + t)
  {
    if s != [] && IsNameByte(s[0]) {
      assert (s + t)[1..] == s[1..] + t;
      NameExtends(s[1..], t);
    } else if s != [] {
      assert (s + t)[0] == s[0];
    }
  }

  predicate NameBytes(s: string, lo: nat, hi: nat) {
    hi <= |s| && forall i :: lo <= i < hi ==> IsNameByte(s[i])
  }

  /** `m` as a whole has the first shape, with its `>` at `k`. */
  predicate OpenShape(m: string, k: nat) {
    3 <= k < |m| && m[0] == '<' && m[1] == '|' && m[k] == '>' && NameBytes(m, 2, k) && NameBytes(m, k + 1, |m|)
  }

  /** `m` as a whole has the second shape. */
  predicate CloseShape(m: string) {
    |m| >= 4 && m[0] == '<' && m[|m| - 2] == '|' && m[|m| - 1] == '>' && NameBytes(m, 1, |m| - 2)
  }

  predicate IsToken(m: string) { CloseShape(m) || exists k :: 0 <= k < |m| && OpenShape(m, k) }

  /** The head of a text is a token exactly when some prefix has one of the two
      shapes, and the longest such prefix is the one that goes. */
  lemma TokenLenIsMatch(s: string)
    ensures TokenLen(s) > 0 ==> IsToken(s[..TokenLen(s)])
    ensures forall n :: 0 <= n <= |s| && IsToken(s[..n]) ==> n <= TokenLen(s)
  {
    hide TokenLen;
    if TokenLen(s) > 0 { TokenHasShape(s); }
    forall n | 0 <= n <= |s| && IsToken(s[..n])
      ensures n <= TokenLen(s)
    {
      if CloseShape(s[..n]) {
        CloseShapeFound(s, n);
      } else {
        var k :| OpenShape(s[..n], k);
        OpenShapeFound(s, n, k);
      }
    }
  }

  lemma TokenHasShape(s: string)
    requires TokenLen(s) > 0
    ensures IsToken(s[..TokenLen(s)])
  {
    hide NameLen;
    var m := s[..TokenLen(s)];
    if s[1] == '|' {
      var n := NameLen(s[2..]);
      NameLenFacts(s[2..]);
      NameLenFacts(s[3 + n..]);
      forall i | 2 <= i < 2 + n ensures IsNameByte(m[i]) { assert m[i] == s[2..][i - 2]; }
      forall i | 3 + n <= i < |m| ensures IsNameByte(m[i]) { assert m[i] == s[3 + n..][i - 3 - n]; }
      assert OpenShape(m, 2 + n);
    } else {
      var n := NameLen(s[1..]);
      NameLenFacts(s[1..]);
      forall i | 1 <= i < 1 + n ensures IsNameByte(m[i]) { assert m[i] == s[1..][i - 1]; }
      assert CloseShape(m);
    }
  }

  lemma CloseShapeFound(s: string, n: nat)
    requires n <= |s| && CloseShape(s[..n])
    ensures n <= TokenLen(s)
  {
    hide NameLen;
    var m := s[..n];
    assert IsNameByte(m[1]) && s[1] == m[1] && s[n - 2] == m[n - 2] && s[n - 1] == m[n - 1];
    forall i | 0 <= i < n - 3 ensures IsNameByte(s[1..][i]) { assert s[1..][i] == m[i + 1]; }
    assert s[1..][n - 3] == '|';
    NameLenIs(s[1..], n - 3);
  }

  lemma OpenShapeFound(s: string, n: nat, k: nat)
    requires n <= |s| && OpenShape(s[..n], k)
    ensures n <= TokenLen(s)
  {
    hide NameLen;
    var m := s[..n];
    assert s[1] == m[1] && s[k] == m[k];
    forall i | 0 <= i < k - 2 ensures IsNameByte(s[2..][i]) { assert s[2..][i] == m[i + 2]; }
    assert s[2..][k - 2] == '>';
    NameLenIs(s[2..], k - 2);
    var u := s[k + 1..];
    forall i | 0 <= i < n - k - 1 ensures IsNameByte(u[i]) { assert u[i] == m[k + 1 + i]; }
    NameAtLeast(u, n - k - 1);
  }

  lemma {:induction false} NameAtLeast(s: string, n: nat)
    requires n <= |s| && forall i :: 0 <= i < n ==> IsNameByte(s[i])
    ensures NameLen(s) >= n
  {
    if n > 0 { NameAtLeast(s[1..], n - 1); }
  }

  /** A token never shrinks when text is appended; one that ends within `s` was there already. */
  lemma TokenExtend(s: string, t: string)
    ensures TokenLen(s) > 0 ==> TokenLen(s + t) >= TokenLen(s)
    ensures TokenLen(s + t) <= |s| ==> TokenLen(s) == TokenLen(s + t)
  {
    var w := s + t;
    if |s| < 2 {
      if TokenLen(w) > 0 { TokenBytes(w); }
    } else if s[0] == '<' && s[1] == '|' {
      assert w[2..] == s[2..] + t;
      NameExtends(s[2..], t);
      var n := NameLen(s[2..]);
      if n > 0 && 2 + n < |s| && s[2 + n] == '>' {
        assert w[3 + n..] == s[3 + n..] + t;
        NameExtends(s[3 + n..], t);
      } else if TokenLen(w) > 0 && 2 + n < |s| {
        assert false;
      }
    } else if s[0] == '<' {
      assert w[1..] == s[1..] + t;
      NameExtends(s[1..], t);
    }
  }

  // ---------- seams ----------

  lemma DetokStep(s: string)
    requires s != []
    ensures TokenLen(s) == 0 ==> Detok(s) == [s[0]] + Detok(s[1..])
    ensures TokenLen(s) > 0 ==> Detok(s) == Detok(s[TokenLen(s)..])
  {
    hide TokenLen;
  }

  lemma CleanStep(a: string, b: string)
    requires a != []
    ensures TokenLen(a + b) == 0 ==> Clean(a, b) == Clean(a[1..], b)
    ensures 0 < TokenLen(a + b) <= |a| ==> Clean(a, b) == Clean(a[TokenLen(a + b)..], b)
    ensures TokenLen(a + b) > |a| ==> !Clean(a, b)
  {
    hide TokenLen;
  }

  lemma CleanNil(a: string)
    ensures Clean(a, "")
    decreases |a|
  {
    hide TokenLen;
    assert a + "" == a;
    if a != [] { CleanNil(if TokenLen(a) == 0 then a[1..] else a[TokenLen(a)..]); }
  }

  /** Removal works piece by piece exactly at clean seams; at any other seam the
      pieces keep strictly more than the whole does. */
  lemma {:induction false} SeamLaw(a: string, b: string)
    ensures |Detok(a + b)| <= |Detok(a)| + |Detok(b)|
    ensures Clean(a, b) ==> Detok(a + b) == Detok(a) + Detok(b)
    ensures !Clean(a, b) ==> |Detok(a + b)| < |Detok(a)| + |Detok(b)|
    decreases |a|
  {
    hide TokenLen, Detok, Clean;
    if a == [] {
      NothingBefore(b);
    } else {
      var n := TokenLen(a + b);
      TokenExtend(a, b);
      DetokStep(a);
      DetokStep(a + b);
      CleanStep(a, b);
      if n == 0 {
        assert (a + b)[1..] == a[1..] + b;
        SeamLaw(a[1..], b);
        assert [a[0]] + (Detok(a[1..]) + Detok(b)) == ([a[0]] + Detok(a[1..])) + Detok(b);
      } else if n <= |a| {
        assert (a + b)[n..] == a[n..] + b;
        SeamLaw(a[n..], b);
      } else {
        Straddle(a, b);
      }
    }
  }

  lemma NothingBefore(b: string)
    ensures [] + b == b && Detok([]) == [] && Clean([], b)
  {
  }

  /** The part of a straddling token that lies in the second piece is kept. */
  lemma Straddle(a: string, b: string)
    requires a != [] && TokenLen(a + b) > |a|
    ensures |Detok(a + b)| < |Detok(a)| + |Detok(b)|
    ensures exists kept :: Detok(b) == kept + Detok(a + b)
  {
    hide TokenLen, Detok;
    var w := a + b;
    var n := TokenLen(w);
    TokenBytes(w);
    var r := n - |a|;
    forall i | 0 <= i < r ensures b[i] != '<' { assert b[i] == w[|a| + i]; }
    KeepRun(b, r);
    DetokStep(w);
    assert b[r..] == w[n..];
    assert Detok(b) == b[..r] + Detok(w);
  }

  lemma {:induction false} KeepRun(b: string, r: nat)
    requires r <= |b| && forall i :: 0 <= i < r ==> b[i] != '<'
    ensures Detok(b) == b[..r] + Detok(b[r..])
  {
    hide TokenLen;
    if r > 0 {
      NoToken(b);
      KeepRun(b[1..], r - 1);
      assert b[1..][r - 1..] == b[r..];
      assert [b[0]] + (b[1..][..r - 1] + Detok(b[r..])) == b[..r] + Detok(b[r..]);
    } else {
      assert b[0..] == b && b[..0] + Detok(b) == Detok(b);
    }
  }

  lemma NoToken(b: string)
    requires b != "" && b[0] != '<'
    ensures TokenLen(b) == 0
  {
  }

  /** Whatever the seam, the whole's result is found in order in what the pieces leave. */
  lemma {:induction false} SeamKeeps(a: string, b: string)
    ensures Subsequence(Detok(a + b), Detok(a) + Detok(b))
    decreases |a|
  {
    hide TokenLen, Detok, Clean, Subsequence;
    if a == [] {
      NothingBefore(b);
      SubsequenceSelf(Detok(b));
      assert [] + Detok(b) == Detok(b);
    } else {
      var n := TokenLen(a + b);
      TokenExtend(a, b);
      DetokStep(a);
      DetokStep(a + b);
      if n == 0 {
        assert (a + b)[1..] == a[1..] + b;
        SeamKeeps(a[1..], b);
        SubsequenceSelf([a[0]]);
        SubsequenceConcat([a[0]], [a[0]], Detok(a[1..] + b), Detok(a[1..]) + Detok(b));
        assert [a[0]] + (Detok(a[1..]) + Detok(b)) == ([a[0]] + Detok(a[1..])) + Detok(b);
      } else if n <= |a| {
        assert (a + b)[n..] == a[n..] + b;
        SeamKeeps(a[n..], b);
      } else {
        Straddle(a, b);
        var kept :| Detok(b) == kept + Detok(a + b);
        Behind(Detok(a) + kept, Detok(a + b));
        assert Detok(a) + Detok(b) == (Detok(a) + kept) + Detok(a + b);
      }
    }
  }

  lemma Behind(x: string, y: string)
    ensures Subsequence(y, x + y)
  {
    SubsequenceSelf(y);
    SubsequenceConcat([], x, y, y);
    assert [] + y == y;
  }

  /** A seam clean before a long text is clean before any prefix of that text. */
  lemma {:induction false} CleanPrefix(a: string, b: string, z: string)
    requires Clean(a, b + z)
    ensures Clean(a, b)
    decreases |a|
  {
    if a != [] {
      var n := TokenLen(a + (b + z));
      assert a + (b + z) == (a + b) + z;
      TokenExtend(a + b, z);
      if n == 0 {
        CleanPrefix(a[1..], b, z);
      } else {
        CleanPrefix(a[n..], b, z);
      }
    }
  }

  /** Seams compose: cutting a piece with a clean end at a clean inner seam. */
  lemma {:induction false} CleanCompose(a: string, b: string, z: string)
    requires Clean(a + b, z) && Clean(a, b)
    ensures Clean(a, b + z) && Clean(b, z)
    decreases |a|
  {
    if a == [] {
      assert a + b == b;
    } else {
      assert (a + b) + z == a + (b + z);
      var n := TokenLen(a + (b + z));
      TokenExtend(a + b, z);
      if n == 0 {
        assert (a + b)[1..] == a[1..] + b;
        CleanCompose(a[1..], b, z);
      } else {
        assert (a + b)[n..] == a[n..] + b;
        CleanCompose(a[n..], b, z);
      }
    }
  }

  /** No token runs across a seam behind which there is nothing or a new `<`. */
  lemma {:induction false} CleanBeforeMark(a: string, b: string)
    requires b == [] || !IsRunByte(b[0])
    ensures Clean(a, b)
    decreases |a|
  {
    if a != [] {
      var n := TokenLen(a + b);
      if n > 0 {
        TokenBytes(a + b);
        assert b != [] ==> (a + b)[|a|] == b[0];
        CleanBeforeMark(a[n..], b);
      } else {
        CleanBeforeMark(a[1..], b);
      }
    }
  }
}
