/** UTF-8 as in RFC 3629, section 4; each char of a `string` stands for one byte. */
module Utf8 {
  predicate In(c: char, lo: int, hi: int) { lo <= c as int <= hi }

  predicate IsCont(c: char) { In(c, 0x80, 0xBF) }

  predicate Conts(s: string, n: nat)
  {
    n < |s| && forall i :: 1 <= i <= n ==> IsCont(s[i])
  }

  /** Length of the well-formed rune at the head of `s`, 0 if there is none. */
  function RuneLen(s: string): (n: nat)
    ensures n <= |s|
  {
    if s == [] then 0
    else if In(s[0], 0, 0x7F) then 1
    else if In(s[0], 0xC2, 0xDF) && Conts(s, 1) then 2
    else if In(s[0], 0xE0, 0xEF) && Conts(s, 2) &&
         (In(s[0], 0xE0, 0xE0) ==> In(s[1], 0xA0, 0xBF)) && (In(s[0], 0xED, 0xED) ==> In(s[1], 0x80, 0x9F)) then 3
    else if In(s[0], 0xF0, 0xF4) && Conts(s, 3) &&
         (In(s[0], 0xF0, 0xF0) ==> In(s[1], 0x90, 0xBF)) && (In(s[0], 0xF4, 0xF4) ==> In(s[1], 0x80, 0x8F)) then 4
    else 0
  }

  /** The code points that have an encoding. */
  predicate Scalar(n: nat) { n < 0xD800 || 0xE000 <= n < 0x11_0000 }

  function Encode(n: nat): string
    requires Scalar(n)
  {
    if n < 0x80 then [n as char]
    else if n < 0x800 then [(0xC0 + n / 0x40) as char, (0x80 + n % 0x40) as char]
    else if n < 0x1_0000 then
      [(0xE0 + n / 0x1000) as char, (0x80 + n / 0x40 % 0x40) as char, (0x80 + n % 0x40) as char]
    else
      [(0xF0 + n / 0x4_0000) as char, (0x80 + n / 0x1000 % 0x40) as char,
       (0x80 + n / 0x40 % 0x40) as char, (0x80 + n % 0x40) as char]
  }

  /** A run of bytes is recognised as a rune exactly when it encodes a code point. */
  lemma RuneExactly(s: string, k: nat)
    ensures 0 < RuneLen(s) == k <==> exists n :: Scalar(n) && |Encode(n)| == k && Encode(n) <= s
  {
    if 0 < RuneLen(s) == k {
      var n := Decoded(s);
      assert Scalar(n) && |Encode(n)| == k && Encode(n) <= s;
    }
    forall n | Scalar(n) && |Encode(n)| == k && Encode(n) <= s
      ensures 0 < RuneLen(s) == k
    {
      EncodeIsRune(n, s);
    }
  }

  lemma EncodeIsRune(n: nat, s: string)
    requires Scalar(n) && Encode(n) <= s
    ensures RuneLen(s) == |Encode(n)| > 0
  {
    assert forall i :: 0 <= i < |Encode(n)| ==> s[i] == Encode(n)[i];
  }

  lemma Decoded(s: string) returns (n: nat)
    requires RuneLen(s) > 0
    ensures Scalar(n) && |Encode(n)| == RuneLen(s) && Encode(n) <= s
  {
    hide Encode, Scalar;
    if RuneLen(s) == 1 {
      n := DecodedOne(s);
    } else if RuneLen(s) == 2 {
      n := DecodedTwo(s);
    } else if RuneLen(s) == 3 {
      n := DecodedThree(s);
    } else {
      n := DecodedFour(s);
    }
  }

  lemma DecodedOne(s: string) returns (n: nat)
    requires RuneLen(s) == 1
    ensures Scalar(n) && |Encode(n)| == 1 && Encode(n) <= s
  {
    n := s[0] as nat;
    assert Encode(n) == s[..1];
  }

  lemma DecodedTwo(s: string) returns (n: nat)
    requires RuneLen(s) == 2
    ensures Scalar(n) && |Encode(n)| == 2 && Encode(n) <= s
  {
    var a, b := s[0] as nat - 0xC0, s[1] as nat - 0x80;
    n := a * 0x40 + b;
    Digits(a, b);
    assert Encode(n) == s[..2];
  }

  lemma DecodedThree(s: string) returns (n: nat)
    requires RuneLen(s) == 3
    ensures Scalar(n) && |Encode(n)| == 3 && Encode(n) <= s
  {
    var a, b, c := s[0] as nat - 0xE0, s[1] as nat - 0x80, s[2] as nat - 0x80;
    n := (a * 0x40 + b) * 0x40 + c;
    Digits(a * 0x40 + b, c);
    Digits(a, b);
    assert n / 0x1000 == a;
    assert Encode(n) == s[..3];
  }

  lemma DecodedFour(s: string) returns (n: nat)
    requires RuneLen(s) == 4
    ensures Scalar(n) && |Encode(n)| == 4 && Encode(n) <= s
  {
    var a, b, c, d := s[0] as nat - 0xF0, s[1] as nat - 0x80, s[2] as nat - 0x80, s[3] as nat - 0x80;
    n := ((a * 0x40 + b) * 0x40 + c) * 0x40 + d;
    Digits((a * 0x40 + b) * 0x40 + c, d);
    Digits(a * 0x40 + b, c);
    Digits(a, b);
    assert n / 0x1000 == a * 0x40 + b && n / 0x4_0000 == a;
    assert Encode(n) == s[..4];
  }

  lemma Digits(a: nat, b: nat)
    requires b < 0x40
    ensures (a * 0x40 + b) / 0x40 == a && (a * 0x40 + b) % 0x40 == b
  {
  }

  predicate Valid(s: string)
    decreases |s|
  {
    s == [] || (RuneLen(s) > 0 && Valid(s[RuneLen(s)..]))
  }

  /** The byte test the daemon uses for "a cut at `i` splits no rune". */
  predicate Boundary(s: string, i: nat)
    requires i <= |s|
  {
    i == 0 || i == |s| || !IsCont(s[i])
  }

  lemma RuneCut(s: string, i: nat)
    requires 0 < RuneLen(s) <= i <= |s|
    ensures RuneLen(s[..i]) == RuneLen(s)
  {
    assert forall j :: 0 <= j < i ==> s[..i][j] == s[j];
    assert Conts(s, RuneLen(s) - 1) ==> Conts(s[..i], RuneLen(s) - 1);
  }

  lemma RuneBytes(s: string)
    requires RuneLen(s) > 0
    ensures !IsCont(s[0]) && forall j :: 1 <= j < RuneLen(s) ==> IsCont(s[j])
    ensures RuneLen(s) <= 4
  {
  }

  /** On well-formed text the byte test finds exactly the cuts that leave two
      well-formed pieces. */
  lemma {:induction false} BoundarySplits(s: string, i: nat)
    requires Valid(s) && i <= |s|
    ensures Boundary(s, i) <==> Valid(s[..i]) && Valid(s[i..])
    decreases |s|
  {
    hide RuneLen, IsCont;
    var n := RuneLen(s);
    if i == 0 {
      assert s[..0] == [] && s[0..] == s;
    } else if i == |s| {
      assert s[..i] == s && s[i..] == [];
    } else if i < n {
      RuneBytes(s);
      if Valid(s[i..]) { RuneBytes(s[i..]); }
    } else {
      RuneCut(s, i);
      assert s[..i][n..] == s[n..][..i - n];
      assert s[i..] == s[n..][i - n..];
      if i == n {
        assert s[..n][n..] == [];
        if n < |s| { RuneBytes(s[n..]); }
      }
      BoundarySplits(s[n..], i - n);
    }
  }

  /** A continuation byte is at most three bytes behind the head of its rune. */
  lemma {:induction false} BoundaryNear(s: string, i: nat) returns (j: nat)
    requires Valid(s) && i <= |s|
    ensures j <= i && i - j <= 3 && Boundary(s, j)
    decreases |s|
  {
    hide RuneLen, IsCont;
    var n := RuneLen(s);
    if s == [] || i < n {
      if s != [] { RuneBytes(s); }
      j := 0;
    } else if i == n {
      if n < |s| { RuneBytes(s[n..]); }
      j := n;
    } else {
      var k := BoundaryNear(s[n..], i - n);
      j := n + k;
      if k == 0 { RuneBytes(s[n..]); }
    }
  }
}
