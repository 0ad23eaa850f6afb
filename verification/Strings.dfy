/** Small pieces of Go's `strings` and of line splitting. */
module Strings {
  predicate IsSpace(c: char) { c == ' ' || c == '\t' || c == '\n' || c == '\r' || c == 11 as char || c == 12 as char }

  function TrimLeft(s: string): (r: string)
    ensures |r| <= |s|
  {
    if s != [] && IsSpace(s[0]) then TrimLeft(s[1..]) else s
  }

  function TrimRight(s: string): (r: string)
    ensures |r| <= |s|
  {
    if s != [] && IsSpace(s[|s| - 1]) then TrimRight(s[..|s| - 1]) else s
  }

  /** strings.TrimSpace on ASCII white space. */
  function TrimSpace(s: string): string { TrimRight(TrimLeft(s)) }

  predicate Blank(s: string) { forall c :: c in s ==> c in {' ', '\t', '\n', '\r', 11 as char, 12 as char} }

  /** The two differ at most in the case of letters; `w` has small ones only. */
  predicate SameWord(v: string, w: string) {
    |v| == |w| && forall i :: 0 <= i < |v| ==> v[i] == w[i] || ('a' <= w[i] <= 'z' && v[i] as nat + 32 == w[i] as nat)
  }

  /** `s` is the word in any case and with any white space around it. */
  ghost predicate Says(s: string, word: string) {
    exists p, v, q :: s == p + v + q && Blank(p) && Blank(q) && SameWord(v, word)
  }

  function ToLowerChar(c: char): char {
    if 'A' <= c <= 'Z' then c + 32 as char else c
  }

  /** strings.ToLower on ASCII letters. */
  function ToLower(s: string): (r: string)
    ensures |r| == |s|
  {
    seq(|s|, i requires 0 <= i < |s| => ToLowerChar(s[i]))
  }

  lemma {:induction false} TrimLeftIs(s: string)
    ensures s == s[..|s| - |TrimLeft(s)|] + TrimLeft(s) && Blank(s[..|s| - |TrimLeft(s)|])
    ensures TrimLeft(s) != "" ==> !IsSpace(TrimLeft(s)[0])
  {
    if s != "" && IsSpace(s[0]) {
      TrimLeftIs(s[1..]);
      var n := |s| - |TrimLeft(s)|;
      assert s[..n] == [s[0]] + s[1..][..n - 1];
    }
  }

  lemma {:induction false} TrimRightIs(s: string)
    ensures TrimRight(s) <= s && Blank(s[|TrimRight(s)|..])
    ensures var r := TrimRight(s); r != "" ==> !IsSpace(r[|r| - 1])
  {
    if s != "" && IsSpace(s[|s| - 1]) {
      var t := s[..|s| - 1];
      TrimRightIs(t);
      assert s[|TrimRight(s)|..] == t[|TrimRight(t)|..] + [s[|s| - 1]];
    }
  }

  /** What is left after trimming is the text without the white space at its ends. */
  lemma TrimSpaceIs(s: string) returns (p: string, q: string)
    ensures s == p + TrimSpace(s) + q && Blank(p) && Blank(q)
    ensures var r := TrimSpace(s); r != "" ==> !IsSpace(r[0]) && !IsSpace(r[|r| - 1])
  {
    TrimLeftIs(s);
    hide TrimLeft, TrimRight, Blank, IsSpace;
    var t := TrimLeft(s);
    TrimRightIs(t);
    p, q := s[..|s| - |t|], t[|TrimRight(t)|..];
    assert t == TrimRight(t) + q;
    assert p + t == p + TrimRight(t) + q;
  }

  /** The middle part between white space is unique when it neither begins nor
      ends with any. */
  lemma {:induction false} MiddleUnique(p: string, v: string, q: string, p': string, v': string, q': string)
    requires p + v + q == p' + v' + q' && Blank(p) && Blank(q) && Blank(p') && Blank(q')
    requires v != "" ==> !IsSpace(v[0]) && !IsSpace(v[|v| - 1])
    requires v' != "" && !IsSpace(v'[0]) && !IsSpace(v'[|v'| - 1])
    ensures v == v'
  {
    var s := p + v + q;
    assert s == p' + v' + q';
    assert s[|p'|] == v'[0] && s[|p'| + |v'| - 1] == v'[|v'| - 1];
    assert forall i :: 0 <= i < |p| ==> s[i] in p;
    assert forall i :: |p| + |v| <= i < |s| ==> s[i] == q[i - |p| - |v|] && s[i] in q;
    if v != "" {
      assert s[|p|] == v[0] && s[|p| + |v| - 1] == v[|v| - 1];
      assert forall i :: 0 <= i < |p'| ==> s[i] in p';
      assert forall i :: |p'| + |v'| <= i < |s| ==> s[i] == q'[i - |p'| - |v'|] && s[i] in q';
      assert |p| == |p'| && |q| == |q'|;
      assert v == s[|p|..|p| + |v|] && v' == s[|p|..|p| + |v|];
    }
  }

  /** Comparing after trimming and lowering is comparing up to case and white space. */
  lemma TrimLowerIs(s: string, word: string)
    requires word != "" && forall i :: 0 <= i < |word| ==> 'a' <= word[i] <= 'z' || word[i] == '_'
    ensures ToLower(TrimSpace(s)) == word <==> Says(s, word)
  {
    hide TrimSpace;
    var p, q := TrimSpaceIs(s);
    var v := TrimSpace(s);
    LowerIs(v, word);
    if Says(s, word) {
      var p', v', q' :| s == p' + v' + q' && Blank(p') && Blank(q') && SameWord(v', word);
      assert word[0] == word[0] && word[|word| - 1] == word[|word| - 1];
      MiddleUnique(p, v, q, p', v', q');
    }
  }

  lemma LowerIs(v: string, word: string)
    requires forall i :: 0 <= i < |word| ==> 'a' <= word[i] <= 'z' || word[i] == '_'
    ensures ToLower(v) == word <==> SameWord(v, word)
  {
    if SameWord(v, word) {
      assert forall i :: 0 <= i < |v| ==> ToLower(v)[i] == word[i];
    }
    if ToLower(v) == word {
      forall i | 0 <= i < |v|
        ensures v[i] == word[i] || ('a' <= word[i] <= 'z' && v[i] as nat + 32 == word[i] as nat)
      {
        assert ToLower(v)[i] == word[i];
      }
    }
  }

  lemma TrimmedStays(u: string)
    requires u != "" ==> !IsSpace(u[0]) && !IsSpace(u[|u| - 1])
    ensures TrimSpace(u) == u
  {
  }

  lemma TrimBlank(s: string)
    ensures TrimSpace(s) == "" <==> Blank(s)
  {
    hide TrimSpace;
    var p, q := TrimSpaceIs(s);
    var r := TrimSpace(s);
    assert r != "" ==> s[|p|] == r[0] && s[|p|] in s;
  }

  /** strings.HasPrefix(t, p) */
  predicate StartsWith(t: string, p: string) { |p| <= |t| && t[..|p|] == p }

  /** The pieces put together. */
  function Concat(ps: seq<string>): string {
    if ps == [] then "" else ps[0] + Concat(ps[1..])
  }
}
