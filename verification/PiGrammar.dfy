/** The calls that the sanitiser removes, as a grammar: a prefix, a name, and
    braces that balance outside quoted stretches. */
module PiGrammar {
  import opened Wrappers
  import opened PiMarkup

  const MARK := "<|\"|>"

  /** What can stand between braces: a byte, a quoted stretch, or braces again. */
  datatype Piece = Byte(c: char) | Quote(text: string) | Braces(inner: Pieces)
  datatype Pieces = Nil | Cons(head: Piece, tail: Pieces)

  function PieceText(p: Piece): string {
    match p
    case Byte(c) => [c]
    case Quote(text) => MARK + text + MARK
    case Braces(inner) => "{" + Text(inner) + "}"
  }

  function Text(ps: Pieces): string {
    match ps
    case Nil => ""
    case Cons(p, rest) => PieceText(p) + Text(rest)
  }

  /** The first mark in `text + MARK` is the one at its end. */
  predicate NoMark(text: string) {
    forall i :: 0 <= i < |text| ==> !(MARK <= (text + MARK)[i..])
  }

  /** The piece stands for itself in front of `after`: no byte is a brace or
      begins a mark, and quoted stretches end at their first mark. */
  predicate PieceIn(p: Piece, after: string)
    decreases p
  {
    match p
    case Byte(c) => c != '{' && c != '}' && !(MARK <= [c] + after)
    case Quote(text) => NoMark(text)
    case Braces(inner) => In(inner, "}" + after)
  }

  predicate In(ps: Pieces, after: string)
    decreases ps
  {
    ps.Cons? ==> PieceIn(ps.head, Text(ps.tail) + after) && In(ps.tail, after)
  }

  /** What closes a number of open braces. */
  function Closers(stack: seq<Pieces>): string {
    if stack == [] then "" else Text(stack[0]) + ("}" + Closers(stack[1..]))
  }

  predicate AllIn(stack: seq<Pieces>, after: string) {
    stack != [] ==> In(stack[0], "}" + (Closers(stack[1..]) + after)) && AllIn(stack[1..], after)
  }

  // ---------- what the scan finds is balanced ----------

  /** A scan that is inside a quoted stretch goes on behind the next mark. */
  lemma {:induction false} QuoteEnds(s: string, depth: int) returns (k: nat)
    requires ScanBraces(s, depth, true).Some?
    ensures k + 5 <= |s| && MARK <= s[k..] && NoMark(s[..k])
    ensures ScanBraces(s, depth, true) == Shift(k + 5, ScanBraces(s[k + 5..], depth, false))
    decreases |s|
  {
    if MARK <= s {
      k := 0;
      assert s[0..] == s;
    } else {
      var j := QuoteEnds(s[1..], depth);
      k := j + 1;
      assert s[1..][j..] == s[k..] && s[1..][j + 5..] == s[k + 5..];
      NoMarkOneMore(s, k);
    }
  }

  lemma NoMarkOneMore(s: string, k: nat)
    requires 0 < k && k + 5 <= |s| && MARK <= s[k..] && !(MARK <= s) && NoMark(s[1..][..k - 1])
    ensures NoMark(s[..k])
  {
    var t := s[..k];
    assert s[1..][..k - 1] == t[1..];
    assert t + MARK == s[..k + 5];
    assert (t + MARK)[..5] == s[..5] && (t + MARK)[0..] == t + MARK;
    forall i | 0 < i < k
      ensures !(MARK <= (t + MARK)[i..])
    {
      assert (t[1..] + MARK)[i - 1..] == (t + MARK)[i..];
    }
  }

  /** What the head of the text makes of a scan outside quotes. */
  lemma ScanCases(s: string, depth: nat, n: nat)
    requires depth >= 1 && ScanBraces(s, depth, false) == Some(n)
    ensures s != "" && 0 < n <= |s|
    ensures MARK <= s ==> n > 5 && ScanBraces(s[5..], depth, true) == Some(n - 5)
    ensures !(MARK <= s) && s[0] == '}' && depth == 1 ==> n == 1
    ensures !(MARK <= s) && s[0] == '}' && depth > 1 ==> n > 1 && ScanBraces(s[1..], depth - 1, false) == Some(n - 1)
    ensures !(MARK <= s) && s[0] == '{' ==> n > 1 && ScanBraces(s[1..], depth + 1, false) == Some(n - 1)
    ensures !(MARK <= s) && s[0] != '{' && s[0] != '}' ==> n > 1 && ScanBraces(s[1..], depth, false) == Some(n - 1)
  {
  }

  lemma SplitAt(s: string, k: nat, n: nat)
    requires k <= n <= |s|
    ensures s[..n] == s[..k] + s[k..][..n - k] && s[k..][n - k..] == s[n..]
  {
  }

  /** From a scan at some depth: the closers it went through. */
  lemma {:induction false} ScanCloses(s: string, depth: nat, n: nat) returns (stack: seq<Pieces>)
    requires depth >= 1 && ScanBraces(s, depth, false) == Some(n)
    ensures |stack| == depth && n <= |s|
    ensures s[..n] == Closers(stack) && AllIn(stack, s[n..])
    decreases |s|
  {
    hide *;
    ScanCases(s, depth, n);
    if MARK <= s {
      stack := QuoteCloses(s, depth, n);
    } else {
      SplitAt(s, 1, n);
      var u := s[1..];
      if s[0] == '}' && depth == 1 {
        stack := [Nil] + [];
        CloserOnly([], s[1..]);
        assert s[..1] == "}" && "}" + "" == "}";
      } else if s[0] == '}' {
        var below := ScanCloses(u, depth - 1, n - 1);
        stack := [Nil] + below;
        CloserOnly(below, s[n..]);
      } else if s[0] == '{' {
        var below := ScanCloses(u, depth + 1, n - 1);
        stack := PushBraces(below, s[n..]);
      } else {
        var below := ScanCloses(u, depth, n - 1);
        ByteIn(s[0], u);
        assert u == u[..n - 1] + u[n - 1..] && s == [s[0]] + u;
        stack := PushPiece(Byte(s[0]), below, s[n..]);
      }
    }
  }

  lemma {:induction false} QuoteCloses(s: string, depth: nat, n: nat) returns (stack: seq<Pieces>)
    requires depth >= 1 && MARK <= s && n > 5 && ScanBraces(s[5..], depth, true) == Some(n - 5)
    ensures |stack| == depth && n <= |s|
    ensures s[..n] == Closers(stack) && AllIn(stack, s[n..])
    decreases |s|, 0
  {
    hide ScanBraces, Closers, AllIn, In, Text, PieceIn, PieceText, NoMark, Shift;
    var k := QuoteEnds(s[5..], depth);
    var u := s[k + 10..];
    assert s[5..][k + 5..] == u;
    ShiftIs(k + 5, ScanBraces(u, depth, false), n - 5);
    var below := ScanCloses(u, depth, n - k - 10);
    SplitAt(s, k + 10, n);
    assert u == u[..n - k - 10] + u[n - k - 10..];
    QuoteIn(s[5..][..k], u);
    stack := PushPiece(Quote(s[5..][..k]), below, s[n..]);
    assert s[..k + 10] == s[..5] + s[5..][..k] + s[5..][k..][..5];
    assert s[..5] == MARK && s[5..][k..][..5] == MARK;
  }

  lemma ShiftIs(k: nat, r: Option<nat>, n: nat)
    requires Shift(k, r) == Some(n)
    ensures r.Some? && n == k + r.value
  {
  }

  lemma ByteIn(c: char, after: string)
    ensures PieceIn(Byte(c), after) <==> c != '{' && c != '}' && !(MARK <= [c] + after)
    ensures PieceText(Byte(c)) == [c]
  {
  }

  lemma QuoteIn(text: string, after: string)
    ensures PieceIn(Quote(text), after) <==> NoMark(text)
    ensures PieceText(Quote(text)) == MARK + text + MARK
  {
  }

  lemma CloserOnly(below: seq<Pieces>, after: string)
    ensures Closers([Nil] + below) == "}" + Closers(below)
    ensures AllIn(below, after) ==> AllIn([Nil] + below, after)
    ensures Closers([]) == "" && AllIn([], after)
  {
    assert ([Nil] + below)[1..] == below;
    assert "" + ("}" + Closers(below)) == "}" + Closers(below);
  }

  /** One more piece in the innermost braces. */
  lemma PushPiece(p: Piece, below: seq<Pieces>, after: string) returns (stack: seq<Pieces>)
    requires below != [] && AllIn(below, after) && PieceIn(p, Closers(below) + after)
    ensures |stack| == |below| && Closers(stack) == PieceText(p) + Closers(below) && AllIn(stack, after)
  {
    hide PieceText, PieceIn;
    stack := [Cons(p, below[0])] + below[1..];
    assert stack[1..] == below[1..];
    var rest := "}" + (Closers(below[1..]) + after);
    assert Closers(below) + after == Text(below[0]) + rest;
    assert PieceText(p) + Text(below[0]) + ("}" + Closers(below[1..])) == PieceText(p) + Closers(below);
  }

  /** The innermost braces are closed and become a piece of those around them. */
  lemma PushBraces(below: seq<Pieces>, after: string) returns (stack: seq<Pieces>)
    requires |below| >= 2 && AllIn(below, after)
    ensures |stack| == |below| - 1 && Closers(stack) == "{" + Closers(below) && AllIn(stack, after)
  {
    hide In, Text;
    var outer := below[1..];
    assert In(below[0], "}" + (Closers(outer) + after)) && AllIn(outer, after);
    BracesIn(below[0], Closers(outer) + after);
    stack := PushPiece(Braces(below[0]), outer, after);
    assert PieceText(Braces(below[0])) + Closers(outer) == "{" + (Text(below[0]) + ("}" + Closers(outer)));
  }

  lemma BracesIn(inner: Pieces, after: string)
    ensures PieceIn(Braces(inner), after) == In(inner, "}" + after)
    ensures PieceText(Braces(inner)) == "{" + Text(inner) + "}"
  {
  }

  // ---------- what is balanced the scan finds ----------

  function PieceSize(p: Piece): nat {
    match p
    case Byte(_) => 1
    case Quote(_) => 1
    case Braces(inner) => 2 + Size(inner)
  }

  function Size(ps: Pieces): nat { if ps.Nil? then 0 else PieceSize(ps.head) + Size(ps.tail) }

  function StackSize(stack: seq<Pieces>): nat {
    if stack == [] then 0 else Size(stack[0]) + 1 + StackSize(stack[1..])
  }

  lemma {:induction false} ScanQuoted(text: string, rest: string, depth: int)
    requires NoMark(text)
    ensures ScanBraces(text + MARK + rest, depth, true) == Shift(|text| + 5, ScanBraces(rest, depth, false))
    decreases |text|
  {
    var s := text + MARK + rest;
    if text == "" {
      assert s[..5] == MARK && s[5..] == rest;
    } else {
      assert s == (text + MARK) + rest;
      assert (text + MARK)[0..] == text + MARK;
      assert (text + MARK)[..5] == s[..5];
      assert s[1..] == text[1..] + MARK + rest;
      forall i | 0 <= i < |text| - 1
        ensures !(MARK <= (text[1..] + MARK)[i..])
      {
        assert (text[1..] + MARK)[i..] == (text + MARK)[i + 1..];
      }
      ScanQuoted(text[1..], rest, depth);
    }
  }

  lemma {:induction false} ClosesScan(stack: seq<Pieces>, after: string)
    requires stack != [] && AllIn(stack, after)
    ensures ScanBraces(Closers(stack) + after, |stack|, false) == Some(|Closers(stack)|)
    decreases StackSize(stack)
  {
    hide AllIn, Closers, In, Text, ScanBraces, PieceIn, PieceText;
    var ps, outer := stack[0], stack[1..];
    if ps.Nil? {
      CloserFirst(stack, after);
      if outer != [] { ClosesScan(outer, after); }
      ScanCloser(Closers(outer) + after, |stack|);
    } else {
      PieceFirst(stack, after);
      var below := [ps.tail] + outer;
      assert below[1..] == outer && below[0] == ps.tail;
      assert Closers(stack) + after == PieceText(ps.head) + (Closers(below) + after);
      match ps.head {
        case Byte(c) =>
          ClosesScan(below, after);
          ScanByte(c, Closers(below) + after, |stack|);
        case Quote(text) =>
          ClosesScan(below, after);
          ScanQuote(text, Closers(below) + after, |stack|);
        case Braces(inner) =>
          var deeper := [inner] + below;
          assert deeper[1..] == below && deeper[0] == inner;
          BracesOpen(inner, below, after);
          assert Closers(stack) + after == "{" + (Closers(deeper) + after);
          ClosesScan(deeper, after);
          ScanOpener(Closers(deeper) + after, |stack|);
      }
    }
  }

  /** What is left of the stack behind its first closer, or its first piece. */
  lemma CloserFirst(stack: seq<Pieces>, after: string)
    requires stack != [] && AllIn(stack, after) && stack[0].Nil?
    ensures var outer := stack[1..];
            && Closers(stack) + after == "}" + (Closers(outer) + after) && AllIn(outer, after)
            && |Closers(stack)| == 1 + |Closers(outer)| && StackSize(outer) < StackSize(stack)
            && (outer == [] ==> Closers(outer) == "")
  {
    hide PieceIn, PieceText;
    assert "" + ("}" + Closers(stack[1..])) == "}" + Closers(stack[1..]);
  }

  lemma PieceFirst(stack: seq<Pieces>, after: string)
    requires stack != [] && AllIn(stack, after) && stack[0].Cons?
    ensures var ps := stack[0];
            var below := [ps.tail] + stack[1..];
            && Closers(stack) == PieceText(ps.head) + Closers(below) && AllIn(below, after)
            && PieceIn(ps.head, Closers(below) + after)
            && StackSize(stack) == PieceSize(ps.head) + StackSize(below)
  {
    hide PieceIn, PieceText, PieceSize;
    var ps, outer := stack[0], stack[1..];
    var below := [ps.tail] + outer;
    assert below[1..] == outer && below[0] == ps.tail;
    var rest := "}" + (Closers(outer) + after);
    assert Closers(below) + after == Text(ps.tail) + rest;
    assert Closers(stack) == PieceText(ps.head) + Text(ps.tail) + ("}" + Closers(outer));
  }

  lemma BracesOpen(inner: Pieces, below: seq<Pieces>, after: string)
    requires AllIn(below, after) && PieceIn(Braces(inner), Closers(below) + after)
    ensures var deeper := [inner] + below;
            && AllIn(deeper, after) && StackSize(deeper) == Size(inner) + 1 + StackSize(below)
            && PieceText(Braces(inner)) + Closers(below) == "{" + Closers(deeper)
  {
    hide In, Text;
    var deeper := [inner] + below;
    assert deeper[1..] == below && deeper[0] == inner;
    BracesIn(inner, Closers(below) + after);
    assert "{" + Text(inner) + "}" + Closers(below) == "{" + (Text(inner) + ("}" + Closers(below)));
  }

  lemma ScanCloser(rest: string, depth: nat)
    requires depth >= 1
    ensures ScanBraces("}" + rest, depth, false)
         == if depth == 1 then Some(1) else Shift(1, ScanBraces(rest, depth - 1, false))
  {
    var s := "}" + rest;
    assert s[0] == '}' && MARK[0] == '<' && s[1..] == rest;
  }

  lemma ScanOpener(rest: string, depth: nat)
    ensures ScanBraces("{" + rest, depth, false) == Shift(1, ScanBraces(rest, depth + 1, false))
  {
    var s := "{" + rest;
    assert s[0] == '{' && MARK[0] == '<' && s[1..] == rest;
  }

  lemma ScanByte(c: char, rest: string, depth: nat)
    requires PieceIn(Byte(c), rest)
    ensures |PieceText(Byte(c))| == 1
    ensures ScanBraces(PieceText(Byte(c)) + rest, depth, false) == Shift(1, ScanBraces(rest, depth, false))
  {
    assert ([c] + rest)[1..] == rest;
  }

  lemma ScanQuote(text: string, rest: string, depth: nat)
    requires PieceIn(Quote(text), rest)
    ensures ScanBraces(PieceText(Quote(text)) + rest, depth, false)
         == Shift(|PieceText(Quote(text))|, ScanBraces(rest, depth, false))
  {
    var s := PieceText(Quote(text)) + rest;
    assert s == MARK + (text + MARK + rest);
    assert s[..5] == MARK && s[5..] == text + MARK + rest;
    ScanQuoted(text, rest, depth);
  }

  // ---------- calls ----------

  predicate NameByte(c: char) {
    65 <= c as int <= 90 || 97 <= c as int <= 122 || 48 <= c as int <= 57 || c as int == 95 || c as int == 45
  }

  predicate IsName(name: string) { name != "" && forall i :: 0 <= i < |name| ==> NameByte(name[i]) }

  /** The call up to its last brace, behind the prefix. */
  function CallText(prefix: string, name: string, ps: Pieces): string { prefix + name + "{" + Text(ps) + "}" }

  /** `s` begins with this call and, where there is one, a closing tag, and the two
      together are `n` bytes long. */
  predicate BeginsWithCall(s: string, n: nat, prefix: string, name: string, ps: Pieces) {
    var call := CallText(prefix, name, ps);
    && prefix in {"call:", "response:"} && IsName(name) && call <= s
    && In(ps, "}" + s[|call|..])
    && n == |call| + if "<tool_call|>" <= s[|call|..] then 12 else 0
  }

  lemma {:induction false} NameIs(name: string, rest: string)
    requires (forall i :: 0 <= i < |name| ==> NameByte(name[i])) && (rest == "" || !NameByte(rest[0]))
    ensures NameLen(name + rest) == |name|
  {
    if name == "" {
      assert name + rest == rest;
    } else {
      assert (name + rest)[1..] == name[1..] + rest;
      NameIs(name[1..], rest);
    }
  }

  lemma {:induction false} NameFound(s: string)
    ensures forall i :: 0 <= i < NameLen(s) ==> NameByte(s[i])
  {
    if s != "" && IsNameByte(s[0]) { NameFound(s[1..]); }
  }

  lemma PrefixIs(s: string)
    ensures MarkupLen(s) > 0 <==> "call:" <= s || "response:" <= s
    ensures "call:" <= s ==> MarkupLen(s) == 5 && !("response:" <= s)
    ensures "response:" <= s ==> MarkupLen(s) == 9
  {
    if "call:" <= s { assert s[0] == 'c'; }
    if "response:" <= s { assert s[0] == 'r'; }
  }

  /** Name and braces behind the prefix. */
  lemma BodyFound(t: string, b: nat) returns (name: string, ps: Pieces)
    requires BodyLen(t) == Some(b)
    ensures IsName(name) && t[..b] == name + "{" + Text(ps) + "}" && In(ps, "}" + t[b..])
  {
    hide ScanBraces, In, Text, NameLen, NameByte;
    var k := NameLen(t);
    NameFound(t);
    name := t[..k];
    OpenScan(t[k..]);
    var u := t[k..][1..];
    var n := ScanBraces(u, 1, false).value;
    var stack := ScanCloses(u, 1, n);
    ps := stack[0];
    OneCloser(stack, u[n..]);
    assert u[n..] == t[b..] && t[k..][0] == '{';
    assert t[..b] == t[..k] + "{" + u[..n];
  }

  lemma CallFound(s: string, n: nat) returns (prefix: string, name: string, ps: Pieces)
    requires MarkupLen(s) > 0 && CallLen(s) == Some(n)
    ensures BeginsWithCall(s, n, prefix, name, ps)
  {
    hide BodyLen, In, Text, MarkupLen, IsName;
    PrefixIs(s);
    var m := MarkupLen(s);
    prefix := if m == 5 then "call:" else "response:";
    var t := s[m..];
    var b := BodyLen(t).value;
    name, ps := BodyFound(t, b);
    assert prefix == s[..m];
    CallFits(s, prefix, t, b, name, ps);
  }

  lemma CallFits(s: string, prefix: string, t: string, b: nat, name: string, ps: Pieces)
    requires s == prefix + t && b <= |t| && t[..b] == name + "{" + Text(ps) + "}"
    ensures var call := CallText(prefix, name, ps);
            call <= s && |call| == |prefix| + b && s[|call|..] == t[b..]
  {
    hide Text;
    var call := CallText(prefix, name, ps);
    assert call == prefix + t[..b];
    assert s[..|prefix| + b] == prefix + t[..b];
  }

  lemma OpenScan(t: string)
    requires t != "" && t[0] == '{' && ScanBraces(t, 0, false).Some?
    ensures ScanBraces(t[1..], 1, false).Some?
    ensures ScanBraces(t, 0, false).value == 1 + ScanBraces(t[1..], 1, false).value
  {
    assert t == "{" + t[1..];
    ScanOpener(t[1..], 0);
  }

  lemma OneCloser(stack: seq<Pieces>, after: string)
    requires |stack| == 1
    ensures Closers(stack) == Text(stack[0]) + "}"
    ensures AllIn(stack, after) <==> In(stack[0], "}" + after)
  {
    hide In;
    assert stack[1..] == [] && Closers([]) == "";
    assert "}" + "" == "}" && "" + after == after;
    assert AllIn(stack[1..], after);
  }

  lemma BodyReads(name: string, ps: Pieces, after: string)
    requires IsName(name) && In(ps, "}" + after)
    ensures BodyLen(name + ("{" + (Text(ps) + "}" + after))) == Some(|name + "{" + Text(ps) + "}"|)
  {
    hide ScanBraces, In, Text, NameLen;
    var braces := "{" + (Text(ps) + "}" + after);
    var t := name + braces;
    NameIs(name, braces);
    OneCloser([ps], after);
    ClosesScan([ps], after);
    ScanOpener(Text(ps) + "}" + after, 0);
    assert t[|name|..] == braces;
  }

  lemma CallReads(s: string, n: nat, prefix: string, name: string, ps: Pieces)
    requires BeginsWithCall(s, n, prefix, name, ps)
    ensures MarkupLen(s) > 0 && CallLen(s) == Some(n)
  {
    hide BodyLen, In, Text, MarkupLen, IsName, CallText;
    var call := CallText(prefix, name, ps);
    var after := s[|call|..];
    var t := name + ("{" + (Text(ps) + "}" + after));
    CallParts(s, prefix, name, ps);
    BodyReads(name, ps, after);
    PrefixIs(s);
  }

  lemma CallParts(s: string, prefix: string, name: string, ps: Pieces)
    requires CallText(prefix, name, ps) <= s
    ensures var call := CallText(prefix, name, ps);
            && |call| == |prefix| + |name + "{" + Text(ps) + "}"| && prefix <= s
            && s[|prefix|..] == name + ("{" + (Text(ps) + "}" + s[|call|..]))
  {
    hide Text;
    var call := CallText(prefix, name, ps);
    var after := s[|call|..];
    assert s == call + after;
    assert call + after == prefix + (name + ("{" + (Text(ps) + "}" + after)));
  }

  ghost predicate CallAt(s: string, n: nat) { exists prefix, name, ps :: BeginsWithCall(s, n, prefix, name, ps) }

  /** Exactly such calls are found behind a prefix, in every text. */
  lemma CallExactly(s: string, n: nat)
    ensures MarkupLen(s) > 0 && CallLen(s) == Some(n) <==> CallAt(s, n)
  {
    hide BeginsWithCall, CallLen, MarkupLen;
    if MarkupLen(s) > 0 && CallLen(s) == Some(n) {
      var prefix, name, ps := CallFound(s, n);
    }
    if CallAt(s, n) {
      var prefix, name, ps :| BeginsWithCall(s, n, prefix, name, ps);
      CallReads(s, n, prefix, name, ps);
    }
  }

  predicate PrefixAt(s: string, i: nat)
    requires i <= |s|
  {
    "call:" <= s[i..] || "response:" <= s[i..]
  }

  lemma {:induction false} FirstPrefix(s: string, k: nat)
    requires k < |s| && PrefixAt(s, k) && forall i :: 0 <= i < k ==> !PrefixAt(s, i)
    ensures FindMarkup(s) == k
  {
    hide MarkupLen;
    assert s[0..] == s;
    PrefixIs(s);
    if k > 0 {
      assert !PrefixAt(s, 0);
      assert s[1..][k - 1..] == s[k..];
      forall i | 0 <= i < k - 1
        ensures !PrefixAt(s[1..], i)
      {
        assert s[1..][i..] == s[i + 1..] && !PrefixAt(s, i + 1);
      }
      FirstPrefix(s[1..], k - 1);
    }
  }

  lemma {:induction false} NoPrefix(s: string)
    requires forall i :: 0 <= i < |s| ==> !PrefixAt(s, i)
    ensures FindMarkup(s) == |s|
  {
    hide MarkupLen;
    if s != "" {
      assert s[0..] == s && !PrefixAt(s, 0);
      PrefixIs(s);
      forall i | 0 <= i < |s| - 1
        ensures !PrefixAt(s[1..], i)
      {
        assert s[1..][i..] == s[i + 1..] && !PrefixAt(s, i + 1);
      }
      NoPrefix(s[1..]);
    }
  }

  /** What the batch removal does, in terms of the grammar: a text without a prefix
      stays; the first call goes, and what follows is treated in the same way; a
      prefix that begins no call stops the removal. */
  lemma StripExactly(s: string, k: nat)
    requires k <= |s| && forall i :: 0 <= i < k ==> !PrefixAt(s, i)
    requires k < |s| ==> PrefixAt(s, k)
    ensures k == |s| ==> Strip(s) == s
    ensures forall n: nat :: CallAt(s[k..], n) ==> n <= |s| - k && Strip(s) == s[..k] + Strip(s[k + n..])
    ensures (forall n: nat :: !CallAt(s[k..], n)) ==> Strip(s) == s
  {
    hide CallAt, CallLen, MarkupLen, PrefixAt;
    if k == |s| {
      NoPrefix(s);
      assert s[k..] == "";
      forall n: nat ensures !CallAt(s[k..], n) { NoCallInNothing(n); }
    } else {
      FirstPrefix(s, k);
      MarkedAt(s, k);
      forall n: nat ensures CallAt(s[k..], n) <==> CallLen(s[k..]) == Some(n) { CallExactly(s[k..], n); }
    }
  }

  lemma NoCallInNothing(n: nat)
    ensures !CallAt("", n)
  {
    hide In, Text;
  }

  lemma MarkedAt(s: string, k: nat)
    requires k < |s| && PrefixAt(s, k)
    ensures MarkupLen(s[k..]) > 0
  {
    PrefixIs(s[k..]);
  }
}
