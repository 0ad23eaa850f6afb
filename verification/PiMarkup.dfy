/** Structural layer of the Pi text sanitiser: `call:name{...}` and
    `response:name{...}` markup.  A Go string is a byte string; here each char
    of a `string` stands for one byte. */
module PiMarkup {
  import opened Wrappers

  const CALL := "call:"
  const RESPONSE := "response:"
  const QUOTE := "<|\"|>"
  const CLOSING := "<tool_call|>"

  predicate IsNameByte(c: char) {
    'a' <= c <= 'z' || 'A' <= c <= 'Z' || '0' <= c <= '9' || c == '_' || c == '-'
  }

  /** Length of the longest prefix of name bytes. */
  function NameLen(s: string): (n: nat)
    ensures n <= |s|
  {
    if s != [] && IsNameByte(s[0]) then 1 + NameLen(s[1..]) else 0
  }

  /** Length of the markup prefix at the head of `s`, 0 if there is none. */
  function MarkupLen(s: string): (n: nat)
    ensures n <= |s|
  {
    if CALL <= s then |CALL| else if RESPONSE <= s then |RESPONSE| else 0
  }

  /** Index of the first markup prefix in `s`, |s| if there is none. */
  function FindMarkup(s: string): (k: nat)
    ensures k <= |s|
  {
    if s == [] || MarkupLen(s) > 0 then 0 else 1 + FindMarkup(s[1..])
  }

  lemma {:induction false} FindMarkupFirst(s: string)
    ensures var k := FindMarkup(s); k < |s| ==> MarkupLen(s[k..]) > 0
    ensures forall i :: 0 <= i < FindMarkup(s) ==> MarkupLen(s[i..]) == 0
  {
    assert s[0..] == s;
    if s != [] && MarkupLen(s) == 0 {
      FindMarkupFirst(s[1..]);
      forall i | 0 <= i < |s| ensures s[1..][i..] == s[i + 1..] {}
      forall i | 0 <= i < FindMarkup(s) ensures MarkupLen(s[i..]) == 0 {
        if i > 0 { assert MarkupLen(s[1..][i - 1..]) == 0; }
      }
    }
  }

  /** The brace scan: bytes consumed up to and including the `}` that brings
      `depth` back to zero outside a quoted stretch. */
  function ScanBraces(s: string, depth: int, inQuote: bool): (r: Option<nat>)
    ensures r.Some? ==> 0 < r.value <= |s|
    decreases |s|
  {
    if s == [] then None
    else if QUOTE <= s then Shift(5, ScanBraces(s[5..], depth, !inQuote))
    else if !inQuote && s[0] == '}' && depth == 1 then Some(1)
    else
      var d := if inQuote then depth else if s[0] == '{' then depth + 1 else if s[0] == '}' then depth - 1 else depth;
      Shift(1, ScanBraces(s[1..], d, inQuote))
  }

  function Shift(n: nat, r: Option<nat>): Option<nat> {
    match r case None => None case Some(v) => Some(n + v)
  }

  /** Length of the whole call at the head of `s` (prefix, name, braces, and a
      directly following closing tag), None while it is malformed or open. */
  function CallLen(s: string): (r: Option<nat>)
    ensures r.Some? ==> 0 < r.value <= |s|
  {
    var b := BodyLen(s[MarkupLen(s)..]);
    if b.None? then None
    else Some(WithClosing(s, MarkupLen(s) + b.value))
  }

  /** Name and braces, without the closing tag. */
  function BodyLen(s: string): (r: Option<nat>)
    ensures r.Some? ==> 0 < r.value <= |s|
  {
    var n := NameLen(s);
    if n == 0 || n >= |s| || s[n] != '{' then None else Shift(n, ScanBraces(s[n..], 0, false))
  }

  function WithClosing(s: string, n: nat): (m: nat)
    requires n <= |s|
    ensures n <= m <= |s|
  {
    if CLOSING <= s[n..] then n + |CLOSING| else n
  }

  /** What the batch function keeps of `s`. */
  function Strip(s: string): string
    decreases |s|
  {
    var k := FindMarkup(s);
    if k == |s| then s
    else match CallLen(s[k..])
      case None => s
      case Some(n) => s[..k] + Strip(s[k + n..])
  }

  /** A nonempty proper prefix of one of the two markup prefixes. */
  predicate IsPartial(s: string) {
    s != [] && (s < CALL || s < RESPONSE)
  }

  predicate IsRunByte(c: char) {
    IsNameByte(c) || c == '|' || c == '>'
  }

  /** `<` and at most 63 further token bytes. */
  predicate IsTokenPrefix(s: string) {
    0 < |s| <= 64 && s[0] == '<' && forall i :: 1 <= i < |s| ==> IsRunByte(s[i])
  }

  /** Length of the longest suffix that may still turn into markup. */
  function Held(s: string): (h: nat)
    ensures h <= |s|
  {
    if s == [] then 0
    else if IsPartial(s) || IsTokenPrefix(s) then |s|
    else Held(s[1..])
  }

  /** One incremental pass: (text released, text held back). */
  function Drain(s: string): (string, string)
    decreases |s|
  {
    var k := FindMarkup(s);
    if k == |s| then (s[..|s| - Held(s)], s[|s| - Held(s)..])
    else match CallLen(s[k..])
      case None => (s[..k], s[k..])
      case Some(n) =>
        var (e, p) := Drain(s[k + n..]);
        (s[..k] + e, p)
  }
}
