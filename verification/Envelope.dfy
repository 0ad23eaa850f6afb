/** The envelope builder and the per-line size cap (internal/envelope). */
module Envelope {
  import opened Wrappers
  import opened Utf8
  import opened Strings

  const MAX_LINE_BYTES: nat := 0x10_0000
  const TRUNCATION_HEADROOM: nat := 4096
  const BUDGET: nat := MAX_LINE_BYTES - TRUNCATION_HEADROOM
  const ATTEMPTS: nat := 32

  datatype Result<+T> = Ok(value: T) | Err(message: string)

  /** The `input` object of a tool call is represented by its encoded length. */
  datatype MessagePayload = MessagePayload(
    kind: string, content: string, tool: string, callId: string, input: Option<nat>,
    output: string, status: string, level: string, backendSessionId: string)

  /** JSON encoding of string values, by length: at most six bytes per byte
      (section 7 of RFC 8259). */
  datatype Codec = Codec(enc: string -> nat)

  ghost predicate ValidCodec(c: Codec) {
    forall s :: c.enc(s) <= 6 * |s|
  }

  /** An omitempty string member: nothing, or key, quotes, comma and text. */
  function Member(c: Codec, keyLen: nat, s: string): nat {
    if s == "" then 0 else keyLen + 6 + c.enc(s)
  }

  /** Length of the encoded line; `frame` is the outer object and the newline. */
  function LineLen(c: Codec, frame: nat, p: MessagePayload): nat {
    frame + Member(c, 4, p.kind) + Member(c, 4, p.tool) + Member(c, 7, p.callId) + Member(c, 6, p.status)
    + Member(c, 5, p.level) + Member(c, 18, p.backendSessionId)
    + Member(c, 7, p.content) + Member(c, 6, p.output)
    + (match p.input case None => 0 case Some(n) => 9 + n)
  }

  predicate Fits(c: Codec, frame: nat, p: MessagePayload) {
    LineLen(c, frame, p) <= MAX_LINE_BYTES
  }

  /** The payload without its bulk. */
  function Bare(p: MessagePayload): MessagePayload {
    p.(content := "", output := "", input := None)
  }

  // ---------- rune-safe truncation ----------

  /** Largest cut up to `n` that the byte test accepts. */
  function LastBoundary(s: string, n: nat): (i: nat)
    requires n <= |s|
    ensures i <= n && Boundary(s, i)
    ensures forall j :: i < j <= n ==> !Boundary(s, j)
  {
    if Boundary(s, n) then n else LastBoundary(s, n - 1)
  }

  function Truncated(s: string, n: nat): string {
    if n >= |s| then s else s[..LastBoundary(s, n)]
  }

  method SafeTruncateRunes(s: string, n: nat) returns (r: string)
    ensures r == Truncated(s, n)
  {
    if n >= |s| {
      return s;
    }
    if n <= 0 {
      return "";
    }
    var i := n;
    while i > 0
      invariant i <= n && LastBoundary(s, n) == LastBoundary(s, i)
    {
      if Boundary(s, i) {
        return s[..i];
      }
      i := i - 1;
    }
    return "";
  }

  /** The kept text is a prefix, at most `n` bytes unless nothing had to go, at
      most three bytes short of `n`, and it splits no rune. */
  lemma TruncatedPrefix(s: string, n: nat)
    requires Valid(s)
    ensures var r := Truncated(s, n);
            r <= s && Valid(r) && |r| <= n + (if n >= |s| then |s| else 0) && (n < |s| ==> n - 3 <= |r| <= n)
  {
    hide RuneLen, Valid;
    if n < |s| {
      var i := LastBoundary(s, n);
      BoundarySplits(s, i);
      var j := BoundaryNear(s, n);
      assert j <= i;
    }
  }

  // ---------- the shrinking loop ----------

  predicate Exhausted(p: MessagePayload) {
    p.content == "" && p.output == "" && p.input.None?
  }

  function Half(s: string): string {
    var keep := |s| / 2;
    Truncated(s, if keep > BUDGET then BUDGET else keep)
  }

  /** One attempt: content first, then output, then input. */
  function ShrinkOnce(p: MessagePayload): MessagePayload {
    if p.content != "" then p.(content := Half(p.content))
    else if p.output != "" then p.(output := Half(p.output))
    else p.(input := None)
  }

  function Shrink(c: Codec, frame: nat, p: MessagePayload, attempts: nat): MessagePayload
    decreases attempts
  {
    if attempts == 0 || Fits(c, frame, p) || Exhausted(p) then p
    else Shrink(c, frame, ShrinkOnce(p), attempts - 1)
  }

  method ShrinkMessagePayload(c: Codec, frame: nat, p0: MessagePayload) returns (p: MessagePayload)
    ensures p == Shrink(c, frame, p0, ATTEMPTS)
  {
    hide Truncated, Half, LineLen;
    p := p0;
    var attempt := 0;
    while attempt < ATTEMPTS
      invariant attempt <= ATTEMPTS
      invariant Shrink(c, frame, p, ATTEMPTS - attempt) == Shrink(c, frame, p0, ATTEMPTS)
    {
      if LineLen(c, frame, p) <= MAX_LINE_BYTES {
        return;
      }
      ghost var q := p;
      HalfIsTruncated(p.content);
      HalfIsTruncated(p.output);
      if |p.content| > 0 {
        var keep := |p.content| / 2;
        if keep > BUDGET { keep := BUDGET; }
        var t := SafeTruncateRunes(p.content, keep);
        p := p.(content := t);
      } else if |p.output| > 0 {
        var keep := |p.output| / 2;
        if keep > BUDGET { keep := BUDGET; }
        var t := SafeTruncateRunes(p.output, keep);
        p := p.(output := t);
      } else if p.input.Some? {
        p := p.(input := None);
      } else {
        p := p.(content := "", output := "");
        if attempt > 0 {
          return;
        }
      }
      assert !Exhausted(q) ==> p == ShrinkOnce(q);
      assert Exhausted(q) ==> p == q;
      attempt := attempt + 1;
    }
  }

  lemma HalfIsTruncated(s: string)
    ensures Half(s) == Truncated(s, if |s| / 2 > BUDGET then BUDGET else |s| / 2)
  {
  }

  /** What the cap enforcement does to a message envelope, and whether it
      announces a truncation. */
  function Capped(c: Codec, frame: nat, p: MessagePayload): (MessagePayload, bool) {
    if Fits(c, frame, p) then (p, false) else (Shrink(c, frame, p, ATTEMPTS), true)
  }

  method TruncateMessageContent(c: Codec, frame: nat, p: MessagePayload) returns (q: MessagePayload, truncated: bool)
    ensures (q, truncated) == Capped(c, frame, p)
  {
    if LineLen(c, frame, p) <= MAX_LINE_BYTES {
      return p, false;
    }
    q := ShrinkMessagePayload(c, frame, p);
    truncated := true;
  }

  /** Halving keeps a well-formed proper prefix of at most half the length. */
  lemma HalfFacts(s: string)
    requires Valid(s)
    ensures Half(s) <= s && Valid(Half(s)) && |Half(s)| <= |s| / 2 && |Half(s)| <= BUDGET
  {
    hide RuneLen, Valid, LastBoundary;
    if s != "" { TruncatedPrefix(s, if |s| / 2 > BUDGET then BUDGET else |s| / 2); }
  }

  /** Truncation only ever shortens: content and output stay well-formed
      prefixes, output is touched only once content is gone, input only once
      both are, and nothing else changes. */
  lemma {:induction false} ShrinkKeeps(c: Codec, frame: nat, p: MessagePayload, attempts: nat)
    requires Valid(p.content) && Valid(p.output)
    ensures var q := Shrink(c, frame, p, attempts);
            && q.content <= p.content && Valid(q.content)
            && q.output <= p.output && Valid(q.output)
            && (q.output != p.output ==> q.content == "")
            && (q.input != p.input ==> q.input == None && q.content == "" && q.output == "")
            && q == p.(content := q.content, output := q.output, input := q.input)
    decreases attempts
  {
    hide RuneLen, Half, LineLen, Valid;
    if !(attempts == 0 || Fits(c, frame, p) || Exhausted(p)) {
      ValidNil();
      HalfFacts(p.content);
      HalfFacts(p.output);
      ShrinkKeeps(c, frame, ShrinkOnce(p), attempts - 1);
    }
  }

  /** Truncation does not go further than it must: the payload before the last
      cut still did not fit, and that cut kept half of its text, or the whole
      budget, up to a split rune. */
  lemma {:induction false} LastCutNeeded(c: Codec, frame: nat, p: MessagePayload, attempts: nat)
    returns (r: MessagePayload)
    requires Valid(p.content) && Valid(p.output)
    requires Shrink(c, frame, p, attempts) != p
    ensures !Fits(c, frame, r) && Shrink(c, frame, p, attempts) == ShrinkOnce(r)
    ensures r == p.(content := r.content, output := r.output, input := r.input)
    ensures r.content != "" ==>
              |ShrinkOnce(r).content| >= (if |r.content| / 2 > 1_044_480 then 1_044_480 else |r.content| / 2) - 3
    ensures r.content == "" && r.output != "" ==>
              |ShrinkOnce(r).output| >= (if |r.output| / 2 > 1_044_480 then 1_044_480 else |r.output| / 2) - 3
    decreases attempts
  {
    hide RuneLen, Truncated, LineLen, Valid;
    var q := ShrinkOnce(p);
    ValidNil();
    HalfFacts(p.content);
    HalfFacts(p.output);
    if Shrink(c, frame, q, attempts - 1) != q {
      r := LastCutNeeded(c, frame, q, attempts - 1);
    } else {
      r := p;
      HalfLeast(p.content);
      HalfLeast(p.output);
    }
  }

  lemma HalfLeast(s: string)
    requires Valid(s)
    ensures |Half(s)| >= (if |s| / 2 > BUDGET then BUDGET else |s| / 2) - 3
  {
    hide RuneLen, Valid, LastBoundary;
    if s != "" { TruncatedPrefix(s, if |s| / 2 > BUDGET then BUDGET else |s| / 2); }
  }

  lemma ValidNil()
    ensures Valid("")
  {
  }

  function Pow2(n: nat): nat { if n == 0 then 1 else 2 * Pow2(n - 1) }

  lemma {:induction false} ShrinkReaches(c: Codec, frame: nat, p: MessagePayload, m: nat, attempts: nat)
    requires Valid(p.content) && Valid(p.output)
    requires p.content == "" || p.output == ""
    requires |p.content| + |p.output| < Pow2(m) && attempts > m
    requires Fits(c, frame, Bare(p))
    ensures Fits(c, frame, Shrink(c, frame, p, attempts))
    decreases attempts
  {
    hide RuneLen, Half, Valid, LineLen;
    assert Exhausted(p) ==> p == Bare(p);
    if !Fits(c, frame, p) && !Exhausted(p) {
      var q := ShrinkOnce(p);
      assert Bare(q) == Bare(p);
      if p.content == "" && p.output == "" {
        assert q == Bare(p);
      } else {
        ValidNil();
        HalfFacts(p.content);
        HalfFacts(p.output);
        ShrinkReaches(c, frame, q, m - 1, attempts - 1);
      }
    }
  }

  /** With at most one bulk text the cap is met within the 32 attempts, whatever
      the size of the text and the input, exactly when it can be met at all. */
  lemma CapMet(c: Codec, frame: nat, p: MessagePayload)
    requires Valid(p.content) && Valid(p.output)
    requires p.content == "" || p.output == ""
    ensures Fits(c, frame, Capped(c, frame, p).0) <==> Fits(c, frame, Bare(p))
  {
    var q := Capped(c, frame, p).0;
    if Fits(c, frame, Bare(p)) && !Fits(c, frame, p) {
      CapMetShrinking(c, frame, p);
    } else if !Fits(c, frame, Bare(p)) {
      ShrinkKeeps(c, frame, p, ATTEMPTS);
      BareIsLeast(c, frame, q);
      assert Bare(q) == Bare(p);
    }
  }

  lemma BareIsLeast(c: Codec, frame: nat, p: MessagePayload)
    ensures Fits(c, frame, p) ==> Fits(c, frame, Bare(p))
  {
  }

  lemma CapMetShrinking(c: Codec, frame: nat, p: MessagePayload)
    requires Valid(p.content) && Valid(p.output)
    requires p.content == "" || p.output == ""
    requires Fits(c, frame, Bare(p)) && !Fits(c, frame, p)
    ensures Fits(c, frame, Shrink(c, frame, p, ATTEMPTS))
  {
    hide RuneLen, Half, Valid, LineLen, Pow2;
    assert Exhausted(p) ==> p == Bare(p);
    if !Exhausted(p) {
      var q := ShrinkOnce(p);
      assert Bare(q) == Bare(p);
      ValidNil();
      HalfFacts(p.content);
      HalfFacts(p.output);
      Pow2At20();
      ShrinkReaches(c, frame, q, 20, ATTEMPTS - 1);
    }
  }

  lemma Pow2At20()
    ensures Pow2(20) == 0x10_0000
  {
    assert Pow2(10) == 1024;
  }

  /** A message whose one bulk text is at most a Pi chunk is never truncated. */
  lemma ChunkNeverTruncated(c: Codec, frame: nat, p: MessagePayload)
    requires ValidCodec(c)
    requires |p.content| <= 64 * 1024 && p.output == ""
    requires LineLen(c, frame, p.(content := "")) + 16 + 6 * 64 * 1024 <= MAX_LINE_BYTES
    ensures Capped(c, frame, p) == (p, false)
  {
    assert c.enc(p.content) <= 6 * |p.content|;
  }

  // ---------- two bulk texts ----------

  predicate Ascii(s: string) {
    forall i :: 0 <= i < |s| ==> !IsCont(s[i])
  }

  lemma HalfAscii(s: string)
    requires Ascii(s)
    ensures Ascii(Half(s)) && |Half(s)| == if |s| / 2 > BUDGET then BUDGET else |s| / 2
  {
    var n := if |s| / 2 > BUDGET then BUDGET else |s| / 2;
    if n < |s| { assert Boundary(s, n); }
  }

  /** While either text is left, an input over the cap is never dropped. */
  lemma {:induction false} ShrinkStuck(c: Codec, frame: nat, p: MessagePayload, a: nat, b: nat, attempts: nat)
    requires Ascii(p.content) && Ascii(p.output)
    requires p.input.Some? && p.input.value > MAX_LINE_BYTES
    requires (a > 0 ==> |p.content| >= Pow2(a - 1)) && |p.output| >= Pow2(b)
    requires a <= 20 && b < 20 && attempts <= a + b
    ensures !Fits(c, frame, Shrink(c, frame, p, attempts))
    decreases attempts
  {
    hide Half, IsCont;
    if attempts > 0 {
      HalfAscii(p.content);
      HalfAscii(p.output);
      Pow2Below(a);
      Pow2Below(b);
      Pow2Positive(b);
      if a > 0 { Pow2Positive(a - 1); }
      if p.content != "" {
        ShrinkStuck(c, frame, ShrinkOnce(p), if a > 0 then a - 1 else 0, b, attempts - 1);
      } else {
        ShrinkStuck(c, frame, ShrinkOnce(p), 0, b - 1, attempts - 1);
      }
    }
  }

  lemma Pow2Positive(n: nat)
    ensures Pow2(n) > 0
  {
  }

  lemma Pow2Below(n: nat)
    requires n <= 20
    ensures n >= 2 ==> Pow2(n - 2) <= 0x4_0000
    ensures n >= 1 ==> Pow2(n - 1) <= 0x8_0000
  {
    Pow2At20();
    if n < 20 { Pow2Below2(n, 20); }
  }

  lemma Pow2Below2(n: nat, m: nat)
    requires n <= m
    ensures Pow2(n) <= Pow2(m)
    decreases m
  {
    if n < m { Pow2Below2(n, m - 1); }
  }

  /** With two bulk texts the 32 attempts can run out: from 64 KiB each and an
      input over the cap the line that goes out is over the cap. */
  lemma TwoBulkTextsCanOverflow(c: Codec, frame: nat, p: MessagePayload)
    requires Ascii(p.content) && Ascii(p.output)
    requires |p.content| >= 0x1_0000 && |p.output| >= 0x1_0000
    requires p.input.Some? && p.input.value > MAX_LINE_BYTES
    ensures !Fits(c, frame, Capped(c, frame, p).0)
  {
    assert Pow2(10) == 1024;
    assert Pow2(16) == 0x1_0000;
    ShrinkStuck(c, frame, p, 17, 16, ATTEMPTS);
  }

  // ---------- builder ----------

  datatype Body =
    | SessionStarted
    | Message(payload: MessagePayload)
    | Error(code: string, title: string)
    | Heartbeat(sinceLastMs: int)
    | SessionEnded(status: string, error: string, outputChars: nat, backendSessionId: string)

  datatype Line = Line(seqNo: nat, body: Body)

  /** What the builder refuses to mint. */
  function BodyError(b: Body): Option<string> {
    match b
    case Message(p) => if p.kind == "" then Some("envelope: message.kind required") else None
    case Error(c, t) => if c == "" || t == "" then Some("envelope: error.code and title required") else None
    case SessionEnded(s, _, _, _) => if s == "" then Some("envelope: session_ended.status required") else None
    case _ => None
  }

  class Builder {
    var nextSeq: nat

    constructor ()
      ensures nextSeq == 0
    {
      nextSeq := 0;
    }

    method Build(b: Body) returns (r: Result<Line>)
      modifies this
      ensures BodyError(b) == None ==> r == Ok(Line(old(nextSeq), b)) && nextSeq == old(nextSeq) + 1
      ensures BodyError(b).Some? ==> r == Err(BodyError(b).value) && nextSeq == old(nextSeq)
    {
      match b {
        case Message(p) =>
          if p.kind == "" { return Err("envelope: message.kind required"); }
        case Error(c, t) =>
          if c == "" || t == "" { return Err("envelope: error.code and title required"); }
        case SessionEnded(s, _, _, _) =>
          if s == "" { return Err("envelope: session_ended.status required"); }
        case SessionStarted =>
        case Heartbeat(_) =>
      }
      r := Ok(Line(nextSeq, b));
      nextSeq := nextSeq + 1;
    }
  }

  // ---------- terminal status ----------

  predicate IsTerminalStatus(s: string) {
    s == "completed" || s == "failed" || s == "aborted" || s == "timeout" || s == "cancelled"
  }

  function StatusFromAgentResult(s: string): (r: string)
    ensures IsTerminalStatus(r)
    ensures r != "failed" ==> r == TrimSpace(s)
    ensures IsTerminalStatus(TrimSpace(s)) ==> r == TrimSpace(s)
  {
    var t := TrimSpace(s);
    if IsTerminalStatus(t) then t else "failed"
  }
}
