/** How many cuts a message needs, and when the 32 attempts suffice. */
module EnvelopeCuts {
  import opened Wrappers
  import opened Utf8
  import opened Envelope

  lemma HalfShorter(s: string)
    ensures Half(s) <= s && |Half(s)| <= |s| / 2 && |Half(s)| <= BUDGET
    ensures s != "" ==> |Half(s)| < |s|
  {
    hide Boundary;
  }

  /** The cuts that empty a text. */
  function Halvings(s: string): nat
    decreases |s|
  {
    if s == "" then 0
    else
      HalfShorter(s);
      1 + Halvings(Half(s))
  }

  function HalfTimes(s: string, k: nat): string {
    if k == 0 then s else HalfTimes(Half(s), k - 1)
  }

  /** The attempts until nothing is left to cut. */
  function Cuts(p: MessagePayload): nat {
    Halvings(p.content) + Halvings(p.output) + if p.input.Some? then 1 else 0
  }

  /** The payload after `k` attempts none of which was enough. */
  function Stage(p: MessagePayload, k: nat): MessagePayload {
    var a, b := Halvings(p.content), Halvings(p.output);
    if k <= a then p.(content := HalfTimes(p.content, k))
    else if k <= a + b then p.(content := "", output := HalfTimes(p.output, k - a))
    else Bare(p)
  }

  lemma {:induction false} HalvedAway(s: string)
    ensures HalfTimes(s, Halvings(s)) == ""
    decreases |s|
  {
    hide Half;
    if s != "" {
      HalfShorter(s);
      HalvedAway(Half(s));
    }
  }

  lemma StageStart(p: MessagePayload)
    ensures Stage(p, 0) == p
    ensures Exhausted(p) <==> Cuts(p) == 0
    ensures Exhausted(p) ==> forall k :: Stage(p, k) == p
  {
    hide Half;
    forall k: nat ensures Exhausted(p) ==> Stage(p, k) == p { if k == 0 {} }
  }

  /** One attempt moves on by one stage. */
  lemma StageStep(p: MessagePayload, k: nat)
    requires !Exhausted(p)
    ensures Stage(ShrinkOnce(p), k) == Stage(p, k + 1) && Cuts(ShrinkOnce(p)) == Cuts(p) - 1
  {
    hide Half, Halvings, HalfTimes;
    OneHalving(p.content, k);
    OneHalving(p.output, if k >= Halvings(p.content) then k - Halvings(p.content) else 0);
    HalvedAway(p.output);
  }

  lemma OneHalving(s: string, k: nat)
    ensures s != "" ==> Halvings(s) == 1 + Halvings(Half(s)) && HalfTimes(s, k + 1) == HalfTimes(Half(s), k)
    ensures Halvings(s) == 0 <==> s == ""
    ensures HalfTimes(s, 0) == s && HalfTimes(Half(s), 0) == Half(s)
  {
    hide Half;
  }

  // ---------- what the attempts come to ----------

  function CutCount(c: Codec, frame: nat, p: MessagePayload, attempts: nat): nat
    decreases attempts
  {
    if attempts == 0 || Fits(c, frame, p) || Exhausted(p) then 0
    else 1 + CutCount(c, frame, ShrinkOnce(p), attempts - 1)
  }

  /** What goes out is the stage at which the cutting stopped: the first that
      fits, or the last that the attempts reach. */
  lemma {:induction false} ShrinkIsStage(c: Codec, frame: nat, p: MessagePayload, attempts: nat)
    ensures var k := CutCount(c, frame, p, attempts);
            && k <= attempts && k <= Cuts(p) && Shrink(c, frame, p, attempts) == Stage(p, k)
            && (forall j :: 0 <= j < k ==> !Fits(c, frame, Stage(p, j)))
            && (Fits(c, frame, Stage(p, k)) || k == attempts || k == Cuts(p))
    decreases attempts
  {
    hide Fits, Stage, ShrinkOnce, Cuts, Exhausted;
    StageStart(p);
    if !(attempts == 0 || Fits(c, frame, p) || Exhausted(p)) {
      var q := ShrinkOnce(p);
      var k := CutCount(c, frame, q, attempts - 1);
      ShrinkIsStage(c, frame, q, attempts - 1);
      StageStep(p, k);
      forall j | 0 <= j < k + 1 ensures !Fits(c, frame, Stage(p, j)) {
        if j > 0 { StageStep(p, j - 1); }
      }
    }
  }

  lemma LaterStages(p: MessagePayload, k: nat)
    requires k >= Cuts(p)
    ensures Stage(p, k) == Stage(p, Cuts(p)) == Bare(p)
  {
    hide Half;
    HalvedAway(p.content);
    HalvedAway(p.output);
  }

  /** The line that goes out meets the cap if and only if one of the stages that
      the 32 attempts reach does. */
  lemma CapMetWithin(c: Codec, frame: nat, p: MessagePayload)
    ensures Fits(c, frame, Capped(c, frame, p).0)
            <==> exists k :: 0 <= k <= ATTEMPTS && Fits(c, frame, Stage(p, k))
  {
    hide Fits, Stage, Cuts, Shrink, CutCount;
    StageStart(p);
    ShrinkIsStage(c, frame, p, ATTEMPTS);
    var k := CutCount(c, frame, p, ATTEMPTS);
    if Fits(c, frame, p) {
      assert Fits(c, frame, Stage(p, 0));
    } else if !Fits(c, frame, Stage(p, k)) {
      forall j | 0 <= j <= ATTEMPTS ensures !Fits(c, frame, Stage(p, j)) {
        if j > k {
          LaterStages(p, j);
          LaterStages(p, k);
        }
      }
    }
  }

  // ---------- two lengths of the outer line ----------

  function Size(p: MessagePayload): nat { |p.content| + |p.output| + if p.input.Some? then 1 else 0 }

  lemma CutIsSmaller(p: MessagePayload)
    requires !Exhausted(p)
    ensures Size(ShrinkOnce(p)) < Size(p)
  {
    hide Half;
    HalfShorter(p.content);
    HalfShorter(p.output);
  }

  /** Different stages are different payloads. */
  lemma {:induction false} StagesDiffer(p: MessagePayload, j: nat, k: nat)
    requires j < k <= Cuts(p)
    ensures Size(Stage(p, k)) < Size(Stage(p, j))
    decreases k
  {
    hide Stage, ShrinkOnce, Size, Cuts, Exhausted;
    StageStart(p);
    StageStep(p, k - 1);
    CutIsSmaller(p);
    var q := ShrinkOnce(p);
    if j > 0 {
      StageStep(p, j - 1);
      StagesDiffer(q, j - 1, k - 1);
    } else if k > 1 {
      StageStart(q);
      StagesDiffer(q, 0, k - 1);
    } else {
      StageStart(q);
    }
  }

  /** A message comes out alike under two lengths of the outer line if and only
      if it fits under both or neither, and is cut equally often. */
  lemma CappedAlike(c: Codec, f1: nat, f2: nat, p: MessagePayload)
    ensures Capped(c, f1, p) == Capped(c, f2, p) <==>
            && (Fits(c, f1, p) <==> Fits(c, f2, p))
            && CutCount(c, f1, p, ATTEMPTS) == CutCount(c, f2, p, ATTEMPTS)
  {
    hide Fits, Stage, Cuts, Shrink, Size;
    ShrinkIsStage(c, f1, p, ATTEMPTS);
    ShrinkIsStage(c, f2, p, ATTEMPTS);
    var k1, k2 := CutCount(c, f1, p, ATTEMPTS), CutCount(c, f2, p, ATTEMPTS);
    if k1 < k2 {
      StagesDiffer(p, k1, k2);
    } else if k2 < k1 {
      StagesDiffer(p, k2, k1);
    }
    assert Fits(c, f1, p) ==> k1 == 0;
    assert Fits(c, f2, p) ==> k2 == 0;
  }

  // ---------- two bulk texts ----------

  /** Encoding rune by rune: of two texts that split no rune, the longer is not
      shorter encoded. (A byte of a broken rune takes six bytes, so nothing of the
      kind holds of cuts inside a rune.) */
  ghost predicate RuneMonotone(c: Codec) {
    forall s, t :: s <= t && Valid(s) && Valid(t) ==> c.enc(s) <= c.enc(t)
  }

  /** Bytes that encoding/json writes for the rune of `n` bytes at the head. */
  function RuneOut(s: string, n: nat): nat
    requires 0 < n <= |s|
  {
    var c := s[0];
    if c == '\"' || c == '\\' || c in {8 as char, 12 as char, '\n', '\r', '\t'} then 2
    else if c as nat < 0x20 || c in {'<', '>', '&'} then 6
    else if n == 3 && c as nat == 0xE2 && s[1] as nat == 0x80 && s[2] as nat in {0xA8, 0xA9} then 6
    else n
  }

  /** The length of a string as the daemon encodes it: a byte that belongs to no
      rune becomes a replacement character written in six bytes. */
  function JsonLen(s: string): (n: nat)
    decreases |s|
  {
    var n := RuneLen(s);
    if s == "" then 0
    else if n == 0 then 6 + JsonLen(s[1..])
    else RuneOut(s, n) + JsonLen(s[n..])
  }

  lemma {:induction false} JsonLenAtMost(s: string)
    ensures JsonLen(s) <= 6 * |s|
    decreases |s|
  {
    hide RuneLen;
    if s != "" { JsonLenAtMost(s[if RuneLen(s) == 0 then 1 else RuneLen(s)..]); }
  }

  lemma RuneStays(s: string, t: string)
    requires s <= t && RuneLen(s) > 0
    ensures RuneLen(t) == RuneLen(s)
  {
    assert forall j :: 0 <= j < |s| ==> s[j] == t[j];
    assert Conts(s, RuneLen(s) - 1) ==> Conts(t, RuneLen(s) - 1);
  }

  lemma {:induction false} JsonLenGrows(s: string, t: string)
    requires s <= t && Valid(s) && Valid(t)
    ensures JsonLen(s) <= JsonLen(t)
    decreases |s|
  {
    hide RuneLen;
    if s != "" {
      var n := RuneLen(s);
      RuneStays(s, t);
      assert s[n..] <= t[n..];
      JsonLenGrows(s[n..], t[n..]);
    }
  }

  /** What is asked of an encoder holds of the daemon's, though a cut inside a
      rune can make its text longer. */
  lemma JsonCodec()
    ensures ValidCodec(Codec(JsonLen)) && RuneMonotone(Codec(JsonLen))
    ensures exists s, t :: s <= t && JsonLen(s) > JsonLen(t)
  {
    hide JsonLen;
    var c := Codec(JsonLen);
    forall s ensures c.enc(s) <= 6 * |s| { JsonLenAtMost(s); }
    forall s, t | s <= t && Valid(s) && Valid(t) ensures c.enc(s) <= c.enc(t) { JsonLenGrows(s, t); }
    BrokenRune([0xC3 as char], [0xC3 as char, 0xA9 as char]);
  }

  lemma BrokenRune(s: string, t: string)
    requires s == [0xC3 as char] && t == [0xC3 as char, 0xA9 as char]
    ensures s <= t && JsonLen(s) == 6 && JsonLen(t) == 2
  {
    assert s[1..] == "" && t[2..] == "";
    assert RuneLen(s) == 0;
    assert Conts(t, 1);
  }

  lemma {:induction false} HalfTimesValid(s: string, k: nat)
    requires Valid(s)
    ensures Valid(HalfTimes(s, k))
    decreases k
  {
    hide Half, Valid;
    if k > 0 {
      HalfFacts(s);
      HalfTimesValid(Half(s), k - 1);
    }
  }

  lemma StageValid(p: MessagePayload, k: nat)
    requires Valid(p.content) && Valid(p.output)
    ensures Valid(Stage(p, k).content) && Valid(Stage(p, k).output)
  {
    hide HalfTimes, Halvings, Valid;
    ValidNil();
    HalfTimesValid(p.content, k);
    if k >= Halvings(p.content) { HalfTimesValid(p.output, k - Halvings(p.content)); }
  }

  lemma {:induction false} HalfTimesPrefix(s: string, k: nat)
    ensures HalfTimes(s, k + 1) <= HalfTimes(s, k)
    decreases k
  {
    hide Half;
    if k == 0 {
      HalfShorter(s);
      assert HalfTimes(s, 1) == HalfTimes(Half(s), 0);
    } else {
      HalfTimesPrefix(Half(s), k - 1);
    }
  }

  /** Cutting more makes no line longer. */
  lemma LessIsShorter(c: Codec, frame: nat, p: MessagePayload, q: MessagePayload)
    requires RuneMonotone(c)
    requires q == p.(content := q.content, output := q.output, input := q.input)
    requires q.content <= p.content && q.output <= p.output && (q.input == p.input || q.input == None)
    requires Valid(p.content) && Valid(p.output) && Valid(q.content) && Valid(q.output)
    ensures LineLen(c, frame, q) <= LineLen(c, frame, p)
  {
    hide Valid;
  }

  lemma StagesShrink(c: Codec, frame: nat, p: MessagePayload, k: nat)
    requires RuneMonotone(c) && Valid(p.content) && Valid(p.output)
    ensures LineLen(c, frame, Stage(p, k + 1)) <= LineLen(c, frame, Stage(p, k))
  {
    hide Half, HalfTimes, Halvings, LineLen, RuneMonotone, Valid;
    StageValid(p, k);
    StageValid(p, k + 1);
    HalvedAway(p.content);
    HalvedAway(p.output);
    NoTimes(p.output);
    HalfTimesPrefix(p.content, k);
    var a := Halvings(p.content);
    if k >= a { HalfTimesPrefix(p.output, k - a); }
    LessIsShorter(c, frame, Stage(p, k), Stage(p, k + 1));
  }

  lemma NoTimes(s: string)
    ensures HalfTimes(s, 0) == s
  {
  }

  lemma {:induction false} StagesShrinkTo(c: Codec, frame: nat, p: MessagePayload, j: nat, k: nat)
    requires RuneMonotone(c) && Valid(p.content) && Valid(p.output) && j <= k
    ensures LineLen(c, frame, Stage(p, k)) <= LineLen(c, frame, Stage(p, j))
    decreases k - j
  {
    hide LineLen, Stage, Valid;
    if j < k {
      StagesShrink(c, frame, p, j);
      StagesShrinkTo(c, frame, p, j + 1, k);
    }
  }

  lemma {:induction false} HalvingsBelow(s: string, m: nat)
    requires |s| < Pow2(m)
    ensures Halvings(s) <= m
    decreases m
  {
    hide Half;
    if s != "" {
      HalfShorter(s);
      if m > 0 { HalvingsBelow(Half(s), m - 1); }
    }
  }

  /** No text takes more than 21 cuts, however long it is. */
  lemma HalvingsAtMost(s: string)
    ensures Halvings(s) <= 21
  {
    hide Half;
    if s != "" {
      Pow2At20();
      HalfShorter(s);
      HalvingsBelow(Half(s), 20);
    }
  }

  /** With any two texts and any input the cap is met if and only if the attempts
      are enough to cut everything and the bare line fits, or what is left of the
      output after the remaining attempts fits beside the input. */
  lemma CapMetExactly(c: Codec, frame: nat, p: MessagePayload)
    requires RuneMonotone(c) && Valid(p.content) && Valid(p.output)
    ensures Fits(c, frame, Capped(c, frame, p).0) <==>
            if Cuts(p) <= ATTEMPTS then Fits(c, frame, Bare(p))
            else Halvings(p.content) <= ATTEMPTS
                 && Fits(c, frame, p.(content := "", output := HalfTimes(p.output, ATTEMPTS - Halvings(p.content))))
  {
    hide HalfTimes, Halvings, Capped, LineLen, RuneMonotone, Valid;
    CapMetWithin(c, frame, p);
    HalvingsAtMost(p.content);
    HalvingsAtMost(p.output);
    forall k | 0 <= k <= ATTEMPTS ensures Fits(c, frame, Stage(p, k)) ==> Fits(c, frame, Stage(p, ATTEMPTS)) {
      StagesShrinkTo(c, frame, p, k, ATTEMPTS);
    }
    assert Fits(c, frame, Capped(c, frame, p).0) <==> Fits(c, frame, Stage(p, ATTEMPTS));
    if Cuts(p) <= ATTEMPTS {
      LaterStages(p, ATTEMPTS);
    } else {
      var o := HalfTimes(p.output, ATTEMPTS - Halvings(p.content));
      assert Stage(p, ATTEMPTS) == p.(content := "", output := o);
    }
  }

  lemma {:induction false} HalfTimesShort(s: string, k: nat, m: nat)
    requires |s| < Pow2(m + k)
    ensures |HalfTimes(s, k)| < Pow2(m)
    decreases k
  {
    hide Half;
    if k > 0 {
      HalfShorter(s);
      HalfTimesShort(Half(s), k - 1, m);
    }
  }

  /** Without an input the attempts always suffice for two texts, when the bare
      line leaves room for a last kilobyte. */
  lemma NoInputFits(c: Codec, frame: nat, p: MessagePayload)
    requires ValidCodec(c) && p.input.None?
    requires LineLen(c, frame, Bare(p)) + 12 + 6 * 1023 <= MAX_LINE_BYTES
    ensures Fits(c, frame, Capped(c, frame, p).0)
  {
    hide Half, HalfTimes, Halvings, Capped, Pow2;
    CapMetWithin(c, frame, p);
    HalvingsAtMost(p.content);
    var a := Halvings(p.content);
    if Cuts(p) <= ATTEMPTS {
      LaterStages(p, ATTEMPTS);
    } else {
      LastKilobyte(p.output, ATTEMPTS - a);
      var o := HalfTimes(p.output, ATTEMPTS - a);
      HalvingsAtMost(p.output);
      assert Stage(p, ATTEMPTS) == p.(content := "", output := o);
      assert c.enc(o) <= 6 * |o|;
    }
    assert Fits(c, frame, Stage(p, ATTEMPTS));
  }

  /** Eleven cuts leave less than a kilobyte of any text. */
  lemma LastKilobyte(s: string, k: nat)
    requires k >= 11
    ensures |HalfTimes(s, k)| <= 1023
  {
    hide Half;
    assert Pow2(10) == 1024;
    Pow2At20();
    HalfShorter(s);
    Pow2Below2(20, 10 + (k - 1));
    HalfTimesShort(Half(s), k - 1, 10);
  }
}
