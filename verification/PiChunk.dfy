/** emitChunkedMessageText: committed Pi text leaves in bounded pieces. */
module PiChunk {
  import opened Strings
  import opened Utf8

  const MAX_CHUNK_BYTES: nat := 64 * 1024

  /** Largest index up to `cut` that is 0 or does not hold a continuation byte. */
  function Back(s: string, cut: nat): (c: nat)
    requires cut < |s|
    ensures c <= cut && (c > 0 ==> !IsCont(s[c]))
    ensures forall i :: c < i <= cut ==> IsCont(s[i])
  {
    if cut > 0 && IsCont(s[cut]) then Back(s, cut - 1) else cut
  }

  function Forward(s: string, cut: nat): (c: nat)
    requires cut <= |s|
    ensures cut <= c <= |s| && (c < |s| ==> !IsCont(s[c]))
    decreases |s| - cut
  {
    if cut < |s| && IsCont(s[cut]) then Forward(s, cut + 1) else cut
  }

  function CutPoint(s: string): (c: nat)
    requires |s| > MAX_CHUNK_BYTES
    ensures 0 < c <= |s|
  {
    var c := Back(s, MAX_CHUNK_BYTES);
    if c == 0 then Forward(s, 1) else c
  }

  function Chunks(s: string): (cs: seq<string>)
    decreases |s|
  {
    if s == "" then []
    else if |s| <= MAX_CHUNK_BYTES then [s]
    else [s[..CutPoint(s)]] + Chunks(s[CutPoint(s)..])
  }

  /** The pieces are nonempty and put together give the text, whatever its bytes. */
  lemma {:induction false} ChunksConcat(s: string)
    ensures Concat(Chunks(s)) == s
    ensures forall i :: 0 <= i < |Chunks(s)| ==> Chunks(s)[i] != ""
    decreases |s|
  {
    if |s| > MAX_CHUNK_BYTES {
      var c := CutPoint(s);
      ChunksConcat(s[c..]);
      assert ([s[..c]] + Chunks(s[c..]))[1..] == Chunks(s[c..]);
      assert s[..c] + s[c..] == s;
    } else if s != "" {
      assert [s][1..] == [] && s + "" == s;
    }
  }

  lemma CutOfValid(s: string)
    requires Valid(s) && |s| > MAX_CHUNK_BYTES
    ensures MAX_CHUNK_BYTES - 3 <= CutPoint(s) <= MAX_CHUNK_BYTES
    ensures Valid(s[..CutPoint(s)]) && Valid(s[CutPoint(s)..])
  {
    hide RuneLen, Valid;
    var j := BoundaryNear(s, MAX_CHUNK_BYTES);
    var c := Back(s, MAX_CHUNK_BYTES);
    assert j <= c;
    BoundarySplits(s, c);
  }

  /** On well-formed text every piece is well-formed and at most 64 KiB, and no
      piece but the last falls short of that by more than three bytes. */
  lemma {:induction false} ChunksOfValid(s: string)
    requires Valid(s)
    ensures forall i :: 0 <= i < |Chunks(s)| ==> Valid(Chunks(s)[i]) && |Chunks(s)[i]| <= MAX_CHUNK_BYTES
    ensures forall i :: 0 <= i < |Chunks(s)| - 1 ==> |Chunks(s)[i]| >= MAX_CHUNK_BYTES - 3
    decreases |s|
  {
    hide RuneLen, Valid;
    if |s| > MAX_CHUNK_BYTES {
      var c := CutPoint(s);
      CutOfValid(s);
      ChunksOfValid(s[c..]);
      var cs, tail := Chunks(s), Chunks(s[c..]);
      assert cs == [s[..c]] + tail;
      assert Valid(cs[0]) && MAX_CHUNK_BYTES - 3 <= |cs[0]| <= MAX_CHUNK_BYTES;
      assert forall i :: 0 <= i < |tail| ==> Valid(tail[i]) && |tail[i]| <= MAX_CHUNK_BYTES;
      assert forall i :: 0 <= i < |tail| - 1 ==> |tail[i]| >= MAX_CHUNK_BYTES - 3;
      forall i | 1 <= i < |cs| ensures cs[i] == tail[i - 1] {}
    }
  }

  method EmitChunked(text: string) returns (sent: seq<string>)
    ensures sent == Chunks(text)
  {
    sent := [];
    if text == "" {
      return;
    }
    var rest := text;
    while |rest| > 0
      invariant sent + Chunks(rest) == Chunks(text)
      decreases |rest|
    {
      if |rest| <= MAX_CHUNK_BYTES {
        sent := sent + [rest];
        return;
      }
      var cut := MAX_CHUNK_BYTES;
      while cut > 0 && IsCont(rest[cut])
        invariant 0 <= cut < |rest| && Back(rest, MAX_CHUNK_BYTES) == Back(rest, cut)
      {
        cut := cut - 1;
      }
      if cut == 0 {
        cut := 1;
        while cut < |rest| && IsCont(rest[cut])
          invariant 1 <= cut <= |rest| && Forward(rest, 1) == Forward(rest, cut)
        {
          cut := cut + 1;
        }
      }
      ghost var before := sent;
      sent := sent + [rest[..cut]];
      assert before + ([rest[..cut]] + Chunks(rest[cut..])) == sent + Chunks(rest[cut..]);
      rest := rest[cut..];
    }
    assert sent + [] == sent;
  }
}
