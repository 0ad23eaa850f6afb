/** The dashboard's NDJSON stream decoder (models/envelope.ts). */
module Decoder {
  import opened Strings
  import opened Wrappers
  import opened Lines

  function Decoded<E>(decode: string -> Option<E>, lines: seq<string>): seq<E> {
    if lines == [] then []
    else
      var e := decode(lines[0]);
      (if e.Some? then [e.value] else []) + Decoded(decode, lines[1..])
  }

  method DecodeChunk<E>(decode: string -> Option<E>, buffer: string, chunk: string)
    returns (envelopes: seq<E>, remaining: string)
    ensures envelopes == Decoded(decode, Complete(buffer + chunk)) && remaining == Rest(buffer + chunk)
  {
    hide *;
    var combined := buffer + chunk;
    var lines := Split(combined);
    SplitIsComplete(combined);
    remaining := lines[|lines| - 1];
    lines := lines[..|lines| - 1];
    assert lines == Complete(combined);
    envelopes := [];
    var i := 0;
    DecodedNil(decode);
    while i < |lines|
      invariant i <= |lines| && envelopes == Decoded(decode, lines[..i])
    {
      var env := decode(lines[i]);
      DecodedSnoc(decode, lines[..i], lines[i]);
      assert lines[..i + 1] == lines[..i] + [lines[i]];
      if env.Some? {
        envelopes := envelopes + [env.value];
      }
      i := i + 1;
    }
    assert lines[..i] == lines;
  }

  lemma DecodedNil<E>(decode: string -> Option<E>)
    ensures Decoded(decode, []) == []
  {
  }

  lemma DecodedSnoc<E>(decode: string -> Option<E>, lines: seq<string>, line: string)
    ensures Decoded(decode, lines + [line]) == Decoded(decode, lines)
            + (if decode(line).Some? then [decode(line).value] else [])
  {
    DecodedAppend(decode, lines, [line]);
    assert [line][1..] == [];
    assert Decoded(decode, [line]) == (if decode(line).Some? then [decode(line).value] else []) + [];
  }

  /** Feeding chunk after chunk, carrying the partial line along. */
  function DecodeStream<E>(decode: string -> Option<E>, buffer: string, chunks: seq<string>): (seq<E>, string)
    decreases |chunks|
  {
    if chunks == [] then ([], buffer)
    else
      var (es, r) := DecodeStream(decode, Rest(buffer + chunks[0]), chunks[1..]);
      (Decoded(decode, Complete(buffer + chunks[0])) + es, r)
  }

  lemma {:induction false} DecodedAppend<E>(decode: string -> Option<E>, a: seq<string>, b: seq<string>)
    ensures Decoded(decode, a + b) == Decoded(decode, a) + Decoded(decode, b)
    decreases |a|
  {
    if a == [] { assert a + b == b; }
    else {
      assert (a + b)[1..] == a[1..] + b;
      DecodedAppend(decode, a[1..], b);
      var h := decode(a[0]);
      var x := if h.Some? then [h.value] else [];
      assert x + (Decoded(decode, a[1..]) + Decoded(decode, b)) == (x + Decoded(decode, a[1..])) + Decoded(decode, b);
    }
  }

  lemma {:induction false} StreamIsWhole<E>(decode: string -> Option<E>, buffer: string, chunks: seq<string>)
    requires '\n' !in buffer
    ensures DecodeStream(decode, buffer, chunks)
            == (Decoded(decode, Complete(buffer + Concat(chunks))), Rest(buffer + Concat(chunks)))
    decreases |chunks|
  {
    if chunks == [] {
      assert buffer + "" == buffer;
      NoNewline(buffer);
    } else {
      var a, b := buffer + chunks[0], Concat(chunks[1..]);
      assert buffer + Concat(chunks) == a + b;
      Append(a, b);
      RestHasNone(a);
      DecodedAppend(decode, Complete(a), Complete(Rest(a) + b));
      StreamIsWhole(decode, Rest(a), chunks[1..]);
    }
  }

  /** The wire form of a log: one newline-terminated line per envelope. */
  function Wire<E>(encode: E -> string, es: seq<E>): string {
    if es == [] then "" else encode(es[0]) + "\n" + Wire(encode, es[1..])
  }

  /** Encoded lines hold no newline and decode back (section 2 of RFC 8259 lets
      an encoder leave out insignificant newlines). */
  ghost predicate Codec<E(!new)>(encode: E -> string, decode: string -> Option<E>) {
    forall e :: '\n' !in encode(e) && decode(encode(e)) == Some(e)
  }

  lemma {:induction false} WireLines<E(!new)>(
    encode: E -> string, decode: string -> Option<E>, es: seq<E>, tail: string)
    requires Codec(encode, decode) && '\n' !in tail
    ensures Decoded(decode, Complete(Wire(encode, es) + tail)) == es
    ensures Rest(Wire(encode, es) + tail) == tail
    decreases |es|
  {
    if es == [] {
      assert "" + tail == tail;
      NoNewline(tail);
    } else {
      var l := encode(es[0]);
      var w := Wire(encode, es) + tail;
      assert w == l + ("\n" + (Wire(encode, es[1..]) + tail));
      assert w[..|l|] == l;
      NewlineAtIs(w, |l|);
      assert w[|l| + 1..] == Wire(encode, es[1..]) + tail;
      WireLines(encode, decode, es[1..], tail);
      var more := Complete(Wire(encode, es[1..]) + tail);
      assert ([l] + more)[1..] == more;
      assert [es[0]] + es[1..] == es;
    }
  }

  /** Main result: whatever the split of the bytes received so far, the decoder
      has yielded exactly the envelopes whose lines are complete, in order, and
      holds the unfinished line. */
  lemma StreamYieldsLog<E(!new)>(
    encode: E -> string, decode: string -> Option<E>, es: seq<E>, tail: string, chunks: seq<string>)
    requires Codec(encode, decode) && '\n' !in tail
    requires Concat(chunks) == Wire(encode, es) + tail
    ensures DecodeStream(decode, "", chunks) == (es, tail)
  {
    StreamIsWhole(decode, "", chunks);
    assert "" + Concat(chunks) == Concat(chunks);
    WireLines(encode, decode, es, tail);
  }
}
