/** The encoded line itself, and that the length the cap looks at is its length. */
module EnvelopeText {
  import opened Wrappers
  import opened Envelope

  function Named(name: string, value: string): string { "\"" + name + "\":" + value }

  function Quoted(esc: string -> string, s: string): string { "\"" + esc(s) + "\"" }

  /** A member that is left out when it is empty. */
  function Optional(esc: string -> string, name: string, s: string): seq<string> {
    if s == "" then [] else [Named(name, Quoted(esc, s))]
  }

  /** The members of a message payload in their order; `input` is the encoded object. */
  function Members(esc: string -> string, p: MessagePayload, input: string): seq<string> {
    [Named("kind", Quoted(esc, p.kind))]
    + Optional(esc, "content", p.content) + Optional(esc, "tool", p.tool) + Optional(esc, "call_id", p.callId)
    + (if p.input.Some? then [Named("input", input)] else [])
    + Optional(esc, "output", p.output) + Optional(esc, "status", p.status) + Optional(esc, "level", p.level)
    + Optional(esc, "backend_session_id", p.backendSessionId)
  }

  function Commas(members: seq<string>): string {
    if members == [] then "" else if |members| == 1 then members[0] else members[0] + "," + Commas(members[1..])
  }

  /** The line: the outer object up to the payload, the payload, and the rest with
      the line break. */
  function LineText(esc: string -> string, head: string, p: MessagePayload, input: string, tail: string): string {
    head + "{" + Commas(Members(esc, p, input)) + "}" + tail
  }

  function Total(members: seq<string>): nat {
    if members == [] then 0 else |members[0]| + 1 + Total(members[1..])
  }

  lemma {:induction false} TotalAppend(a: seq<string>, b: seq<string>)
    ensures Total(a + b) == Total(a) + Total(b)
  {
    if a == [] {
      assert a + b == b;
    } else {
      assert (a + b)[1..] == a[1..] + b;
      TotalAppend(a[1..], b);
    }
  }

  lemma {:induction false} CommasLength(members: seq<string>)
    requires members != []
    ensures |Commas(members)| + 1 == Total(members)
  {
    if |members| == 1 {
      assert Total(members[1..]) == 0;
    } else {
      CommasLength(members[1..]);
    }
  }

  function CodecOf(esc: string -> string): Codec { Codec((s: string) => |esc(s)|) }

  lemma OptionalTotal(esc: string -> string, name: string, s: string)
    ensures Total(Optional(esc, name, s)) == Member(CodecOf(esc), |name|, s)
  {
    if s != "" { OneTotal(Named(name, Quoted(esc, s))); }
  }

  lemma OneTotal(m: string)
    ensures Total([m]) == |m| + 1
  {
    assert [m][1..] == [];
  }

  lemma MembersTotal(esc: string -> string, p: MessagePayload, input: string)
    requires p.kind != "" && (p.input.Some? ==> |input| == p.input.value)
    ensures Total(Members(esc, p, input)) == LineLen(CodecOf(esc), 0, p)
  {
    hide Total, Optional, CodecOf, Member;
    var m1 := [Named("kind", Quoted(esc, p.kind))];
    var m2, m3 := Optional(esc, "content", p.content), Optional(esc, "tool", p.tool);
    var m4 := Optional(esc, "call_id", p.callId);
    var m5 := if p.input.Some? then [Named("input", input)] else [];
    var m6, m7 := Optional(esc, "output", p.output), Optional(esc, "status", p.status);
    var m8 := Optional(esc, "level", p.level);
    var m9 := Optional(esc, "backend_session_id", p.backendSessionId);
    TotalAppend(m1, m2);
    TotalAppend(m1 + m2, m3);
    TotalAppend(m1 + m2 + m3, m4);
    TotalAppend(m1 + m2 + m3 + m4, m5);
    TotalAppend(m1 + m2 + m3 + m4 + m5, m6);
    TotalAppend(m1 + m2 + m3 + m4 + m5 + m6, m7);
    TotalAppend(m1 + m2 + m3 + m4 + m5 + m6 + m7, m8);
    TotalAppend(m1 + m2 + m3 + m4 + m5 + m6 + m7 + m8, m9);
    KindTotal(esc, p.kind);
    InputTotal(p, input);
    OptionalTotal(esc, "content", p.content);
    OptionalTotal(esc, "tool", p.tool);
    OptionalTotal(esc, "call_id", p.callId);
    OptionalTotal(esc, "output", p.output);
    OptionalTotal(esc, "status", p.status);
    OptionalTotal(esc, "level", p.level);
    OptionalTotal(esc, "backend_session_id", p.backendSessionId);
  }

  lemma KindTotal(esc: string -> string, kind: string)
    requires kind != ""
    ensures Total([Named("kind", Quoted(esc, kind))]) == Member(CodecOf(esc), 4, kind)
  {
    OneTotal(Named("kind", Quoted(esc, kind)));
  }

  lemma InputTotal(p: MessagePayload, input: string)
    requires p.input.Some? ==> |input| == p.input.value
    ensures Total(if p.input.Some? then [Named("input", input)] else [])
         == match p.input case None => 0 case Some(n) => 9 + n
  {
    OneTotal(Named("input", input));
  }

  /** For every payload with a kind, whatever the escaping and the outer object,
      the cap is held against the length of the line that goes out. */
  lemma LineLenIsLength(esc: string -> string, head: string, p: MessagePayload, input: string, tail: string)
    requires p.kind != "" && (p.input.Some? ==> |input| == p.input.value)
    ensures LineLen(CodecOf(esc), |head| + |tail| + 1, p) == |LineText(esc, head, p, input, tail)|
    ensures Fits(CodecOf(esc), |head| + |tail| + 1, p) <==> |LineText(esc, head, p, input, tail)| <= 1048576
  {
    hide Total, Members, CodecOf, Commas, Member;
    MembersTotal(esc, p, input);
    assert Members(esc, p, input) != [] by { SomeMember(esc, p, input); }
    CommasLength(Members(esc, p, input));
  }

  lemma SomeMember(esc: string -> string, p: MessagePayload, input: string)
    ensures Members(esc, p, input) != []
  {
    hide Optional;
  }
}
