/** Whether two undisturbed runs with the same messages and the same result leave
    the same log: always when the heartbeats stand in the same places, and else
    exactly when no message is cut differently at the number it gets. */
module PumpConfluence {
  import opened Wrappers
  import opened Envelope
  import opened EnvelopeCuts
  import opened PumpLog
  import opened PumpSystem
  import opened PumpRuns
  import MP = MessagePipe

  /** The log without heartbeats and without numbering. */
  function Bodies(rows: seq<Line>): seq<Body> {
    if rows == [] then []
    else
      var b := rows[|rows| - 1].body;
      Bodies(rows[..|rows| - 1]) + (if b.Heartbeat? then [] else [b])
  }

  lemma {:induction false} BodiesAppend(a: seq<Line>, b: seq<Line>)
    ensures Bodies(a + b) == Bodies(a) + Bodies(b)
    decreases |b|
  {
    if b == [] {
      assert a + b == a;
    } else {
      assert (a + b)[..|a + b| - 1] == a + b[..|b| - 1];
      BodiesAppend(a, b[..|b| - 1]);
    }
  }

  lemma BodiesNil()
    ensures Bodies([]) == []
  {
  }

  lemma BodiesOne(x: Line)
    ensures Bodies([x]) == if x.body.Heartbeat? then [] else [x.body]
  {
    assert [x][..0] == [];
    BodiesNil();
  }

  /** The number at which each message is logged. */
  function Numbers(cfg: Config, items: seq<Item>): (ns: seq<nat>)
    ensures |ns| == |Messages(items)|
    ensures forall i :: 0 <= i < |ns| ==> ns[i] <= |Expand(cfg, items)| || Messages(items)[i].kind == ""
  {
    if items == [] then []
    else
      var before, x := items[..|items| - 1], items[|items| - 1];
      Numbers(cfg, before) + (if x.Msg? then [1 + |Expand(cfg, before)|] else [])
  }

  /** What one message leaves in the log when it gets the number `n`. */
  function MessageBody(cfg: Config, n: nat, m: AgentMessage): seq<Body> {
    if m.kind == "" then []
    else
      var (p, truncated) := Capped(cfg.codec, cfg.frame(n), PayloadOf(m));
      [Message(p)] + (if truncated then [TruncationError] else [])
  }

  function MessageBodies(cfg: Config, ns: seq<nat>, ms: seq<AgentMessage>): seq<Body>
    requires |ns| == |ms|
  {
    if ms == [] then []
    else
      var i := |ms| - 1;
      MessageBodies(cfg, ns[..i], ms[..i]) + MessageBody(cfg, ns[i], ms[i])
  }

  lemma BodiesOfBlock(cfg: Config, k: nat, x: Item)
    ensures Bodies(Block(cfg, k, x)) == if x.Msg? then MessageBody(cfg, k, x.message) else []
  {
    hide Capped;
    match x {
      case Beat(ms) => BodiesOne(Line(k, Heartbeat(ms)));
      case Msg(m) =>
        if m.kind == "" {
          BodiesNil();
        } else {
          var (p, t) := Capped(cfg.codec, cfg.frame(k), PayloadOf(m));
          BodiesOne(Line(k, Message(p)));
          BodiesOne(Line(k + 1, TruncationError));
          BodiesAppend([Line(k, Message(p))], [Line(k + 1, TruncationError)]);
          assert [Line(k, Message(p))] + [] == [Line(k, Message(p))];
        }
    }
  }

  lemma {:induction false} BodiesOfExpand(cfg: Config, items: seq<Item>)
    ensures Bodies(Expand(cfg, items)) == MessageBodies(cfg, Numbers(cfg, items), Messages(items))
    decreases |items|
  {
    hide Bodies, Block, MessageBody;
    if items == [] {
      BodiesNil();
    } else {
      var before, x := items[..|items| - 1], items[|items| - 1];
      BodiesOfExpand(cfg, before);
      var k := 1 + |Expand(cfg, before)|;
      BodiesAppend(Expand(cfg, before), Block(cfg, k, x));
      BodiesOfBlock(cfg, k, x);
      var ns, ms := Numbers(cfg, before), Messages(before);
      if x.Msg? {
        assert (ns + [k])[..|ns|] == ns && (ms + [x.message])[..|ms|] == ms;
      } else {
        assert ms + [] == ms && ns + [] == ns;
        assert Bodies(Expand(cfg, before)) + [] == Bodies(Expand(cfg, before));
      }
    }
  }

  lemma FinalBodies(cfg: Config, items: seq<Item>, r: AgentResult, shutdown: bool)
    ensures Bodies(FinalRows(cfg, items, r, shutdown))
         == [SessionStarted] + MessageBodies(cfg, Numbers(cfg, items), Messages(items))
            + [EndBody(Messages(items), r, shutdown)]
  {
    hide Bodies, MessageBodies, Messages, Expand, EndBody, Numbers;
    BodiesOfExpand(cfg, items);
    BodiesAppend(FirstRow(), Expand(cfg, items));
    BodiesOne(Line(0, SessionStarted));
    var rows := FirstRow() + Expand(cfg, items);
    var last := Line(|rows|, EndBody(Messages(items), r, shutdown));
    BodiesAppend(rows, [last]);
    BodiesOne(last);
    EndBodyKind(Messages(items), r, shutdown);
  }

  lemma EndBodyKind(ms: seq<AgentMessage>, r: AgentResult, shutdown: bool)
    ensures EndBody(ms, r, shutdown).SessionEnded?
  {
  }

  // ---------- the exact condition ----------

  /** The message fits beside both lengths of the outer line or beside neither, and
      is cut equally often. */
  predicate AlikeAt(c: Codec, f1: nat, f2: nat, m: AgentMessage) {
    m.kind == "" ||
    var p := PayloadOf(m);
    (Fits(c, f1, p) <==> Fits(c, f2, p)) && CutCount(c, f1, p, ATTEMPTS) == CutCount(c, f2, p, ATTEMPTS)
  }

  /** Message by message, at the numbers that they get in the two runs. */
  predicate AllAlike(cfg1: Config, cfg2: Config, ns1: seq<nat>, ns2: seq<nat>, ms: seq<AgentMessage>)
    requires |ns1| == |ns2| == |ms|
  {
    forall i :: 0 <= i < |ms| ==> AlikeAt(cfg1.codec, cfg1.frame(ns1[i]), cfg2.frame(ns2[i]), ms[i])
  }

  lemma BodyAlike(cfg1: Config, cfg2: Config, j: nat, k: nat, m: AgentMessage)
    requires cfg1.codec == cfg2.codec
    ensures MessageBody(cfg1, j, m) == MessageBody(cfg2, k, m) <==> AlikeAt(cfg1.codec, cfg1.frame(j), cfg2.frame(k), m)
  {
    hide Capped, Fits, CutCount;
    var p := PayloadOf(m);
    CappedAlike(cfg1.codec, cfg1.frame(j), cfg2.frame(k), p);
    if m.kind != "" {
      assert MessageBody(cfg1, j, m)[0] == Message(Capped(cfg1.codec, cfg1.frame(j), p).0);
      assert MessageBody(cfg2, k, m)[0] == Message(Capped(cfg2.codec, cfg2.frame(k), p).0);
      assert |MessageBody(cfg1, j, m)| == if Capped(cfg1.codec, cfg1.frame(j), p).1 then 2 else 1;
      assert |MessageBody(cfg2, k, m)| == if Capped(cfg2.codec, cfg2.frame(k), p).1 then 2 else 1;
    }
  }

  /** A message's part ends with the error notice or with the message itself, so
      it can be told from what stands before it. */
  lemma LastPart(cfg1: Config, cfg2: Config, j: nat, k: nat, m: AgentMessage, a: seq<Body>, b: seq<Body>)
    requires a + MessageBody(cfg1, j, m) == b + MessageBody(cfg2, k, m)
    ensures a == b && MessageBody(cfg1, j, m) == MessageBody(cfg2, k, m)
  {
    hide Capped;
    var x, y := MessageBody(cfg1, j, m), MessageBody(cfg2, k, m);
    var w := a + x;
    if m.kind == "" {
      assert a + [] == a && b + [] == b;
    } else {
      assert w[|w| - 1] == x[|x| - 1] == y[|y| - 1];
      assert |x| == |y|;
      assert a == w[..|w| - |x|] && b == w[..|w| - |y|];
      assert x == w[|w| - |x|..] && y == w[|w| - |y|..];
    }
  }

  lemma {:induction false} SameBodies(cfg1: Config, cfg2: Config, ns1: seq<nat>, ns2: seq<nat>, ms: seq<AgentMessage>)
    requires cfg1.codec == cfg2.codec && |ns1| == |ns2| == |ms|
    ensures MessageBodies(cfg1, ns1, ms) == MessageBodies(cfg2, ns2, ms) <==> AllAlike(cfg1, cfg2, ns1, ns2, ms)
    decreases |ms|
  {
    hide MessageBody, AlikeAt, AllAlike;
    if ms == [] {
      NoneAlike(cfg1, cfg2, ns1, ns2, ms);
    } else {
      var i := |ms| - 1;
      SameBodies(cfg1, cfg2, ns1[..i], ns2[..i], ms[..i]);
      BodyAlike(cfg1, cfg2, ns1[i], ns2[i], ms[i]);
      AlikeSoFar(cfg1, cfg2, ns1, ns2, ms);
      if MessageBodies(cfg1, ns1, ms) == MessageBodies(cfg2, ns2, ms) {
        LastPart(cfg1, cfg2, ns1[i], ns2[i], ms[i],
                 MessageBodies(cfg1, ns1[..i], ms[..i]), MessageBodies(cfg2, ns2[..i], ms[..i]));
      }
    }
  }

  lemma NoneAlike(cfg1: Config, cfg2: Config, ns1: seq<nat>, ns2: seq<nat>, ms: seq<AgentMessage>)
    requires |ns1| == |ns2| == |ms| == 0
    ensures AllAlike(cfg1, cfg2, ns1, ns2, ms)
  {
  }

  lemma AlikeSoFar(cfg1: Config, cfg2: Config, ns1: seq<nat>, ns2: seq<nat>, ms: seq<AgentMessage>)
    requires |ns1| == |ns2| == |ms| > 0
    ensures var i := |ms| - 1;
            AllAlike(cfg1, cfg2, ns1, ns2, ms) <==>
            AllAlike(cfg1, cfg2, ns1[..i], ns2[..i], ms[..i])
            && AlikeAt(cfg1.codec, cfg1.frame(ns1[i]), cfg2.frame(ns2[i]), ms[i])
  {
    hide AlikeAt;
    var i := |ms| - 1;
    if AllAlike(cfg1, cfg2, ns1[..i], ns2[..i], ms[..i])
       && AlikeAt(cfg1.codec, cfg1.frame(ns1[i]), cfg2.frame(ns2[i]), ms[i])
    {
      forall k | 0 <= k < |ms| ensures AlikeAt(cfg1.codec, cfg1.frame(ns1[k]), cfg2.frame(ns2[k]), ms[k]) {
        if k < i {
          assert AlikeAt(cfg1.codec, cfg1.frame(ns1[..i][k]), cfg2.frame(ns2[..i][k]), ms[..i][k]);
        }
      }
    }
  }

  /** A finished run without cancel, timeout or insert failure. */
  ghost predicate Undisturbed(cfg: Config, run: seq<Label>, s: Sys) {
    AllSmooth(run) && Exec(cfg, Init, run) == Some(s) && s.pc.Finished?
  }

  /** The backend sent the same messages and the same result, and the daemon was
      shutting down at the end of both or of neither. */
  predicate SameInput(s1: Sys, s2: Sys) {
    s1.pipe.accepted == s2.pipe.accepted && s1.sent == s2.sent && s1.endedDown == s2.endedDown
  }

  lemma LogOf(cfg: Config, run: seq<Label>, s: Sys)
    requires Undisturbed(cfg, run, s)
    ensures s.sent.Some? && Messages(s.items) == s.pipe.accepted
    ensures s.log.rows == FinalRows(cfg, s.items, s.sent.value, s.endedDown)
    ensures s.log.updates == [FinalUpdate(s.sent.value, s.endedDown)]
    ensures Bodies(s.log.rows)
         == [SessionStarted] + MessageBodies(cfg, Numbers(cfg, s.items), Messages(s.items))
            + [EndBody(s.pipe.accepted, s.sent.value, s.endedDown)]
  {
    hide Exec, FinalRows, MessageBodies, Messages, Bodies, Numbers;
    Lossless(cfg, run);
    FinalBodies(cfg, s.items, s.sent.value, s.endedDown);
  }

  /** Confluence, exactly. A configuration stands for one run: `frame` is the length
      of the outer line as its numbers and its clock make it. Two undisturbed runs
      on the same input end with the same row update, whether the pump saw the
      result or the end of the messages first; and with the same log up to
      heartbeats if and only if every message is cut alike in both. */
  lemma ConfluenceExactly(cfg1: Config, cfg2: Config, run1: seq<Label>, run2: seq<Label>, s1: Sys, s2: Sys)
    requires cfg1.codec == cfg2.codec
    requires Undisturbed(cfg1, run1, s1) && Undisturbed(cfg2, run2, s2) && SameInput(s1, s2)
    ensures s1.log.updates == s2.log.updates
    ensures Messages(s1.items) == Messages(s2.items)
    ensures Bodies(s1.log.rows) == Bodies(s2.log.rows)
            <==> AllAlike(cfg1, cfg2, Numbers(cfg1, s1.items), Numbers(cfg2, s2.items), Messages(s1.items))
  {
    hide Undisturbed, FinalRows, MessageBodies, Messages, Bodies, Numbers, AllAlike, EndBody;
    LogOf(cfg1, run1, s1);
    LogOf(cfg2, run2, s2);
    var ns1, ns2, ms := Numbers(cfg1, s1.items), Numbers(cfg2, s2.items), Messages(s1.items);
    SameBodies(cfg1, cfg2, ns1, ns2, ms);
    Framed(SessionStarted, EndBody(s1.pipe.accepted, s1.sent.value, s1.endedDown),
           MessageBodies(cfg1, ns1, ms), MessageBodies(cfg2, ns2, ms));
  }

  lemma Framed(first: Body, last: Body, a: seq<Body>, b: seq<Body>)
    ensures [first] + a + [last] == [first] + b + [last] <==> a == b
  {
    var x, y := [first] + a + [last], [first] + b + [last];
    assert a == x[1..|x| - 1] && b == y[1..|y| - 1];
  }

  // ---------- the same heartbeat positions ----------

  predicate SamePositions(a: seq<Item>, b: seq<Item>) {
    |a| == |b| && forall i :: 0 <= i < |a| ==> a[i].Beat? == b[i].Beat?
  }

  lemma LastItem(a: seq<Item>, b: seq<Item>)
    requires SamePositions(a, b) && a != []
    ensures b != [] && SamePositions(a[..|a| - 1], b[..|b| - 1]) && a[|a| - 1].Beat? == b[|b| - 1].Beat?
  {
  }

  lemma LastMessage(ms: seq<AgentMessage>, ns: seq<AgentMessage>, x: Item, y: Item)
    requires x.Beat? == y.Beat?
    requires ms + (if x.Msg? then [x.message] else []) == ns + (if y.Msg? then [y.message] else [])
    ensures ms == ns && (x.Msg? ==> x == y)
  {
    if x.Msg? {
      var w := ms + [x.message];
      assert w[|w| - 1] == x.message && w[|w| - 1] == y.message;
      assert ms == w[..|w| - 1] && ns == w[..|w| - 1];
    } else {
      assert ms + [] == ms && ns + [] == ns;
    }
  }

  /** With the heartbeats in the same places every message gets the same number. */
  lemma {:induction false} SameNumbers(cfg: Config, a: seq<Item>, b: seq<Item>)
    requires SamePositions(a, b) && Messages(a) == Messages(b)
    ensures Numbers(cfg, a) == Numbers(cfg, b) && |Expand(cfg, a)| == |Expand(cfg, b)|
    decreases |a|
  {
    hide Block, SamePositions;
    if a == [] {
      NoItems(a, b);
    } else {
      LastItem(a, b);
      var u, v := a[..|a| - 1], b[..|b| - 1];
      LastMessage(Messages(u), Messages(v), a[|a| - 1], b[|b| - 1]);
      SameNumbers(cfg, u, v);
      SameBlock(cfg, 1 + |Expand(cfg, u)|, a[|a| - 1], b[|b| - 1]);
    }
  }

  lemma NoItems(a: seq<Item>, b: seq<Item>)
    requires SamePositions(a, b) && a == []
    ensures b == []
  {
  }

  lemma SameBlock(cfg: Config, n: nat, x: Item, y: Item)
    requires x.Beat? == y.Beat? && (x.Msg? ==> x == y)
    ensures |Block(cfg, n, x)| == |Block(cfg, n, y)|
  {
    hide Capped;
  }

  /** Two undisturbed runs on the same input, with the heartbeats in the same places
      and outer lines of the same lengths, leave the same log up to the heartbeats'
      durations, for every codec and however the outer line grows. */
  lemma Confluence(cfg: Config, run1: seq<Label>, run2: seq<Label>, s1: Sys, s2: Sys)
    requires Undisturbed(cfg, run1, s1) && Undisturbed(cfg, run2, s2) && SameInput(s1, s2)
    requires SamePositions(s1.items, s2.items)
    ensures Bodies(s1.log.rows) == Bodies(s2.log.rows) && s1.log.updates == s2.log.updates
  {
    hide Undisturbed, Messages, Bodies, Numbers, SamePositions, CutCount, Fits;
    ConfluenceExactly(cfg, cfg, run1, run2, s1, s2);
    SameNumbers(cfg, s1.items, s2.items);
  }

  /** Without heartbeats the two logs are the same, row by row. */
  lemma ConfluenceWithoutBeats(cfg: Config, run1: seq<Label>, run2: seq<Label>, s1: Sys, s2: Sys)
    requires Undisturbed(cfg, run1, s1) && Undisturbed(cfg, run2, s2) && SameInput(s1, s2)
    requires (forall x :: x in s1.items ==> x.Msg?) && (forall x :: x in s2.items ==> x.Msg?)
    ensures s1.log.rows == s2.log.rows && s1.log.updates == s2.log.updates
  {
    hide Undisturbed, FinalRows, Bodies, Numbers, MessageBodies, EndBody;
    LogOf(cfg, run1, s1);
    LogOf(cfg, run2, s2);
    MessagesOnly(s1.items, s2.items);
  }

  lemma {:induction false} MessagesOnly(a: seq<Item>, b: seq<Item>)
    requires (forall x :: x in a ==> x.Msg?) && (forall x :: x in b ==> x.Msg?)
    requires Messages(a) == Messages(b)
    ensures a == b
    decreases |a|
  {
    if a != [] && b != [] {
      var u, v := Messages(a[..|a| - 1]), Messages(b[..|b| - 1]);
      var x, y := a[|a| - 1], b[|b| - 1];
      assert x in a && y in b;
      assert (u + [x.message])[|u|] == x.message && (v + [y.message])[|v|] == y.message;
      assert (u + [x.message])[..|u|] == u && (v + [y.message])[..|v|] == v;
      MessagesOnly(a[..|a| - 1], b[..|b| - 1]);
      assert a == a[..|a| - 1] + [x] && b == b[..|b| - 1] + [y];
    }
  }

  // ---------- heartbeats anywhere, messages that fit ----------

  /** No outer line of the first `n` numbers is longer than `f`. */
  ghost predicate FrameAtMost(cfg: Config, n: nat, f: nat) {
    forall k: nat :: k < n ==> cfg.frame(k) <= f
  }

  /** Wherever the heartbeats stand and whatever the clocks show, the logs agree
      when every message fits beside the longest outer line of the two runs. */
  lemma ConfluenceWhenFitting(cfg1: Config, cfg2: Config, run1: seq<Label>, run2: seq<Label>, s1: Sys, s2: Sys, f: nat)
    requires cfg1.codec == cfg2.codec
    requires Undisturbed(cfg1, run1, s1) && Undisturbed(cfg2, run2, s2) && SameInput(s1, s2)
    requires FrameAtMost(cfg1, |s1.log.rows|, f) && FrameAtMost(cfg2, |s2.log.rows|, f)
    requires forall m :: m in s1.pipe.accepted ==> Fits(cfg1.codec, f, PayloadOf(m))
    ensures Bodies(s1.log.rows) == Bodies(s2.log.rows)
  {
    hide Undisturbed, FinalRows, MessageBodies, Bodies, Numbers, Messages, Fits, CutCount,
         AlikeAt, EndBody, Expand, FrameAtMost;
    ConfluenceExactly(cfg1, cfg2, run1, run2, s1, s2);
    LogOf(cfg1, run1, s1);
    LogOf(cfg2, run2, s2);
    RowsOf(cfg1, s1.items, s1.sent.value, s1.endedDown);
    RowsOf(cfg2, s2.items, s2.sent.value, s2.endedDown);
    var ns1, ns2, ms := Numbers(cfg1, s1.items), Numbers(cfg2, s2.items), Messages(s1.items);
    forall i | 0 <= i < |ms| ensures AlikeAt(cfg1.codec, cfg1.frame(ns1[i]), cfg2.frame(ns2[i]), ms[i]) {
      assert ms[i] in ms;
      FittingAlike(cfg1, cfg2, ns1[i], ns2[i], |s1.log.rows|, |s2.log.rows|, f, ms[i]);
    }
  }

  lemma RowsOf(cfg: Config, items: seq<Item>, r: AgentResult, shutdown: bool)
    ensures |FinalRows(cfg, items, r, shutdown)| == |Expand(cfg, items)| + 2
  {
    hide Expand;
  }

  lemma FittingAlike(cfg1: Config, cfg2: Config, j: nat, k: nat, n1: nat, n2: nat, f: nat, m: AgentMessage)
    requires cfg1.codec == cfg2.codec && FrameAtMost(cfg1, n1, f) && FrameAtMost(cfg2, n2, f)
    requires (m.kind == "" || (j < n1 && k < n2)) && Fits(cfg1.codec, f, PayloadOf(m))
    ensures AlikeAt(cfg1.codec, cfg1.frame(j), cfg2.frame(k), m)
  {
    if m.kind != "" {
      assert cfg1.frame(j) <= f && cfg2.frame(k) <= f;
    }
  }

  // ---------- a heartbeat that matters ----------

  const Good := Io(true, true)

  function Beats(k: nat): seq<Item> { if k == 0 then [] else Beats(k - 1) + [Beat(0)] }

  lemma Extend(cfg: Config, run: seq<Label>, s: Sys, a: Label, t: Sys)
    requires AllSmooth(run) && Exec(cfg, Init, run) == Some(s) && Smooth(a) && Next(cfg, s, a) == Some(t)
    ensures AllSmooth(run + [a]) && Exec(cfg, Init, run + [a]) == Some(t)
  {
    hide Next, Smooth;
    ExecSnoc(cfg, Init, run, s, a, t);
  }

  /** At the select, nothing taken in but `k` heartbeats. */
  predicate OnlyBeats(s: Sys, k: nat) {
    s == Init.(log := s.log, items := Beats(k))
  }

  lemma {:induction false} BeatRun(cfg: Config, k: nat) returns (run: seq<Label>, s: Sys)
    ensures AllSmooth(run) && Exec(cfg, Init, run) == Some(s) && OnlyBeats(s, k)
    decreases k
  {
    hide Exec, Next, Smooth, AllSmooth, Beats;
    NoBeats(cfg);
    if k == 0 {
      run, s := [], Init;
    } else {
      var run0, s0 := BeatRun(cfg, k - 1);
      BeatStep(cfg, s0, k - 1);
      s := Next(cfg, s0, Tick(0, Good)).value;
      run := run0 + [Tick(0, Good)];
      Extend(cfg, run0, s0, Tick(0, Good), s);
    }
  }

  lemma NoBeats(cfg: Config)
    ensures AllSmooth([]) && Exec(cfg, Init, []) == Some(Init) && Beats(0) == []
  {
  }

  lemma BeatStep(cfg: Config, s: Sys, k: nat)
    requires OnlyBeats(s, k)
    ensures Smooth(Tick(0, Good)) && Next(cfg, s, Tick(0, Good)).Some?
            && OnlyBeats(Next(cfg, s, Tick(0, Good)).value, k + 1)
  {
    hide NextOutside;
  }

  /** The message goes through the pipe into the log. */
  lemma OneMessage(cfg: Config, run: seq<Label>, s: Sys, k: nat, m: AgentMessage) returns (run': seq<Label>, t: Sys)
    requires AllSmooth(run) && Exec(cfg, Init, run) == Some(s) && OnlyBeats(s, k)
    ensures AllSmooth(run') && Exec(cfg, Init, run') == Some(t)
    ensures t.items == Beats(k) + [Msg(m)] && t.pipe.accepted == [m]
            && t.pipe.relay.Top? && t.pipe.q == [] && !t.pipe.closed
    ensures t.pc.Select? && t.chan.Open? && !t.shutdown
  {
    hide Exec, AllSmooth, OnMessage, Beats, NextPump;
    var s1 := s.(pipe := s.pipe.(q := [m], kicks := 1, accepted := [m]));
    assert [] + [m] == [m] && [m][1..] == [];
    Extend(cfg, run, s, Pipe(MP.Send(m)), s1);
    var s2 := s1.(pipe := s1.pipe.(q := [], relay := MP.Holding(m)));
    Extend(cfg, run + [Pipe(MP.Send(m))], s1, Pipe(MP.Enter), s2);
    TakeMessage(cfg, s2, m);
    t := Received(cfg, s2, Good, Good);
    run' := run + [Pipe(MP.Send(m))] + [Pipe(MP.Enter)] + [Recv(Good, Good)];
    Extend(cfg, run + [Pipe(MP.Send(m))] + [Pipe(MP.Enter)], s2, Recv(Good, Good), t);
  }

  lemma TakeMessage(cfg: Config, s: Sys, m: AgentMessage)
    requires s.pc.Select? && s.pipe.relay == MP.Holding(m)
    ensures Smooth(Recv(Good, Good)) && Next(cfg, s, Recv(Good, Good)) == Some(Received(cfg, s, Good, Good))
    ensures var t := Received(cfg, s, Good, Good);
            && t.items == s.items + [Msg(m)] && t.pc == s.pc
            && t.pipe == s.pipe.(delivered := s.pipe.delivered + [m], relay := MP.Top)
  {
    hide Received, NextOutside;
    MessageTaken(cfg, s, m);
  }

  lemma MessageTaken(cfg: Config, s: Sys, m: AgentMessage)
    requires s.pc.Select? && s.pipe.relay == MP.Holding(m)
    ensures var t := Received(cfg, s, Good, Good);
            && t.items == s.items + [Msg(m)] && t.pc == s.pc
            && t.pipe == s.pipe.(delivered := s.pipe.delivered + [m], relay := MP.Top)
  {
    hide OnMessage, Abort, MP.Next;
    OnMessageRows(cfg, s.log, m, Good, Good);
    DeliverEnabled(s.pipe);
  }

  /** The backend closes the pipe, and the pump waits for its result. */
  lemma ToTheWait(cfg: Config, run: seq<Label>, s: Sys) returns (run': seq<Label>, t: Sys)
    requires AllSmooth(run) && Exec(cfg, Init, run) == Some(s)
    requires s.pc.Select? && s.pipe.relay.Top? && s.pipe.q == [] && !s.pipe.closed
    ensures AllSmooth(run') && Exec(cfg, Init, run') == Some(t)
    ensures t == s.(pipe := t.pipe, pc := ClosedWait) && t.pipe.accepted == s.pipe.accepted
  {
    hide Exec, AllSmooth, Finalize;
    var s1 := s.(pipe := s.pipe.(closed := true, kicks := s.pipe.kicks + 1));
    Extend(cfg, run, s, Pipe(MP.Close), s1);
    var s2 := s1.(pipe := s1.pipe.(relay := MP.Done));
    Extend(cfg, run + [Pipe(MP.Close)], s1, Pipe(MP.Enter), s2);
    t := s2.(pc := ClosedWait);
    Extend(cfg, run + [Pipe(MP.Close)] + [Pipe(MP.Enter)], s2, SeeClosed, t);
    run' := run + [Pipe(MP.Close)] + [Pipe(MP.Enter)] + [SeeClosed];
  }

  /** It sends its result, and the stream ends. */
  lemma ToTheEnd(cfg: Config, run: seq<Label>, s: Sys, r: AgentResult) returns (run': seq<Label>, t: Sys)
    requires AllSmooth(run) && Exec(cfg, Init, run) == Some(s)
    requires s.pc.ClosedWait? && s.chan.Open? && !s.shutdown
    ensures Undisturbed(cfg, run', t) && t.items == s.items && t.pipe == s.pipe
    ensures t.sent == Some(r) && !t.endedDown
  {
    hide Exec, AllSmooth, Finalize, MP.Next;
    var s1 := s.(chan := Buffered(r), sent := Some(r));
    Extend(cfg, run, s, SendResult(r), s1);
    var s2 := s1.(pc := Ending(r), chan := Empty);
    Extend(cfg, run + [SendResult(r)], s1, WaitResult, s2);
    t := s2.(log := Finalize(s2.log, r, false, Good), pc := Finished, endedDown := false);
    run' := run + [SendResult(r)] + [WaitResult] + [EndStream(Good)];
    Extend(cfg, run + [SendResult(r)] + [WaitResult], s2, EndStream(Good), t);
  }

  lemma OneMessageAfter(cfg: Config, k: nat, m: AgentMessage, r: AgentResult) returns (run: seq<Label>, s: Sys)
    ensures Undisturbed(cfg, run, s) && s.items == Beats(k) + [Msg(m)]
    ensures s.pipe.accepted == [m] && s.sent == Some(r) && !s.endedDown
  {
    hide *;
    var run0, s0 := BeatRun(cfg, k);
    var run1, s1 := OneMessage(cfg, run0, s0, k, m);
    var run2, s2 := ToTheWait(cfg, run1, s1);
    run, s := ToTheEnd(cfg, run2, s2, r);
  }

  lemma {:induction false} BeatsExpand(cfg: Config, k: nat)
    ensures |Expand(cfg, Beats(k))| == k && Messages(Beats(k)) == [] && Numbers(cfg, Beats(k)) == []
  {
    if k > 0 {
      BeatsExpand(cfg, k - 1);
      assert Beats(k)[..|Beats(k)| - 1] == Beats(k - 1);
    }
  }

  lemma AfterBeats(cfg: Config, k: nat, m: AgentMessage)
    ensures Numbers(cfg, Beats(k) + [Msg(m)]) == [k + 1] && Messages(Beats(k) + [Msg(m)]) == [m]
  {
    hide Expand;
    BeatsExpand(cfg, k);
    assert (Beats(k) + [Msg(m)])[..|Beats(k)|] == Beats(k);
  }

  /** One message and `k` or `k + 1` heartbeats before it: for every configuration
      there are two such runs, and they leave the same log up to heartbeats if and
      only if the message is cut alike at the numbers `k + 1` and `k + 2`. */
  lemma OneBeatMore(cfg: Config, k: nat, m: AgentMessage, r: AgentResult)
    returns (run1: seq<Label>, run2: seq<Label>, s1: Sys, s2: Sys)
    ensures Undisturbed(cfg, run1, s1) && Undisturbed(cfg, run2, s2) && SameInput(s1, s2)
    ensures s1.items == Beats(k) + [Msg(m)] && s2.items == Beats(k + 1) + [Msg(m)]
    ensures Bodies(s1.log.rows) == Bodies(s2.log.rows) <==> AlikeAt(cfg.codec, cfg.frame(k + 1), cfg.frame(k + 2), m)
  {
    hide Undisturbed, Bodies, Numbers, Messages, AlikeAt, Beats;
    run1, s1 := OneMessageAfter(cfg, k, m, r);
    run2, s2 := OneMessageAfter(cfg, k + 1, m, r);
    AfterBeats(cfg, k, m);
    AfterBeats(cfg, k + 1, m);
    ConfluenceExactly(cfg, cfg, run1, run2, s1, s2);
    OneAlike(cfg, k + 1, k + 2, m);
  }

  lemma OneAlike(cfg: Config, j: nat, k: nat, m: AgentMessage)
    ensures AllAlike(cfg, cfg, [j], [k], [m]) <==> AlikeAt(cfg.codec, cfg.frame(j), cfg.frame(k), m)
  {
    hide AlikeAt;
    var ns1, ns2, ms := [j], [k], [m];
    if AllAlike(cfg, cfg, ns1, ns2, ms) {
      assert AlikeAt(cfg.codec, cfg.frame(ns1[0]), cfg.frame(ns2[0]), ms[0]);
    }
    if AlikeAt(cfg.codec, cfg.frame(j), cfg.frame(k), m) {
      assert forall i :: 0 <= i < |ms| ==> AlikeAt(cfg.codec, cfg.frame(ns1[i]), cfg.frame(ns2[i]), ms[i]);
    }
  }

  function Digits(n: nat): nat { if n < 10 then 1 else 1 + Digits(n / 10) }

  /** Plain text, and an outer line that grows with the digits of the number. */
  function PlainConfig(): Config { Config(Codec(s => |s|), n => 100 + Digits(n)) }

  /** A text message whose line has exactly the largest length at a one-digit number. */
  function FullMessage(): AgentMessage {
    AgentMessage("text", seq(MAX_LINE_BYTES - 128, _ => 'a'), "", "", None, "", "", "", "")
  }

  /** Such a message at number 9 or, behind one more heartbeat, at number 10. */
  lemma HeartbeatFlips(r: AgentResult) returns (run1: seq<Label>, run2: seq<Label>, s1: Sys, s2: Sys)
    ensures Undisturbed(PlainConfig(), run1, s1) && Undisturbed(PlainConfig(), run2, s2) && SameInput(s1, s2)
    ensures s1.items == Beats(8) + [Msg(FullMessage())] && s2.items == Beats(9) + [Msg(FullMessage())]
    ensures Bodies(s1.log.rows) != Bodies(s2.log.rows)
  {
    hide Undisturbed, Bodies, Beats, Numbers, Messages;
    run1, run2, s1, s2 := OneBeatMore(PlainConfig(), 8, FullMessage(), r);
    FullAtNine();
  }

  lemma FullAtNine()
    ensures !AlikeAt(PlainConfig().codec, PlainConfig().frame(9), PlainConfig().frame(10), FullMessage())
  {
    hide CutCount;
    var p := PayloadOf(FullMessage());
    var c := PlainConfig();
    assert Digits(9) == 1 && Digits(10) == 2;
    assert LineLen(c.codec, c.frame(9), p) == MAX_LINE_BYTES;
    assert LineLen(c.codec, c.frame(10), p) == MAX_LINE_BYTES + 1;
  }
}
