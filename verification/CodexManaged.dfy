/** Rendering the saved servers into the managed block, and the file rewrite. */
module CodexManaged {
  import opened Strings
  import opened Wrappers
  import opened CodexToml
  import opened CodexBlocks
  import opened CodexConfig
  import opened CodexMarked
  import CodexTables
  import opened Lines

  /** One saved server, in the order of the names. */
  datatype ServerValue = BadJson | JsonNull | Table(fields: Fields)
  datatype Server = Server(name: string, value: ServerValue)

  /** The saved configuration: nothing or null, something that does not parse, or
      a set of servers, possibly empty. */
  datatype McpConfig = Unset | Unreadable | Servers(servers: seq<Server>)

  const TABLE := "[mcp_servers."

  function FieldLines(fields: Fields): Option<string> {
    match fields
    case NoField => Some("")
    case Field(key, value, rest) =>
      var v := Render(value);
      var more := FieldLines(rest);
      if v.None? || more.None? then None else Some(KeyText(key) + " = " + v.value + "\n" + more.value)
  }

  function TableText(s: Server): Option<string> {
    if !BareKey(s.name) || !s.value.Table? || FieldLines(s.value.fields).None? then None
    else Some(TABLE + s.name + "]\n" + FieldLines(s.value.fields).value)
  }

  /** The tables between the markers, a blank line between each two. */
  function BodyText(servers: seq<Server>): Option<string> {
    if servers == [] then Some("")
    else
      var first := TableText(servers[0]);
      var more := BodyText(servers[1..]);
      if first.None? || more.None? then None
      else Some(first.value + (if |servers| == 1 then "" else "\n") + more.value)
  }

  // ---------- the body holds no marker line ----------

  lemma BodyConcat(a: string, b: string)
    requires Body(a) && Body(b)
    ensures Body(a + b)
  {
    forall i | 0 <= i < |a + b| && LineStart(a + b, i)
      ensures (a + b)[i] != '#'
    {
      if i < |a| {
        assert LineStart(a, i);
      } else {
        assert LineStart(b, i - |a|);
      }
    }
  }

  lemma LineIsBody(line: string)
    requires line != "" && line[0] != '#' && Inline(line)
    ensures Body(line + "\n")
  {
    assert forall i :: 0 <= i < |line| ==> line[i] in line;
  }

  lemma BlankIsBody()
    ensures Body("\n") && Body("")
  {
  }

  lemma KeyNotHash(key: string)
    ensures KeyText(key) != "" && KeyText(key)[0] != '#'
  {
    if BareKey(key) {
      assert IsBare(key[0]);
    }
  }

  lemma {:induction false} FieldLinesBody(fields: Fields)
    requires FieldLines(fields).Some?
    ensures Body(FieldLines(fields).value)
  {
    hide Body, Render, KeyText, Inline;
    BlankIsBody();
    match fields {
      case NoField =>
      case Field(key, value, rest) =>
        var line := KeyText(key) + " = " + Render(value).value;
        FieldLinesBody(rest);
        KeyInline(key);
        KeyNotHash(key);
        RenderInline(value);
        LineInline(KeyText(key), Render(value).value);
        LineIsBody(line);
        BodyConcat(line + "\n", FieldLines(rest).value);
    }
  }

  lemma LineInline(k: string, v: string)
    requires Inline(k) && Inline(v)
    ensures Inline(k + " = " + v)
  {
  }

  lemma {:induction false} TableBody(s: Server)
    requires TableText(s).Some?
    ensures Body(TableText(s).value)
  {
    hide Body, FieldLines;
    FieldLinesBody(s.value.fields);
    HeaderIsBody(s.name);
    BodyConcat(TABLE + s.name + "]" + "\n", FieldLines(s.value.fields).value);
    assert TableText(s).value == TABLE + s.name + "]" + "\n" + FieldLines(s.value.fields).value;
  }

  lemma HeaderIsBody(name: string)
    requires BareKey(name)
    ensures Body(TABLE + name + "]" + "\n")
  {
    assert forall c :: IsBare(c) ==> c as nat >= 0x20 && c as nat != 0x7f;
    LineIsBody(TABLE + name + "]");
  }

  /** Whatever the servers' names, keys and values are, no line between the
      markers begins like a marker. */
  lemma {:induction false} BodyTextBody(servers: seq<Server>)
    requires BodyText(servers).Some?
    ensures Body(BodyText(servers).value)
  {
    hide Body, TableText;
    BlankIsBody();
    if servers != [] {
      var first := TableText(servers[0]).value;
      var gap := if |servers| == 1 then "" else "\n";
      TableBody(servers[0]);
      BodyTextBody(servers[1..]);
      BodyConcat(first, gap);
      BodyConcat(first + gap, BodyText(servers[1..]).value);
    }
  }

  // ---------- the body says what was saved ----------

  function ReadLines(t: string): (r: Option<(Fields, string)>)
    ensures r.Some? ==> |r.value.1| <= |t|
    decreases |t|
  {
    if t == "" || t[0] == '\n' then Some((NoField, t))
    else
      match ReadKey(t)
      case None => None
      case Some((key, u)) =>
        if !StartsWith(u, " = ") then None
        else
          match ReadValue(u[3..])
          case None => None
          case Some((v, w)) =>
            if w == "" || w[0] != '\n' then None
            else
              match ReadLines(w[1..])
              case None => None
              case Some((more, rest)) => Some((Field(key, v, more), rest))
  }

  function ReadTables(t: string): Option<seq<Server>>
    decreases |t|
  {
    if t == "" then Some([])
    else if !StartsWith(t, "[mcp_servers.") then None
    else
      var u := t[13..];
      var n := BareRun(u);
      if n == 0 || !StartsWith(u[n..], "]\n") then None
      else
        match ReadLines(u[n + 2..])
        case None => None
        case Some((fields, w)) =>
          var server := Server(u[..n], Table(fields));
          if w == "" then Some([server])
          else
            match ReadTables(w[1..])
            case None => None
            case Some(more) => Some([server] + more)
  }

  function PlainServer(s: Server): Server {
    if s.value.Table? then s.(value := Table(PlainFields(s.value.fields))) else s
  }

  function PlainServers(servers: seq<Server>): seq<Server> {
    if servers == [] then [] else [PlainServer(servers[0])] + PlainServers(servers[1..])
  }

  lemma {:induction false} LinesRead(fields: Fields, t: string)
    requires FieldLines(fields).Some? && (t == "" || t[0] == '\n')
    ensures ReadLines(FieldLines(fields).value + t) == Some((PlainFields(fields), t))
  {
    hide Render, KeyText, ReadKey, ReadValue;
    match fields {
      case NoField =>
        assert FieldLines(fields).value + t == t;
      case Field(key, value, rest) =>
        var k, v := KeyText(key), Render(value).value;
        var more := FieldLines(rest).value + t;
        LinesRead(rest, t);
        KeyReads(key, " = " + v + "\n" + more);
        RenderReads(value, "\n" + more);
        KeyNotHash(key);
        KeyInline(key);
        assert k[0] in k;
        assert FieldLines(fields).value + t == k + (" = " + v + "\n" + more);
        assert (" = " + v + "\n" + more)[3..] == v + ("\n" + more);
        assert ("\n" + more)[1..] == more;
    }
  }

  /** Read back, the tables are the saved servers, up to the sign of zeros. */
  lemma {:induction false} BodyReads(servers: seq<Server>)
    requires BodyText(servers).Some?
    ensures ReadTables(BodyText(servers).value) == Some(PlainServers(servers))
  {
    hide FieldLines, ReadLines, BareRun, BareKey;
    if servers != [] {
      var s := servers[0];
      var more := BodyText(servers[1..]).value;
      var rest := if |servers| == 1 then "" else "\n" + more;
      var lines := FieldLines(s.value.fields).value;
      var t := BodyText(servers).value;
      assert |servers| == 1 ==> more == "";
      assert t == TABLE + (s.name + ("]\n" + (lines + rest)));
      BodyReads(servers[1..]);
      LinesRead(s.value.fields, rest);
      BareName(s.name, "]\n" + (lines + rest));
      OneTable(s.name, lines + rest);
      assert rest != "" ==> rest[1..] == more;
      assert |servers| == 1 ==> PlainServers(servers[1..]) == [];
      assert |servers| == 1 ==> [PlainServer(s)] + [] == [PlainServer(s)];
    }
  }

  lemma BareName(name: string, t: string)
    requires BareKey(name) && t != "" && t[0] == ']'
    ensures BareRun(name + t) == |name| > 0
  {
    BareRunOf(name, t);
  }

  lemma OneTable(name: string, u: string)
    ensures var t := TABLE + (name + ("]\n" + u));
            StartsWith(t, TABLE) && t[|TABLE|..] == name + ("]\n" + u)
    ensures (name + ("]\n" + u))[..|name|] == name && (name + ("]\n" + u))[|name| + 2..] == u
    ensures StartsWith((name + ("]\n" + u))[|name|..], "]\n")
  {
    var t := TABLE + (name + ("]\n" + u));
    assert t[..|TABLE|] == TABLE;
    assert (name + ("]\n" + u))[|name|..] == "]\n" + u;
  }

  // ---------- the file ----------

  /** The text after a successful rewrite; none when the configuration does not render. */
  function Target(text: string, config: McpConfig): Option<string> {
    match config
    case Unset => Some(StripBlocks(text))
    case Unreadable => None
    case Servers(servers) =>
      var body := BodyText(servers);
      if body.None? then None else Some(Managed(text, body.value))
  }

  /** A configuration that does not render leaves the file alone. */
  function Apply(text: string, config: McpConfig): string {
    var t := Target(text, config);
    if t.None? then text else t.value
  }

  function ApplyAll(text: string, configs: seq<McpConfig>): string
    decreases |configs|
  {
    if configs == [] then text else ApplyAll(Apply(text, configs[0]), configs[1..])
  }

  lemma ApplyKeeps(text: string, config: McpConfig)
    requires WellMarked(text)
    ensures WellMarked(Apply(text, config)) && Residue(Apply(text, config)) == Residue(text)
  {
    hide WellMarked, StripBlocks, Managed, Residue, BodyText;
    ClearKeeps(text);
    if config.Servers? && BodyText(config.servers).Some? {
      BodyTextBody(config.servers);
      SetKeeps(text, BodyText(config.servers).value);
    }
  }

  /** Over any history of rewrites of a well-marked file, in which sets, clears
      and failures alternate at will, the file stays well-marked, the user's text
      is what one rewrite makes of it, and a set of servers leaves the file as if
      nothing had been managed before. */
  lemma {:induction false} HistoryForgets(text: string, configs: seq<McpConfig>, last: seq<Server>)
    requires WellMarked(text)
    ensures WellMarked(ApplyAll(text, configs))
    ensures Residue(ApplyAll(text, configs)) == Residue(text)
    ensures Target(ApplyAll(text, configs), Servers(last)) == Target(text, Servers(last))
    decreases |configs|
  {
    hide WellMarked, Residue, Apply, BodyText;
    if configs != [] {
      ApplyKeeps(text, configs[0]);
      HistoryForgets(Apply(text, configs[0]), configs[1..], last);
    }
  }

  /** What is left of the user's text in front of a block: the lines that no
      block and no server's table took, without the newlines at the end. */
  predicate UserText(before: string, s: string) {
    var kept := Join(CodexTables.Others(Split(StripBlocks(before))));
    && s <= kept && (forall i :: |s| <= i < |kept| ==> kept[i] == '\n')
    && (s == "" || s[|s| - 1] != '\n')
  }

  lemma {:induction false} TrimmedText(s: string)
    ensures TrimNewlines(s) <= s && forall i :: |TrimNewlines(s)| <= i < |s| ==> s[i] == '\n'
  {
    if s != "" && s[|s| - 1] == '\n' { TrimmedText(s[..|s| - 1]); }
  }

  lemma ResidueIsUserText(text: string)
    ensures UserText(text, Residue(text))
  {
    hide StripBlocks, CodexTables.StripTables, Split, Join, CodexTables.Others, TrimNewlines;
    ResidueIs(text);
    CodexTables.StripTablesFacts(StripBlocks(text));
    TrimmedText(CodexTables.StripTables(StripBlocks(text)));
    ResidueFacts(text);
  }

  /** A file with one block, in which the tables of these servers can be read. */
  ghost predicate HoldsServers(before: string, after: string, servers: seq<Server>) {
    exists s, b :: UserText(before, s) && Body(b) && after == (if s == "" then "" else s + "\n\n") + Block(b)
                   && ReadTables(b) == Some(PlainServers(servers))
  }

  lemma SetHolds(text: string, servers: seq<Server>)
    requires Target(text, Servers(servers)).Some?
    ensures HoldsServers(text, Target(text, Servers(servers)).value, servers)
  {
    hide BodyText, ReadTables, UserText, Body, Residue, Block;
    var b := BodyText(servers).value;
    BodyTextBody(servers);
    BodyReads(servers);
    ResidueIsUserText(text);
    assert UserText(text, Residue(text)) && Body(b);
  }

  /** The file holds one block between lines of the user's. */
  ghost predicate BlockBetween(text: string, x: string, b: string, y: string) {
    && text == x + Block(b) + y && Body(b)
    && WholeLines(x) && BeginFree(x) && BeginFree(y) && (y == "" || y[0] != '\n')
  }

  /** Clearing takes the block out and leaves the lines around it as they are. */
  lemma ClearLeaves(text: string, x: string, b: string, y: string)
    requires BlockBetween(text, x, b, y)
    ensures Target(text, Unset) == Some(x + y)
  {
    hide StripFrom, Block, Body, BeginFree;
    StripBetween(x, b, y, 0);
    assert x[0..] == x;
  }

  /** Clearing leaves no begin line exactly in a well-marked file, and what it
      leaves behind a set is the user's text. */
  lemma ClearedFile(text: string, servers: seq<Server>)
    ensures BeginFree(Target(text, Unset).value) <==> WellMarked(text)
    ensures WellMarked(text) && Target(text, Servers(servers)).Some? ==>
              var s := Residue(text);
              Target(Target(text, Servers(servers)).value, Unset) == Some(if s == "" then "" else s + "\n\n")
  {
    hide StripBlocks, WellMarked, BodyText, Residue, BeginFree, Block;
    ClearedExactly(text);
    if WellMarked(text) && BodyText(servers).Some? {
      BodyTextBody(servers);
      MarkedResidue(text);
      ClearAfterSet(text, BodyText(servers).value);
    }
  }

  lemma {:induction false} ApplyAllSnoc(text: string, configs: seq<McpConfig>, c: McpConfig)
    ensures ApplyAll(text, configs + [c]) == Apply(ApplyAll(text, configs), c)
    decreases |configs|
  {
    hide Apply;
    if configs == [] {
      assert [] + [c] == [c] && [c][1..] == [];
      assert ApplyAll(Apply(text, c), []) == Apply(text, c);
    } else {
      assert (configs + [c])[1..] == configs[1..] + [c];
      ApplyAllSnoc(Apply(text, configs[0]), configs[1..], c);
    }
  }

  /** A history of rewrites of a well-marked file that ends in a clear leaves no
      begin line; and if servers were set just before, it leaves the user's text
      alone, whatever was managed earlier. */
  lemma HistoryCleared(text: string, configs: seq<McpConfig>, servers: seq<Server>)
    requires WellMarked(text)
    ensures BeginFree(ApplyAll(text, configs + [Unset]))
    ensures Target(text, Servers(servers)).Some? ==>
              var s := Residue(text);
              ApplyAll(text, configs + [Servers(servers), Unset]) == (if s == "" then "" else s + "\n\n")
  {
    hide WellMarked, BodyText, Residue, BeginFree, ApplyAll, Target;
    HistoryForgets(text, configs, servers);
    var t := ApplyAll(text, configs);
    ApplyAllSnoc(text, configs, Unset);
    ApplyAllSnoc(text, configs, Servers(servers));
    ApplyAllSnoc(text, configs + [Servers(servers)], Unset);
    assert configs + [Servers(servers)] + [Unset] == configs + [Servers(servers), Unset];
    UnsetRenders(t);
    ClearedFile(t, servers);
    if Target(t, Servers(servers)).Some? { UnsetRenders(Target(t, Servers(servers)).value); }
  }

  lemma UnsetRenders(text: string)
    ensures Target(text, Unset).Some?
  {
    hide StripBlocks;
  }

  /** What cannot be rendered: a server whose name is no bare key, that is no
      object, or that has a null at any depth. */
  predicate Unfit(s: Server) {
    !BareKey(s.name) || !s.value.Table? || FieldsHaveNull(s.value.fields)
  }

  lemma {:induction false} LinesFail(fields: Fields)
    ensures FieldLines(fields).None? <==> FieldsHaveNull(fields)
  {
    hide Render, HasNull, KeyText;
    match fields {
      case NoField =>
      case Field(_, value, rest) =>
        RenderInline(value);
        LinesFail(rest);
    }
  }

  lemma {:induction false} BodyFails(servers: seq<Server>)
    ensures BodyText(servers).None? <==> exists i :: 0 <= i < |servers| && Unfit(servers[i])
  {
    hide FieldLines, BareKey;
    if servers != [] {
      if servers[0].value.Table? { LinesFail(servers[0].value.fields); }
      BodyFails(servers[1..]);
      assert Unfit(servers[0]) ==> exists i :: 0 <= i < |servers| && Unfit(servers[i]);
      assert forall i :: 0 <= i < |servers| - 1 ==> servers[1..][i] == servers[i + 1];
      if i :| 0 <= i < |servers| - 1 && Unfit(servers[1..][i]) {
        assert Unfit(servers[i + 1]);
      }
    }
  }

  // ---------- the code ----------

  datatype Rendered = Failed | Rendered(block: string, hasServers: bool)

  lemma BodyNone()
    ensures BodyText([]) == Some("")
  {
  }

  lemma BodyStep(servers: seq<Server>, i: nat)
    requires i < |servers|
    ensures var first := TableText(servers[i]);
            var more := BodyText(servers[i + 1..]);
            BodyText(servers[i..]) ==
              if first.None? || more.None? then None
              else Some(first.value + ((if i + 1 == |servers| then "" else "\n") + more.value))
  {
    hide TableText;
    assert servers[i..][1..] == servers[i + 1..];
    var first := TableText(servers[i]);
    var more := BodyText(servers[i + 1..]);
    if first.Some? && more.Some? {
      var gap := if i + 1 == |servers| then "" else "\n";
      assert first.value + gap + more.value == first.value + (gap + more.value);
    }
  }

  /** renderCodexMcpServersBlock */
  method RenderCodexMcpServersBlock(config: McpConfig) returns (r: Rendered)
    ensures r.Failed? <==> config.Unreadable? || (config.Servers? && BodyText(config.servers).None?)
    ensures r.Failed? <==> config.Unreadable? || (config.Servers? && exists s :: s in config.servers && Unfit(s))
    ensures r.Rendered? ==> r.hasServers == (config.Servers? && config.servers != [])
    ensures r.Rendered? ==> r.block == if r.hasServers then Block(BodyText(config.servers).value) else ""
  {
    hide TableText, FieldLines, BareKey, BodyText, Unfit;
    BodyNone();
    if config.Servers? { BodyFails(config.servers); }
    match config {
      case Unset => return Rendered("", false);
      case Unreadable => return Failed;
      case Servers(servers) =>
        if servers == [] {
          return Rendered("", false);
        }
        var text := BEGIN + "\n";
        ghost var body := "";
        for i := 0 to |servers|
          invariant text == BEGIN + "\n" + body
          invariant BodyText(servers).None? <==> BodyText(servers[i..]).None?
          invariant BodyText(servers).Some? ==>
                      BodyText(servers).value == body + (if 0 < i < |servers| then "\n" else "")
                        + BodyText(servers[i..]).value
        {
          if i > 0 {
            text := text + "\n";
            body := body + "\n";
          }
          BodyStep(servers, i);
          var table := RenderTable(servers[i]);
          if table.None? {
            return Failed;
          }
          text := text + table.value;
          body := body + table.value;
        }
        assert servers[|servers|..] == [];
        return Rendered(text + END + "\n", true);
    }
  }

  method RenderTable(s: Server) returns (text: Option<string>)
    ensures text == TableText(s)
  {
    hide Render, KeyText, BareKey;
    if !BareKey(s.name) {
      return None;
    }
    if !s.value.Table? {
      return None;
    }
    var out := TABLE + s.name + "]\n";
    ghost var head := out;
    var left := s.value.fields;
    while left.Field?
      invariant FieldLines(s.value.fields).None? <==> FieldLines(left).None?
      invariant FieldLines(left).Some? ==> out + FieldLines(left).value == head + FieldLines(s.value.fields).value
      decreases left
    {
      var v := Render(left.value);
      if v.None? {
        return None;
      }
      ghost var line := KeyText(left.key) + " = " + v.value + "\n";
      assert FieldLines(left).Some? ==> FieldLines(left).value == line + FieldLines(left.rest).value;
      assert FieldLines(left).Some? ==>
        out + (line + FieldLines(left.rest).value) == (out + line) + FieldLines(left.rest).value;
      out := out + KeyText(left.key) + " = " + v.value + "\n";
      left := left.rest;
    }
    assert out + "" == out;
    return Some(out);
  }

  datatype Failure = ReadFailed | RenderFailed | WriteFailed | ModeFailed

  /** Which of the calls on the file fail, and what a failed write leaves. */
  datatype Faults = Faults(read: bool, write: bool, mode: bool, leaves: string)

  /** config.toml: whether it is there, its text, and whether only its owner may read it. */
  class ConfigFile {
    var present: bool
    var text: string
    var ownerOnly: bool

    /** ensureCodexMcpConfig: on success the file holds the target text, and a
        text that was written is readable by its owner only; a failure before the
        write leaves the file as it was. */
    method Ensure(config: McpConfig, faults: Faults) returns (err: Option<Failure>)
      requires !present ==> text == ""
      modifies this
      ensures err == Some(ReadFailed) <==> faults.read
      ensures err == Some(RenderFailed) <==> !faults.read && Target(old(text), config).None?
      ensures err == Some(ReadFailed) || err == Some(RenderFailed) ==> unchanged(this)
      ensures err == None || err == Some(ModeFailed) ==> Target(old(text), config) == Some(text)
      ensures err == None && text != old(text) ==> present && ownerOnly
      ensures err == None && text == old(text) ==> unchanged(this)
      ensures (err == None || err == Some(ModeFailed)) && config.Servers? ==>
                HoldsServers(old(text), text, config.servers)
      ensures (err == None || err == Some(ModeFailed)) && config.Unset? ==>
                && (BeginFree(text) <==> WellMarked(old(text)))
                && (forall x, b, y :: BlockBetween(old(text), x, b, y) ==> text == x + y)
    {
      hide StripBlocks, CodexTables.StripTables, Residue, TrimNewlines, BodyText, HoldsServers, BeginFree, WellMarked;
      hide BlockBetween;
      ClearFacts(text);
      if config.Servers? && Target(text, config).Some? { SetHolds(text, config.servers); }
      if faults.read {
        return Some(ReadFailed);
      }
      var existing := text;
      var stripped := StripBlocks(existing);
      var rendered := RenderCodexMcpServersBlock(config);
      if rendered.Failed? {
        return Some(RenderFailed);
      }
      var updated := stripped;
      if config.Servers? {
        stripped := CodexTables.StripCodexUserMcpServerTables(stripped);
        stripped := TrimNewlines(stripped);
        ResidueIs(existing);
        var block := rendered.block;
        if block == "" {
          block := BEGIN + "\n" + END + "\n";
          EmptyBlock();
        }
        updated := if stripped == "" then block else stripped + "\n\n" + block;
        FrontText(stripped, block);
      }
      if updated == existing {
        return None;
      }
      if faults.write {
        present, text := true, faults.leaves;
        return Some(WriteFailed);
      }
      present, text, ownerOnly := true, updated, ownerOnly || !present;
      if faults.mode {
        return Some(ModeFailed);
      }
      ownerOnly := true;
      return None;
    }
  }

  lemma ClearFacts(text: string)
    ensures BeginFree(Target(text, Unset).value) <==> WellMarked(text)
    ensures forall x, b, y :: BlockBetween(text, x, b, y) ==> Target(text, Unset) == Some(x + y)
  {
    hide StripBlocks, WellMarked, BeginFree, BlockBetween;
    ClearedExactly(text);
    forall x, b, y | BlockBetween(text, x, b, y)
      ensures Target(text, Unset) == Some(x + y)
    {
      ClearLeaves(text, x, b, y);
    }
  }

  lemma EmptyBlock()
    ensures Block("") == BEGIN + "\n" + END + "\n" && BodyText([]) == Some("")
  {
  }

  lemma FrontText(s: string, block: string)
    ensures Front(s) + block == if s == "" then block else s + "\n\n" + block
  {
  }
}
