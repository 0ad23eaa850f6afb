/** Table headers as TOML 1.0.0 has them ("Keys", "Table", "Array of Tables"),
    and which of them the daemon's header pattern takes out. */
module CodexHeaders {
  import opened Strings
  import opened CodexTables
  import opened Lines
  import opened CodexBlocks
  import opened CodexConfig
  import CodexToml
  import opened Wrappers

  const SERVERS := "mcp_servers"

  // ---------- headers ----------

  predicate Blanks(s: string) { forall c :: c in s ==> c == ' ' || c == '\t' }

  /** A character of a comment or a literal string. */
  predicate Plain(c: char) { c == '\t' || (c as nat >= 0x20 && c as nat != 0x7f) }

  /** One key as it is written. */
  datatype Key = Bare(name: string) | Basic(raw: string) | Literal(text: string)

  predicate ValidKey(k: Key) {
    match k
    case Bare(name) => CodexToml.BareKey(name)
    case Basic(raw) => CodexToml.ReadString(raw + "\"").Some? && CodexToml.ReadString(raw + "\"").value.1 == ""
    case Literal(text) => forall c :: c in text ==> Plain(c) && c != '\''
  }

  function Written(k: Key): string {
    match k
    case Bare(name) => name
    case Basic(raw) => "\"" + raw + "\""
    case Literal(text) => "'" + text + "'"
  }

  /** The key that is meant. */
  function Name(k: Key): string
    requires ValidKey(k)
  {
    match k
    case Bare(name) => name
    case Basic(raw) => CodexToml.ReadString(raw + "\"").value.0
    case Literal(text) => text
  }

  /** A dotted key; blanks may stand around each dot. */
  datatype Keys = Last(key: Key) | More(key: Key, left: string, right: string, rest: Keys)

  predicate ValidKeys(ks: Keys) {
    ValidKey(ks.key) && (ks.More? ==> Blanks(ks.left) && Blanks(ks.right) && ValidKeys(ks.rest))
  }

  function KeysText(ks: Keys): string {
    match ks
    case Last(key) => Written(key)
    case More(key, left, right, rest) => Written(key) + left + "." + right + KeysText(rest)
  }

  /** A header line: of a table, or of an array of tables; `cr` is the first half
      of a line end of two characters. */
  datatype Header = Header(
    indent: string, isArray: bool, lead: string, keys: Keys, trail: string,
    gap: string, comment: Option<string>, cr: bool)

  predicate ValidHeader(h: Header) {
    && Blanks(h.indent) && Blanks(h.lead) && Blanks(h.trail) && Blanks(h.gap)
    && ValidKeys(h.keys)
    && (h.comment.Some? ==> forall c :: c in h.comment.value ==> c == 0x7f as char || Plain(c))
  }

  function Tail(h: Header): string {
    (if h.isArray then "]" else "") + h.gap + (if h.comment.Some? then "#" + h.comment.value else "")
    + (if h.cr then "\r" else "")
  }

  function Text(h: Header): string {
    h.indent + ((if h.isArray then "[[" else "[") + h.lead + KeysText(h.keys) + h.trail + "]" + Tail(h))
  }

  /** TOML's reading: the header of the servers' table, of one server, or of a
      table within one. */
  predicate OfServers(h: Header)
    requires ValidHeader(h)
  {
    Name(h.keys.key) == SERVERS
  }

  // ---------- what the pattern sees ----------

  predicate Unbroken(t: string) { forall c :: c in t ==> !IsBlank(c) && c != ']' }

  /** The keys behind the first: without blanks and brackets, or a single basic
      string without an escaped quote, or with a quoted part that reads on as the
      end of a header with a comment. */
  predicate Seen(ks: Keys) {
    || Unbroken(KeysText(ks))
    || (ks.Last? && ks.key.Basic? && '\"' !in ks.key.raw)
    || KeyAndEnd(KeysText(ks))
  }

  /** The headers that the pattern takes for a server's. */
  predicate Caught(h: Header) {
    !h.isArray && h.keys.More? && h.keys.key == Bare(SERVERS) && Seen(h.keys.rest)
  }

  /** The headers that do not end the removal of a table above them. */
  predicate Continues(h: Header) {
    && !h.isArray && h.lead in {"", " "}
    && h.keys.More? && h.keys.key == Bare(SERVERS) && h.keys.left == ""
  }

  // ---------- scanning ----------

  lemma {:induction false} SkipOver(x: string, t: string)
    requires (forall c :: c in x ==> IsBlank(c)) && (t == "" || !IsBlank(t[0]))
    ensures SkipBlanks(x + t) == t
  {
    if x == "" {
      assert x + t == t;
    } else {
      assert x[0] in x && (x + t)[1..] == x[1..] + t;
      SkipOver(x[1..], t);
    }
  }

  /** Text that ends in something else than a blank or a bracket. */
  predicate Solid(x: string) { x != "" && !IsBlank(x[|x| - 1]) && x[|x| - 1] != ']' }

  lemma {:induction false} SkipWithin(x: string, t: string)
    requires x != "" && !IsBlank(x[|x| - 1])
    ensures var r := SkipBlanks(x);
            r != "" && r[|r| - 1] == x[|x| - 1] && SkipBlanks(x + t) == r + t
  {
    if IsBlank(x[0]) {
      assert |x| > 1 && (x + t)[1..] == x[1..] + t;
      SkipWithin(x[1..], t);
    }
  }

  /** Nothing behind the last key decides whether a header ends within it. */
  lemma EndWithin(x: string, t: string)
    requires Solid(x)
    ensures HeaderEnd(x + t) <==> HeaderEnd(x)
  {
    hide SkipBlanks, IsBlank;
    SkipWithin(x, t);
    var u := SkipBlanks(x);
    if u[0] == ']' {
      assert |u| > 1 && (u + t)[1..] == u[1..] + t;
      SkipWithin(u[1..], t);
    }
  }

  lemma {:induction false} QuoteScan(x: string, t: string)
    ensures '\"' in x ==> UntilQuote(x + t) == UntilQuote(x) < |x|
    ensures '\"' !in x ==> UntilQuote(x + t) == |x| + UntilQuote(t)
  {
    if x == "" {
      assert x + t == t;
    } else {
      assert (x + t)[1..] == x[1..] + t;
      QuoteScan(x[1..], t);
      assert x == [x[0]] + x[1..];
    }
  }

  lemma {:induction false} BareScan(x: string, t: string)
    ensures Unbroken(x) ==> BareLen(x + t) == |x| + BareLen(t) && BareLen(x) == |x|
    ensures !Unbroken(x) ==> BareLen(x + t) == BareLen(x) < |x|
  {
    hide IsBlank;
    if x == "" {
      assert x + t == t;
    } else {
      assert (x + t)[1..] == x[1..] + t;
      BareScan(x[1..], t);
      assert x == [x[0]] + x[1..];
      assert x[0] in x;
    }
  }

  // ---------- keys ----------

  lemma WrittenFacts(k: Key)
    requires ValidKey(k)
    ensures Solid(Written(k)) && !IsBlank(Written(k)[0]) && Written(k)[0] != ']' && Written(k)[0] != '['
    ensures Written(k)[0] == '\"' <==> k.Basic?
  {
    hide CodexToml.ReadString;
    if k.Bare? {
      assert k.name[0] in k.name && k.name[|k.name| - 1] in k.name;
    }
  }

  lemma {:induction false} KeysFacts(ks: Keys)
    requires ValidKeys(ks)
    ensures var t := KeysText(ks);
            && Solid(t) && !IsBlank(t[0]) && t[0] != ']' && t[0] != '['
            && (t[0] == '\"' <==> ks.key.Basic?)
            && Written(ks.key) <= t && (ks.Last? <==> Written(ks.key) == t)
  {
    hide ValidKey, Written, IsBlank;
    WrittenFacts(ks.key);
    if ks.More? {
      KeysFacts(ks.rest);
      var w := Written(ks.key);
      assert KeysText(ks) == w + (ks.left + "." + ks.right + KeysText(ks.rest));
      assert KeysText(ks)[|KeysText(ks)| - 1] == KeysText(ks.rest)[|KeysText(ks.rest)| - 1];
    }
  }

  /** Where a key behind the first is looked for, followed by the end of the header. */
  lemma SeenExactly(ks: Keys, z: string)
    requires ValidKeys(ks) && HeaderEnd(z) && (IsBlank(z[0]) || z[0] == ']')
    ensures KeyAndEnd(KeysText(ks) + z) <==> Seen(ks)
  {
    hide ValidKeys, KeysText, Written, HeaderEnd, UntilQuote, BareLen, IsBlank, Unbroken;
    var w := KeysText(ks);
    KeysFacts(ks);
    NoEnd();
    BareScan(w, z);
    BareStop(z);
    var p := BareLen(w);
    if !Unbroken(w) {
      SolidRest(w, p);
      EndWithin(w[p..], z);
      assert (w + z)[p..] == w[p..] + z;
    } else {
      assert (w + z)[|w|..] == z;
    }
    if w[0] == '\"' {
      QuotedKey(ks);
      var q := UntilQuote(w[1..]);
      assert (w + z)[1..] == w[1..] + z;
      QuoteScan(w[1..], z);
      if 2 + q == |w| {
        assert (w + z)[2 + q..] == z;
        assert w[2 + q..] == "";
      } else {
        SolidRest(w, 2 + q);
        EndWithin(w[2 + q..], z);
        assert (w + z)[2 + q..] == w[2 + q..] + z;
      }
    }
  }

  lemma NoEnd()
    ensures !HeaderEnd("")
  {
  }

  lemma BareStop(z: string)
    requires z != "" && (IsBlank(z[0]) || z[0] == ']')
    ensures BareLen(z) == 0
  {
  }

  lemma SolidRest(w: string, p: nat)
    requires Solid(w) && p < |w|
    ensures Solid(w[p..])
  {
  }

  /** The first closing quote, and when nothing stands behind it. */
  lemma QuotedKey(ks: Keys)
    requires ValidKeys(ks) && ks.key.Basic?
    ensures var w := KeysText(ks);
            var q := UntilQuote(w[1..]);
            && '\"' in w[1..] && q < |w| - 1
            && (2 + q == |w| <==> ks.Last? && '\"' !in ks.key.raw)
  {
    hide ValidKeys, KeysText, UntilQuote, IsBlank;
    var w := KeysText(ks);
    var raw := ks.key.raw;
    KeysFacts(ks);
    var t := w[|raw| + 2..];
    assert w == Written(ks.key) + t;
    assert w[1..] == raw + ("\"" + t);
    QuoteScan(raw, "\"" + t);
    AtQuote(t);
    assert ("\"" + t)[0] in w[1..];
  }

  lemma AtQuote(t: string)
    ensures UntilQuote("\"" + t) == 0
  {
  }

  /** The first key as the pattern and the prefix tests see it. */
  lemma FirstKey(k: Key, t: string)
    requires ValidKey(k) && t != "" && !CodexToml.IsBare(t[0])
    ensures StartsWith(Written(k) + t, SERVERS) && StartsWith(SkipBlanks((Written(k) + t)[11..]), ".")
            <==> k == Bare(SERVERS) && StartsWith(SkipBlanks(t), ".")
    ensures StartsWith(Written(k) + t, SERVERS + ".") <==> k == Bare(SERVERS) && t[0] == '.'
    ensures k == Bare(SERVERS) ==> (Written(k) + t)[11..] == t
  {
    hide CodexToml.ReadString, SkipBlanks;
    var b := Written(k) + t;
    assert |SERVERS| == 11;
    assert k.Bare? ==> b[|k.name|] == t[0];
    if StartsWith(b, SERVERS) {
      assert forall i :: 0 <= i < 11 ==> b[i] == SERVERS[i];
      assert forall i :: 0 <= i < 11 ==> CodexToml.IsBare(SERVERS[i]);
      assert SERVERS[0] == 'm' && b[0] == Written(k)[0];
      assert k.Bare?;
      if |k.name| > 11 {
        assert b[11] == k.name[11] && k.name[11] in k.name;
        NoDot(b[11..]);
      } else if |k.name| == 11 {
        assert k.name == b[..11] && b[11..] == t;
      }
    }
    if k == Bare(SERVERS) {
      assert b[..11] == SERVERS && b[11..] == t;
      assert t[0] == '.' ==> b[..12] == SERVERS + ".";
    }
    if StartsWith(b, SERVERS + ".") {
      assert b[..11] == (SERVERS + ".")[..11] == SERVERS;
      assert b[11] == b[..12][11] == '.';
    }
  }

  lemma NoDot(b: string)
    requires b != "" && CodexToml.IsBare(b[0])
    ensures !StartsWith(SkipBlanks(b), ".")
  {
  }

  // ---------- which headers go ----------

  /** A header line in pieces, with any text behind its first closing bracket. */
  function Closing(h: Header, tail: string): string { h.trail + ("]" + tail) }

  function Inside(h: Header, tail: string): string {
    var u := h.lead + (KeysText(h.keys) + Closing(h, tail));
    if h.isArray then "[" + u else u
  }

  /** What stands behind the first key. */
  function Behind(ks: Keys, z: string): string {
    if ks.Last? then z else ks.left + ("." + (ks.right + (KeysText(ks.rest) + z)))
  }

  lemma BlanksAreBlank(s: string)
    requires Blanks(s)
    ensures forall c :: c in s ==> IsBlank(c) && IsSpace(c)
  {
  }

  lemma TextIs(h: Header)
    ensures Text(h) == h.indent + ("[" + Inside(h, Tail(h)))
  {
    hide KeysText, Tail;
    var w := KeysText(h.keys);
    assert w + Closing(h, Tail(h)) == w + h.trail + "]" + Tail(h);
    assert h.lead + (w + Closing(h, Tail(h))) == h.lead + w + h.trail + "]" + Tail(h);
    assert "[" + Inside(h, Tail(h)) == (if h.isArray then "[[" else "[") + h.lead + w + h.trail + "]" + Tail(h);
  }

  lemma ClosingFacts(h: Header, tail: string)
    requires ValidHeader(h)
    ensures var z := Closing(h, tail);
            && z != "" && (IsBlank(z[0]) || z[0] == ']') && !CodexToml.IsBare(z[0])
            && z[0] != '.' && SkipBlanks(z) == "]" + tail && !StartsWith(SkipBlanks(z), ".")
  {
    hide ValidKeys, SkipBlanks;
    BlanksAreBlank(h.trail);
    SkipOver(h.trail, "]" + tail);
    assert h.trail != "" ==> Closing(h, tail)[0] == h.trail[0] && h.trail[0] in h.trail;
  }

  lemma TailEnds(h: Header)
    requires ValidHeader(h) && !h.isArray
    ensures HeaderEnd(Closing(h, Tail(h)))
  {
    hide ValidKeys, SkipBlanks;
    ClosingFacts(h, Tail(h));
    BlanksAreBlank(h.gap);
    var cr := if h.cr then "\r" else "";
    assert ("]" + Tail(h))[1..] == Tail(h);
    if h.comment.Some? {
      SkipOver(h.gap, "#" + h.comment.value + cr);
      assert Tail(h) == h.gap + ("#" + h.comment.value + cr);
    } else {
      SkipOver(h.gap + cr, "");
      assert Tail(h) == h.gap + cr + "";
    }
  }

  lemma BehindFacts(ks: Keys, z: string)
    requires ValidKeys(ks)
    requires z != "" && !CodexToml.IsBare(z[0]) && z[0] != '.' && !StartsWith(SkipBlanks(z), ".")
    ensures KeysText(ks) + z == Written(ks.key) + Behind(ks, z)
    ensures Behind(ks, z) != "" && !CodexToml.IsBare(Behind(ks, z)[0])
    ensures ks.Last? ==> !StartsWith(SkipBlanks(Behind(ks, z)), ".") && Behind(ks, z)[0] != '.'
    ensures ks.More? ==> SkipBlanks(Behind(ks, z)) == "." + (ks.right + (KeysText(ks.rest) + z))
    ensures ks.More? ==> SkipBlanks(ks.right + (KeysText(ks.rest) + z)) == KeysText(ks.rest) + z
    ensures ks.More? ==> (Behind(ks, z)[0] == '.' <==> ks.left == "")
  {
    hide ValidKey, Written, SkipBlanks;
    if ks.More? {
      KeysFacts(ks.rest);
      BlanksAreBlank(ks.left);
      BlanksAreBlank(ks.right);
      SkipOver(ks.left, "." + (ks.right + (KeysText(ks.rest) + z)));
      SkipOver(ks.right, KeysText(ks.rest) + z);
      assert ks.left != "" ==> Behind(ks, z)[0] == ks.left[0] && ks.left[0] in ks.left;
    }
  }

  lemma Opening(h: Header)
    requires ValidHeader(h)
    ensures var u := Inside(h, Tail(h));
            && SkipBlanks(Text(h)) == "[" + u && ("[" + u)[1..] == u
            && (h.isArray ==> !StartsWith(SkipBlanks(u), SERVERS))
            && (!h.isArray ==> SkipBlanks(u) == KeysText(h.keys) + Closing(h, Tail(h)))
  {
    hide Tail, KeysText, Closing, Text, ValidKeys, SkipBlanks;
    TextIs(h);
    var u := Inside(h, Tail(h));
    BlanksAreBlank(h.indent);
    SkipOver(h.indent, "[" + u);
    if h.isArray {
      SkipOver("", u);
      assert "" + u == u && u[0] == '[' && SERVERS[0] == 'm';
    } else {
      KeysFacts(h.keys);
      BlanksAreBlank(h.lead);
      SkipOver(h.lead, KeysText(h.keys) + Closing(h, Tail(h)));
    }
  }

  /** Of all table headers the pattern takes exactly those that name a server's
      table with an unquoted first key and with blanks, brackets and quotes in
      the other keys only as `Seen` says. */
  lemma CaughtExactly(h: Header)
    requires ValidHeader(h)
    ensures IsHeader(Text(h)) <==> Caught(h)
  {
    hide ValidKey, Written, KeysText, SkipBlanks, KeyAndEnd, HeaderEnd, IsBlank, Seen,
         Closing, Inside, Text, Tail, Behind;
    var z := Closing(h, Tail(h));
    ClosingFacts(h, Tail(h));
    Opening(h);
    if !h.isArray {
      BehindFacts(h.keys, z);
      FirstKey(h.keys.key, Behind(h.keys, z));
      if h.keys.More? {
        var d := "." + (h.keys.right + (KeysText(h.keys.rest) + z));
        assert d[1..] == h.keys.right + (KeysText(h.keys.rest) + z);
        TailEnds(h);
        SeenExactly(h.keys.rest, z);
      }
    }
  }

  // ---------- which headers end a removal ----------

  lemma {:induction false} TrimOver(x: string, t: string)
    requires (forall c :: c in x ==> IsSpace(c)) && t != "" && !IsSpace(t[0])
    ensures TrimLeft(x + t) == t
  {
    if x == "" {
      assert x + t == t;
    } else {
      assert x[0] in x && (x + t)[1..] == x[1..] + t;
      TrimOver(x[1..], t);
    }
  }

  lemma {:induction false} TrimWithin(x: string, t: string)
    requires x != "" && !IsSpace(x[|x| - 1])
    ensures TrimRight(x + t) == x + TrimRight(t)
    decreases |t|
  {
    if t == "" || !IsSpace(t[|t| - 1]) {
      assert t == "" ==> x + t == x;
    } else {
      assert (x + t)[..|x + t| - 1] == x + t[..|t| - 1];
      TrimWithin(x, t[..|t| - 1]);
    }
  }

  /** Trimming stops at the closing bracket. */
  lemma TrimmedIs(h: Header)
    requires ValidHeader(h)
    ensures TrimSpace(Text(h)) == "[" + Inside(h, TrimRight(Tail(h)))
  {
    hide Tail, KeysText, Text, ValidKeys, TrimLeft, TrimRight, Inside;
    TextIs(h);
    BlanksAreBlank(h.indent);
    TrimOver(h.indent, "[" + Inside(h, Tail(h)));
    InsideTail(h, Tail(h));
    InsideTail(h, TrimRight(Tail(h)));
    TrimWithin("[" + Inside(h, ""), Tail(h));
  }

  lemma InsideTail(h: Header, tail: string)
    ensures "[" + Inside(h, tail) == "[" + Inside(h, "") + tail
    ensures var x := "[" + Inside(h, ""); x[|x| - 1] == ']'
  {
    hide KeysText;
    assert Closing(h, tail) == Closing(h, "") + tail;
    var u := h.lead + (KeysText(h.keys) + Closing(h, ""));
    assert h.lead + (KeysText(h.keys) + Closing(h, tail)) == u + tail;
    assert Inside(h, tail) == Inside(h, "") + tail;
  }

  /** Two texts that differ at a place begin alike only before it. */
  lemma PrefixAt(t: string, p: string, i: nat)
    requires i < |p| && (i < |t| ==> t[i] != p[i])
    ensures !StartsWith(t, p)
  {
    assert |p| <= |t| ==> t[..|p|][i] == t[i];
  }

  lemma PrefixCons(x: string, t: string, p: string)
    ensures StartsWith(x + t, x + p) <==> StartsWith(t, p)
  {
    if |p| <= |t| {
      assert (x + t)[..|x + p|] == x + t[..|p|];
      if x + t[..|p|] == x + p { assert (x + t[..|p|])[|x|..] == t[..|p|] && (x + p)[|x|..] == p; }
    }
  }

  lemma Continued(h: Header, tail: string)
    requires ValidHeader(h)
    ensures Continues(h) <==>
            StartsWith("[" + Inside(h, tail), "[mcp_servers.") || StartsWith("[" + Inside(h, tail), "[ mcp_servers.")
  {
    hide ValidKey, Written, KeysText, SkipBlanks, IsBlank, Closing, Behind;
    var u := Inside(h, tail);
    var z := Closing(h, tail);
    var b := KeysText(h.keys) + z;
    assert "[mcp_servers." == "[" + (SERVERS + ".") && "[ mcp_servers." == "[" + (" " + (SERVERS + "."));
    PrefixCons("[", u, SERVERS + ".");
    PrefixCons("[", u, " " + (SERVERS + "."));
    KeysFacts(h.keys);
    ClosingFacts(h, tail);
    BehindFacts(h.keys, z);
    FirstKey(h.keys.key, Behind(h.keys, z));
    BlanksAreBlank(h.lead);
    assert (SERVERS + ".")[0] == 'm' && (" " + (SERVERS + "."))[1] == 'm' && b[0] == KeysText(h.keys)[0];
    if h.isArray {
      PrefixAt(u, SERVERS + ".", 0);
      PrefixAt(u, " " + (SERVERS + "."), 0);
    } else if h.lead == "" {
      assert u == b;
      NotSpace(b);
      PrefixAt(u, " " + (SERVERS + "."), 0);
    } else {
      assert u[0] == h.lead[0] && h.lead[0] in h.lead;
      PrefixAt(u, SERVERS + ".", 0);
      if h.lead == " " {
        PrefixCons(" ", b, SERVERS + ".");
      } else {
        assert |h.lead| > 1 ==> u[1] == h.lead[1] && h.lead[1] in h.lead;
        PrefixAt(u, " " + (SERVERS + "."), if |h.lead| > 1 then 1 else 0);
      }
    }
  }

  lemma NotSpace(b: string)
    requires b != "" && !IsBlank(b[0])
    ensures b[0] != ' '
  {
  }

  lemma StopsExactly(h: Header)
    requires ValidHeader(h)
    ensures Stops(Text(h)) <==> !Caught(h) && !Continues(h)
  {
    hide ValidHeader, Text, Inside, Tail, TrimSpace, Caught, Continues, IsHeader;
    CaughtExactly(h);
    TrimmedIs(h);
    Continued(h, TrimRight(Tail(h)));
    assert ("[" + Inside(h, TrimRight(Tail(h))))[..1] == "[";
  }

  /** Which table headers stay where the servers' tables are removed: those that
      the pattern does not take and that are not read as going on with a removal
      begun above. */
  lemma StaysExactly(lines: seq<string>, i: nat, h: Header)
    requires ValidHeader(h) && i < |lines| && lines[i] == Text(h)
    ensures !InTable(lines, i) <==> !Caught(h) && (!Continues(h) || i == 0 || !InTable(lines, i - 1))
  {
    hide *;
    InTableNext(lines, i);
    CaughtExactly(h);
    StopsExactly(h);
  }

  // ---------- the rewritten file ----------

  lemma {:induction false} OthersHold(lines: seq<string>, x: string)
    ensures x in Others(lines) <==> exists i :: 0 <= i < |lines| && lines[i] == x && !InTable(lines, i)
    decreases |lines|
  {
    hide InTable;
    if lines != [] {
      var n := |lines| - 1;
      var front := lines[..n];
      OthersHold(front, x);
      forall i | 0 <= i < n ensures InTable(front, i) <==> InTable(lines, i) { InTablePrefix(lines, n, i); }
      assert forall i :: 0 <= i < n ==> front[i] == lines[i];
    }
  }

  lemma {:induction false} TrimLines(s: string, x: string)
    requires x != ""
    ensures x in Split(TrimNewlines(s)) <==> x in Split(s)
  {
    hide Split;
    if s != "" && s[|s| - 1] == '\n' {
      var t := s[..|s| - 1];
      assert s == t + "\n";
      SplitTrailing(t);
      TrimLines(t, x);
    }
  }

  lemma FrontLines(s: string, x: string)
    requires x != ""
    ensures x in Split(Front(s)) <==> x in Split(s)
  {
    hide Split;
    SplitTrailing(s);
    SplitTrailing(s + "\n");
    assert s + "\n" + "\n" == s + "\n\n";
  }

  lemma KeptLines(t: string, x: string)
    requires x != ""
    ensures x in Split(StripTables(t)) <==> x in Others(Split(t))
  {
    hide Split, Join, Others, HeaderFree;
    var kept := Others(Split(t));
    StripTablesFacts(t);
    if kept == [] {
      EmptyLine();
    } else {
      JoinSplit(t);
      forall line | line in kept ensures '\n' !in line { OthersHold(Split(t), line); }
      SplitJoin(kept);
    }
  }

  /** Which table headers stand in front of the managed block after a rewrite. */
  lemma HeadersLeft(text: string, h: Header)
    requires ValidHeader(h)
    ensures var lines := Split(StripBlocks(text));
            Text(h) in Split(Front(Residue(text))) <==>
              !Caught(h) &&
              exists i :: 0 <= i < |lines| && lines[i] == Text(h) && (!Continues(h) || i == 0 || !InTable(lines, i - 1))
  {
    hide *;
    var lines := Split(StripBlocks(text));
    NotEmpty(h);
    FrontLines(Residue(text), Text(h));
    ResidueIs(text);
    TrimLines(StripTables(StripBlocks(text)), Text(h));
    KeptLines(StripBlocks(text), Text(h));
    OthersHold(lines, Text(h));
    var free := !Continues(h);
    if Text(h) in Others(lines) {
      var i :| 0 <= i < |lines| && lines[i] == Text(h) && !InTable(lines, i);
      StaysExactly(lines, i, h);
      assert free || i == 0 || !InTable(lines, i - 1);
    }
    if !Caught(h) && exists i :: 0 <= i < |lines| && lines[i] == Text(h) && (free || i == 0 || !InTable(lines, i - 1)) {
      var i :| 0 <= i < |lines| && lines[i] == Text(h) && (free || i == 0 || !InTable(lines, i - 1));
      StaysExactly(lines, i, h);
      assert !InTable(lines, i);
    }
  }

  lemma NotEmpty(h: Header)
    ensures Text(h) != ""
  {
    hide KeysText, Tail;
  }

  // ---------- servers with plain names ----------

  predicate PlainNames(ks: Keys)
    requires ValidKeys(ks)
  {
    CodexToml.BareKey(Name(ks.key)) && (ks.More? ==> PlainNames(ks.rest))
  }

  /** No blank around a dot. */
  predicate Tight(ks: Keys) { ks.More? ==> ks.left == "" && ks.right == "" && Tight(ks.rest) }

  /** A character that a plain name can be written with, escaped or not. */
  predicate NameChar(c: char) { !IsBlank(c) && c != ']' && c != '\"' }

  lemma {:induction false} HexChars(s: string)
    requires CodexToml.HexNumber(s).Some?
    ensures forall c :: c in s ==> NameChar(c)
  {
    if s != "" {
      HexChars(s[..|s| - 1]);
      assert s == s[..|s| - 1] + [s[|s| - 1]];
    }
  }

  lemma EscapedName(t: string)
    requires CodexToml.ReadEscape(t).Some? && CodexToml.IsBare(CodexToml.ReadEscape(t).value.0)
    ensures forall c :: c in t[..CodexToml.ReadEscape(t).value.1] ==> NameChar(c)
  {
    hide CodexToml.HexNumber;
    var n := CodexToml.ReadEscape(t).value.1;
    assert n > 1;
    HexChars(t[1..n]);
    assert t[..n] == [t[0]] + t[1..n];
  }

  lemma {:induction false} RawName(raw: string)
    requires CodexToml.ReadString(raw + "\"").Some?
    requires var r := CodexToml.ReadString(raw + "\"").value; r.1 == "" && forall c :: c in r.0 ==> CodexToml.IsBare(c)
    ensures forall c :: c in raw ==> NameChar(c)
    decreases |raw|
  {
    hide CodexToml.ReadEscape, CodexToml.IsBare;
    var t := raw + "\"";
    var name := CodexToml.ReadString(t).value.0;
    if raw == "" {
    } else if raw[0] == '\"' {
      assert false;
    } else if raw[0] == '\\' {
      var (c, n) := CodexToml.ReadEscape(t[1..]).value;
      assert c == name[0] && c in name;
      EscapedName(t[1..]);
      EscapeInside(raw, n);
      RawName(raw[1 + n..]);
      assert forall d :: d in name[1..] ==> d in name;
    } else {
      assert t[1..] == raw[1..] + "\"";
      assert name[0] == raw[0] && name[0] in name;
      BareIsNameChar(raw[0]);
      assert forall d :: d in name[1..] ==> d in name;
      RawName(raw[1..]);
      assert raw == [raw[0]] + raw[1..];
    }
  }

  lemma BareIsNameChar(c: char)
    requires CodexToml.IsBare(c)
    ensures NameChar(c)
  {
  }

  lemma EscapeInside(raw: string, n: nat)
    requires raw != "" && n <= |raw|
    ensures n < |raw| ==> (raw + "\"")[1 + n..] == raw[1 + n..] + "\"" && (raw + "\"")[1..][..n] == raw[1..1 + n]
  {
  }

  /** A plainly named key is written without blanks, brackets and inner quotes. */
  lemma WrittenName(k: Key)
    requires ValidKey(k) && CodexToml.BareKey(Name(k))
    ensures Unbroken(Written(k)) && (k.Basic? ==> '\"' !in k.raw)
  {
    hide CodexToml.ReadString, CodexToml.IsBare, IsBlank;
    forall c | CodexToml.IsBare(c) ensures NameChar(c) { BareIsNameChar(c); }
    if k.Basic? { RawName(k.raw); }
    assert !IsBlank('\"') && !IsBlank('\'') by { QuotesAreNotBlank(); }
  }

  lemma QuotesAreNotBlank()
    ensures !IsBlank('\"') && !IsBlank('\'')
  {
  }

  lemma {:induction false} NamesUnbroken(ks: Keys)
    requires ValidKeys(ks) && PlainNames(ks)
    ensures ']' !in KeysText(ks)
    ensures Unbroken(KeysText(ks)) <==> Tight(ks)
  {
    hide ValidKey, Written, Name, CodexToml.BareKey;
    WrittenName(ks.key);
    if ks.More? {
      NamesUnbroken(ks.rest);
      BlanksAreBlank(ks.left);
      BlanksAreBlank(ks.right);
      var t := KeysText(ks);
      assert t == Written(ks.key) + ks.left + "." + ks.right + KeysText(ks.rest);
      if ks.left != "" { assert ks.left[0] in ks.left && ks.left[0] in t; }
      if ks.right != "" { assert ks.right[0] in ks.right && ks.right[0] in t; }
      if !Unbroken(KeysText(ks.rest)) {
        var c :| c in KeysText(ks.rest) && (IsBlank(c) || c == ']');
        assert c in t;
      }
    }
  }

  lemma NoBracketNoEnd(t: string)
    requires ']' !in t
    ensures !KeyAndEnd(t)
  {
    hide SkipBlanks, UntilQuote, BareLen;
    forall i | 0 <= i <= |t|
      ensures !HeaderEnd(t[i..])
    {
      Skipped(t[i..]);
      var u := SkipBlanks(t[i..]);
      assert u != "" ==> u[0] in u && u[0] in t[i..] && u[0] in t;
    }
  }

  lemma {:induction false} Skipped(t: string)
    ensures forall c :: c in SkipBlanks(t) ==> c in t
  {
    if t != "" { Skipped(t[1..]); }
  }

  /** Where all names within the servers' table are plain, exactly the headers with
      an unquoted `mcp_servers` and no blank around a later dot are taken. */
  lemma PlainServers(h: Header)
    requires ValidHeader(h) && OfServers(h) && !h.isArray && h.keys.More? && PlainNames(h.keys.rest)
    ensures IsHeader(Text(h)) <==> h.keys.key.Bare? && Tight(h.keys.rest)
  {
    hide KeyAndEnd, KeysText, Unbroken, Text, Tail;
    CaughtExactly(h);
    NamesUnbroken(h.keys.rest);
    NoBracketNoEnd(KeysText(h.keys.rest));
  }

  lemma ReadNext(c: char, t: string)
    requires CodexToml.ReadString(t).Some? && c as nat >= 0x20 && c as nat != 0x7f && c != '\"' && c != '\\'
    ensures var r := CodexToml.ReadString(t).value; CodexToml.ReadString([c] + t) == Some(([c] + r.0, r.1))
  {
    assert ([c] + t)[1..] == t;
  }

  lemma QuotedBlank()
    ensures CodexToml.ReadString("a b" + "\"") == Some(("a b", ""))
  {
    hide CodexToml.ReadString;
    var t := "\"";
    assert CodexToml.ReadString(t) == Some(("", "")) by { CodexToml.QuoteReads("", ""); assert "" + t + "" == t; }
    ReadNext('b', t);
    ReadNext(' ', ['b'] + t);
    ReadNext('a', [' '] + (['b'] + t));
    assert "a b" + "\"" == ['a'] + ([' '] + (['b'] + t));
    assert "a b" == ['a'] + ([' '] + (['b'] + ""));
  }

  /** `[mcp_servers]` and `[mcp_servers."a b".env]` */
  function AllServers(): Header { Header("", false, "", Last(Bare(SERVERS)), "", "", None, false) }

  function BlankKeys(): Keys { More(Basic("a b"), "", "", Last(Bare("env"))) }

  function Within(ks: Keys): Header {
    Header("", false, "", More(Bare(SERVERS), "", "", ks), "", "", None, false)
  }

  lemma BlankKeysFacts()
    ensures ValidKeys(BlankKeys()) && KeysText(BlankKeys()) == "\"a b\".env" && !Seen(BlankKeys())
  {
    hide CodexToml.ReadString, KeyAndEnd;
    QuotedBlank();
    assert KeysText(Last(Bare("env"))) == "env";
    assert "\"" + "a b" + "\"" + "" + "." + "" + "env" == "\"a b\".env";
    var t := KeysText(BlankKeys());
    assert t[2] == ' ' && t[2] in t;
    NoBracketNoEnd(t);
  }

  lemma SimpleText(h: Header)
    requires h.indent == h.lead == h.trail == h.gap == "" && !h.isArray && h.comment.None? && !h.cr
    ensures Text(h) == "[" + KeysText(h.keys) + "]"
  {
    hide KeysText;
  }

  lemma LastText(ks: Keys)
    requires ks.Last?
    ensures KeysText(ks) == Written(ks.key)
  {
  }

  lemma WithinText(ks: Keys)
    ensures Text(Within(ks)) == "[" + (SERVERS + "." + KeysText(ks)) + "]"
  {
    hide Text, SERVERS;
    SimpleText(Within(ks));
    var all := Within(ks).keys;
    assert KeysText(all) == SERVERS + "" + "." + "" + KeysText(ks);
  }

  lemma LineStays(t: string)
    requires '\n' !in t && !IsHeader(t)
    ensures StripTables(t) == t
  {
    hide IsHeader, StripTables, Others;
    NoNewline(t);
    StripTablesFacts(t);
  }

  /** Headers that stay: the table of all servers, and a table within a server
      whose name has to be quoted because of a blank. */
  lemma HeadersThatStay()
    ensures ValidHeader(AllServers()) && OfServers(AllServers())
    ensures Text(AllServers()) == "[" + SERVERS + "]" && StripTables(Text(AllServers())) == Text(AllServers())
    ensures ValidHeader(Within(BlankKeys())) && OfServers(Within(BlankKeys()))
    ensures var t := Text(Within(BlankKeys()));
            t == "[" + (SERVERS + "." + "\"a b\".env") + "]" && StripTables(t) == t
  {
    hide IsHeader, CodexToml.ReadString, Seen, Text, KeysText, BlankKeys, StripTables;
    BlankKeysFacts();
    WithinText(BlankKeys());
    SimpleText(AllServers());
    assert KeysText(AllServers().keys) == SERVERS by { LastText(AllServers().keys); }
    CaughtExactly(AllServers());
    CaughtExactly(Within(BlankKeys()));
    assert '\n' !in SERVERS && '\n' !in "\"a b\".env";
    LineStays(Text(AllServers()));
    LineStays(Text(Within(BlankKeys())));
  }
}
