/** The printer of TOML inline values, and a reader for what it prints. Text is a
    sequence of code points. */
module CodexToml {
  import opened Strings
  import opened Wrappers

  // ---------- values ----------

  type Digits = s: string | forall c :: c in s ==> '0' <= c <= '9'

  /** A JSON value as Go decodes it. A number is named by its shortest decimal
      form; an object is its list of fields in sorted order. */
  datatype Json =
    | Null
    | Bool(b: bool)
    | Number(neg: bool, whole: nat, frac: Digits)
    | Str(s: string)
    | Array(items: Items)
    | Object(fields: Fields)
  datatype Items = NoItem | Item(head: Json, tail: Items)
  datatype Fields = NoField | Field(key: string, value: Json, rest: Fields)

  // ---------- strings ----------

  function HexDigit(n: nat): char
    requires n < 16
  {
    "0123456789abcdef"[n]
  }

  function HexValue(c: char): Option<nat> {
    if '0' <= c <= '9' then Some((c - '0') as nat)
    else if 'a' <= c <= 'f' then Some((c - 'a') as nat + 10)
    else if 'A' <= c <= 'F' then Some((c - 'A') as nat + 10)
    else None
  }

  function HexNumber(s: string): Option<nat> {
    if s == "" then Some(0)
    else
      var n, d := HexNumber(s[..|s| - 1]), HexValue(s[|s| - 1]);
      if n.Some? && d.Some? then Some(n.value * 16 + d.value) else None
  }

  /** How one character is written inside a basic string. */
  function Escape(c: char): string {
    if c == '\\' then "\\\\"
    else if c == '\"' then "\\\""
    else if c == 8 as char then "\\b"
    else if c == '\t' then "\\t"
    else if c == '\n' then "\\n"
    else if c == 12 as char then "\\f"
    else if c == '\r' then "\\r"
    else if c as nat < 0x20 || c as nat == 0x7f then "\\u00" + [HexDigit(c as nat / 16), HexDigit(c as nat % 16)]
    else [c]
  }

  function EscapeAll(s: string): string {
    if s == "" then "" else Escape(s[0]) + EscapeAll(s[1..])
  }

  function Quote(s: string): string { "\"" + EscapeAll(s) + "\"" }

  /** Reads one escape after its backslash: the character and how much was read. */
  function ReadEscape(t: string): (r: Option<(char, nat)>)
    ensures r.Some? ==> 1 <= r.value.1 <= |t|
  {
    if t == "" then None
    else if t[0] == '\\' || t[0] == '\"' then Some((t[0], 1))
    else if t[0] == 'b' then Some((8 as char, 1))
    else if t[0] == 't' then Some(('\t', 1))
    else if t[0] == 'n' then Some(('\n', 1))
    else if t[0] == 'f' then Some((12 as char, 1))
    else if t[0] == 'r' then Some(('\r', 1))
    else if t[0] == 'u' && |t| >= 5 then ReadCodePoint(HexNumber(t[1..5]), 5)
    else if t[0] == 'U' && |t| >= 9 then ReadCodePoint(HexNumber(t[1..9]), 9)
    else None
  }

  function ReadCodePoint(n: Option<nat>, used: nat): Option<(char, nat)> {
    if n.Some? && (n.value < 0xD800 || 0xE000 <= n.value < 0x11_0000) then Some((n.value as char, used)) else None
  }

  /** Reads a basic string up to its closing quote. */
  function ReadString(t: string): (r: Option<(string, string)>)
    ensures r.Some? ==> |r.value.1| < |t|
  {
    if t == "" then None
    else if t[0] == '\"' then Some(("", t[1..]))
    else if t[0] == '\\' then
      match ReadEscape(t[1..])
      case None => None
      case Some((c, n)) =>
        (match ReadString(t[1 + n..])
         case None => None
         case Some((s, rest)) => Some(([c] + s, rest)))
    else if (t[0] as nat < 0x20 && t[0] != '\t') || t[0] as nat == 0x7f then None
    else
      match ReadString(t[1..])
      case None => None
      case Some((s, rest)) => Some(([t[0]] + s, rest))
  }

  lemma EscapeReads(c: char, t: string)
    ensures Escape(c) != ""
    ensures Escape(c)[0] == '\\' ==> ReadEscape(Escape(c)[1..] + t) == Some((c, |Escape(c)| - 1))
    ensures Escape(c)[0] != '\\' ==> Escape(c) == [c] && c != '\"' && c as nat >= 0x20 && c as nat != 0x7f
  {
    var n := c as nat;
    if Escape(c)[0] == '\\' && |Escape(c)| == 6 {
      var u := Escape(c)[1..] + t;
      assert n < 256;
      assert u[0] == 'u' && u[1..5] == "00" + [HexDigit(n / 16), HexDigit(n % 16)];
      HexReads(n / 16);
      HexReads(n % 16);
      HexPair(HexDigit(n / 16), HexDigit(n % 16));
      assert (n / 16) * 16 + n % 16 == n;
    }
  }

  lemma HexNext(s: string, c: char)
    requires HexNumber(s).Some? && HexValue(c).Some?
    ensures HexNumber(s + [c]) == Some(HexNumber(s).value * 16 + HexValue(c).value)
  {
    assert (s + [c])[..|s|] == s;
  }

  lemma HexPair(a: char, b: char)
    requires HexValue(a).Some? && HexValue(b).Some?
    ensures HexNumber("00" + [a, b]) == Some(HexValue(a).value * 16 + HexValue(b).value)
  {
    HexNext("", '0');
    HexNext("0", '0');
    assert "0" + ['0'] == "00";
    HexNext("00", a);
    HexNext("00" + [a], b);
    assert "00" + [a, b] == "00" + [a] + [b];
  }

  lemma HexReads(n: nat)
    requires n < 16
    ensures HexValue(HexDigit(n)) == Some(n)
  {
  }

  /** Reading an escaped string gives the string back, whatever follows. */
  lemma {:induction false} QuoteReads(s: string, t: string)
    ensures ReadString(EscapeAll(s) + "\"" + t) == Some((s, t))
  {
    hide Escape, ReadEscape, ReadCodePoint, HexNumber, HexDigit;
    if s == "" {
      assert EscapeAll(s) + "\"" + t == "\"" + t && ("\"" + t)[1..] == t;
    } else {
      var more := EscapeAll(s[1..]) + "\"" + t;
      var e := Escape(s[0]);
      assert EscapeAll(s) + "\"" + t == e + more;
      EscapeReads(s[0], more);
      QuoteReads(s[1..], t);
      if e[0] == '\\' {
        assert (e + more)[1..] == e[1..] + more;
        assert (e + more)[|e|..] == more;
      } else {
        assert (e + more)[1..] == more;
      }
      assert [s[0]] + s[1..] == s;
    }
  }

  // ---------- keys ----------

  predicate IsBare(c: char) {
    'a' <= c <= 'z' || 'A' <= c <= 'Z' || '0' <= c <= '9' || c == '_' || c == '-'
  }

  predicate BareKey(s: string) { s != "" && forall c :: c in s ==> IsBare(c) }

  function KeyText(s: string): string { if BareKey(s) then s else Quote(s) }

  function BareRun(t: string): nat
    ensures BareRun(t) <= |t|
  {
    if t == "" || !IsBare(t[0]) then 0 else 1 + BareRun(t[1..])
  }

  function ReadKey(t: string): (r: Option<(string, string)>)
    ensures r.Some? ==> |r.value.1| < |t|
  {
    if t != "" && t[0] == '\"' then ReadString(t[1..])
    else if BareRun(t) == 0 then None
    else Some((t[..BareRun(t)], t[BareRun(t)..]))
  }

  lemma {:induction false} BareRunOf(s: string, t: string)
    requires (forall c :: c in s ==> IsBare(c)) && (t == "" || !IsBare(t[0]))
    ensures BareRun(s + t) == |s|
  {
    if s == "" {
      assert s + t == t;
    } else {
      assert (s + t)[1..] == s[1..] + t;
      BareRunOf(s[1..], t);
    }
  }

  lemma BareHasNoQuote(s: string, t: string)
    requires BareKey(s)
    ensures (s + t)[0] != '\"'
  {
    assert IsBare(s[0]);
  }

  lemma KeyReads(s: string, t: string)
    requires t == "" || !IsBare(t[0])
    ensures ReadKey(KeyText(s) + t) == Some((s, t))
  {
    hide EscapeAll, ReadString, BareRun, IsBare;
    if BareKey(s) {
      BareRunOf(s, t);
      BareHasNoQuote(s, t);
      assert (s + t)[..|s|] == s && (s + t)[|s|..] == t;
    } else {
      QuoteReads(s, t);
      assert (Quote(s) + t)[1..] == EscapeAll(s) + "\"" + t;
    }
  }

  // ---------- numbers ----------

  function Dec(n: nat): (s: Digits)
    ensures s != ""
  {
    if n < 10 then [('0' as nat + n) as char] else Dec(n / 10) + [('0' as nat + n % 10) as char]
  }

  function DecValue(s: Digits): nat {
    if s == "" then 0 else DecValue(s[..|s| - 1]) * 10 + (s[|s| - 1] - '0') as nat
  }

  lemma {:induction false} DecReads(n: nat)
    ensures DecValue(Dec(n)) == n
  {
    if n >= 10 {
      DecReads(n / 10);
      var s := Dec(n);
      assert s[..|s| - 1] == Dec(n / 10);
    } else {
      var s := Dec(n);
      assert s[..0] == "";
    }
  }

  function DigitRun(t: string): (n: nat)
    ensures n <= |t| && forall i :: 0 <= i < n ==> '0' <= t[i] <= '9'
  {
    if t == "" || !('0' <= t[0] <= '9') then 0 else 1 + DigitRun(t[1..])
  }

  lemma {:induction false} DigitRunOf(s: Digits, t: string)
    requires t == "" || !('0' <= t[0] <= '9')
    ensures DigitRun(s + t) == |s|
  {
    if s == "" {
      assert s + t == t;
    } else {
      assert (s + t)[1..] == s[1..] + t;
      DigitRunOf(s[1..], t);
    }
  }

  function Fraction(frac: Digits): string { if frac == "" then "" else "." + frac }

  /** An integral value goes through int64, which loses the sign of zero. */
  function NumberText(neg: bool, whole: nat, frac: Digits): string {
    (if neg && !(whole == 0 && frac == "") then "-" else "") + Dec(whole) + Fraction(frac)
  }

  function ReadUnsigned(neg: bool, t: string): (r: Option<(Json, string)>)
    ensures r.Some? ==> |r.value.1| < |t|
  {
    var n := DigitRun(t);
    if n == 0 then None
    else
      var u := t[n..];
      if u != "" && u[0] == '.' then
        var m := DigitRun(u[1..]);
        if m == 0 then None else Some((Number(neg, DecValue(t[..n]), u[1..][..m]), u[1..][m..]))
      else Some((Number(neg, DecValue(t[..n]), ""), u))
  }

  function ReadNumber(t: string): (r: Option<(Json, string)>)
    ensures r.Some? ==> |r.value.1| < |t|
  {
    if t != "" && t[0] == '-' then ReadUnsigned(true, t[1..]) else ReadUnsigned(false, t)
  }

  lemma UnsignedReads(neg: bool, whole: nat, frac: Digits, t: string)
    requires Delimited(t)
    ensures ReadUnsigned(neg, Dec(whole) + Fraction(frac) + t) == Some((Number(neg, whole, frac), t))
  {
    hide Dec, DecValue, DigitRun, Fraction;
    var w := Dec(whole);
    var u := Fraction(frac) + t;
    assert w + Fraction(frac) + t == w + u;
    FractionReads(frac, t);
    DecReads(whole);
    DigitRunOf(w, u);
    assert (w + u)[..|w|] == w && (w + u)[|w|..] == u;
  }

  lemma FractionReads(frac: Digits, t: string)
    requires Delimited(t)
    ensures var u := Fraction(frac) + t;
            && (u == "" || !('0' <= u[0] <= '9'))
            && (frac == "" ==> u == t && (u == "" || u[0] != '.'))
            && (frac != "" ==> u != "" && u[0] == '.' && u[1..] == frac + t)
    ensures frac != "" ==> DigitRun(frac + t) == |frac| && (frac + t)[..|frac|] == frac && (frac + t)[|frac|..] == t
  {
    hide *;
    FractionText(frac, t);
    FractionDigits(frac, t);
  }

  lemma FractionText(frac: Digits, t: string)
    requires Delimited(t)
    ensures var u := Fraction(frac) + t;
            && (u == "" || !('0' <= u[0] <= '9'))
            && (frac == "" ==> u == t && (u == "" || u[0] != '.'))
            && (frac != "" ==> u != "" && u[0] == '.' && u[1..] == frac + t)
  {
    NothingBefore(t);
    DotBefore(frac, t);
  }

  lemma NothingBefore(t: string)
    ensures "" + t == t
  {
  }

  lemma DotBefore(f: string, t: string)
    ensures var u := "." + f + t; u != "" && u[0] == '.' && u[1..] == f + t
  {
    assert "." + f + t == "." + (f + t);
  }

  lemma FractionDigits(frac: Digits, t: string)
    requires Delimited(t)
    ensures DigitRun(frac + t) == |frac| && (frac + t)[..|frac|] == frac && (frac + t)[|frac|..] == t
  {
    hide DigitRun;
    DigitRunOf(frac, t);
  }

  lemma NumberReads(neg: bool, whole: nat, frac: Digits, t: string)
    requires Delimited(t)
    ensures NumberText(neg, whole, frac) != ""
            && (NumberText(neg, whole, frac)[0] == '-' || '0' <= NumberText(neg, whole, frac)[0] <= '9')
    ensures ReadNumber(NumberText(neg, whole, frac) + t)
            == Some((Number(neg && !(whole == 0 && frac == ""), whole, frac), t))
  {
    hide Dec, ReadUnsigned, Fraction;
    var minus := neg && !(whole == 0 && frac == "");
    var u := Dec(whole) + Fraction(frac) + t;
    UnsignedReads(minus, whole, frac, t);
    assert u[0] == Dec(whole)[0];
    if minus {
      assert NumberText(neg, whole, frac) + t == "-" + u;
      assert ("-" + u)[1..] == u;
    } else {
      assert NumberText(neg, whole, frac) + t == u;
    }
  }

  /** A value's text ends at the end, at a blank, a comma, a bracket or a line break. */
  predicate Delimited(t: string) {
    t == "" || t[0] == ' ' || t[0] == ',' || t[0] == ']' || t[0] == '\n'
  }

  // ---------- values ----------

  /** The inline form; a null anywhere inside is an error. */
  function Render(v: Json): Option<string> {
    match v
    case Null => None
    case Bool(b) => Some(if b then "true" else "false")
    case Number(neg, whole, frac) => Some(NumberText(neg, whole, frac))
    case Str(s) => Some(Quote(s))
    case Array(items) =>
      var inner := RenderItems(items);
      if inner.None? then None else Some("[" + inner.value + "]")
    case Object(fields) =>
      var inner := RenderFields(fields);
      if inner.None? then None else Some("{ " + inner.value + " }")
  }

  function RenderItems(items: Items): Option<string> {
    match items
    case NoItem => Some("")
    case Item(head, tail) =>
      var h := Render(head);
      var t := RenderItems(tail);
      if h.None? || t.None? then None
      else Some(if tail.NoItem? then h.value else h.value + ", " + t.value)
  }

  function RenderFields(fields: Fields): Option<string> {
    match fields
    case NoField => Some("")
    case Field(key, value, rest) =>
      var h := Render(value);
      var t := RenderFields(rest);
      if h.None? || t.None? then None
      else Some(KeyText(key) + " = " + h.value + if rest.NoField? then "" else ", " + t.value)
  }

  function ReadValue(t: string): (r: Option<(Json, string)>)
    ensures r.Some? ==> |r.value.1| < |t|
    decreases |t|, 0
  {
    if t == "" then None
    else if StartsWith(t, "true") then Some((Bool(true), t[4..]))
    else if StartsWith(t, "false") then Some((Bool(false), t[5..]))
    else if t[0] == '\"' then
      match ReadString(t[1..])
      case None => None
      case Some((s, rest)) => Some((Str(s), rest))
    else if StartsWith(t, "[]") then Some((Array(NoItem), t[2..]))
    else if t[0] == '[' then
      match ReadItems(t[1..])
      case None => None
      case Some((items, rest)) => Some((Array(items), rest))
    else if StartsWith(t, "{  }") then Some((Object(NoField), t[4..]))
    else if StartsWith(t, "{ ") then
      match ReadFields(t[2..])
      case None => None
      case Some((fields, rest)) => Some((Object(fields), rest))
    else ReadNumber(t)
  }

  /** One or more values up to the closing bracket. */
  function ReadItems(t: string): (r: Option<(Items, string)>)
    ensures r.Some? ==> |r.value.1| < |t|
    decreases |t|, 1
  {
    match ReadValue(t)
    case None => None
    case Some((v, u)) =>
      if StartsWith(u, "]") then Some((Item(v, NoItem), u[1..]))
      else if StartsWith(u, ", ") then
        (match ReadItems(u[2..])
         case None => None
         case Some((more, rest)) => Some((Item(v, more), rest)))
      else None
  }

  /** One or more fields up to the closing brace. */
  function ReadFields(t: string): (r: Option<(Fields, string)>)
    ensures r.Some? ==> |r.value.1| < |t|
    decreases |t|, 1
  {
    match ReadKey(t)
    case None => None
    case Some((key, u)) =>
      if !StartsWith(u, " = ") then None
      else
        match ReadValue(u[3..])
        case None => None
        case Some((v, w)) =>
          if StartsWith(w, " }") then Some((Field(key, v, NoField), w[2..]))
          else if StartsWith(w, ", ") then
            (match ReadFields(w[2..])
             case None => None
             case Some((more, rest)) => Some((Field(key, v, more), rest)))
          else None
  }

  /** What survives printing: everything but the sign of a zero. */
  function Plain(v: Json): Json {
    match v
    case Number(neg, whole, frac) => Number(neg && !(whole == 0 && frac == ""), whole, frac)
    case Array(items) => Array(PlainItems(items))
    case Object(fields) => Object(PlainFields(fields))
    case _ => v
  }

  function PlainItems(items: Items): Items {
    match items
    case NoItem => NoItem
    case Item(head, tail) => Item(Plain(head), PlainItems(tail))
  }

  function PlainFields(fields: Fields): Fields {
    match fields
    case NoField => NoField
    case Field(key, value, rest) => Field(key, Plain(value), PlainFields(rest))
  }

  lemma ReadScalar(t: string)
    requires t != ""
    ensures t[0] == '\"' ==>
              ReadValue(t) == (match ReadString(t[1..]) case None => None case Some((s, rest)) => Some((Str(s), rest)))
    ensures t[0] == '-' || '0' <= t[0] <= '9' ==> ReadValue(t) == ReadNumber(t)
  {
    hide ReadString, ReadNumber, ReadItems, ReadFields, StartsWith;
    if t[0] == '\"' || t[0] == '-' || '0' <= t[0] <= '9' { NoWordAhead(t); }
  }

  lemma NoWordAhead(t: string)
    requires t != "" && t[0] !in {'t', 'f', '[', '{'}
    ensures !StartsWith(t, "true") && !StartsWith(t, "false")
    ensures !StartsWith(t, "[]") && !StartsWith(t, "{  }") && !StartsWith(t, "{ ") && !StartsWith(t, "[")
  {
  }

  lemma ReadArray(t: string)
    requires t != "" && t[0] == '['
    ensures StartsWith(t, "[]") ==> ReadValue(t) == Some((Array(NoItem), t[2..]))
    ensures !StartsWith(t, "[]") ==>
      ReadValue(t) == (match ReadItems(t[1..]) case None => None case Some((items, rest)) => Some((Array(items), rest)))
  {
    hide ReadString, ReadNumber, ReadItems, ReadFields;
    assert !StartsWith(t, "true") && !StartsWith(t, "false");
  }

  lemma ReadObject(t: string)
    requires StartsWith(t, "{ ")
    ensures StartsWith(t, "{  }") ==> ReadValue(t) == Some((Object(NoField), t[4..]))
    ensures !StartsWith(t, "{  }") ==>
      ReadValue(t) == (match ReadFields(t[2..])
                        case None => None
                        case Some((fields, rest)) => Some((Object(fields), rest)))
  {
    hide ReadString, ReadNumber, ReadItems, ReadFields;
    assert t[0] == "{ "[0];
    assert !StartsWith(t, "true") && !StartsWith(t, "false") && !StartsWith(t, "[]");
  }

  /** The first character of a value's text, and of a list of fields. */
  lemma {:induction false} FirstChar(v: Json)
    requires Render(v).Some?
    ensures Render(v).value != "" && Render(v).value[0] != ']' && Render(v).value[0] != ' '
  {
    match v {
      case Number(neg, whole, frac) => NumberReads(neg, whole, frac, "");
      case _ =>
    }
  }

  lemma KeyFirst(key: string)
    ensures KeyText(key) != "" && KeyText(key)[0] != ' '
  {
    if BareKey(key) {
      assert IsBare(key[0]);
    }
  }

  /** Reading the printed text of a value gives the value back, up to the sign of
      a zero, and leaves exactly what followed it. */
  lemma {:induction false} RenderReads(v: Json, t: string)
    requires Render(v).Some? && Delimited(t)
    ensures ReadValue(Render(v).value + t) == Some((Plain(v), t))
    decreases v, 1
  {
    hide ReadValue, ReadItems, ReadFields, NumberText, ReadNumber, EscapeAll, ReadString;
    var r := Render(v).value;
    FirstChar(v);
    match v {
      case Bool(b) =>
        BoolReads(b, t);
      case Number(neg, whole, frac) =>
        NumberReads(neg, whole, frac, t);
        ReadScalar(r + t);
      case Str(s) =>
        ReadScalar(r + t);
        QuoteReads(s, t);
        assert (Quote(s) + t)[1..] == EscapeAll(s) + "\"" + t;
      case Array(items) =>
        ArrayText(RenderItems(items).value, t);
        if items.Item? {
          ItemsRead(items, t);
          FirstChar(items.head);
        }
      case Object(fields) =>
        ObjectText(RenderFields(fields).value, t);
        if fields.Field? {
          FieldsRead(fields, t);
          KeyFirst(fields.key);
        }
    }
  }

  /** What stands between the brackets is read as the items. */
  lemma ArrayText(inner: string, t: string)
    ensures inner == "" ==> ReadValue("[" + inner + "]" + t) == Some((Array(NoItem), t))
    ensures inner != "" && inner[0] != ']' ==>
      ReadValue("[" + inner + "]" + t)
        == (match ReadItems(inner + "]" + t) case None => None case Some((items, rest)) => Some((Array(items), rest)))
  {
    hide ReadValue, ReadItems;
    var r := "[" + inner + "]" + t;
    ReadArray(r);
    assert r[1..] == inner + "]" + t;
    assert inner == "" ==> r[..2] == "[]" && r[2..] == t;
    assert inner != "" ==> r[1] == inner[0];
  }

  lemma ObjectText(inner: string, t: string)
    ensures inner == "" ==> ReadValue("{ " + inner + " }" + t) == Some((Object(NoField), t))
    ensures inner != "" && inner[0] != ' ' ==>
      ReadValue("{ " + inner + " }" + t)
        == (match ReadFields(inner + " }" + t)
            case None => None
            case Some((fields, rest)) => Some((Object(fields), rest)))
  {
    hide ReadValue, ReadFields;
    var r := "{ " + inner + " }" + t;
    assert r[..2] == "{ " && r[2..] == inner + " }" + t;
    ReadObject(r);
    assert inner == "" ==> r[..4] == "{  }" && r[4..] == t;
    assert inner != "" ==> r[2] == inner[0];
  }

  lemma BoolReads(b: bool, t: string)
    ensures ReadValue((if b then "true" else "false") + t) == Some((Bool(b), t))
  {
    var r := (if b then "true" else "false") + t;
    if b {
      assert r[..4] == "true" && r[4..] == t;
    } else {
      assert r[..5] == "false" && r[5..] == t && r[0] == 'f';
    }
  }

  lemma {:induction false} ItemsRead(items: Items, t: string)
    requires items.Item? && RenderItems(items).Some?
    ensures ReadItems(RenderItems(items).value + "]" + t) == Some((PlainItems(items), t))
    decreases items, 0
  {
    hide ReadValue, Render;
    var h := Render(items.head).value;
    if items.tail.NoItem? {
      RenderReads(items.head, "]" + t);
      assert h + "]" + t == h + ("]" + t);
      assert ("]" + t)[1..] == t;
    } else {
      var more := RenderItems(items.tail).value + "]" + t;
      RenderReads(items.head, ", " + more);
      ItemsRead(items.tail, t);
      assert RenderItems(items).value + "]" + t == h + (", " + more);
      assert (", " + more)[2..] == more;
    }
  }

  lemma {:induction false} FieldsRead(fields: Fields, t: string)
    requires fields.Field? && RenderFields(fields).Some?
    ensures ReadFields(RenderFields(fields).value + " }" + t) == Some((PlainFields(fields), t))
    decreases fields, 0
  {
    hide ReadValue, Render, ReadKey, KeyText;
    var k := KeyText(fields.key);
    var h := Render(fields.value).value;
    if fields.rest.NoField? {
      KeyReads(fields.key, " = " + h + " }" + t);
      RenderReads(fields.value, " }" + t);
      assert RenderFields(fields).value + " }" + t == k + (" = " + h + " }" + t);
      assert (" = " + h + " }" + t)[3..] == h + (" }" + t);
      assert (" }" + t)[2..] == t;
    } else {
      var more := RenderFields(fields.rest).value + " }" + t;
      KeyReads(fields.key, " = " + h + ", " + more);
      RenderReads(fields.value, ", " + more);
      FieldsRead(fields.rest, t);
      assert RenderFields(fields).value + " }" + t == k + (" = " + h + ", " + more);
      assert (" = " + h + ", " + more)[3..] == h + (", " + more);
      assert (", " + more)[2..] == more;
    }
  }

  lemma {:induction false} PlainRenders(v: Json)
    ensures Render(Plain(v)) == Render(v)
  {
    hide Quote, Dec;
    match v {
      case Array(items) => PlainItemsRender(items);
      case Object(fields) => PlainFieldsRender(fields);
      case _ =>
    }
  }

  lemma {:induction false} PlainItemsRender(items: Items)
    ensures RenderItems(PlainItems(items)) == RenderItems(items)
  {
    hide Render;
    match items {
      case NoItem =>
      case Item(head, tail) =>
        PlainRenders(head);
        PlainItemsRender(tail);
    }
  }

  lemma {:induction false} PlainFieldsRender(fields: Fields)
    ensures RenderFields(PlainFields(fields)) == RenderFields(fields)
  {
    hide Render, KeyText;
    match fields {
      case NoField =>
      case Field(_, value, rest) =>
        PlainRenders(value);
        PlainFieldsRender(rest);
    }
  }

  /** Two values print alike exactly when they differ at most in the sign of a zero. */
  lemma RenderInjective(v: Json, w: Json)
    requires Render(v).Some? && Render(w).Some?
    ensures Render(v) == Render(w) <==> Plain(v) == Plain(w)
  {
    hide Render, Plain;
    PlainRenders(v);
    PlainRenders(w);
    RenderReads(v, "");
    RenderReads(w, "");
    assert Render(v).value + "" == Render(v).value && Render(w).value + "" == Render(w).value;
  }

  // ---------- one line, no nulls ----------

  /** No control character, so no line break. */
  predicate Inline(s: string) { forall c :: c in s ==> c as nat >= 0x20 && c as nat != 0x7f }

  lemma {:induction false} QuoteInline(s: string)
    ensures Inline(EscapeAll(s))
  {
    if s != "" {
      EscapeInline(s[0]);
      QuoteInline(s[1..]);
    }
  }

  lemma EscapeInline(c: char)
    ensures Inline(Escape(c))
  {
    if c as nat < 0x20 || c as nat == 0x7f {
      assert Inline("\\u00" + [HexDigit(c as nat / 16), HexDigit(c as nat % 16)]);
    }
  }

  lemma KeyInline(key: string)
    ensures Inline(KeyText(key))
  {
    QuoteInline(key);
    if BareKey(key) {
      assert forall c :: IsBare(c) ==> c as nat >= 0x20 && c as nat != 0x7f;
    }
  }

  predicate HasNull(v: Json) {
    match v
    case Null => true
    case Array(items) => ItemsHaveNull(items)
    case Object(fields) => FieldsHaveNull(fields)
    case _ => false
  }
  predicate ItemsHaveNull(items: Items) { items.Item? && (HasNull(items.head) || ItemsHaveNull(items.tail)) }
  predicate FieldsHaveNull(fields: Fields) { fields.Field? && (HasNull(fields.value) || FieldsHaveNull(fields.rest)) }

  /** Printing fails exactly on a null, at any depth, and never breaks the line. */
  lemma {:induction false} RenderInline(v: Json)
    ensures Render(v).None? <==> HasNull(v)
    ensures Render(v).Some? ==> Inline(Render(v).value)
  {
    match v {
      case Number(neg, whole, frac) =>
        assert forall c :: c in NumberText(neg, whole, frac) ==> c == '-' || c == '.' || '0' <= c <= '9';
      case Str(s) => QuoteInline(s);
      case Array(items) => ItemsInline(items);
      case Object(fields) => FieldsInline(fields);
      case _ =>
    }
  }

  lemma {:induction false} ItemsInline(items: Items)
    ensures RenderItems(items).None? <==> ItemsHaveNull(items)
    ensures RenderItems(items).Some? ==> Inline(RenderItems(items).value)
  {
    hide Render, HasNull;
    match items {
      case NoItem =>
      case Item(head, tail) =>
        RenderInline(head);
        ItemsInline(tail);
    }
  }

  lemma {:induction false} FieldsInline(fields: Fields)
    ensures RenderFields(fields).None? <==> FieldsHaveNull(fields)
    ensures RenderFields(fields).Some? ==> Inline(RenderFields(fields).value)
  {
    hide Render, HasNull, KeyText;
    match fields {
      case NoField =>
      case Field(key, value, rest) =>
        KeyInline(key);
        RenderInline(value);
        FieldsInline(rest);
    }
  }

  // ---------- the code ----------

  lemma EscapeSnoc(s: string, c: char)
    ensures EscapeAll(s + [c]) == EscapeAll(s) + Escape(c)
  {
    hide Escape;
    if s == "" {
      assert s + [c] == [c] && [c][1..] == "";
      assert EscapeAll([c]) == Escape(c) + EscapeAll("");
    } else {
      assert (s + [c])[1..] == s[1..] + [c];
      EscapeSnoc(s[1..], c);
    }
  }

  method BasicString(s: string) returns (text: string)
    ensures text == Quote(s)
    ensures ReadString(text[1..]) == Some((s, ""))
  {
    hide Escape, ReadString;
    text := "\"";
    for i := 0 to |s|
      invariant text == "\"" + EscapeAll(s[..i])
    {
      EscapeSnoc(s[..i], s[i]);
      assert s[..i + 1] == s[..i] + [s[i]];
      var e := EscapeCharacter(s[i]);
      text := text + e;
    }
    assert s[..|s|] == s;
    QuoteReads(s, "");
    text := text + "\"";
    assert text[1..] == EscapeAll(s) + "\"" + "";
  }

  method EscapeCharacter(r: char) returns (e: string)
    ensures e == Escape(r)
  {
    match r as int {
      case 0x5C => e := "\\\\";
      case 0x22 => e := "\\\"";
      case 8 => e := "\\b";
      case 9 => e := "\\t";
      case 10 => e := "\\n";
      case 12 => e := "\\f";
      case 13 => e := "\\r";
      case n =>
        if n < 0x20 || n == 0x7f {
          e := "\\u00" + [HexDigit(n / 16), HexDigit(n % 16)];
        } else {
          e := [r];
        }
    }
  }
}
