/** The JSON text format as `JSON.stringify` writes it and `JSON.parse`
    reads it, for the values the application persists: null, booleans,
    integers, strings, arrays and objects. `Serialize` produces the compact
    form JSON.stringify produces (no whitespace, its escapes); `Parse`
    accepts whitespace between tokens and every escape JSON allows. */
module Json {
  import opened Options
  import opened JsString

  datatype Json =
    | Null
    | Bool(b: bool)
    | Num(n: int)
    | Str(s: string)
    | Arr(items: seq<Json>)
    | Obj(members: seq<Member>)

  /** One `"key": value` entry of an object, in the order written. */
  datatype Member = Member(key: string, value: Json)

  /** The value of `key` in an object's members; when a key is written more
      than once the last one wins, as in JSON.parse. */
  function Get(ms: seq<Member>, key: string): Option<Json> {
    if ms == [] then None
    else if ms[|ms| - 1].key == key then Some(ms[|ms| - 1].value)
    else Get(ms[..|ms| - 1], key)
  }

  /** Get finds a key exactly when some member has it, and then gives the
      value of the last such member. */
  lemma {:induction false} GetSpec(ms: seq<Member>, key: string)
    ensures Get(ms, key).Some? <==> exists i :: 0 <= i < |ms| && ms[i].key == key
    ensures Get(ms, key).Some? ==>
      (exists i :: 0 <= i < |ms| && ms[i].key == key && ms[i].value == Get(ms, key).value
         && forall j :: i < j < |ms| ==> ms[j].key != key)
  {
    if ms != [] {
      var last := |ms| - 1;
      if ms[last].key == key {
        assert ms[last].value == Get(ms, key).value;
      } else {
        var init := ms[..last];
        GetSpec(init, key);
        assert Get(ms, key) == Get(init, key);
        if i :| 0 <= i < |ms| && ms[i].key == key {
          assert i < last && init[i] == ms[i];
        }
        if Get(init, key).Some? {
          var i :| 0 <= i < |init| && init[i].key == key && init[i].value == Get(init, key).value
            && forall j :: i < j < |init| ==> init[j].key != key;
          assert ms[i] == init[i];
          assert forall j :: i < j < |ms| ==> ms[j].key != key by {
            assert forall j :: i < j < last ==> ms[j] == init[j];
          }
        }
      }
    }
  }

  // ---------------------------------------------------------------------
  // Writing (JSON.stringify)
  // ---------------------------------------------------------------------

  function DigitChar(d: nat): (c: char)
    requires d < 10
    ensures IsDigit(c)
  {
    ('0' as int + d) as char
  }

  function HexChar(d: nat): char
    requires d < 16
  {
    if d < 10 then ('0' as int + d) as char else ('a' as int + d - 10) as char
  }

  /** The decimal digits of `n`, without leading zeros. */
  function NatToString(n: nat): (r: string)
    ensures r != [] && forall i :: 0 <= i < |r| ==> IsDigit(r[i])
    ensures r[0] == '0' ==> n == 0 && |r| == 1
  {
    if n < 10 then [DigitChar(n)] else NatToString(n / 10) + [DigitChar(n % 10)]
  }

  function IntToString(n: int): string {
    if n < 0 then "-" + NatToString(-n) else NatToString(n)
  }

  /** The escape JSON.stringify writes for one character of a string. */
  function EscapeChar(c: char): string {
    if c == '"' then "\\\""
    else if c == '\\' then "\\\\"
    else if c == '\U{8}' then "\\b"
    else if c == '\t' then "\\t"
    else if c == '\n' then "\\n"
    else if c == '\U{C}' then "\\f"
    else if c == '\r' then "\\r"
    else if (c as int) < 0x20 then "\\u00" + [HexChar(c as int / 16), HexChar(c as int % 16)]
    else [c]
  }

  function Escape(s: string): string {
    if s == [] then "" else EscapeChar(s[0]) + Escape(s[1..])
  }

  function Quote(s: string): string {
    "\"" + Escape(s) + "\""
  }

  function Serialize(j: Json): string {
    match j
    case Null => "null"
    case Bool(b) => if b then "true" else "false"
    case Num(n) => IntToString(n)
    case Str(s) => Quote(s)
    case Arr(items) => "[" + SerializeItems(items) + "]"
    case Obj(ms) => "{" + SerializeMembers(ms) + "}"
  }

  function SerializeItems(items: seq<Json>): string {
    if items == [] then ""
    else Serialize(items[0]) + (if |items| == 1 then "" else "," + SerializeItems(items[1..]))
  }

  function SerializeMembers(ms: seq<Member>): string {
    if ms == [] then ""
    else Quote(ms[0].key) + ":" + Serialize(ms[0].value)
         + (if |ms| == 1 then "" else "," + SerializeMembers(ms[1..]))
  }

  // ---------------------------------------------------------------------
  // Reading (JSON.parse)
  // ---------------------------------------------------------------------

  predicate IsJsonWs(c: char) { c == ' ' || c == '\t' || c == '\n' || c == '\r' }

  function SkipWs(s: string): (r: string)
    ensures |r| <= |s| && (r == [] || !IsJsonWs(r[0]))
    ensures (s == [] || !IsJsonWs(s[0])) ==> r == s
  {
    if s != [] && IsJsonWs(s[0]) then SkipWs(s[1..]) else s
  }

  function HexValue(c: char): (r: Option<nat>)
    ensures r.Some? ==> r.value < 16
  {
    if '0' <= c <= '9' then Some(c as int - '0' as int)
    else if 'a' <= c <= 'f' then Some(c as int - 'a' as int + 10)
    else if 'A' <= c <= 'F' then Some(c as int - 'A' as int + 10)
    else None
  }

  /** Decodes the escape that follows a backslash; gives the character and
      how many characters of `e` the escape takes. A `\u` escape naming a
      surrogate code unit is refused (see README). */
  function DecodeEscape(e: string): (r: Option<(char, nat)>)
    ensures r.Some? ==> 1 <= r.value.1 <= |e|
  {
    if e == [] then None
    else if e[0] == '"' then Some(('"', 1))
    else if e[0] == '\\' then Some(('\\', 1))
    else if e[0] == '/' then Some(('/', 1))
    else if e[0] == 'b' then Some(('\U{8}', 1))
    else if e[0] == 'f' then Some(('\U{C}', 1))
    else if e[0] == 'n' then Some(('\n', 1))
    else if e[0] == 'r' then Some(('\r', 1))
    else if e[0] == 't' then Some(('\t', 1))
    else if e[0] == 'u' && |e| >= 5 then
      match (HexValue(e[1]), HexValue(e[2]), HexValue(e[3]), HexValue(e[4]))
      case (Some(a), Some(b), Some(c), Some(d)) =>
        var v := ((a * 16 + b) * 16 + c) * 16 + d;
        if 0xD800 <= v <= 0xDFFF then None else Some((v as char, 5))
      case _ => None
    else None
  }

  /** Reads the rest of a string literal whose opening quote is already
      consumed: the decoded text and what follows the closing quote. */
  function ParseStringBody(s: string): (r: Option<(string, string)>)
    ensures r.Some? ==> |r.value.1| < |s|
    decreases |s|
  {
    if s == [] then None
    else if s[0] == '"' then Some(([], s[1..]))
    else if s[0] == '\\' then
      match DecodeEscape(s[1..])
      case None => None
      case Some((c, n)) =>
        match ParseStringBody(s[1 + n..])
        case None => None
        case Some((str, rest)) => Some(([c] + str, rest))
    else if (s[0] as int) < 0x20 then None
    else
      match ParseStringBody(s[1..])
      case None => None
      case Some((str, rest)) => Some(([s[0]] + str, rest))
  }

  /** How many decimal digits `s` starts with. */
  function DigitRun(s: string): (n: nat)
    ensures n <= |s|
    ensures forall i :: 0 <= i < n ==> IsDigit(s[i])
    ensures n < |s| ==> !IsDigit(s[n])
  {
    if s != [] && IsDigit(s[0]) then 1 + DigitRun(s[1..]) else 0
  }

  function DigitValue(c: char): nat
    requires IsDigit(c)
  {
    c as int - '0' as int
  }

  function DigitsValue(ds: string): nat
    requires forall i :: 0 <= i < |ds| ==> IsDigit(ds[i])
  {
    if ds == [] then 0
    else DigitsValue(ds[..|ds| - 1]) * 10 + DigitValue(ds[|ds| - 1])
  }

  /** An integer literal: an optional minus and digits without a leading
      zero. A fraction or exponent is refused (see README). */
  function ParseNumber(t: string): (r: Option<(Json, string)>)
    requires t != []
    ensures r.Some? ==> |r.value.1| < |t|
  {
    if t[0] == '-' then
      match ParseDigits(t[1..])
      case None => None
      case Some((v, rest)) => Some((Num(-(v as int)), rest))
    else
      match ParseDigits(t)
      case None => None
      case Some((v, rest)) => Some((Num(v), rest))
  }

  /** The digits of an integer literal and what follows them. */
  function ParseDigits(u: string): (r: Option<(nat, string)>)
    ensures r.Some? ==> |r.value.1| < |u|
  {
    var d := DigitRun(u);
    if d == 0 || (u[0] == '0' && d > 1) then None
    else
      var rest := u[d..];
      if rest != [] && (rest[0] == '.' || rest[0] == 'e' || rest[0] == 'E') then None
      else Some((DigitsValue(u[..d]), rest))
  }

  function ParseValue(s: string): (r: Option<(Json, string)>)
    ensures r.Some? ==> |r.value.1| < |s|
    decreases |s|, 0
  {
    var t := SkipWs(s);
    if t == [] then None
    else if t[0] == 'n' then (if StartsWith(t, "null") then Some((Null, t[4..])) else None)
    else if t[0] == 't' then (if StartsWith(t, "true") then Some((Bool(true), t[4..])) else None)
    else if t[0] == 'f' then (if StartsWith(t, "false") then Some((Bool(false), t[5..])) else None)
    else if t[0] == '"' then
      match ParseStringBody(t[1..])
      case None => None
      case Some((str, rest)) => Some((Str(str), rest))
    else if t[0] == '[' then ParseArray(t[1..])
    else if t[0] == '{' then ParseObject(t[1..])
    else if t[0] == '-' || IsDigit(t[0]) then ParseNumber(t)
    else None
  }

  /** The rest of an array whose `[` is already consumed. */
  function ParseArray(s: string): (r: Option<(Json, string)>)
    ensures r.Some? ==> |r.value.1| < |s|
    decreases |s|, 2
  {
    var t := SkipWs(s);
    if t != [] && t[0] == ']' then Some((Arr([]), t[1..]))
    else ParseElements(s, [])
  }

  /** One or more elements, then `]`; `acc` holds the elements read so far. */
  function ParseElements(s: string, acc: seq<Json>): (r: Option<(Json, string)>)
    ensures r.Some? ==> |r.value.1| < |s|
    decreases |s|, 1
  {
    match ParseValue(s)
    case None => None
    case Some((v, rest)) =>
      var t := SkipWs(rest);
      if t == [] then None
      else if t[0] == ',' then ParseElements(t[1..], acc + [v])
      else if t[0] == ']' then Some((Arr(acc + [v]), t[1..]))
      else None
  }

  /** The rest of an object whose `{` is already consumed. */
  function ParseObject(s: string): (r: Option<(Json, string)>)
    ensures r.Some? ==> |r.value.1| < |s|
    decreases |s|, 2
  {
    var t := SkipWs(s);
    if t != [] && t[0] == '}' then Some((Obj([]), t[1..]))
    else ParseMembers(s, [])
  }

  /** One or more `"key": value` members, then `}`. */
  function ParseMembers(s: string, acc: seq<Member>): (r: Option<(Json, string)>)
    ensures r.Some? ==> |r.value.1| < |s|
    decreases |s|, 1
  {
    var t := SkipWs(s);
    if t == [] || t[0] != '"' then None
    else
      match ParseValue(t)
      case Some((Str(key), afterKey)) =>
        var u := SkipWs(afterKey);
        if u == [] || u[0] != ':' then None
        else
          (match ParseValue(u[1..])
           case None => None
           case Some((v, rest)) =>
             var w := SkipWs(rest);
             if w == [] then None
             else if w[0] == ',' then ParseMembers(w[1..], acc + [Member(key, v)])
             else if w[0] == '}' then Some((Obj(acc + [Member(key, v)]), w[1..]))
             else None)
      case _ => None
  }

  /** `JSON.parse(text)`: one value, surrounded by optional whitespace;
      `None` where JSON.parse throws. */
  function Parse(text: string): Option<Json> {
    match ParseValue(text)
    case None => None
    case Some((v, rest)) => if SkipWs(rest) == [] then Some(v) else None
  }

  // ---------------------------------------------------------------------
  // Reading back what was written
  // ---------------------------------------------------------------------

  /** What may follow a value inside the text JSON.stringify writes. */
  predicate Follows(rest: string) {
    rest == [] || rest[0] == ',' || rest[0] == ']' || rest[0] == '}'
  }

  lemma {:induction false} DigitsOfNat(n: nat)
    ensures DigitsValue(NatToString(n)) == n
  {
    if n >= 10 {
      DigitsOfNat(n / 10);
      var ds := NatToString(n);
      assert ds[..|ds| - 1] == NatToString(n / 10);
    }
  }

  /** The digits written for `m`, followed by a character that cannot
      continue a number, read back as `m`. */
  lemma ParseDigitsSerialize(m: nat, rest: string)
    requires Follows(rest)
    ensures ParseDigits(NatToString(m) + rest) == Some((m, rest))
  {
    var ds := NatToString(m);
    var u := ds + rest;
    DigitRunOfDigits(ds, rest);
    assert u[..|ds|] == ds;
    assert u[|ds|..] == rest;
    DigitsOfNat(m);
  }

  lemma ParseNumberNegative(u: string, m: nat, rest: string)
    requires ParseDigits(u) == Some((m, rest))
    ensures ParseNumber("-" + u) == Some((Num(-(m as int)), rest))
  {
    assert ("-" + u)[0] == '-' && ("-" + u)[1..] == u;
  }

  lemma ParseNumberNonNegative(u: string, m: nat, rest: string)
    requires u != [] && u[0] != '-'
    requires ParseDigits(u) == Some((m, rest))
    ensures ParseNumber(u) == Some((Num(m), rest))
  {
  }

  lemma ParseNumberSerialize(n: int, rest: string)
    requires Follows(rest)
    ensures ParseNumber(IntToString(n) + rest) == Some((Num(n), rest))
  {
    if n < 0 {
      var u := NatToString(-n) + rest;
      ParseDigitsSerialize(-n, rest);
      ParseNumberNegative(u, -n, rest);
      Concat3("-", NatToString(-n), rest);
    } else {
      var u := NatToString(n) + rest;
      ParseDigitsSerialize(n, rest);
      assert u[0] != '-';
      ParseNumberNonNegative(u, n, rest);
    }
  }

  lemma {:induction false} DigitRunOfDigits(ds: string, rest: string)
    requires forall i :: 0 <= i < |ds| ==> IsDigit(ds[i])
    requires rest == [] || !IsDigit(rest[0])
    ensures DigitRun(ds + rest) == |ds|
  {
    if ds != [] {
      DigitRunOfDigits(ds[1..], rest);
      assert (ds + rest)[1..] == ds[1..] + rest;
    }
  }

  lemma HexRoundTrip(d: nat)
    requires d < 16
    ensures HexValue(HexChar(d)) == Some(d)
  {
  }

  /** A control character without a short escape is written `\u00XX`. */
  predicate IsHexEscaped(c: char) {
    (c as int) < 0x20 && c != '\U{8}' && c != '\t' && c != '\n' && c != '\U{C}' && c != '\r'
  }

  lemma ParseEscapeChar(c: char, more: string)
    ensures ParseStringBody(EscapeChar(c) + more) ==
      match ParseStringBody(more)
      case None => None
      case Some((str, rest)) => Some(([c] + str, rest))
  {
    if IsHexEscaped(c) {
      ParseHexEscaped(c, more);
    } else if EscapeChar(c) != [c] {
      ParseShortEscaped(c, more);
    } else {
      assert (EscapeChar(c) + more)[1..] == more;
    }
  }

  lemma ParseHexEscaped(c: char, more: string)
    requires IsHexEscaped(c)
    ensures ParseStringBody(EscapeChar(c) + more) ==
      match ParseStringBody(more)
      case None => None
      case Some((str, rest)) => Some(([c] + str, rest))
  {
    var e := EscapeChar(c);
    var hi, lo := c as int / 16, c as int % 16;
    HexRoundTrip(hi);
    HexRoundTrip(lo);
    assert (e + more)[1..] == "u00" + [HexChar(hi), HexChar(lo)] + more;
    assert DecodeEscape((e + more)[1..]) == Some((c, 5));
    assert (e + more)[6..] == more;
  }

  lemma ParseShortEscaped(c: char, more: string)
    requires !IsHexEscaped(c) && EscapeChar(c) != [c]
    ensures ParseStringBody(EscapeChar(c) + more) ==
      match ParseStringBody(more)
      case None => None
      case Some((str, rest)) => Some(([c] + str, rest))
  {
    var e := EscapeChar(c);
    assert |e| == 2 && e[0] == '\\';
    assert (e + more)[1..] == [e[1]] + more;
    assert (e + more)[2..] == more;
  }

  lemma {:induction false} ParseStringSerialize(s: string, rest: string)
    ensures ParseStringBody(Escape(s) + "\"" + rest) == Some((s, rest))
  {
    if s == [] {
      assert Escape(s) + "\"" + rest == "\"" + rest;
    } else {
      ParseStringSerialize(s[1..], rest);
      ParseStringStep(s, rest);
    }
  }

  /** One character of the string literal: its escape decodes to it. */
  lemma ParseStringStep(s: string, rest: string)
    requires s != [] && ParseStringBody(Escape(s[1..]) + "\"" + rest) == Some((s[1..], rest))
    ensures ParseStringBody(Escape(s) + "\"" + rest) == Some((s, rest))
  {
    var tail := Escape(s[1..]) + "\"" + rest;
    EscapeQuoted(s, rest);
    ParseEscapeChar(s[0], tail);
    assert [s[0]] + s[1..] == s;
  }

  /** Escaping a non-empty string escapes its first character in front of the rest. */
  lemma EscapeQuoted(s: string, rest: string)
    requires s != []
    ensures Escape(s) + "\"" + rest == EscapeChar(s[0]) + (Escape(s[1..]) + "\"" + rest)
  {
    assert Escape(s) == EscapeChar(s[0]) + Escape(s[1..]);
  }

  /** A serialised value is never empty and starts with the character that
      selects its kind. */
  lemma SerializeStart(j: Json)
    ensures Serialize(j) != []
    ensures var c := Serialize(j)[0];
      match j
      case Null => c == 'n'
      case Bool(b) => c == (if b then 't' else 'f')
      case Num(n) => c == '-' || IsDigit(c)
      case Str(_) => c == '"'
      case Arr(_) => c == '['
      case Obj(_) => c == '{'
  {
  }

  /** How ParseValue continues once no whitespace is left to skip. */
  lemma ParseValueArray(t: string)
    requires t != [] && t[0] == '['
    ensures ParseValue(t) == ParseArray(t[1..])
  {
    assert SkipWs(t) == t;
  }

  lemma ParseValueObject(t: string)
    requires t != [] && t[0] == '{'
    ensures ParseValue(t) == ParseObject(t[1..])
  {
    assert SkipWs(t) == t;
  }

  lemma ParseValueNumber(t: string)
    requires t != [] && (t[0] == '-' || IsDigit(t[0]))
    ensures ParseValue(t) == ParseNumber(t)
  {
    assert SkipWs(t) == t;
    assert t[0] != 'n' && t[0] != 't' && t[0] != 'f' && t[0] != '"' && t[0] != '[' && t[0] != '{';
  }

  lemma ParseValueString(t: string, str: string, rest: string)
    requires t != [] && t[0] == '"'
    requires ParseStringBody(t[1..]) == Some((str, rest))
    ensures ParseValue(t) == Some((Str(str), rest))
  {
    assert SkipWs(t) == t;
  }

  /** One element read, then a comma or the closing bracket. */
  lemma ParseElementsStep(s: string, acc: seq<Json>, v: Json, rest: string)
    requires ParseValue(s) == Some((v, rest))
    requires rest != [] && (rest[0] == ',' || rest[0] == ']')
    ensures rest[0] == ',' ==> ParseElements(s, acc) == ParseElements(rest[1..], acc + [v])
    ensures rest[0] == ']' ==> ParseElements(s, acc) == Some((Arr(acc + [v]), rest[1..]))
  {
    assert SkipWs(rest) == rest;
  }

  /** One member read, then a comma or the closing brace. */
  lemma ParseMembersStep(s: string, acc: seq<Member>, key: string, afterKey: string, v: Json, rest: string)
    requires s != [] && s[0] == '"'
    requires ParseValue(s) == Some((Str(key), afterKey))
    requires afterKey != [] && afterKey[0] == ':'
    requires ParseValue(afterKey[1..]) == Some((v, rest))
    requires rest != [] && (rest[0] == ',' || rest[0] == '}')
    ensures rest[0] == ',' ==> ParseMembers(s, acc) == ParseMembers(rest[1..], acc + [Member(key, v)])
    ensures rest[0] == '}' ==> ParseMembers(s, acc) == Some((Obj(acc + [Member(key, v)]), rest[1..]))
  {
    assert SkipWs(s) == s;
    assert SkipWs(afterKey) == afterKey;
    assert SkipWs(rest) == rest;
  }

  /** The round trip for the values without parts. */
  lemma ParseScalarSerialize(j: Json, rest: string)
    requires j.Null? || j.Bool? || j.Num? || j.Str?
    requires Follows(rest)
    ensures ParseValue(Serialize(j) + rest) == Some((j, rest))
  {
    match j
    case Null => ParseLiteralSerialize(j, rest);
    case Bool(_) => ParseLiteralSerialize(j, rest);
    case Num(n) => ParseNumberValueSerialize(n, rest);
    case Str(s) => ParseStrValueSerialize(s, rest);
  }

  lemma ParseNumberValueSerialize(n: int, rest: string)
    requires Follows(rest)
    ensures ParseValue(Serialize(Num(n)) + rest) == Some((Num(n), rest))
  {
    var t := Serialize(Num(n)) + rest;
    SerializeStart(Num(n));
    ParseValueNumber(t);
    ParseNumberSerialize(n, rest);
  }

  lemma ParseStrValueSerialize(s: string, rest: string)
    ensures ParseValue(Serialize(Str(s)) + rest) == Some((Str(s), rest))
  {
    var t := Serialize(Str(s)) + rest;
    assert t[0] == '"' && t[1..] == Escape(s) + "\"" + rest;
    ParseStringSerialize(s, rest);
    ParseValueString(t, s, rest);
  }

  /** `null`, `true` and `false` are read back as written. */
  lemma ParseLiteralSerialize(j: Json, rest: string)
    requires j.Null? || j.Bool?
    ensures ParseValue(Serialize(j) + rest) == Some((j, rest))
  {
    var t := Serialize(j) + rest;
    assert SkipWs(t) == t;
    if j.Null? || j.b {
      assert StartsWith(t, Serialize(j)) && t[4..] == rest;
    } else {
      assert StartsWith(t, Serialize(j)) && t[5..] == rest;
    }
  }

  /** Parsing what Serialize wrote gives back the value and stops right after it. */
  lemma {:induction false} ParseSerialize(j: Json, rest: string)
    requires Follows(rest)
    ensures ParseValue(Serialize(j) + rest) == Some((j, rest))
    decreases j, 1
  {
    match j
    case Arr(items) =>
      ParseArrayText(items, rest);
      ParseArraySerialize(items, rest);
    case Obj(ms) =>
      ParseObjectText(ms, rest);
      ParseObjectSerialize(ms, rest);
    case _ =>
      ParseScalarSerialize(j, rest);
  }

  lemma ParseArrayText(items: seq<Json>, rest: string)
    ensures ParseValue(Serialize(Arr(items)) + rest) == ParseArray(SerializeItems(items) + "]" + rest)
  {
    var t := Serialize(Arr(items)) + rest;
    assert t[0] == '[' && t[1..] == SerializeItems(items) + "]" + rest;
    ParseValueArray(t);
  }

  lemma ParseObjectText(ms: seq<Member>, rest: string)
    ensures ParseValue(Serialize(Obj(ms)) + rest) == ParseObject(SerializeMembers(ms) + "}" + rest)
  {
    var t := Serialize(Obj(ms)) + rest;
    assert t[0] == '{' && t[1..] == SerializeMembers(ms) + "}" + rest;
    ParseValueObject(t);
  }

  lemma {:induction false} ParseArraySerialize(items: seq<Json>, rest: string)
    ensures ParseArray(SerializeItems(items) + "]" + rest) == Some((Arr(items), rest))
    decreases items, 2
  {
    var s := SerializeItems(items) + "]" + rest;
    if items == [] {
      assert s == "]" + rest;
      assert SkipWs(s) == s;
      assert s[1..] == rest;
    } else {
      assert s[0] != ']' && !IsJsonWs(s[0]) by {
        SerializeStart(items[0]);
        if |items| == 1 { SerializeItemsOne(items); } else { SerializeItemsCons(items); }
        assert s[0] == Serialize(items[0])[0];
      }
      ParseItemsSerialize(items, [], rest);
      EmptyAppend(items);
    }
  }

  lemma {:induction false} ParseObjectSerialize(ms: seq<Member>, rest: string)
    ensures ParseObject(SerializeMembers(ms) + "}" + rest) == Some((Obj(ms), rest))
    decreases ms, 3
  {
    var s := SerializeMembers(ms) + "}" + rest;
    if ms == [] {
      assert s == "}" + rest;
      assert SkipWs(s) == s;
      assert s[1..] == rest;
    } else {
      assert s[0] == '"';
      ParseMembersSerialize(ms, [], rest);
      EmptyAppend(ms);
    }
  }

  lemma EmptyAppend<T>(xs: seq<T>)
    ensures [] + xs == xs
  {
  }

  lemma AppendFirst<T>(acc: seq<T>, xs: seq<T>)
    requires xs != []
    ensures acc + [xs[0]] + xs[1..] == acc + xs
  {
    assert [xs[0]] + xs[1..] == xs;
  }

  lemma Concat3(a: string, b: string, c: string)
    ensures a + b + c == a + (b + c)
  {
  }

  lemma Concat4(a: string, b: string, c: string, d: string)
    ensures a + b + c + d == a + (b + c + d)
  {
  }

  /** The text of a member, seen from its opening quote. */
  lemma MemberText(k: string, v: string, tail: string)
    ensures var s := "\"" + k + "\"" + ":" + v + tail;
      s[0] == '"' && s[1..] == k + "\"" + (":" + v + tail)
  {
  }

  lemma SerializeItemsOne(items: seq<Json>)
    requires |items| == 1
    ensures SerializeItems(items) == Serialize(items[0])
  {
    assert Serialize(items[0]) + "" == Serialize(items[0]);
  }

  lemma SerializeItemsCons(items: seq<Json>)
    requires |items| > 1
    ensures SerializeItems(items) == Serialize(items[0]) + ("," + SerializeItems(items[1..]))
  {
  }

  lemma SerializeMembersOne(ms: seq<Member>)
    requires |ms| == 1
    ensures SerializeMembers(ms) + "}" == "\"" + Escape(ms[0].key) + "\"" + ":" + Serialize(ms[0].value) + "" + "}"
  {
  }

  lemma SerializeMembersCons(ms: seq<Member>)
    requires |ms| > 1
    ensures SerializeMembers(ms) == "\"" + Escape(ms[0].key) + "\"" + ":" + Serialize(ms[0].value)
      + ("," + SerializeMembers(ms[1..]))
  {
  }

  lemma {:induction false} ParseItemsSerialize(items: seq<Json>, acc: seq<Json>, rest: string)
    requires items != []
    ensures ParseElements(SerializeItems(items) + "]" + rest, acc) == Some((Arr(acc + items), rest))
    decreases items, 0
  {
    var s := SerializeItems(items) + "]" + rest;
    var head := Serialize(items[0]);
    if |items| == 1 {
      var tail := "]" + rest;
      SerializeItemsOne(items);
      Concat3(head, "]", rest);
      assert tail[0] == ']' && tail[1..] == rest;
      ParseSerialize(items[0], tail);
      ParseElementsStep(s, acc, items[0], tail);
      assert items == [items[0]];
    } else {
      var more := SerializeItems(items[1..]);
      var tail := "," + more + "]" + rest;
      SerializeItemsCons(items);
      Concat4(head, "," + more, "]", rest);
      assert tail[0] == ',';
      Concat4(",", more, "]", rest);
      assert tail[1..] == more + "]" + rest;
      ParseSerialize(items[0], tail);
      ParseElementsStep(s, acc, items[0], tail);
      ParseItemsSerialize(items[1..], acc + [items[0]], rest);
      AppendFirst(acc, items);
    }
  }

  /** Reading one written member, then what follows it. */
  lemma {:induction false} ParseMemberHead(m: Member, tail: string, acc: seq<Member>)
    requires tail != [] && (tail[0] == ',' || tail[0] == '}')
    ensures var s := "\"" + Escape(m.key) + "\"" + ":" + Serialize(m.value) + tail;
      && (tail[0] == ',' ==> ParseMembers(s, acc) == ParseMembers(tail[1..], acc + [m]))
      && (tail[0] == '}' ==> ParseMembers(s, acc) == Some((Obj(acc + [m]), tail[1..])))
    decreases m, 3
  {
    var v := Serialize(m.value);
    var s := "\"" + Escape(m.key) + "\"" + ":" + v + tail;
    var afterKey := ":" + v + tail;
    ParseMemberKey(m.key, v, tail);
    assert afterKey != [] && afterKey[0] == ':' && ParseValue(afterKey[1..]) == Some((m.value, tail)) by {
      assert afterKey[1..] == v + tail;
      ParseSerialize(m.value, tail);
    }
    ParseMembersStep(s, acc, m.key, afterKey, m.value, tail);
  }

  /** Reading the key of a written member leaves the colon and the value. */
  lemma ParseMemberKey(key: string, v: string, tail: string)
    ensures var s := "\"" + Escape(key) + "\"" + ":" + v + tail;
      s != [] && s[0] == '"' && ParseValue(s) == Some((Str(key), ":" + v + tail))
  {
    var k := Escape(key);
    var s := "\"" + k + "\"" + ":" + v + tail;
    var afterKey := ":" + v + tail;
    MemberText(k, v, tail);
    ParseStringSerialize(key, afterKey);
    ParseValueString(s, key, afterKey);
  }

  lemma {:induction false} ParseLastMemberSerialize(ms: seq<Member>, acc: seq<Member>, rest: string)
    requires |ms| == 1
    ensures ParseMembers(SerializeMembers(ms) + "}" + rest, acc) == Some((Obj(acc + ms), rest))
    decreases ms, 1
  {
    var m := ms[0];
    var head := "\"" + Escape(m.key) + "\"" + ":" + Serialize(m.value);
    var tail := "}" + rest;
    assert SerializeMembers(ms) + "}" + rest == head + tail by {
      SerializeMembersOne(ms);
      assert head + "" + "}" + rest == head + tail;
    }
    ParseMemberHead(m, tail, acc);
    assert tail[1..] == rest;
    assert ms == [m];
  }

  /** Reading the first of several written members leaves the others. */
  lemma {:induction false} ParseMembersConsStep(ms: seq<Member>, acc: seq<Member>, rest: string)
    requires |ms| > 1
    ensures ParseMembers(SerializeMembers(ms) + "}" + rest, acc)
         == ParseMembers(SerializeMembers(ms[1..]) + "}" + rest, acc + [ms[0]])
    decreases ms, 0
  {
    var m := ms[0];
    var more := SerializeMembers(ms[1..]);
    var head := "\"" + Escape(m.key) + "\"" + ":" + Serialize(m.value);
    var tail := "," + more + "}" + rest;
    var s := SerializeMembers(ms) + "}" + rest;
    assert s == head + tail by {
      SerializeMembersCons(ms);
      Concat4(head, "," + more, "}", rest);
    }
    assert tail[0] == ',' && tail[1..] == more + "}" + rest by {
      Concat4(",", more, "}", rest);
    }
    assert ParseMembers(head + tail, acc) == ParseMembers(tail[1..], acc + [m]) by {
      ParseMemberHead(m, tail, acc);
    }
  }

  lemma {:induction false} ParseMembersSerialize(ms: seq<Member>, acc: seq<Member>, rest: string)
    requires ms != []
    ensures ParseMembers(SerializeMembers(ms) + "}" + rest, acc) == Some((Obj(acc + ms), rest))
    decreases ms, 2
  {
    if |ms| == 1 {
      ParseLastMemberSerialize(ms, acc, rest);
    } else {
      ParseMoreMembersSerialize(ms, acc, rest);
    }
  }

  lemma {:induction false} ParseMoreMembersSerialize(ms: seq<Member>, acc: seq<Member>, rest: string)
    requires |ms| > 1
    ensures ParseMembers(SerializeMembers(ms) + "}" + rest, acc) == Some((Obj(acc + ms), rest))
    decreases ms, 1
  {
    ParseMembersConsStep(ms, acc, rest);
    ParseMembersSerialize(ms[1..], acc + [ms[0]], rest);
    AppendFirst(acc, ms);
  }

  /** JSON.parse(JSON.stringify(v)) gives back v. */
  lemma RoundTrip(j: Json)
    ensures Parse(Serialize(j)) == Some(j)
  {
    ParseSerialize(j, "");
    assert Serialize(j) + "" == Serialize(j);
  }
}
