/** JSON values as the browser's `JSON.stringify` writes them and `JSON.parse`
    reads them back, for the values this client stores and receives: null,
    booleans, integers, strings, arrays and objects.  The text format is that
    of RFC 8259; `Serialize` writes the compact form (no whitespace), `Parse`
    accepts whitespace between tokens.  The round trip is proved below.
    An object is the list of its members as the text gives them: duplicate
    keys are kept and the order is the text's. The browser instead keeps one
    member per key and writes integer-like keys first, so its text for an
    object with such keys differs from `Serialize`; no object on this path
    has duplicate or integer-like keys. */
module Json {

  datatype Json =
    | JNull
    | JBool(b: bool)
    | JNumber(n: int)
    | JString(s: string)
    | JArray(items: seq<Json>)
    | JObject(members: seq<Member>)

  /** One `"key":value` pair of an object, in source order. */
  datatype Member = Member(key: string, value: Json)

  /** What reading `v.key` gives in JavaScript. */
  datatype Property = Present(value: Json) | Undefined | ThrowsTypeError

  /** The outcome of `JSON.parse(text)`: a value, or a thrown SyntaxError. */
  datatype ParseResult = Ok(value: Json) | SyntaxError

  /** A partial parse: the value read and the text left after it. */
  datatype Partial<T> = Done(value: T, rest: string) | Fail

  // ---------------------------------------------------------------------------
  // Characters

  predicate IsWs(c: char) { c == ' ' || c == '\t' || c == '\n' || c == '\r' }

  predicate IsDigit(c: char) { '0' <= c <= '9' }

  predicate AllDigits(s: string)
  {
    forall i :: 0 <= i < |s| ==> IsDigit(s[i])
  }

  /** A character that can begin a value: no whitespace, and not the end of
      an array (what an empty array's parser looks for). */
  predicate StartsValue(c: char)
  {
    !IsWs(c) && c != ']'
  }

  function DigitChar(d: nat): (c: char)
    requires d < 10
    ensures IsDigit(c) && c as int - '0' as int == d
  {
    ('0' as int + d) as char
  }

  function HexChar(d: nat): (c: char)
    requires d < 16
    ensures HexValue(c) == Some16(d)
  {
    if d < 10 then ('0' as int + d) as char else ('a' as int + d - 10) as char
  }

  datatype Hex = Some16(d: nat) | NotHex

  /** The value of a hexadecimal digit, either case. */
  function HexValue(c: char): (r: Hex)
    ensures r.Some16? ==> r.d < 16
  {
    if '0' <= c <= '9' then Some16(c as int - '0' as int)
    else if 'a' <= c <= 'f' then Some16(c as int - 'a' as int + 10)
    else if 'A' <= c <= 'F' then Some16(c as int - 'A' as int + 10)
    else NotHex
  }

  /** Drops leading whitespace. */
  function SkipWs(s: string): (r: string)
    ensures |r| <= |s|
  {
    if s != [] && IsWs(s[0]) then SkipWs(s[1..]) else s
  }

  /** What is left is a suffix of the text that does not start with whitespace. */
  lemma {:induction false} SkipWsSuffix(s: string)
    ensures var r := SkipWs(s);
            r == s[|s| - |r|..] && (r == [] || !IsWs(r[0]))
  {
    if s != [] && IsWs(s[0]) {
      SkipWsSuffix(s[1..]);
      assert s[1..][|s| - 1 - |SkipWs(s)|..] == s[|s| - |SkipWs(s)|..];
    }
  }

  /** `s` begins with the characters of `word`. */
  predicate StartsWith(s: string, word: string)
    ensures StartsWith(s, word) ==> |word| <= |s|
  {
    word == [] || (s != [] && s[0] == word[0] && StartsWith(s[1..], word[1..]))
  }

  // ---------------------------------------------------------------------------
  // Serialization (JSON.stringify with no indentation)

  /** The decimal digits of `n`, without leading zeros. */
  function NatDigits(n: nat): (r: string)
    ensures |r| > 0 && AllDigits(r) && IsDigit(r[0])
    ensures r[0] == '0' <==> n == 0
    ensures n == 0 ==> r == "0"
  {
    if n < 10 then [DigitChar(n)] else NatDigits(n / 10) + [DigitChar(n % 10)]
  }

  function NumberText(n: int): string
  {
    if n < 0 then "-" + NatDigits(-n) else NatDigits(n)
  }

  /** How `JSON.stringify` writes one character inside a string literal. */
  function EscapeChar(c: char): string
  {
    if c == '"' then "\\\""
    else if c == '\\' then "\\\\"
    else if c == '\U{8}' then "\\b"
    else if c == '\t' then "\\t"
    else if c == '\n' then "\\n"
    else if c == '\U{C}' then "\\f"
    else if c == '\r' then "\\r"
    else if c < ' ' then "\\u00" + [HexChar(c as int / 16), HexChar(c as int % 16)]
    else [c]
  }

  function Escape(s: string): string
  {
    if s == [] then "" else EscapeChar(s[0]) + Escape(s[1..])
  }

  function Quote(s: string): string
  {
    "\"" + Escape(s) + "\""
  }

  function Serialize(v: Json): (r: string)
    ensures |r| > 0 && StartsValue(r[0])
    decreases v
  {
    match v
    case JNull => "null"
    case JBool(b) => if b then "true" else "false"
    case JNumber(n) => NumberText(n)
    case JString(s) => Quote(s)
    case JArray(items) => "[" + SerializeItems(items) + "]"
    case JObject(ms) => "{" + SerializeMembers(ms) + "}"
  }

  function SerializeItems(items: seq<Json>): string
    decreases items
  {
    if items == [] then ""
    else if |items| == 1 then Serialize(items[0])
    else Serialize(items[0]) + "," + SerializeItems(items[1..])
  }

  function SerializeMembers(ms: seq<Member>): string
    decreases ms
  {
    if ms == [] then ""
    else if |ms| == 1 then Quote(ms[0].key) + ":" + Serialize(ms[0].value)
    else Quote(ms[0].key) + ":" + Serialize(ms[0].value) + "," + SerializeMembers(ms[1..])
  }

  // ---------------------------------------------------------------------------
  // Parsing (JSON.parse)

  /** The number of leading decimal digits of `s`. */
  function DigitRun(s: string): (k: nat)
    ensures k <= |s| && AllDigits(s[..k])
    ensures k == |s| || !IsDigit(s[k])
  {
    if s != [] && IsDigit(s[0]) then 1 + DigitRun(s[1..]) else 0
  }

  /** The value of a string of decimal digits. */
  function DigitsValue(ds: string): nat
    requires AllDigits(ds)
  {
    if ds == [] then 0
    else
      var last := ds[|ds| - 1];
      assert IsDigit(last);
      assert AllDigits(ds[..|ds| - 1]);
      DigitsValue(ds[..|ds| - 1]) * 10 + (last as int - '0' as int)
  }

  /** An unsigned integer: `0`, or a non-zero digit followed by digits. */
  function ParseNat(s: string): (r: Partial<int>)
    ensures r.Done? ==> |r.rest| < |s| && r.value >= 0
  {
    if s == [] || !IsDigit(s[0]) then Fail
    else if s[0] == '0' then Done(0, s[1..])
    else
      var k := DigitRun(s);
      Done(DigitsValue(s[..k]), s[k..])
  }

  function ParseNumber(s: string): (r: Partial<int>)
    ensures r.Done? ==> |r.rest| < |s|
  {
    if s != [] && s[0] == '-' then
      match ParseNat(s[1..])
      case Done(n, rest) => Done(-n, rest)
      case Fail => Fail
    else
      match ParseNat(s)
      case Done(n, rest) => Done(n, rest)
      case Fail => Fail
  }

  /** The character an escape sequence stands for; `s` follows the backslash. */
  function Unescape(s: string): (r: Partial<char>)
    ensures r.Done? ==> |r.rest| < |s|
  {
    if s == [] then Fail
    else if s[0] == '"' then Done('"', s[1..])
    else if s[0] == '\\' then Done('\\', s[1..])
    else if s[0] == '/' then Done('/', s[1..])
    else if s[0] == 'b' then Done('\U{8}', s[1..])
    else if s[0] == 'f' then Done('\U{C}', s[1..])
    else if s[0] == 'n' then Done('\n', s[1..])
    else if s[0] == 'r' then Done('\r', s[1..])
    else if s[0] == 't' then Done('\t', s[1..])
    else if s[0] == 'u' && |s| >= 5 then
      match (HexValue(s[1]), HexValue(s[2]), HexValue(s[3]), HexValue(s[4]))
      case (Some16(a), Some16(b), Some16(c), Some16(d)) =>
        var code := a * 4096 + b * 256 + c * 16 + d;
        if 0xD800 <= code < 0xE000 then Fail else Done(code as char, s[5..])
      case _ => Fail
    else Fail
  }

  /** The characters of a string literal up to its closing quote; `s` follows
      the opening quote. */
  function ParseChars(s: string): (r: Partial<string>)
    ensures r.Done? ==> |r.rest| < |s|
    decreases |s|
  {
    if s == [] then Fail
    else if s[0] == '"' then Done("", s[1..])
    else if s[0] == '\\' then
      match Unescape(s[1..])
      case Fail => Fail
      case Done(c, t) =>
        match ParseChars(t)
        case Done(cs, rest) => Done([c] + cs, rest)
        case Fail => Fail
    else if s[0] < ' ' then Fail
    else
      match ParseChars(s[1..])
      case Done(cs, rest) => Done([s[0]] + cs, rest)
      case Fail => Fail
  }

  /** One value starting at the first character of `s`. */
  function ParseValue(s: string): (r: Partial<Json>)
    ensures r.Done? ==> |r.rest| < |s|
    decreases |s|, 0
  {
    if s == [] then Fail
    else if s[0] == '[' then ParseArray(s[1..])
    else if s[0] == '{' then ParseObject(s[1..])
    else ParseScalar(s)
  }

  /** null, true, false, a number or a string. */
  function ParseScalar(s: string): (r: Partial<Json>)
    ensures r.Done? ==> |r.rest| < |s|
  {
    if s == [] then Fail
    else if s[0] == 'n' then
      if StartsWith(s, "null") then Done(JNull, s[4..]) else Fail
    else if s[0] == 't' then
      if StartsWith(s, "true") then Done(JBool(true), s[4..]) else Fail
    else if s[0] == 'f' then
      if StartsWith(s, "false") then Done(JBool(false), s[5..]) else Fail
    else if s[0] == '"' then
      match ParseChars(s[1..])
      case Done(cs, rest) => Done(JString(cs), rest)
      case Fail => Fail
    else if s[0] == '-' || IsDigit(s[0]) then
      match ParseNumber(s)
      case Done(n, rest) => Done(JNumber(n), rest)
      case Fail => Fail
    else Fail
  }

  /** An array; `s` follows the opening bracket. */
  function ParseArray(s: string): (r: Partial<Json>)
    ensures r.Done? ==> |r.rest| < |s|
    decreases |s|, 2
  {
    var t := SkipWs(s);
    if t != [] && t[0] == ']' then Done(JArray([]), t[1..])
    else
      match ParseItems(t)
      case Done(items, rest) => Done(JArray(items), rest)
      case Fail => Fail
  }

  /** An object; `s` follows the opening brace. */
  function ParseObject(s: string): (r: Partial<Json>)
    ensures r.Done? ==> |r.rest| < |s|
    decreases |s|, 2
  {
    var t := SkipWs(s);
    if t != [] && t[0] == '}' then Done(JObject([]), t[1..])
    else
      match ParseMembers(t)
      case Done(ms, rest) => Done(JObject(ms), rest)
      case Fail => Fail
  }

  /** The elements of a non-empty array and its closing bracket. */
  function ParseItems(s: string): (r: Partial<seq<Json>>)
    ensures r.Done? ==> |r.rest| < |s|
    decreases |s|, 1
  {
    match ParseValue(s)
    case Fail => Fail
    case Done(v, after) =>
      var t := SkipWs(after);
      if t != [] && t[0] == ',' then
        match ParseItems(SkipWs(t[1..]))
        case Done(vs, rest) => Done([v] + vs, rest)
        case Fail => Fail
      else if t != [] && t[0] == ']' then Done([v], t[1..])
      else Fail
  }

  /** The members of a non-empty object and its closing brace. */
  function ParseMembers(s: string): (r: Partial<seq<Member>>)
    ensures r.Done? ==> |r.rest| < |s|
    decreases |s|, 1
  {
    if s == [] || s[0] != '"' then Fail
    else
      match ParseChars(s[1..])
      case Fail => Fail
      case Done(key, afterKey) =>
        var t := SkipWs(afterKey);
        if t == [] || t[0] != ':' then Fail
        else
          match ParseValue(SkipWs(t[1..]))
          case Fail => Fail
          case Done(v, after) =>
            var u := SkipWs(after);
            if u != [] && u[0] == ',' then
              match ParseMembers(SkipWs(u[1..]))
              case Done(ms, rest) => Done([Member(key, v)] + ms, rest)
              case Fail => Fail
            else if u != [] && u[0] == '}' then Done([Member(key, v)], u[1..])
            else Fail
  }

  /** `JSON.parse(text)`: one value, with only whitespace around it. */
  function Parse(text: string): ParseResult
  {
    match ParseValue(SkipWs(text))
    case Done(v, rest) => if SkipWs(rest) == [] then Ok(v) else SyntaxError
    case Fail => SyntaxError
  }

  // ---------------------------------------------------------------------------
  // JavaScript semantics of values

  /** JavaScript truthiness (`v ? … : …`, `v || …`, `{v && …}`). */
  predicate Truthy(v: Json)
  {
    match v
    case JNull => false
    case JBool(b) => b
    case JNumber(n) => n != 0
    case JString(s) => s != ""
    case JArray(_) => true
    case JObject(_) => true
  }

  /** The value of the last member named `key`, as a parsed object holds it. */
  function Lookup(ms: seq<Member>, key: string): (r: Property)
    ensures !r.ThrowsTypeError?
  {
    if ms == [] then Undefined
    else if ms[|ms| - 1].key == key then Present(ms[|ms| - 1].value)
    else Lookup(ms[..|ms| - 1], key)
  }

  /** A key is undefined exactly when no member carries it; otherwise the
      value is the one of the last member that does. */
  lemma {:induction false} LookupLast(ms: seq<Member>, key: string)
    ensures Lookup(ms, key).Undefined? <==> forall i :: 0 <= i < |ms| ==> ms[i].key != key
    ensures Lookup(ms, key).Present? ==>
              exists i :: 0 <= i < |ms| && ms[i] == Member(key, Lookup(ms, key).value)
                          && forall j :: i < j < |ms| ==> ms[j].key != key
  {
    if ms == [] {
    } else if ms[|ms| - 1].key == key {
      var i := |ms| - 1;
      assert ms[i] == Member(key, Lookup(ms, key).value);
    } else {
      var init := ms[..|ms| - 1];
      LookupLast(init, key);
      assert forall i :: 0 <= i < |init| ==> init[i] == ms[i];
      if Lookup(ms, key).Present? {
        var i :| 0 <= i < |init| && init[i] == Member(key, Lookup(init, key).value)
                 && forall j :: i < j < |init| ==> init[j].key != key;
        assert ms[i] == Member(key, Lookup(ms, key).value);
      }
    }
  }

  /** In an object whose keys are distinct, a key reads as its member's value. */
  lemma LookupUnique(ms: seq<Member>, i: int)
    requires 0 <= i < |ms|
    requires forall j :: 0 <= j < |ms| && j != i ==> ms[j].key != ms[i].key
    ensures Lookup(ms, ms[i].key) == Present(ms[i].value)
  {
    LookupLast(ms, ms[i].key);
    var k :| 0 <= k < |ms| && ms[k] == Member(ms[i].key, Lookup(ms, ms[i].key).value)
             && forall j :: k < j < |ms| ==> ms[j].key != ms[i].key;
    assert k == i;
  }

  /** `v.key` in JavaScript: reading a property of null throws a TypeError,
      and only objects have named properties. */
  function PropertyOf(v: Json, key: string): (r: Property)
    ensures r.ThrowsTypeError? <==> v.JNull?
    ensures !v.JObject? && !v.JNull? ==> r.Undefined?
  {
    match v
    case JNull => ThrowsTypeError
    case JObject(ms) => Lookup(ms, key)
    case _ => Undefined
  }

  // ---------------------------------------------------------------------------
  // Round trip

  lemma {:induction false} DigitsValueOfNatDigits(n: nat)
    ensures DigitsValue(NatDigits(n)) == n
  {
    if n >= 10 {
      var ds := NatDigits(n);
      assert ds[..|ds| - 1] == NatDigits(n / 10);
      DigitsValueOfNatDigits(n / 10);
    }
  }

  lemma {:induction false} DigitRunOver(ds: string, r: string)
    requires AllDigits(ds)
    requires r == [] || !IsDigit(r[0])
    ensures DigitRun(ds + r) == |ds|
  {
    if ds != [] {
      assert (ds + r)[1..] == ds[1..] + r;
      DigitRunOver(ds[1..], r);
    }
  }

  lemma NatRoundTrip(n: nat, r: string)
    requires r == [] || !IsDigit(r[0])
    ensures ParseNat(NatDigits(n) + r) == Done(n, r)
  {
    var ds := NatDigits(n);
    var s := ds + r;
    if n == 0 {
      assert s[1..] == r;
    } else {
      DigitRunOver(ds, r);
      assert s[..|ds|] == ds && s[|ds|..] == r;
      DigitsValueOfNatDigits(n);
    }
  }

  lemma NumberRoundTrip(n: int, r: string)
    requires r == [] || !IsDigit(r[0])
    ensures ParseNumber(NumberText(n) + r) == Done(n, r)
  {
    if n < 0 {
      var m: nat := -n;
      assert NumberText(n) + r == "-" + (NatDigits(m) + r);
      NegativeRoundTrip(m, r);
    } else {
      var s := NatDigits(n) + r;
      assert IsDigit(s[0]);
      NatRoundTrip(n, r);
    }
  }

  lemma NegativeRoundTrip(m: int, r: string)
    requires m >= 0
    requires r == [] || !IsDigit(r[0])
    ensures ParseNumber("-" + (NatDigits(m) + r)) == Done(-m, r)
  {
    var t := NatDigits(m) + r;
    var s := "-" + t;
    assert s[1..] == t;
    NatRoundTrip(m, r);
    NegativeStep(s, m, r);
  }

  lemma NegativeStep(s: string, m: int, r: string)
    requires s != [] && s[0] == '-'
    requires ParseNat(s[1..]) == Done(m, r)
    ensures ParseNumber(s) == Done(-m, r)
  {
  }

  /** Each escaped character reads back as itself. */
  lemma EscapeCharRoundTrip(c: char, t: string)
    ensures ParseChars(EscapeChar(c) + t) ==
              match ParseChars(t)
              case Done(cs, rest) => Done([c] + cs, rest)
              case Fail => Fail
  {
    if c == '"' || c == '\\' || c == '\U{8}' || c == '\t' || c == '\n' || c == '\U{C}' || c == '\r' {
      var s := EscapeChar(c) + t;
      assert s[1..][1..] == t;
    } else if c < ' ' {
      ControlEscapeRoundTrip(c, t);
    } else {
      var s := EscapeChar(c) + t;
      assert s[1..] == t;
    }
  }

  /** A control character without a short escape is written `\u00XX`. */
  lemma ControlEscapeRoundTrip(c: char, t: string)
    requires c < ' ' && !(c == '\U{8}' || c == '\t' || c == '\n' || c == '\U{C}' || c == '\r')
    ensures ParseChars(EscapeChar(c) + t) ==
              match ParseChars(t)
              case Done(cs, rest) => Done([c] + cs, rest)
              case Fail => Fail
  {
    var s := EscapeChar(c) + t;
    var u := s[1..];
    assert u[0] == 'u' && u[1] == '0' && u[2] == '0';
    assert u[3] == HexChar(c as int / 16) && u[4] == HexChar(c as int % 16);
    assert u[5..] == t;
  }

  lemma {:induction false} StringRoundTrip(str: string, r: string)
    ensures ParseChars(Escape(str) + "\"" + r) == Done(str, r)
  {
    if str == [] {
      assert (Escape(str) + "\"" + r)[1..] == r;
    } else {
      var t := Escape(str[1..]) + "\"" + r;
      assert Escape(str) + "\"" + r == EscapeChar(str[0]) + t;
      StringRoundTrip(str[1..], r);
      EscapeCharRoundTrip(str[0], t);
      assert [str[0]] + str[1..] == str;
    }
  }

  lemma QuoteRoundTrip(str: string, r: string)
    ensures ParseValue(Quote(str) + r) == Done(JString(str), r)
  {
    var s := Quote(str) + r;
    assert s[0] == '"' && s[1..] == Escape(str) + "\"" + r;
    StringRoundTrip(str, r);
    StringStep(s, str, r);
  }

  lemma StringStep(s: string, str: string, r: string)
    requires s != [] && s[0] == '"'
    requires ParseChars(s[1..]) == Done(str, r)
    ensures ParseValue(s) == Done(JString(str), r)
  {
  }

  lemma {:induction false} ValueRoundTrip(v: Json, r: string)
    requires r == [] || !IsDigit(r[0])
    ensures ParseValue(Serialize(v) + r) == Done(v, r)
    decreases v, 2
  {
    match v
    case JNull => LiteralRoundTrip(v, r);
    case JBool(_) => LiteralRoundTrip(v, r);
    case JNumber(n) =>
      var s := Serialize(v) + r;
      NumberRoundTrip(n, r);
      assert s == NumberText(n) + r;
      assert s[0] == '-' || IsDigit(s[0]);
    case JString(str) => QuoteRoundTrip(str, r);
    case JArray(items) => ArrayRoundTrip(items, r);
    case JObject(ms) => ObjectRoundTrip(ms, r);
  }

  lemma LiteralRoundTrip(v: Json, r: string)
    requires v.JNull? || v.JBool?
    ensures ParseValue(Serialize(v) + r) == Done(v, r)
  {
    var s := Serialize(v) + r;
    var word := Serialize(v);
    StartsWithOwn(word, r);
    assert s[|word|..] == r;
  }

  lemma {:induction false} StartsWithOwn(word: string, r: string)
    ensures StartsWith(word + r, word)
  {
    if word != [] {
      assert (word + r)[1..] == word[1..] + r;
      StartsWithOwn(word[1..], r);
    }
  }

  // One parsing step each, stated over abstract text so that the round-trip
  // proofs below need not unfold the parser on serialized values.

  lemma NoLeadingWs(t: string)
    requires t != [] && !IsWs(t[0])
    ensures SkipWs(t) == t
  {
  }

  lemma EmptyArrayStep(s: string, r: string)
    requires s != [] && s[0] == '['
    requires s[1..] != [] && s[1..][0] == ']' && s[1..][1..] == r
    ensures ParseValue(s) == Done(JArray([]), r)
  {
    NoLeadingWs(s[1..]);
  }

  lemma EmptyObjectStep(s: string, r: string)
    requires s != [] && s[0] == '{'
    requires s[1..] != [] && s[1..][0] == '}' && s[1..][1..] == r
    ensures ParseValue(s) == Done(JObject([]), r)
  {
    NoLeadingWs(s[1..]);
  }

  lemma ArrayStep(s: string, items: seq<Json>, r: string)
    requires s != [] && s[0] == '['
    requires s[1..] != [] && StartsValue(s[1..][0])
    requires ParseItems(s[1..]) == Done(items, r)
    ensures ParseValue(s) == Done(JArray(items), r)
  {
    NoLeadingWs(s[1..]);
  }

  lemma ObjectStep(s: string, ms: seq<Member>, r: string)
    requires s != [] && s[0] == '{'
    requires s[1..] != [] && s[1..][0] == '"'
    requires ParseMembers(s[1..]) == Done(ms, r)
    ensures ParseValue(s) == Done(JObject(ms), r)
  {
    NoLeadingWs(s[1..]);
  }

  lemma LastItemStep(s: string, v: Json, after: string, r: string)
    requires ParseValue(s) == Done(v, after)
    requires after != [] && after[0] == ']' && after[1..] == r
    ensures ParseItems(s) == Done([v], r)
  {
    NoLeadingWs(after);
  }

  lemma NextItemStep(s: string, v: Json, after: string, vs: seq<Json>, r: string)
    requires ParseValue(s) == Done(v, after)
    requires after != [] && after[0] == ','
    requires after[1..] != [] && StartsValue(after[1..][0])
    requires ParseItems(after[1..]) == Done(vs, r)
    ensures ParseItems(s) == Done([v] + vs, r)
  {
    NoLeadingWs(after);
    NoLeadingWs(after[1..]);
  }

  lemma KeyStep(s: string, key: string, t: string, v: Json, after: string)
    requires s != [] && s[0] == '"'
    requires ParseChars(s[1..]) == Done(key, t)
    requires t != [] && t[0] == ':' && t[1..] != [] && !IsWs(t[1..][0])
    requires ParseValue(t[1..]) == Done(v, after)
    ensures ParseMembers(s) ==
              var u := SkipWs(after);
              if u != [] && u[0] == ',' then
                match ParseMembers(SkipWs(u[1..]))
                case Done(ms, rest) => Done([Member(key, v)] + ms, rest)
                case Fail => Fail
              else if u != [] && u[0] == '}' then Done([Member(key, v)], u[1..])
              else Fail
  {
    NoLeadingWs(t);
    NoLeadingWs(t[1..]);
  }

  lemma LastMemberStep(s: string, key: string, t: string, v: Json, after: string, r: string)
    requires s != [] && s[0] == '"'
    requires ParseChars(s[1..]) == Done(key, t)
    requires t != [] && t[0] == ':' && t[1..] != [] && !IsWs(t[1..][0])
    requires ParseValue(t[1..]) == Done(v, after)
    requires after != [] && after[0] == '}' && after[1..] == r
    ensures ParseMembers(s) == Done([Member(key, v)], r)
  {
    KeyStep(s, key, t, v, after);
    NoLeadingWs(after);
  }

  lemma NextMemberStep(s: string, key: string, t: string, v: Json, after: string, ms: seq<Member>, r: string)
    requires s != [] && s[0] == '"'
    requires ParseChars(s[1..]) == Done(key, t)
    requires t != [] && t[0] == ':' && t[1..] != [] && !IsWs(t[1..][0])
    requires ParseValue(t[1..]) == Done(v, after)
    requires after != [] && after[0] == ','
    requires after[1..] != [] && after[1..][0] == '"'
    requires ParseMembers(after[1..]) == Done(ms, r)
    ensures ParseMembers(s) == Done([Member(key, v)] + ms, r)
  {
    KeyStep(s, key, t, v, after);
    NoLeadingWs(after);
    NoLeadingWs(after[1..]);
  }

  lemma {:induction false} ArrayRoundTrip(items: seq<Json>, r: string)
    ensures ParseValue(Serialize(JArray(items)) + r) == Done(JArray(items), r)
    decreases items, 3
  {
    var s := Serialize(JArray(items)) + r;
    var t := SerializeItems(items) + "]" + r;
    Wrapped('[', SerializeItems(items), ']', r);
    if items == [] {
      assert t == "]" + r;
      assert t[1..] == r;
      EmptyArrayStep(s, r);
    } else {
      SerializeItemsStart(items);
      ItemsRoundTrip(items, r);
      ArrayStep(s, items, r);
    }
  }


  lemma {:induction false} ObjectRoundTrip(ms: seq<Member>, r: string)
    ensures ParseValue(Serialize(JObject(ms)) + r) == Done(JObject(ms), r)
    decreases ms, 4
  {
    var s := Serialize(JObject(ms)) + r;
    var t := SerializeMembers(ms) + "}" + r;
    Wrapped('{', SerializeMembers(ms), '}', r);
    if ms == [] {
      assert t == "}" + r;
      assert t[1..] == r;
      EmptyObjectStep(s, r);
    } else {
      SerializeMembersStart(ms);
      MembersRoundTrip(ms, r);
      ObjectStep(s, ms, r);
    }
  }

  lemma SerializeItemsStart(items: seq<Json>)
    requires items != []
    ensures |SerializeItems(items)| > 0 && StartsValue(SerializeItems(items)[0])
  {
    var first := Serialize(items[0]);
    if |items| == 1 {
      assert SerializeItems(items) == first;
    } else {
      assert SerializeItems(items) == first + ("," + SerializeItems(items[1..]));
    }
  }

  lemma SerializeMembersStart(ms: seq<Member>)
    requires ms != []
    ensures |SerializeMembers(ms)| > 0 && SerializeMembers(ms)[0] == '"'
  {
    var q := Quote(ms[0].key);
    assert |q| > 0 && q[0] == '"';
  }

  /** The text after an opening bracket. */
  lemma Wrapped(open: char, body: string, close: char, r: string)
    ensures var s := [open] + body + [close] + r;
            s != [] && s[0] == open && s[1..] == body + [close] + r
  {
    var s := [open] + body + [close] + r;
    assert s == [open] + (body + [close] + r);
  }

  lemma Assoc(a: string, b: string, c: string)
    ensures a + b + c == a + (b + c)
  {
  }

  /** How the text of the first member of a non-empty object splits up. */
  lemma MembersShape(ms: seq<Member>, r: string) returns (after: string)
    requires ms != []
    ensures after == if |ms| == 1 then "}" + r else "," + (SerializeMembers(ms[1..]) + "}" + r)
    ensures after != [] && after[0] == (if |ms| == 1 then '}' else ',')
    ensures after[1..] == if |ms| == 1 then r else SerializeMembers(ms[1..]) + "}" + r
    ensures var s := SerializeMembers(ms) + "}" + r;
            s[0] == '"' && s[1..] == Escape(ms[0].key) + "\"" + (":" + Serialize(ms[0].value) + after)
  {
    var k, v := ms[0].key, ms[0].value;
    var sm, e, sv := SerializeMembers(ms), Escape(k), Serialize(v);
    var q := Quote(k);
    var head := q + ":" + sv;
    after := if |ms| == 1 then "}" + r else "," + (SerializeMembers(ms[1..]) + "}" + r);
    var s := sm + "}" + r;
    Assoc(sm, "}", r);
    // s == head + after
    if |ms| == 1 {
      assert sm == head;
    } else {
      var rest := SerializeMembers(ms[1..]);
      assert sm == head + "," + rest;
      Assoc(head, ",", rest);
      Assoc(head, "," + rest, "}" + r);
      Assoc(",", rest, "}" + r);
      Assoc(rest, "}", r);
    }
    assert s == head + after;
    Assoc(q + ":", sv, after);
    Assoc(q, ":", sv + after);
    Assoc(":", sv, after);
    var afterKey := ":" + sv + after;
    assert s == q + afterKey;
    Assoc("\"" + e, "\"", afterKey);
    Assoc("\"", e, "\"" + afterKey);
    Assoc(e, "\"", afterKey);
    assert s == "\"" + (e + "\"" + afterKey);
  }

  lemma {:induction false} ItemsRoundTrip(items: seq<Json>, r: string)
    requires items != []
    ensures ParseItems(SerializeItems(items) + "]" + r) == Done(items, r)
    decreases items, 2
  {
    if |items| == 1 {
      LastItemRoundTrip(items, r);
    } else {
      NextItemRoundTrip(items, r);
    }
  }

  lemma {:induction false} LastItemRoundTrip(items: seq<Json>, r: string)
    requires |items| == 1
    ensures ParseItems(SerializeItems(items) + "]" + r) == Done(items, r)
    decreases items, 1
  {
    var s := SerializeItems(items) + "]" + r;
    var after := ItemsShape(items, r);
    ValueRoundTrip(items[0], after);
    LastItemStep(s, items[0], after, r);
    assert [items[0]] == items;
  }

  lemma {:induction false} NextItemRoundTrip(items: seq<Json>, r: string)
    requires |items| > 1
    ensures ParseItems(SerializeItems(items) + "]" + r) == Done(items, r)
    decreases items, 1
  {
    SerializeItemsStart(items[1..]);
    ItemsRoundTrip(items[1..], r);
    var s := SerializeItems(items) + "]" + r;
    var after := ItemsShape(items, r);
    ValueRoundTrip(items[0], after);
    NextItemStep(s, items[0], after, items[1..], r);
    ConsItem(items);
  }

  /** How the text of the first element of a non-empty array splits up. */
  lemma ItemsShape(items: seq<Json>, r: string) returns (after: string)
    requires items != []
    ensures after != [] && after[0] == (if |items| == 1 then ']' else ',')
    ensures after[1..] == if |items| == 1 then r else SerializeItems(items[1..]) + "]" + r
    ensures SerializeItems(items) + "]" + r == Serialize(items[0]) + after
  {
    var si, sv := SerializeItems(items), Serialize(items[0]);
    Assoc(si, "]", r);
    if |items| == 1 {
      after := "]" + r;
      assert si == sv;
    } else {
      var rest := SerializeItems(items[1..]);
      after := "," + (rest + "]" + r);
      assert si == sv + "," + rest;
      Assoc(sv, ",", rest);
      Assoc(sv, "," + rest, "]" + r);
      Assoc(",", rest, "]" + r);
      Assoc(rest, "]", r);
    }
  }

  lemma {:induction false} MembersRoundTrip(ms: seq<Member>, r: string)
    requires ms != []
    ensures ParseMembers(SerializeMembers(ms) + "}" + r) == Done(ms, r)
    decreases ms, 3
  {
    if |ms| == 1 {
      LastMemberRoundTrip(ms, r);
    } else {
      NextMemberRoundTrip(ms, r);
    }
  }

  lemma {:induction false} LastMemberRoundTrip(ms: seq<Member>, r: string)
    requires |ms| == 1
    ensures ParseMembers(SerializeMembers(ms) + "}" + r) == Done(ms, r)
    decreases ms, 2
  {
    var s := SerializeMembers(ms) + "}" + r;
    var after := MembersShape(ms, r);
    var t := FirstMemberRoundTrip(ms, r, after);
    LastMemberStep(s, ms[0].key, t, ms[0].value, after, r);
    assert [Member(ms[0].key, ms[0].value)] == ms;
  }

  lemma {:induction false} NextMemberRoundTrip(ms: seq<Member>, r: string)
    requires |ms| > 1
    ensures ParseMembers(SerializeMembers(ms) + "}" + r) == Done(ms, r)
    decreases ms, 1
  {
    SerializeMembersStart(ms[1..]);
    MembersRoundTrip(ms[1..], r);
    var s := SerializeMembers(ms) + "}" + r;
    var after := MembersShape(ms, r);
    var t := FirstMemberRoundTrip(ms, r, after);
    NextMemberStep(s, ms[0].key, t, ms[0].value, after, ms[1..], r);
    ConsFirst(ms);
  }

  lemma ConsItem(items: seq<Json>)
    requires items != []
    ensures [items[0]] + items[1..] == items
  {
  }

  lemma ConsFirst(ms: seq<Member>)
    requires ms != []
    ensures [Member(ms[0].key, ms[0].value)] + ms[1..] == ms
  {
  }

  /** The key and the value of the first member read back; `t` is the text
      after the key. */
  lemma {:induction false} FirstMemberRoundTrip(ms: seq<Member>, r: string, after: string)
      returns (t: string)
    requires ms != [] && after != [] && (after[0] == '}' || after[0] == ',')
    ensures t == ":" + Serialize(ms[0].value) + after
    ensures ParseChars(Escape(ms[0].key) + "\"" + t) == Done(ms[0].key, t)
    ensures t != [] && t[0] == ':' && t[1..] != [] && !IsWs(t[1..][0])
    ensures ParseValue(t[1..]) == Done(ms[0].value, after)
    decreases ms, 0
  {
    var w := Serialize(ms[0].value);
    t := ":" + w + after;
    assert t[1..] == w + after;
    StringRoundTrip(ms[0].key, t);
    ValueRoundTrip(ms[0].value, after);
  }

  /** `JSON.parse(JSON.stringify(v))` gives back `v`. */
  lemma RoundTrip(v: Json)
    ensures Parse(Serialize(v)) == Ok(v)
  {
    var s := Serialize(v);
    NoLeadingWs(s);
    ValueRoundTrip(v, "");
    assert s + "" == s;
  }

  /** Distinct values are written as distinct texts. */
  lemma SerializeInjective(a: Json, b: Json)
    requires Serialize(a) == Serialize(b)
    ensures a == b
  {
    RoundTrip(a);
    RoundTrip(b);
  }
}
