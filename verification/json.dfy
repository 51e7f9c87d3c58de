/**
 * The JSON values that the persistence layer keeps in its TEXT columns and
 * that the validators inspect, together with `JSON.stringify` and
 * `JSON.parse` as the rest of the model uses them.
 *
 * Numbers are integers (no fraction or exponent part); an object is the
 * sequence of its members in the order written, and a property read takes
 * the last member with that key, as `JSON.parse` does with duplicate keys.
 */
module Json {
  import opened Wrappers

  datatype Json =
    | JNull
    | JBool(b: bool)
    | JNumber(n: int)
    | JString(s: string)
    | JArray(items: seq<Json>)
    | JObject(members: seq<Member>)

  datatype Member = Member(key: string, value: Json)

  /** JavaScript truthiness of a value (`if (v)`, `v ? a : b`, `v || d`). */
  predicate Truthy(v: Json) {
    match v
    case JNull => false
    case JBool(b) => b
    case JNumber(n) => n != 0
    case JString(s) => s != ""
    case JArray(_) => true
    case JObject(_) => true
  }

  predicate HasKey(ms: seq<Member>, key: string) {
    exists i :: 0 <= i < |ms| && ms[i].key == key
  }

  /** Property read `o[key]` on an object: the last member with that key. */
  function Lookup(ms: seq<Member>, key: string): (r: Option<Json>)
    ensures r.None? <==> !HasKey(ms, key)
    ensures r.Some? ==> exists i :: 0 <= i < |ms| && ms[i] == Member(key, r.value) && LastWithKey(ms, key, i)
  {
    if ms == [] then None
    else if ms[|ms| - 1].key == key then
      assert LastWithKey(ms, key, |ms| - 1);
      Some(ms[|ms| - 1].value)
    else
      var r := Lookup(ms[..|ms| - 1], key);
      assert forall i :: 0 <= i < |ms| - 1 ==> ms[..|ms| - 1][i] == ms[i];
      assert forall i :: 0 <= i < |ms| - 1 && LastWithKey(ms[..|ms| - 1], key, i) ==> LastWithKey(ms, key, i);
      r
  }

  /** No member after position `i` has the key. */
  predicate LastWithKey(ms: seq<Member>, key: string, i: nat) {
    forall j :: i < j < |ms| ==> ms[j].key != key
  }

  /** Property read `v[key]` on any value that is not null: only objects have the properties of a reply. */
  function Get(v: Json, key: string): (r: Option<Json>)
    ensures r.Some? ==> v.JObject?
  {
    if v.JObject? then Lookup(v.members, key) else None
  }

  /** The members of `ms` with every member named `key` given the value `v`, in place. */
  function Overwrite(ms: seq<Member>, key: string, v: Json): (r: seq<Member>)
    ensures |r| == |ms|
    ensures forall i :: 0 <= i < |ms| ==> r[i].key == ms[i].key
  {
    if ms == [] then []
    else
      var last := ms[|ms| - 1];
      Overwrite(ms[..|ms| - 1], key, v) + [if last.key == key then Member(key, v) else last]
  }

  /**
   * `{ ...ms, [key]: v }`: a member that already has the key keeps its place
   * and takes the new value, otherwise the member is appended.
   */
  function Assign(ms: seq<Member>, key: string, v: Json): (r: seq<Member>)
    ensures |r| == if HasKey(ms, key) then |ms| else |ms| + 1
    ensures forall i :: 0 <= i < |ms| ==> r[i].key == ms[i].key
    ensures HasKey(r, key)
  {
    if HasKey(ms, key) then Overwrite(ms, key, v)
    else
      var r := ms + [Member(key, v)];
      assert r[|ms|].key == key;
      r
  }

  lemma HasKeySplit(ms: seq<Member>, key: string)
    requires ms != []
    ensures HasKey(ms, key) <==> HasKey(ms[..|ms| - 1], key) || ms[|ms| - 1].key == key
  {
    var init := ms[..|ms| - 1];
    if HasKey(ms, key) && ms[|ms| - 1].key != key {
      var i :| 0 <= i < |ms| && ms[i].key == key;
      assert init[i].key == key;
    }
    if HasKey(init, key) {
      var i :| 0 <= i < |init| && init[i].key == key;
      assert ms[i].key == key;
    }
  }

  lemma {:induction false} LookupOverwrite(ms: seq<Member>, key: string, v: Json, k: string)
    ensures Lookup(Overwrite(ms, key, v), k) ==
            if k == key && HasKey(ms, key) then Some(v) else Lookup(ms, k)
  {
    if ms != [] {
      var init, last := ms[..|ms| - 1], ms[|ms| - 1];
      var r := Overwrite(ms, key, v);
      LookupOverwrite(init, key, v, k);
      assert r[..|r| - 1] == Overwrite(init, key, v);
      assert r[|r| - 1] == if last.key == key then Member(key, v) else last;
      HasKeySplit(ms, key);
    }
  }

  lemma {:induction false} LookupAppend(ms: seq<Member>, key: string, v: Json, k: string)
    ensures Lookup(ms + [Member(key, v)], k) == if k == key then Some(v) else Lookup(ms, k)
  {
    assert (ms + [Member(key, v)])[..|ms|] == ms;
  }

  /** Reading back an assigned property gives the new value; every other property is untouched. */
  lemma LookupAssign(ms: seq<Member>, key: string, v: Json, k: string)
    ensures Lookup(Assign(ms, key, v), k) == if k == key then Some(v) else Lookup(ms, k)
  {
    if HasKey(ms, key) {
      LookupOverwrite(ms, key, v, k);
    } else {
      LookupAppend(ms, key, v, k);
    }
  }

  // ---------------------------------------------------------------------
  // Characters and numerals
  // ---------------------------------------------------------------------

  predicate IsDigit(c: char) { '0' <= c <= '9' }

  /** JSON whitespace: space, tab, line feed, carriage return. */
  predicate IsWs(c: char) { c == ' ' || c == '\t' || c == '\n' || c == '\r' }

  predicate AllDigits(s: string) { forall i :: 0 <= i < |s| ==> IsDigit(s[i]) }

  function DigitChar(d: nat): (c: char)
    requires d < 10
    ensures IsDigit(c) && (c == '0' <==> d == 0)
  {
    ('0' as int + d) as char
  }

  function DigitValue(c: char): (d: nat)
    requires IsDigit(c)
    ensures d < 10 && DigitChar(d) == c
  {
    c as int - '0' as int
  }

  /** Decimal numeral of a natural number, without leading zeros. */
  function NatText(n: nat): (r: string)
    ensures |r| >= 1 && AllDigits(r)
    ensures r[0] == '0' <==> n == 0
  {
    if n < 10 then [DigitChar(n)] else NatText(n / 10) + [DigitChar(n % 10)]
  }

  /** The number `String(n)` prints for an integer. */
  function IntText(n: int): (r: string)
    ensures |r| >= 1 && (r[0] == '-' || IsDigit(r[0]))
  {
    if n < 0 then "-" + NatText(-n) else NatText(n)
  }

  /** The value of a run of decimal digits. */
  function DigitsValue(ds: string): nat
    requires AllDigits(ds)
  {
    if ds == [] then 0 else DigitsValue(ds[..|ds| - 1]) * 10 + DigitValue(ds[|ds| - 1])
  }

  lemma {:induction false} NatTextValue(n: nat)
    ensures DigitsValue(NatText(n)) == n
  {
    if n >= 10 {
      NatTextValue(n / 10);
      var t := NatText(n);
      assert t[..|t| - 1] == NatText(n / 10);
      assert DigitValue(DigitChar(n % 10)) == n % 10 by {
        var d := DigitValue(DigitChar(n % 10));
        assert DigitChar(d) == DigitChar(n % 10);
      }
    } else {
      assert DigitValue(DigitChar(n)) == n by {
        var d := DigitValue(DigitChar(n));
        assert DigitChar(d) == DigitChar(n);
      }
    }
  }

  /** Length of the run of digits that `s` starts with. */
  function DigitRun(s: string): (k: nat)
    ensures k <= |s| && AllDigits(s[..k])
    ensures k < |s| ==> !IsDigit(s[k])
  {
    if s != [] && IsDigit(s[0]) then
      var k := 1 + DigitRun(s[1..]);
      assert s[..k] == [s[0]] + s[1..][..k - 1];
      k
    else 0
  }

  lemma {:induction false} DigitRunOf(ds: string, rest: string)
    requires AllDigits(ds)
    requires rest == [] || !IsDigit(rest[0])
    ensures DigitRun(ds + rest) == |ds|
  {
    if ds != [] {
      assert (ds + rest)[1..] == ds[1..] + rest;
      DigitRunOf(ds[1..], rest);
    }
  }

  /** Value of a hexadecimal digit in either case, as `\u` escapes accept. */
  function HexValue(c: char): (r: Option<nat>)
    ensures r.Some? ==> r.value < 16
  {
    if IsDigit(c) then Some(DigitValue(c))
    else if 'a' <= c <= 'f' then Some(c as int - 'a' as int + 10)
    else if 'A' <= c <= 'F' then Some(c as int - 'A' as int + 10)
    else None
  }

  /** Lower-case hexadecimal digit, as `JSON.stringify` writes it. */
  function HexChar(d: nat): (c: char)
    requires d < 16
    ensures HexValue(c) == Some(d)
  {
    if d < 10 then
      var c := DigitChar(d);
      assert DigitChar(DigitValue(c)) == c;
      c
    else ('a' as int + d - 10) as char
  }

  // ---------------------------------------------------------------------
  // JSON.stringify
  // ---------------------------------------------------------------------

  /** How `JSON.stringify` writes one character inside a string literal. */
  function EscapeChar(c: char): (r: string)
    ensures |r| >= 1 && r[0] != '"'
  {
    if c == '"' then "\\\""
    else if c == '\\' then "\\\\"
    else if c as int == 0x08 then "\\b"
    else if c as int == 0x0C then "\\f"
    else if c == '\n' then "\\n"
    else if c == '\r' then "\\r"
    else if c == '\t' then "\\t"
    else if c < ' ' then "\\u00" + [HexChar(c as int / 16), HexChar(c as int % 16)]
    else [c]
  }

  function Escape(s: string): string {
    if s == [] then [] else EscapeChar(s[0]) + Escape(s[1..])
  }

  /** A string literal: the escaped characters between double quotes. */
  function Quote(s: string): string {
    "\"" + Escape(s) + "\""
  }

  /** Every text a value can start with: so the text is never empty and never starts with whitespace. */
  predicate StartsValue(c: char) {
    c == 'n' || c == 't' || c == 'f' || c == '"' || c == '[' || c == '{' || c == '-' || IsDigit(c)
  }

  /** `JSON.stringify(v)`: compact, no whitespace between tokens. */
  function Stringify(v: Json): (r: string)
    ensures |r| >= 1 && StartsValue(r[0])
    decreases v, 0
  {
    match v
    case JNull => "null"
    case JBool(b) => if b then "true" else "false"
    case JNumber(n) => IntText(n)
    case JString(s) => Quote(s)
    case JArray(items) => "[" + StringifyItems(items) + "]"
    case JObject(ms) => "{" + StringifyMembers(ms) + "}"
  }

  function StringifyItems(items: seq<Json>): string
    decreases items, 1
  {
    if items == [] then ""
    else if |items| == 1 then Stringify(items[0])
    else Stringify(items[0]) + "," + StringifyItems(items[1..])
  }

  function StringifyMembers(ms: seq<Member>): string
    decreases ms, 1
  {
    if ms == [] then ""
    else
      var m := ms[0];
      var text := Quote(m.key) + ":" + Stringify(m.value);
      if |ms| == 1 then text else text + "," + StringifyMembers(ms[1..])
  }

  // ---------------------------------------------------------------------
  // JSON.parse: a recursive-descent parser over the remaining input
  // ---------------------------------------------------------------------

  function SkipWs(s: string): (r: string)
    ensures |r| <= |s|
    ensures r == [] || !IsWs(r[0])
  {
    if s != [] && IsWs(s[0]) then SkipWs(s[1..]) else s
  }

  /** A keyword (`null`, `true`, `false`) at the head of `s`. */
  function Keyword(s: string, word: string, v: Json): (r: Option<(Json, string)>)
    requires |word| >= 1
    ensures r.Some? ==> |r.value.1| < |s|
  {
    if |word| <= |s| && s[..|word|] == word then Some((v, s[|word|..])) else None
  }

  /** An unsigned JSON integer: `0`, or a non-zero digit followed by digits. */
  function ParseNat(s: string): (r: Option<(nat, string)>)
    ensures r.Some? ==> |r.value.1| < |s|
  {
    if s == [] || !IsDigit(s[0]) then None
    else if s[0] == '0' then Some((0, s[1..]))
    else
      var k := DigitRun(s);
      Some((DigitsValue(s[..k]), s[k..]))
  }

  function ParseNumber(s: string): (r: Option<(Json, string)>)
    ensures r.Some? ==> |r.value.1| < |s|
  {
    if s != [] && s[0] == '-' then
      match ParseNat(s[1..])
      case None => None
      case Some((n, rest)) => var m: int := n; Some((JNumber(-m), rest))
    else
      match ParseNat(s)
      case None => None
      case Some((n, rest)) => Some((JNumber(n), rest))
  }

  /** One character of a string literal, escaped or not. */
  function ParseChar(s: string): (r: Option<(char, string)>)
    requires s != []
    ensures r.Some? ==> |r.value.1| < |s|
  {
    if s[0] == '\\' then
      if |s| < 2 then None
      else
        var e := s[1];
        if e == '"' then Some(('"', s[2..]))
        else if e == '\\' then Some(('\\', s[2..]))
        else if e == '/' then Some(('/', s[2..]))
        else if e == 'b' then Some((0x08 as char, s[2..]))
        else if e == 'f' then Some((0x0C as char, s[2..]))
        else if e == 'n' then Some(('\n', s[2..]))
        else if e == 'r' then Some(('\r', s[2..]))
        else if e == 't' then Some(('\t', s[2..]))
        else if e == 'u' && |s| >= 6 then
          match (HexValue(s[2]), HexValue(s[3]), HexValue(s[4]), HexValue(s[5]))
          case (Some(a), Some(b), Some(c), Some(d)) =>
            var code := ((a * 16 + b) * 16 + c) * 16 + d;
            if 0xD800 <= code <= 0xDFFF then None else Some((code as char, s[6..]))
          case _ => None
        else None
    else if s[0] < ' ' then None
    else Some((s[0], s[1..]))
  }

  /** The characters of a string literal up to its closing quote. */
  function ParseStringBody(s: string): (r: Option<(string, string)>)
    ensures r.Some? ==> |r.value.1| < |s|
    decreases |s|
  {
    if s == [] then None
    else if s[0] == '"' then Some(([], s[1..]))
    else
      match ParseChar(s)
      case None => None
      case Some((c, rest)) =>
        match ParseStringBody(rest)
        case None => None
        case Some((cs, tail)) => Some(([c] + cs, tail))
  }

  /** One value after optional whitespace; the rest of the input is returned. */
  function ParseValue(s: string): (r: Option<(Json, string)>)
    ensures r.Some? ==> |r.value.1| < |s|
    decreases |s|, 0
  {
    var t := SkipWs(s);
    if t == [] then None
    else if t[0] == 'n' then Keyword(t, "null", JNull)
    else if t[0] == 't' then Keyword(t, "true", JBool(true))
    else if t[0] == 'f' then Keyword(t, "false", JBool(false))
    else if t[0] == '"' then
      match ParseStringBody(t[1..])
      case None => None
      case Some((str, rest)) => Some((JString(str), rest))
    else if t[0] == '[' then ParseArray(t[1..])
    else if t[0] == '{' then ParseObject(t[1..])
    else ParseNumber(t)
  }

  /** The rest of an array after its `[`. */
  function ParseArray(s: string): (r: Option<(Json, string)>)
    ensures r.Some? ==> |r.value.1| < |s|
    decreases |s|, 2
  {
    var t := SkipWs(s);
    if t != [] && t[0] == ']' then Some((JArray([]), t[1..]))
    else
      match ParseElements(t)
      case None => None
      case Some((items, rest)) => Some((JArray(items), rest))
  }

  /** One or more comma-separated values and the closing `]`. */
  function ParseElements(s: string): (r: Option<(seq<Json>, string)>)
    ensures r.Some? ==> |r.value.1| < |s|
    decreases |s|, 1
  {
    match ParseValue(s)
    case None => None
    case Some((v, rest)) =>
      var t := SkipWs(rest);
      if t == [] then None
      else if t[0] == ']' then Some(([v], t[1..]))
      else if t[0] == ',' then
        match ParseElements(t[1..])
        case None => None
        case Some((vs, tail)) => Some(([v] + vs, tail))
      else None
  }

  /** The rest of an object after its `{`. */
  function ParseObject(s: string): (r: Option<(Json, string)>)
    ensures r.Some? ==> |r.value.1| < |s|
    decreases |s|, 3
  {
    var t := SkipWs(s);
    if t != [] && t[0] == '}' then Some((JObject([]), t[1..]))
    else
      match ParseMembers(t)
      case None => None
      case Some((ms, rest)) => Some((JObject(ms), rest))
  }

  /** One `"key": value` member, after optional whitespace. */
  function ParseMember(s: string): (r: Option<(Member, string)>)
    ensures r.Some? ==> |r.value.1| < |s|
    decreases |s|, 1
  {
    var t := SkipWs(s);
    if t == [] || t[0] != '"' then None
    else
      match ParseStringBody(t[1..])
      case None => None
      case Some((key, afterKey)) =>
        var u := SkipWs(afterKey);
        if u == [] || u[0] != ':' then None
        else
          match ParseValue(u[1..])
          case None => None
          case Some((v, rest)) => Some((Member(key, v), rest))
  }

  /** One or more comma-separated members and the closing `}`. */
  function ParseMembers(s: string): (r: Option<(seq<Member>, string)>)
    ensures r.Some? ==> |r.value.1| < |s|
    decreases |s|, 2
  {
    match ParseMember(s)
    case None => None
    case Some((m, rest)) =>
      var w := SkipWs(rest);
      if w == [] then None
      else if w[0] == '}' then Some(([m], w[1..]))
      else if w[0] == ',' then
        match ParseMembers(w[1..])
        case None => None
        case Some((ms, tail)) => Some(([m] + ms, tail))
      else None
  }

  /** `JSON.parse(s)`: one value, surrounded by nothing but whitespace; `None` where it throws. */
  function Parse(s: string): Option<Json> {
    match ParseValue(s)
    case None => None
    case Some((v, rest)) => if SkipWs(rest) == [] then Some(v) else None
  }

  // ---------------------------------------------------------------------
  // JSON.parse inverts JSON.stringify
  // ---------------------------------------------------------------------

  lemma SkipWsNone(s: string)
    requires s == [] || !IsWs(s[0])
    ensures SkipWs(s) == s
  {
  }

  lemma ParseCharEscape(c: char, x: string)
    ensures ParseChar(EscapeChar(c) + x) == Some((c, x))
  {
    var s := EscapeChar(c) + x;
    if c < ' ' && c as int != 0x08 && c as int != 0x0C && c != '\n' && c != '\r' && c != '\t' {
      var hi, lo := c as int / 16, c as int % 16;
      assert s[..6] == ['\\', 'u', '0', '0', HexChar(hi), HexChar(lo)];
      assert s[6..] == x;
      assert ((0 * 16 + 0) * 16 + hi) * 16 + lo == c as int;
    } else if |EscapeChar(c)| == 2 {
      assert s[2..] == x;
    } else {
      assert s[1..] == x;
    }
  }

  lemma {:induction false} ParseStringBodyEscape(s: string, tail: string)
    ensures ParseStringBody(Escape(s) + "\"" + tail) == Some((s, tail))
  {
    var input := Escape(s) + "\"" + tail;
    if s == [] {
      assert input == "\"" + tail;
      assert input[1..] == tail;
    } else {
      var x := Escape(s[1..]) + "\"" + tail;
      assert input == EscapeChar(s[0]) + x;
      ParseCharEscape(s[0], x);
      ParseStringBodyEscape(s[1..], tail);
      assert [s[0]] + s[1..] == s;
    }
  }

  lemma ParseNatText(n: nat, rest: string)
    requires rest == [] || !IsDigit(rest[0])
    ensures ParseNat(NatText(n) + rest) == Some((n, rest))
  {
    var t := NatText(n);
    var s := t + rest;
    if n == 0 {
      assert t == "0";
      assert s[1..] == rest;
    } else {
      DigitRunOf(t, rest);
      assert s[..|t|] == t;
      assert s[|t|..] == rest;
      NatTextValue(n);
    }
  }

  lemma ParseNumberText(n: int, rest: string)
    requires rest == [] || !IsDigit(rest[0])
    ensures ParseNumber(IntText(n) + rest) == Some((JNumber(n), rest))
  {
    if n < 0 {
      ParseNegativeText(n, rest);
    } else {
      var s := IntText(n) + rest;
      assert s == NatText(n) + rest;
      ParseNatText(n, rest);
      assert s[0] != '-';
    }
  }

  lemma ParseNegativeText(n: int, rest: string)
    requires n < 0
    requires rest == [] || !IsDigit(rest[0])
    ensures ParseNumber(IntText(n) + rest) == Some((JNumber(n), rest))
  {
    var m: nat := -n;
    var digits := NatText(m) + rest;
    var s := IntText(n) + rest;
    assert s == "-" + digits;
    assert s[1..] == digits;
    ParseNatText(m, rest);
    NegativeNumber(s, m, rest);
  }

  lemma NegativeNumber(s: string, m: nat, rest: string)
    requires s != [] && s[0] == '-'
    requires ParseNat(s[1..]) == Some((m, rest))
    ensures ParseNumber(s) == Some((JNumber(-(m as int)), rest))
  {
  }

  /** Parsing the text of any value, followed by anything that cannot extend a number, gives the value back. */
  lemma {:induction false} ParseValueStringify(v: Json, rest: string)
    requires rest == [] || !IsDigit(rest[0])
    ensures ParseValue(Stringify(v) + rest) == Some((v, rest))
    decreases v, 0
  {
    match v
    case JArray(items) => ParseArrayStringify(items, rest);
    case JObject(ms) => ParseObjectStringify(ms, rest);
    case JString(str) => ParseStringStringify(str, rest);
    case JNumber(n) => ParseIntStringify(n, rest);
    case JNull => ParseKeywordStringify(v, rest);
    case JBool(_) => ParseKeywordStringify(v, rest);
  }

  lemma ParseIntStringify(n: int, rest: string)
    requires rest == [] || !IsDigit(rest[0])
    ensures ParseValue(Stringify(JNumber(n)) + rest) == Some((JNumber(n), rest))
  {
    var s := IntText(n) + rest;
    assert s[0] == IntText(n)[0];
    ValueAtNumber(s);
    ParseNumberText(n, rest);
  }

  lemma ValueAtNumber(s: string)
    requires s != [] && (s[0] == '-' || IsDigit(s[0]))
    ensures ParseValue(s) == ParseNumber(s)
  {
    SkipWsNone(s);
  }

  lemma ParseKeywordStringify(v: Json, rest: string)
    requires v.JNull? || v.JBool?
    ensures ParseValue(Stringify(v) + rest) == Some((v, rest))
  {
    var s := Stringify(v) + rest;
    SkipWsNone(s);
    if v.JNull? || v.b {
      assert s[..4] == Stringify(v) && s[4..] == rest;
    } else {
      assert s[..5] == "false" && s[5..] == rest;
    }
  }

  lemma ValueAtQuote(s: string)
    requires s != [] && s[0] == '"'
    ensures ParseValue(s) ==
            match ParseStringBody(s[1..])
            case None => None
            case Some((str, rest)) => Some((JString(str), rest))
  {
    SkipWsNone(s);
  }

  lemma ParseStringStringify(str: string, rest: string)
    ensures ParseValue(Stringify(JString(str)) + rest) == Some((JString(str), rest))
  {
    var s := Stringify(JString(str)) + rest;
    assert s == "\"" + (Escape(str) + "\"" + rest);
    ValueAtQuote(s);
    ParseStringBodyEscape(str, rest);
  }

  lemma ValueAtBracket(s: string)
    requires s != [] && (s[0] == '[' || s[0] == '{')
    ensures s[0] == '[' ==> ParseValue(s) == ParseArray(s[1..])
    ensures s[0] == '{' ==> ParseValue(s) == ParseObject(s[1..])
  {
    SkipWsNone(s);
  }

  lemma OpenedAt(s: string)
    requires s != [] && !IsWs(s[0])
    ensures ParseArray(s) ==
            if s[0] == ']' then Some((JArray([]), s[1..]))
            else
              match ParseElements(s)
              case None => None
              case Some((items, rest)) => Some((JArray(items), rest))
    ensures ParseObject(s) ==
            if s[0] == '}' then Some((JObject([]), s[1..]))
            else
              match ParseMembers(s)
              case None => None
              case Some((ms, rest)) => Some((JObject(ms), rest))
  {
    SkipWsNone(s);
  }

  lemma ItemsStart(items: seq<Json>, rest: string)
    requires items != []
    ensures (StringifyItems(items) + "]" + rest)[0] == Stringify(items[0])[0]
  {
  }

  lemma {:induction false} ParseArrayStringify(items: seq<Json>, rest: string)
    ensures ParseValue(Stringify(JArray(items)) + rest) == Some((JArray(items), rest))
    decreases items, 3
  {
    var inner := StringifyItems(items) + "]" + rest;
    var s := Stringify(JArray(items)) + rest;
    assert s == "[" + inner;
    ValueAtBracket(s);
    assert s[1..] == inner;
    if items == [] {
      assert inner == "]" + rest;
      OpenedAt(inner);
      assert inner[1..] == rest;
    } else {
      ItemsStart(items, rest);
      OpenedAt(inner);
      ParseElementsStringify(items, rest);
    }
  }

  lemma {:induction false} ParseObjectStringify(ms: seq<Member>, rest: string)
    ensures ParseValue(Stringify(JObject(ms)) + rest) == Some((JObject(ms), rest))
    decreases ms, 3
  {
    var inner := StringifyMembers(ms) + "}" + rest;
    var s := Stringify(JObject(ms)) + rest;
    assert s == "{" + inner;
    ValueAtBracket(s);
    assert s[1..] == inner;
    if ms == [] {
      assert inner == "}" + rest;
      OpenedAt(inner);
      assert inner[1..] == rest;
    } else {
      assert inner[0] == '"';
      OpenedAt(inner);
      ParseMembersStringify(ms, rest);
    }
  }

  lemma ElementsStep(s: string, v: Json, rest: string)
    requires ParseValue(s) == Some((v, rest))
    requires rest != [] && (rest[0] == ']' || rest[0] == ',')
    ensures ParseElements(s) ==
            if rest[0] == ']' then Some(([v], rest[1..]))
            else
              match ParseElements(rest[1..])
              case None => None
              case Some((vs, tail)) => Some(([v] + vs, tail))
  {
    SkipWsNone(rest);
  }

  lemma {:induction false} ParseElementsStringify(items: seq<Json>, rest: string)
    requires items != []
    ensures ParseElements(StringifyItems(items) + "]" + rest) == Some((items, rest))
    decreases items, 2
  {
    if |items| == 1 {
      ParseLastElement(items, rest);
    } else {
      ParseNextElement(items, rest);
    }
  }

  lemma {:induction false} ParseLastElement(items: seq<Json>, rest: string)
    requires |items| == 1
    ensures ParseElements(StringifyItems(items) + "]" + rest) == Some((items, rest))
    decreases items, 1
  {
    var s := StringifyItems(items) + "]" + rest;
    assert s == Stringify(items[0]) + ("]" + rest);
    ParseValueStringify(items[0], "]" + rest);
    ElementsStep(s, items[0], "]" + rest);
    assert ("]" + rest)[1..] == rest;
    assert [items[0]] == items;
  }

  lemma {:induction false} ParseNextElement(items: seq<Json>, rest: string)
    requires |items| > 1
    ensures ParseElements(StringifyItems(items) + "]" + rest) == Some((items, rest))
    decreases items, 1
  {
    var s := StringifyItems(items) + "]" + rest;
    var more := StringifyItems(items[1..]) + "]" + rest;
    assert s == Stringify(items[0]) + ("," + more);
    ParseValueStringify(items[0], "," + more);
    ElementsStep(s, items[0], "," + more);
    assert ("," + more)[1..] == more;
    ParseElementsStringify(items[1..], rest);
    assert ParseElements(more) == Some((items[1..], rest));
    assert ParseElements(s) == Some(([items[0]] + items[1..], rest));
    assert [items[0]] + items[1..] == items;
  }

  lemma MembersStep(s: string, m: Member, rest: string)
    requires ParseMember(s) == Some((m, rest))
    requires rest != [] && (rest[0] == '}' || rest[0] == ',')
    ensures ParseMembers(s) ==
            if rest[0] == '}' then Some(([m], rest[1..]))
            else
              match ParseMembers(rest[1..])
              case None => None
              case Some((ms, tail)) => Some(([m] + ms, tail))
  {
    SkipWsNone(rest);
  }

  lemma MemberAt(s: string, key: string, x: string)
    requires s != [] && s[0] == '"'
    requires ParseStringBody(s[1..]) == Some((key, ":" + x))
    ensures ParseMember(s) ==
            match ParseValue(x)
            case None => None
            case Some((v, rest)) => Some((Member(key, v), rest))
  {
    SkipWsNone(s);
    SkipWsNone(":" + x);
    assert (":" + x)[1..] == x;
  }

  /** One member's text parses back, whatever follows it that cannot extend a number. */
  lemma {:induction false} ParseMemberStringify(m: Member, after: string)
    requires after == [] || !IsDigit(after[0])
    ensures ParseMember(Quote(m.key) + ":" + Stringify(m.value) + after) == Some((m, after))
    decreases m, 0
  {
    var x := Stringify(m.value) + after;
    var s := Quote(m.key) + ":" + Stringify(m.value) + after;
    assert s == "\"" + (Escape(m.key) + "\"" + (":" + x));
    assert s[1..] == Escape(m.key) + "\"" + (":" + x);
    ParseStringBodyEscape(m.key, ":" + x);
    MemberAt(s, m.key, x);
    ParseValueStringify(m.value, after);
  }

  lemma {:induction false} ParseMembersStringify(ms: seq<Member>, rest: string)
    requires ms != []
    ensures ParseMembers(StringifyMembers(ms) + "}" + rest) == Some((ms, rest))
    decreases ms, 2
  {
    if |ms| == 1 {
      ParseLastMember(ms, rest);
    } else {
      ParseNextMember(ms, rest);
    }
  }

  lemma {:induction false} ParseLastMember(ms: seq<Member>, rest: string)
    requires |ms| == 1
    ensures ParseMembers(StringifyMembers(ms) + "}" + rest) == Some((ms, rest))
    decreases ms, 1
  {
    var m := ms[0];
    var s := StringifyMembers(ms) + "}" + rest;
    assert s == Quote(m.key) + ":" + Stringify(m.value) + ("}" + rest);
    ParseMemberStringify(m, "}" + rest);
    MembersStep(s, m, "}" + rest);
    assert ("}" + rest)[1..] == rest;
    assert [m] == ms;
  }

  lemma NextMemberText(ms: seq<Member>, rest: string)
    requires |ms| > 1
    ensures StringifyMembers(ms) + "}" + rest ==
            Quote(ms[0].key) + ":" + Stringify(ms[0].value) + ("," + (StringifyMembers(ms[1..]) + "}" + rest))
  {
    var text := Quote(ms[0].key) + ":" + Stringify(ms[0].value);
    var t := StringifyMembers(ms[1..]);
    assert StringifyMembers(ms) == text + "," + t;
    Regroup(text, ",", t, "}", rest);
  }

  /** Regrouping a concatenation of five strings. */
  lemma Regroup(a: string, b: string, c: string, d: string, e: string)
    ensures a + b + c + d + e == a + (b + (c + d + e))
  {
  }

  lemma {:induction false} ParseNextMember(ms: seq<Member>, rest: string)
    requires |ms| > 1
    ensures ParseMembers(StringifyMembers(ms) + "}" + rest) == Some((ms, rest))
    decreases ms, 1
  {
    var m := ms[0];
    var s := StringifyMembers(ms) + "}" + rest;
    var more := StringifyMembers(ms[1..]) + "}" + rest;
    NextMemberText(ms, rest);
    ParseMemberStringify(m, "," + more);
    MembersStep(s, m, "," + more);
    assert ("," + more)[1..] == more;
    ParseMembersStringify(ms[1..], rest);
    assert ParseMembers(more) == Some((ms[1..], rest));
    assert ParseMembers(s) == Some(([m] + ms[1..], rest));
    assert [m] + ms[1..] == ms;
  }

  /** `JSON.parse(JSON.stringify(v))` gives `v` back. */
  lemma ParseStringify(v: Json)
    ensures Parse(Stringify(v)) == Some(v)
  {
    ParseValueStringify(v, []);
    assert Stringify(v) + [] == Stringify(v);
  }

  /** Two values with the same text are the same value. */
  predicate AllWs(s: string) { forall i :: 0 <= i < |s| ==> IsWs(s[i]) }

  lemma {:induction false} SkipWsPrefix(pre: string, s: string)
    requires AllWs(pre)
    ensures SkipWs(pre + s) == SkipWs(s)
  {
    if pre != [] {
      assert (pre + s)[0] == pre[0] && IsWs(pre[0]);
      assert (pre + s)[1..] == pre[1..] + s;
      SkipWsPrefix(pre[1..], s);
    } else {
      assert pre + s == s;
    }
  }

  /**
   * `JSON.parse` ignores whitespace around the value: the JSON text of `v`
   * with any spaces, tabs and line breaks before and after it parses to `v`.
   */
  lemma ParseSurroundingWhitespace(v: Json, pre: string, post: string)
    requires AllWs(pre) && AllWs(post)
    ensures Parse(pre + Stringify(v) + post) == Some(v)
  {
    var s := pre + Stringify(v) + post;
    assert s == pre + (Stringify(v) + post);
    SkipWsPrefix(pre, Stringify(v) + post);
    assert ParseValue(s) == ParseValue(Stringify(v) + post);
    ParseValueStringify(v, post);
    SkipWsPrefix(post, []);
    assert post + [] == post;
  }

  lemma StringifyInjective(v: Json, w: Json)
    requires Stringify(v) == Stringify(w)
    ensures v == w
  {
    ParseStringify(v);
    ParseStringify(w);
  }
}
