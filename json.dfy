/**
 * PHP's `json_decode($text, true)` over the grammar of RFC 8259: values,
 * objects decoded into PHP arrays whose string keys keep their first
 * position (a repeated key overwrites the value in place), strings with all
 * escapes of section 7 including UTF-16 surrogate pairs, numbers kept as
 * their lexeme, and PHP's nesting limit of 512. A small encoder of string
 * members is the decoder's partner: decoding what it writes gives the
 * members back.
 */
module Json {
  import opened Text

  datatype JsonValue =
    | JNull
    | JBool(b: bool)
    | JNumber(lexeme: string)
    | JString(str: string)
    | JArray(items: seq<JsonValue>)
    | JObject(members: seq<(string, JsonValue)>)

  /** Every key occurs once, as in a PHP array. */
  predicate UniqueKeys(ms: seq<(string, JsonValue)>) {
    forall i, j :: 0 <= i < j < |ms| ==> ms[i].0 != ms[j].0
  }

  predicate HasKey(ms: seq<(string, JsonValue)>, key: string) {
    exists i :: 0 <= i < |ms| && ms[i].0 == key
  }

  /** `$a[key]` on an array with string keys. */
  function Get(ms: seq<(string, JsonValue)>, key: string): (r: Option<JsonValue>)
    ensures r.Some? <==> HasKey(ms, key)
    ensures r.Some? ==> exists i :: 0 <= i < |ms| && ms[i] == (key, r.value)
  {
    if |ms| == 0 then None
    else if ms[0].0 == key then Some(ms[0].1)
    else
      var r := Get(ms[1..], key);
      assert r.Some? ==> exists i :: 1 <= i < |ms| && ms[i] == (key, r.value) by {
        if r.Some? {
          var i :| 0 <= i < |ms[1..]| && ms[1..][i] == (key, r.value);
          assert ms[i + 1] == (key, r.value);
        }
      }
      assert HasKey(ms, key) ==> HasKey(ms[1..], key) by {
        if HasKey(ms, key) {
          var i :| 0 <= i < |ms| && ms[i].0 == key;
          assert ms[1..][i - 1].0 == key;
        }
      }
      r
  }

  /** The value of `key` is the one at its first occurrence. */
  lemma {:induction false} GetAt(ms: seq<(string, JsonValue)>, i: nat, key: string)
    requires i < |ms| && ms[i].0 == key && forall j :: 0 <= j < i ==> ms[j].0 != key
    ensures Get(ms, key) == Some(ms[i].1)
    decreases i
  {
    if i > 0 {
      assert forall j :: 0 <= j < i - 1 ==> ms[1..][j] == ms[j + 1];
      GetAt(ms[1..], i - 1, key);
    }
  }

  /** `$a[key] = v`: an existing key keeps its place, a new key is appended. */
  function Set(ms: seq<(string, JsonValue)>, key: string, v: JsonValue): (r: seq<(string, JsonValue)>)
    ensures !HasKey(ms, key) ==> r == ms + [(key, v)]
    ensures HasKey(ms, key) ==> |r| == |ms|
  {
    if |ms| == 0 then [(key, v)]
    else if ms[0].0 == key then [(key, v)] + ms[1..]
    else
      assert !HasKey(ms, key) ==> !HasKey(ms[1..], key) by {
        if HasKey(ms[1..], key) {
          var i :| 0 <= i < |ms[1..]| && ms[1..][i].0 == key;
          assert ms[i + 1].0 == key;
        }
      }
      assert ms == [ms[0]] + ms[1..];
      [ms[0]] + Set(ms[1..], key, v)
  }

  /** Reading a key just written gives the written value. */
  lemma {:induction false} GetSetSame(ms: seq<(string, JsonValue)>, key: string, v: JsonValue)
    ensures Get(Set(ms, key, v), key) == Some(v)
    decreases |ms|
  {
    if |ms| > 0 && ms[0].0 != key {
      GetSetSame(ms[1..], key, v);
    }
  }

  /** Writing a key leaves every other key as it was. */
  lemma {:induction false} GetSetOther(ms: seq<(string, JsonValue)>, key: string, v: JsonValue, other: string)
    requires other != key
    ensures Get(Set(ms, key, v), other) == Get(ms, other)
    decreases |ms|
  {
    if |ms| > 0 && ms[0].0 != key {
      GetSetOther(ms[1..], key, v, other);
    }
  }

  /** PHP's `isset($a[key])`: `a` is an array holding `key` with a value other than null. */
  predicate IsSet(a: JsonValue, key: string) {
    a.JObject? && Get(a.members, key).Some? && Get(a.members, key).value != JNull
  }

  // ---------------------------------------------------------------------------
  // Decoder

  /** PHP's default `$depth` argument: arrays and objects nest at most this deep. */
  const MaxDepth: nat := 512

  /** The four insignificant whitespace characters of section 2. */
  predicate IsJsonSpace(c: char) {
    c == ' ' || c == '\t' || c == '\n' || c == '\r'
  }

  function SkipJsonSpace(s: string, i: nat): (r: nat)
    requires i <= |s|
    ensures i <= r <= |s|
    ensures r < |s| ==> !IsJsonSpace(s[r])
    decreases |s| - i
  {
    if i < |s| && IsJsonSpace(s[i]) then SkipJsonSpace(s, i + 1) else i
  }

  /** A parse that stopped at `next`, or a decoding error. */
  datatype Parsed<T> = Fail | Done(value: T, next: nat)

  function HexValue(c: char): Option<nat> {
    if '0' <= c <= '9' then Some(c as int - '0' as int)
    else if 'a' <= c <= 'f' then Some(c as int - 'a' as int + 10)
    else if 'A' <= c <= 'F' then Some(c as int - 'A' as int + 10)
    else None
  }

  /** Four hexadecimal digits at `i`. */
  function Hex4(s: string, i: nat): (r: Option<nat>)
    ensures r.Some? ==> i + 4 <= |s| && r.value < 0x10000
  {
    if i + 4 > |s| then None
    else match (HexValue(s[i]), HexValue(s[i + 1]), HexValue(s[i + 2]), HexValue(s[i + 3]))
      case (Some(a), Some(b), Some(c), Some(d)) =>
        if a < 16 && b < 16 && c < 16 && d < 16 then Some(((a * 16 + b) * 16 + c) * 16 + d) else None
      case _ => None
  }

  predicate IsHighSurrogate(n: nat) { 0xD800 <= n <= 0xDBFF }
  predicate IsLowSurrogate(n: nat) { 0xDC00 <= n <= 0xDFFF }

  /**
   * The escape after a backslash at `i - 1`: the short escapes of section 7,
   * `\u` with a code unit outside the surrogates, or a high surrogate
   * immediately followed by an escaped low one. A lone surrogate is an error.
   */
  function ParseEscape(s: string, i: nat): (r: Parsed<char>)
    requires i <= |s|
    ensures r.Done? ==> i < r.next <= |s|
  {
    if i == |s| then Fail
    else
      var c := s[i];
      if c == '"' || c == '\\' || c == '/' then Done(c, i + 1)
      else if c == 'b' then Done('\U{0008}', i + 1)
      else if c == 'f' then Done('\U{000C}', i + 1)
      else if c == 'n' then Done('\n', i + 1)
      else if c == 'r' then Done('\r', i + 1)
      else if c == 't' then Done('\t', i + 1)
      else if c != 'u' then Fail
      else match Hex4(s, i + 1)
        case None => Fail
        case Some(u) =>
          if IsLowSurrogate(u) then Fail
          else if !IsHighSurrogate(u) then Done(u as char, i + 5)
          else if !StartsAt(s, i + 5, "\\u") then Fail
          else match Hex4(s, i + 7)
            case None => Fail
            case Some(l) =>
              if IsLowSurrogate(l) then Done((0x10000 + (u - 0xD800) * 0x400 + (l - 0xDC00)) as char, i + 11)
              else Fail
  }

  /** The rest of a string whose opening quote is at `i - 1`; raw control characters are errors. */
  function ParseString(s: string, i: nat): (r: Parsed<string>)
    requires i <= |s|
    ensures r.Done? ==> i < r.next <= |s|
    decreases |s| - i, 0
  {
    if i == |s| then Fail
    else if s[i] == '"' then Done("", i + 1)
    else if s[i] == '\\' then ParseEscapeThen(s, i + 1)
    else if s[i] < ' ' then Fail
    else
      match ParseString(s, i + 1)
      case Fail => Fail
      case Done(rest, k) => Done([s[i]] + rest, k)
  }

  /** An escape after a backslash at `i - 1`, then the rest of the string. */
  function ParseEscapeThen(s: string, i: nat): (r: Parsed<string>)
    requires i <= |s|
    ensures r.Done? ==> i < r.next <= |s|
    decreases |s| - i, 1
  {
    match ParseEscape(s, i)
    case Fail => Fail
    case Done(c, j) =>
      match ParseString(s, j)
      case Fail => Fail
      case Done(rest, k) => Done([c] + rest, k)
  }

  /**
   * The states of the number grammar of section 6: before an optional minus,
   * after it, after a leading zero, in the integer digits, after the point,
   * in the fraction, after the exponent letter, after its sign, in its digits.
   */
  datatype NumberState = Sign | First | Zero | Int | Point | Frac | Exp | ExpSign | ExpDigits

  /** The state after reading `c` in state `q`, if the grammar allows `c` there. */
  function NumberStep(q: NumberState, c: char): Option<NumberState> {
    match q
    case Sign => if c == '-' then Some(First) else if c == '0' then Some(Zero) else if IsDigit(c) then Some(Int) else None
    case First => if c == '0' then Some(Zero) else if IsDigit(c) then Some(Int) else None
    case Zero => if c == '.' then Some(Point) else if c == 'e' || c == 'E' then Some(Exp) else None
    case Int =>
      if IsDigit(c) then Some(Int) else if c == '.' then Some(Point) else if c == 'e' || c == 'E' then Some(Exp) else None
    case Point => if IsDigit(c) then Some(Frac) else None
    case Frac => if IsDigit(c) then Some(Frac) else if c == 'e' || c == 'E' then Some(Exp) else None
    case Exp => if c == '+' || c == '-' then Some(ExpSign) else if IsDigit(c) then Some(ExpDigits) else None
    case ExpSign => if IsDigit(c) then Some(ExpDigits) else None
    case ExpDigits => if IsDigit(c) then Some(ExpDigits) else None
  }

  /** The states in which a complete number has been read. */
  predicate Accepting(q: NumberState) {
    q == Zero || q == Int || q == Frac || q == ExpDigits
  }

  /** The longest number starting at `start`, read up to `j` so far in state `q`. */
  function ScanNumber(s: string, start: nat, j: nat, q: NumberState): (r: Parsed<JsonValue>)
    requires start <= j <= |s| && (q != Sign ==> start < j)
    ensures r.Done? ==> start < r.next <= |s|
    decreases |s| - j
  {
    if j < |s| && NumberStep(q, s[j]).Some? then ScanNumber(s, start, j + 1, NumberStep(q, s[j]).value)
    else if Accepting(q) then Done(JNumber(s[start..j]), j)
    else Fail
  }

  /** A number: an optional minus, `0` or digits not starting with `0`, an optional fraction and exponent. */
  function ParseNumber(s: string, i: nat): (r: Parsed<JsonValue>)
    requires i <= |s|
    ensures r.Done? ==> i < r.next <= |s|
  {
    ScanNumber(s, i, i, Sign)
  }

  /** A value starting at `i`, inside `depth` enclosing arrays and objects. */
  function ParseValue(s: string, i: nat, depth: nat): (r: Parsed<JsonValue>)
    requires i <= |s|
    ensures r.Done? ==> i < r.next <= |s|
    decreases |s| - i, 0
  {
    if i == |s| then Fail
    else if s[i] == '{' then
      if depth + 1 > MaxDepth then Fail
      else
        var j := SkipJsonSpace(s, i + 1);
        if j < |s| && s[j] == '}' then Done(JObject([]), j + 1)
        else ParseMembers(s, j, depth + 1, [])
    else if s[i] == '[' then
      if depth + 1 > MaxDepth then Fail
      else
        var j := SkipJsonSpace(s, i + 1);
        if j < |s| && s[j] == ']' then Done(JArray([]), j + 1)
        else ParseElements(s, j, depth + 1, [])
    else if s[i] == '"' then
      match ParseString(s, i + 1)
      case Fail => Fail
      case Done(str, k) => Done(JString(str), k)
    else if StartsAt(s, i, "true") then Done(JBool(true), i + 4)
    else if StartsAt(s, i, "false") then Done(JBool(false), i + 5)
    else if StartsAt(s, i, "null") then Done(JNull, i + 4)
    else ParseNumber(s, i)
  }

  /** The elements of an array after `acc`, up to and including the closing bracket. */
  function ParseElements(s: string, i: nat, depth: nat, acc: seq<JsonValue>): (r: Parsed<JsonValue>)
    requires i <= |s|
    ensures r.Done? ==> i < r.next <= |s|
    decreases |s| - i, 1
  {
    match ParseValue(s, SkipJsonSpace(s, i), depth)
    case Fail => Fail
    case Done(v, j) => ElementsTail(s, j, depth, acc + [v])
  }

  /** After an element: a comma and more elements, or the closing bracket. */
  function ElementsTail(s: string, j: nat, depth: nat, acc: seq<JsonValue>): (r: Parsed<JsonValue>)
    requires j <= |s|
    ensures r.Done? ==> j < r.next <= |s|
    decreases |s| - j, 2
  {
    var k := SkipJsonSpace(s, j);
    if k == |s| then Fail
    else if s[k] == ',' then ParseElements(s, k + 1, depth, acc)
    else if s[k] == ']' then Done(JArray(acc), k + 1)
    else Fail
  }

  /** The members of an object after `acc`, up to and including the closing brace. */
  function ParseMembers(s: string, i: nat, depth: nat, acc: seq<(string, JsonValue)>): (r: Parsed<JsonValue>)
    requires i <= |s|
    ensures r.Done? ==> i < r.next <= |s|
    decreases |s| - i, 1
  {
    var a := SkipJsonSpace(s, i);
    if a == |s| || s[a] != '"' then Fail
    else match ParseString(s, a + 1)
      case Fail => Fail
      case Done(key, b) => MemberValue(s, b, depth, acc, key)
  }

  /** After a member's key: the colon and the value, which replaces or joins the members. */
  function MemberValue(s: string, b: nat, depth: nat, acc: seq<(string, JsonValue)>, key: string): (r: Parsed<JsonValue>)
    requires b <= |s|
    ensures r.Done? ==> b < r.next <= |s|
    decreases |s| - b, 2
  {
    var c := SkipJsonSpace(s, b);
    if c == |s| || s[c] != ':' then Fail
    else match ParseValue(s, SkipJsonSpace(s, c + 1), depth)
      case Fail => Fail
      case Done(v, d) => MembersTail(s, d, depth, Set(acc, key, v))
  }

  /** After a member: a comma and more members, or the closing brace. */
  function MembersTail(s: string, d: nat, depth: nat, acc: seq<(string, JsonValue)>): (r: Parsed<JsonValue>)
    requires d <= |s|
    ensures r.Done? ==> d < r.next <= |s|
    decreases |s| - d, 2
  {
    var e := SkipJsonSpace(s, d);
    if e == |s| then Fail
    else if s[e] == ',' then ParseMembers(s, e + 1, depth, acc)
    else if s[e] == '}' then Done(JObject(acc), e + 1)
    else Fail
  }

  /** `json_decode($text, true)`: one value, surrounded only by whitespace; None is PHP's null on error. */
  function Decode(text: string): Option<JsonValue> {
    match ParseValue(text, SkipJsonSpace(text, 0), 0)
    case Fail => None
    case Done(v, j) => if SkipJsonSpace(text, j) == |text| then Some(v) else None
  }

  // ---------------------------------------------------------------------------
  // Encoder of string members, and the round trip

  function HexDigit(n: nat): char
    requires n < 16
  {
    if n < 10 then ('0' as int + n) as char else ('a' as int + n - 10) as char
  }

  /** A character inside a JSON string: quote and backslash escaped, control characters as `\u00XX`. */
  function EscapeChar(c: char): string {
    if c == '"' then "\\\""
    else if c == '\\' then "\\\\"
    else if c < ' ' then "\\u00" + [HexDigit(c as int / 16), HexDigit(c as int % 16)]
    else [c]
  }

  function EscapeChars(x: string): string {
    if |x| == 0 then "" else EscapeChar(x[0]) + EscapeChars(x[1..])
  }

  function EncodeString(x: string): string {
    "\"" + EscapeChars(x) + "\""
  }

  function EncodeMember(m: (string, string)): string {
    EncodeString(m.0) + ":" + EncodeString(m.1)
  }

  function EncodeMembers(ms: seq<(string, string)>): string
    requires |ms| > 0
  {
    if |ms| == 1 then EncodeMember(ms[0]) else EncodeMember(ms[0]) + "," + EncodeMembers(ms[1..])
  }

  /** An object whose members are all strings, written without whitespace. */
  function EncodeObject(ms: seq<(string, string)>): string {
    if |ms| == 0 then "{}" else "{" + EncodeMembers(ms) + "}"
  }

  function AsJsonMembers(ms: seq<(string, string)>): (r: seq<(string, JsonValue)>)
    ensures |r| == |ms|
  {
    if |ms| == 0 then [] else [(ms[0].0, JString(ms[0].1))] + AsJsonMembers(ms[1..])
  }

  predicate DistinctKeys(ms: seq<(string, string)>) {
    forall i, j :: 0 <= i < j < |ms| ==> ms[i].0 != ms[j].0
  }

  /** `t` occurs in `s` at `i`. */
  predicate At(s: string, i: nat, t: string) {
    i + |t| <= |s| && forall k :: 0 <= k < |t| ==> s[i + k] == t[k]
  }

  lemma AtSplit(s: string, i: nat, a: string, b: string)
    requires At(s, i, a + b)
    ensures At(s, i, a) && At(s, i + |a|, b)
  {
    forall k | 0 <= k < |a| ensures s[i + k] == a[k] {
      assert (a + b)[k] == a[k];
    }
    forall k | 0 <= k < |b| ensures s[i + |a| + k] == b[k] {
      assert (a + b)[|a| + k] == b[k];
    }
  }

  lemma AtChar(s: string, i: nat, t: string, k: nat)
    requires At(s, i, t) && k < |t|
    ensures s[i + k] == t[k]
  {
  }

  lemma HexValueOfDigit(n: nat)
    requires n < 16
    ensures HexValue(HexDigit(n)) == Some(n)
  {
  }

  lemma ParseEscapedControl(s: string, i: nat, c: char)
    requires c < ' ' && At(s, i, EscapeChar(c))
    ensures ParseEscape(s, i + 1) == Done(c, i + 6)
  {
    var e := EscapeChar(c);
    var hi, lo := c as int / 16, c as int % 16;
    assert e == ['\\', 'u', '0', '0', HexDigit(hi), HexDigit(lo)];
    AtChar(s, i, e, 1);
    AtChar(s, i, e, 2);
    AtChar(s, i, e, 3);
    AtChar(s, i, e, 4);
    AtChar(s, i, e, 5);
    HexValueOfDigit(hi);
    HexValueOfDigit(lo);
    assert Hex4(s, i + 2) == Some(hi * 16 + lo);
    assert hi * 16 + lo == c as int;
  }

  /** One escaped character followed by the escaped rest of `x`: the decoder reads `x`. */
  lemma ParseStringStep(s: string, i: nat, x: string, k: nat)
    requires |x| > 0 && At(s, i, EscapeChar(x[0]))
    requires i + |EscapeChar(x[0])| <= |s| && ParseString(s, i + |EscapeChar(x[0])|) == Done(x[1..], k)
    ensures ParseString(s, i) == Done(x, k)
  {
    var c := x[0];
    if c == '"' || c == '\\' {
      ParseShortEscape(s, i, c, x[1..], k);
    } else if c < ' ' {
      ParseControlEscape(s, i, c, x[1..], k);
    } else {
      ParsePlainChar(s, i, c, x[1..], k);
    }
    ConsSlice(x);
  }

  lemma ConsSlice<T>(x: seq<T>)
    requires |x| > 0
    ensures [x[0]] + x[1..] == x
  {
  }

  lemma ParseShortEscape(s: string, i: nat, c: char, rest: string, k: nat)
    requires (c == '"' || c == '\\') && At(s, i, EscapeChar(c))
    requires i + 2 <= |s| && ParseString(s, i + 2) == Done(rest, k)
    ensures ParseString(s, i) == Done([c] + rest, k)
  {
    AtChar(s, i, EscapeChar(c), 0);
    AtChar(s, i, EscapeChar(c), 1);
    assert ParseEscape(s, i + 1) == Done(c, i + 2);
  }

  lemma ParseControlEscape(s: string, i: nat, c: char, rest: string, k: nat)
    requires c < ' ' && At(s, i, EscapeChar(c))
    requires i + 6 <= |s| && ParseString(s, i + 6) == Done(rest, k)
    ensures ParseString(s, i) == Done([c] + rest, k)
  {
    AtChar(s, i, EscapeChar(c), 0);
    ParseEscapedControl(s, i, c);
  }

  lemma ParsePlainChar(s: string, i: nat, c: char, rest: string, k: nat)
    requires c != '"' && c != '\\' && c >= ' ' && At(s, i, EscapeChar(c))
    requires i + 1 <= |s| && ParseString(s, i + 1) == Done(rest, k)
    ensures ParseString(s, i) == Done([c] + rest, k)
  {
    AtChar(s, i, EscapeChar(c), 0);
  }

  lemma EscapedLayout(s: string, i: nat, x: string)
    requires |x| > 0 && At(s, i, EscapeChars(x) + "\"")
    ensures At(s, i, EscapeChar(x[0])) && At(s, i + |EscapeChar(x[0])|, EscapeChars(x[1..]) + "\"")
    ensures |EscapeChars(x)| == |EscapeChar(x[0])| + |EscapeChars(x[1..])|
  {
    assert EscapeChars(x) == EscapeChar(x[0]) + EscapeChars(x[1..]);
    AtRegroup(s, i, EscapeChar(x[0]), EscapeChars(x[1..]), "\"");
  }

  lemma AtRegroup(s: string, i: nat, a: string, b: string, c: string)
    requires At(s, i, a + b + c)
    ensures At(s, i, a) && At(s, i + |a|, b + c)
  {
    AtSplit(s, i, a + b, c);
    AtSplit(s, i, a, b);
    AtJoin(s, i + |a|, b, c);
  }

  /** The string decoder reads back what the escaper wrote, stopping after the closing quote. */
  lemma {:induction false} ParseStringOfEscaped(s: string, i: nat, x: string)
    requires At(s, i, EscapeChars(x) + "\"")
    ensures ParseString(s, i) == Done(x, i + |EscapeChars(x)| + 1)
    decreases |x|
  {
    if |x| == 0 {
      AtChar(s, i, EscapeChars(x) + "\"", 0);
    } else {
      var e := EscapeChar(x[0]);
      var k := i + |e| + |EscapeChars(x[1..])| + 1;
      EscapedLayout(s, i, x);
      ParseStringOfEscaped(s, i + |e|, x[1..]);
      ParseStringStep(s, i, x, k);
    }
  }

  lemma ParseEncodedString(s: string, i: nat, x: string, depth: nat)
    requires At(s, i, EncodeString(x))
    ensures s[i] == '"'
    ensures ParseString(s, i + 1) == Done(x, i + |EncodeString(x)|)
    ensures ParseValue(s, i, depth) == Done(JString(x), i + |EncodeString(x)|)
  {
    assert EncodeString(x) == "\"" + (EscapeChars(x) + "\"");
    AtSplit(s, i, "\"", EscapeChars(x) + "\"");
    AtChar(s, i, EncodeString(x), 0);
    ParseStringOfEscaped(s, i + 1, x);
  }

  predicate KeysAbsent(acc: seq<(string, JsonValue)>, ms: seq<(string, string)>) {
    forall j :: 0 <= j < |ms| ==> !HasKey(acc, ms[j].0)
  }

  /** The parts of one encoded member: its key, the colon and its value. */
  lemma ParseEncodedMember(s: string, i: nat, m: (string, string), depth: nat)
    requires At(s, i, EncodeMember(m))
    ensures var b := i + |EncodeString(m.0)|;
      b + 1 < |s| && s[i] == '"' && ParseString(s, i + 1) == Done(m.0, b) && s[b] == ':' &&
      s[b + 1] == '"' && ParseValue(s, b + 1, depth) == Done(JString(m.1), i + |EncodeMember(m)|)
  {
    var ek, ev := EncodeString(m.0), EncodeString(m.1);
    var b := i + |ek|;
    AtSplit(s, i, ek + ":", ev);
    AtSplit(s, i, ek, ":");
    ParseEncodedString(s, i, m.0, depth);
    AtChar(s, b, ":", 0);
    ParseEncodedString(s, b + 1, m.1, depth);
  }

  lemma ParseMembersAtKey(s: string, i: nat, depth: nat, acc: seq<(string, JsonValue)>, key: string, b: nat)
    requires i < |s| && s[i] == '"' && ParseString(s, i + 1) == Done(key, b)
    ensures ParseMembers(s, i, depth, acc) == MemberValue(s, b, depth, acc, key)
  {
    NoSpaceAt(s, i);
  }

  lemma NoSpaceAt(s: string, i: nat)
    requires i < |s| && !IsJsonSpace(s[i])
    ensures SkipJsonSpace(s, i) == i
  {
  }

  lemma MemberValueAt(s: string, b: nat, depth: nat, acc: seq<(string, JsonValue)>, key: string, v: JsonValue, e: nat)
    requires b + 1 < |s| && s[b] == ':' && !IsJsonSpace(s[b + 1]) && ParseValue(s, b + 1, depth) == Done(v, e)
    ensures MemberValue(s, b, depth, acc, key) == MembersTail(s, e, depth, Set(acc, key, v))
  {
    NoSpaceAt(s, b);
    NoSpaceAt(s, b + 1);
  }

  /** One step of the members decoder over a member with a new key. */
  lemma ParseMembersStep(s: string, i: nat, depth: nat, acc: seq<(string, JsonValue)>, key: string, v: JsonValue, b: nat, e: nat)
    requires i < |s| && s[i] == '"' && ParseString(s, i + 1) == Done(key, b)
    requires b + 1 < |s| && s[b] == ':' && !IsJsonSpace(s[b + 1]) && ParseValue(s, b + 1, depth) == Done(v, e)
    requires !HasKey(acc, key)
    ensures ParseMembers(s, i, depth, acc) == MembersTail(s, e, depth, acc + [(key, v)])
  {
    ParseMembersAtKey(s, i, depth, acc, key, b);
    MemberValueAt(s, b, depth, acc, key, v, e);
  }

  lemma MembersTailAt(s: string, e: nat, depth: nat, acc: seq<(string, JsonValue)>)
    requires e < |s| && (s[e] == ',' || s[e] == '}')
    ensures MembersTail(s, e, depth, acc) ==
      if s[e] == ',' then ParseMembers(s, e + 1, depth, acc) else Done(JObject(acc), e + 1)
  {
    NoSpaceAt(s, e);
  }

  /** The decoder steps over one encoded member whose key is new. */
  lemma ParseMembersOverEncoded(s: string, i: nat, depth: nat, acc: seq<(string, JsonValue)>, m: (string, string))
    requires At(s, i, EncodeMember(m)) && !HasKey(acc, m.0)
    ensures i + |EncodeMember(m)| <= |s|
    ensures ParseMembers(s, i, depth, acc) == MembersTail(s, i + |EncodeMember(m)|, depth, acc + [(m.0, JString(m.1))])
  {
    ParseEncodedMember(s, i, m, depth);
    ParseMembersStep(s, i, depth, acc, m.0, JString(m.1), i + |EncodeString(m.0)|, i + |EncodeMember(m)|);
  }

  /** Where the first of several encoded members ends, and what follows it. */
  lemma EncodedMembersLayout(s: string, i: nat, ms: seq<(string, string)>)
    requires |ms| > 0 && At(s, i, EncodeMembers(ms) + "}")
    ensures At(s, i, EncodeMember(ms[0])) && i + |EncodeMember(ms[0])| < |s|
    ensures |ms| == 1 ==> s[i + |EncodeMember(ms[0])|] == '}' && |EncodeMembers(ms)| == |EncodeMember(ms[0])|
    ensures |ms| > 1 ==>
      s[i + |EncodeMember(ms[0])|] == ',' &&
      At(s, i + |EncodeMember(ms[0])| + 1, EncodeMembers(ms[1..]) + "}") &&
      |EncodeMembers(ms)| == |EncodeMember(ms[0])| + 1 + |EncodeMembers(ms[1..])|
  {
    var em := EncodeMember(ms[0]);
    if |ms| == 1 {
      AtSplit(s, i, em, "}");
      AtChar(s, i + |em|, "}", 0);
    } else {
      AtSeparated(s, i, em, EncodeMembers(ms[1..]));
    }
  }

  /** The layout of `a + "," + b + "}"` in `s`. */
  lemma AtSeparated(s: string, i: nat, a: string, b: string)
    requires At(s, i, a + "," + b + "}")
    ensures At(s, i, a) && i + |a| < |s| && s[i + |a|] == ',' && At(s, i + |a| + 1, b + "}")
  {
    AtSplit(s, i, a + "," + b, "}");
    AtSplit(s, i, a + ",", b);
    AtSplit(s, i, a, ",");
    AtChar(s, i + |a|, ",", 0);
    AtJoin(s, i + |a| + 1, b, "}");
  }

  lemma AtJoin(s: string, i: nat, a: string, b: string)
    requires At(s, i, a) && At(s, i + |a|, b)
    ensures At(s, i, a + b)
  {
    forall k | 0 <= k < |a + b| ensures s[i + k] == (a + b)[k] {
      if k >= |a| {
        assert s[i + |a| + (k - |a|)] == b[k - |a|];
      }
    }
  }

  /** An encoded member with a new key followed by a comma: the decoder goes on after the comma. */
  lemma MembersContinue(s: string, i: nat, depth: nat, acc: seq<(string, JsonValue)>, m: (string, string))
    requires At(s, i, EncodeMember(m)) && !HasKey(acc, m.0)
    requires i + |EncodeMember(m)| < |s| && s[i + |EncodeMember(m)|] == ','
    ensures ParseMembers(s, i, depth, acc) == ParseMembers(s, i + |EncodeMember(m)| + 1, depth, acc + [(m.0, JString(m.1))])
  {
    ParseMembersOverEncoded(s, i, depth, acc, m);
    MembersTailAt(s, i + |EncodeMember(m)|, depth, acc + [(m.0, JString(m.1))]);
  }

  /** An encoded member with a new key followed by a closing brace: the decoder ends the object. */
  lemma MembersClose(s: string, i: nat, depth: nat, acc: seq<(string, JsonValue)>, m: (string, string))
    requires At(s, i, EncodeMember(m)) && !HasKey(acc, m.0)
    requires i + |EncodeMember(m)| < |s| && s[i + |EncodeMember(m)|] == '}'
    ensures ParseMembers(s, i, depth, acc) == Done(JObject(acc + [(m.0, JString(m.1))]), i + |EncodeMember(m)| + 1)
  {
    ParseMembersOverEncoded(s, i, depth, acc, m);
    MembersTailAt(s, i + |EncodeMember(m)|, depth, acc + [(m.0, JString(m.1))]);
  }

  /** The members decoder reads back encoded members after those already read. */
  lemma {:induction false} ParseMembersOfEncoded(s: string, i: nat, depth: nat, acc: seq<(string, JsonValue)>, ms: seq<(string, string)>)
    requires |ms| > 0 && DistinctKeys(ms) && KeysAbsent(acc, ms)
    requires At(s, i, EncodeMembers(ms) + "}")
    ensures ParseMembers(s, i, depth, acc) == Done(JObject(acc + AsJsonMembers(ms)), i + |EncodeMembers(ms)| + 1)
    decreases |ms|
  {
    var m := ms[0];
    var e := i + |EncodeMember(m)|;
    var acc' := acc + [(m.0, JString(m.1))];
    EncodedMembersLayout(s, i, ms);
    if |ms| == 1 {
      MembersClose(s, i, depth, acc, m);
      assert AsJsonMembers(ms) == [(m.0, JString(m.1))];
    } else {
      MembersContinue(s, i, depth, acc, m);
      KeysAbsentStep(acc, ms);
      ParseMembersOfEncoded(s, e + 1, depth, acc', ms[1..]);
      AsJsonMembersCons(acc, ms);
    }
  }

  lemma AsJsonMembersCons(acc: seq<(string, JsonValue)>, ms: seq<(string, string)>)
    requires |ms| > 0
    ensures acc + [(ms[0].0, JString(ms[0].1))] + AsJsonMembers(ms[1..]) == acc + AsJsonMembers(ms)
  {
    assert AsJsonMembers(ms) == [(ms[0].0, JString(ms[0].1))] + AsJsonMembers(ms[1..]);
  }

  lemma HasKeyAppend(ms: seq<(string, JsonValue)>, m: (string, JsonValue), key: string)
    ensures HasKey(ms + [m], key) <==> HasKey(ms, key) || m.0 == key
  {
    if HasKey(ms + [m], key) {
      var k :| 0 <= k < |ms + [m]| && (ms + [m])[k].0 == key;
      if k < |ms| {
        assert ms[k].0 == key;
      }
    }
    if HasKey(ms, key) {
      var k :| 0 <= k < |ms| && ms[k].0 == key;
      assert (ms + [m])[k].0 == key;
    }
    if m.0 == key {
      assert (ms + [m])[|ms|].0 == key;
    }
  }

  lemma KeysAbsentStep(acc: seq<(string, JsonValue)>, ms: seq<(string, string)>)
    requires |ms| > 0 && DistinctKeys(ms) && KeysAbsent(acc, ms)
    ensures KeysAbsent(acc + [(ms[0].0, JString(ms[0].1))], ms[1..]) && DistinctKeys(ms[1..])
  {
    var m := (ms[0].0, JString(ms[0].1));
    forall j | 0 <= j < |ms[1..]| ensures !HasKey(acc + [m], ms[1..][j].0) {
      assert ms[1..][j] == ms[j + 1];
      HasKeyAppend(acc, m, ms[j + 1].0);
    }
    forall i, j | 0 <= i < j < |ms[1..]| ensures ms[1..][i].0 != ms[1..][j].0 {
      assert ms[1..][i] == ms[i + 1] && ms[1..][j] == ms[j + 1];
    }
  }

  /** A whole text that is one value with nothing around it decodes to that value. */
  lemma DecodeWhole(s: string, v: JsonValue)
    requires |s| > 0 && !IsJsonSpace(s[0]) && ParseValue(s, 0, 0) == Done(v, |s|)
    ensures Decode(s) == Some(v)
  {
    NoSpaceAt(s, 0);
  }

  /** An object whose first member starts right after the brace. */
  lemma ParseObjectAt(s: string, i: nat, depth: nat)
    requires i + 1 < |s| && s[i] == '{' && s[i + 1] == '"' && depth < MaxDepth
    ensures ParseValue(s, i, depth) == ParseMembers(s, i + 1, depth + 1, [])
  {
    NoSpaceAt(s, i + 1);
  }

  /** Decoding an encoded object of string members gives those members back, in order. */
  lemma DecodeEncodeObject(ms: seq<(string, string)>)
    requires DistinctKeys(ms)
    ensures Decode(EncodeObject(ms)) == Some(JObject(AsJsonMembers(ms)))
  {
    if |ms| == 0 {
      DecodeEmptyObject();
    } else {
      DecodeEncodeMembers(ms);
    }
  }

  lemma DecodeEmptyObject()
    ensures Decode("{}") == Some(JObject([]))
  {
    var s := "{}";
    NoSpaceAt(s, 1);
    assert ParseValue(s, 0, 0) == Done(JObject([]), 2);
    DecodeWhole(s, JObject([]));
  }

  lemma DecodeEncodeMembers(ms: seq<(string, string)>)
    requires |ms| > 0 && DistinctKeys(ms)
    ensures Decode(EncodeObject(ms)) == Some(JObject(AsJsonMembers(ms)))
  {
    EncodeObjectLayout(ms);
    DecodeObjectText(EncodeObject(ms), ms);
  }

  /** A text laid out as an encoded object decodes to its members. */
  lemma DecodeObjectText(s: string, ms: seq<(string, string)>)
    requires |ms| > 0 && DistinctKeys(ms)
    requires |s| == |EncodeMembers(ms)| + 2 && s[0] == '{' && s[1] == '"' && At(s, 1, EncodeMembers(ms) + "}")
    ensures Decode(s) == Some(JObject(AsJsonMembers(ms)))
  {
    var v := JObject(AsJsonMembers(ms));
    assert ParseValue(s, 0, 0) == Done(v, |s|) by {
      ParseObjectAt(s, 0, 0);
      ParseMembersOfEncoded(s, 1, 1, [], ms);
      EmptyAppend(AsJsonMembers(ms));
    }
    DecodeWhole(s, v);
  }

  lemma EmptyAppend<T>(x: seq<T>)
    ensures [] + x == x
  {
  }

  /** The encoded object: a brace, the members, a brace. */
  lemma EncodeObjectLayout(ms: seq<(string, string)>)
    requires |ms| > 0
    ensures var s := EncodeObject(ms);
      |s| == |EncodeMembers(ms)| + 2 && s[0] == '{' && s[1] == '"' && At(s, 1, EncodeMembers(ms) + "}")
  {
    var s := EncodeObject(ms);
    var body := EncodeMembers(ms) + "}";
    assert s == "{" + body;
    AtSplit(s, 0, "{", body);
    AtChar(s, 0, "{", 0);
    EncodedMembersLayout(s, 1, ms);
    EncodedMemberStart(s, 1, ms[0]);
  }

  lemma EncodedMemberStart(s: string, i: nat, m: (string, string))
    requires At(s, i, EncodeMember(m))
    ensures i < |s| && s[i] == '"'
  {
    AtChar(s, i, EncodeMember(m), 0);
  }

  /** Escaping writes only quotes, backslashes, `u` and hexadecimal digits besides the characters escaped. */
  lemma {:induction false} EscapeCharsAvoid(x: string, c: char)
    requires c !in x && c != '"' && c != '\\' && c != 'u' && !IsDigit(c) && !('a' <= c <= 'f')
    ensures c !in EscapeChars(x)
  {
    if |x| > 0 {
      EscapeCharsAvoid(x[1..], c);
      assert c !in EscapeChar(x[0]);
    }
  }

  /** A text starting with a letter that begins none of `true`, `false` and `null` does not decode. */
  lemma DecodeRejectsWord(s: string)
    requires |s| > 0 && IsAsciiLetter(s[0]) && s[0] != 't' && s[0] != 'f' && s[0] != 'n'
    ensures Decode(s) == None
  {
    NoSpaceAt(s, 0);
    assert ParseValue(s, 0, 0) == ParseNumber(s, 0);
  }
}
