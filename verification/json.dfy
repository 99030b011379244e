/**
 * `json.loads` as the real collection loop uses it on a line that starts with
 * `{` and ends with `}`: a recursive-descent decoder following Python's
 * scanner (strict mode), and the `float(data.get(key, 0))` conversions that
 * `process_data` applies to the decoded object.
 */
module Json {
  import opened Wrappers
  import opened Numbers

  datatype Value =
    | Null
    | Bool(b: bool)
    | Number(n: real)
    | Str(s: string)
    | Array(items: seq<Value>)
    | Object(members: seq<(string, Value)>)

  /** JSON whitespace: space, tab, line feed, carriage return. */
  predicate IsWs(c: char) {
    c == ' ' || c == '\t' || c == '\n' || c == '\r'
  }

  function SkipWs(s: string, i: nat): (j: nat)
    requires i <= |s|
    ensures i <= j <= |s|
    ensures j == |s| || !IsWs(s[j])
    ensures forall k :: i <= k < j ==> IsWs(s[k])
    decreases |s| - i
  {
    if i < |s| && IsWs(s[i]) then SkipWs(s, i + 1) else i
  }

  /** The word `w` stands at offset `i` of `s`. */
  predicate WordAt(s: string, i: nat, w: string) {
    i + |w| <= |s| && s[i..i + |w|] == w
  }

  predicate IsHex(c: char) {
    '0' <= c <= '9' || 'a' <= c <= 'f' || 'A' <= c <= 'F'
  }

  function HexValue(c: char): (v: nat)
    requires IsHex(c)
    ensures v < 16
  {
    if c <= '9' then c as int - '0' as int
    else if c <= 'F' then c as int - 'A' as int + 10
    else c as int - 'a' as int + 10
  }

  /** Four hexadecimal digits at offset `i`, as a `\u` escape carries them. */
  function Hex4(s: string, i: nat): (r: Option<nat>)
    ensures r.Some? ==> i + 4 <= |s| && r.value < 0x10000
  {
    if i + 4 <= |s| && IsHex(s[i]) && IsHex(s[i + 1]) && IsHex(s[i + 2]) && IsHex(s[i + 3]) then
      Some(((HexValue(s[i]) * 16 + HexValue(s[i + 1])) * 16 + HexValue(s[i + 2])) * 16 + HexValue(s[i + 3]))
    else None
  }

  /** The one-character escapes `\" \\ \/ \b \f \n \r \t`. */
  function Unescape(e: char): Option<char> {
    match e
    case '"' => Some('"')
    case '\\' => Some('\\')
    case '/' => Some('/')
    case 'b' => Some('\U{8}')
    case 'f' => Some('\U{c}')
    case 'n' => Some('\n')
    case 'r' => Some('\r')
    case 't' => Some('\t')
    case _ => None
  }

  /**
   * What an escaped surrogate that is not half of a pair decodes to. Python
   * keeps it as a lone code point; a `char` cannot hold one, so it stands
   * for it. Such a string is never equal to a key the reader looks up, and
   * `float()` refuses it, exactly as it refuses the lone code point.
   */
  const LoneSurrogate: char := '\U{FFFD}'

  function Prepend(c: char, r: Option<(string, nat)>): Option<(string, nat)> {
    match r
    case None => None
    case Some((t, e)) => Some(([c] + t, e))
  }

  /**
   * The rest of a string literal from offset `i`, just after its opening
   * quote: the decoded text and the offset just after the closing quote.
   * Raw control characters are refused, as in strict mode.
   */
  function ParseString(s: string, i: nat): (r: Option<(string, nat)>)
    requires i <= |s|
    ensures r.Some? ==> i < r.value.1 <= |s|
    decreases |s| - i
  {
    if i == |s| then None
    else if s[i] == '"' then Some(([], i + 1))
    else if s[i] == '\\' then
      if i + 1 == |s| then None
      else if s[i + 1] == 'u' then
        match Hex4(s, i + 2)
        case None => None
        case Some(u) =>
          if u < 0xD800 || 0xE000 <= u then
            Prepend(u as char, ParseString(s, i + 6))
          else if u < 0xDC00 && WordAt(s, i + 6, "\\u") then
            match Hex4(s, i + 8)
            case None => None
            case Some(l) =>
              if 0xDC00 <= l < 0xE000 then
                Prepend((0x10000 + (u - 0xD800) * 0x400 + (l - 0xDC00)) as char, ParseString(s, i + 12))
              else Prepend(LoneSurrogate, ParseString(s, i + 6))
          else Prepend(LoneSurrogate, ParseString(s, i + 6))
      else
        match Unescape(s[i + 1])
        case None => None
        case Some(c) => Prepend(c, ParseString(s, i + 2))
    else if s[i] < ' ' then None
    else Prepend(s[i], ParseString(s, i + 1))
  }

  /** An escaped lone surrogate still decodes, to the stand-in character. */
  lemma LoneSurrogateDecodes(s: string)
    requires s == "\\ud800\""
    ensures ParseString(s, 0) == Some(([LoneSurrogate], 7))
  {
    assert Hex4(s, 2) == Some(0xD800);
    assert !WordAt(s, 6, "\\u");
    assert ParseString(s, 6) == Some(([], 7));
    assert s[0] == '\\' && s[1] == 'u';
    assert [LoneSurrogate] + [] == [LoneSurrogate];
  }

  /** End of the optional exponent `[eE][-+]?[0-9]+` at offset `k` (`k` itself when there is none). */
  function ExponentEnd(s: string, k: nat): (j: nat)
    requires k <= |s|
    ensures k <= j <= |s|
  {
    if k < |s| && (s[k] == 'e' || s[k] == 'E') then
      var q := if k + 1 < |s| && (s[k + 1] == '+' || s[k + 1] == '-') then k + 2 else k + 1;
      var e := DigitsEnd(s, q);
      if e > q then e else k
    else k
  }

  /**
   * A number at offset `i`, matched as Python's `json` matches it:
   * `-?(0|[1-9][0-9]*)(\.[0-9]+)?([eE][-+]?[0-9]+)?`.
   */
  function ParseNumber(s: string, i: nat): (r: Option<(real, nat)>)
    requires i <= |s|
    ensures r.Some? ==> i < r.value.1 <= |s|
  {
    var p := if i < |s| && s[i] == '-' then i + 1 else i;
    if p == |s| || !IsDigit(s[p]) then None
    else
      var intEnd := if s[p] == '0' then p + 1 else DigitsEnd(s, p);
      var hasFrac := intEnd + 1 < |s| && s[intEnd] == '.' && IsDigit(s[intEnd + 1]);
      var fracEnd := if hasFrac then DigitsEnd(s, intEnd + 1) else intEnd;
      var fracLen := if hasFrac then fracEnd - intEnd - 1 else 0;
      var expEnd := ExponentEnd(s, fracEnd);
      match ExponentValue(s, fracEnd, expEnd)
      case None => None
      case Some(e) =>
        var mantissa := Scale(DigitsValue(s, p, intEnd) as real, fracLen)
          + (if hasFrac then DigitsValue(s, intEnd + 1, fracEnd) as real else 0.0);
        var magnitude := Scale(mantissa, e - fracLen);
        Some((if p > i then -magnitude else magnitude, expEnd))
  }

  /** A value starting at offset `i`: the value and the offset just after it. */
  function ParseValue(s: string, i: nat): (r: Option<(Value, nat)>)
    requires i <= |s|
    ensures r.Some? ==> i < r.value.1 <= |s|
    decreases |s| - i, 0
  {
    if i == |s| then None
    else if s[i] == '"' then
      match ParseString(s, i + 1)
      case None => None
      case Some((t, e)) => Some((Str(t), e))
    else if s[i] == '{' then ParseObject(s, i + 1)
    else if s[i] == '[' then ParseArray(s, i + 1)
    else if WordAt(s, i, "null") then Some((Null, i + 4))
    else if WordAt(s, i, "true") then Some((Bool(true), i + 4))
    else if WordAt(s, i, "false") then Some((Bool(false), i + 5))
    else
      match ParseNumber(s, i)
      case None => None
      case Some((n, e)) => Some((Number(n), e))
  }

  /** An object from offset `i`, just after its `{`. */
  function ParseObject(s: string, i: nat): (r: Option<(Value, nat)>)
    requires i <= |s|
    ensures r.Some? ==> i < r.value.1 <= |s|
    decreases |s| - i, 2
  {
    var j := SkipWs(s, i);
    if j < |s| && s[j] == '}' then Some((Object([]), j + 1))
    else ParseMembers(s, j, [])
  }

  /** One member `"key" : value` from offset `i`: its key, its value and the offset just after the value. */
  function ParseMember(s: string, i: nat): (r: Option<(string, Value, nat)>)
    requires i <= |s|
    ensures r.Some? ==> i < r.value.2 <= |s|
    decreases |s| - i, 0
  {
    if i == |s| || s[i] != '"' then None
    else
      match ParseString(s, i + 1)
      case None => None
      case Some((key, k)) => ColonValue(s, SkipWs(s, k), key)
  }

  /** The rest of the member whose key is `key`, at offset `c`: `:` then the value. */
  function ColonValue(s: string, c: nat, key: string): (r: Option<(string, Value, nat)>)
    requires c <= |s|
    ensures r.Some? ==> c < r.value.2 <= |s|
    decreases |s| - c, 1
  {
    if c == |s| || s[c] != ':' then None
    else
      match ParseValue(s, SkipWs(s, c + 1))
      case None => None
      case Some((v, e)) => Some((key, v, e))
  }

  /**
   * Members of an object from offset `i`: a member, then what follows it;
   * `acc` holds the members read so far, in order.
   */
  function ParseMembers(s: string, i: nat, acc: seq<(string, Value)>): (r: Option<(Value, nat)>)
    requires i <= |s|
    ensures r.Some? ==> i < r.value.1 <= |s|
    decreases |s| - i, 1
  {
    match ParseMember(s, i)
    case None => None
    case Some((key, v, e)) => AfterMember(s, SkipWs(s, e), acc + [(key, v)])
  }

  /** After a member, at offset `d`: `}` closes the object, `,` leads to the next member. */
  function AfterMember(s: string, d: nat, acc: seq<(string, Value)>): (r: Option<(Value, nat)>)
    requires d <= |s|
    ensures r.Some? ==> d < r.value.1 <= |s|
    decreases |s| - d, 2
  {
    if d == |s| then None
    else if s[d] == '}' then Some((Object(acc), d + 1))
    else if s[d] == ',' then ParseMembers(s, SkipWs(s, d + 1), acc)
    else None
  }

  /** An array from offset `i`, just after its `[`. */
  function ParseArray(s: string, i: nat): (r: Option<(Value, nat)>)
    requires i <= |s|
    ensures r.Some? ==> i < r.value.1 <= |s|
    decreases |s| - i, 2
  {
    var j := SkipWs(s, i);
    if j < |s| && s[j] == ']' then Some((Array([]), j + 1))
    else ParseItems(s, j, [])
  }

  /** Items of an array from offset `i`: a value, then `]` or `,` and the next item. */
  function ParseItems(s: string, i: nat, acc: seq<Value>): (r: Option<(Value, nat)>)
    requires i <= |s|
    ensures r.Some? ==> i < r.value.1 <= |s|
    decreases |s| - i, 1
  {
    match ParseValue(s, i)
    case None => None
    case Some((v, e)) =>
      var d := SkipWs(s, e);
      if d == |s| then None
      else if s[d] == ']' then Some((Array(acc + [v]), d + 1))
      else if s[d] == ',' then ParseItems(s, SkipWs(s, d + 1), acc + [v])
      else None
  }

  /** `json.loads(text)`: one value, with only whitespace around it. */
  function Decode(text: string): Option<Value> {
    match ParseValue(text, SkipWs(text, 0))
    case None => None
    case Some((v, e)) => if SkipWs(text, e) == |text| then Some(v) else None
  }

  /** A character that is no quote, backslash or control character stands for itself. */
  lemma PlainStep(s: string, i: nat)
    requires i < |s| && s[i] != '"' && s[i] != '\\' && s[i] >= ' '
    ensures ParseString(s, i) == Prepend(s[i], ParseString(s, i + 1))
  {
  }

  /** A run of characters with no quote, backslash or control character, closed by a quote, decodes to itself. */
  lemma {:induction false} PlainString(s: string, i: nat, j: nat)
    requires i <= j < |s| && s[j] == '"'
    requires forall k :: i <= k < j ==> s[k] != '"' && s[k] != '\\' && s[k] >= ' '
    ensures ParseString(s, i) == Some((s[i..j], j + 1))
    decreases j - i
  {
    if i < j {
      PlainString(s, i + 1, j);
      PlainStep(s, i);
      assert s[i..j] == [s[i]] + s[i + 1..j];
    } else {
      assert s[i..j] == [];
    }
  }

  /** The number `3.3` at offset 11 of the example object. */
  lemma NumberExample(text: string)
    requires text == "{\"voltage\":3.3}"
    ensures ParseValue(text, 11) == Some((Number(3.3), 14))
  {
    DigitsEndAt(text, 11, 12);
    DigitsEndAt(text, 13, 14);
    assert ExponentEnd(text, 14) == 14;
    assert DigitsValue(text, 11, 12) == 3 && DigitsValue(text, 13, 14) == 3;
    assert Scale(3.0, 1) == 30.0 && Scale(33.0, 0) == 33.0;
    assert Scale(33.0, 0 - 1) == 3.3;
    assert ParseNumber(text, 11) == Some((3.3, 14));
    assert text[11] == '3' && !WordAt(text, 11, "null") && !WordAt(text, 11, "true") && !WordAt(text, 11, "false");
  }

  /** The members of the example object, read after its opening brace. */
  lemma MembersExample(text: string)
    requires text == "{\"voltage\":3.3}"
    ensures ParseMembers(text, 1, []) == Some((Object([("voltage", Number(3.3))]), 15))
  {
    assert text[2..9] == "voltage";
    PlainKey(text, 2, 9, "voltage");
    assert DigitsValue(text, 11, 12) == 3 && DigitsValue(text, 13, 14) == 3 && Pow10(1) == 10.0;
    PointNumber(text, 11, 12, 14, 3.3);
    DigitValue(text, 11, 3.3, 14);
    assert SkipWs(text, 10) == 10 && SkipWs(text, 11) == 11;
    MemberAt(text, 1, "voltage", 10, Number(3.3), 14);
    MemberThenClose(text, 1, "voltage", Number(3.3), 14, []);
    assert [] + [("voltage", Number(3.3))] == [("voltage", Number(3.3))];
  }

  /** `json.loads('{"voltage":3.3}')` is the one-member object holding the number 3.3. */
  lemma DecodeExample(text: string)
    requires text == "{\"voltage\":3.3}"
    ensures Decode(text) == Some(Object([("voltage", Number(3.3))]))
  {
    MembersExample(text);
    assert SkipWs(text, 0) == 0 && SkipWs(text, 1) == 1 && SkipWs(text, 15) == 15;
    assert ParseValue(text, 0) == ParseObject(text, 1);
  }

  /** A key written as plain text decodes to itself. */
  lemma PlainKey(s: string, i: nat, j: nat, key: string)
    requires i <= j < |s| && s[j] == '"' && s[i..j] == key
    requires forall c :: 0 <= c < |key| ==> key[c] != '"' && key[c] != '\\' && key[c] >= ' '
    ensures ParseString(s, i) == Some((key, j + 1))
  {
    PlainString(s, i, j);
  }

  /** A member `"key":value` whose colon and value follow without whitespace. */
  lemma MemberAt(s: string, i: nat, key: string, k: nat, v: Value, e: nat)
    requires i < |s| && s[i] == '"' && ParseString(s, i + 1) == Some((key, k))
    requires k + 1 < |s| && s[k] == ':' && SkipWs(s, k) == k && SkipWs(s, k + 1) == k + 1
    requires ParseValue(s, k + 1) == Some((v, e))
    ensures ParseMember(s, i) == Some((key, v, e))
  {
    ColonThen(s, k, key, v, e);
    KeyThen(s, i, key, k, Some((key, v, e)));
  }

  /** A key read at `i` and followed by no whitespace hands on to `ColonValue`. */
  lemma KeyThen(s: string, i: nat, key: string, k: nat, r: Option<(string, Value, nat)>)
    requires i < |s| && s[i] == '"' && ParseString(s, i + 1) == Some((key, k))
    requires k <= |s| && SkipWs(s, k) == k && ColonValue(s, k, key) == r
    ensures ParseMember(s, i) == r
  {
  }

  /** A colon followed by a value without whitespace completes the member. */
  lemma ColonThen(s: string, c: nat, key: string, v: Value, e: nat)
    requires c + 1 < |s| && s[c] == ':' && SkipWs(s, c + 1) == c + 1
    requires ParseValue(s, c + 1) == Some((v, e))
    ensures ColonValue(s, c, key) == Some((key, v, e))
  {
  }

  /**
   * A member followed by a comma without whitespace, then members that read
   * as `r` once it is added, reads as `r` too.
   */
  lemma MemberThenNext(s: string, i: nat, key: string, v: Value, e: nat, acc: seq<(string, Value)>,
                       r: Option<(Value, nat)>)
    requires i < |s| && ParseMember(s, i) == Some((key, v, e))
    requires e < |s| && s[e] == ',' && ParseMembers(s, SkipWs(s, e + 1), acc + [(key, v)]) == r
    ensures ParseMembers(s, i, acc) == r
  {
    CommaThen(s, e, acc + [(key, v)], r);
    MemberThen(s, i, key, v, e, acc, r);
  }

  /** After a member, `,` and members that read as `r` read as `r`. */
  lemma CommaThen(s: string, d: nat, acc: seq<(string, Value)>, r: Option<(Value, nat)>)
    requires d < |s| && s[d] == ',' && ParseMembers(s, SkipWs(s, d + 1), acc) == r
    ensures AfterMember(s, d, acc) == r
  {
  }

  /** A member read at `i` and ending where no whitespace follows hands on to `AfterMember`. */
  lemma MemberThen(s: string, i: nat, key: string, v: Value, e: nat, acc: seq<(string, Value)>,
                   r: Option<(Value, nat)>)
    requires i < |s| && ParseMember(s, i) == Some((key, v, e))
    requires e < |s| && !IsWs(s[e]) && AfterMember(s, e, acc + [(key, v)]) == r
    ensures ParseMembers(s, i, acc) == r
  {
    assert SkipWs(s, e) == e;
  }

  /** A member followed by `}` closes the object. */
  lemma MemberThenClose(s: string, i: nat, key: string, v: Value, e: nat, acc: seq<(string, Value)>)
    requires i < |s| && ParseMember(s, i) == Some((key, v, e))
    requires e < |s| && s[e] == '}'
    ensures ParseMembers(s, i, acc) == Some((Object(acc + [(key, v)]), e + 1))
  {
    MemberThen(s, i, key, v, e, acc, Some((Object(acc + [(key, v)]), e + 1)));
  }

  /**
   * A number written as digits, a point and digits, with no sign and no
   * exponent, is its whole part plus the fraction its last digits write.
   */
  lemma PointNumber(s: string, i: nat, m: nat, j: nat, x: real)
    requires i < m && m + 1 < j < |s|
    requires forall k :: i <= k < m ==> IsDigit(s[k])
    requires s[m] == '.' && forall k :: m < k < j ==> IsDigit(s[k])
    requires s[i] != '0' || m == i + 1
    requires !IsDigit(s[j]) && s[j] != 'e' && s[j] != 'E'
    requires x == DigitsValue(s, i, m) as real + DigitsValue(s, m + 1, j) as real / Pow10(j - m - 1)
    ensures ParseNumber(s, i) == Some((x, j))
  {
    var w, f, n := DigitsValue(s, i, m) as real, DigitsValue(s, m + 1, j) as real, j - m - 1;
    if s[i] != '0' {
      DigitsEndAt(s, i, m);
    }
    DigitsEndAt(s, m + 1, j);
    assert ExponentEnd(s, j) == j;
    assert ExponentValue(s, j, j) == Some(0);
    ScaleFraction(w, f, n);
    assert 0 - n == -(n as int);
  }

  /** A value that starts with a digit is the number read there. */
  lemma DigitValue(s: string, i: nat, x: real, j: nat)
    requires i < |s| && IsDigit(s[i]) && ParseNumber(s, i) == Some((x, j))
    ensures ParseValue(s, i) == Some((Number(x), j))
  {
    NotWordAt(s, i, "null");
    NotWordAt(s, i, "true");
    NotWordAt(s, i, "false");
  }

  /** A word does not stand where its first letter does not. */
  lemma NotWordAt(s: string, i: nat, w: string)
    requires i < |s| && 0 < |w| && s[i] != w[0]
    ensures !WordAt(s, i, w)
  {
  }

  /** Where the characters of `{"voltage":3.3,"current":0.5,"temperature":21.0}` stand. */
  ghost predicate FieldsLayout(s: string) {
    && |s| == 48 && s[0] == '{' && s[47] == '}'
    && s[1] == '"' && s[2..9] == "voltage" && s[9] == '"' && s[10] == ':'
    && s[11] == '3' && s[12] == '.' && s[13] == '3' && s[14] == ','
    && s[15] == '"' && s[16..23] == "current" && s[23] == '"' && s[24] == ':'
    && s[25] == '0' && s[26] == '.' && s[27] == '5' && s[28] == ','
    && s[29] == '"' && s[30..41] == "temperature" && s[41] == '"' && s[42] == ':'
    && s[43] == '2' && s[44] == '1' && s[45] == '.' && s[46] == '0'
  }

  /** The three-field object, written in three parts, has that layout. */
  lemma FieldsLayoutOf(text: string)
    requires text == "{\"voltage\":3.3," + "\"current\":0.5," + "\"temperature\":21.0}"
    ensures FieldsLayout(text)
  {
    var a, b, c := "{\"voltage\":3.3,", "\"current\":0.5,", "\"temperature\":21.0}";
    assert text[2..9] == a[2..9];
    assert text[16..23] == b[1..8];
    assert text[30..41] == c[1..12];
  }

  /** The first member of the three-field object, `"voltage":3.3`. */
  lemma VoltageMember(s: string)
    requires FieldsLayout(s)
    ensures ParseMember(s, 1) == Some(("voltage", Number(3.3), 14))
  {
    PlainKey(s, 2, 9, "voltage");
    assert DigitsValue(s, 11, 12) == 3 && DigitsValue(s, 13, 14) == 3 && Pow10(1) == 10.0;
    PointNumber(s, 11, 12, 14, 3.3);
    DigitValue(s, 11, 3.3, 14);
    assert SkipWs(s, 10) == 10 && SkipWs(s, 11) == 11;
    MemberAt(s, 1, "voltage", 10, Number(3.3), 14);
  }

  /** The second member of the three-field object, `"current":0.5`. */
  lemma CurrentMember(s: string)
    requires FieldsLayout(s)
    ensures ParseMember(s, 15) == Some(("current", Number(0.5), 28))
  {
    PlainKey(s, 16, 23, "current");
    assert DigitsValue(s, 25, 26) == 0 && DigitsValue(s, 27, 28) == 5 && Pow10(1) == 10.0;
    PointNumber(s, 25, 26, 28, 0.5);
    DigitValue(s, 25, 0.5, 28);
    assert SkipWs(s, 24) == 24 && SkipWs(s, 25) == 25;
    MemberAt(s, 15, "current", 24, Number(0.5), 28);
  }

  /** The third member of the three-field object, `"temperature":21.0`. */
  lemma TemperatureMember(s: string)
    requires FieldsLayout(s)
    ensures ParseMember(s, 29) == Some(("temperature", Number(21.0), 47))
  {
    PlainKey(s, 30, 41, "temperature");
    assert DigitsValue(s, 43, 45) == 21 && DigitsValue(s, 46, 47) == 0 && Pow10(1) == 10.0;
    PointNumber(s, 43, 45, 47, 21.0);
    DigitValue(s, 43, 21.0, 47);
    assert SkipWs(s, 42) == 42 && SkipWs(s, 43) == 43;
    MemberAt(s, 29, "temperature", 42, Number(21.0), 47);
  }

  /** The members of the three-field object, read one after the other. */
  lemma FieldsObject(s: string)
    requires FieldsLayout(s)
    ensures ParseMembers(s, 1, []) == Some((Object([("voltage", Number(3.3)), ("current", Number(0.5)), ("temperature", Number(21.0))]), 48))
  {
    VoltageMember(s);
    CurrentMember(s);
    TemperatureMember(s);
    var m1, m2, m3 := ("voltage", Number(3.3)), ("current", Number(0.5)), ("temperature", Number(21.0));
    assert [] + [m1] == [m1] && [m1] + [m2] == [m1, m2] && [m1, m2] + [m3] == [m1, m2, m3];
    var whole := Some((Object([m1, m2, m3]), 48));
    assert SkipWs(s, 15) == 15 && SkipWs(s, 29) == 29;
    MemberThenClose(s, 29, "temperature", Number(21.0), 47, [m1, m2]);
    MemberThenNext(s, 15, "current", Number(0.5), 28, [m1], whole);
    MemberThenNext(s, 1, "voltage", Number(3.3), 14, [], whole);
  }

  /**
   * `json.loads('{"voltage":3.3,"current":0.5,"temperature":21.0}')` is the
   * object holding the three members in order.
   */
  lemma DecodeFieldsExample(text: string)
    requires text == "{\"voltage\":3.3," + "\"current\":0.5," + "\"temperature\":21.0}"
    ensures Decode(text) == Some(Object([("voltage", Number(3.3)), ("current", Number(0.5)), ("temperature", Number(21.0))]))
  {
    FieldsLayoutOf(text);
    FieldsObject(text);
    assert SkipWs(text, 0) == 0 && SkipWs(text, 1) == 1 && SkipWs(text, 48) == 48;
    assert ParseValue(text, 0) == ParseObject(text, 1);
  }


  /** `dict.get(key)` on the decoded object: the last member with that key wins. */
  function Lookup(members: seq<(string, Value)>, key: string): Option<Value>
    decreases |members|
  {
    if members == [] then None
    else if members[|members| - 1].0 == key then Some(members[|members| - 1].1)
    else Lookup(members[..|members| - 1], key)
  }

  /** The last member carrying `key` sits at index `i`. */
  predicate LastWithKey(members: seq<(string, Value)>, key: string, i: int) {
    0 <= i < |members| && members[i].0 == key
    && forall j :: i < j < |members| ==> members[j].0 != key
  }

  /** `Lookup` finds exactly the value of the last member with the key, and nothing when no member has it. */
  lemma {:induction false} LookupLast(members: seq<(string, Value)>, key: string)
    ensures Lookup(members, key).None? <==> forall j :: 0 <= j < |members| ==> members[j].0 != key
    ensures forall i :: LastWithKey(members, key, i) ==> Lookup(members, key) == Some(members[i].1)
    decreases |members|
  {
    if members != [] {
      var n := |members| - 1;
      var init := members[..n];
      LookupLast(init, key);
      if members[n].0 != key {
        forall i | LastWithKey(members, key, i)
          ensures LastWithKey(init, key, i)
        {
        }
      } else {
        forall i | LastWithKey(members, key, i)
          ensures i == n
        {
        }
      }
    }
  }

  /** `float(x)` of a decoded value; `None` where Python raises `TypeError` or `ValueError`. */
  function ToFloat(v: Value): Option<real> {
    match v
    case Number(n) => Some(n)
    case Bool(b) => Some(if b then 1.0 else 0.0)
    case Str(t) => ParseFloat(t)
    case _ => None
  }

  /** `float(data.get(key, 0))` */
  function FieldOrZero(members: seq<(string, Value)>, key: string): Option<real> {
    match Lookup(members, key)
    case None => Some(0.0)
    case Some(v) => ToFloat(v)
  }
}
