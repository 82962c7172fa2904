/** JSON values, the text that `send` writes for them, and a reader for that text after RFC 8259. */
module JsonText {
  import opened Options

  type Text = string

  /** A decimal is carried as the text that `%lf` makes of it. Nothing is assumed of that text. */
  datatype Json =
    | Null
    | Boolean(boolean: bool)
    | Integer(integer: int)
    | Decimal(decimal: Text)
    | Str(chars: Text)
    | Object(members: seq<Member>)
    | Array(elements: seq<Json>)

  datatype Member = Member(name: Text, value: Json)

  // ---------- the printer, without memos ----------

  /** Quotation marks are the only characters escaped. */
  function Escaped(s: Text): Text {
    if s == "" then "" else (if s[0] == '"' then ['\\', '"'] else [s[0]]) + Escaped(s[1..])
  }

  function Quoted(s: Text): Text {
    ['"'] + Escaped(s) + ['"']
  }

  function Digits(n: nat): Text {
    (if n < 10 then "" else Digits(n / 10)) + [('0' as int + n % 10) as char]
  }

  /** `%ld` */
  function Signed(i: int): Text {
    if i < 0 then "-" + Digits(-i) else Digits(i)
  }

  /** The text of a value that is no container; nothing for one that is. */
  function Scalar(j: Json): Text {
    match j
    case Null => "null"
    case Boolean(b) => if b then "true" else "false"
    case Integer(i) => Signed(i)
    case Decimal(t) => t
    case Str(s) => Quoted(s)
    case Object(_) => ""
    case Array(_) => ""
  }

  function Print(j: Json, depth: nat): Text
    decreases depth, 1, 0
  {
    match j
    case Object(ms) => "{" + ((if depth > 0 then PrintMembers(ms, 0, depth) else "") + "}")
    case Array(es) => "[" + ((if depth > 0 then PrintElements(es, 0, depth) else "") + "]")
    case _ => Scalar(j)
  }

  /** The members from k on, with the comma before them. */
  function PrintMembers(ms: seq<Member>, k: nat, depth: nat): Text
    requires 0 < depth && k <= |ms|
    decreases depth, 0, 2 * (|ms| - k) + 1
  {
    if k == |ms| then "" else (if k == 0 then "" else ",") + MembersFrom(ms, k, depth)
  }

  function MembersFrom(ms: seq<Member>, k: nat, depth: nat): Text
    requires 0 < depth && k < |ms|
    decreases depth, 0, 2 * (|ms| - k)
  {
    Quoted(ms[k].name) + (":" + (Print(ms[k].value, depth - 1) + PrintMembers(ms, k + 1, depth)))
  }

  function PrintElements(es: seq<Json>, k: nat, depth: nat): Text
    requires 0 < depth && k <= |es|
    decreases depth, 0, 2 * (|es| - k) + 1
  {
    if k == |es| then "" else (if k == 0 then "" else ",") + ElementsFrom(es, k, depth)
  }

  function ElementsFrom(es: seq<Json>, k: nat, depth: nat): Text
    requires 0 < depth && k < |es|
    decreases depth, 0, 2 * (|es| - k)
  {
    Print(es[k], depth - 1) + PrintElements(es, k + 1, depth)
  }

  /** A tree with its containers emptied at a depth. */
  function Prune(j: Json, depth: nat): Json
    decreases depth
  {
    match j
    case Object(ms) =>
      Object(if depth == 0 then [] else seq(|ms|, i requires 0 <= i < |ms| => Member(ms[i].name, Prune(ms[i].value, depth - 1))))
    case Array(es) =>
      Array(if depth == 0 then [] else seq(|es|, i requires 0 <= i < |es| => Prune(es[i], depth - 1)))
    case _ => j
  }

  // ---------- the reader: RFC 8259, sections 4 to 7 ----------

  /** White space, section 2. */
  predicate Blank(c: char) {
    c == ' ' || c == '\t' || c == '\n' || c == '\r'
  }

  function Skip(s: Text): (r: Text)
    ensures |r| <= |s|
  {
    if s != "" && Blank(s[0]) then Skip(s[1..]) else s
  }

  /** The two-character escapes of section 7; \uXXXX is not decoded. */
  function Unescape(c: char): Option<char> {
    if c == '"' || c == '\\' || c == '/' then Some(c)
    else if c == 'b' then Some('\U{0008}')
    else if c == 'f' then Some('\U{000C}')
    else if c == 'n' then Some('\n')
    else if c == 'r' then Some('\r')
    else if c == 't' then Some('\t')
    else None
  }

  /** What was read, and what is left. */
  datatype Read<T> = Fail | Read(value: T, rest: Text)

  /** The rest of a string, behind its opening quotation mark. */
  function ReadChars(s: Text): (r: Read<Text>)
    ensures r.Read? ==> |r.rest| < |s|
  {
    if s == "" then Fail
    else if s[0] == '"' then Read("", s[1..])
    else if s[0] < ' ' then Fail
    else if s[0] == '\\' then
      if |s| == 1 || Unescape(s[1]).None? then Fail else Prepended(Unescape(s[1]).value, ReadChars(s[2..]))
    else Prepended(s[0], ReadChars(s[1..]))
  }

  function Prepended(c: char, r: Read<Text>): Read<Text> {
    if r.Fail? then Fail else Read([c] + r.value, r.rest)
  }

  function ReadString(s: Text): (r: Read<Text>)
    ensures r.Read? ==> |r.rest| < |s|
  {
    if s == "" || s[0] != '"' then Fail else ReadChars(s[1..])
  }

  predicate IsDigit(c: char) {
    '0' <= c <= '9'
  }

  /** How many digits a text begins with. */
  function DigitRun(s: Text): (n: nat)
    ensures n <= |s|
  {
    if s == "" || !IsDigit(s[0]) then 0 else 1 + DigitRun(s[1..])
  }

  function Value(digits: Text): nat
    requires forall k :: 0 <= k < |digits| ==> IsDigit(digits[k])
    decreases |digits|
  {
    if digits == "" then 0
    else
      assert IsDigit(digits[|digits| - 1]);
      Value(digits[..|digits| - 1]) * 10 + (digits[|digits| - 1] as int - '0' as int)
  }

  /** What may not follow an integer: it would make it a decimal. */
  predicate Continues(c: char) {
    IsDigit(c) || c == '.' || c == 'e' || c == 'E'
  }

  /** No leading zeros. */
  function ReadNat(s: Text): (r: Read<nat>)
    ensures r.Read? ==> |r.rest| < |s|
  {
    var n := if s != "" && s[0] == '0' then 1 else DigitRun(s);
    if n == 0 || (n < |s| && Continues(s[n])) then Fail
    else
      DigitRunIsDigits(s);
      Read(Value(s[..n]), s[n..])
  }

  lemma DigitRunIsDigits(s: Text)
    ensures forall k :: 0 <= k < DigitRun(s) ==> IsDigit(s[k])
  {
  }

  function Minus(n: int): int {
    -n
  }

  function ReadInteger(s: Text): (r: Read<int>)
    ensures r.Read? ==> |r.rest| < |s|
  {
    var negative := s != "" && s[0] == '-';
    var r := ReadNat(if negative then s[1..] else s);
    match r
    case Fail => Fail
    case Read(n, rest) => Read(if negative then Minus(n) else n, rest)
  }

  /** The integer part of section 6 that a text begins with: no leading zeros. */
  function WholeLength(s: Text): (n: nat)
    ensures n <= |s|
  {
    if s != "" && s[0] == '0' then 1 else DigitRun(s)
  }

  /** The fraction that a text begins with, if any: a point, and a digit at least. */
  function FractionLength(s: Text): (r: Option<nat>)
    ensures r.Some? ==> r.value <= |s|
  {
    if s == "" || s[0] != '.' then Some(0)
    else if DigitRun(s[1..]) == 0 then None
    else Some(1 + DigitRun(s[1..]))
  }

  /** The exponent that a text begins with, if any: e, perhaps a sign, and a digit at least. */
  function ExponentLength(s: Text): (r: Option<nat>)
    ensures r.Some? ==> r.value <= |s|
  {
    if s == "" || (s[0] != 'e' && s[0] != 'E') then Some(0)
    else
      var n := if |s| > 1 && (s[1] == '+' || s[1] == '-') then 2 else 1;
      if DigitRun(s[n..]) == 0 then None else Some(n + DigitRun(s[n..]))
  }

  function SignLength(s: Text): (n: nat)
    ensures n <= |s|
  {
    if s != "" && s[0] == '-' then 1 else 0
  }

  /** The number that a text begins with, if that has a fraction or an exponent. */
  function DecimalLength(s: Text): (r: Option<nat>)
    ensures r.Some? ==> 0 < r.value <= |s|
  {
    var n := WholeLength(s[SignLength(s)..]);
    if n == 0 then None else Lengthened(SignLength(s) + n, TailLength(s[SignLength(s) + n..]))
  }

  /** A fraction, an exponent, or both. */
  function TailLength(s: Text): (r: Option<nat>)
    ensures r.Some? ==> 0 < r.value <= |s|
  {
    var f := FractionLength(s);
    if f.None? then None
    else
      var e := ExponentLength(s[f.value..]);
      if e.None? || f.value + e.value == 0 then None else Some(f.value + e.value)
  }

  function Lengthened(k: nat, r: Option<nat>): Option<nat> {
    if r.None? then None else Some(k + r.value)
  }

  /** A decimal of section 6, and nothing behind it. */
  predicate IsDecimal(t: Text) {
    DecimalLength(t) == Some(|t|)
  }

  function ReadDecimal(s: Text): (r: Read<Text>)
    ensures r.Read? ==> |r.rest| < |s|
  {
    var k := DecimalLength(s);
    if k.None? || (k.value < |s| && Continues(s[k.value])) then Fail else Read(s[..k.value], s[k.value..])
  }

  function ReadLiteral(s: Text, literal: Text, j: Json): (r: Read<Json>)
    requires literal != ""
    ensures r.Read? ==> |r.rest| < |s|
  {
    if literal <= s then Read(j, s[|literal|..]) else Fail
  }

  /** A value that is no container, by its first character. */
  function ReadScalar(s: Text): (r: Read<Json>)
    requires s != ""
    ensures r.Read? ==> |r.rest| < |s|
  {
    if s[0] == '"' then StringValue(ReadString(s))
    else if s[0] == 't' then ReadLiteral(s, "true", Boolean(true))
    else if s[0] == 'f' then ReadLiteral(s, "false", Boolean(false))
    else if s[0] == 'n' then ReadLiteral(s, "null", Null)
    else NumberValue(ReadInteger(s), ReadDecimal(s))
  }

  function StringValue(r: Read<Text>): Read<Json> {
    if r.Fail? then Fail else Read(Str(r.value), r.rest)
  }

  /** An integer if it has neither fraction nor exponent. */
  function NumberValue(integer: Read<int>, decimal: Read<Text>): Read<Json> {
    if integer.Read? then Read(Integer(integer.value), integer.rest)
    else if decimal.Read? then Read(Decimal(decimal.value), decimal.rest)
    else Fail
  }

  function ObjectValue(r: Read<seq<Member>>): Read<Json> {
    if r.Fail? then Fail else Read(Object(r.value), r.rest)
  }

  function ArrayValue(r: Read<seq<Json>>): Read<Json> {
    if r.Fail? then Fail else Read(Array(r.value), r.rest)
  }

  function ReadValue(text: Text): (r: Read<Json>)
    ensures r.Read? ==> |r.rest| < |text|
    decreases |text|, 2
  {
    var s := Skip(text);
    if s == "" then Fail
    else if s[0] == '{' then ReadObject(Skip(s[1..]))
    else if s[0] == '[' then ReadArray(Skip(s[1..]))
    else ReadScalar(s)
  }

  /** Behind the opening brace and blanks. */
  function ReadObject(s: Text): (r: Read<Json>)
    ensures r.Read? ==> |r.rest| <= |s|
    decreases |s|, 4
  {
    if s != "" && s[0] == '}' then Read(Object([]), s[1..]) else ObjectValue(ReadMembers(s))
  }

  function ReadArray(s: Text): (r: Read<Json>)
    ensures r.Read? ==> |r.rest| <= |s|
    decreases |s|, 4
  {
    if s != "" && s[0] == ']' then Read(Array([]), s[1..]) else ArrayValue(ReadElements(s))
  }

  /** A name and the colon behind it. */
  function ReadName(text: Text): (r: Read<Text>)
    ensures r.Read? ==> |r.rest| < |text|
  {
    var name := ReadString(Skip(text));
    if name.Fail? then Fail
    else
      var colon := Skip(name.rest);
      if colon == "" || colon[0] != ':' then Fail else Read(name.value, colon[1..])
  }

  /** One member at least, to the closing brace. */
  function ReadMembers(text: Text): (r: Read<seq<Member>>)
    ensures r.Read? ==> |r.rest| < |text|
    decreases |text|, 3
  {
    var name := ReadName(text);
    if name.Fail? then Fail
    else
      var value := ReadValue(name.rest);
      if value.Fail? then Fail
      else
        var after := Skip(value.rest);
        if after == "" then Fail
        else if after[0] == '}' then Read([Member(name.value, value.value)], after[1..])
        else if after[0] != ',' then Fail
        else MembersValue(Member(name.value, value.value), ReadMembers(after[1..]))
  }

  function MembersValue(m: Member, more: Read<seq<Member>>): Read<seq<Member>> {
    if more.Fail? then Fail else Read([m] + more.value, more.rest)
  }

  /** One element at least, to the closing bracket. */
  function ReadElements(text: Text): (r: Read<seq<Json>>)
    ensures r.Read? ==> |r.rest| < |text|
    decreases |text|, 3
  {
    var value := ReadValue(text);
    if value.Fail? then Fail
    else
      var after := Skip(value.rest);
      if after == "" then Fail
      else if after[0] == ']' then Read([value.value], after[1..])
      else if after[0] != ',' then Fail
      else ElementsValue(value.value, ReadElements(after[1..]))
  }

  function ElementsValue(j: Json, more: Read<seq<Json>>): Read<seq<Json>> {
    if more.Fail? then Fail else Read([j] + more.value, more.rest)
  }
}
