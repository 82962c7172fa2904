/**
 When the text of a tree reads back as that tree: exactly when no string in it has a backslash or a control character,
 and its decimals are numbers.
 */
module JsonRoundTrip {
  import opened Options
  import opened JsonText

  lemma Behind(a: Text, b: Text)
    ensures (a + b)[|a|..] == b && (a + b)[..|a|] == a && (a != "" ==> (a + b)[0] == a[0])
  {
  }

  lemma Associative(a: Text, b: Text, c: Text)
    ensures (a + b) + c == a + (b + c)
  {
  }

  // ---------- integers ----------

  lemma {:induction false} DigitsRead(n: nat)
    ensures Digits(n) != "" && (forall k :: 0 <= k < |Digits(n)| ==> IsDigit(Digits(n)[k])) && Value(Digits(n)) == n
    ensures Digits(n)[0] == '0' <==> n == 0
  {
    var front := if n < 10 then "" else Digits(n / 10);
    if n >= 10 {
      DigitsRead(n / 10);
    }
    assert Digits(n)[..|Digits(n)| - 1] == front;
  }

  lemma {:induction false} DigitRunOf(t: Text, rest: Text)
    requires forall k :: 0 <= k < |t| ==> IsDigit(t[k])
    requires rest == "" || !IsDigit(rest[0])
    ensures DigitRun(t + rest) == |t|
    decreases |t|
  {
    if t == "" {
      assert t + rest == rest;
    } else {
      assert (t + rest)[0] == t[0] && (t + rest)[1..] == t[1..] + rest;
      DigitRunOf(t[1..], rest);
    }
  }

  lemma NatRoundTrip(n: nat, rest: Text)
    requires rest == "" || !Continues(rest[0])
    ensures ReadNat(Digits(n) + rest) == Read(n, rest)
  {
    DigitsRead(n);
    DigitRunOf(Digits(n), rest);
    var s := Digits(n) + rest;
    assert s[0] == Digits(n)[0] && s[..|Digits(n)|] == Digits(n) && s[|Digits(n)|..] == rest;
    if n == 0 {
      assert Digits(0) == "" + "0";
    }
  }

  lemma NegativeRoundTrip(i: int, rest: Text)
    requires i < 0 && (rest == "" || !Continues(rest[0]))
    ensures ReadInteger(Signed(i) + rest) == Read(i, rest)
  {
    var n: nat := -i;
    NatRoundTrip(n, rest);
    Associative("-", Digits(n), rest);
    Behind("-", Digits(n) + rest);
    NegativeFrom(Signed(i) + rest, n, rest);
  }

  lemma NegativeFrom(s: Text, n: nat, rest: Text)
    requires s != "" && s[0] == '-' && ReadNat(s[1..]) == Read(n, rest)
    ensures ReadInteger(s) == Read(Minus(n), rest)
  {
  }

  lemma PositiveRoundTrip(n: nat, rest: Text)
    requires rest == "" || !Continues(rest[0])
    ensures ReadInteger(Signed(n) + rest) == Read(n, rest)
  {
    NatRoundTrip(n, rest);
    DigitsRead(n);
    Behind(Digits(n), rest);
    assert IsDigit(Digits(n)[0]);
  }

  lemma IntegerRoundTrip(i: int, rest: Text)
    requires rest == "" || !Continues(rest[0])
    ensures ReadInteger(Signed(i) + rest) == Read(i, rest)
  {
    if i < 0 {
      NegativeRoundTrip(i, rest);
    } else {
      PositiveRoundTrip(i, rest);
    }
  }

  lemma SignedStart(i: int)
    ensures Signed(i) != "" && (Signed(i)[0] == '-' || IsDigit(Signed(i)[0]))
  {
    DigitsRead(if i < 0 then -i else i);
  }

  // ---------- decimals ----------

  /** `rest` does not prolong a number. */
  predicate Ends(rest: Text) {
    rest == "" || !Continues(rest[0])
  }

  lemma {:induction false} DigitRunAlone(u: Text, rest: Text)
    requires Ends(rest)
    ensures DigitRun(u + rest) == DigitRun(u)
    decreases |u|
  {
    if u == "" {
      assert u + rest == rest;
    } else {
      assert (u + rest)[0] == u[0] && (u + rest)[1..] == u[1..] + rest;
      DigitRunAlone(u[1..], rest);
    }
  }

  lemma WholeAlone(u: Text, rest: Text)
    requires Ends(rest)
    ensures WholeLength(u + rest) == WholeLength(u)
  {
    DigitRunAlone(u, rest);
    if u == "" {
      assert u + rest == rest;
    } else {
      assert (u + rest)[0] == u[0];
    }
  }

  lemma FractionAlone(u: Text, rest: Text)
    requires Ends(rest)
    ensures FractionLength(u + rest) == FractionLength(u)
  {
    if u == "" {
      assert u + rest == rest;
    } else {
      assert (u + rest)[0] == u[0] && (u + rest)[1..] == u[1..] + rest;
      DigitRunAlone(u[1..], rest);
    }
  }

  /** A sign behind an `e` that ends the text makes a longer exponent, but never one of this text. */
  lemma ExponentAlone(u: Text, rest: Text, k: nat)
    requires Ends(rest) && k <= |u|
    ensures ExponentLength(u + rest) == Some(k) <==> ExponentLength(u) == Some(k)
  {
    if u == "" {
      assert u + rest == rest;
    } else {
      assert (u + rest)[0] == u[0];
      if |u| > 1 {
        assert (u + rest)[1] == u[1];
        var n := if u[1] == '+' || u[1] == '-' then 2 else 1;
        assert (u + rest)[n..] == u[n..] + rest;
        DigitRunAlone(u[n..], rest);
      } else if u[0] == 'e' || u[0] == 'E' {
        assert (u + rest)[1..] == rest && u[1..] == "";
      }
    }
  }

  lemma TailAlone(u: Text, rest: Text)
    requires Ends(rest)
    ensures TailLength(u + rest) == Some(|u|) <==> TailLength(u) == Some(|u|)
  {
    FractionAlone(u, rest);
    var f := FractionLength(u);
    if f.Some? {
      assert (u + rest)[f.value..] == u[f.value..] + rest;
      ExponentAlone(u[f.value..], rest, |u| - f.value);
    }
  }

  /** A decimal is the same with anything behind it that does not prolong it. */
  lemma DecimalAlone(t: Text, rest: Text)
    requires Ends(rest) && t != ""
    ensures DecimalLength(t + rest) == Some(|t|) <==> IsDecimal(t)
  {
    var sign := SignLength(t);
    Behind(t, rest);
    assert SignLength(t + rest) == sign && (t + rest)[sign..] == t[sign..] + rest;
    WholeAlone(t[sign..], rest);
    var k := sign + WholeLength(t[sign..]);
    assert (t + rest)[k..] == t[k..] + rest;
    TailAlone(t[k..], rest);
  }

  /** What follows the integer part of a decimal is why it is no integer. */
  lemma DecimalIsNoInteger(s: Text)
    requires DecimalLength(s).Some?
    ensures ReadInteger(s).Fail? && (s[0] == '-' || IsDigit(s[0]))
  {
    var u := s[SignLength(s)..];
    var n := WholeLength(u);
    assert s[SignLength(s) + n..] == u[n..];
    assert TailLength(u[n..]).Some? && n < |u| && Continues(u[n]);
    assert ReadNat(u).Fail?;
  }

  /** A decimal's text reads back as it, whatever follows that does not prolong it. */
  lemma DecimalRoundTrip(t: Text, rest: Text)
    requires IsDecimal(t) && Ends(rest)
    ensures ReadDecimal(t + rest) == Read(t, rest) && ReadInteger(t + rest).Fail?
  {
    DecimalAlone(t, rest);
    Behind(t, rest);
    DecimalIsNoInteger(t + rest);
  }

  /** The form that `%lf` has for a finite number: digits without leading zero, a point, six digits. */
  predicate Fixed(t: Text) {
    var sign := SignLength(t);
    && |t| >= sign + 8 && t[|t| - 7] == '.' && (t[sign] == '0' ==> |t| == sign + 8)
    && forall k :: sign <= k < |t| && k != |t| - 7 ==> IsDigit(t[k])
  }

  /** And for one that is not. */
  predicate NotFinite(t: Text) {
    t == "inf" || t == "-inf" || t == "nan" || t == "-nan"
  }

  lemma FixedIsDecimal(t: Text)
    requires Fixed(t)
    ensures IsDecimal(t)
  {
    var sign, point := SignLength(t), |t| - 7;
    var u := t[sign..];
    var whole, tail := t[sign..point], t[point..];
    assert u == whole + tail && u[0] == t[sign];
    DigitRunOf(whole, tail);
    assert u[|whole|..] == tail && tail[0] == '.' && t[sign + |whole|..] == tail;
    assert WholeLength(u) == |whole|;
    DigitRunOf(tail[1..], "");
    assert tail[1..] + "" == tail[1..] && tail[7..] == "";
    assert FractionLength(tail) == Some(7);
  }

  /** Of what `%lf` makes, just the finite numbers are decimals. */
  lemma DecimalIffFixed(t: Text)
    requires Fixed(t) || NotFinite(t)
    ensures IsDecimal(t) <==> Fixed(t)
  {
    if Fixed(t) {
      FixedIsDecimal(t);
    } else {
      var u := t[SignLength(t)..];
      assert u[0] == 'i' || u[0] == 'n';
      assert WholeLength(u) == 0;
    }
  }

  // ---------- strings ----------

  /** A character that the printer should escape but does not. */
  predicate Unsafe(c: char) {
    c == '\\' || c < ' '
  }

  predicate CleanText(s: Text) {
    forall k :: 0 <= k < |s| ==> !Unsafe(s[k])
  }

  lemma {:induction false} CharsRoundTrip(s: Text, rest: Text)
    requires CleanText(s)
    ensures ReadChars(Escaped(s) + (['"'] + rest)) == Read(s, rest)
    decreases |s|
  {
    if s == "" {
      Behind(['"'], rest);
      assert Escaped(s) + (['"'] + rest) == ['"'] + rest;
    } else {
      var tail := Escaped(s[1..]) + (['"'] + rest);
      CharsRoundTrip(s[1..], rest);
      assert !Unsafe(s[0]);
      assert [s[0]] + s[1..] == s;
      ReadCharsStep(s[0], tail);
      Associative(if s[0] == '"' then ['\\', '"'] else [s[0]], Escaped(s[1..]), ['"'] + rest);
    }
  }

  lemma ReadCharsStep(c: char, tail: Text)
    requires !Unsafe(c)
    ensures ReadChars((if c == '"' then ['\\', '"'] else [c]) + tail) == Prepended(c, ReadChars(tail))
  {
    var head := if c == '"' then ['\\', '"'] else [c];
    Behind(head, tail);
    assert (head + tail)[|head| - 1] == c;
  }

  lemma StringRoundTrip(s: Text, rest: Text)
    requires CleanText(s)
    ensures ReadString(Quoted(s) + rest) == Read(s, rest)
  {
    CharsRoundTrip(s, rest);
    assert (Quoted(s) + rest)[1..] == Escaped(s) + (['"'] + rest);
  }

  // ---------- trees ----------

  /** All strings that are printed down to a depth are clean, and the decimals are numbers. */
  predicate Clean(j: Json, depth: nat)
    decreases depth
  {
    match j
    case Null => true
    case Boolean(_) => true
    case Integer(_) => true
    case Decimal(t) => IsDecimal(t)
    case Str(s) => CleanText(s)
    case Object(ms) => depth == 0 || forall i :: 0 <= i < |ms| ==> CleanText(ms[i].name) && Clean(ms[i].value, depth - 1)
    case Array(es) => depth == 0 || forall i :: 0 <= i < |es| ==> Clean(es[i], depth - 1)
  }

  function PrunedMembers(ms: seq<Member>, depth: nat): seq<Member>
    requires 0 < depth
  {
    Prune(Object(ms), depth).members
  }

  function PrunedElements(es: seq<Json>, depth: nat): seq<Json>
    requires 0 < depth
  {
    Prune(Array(es), depth).elements
  }

  /** The last member of an object. */
  lemma LastMember(text: Text, name: Text, printed: Text, value: Json, rest: Text)
    requires ReadName(text) == Read(name, printed + ("}" + rest)) && ReadValue(printed + ("}" + rest)) == Read(value, "}" + rest)
    ensures ReadMembers(text) == Read([Member(name, value)], rest)
  {
    Behind("}", rest);
    assert Skip("}" + rest) == "}" + rest;
  }

  lemma NextMember(text: Text, name: Text, printed: Text, value: Json, others: Text)
    requires ReadName(text) == Read(name, printed + ("," + others)) && ReadValue(printed + ("," + others)) == Read(value, "," + others)
    ensures ReadMembers(text) == MembersValue(Member(name, value), ReadMembers(others))
  {
    Behind(",", others);
    assert Skip("," + others) == "," + others;
  }

  lemma NameRoundTrip(name: Text, after: Text)
    requires CleanText(name)
    ensures ReadName(Quoted(name) + (":" + after)) == Read(name, after)
  {
    StringRoundTrip(name, ":" + after);
    Behind(Quoted(name), ":" + after);
    Behind(":", after);
    assert Skip(Quoted(name) + (":" + after)) == Quoted(name) + (":" + after);
    assert Skip(":" + after) == ":" + after;
  }

  lemma LastElement(text: Text, value: Json, rest: Text)
    requires ReadValue(text) == Read(value, "]" + rest)
    ensures ReadElements(text) == Read([value], rest)
  {
    Behind("]", rest);
    assert Skip("]" + rest) == "]" + rest;
  }

  lemma NextElement(text: Text, value: Json, others: Text)
    requires ReadValue(text) == Read(value, "," + others)
    ensures ReadElements(text) == ElementsValue(value, ReadElements(others))
  {
    Behind(",", others);
    assert Skip("," + others) == "," + others;
  }

  lemma IntegerScalar(i: int, rest: Text)
    requires Ends(rest)
    ensures Signed(i) + rest != "" && ReadScalar(Signed(i) + rest) == Read(Integer(i), rest)
  {
    IntegerRoundTrip(i, rest);
    SignedStart(i);
    Behind(Signed(i), rest);
    ScalarFrom(Signed(i) + rest, i, rest);
  }

  lemma ScalarFrom(s: Text, i: int, rest: Text)
    requires s != "" && (s[0] == '-' || IsDigit(s[0])) && ReadInteger(s) == Read(i, rest)
    ensures ReadScalar(s) == Read(Integer(i), rest)
  {
  }

  lemma DecimalScalar(t: Text, rest: Text)
    requires IsDecimal(t) && Ends(rest)
    ensures t + rest != "" && ReadScalar(t + rest) == Read(Decimal(t), rest)
  {
    DecimalRoundTrip(t, rest);
    DecimalIsNoInteger(t);
    Behind(t, rest);
    DecimalFrom(t + rest, t, rest);
  }

  lemma DecimalFrom(s: Text, t: Text, rest: Text)
    requires s != "" && (s[0] == '-' || IsDigit(s[0])) && ReadInteger(s).Fail? && ReadDecimal(s) == Read(t, rest)
    ensures ReadScalar(s) == Read(Decimal(t), rest)
  {
  }

  lemma StringScalar(s: Text, rest: Text)
    requires CleanText(s)
    ensures Quoted(s) + rest != "" && ReadScalar(Quoted(s) + rest) == Read(Str(s), rest)
  {
    StringRoundTrip(s, rest);
    Behind(Quoted(s), rest);
  }

  lemma LiteralScalar(literal: Text, j: Json, rest: Text)
    requires (literal == "null" && j == Null) || (literal == "true" && j == Boolean(true)) || (literal == "false" && j == Boolean(false))
    ensures literal + rest != "" && ReadScalar(literal + rest) == Read(j, rest)
  {
    Behind(literal, rest);
    assert literal <= literal + rest;
  }

  lemma ScalarRoundTrip(j: Json, rest: Text)
    requires !j.Object? && !j.Array? && Clean(j, 0) && Ends(rest)
    ensures Scalar(j) + rest != "" && ReadScalar(Scalar(j) + rest) == Read(j, rest)
  {
    match j
    case Null => LiteralScalar("null", j, rest);
    case Boolean(b) => LiteralScalar(if b then "true" else "false", j, rest);
    case Integer(i) => IntegerScalar(i, rest);
    case Decimal(t) => DecimalScalar(t, rest);
    case Str(chars) => StringScalar(chars, rest);
  }

  /** What `send` writes for a tree, with anything behind it that ends a number, reads back as the tree pruned at the depth. */
  lemma {:induction false} RoundTrip(j: Json, depth: nat, rest: Text)
    requires Clean(j, depth) && Ends(rest)
    ensures ReadValue(Print(j, depth) + rest) == Read(Prune(j, depth), rest)
    ensures ValueRead(Print(j, depth) + rest, Prune(j, depth), rest)
    decreases depth, 2, 0
  {
    match j
    case Object(ms) => ObjectRoundTrip(ms, depth, rest);
    case Array(es) => ArrayRoundTrip(es, depth, rest);
    case _ =>
      ScalarRoundTrip(j, rest);
      PrintStart(j, depth);
      Behind(Print(j, depth), rest);
  }

  lemma Opens(open: char, inside: Text)
    requires inside != "" && !Blank(inside[0])
    ensures open == '{' ==> ReadValue([open] + inside) == ReadObject(inside)
    ensures open == '[' ==> ReadValue([open] + inside) == ReadArray(inside)
  {
    Behind([open], inside);
    assert Skip(inside) == inside;
  }

  lemma {:induction false} ObjectRoundTrip(ms: seq<Member>, depth: nat, rest: Text)
    requires Clean(Object(ms), depth) && Ends(rest)
    ensures ReadValue(Print(Object(ms), depth) + rest) == Read(Prune(Object(ms), depth), rest)
    decreases depth, 1, 0
  {
    var inner := if depth > 0 then PrintMembers(ms, 0, depth) else "";
    Associative("{", inner + "}", rest);
    Associative(inner, "}", rest);
    if depth == 0 || ms == [] {
      assert inner + ("}" + rest) == "}" + rest;
      Behind("}", rest);
      Opens('{', "}" + rest);
      assert Prune(Object(ms), depth) == Object([]);
    } else {
      assert inner == MembersFrom(ms, 0, depth);
      MembersStart(ms, depth, "}" + rest);
      Opens('{', inner + ("}" + rest));
      MembersRoundTrip(ms, 0, depth, rest);
      assert PrunedMembers(ms, depth)[0..] == PrunedMembers(ms, depth);
    }
  }

  lemma {:induction false} ArrayRoundTrip(es: seq<Json>, depth: nat, rest: Text)
    requires Clean(Array(es), depth) && Ends(rest)
    ensures ReadValue(Print(Array(es), depth) + rest) == Read(Prune(Array(es), depth), rest)
    decreases depth, 1, 0
  {
    var inner := if depth > 0 then PrintElements(es, 0, depth) else "";
    Associative("[", inner + "]", rest);
    Associative(inner, "]", rest);
    if depth == 0 || es == [] {
      assert inner + ("]" + rest) == "]" + rest;
      Behind("]", rest);
      Opens('[', "]" + rest);
      assert Prune(Array(es), depth) == Array([]);
    } else {
      assert inner == ElementsFrom(es, 0, depth);
      ElementsStart(es, depth, "]" + rest);
      Opens('[', inner + ("]" + rest));
      ElementsRoundTrip(es, 0, depth, rest);
      assert PrunedElements(es, depth)[0..] == PrunedElements(es, depth);
    }
  }

  lemma ElementsStart(es: seq<Json>, depth: nat, rest: Text)
    requires 0 < depth && es != [] && Clean(es[0], depth - 1)
    ensures var text := ElementsFrom(es, 0, depth) + rest; text != "" && !Blank(text[0]) && text[0] != ']'
  {
    PrintStart(es[0], depth - 1);
    Behind(Print(es[0], depth - 1), PrintElements(es, 1, depth));
    Behind(ElementsFrom(es, 0, depth), rest);
  }

  /** The first character of a printed value is no blank and closes nothing. */
  lemma PrintStart(j: Json, depth: nat)
    requires Clean(j, depth)
    ensures Print(j, depth) != "" && !Blank(Print(j, depth)[0]) && Print(j, depth)[0] != ']'
    ensures !j.Object? && !j.Array? ==> Print(j, depth)[0] != '{' && Print(j, depth)[0] != '['
  {
    match j
    case Integer(i) => SignedStart(i);
    case Decimal(t) => DecimalIsNoInteger(t);
    case Object(ms) => Behind("{", (if depth > 0 then PrintMembers(ms, 0, depth) else "") + "}");
    case Array(es) => Behind("[", (if depth > 0 then PrintElements(es, 0, depth) else "") + "]");
    case Str(s) => assert Quoted(s)[0] == '"';
    case _ =>
  }

  lemma PrunedMembersFrom(ms: seq<Member>, k: nat, depth: nat)
    requires 0 < depth && k < |ms|
    ensures var pruned := PrunedMembers(ms, depth);
            && |pruned| == |ms| && pruned[|ms|..] == []
            && pruned[k..] == [Member(ms[k].name, Prune(ms[k].value, depth - 1))] + pruned[k + 1..]
  {
  }

  lemma PrunedElementsFrom(es: seq<Json>, k: nat, depth: nat)
    requires 0 < depth && k < |es|
    ensures var pruned := PrunedElements(es, depth);
            && |pruned| == |es| && pruned[|es|..] == [] && pruned[k..] == [Prune(es[k], depth - 1)] + pruned[k + 1..]
  {
  }

  lemma {:induction false} MemberRoundTrip(ms: seq<Member>, k: nat, depth: nat, rest: Text)
    requires 0 < depth && k < |ms| && Clean(Object(ms), depth) && Ends(rest)
    ensures CleanText(ms[k].name) && ValueRead(Print(ms[k].value, depth - 1) + rest, Prune(ms[k].value, depth - 1), rest)
    decreases depth, 0, 0
  {
    RoundTrip(ms[k].value, depth - 1, rest);
  }

  lemma {:induction false} MembersRoundTrip(ms: seq<Member>, k: nat, depth: nat, rest: Text)
    requires 0 < depth && k < |ms| && Clean(Object(ms), depth)
    ensures MembersRead(MembersFrom(ms, k, depth) + ("}" + rest), PrunedMembers(ms, depth)[k..], rest)
    decreases depth, 0, 2 * (|ms| - k) + 1
  {
    if k + 1 == |ms| {
      EndRoundTrip(ms, k, depth, rest);
    } else {
      MoreRoundTrip(ms, k, depth, rest);
    }
  }

  predicate ValueRead(text: Text, j: Json, rest: Text) {
    ReadValue(text) == Read(j, rest)
  }

  predicate MembersRead(text: Text, ms: seq<Member>, rest: Text) {
    ReadMembers(text) == Read(ms, rest)
  }

  predicate ElementsRead(text: Text, es: seq<Json>, rest: Text) {
    ReadElements(text) == Read(es, rest)
  }

  lemma CloserEnds(closer: Text, rest: Text)
    requires closer == "}" || closer == "]" || closer == ","
    ensures Ends(closer + rest)
  {
    Behind(closer, rest);
  }

  lemma MembersText(ms: seq<Member>, k: nat, depth: nat, rest: Text)
    requires 0 < depth && k < |ms|
    ensures var after := if k + 1 == |ms| then "}" + rest else "," + (MembersFrom(ms, k + 1, depth) + ("}" + rest));
            MembersFrom(ms, k, depth) + ("}" + rest) == Quoted(ms[k].name) + (":" + (Print(ms[k].value, depth - 1) + after))
  {
    MemberText(Quoted(ms[k].name), Print(ms[k].value, depth - 1), PrintMembers(ms, k + 1, depth), "}" + rest);
    if k + 1 < |ms| {
      Associative(",", MembersFrom(ms, k + 1, depth), "}" + rest);
    }
  }

  lemma {:induction false} EndRoundTrip(ms: seq<Member>, k: nat, depth: nat, rest: Text)
    requires 0 < depth && k + 1 == |ms| && Clean(Object(ms), depth)
    ensures MembersRead(MembersFrom(ms, k, depth) + ("}" + rest), PrunedMembers(ms, depth)[k..], rest)
    decreases depth, 0, 1
  {
    var Member(name, value) := ms[k];
    CloserEnds("}", rest);
    MemberRoundTrip(ms, k, depth, "}" + rest);
    MembersText(ms, k, depth, rest);
    NameRoundTrip(name, Print(value, depth - 1) + ("}" + rest));
    LastMember(MembersFrom(ms, k, depth) + ("}" + rest), name, Print(value, depth - 1), Prune(value, depth - 1), rest);
    PrunedMembersFrom(ms, k, depth);
    assert PrunedMembers(ms, depth)[k..] == [Member(name, Prune(value, depth - 1))];
  }

  lemma {:induction false} MoreRoundTrip(ms: seq<Member>, k: nat, depth: nat, rest: Text)
    requires 0 < depth && k + 1 < |ms| && Clean(Object(ms), depth)
    ensures MembersRead(MembersFrom(ms, k, depth) + ("}" + rest), PrunedMembers(ms, depth)[k..], rest)
    decreases depth, 0, 2 * (|ms| - k)
  {
    var Member(name, value) := ms[k];
    var others := MembersFrom(ms, k + 1, depth) + ("}" + rest);
    MembersRoundTrip(ms, k + 1, depth, rest);
    CloserEnds(",", others);
    MemberRoundTrip(ms, k, depth, "," + others);
    MembersText(ms, k, depth, rest);
    PrunedMembersFrom(ms, k, depth);
    MemberRead(name, Print(value, depth - 1), Prune(value, depth - 1), others, PrunedMembers(ms, depth)[k + 1..], rest);
  }

  /** One member's text in front of that of others. */
  lemma MemberRead(name: Text, printed: Text, value: Json, others: Text, tail: seq<Member>, rest: Text)
    requires CleanText(name) && ValueRead(printed + ("," + others), value, "," + others) && MembersRead(others, tail, rest)
    ensures MembersRead(Quoted(name) + (":" + (printed + ("," + others))), [Member(name, value)] + tail, rest)
  {
    NameRoundTrip(name, printed + ("," + others));
    NextMember(Quoted(name) + (":" + (printed + ("," + others))), name, printed, value, others);
  }

  lemma MembersStart(ms: seq<Member>, depth: nat, rest: Text)
    requires 0 < depth && ms != []
    ensures var text := MembersFrom(ms, 0, depth) + rest; text != "" && text[0] == '"'
  {
    Behind(Quoted(ms[0].name), ":" + (Print(ms[0].value, depth - 1) + PrintMembers(ms, 1, depth)));
    Behind(MembersFrom(ms, 0, depth), rest);
  }

  lemma MemberText(quoted: Text, printed: Text, more: Text, rest: Text)
    ensures quoted + (":" + (printed + more)) + rest == quoted + (":" + (printed + (more + rest)))
  {
  }

  lemma ElementsText(es: seq<Json>, k: nat, depth: nat, rest: Text)
    requires 0 < depth && k < |es|
    ensures var after := if k + 1 == |es| then "]" + rest else "," + (ElementsFrom(es, k + 1, depth) + ("]" + rest));
            ElementsFrom(es, k, depth) + ("]" + rest) == Print(es[k], depth - 1) + after
  {
    Associative(Print(es[k], depth - 1), PrintElements(es, k + 1, depth), "]" + rest);
    if k + 1 < |es| {
      Associative(",", ElementsFrom(es, k + 1, depth), "]" + rest);
    }
  }

  lemma {:induction false} ElementRoundTrip(es: seq<Json>, k: nat, depth: nat, rest: Text)
    requires 0 < depth && k < |es| && Clean(Array(es), depth) && Ends(rest)
    ensures ValueRead(Print(es[k], depth - 1) + rest, Prune(es[k], depth - 1), rest)
    decreases depth, 0, 0
  {
    RoundTrip(es[k], depth - 1, rest);
  }

  lemma {:induction false} ElementsRoundTrip(es: seq<Json>, k: nat, depth: nat, rest: Text)
    requires 0 < depth && k < |es| && Clean(Array(es), depth)
    ensures ElementsRead(ElementsFrom(es, k, depth) + ("]" + rest), PrunedElements(es, depth)[k..], rest)
    decreases depth, 0, 2 * (|es| - k) + 1
  {
    if k + 1 == |es| {
      EndElementRoundTrip(es, k, depth, rest);
    } else {
      MoreElementsRoundTrip(es, k, depth, rest);
    }
  }

  lemma {:induction false} EndElementRoundTrip(es: seq<Json>, k: nat, depth: nat, rest: Text)
    requires 0 < depth && k + 1 == |es| && Clean(Array(es), depth)
    ensures ElementsRead(ElementsFrom(es, k, depth) + ("]" + rest), PrunedElements(es, depth)[k..], rest)
    decreases depth, 0, 1
  {
    CloserEnds("]", rest);
    ElementRoundTrip(es, k, depth, "]" + rest);
    ElementsText(es, k, depth, rest);
    LastElement(ElementsFrom(es, k, depth) + ("]" + rest), Prune(es[k], depth - 1), rest);
    PrunedElementsFrom(es, k, depth);
    assert PrunedElements(es, depth)[k..] == [Prune(es[k], depth - 1)];
  }

  lemma {:induction false} MoreElementsRoundTrip(es: seq<Json>, k: nat, depth: nat, rest: Text)
    requires 0 < depth && k + 1 < |es| && Clean(Array(es), depth)
    ensures ElementsRead(ElementsFrom(es, k, depth) + ("]" + rest), PrunedElements(es, depth)[k..], rest)
    decreases depth, 0, 2 * (|es| - k)
  {
    var others := ElementsFrom(es, k + 1, depth) + ("]" + rest);
    ElementsRoundTrip(es, k + 1, depth, rest);
    CloserEnds(",", others);
    ElementRoundTrip(es, k, depth, "," + others);
    ElementsText(es, k, depth, rest);
    NextElement(ElementsFrom(es, k, depth) + ("]" + rest), Prune(es[k], depth - 1), others);
    PrunedElementsFrom(es, k, depth);
  }
}
