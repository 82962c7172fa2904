/** The tokens that a run of the automaton finds, and which of them the source can read. */
module HttpTokens {
  import opened HttpParser
  import opened HttpMachine
  import opened HttpRefinement
  import opened HttpProtocol

  /** All that the source keeps of a token's text in its input when it pops the token. */
  function KeptOf(t: Bytes): Bytes
    requires WIDTH <= |t| + 1
  {
    t[(|t| + 1) % WIDTH..]
  }

  predicate AllBlank(s: Bytes) {
    forall i :: 0 <= i < |s| ==> IsSpace(s[i])
  }

  /** What is asked of tokens: that their pops are not cut, or that the source reads them right all the same. */
  datatype Standard = Fits | Reads

  /** A method or URI is read right, too, if all that is kept of it is skipped as blanks. */
  predicate Passes(standard: Standard, s: State, t: Bytes) {
    |t| + 1 < WIDTH || (standard.Reads? && (s.Method? || s.Uri?) && AllBlank(KeptOf(t)))
  }

  /** Every token that a run finds passes. */
  predicate TokensPass(standard: Standard, p: Parser, w: Bytes, atoi: Atoi)
    decreases |w|, if p.status.Running? then 1 else 0
  {
    w == [] || !p.status.Running?
    || (!(Scanning(p.state) && w[0] == Success(p.state) && !Passes(standard, p.state, p.token))
        && var (q, v) := Step(p, w, atoi); TokensPass(standard, q, v, atoi))
  }

  /** As long as there are fewer than 65536 bytes, all tokens pass. */
  lemma {:induction false} SmallPasses(standard: Standard, p: Parser, w: Bytes, atoi: Atoi)
    requires |p.token| + |w| < WIDTH
    ensures TokensPass(standard, p, w, atoi)
    decreases |w|, if p.status.Running? then 1 else 0
  {
    if w != [] && p.status.Running? {
      SmallPasses(standard, Step(p, w, atoi).0, Step(p, w, atoi).1, atoi);
    }
  }

  /** A run on fewer than 65536 bytes is narrow exactly if its tokens fit. */
  lemma {:induction false} FitsIsNarrow(p: Parser, w: Bytes, atoi: Atoi)
    requires |w| < WIDTH
    ensures Narrow(p, w, atoi) <==> TokensPass(Fits, p, w, atoi)
    decreases |w|, if p.status.Running? then 1 else 0
  {
    if w != [] && p.status.Running? {
      FitsIsNarrow(Step(p, w, atoi).0, Step(p, w, atoi).1, atoi);
    }
  }

  lemma {:induction false} PassSplit(standard: Standard, p: Parser, a: Bytes, b: Bytes, atoi: Atoi)
    ensures TokensPass(standard, p, a + b, atoi) <==>
            TokensPass(standard, p, a, atoi) && (Run(p, a, atoi).0.status.Running? ==> TokensPass(standard, Run(p, a, atoi).0, b, atoi))
    decreases |a|, if p.status.Running? then 1 else 0
  {
    if a == [] {
      assert a + b == b;
    } else if p.status.Running? {
      var (q, v) := Step(p, a, atoi);
      assert (a + b)[1..] == a[1..] + b && (a + b)[0] == a[0];
      assert Step(p, a + b, atoi) == (q, v + b);
      PassSplit(standard, q, v, b, atoi);
    }
  }

  predicate ChunksFit(chunks: seq<Bytes>) {
    forall i :: 0 <= i < |chunks| ==> 0 < |chunks[i]| < WIDTH
  }

  // ---------- requests written out ----------

  predicate FieldPasses(standard: Standard, f: Field) {
    Passes(standard, Key, f.name) && Passes(standard, Value, f.value)
  }

  predicate MessagePasses(standard: Standard, m: Message) {
    && Passes(standard, Method, m.verb) && Passes(standard, Uri, m.uri) && Passes(standard, Version, m.version)
    && FieldsPass(standard, m.fields)
  }

  predicate FieldsPass(standard: Standard, fields: seq<Field>) {
    forall i :: 0 <= i < |fields| ==> FieldPasses(standard, fields[i])
  }

  lemma FieldsPassFrom(standard: Standard, fields: seq<Field>)
    requires fields != []
    ensures FieldsPass(standard, fields) <==> FieldPasses(standard, fields[0]) && FieldsPass(standard, fields[1..])
  {
    assert fields == [fields[0]] + fields[1..];
  }

  lemma {:induction false} PassScan(standard: Standard, p: Parser, s: Bytes, i: nat, j: nat, atoi: Atoi)
    requires i <= j <= |s| && p.status.Running? && Scanning(p.state)
    requires forall k :: i <= k < j ==> s[k] != Success(p.state) && s[k] != HttpParser.Fail(p.state)
    ensures TokensPass(standard, p, s[i..], atoi) == TokensPass(standard, p.(token := p.token + s[i..j]), s[j..], atoi)
    decreases j - i
  {
    if i == j {
      assert p.token + s[i..j] == p.token;
    } else {
      var q := p.(token := p.token + [s[i]]);
      assert Step(p, s[i..], atoi) == (q, s[i + 1..]);
      PassScan(standard, q, s, i + 1, j, atoi);
      assert q.token + s[i + 1..j] == p.token + s[i..j];
    }
  }

  lemma PassFallsThrough(standard: Standard, p: Parser, w: Bytes, atoi: Atoi)
    requires p.status.Running? && SkipsSpaces(p.state) && w != [] && !IsSpace(w[0]) && p.token == []
    requires !(p.state.PreKey? && w[0] == '\r')
    ensures TokensPass(standard, p, w, atoi) == TokensPass(standard, p.(state := AfterSpaces(p.state)), w, atoi)
  {
  }

  lemma PassToken(standard: Standard, p: Parser, t: Bytes, delimiter: Bytes, rest: Bytes, atoi: Atoi)
    requires p.status.Running? && SkipsSpaces(p.state) && p.token == []
    requires var s := AfterSpaces(p.state); Free(t, Success(s), HttpParser.Fail(s)) && delimiter == [Success(s)]
    requires !IsSpace((t + delimiter)[0])
    ensures TokensPass(standard, p, t + delimiter + rest, atoi) <==>
            Passes(standard, AfterSpaces(p.state), t) && TokensPass(standard, TakeToken(p.(state := AfterSpaces(p.state), token := t), atoi), rest, atoi)
  {
    var w := t + delimiter + rest;
    var q := p.(state := AfterSpaces(p.state));
    assert w[0] == (t + delimiter)[0];
    PassFallsThrough(standard, p, w, atoi);
    assert w[0..] == w && w[0..|t|] == t && q.token + t == t;
    PassScan(standard, q, w, 0, |t|, atoi);
    assert w[|t|..][0] == Success(q.state) && w[|t|..][1..] == rest;
  }

  lemma PassLastToken(standard: Standard, p: Parser, t: Bytes, rest: Bytes, atoi: Atoi)
    requires p.status.Running? && (p.state.PreVersion? || p.state.PreValue?) && p.token == []
    requires Free(t, '\r', HttpParser.Fail(AfterSpaces(p.state))) && NoLeadingSpace(t)
    requires ExpectsNewline(TakeToken(p.(state := AfterSpaces(p.state), token := t), atoi).state)
    ensures TokensPass(standard, p, t + "\r\n" + rest, atoi) <==>
            Passes(standard, AfterSpaces(p.state), t) && TokensPass(standard, HttpParser.Newline(TakeToken(p.(state := AfterSpaces(p.state), token := t), atoi)), rest, atoi)
  {
    assert t + "\r\n" + rest == t + "\r" + ("\n" + rest);
    PassToken(standard, p, t, "\r", "\n" + rest, atoi);
    PassEol(standard, TakeToken(p.(state := AfterSpaces(p.state), token := t), atoi), rest, atoi);
  }

  lemma PassEol(standard: Standard, p: Parser, rest: Bytes, atoi: Atoi)
    requires p.status.Running? && ExpectsNewline(p.state)
    ensures TokensPass(standard, p, "\n" + rest, atoi) == TokensPass(standard, HttpParser.Newline(p), rest, atoi)
  {
    assert ("\n" + rest)[1..] == rest;
  }

  lemma PassField(standard: Standard, p: Parser, f: Field, rest: Bytes, atoi: Atoi)
    requires p.status.Running? && p.state.PreKey? && p.token == [] && FieldOk(f)
    ensures TokensPass(standard, p, f.name + ":" + (f.value + "\r\n" + rest), atoi) <==> FieldPasses(standard, f) && TokensPass(standard, TakeField(p, f, atoi), rest, atoi)
  {
    PassToken(standard, p, f.name, ":", f.value + "\r\n" + rest, atoi);
    var q := p.(state := PreValue, methodName := f.name);
    PassLastToken(standard, q, f.value, rest, atoi);
    var r := TakeField(p, f, atoi).(state := HeaderEol);
    assert TakeToken(q.(state := Value, token := f.value), atoi) == r;
    assert HttpParser.Newline(r) == TakeField(p, f, atoi);
  }

  lemma {:induction false} PassFields(standard: Standard, p: Parser, fields: seq<Field>, rest: Bytes, atoi: Atoi)
    requires p.status.Running? && p.state.PreKey? && p.token == []
    requires forall i :: 0 <= i < |fields| ==> FieldOk(fields[i])
    ensures TokensPass(standard, p, FieldsText(fields) + rest, atoi) <==>
            FieldsPass(standard, fields) && TokensPass(standard, TakeFields(p, fields, atoi), rest, atoi)
    decreases |fields|
  {
    if fields == [] {
      assert FieldsText(fields) + rest == rest;
    } else {
      var f, after := fields[0], FieldsText(fields[1..]) + rest;
      assert FieldsText(fields) + rest == f.name + ":" + (f.value + "\r\n" + after);
      PassField(standard, p, f, after, atoi);
      PassFields(standard, TakeField(p, f, atoi), fields[1..], rest, atoi);
      FieldsPassFrom(standard, fields);
    }
  }

  lemma {:induction false} PassBody(standard: Standard, p: Parser, w: Bytes, atoi: Atoi)
    requires p.status.Running? ==> p.state.Data?
    ensures TokensPass(standard, p, w, atoi)
    decreases |w|
  {
    if w != [] && p.status.Running? {
      PassBody(standard, Step(p, w, atoi).0, w[1..], atoi);
    }
  }

  /** The empty line and the body hold no tokens. */
  lemma PassTail(standard: Standard, p: Parser, body: Bytes, atoi: Atoi)
    requires p.status.Running? && p.state.PreKey? && p.token == [] && p.dataLeft == |body|
    ensures TokensPass(standard, p, "\r\n" + body, atoi)
  {
    var q := p.(state := HeadersEndEol);
    assert ("\r\n" + body)[1..] == "\n" + body && ("\n" + body)[1..] == body;
    PassBody(standard, HttpParser.Newline(q), body, atoi);
  }

  lemma PassLine(standard: Standard, p: Parser, m: Message, rest: Bytes, atoi: Atoi)
    requires p.status.Running? && p.state.PreMethod? && p.token == [] && WellFormed(m, atoi)
    ensures TokensPass(standard, p, m.verb + " " + (m.uri + " " + (m.version + "\r\n" + rest)), atoi) <==>
            Passes(standard, Method, m.verb) && Passes(standard, Uri, m.uri) && Passes(standard, Version, m.version)
            && TokensPass(standard, TakeLine(p, m), rest, atoi)
  {
    var w2 := m.version + "\r\n" + rest;
    PassToken(standard, p, m.verb, " ", m.uri + " " + w2, atoi);
    var q := p.(state := PreUri, methodName := m.verb);
    PassToken(standard, q, m.uri, " ", w2, atoi);
    var r := q.(state := PreVersion, uri := m.uri);
    PassLastToken(standard, r, m.version, rest, atoi);
  }

  lemma PassMessage(standard: Standard, m: Message, atoi: Atoi)
    requires WellFormed(m, atoi)
    ensures TokensPass(standard, INITIAL, Text(m), atoi) <==> MessagePasses(standard, m)
  {
    var end := "\r\n" + m.body;
    var p := TakeLine(INITIAL, m);
    PassLine(standard, INITIAL, m, FieldsText(m.fields) + end, atoi);
    PassFields(standard, p, m.fields, end, atoi);
    TakeFieldsMeaning(p, m.fields, atoi);
    PassTail(standard, TakeFields(p, m.fields, atoi), m.body, atoi);
    assert Text(m) == m.verb + " " + (m.uri + " " + (m.version + "\r\n" + (FieldsText(m.fields) + end)));
  }
}
