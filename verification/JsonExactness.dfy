/**
 The other half of the round trip: a text that reads back as its tree is that of a clean tree. A reader needs two
 characters for each one that must be escaped; the printer writes one for a backslash or a control character.
 */
module JsonExactness {
  import opened Options
  import opened JsonText
  import opened JsonRoundTrip

  // ---------- what a reader needs at least ----------

  function Cost(s: Text): nat {
    if s == "" then 0 else (if s[0] == '"' || Unsafe(s[0]) then 2 else 1) + Cost(s[1..])
  }

  /** The least length of a text for a tree down to a depth. */
  function Need(j: Json, depth: nat): nat
    decreases depth, 1, 0
  {
    match j
    case Object(ms) => if depth == 0 || ms == [] then 2 else 1 + NeedMembers(ms, depth)
    case Array(es) => if depth == 0 || es == [] then 2 else 1 + NeedElements(es, depth)
    case Str(s) => 2 + Cost(s)
    case Decimal(t) => if IsDecimal(t) then |t| else |t| + 1 // more than is written: it is never read
    case _ => |Scalar(j)|
  }

  /** With a comma or the closing brace behind each member. */
  function NeedMembers(ms: seq<Member>, depth: nat): nat
    requires 0 < depth
    decreases depth, 0, |ms|
  {
    if ms == [] then 0 else 4 + Cost(ms[0].name) + Need(ms[0].value, depth - 1) + NeedMembers(ms[1..], depth)
  }

  function NeedElements(es: seq<Json>, depth: nat): nat
    requires 0 < depth
    decreases depth, 0, |es|
  {
    if es == [] then 0 else 1 + Need(es[0], depth - 1) + NeedElements(es[1..], depth)
  }

  lemma {:induction false} CharsNeed(s: Text)
    ensures ReadChars(s).Read? ==> Cost(ReadChars(s).value) + 1 + |ReadChars(s).rest| <= |s|
    decreases |s|
  {
    if ReadChars(s).Read? && s[0] != '"' {
      if s[0] == '\\' {
        CharsNeed(s[2..]);
      } else {
        CharsNeed(s[1..]);
      }
    }
  }

  lemma {:induction false} ValueNeeds(t: Text)
    requires t != "" && forall k :: 0 <= k < |t| ==> IsDigit(t[k])
    ensures |Digits(Value(t))| <= |t|
    decreases |t|
  {
    var front, last := t[..|t| - 1], t[|t| - 1];
    assert IsDigit(last);
    if front != "" {
      ValueNeeds(front);
      assert Value(t) / 10 == Value(front);
    }
  }

  lemma NatNeeds(s: Text)
    ensures ReadNat(s).Read? ==> |Digits(ReadNat(s).value)| + |ReadNat(s).rest| <= |s|
  {
    if ReadNat(s).Read? {
      DigitRunIsDigits(s);
      var n := if s[0] == '0' then 1 else DigitRun(s);
      ValueNeeds(s[..n]);
    }
  }

  lemma IntegerNeeds(s: Text)
    ensures ReadInteger(s).Read? ==> |Signed(ReadInteger(s).value)| + |ReadInteger(s).rest| <= |s|
  {
    if s != "" && s[0] == '-' {
      NatNeeds(s[1..]);
    } else {
      NatNeeds(s);
    }
    DigitsRead(0);
  }

  lemma DecimalNeeds(s: Text)
    ensures var r := ReadDecimal(s); r.Read? ==> IsDecimal(r.value) && |r.value| + |r.rest| == |s|
  {
    var r := ReadDecimal(s);
    if r.Read? {
      assert r.value + r.rest == s && r.value != "";
      DecimalAlone(r.value, r.rest);
    }
  }

  lemma ScalarNeeds(s: Text, depth: nat)
    requires s != ""
    ensures ReadScalar(s).Read? ==> Need(ReadScalar(s).value, depth) + |ReadScalar(s).rest| <= |s|
  {
    if s[0] == '"' {
      CharsNeed(s[1..]);
    } else {
      IntegerNeeds(s);
      DecimalNeeds(s);
    }
  }

  lemma {:induction false} ReadNeeds(s: Text, depth: nat)
    ensures ReadValue(s).Read? ==> Need(ReadValue(s).value, depth) + |ReadValue(s).rest| <= |s|
    decreases |s|, 2
  {
    var t := Skip(s);
    if t != "" {
      if t[0] == '{' || t[0] == '[' {
        var inside := Skip(t[1..]);
        if 0 < depth {
          MembersNeed(inside, depth);
          ElementsNeed(inside, depth);
        }
      } else {
        ScalarNeeds(t, depth);
      }
    }
  }

  lemma NameNeeds(s: Text)
    ensures ReadName(s).Read? ==> 3 + Cost(ReadName(s).value) + |ReadName(s).rest| <= |s|
  {
    if ReadName(s).Read? {
      CharsNeed(Skip(s)[1..]);
    }
  }

  lemma OneMemberNeeds(m: Member, depth: nat)
    requires 0 < depth
    ensures NeedMembers([m], depth) == 4 + Cost(m.name) + Need(m.value, depth - 1)
  {
    assert [m][1..] == [] && NeedMembers([], depth) == 0;
  }

  predicate MembersFit(r: Read<seq<Member>>, s: Text, depth: nat)
    requires 0 < depth
  {
    r.Read? ==> r.value != [] && NeedMembers(r.value, depth) + |r.rest| <= |s|
  }

  lemma MoreMembersFit(m: Member, more: Read<seq<Member>>, s: Text, t: Text, depth: nat)
    requires 0 < depth && more.Read? && MembersFit(more, t, depth) && 4 + Cost(m.name) + Need(m.value, depth - 1) + |t| <= |s|
    ensures MembersFit(Read([m] + more.value, more.rest), s, depth)
  {
    OneMemberNeeds(m, depth);
    MoreMembersNeed(m, more.value, depth);
  }

  lemma MoreMembersNeed(m: Member, more: seq<Member>, depth: nat)
    requires 0 < depth && more != []
    ensures NeedMembers([m] + more, depth) == NeedMembers([m], depth) + NeedMembers(more, depth)
  {
    assert ([m] + more)[1..] == more;
  }

  lemma {:induction false} MembersNeed(s: Text, depth: nat)
    requires 0 < depth
    ensures MembersFit(ReadMembers(s), s, depth)
    decreases |s|, 3
  {
    if ReadMembers(s).Read? {
      var name := ReadName(s);
      NameNeeds(s);
      var value := ReadValue(name.rest);
      ReadNeeds(name.rest, depth - 1);
      var after := Skip(value.rest);
      var m := Member(name.value, value.value);
      if after[0] == ',' {
        MembersNeed(after[1..], depth);
        var more := ReadMembers(after[1..]);
        MoreMembersFit(m, more, s, after[1..], depth);
        assert ReadMembers(s) == Read([m] + more.value, more.rest);
      } else {
        OneMemberNeeds(m, depth);
        assert ReadMembers(s) == Read([m], after[1..]);
      }
    }
  }

  lemma {:induction false} ElementsNeed(s: Text, depth: nat)
    requires 0 < depth
    ensures ReadElements(s).Read? ==>
              ReadElements(s).value != [] && NeedElements(ReadElements(s).value, depth) + |ReadElements(s).rest| <= |s|
    decreases |s|, 3
  {
    if ReadElements(s).Read? {
      var value := ReadValue(s);
      ReadNeeds(s, depth - 1);
      var after := Skip(value.rest);
      if after[0] == ',' {
        var more := ReadElements(after[1..]);
        ElementsNeed(after[1..], depth);
        assert ([value.value] + more.value)[1..] == more.value;
      }
    }
  }

  // ---------- what the printer writes ----------

  lemma {:induction false} EscapedLength(s: Text)
    ensures |Escaped(s)| <= Cost(s) && (|Escaped(s)| == Cost(s) ==> CleanText(s))
    decreases |s|
  {
    if s != "" {
      EscapedLength(s[1..]);
      if CleanText(s[1..]) && !Unsafe(s[0]) {
        forall k | 0 <= k < |s| ensures !Unsafe(s[k]) {
          assert k > 0 ==> s[k] == s[1..][k - 1];
        }
      }
    }
  }

  /** The printer writes as much as a reader needs only if everything is clean. */
  lemma {:induction false} PrintLength(j: Json, depth: nat)
    ensures |Print(j, depth)| <= Need(j, depth) && (|Print(j, depth)| == Need(j, depth) ==> Clean(j, depth))
    decreases depth, 1, 0
  {
    match j
    case Object(ms) =>
      if 0 < depth && ms != [] {
        MembersLength(ms, 0, depth);
        assert ms[0..] == ms;
      }
    case Array(es) =>
      if 0 < depth && es != [] {
        ElementsLength(es, 0, depth);
        assert es[0..] == es;
      }
    case Str(s) => EscapedLength(s);
    case _ =>
  }

  lemma {:induction false} MembersLength(ms: seq<Member>, k: nat, depth: nat)
    requires 0 < depth && k < |ms|
    ensures |MembersFrom(ms, k, depth)| + 1 <= NeedMembers(ms[k..], depth)
    ensures |MembersFrom(ms, k, depth)| + 1 == NeedMembers(ms[k..], depth) ==>
              forall i :: k <= i < |ms| ==> CleanText(ms[i].name) && Clean(ms[i].value, depth - 1)
    decreases depth, 0, |ms| - k
  {
    EscapedLength(ms[k].name);
    PrintLength(ms[k].value, depth - 1);
    assert ms[k..][1..] == ms[k + 1..];
    if k + 1 < |ms| {
      MembersLength(ms, k + 1, depth);
    }
  }

  lemma {:induction false} ElementsLength(es: seq<Json>, k: nat, depth: nat)
    requires 0 < depth && k < |es|
    ensures |ElementsFrom(es, k, depth)| + 1 <= NeedElements(es[k..], depth)
    ensures |ElementsFrom(es, k, depth)| + 1 == NeedElements(es[k..], depth) ==> forall i :: k <= i < |es| ==> Clean(es[i], depth - 1)
    decreases depth, 0, |es| - k
  {
    PrintLength(es[k], depth - 1);
    assert es[k..][1..] == es[k + 1..];
    if k + 1 < |es| {
      ElementsLength(es, k + 1, depth);
    }
  }

  lemma {:induction false} PrunedNeeds(j: Json, depth: nat)
    ensures Need(Prune(j, depth), depth) == Need(j, depth)
    decreases depth, 1, 0
  {
    match j
    case Object(ms) =>
      if 0 < depth && ms != [] {
        MembersPruned(ms, 0, depth);
        assert ms[0..] == ms && PrunedMembers(ms, depth)[0..] == PrunedMembers(ms, depth);
      }
    case Array(es) =>
      if 0 < depth && es != [] {
        ElementsPruned(es, 0, depth);
        assert es[0..] == es && PrunedElements(es, depth)[0..] == PrunedElements(es, depth);
      }
    case _ =>
  }

  lemma {:induction false} MembersPruned(ms: seq<Member>, k: nat, depth: nat)
    requires 0 < depth && k <= |ms|
    ensures k <= |PrunedMembers(ms, depth)| && NeedMembers(PrunedMembers(ms, depth)[k..], depth) == NeedMembers(ms[k..], depth)
    decreases depth, 0, |ms| - k
  {
    if k < |ms| {
      PrunedMembersFrom(ms, k, depth);
      PrunedNeeds(ms[k].value, depth - 1);
      MembersPruned(ms, k + 1, depth);
      assert ms[k..][1..] == ms[k + 1..] && PrunedMembers(ms, depth)[k..][1..] == PrunedMembers(ms, depth)[k + 1..];
    }
  }

  lemma {:induction false} ElementsPruned(es: seq<Json>, k: nat, depth: nat)
    requires 0 < depth && k <= |es|
    ensures k <= |PrunedElements(es, depth)| && NeedElements(PrunedElements(es, depth)[k..], depth) == NeedElements(es[k..], depth)
    decreases depth, 0, |es| - k
  {
    if k < |es| {
      PrunedElementsFrom(es, k, depth);
      PrunedNeeds(es[k], depth - 1);
      ElementsPruned(es, k + 1, depth);
      assert es[k..][1..] == es[k + 1..] && PrunedElements(es, depth)[k..][1..] == PrunedElements(es, depth)[k + 1..];
    }
  }

  /** Any tree reads back, pruned at the depth sent, exactly if no string sent has a backslash or a control character
      and no decimal sent is without a number, as the ones of infinities are. */
  lemma ReadsBackIff(j: Json, depth: nat)
    ensures ReadValue(Print(j, depth)) == Read(Prune(j, depth), "") <==> Clean(j, depth)
  {
    assert Print(j, depth) + "" == Print(j, depth);
    if Clean(j, depth) {
      RoundTrip(j, depth, "");
    }
    if ReadValue(Print(j, depth)) == Read(Prune(j, depth), "") {
      ReadNeeds(Print(j, depth), depth);
      PrunedNeeds(j, depth);
      PrintLength(j, depth);
    }
  }

  /** A single backslash is sent as one that takes the closing quotation mark with it. */
  lemma BackslashIsLost(depth: nat)
    ensures Print(Str("\\"), depth) == "\"\\\"" && ReadValue(Print(Str("\\"), depth)).Fail?
  {
    var text := "\"\\\"";
    assert Escaped("\\") == "\\" && Print(Str("\\"), depth) == text;
    assert text[1..] == ['\\', '"'] && text[1..][2..] == "";
  }
}
