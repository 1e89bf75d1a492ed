/** Every policy the browser can encrypt reaches the enclave as itself. */
module PolicyRoundTrip {
  import opened Numbers
  import opened PolicyEnvelope
  import O = OrderBook

  // ----- reading back what was written

  predicate AllPlain(s: string) {
    forall i :: 0 <= i < |s| ==> Plain(s[i])
  }

  /** A value whose text is read back as itself. */
  predicate Writable(v: Json) {
    match v
    case JString(s) => AllPlain(s)
    case JNumber(d) => d != "" && AllDigits(d) && (d[0] == '0' ==> |d| == 1)
    case _ => true
  }

  ghost predicate AllWritable(ms: seq<Member>) {
    forall i :: 0 <= i < |ms| ==> AllPlain(ms[i].key) && Writable(ms[i].value)
  }

  lemma {:induction false} ReadPlainText(text: string, rest: string)
    requires AllPlain(text)
    ensures ReadChars(text + ("\"" + rest)) == Some((text, rest))
    decreases |text|
  {
    var s := text + ("\"" + rest);
    if text == "" {
      assert s == "\"" + rest && s[1..] == rest;
    } else {
      assert s[1..] == text[1..] + ("\"" + rest) && [text[0]] + text[1..] == text;
      ReadPlainText(text[1..], rest);
    }
  }

  lemma {:induction false} TakeDigitsText(digits: string, rest: string)
    requires AllDigits(digits) && rest != "" && !Digit(rest[0])
    ensures TakeDigits(digits + rest) == (digits, rest)
    decreases |digits|
  {
    if digits == "" {
      assert digits + rest == rest;
    } else {
      assert (digits + rest)[1..] == digits[1..] + rest && [digits[0]] + digits[1..] == digits;
      TakeDigitsText(digits[1..], rest);
    }
  }

  lemma ReadQuoted(text: string, rest: string)
    requires AllPlain(text)
    ensures ReadString(Quoted(text) + rest) == Some((text, rest))
  {
    assert (Quoted(text) + rest)[1..] == text + ("\"" + rest);
    ReadPlainText(text, rest);
  }

  // ----- escaped characters

  function HexChar(n: nat): char
    requires n < 16
  {
    if n < 10 then (n + '0' as int) as char else (n - 10 + 'a' as int) as char
  }

  function Hex(u: nat): (s: string)
    requires u < 0x1_0000
    ensures |s| == 4
  {
    var h := u / 16;
    var g := h / 16;
    [HexChar(g / 16), HexChar(g % 16), HexChar(h % 16), HexChar(u % 16)]
  }

  lemma HexCharReadsBack(n: nat)
    requires n < 16
    ensures HexDigit(HexChar(n)) == Some(n)
  {
  }

  lemma HexReadsBack(u: nat, rest: string)
    requires u < 0x1_0000
    ensures Hex4(Hex(u) + rest) == Some(u) && (Hex(u) + rest)[4..] == rest
  {
    var h := u / 16;
    var g := h / 16;
    HexCharReadsBack(g / 16);
    HexCharReadsBack(g % 16);
    HexCharReadsBack(h % 16);
    HexCharReadsBack(u % 16);
    assert (Hex(u) + rest)[..4] == Hex(u);
  }

  function Pair(high: nat, low: nat): string
    requires 0xD800 <= high < 0xDC00 <= low < 0xE000
  {
    Hex(high) + ("\\u" + Hex(low))
  }

  lemma PairReadsBack(high: nat, low: nat, rest: string)
    requires 0xD800 <= high < 0xDC00 <= low < 0xE000
    ensures ReadUnicode(Pair(high, low) + rest) == Some(((0x1_0000 + (high - 0xD800) * 0x400 + (low - 0xDC00)) as char, rest))
  {
    var tail := "\\u" + (Hex(low) + rest);
    var s := Pair(high, low) + rest;
    assert s == Hex(high) + tail;
    HexReadsBack(high, tail);
    HexReadsBack(low, rest);
    assert tail[2..] == Hex(low) + rest;
    assert s[10..] == rest;
  }

  function High(u: nat): (h: nat)
    requires 0x1_0000 <= u < 0x11_0000
    ensures 0xD800 <= h < 0xDC00
  {
    0xD800 + (u - 0x1_0000) / 0x400
  }

  function Low(u: nat): (l: nat)
    requires 0x1_0000 <= u < 0x11_0000
    ensures 0xDC00 <= l < 0xE000
  {
    0xDC00 + (u - 0x1_0000) % 0x400
  }

  /** The escape of a character, behind its backslash: four digits, or a pair. */
  function Escape(c: char): string {
    "u" + if c as int < 0x1_0000 then Hex(c as int) else Pair(High(c as int), Low(c as int))
  }

  lemma UnicodeEscapeIs(body: string)
    ensures ReadEscape("u" + body) == ReadUnicode(body)
  {
    assert ("u" + body)[1..] == body;
  }

  lemma WideReadsBack(u: nat, rest: string)
    requires 0x1_0000 <= u < 0x11_0000
    ensures ReadUnicode(Pair(High(u), Low(u)) + rest) == Some((u as char, rest))
  {
    PairReadsBack(High(u), Low(u), rest);
    assert 0x1_0000 + (High(u) - 0xD800) * 0x400 + (Low(u) - 0xDC00) == u;
  }

  /** Every character, keys and digits included, may be written as its escape. */
  lemma EscapeReadsBack(c: char, rest: string)
    ensures ReadEscape(Escape(c) + rest) == Some((c, rest))
  {
    var body := if c as int < 0x1_0000 then Hex(c as int) else Pair(High(c as int), Low(c as int));
    assert Escape(c) + rest == "u" + (body + rest);
    UnicodeEscapeIs(body + rest);
    if c as int < 0x1_0000 {
      HexReadsBack(c as int, rest);
    } else {
      WideReadsBack(c as int, rest);
    }
  }

  /** What may follow a value: a comma or the closing brace. */
  predicate Closes(rest: string) {
    rest != "" && (rest[0] == ',' || rest[0] == '}')
  }

  lemma ReadValueText(v: Json, rest: string)
    requires Writable(v) && Closes(rest)
    ensures ReadJson(TextOf(v) + rest) == Some((v, rest))
  {
    var s := TextOf(v) + rest;
    match v
    case JString(text) =>
      ReadQuoted(text, rest);
      assert s[0] == '"';
    case JNumber(digits) =>
      TakeDigitsText(digits, rest);
      assert s[0] == digits[0];
    case JNull =>
      assert s[..4] == "null" && s[4..] == rest && s[0] == 'n';
    case JBool(b) =>
      assert b ==> s[..4] == "true" && s[4..] == rest && s[0] == 't';
      assert !b ==> s[..5] == "false" && s[5..] == rest && s[0] == 'f';
  }

  lemma NoSpace(s: string)
    requires s != "" && !Space(s[0])
    ensures SkipSpace(s) == s
  {
  }

  lemma ValueStart(v: Json, rest: string)
    requires Writable(v)
    ensures TextOf(v) + rest != "" && !Space((TextOf(v) + rest)[0])
  {
    assert v.JNumber? ==> Digit(v.digits[0]);
  }

  lemma ReadMemberText(m: Member, rest: string)
    requires AllPlain(m.key) && Writable(m.value) && Closes(rest)
    ensures ReadMember(MemberText(m) + rest) == Some((m, rest))
  {
    var text := TextOf(m.value) + rest;
    assert MemberText(m) + rest == Quoted(m.key) + (":" + text);
    ReadQuoted(m.key, ":" + text);
    NoSpace(":" + text);
    assert (":" + text)[1..] == text;
    ValueStart(m.value, rest);
    NoSpace(text);
    ReadValueText(m.value, rest);
  }

  lemma MembersStart(ms: seq<Member>, rest: string)
    ensures Closes(MembersText(ms) + rest)
  {
  }

  lemma ReadMembersStep(text: string, first: bool, m: Member, after: string, more: seq<Member>, rest: string)
    requires text != "" && text[0] == '"'
    requires ReadMember(text) == Some((m, after)) && ReadMembers(after, false) == Some((more, rest))
    ensures ReadMembers(if first then text else "," + text, first) == Some(([m] + more, rest))
  {
    NoSpace(text);
    NoSpace("," + text);
    assert ("," + text)[1..] == text;
  }

  lemma MemberFirst(m: Member, after: string)
    ensures MemberText(m) + after != "" && (MemberText(m) + after)[0] == '"'
  {
  }

  lemma {:induction false} ReadMembersText(ms: seq<Member>, rest: string)
    requires AllWritable(ms)
    ensures ReadMembers(MembersText(ms) + rest, false) == Some((ms, rest))
    decreases |ms|
  {
    if ms == [] {
      NoSpace("}" + rest);
      assert ("}" + rest)[1..] == rest;
    } else {
      ReadMembersText(ms[1..], rest);
      ReadFront(ms, rest, false);
      MembersTextFront(ms, rest);
    }
  }

  lemma MembersTextFront(ms: seq<Member>, rest: string)
    requires ms != []
    ensures MembersText(ms) + rest == "," + (MemberText(ms[0]) + (MembersText(ms[1..]) + rest))
  {
  }

  /** The front member, when the members behind it are read back. */
  lemma ReadFront(ms: seq<Member>, rest: string, first: bool)
    requires AllWritable(ms) && ms != []
    requires ReadMembers(MembersText(ms[1..]) + rest, false) == Some((ms[1..], rest))
    ensures var text := MemberText(ms[0]) + (MembersText(ms[1..]) + rest);
      ReadMembers(if first then text else "," + text, first) == Some((ms, rest))
  {
    var after := MembersText(ms[1..]) + rest;
    MembersStart(ms[1..], rest);
    ReadMemberText(ms[0], after);
    MemberFirst(ms[0], after);
    ReadMembersStep(MemberText(ms[0]) + after, first, ms[0], after, ms[1..], rest);
    assert [ms[0]] + ms[1..] == ms;
  }

  lemma {:induction false} OnlySpaces(n: nat)
    ensures SkipSpace(Spaces(n)) == ""
  {
    if n > 0 {
      assert Spaces(n)[1..] == Spaces(n - 1);
      OnlySpaces(n - 1);
    }
  }

  lemma ReadBraced(body: string, ms: seq<Member>, after: string)
    requires ReadMembers(body, true) == Some((ms, after)) && SkipSpace(after) == ""
    ensures ReadObject("{" + body) == Some(ms)
  {
    NoSpace("{" + body);
    assert ("{" + body)[1..] == body;
  }

  lemma NonEmptyRoundTrip(ms: seq<Member>, n: nat)
    requires AllWritable(ms) && ms != []
    ensures ReadObject(Stringify(ms) + Spaces(n)) == Some(ms)
  {
    var body := MemberText(ms[0]) + (MembersText(ms[1..]) + Spaces(n));
    ReadMembersText(ms[1..], Spaces(n));
    ReadFront(ms, Spaces(n), true);
    OnlySpaces(n);
    ReadBraced(body, ms, Spaces(n));
    StringifyFront(ms, Spaces(n));
  }

  lemma StringifyFront(ms: seq<Member>, rest: string)
    requires ms != []
    ensures Stringify(ms) + rest == "{" + (MemberText(ms[0]) + (MembersText(ms[1..]) + rest))
  {
  }

  /** Any flat object, stringified and padded, is read back as itself. */
  lemma ObjectRoundTrip(ms: seq<Member>, n: nat)
    requires AllWritable(ms)
    ensures ReadObject(Stringify(ms) + Spaces(n)) == Some(ms)
  {
    if ms == [] {
      OnlySpaces(n);
      NoSpace("}" + Spaces(n));
      assert ("}" + Spaces(n))[1..] == Spaces(n);
      ReadBraced("}" + Spaces(n), ms, Spaces(n));
      assert Stringify(ms) + Spaces(n) == "{" + ("}" + Spaces(n));
    } else {
      NonEmptyRoundTrip(ms, n);
    }
  }

  // ----- decimal numbers

  lemma {:induction false} DigitsAtLeast(s: string)
    requires s != "" && AllDigits(s) && s[0] != '0'
    ensures DigitsValue(s) >= Pow(10, |s| - 1)
  {
    if |s| == 1 {
      assert DigitsValue(s[..0]) == 0;
    } else {
      DigitsAtLeast(s[..|s| - 1]);
    }
  }

  /** A uint256 without leading zeros has at most 78 digits. */
  lemma Uint256Digits(price: string)
    requires FixedGuard(price)
    ensures |price| <= 78
  {
    DigitsAtLeast(price);
    PowersOfTen();
    if |price| > 78 {
      PowMonotone(10, 78, |price| - 1);
    }
  }

  lemma {:induction false} DecimalRoundTrip(n: nat)
    ensures Decimal(n) != "" && AllDigits(Decimal(n)) && DigitsValue(Decimal(n)) == n
    ensures n > 0 ==> Decimal(n)[0] != '0'
    ensures n == 0 ==> |Decimal(n)| == 1
    ensures forall k: nat :: 0 < k && n < Pow(10, k) ==> |Decimal(n)| <= k
  {
    if n < 10 {
      assert Decimal(n)[..0] == "";
    } else {
      DecimalRoundTrip(n / 10);
      assert Decimal(n)[..|Decimal(n)| - 1] == Decimal(n / 10);
      forall k: nat | 0 < k && n < Pow(10, k) ensures |Decimal(n)| <= k {
        assert Pow(10, 1) == 10 * Pow(10, 0) == 10;
        assert n / 10 < Pow(10, k - 1);
      }
    }
  }

  // ----- the two policies

  lemma TwoMembersLength(m: Member, n: Member)
    ensures |Stringify([m, n])| == 3 + |MemberText(m)| + |MemberText(n)|
  {
    var ms := [m, n];
    assert ms[1..] == [n] && [n][1..] == [];
    assert MembersText([n]) == "," + MemberText(n) + MembersText([]);
  }

  lemma TwoMembers(ms: seq<Member>)
    requires |ms| == 2 && ms[0].key == "strategy" && ms[0].value.JString?
    requires ms[1].key == "triggerPrice" || ms[1].key == "trailBps"
    ensures KeysOk(ms)
    ensures DecodeMembers(ms) == SetField(Fields(ms[0].value.text, None, None), ms[1])
  {
    assert ms[..1][..0] == [] && ms[..1][0] == ms[0];
    assert DecodeMembers(ms[..1]) == SetField(Fields("", None, None), ms[0]);
  }

  /** Parsing what the browser made of two members. */
  lemma ParsePadded(ms: seq<Member>)
    requires AllWritable(ms) && KeysOk(ms) && |Stringify(ms)| <= POLICY_PLAINTEXT_BYTES
    ensures Padded(Stringify(ms)).Some? && |Padded(Stringify(ms)).value| == POLICY_PLAINTEXT_BYTES
    ensures DecodeMembers(ms).Some? ==> Parse(Padded(Stringify(ms)).value) == PolicyOf(DecodeMembers(ms).value)
  {
    ObjectRoundTrip(ms, POLICY_PLAINTEXT_BYTES - |Stringify(ms)|);
  }

  lemma FixedLength(price: string)
    requires FixedGuard(price)
    ensures |Stringify(FixedMembers(price))| <= POLICY_PLAINTEXT_BYTES
  {
    var ms := FixedMembers(price);
    Uint256Digits(price);
    TwoMembersLength(ms[0], ms[1]);
  }

  lemma FixedFields(price: string)
    requires FixedGuard(price)
    ensures var ms := FixedMembers(price);
      AllWritable(ms) && KeysOk(ms) && DecodeMembers(ms) == Some(Fields("fixed", Some(price), None))
  {
    TwoMembers(FixedMembers(price));
  }

  /** Every price string that passes the browser's guards fits the envelope - its
      overflow error cannot happen - and is parsed back to exactly its value. */
  lemma FixedRoundTrip(price: string)
    requires FixedGuard(price)
    ensures FixedPlaintext(price).Some? && |FixedPlaintext(price).value| == 128
    ensures Parse(FixedPlaintext(price).value) == Some(Fixed(DigitsValue(price)))
  {
    FixedLength(price);
    FixedFields(price);
    ParsePadded(FixedMembers(price));
    PositiveDigits(price);
  }

  lemma PositiveDigits(price: string)
    requires FixedGuard(price)
    ensures ParseInteger(price) == Some(DigitsValue(price)) && DigitsValue(price) > 0
  {
    DigitsAtLeast(price);
    PowPositive(10, |price| - 1);
  }

  /** Every trigger a vault order can have is some accepted price string's. */
  lemma EveryTriggerHasAPlaintext(trigger: nat)
    requires 0 < trigger < TWO_256
    ensures FixedPlaintext(Decimal(trigger)).Some?
    ensures Parse(FixedPlaintext(Decimal(trigger)).value) == Some(Fixed(trigger))
  {
    DecimalRoundTrip(trigger);
    FixedRoundTrip(Decimal(trigger));
  }

  lemma TrailingDigits(bps: nat)
    requires 25 <= bps <= 5000
    ensures var d := Decimal(bps);
      Writable(JNumber(d)) && DigitsValue(d) == bps && |d| <= 4
  {
    assert Pow(10, 4) == 10_000;
    DecimalRoundTrip(bps);
  }

  lemma TrailingLength(bps: nat)
    requires 25 <= bps <= 5000
    ensures |Stringify(TrailingMembers(bps))| <= POLICY_PLAINTEXT_BYTES
  {
    var ms := TrailingMembers(bps);
    TrailingDigits(bps);
    TwoMembersLength(ms[0], ms[1]);
  }

  lemma TrailingFields(bps: nat)
    requires 25 <= bps <= 5000
    ensures var ms := TrailingMembers(bps);
      AllWritable(ms) && KeysOk(ms) && DecodeMembers(ms) == Some(Fields("trailing", None, Some(bps)))
  {
    TrailingDigits(bps);
    TwoMembers(TrailingMembers(bps));
  }

  /** Every trailing distance the browser accepts is parsed back to itself, from a
      plaintext of the same length as a fixed one's. */
  lemma TrailingRoundTrip(bps: int)
    requires 25 <= bps <= 5000
    ensures TrailingPlaintext(bps).Some? && |TrailingPlaintext(bps).value| == 128
    ensures Parse(TrailingPlaintext(bps).value) == Some(Trailing(bps))
  {
    TrailingLength(bps);
    TrailingFields(bps);
    ParsePadded(TrailingMembers(bps));
  }

  // ----- from the parser to the store

  function OrderOf(id: nat, p: Policy): O.Order {
    match p
    case Fixed(trigger) => O.Order(id, Some(trigger), 0, None, O.Open)
    case Trailing(bps) => O.Order(id, None, bps, None, O.Open)
  }

  /** Whatever the parser accepts, its policy is one the store takes: `Put` then
      refuses only a known id, the id 0, or a trailing order without a recent
      sample. */
  lemma ParsedPolicyIsStorable(plaintext: string, id: nat, b: O.Book, now: int)
    requires Parse(plaintext).Some?
    ensures var p := Parse(plaintext).value;
      O.PutCheck(b, OrderOf(id, p), now) ==
        if id in b.orders then O.AlreadyExists
        else if id == 0 then O.BadIdentity
        else if p.Trailing? && !O.TrailingReady(b, now) then O.BadPolicy
        else O.Stored
  {
  }
}
