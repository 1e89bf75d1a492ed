/** What the policy text is, letter for letter, and what exactly the parser takes. */
module PolicyLaws {
  import opened Numbers
  import opened PolicyEnvelope
  import opened PolicyRoundTrip

  // ----- the text

  lemma LastMemberText(m: Member)
    ensures MembersText([m]) == "," + MemberText(m) + "}"
  {
    assert [m][1..] == [];
  }

  lemma TwoMembersText(m: Member, n: Member)
    ensures Stringify([m, n]) == "{" + MemberText(m) + ("," + MemberText(n) + "}")
  {
    LastMemberText(n);
    assert [m, n][1..] == [n];
  }

  lemma StrategyText(name: string)
    ensures MemberText(Member("strategy", JString(name))) == "\"strategy\":\"" + name + "\""
  {
  }

  lemma PriceText(price: string)
    ensures MemberText(Member("triggerPrice", JString(price))) == "\"triggerPrice\":\"" + price + "\""
  {
  }

  lemma DistanceText(bps: nat)
    ensures MemberText(Member("trailBps", JNumber(Decimal(bps)))) == "\"trailBps\":" + Decimal(bps)
  {
  }

  /** The browser's text of a fixed policy. */
  lemma FixedText(price: string)
    ensures Stringify(FixedMembers(price)) == "{" + "\"strategy\":\"fixed\"" + ("," + ("\"triggerPrice\":\"" + price + "\"") + "}")
  {
    TwoMembersText(FixedMembers(price)[0], FixedMembers(price)[1]);
    StrategyText("fixed");
    PriceText(price);
  }

  /** And of a trailing one. */
  lemma TrailingText(bps: nat)
    ensures Stringify(TrailingMembers(bps)) == "{" + "\"strategy\":\"trailing\"" + ("," + ("\"trailBps\":" + Decimal(bps)) + "}")
  {
    TwoMembersText(TrailingMembers(bps)[0], TrailingMembers(bps)[1]);
    StrategyText("trailing");
    DistanceText(bps);
  }

  lemma OneMemberText(m: Member)
    ensures Stringify([m]) == "{" + MemberText(m) + "}"
  {
    assert [m][1..] == [];
  }

  // ----- which prices and distances the browser takes

  lemma {:induction false} DecimalOfDigits(s: string)
    requires s != "" && AllDigits(s) && (s[0] == '0' ==> |s| == 1)
    ensures Decimal(DigitsValue(s)) == s
  {
    var n := |s| - 1;
    if n == 0 {
      assert DigitsValue(s[..0]) == 0;
    } else {
      DigitsAtLeast(s);
      PowPositive(10, n - 1);
      assert Pow(10, n) == 10 * Pow(10, n - 1);
      DecimalOfDigits(s[..n]);
      NextDigit(DigitsValue(s[..n]), s[n]);
      assert s == s[..n] + [s[n]];
    }
  }

  lemma NextDigit(high: nat, c: char)
    requires Digit(c) && high > 0
    ensures Decimal(high * 10 + DigitValue(c)) == Decimal(high) + [c]
  {
    assert (high * 10 + DigitValue(c)) / 10 == high && (high * 10 + DigitValue(c)) % 10 == DigitValue(c);
  }

  /** The browser encrypts exactly the decimal numerals of 1..2^256-1. */
  lemma FixedTakenIff(price: string)
    ensures FixedPlaintext(price).Some? <==> exists n :: 0 < n < TWO_256 && price == Decimal(n)
  {
    if FixedGuard(price) {
      FixedRoundTrip(price);
      PositiveDigits(price);
      DecimalOfDigits(price);
    }
    if n :| 0 < n < TWO_256 && price == Decimal(n) {
      EveryTriggerHasAPlaintext(n);
    }
  }

  /** And exactly the distances from a quarter of a percent to a half. */
  lemma TrailingTakenIff(bps: int)
    ensures TrailingPlaintext(bps).Some? <==> 25 <= bps <= 5000
  {
    if 25 <= bps <= 5000 {
      TrailingRoundTrip(bps);
    }
  }

  // ----- what the parser takes

  lemma LengthLimits(plaintext: string)
    ensures Parse(plaintext).Some? ==> 1 <= |plaintext| <= 1024
  {
  }

  /** Any flat object with known keys, none twice, is decoded and judged, behind any
      number of spaces within 1024 bytes. */
  lemma ParseSpaced(ms: seq<Member>, n: nat)
    requires AllWritable(ms) && KeysOk(ms) && |Stringify(ms)| + n <= 1024
    ensures DecodeMembers(ms).Some? ==> Parse(Stringify(ms) + Spaces(n)) == PolicyOf(DecodeMembers(ms).value)
    ensures DecodeMembers(ms).None? ==> Parse(Stringify(ms) + Spaces(n)).None?
  {
    ObjectRoundTrip(ms, n);
  }

  function LegacyMembers(price: string): seq<Member> {
    [Member("triggerPrice", JString(price))]
  }

  function LegacyString(price: string): string {
    "{" + ("\"triggerPrice\":\"" + price + "\"") + "}"
  }

  lemma LegacyText(price: string)
    ensures Stringify(LegacyMembers(price)) == LegacyString(price)
  {
    OneMemberText(LegacyMembers(price)[0]);
    PriceText(price);
  }

  lemma LegacyFields(price: string)
    requires AllDigits(price)
    ensures var ms := LegacyMembers(price);
      AllWritable(ms) && KeysOk(ms) && DecodeMembers(ms) == Some(Fields("", Some(price), None))
  {
    var ms := LegacyMembers(price);
    assert ms[..0] == [];
    assert DecodeMembers(ms) == SetField(Fields("", None, None), ms[0]);
  }

  /** A legacy plaintext, with a price and no strategy, is a fixed policy. */
  lemma LegacyRoundTrip(price: string, n: nat)
    requires FixedGuard(price) && |LegacyString(price)| + n <= 1024
    ensures Parse(LegacyString(price) + Spaces(n)) == Some(Fixed(DigitsValue(price)))
  {
    LegacyText(price);
    LegacyFields(price);
    ParseSpaced(LegacyMembers(price), n);
    PositiveDigits(price);
  }

  /** Whole numbers in base 10: digits, with at most one sign before them. */
  lemma IntegersAre(digits: string)
    requires digits != "" && AllDigits(digits)
    ensures ParseInteger(digits) == Some(DigitsValue(digits))
    ensures ParseInteger("+" + digits) == Some(DigitsValue(digits))
    ensures ParseInteger("-" + digits) == Some(-(DigitsValue(digits) as int))
  {
    assert ("+" + digits)[1..] == digits && ("-" + digits)[1..] == digits;
  }

  lemma OnlyIntegers(s: string)
    ensures ParseInteger(s).Some? ==>
      exists digits :: digits != "" && AllDigits(digits) && (s == digits || s == "+" + digits || s == "-" + digits)
  {
    if ParseInteger(s).Some? && !AllDigits(s) {
      assert s == [s[0]] + s[1..];
    }
  }

  // ----- decoding the members

  /** The struct has this member's value; `null` says nothing. */
  predicate Shown(f: Fields, m: Member) {
    || m.value.JNull?
    || (m.key == "strategy" && m.value.JString? && f.strategy == m.value.text)
    || (m.key == "triggerPrice" && m.value.JString? && f.trigger == Some(m.value.text))
    || (m.key == "trailBps" && m.value.JNumber? && AllDigits(m.value.digits) && DigitsValue(m.value.digits) < 65_536
        && f.trailBps == Some(DigitsValue(m.value.digits)))
  }

  ghost predicate Mentions(ms: seq<Member>, key: string) {
    exists i :: 0 <= i < |ms| && ms[i].key == key && !ms[i].value.JNull?
  }

  /** The struct says exactly what the members say. */
  ghost predicate Decoded(ms: seq<Member>, f: Fields) {
    && (forall i :: 0 <= i < |ms| ==> Shown(f, ms[i]))
    && (f.strategy != "" ==> Mentions(ms, "strategy"))
    && (f.trigger.Some? ==> Mentions(ms, "triggerPrice"))
    && (f.trailBps.Some? ==> Mentions(ms, "trailBps"))
  }

  lemma MentionsMore(ms: seq<Member>, m: Member)
    ensures forall key :: Mentions(ms, key) ==> Mentions(ms + [m], key)
    ensures !m.value.JNull? ==> Mentions(ms + [m], m.key)
  {
    var more := ms + [m];
    assert more[|ms|] == m;
    assert forall i :: 0 <= i < |ms| ==> more[i] == ms[i];
  }

  lemma SetFieldDecodes(ms: seq<Member>, f: Fields, m: Member)
    requires Decoded(ms, f) && KeysOk(ms + [m]) && SetField(f, m).Some?
    ensures Decoded(ms + [m], SetField(f, m).value)
  {
    var more, g := ms + [m], SetField(f, m).value;
    MentionsMore(ms, m);
    assert more[|ms|] == m;
    forall i | 0 <= i < |more| ensures Shown(g, more[i]) {
      if i < |ms| {
        assert more[i] == ms[i] && more[i].key != more[|ms|].key;
      }
    }
  }

  /** Distinct known keys decode into a struct that says exactly what they say. */
  lemma {:induction false} DecodingIs(ms: seq<Member>)
    requires KeysOk(ms) && DecodeMembers(ms).Some?
    ensures Decoded(ms, DecodeMembers(ms).value)
  {
    if ms != [] {
      var n := |ms| - 1;
      assert ms == ms[..n] + [ms[n]];
      DecodingIs(ms[..n]);
      SetFieldDecodes(ms[..n], DecodeMembers(ms[..n]).value, ms[n]);
    }
  }

  /** A value that the member's field can take. */
  predicate WellTyped(m: Member) {
    || m.value.JNull?
    || (m.key in {"strategy", "triggerPrice"} && m.value.JString?)
    || (m.key == "trailBps" && m.value.JNumber? && AllDigits(m.value.digits) && DigitsValue(m.value.digits) < 65_536)
  }

  lemma {:induction false} DecodesIff(ms: seq<Member>)
    requires KeysOk(ms)
    ensures DecodeMembers(ms).Some? <==> forall i :: 0 <= i < |ms| ==> WellTyped(ms[i])
  {
    if ms != [] {
      DecodesIff(ms[..|ms| - 1]);
    }
  }

  /** Members with these three keys, none twice. */
  ghost predicate PolicyKeys(ms: seq<Member>) {
    && (forall i :: 0 <= i < |ms| ==> ms[i].key == "strategy" || ms[i].key == "triggerPrice" || ms[i].key == "trailBps")
    && (forall i, j :: 0 <= i < j < |ms| ==> ms[i].key != ms[j].key)
  }

  /** The policy that a struct stands for. */
  ghost predicate StandsFor(f: Fields, p: Policy) {
    match p
    case Fixed(t) =>
      && f.trailBps.None? && f.trigger.Some? && ParseInteger(f.trigger.value) == Some(t) && 0 < t < TWO_256
      && (f.strategy == "fixed" || f.strategy == "")
    case Trailing(bps) => f.trigger.None? && f.trailBps == Some(bps) && 25 <= bps <= 5000 && f.strategy == "trailing"
  }

  /** The whole parser: 1 to 1024 bytes that are one object of well-typed members
      with distinct known keys, which together stand for this policy. */
  lemma ParsedIff(plaintext: string, p: Policy)
    ensures Parse(plaintext) == Some(p) <==>
      && 1 <= |plaintext| <= 1024 && ReadObject(plaintext).Some?
      && var ms := ReadObject(plaintext).value;
      && PolicyKeys(ms) && (forall i :: 0 <= i < |ms| ==> WellTyped(ms[i]))
      && exists f :: Decoded(ms, f) && StandsFor(f, p)
  {
    if ReadObject(plaintext).Some? {
      var ms := ReadObject(plaintext).value;
      assert KeysOk(ms) <==> PolicyKeys(ms);
      if KeysOk(ms) {
        DecodesIff(ms);
        if DecodeMembers(ms).Some? {
          DecodingIs(ms);
          OneDecoding(ms, DecodeMembers(ms).value);
          PolicyIs(DecodeMembers(ms).value, p);
        }
      }
    }
  }

  lemma PolicyIs(f: Fields, p: Policy)
    ensures PolicyOf(f) == Some(p) <==> StandsFor(f, p)
  {
  }

  /** Members stand for one struct. */
  lemma OneDecoding(ms: seq<Member>, f: Fields)
    requires Decoded(ms, f)
    ensures forall g :: Decoded(ms, g) ==> g == f
  {
    forall g | Decoded(ms, g) ensures g == f {
      SameField(ms, f, g, "strategy");
      SameField(ms, f, g, "triggerPrice");
      SameField(ms, f, g, "trailBps");
    }
  }

  lemma SameField(ms: seq<Member>, f: Fields, g: Fields, key: string)
    requires Decoded(ms, f) && Decoded(ms, g)
    requires key == "strategy" || key == "triggerPrice" || key == "trailBps"
    ensures key == "strategy" ==> f.strategy == g.strategy
    ensures key == "triggerPrice" ==> f.trigger == g.trigger
    ensures key == "trailBps" ==> f.trailBps == g.trailBps
  {
    if Mentions(ms, key) {
      var i :| 0 <= i < |ms| && ms[i].key == key && !ms[i].value.JNull?;
      assert Shown(f, ms[i]) && Shown(g, ms[i]);
    }
  }

  lemma {:induction false} DigitsTaken(s: string)
    ensures var (digits, rest) := TakeDigits(s);
      s == digits + rest && AllDigits(digits) && (rest != "" ==> !Digit(rest[0]))
    decreases |s|
  {
    if s != "" && Digit(s[0]) {
      DigitsTaken(s[1..]);
      assert s == [s[0]] + s[1..];
    }
  }

  /** A number is all the digits there are, without a leading zero. */
  lemma NumbersAre(s: string)
    requires s != "" && Digit(s[0])
    ensures match ReadJson(s)
      case Some((v, rest)) =>
        && v.JNumber? && s == v.digits + rest && AllDigits(v.digits) && v.digits != ""
        && (v.digits[0] == '0' ==> |v.digits| == 1) && (rest != "" ==> !Digit(rest[0]))
      case None => s[0] == '0' && |s| > 1 && Digit(s[1])
  {
    DigitsTaken(s);
  }

  // ----- what may follow what

  /** An object may be followed by white space only. */
  lemma NothingFollows(ms: seq<Member>, rest: string)
    requires AllWritable(ms)
    ensures ReadObject(Stringify(ms) + rest) == if SkipSpace(rest) == "" then Some(ms) else None
  {
    if ms == [] {
      NoSpace("}" + rest);
      assert ("}" + rest)[1..] == rest;
      Braced("}" + rest, ms, rest);
      assert Stringify(ms) + rest == "{" + ("}" + rest);
    } else {
      ReadMembersText(ms[1..], rest);
      ReadFront(ms, rest, true);
      Braced(MemberText(ms[0]) + (MembersText(ms[1..]) + rest), ms, rest);
      StringifyFront(ms, rest);
    }
  }

  lemma Braced(body: string, ms: seq<Member>, after: string)
    requires ReadMembers(body, true) == Some((ms, after))
    ensures ReadObject("{" + body) == if SkipSpace(after) == "" then Some(ms) else None
  {
    NoSpace("{" + body);
    assert ("{" + body)[1..] == body;
  }

  /** Members are separated by one comma each: none before the first, none after the
      last, and none missing. */
  lemma CommasAreStrict(s: string, first: bool)
    requires ReadMembers(s, first).Some?
    ensures var t := s[Blanks(s)..];
      t != "" && (t[0] == '}' || (first && t[0] == '"') || (!first && t[0] == ',' && OpensString(t[1..])))
  {
    SkipsExactly(s);
    var t := SkipSpace(s);
    if t != "" && t[0] == ',' {
      SkipsExactly(t[1..]);
    }
  }

  predicate OpensString(s: string) {
    Blanks(s) < |s| && s[Blanks(s)] == '"'
  }

  // ----- characters

  /** How many blanks a text starts with. */
  function Blanks(s: string): (k: nat)
    ensures k <= |s| && (k < |s| ==> !Blank(s[k]))
  {
    if s != "" && Blank(s[0]) then 1 + Blanks(s[1..]) else 0
  }

  /** White space is exactly tab, line feed, carriage return and space, and all of it
      is skipped. */
  lemma {:induction false} SkipsExactly(s: string)
    ensures SkipSpace(s) == s[Blanks(s)..]
    decreases |s|
  {
    if s != "" && Blank(s[0]) {
      SkipsExactly(s[1..]);
      DropTwice(s, Blanks(s[1..]));
    } else {
      assert s[0..] == s;
    }
  }

  lemma DropTwice(s: string, k: nat)
    requires k + 1 <= |s|
    ensures s[1..][k..] == s[k + 1..]
  {
  }

  predicate Blank(c: char) {
    c as int in {9, 10, 13, 32}
  }

  /** The short escapes, by code point. */
  lemma ShortEscapes(rest: string)
    ensures ReadEscape("\"" + rest) == Some((34 as char, rest))
    ensures ReadEscape("\\" + rest) == Some((92 as char, rest))
    ensures ReadEscape("/" + rest) == Some((47 as char, rest))
    ensures ReadEscape("b" + rest) == Some((8 as char, rest))
    ensures ReadEscape("f" + rest) == Some((12 as char, rest))
    ensures ReadEscape("n" + rest) == Some((10 as char, rest))
    ensures ReadEscape("r" + rest) == Some((13 as char, rest))
    ensures ReadEscape("t" + rest) == Some((9 as char, rest))
  {
    assert forall c: char :: ([c] + rest)[1..] == rest;
  }

  /** Half a surrogate pair stands for U+FFFD. */
  lemma HalfPair(u: nat, rest: string)
    requires 0xD800 <= u < 0xE000 && UnicodeEscape(rest).None?
    ensures ReadUnicode(Hex(u) + rest) == Some((0xFFFD as char, rest))
  {
    HexReadsBack(u, rest);
  }

  /** No string holds a control character. */
  lemma NoControls(s: string)
    requires s != "" && s[0] as int < 32
    ensures ReadChars(s).None?
  {
  }
}
