/** The private policy between the browser, which pads it to a fixed length, and
    the enclave, which parses it strictly (sections 2 and 4 of RFC 8259). Text is
    a sequence of one-byte characters. */
module PolicyEnvelope {
  import opened Numbers

  const POLICY_PLAINTEXT_BYTES: nat := 128
  const MAX_PLAINTEXT_BYTES: nat := 1024

  // ----- a flat JSON object

  datatype Json = JString(text: string) | JNumber(digits: string) | JNull | JBool(b: bool)

  datatype Member = Member(key: string, value: Json)

  predicate Space(c: char) {
    c == ' ' || c == '\t' || c == '\n' || c == '\r'
  }

  /** A character that stands for itself inside a string. */
  predicate Plain(c: char) {
    ' ' <= c && c != '"' && c != '\\'
  }

  predicate Digit(c: char) {
    '0' <= c <= '9'
  }

  function SkipSpace(s: string): (r: string)
    ensures |r| <= |s|
  {
    if s != "" && Space(s[0]) then SkipSpace(s[1..]) else s
  }

  function HexDigit(c: char): (r: Option<nat>)
    ensures r.Some? ==> r.value < 16
  {
    if '0' <= c <= '9' then Some(c as int - '0' as int)
    else if 'a' <= c <= 'f' then Some(c as int - 'a' as int + 10)
    else if 'A' <= c <= 'F' then Some(c as int - 'A' as int + 10)
    else None
  }

  /** One more hexadecimal digit behind the number `high`. */
  function HexNext(high: Option<nat>, c: char): (r: Option<nat>)
    ensures r.Some? ==> high.Some? && r.value < 16 * high.value + 16
  {
    if high.None? || HexDigit(c).None? then None else Some(16 * high.value + HexDigit(c).value)
  }

  /** The number of four hexadecimal digits. */
  function Hex4(s: string): (r: Option<nat>)
    ensures r.Some? ==> |s| >= 4 && r.value < 0x1_0000
  {
    if |s| < 4 then None else HexNext(HexNext(HexNext(HexDigit(s[0]), s[1]), s[2]), s[3])
  }

  /** The number of a whole `\u` escape. */
  function UnicodeEscape(s: string): (r: Option<nat>)
    ensures r.Some? ==> |s| >= 6 && r.value < 0x1_0000
  {
    if |s| >= 6 && s[0] == '\\' && s[1] == 'u' then Hex4(s[2..]) else None
  }

  /** What follows `\u`: a character, a surrogate pair in two escapes, or half of
      one, which stands for U+FFFD. */
  function ReadUnicode(s: string): (r: Option<(char, string)>)
    ensures r.Some? ==> |r.value.1| < |s|
  {
    match Hex4(s)
    case None => None
    case Some(u) =>
      if u < 0xD800 || 0xE000 <= u then Some((u as char, s[4..]))
      else
        match UnicodeEscape(s[4..])
        case Some(low) =>
          if u < 0xDC00 && 0xDC00 <= low < 0xE000
          then Some(((0x1_0000 + (u - 0xD800) * 0x400 + (low - 0xDC00)) as char, s[10..]))
          else Some((0xFFFD as char, s[4..]))
        case None => Some((0xFFFD as char, s[4..]))
  }

  /** What follows a backslash inside a string. */
  function ReadEscape(s: string): (r: Option<(char, string)>)
    ensures r.Some? ==> |r.value.1| < |s|
  {
    if s == "" then None
    else
      match s[0]
      case '"' => Some(('"', s[1..]))
      case '\\' => Some(('\\', s[1..]))
      case '/' => Some(('/', s[1..]))
      case 'b' => Some((8 as char, s[1..]))
      case 'f' => Some((12 as char, s[1..]))
      case 'n' => Some(('\n', s[1..]))
      case 'r' => Some(('\r', s[1..]))
      case 't' => Some(('\t', s[1..]))
      case 'u' => ReadUnicode(s[1..])
      case _ => None
  }

  /** The text up to the closing quote, and what follows the quote. */
  function ReadChars(s: string): (r: Option<(string, string)>)
    ensures r.Some? ==> |r.value.1| < |s|
    decreases |s|
  {
    if s == "" then None
    else if s[0] == '"' then Some(("", s[1..]))
    else if s[0] == '\\' then
      match ReadEscape(s[1..])
      case None => None
      case Some((c, rest)) =>
        match ReadChars(rest)
        case None => None
        case Some((text, after)) => Some(([c] + text, after))
    else if s[0] < ' ' then None
    else
      match ReadChars(s[1..])
      case None => None
      case Some((text, after)) => Some(([s[0]] + text, after))
  }

  function TakeDigits(s: string): (r: (string, string))
    ensures |r.0| + |r.1| == |s|
    ensures s != "" && Digit(s[0]) ==> r.0 != ""
  {
    if s == "" || !Digit(s[0]) then ("", s)
    else
      var (digits, rest) := TakeDigits(s[1..]);
      ([s[0]] + digits, rest)
  }

  function ReadString(s: string): (r: Option<(string, string)>)
    ensures r.Some? ==> |r.value.1| < |s|
  {
    if s == "" || s[0] != '"' then None else ReadChars(s[1..])
  }

  function ReadJson(s: string): (r: Option<(Json, string)>)
    ensures r.Some? ==> |r.value.1| < |s|
  {
    if s == "" then None
    else if s[0] == '"' then
      match ReadString(s)
      case None => None
      case Some((text, rest)) => Some((JString(text), rest))
    else if Digit(s[0]) then
      var (digits, rest) := TakeDigits(s);
      if digits[0] == '0' && |digits| > 1 then None else Some((JNumber(digits), rest))
    else if "null" <= s then Some((JNull, s[4..]))
    else if "true" <= s then Some((JBool(true), s[4..]))
    else if "false" <= s then Some((JBool(false), s[5..]))
    else None
  }

  function ReadMember(s: string): (r: Option<(Member, string)>)
    ensures r.Some? ==> |r.value.1| < |s|
  {
    match ReadString(s)
    case None => None
    case Some((key, rest)) =>
      var colon := SkipSpace(rest);
      if colon == "" || colon[0] != ':' then None
      else
        match ReadJson(SkipSpace(colon[1..]))
        case None => None
        case Some((value, after)) => Some((Member(key, value), after))
  }

  /** The text of the next member, past its comma unless it is the first, or
      nothing if none can follow. */
  function NextMember(s: string, first: bool): (r: Option<string>)
    ensures r.Some? ==> |r.value| <= |s|
  {
    if first then Some(s)
    else if s != "" && s[0] == ',' then Some(SkipSpace(s[1..]))
    else None
  }

  /** The members up to the closing brace, and what follows it. */
  function ReadMembers(s: string, first: bool): Option<(seq<Member>, string)>
    decreases |s|
  {
    var t := SkipSpace(s);
    if t != "" && t[0] == '}' then Some(([], t[1..]))
    else
      match NextMember(t, first)
      case None => None
      case Some(u) =>
        match ReadMember(u)
        case None => None
        case Some((m, rest)) =>
          match ReadMembers(rest, false)
          case None => None
          case Some((more, after)) => Some(([m] + more, after))
  }

  /** One flat object and nothing after it but white space. */
  function ReadObject(s: string): Option<seq<Member>> {
    var t := SkipSpace(s);
    if t == "" || t[0] != '{' then None
    else
      match ReadMembers(t[1..], true)
      case None => None
      case Some((members, after)) => if SkipSpace(after) == "" then Some(members) else None
  }

  // ----- the key check

  const ALLOWED: set<string> := {"strategy", "triggerPrice", "trailBps"}

  ghost predicate KeysOk(ms: seq<Member>) {
    && (forall i :: 0 <= i < |ms| ==> ms[i].key in ALLOWED)
    && (forall i, j :: 0 <= i < j < |ms| ==> ms[i].key != ms[j].key)
  }

  /** What remains to be read completes what has been read. */
  ghost function Completed(done: seq<Member>, rest: string, first: bool): Option<seq<Member>> {
    match ReadMembers(rest, first)
    case None => None
    case Some((more, after)) => if SkipSpace(after) == "" then Some(done + more) else None
  }

  lemma CompletedStep(done: seq<Member>, rest: string, first: bool)
    requires var t := SkipSpace(rest); t == "" || t[0] != '}'
    ensures var next := NextMember(SkipSpace(rest), first);
      Completed(done, rest, first) ==
        if next.None? || ReadMember(next.value).None? then None
        else Completed(done + [ReadMember(next.value).value.0], ReadMember(next.value).value.1, false)
  {
    var next := NextMember(SkipSpace(rest), first);
    if next.Some? && ReadMember(next.value).Some? {
      var (m, after) := ReadMember(next.value).value;
      var more := ReadMembers(after, false);
      if more.Some? {
        assert done + ([m] + more.value.0) == (done + [m]) + more.value.0;
      }
    }
  }

  /** Walks over the keys of one object: each is known and none comes twice. */
  method ValidateOrderJSONKeys(plaintext: string) returns (ok: bool)
    ensures ok <==> ReadObject(plaintext).Some? && KeysOk(ReadObject(plaintext).value)
  {
    var rest := SkipSpace(plaintext);
    if rest == "" || rest[0] != '{' {
      return false;
    }
    rest := rest[1..];
    var first, seen := true, {};
    ghost var done := [];
    assert forall ms: seq<Member> :: [] + ms == ms;
    while true
      invariant ReadObject(plaintext) == Completed(done, rest, first)
      invariant KeysOk(done) && seen == set m | m in done :: m.key
      decreases |rest|
    {
      var t := SkipSpace(rest);
      if t != "" && t[0] == '}' {
        assert done + [] == done;
        return SkipSpace(t[1..]) == "";
      }
      CompletedStep(done, rest, first);
      var next := NextMember(t, first);
      if next.None? {
        return false;
      }
      var member := ReadMember(next.value);
      if member.None? {
        return false;
      }
      var (m, after) := member.value;
      var longer := done + [m];
      assert longer[|done|] == m;
      if m.key !in ALLOWED || m.key in seen {
        BadKeyStays(done, m, after);
        return false;
      }
      assert forall x <- done :: x.key in seen;
      assert forall i :: 0 <= i < |done| ==> done[i] in done;
      done := longer;
      rest, first, seen := after, false, seen + {m.key};
    }
  }

  lemma BadKeyStays(done: seq<Member>, m: Member, rest: string)
    requires m.key !in ALLOWED || exists x :: x in done && x.key == m.key
    ensures var whole := Completed(done + [m], rest, false);
      whole.Some? ==> !KeysOk(whole.value)
  {
    var whole := Completed(done + [m], rest, false);
    if whole.Some? {
      assert whole.value[|done|] == m;
      if x :| x in done && x.key == m.key {
        var i :| 0 <= i < |done| && done[i] == x;
        assert whole.value[i] == x;
      }
    }
  }

  // ----- the policy

  datatype Fields = Fields(strategy: string, trigger: Option<string>, trailBps: Option<nat>)

  datatype Policy = Fixed(trigger: nat) | Trailing(bps: nat)

  predicate AllDigits(s: string) {
    forall i :: 0 <= i < |s| ==> Digit(s[i])
  }

  function DigitValue(c: char): nat
    requires Digit(c)
  {
    c as int - '0' as int
  }

  function DigitsValue(s: string): nat
    requires AllDigits(s)
  {
    if s == "" then 0 else DigitsValue(s[..|s| - 1]) * 10 + DigitValue(s[|s| - 1])
  }

  /** Decoding one member into the struct; `null` leaves a field as it is. */
  function SetField(f: Fields, m: Member): Option<Fields> {
    if m.value.JNull? then Some(f)
    else if m.key == "trailBps" then
      if m.value.JNumber? && AllDigits(m.value.digits) && DigitsValue(m.value.digits) < 0x1_0000
      then Some(f.(trailBps := Some(DigitsValue(m.value.digits))))
      else None
    else if !m.value.JString? then None
    else if m.key == "strategy" then Some(f.(strategy := m.value.text))
    else Some(f.(trigger := Some(m.value.text)))
  }

  function DecodeMembers(ms: seq<Member>): Option<Fields> {
    if ms == [] then Some(Fields("", None, None))
    else
      match DecodeMembers(ms[..|ms| - 1])
      case None => None
      case Some(f) => SetField(f, ms[|ms| - 1])
  }

  /** `SetString` in base 10: an optional sign and at least one digit. */
  function ParseInteger(s: string): Option<int> {
    var signed := s != "" && (s[0] == '+' || s[0] == '-');
    var digits := if signed then s[1..] else s;
    if digits == "" || !AllDigits(digits) then None
    else if signed && s[0] == '-' then Some(-(DigitsValue(digits) as int))
    else Some(DigitsValue(digits))
  }

  function PolicyOf(f: Fields): Option<Policy> {
    var strategy := if f.strategy == "" && f.trigger.Some? && f.trailBps.None? then "fixed" else f.strategy;
    if strategy == "trailing" then
      if f.trigger.Some? || f.trailBps.None? || f.trailBps.value < 25 || f.trailBps.value > 5000 then None
      else Some(Trailing(f.trailBps.value))
    else if strategy == "fixed" then
      if f.trigger.None? || f.trailBps.Some? || f.trigger.value == "" then None
      else
        var trigger := ParseInteger(f.trigger.value);
        if trigger.None? || trigger.value <= 0 || trigger.value >= TWO_256 then None else Some(Fixed(trigger.value))
    else None
  }

  ghost function Parse(plaintext: string): Option<Policy> {
    if |plaintext| == 0 || |plaintext| > MAX_PLAINTEXT_BYTES then None
    else
      match ReadObject(plaintext)
      case None => None
      case Some(ms) =>
        if !KeysOk(ms) then None
        else
          match DecodeMembers(ms)
          case None => None
          case Some(f) => PolicyOf(f)
  }

  method ParseOrderPlaintext(plaintext: string) returns (policy: Option<Policy>)
    ensures policy == Parse(plaintext)
  {
    if |plaintext| == 0 || |plaintext| > MAX_PLAINTEXT_BYTES {
      return None;
    }
    var ok := ValidateOrderJSONKeys(plaintext);
    if !ok {
      return None;
    }
    var fields := DecodeMembers(ReadObject(plaintext).value);
    if fields.None? {
      return None;
    }
    return PolicyOf(fields.value);
  }

  // ----- the browser's side

  function Quoted(s: string): string {
    "\"" + s + "\""
  }

  function TextOf(v: Json): string {
    match v
    case JString(s) => Quoted(s)
    case JNumber(digits) => digits
    case JNull => "null"
    case JBool(b) => if b then "true" else "false"
  }

  function MemberText(m: Member): string {
    Quoted(m.key) + ":" + TextOf(m.value)
  }

  function MembersText(ms: seq<Member>): string
    decreases |ms|
  {
    if ms == [] then "}" else "," + MemberText(ms[0]) + MembersText(ms[1..])
  }

  /** `JSON.stringify` of a flat object. */
  function Stringify(ms: seq<Member>): string {
    if ms == [] then "{}" else "{" + MemberText(ms[0]) + MembersText(ms[1..])
  }

  function Spaces(n: nat): string {
    seq(n, _ => ' ')
  }

  function Padded(json: string): Option<string> {
    if |json| > POLICY_PLAINTEXT_BYTES then None else Some(json + Spaces(POLICY_PLAINTEXT_BYTES - |json|))
  }

  /** Fills a buffer with spaces and writes the JSON over its start. */
  method EncodePaddedPolicy(policy: seq<Member>) returns (padded: Option<array<char>>)
    ensures padded.Some? <==> Padded(Stringify(policy)).Some?
    ensures padded.Some? ==> fresh(padded.value) && padded.value[..] == Padded(Stringify(policy)).value
  {
    var json := Stringify(policy);
    if |json| > POLICY_PLAINTEXT_BYTES {
      return None;
    }
    var buffer := new char[POLICY_PLAINTEXT_BYTES](_ => ' ');
    for k := 0 to |json|
      invariant forall i :: 0 <= i < k ==> buffer[i] == json[i]
      invariant forall i :: k <= i < buffer.Length ==> buffer[i] == ' '
    {
      buffer[k] := json[k];
    }
    return Some(buffer);
  }

  /** The guards of `encryptTriggerPrice` on its price. */
  predicate FixedGuard(price: string) {
    price != "" && '1' <= price[0] <= '9' && AllDigits(price) && DigitsValue(price) < TWO_256
  }

  function FixedMembers(price: string): seq<Member> {
    [Member("strategy", JString("fixed")), Member("triggerPrice", JString(price))]
  }

  function FixedPlaintext(price: string): Option<string> {
    if FixedGuard(price) then Padded(Stringify(FixedMembers(price))) else None
  }

  function Decimal(n: nat): string {
    if n < 10 then [('0' as int + n) as char] else Decimal(n / 10) + [('0' as int + n % 10) as char]
  }

  function TrailingMembers(bps: nat): seq<Member> {
    [Member("strategy", JString("trailing")), Member("trailBps", JNumber(Decimal(bps)))]
  }

  function TrailingPlaintext(bps: int): Option<string> {
    if 25 <= bps <= 5000 then Padded(Stringify(TrailingMembers(bps))) else None
  }
}
