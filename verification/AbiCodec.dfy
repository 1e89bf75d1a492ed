/** The strict ABI codec of the instruction messages, for any list of uint256 and
    bytes arguments (Formal Specification of the Encoding, Solidity Contract ABI
    Specification). */
module AbiCodec {
  import opened Numbers

  type byte = x: nat | x < 256

  const WORD: nat := 32

  /** The argument types in use, and a value of each. */
  datatype Type = Uint256 | Bytes
  datatype Value = UintValue(n: nat) | BytesValue(b: seq<byte>)

  datatype AbiError =
    | Empty | TooShort | BadOffset | BadLength
    | WrongLength(got: nat, want: nat)
    | Mismatch(at: nat)

  datatype Decoded<+T> = Ok(value: T) | Err(error: AbiError)

  // ----- big-endian numbers

  function ToNat(s: seq<byte>): nat {
    if s == [] then 0 else ToNat(s[..|s| - 1]) * 256 + s[|s| - 1]
  }

  function FromNat(n: nat, width: nat): (s: seq<byte>)
    ensures |s| == width
  {
    if width == 0 then [] else FromNat(n / 256, width - 1) + [n % 256]
  }

  function Word(n: nat): (s: seq<byte>)
    ensures |s| == WORD
  {
    FromNat(n, WORD)
  }

  lemma {:induction false} ToNatBound(s: seq<byte>)
    ensures ToNat(s) < Pow(256, |s|)
  {
    if s != [] {
      ToNatBound(s[..|s| - 1]);
    }
  }

  lemma ToNatNext(s: seq<byte>, b: byte)
    ensures ToNat(s + [b]) == ToNat(s) * 256 + b
  {
    assert (s + [b])[..|s|] == s;
  }

  lemma QuotientBound(n: nat, m: nat)
    requires n < 256 * m
    ensures n / 256 < m && n == n / 256 * 256 + n % 256
  {
  }

  lemma {:induction false} NumberRoundTrip(n: nat, width: nat)
    requires n < Pow(256, width)
    ensures ToNat(FromNat(n, width)) == n
  {
    if width > 0 {
      var high := FromNat(n / 256, width - 1);
      QuotientBound(n, Pow(256, width - 1));
      NumberRoundTrip(n / 256, width - 1);
      ToNatNext(high, n % 256);
    }
  }

  lemma WordRoundTrip(n: nat)
    requires n < TWO_256
    ensures ToNat(Word(n)) == n
  {
    BytesOfUint256();
    NumberRoundTrip(n, WORD);
  }

  lemma DivCompare(n: nat, d: nat, e: nat, x: int)
    requires d > 0 && e > 0 && d * e > 0
    ensures x <= n / d / e <==> x <= n / (d * e)
  {
    AtMostFloor(x, n / d, e);
    AtMostFloor(x * e, n, d);
    AtMostFloor(x, n, d * e);
    assert x * e * d == x * (d * e);
  }

  lemma DivTwice(n: nat, d: nat, e: nat)
    requires d > 0 && e > 0
    ensures d * e > 0 && n / d / e == n / (d * e)
  {
    PositiveFactor(d, e);
    DivCompare(n, d, e, n / d / e);
    DivCompare(n, d, e, n / (d * e));
  }

  lemma PositiveFactor(d: nat, e: nat)
    requires d > 0 && e > 0
    ensures d * e > 0
  {
  }

  /** Numbers are written big-endian: byte `i` has the weight 256^(width - 1 - i). */
  lemma {:induction false} NumberByte(n: nat, width: nat, i: nat)
    requires i < width
    ensures Pow(256, width - 1 - i) > 0 && FromNat(n, width)[i] == n / Pow(256, width - 1 - i) % 256
  {
    PowPositive(256, width - 1 - i);
    if i < width - 1 {
      NumberByte(n / 256, width - 1, i);
      DivTwice(n, 256, Pow(256, width - 2 - i));
      assert Pow(256, width - 1 - i) == 256 * Pow(256, width - 2 - i);
      assert FromNat(n, width)[i] == FromNat(n / 256, width - 1)[i];
    } else {
      assert Pow(256, 0) == 1;
    }
  }

  // ----- packing

  function Zeros(n: nat): seq<byte> {
    seq(n, _ => 0)
  }

  /** The zero bytes that fill up the last word. */
  function Padding(length: nat): nat {
    if length == 0 then 0 else if length <= 32 then 32 - length else Padding(length - 32)
  }

  /** Whole words: the length rounded up to a multiple of 32. */
  lemma {:induction false} PaddedLength(length: nat)
    ensures length + Padding(length) == (length + 31) / 32 * 32
  {
    if length > 32 {
      PaddedLength(length - 32);
      assert (length + 31) / 32 == (length - 32 + 31) / 32 + 1;
    }
  }

  function Tail(v: Value): seq<byte> {
    match v
    case UintValue(_) => []
    case BytesValue(b) => Word(|b|) + b + Zeros(Padding(|b|))
  }

  function Head(v: Value, offset: nat): (s: seq<byte>)
    ensures |s| == WORD
  {
    match v
    case UintValue(n) => Word(n)
    case BytesValue(_) => Word(offset)
  }

  /** The first `k` chunks, one after the other. */
  function Joined(chunks: seq<seq<byte>>, k: nat): seq<byte>
    requires k <= |chunks|
  {
    if k == 0 then [] else Joined(chunks, k - 1) + chunks[k - 1]
  }

  function Tails(vs: seq<Value>): seq<seq<byte>> {
    seq(|vs|, k requires 0 <= k < |vs| => Tail(vs[k]))
  }

  /** Where the tail of value `k` starts. */
  function Offset(vs: seq<Value>, k: nat): nat
    requires k <= |vs|
  {
    32 * |vs| + |Joined(Tails(vs), k)|
  }

  function Heads(vs: seq<Value>): seq<seq<byte>> {
    seq(|vs|, k requires 0 <= k < |vs| => Head(vs[k], Offset(vs, k)))
  }

  /** `Arguments.Pack`: the heads, then what they point at. */
  function Pack(vs: seq<Value>): seq<byte> {
    Joined(Heads(vs), |vs|) + Joined(Tails(vs), |vs|)
  }

  // ----- unpacking, as lenient as go-ethereum is

  /** `lengthPrefixPointsTo`: where a dynamic value starts and how long it is. */
  function Located(index: nat, data: seq<byte>): Decoded<(nat, nat)>
    requires index + WORD <= |data|
  {
    var offsetEnd := ToNat(data[index..index + WORD]) + WORD;
    if offsetEnd > |data| || offsetEnd >= TWO_63 then Err(BadOffset)
    else
      var length := ToNat(data[offsetEnd - WORD..offsetEnd]);
      if offsetEnd + length >= TWO_63 || offsetEnd + length > |data| then Err(BadLength)
      else Ok((offsetEnd, length))
  }

  /** `toGoType`. */
  function ReadValue(index: nat, t: Type, data: seq<byte>): Decoded<Value> {
    if index + WORD > |data| then Err(TooShort)
    else
      match t
      case Uint256 => Ok(UintValue(ToNat(data[index..index + WORD])))
      case Bytes =>
        match Located(index, data)
        case Err(e) => Err(e)
        case Ok((start, length)) => Ok(BytesValue(data[start..start + length]))
  }

  /** The arguments from `k` on. */
  function ReadValues(k: nat, types: seq<Type>, data: seq<byte>): Decoded<seq<Value>>
    requires k <= |types|
    decreases |types| - k
  {
    if k == |types| then Ok([])
    else
      match ReadValue(32 * k, types[k], data)
      case Err(e) => Err(e)
      case Ok(v) =>
        match ReadValues(k + 1, types, data)
        case Err(e) => Err(e)
        case Ok(vs) => Ok([v] + vs)
  }

  /** `Arguments.Unpack`. */
  function Unpack(types: seq<Type>, data: seq<byte>): Decoded<seq<Value>> {
    if data == [] then (if types == [] then Ok([]) else Err(Empty)) else ReadValues(0, types, data)
  }

  // ----- the strict decoder

  /** The first position at which two byte strings differ. */
  function FirstDifference(a: seq<byte>, b: seq<byte>, from: nat): Option<nat>
    requires |a| == |b| && from <= |a|
    decreases |a| - from
  {
    if from == |a| then None
    else if a[from] != b[from] then Some(from)
    else FirstDifference(a, b, from + 1)
  }

  function Strict(types: seq<Type>, data: seq<byte>): Decoded<seq<Value>> {
    match Unpack(types, data)
    case Err(e) => Err(e)
    case Ok(vs) =>
      var repacked := Pack(vs);
      if |repacked| != |data| then Err(WrongLength(|data|, |repacked|))
      else
        match FirstDifference(repacked, data, 0)
        case Some(at) => Err(Mismatch(at))
        case None => Ok(vs)
  }

  /** Unpack, pack again and compare byte by byte. */
  method UnpackStrict(types: seq<Type>, data: seq<byte>) returns (r: Decoded<seq<Value>>)
    ensures r == Strict(types, data)
  {
    var unpacked := Unpack(types, data);
    if unpacked.Err? {
      return Err(unpacked.error);
    }
    var repacked := Pack(unpacked.value);
    if |repacked| != |data| {
      return Err(WrongLength(|data|, |repacked|));
    }
    for i := 0 to |repacked|
      invariant FirstDifference(repacked, data, 0) == FirstDifference(repacked, data, i)
    {
      if repacked[i] != data[i] {
        return Err(Mismatch(i));
      }
    }
    return Ok(unpacked.value);
  }

  // ----- the values that a byte string can hold

  function TypeOf(v: Value): Type {
    match v
    case UintValue(_) => Uint256
    case BytesValue(_) => Bytes
  }

  ghost predicate Typed(vs: seq<Value>, types: seq<Type>) {
    |vs| == |types| && forall i :: 0 <= i < |vs| ==> TypeOf(vs[i]) == types[i]
  }

  /** The values Solidity can encode: no number above a uint256. */
  predicate InRange(vs: seq<Value>) {
    forall i :: 0 <= i < |vs| ==> Encodable(vs[i])
  }

  predicate Encodable(v: Value) {
    v.UintValue? ==> v.n < TWO_256
  }

  lemma {:induction false} ReadTyped(k: nat, types: seq<Type>, data: seq<byte>)
    requires k <= |types| && ReadValues(k, types, data).Ok?
    ensures var vs := ReadValues(k, types, data).value;
      Typed(vs, types[k..]) && InRange(vs)
    decreases |types| - k
  {
    if k < |types| {
      ReadTyped(k + 1, types, data);
      if types[k] == Uint256 {
        BytesOfUint256();
        ToNatBound(data[32 * k..32 * k + WORD]);
      }
    }
  }

  // ----- reading back what was packed

  /** The bytes `s` stand at `at`. */
  ghost predicate Holds(data: seq<byte>, at: nat, s: seq<byte>) {
    at + |s| <= |data| && data[at..at + |s|] == s
  }

  lemma HoldsBoth(data: seq<byte>, at: nat, s: seq<byte>, t: seq<byte>)
    requires Holds(data, at, s + t)
    ensures Holds(data, at, s) && Holds(data, at + |s|, t)
  {
    var both := data[at..at + |s + t|];
    assert data[at..at + |s|] == both[..|s|];
    assert data[at + |s|..at + |s| + |t|] == both[|s|..];
  }

  lemma HoldsInLeft(data: seq<byte>, at: nat, s: seq<byte>, after: seq<byte>)
    requires Holds(data, at, s)
    ensures Holds(data + after, at, s)
  {
    assert (data + after)[at..at + |s|] == data[at..at + |s|];
  }

  lemma HoldsInRight(data: seq<byte>, at: nat, s: seq<byte>, before: seq<byte>)
    requires Holds(data, at, s)
    ensures Holds(before + data, |before| + at, s)
  {
    assert (before + data)[|before| + at..|before| + at + |s|] == data[at..at + |s|];
  }

  /** A chunk stands where the chunks before it end. */
  lemma {:induction false} ChunkHolds(chunks: seq<seq<byte>>, j: nat, k: nat)
    requires j < k <= |chunks|
    ensures Holds(Joined(chunks, k), |Joined(chunks, j)|, chunks[j])
  {
    if j + 1 < k {
      ChunkHolds(chunks, j, k - 1);
      HoldsInLeft(Joined(chunks, k - 1), |Joined(chunks, j)|, chunks[j], chunks[k - 1]);
    }
  }

  lemma {:induction false} WordChunks(chunks: seq<seq<byte>>, k: nat)
    requires k <= |chunks| && forall j :: 0 <= j < k ==> |chunks[j]| == 32
    ensures |Joined(chunks, k)| == 32 * k
  {
    if k > 0 {
      WordChunks(chunks, k - 1);
    }
  }

  /** One value, from its head and its tail. */
  lemma ReadPackedValue(v: Value, index: nat, offset: nat, data: seq<byte>)
    requires Encodable(v) && |data| < TWO_63
    requires Holds(data, index, Head(v, offset)) && Holds(data, offset, Tail(v))
    ensures ReadValue(index, TypeOf(v), data) == Ok(v)
  {
    match v
    case UintValue(n) => WordRoundTrip(n);
    case BytesValue(b) =>
      WordRoundTrip(offset);
      WordRoundTrip(|b|);
      HoldsBoth(data, offset, Word(|b|) + b, Zeros(Padding(|b|)));
      HoldsBoth(data, offset, Word(|b|), b);
  }

  /** Each value's head and tail stand where they are read. */
  lemma HeadHolds(vs: seq<Value>, j: nat)
    requires j < |vs|
    ensures Holds(Pack(vs), 32 * j, Head(vs[j], Offset(vs, j)))
  {
    var heads := Heads(vs);
    ChunkHolds(heads, j, |heads|);
    WordChunks(heads, j);
    HoldsInLeft(Joined(heads, |heads|), 32 * j, heads[j], Joined(Tails(vs), |vs|));
  }

  lemma ChunkHoldsAfter(before: seq<byte>, chunks: seq<seq<byte>>, j: nat)
    requires j < |chunks|
    ensures Holds(before + Joined(chunks, |chunks|), |before| + |Joined(chunks, j)|, chunks[j])
  {
    ChunkHolds(chunks, j, |chunks|);
    HoldsInRight(Joined(chunks, |chunks|), |Joined(chunks, j)|, chunks[j], before);
  }

  lemma HeadsAreWhole(vs: seq<Value>)
    ensures |Joined(Heads(vs), |vs|)| == 32 * |vs|
  {
    WordChunks(Heads(vs), |vs|);
  }

  lemma TailHolds(vs: seq<Value>, j: nat)
    requires j < |vs|
    ensures Holds(Pack(vs), Offset(vs, j), Tail(vs[j]))
  {
    HeadsAreWhole(vs);
    TailsHold(Joined(Heads(vs), |vs|), vs, j);
  }

  lemma TailsHold(before: seq<byte>, vs: seq<Value>, j: nat)
    requires j < |vs|
    ensures Holds(before + Joined(Tails(vs), |vs|), |before| + |Joined(Tails(vs), j)|, Tail(vs[j]))
  {
    ChunkHoldsAfter(before, Tails(vs), j);
  }

  lemma {:induction false} ReadOneByOne(vs: seq<Value>, types: seq<Type>, k: nat, data: seq<byte>)
    requires k <= |vs| && Typed(vs, types)
    requires forall j :: k <= j < |vs| ==> ReadValue(32 * j, types[j], data) == Ok(vs[j])
    ensures ReadValues(k, types, data) == Ok(vs[k..])
    decreases |vs| - k
  {
    if k < |vs| {
      ReadOneByOne(vs, types, k + 1, data);
      assert vs[k..] == [vs[k]] + vs[k + 1..];
    }
  }

  lemma UnpackPacked(vs: seq<Value>, types: seq<Type>)
    requires InRange(vs) && Typed(vs, types) && |Pack(vs)| < TWO_63
    ensures Unpack(types, Pack(vs)) == Ok(vs)
  {
    forall j | 0 <= j < |vs| ensures ReadValue(32 * j, types[j], Pack(vs)) == Ok(vs[j]) {
      HeadHolds(vs, j);
      TailHolds(vs, j);
      ReadPackedValue(vs[j], 32 * j, Offset(vs, j), Pack(vs));
    }
    ReadOneByOne(vs, types, 0, Pack(vs));
    assert vs[0..] == vs;
  }

  /** The reported position is the first at which the two strings differ. */
  lemma {:induction false} FirstDifferenceIs(a: seq<byte>, b: seq<byte>, from: nat)
    requires |a| == |b| && from <= |a|
    ensures var at := FirstDifference(a, b, from);
      && (at.None? <==> a[from..] == b[from..])
      && (at.Some? ==> from <= at.value < |a| && a[at.value] != b[at.value] && a[from..at.value] == b[from..at.value])
    decreases |a| - from
  {
    if from < |a| {
      FirstDifferenceIs(a, b, from + 1);
      assert a[from..] == [a[from]] + a[from + 1..] && b[from..] == [b[from]] + b[from + 1..];
      if a[from] == b[from] && FirstDifference(a, b, from).Some? {
        var at := FirstDifference(a, b, from).value;
        assert a[from..at] == [a[from]] + a[from + 1..at] && b[from..at] == [b[from]] + b[from + 1..at];
      }
    }
  }

  /** The strict decoder accepts exactly the canonical encodings, and gives back
      exactly the values that were encoded. The length bound is that of any Go
      byte slice. */
  lemma StrictIff(types: seq<Type>, data: seq<byte>, vs: seq<Value>)
    requires |data| < TWO_63
    ensures Strict(types, data) == Ok(vs) <==> Typed(vs, types) && InRange(vs) && data == Pack(vs)
  {
    if Typed(vs, types) && InRange(vs) && data == Pack(vs) {
      UnpackPacked(vs, types);
      FirstDifferenceIs(data, data, 0);
    }
    if Strict(types, data) == Ok(vs) {
      FirstDifferenceIs(Pack(vs), data, 0);
      assert Pack(vs)[0..] == Pack(vs) && data[0..] == data;
      if data != [] {
        ReadTyped(0, types, data);
        assert types[0..] == types;
      }
    }
  }

  /** What a refusal reports: what unpacking refuses, or how the encoding differs from
      the canonical one - in length, or first at this byte. */
  lemma StrictRefuses(types: seq<Type>, data: seq<byte>)
    requires Strict(types, data).Err?
    ensures var e := Strict(types, data).error;
      match Unpack(types, data)
      case Err(lenient) => e == lenient
      case Ok(vs) =>
        if |Pack(vs)| != |data| then e == WrongLength(|data|, |Pack(vs)|)
        else e.Mismatch? && e.at < |data| && Pack(vs)[e.at] != data[e.at] && Pack(vs)[..e.at] == data[..e.at]
  {
    match Unpack(types, data)
    case Err(lenient) =>
    case Ok(vs) =>
      if |Pack(vs)| == |data| {
        FirstDifferenceIs(Pack(vs), data, 0);
      }
  }

  /** No two lists of values of the same types are encoded alike. */
  lemma PackInjective(vs: seq<Value>, ws: seq<Value>, types: seq<Type>)
    requires InRange(vs) && InRange(ws) && Typed(vs, types) && Typed(ws, types) && |Pack(vs)| < TWO_63
    ensures Pack(vs) == Pack(ws) ==> vs == ws
  {
    UnpackPacked(vs, types);
    if Pack(vs) == Pack(ws) {
      UnpackPacked(ws, types);
    }
  }

  lemma {:induction false} WholeChunks(chunks: seq<seq<byte>>, k: nat)
    requires k <= |chunks| && forall j :: 0 <= j < k ==> |chunks[j]| % 32 == 0
    ensures |Joined(chunks, k)| % 32 == 0
  {
    if k > 0 {
      WholeChunks(chunks, k - 1);
    }
  }

  lemma TailIsWhole(v: Value)
    ensures |Tail(v)| % 32 == 0
  {
    if v.BytesValue? {
      PaddedLength(|v.b|);
    }
  }

  lemma TailsAreWhole(vs: seq<Value>)
    ensures |Joined(Tails(vs), |vs|)| % 32 == 0
  {
    var tails := Tails(vs);
    forall k | 0 <= k < |vs| ensures |tails[k]| % 32 == 0 {
      TailIsWhole(vs[k]);
    }
    WholeChunks(tails, |vs|);
  }

  lemma PackedIsWhole(vs: seq<Value>)
    ensures |Pack(vs)| % 32 == 0
  {
    HeadsAreWhole(vs);
    TailsAreWhole(vs);
    WholeTogether(Joined(Heads(vs), |vs|), Joined(Tails(vs), |vs|), |vs|);
  }

  lemma WholeTogether(a: seq<byte>, b: seq<byte>, n: nat)
    requires |a| == 32 * n && |b| % 32 == 0
    ensures |a + b| % 32 == 0
  {
  }

  /** Every accepted message is a whole number of 32-byte words. */
  lemma AcceptedIsWholeWords(types: seq<Type>, data: seq<byte>)
    requires |data| < TWO_63 && Strict(types, data).Ok?
    ensures |data| % 32 == 0
  {
    StrictIff(types, data, Strict(types, data).value);
    PackedIsWhole(Strict(types, data).value);
  }

  // ----- the two instruction messages

  const PlaceArgs: seq<Type> := [Uint256, Bytes]
  const CancelArgs: seq<Type> := [Uint256]

  datatype PlaceRequest = PlaceRequest(orderId: nat, ciphertext: seq<byte>)

  /** `abi.encode(id, ciphertext)`, written out: the id, the offset 0x40, the
      length, the ciphertext and its padding. */
  function PlaceMessage(id: nat, ciphertext: seq<byte>): seq<byte> {
    Word(id) + Word(0x40) + Word(|ciphertext|) + ciphertext + Zeros(Padding(|ciphertext|))
  }

  function DecodePlace(data: seq<byte>): Decoded<PlaceRequest> {
    match Strict(PlaceArgs, data)
    case Err(e) => Err(e)
    case Ok(vs) =>
      if |vs| == 2 && vs[0].UintValue? && vs[1].BytesValue? then Ok(PlaceRequest(vs[0].n, vs[1].b)) else Err(BadOffset)
  }

  function DecodeCancel(data: seq<byte>): Decoded<nat> {
    match Strict(CancelArgs, data)
    case Err(e) => Err(e)
    case Ok(vs) => if |vs| == 1 && vs[0].UintValue? then Ok(vs[0].n) else Err(BadOffset)
  }

  method DecodePlaceOrder(data: seq<byte>) returns (r: Decoded<PlaceRequest>)
    ensures r == DecodePlace(data)
  {
    var unpacked := UnpackStrict(PlaceArgs, data);
    if unpacked.Err? {
      return Err(unpacked.error);
    }
    var vs := unpacked.value;
    if |vs| == 2 && vs[0].UintValue? && vs[1].BytesValue? {
      return Ok(PlaceRequest(vs[0].n, vs[1].b));
    }
    return Err(BadOffset);
  }

  method DecodeCancelOrder(data: seq<byte>) returns (r: Decoded<nat>)
    ensures r == DecodeCancel(data)
  {
    var unpacked := UnpackStrict(CancelArgs, data);
    if unpacked.Err? {
      return Err(unpacked.error);
    }
    var vs := unpacked.value;
    if |vs| == 1 && vs[0].UintValue? {
      return Ok(vs[0].n);
    }
    return Err(BadOffset);
  }

  lemma JoinedTwo(a: seq<byte>, b: seq<byte>)
    ensures Joined([a, b], 1) == a && Joined([a, b], 2) == a + b
  {
    assert Joined([a, b], 0) == [];
    assert Joined([a, b], 1) == Joined([a, b], 0) + a == a;
    assert Joined([a, b], 2) == Joined([a, b], 1) + b;
  }

  lemma PlaceMessagePacks(id: nat, ciphertext: seq<byte>)
    ensures Pack([UintValue(id), BytesValue(ciphertext)]) == PlaceMessage(id, ciphertext)
  {
    var vs := [UintValue(id), BytesValue(ciphertext)];
    assert Tails(vs) == [[], Tail(vs[1])];
    JoinedTwo([], Tail(vs[1]));
    assert Offset(vs, 1) == 64;
    assert Heads(vs) == [Word(id), Word(64)];
    JoinedTwo(Word(id), Word(64));
  }

  /** Byte `i` of a number in one word. */
  ghost predicate WordByte(b: byte, n: nat, i: nat)
    requires i < 32
  {
    Pow(256, 31 - i) > 0 && b == n / Pow(256, 31 - i) % 256
  }

  lemma SmallWord(n: nat, i: nat)
    requires n < 256 && i < 32
    ensures Word(n)[i] == if i == 31 then n else 0
  {
    NumberByte(n, 32, i);
    if i < 31 {
      assert Pow(256, 31 - i) == 256 * Pow(256, 30 - i);
      PowPositive(256, 30 - i);
      SmallOver(n, Pow(256, 31 - i));
    } else {
      assert Pow(256, 0) == 1;
    }
  }

  lemma SmallOver(n: nat, d: nat)
    requires n < d
    ensures n / d == 0
  {
  }

  /** The vault's message byte by byte: the id, the offset 64, the length, the
      ciphertext, and zeros up to the next whole word. */
  lemma PlaceMessageBytes(id: nat, ciphertext: seq<byte>, i: nat)
    requires i < |PlaceMessage(id, ciphertext)|
    ensures |PlaceMessage(id, ciphertext)| == 96 + (|ciphertext| + 31) / 32 * 32
    ensures var b := PlaceMessage(id, ciphertext)[i];
      if i < 32 then WordByte(b, id, i)
      else if i < 64 then b == (if i == 63 then 64 else 0)
      else if i < 96 then WordByte(b, |ciphertext|, i - 64)
      else if i < 96 + |ciphertext| then b == ciphertext[i - 96]
      else b == 0
  {
    PaddedLength(|ciphertext|);
    if i < 32 {
      NumberByte(id, 32, i);
    } else if i < 64 {
      SmallWord(64, i - 32);
    } else if i < 96 {
      NumberByte(|ciphertext|, 32, i - 64);
    }
  }

  /** A placement is decoded exactly when it is the vault's own message, for every
      id and every ciphertext. */
  lemma PlaceDecodesIff(data: seq<byte>, id: nat, ciphertext: seq<byte>)
    requires |data| < TWO_63
    ensures DecodePlace(data) == Ok(PlaceRequest(id, ciphertext)) <==> id < TWO_256 && data == PlaceMessage(id, ciphertext)
  {
    var vs := [UintValue(id), BytesValue(ciphertext)];
    PlaceMessagePacks(id, ciphertext);
    StrictIff(PlaceArgs, data, vs);
    assert Typed(vs, PlaceArgs) && (InRange(vs) <==> Encodable(vs[0]));
    if DecodePlace(data) == Ok(PlaceRequest(id, ciphertext)) {
      assert Strict(PlaceArgs, data).value == vs;
    }
  }

  lemma CancelDecodesIff(data: seq<byte>, id: nat)
    requires |data| < TWO_63
    ensures DecodeCancel(data) == Ok(id) <==> id < TWO_256 && data == Word(id)
  {
    var vs := [UintValue(id)];
    assert Joined(Tails(vs), 1) == Joined(Tails(vs), 0) + Tails(vs)[0] == [];
    assert Joined(Heads(vs), 1) == Joined(Heads(vs), 0) + Heads(vs)[0] == Word(id);
    assert Pack(vs) == Word(id);
    StrictIff(CancelArgs, data, vs);
    assert Typed(vs, CancelArgs) && (InRange(vs) <==> Encodable(vs[0]));
    if DecodeCancel(data) == Ok(id) {
      assert Strict(CancelArgs, data).value == vs;
    }
  }

  /** The type assertions after a strict decode cannot fail. */
  lemma TypesAreAsAsked(types: seq<Type>, data: seq<byte>)
    requires |data| < TWO_63
    ensures Strict(types, data).Ok? ==> Typed(Strict(types, data).value, types)
  {
    if Strict(types, data).Ok? {
      StrictIff(types, data, Strict(types, data).value);
    }
  }
}
