/** The two instruction handlers: from a vault's message to the order store. */
module Instructions {
  import opened Numbers
  import opened EnclaveStore
  import O = OrderBook
  import A = AbiCodec
  import E = PolicyEnvelope
  import R = PolicyRoundTrip
  import Settlement

  /** ECIES decryption with the enclave's key, as a function of the ciphertext. */
  type Decryptor = seq<A.byte> -> Option<string>

  /** `orderIDToUint64`: vault ids start at 1 and the store keys by uint64. */
  function OrderId(n: nat): Option<uint64> {
    if 0 < n <= MAX_UINT64 then Some(n) else None
  }

  /** The order that a PLACE_ORDER message asks for, if the message is accepted. */
  ghost function Requested(data: seq<A.byte>, decrypt: Decryptor): Option<O.Order> {
    match A.DecodePlace(data)
    case Err(_) => None
    case Ok(request) =>
      var id, plaintext := OrderId(request.orderId), decrypt(request.ciphertext);
      if id.None? || plaintext.None? then None
      else
        var policy := E.Parse(plaintext.value);
        if policy.None? then None else Some(R.OrderOf(id.value, policy.value))
  }

  ghost function Placed(b: O.Book, data: seq<A.byte>, decrypt: Decryptor, now: int): O.Book {
    var order := Requested(data, decrypt);
    if order.None? then b else O.Put(b, order.value, now)
  }

  ghost function Cancelled(b: O.Book, data: seq<A.byte>): O.Book {
    match A.DecodeCancel(data)
    case Err(_) => b
    case Ok(n) => if OrderId(n).None? then b else O.Delete(b, n)
  }

  method ProcessPlaceOrder(store: Store, data: seq<A.byte>, decrypt: Decryptor, now: int) returns (accepted: Option<uint64>)
    requires store.Valid()
    modifies store
    ensures store.Valid() && store.book == Placed(old(store.book), data, decrypt, now)
    ensures accepted.Some? <==>
      var order := Requested(data, decrypt);
      order.Some? && O.PutCheck(old(store.book), order.value, now) == O.Stored
    ensures accepted.Some? ==> accepted.value == Requested(data, decrypt).value.id
  {
    var request := A.DecodePlaceOrder(data);
    if request.Err? {
      return None;
    }
    var id := OrderId(request.value.orderId);
    if id.None? {
      return None;
    }
    var plaintext := decrypt(request.value.ciphertext);
    if plaintext.None? {
      return None;
    }
    var policy := E.ParseOrderPlaintext(plaintext.value);
    if policy.None? {
      return None;
    }
    var trigger, bps := null, 0;
    match policy.value {
      case Fixed(t) => trigger := new BigInt(t);
      case Trailing(n) => bps := n;
    }
    var outcome := store.Put(Record(id.value, trigger, bps, null, O.Open), now);
    return if outcome == O.Stored then id else None;
  }

  method ProcessCancelOrder(store: Store, data: seq<A.byte>) returns (dropped: Option<uint64>)
    requires store.Valid()
    modifies store
    ensures store.Valid() && store.book == Cancelled(old(store.book), data)
    ensures dropped.Some? <==>
      var n := A.DecodeCancel(data);
      n.Ok? && OrderId(n.value).Some? && n.value in old(store.book).orders
  {
    var request := A.DecodeCancelOrder(data);
    if request.Err? {
      return None;
    }
    var id := OrderId(request.value);
    if id.None? {
      return None;
    }
    var found := store.Delete(id.value);
    return if found then id else None;
  }

  // ----- what reaches the store

  /** The effect of a policy as a step of the settlement model. */
  function InstructionOf(id: uint64, p: E.Policy, now: int): Settlement.Instruction {
    match p
    case Fixed(trigger) => Settlement.Place(id, Some(trigger), 0, now)
    case Trailing(bps) => Settlement.Place(id, None, bps, now)
  }

  lemma PlacementIsAnInstruction(b: O.Book, id: uint64, p: E.Policy, now: int)
    ensures O.Put(b, R.OrderOf(id, p), now) == Settlement.Handle(b, InstructionOf(id, p, now))
  {
  }

  /** Whatever message arrives, the store changes as by one instruction of the
      settlement model or not at all. */
  lemma MessagesAreInstructions(b: O.Book, data: seq<A.byte>, decrypt: Decryptor, now: int)
    ensures Placed(b, data, decrypt, now) == b || exists x :: Placed(b, data, decrypt, now) == Settlement.Handle(b, x)
    ensures Cancelled(b, data) == b || exists x :: Cancelled(b, data) == Settlement.Handle(b, x)
  {
    if Requested(data, decrypt).Some? {
      var request := A.DecodePlace(data).value;
      PlacementIsAnInstruction(b, request.orderId, E.Parse(decrypt(request.ciphertext).value).value, now);
    }
    if A.DecodeCancel(data).Ok? {
      assert Settlement.Handle(b, Settlement.Cancel(A.DecodeCancel(data).value)) == O.Delete(b, A.DecodeCancel(data).value);
    }
  }

  /** What a message of the vault asks for, given its decrypted plaintext. */
  lemma MessageAsks(id: nat, ciphertext: seq<A.byte>, decrypt: Decryptor, policy: E.Policy)
    requires 0 < id < TWO_256 && |A.PlaceMessage(id, ciphertext)| < TWO_63
    requires decrypt(ciphertext).Some? && E.Parse(decrypt(ciphertext).value) == Some(policy)
    ensures Requested(A.PlaceMessage(id, ciphertext), decrypt) == if id <= MAX_UINT64 then Some(R.OrderOf(id, policy)) else None
  {
    A.PlaceDecodesIff(A.PlaceMessage(id, ciphertext), id, ciphertext);
  }

  /** A fixed stop placed through the browser and the vault is stored with exactly
      its price, unless its id is taken or does not fit the store's keys. */
  lemma FixedStopArrives(b: O.Book, id: nat, price: string, ciphertext: seq<A.byte>, decrypt: Decryptor, now: int)
    requires 0 < id < TWO_256 && |A.PlaceMessage(id, ciphertext)| < TWO_63
    requires E.FixedGuard(price) && decrypt(ciphertext) == E.FixedPlaintext(price)
    ensures var after := Placed(b, A.PlaceMessage(id, ciphertext), decrypt, now);
      if id <= MAX_UINT64 && id !in b.orders
      then after == b.(orders := b.orders[id := O.Order(id, Some(E.DigitsValue(price)), 0, None, O.Open)])
      else after == b
  {
    R.FixedRoundTrip(price);
    MessageAsks(id, ciphertext, decrypt, E.Fixed(E.DigitsValue(price)));
    if id <= MAX_UINT64 {
      R.ParsedPolicyIsStorable(E.FixedPlaintext(price).value, id, b, now);
    }
  }

  /** A trailing stop is stored with exactly its distance and the last sample as
      its watermark, if that sample is recent enough. */
  lemma TrailingStopArrives(b: O.Book, id: nat, bps: int, ciphertext: seq<A.byte>, decrypt: Decryptor, now: int)
    requires 0 < id < TWO_256 && |A.PlaceMessage(id, ciphertext)| < TWO_63
    requires 25 <= bps <= 5000 && decrypt(ciphertext) == E.TrailingPlaintext(bps)
    ensures var after := Placed(b, A.PlaceMessage(id, ciphertext), decrypt, now);
      if id <= MAX_UINT64 && id !in b.orders && O.TrailingReady(b, now)
      then after == b.(orders := b.orders[id := O.Order(id, None, bps, b.latest, O.Open)])
      else after == b
  {
    R.TrailingRoundTrip(bps);
    MessageAsks(id, ciphertext, decrypt, E.Trailing(bps));
    if id <= MAX_UINT64 {
      R.ParsedPolicyIsStorable(E.TrailingPlaintext(bps).value, id, b, now);
    }
  }

  /** A cancellation message of the vault drops exactly that order. */
  lemma CancellationArrives(b: O.Book, id: nat)
    requires 0 < id < TWO_256
    ensures Cancelled(b, A.Word(id)) == if id <= MAX_UINT64 then O.Delete(b, id) else b
  {
    A.CancelDecodesIff(A.Word(id), id);
  }
}
