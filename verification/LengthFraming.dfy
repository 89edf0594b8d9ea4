/** Length-prefixed framing (ObjectEncoderDecoder.java): four bytes of big-endian int length, then
    that many payload bytes. Serialization itself is taken as given: a payload is its bytes. */
module LengthFraming {
  import opened NulFraming

  type Byte = b: nat | b < 256

  const TWO_31: nat := 0x8000_0000

  /** ByteBuffer.getInt on the four bytes: big-endian, two's complement. */
  function SignedInt(bs: seq<Byte>): int
    requires |bs| == 4
  {
    var b0: int := bs[0];
    var u := ((b0 * 256 + bs[1]) * 256 + bs[2]) * 256 + bs[3];
    if u >= TWO_31 then u - 2 * TWO_31 else u
  }

  /** ByteBuffer.putInt of a non-negative int. */
  function Prefix(n: nat): (bs: seq<Byte>)
    requires n < TWO_31
    ensures |bs| == 4 && SignedInt(bs) == n
  {
    var high := n / 256;
    var top := high / 256;
    [top / 256, top % 256, high % 256, n % 256]
  }

  /** Most significant byte first. */
  lemma BigEndian(n: nat)
    requires n < TWO_31
    ensures Prefix(n)[3] as int == n % 256 && Prefix(n)[2] as int == n / 256 % 256
    ensures Prefix(n)[1] as int == n / 256 / 256 % 256 && Prefix(n)[0] as int == n / 256 / 256 / 256
  {
  }

  /** What the decoder has: the bytes of a length, or of a payload of a known size. */
  datatype Phase = Length(got: seq<Byte>) | Payload(size: nat, got: seq<Byte>)

  datatype Outcome = Nothing | Object(payload: seq<Byte>) | Threw

  /** decodeNextByte. A full length buffer overflows, a negative length cannot be allocated and
      leaves the buffer full, and a payload of size 0 has no room for any byte. */
  function FeedByte(p: Phase, b: Byte): (Phase, Outcome) {
    match p
    case Length(got) =>
      if |got| >= 4 then (p, Threw)
      else if |got| < 3 then (Length(got + [b]), Nothing)
      else if SignedInt(got + [b]) < 0 then (Length(got + [b]), Threw)
      else (Payload(SignedInt(got + [b]), []), Nothing)
    case Payload(size, got) =>
      if |got| >= size then (p, Threw)
      else if |got| + 1 == size then (Length([]), Object(got + [b]))
      else (Payload(size, got + [b]), Nothing)
  }

  /** A decoder fed a byte history: where it is, what it has produced, and whether it has thrown. */
  datatype Decoding = Decoding(phase: Phase, objects: seq<seq<Byte>>, threw: bool)

  function Step(d: Decoding, b: Byte): Decoding {
    if d.threw then d
    else
      var (p, out) := FeedByte(d.phase, b);
      Decoding(p, if out.Object? then d.objects + [out.payload] else d.objects, out.Threw?)
  }

  function Decode(d: Decoding, bytes: seq<Byte>): Decoding {
    if bytes == [] then d else Step(Decode(d, bytes[..|bytes| - 1]), bytes[|bytes| - 1])
  }

  const START := Decoding(Length([]), [], false)

  /** How the bytes are cut into chunks does not matter. */
  lemma {:induction false} DecodeConcat(d: Decoding, bytes: seq<Byte>, more: seq<Byte>)
    ensures Decode(d, bytes + more) == Decode(Decode(d, bytes), more)
    decreases |more|
  {
    if more == [] {
      assert bytes + more == bytes;
    } else {
      assert (bytes + more)[..|bytes + more| - 1] == bytes + more[..|more| - 1];
      DecodeConcat(d, bytes, more[..|more| - 1]);
    }
  }

  function EncodeObject(payload: seq<Byte>): seq<Byte>
    requires |payload| < TWO_31
  {
    Prefix(|payload|) + payload
  }

  function ObjectWire(payloads: seq<seq<Byte>>): seq<Byte>
    requires forall p :: p in payloads ==> |p| < TWO_31
  {
    if payloads == [] then [] else ObjectWire(payloads[..|payloads| - 1]) + EncodeObject(payloads[|payloads| - 1])
  }

  lemma DecodeAppend(d: Decoding, bytes: seq<Byte>, b: Byte)
    ensures Decode(d, bytes + [b]) == Step(Decode(d, bytes), b)
  {
    assert (bytes + [b])[..|bytes|] == bytes;
  }

  lemma DecodeLength(objects: seq<seq<Byte>>, n: nat)
    requires n < TWO_31
    ensures Decode(Decoding(Length([]), objects, false), Prefix(n)) == Decoding(Payload(n, []), objects, false)
  {
    var d := Decoding(Length([]), objects, false);
    var bs := Prefix(n);
    DecodeAppend(d, [], bs[0]);
    DecodeAppend(d, [bs[0]], bs[1]);
    DecodeAppend(d, [bs[0], bs[1]], bs[2]);
    DecodeAppend(d, [bs[0], bs[1], bs[2]], bs[3]);
    assert [] + [bs[0]] == [bs[0]] && [bs[0]] + [bs[1]] == [bs[0], bs[1]];
    assert [bs[0], bs[1]] + [bs[2]] == [bs[0], bs[1], bs[2]];
    assert [bs[0], bs[1], bs[2]] + [bs[3]] == bs;
  }

  /** Payload bytes pile up until the size is reached. */
  lemma {:induction false} DecodePayload(objects: seq<seq<Byte>>, payload: seq<Byte>, k: nat)
    requires k <= |payload| && payload != []
    ensures Decode(Decoding(Payload(|payload|, []), objects, false), payload[..k])
            == if k < |payload| then Decoding(Payload(|payload|, payload[..k]), objects, false)
               else Decoding(Length([]), objects + [payload], false)
    decreases k
  {
    if k > 0 {
      DecodePayload(objects, payload, k - 1);
      assert payload[..k] == payload[..k - 1] + [payload[k - 1]];
      DecodeAppend(Decoding(Payload(|payload|, []), objects, false), payload[..k - 1], payload[k - 1]);
      if k == |payload| { assert payload[..k] == payload; }
    }
  }

  lemma DecodeObject(objects: seq<seq<Byte>>, payload: seq<Byte>)
    requires 1 <= |payload| < TWO_31
    ensures Decode(Decoding(Length([]), objects, false), EncodeObject(payload))
            == Decoding(Length([]), objects + [payload], false)
  {
    DecodeConcat(Decoding(Length([]), objects, false), Prefix(|payload|), payload);
    DecodeLength(objects, |payload|);
    DecodePayload(objects, payload, |payload|);
    assert payload[..|payload|] == payload;
  }

  lemma DecodeMore(bytes: seq<Byte>, objects: seq<seq<Byte>>, payload: seq<Byte>)
    requires Decode(START, bytes) == Decoding(Length([]), objects, false) && 1 <= |payload| < TWO_31
    ensures Decode(START, bytes + EncodeObject(payload)) == Decoding(Length([]), objects + [payload], false)
  {
    DecodeConcat(START, bytes, EncodeObject(payload));
    DecodeObject(objects, payload);
  }

  /** Round trip for any sequence of payloads: the decoder yields exactly them, in order, and ends in
      its initial phase. */
  lemma {:induction false} DecodeInvertsWire(payloads: seq<seq<Byte>>)
    requires forall p :: p in payloads ==> 1 <= |p| < TWO_31
    ensures Decode(START, ObjectWire(payloads)) == Decoding(Length([]), payloads, false)
    decreases |payloads|
  {
    if payloads != [] {
      var front, last := payloads[..|payloads| - 1], payloads[|payloads| - 1];
      DecodeInvertsWire(front);
      DecodeMore(ObjectWire(front), front, last);
      assert front + [last] == payloads;
    }
  }

  /** An empty payload never comes out, and the first byte after it throws. */
  lemma EmptyPayloadWedges(objects: seq<seq<Byte>>, b: Byte)
    ensures Decode(Decoding(Length([]), objects, false), EncodeObject([])) == Decoding(Payload(0, []), objects, false)
    ensures Decode(Decoding(Length([]), objects, false), EncodeObject([]) + [b])
            == Decoding(Payload(0, []), objects, true)
  {
    DecodeLength(objects, 0);
    assert Prefix(0) + [] == Prefix(0);
    assert (Prefix(0) + [b])[..4] == Prefix(0);
  }

  /** One encoded payload is decoded to itself exactly when it is not empty. */
  lemma RoundTripExactly(payload: seq<Byte>)
    requires |payload| < TWO_31
    ensures Decode(START, EncodeObject(payload)).objects == [payload] <==> payload != []
  {
    if payload == [] {
      EmptyPayloadWedges([], 0);
    } else {
      DecodeObject([], payload);
      assert [] + [payload] == [payload];
    }
  }

  /** ObjectEncoderDecoder: the length buffer with its position, and the payload being filled. */
  class ObjectEncoderDecoder {
    const lengthBuffer: array<Byte>
    var position: nat
    var objectBytes: array?<Byte>
    var objectBytesIndex: nat
    ghost var phase: Phase

    ghost predicate Valid()
      reads this, lengthBuffer, objectBytes
    {
      && lengthBuffer.Length == 4 && position <= 4
      && (objectBytes == null ==> phase == Length(lengthBuffer[..position]))
      && (objectBytes != null ==>
           && objectBytes != lengthBuffer && position == 0
           && objectBytesIndex <= objectBytes.Length
           && (objectBytesIndex == objectBytes.Length ==> objectBytes.Length == 0)
           && phase == Payload(objectBytes.Length, objectBytes[..objectBytesIndex]))
    }

    constructor ()
      ensures Valid() && phase == START.phase && fresh(lengthBuffer) && objectBytes == null
    {
      lengthBuffer := new Byte[4](_ => 0);
      position, objectBytes, objectBytesIndex := 0, null, 0;
      phase := Length([]);
      new;
      assert lengthBuffer[..0] == [];
    }

    /** One byte, exactly as FeedByte says, also after an exception: it keeps the fields FeedByte says
        it keeps, and the object may be called again. */
    method DecodeNextByte(nextByte: Byte) returns (result: Option<seq<Byte>>, threw: bool)
      requires Valid()
      modifies this, lengthBuffer, objectBytes
      ensures Valid()
      ensures objectBytes == null || objectBytes == old(objectBytes) || fresh(objectBytes)
      ensures phase == FeedByte(old(phase), nextByte).0
      ensures FeedByte(old(phase), nextByte).1
              == if threw then Threw else if result.Some? then Object(result.value) else Nothing
    {
      result, threw := None, false;
      ghost var before := phase;
      phase := FeedByte(phase, nextByte).0;
      if objectBytes == null {
        if position == 4 { return None, true; }
        lengthBuffer[position] := nextByte;
        assert lengthBuffer[..position + 1] == before.got + [nextByte];
        position := position + 1;
        if position == 4 {
          assert lengthBuffer[..4] == lengthBuffer[..];
          var size := SignedInt(lengthBuffer[..]);
          if size < 0 { return None, true; }
          objectBytes := new Byte[size](_ => 0);
          objectBytesIndex, position := 0, 0;
          assert objectBytes[..0] == [];
        }
      } else {
        if objectBytesIndex == objectBytes.Length { return None, true; }
        objectBytes[objectBytesIndex] := nextByte;
        assert objectBytes[..objectBytesIndex + 1] == before.got + [nextByte];
        objectBytesIndex := objectBytesIndex + 1;
        if objectBytesIndex == objectBytes.Length {
          assert objectBytes[..objectBytesIndex] == objectBytes[..];
          result := Some(objectBytes[..]);
          objectBytes := null;
          assert lengthBuffer[..0] == [];
        }
      }
    }

    /** serializeObject: four placeholder bytes, the payload, then the length patched in. */
    static method SerializeObject(payload: seq<Byte>) returns (result: array<Byte>)
      requires |payload| < TWO_31 - 4
      ensures fresh(result) && result[..] == EncodeObject(payload)
    {
      var bytes: seq<Byte> := [];
      for i := 0 to 4
        invariant |bytes| == i
      {
        bytes := bytes + [0];
      }
      bytes := bytes + payload;
      result := new Byte[|bytes|](i requires 0 <= i < |bytes| => bytes[i]);
      assert result[4..] == payload;
      var size := Prefix(result.Length - 4);
      result[0], result[1], result[2], result[3] := size[0], size[1], size[2], size[3];
      assert result[..4] == size;
      assert result[4..] == payload;
      assert result[..] == result[..4] + result[4..];
    }
  }
}
