/** Byte-level helpers of the relay channel (apps/mobile/src/control-plane/relay-channel.ts) and the
    relay frame format (packages/cloud-contracts/src/relay-frame.ts). */
module RelayCodec {
  import opened OrderedMap

  type Byte = b: int | 0 <= b < 256

  // ----------------------------------------------------------- big-endian numbers

  function Pow256(n: nat): nat
    ensures Pow256(n) > 0
  {
    if n == 0 then 1 else 256 * Pow256(n - 1)
  }

  /** The low `n` bytes of a number, most significant first. */
  function BigEndian(value: nat, n: nat): (bytes: seq<Byte>)
    ensures |bytes| == n
  {
    if n == 0 then [] else BigEndian(value / 256, n - 1) + [value % 256]
  }

  function FromBigEndian(bytes: seq<Byte>): nat {
    if bytes == [] then 0 else FromBigEndian(bytes[..|bytes| - 1]) * 256 + bytes[|bytes| - 1]
  }

  lemma ModSplit(value: nat, m: nat)
    requires m > 0
    ensures value % (256 * m) == value / 256 % m * 256 + value % 256
  {
    var q, r := value / 256 / m, value / 256 % m;
    var low := r * 256 + value % 256;
    assert value / 256 == q * m + r;
    assert value == q * (256 * m) + low by {
      assert value == (q * m + r) * 256 + value % 256;
      assert (q * m) * 256 == q * (256 * m);
    }
    assert low < 256 * m by {
      assert r <= m - 1;
      assert r * 256 <= (m - 1) * 256;
    }
    QuotientRemainder(value, 256 * m, q, low);
  }

  lemma QuotientRemainder(value: nat, m: nat, q: nat, r: nat)
    requires m > 0 && value == q * m + r && r < m
    ensures value % m == r
  {
    var d := value / m;
    Division(value, m);
    if q < d {
      NextMultiple(q, d, m);
    } else if d < q {
      NextMultiple(d, q, m);
    }
  }

  lemma Division(value: nat, m: nat)
    requires m > 0
    ensures value == value / m * m + value % m
  {
  }

  lemma NextMultiple(a: nat, b: nat, m: nat)
    requires a < b
    ensures a * m + m <= b * m
  {
    var k := b - a - 1;
    assert b * m == (a + 1 + k) * m == a * m + m + k * m;
  }

  /** The bytes are the number modulo 256 to the power of their count: reading them back ... */
  lemma {:induction false} BigEndianReadsBack(value: nat, n: nat)
    ensures FromBigEndian(BigEndian(value, n)) == value % Pow256(n)
  {
    if n > 0 {
      var bytes := BigEndian(value, n);
      assert bytes[..n - 1] == BigEndian(value / 256, n - 1);
      BigEndianReadsBack(value / 256, n - 1);
      ModSplit(value, Pow256(n - 1));
    }
  }

  /** ... and writing back what was read. */
  lemma {:induction false} BigEndianWritesBack(bytes: seq<Byte>)
    ensures BigEndian(FromBigEndian(bytes), |bytes|) == bytes
    ensures FromBigEndian(bytes) < Pow256(|bytes|)
  {
    if bytes != [] {
      var n := |bytes| - 1;
      BigEndianWritesBack(bytes[..n]);
      var high := FromBigEndian(bytes[..n]);
      assert (high * 256 + bytes[n]) / 256 == high && (high * 256 + bytes[n]) % 256 == bytes[n];
    }
  }

  // ------------------------------------------------------------------- nonces

  function Zeros(n: nat): (zeros: seq<Byte>)
    ensures |zeros| == n && forall i :: 0 <= i < n ==> zeros[i] == 0
  {
    if n == 0 then [] else Zeros(n - 1) + [0]
  }

  function NonceBytes(direction: nat, counter: nat): (bytes: seq<Byte>)
    ensures |bytes| == 24
  {
    [direction % 256] + Zeros(17) + BigEndian(counter, 6)
  }

  /** The loop that fills the nonce from its end, with the division of the source. */
  method Nonce(direction: nat, counter: nat) returns (value: array<Byte>)
    ensures fresh(value) && value[..] == NonceBytes(direction, counter)
  {
    value := new Byte[24](_ => 0);
    value[0] := direction % 256;
    for index := 0 to 6
      invariant value[0] == direction % 256
      invariant forall k :: 1 <= k < 24 - index ==> value[k] == 0
      invariant value[24 - index..] == BigEndian(counter, index)
    {
      DigitAt(counter, index);
      value[23 - index] := counter / Pow256(index) % 256;
      assert value[24 - index..] == BigEndian(counter, index);
      assert value[23 - index..] == [value[23 - index]] + value[24 - index..];
    }
    assert value[..] == value[..18] + value[18..];
    assert value[..18] == [direction % 256] + Zeros(17);
  }

  /** One more byte in front is the number divided by a power of 256. */
  lemma {:induction false} DigitAt(value: nat, n: nat)
    ensures BigEndian(value, n + 1) == [value / Pow256(n) % 256] + BigEndian(value, n)
  {
    if n == 0 {
      assert BigEndian(value / 256, 0) == [];
    } else {
      DigitAt(value / 256, n - 1);
      DivideTwice(value, Pow256(n - 1));
      assert BigEndian(value, n + 1) == BigEndian(value / 256, n) + [value % 256];
    }
  }

  lemma DivideTwice(value: nat, m: nat)
    requires m > 0
    ensures value / 256 / m == value / (256 * m)
  {
    ModSplit(value, m);
    var q, r := value / 256 / m, value / 256 % m;
    var low := r * 256 + value % 256;
    assert value / 256 == q * m + r;
    assert value == (q * m + r) * 256 + value % 256;
    assert (q * m) * 256 == q * (256 * m);
    assert value == q * (256 * m) + low;
    var d := value / (256 * m);
    assert value == d * (256 * m) + low;
    assert d * (256 * m) == q * (256 * m);
    SameQuotient(d, q, 256 * m);
  }

  lemma SameQuotient(a: int, b: int, m: nat)
    requires m > 0 && a * m == b * m
    ensures a == b
  {
    assert (a - b) * m == 0;
  }

  /** Two nonces are equal exactly when their directions are equal modulo 2^8 and their counters
      modulo 2^48. */
  lemma NonceEqualIff(d1: nat, c1: nat, d2: nat, c2: nat)
    ensures NonceBytes(d1, c1) == NonceBytes(d2, c2) <==> d1 % 256 == d2 % 256 && c1 % Pow256(6) == c2 % Pow256(6)
    ensures Pow256(6) == 0x1_0000_0000_0000
  {
    BigEndianReadsBack(c1, 6);
    BigEndianReadsBack(c2, 6);
    assert NonceBytes(d1, c1)[18..] == BigEndian(c1, 6) && NonceBytes(d2, c2)[18..] == BigEndian(c2, 6);
    if c1 % Pow256(6) == c2 % Pow256(6) {
      BigEndianWritesBack(BigEndian(c1, 6));
      BigEndianWritesBack(BigEndian(c2, 6));
    }
    assert NonceBytes(d1, c1)[0] == d1 % 256 && NonceBytes(d2, c2)[0] == d2 % 256;
    assert Pow256(6) == 256 * (256 * (256 * (256 * (256 * (256 * Pow256(0))))));
  }

  // ------------------------------------------------------------------ concat

  function Flatten(values: seq<seq<Byte>>): seq<Byte> {
    if values == [] then [] else Flatten(values[..|values| - 1]) + values[|values| - 1]
  }

  lemma {:induction false} FlattenPrefix(values: seq<seq<Byte>>, i: nat)
    requires i <= |values|
    ensures |Flatten(values[..i])| <= |Flatten(values)|
    decreases |values| - i
  {
    if i == |values| {
      assert values[..i] == values;
    } else {
      FlattenPrefix(values, i + 1);
      assert values[..i + 1][..i] == values[..i];
    }
  }

  method Concat(values: seq<seq<Byte>>) returns (result: array<Byte>)
    ensures fresh(result) && result[..] == Flatten(values)
  {
    var length := 0;
    for i := 0 to |values|
      invariant length == |Flatten(values[..i])|
    {
      length := length + |values[i]|;
      assert values[..i + 1][..i] == values[..i];
    }
    assert values[..|values|] == values;
    result := new Byte[length](_ => 0);
    var offset := 0;
    for i := 0 to |values|
      invariant offset == |Flatten(values[..i])| <= result.Length == length
      invariant result[..offset] == Flatten(values[..i])
    {
      FlattenPrefix(values, i + 1);
      assert values[..i + 1][..i] == values[..i];
      Place(result, offset, values[i]);
      assert result[..offset + |values[i]|] == result[..offset] + values[i];
      offset := offset + |values[i]|;
    }
    assert result[..] == result[..offset];
  }

  /** `Uint8Array.set`. */
  method Place(target: array<Byte>, offset: nat, source: seq<Byte>)
    requires offset + |source| <= target.Length
    modifies target
    ensures target[..offset] == old(target[..offset])
    ensures target[offset..offset + |source|] == source
  {
    for k := 0 to |source|
      invariant target[..offset] == old(target[..offset])
      invariant target[offset..offset + k] == source[..k]
    {
      target[offset + k] := source[k];
      assert target[offset..offset + k + 1] == target[offset..offset + k] + [source[k]];
    }
  }

  // ------------------------------------------------------------------ frames

  const RELAY_FRAME_MAGIC: Byte := 0x52
  const RELAY_FRAME_VERSION: Byte := 2
  const RELAY_FRAME_HEADER_BYTES: nat := 8
  const RELAY_FRAME_MAX_PAYLOAD_BYTES: nat := 1024 * 1024

  datatype Kind = Handshake | Data | Cancel | WindowUpdate | Close

  /** `sequence` and `flags` are any integers; encoding refuses those that do not fit. */
  datatype Frame = Frame(kind: Kind, sequence: int, flags: int, payload: seq<Byte>)

  datatype Result<T> = Ok(value: T) | Invalid | TooLarge

  function KindCode(kind: Kind): Byte {
    match kind
    case Handshake => 0
    case Data => 1
    case Cancel => 2
    case WindowUpdate => 3
    case Close => 4
  }

  function KindOf(code: Byte): Option<Kind> {
    match code
    case 0 => Some(Handshake)
    case 1 => Some(Data)
    case 2 => Some(Cancel)
    case 3 => Some(WindowUpdate)
    case 4 => Some(Close)
    case _ => None
  }

  function EncodeFrame(frame: Frame): Result<seq<Byte>> {
    if frame.sequence < 0 || frame.sequence > 0xffff_ffff then Invalid
    else if frame.flags != 0 && frame.flags != 1 then Invalid
    else if |frame.payload| > RELAY_FRAME_MAX_PAYLOAD_BYTES then TooLarge
    else Ok([RELAY_FRAME_MAGIC, RELAY_FRAME_VERSION, frame.flags, KindCode(frame.kind)] + BigEndian(frame.sequence, 4) + frame.payload)
  }

  function DecodeFrame(raw: seq<Byte>): Result<Frame> {
    if |raw| < RELAY_FRAME_HEADER_BYTES || raw[0] != RELAY_FRAME_MAGIC || raw[1] != RELAY_FRAME_VERSION then Invalid
    else if raw[2] != 0 && raw[2] != 1 then Invalid
    else if KindOf(raw[3]).None? then Invalid
    else if |raw| - RELAY_FRAME_HEADER_BYTES > RELAY_FRAME_MAX_PAYLOAD_BYTES then TooLarge
    else Ok(Frame(KindOf(raw[3]).value, FromBigEndian(raw[4..8]), raw[2], raw[8..]))
  }

  /** Whatever can be encoded is decoded again. */
  lemma DecodeEncode(frame: Frame)
    ensures EncodeFrame(frame).Ok? ==> DecodeFrame(EncodeFrame(frame).value) == Ok(frame)
  {
    if EncodeFrame(frame).Ok? {
      var raw := EncodeFrame(frame).value;
      assert raw[4..8] == BigEndian(frame.sequence, 4) && raw[8..] == frame.payload;
      BigEndianReadsBack(frame.sequence, 4);
      assert Pow256(4) == 256 * (256 * (256 * (256 * Pow256(0))));
    }
  }

  /** Whatever can be decoded is the encoding of what it decodes to: a frame has one encoding. */
  lemma EncodeDecode(raw: seq<Byte>)
    ensures DecodeFrame(raw).Ok? ==> EncodeFrame(DecodeFrame(raw).value) == Ok(raw)
  {
    if DecodeFrame(raw).Ok? {
      BigEndianWritesBack(raw[4..8]);
      assert Pow256(4) == 256 * (256 * (256 * (256 * Pow256(0))));
      assert raw[..4] == [RELAY_FRAME_MAGIC, RELAY_FRAME_VERSION, raw[2], raw[3]];
      assert raw == raw[..4] + raw[4..8] + raw[8..];
    }
  }

  // ------------------------------------------------------------------ layout

  /** Byte by byte: the direction, seventeen zeros, then the counter's low six bytes, most significant
      first. */
  lemma NonceLayout(direction: nat, counter: nat)
    ensures var bytes := NonceBytes(direction, counter);
      && bytes[0] == direction % 256 && (forall k :: 1 <= k < 18 ==> bytes[k] == 0)
      && forall k :: 0 <= k < 6 ==> bytes[23 - k] == counter / Pow256(k) % 256
  {
    forall k | 0 <= k < 6 ensures BigEndian(counter, 6)[5 - k] == counter / Pow256(k) % 256 {
      DigitOf(counter, 6, k);
    }
    assert NonceBytes(direction, counter)[18..] == BigEndian(counter, 6);
  }

  lemma {:induction false} DigitOf(value: nat, n: nat, k: nat)
    requires k < n
    ensures BigEndian(value, n)[n - 1 - k] == value / Pow256(k) % 256
  {
    DigitAt(value, n - 1);
    if k < n - 1 {
      DigitOf(value, n - 1, k);
    }
  }

  /** The header of an encoded frame, byte by byte. */
  lemma FrameLayout(frame: Frame)
    ensures EncodeFrame(frame).Ok? ==>
      var raw := EncodeFrame(frame).value;
      && |raw| == 8 + |frame.payload| && raw[0] == 0x52 && raw[1] == 2 && raw[2] == frame.flags
      && raw[3] == (match frame.kind
                    case Handshake => 0
                    case Data => 1
                    case Cancel => 2
                    case WindowUpdate => 3
                    case Close => 4)
      && frame.sequence == 0x100_0000 * (raw[4] as int) + 0x1_0000 * (raw[5] as int) + 0x100 * (raw[6] as int) + raw[7] as int
      && raw[8..] == frame.payload
  {
    if EncodeFrame(frame).Ok? {
      var raw, digits := EncodeFrame(frame).value, BigEndian(frame.sequence, 4);
      assert raw[4..8] == digits && raw[8..] == frame.payload;
      FourBytes(digits);
      BigEndianReadsBack(frame.sequence, 4);
      assert Pow256(4) == 256 * (256 * (256 * (256 * Pow256(0))));
    }
  }

  lemma FourBytes(bytes: seq<Byte>)
    requires |bytes| == 4
    ensures FromBigEndian(bytes)
         == 0x100_0000 * (bytes[0] as int) + 0x1_0000 * (bytes[1] as int) + 0x100 * (bytes[2] as int) + bytes[3] as int
  {
    var one, two, three := bytes[..1], bytes[..2], bytes[..3];
    assert one[..0] == [] && two[..1] == one && three[..2] == two;
    assert FromBigEndian(one) == bytes[0] as int;
    assert FromBigEndian(two) == FromBigEndian(one) * 256 + bytes[1] as int;
    assert FromBigEndian(three) == FromBigEndian(two) * 256 + bytes[2] as int;
    assert FromBigEndian(bytes) == FromBigEndian(three) * 256 + bytes[3] as int;
  }

  /** When a frame is refused, and why. */
  lemma RefusedIff(frame: Frame)
    ensures EncodeFrame(frame).Ok? <==>
      0 <= frame.sequence <= 0xffff_ffff && (frame.flags == 0 || frame.flags == 1) && |frame.payload| <= 1048576
    ensures EncodeFrame(frame) == TooLarge <==>
      0 <= frame.sequence <= 0xffff_ffff && (frame.flags == 0 || frame.flags == 1) && |frame.payload| > 1048576
  {
  }
}
