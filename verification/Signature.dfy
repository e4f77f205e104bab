/** The bytes that are hashed and signed for cross-chain stream creation. */
module Signature {
  import opened Host

  type Byte = x: int | 0 <= x < 256

  type Bytes = seq<Byte>

  /** A 32-byte value. */
  type Bytes32 = s: Bytes | |s| == 32 witness seq(32, _ => 0)

  // ASCII of "Conduit Stream Creation v1".
  const DOMAIN_SEPARATOR_PREFIX: Bytes :=
    [67, 111, 110, 100, 117, 105, 116, 32, 83, 116, 114, 101, 97, 109, 32,
     67, 114, 101, 97, 116, 105, 111, 110, 32, 118, 49]

  datatype Payload = Payload(
    sender: Bytes32,
    recipient: Bytes32,
    token: Bytes32,
    deposit: i128,
    ratePerSec: i128,
    startTime: u64,
    endTime: u64,
    clawback: bool,
    nonce: u64,
    deadline: u64,
    networkPassphrase: Bytes)

  // ---- Big-endian numbers ----

  function Pow256(width: nat): (p: nat)
    ensures p > 0
  {
    if width == 0 then 1 else 256 * Pow256(width - 1)
  }

  /** The low `width` bytes of `n`, most significant first. */
  function BigEndian(n: nat, width: nat): (s: Bytes)
    ensures |s| == width
  {
    if width == 0 then [] else BigEndian(n / 256, width - 1) + [n % 256]
  }

  function FromBigEndian(s: Bytes): (n: nat)
    ensures n < Pow256(|s|)
  {
    if |s| == 0 then 0 else FromBigEndian(s[..|s| - 1]) * 256 + s[|s| - 1]
  }

  lemma {:induction false} BigEndianRoundTrip(n: nat, width: nat)
    requires n < Pow256(width)
    ensures FromBigEndian(BigEndian(n, width)) == n
  {
    if width > 0 {
      BigEndianRoundTrip(n / 256, width - 1);
      assert BigEndian(n, width)[..width - 1] == BigEndian(n / 256, width - 1);
    }
  }

  lemma {:induction false} FromBigEndianRoundTrip(s: Bytes)
    ensures BigEndian(FromBigEndian(s), |s|) == s
  {
    if |s| > 0 {
      FromBigEndianRoundTrip(s[..|s| - 1]);
      assert s == s[..|s| - 1] + [s[|s| - 1]];
    }
  }

  /** Dividing by 256 and then by `d` is dividing by their product. */
  lemma DivTwice(n: nat, d: nat)
    requires d > 0
    ensures n / (256 * d) == n / 256 / d
  {
    var (q, r) := (n / 256, n % 256);
    var (p, t) := (q / d, q % d);
    Reassociate(d, p);
    QuotientIs(n, 256 * d, p, 256 * t + r);
  }

  lemma Reassociate(d: int, p: int)
    ensures 256 * (d * p) == 256 * d * p
  {
  }

  lemma QuotientIs(n: nat, d: nat, q: nat, r: nat)
    requires n == d * q + r && r < d
    ensures n / d == q
  {
    var (p, s) := (n / d, n % d);
    assert d * (p - q) == r - s;
    if p > q { MulMonotone(d, 1, p - q); }
    if p < q { MulMonotone(d, p - q, -1); }
  }

  /** Byte `i` of `width` is the digit of weight 256^(width - 1 - i): the most significant comes first. */
  lemma {:induction false} BigEndianDigit(n: nat, width: nat, i: nat)
    requires i < width
    ensures BigEndian(n, width)[i] == n / Pow256(width - 1 - i) % 256
  {
    if i < width - 1 {
      BigEndianDigit(n / 256, width - 1, i);
      DivTwice(n, Pow256(width - 2 - i));
    }
  }

  // ---- Field encodings ----

  const TWO_64: nat := 0x1_0000_0000_0000_0000
  const TWO_128: nat := 0x1_0000_0000_0000_0000_0000_0000_0000_0000

  lemma Widths()
    ensures Pow256(8) == TWO_64 && Pow256(16) == TWO_128
  {
    assert Pow256(4) == 0x1_0000_0000;
    assert Pow256(8) == 0x1_0000_0000 * 0x1_0000_0000;
    assert Pow256(12) == 0x1_0000_0000 * 0x1_0000_0000 * 0x1_0000_0000;
  }

  function EncodeBool(val: bool): Byte { if val then 1 else 0 }

  /** Sixteen bytes, two's complement. */
  function EncodeI128(val: i128): Bytes { BigEndian(if val < 0 then val + TWO_128 else val, 16) }

  function EncodeU64(val: u64): Bytes { BigEndian(val, 8) }

  function DecodeI128(s: Bytes): i128
    requires |s| == 16
  {
    Widths();
    var n := FromBigEndian(s);
    if n > I128_MAX then n - TWO_128 else n
  }

  function DecodeU64(s: Bytes): u64
    requires |s| == 8
  {
    Widths();
    FromBigEndian(s)
  }

  lemma FieldsRoundTrip(x: i128, n: u64)
    ensures DecodeI128(EncodeI128(x)) == x
    ensures DecodeU64(EncodeU64(n)) == n
  {
    Widths();
    BigEndianRoundTrip(if x < 0 then x + TWO_128 else x, 16);
    BigEndianRoundTrip(n, 8);
  }

  lemma FieldsRoundTripBack(x: Bytes, n: Bytes)
    requires |x| == 16 && |n| == 8
    ensures EncodeI128(DecodeI128(x)) == x
    ensures EncodeU64(DecodeU64(n)) == n
  {
    Widths();
    FromBigEndianRoundTrip(x);
    FromBigEndianRoundTrip(n);
  }

  /** Numbers are written most significant byte first, negative ones in two's complement, and flags as 0 or 1. */
  lemma EncodingDigits(x: i128, n: u64, i: nat)
    ensures |EncodeI128(x)| == 16 && |EncodeU64(n)| == 8 && EncodeBool(true) == 1 && EncodeBool(false) == 0
    ensures i < 16 ==>
              EncodeI128(x)[i] == (if x < 0 then x + 0x1_0000_0000_0000_0000_0000_0000_0000_0000 else x)
                                    / Pow256(15 - i) % 256
    ensures i < 8 ==> EncodeU64(n)[i] == n / Pow256(7 - i) % 256
  {
    if i < 16 { BigEndianDigit(if x < 0 then x + TWO_128 else x, 16, i); }
    if i < 8 { BigEndianDigit(n, 8, i); }
  }

  // ---- The pre-images ----

  function DomainInput(factory: Bytes32): Bytes { DOMAIN_SEPARATOR_PREFIX + factory }

  /** The tag's characters, then the factory's address. */
  lemma DomainLayout(factory: Bytes32)
    ensures |DomainInput(factory)| == 58
    ensures forall i :: 0 <= i < 26 ==> DomainInput(factory)[i] == "Conduit Stream Creation v1"[i] as int
    ensures DomainInput(factory)[26..] == factory
  {
  }

  const FIXED_LENGTH: nat := 161

  /** Fixed-width fields back to back, then the passphrase to the end. */
  function StructInput(p: Payload): (s: Bytes)
    ensures |s| == FIXED_LENGTH + |p.networkPassphrase|
  {
    p.sender + p.recipient + p.token
    + EncodeI128(p.deposit) + EncodeI128(p.ratePerSec)
    + EncodeU64(p.startTime) + EncodeU64(p.endTime)
    + [EncodeBool(p.clawback)]
    + EncodeU64(p.nonce) + EncodeU64(p.deadline)
    + p.networkPassphrase
  }

  /** Reads a payload back: every fixed field at its offset, a flag byte that must be 0 or 1, and the rest. */
  function DecodeStruct(s: Bytes): Option<Payload> {
    if |s| < FIXED_LENGTH || s[144] > 1 then None
    else
      Some(Payload(s[0..32], s[32..64], s[64..96], DecodeI128(s[96..112]), DecodeI128(s[112..128]),
                   DecodeU64(s[128..136]), DecodeU64(s[136..144]), s[144] == 1,
                   DecodeU64(s[145..153]), DecodeU64(s[153..161]), s[161..]))
  }

  /** Where each field ends up in the concatenation. */
  lemma StructLayout(p: Payload)
    ensures var s := StructInput(p);
            && s[0..32] == p.sender && s[32..64] == p.recipient && s[64..96] == p.token
            && s[96..112] == EncodeI128(p.deposit) && s[112..128] == EncodeI128(p.ratePerSec)
            && s[128..136] == EncodeU64(p.startTime) && s[136..144] == EncodeU64(p.endTime)
            && s[144] == (if p.clawback then 1 else 0)
            && s[145..153] == EncodeU64(p.nonce) && s[153..161] == EncodeU64(p.deadline)
            && s[161..] == p.networkPassphrase
  {
  }

  /** Every payload is recovered from its struct bytes. */
  lemma StructRoundTrip(p: Payload)
    ensures DecodeStruct(StructInput(p)) == Some(p)
  {
    StructLayout(p);
    FieldsRoundTrip(p.deposit, p.startTime);
    FieldsRoundTrip(p.ratePerSec, p.endTime);
    FieldsRoundTrip(0, p.nonce);
    FieldsRoundTrip(0, p.deadline);
  }

  /** The byte strings that decode are exactly the encodings. */
  lemma DecodesExactlyEncodings(s: Bytes)
    ensures DecodeStruct(s).Some? <==> exists p :: StructInput(p) == s
    ensures DecodeStruct(s).Some? ==> StructInput(DecodeStruct(s).value) == s
  {
    if DecodeStruct(s).Some? {
      var p := DecodeStruct(s).value;
      FieldsRoundTripBack(s[96..112], s[128..136]);
      FieldsRoundTripBack(s[112..128], s[136..144]);
      FieldsRoundTripBack(s[96..112], s[145..153]);
      FieldsRoundTripBack(s[96..112], s[153..161]);
      StructLayout(p);
      assert StructInput(p)[0..161] + StructInput(p)[161..] == StructInput(p);
      SlicesDetermine(StructInput(p), s);
    }
    forall p | StructInput(p) == s
      ensures DecodeStruct(s).Some?
    {
      StructRoundTrip(p);
    }
  }

  lemma SlicesDetermine(s: Bytes, t: Bytes)
    requires |s| == |t| >= FIXED_LENGTH
    requires s[0..32] == t[0..32] && s[32..64] == t[32..64] && s[64..96] == t[64..96]
    requires s[96..112] == t[96..112] && s[112..128] == t[112..128] && s[128..136] == t[128..136]
    requires s[136..144] == t[136..144] && s[144] == t[144] && s[145..153] == t[145..153]
    requires s[153..161] == t[153..161] && s[161..] == t[161..]
    ensures s == t
  {
    forall k | 0 <= k < |s|
      ensures s[k] == t[k]
    {
      if k < 32 { assert s[k] == s[0..32][k]; }
      else if k < 64 { assert s[k] == s[32..64][k - 32]; }
      else if k < 96 { assert s[k] == s[64..96][k - 64]; }
      else if k < 112 { assert s[k] == s[96..112][k - 96]; }
      else if k < 128 { assert s[k] == s[112..128][k - 112]; }
      else if k < 136 { assert s[k] == s[128..136][k - 128]; }
      else if k < 144 { assert s[k] == s[136..144][k - 136]; }
      else if 144 < k < 153 { assert s[k] == s[145..153][k - 145]; }
      else if 153 <= k < 161 { assert s[k] == s[153..161][k - 153]; }
      else if k >= 161 { assert s[k] == s[161..][k - 161]; }
    }
  }

  /** A hash of byte strings to 32 bytes, standing for SHA-256. */
  type Hash = Bytes -> Bytes32

  /** What is hashed last: the domain's hash, then the payload's. */
  function FinalInput(sha256: Hash, factory: Bytes32, payload: Payload): Bytes {
    sha256(DomainInput(factory)) + sha256(StructInput(payload))
  }

  function Digest(sha256: Hash, factory: Bytes32, payload: Payload): Bytes32 {
    sha256(FinalInput(sha256, factory, payload))
  }

  /** The first half binds the factory and the second the payload, whatever the hash. */
  lemma FinalLayout(sha256: Hash, factory: Bytes32, payload: Payload)
    ensures |FinalInput(sha256, factory, payload)| == 64
    ensures FinalInput(sha256, factory, payload)[..32] == sha256(DomainInput(factory))
    ensures FinalInput(sha256, factory, payload)[32..] == sha256(StructInput(payload))
    ensures Digest(sha256, factory, payload) == sha256(FinalInput(sha256, factory, payload))
  {
  }

  /** The buffers are filled field by field, as the contract appends them. */
  method HashPayload(sha256: Hash, factory: Bytes32, payload: Payload) returns (digest: Bytes32)
    ensures digest == Digest(sha256, factory, payload)
  {
    var domainInput: Bytes := [];
    domainInput := domainInput + DOMAIN_SEPARATOR_PREFIX;
    assert domainInput == DOMAIN_SEPARATOR_PREFIX;
    domainInput := domainInput + factory;
    var domainHash := sha256(domainInput);
    var structInput: Bytes := [];
    structInput := structInput + payload.sender;
    assert structInput == payload.sender;
    structInput := structInput + payload.recipient;
    structInput := structInput + payload.token;
    structInput := structInput + EncodeI128(payload.deposit);
    structInput := structInput + EncodeI128(payload.ratePerSec);
    structInput := structInput + EncodeU64(payload.startTime);
    structInput := structInput + EncodeU64(payload.endTime);
    structInput := structInput + [EncodeBool(payload.clawback)];
    structInput := structInput + EncodeU64(payload.nonce);
    structInput := structInput + EncodeU64(payload.deadline);
    structInput := structInput + payload.networkPassphrase;
    var structHash := sha256(structInput);
    var finalInput: Bytes := [];
    finalInput := finalInput + domainHash;
    assert finalInput == domainHash;
    finalInput := finalInput + structHash;
    digest := sha256(finalInput);
  }

  ghost predicate Collision(sha256: Hash, x: Bytes, y: Bytes) {
    x != y && sha256(x) == sha256(y)
  }

  /**
   A signature binds the factory and the whole payload: if two different (factory, payload) pairs ever
   get the same digest, the hash function itself has a collision, among these very inputs.
   */
  lemma DigestBindsFactoryAndPayload(sha256: Hash, f: Bytes32, p: Payload, g: Bytes32, q: Payload)
    requires (f, p) != (g, q)
    requires Digest(sha256, f, p) == Digest(sha256, g, q)
    ensures || Collision(sha256, DomainInput(f), DomainInput(g))
            || Collision(sha256, StructInput(p), StructInput(q))
            || Collision(sha256, sha256(DomainInput(f)) + sha256(StructInput(p)),
                         sha256(DomainInput(g)) + sha256(StructInput(q)))
  {
    StructRoundTrip(p);
    StructRoundTrip(q);
    assert DomainInput(f)[26..] == f && DomainInput(g)[26..] == g;
    var x := sha256(DomainInput(f)) + sha256(StructInput(p));
    var y := sha256(DomainInput(g)) + sha256(StructInput(q));
    assert x[..32] == sha256(DomainInput(f)) && y[..32] == sha256(DomainInput(g));
    assert x[32..] == sha256(StructInput(p)) && y[32..] == sha256(StructInput(q));
  }
}
