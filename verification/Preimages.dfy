/** The bytes the Secure Enclave signs: a fixed 104-byte header, then the action. */
module Preimages {
  import opened Prelude
  import opened Integers
  import opened Parsing
  import opened Actions

  /** "enclavekit:v1", padded with zeros. */
  const DOMAIN_TAG: Bytes := [101, 110, 99, 108, 97, 118, 101, 107, 105, 116, 58, 118, 49, 0, 0, 0]

  const PROGRAM_ID_OFFSET := 16
  const WALLET_ID_OFFSET := 48
  const NONCE_OFFSET := 80
  const EXPIRES_AT_OFFSET := 88
  const MAX_RELAYER_FEE_OFFSET := 96
  const HEADER_LEN := 16 + 32 + 32 + 8 + 8 + 8

  datatype Preimage = Preimage(
    programId: Bytes32,
    walletId: Bytes32,
    nonce: u64,
    expiresAt: i64,
    maxRelayerFee: u64,
    action: Action
  )

  function Encode(p: Preimage): Bytes {
    DOMAIN_TAG + (p.programId + (p.walletId
    + (U64Bytes(p.nonce) + (I64Bytes(p.expiresAt) + (U64Bytes(p.maxRelayerFee)
    + EncodeAction(p.action))))))
  }

  /** The strict inverse: the whole input must be one preimage. */
  function Decode(b: Bytes): Option<Preimage> {
    var tag :- Take(b, |DOMAIN_TAG|);
    if tag.value != DOMAIN_TAG then None else
    var programId :- Take32(tag.rest);
    var walletId :- Take32(programId.rest);
    var nonce :- TakeU64(walletId.rest);
    var expiresAt :- TakeI64(nonce.rest);
    var maxRelayerFee :- TakeU64(expiresAt.rest);
    var action :- ReadAction(maxRelayerFee.rest);
    if action.rest != [] then None else
    Some(Preimage(programId.value, walletId.value, nonce.value, expiresAt.value,
                  maxRelayerFee.value, action.value))
  }

  /** Appends field by field, as the program builds the expected message. */
  method ToBytes(p: Preimage) returns (out: Bytes)
    ensures out == Encode(p)
  {
    out := [];
    out := out + DOMAIN_TAG;
    out := out + p.programId;
    out := out + p.walletId;
    out := out + U64Bytes(p.nonce);
    out := out + I64Bytes(p.expiresAt);
    out := out + U64Bytes(p.maxRelayerFee);
    out := out + EncodeAction(p.action);
    assert out == Encode(p);
  }

  lemma DecodeOfEncode(p: Preimage)
    ensures Decode(Encode(p)) == Some(p)
  {
    var b5 := U64Bytes(p.maxRelayerFee) + EncodeAction(p.action);
    var b4 := I64Bytes(p.expiresAt) + b5;
    var b3 := U64Bytes(p.nonce) + b4;
    var b2 := p.walletId + b3;
    var b1 := p.programId + b2;
    TakePrefix(DOMAIN_TAG, b1);
    TakePrefix(p.programId, b2);
    TakePrefix(p.walletId, b3);
    TakeU64Prefix(p.nonce, b4);
    TakeI64Prefix(p.expiresAt, b5);
    TakeU64Prefix(p.maxRelayerFee, EncodeAction(p.action));
    ReadActionOfEncode(p.action, []);
    assert EncodeAction(p.action) + [] == EncodeAction(p.action);
  }

  /** Any bytes the decoder accepts are the encoding of what it returns. */
  lemma EncodeOfDecode(b: Bytes)
    requires Decode(b).Some?
    ensures Encode(Decode(b).value) == b
  {
    hide ReadAction, EncodeAction, U64Bytes, I64Bytes, U64Of, I64Of;
    var programId := Take32(Take(b, |DOMAIN_TAG|).value.rest).value;
    var walletId := Take32(programId.rest).value;
    var nonce := TakeU64(walletId.rest).value;
    var expiresAt := TakeI64(nonce.rest).value;
    var maxRelayerFee := TakeU64(expiresAt.rest).value;
    EncodeOfReadAction(maxRelayerFee.rest);
    assert EncodeAction(Decode(b).value.action) + [] == maxRelayerFee.rest;
  }

  /** A message decodes to a preimage exactly when it is that preimage's encoding. */
  lemma DecodesIffEncodes(b: Bytes, p: Preimage)
    ensures Decode(b) == Some(p) <==> b == Encode(p)
  {
    DecodeOfEncode(p);
    if Decode(b) == Some(p) {
      EncodeOfDecode(b);
    }
  }

  /** `p` is the one preimage these bytes encode. */
  ghost predicate Means(b: Bytes, p: Preimage) {
    forall q :: Encode(q) == b <==> q == p
  }

  lemma MeansIffEncodes(b: Bytes, p: Preimage)
    ensures Means(b, p) <==> b == Encode(p)
  {
    if b == Encode(p) {
      forall q ensures Encode(q) == b <==> q == p {
        if Encode(q) == b {
          EncodeIsInjective(p, q);
        }
      }
    }
  }

  /** Meaning is what the strict decoder computes. */
  lemma MeansIffDecodes(b: Bytes, p: Preimage)
    ensures Means(b, p) <==> Decode(b) == Some(p)
  {
    hide Encode, Decode;
    MeansIffEncodes(b, p);
    DecodesIffEncodes(b, p);
  }

  lemma MeaningIsUnique(b: Bytes, p: Preimage, q: Preimage)
    requires Means(b, p) && Means(b, q)
    ensures p == q
  {
    assert Encode(p) == b;
  }

  /** One message has one meaning. */
  lemma EncodeIsInjective(p1: Preimage, p2: Preimage)
    requires Encode(p1) == Encode(p2)
    ensures p1 == p2
  {
    DecodeOfEncode(p1);
    DecodeOfEncode(p2);
  }

  /** Every field of the header sits at its documented offset, and the action starts at 104. */
  lemma HeaderLayout(p: Preimage)
    ensures var b := Encode(p);
            && |b| >= HEADER_LEN
            && b[..PROGRAM_ID_OFFSET] == DOMAIN_TAG
            && b[PROGRAM_ID_OFFSET..WALLET_ID_OFFSET] == p.programId
            && b[WALLET_ID_OFFSET..NONCE_OFFSET] == p.walletId
            && b[NONCE_OFFSET..EXPIRES_AT_OFFSET] == U64Bytes(p.nonce)
            && b[EXPIRES_AT_OFFSET..MAX_RELAYER_FEE_OFFSET] == I64Bytes(p.expiresAt)
            && b[MAX_RELAYER_FEE_OFFSET..HEADER_LEN] == U64Bytes(p.maxRelayerFee)
            && b[HEADER_LEN..] == EncodeAction(p.action)
  {
    hide EncodeAction, U64Bytes, I64Bytes;
  }

  /** The longest message is a guardian list: it always fits the precompile's u16 size field. */
  lemma EncodedSize(p: Preimage)
    ensures |Encode(p)| <= HEADER_LEN + 1 + MAX_GUARDIANS * (1 + COMPRESSED_PUBKEY_LEN)
  {
    match p.action
    case SetGuardians(gs) => GuardiansSize(gs);
    case _ =>
  }

  lemma {:induction false} GuardiansSize(gs: seq<Guardian>)
    ensures |EncodeGuardians(gs)| <= |gs| * (1 + COMPRESSED_PUBKEY_LEN)
  {
    if gs != [] {
      GuardiansSize(gs[1..]);
    }
  }

  /** The message byte by byte: "enclavekit:v1" and three zeros, five header fields, and the action. */
  lemma MessageBytes(p: Preimage)
    ensures var b := Encode(p);
            && |b| >= 105
            && (forall i | 0 <= i < 16 :: b[i] == if i < 13 then "enclavekit:v1"[i] as int else 0)
            && b[16..48] == p.programId
            && b[48..80] == p.walletId
            && IsLe64(b[80..88], p.nonce)
            && IsLe64Signed(b[88..96], p.expiresAt)
            && IsLe64(b[96..104], p.maxRelayerFee)
            && IsActionBytes(b[104..], p.action)
  {
    hide EncodeAction, U64Bytes, I64Bytes, IsLe64, IsLe64Signed, IsActionBytes;
    HeaderLayout(p);
    U64BytesAreLe(p.nonce);
    I64BytesAreLe(p.expiresAt);
    U64BytesAreLe(p.maxRelayerFee);
    ActionBytes(p.action);
    SomeAction(p.action);
  }

  lemma SomeAction(a: Action)
    ensures |EncodeAction(a)| > 0
  {
  }
}
