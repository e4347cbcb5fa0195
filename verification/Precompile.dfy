/** The secp256r1 precompile instruction: what the runtime verifies and what the program reads. */
module Precompile {
  import opened Prelude
  import opened Integers
  import opened Errors

  datatype Instruction = Instruction(programId: Bytes32, accounts: seq<Bytes32>, data: Bytes)

  /** The Instructions sysvar: the whole transaction and the index now executing. */
  datatype Sysvar = Sysvar(instructions: seq<Instruction>, current: nat)

  datatype SignedPayload = SignedPayload(pubkey: Key, message: Bytes)

  /** Secp256r1SigVerify1111111111111111111111111 */
  const SECP256R1_PROGRAM_ID: Bytes32 := [
    6, 146, 13, 236, 47, 234, 113, 181, 183, 35, 129, 77, 116, 45, 169, 3,
    28, 131, 231, 95, 219, 121, 93, 86, 142, 117, 71, 128, 32, 0, 0, 0]

  const P256_SIGNATURE_LEN := 64
  const PRECOMPILE_OFFSETS_START := 2
  const PRECOMPILE_OFFSETS_LEN := 14
  const PRECOMPILE_DATA_START := PRECOMPILE_OFFSETS_START + PRECOMPILE_OFFSETS_LEN
  const PRECOMPILE_CURRENT_INSTRUCTION: u16 := U16_MAX
  const SECP256R1_PUBKEY_OFFSET := PRECOMPILE_DATA_START
  const SECP256R1_SIGNATURE_OFFSET := SECP256R1_PUBKEY_OFFSET + COMPRESSED_PUBKEY_LEN
  const SECP256R1_MESSAGE_OFFSET := SECP256R1_SIGNATURE_OFFSET + P256_SIGNATURE_LEN

  datatype SignatureOffsets = SignatureOffsets(
    signatureOffset: u16,
    signatureInstructionIndex: u16,
    publicKeyOffset: u16,
    publicKeyInstructionIndex: u16,
    messageDataOffset: u16,
    messageDataSize: u16,
    messageInstructionIndex: u16
  )

  function Field(data: Bytes, start: nat, i: nat): u16
    requires start + 2 * i + 2 <= |data|
  {
    U16Of(data[start + 2 * i], data[start + 2 * i + 1])
  }

  function ParseOffsets(data: Bytes, start: nat): SignatureOffsets
    requires start + PRECOMPILE_OFFSETS_LEN <= |data|
  {
    SignatureOffsets(Field(data, start, 0), Field(data, start, 1), Field(data, start, 2),
                     Field(data, start, 3), Field(data, start, 4), Field(data, start, 5),
                     Field(data, start, 6))
  }

  // ----- The program's reader -----

  /** Every offset at its fixed place, every instruction index meaning this instruction. */
  predicate FixedLayout(o: SignatureOffsets) {
    && o.signatureOffset == SECP256R1_SIGNATURE_OFFSET
    && o.publicKeyOffset == SECP256R1_PUBKEY_OFFSET
    && o.messageDataOffset == SECP256R1_MESSAGE_OFFSET
    && o.signatureInstructionIndex == PRECOMPILE_CURRENT_INSTRUCTION
    && o.publicKeyInstructionIndex == PRECOMPILE_CURRENT_INSTRUCTION
    && o.messageInstructionIndex == PRECOMPILE_CURRENT_INSTRUCTION
  }

  /** Steps 3 to 5: the data must follow the one fixed layout. */
  function CheckData(data: Bytes): Result<SignedPayload> {
    if |data| < SECP256R1_MESSAGE_OFFSET then Err(PrecompileDataTooShort)
    else if data[0] != 1 then Err(PrecompileSignatureCountMismatch)
    else
      var offsets := ParseOffsets(data, PRECOMPILE_OFFSETS_START);
      if !FixedLayout(offsets) then Err(PrecompileLayoutMismatch)
      else if SECP256R1_MESSAGE_OFFSET + offsets.messageDataSize != |data| then Err(PrecompileMessageSizeMismatch)
      else Ok(SignedPayload(data[SECP256R1_PUBKEY_OFFSET..SECP256R1_SIGNATURE_OFFSET],
                            data[SECP256R1_MESSAGE_OFFSET..]))
  }

  function LoadPayload(sysvar: Sysvar): Result<SignedPayload> {
    if sysvar.current == 0 || sysvar.current > |sysvar.instructions| then Err(NoInstructionBefore)
    else
      var ix := sysvar.instructions[sysvar.current - 1];
      if ix.programId != SECP256R1_PROGRAM_ID then Err(PrecompileProgramMismatch)
      else if ix.accounts != [] then Err(PrecompileUnexpectedAccounts)
      else CheckData(ix.data)
  }

  /** `load_secp256r1_payload`: checks in order, then copies the key into a local buffer. */
  method LoadSecp256r1Payload(sysvar: Sysvar) returns (r: Result<SignedPayload>)
    ensures r == LoadPayload(sysvar)
    ensures forall key, message :: r == Ok(SignedPayload(key, message)) <==> Precedes(sysvar, key, message)
  {
    hide Precedes;
    forall key, message
      ensures LoadPayload(sysvar) == Ok(SignedPayload(key, message)) <==> Precedes(sysvar, key, message)
    {
      LoadsExactly(sysvar, key, message);
    }
    if sysvar.current == 0 || sysvar.current > |sysvar.instructions| {
      return Err(NoInstructionBefore);
    }
    var ix := sysvar.instructions[sysvar.current - 1];
    if ix.programId != SECP256R1_PROGRAM_ID {
      return Err(PrecompileProgramMismatch);
    }
    if ix.accounts != [] {
      return Err(PrecompileUnexpectedAccounts);
    }
    var data := ix.data;
    if |data| < SECP256R1_MESSAGE_OFFSET {
      return Err(PrecompileDataTooShort);
    }
    if data[0] != 1 {
      return Err(PrecompileSignatureCountMismatch);
    }
    var offsets := ParseOffsets(data, PRECOMPILE_OFFSETS_START);
    if !FixedLayout(offsets) {
      return Err(PrecompileLayoutMismatch);
    }
    if SECP256R1_MESSAGE_OFFSET + offsets.messageDataSize != |data| {
      return Err(PrecompileMessageSizeMismatch);
    }
    var pubkey := new byte[COMPRESSED_PUBKEY_LEN];
    forall i | 0 <= i < COMPRESSED_PUBKEY_LEN {
      pubkey[i] := data[SECP256R1_PUBKEY_OFFSET + i];
    }
    assert pubkey[..] == data[SECP256R1_PUBKEY_OFFSET..SECP256R1_SIGNATURE_OFFSET];
    return Ok(SignedPayload(pubkey[..], data[SECP256R1_MESSAGE_OFFSET..]));
  }

  // ----- The runtime's reader, which follows the offsets wherever they point -----

  const MAX_SIGNATURES := 8

  /** One signature the runtime checked. */
  datatype Checked = Checked(pubkey: Key, signature: Bytes, message: Bytes)

  function DataSlice(datas: seq<Bytes>, own: Bytes, index: u16, start: u16, size: nat): (r: Option<Bytes>)
    ensures r.Some? ==> |r.value| == size
  {
    var data :- if index == U16_MAX then Some(own)
                else if index < |datas| then Some(datas[index]) else None;
    if start + size <= |data| then Some(data[start..start + size]) else None
  }

  function RuntimeEntry(datas: seq<Bytes>, data: Bytes, start: nat): Option<Checked>
    requires start + PRECOMPILE_OFFSETS_LEN <= |data|
  {
    var o := ParseOffsets(data, start);
    var signature :- DataSlice(datas, data, o.signatureInstructionIndex, o.signatureOffset, P256_SIGNATURE_LEN);
    var pubkey :- DataSlice(datas, data, o.publicKeyInstructionIndex, o.publicKeyOffset, COMPRESSED_PUBKEY_LEN);
    var message :- DataSlice(datas, data, o.messageInstructionIndex, o.messageDataOffset, o.messageDataSize);
    Some(Checked(pubkey, signature, message))
  }

  function RuntimeEntries(datas: seq<Bytes>, data: Bytes, count: nat): Option<seq<Checked>>
    requires PRECOMPILE_OFFSETS_START + count * PRECOMPILE_OFFSETS_LEN <= |data|
  {
    if count == 0 then Some([]) else
    var before :- RuntimeEntries(datas, data, count - 1);
    var last :- RuntimeEntry(datas, data, PRECOMPILE_OFFSETS_START + (count - 1) * PRECOMPILE_OFFSETS_LEN);
    Some(before + [last])
  }

  /** Everything the precompile verifies in one instruction, or None when it rejects the data's shape. */
  function RuntimeRead(datas: seq<Bytes>, data: Bytes): Option<seq<Checked>> {
    if |data| < PRECOMPILE_OFFSETS_START then None
    else if data[0] == 0 || data[0] > MAX_SIGNATURES then None
    else if |data| < PRECOMPILE_OFFSETS_START + data[0] * PRECOMPILE_OFFSETS_LEN then None
    else RuntimeEntries(datas, data, data[0])
  }

  /** What the program trusts is exactly what the runtime verified, whatever else the transaction holds. */
  lemma ProgramReadsWhatRuntimeVerified(datas: seq<Bytes>, data: Bytes)
    requires CheckData(data).Ok?
    ensures var p := CheckData(data).value;
            var signature := data[SECP256R1_SIGNATURE_OFFSET..SECP256R1_MESSAGE_OFFSET];
            RuntimeRead(datas, data) == Some([Checked(p.pubkey, signature, p.message)])
  {
    assert RuntimeEntries(datas, data, 0) == Some([]);
    var o := ParseOffsets(data, PRECOMPILE_OFFSETS_START);
    assert data[SECP256R1_MESSAGE_OFFSET..SECP256R1_MESSAGE_OFFSET + o.messageDataSize]
        == data[SECP256R1_MESSAGE_OFFSET..];
    var signature := data[SECP256R1_SIGNATURE_OFFSET..SECP256R1_MESSAGE_OFFSET];
    var checked := Checked(CheckData(data).value.pubkey, signature, CheckData(data).value.message);
    assert RuntimeEntry(datas, data, PRECOMPILE_OFFSETS_START) == Some(checked);
    assert RuntimeEntries(datas, data, 1) == Some([] + [checked]);
    assert [] + [checked] == [checked];
    assert data[0] == 1;
  }

  // ----- The fixed layout as a writer -----

  function U16Bytes(n: u16): (b: Bytes)
    ensures |b| == 2
  {
    [n % 256, n / 256]
  }

  function OffsetsBytes(messageSize: u16): (b: Bytes)
    ensures |b| == PRECOMPILE_OFFSETS_LEN
  {
    U16Bytes(SECP256R1_SIGNATURE_OFFSET) + U16Bytes(PRECOMPILE_CURRENT_INSTRUCTION)
    + U16Bytes(SECP256R1_PUBKEY_OFFSET) + U16Bytes(PRECOMPILE_CURRENT_INSTRUCTION)
    + U16Bytes(SECP256R1_MESSAGE_OFFSET) + U16Bytes(messageSize)
    + U16Bytes(PRECOMPILE_CURRENT_INSTRUCTION)
  }

  /** The instruction data an SDK builds around one key, signature and message. */
  function BuildData(padding: byte, key: Key, signature: Bytes, message: Bytes): (b: Bytes)
    requires |signature| == P256_SIGNATURE_LEN && |message| <= U16_MAX
  {
    [1, padding] + (OffsetsBytes(|message|) + (key + (signature + message)))
  }

  lemma BuiltOffsets(padding: byte, key: Key, signature: Bytes, message: Bytes)
    requires |signature| == P256_SIGNATURE_LEN && |message| <= U16_MAX
    ensures var b := BuildData(padding, key, signature, message);
            && |b| == SECP256R1_MESSAGE_OFFSET + |message|
            && ParseOffsets(b, PRECOMPILE_OFFSETS_START) == SignatureOffsets(
                 SECP256R1_SIGNATURE_OFFSET, U16_MAX, SECP256R1_PUBKEY_OFFSET, U16_MAX,
                 SECP256R1_MESSAGE_OFFSET, |message|, U16_MAX)
  {
    var b := BuildData(padding, key, signature, message);
    assert b[2..16] == OffsetsBytes(|message|);
    forall i | 0 <= i < 14 ensures b[2 + i] == OffsetsBytes(|message|)[i] {
      assert b[2 + i] == b[2..16][i];
    }
  }

  /** Every well-formed instruction is accepted and gives back its key and message. */
  lemma BuiltDataIsAccepted(padding: byte, key: Key, signature: Bytes, message: Bytes)
    requires |signature| == P256_SIGNATURE_LEN && |message| <= U16_MAX
    ensures CheckData(BuildData(padding, key, signature, message)) == Ok(SignedPayload(key, message))
  {
    BuiltOffsets(padding, key, signature, message);
    var b := BuildData(padding, key, signature, message);
    assert b[SECP256R1_PUBKEY_OFFSET..SECP256R1_SIGNATURE_OFFSET] == key;
    assert b[SECP256R1_MESSAGE_OFFSET..] == message;
  }

  /** And nothing else is: accepted data is some built data, so the layout has no second reading. */
  lemma AcceptedDataIsBuilt(data: Bytes)
    requires CheckData(data).Ok?
    ensures |data| - SECP256R1_MESSAGE_OFFSET <= U16_MAX
    ensures var p := CheckData(data).value;
            data == BuildData(data[1], p.pubkey,
                              data[SECP256R1_SIGNATURE_OFFSET..SECP256R1_MESSAGE_OFFSET], p.message)
  {
    var o := ParseOffsets(data, PRECOMPILE_OFFSETS_START);
    OffsetsOfParse(data, o);
    assert data[..2] == [1, data[1]];
    assert data[49..] == data[49..113] + data[113..];
    assert data[16..] == data[16..49] + data[49..];
    assert data[2..] == data[2..16] + data[16..];
    assert data == data[..2] + data[2..];
  }

  lemma OffsetsOfParse(data: Bytes, o: SignatureOffsets)
    requires |data| >= PRECOMPILE_DATA_START && o == ParseOffsets(data, PRECOMPILE_OFFSETS_START)
    requires o == SignatureOffsets(SECP256R1_SIGNATURE_OFFSET, U16_MAX, SECP256R1_PUBKEY_OFFSET, U16_MAX,
                                   SECP256R1_MESSAGE_OFFSET, o.messageDataSize, U16_MAX)
    ensures data[2..16] == OffsetsBytes(o.messageDataSize)
  {
    FieldBytes(data, 0);
    FieldBytes(data, 1);
    FieldBytes(data, 2);
    FieldBytes(data, 3);
    FieldBytes(data, 4);
    FieldBytes(data, 5);
    FieldBytes(data, 6);
    hide U16Bytes, Field;
    assert data[2..16]
        == data[2..4] + data[4..6] + data[6..8] + data[8..10] + data[10..12] + data[12..14] + data[14..16];
  }

  lemma FieldBytes(data: Bytes, i: nat)
    requires PRECOMPILE_OFFSETS_START + 2 * i + 2 <= |data|
    ensures var at := PRECOMPILE_OFFSETS_START + 2 * i;
            U16Bytes(Field(data, PRECOMPILE_OFFSETS_START, i)) == data[at..at + 2]
  {
  }

  // ----- The bytes themselves -----

  /** Two bytes as a number, the low one first. */
  function LowHigh(b: Bytes, at: nat): nat
    requires at + 1 < |b|
  {
    b[at] as int + 256 * b[at + 1] as int
  }

  /** One signature, fixed offsets 49, 16 and 113, every index 65535; then key, signature and message. */
  predicate IsSignatureData(b: Bytes, key: Key, message: Bytes) {
    && |b| == 113 + |message|
    && b[0] == 1
    && b[2..12] == [49, 0, 255, 255, 16, 0, 255, 255, 113, 0]
    && b[12] == |message| % 256 && b[13] == |message| / 256
    && b[14..16] == [255, 255]
    && b[16..49] == key
    && b[113..] == message
  }

  /** The instruction just before the one now executing, and no other, is the precompile's, without accounts. */
  predicate Precedes(s: Sysvar, key: Key, message: Bytes) {
    && 0 < s.current <= |s.instructions|
    && var ix := s.instructions[s.current - 1];
       && ix.programId == SECP256R1_PROGRAM_ID
       && ix.accounts == []
       && IsSignatureData(ix.data, key, message)
  }

  /** Built data is such data, and carries the signature at 49. */
  lemma BuiltBytes(padding: byte, key: Key, signature: Bytes, message: Bytes)
    requires |signature| == P256_SIGNATURE_LEN && |message| <= U16_MAX
    ensures var b := BuildData(padding, key, signature, message);
            IsSignatureData(b, key, message) && b[1] == padding && b[49..113] == signature
  {
    var b := BuildData(padding, key, signature, message);
    assert b[2..16] == OffsetsBytes(|message|);
    assert b[2..12] == b[2..16][..10] && b[14..16] == b[2..16][12..];
    assert b[12] == b[2..16][10] && b[13] == b[2..16][11];
  }

  lemma ChecksBytes(data: Bytes, key: Key, message: Bytes)
    ensures CheckData(data) == Ok(SignedPayload(key, message)) <==> IsSignatureData(data, key, message)
  {
    hide ParseOffsets, FixedLayout;
    if |data| >= 113 {
      LayoutBytes(data);
    }
  }

  /** An SDK built the data, around some signature and with some padding. */
  ghost predicate WasBuilt(data: Bytes, key: Key, message: Bytes) {
    exists padding, signature :: IsBuilt(data, padding, key, signature, message)
  }

  predicate IsBuilt(data: Bytes, padding: byte, key: Key, signature: Bytes, message: Bytes) {
    |signature| == 64 && |message| <= U16_MAX && data == BuildData(padding, key, signature, message)
  }

  lemma ChecksBuilt(data: Bytes, key: Key, message: Bytes)
    ensures CheckData(data) == Ok(SignedPayload(key, message)) <==> WasBuilt(data, key, message)
  {
    hide ParseOffsets, FixedLayout, BuildData;
    if CheckData(data) == Ok(SignedPayload(key, message)) {
      AcceptedDataIsBuilt(data);
      assert IsBuilt(data, data[1], key, data[49..113], message);
    }
    if WasBuilt(data, key, message) {
      var padding, signature :| IsBuilt(data, padding, key, signature, message);
      BuiltDataIsAccepted(padding, key, signature, message);
    }
  }

  /** The program loads a key and a message exactly when the instruction before it holds them in those bytes. */
  lemma LoadsExactly(s: Sysvar, key: Key, message: Bytes)
    ensures LoadPayload(s) == Ok(SignedPayload(key, message)) <==> Precedes(s, key, message)
    ensures LoadPayload(s) == Ok(SignedPayload(key, message)) <==>
            && 0 < s.current <= |s.instructions|
            && s.instructions[s.current - 1].programId == SECP256R1_PROGRAM_ID
            && s.instructions[s.current - 1].accounts == []
            && WasBuilt(s.instructions[s.current - 1].data, key, message)
  {
    hide CheckData, BuildData, IsSignatureData, WasBuilt;
    if 0 < s.current <= |s.instructions| {
      ChecksBytes(s.instructions[s.current - 1].data, key, message);
      ChecksBuilt(s.instructions[s.current - 1].data, key, message);
    }
  }

  /** What one byte after the other is missing when nothing is loaded, the first reason first. */
  lemma LoadErrors(s: Sysvar)
    ensures var r := LoadPayload(s);
            var placed := 0 < s.current <= |s.instructions|;
            && (r == Err(NoInstructionBefore) <==> !placed)
            && (placed ==>
                  var ix := s.instructions[s.current - 1];
                  var ours := ix.programId == SECP256R1_PROGRAM_ID;
                  var bare := ours && ix.accounts == [];
                  var long := bare && |ix.data| >= 113;
                  var single := long && ix.data[0] == 1;
                  var fixedOffsets := single && ix.data[2..12] == [49, 0, 255, 255, 16, 0, 255, 255, 113, 0]
                                      && ix.data[14..16] == [255, 255];
                  && (r == Err(PrecompileProgramMismatch) <==> !ours)
                  && (r == Err(PrecompileUnexpectedAccounts) <==> ours && !bare)
                  && (r == Err(PrecompileDataTooShort) <==> bare && !long)
                  && (r == Err(PrecompileSignatureCountMismatch) <==> long && !single)
                  && (r == Err(PrecompileLayoutMismatch) <==> single && !fixedOffsets)
                  && (r == Err(PrecompileMessageSizeMismatch) <==>
                      fixedOffsets && |ix.data| != 113 + LowHigh(ix.data, 12)))
  {
    hide FixedLayout, ParseOffsets;
    if 0 < s.current <= |s.instructions| && |s.instructions[s.current - 1].data| >= 113 {
      LayoutBytes(s.instructions[s.current - 1].data);
    }
  }

  lemma LayoutBytes(data: Bytes)
    requires |data| >= 113
    ensures FixedLayout(ParseOffsets(data, PRECOMPILE_OFFSETS_START)) <==>
            data[2..12] == [49, 0, 255, 255, 16, 0, 255, 255, 113, 0] && data[14..16] == [255, 255]
    ensures ParseOffsets(data, PRECOMPILE_OFFSETS_START).messageDataSize == LowHigh(data, 12)
  {
    var head := data[2..12];
    var tail := data[14..16];
    assert head == [data[2], data[3], data[4], data[5], data[6], data[7], data[8], data[9], data[10], data[11]];
    assert tail == [data[14], data[15]];
  }

  /** `size` bytes from `start`, of the instruction that `index` names: this one for 65535. */
  predicate Picks(datas: seq<Bytes>, own: Bytes, start: nat, index: nat, size: nat, picked: Bytes) {
    && (index == 65535 || index < |datas|)
    && var from := if index == 65535 then own else datas[index];
       start + size <= |from| && from[start..start + size] == picked
  }

  lemma EntryFollowsOffsets(datas: seq<Bytes>, data: Bytes, key: Key, signature: Bytes, message: Bytes)
    requires |data| >= 16
    ensures RuntimeEntry(datas, data, PRECOMPILE_OFFSETS_START) == Some(Checked(key, signature, message)) <==>
            && Picks(datas, data, LowHigh(data, 2), LowHigh(data, 4), 64, signature)
            && Picks(datas, data, LowHigh(data, 6), LowHigh(data, 8), 33, key)
            && Picks(datas, data, LowHigh(data, 10), LowHigh(data, 14), LowHigh(data, 12), message)
  {
  }

  /** The runtime takes signature, key and message from wherever their offsets point, in any instruction. */
  lemma RuntimeFollowsOffsets(datas: seq<Bytes>, data: Bytes, key: Key, signature: Bytes, message: Bytes)
    requires |data| >= 16 && data[0] == 1
    ensures RuntimeRead(datas, data) == Some([Checked(key, signature, message)]) <==>
            && Picks(datas, data, LowHigh(data, 2), LowHigh(data, 4), 64, signature)
            && Picks(datas, data, LowHigh(data, 6), LowHigh(data, 8), 33, key)
            && Picks(datas, data, LowHigh(data, 10), LowHigh(data, 14), LowHigh(data, 12), message)
  {
    hide RuntimeEntry, Picks, LowHigh;
    EntryFollowsOffsets(datas, data, key, signature, message);
    assert RuntimeEntries(datas, data, 0) == Some([]);
    var entry := RuntimeEntry(datas, data, PRECOMPILE_OFFSETS_START);
    assert RuntimeEntries(datas, data, 1) == if entry.Some? then Some([] + [entry.value]) else None;
    if entry.Some? {
      assert ([] + [entry.value])[0] == entry.value;
      assert [] + [entry.value] == [entry.value];
    }
  }

  /** It takes from one to eight signatures, each with its fourteen bytes of offsets. */
  lemma RuntimeRefusesCounts(datas: seq<Bytes>, data: Bytes)
    ensures |data| < 2 || data[0] == 0 || data[0] > 8 || |data| < 2 + 14 * data[0] as int ==>
            RuntimeRead(datas, data) == None
    ensures RuntimeRead(datas, data).Some? ==> |RuntimeRead(datas, data).value| == data[0]
  {
    if RuntimeRead(datas, data).Some? {
      OneEntryEach(datas, data, data[0]);
    }
  }

  lemma {:induction false} OneEntryEach(datas: seq<Bytes>, data: Bytes, count: nat)
    requires PRECOMPILE_OFFSETS_START + count * PRECOMPILE_OFFSETS_LEN <= |data|
    requires RuntimeEntries(datas, data, count).Some?
    ensures |RuntimeEntries(datas, data, count).value| == count
  {
    if count > 0 {
      OneEntryEach(datas, data, count - 1);
    }
  }
}
