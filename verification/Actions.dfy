/** What the user signs off on, and its Borsh encoding with a strict reader. */
module Actions {
  import opened Prelude
  import opened Integers
  import opened Parsing

  datatype Guardian = NoGuardian | P256(key: Key) | WebAuthn(key: Key)

  type GuardianList = gs: seq<Guardian> | |gs| == MAX_GUARDIANS
    witness seq(MAX_GUARDIANS, _ => NoGuardian)

  datatype Action =
    | TransferSol(to: Bytes32, lamports: u64)
    | TransferToken(mint: Bytes32, to: Bytes32, amount: u64)
    | ProposeRotation(newKey: Key)
    | CancelRotation
    | SetGuardians(guardians: GuardianList)
    | SweepVault(to: Bytes32)
    | CloseWallet(to: Bytes32)

  function EncodeGuardian(g: Guardian): Bytes {
    match g
    case NoGuardian => [0]
    case P256(key) => [1] + key
    case WebAuthn(key) => [2] + key
  }

  function EncodeGuardians(gs: seq<Guardian>): Bytes {
    if gs == [] then [] else EncodeGuardian(gs[0]) + EncodeGuardians(gs[1..])
  }

  /** The variant's index. */
  function Tag(a: Action): byte {
    match a
    case TransferSol(_, _) => 0
    case TransferToken(_, _, _) => 1
    case ProposeRotation(_) => 2
    case CancelRotation => 3
    case SetGuardians(_) => 4
    case SweepVault(_) => 5
    case CloseWallet(_) => 6
  }

  /** The variant's fields, in order. */
  function EncodeFields(a: Action): Bytes {
    match a
    case TransferSol(to, lamports) => to + U64Bytes(lamports)
    case TransferToken(mint, to, amount) => mint + (to + U64Bytes(amount))
    case ProposeRotation(newKey) => newKey
    case CancelRotation => []
    case SetGuardians(guardians) => EncodeGuardians(guardians)
    case SweepVault(to) => to
    case CloseWallet(to) => to
  }

  /** `borsh(Action)`. */
  function EncodeAction(a: Action): Bytes {
    [Tag(a)] + EncodeFields(a)
  }

  function ReadGuardian(b: Bytes): Option<Read<Guardian>> {
    var tag :- TakeByte(b);
    if tag.value == 0 then
      Some(Read(NoGuardian, tag.rest))
    else if tag.value <= 2 then
      var key :- TakeKey(tag.rest);
      Some(Read(if tag.value == 1 then P256(key.value) else WebAuthn(key.value), key.rest))
    else
      None
  }

  function ReadGuardians(b: Bytes, n: nat): (r: Option<Read<seq<Guardian>>>)
    ensures r.Some? ==> |r.value.value| == n
  {
    if n == 0 then Some(Read([], b)) else
    var first :- ReadGuardian(b);
    var others :- ReadGuardians(first.rest, n - 1);
    Some(Read([first.value] + others.value, others.rest))
  }

  function ReadFields(tag: byte, b: Bytes): Option<Read<Action>> {
    match tag
    case 0 =>
      var to :- Take32(b);
      var lamports :- TakeU64(to.rest);
      Some(Read(TransferSol(to.value, lamports.value), lamports.rest))
    case 1 =>
      var mint :- Take32(b);
      var to :- Take32(mint.rest);
      var amount :- TakeU64(to.rest);
      Some(Read(TransferToken(mint.value, to.value, amount.value), amount.rest))
    case 2 =>
      var key :- TakeKey(b);
      Some(Read(ProposeRotation(key.value), key.rest))
    case 3 => Some(Read(CancelRotation, b))
    case 4 =>
      var gs :- ReadGuardians(b, MAX_GUARDIANS);
      Some(Read(SetGuardians(gs.value), gs.rest))
    case 5 =>
      var to :- Take32(b);
      Some(Read(SweepVault(to.value), to.rest))
    case 6 =>
      var to :- Take32(b);
      Some(Read(CloseWallet(to.value), to.rest))
    case _ => None
  }

  function ReadAction(b: Bytes): Option<Read<Action>> {
    var tag :- TakeByte(b);
    ReadFields(tag.value, tag.rest)
  }

  lemma ReadGuardianOfEncode(g: Guardian, rest: Bytes)
    ensures ReadGuardian(EncodeGuardian(g) + rest) == Some(Read(g, rest))
  {
    var b := EncodeGuardian(g) + rest;
    match g
    case NoGuardian =>
      assert b[1..] == rest;
    case P256(key) =>
      assert b == [1] + (key + rest);
      TakePrefix(key, rest);
    case WebAuthn(key) =>
      assert b == [2] + (key + rest);
      TakePrefix(key, rest);
  }

  lemma {:induction false} ReadGuardiansOfEncode(gs: seq<Guardian>, rest: Bytes)
    ensures ReadGuardians(EncodeGuardians(gs) + rest, |gs|) == Some(Read(gs, rest))
  {
    if gs == [] {
      assert EncodeGuardians(gs) + rest == rest;
    } else {
      var tail := EncodeGuardians(gs[1..]) + rest;
      assert EncodeGuardians(gs) + rest == EncodeGuardian(gs[0]) + tail;
      ReadGuardianOfEncode(gs[0], tail);
      ReadGuardiansOfEncode(gs[1..], rest);
      assert [gs[0]] + gs[1..] == gs;
    }
  }

  lemma EncodeOfReadGuardian(b: Bytes)
    requires ReadGuardian(b).Some?
    ensures var r := ReadGuardian(b).value; EncodeGuardian(r.value) + r.rest == b
  {
    var r := ReadGuardian(b).value;
    if b[0] == 0 {
      assert [b[0]] + r.rest == b;
    } else {
      assert [b[0]] + (r.value.key + r.rest) == b;
    }
  }

  lemma {:induction false} EncodeOfReadGuardians(b: Bytes, n: nat)
    requires ReadGuardians(b, n).Some?
    ensures var r := ReadGuardians(b, n).value; EncodeGuardians(r.value) + r.rest == b
  {
    if n > 0 {
      var first := ReadGuardian(b).value;
      var others := ReadGuardians(first.rest, n - 1).value;
      EncodeOfReadGuardian(b);
      EncodeOfReadGuardians(first.rest, n - 1);
      EncodeGuardiansCons(first.value, others.value, others.rest);
    }
  }

  lemma EncodeGuardiansCons(g: Guardian, gs: seq<Guardian>, rest: Bytes)
    ensures EncodeGuardians([g] + gs) + rest == EncodeGuardian(g) + (EncodeGuardians(gs) + rest)
  {
    assert ([g] + gs)[1..] == gs;
  }

  lemma ReadFieldsOfEncode(a: Action, rest: Bytes)
    ensures ReadFields(Tag(a), EncodeFields(a) + rest) == Some(Read(a, rest))
  {
    hide U64Bytes, U64Of, EncodeGuardians, ReadGuardians;
    match a
    case TransferSol(to, lamports) =>
      assert EncodeFields(a) + rest == to + (U64Bytes(lamports) + rest);
      TakePrefix(to, U64Bytes(lamports) + rest);
      TakeU64Prefix(lamports, rest);
    case TransferToken(mint, to, amount) =>
      assert EncodeFields(a) + rest == mint + (to + (U64Bytes(amount) + rest));
      TakePrefix(mint, to + (U64Bytes(amount) + rest));
      TakePrefix(to, U64Bytes(amount) + rest);
      TakeU64Prefix(amount, rest);
    case SetGuardians(guardians) =>
      ReadGuardiansOfEncode(guardians, rest);
    case _ =>
      TakePrefix(EncodeFields(a), rest);
  }

  /** Reading back an encoded action gives that action and leaves the bytes after it. */
  lemma ReadActionOfEncode(a: Action, rest: Bytes)
    ensures ReadAction(EncodeAction(a) + rest) == Some(Read(a, rest))
  {
    hide ReadFields, EncodeFields;
    ReadFieldsOfEncode(a, rest);
    assert (EncodeAction(a) + rest)[1..] == EncodeFields(a) + rest;
  }

  lemma EncodeOfReadToken(b: Bytes)
    requires ReadFields(1, b).Some?
    ensures var r := ReadFields(1, b).value;
            r.value.TransferToken? && EncodeFields(r.value) + r.rest == b
  {
    hide U64Bytes, U64Of;
    U64BytesOf(b[64..72]);
    assert b == b[..32] + b[32..] && b[32..] == b[32..64] + b[64..] && b[64..] == b[64..72] + b[72..];
  }

  lemma EncodeOfReadFields(tag: byte, b: Bytes)
    requires ReadFields(tag, b).Some?
    ensures var r := ReadFields(tag, b).value;
            Tag(r.value) == tag && EncodeFields(r.value) + r.rest == b
  {
    hide U64Bytes, U64Of, ReadGuardians, EncodeGuardians;
    if tag == 1 {
      EncodeOfReadToken(b);
    } else if tag == 4 {
      EncodeOfReadGuardians(b, MAX_GUARDIANS);
    }
  }

  /** The reader accepts nothing but encodings. */
  lemma EncodeOfReadAction(b: Bytes)
    requires ReadAction(b).Some?
    ensures var r := ReadAction(b).value; EncodeAction(r.value) + r.rest == b
  {
    hide ReadFields, EncodeFields, Tag;
    EncodeOfReadFields(b[0], b[1..]);
    var r := ReadAction(b).value;
    assert EncodeAction(r.value) + r.rest == [b[0]] + b[1..];
  }

  /** Encodings are injective and none is a proper prefix of another. */
  lemma EncodingIsPrefixFree(a1: Action, a2: Action, rest1: Bytes, rest2: Bytes)
    requires EncodeAction(a1) + rest1 == EncodeAction(a2) + rest2
    ensures a1 == a2 && rest1 == rest2
  {
    ReadActionOfEncode(a1, rest1);
    ReadActionOfEncode(a2, rest2);
  }

  // ----- The bytes themselves -----

  /** One entry of a guardian list: 0; or 1, a key; or 2, a key. */
  predicate IsGuardianBytes(b: Bytes, g: Guardian) {
    match g
    case NoGuardian => b == [0]
    case P256(key) => |b| == 34 && b[0] == 1 && b[1..] == key
    case WebAuthn(key) => |b| == 34 && b[0] == 2 && b[1..] == key
  }

  /** The variant's number, then its fields in the order they are declared. */
  ghost predicate IsActionBytes(b: Bytes, a: Action) {
    match a
    case TransferSol(to, lamports) => |b| == 41 && b[0] == 0 && b[1..33] == to && IsLe64(b[33..], lamports)
    case TransferToken(mint, to, amount) =>
      |b| == 73 && b[0] == 1 && b[1..33] == mint && b[33..65] == to && IsLe64(b[65..], amount)
    case ProposeRotation(newKey) => |b| == 34 && b[0] == 2 && b[1..] == newKey
    case CancelRotation => b == [3]
    case SetGuardians(gs) =>
      exists b0: Bytes, b1: Bytes, b2: Bytes ::
        && b == [4] + (b0 + (b1 + b2))
        && IsGuardianBytes(b0, gs[0]) && IsGuardianBytes(b1, gs[1]) && IsGuardianBytes(b2, gs[2])
    case SweepVault(to) => |b| == 33 && b[0] == 5 && b[1..] == to
    case CloseWallet(to) => |b| == 33 && b[0] == 6 && b[1..] == to
  }

  lemma GuardianBytes(g: Guardian)
    ensures IsGuardianBytes(EncodeGuardian(g), g)
  {
  }

  lemma ThreeGuardians(gs: GuardianList)
    ensures EncodeGuardians(gs) == EncodeGuardian(gs[0]) + (EncodeGuardian(gs[1]) + EncodeGuardian(gs[2]))
  {
    assert gs[1..][1..] == gs[2..] && gs[2..][1..] == [];
    assert EncodeGuardians(gs[2..]) == EncodeGuardian(gs[2]) + [];
  }

  /** Every action is encoded in the bytes the devices sign, variant by variant. */
  lemma ActionBytes(a: Action)
    ensures IsActionBytes(EncodeAction(a), a)
  {
    hide U64Bytes, EncodeGuardian, EncodeGuardians, IsLe64, IsGuardianBytes;
    match a
    case TransferSol(to, lamports) =>
      U64BytesAreLe(lamports);
      assert EncodeAction(a)[33..] == U64Bytes(lamports);
    case TransferToken(mint, to, amount) =>
      U64BytesAreLe(amount);
      assert EncodeAction(a)[65..] == U64Bytes(amount);
    case SetGuardians(gs) =>
      GuardianBytes(gs[0]);
      GuardianBytes(gs[1]);
      GuardianBytes(gs[2]);
      ThreeGuardians(gs);
    case _ =>
  }
}
