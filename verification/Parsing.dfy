/** Prefix readers shared by the strict parsers: each returns what it read and what is left. */
module Parsing {
  import opened Prelude
  import opened Integers

  datatype Read<+T> = Read(value: T, rest: Bytes)

  function Take(b: Bytes, n: nat): (r: Option<Read<Bytes>>)
    ensures r.Some? <==> n <= |b|
    ensures r.Some? ==> |r.value.value| == n && r.value.value + r.value.rest == b
  {
    if n <= |b| then Some(Read(b[..n], b[n..])) else None
  }

  function TakeByte(b: Bytes): (r: Option<Read<byte>>)
    ensures r.Some? <==> b != []
    ensures r.Some? ==> [r.value.value] + r.value.rest == b
  {
    if b == [] then None else Some(Read(b[0], b[1..]))
  }

  function Take32(b: Bytes): (r: Option<Read<Bytes32>>)
    ensures r.Some? ==> r.value.value + r.value.rest == b
  {
    var r :- Take(b, 32);
    Some(Read(r.value, r.rest))
  }

  function TakeKey(b: Bytes): (r: Option<Read<Key>>)
    ensures r.Some? ==> r.value.value + r.value.rest == b
  {
    var r :- Take(b, COMPRESSED_PUBKEY_LEN);
    Some(Read(r.value, r.rest))
  }

  function TakeU64(b: Bytes): (r: Option<Read<u64>>)
    ensures r.Some? ==> U64Bytes(r.value.value) + r.value.rest == b
  {
    var r :- Take(b, 8);
    U64BytesOf(r.value);
    Some(Read(U64Of(r.value), r.rest))
  }

  function TakeI64(b: Bytes): (r: Option<Read<i64>>)
    ensures r.Some? ==> I64Bytes(r.value.value) + r.value.rest == b
  {
    var r :- Take(b, 8);
    I64BytesOf(r.value);
    Some(Read(I64Of(r.value), r.rest))
  }

  lemma TakePrefix(a: Bytes, rest: Bytes)
    ensures Take(a + rest, |a|) == Some(Read(a, rest))
  {
    assert (a + rest)[..|a|] == a;
    assert (a + rest)[|a|..] == rest;
  }

  lemma TakeU64Prefix(n: u64, rest: Bytes)
    ensures TakeU64(U64Bytes(n) + rest) == Some(Read(n, rest))
  {
    TakePrefix(U64Bytes(n), rest);
    U64RoundTrip(n);
  }

  lemma TakeI64Prefix(n: i64, rest: Bytes)
    ensures TakeI64(I64Bytes(n) + rest) == Some(Read(n, rest))
  {
    TakePrefix(I64Bytes(n), rest);
    I64RoundTrip(n);
  }
}
