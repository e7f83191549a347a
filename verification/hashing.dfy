/**
  The `Checksum` impls and the `checksum` entry point, as code that feeds a
  hasher step by step.

  SipHash-1-3 is a streaming hash: its result depends only on the
  concatenation of the bytes written, never on how the writes were split.  So
  the hasher is modelled by the bytes written so far, and the hash function
  itself, keyed with the fixed key of `SipHasher13::new()`, is a parameter
  `sip13` whose internals this model does not describe.
 */
module Hashing {
  import opened Wrappers
  import opened Bytes
  import opened Text
  import opened Values
  import opened BTreeMaps

  class SipHasher13 {
    /** Every byte written so far, in order. */
    var written: seq<u8>
    /** The keyed hash function applied by `finish`. */
    const sip13: seq<u8> -> u64

    /** `SipHasher13::new()`: a hasher that has seen nothing yet. */
    constructor (sip13: seq<u8> -> u64)
      ensures written == [] && this.sip13 == sip13
    {
      written := [];
      this.sip13 := sip13;
    }

    /** `Hasher::write` */
    method Write(bytes: seq<u8>)
      modifies this
      ensures written == old(written) + bytes
    {
      written := written + bytes;
    }

    /** `Hasher::write_u8` */
    method WriteU8(b: u8)
      modifies this
      ensures written == old(written) + [b]
    {
      written := written + [b];
    }

    /** `Hasher::finish`: the hash of everything written. */
    function Finish(): (h: u64)
      reads this
      ensures h == sip13(written)
    {
      sip13(written)
    }
  }

  /** `Checksum::checksum`, dispatched on the type of v. */
  method Checksum(v: Value, state: SipHasher13)
    modifies state
    ensures state.written == old(state.written) + Enc(v)
    decreases v, 0
  {
    match v
    case Bool(b) => ChecksumBool(b, state);
    case U64(u) => ChecksumU64(u, state);
    case I64(i) => ChecksumI64(i, state);
    case Boxed(p) => ChecksumBox(p, state);
    case Slice(items) => ChecksumSlice(items, state);
    case Vector(elems) => ChecksumVec(elems, state);
    case BTreeMap(es) => ChecksumBTreeMap(es, state);
    case Opt(o) => ChecksumOption(o, state);
    case Str(s) => ChecksumStr(s, state);
    case OwnedString(s) => ChecksumString(s, state);
    case StrRef(s) => ChecksumStrRef(s, state);
  }

  /** `impl Checksum for bool`: one byte, 0 or 1. */
  method ChecksumBool(b: bool, state: SipHasher13)
    modifies state
    ensures state.written == old(state.written) + [if b then 1 else 0]
  {
    state.WriteU8(if b then 1 else 0);
  }

  /** `impl Checksum for u64`: the eight little-endian bytes. */
  method ChecksumU64(x: u64, state: SipHasher13)
    modifies state
    ensures state.written == old(state.written) + U64ToLe(x)
  {
    state.Write(U64ToLe(x));
  }

  /** `impl Checksum for i64`: the eight little-endian two's-complement bytes. */
  method ChecksumI64(x: i64, state: SipHasher13)
    modifies state
    ensures state.written == old(state.written) + I64ToLe(x)
  {
    state.Write(I64ToLe(x));
  }

  /** `impl Checksum for Box<T>`: exactly what the pointee writes. */
  method ChecksumBox(pointee: Value, state: SipHasher13)
    modifies state
    ensures state.written == old(state.written) + Enc(pointee)
    ensures state.written == old(state.written) + Enc(Boxed(pointee))
    decreases pointee, 1
  {
    Checksum(pointee, state);
  }

  /** `impl Checksum for [T]`: the length as a u64, then each element in index order. */
  method ChecksumSlice(items: seq<Value>, state: SipHasher13)
    modifies state
    ensures state.written == old(state.written) + LenToLe(|items|) + EncItems(items)
    ensures state.written == old(state.written) + Enc(Slice(items))
    decreases items, 1
  {
    var len := (|items| % TWO_TO_THE_64) as u64;
    state.Write(U64ToLe(len));
    var i := 0;
    while i < |items|
      invariant 0 <= i <= |items|
      invariant state.written == old(state.written) + LenToLe(|items|) + EncItems(items[..i])
    {
      EncItemsPrefix(items, i);
      Checksum(items[i], state);
      i := i + 1;
    }
    assert items[..i] == items;
  }

  /** `impl Checksum for Vec<T>`: exactly what the slice of its elements writes. */
  method ChecksumVec(elems: seq<Value>, state: SipHasher13)
    modifies state
    ensures state.written == old(state.written) + Enc(Slice(elems))
    ensures state.written == old(state.written) + Enc(Vector(elems))
    decreases elems, 2
  {
    ChecksumSlice(elems, state);
  }

  /**
    `impl Checksum for BTreeMap<K, V>`: the length as a u64, then every entry
    in iteration (ascending key) order, the key before the value.
   */
  method ChecksumBTreeMap(es: seq<Entry>, state: SipHasher13)
    modifies state
    ensures state.written == old(state.written) + LenToLe(|es|) + EncEntries(es)
    ensures state.written == old(state.written) + Enc(BTreeMap(es))
    decreases es, 1
  {
    var len := (|es| % TWO_TO_THE_64) as u64;
    state.Write(U64ToLe(len));
    var i := 0;
    while i < |es|
      invariant 0 <= i <= |es|
      invariant state.written == old(state.written) + LenToLe(|es|) + EncEntries(es[..i])
    {
      EncEntriesPrefix(es, i);
      ghost var before := state.written;
      ChecksumString(es[i].key, state);
      Checksum(es[i].value, state);
      assert state.written == before + (EncStr(es[i].key) + Enc(es[i].value));
      i := i + 1;
    }
    assert es[..i] == es;
  }

  /** `impl Checksum for Option<T>`: the tag 0 or 1 as a u64, then the value if any. */
  method ChecksumOption(o: Option<Value>, state: SipHasher13)
    modifies state
    ensures o.None? ==> state.written == old(state.written) + U64ToLe(0)
    ensures o.Some? ==> state.written == old(state.written) + U64ToLe(1) + Enc(o.value)
    ensures state.written == old(state.written) + Enc(Opt(o))
    decreases o, 1
  {
    match o
    case None =>
      state.Write(U64ToLe(0));
    case Some(value) =>
      state.Write(U64ToLe(1));
      Checksum(value, state);
  }

  /** `impl Checksum for str`: the bytes, then the terminator 0xFF. */
  method ChecksumStr(s: seq<u8>, state: SipHasher13)
    modifies state
    ensures state.written == old(state.written) + EncStr(s)
  {
    state.Write(s);
    state.WriteU8(TERMINATOR);
  }

  /** `impl Checksum for String`: exactly what the `str` it holds writes. */
  method ChecksumString(s: seq<u8>, state: SipHasher13)
    modifies state
    ensures state.written == old(state.written) + Enc(Str(s))
  {
    ChecksumStr(s, state);
  }

  /** `impl Checksum for &str`: exactly what the `str` it points to writes. */
  method ChecksumStrRef(s: seq<u8>, state: SipHasher13)
    modifies state
    ensures state.written == old(state.written) + Enc(Str(s))
  {
    ChecksumStr(s, state);
  }

  /** The value `checksum` returns: the low 16 bits of the hash of the encoding. */
  function ChecksumOf(v: Value, sip13: seq<u8> -> u64): u16
  {
    (sip13(Enc(v)) % 0x1_0000) as u16
  }

  /**
    `checksum(val)`: a fresh hasher, fed v, finished, masked to 16 bits
    (`& 0xFFFF` on an unsigned value is the remainder modulo 2^16).
   */
  method ComputeChecksum(v: Value, sip13: seq<u8> -> u64) returns (r: u16)
    ensures r as int == sip13(Enc(v)) as int % 0x1_0000
    ensures r == ChecksumOf(v, sip13)
  {
    var hasher := new SipHasher13(sip13);
    Checksum(v, hasher);
    assert hasher.written == Enc(v);
    assert hasher.sip13 == sip13;
    var h := hasher.Finish();
    assert h == hasher.sip13(hasher.written);
    r := (h % 0x1_0000) as u16;
  }

  /** Equal encodings give equal checksums, whatever the values' history. */
  lemma ChecksumDeterministic(a: Value, b: Value, sip13: seq<u8> -> u64)
    requires Enc(a) == Enc(b)
    ensures ChecksumOf(a, sip13) == ChecksumOf(b, sip13)
  {
  }

  /** Two maps filled in different orders with the same final contents checksum alike. */
  lemma MapChecksumOrderIndependent(p1: seq<Entry>, p2: seq<Entry>, sip13: seq<u8> -> u64)
    requires Assoc(p1) == Assoc(p2)
    ensures ChecksumOf(BTreeMap(Build(p1)), sip13) == ChecksumOf(BTreeMap(Build(p2)), sip13)
  {
    InsertionOrderIrrelevant(p1, p2);
  }
}
