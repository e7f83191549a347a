/**
  The values that implement `Checksum` in uniffi_meta, and the canonical byte
  stream each one feeds into a hasher.

  Rust dispatches `Checksum::checksum` on the static type; here the closed set
  of implementing types is one datatype, `Value`, with one constructor per
  `impl Checksum`, and `Ty` names the Rust type a value has.  `Enc(v)` is the
  exact sequence of bytes the impl for v writes.
 */
module Values {
  import opened Wrappers
  import opened Bytes
  import opened Text

  datatype Value =
    | Bool(b: bool)                 // bool
    | U64(u: u64)                   // u64
    | I64(i: i64)                   // i64
    | Boxed(pointee: Value)         // Box<T>
    | Slice(items: seq<Value>)      // [T]
    | Vector(elems: seq<Value>)     // Vec<T>
    | BTreeMap(entries: seq<Entry>) // BTreeMap<String, V>, in iteration order
    | Opt(opt: Option<Value>)       // Option<T>
    | Str(text: seq<u8>)            // str
    | OwnedString(text: seq<u8>)    // String
    | StrRef(text: seq<u8>)         // &str

  /** One key/value pair of a map. */
  datatype Entry = Entry(key: seq<u8>, value: Value)

  /** The Rust type of a value. */
  datatype Ty =
    | TBool
    | TU64
    | TI64
    | TBox(pointee: Ty)
    | TSlice(elem: Ty)
    | TVec(elem: Ty)
    | TBTreeMap(val: Ty)
    | TOption(inner: Ty)
    | TStr
    | TString
    | TStrRef

  /** Map entries in the order a `BTreeMap` holds them: strictly ascending keys. */
  predicate Ascending(es: seq<Entry>)
  {
    forall i, j :: 0 <= i < j < |es| ==> Less(es[i].key, es[j].key)
  }

  /**
    v is a value of Rust type t: its shape matches t, strings are well-formed
    UTF-8, collection lengths fit in `usize` on a 64-bit target, and maps keep
    their keys strictly ascending.
   */
  predicate Conforms(v: Value, t: Ty)
  {
    match v
    case Bool(_) => t == TBool
    case U64(_) => t == TU64
    case I64(_) => t == TI64
    case Boxed(p) => t.TBox? && Conforms(p, t.pointee)
    case Slice(items) =>
      t.TSlice? && |items| < TWO_TO_THE_64
      && forall i :: 0 <= i < |items| ==> Conforms(items[i], t.elem)
    case Vector(elems) =>
      t.TVec? && |elems| < TWO_TO_THE_64
      && forall i :: 0 <= i < |elems| ==> Conforms(elems[i], t.elem)
    case BTreeMap(es) =>
      t.TBTreeMap? && |es| < TWO_TO_THE_64 && Ascending(es)
      && forall i :: 0 <= i < |es| ==> ValidUtf8(es[i].key) && Conforms(es[i].value, t.val)
    case Opt(o) => t.TOption? && (o.Some? ==> Conforms(o.value, t.inner))
    case Str(s) => t == TStr && ValidUtf8(s)
    case OwnedString(s) => t == TString && ValidUtf8(s)
    case StrRef(s) => t == TStrRef && ValidUtf8(s)
  }

  /** `impl Checksum for bool`: the byte `b as u8`. */
  function EncBool(b: bool): seq<u8>
  {
    [if b then 1 else 0]
  }

  /** `impl Checksum for str`: the bytes, then the terminator. */
  function EncStr(s: seq<u8>): seq<u8>
  {
    s + [TERMINATOR]
  }

  /** The discriminant of an `Option`: 0 for `None`, 1 for `Some`. */
  function OptionTag(present: bool): (r: seq<u8>)
    ensures |r| == 8 && FromLe(r) == (if present then 1 else 0)
  {
    U64ToLe(if present then 1 else 0)
  }

  /** The canonical byte stream of a value. */
  function Enc(v: Value): seq<u8>
  {
    match v
    case Bool(b) => EncBool(b)
    case U64(u) => U64ToLe(u)
    case I64(i) => I64ToLe(i)
    case Boxed(p) => Enc(p)
    case Slice(items) => EncSlice(items)
    case Vector(elems) => EncSlice(elems)
    case BTreeMap(es) => LenToLe(|es|) + EncEntries(es)
    case Opt(None) => OptionTag(false)
    case Opt(Some(x)) => OptionTag(true) + Enc(x)
    case Str(s) => EncStr(s)
    case OwnedString(s) => EncStr(s)
    case StrRef(s) => EncStr(s)
  }

  /** `impl Checksum for [T]`: the length, then every element in index order. */
  function EncSlice(items: seq<Value>): seq<u8>
    decreases items, 1
  {
    LenToLe(|items|) + EncItems(items)
  }

  function EncItems(items: seq<Value>): seq<u8>
    decreases items, 0
  {
    if items == [] then [] else Enc(items[0]) + EncItems(items[1..])
  }

  /** Each entry contributes its key's encoding, then its value's. */
  function EncEntries(es: seq<Entry>): seq<u8>
  {
    if es == [] then [] else EncStr(es[0].key) + Enc(es[0].value) + EncEntries(es[1..])
  }

  /** Appending one more element extends the element stream by its encoding. */
  lemma {:induction false} EncItemsSnoc(items: seq<Value>, x: Value)
    ensures EncItems(items + [x]) == EncItems(items) + Enc(x)
  {
    if items == [] {
      assert [x][1..] == [];
    } else {
      assert (items + [x])[1..] == items[1..] + [x];
      EncItemsSnoc(items[1..], x);
    }
  }

  lemma {:induction false} EncEntriesSnoc(es: seq<Entry>, e: Entry)
    ensures EncEntries(es + [e]) == EncEntries(es) + EncStr(e.key) + Enc(e.value)
  {
    if es == [] {
      assert [e][1..] == [];
    } else {
      assert (es + [e])[1..] == es[1..] + [e];
      EncEntriesSnoc(es[1..], e);
    }
  }

  /** The stream of the first i + 1 elements extends that of the first i. */
  lemma EncItemsPrefix(items: seq<Value>, i: nat)
    requires i < |items|
    ensures EncItems(items[..i + 1]) == EncItems(items[..i]) + Enc(items[i])
  {
    assert items[..i + 1] == items[..i] + [items[i]];
    EncItemsSnoc(items[..i], items[i]);
  }

  lemma EncEntriesPrefix(es: seq<Entry>, i: nat)
    requires i < |es|
    ensures EncEntries(es[..i + 1]) == EncEntries(es[..i]) + (EncStr(es[i].key) + Enc(es[i].value))
  {
    assert es[..i + 1] == es[..i] + [es[i]];
    EncEntriesSnoc(es[..i], es[i]);
  }
}
