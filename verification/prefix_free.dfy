/**
  The canonical encoding is prefix-free on each Rust type: the bytes of one
  value are never a proper prefix of, nor equal to, the bytes of a different
  value of the same type.  This is what the length prefixes, the `Option`
  discriminant and the string terminator are for, and it makes the encoding
  injective per type.
 */
module PrefixFree {
  import opened Wrappers
  import opened Bytes
  import opened Text
  import opened Values

  /** Two streams that agree and start with equally long parts agree part by part. */
  lemma SplitAt(p1: seq<u8>, p2: seq<u8>, r1: seq<u8>, r2: seq<u8>)
    requires |p1| == |p2| && p1 + r1 == p2 + r2
    ensures p1 == p2 && r1 == r2
  {
    assert p1 == (p1 + r1)[..|p1|];
    assert p2 == (p2 + r2)[..|p2|];
    assert r1 == (p1 + r1)[|p1|..];
    assert r2 == (p2 + r2)[|p2|..];
  }

  /** A terminated string ends where its terminator is, whatever follows it. */
  lemma StrPrefixFree(s1: seq<u8>, s2: seq<u8>, r1: seq<u8>, r2: seq<u8>)
    requires TERMINATOR !in s1 && TERMINATOR !in s2
    requires EncStr(s1) + r1 == EncStr(s2) + r2
    ensures s1 == s2 && r1 == r2
  {
    var x := EncStr(s1) + r1;
    assert forall i :: 0 <= i < |s1| ==> x[i] == s1[i] != TERMINATOR;
    assert forall i :: 0 <= i < |s2| ==> x[i] == s2[i] != TERMINATOR;
    assert x[|s1|] == TERMINATOR && x[|s2|] == TERMINATOR;
    SplitAt(EncStr(s1), EncStr(s2), r1, r2);
    assert s1 == EncStr(s1)[..|s1|];
  }

  lemma Utf8StrPrefixFree(s1: seq<u8>, s2: seq<u8>, r1: seq<u8>, r2: seq<u8>)
    requires ValidUtf8(s1) && ValidUtf8(s2)
    requires EncStr(s1) + r1 == EncStr(s2) + r2
    ensures s1 == s2 && r1 == r2
  {
    ValidUtf8HasNoTerminator(s1);
    ValidUtf8HasNoTerminator(s2);
    StrPrefixFree(s1, s2, r1, r2);
  }

  /** Equal eight-byte length prefixes mean equal lengths. */
  lemma LengthsAgree(n1: nat, n2: nat, r1: seq<u8>, r2: seq<u8>)
    requires n1 < TWO_TO_THE_64 && n2 < TWO_TO_THE_64
    requires LenToLe(n1) + r1 == LenToLe(n2) + r2
    ensures n1 == n2 && r1 == r2
  {
    SplitAt(LenToLe(n1), LenToLe(n2), r1, r2);
  }

  /**
    The main theorem: for two values of one type, if one's encoding followed
    by some bytes equals the other's followed by some bytes, the values are
    equal and so are the bytes that follow.
   */
  lemma {:induction false} EncPrefixFree(v1: Value, v2: Value, t: Ty, r1: seq<u8>, r2: seq<u8>)
    requires Conforms(v1, t) && Conforms(v2, t)
    requires Enc(v1) + r1 == Enc(v2) + r2
    ensures v1 == v2 && r1 == r2
    decreases v1, 2
  {
    match v1
    case Bool(_) => FixedWidthPrefixFree(v1, v2, t, r1, r2);
    case U64(_) => FixedWidthPrefixFree(v1, v2, t, r1, r2);
    case I64(_) => FixedWidthPrefixFree(v1, v2, t, r1, r2);
    case Boxed(p1) => EncPrefixFree(p1, v2.pointee, t.pointee, r1, r2);
    case Slice(_) => SequencePrefixFree(v1, v2, t, r1, r2);
    case Vector(_) => SequencePrefixFree(v1, v2, t, r1, r2);
    case BTreeMap(_) => MapValuePrefixFree(v1, v2, t, r1, r2);
    case Opt(o1) => OptionPrefixFree(o1, v2.opt, t.inner, r1, r2);
    case Str(_) => TextPrefixFree(v1, v2, t, r1, r2);
    case OwnedString(_) => TextPrefixFree(v1, v2, t, r1, r2);
    case StrRef(_) => TextPrefixFree(v1, v2, t, r1, r2);
  }

  lemma FixedWidthPrefixFree(v1: Value, v2: Value, t: Ty, r1: seq<u8>, r2: seq<u8>)
    requires v1.Bool? || v1.U64? || v1.I64?
    requires Conforms(v1, t) && Conforms(v2, t)
    requires Enc(v1) + r1 == Enc(v2) + r2
    ensures v1 == v2 && r1 == r2
  {
    SplitAt(Enc(v1), Enc(v2), r1, r2);
    if v1.U64? {
      assert FromLe(Enc(v1)) == v1.u as int && FromLe(Enc(v2)) == v2.u as int;
    } else if v1.I64? {
      assert I64FromLe(Enc(v1)) == v1.i as int && I64FromLe(Enc(v2)) == v2.i as int;
    }
  }

  lemma TextPrefixFree(v1: Value, v2: Value, t: Ty, r1: seq<u8>, r2: seq<u8>)
    requires v1.Str? || v1.OwnedString? || v1.StrRef?
    requires Conforms(v1, t) && Conforms(v2, t)
    requires Enc(v1) + r1 == Enc(v2) + r2
    ensures v1 == v2 && r1 == r2
  {
    Utf8StrPrefixFree(v1.text, v2.text, r1, r2);
  }

  lemma {:induction false} SequencePrefixFree(v1: Value, v2: Value, t: Ty, r1: seq<u8>, r2: seq<u8>)
    requires v1.Slice? || v1.Vector?
    requires Conforms(v1, t) && Conforms(v2, t)
    requires Enc(v1) + r1 == Enc(v2) + r2
    ensures v1 == v2 && r1 == r2
    decreases v1, 1
  {
    if v1.Slice? {
      SlicePrefixFree(v1.items, v2.items, t.elem, r1, r2);
    } else {
      SlicePrefixFree(v1.elems, v2.elems, t.elem, r1, r2);
    }
  }

  lemma {:induction false} MapValuePrefixFree(v1: Value, v2: Value, t: Ty, r1: seq<u8>, r2: seq<u8>)
    requires v1.BTreeMap?
    requires Conforms(v1, t) && Conforms(v2, t)
    requires Enc(v1) + r1 == Enc(v2) + r2
    ensures v1 == v2 && r1 == r2
    decreases v1, 1
  {
    MapPrefixFree(v1.entries, v2.entries, t.val, r1, r2);
  }

  lemma {:induction false} OptionPrefixFree(o1: Option<Value>, o2: Option<Value>, t: Ty, r1: seq<u8>, r2: seq<u8>)
    requires o1.Some? ==> Conforms(o1.value, t)
    requires o2.Some? ==> Conforms(o2.value, t)
    requires Enc(Opt(o1)) + r1 == Enc(Opt(o2)) + r2
    ensures o1 == o2 && r1 == r2
    decreases o1, 1
  {
    var rest1 := if o1.Some? then Enc(o1.value) + r1 else r1;
    var rest2 := if o2.Some? then Enc(o2.value) + r2 else r2;
    OptUnfold(o1, r1);
    OptUnfold(o2, r2);
    SplitAt(OptionTag(o1.Some?), OptionTag(o2.Some?), rest1, rest2);
    if o1.Some? {
      EncPrefixFree(o1.value, o2.value, t, r1, r2);
    }
  }

  /** An option's stream is its tag, then the payload's stream if there is one. */
  lemma OptUnfold(o: Option<Value>, r: seq<u8>)
    ensures Enc(Opt(o)) + r == OptionTag(o.Some?) + (if o.Some? then Enc(o.value) + r else r)
  {
    if o.Some? {
      assert Enc(Opt(o)) == OptionTag(true) + Enc(o.value);
    }
  }

  /** The `None` tag followed by anything differs from the `Some` tag followed by anything. */
  lemma OptionTagsDiffer(x: seq<u8>, y: seq<u8>)
    ensures OptionTag(false) + x != OptionTag(true) + y
  {
    if OptionTag(false) + x == OptionTag(true) + y {
      SplitAt(OptionTag(false), OptionTag(true), x, y);
    }
  }

  /** The slice encoding, length prefix included, is prefix-free. */
  lemma {:induction false} SlicePrefixFree(items1: seq<Value>, items2: seq<Value>, t: Ty, r1: seq<u8>, r2: seq<u8>)
    requires |items1| < TWO_TO_THE_64 && |items2| < TWO_TO_THE_64
    requires forall i :: 0 <= i < |items1| ==> Conforms(items1[i], t)
    requires forall i :: 0 <= i < |items2| ==> Conforms(items2[i], t)
    requires EncSlice(items1) + r1 == EncSlice(items2) + r2
    ensures items1 == items2 && r1 == r2
    decreases items1, 1
  {
    assert EncSlice(items1) + r1 == LenToLe(|items1|) + (EncItems(items1) + r1);
    assert EncSlice(items2) + r2 == LenToLe(|items2|) + (EncItems(items2) + r2);
    LengthsAgree(|items1|, |items2|, EncItems(items1) + r1, EncItems(items2) + r2);
    ItemsPrefixFree(items1, items2, t, r1, r2);
  }

  lemma {:induction false} MapPrefixFree(es1: seq<Entry>, es2: seq<Entry>, t: Ty, r1: seq<u8>, r2: seq<u8>)
    requires |es1| < TWO_TO_THE_64 && |es2| < TWO_TO_THE_64
    requires forall i :: 0 <= i < |es1| ==> ValidUtf8(es1[i].key) && Conforms(es1[i].value, t)
    requires forall i :: 0 <= i < |es2| ==> ValidUtf8(es2[i].key) && Conforms(es2[i].value, t)
    requires LenToLe(|es1|) + EncEntries(es1) + r1 == LenToLe(|es2|) + EncEntries(es2) + r2
    ensures es1 == es2 && r1 == r2
    decreases es1, 1
  {
    assert LenToLe(|es1|) + EncEntries(es1) + r1 == LenToLe(|es1|) + (EncEntries(es1) + r1);
    assert LenToLe(|es2|) + EncEntries(es2) + r2 == LenToLe(|es2|) + (EncEntries(es2) + r2);
    LengthsAgree(|es1|, |es2|, EncEntries(es1) + r1, EncEntries(es2) + r2);
    EntriesPrefixFree(es1, es2, t, r1, r2);
  }

  /** Equally many elements of one type: the element streams are prefix-free too. */
  lemma {:induction false} ItemsPrefixFree(items1: seq<Value>, items2: seq<Value>, t: Ty, r1: seq<u8>, r2: seq<u8>)
    requires |items1| == |items2|
    requires forall i :: 0 <= i < |items1| ==> Conforms(items1[i], t)
    requires forall i :: 0 <= i < |items2| ==> Conforms(items2[i], t)
    requires EncItems(items1) + r1 == EncItems(items2) + r2
    ensures items1 == items2 && r1 == r2
    decreases items1, 0
  {
    if items1 != [] {
      var tail1 := EncItems(items1[1..]) + r1;
      var tail2 := EncItems(items2[1..]) + r2;
      assert EncItems(items1) + r1 == Enc(items1[0]) + tail1;
      assert EncItems(items2) + r2 == Enc(items2[0]) + tail2;
      EncPrefixFree(items1[0], items2[0], t, tail1, tail2);
      assert forall i :: 0 <= i < |items1[1..]| ==> Conforms(items1[1..][i], t);
      assert forall i :: 0 <= i < |items2[1..]| ==> Conforms(items2[1..][i], t);
      ItemsPrefixFree(items1[1..], items2[1..], t, r1, r2);
      assert items1 == [items1[0]] + items1[1..];
      assert items2 == [items2[0]] + items2[1..];
    } else {
      assert items2 == [];
      assert EncItems(items1) + r1 == r1 && EncItems(items2) + r2 == r2;
    }
  }

  lemma {:induction false} EntriesPrefixFree(es1: seq<Entry>, es2: seq<Entry>, t: Ty, r1: seq<u8>, r2: seq<u8>)
    requires |es1| == |es2|
    requires forall i :: 0 <= i < |es1| ==> ValidUtf8(es1[i].key) && Conforms(es1[i].value, t)
    requires forall i :: 0 <= i < |es2| ==> ValidUtf8(es2[i].key) && Conforms(es2[i].value, t)
    requires EncEntries(es1) + r1 == EncEntries(es2) + r2
    ensures es1 == es2 && r1 == r2
    decreases es1, 0
  {
    if es1 != [] {
      var k1, x1, k2, x2 := es1[0].key, es1[0].value, es2[0].key, es2[0].value;
      assert ValidUtf8(k1) && Conforms(x1, t) && ValidUtf8(k2) && Conforms(x2, t);
      var tail1 := EncEntries(es1[1..]) + r1;
      var tail2 := EncEntries(es2[1..]) + r2;
      EntriesUnfold(es1, r1);
      EntriesUnfold(es2, r2);
      Utf8StrPrefixFree(k1, k2, Enc(x1) + tail1, Enc(x2) + tail2);
      EncPrefixFree(x1, x2, t, tail1, tail2);
      EntriesPrefixFree(es1[1..], es2[1..], t, r1, r2);
      assert es1 == [es1[0]] + es1[1..];
      assert es2 == [es2[0]] + es2[1..];
    } else {
      assert es2 == [];
      assert EncEntries(es1) + r1 == r1 && EncEntries(es2) + r2 == r2;
    }
  }

  lemma EntriesUnfold(es: seq<Entry>, r: seq<u8>)
    requires es != []
    ensures EncEntries(es) + r == EncStr(es[0].key) + (Enc(es[0].value) + (EncEntries(es[1..]) + r))
  {
  }

  /** Distinct values of one type never encode to the same bytes. */
  lemma EncInjective(v1: Value, v2: Value, t: Ty)
    requires Conforms(v1, t) && Conforms(v2, t)
    requires Enc(v1) == Enc(v2)
    ensures v1 == v2
  {
    EncPrefixFree(v1, v2, t, [], []);
  }

  /** `None` and any `Some(_)` differ already in their discriminant. */
  lemma NoneNeverPrefixesSome(x: Value, r1: seq<u8>, r2: seq<u8>)
    ensures Enc(Opt(None)) + r1 != Enc(Opt(Some(x))) + r2
  {
    assert Enc(Opt(Some(x))) + r2 == OptionTag(true) + (Enc(x) + r2);
    OptionTagsDiffer(r1, Enc(x) + r2);
  }

  /**
    Structure is not lost to concatenation: the list `["ab"]` and the list
    `["a", "b"]` have the same string bytes but different encodings.
   */
  lemma StringListsDiscriminated()
    ensures Enc(Vector([OwnedString([0x61, 0x62])]))
         != Enc(Vector([OwnedString([0x61]), OwnedString([0x62])]))
  {
    var one := Vector([OwnedString([0x61, 0x62])]);
    var two := Vector([OwnedString([0x61]), OwnedString([0x62])]);
    assert ValidUtf8([0x61, 0x62]) && ValidUtf8([0x61]) && ValidUtf8([0x62]);
    assert Conforms(one, TVec(TString)) && Conforms(two, TVec(TString));
    if Enc(one) == Enc(two) {
      EncInjective(one, two, TVec(TString));
    }
  }

  /** Swapping two different elements of a sequence changes its encoding. */
  lemma ElementOrderMatters(a: Value, b: Value, t: Ty)
    requires Conforms(a, t) && Conforms(b, t) && a != b
    ensures Enc(Vector([a, b])) != Enc(Vector([b, a]))
  {
    assert Conforms(Vector([a, b]), TVec(t)) && Conforms(Vector([b, a]), TVec(t));
    if Enc(Vector([a, b])) == Enc(Vector([b, a])) {
      EncInjective(Vector([a, b]), Vector([b, a]), TVec(t));
    }
  }
}
