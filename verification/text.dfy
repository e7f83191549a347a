/**
  The two facts about Rust strings the encoding relies on: a `str` holds
  well-formed UTF-8, which never contains the byte 0xFF, and strings are
  ordered byte-wise lexicographically (the `Ord` of `str`, which is the order
  a `BTreeMap<String, _>` iterates in).
 */
module Text {
  import opened Bytes

  /** The string terminator written after every string's bytes. */
  const TERMINATOR: u8 := 0xFF

  predicate IsContinuation(b: u8) {
    0x80 <= b <= 0xBF
  }

  /**
    Well-formed UTF-8 in the sense of the Unicode standard (table 3-7): no
    overlong forms, no surrogates, nothing above U+10FFFF.
   */
  predicate ValidUtf8(s: seq<u8>)
    decreases |s|
  {
    if s == [] then true
    else if s[0] <= 0x7F then ValidUtf8(s[1..])
    else if 0xC2 <= s[0] <= 0xDF then
      |s| >= 2 && IsContinuation(s[1]) && ValidUtf8(s[2..])
    else if 0xE0 <= s[0] <= 0xEF then
      |s| >= 3
      && (if s[0] == 0xE0 then 0xA0 <= s[1] <= 0xBF
          else if s[0] == 0xED then 0x80 <= s[1] <= 0x9F
          else IsContinuation(s[1]))
      && IsContinuation(s[2]) && ValidUtf8(s[3..])
    else if 0xF0 <= s[0] <= 0xF4 then
      |s| >= 4
      && (if s[0] == 0xF0 then 0x90 <= s[1] <= 0xBF
          else if s[0] == 0xF4 then 0x80 <= s[1] <= 0x8F
          else IsContinuation(s[1]))
      && IsContinuation(s[2]) && IsContinuation(s[3]) && ValidUtf8(s[4..])
    else false
  }

  /** Well-formed UTF-8 never contains the terminator byte. */
  lemma {:induction false} ValidUtf8HasNoTerminator(s: seq<u8>)
    requires ValidUtf8(s)
    ensures TERMINATOR !in s
  {
    if s != [] {
      var k := if s[0] <= 0x7F then 1
               else if s[0] <= 0xDF then 2
               else if s[0] <= 0xEF then 3
               else 4;
      ValidUtf8HasNoTerminator(s[k..]);
      assert s == s[..k] + s[k..];
    }
  }

  /** Strict byte-wise lexicographic order; a proper prefix comes first. */
  predicate Less(a: seq<u8>, b: seq<u8>)
  {
    b != [] && (a == [] || a[0] < b[0] || (a[0] == b[0] && Less(a[1..], b[1..])))
  }

  lemma {:induction false} LessIrreflexive(a: seq<u8>)
    ensures !Less(a, a)
  {
    if a != [] {
      LessIrreflexive(a[1..]);
    }
  }

  lemma {:induction false} LessTransitive(a: seq<u8>, b: seq<u8>, c: seq<u8>)
    requires Less(a, b) && Less(b, c)
    ensures Less(a, c)
  {
    if a != [] && a[0] == b[0] && b[0] == c[0] {
      LessTransitive(a[1..], b[1..], c[1..]);
    }
  }

  /** Any two distinct strings are ordered one way. */
  lemma {:induction false} LessTotal(a: seq<u8>, b: seq<u8>)
    requires a != b
    ensures Less(a, b) || Less(b, a)
  {
    if a != [] && b != [] && a[0] == b[0] {
      assert a[1..] != b[1..] by {
        assert a == [a[0]] + a[1..] && b == [b[0]] + b[1..];
      }
      LessTotal(a[1..], b[1..]);
    }
  }

  lemma LessAsymmetric(a: seq<u8>, b: seq<u8>)
    requires Less(a, b)
    ensures !Less(b, a)
  {
    if Less(b, a) {
      LessTransitive(a, b, a);
      LessIrreflexive(a);
    }
  }
}
