/**
 * Text to UUID conversion as done by `uuid.UUID(s)` on the identifiers a
 * terminal submits: hyphens are ignored, what remains must be exactly 32
 * hexadecimal digits (either case), and the UUID is the 128-bit number they
 * spell. Every other text is treated as malformed (Python's `ValueError`),
 * modelled as `None`; Python accepts some further spellings (braces, a
 * `urn:uuid:` prefix, the leniencies of `int(..., 16)`) that this model
 * rejects.
 */
module Uuids {
  import opened Wrappers

  /** A UUID is identified by its integer value, as Python compares them. */
  datatype Uuid = Uuid(value: nat)

  function Pow16(k: nat): (p: nat)
    ensures p >= 1
  {
    if k == 0 then 1 else 16 * Pow16(k - 1)
  }

  predicate IsHexDigit(c: char) {
    ('0' <= c <= '9') || ('a' <= c <= 'f') || ('A' <= c <= 'F')
  }

  predicate AllHex(s: string) {
    forall i :: 0 <= i < |s| ==> IsHexDigit(s[i])
  }

  function DigitValue(c: char): (d: nat)
    requires IsHexDigit(c)
    ensures d < 16
  {
    if '0' <= c <= '9' then (c as int - '0' as int)
    else if 'a' <= c <= 'f' then (c as int - 'a' as int) + 10
    else (c as int - 'A' as int) + 10
  }

  /** The number spelled by a string of hexadecimal digits, most significant first. */
  function HexValue(s: string): (n: nat)
    requires AllHex(s)
    ensures n < Pow16(|s|)
  {
    if s == [] then 0
    else
      var high := HexValue(s[..|s| - 1]);
      var low := DigitValue(s[|s| - 1]);
      assert high + 1 <= Pow16(|s| - 1);
      assert high * 16 + 16 <= Pow16(|s| - 1) * 16;
      high * 16 + low
  }

  /** The string with every `-` removed, other characters kept in order. */
  function DropHyphens(s: string): (r: string)
    ensures |r| <= |s|
    ensures forall i :: 0 <= i < |r| ==> r[i] != '-'
  {
    if s == [] then []
    else (if s[0] == '-' then [] else [s[0]]) + DropHyphens(s[1..])
  }

  /** `uuid.UUID(s)`: `None` stands for the `ValueError` raised on malformed text. */
  function ParseUuid(s: string): (r: Option<Uuid>)
    ensures r.Some? <==> |DropHyphens(s)| == 32 && AllHex(DropHyphens(s))
    ensures r.Some? ==> r.value.value < Pow16(32)
  {
    var digits := DropHyphens(s);
    if |digits| == 32 && AllHex(digits) then Some(Uuid(HexValue(digits))) else None
  }

  const LowerHex: string := "0123456789abcdef"

  /** The last `k` hexadecimal digits of `n`, lower case, most significant first. */
  function ToHex(n: nat, k: nat): (s: string)
    ensures |s| == k && AllHex(s)
    ensures forall i :: 0 <= i < |s| ==> s[i] != '-'
  {
    if k == 0 then "" else ToHex(n / 16, k - 1) + [LowerHex[n % 16]]
  }

  /** 32 digits grouped 8-4-4-4-12 with hyphens. */
  function Hyphenate(h: string): (s: string)
    requires |h| == 32
    ensures |s| == 36
    ensures s[8] == '-' && s[13] == '-' && s[18] == '-' && s[23] == '-'
  {
    h[..8] + "-" + h[8..12] + "-" + h[12..16] + "-" + h[16..20] + "-" + h[20..]
  }

  /** `str(u)`: the canonical 8-4-4-4-12 lower-case form a server hands to its clients. */
  function FormatUuid(u: Uuid): (s: string)
    requires u.value < Pow16(32)
    ensures |s| == 36 && s[8] == '-' && s[13] == '-' && s[18] == '-' && s[23] == '-'
  {
    Hyphenate(ToHex(u.value, 32))
  }

  lemma LowerHexDigit(d: nat)
    requires d < 16
    ensures IsHexDigit(LowerHex[d]) && DigitValue(LowerHex[d]) == d
  {
  }

  lemma {:induction false} HexValueOfToHex(n: nat, k: nat)
    requires n < Pow16(k)
    ensures HexValue(ToHex(n, k)) == n
  {
    if k > 0 {
      var s := ToHex(n, k);
      assert s[..|s| - 1] == ToHex(n / 16, k - 1);
      assert n / 16 < Pow16(k - 1);
      HexValueOfToHex(n / 16, k - 1);
      LowerHexDigit(n % 16);
    }
  }

  lemma {:induction false} DropHyphensAppend(a: string, b: string)
    ensures DropHyphens(a + b) == DropHyphens(a) + DropHyphens(b)
  {
    if a == [] {
      assert a + b == b;
    } else {
      assert (a + b)[0] == a[0];
      assert (a + b)[1..] == a[1..] + b;
      DropHyphensAppend(a[1..], b);
    }
  }

  lemma DropHyphensJoin(a: string, b: string)
    ensures DropHyphens(a + "-" + b) == DropHyphens(a) + DropHyphens(b)
  {
    DropHyphensAppend(a + "-", b);
    DropHyphensAppend(a, "-");
  }

  lemma {:induction false} DropHyphensNone(s: string)
    requires forall i :: 0 <= i < |s| ==> s[i] != '-'
    ensures DropHyphens(s) == s
  {
    if s != [] {
      DropHyphensNone(s[1..]);
    }
  }

  lemma DropHyphensHyphenate(h: string)
    requires |h| == 32
    requires forall i :: 0 <= i < |h| ==> h[i] != '-'
    ensures DropHyphens(Hyphenate(h)) == h
  {
    var a, b, c, d, e := h[..8], h[8..12], h[12..16], h[16..20], h[20..];
    DropHyphensNone(a);
    DropHyphensNone(b);
    DropHyphensNone(c);
    DropHyphensNone(d);
    DropHyphensNone(e);
    var s1 := a + "-" + b;
    var s2 := s1 + "-" + c;
    var s3 := s2 + "-" + d;
    assert Hyphenate(h) == s3 + "-" + e;
    DropHyphensJoin(a, b);
    DropHyphensJoin(s1, c);
    DropHyphensJoin(s2, d);
    DropHyphensJoin(s3, e);
    assert a + b + c + d + e == h;
  }

  /** Parsing the canonical text of a UUID gives that UUID back. */
  lemma ParseFormat(u: Uuid)
    requires u.value < Pow16(32)
    ensures ParseUuid(FormatUuid(u)) == Some(u)
  {
    var h := ToHex(u.value, 32);
    DropHyphensHyphenate(h);
    HexValueOfToHex(u.value, 32);
  }
}
