/**
  UUIDs as the service handles them: the 16-byte value of `uuid.UUID`, its
  canonical text (`UUID.String()`: 36 characters, lower-case hex digits in the
  8-4-4-4-12 layout of section 3 of RFC 4122) and the text forms `uuid.Parse`
  accepts (the canonical layout in either case, the same behind a
  case-insensitive "urn:uuid:" prefix or inside a pair of outer characters,
  and 32 bare hex digits).
 */
module Uuids {
  import opened Common

  newtype byte = b: int | 0 <= b < 256

  type Uuid = s: seq<byte> | |s| == 16 witness seq(16, _ => 0)

  /** The all-zero UUID, the zero value of `uuid.UUID`. */
  const Nil: Uuid := [0, 0, 0, 0, 0, 0, 0, 0, 0, 0, 0, 0, 0, 0, 0, 0]

  function HexDigit(n: nat): (c: char)
    requires n < 16
  {
    if n < 10 then ('0' as int + n) as char else ('a' as int + n - 10) as char
  }

  /** Value of one hex digit in either case (google/uuid's `xvalues` table). */
  function HexValue(c: char): (r: Option<nat>)
    ensures r.Some? ==> r.value < 16
  {
    if '0' <= c <= '9' then Some(c as int - '0' as int)
    else if 'a' <= c <= 'f' then Some(c as int - 'a' as int + 10)
    else if 'A' <= c <= 'F' then Some(c as int - 'A' as int + 10)
    else None
  }

  lemma HexValueOfDigit(n: nat)
    requires n < 16
    ensures HexValue(HexDigit(n)) == Some(n)
  {
  }

  /** Two lower-case hex digits per byte, high nibble first. */
  function EncodeHex(bs: seq<byte>): (s: string)
    ensures |s| == 2 * |bs|
  {
    if bs == [] then []
    else [HexDigit(bs[0] as int / 16), HexDigit(bs[0] as int % 16)] + EncodeHex(bs[1..])
  }

  /** One byte per pair of hex digits (google/uuid's `xtob`); fails on any non-hex digit. */
  function DecodeHex(s: string): (r: Option<seq<byte>>)
    ensures r.Some? ==> 2 * |r.value| == |s|
  {
    if |s| == 0 then Some([])
    else if |s| == 1 then None
    else
      match (HexValue(s[0]), HexValue(s[1]), DecodeHex(s[2..]))
      case (Some(hi), Some(lo), Some(rest)) => Some([(hi * 16 + lo) as byte] + rest)
      case _ => None
  }

  lemma {:induction false} DecodeEncodeHex(bs: seq<byte>)
    ensures DecodeHex(EncodeHex(bs)) == Some(bs)
  {
    if bs != [] {
      var s := EncodeHex(bs);
      var hi, lo := bs[0] as int / 16, bs[0] as int % 16;
      HexValueOfDigit(hi);
      HexValueOfDigit(lo);
      assert s[2..] == EncodeHex(bs[1..]);
      DecodeEncodeHex(bs[1..]);
      assert [bs[0]] + bs[1..] == bs;
    }
  }

  /** `UUID.String()`: xxxxxxxx-xxxx-xxxx-xxxx-xxxxxxxxxxxx in lower case. */
  function Format(u: Uuid): (s: string)
    ensures |s| == 36
    ensures s[8] == '-' && s[13] == '-' && s[18] == '-' && s[23] == '-'
  {
    EncodeHex(u[0..4]) + "-" + EncodeHex(u[4..6]) + "-" + EncodeHex(u[6..8]) + "-"
      + EncodeHex(u[8..10]) + "-" + EncodeHex(u[10..16])
  }

  /** The 8-4-4-4-12 layout at the start of `s`; characters after position 36 are not looked at. */
  function ParseGroups(s: string): (r: Option<Uuid>)
    requires |s| >= 36
    ensures r.Some? ==> s[8] == '-' && s[13] == '-' && s[18] == '-' && s[23] == '-'
  {
    if s[8] != '-' || s[13] != '-' || s[18] != '-' || s[23] != '-' then None
    else
      match (DecodeHex(s[0..8]), DecodeHex(s[9..13]), DecodeHex(s[14..18]),
             DecodeHex(s[19..23]), DecodeHex(s[24..36]))
      case (Some(a), Some(b), Some(c), Some(d), Some(e)) => Some(a + b + c + d + e)
      case _ => None
  }

  function LowerAscii(c: char): char {
    if 'A' <= c <= 'Z' then (c as int + 32) as char else c
  }

  predicate EqualFoldAscii(a: string, b: string) {
    |a| == |b| && forall i :: 0 <= i < |a| ==> LowerAscii(a[i]) == LowerAscii(b[i])
  }

  /** Every character is a single byte in UTF-8. */
  predicate IsAscii(s: string) {
    forall i :: 0 <= i < |s| ==> s[i] as int < 128
  }

  /**
    `uuid.Parse`: the layout is chosen by the length of the text alone, and Go
    measures that length in UTF-8 bytes. The two outer characters of the
    38-byte layout are skipped unread, so they are required to be one byte
    each here; every other character a layout reads must be a hex digit, a
    hyphen or part of the "urn:uuid:" prefix, all single bytes.
   */
  function Parse(s: string): (r: Option<Uuid>)
    ensures r.Some? ==> |s| == 32 || |s| == 36 || |s| == 38 || |s| == 45
  {
    if |s| == 36 then ParseGroups(s)
    else if |s| == 36 + 9 then
      (if EqualFoldAscii(s[..9], "urn:uuid:") then ParseGroups(s[9..]) else None)
    else if |s| == 36 + 2 then
      (if s[0] as int < 128 && s[37] as int < 128 then ParseGroups(s[1..]) else None)
    else if |s| == 32 then
      (match DecodeHex(s) case Some(b) => Some(b) case None => None)
    else None
  }

  /**
    Only ASCII text parses, so the character count the layouts are chosen by
    here is the byte count `len` gives in Go for every text that parses, and a
    text with a multi-byte character is refused as Go refuses it.
   */
  lemma ParsedIsAscii(s: string)
    ensures Parse(s).Some? ==> IsAscii(s)
  {
    if Parse(s).Some? {
      if |s| == 36 {
        GroupsAscii(s);
      } else if |s| == 45 {
        PrefixAscii(s[..9], "urn:uuid:");
        GroupsAscii(s[9..]);
        assert s == s[..9] + s[9..];
      } else if |s| == 38 {
        GroupsAscii(s[1..]);
        assert forall i | 1 <= i < 37 :: s[i] == s[1..][i - 1];
      } else {
        DecodeHexAscii(s);
      }
    }
  }

  lemma {:induction false} DecodeHexAscii(s: string)
    ensures DecodeHex(s).Some? ==> IsAscii(s)
  {
    if |s| >= 2 && DecodeHex(s).Some? {
      DecodeHexAscii(s[2..]);
      assert forall i | 2 <= i < |s| :: s[i] == s[2..][i - 2];
    }
  }

  lemma GroupsAscii(s: string)
    requires |s| >= 36
    ensures ParseGroups(s).Some? ==> forall i | 0 <= i < 36 :: s[i] as int < 128
  {
    if ParseGroups(s).Some? {
      DecodeHexAscii(s[0..8]);
      DecodeHexAscii(s[9..13]);
      DecodeHexAscii(s[14..18]);
      DecodeHexAscii(s[19..23]);
      DecodeHexAscii(s[24..36]);
      forall i | 0 <= i < 36 ensures s[i] as int < 128 {
        if i < 8 { assert s[i] == s[0..8][i]; }
        else if 9 <= i < 13 { assert s[i] == s[9..13][i - 9]; }
        else if 14 <= i < 18 { assert s[i] == s[14..18][i - 14]; }
        else if 19 <= i < 23 { assert s[i] == s[19..23][i - 19]; }
        else if 24 <= i { assert s[i] == s[24..36][i - 24]; }
      }
    }
  }

  lemma PrefixAscii(a: string, b: string)
    requires IsAscii(b)
    ensures EqualFoldAscii(a, b) ==> IsAscii(a)
  {
    if EqualFoldAscii(a, b) {
      forall i | 0 <= i < |a| ensures a[i] as int < 128 {
        assert LowerAscii(a[i]) == LowerAscii(b[i]);
      }
    }
  }

  /** A two-byte opening character makes a 38-character text 39 bytes long, and no layout takes it. */
  lemma MultiByteBraceRefused(u: Uuid)
    ensures Parse("\U{e9}" + Format(u) + "}") == None
  {
    var s := "\U{e9}" + Format(u) + "}";
    assert s[0] as int == 0xe9;
  }

  /** Parsing the canonical text gives back the UUID it was formatted from. */
  lemma ParseFormat(u: Uuid)
    ensures Parse(Format(u)) == Some(u)
  {
    Groups(EncodeHex(u[0..4]), EncodeHex(u[4..6]), EncodeHex(u[6..8]), EncodeHex(u[8..10]), EncodeHex(u[10..16]));
    DecodeEncodeHex(u[0..4]);
    DecodeEncodeHex(u[4..6]);
    DecodeEncodeHex(u[6..8]);
    DecodeEncodeHex(u[8..10]);
    DecodeEncodeHex(u[10..16]);
    Regroup(u);
  }

  /** The five groups of a UUID, put back together, are the UUID. */
  lemma Regroup(u: Uuid)
    ensures u[0..4] + u[4..6] + u[6..8] + u[8..10] + u[10..16] == u
  {
    assert u[0..4] + u[4..6] == u[0..6];
    assert u[0..6] + u[6..8] == u[0..8];
    assert u[0..8] + u[8..10] == u[0..10];
    assert u[0..10] + u[10..16] == u;
  }

  /** Where the five groups sit in the 8-4-4-4-12 layout. */
  lemma Groups(a: string, b: string, c: string, d: string, e: string)
    requires |a| == 8 && |b| == 4 && |c| == 4 && |d| == 4 && |e| == 12
    ensures var s := a + "-" + b + "-" + c + "-" + d + "-" + e;
      s[0..8] == a && s[9..13] == b && s[14..18] == c && s[19..23] == d && s[24..36] == e
  {
    var s := a + "-" + b + "-" + c + "-" + d + "-" + e;
    Middle([], a, "-" + b + "-" + c + "-" + d + "-" + e);
    Middle(a + "-", b, "-" + c + "-" + d + "-" + e);
    Middle(a + "-" + b + "-", c, "-" + d + "-" + e);
    Middle(a + "-" + b + "-" + c + "-", d, "-" + e);
    Middle(a + "-" + b + "-" + c + "-" + d + "-", e, []);
  }

  lemma Middle(p: string, g: string, q: string)
    ensures (p + g + q)[|p|..|p| + |g|] == g
  {
  }

  /** Distinct UUIDs have distinct canonical texts, so the text is a faithful key. */
  lemma FormatInjective(u: Uuid, v: Uuid)
    ensures Format(u) == Format(v) <==> u == v
  {
    ParseFormat(u);
    ParseFormat(v);
  }

  /**
    The UUID a text names when the text is that UUID's canonical form: the
    only texts a stored canonical key can be equal to.
   */
  function CanonicalKey(text: string): Option<Uuid> {
    match Parse(text)
    case Some(u) => if Format(u) == text then Some(u) else None
    case None => None
  }

  /** Comparing a stored canonical text with a given text is comparing UUIDs with the key of that text. */
  lemma CanonicalKeyExact(text: string, u: Uuid)
    ensures CanonicalKey(text) == Some(u) <==> Format(u) == text
  {
    if Format(u) == text {
      ParseFormat(u);
    }
  }
}
