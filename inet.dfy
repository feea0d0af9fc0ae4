/** inet_pton(AF_INET, ...) as the control plane uses it: a dotted-quad text
    "d.d.d.d" of four decimal octets 0..255 becomes the address's network-order
    memory image, loaded as a 32-bit key. Splitting at the dots and joining
    with dots are inverse; the formatter (inet_ntop) is the inverse direction of
    the whole parser. */
module Inet {
  import opened Wrappers
  import opened Packet

  predicate IsDigit(c: char)
  {
    '0' <= c <= '9'
  }

  predicate AllDigits(s: string)
  {
    forall i :: 0 <= i < |s| ==> IsDigit(s[i])
  }

  /** The value of a run of decimal digits, most significant first. */
  function Decimal(ds: string): nat
    requires AllDigits(ds)
  {
    if ds == [] then 0
    else 10 * Decimal(ds[..|ds| - 1]) + (ds[|ds| - 1] as int - '0' as int)
  }

  /** The text of one octet as inet_pton accepts it: one to three decimal
      digits whose value is at most 255. */
  predicate IsOctetText(t: string)
  {
    1 <= |t| <= 3 && AllDigits(t) && Decimal(t) <= 255
  }

  function OctetValue(t: string): u8
    requires IsOctetText(t)
  {
    Decimal(t) as u8
  }

  /** Four octet texts, as in "a.b.c.d". */
  predicate IsQuad(ts: seq<string>)
  {
    |ts| == 4 && forall i :: 0 <= i < 4 ==> IsOctetText(ts[i])
  }

  /** The key of a dotted quad: its four octets in memory order. */
  function QuadKey(ts: seq<string>): u32
    requires IsQuad(ts)
  {
    Load32(OctetValue(ts[0]), OctetValue(ts[1]), OctetValue(ts[2]), OctetValue(ts[3]))
  }

  /** Texts joined by single dots. */
  function Dotted(ts: seq<string>): string
    requires |ts| >= 1
  {
    if |ts| == 1 then ts[0] else ts[0] + "." + Dotted(ts[1..])
  }

  predicate NoDot(t: string)
  {
    forall i :: 0 <= i < |t| ==> t[i] != '.'
  }

  /** The pieces of s between dots; a text with n dots has n + 1 pieces. */
  function SplitDots(s: string): (parts: seq<string>)
    ensures |parts| >= 1
    ensures forall i :: 0 <= i < |parts| ==> NoDot(parts[i])
  {
    if s == [] then [[]]
    else
      var rest := SplitDots(s[1..]);
      if s[0] == '.' then [[]] + rest
      else
        assert NoDot([s[0]] + rest[0]) by {
          assert forall i :: 1 <= i < |rest[0]| + 1 ==> ([s[0]] + rest[0])[i] == rest[0][i - 1];
        }
        [[s[0]] + rest[0]] + rest[1..]
  }

  /** inet_pton(AF_INET, s, &addr) == 1 with addr.s_addr, or None when it
      returns 0: s must be exactly four octet texts separated by dots. */
  function InetPton4(s: string): (r: Option<u32>)
    ensures r.Some? ==> exists ts :: IsQuad(ts) && s == Dotted(ts) && r.value == QuadKey(ts)
  {
    var parts := SplitDots(s);
    if IsQuad(parts) then
      DottedSplit(s);
      Some(QuadKey(parts))
    else None
  }

  function DigitChar(d: nat): (c: char)
    requires d < 10
    ensures IsDigit(c) && c as int - '0' as int == d
  {
    ('0' as int + d) as char
  }

  /** An octet in decimal without leading zeros. */
  function FormatOctet(b: u8): (s: string)
    ensures 1 <= |s| <= 3 && AllDigits(s)
  {
    var v := b as int;
    if v < 10 then [DigitChar(v)]
    else if v < 100 then [DigitChar(v / 10), DigitChar(v % 10)]
    else [DigitChar(v / 100), DigitChar(v / 10 % 10), DigitChar(v % 10)]
  }

  /** inet_ntop(AF_INET, ...): the dotted-quad text of a key. */
  function InetNtop4(x: u32): string
  {
    var bs := Bytes(x);
    Dotted([FormatOctet(bs[0]), FormatOctet(bs[1]), FormatOctet(bs[2]), FormatOctet(bs[3])])
  }

  /** Joining the pieces at the dots gives the text back. */
  lemma {:induction false} DottedSplit(s: string)
    ensures Dotted(SplitDots(s)) == s
  {
    if s != [] {
      var rest := SplitDots(s[1..]);
      DottedSplit(s[1..]);
      if s[0] == '.' {
        assert ([[]] + rest)[1..] == rest;
      } else {
        var parts := [[s[0]] + rest[0]] + rest[1..];
        if |rest| > 1 {
          assert parts[1..] == rest[1..];
        }
      }
    }
  }

  /** A dot-free text at the front of r joins the first piece of r. */
  lemma {:induction false} SplitNoDot(t: string, r: string)
    requires NoDot(t)
    ensures SplitDots(t + r) == [t + SplitDots(r)[0]] + SplitDots(r)[1..]
  {
    if t != [] {
      assert t[0] != '.';
      assert (t + r)[1..] == t[1..] + r;
      SplitNoDot(t[1..], r);
      assert [t[0]] + (t[1..] + SplitDots(r)[0]) == t + SplitDots(r)[0];
    } else {
      assert t + r == r && t + SplitDots(r)[0] == SplitDots(r)[0];
      assert SplitDots(r) == [SplitDots(r)[0]] + SplitDots(r)[1..];
    }
  }

  /** Splitting dot-free texts joined by dots gives the texts back. */
  lemma {:induction false} SplitDotted(ts: seq<string>)
    requires |ts| >= 1 && forall i :: 0 <= i < |ts| ==> NoDot(ts[i])
    ensures SplitDots(Dotted(ts)) == ts
  {
    if |ts| == 1 {
      SplitNoDot(ts[0], []);
      assert ts[0] + [] == ts[0];
    } else {
      var tail := Dotted(ts[1..]);
      SplitDotted(ts[1..]);
      assert ("." + tail)[1..] == tail;
      assert SplitDots("." + tail) == [[]] + ts[1..];
      assert Dotted(ts) == ts[0] + ("." + tail);
      SplitNoDot(ts[0], "." + tail);
      assert ts[0] + [] == ts[0];
      assert ts == [ts[0]] + ts[1..];
    }
  }

  /** Every dotted quad is accepted, with the key of its four octets. */
  lemma PtonOfDotted(ts: seq<string>)
    requires IsQuad(ts)
    ensures InetPton4(Dotted(ts)) == Some(QuadKey(ts))
  {
    forall i | 0 <= i < |ts|
      ensures NoDot(ts[i])
    {
      assert AllDigits(ts[i]);
    }
    SplitDotted(ts);
  }

  lemma DecimalOfFormat(b: u8)
    ensures Decimal(FormatOctet(b)) == b as int
  {
    var v := b as int;
    var s := FormatOctet(b);
    if v < 10 {
      assert s[..0] == [];
    } else if v < 100 {
      assert s[..1][..0] == [];
      assert Decimal(s[..1]) == v / 10;
    } else {
      assert s[..2][..1] == s[..1];
      assert s[..1][..0] == [];
      assert Decimal(s[..1]) == v / 100;
      assert Decimal(s[..2]) == 10 * (v / 100) + v / 10 % 10;
    }
  }

  /** The round trip: the text of any address parses back to that address. */
  lemma PtonOfNtop(x: u32)
    ensures InetPton4(InetNtop4(x)) == Some(x)
  {
    var bs := Bytes(x);
    var ts := [FormatOctet(bs[0]), FormatOctet(bs[1]), FormatOctet(bs[2]), FormatOctet(bs[3])];
    DecimalOfFormat(bs[0]);
    DecimalOfFormat(bs[1]);
    DecimalOfFormat(bs[2]);
    DecimalOfFormat(bs[3]);
    assert IsQuad(ts);
    PtonOfDotted(ts);
    LoadBytes(x);
  }
}
