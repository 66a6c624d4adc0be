/** What len counts of a string: the bytes of its UTF-8 form, as section 3 of RFC 3629 lays
    them out. */
module Utf8 {
  import opened Tables

  /** The length len counts: bytes of the UTF-8 form, although the answer speaks of
      characters. */
  function ByteLength(s: string): nat {
    if s == [] then 0
    else
      var n := s[0] as int;
      (if n < 0x80 then 1 else if n < 0x800 then 2 else if n < 0x1_0000 then 3 else 4) + ByteLength(s[1..])
  }

  predicate Ascii(s: string) {
    forall i :: 0 <= i < |s| ==> s[i] as int < 0x80
  }

  /** Bytes and characters agree exactly on ASCII. */
  lemma {:induction false} ByteLengthExactly(s: string)
    ensures |s| <= ByteLength(s)
    ensures ByteLength(s) == |s| <==> Ascii(s)
  {
    if s != [] {
      ByteLengthExactly(s[1..]);
      assert forall i :: 0 <= i < |s| ==> s[i] == if i == 0 then s[0] else s[1..][i - 1];
    }
  }

  // ---------- the bytes themselves ----------

  /** One character as bytes. */
  function EncodeChar(c: char): (s: seq<nat>)
    ensures |s| >= 1
  {
    var n := c as int;
    if n < 0x80 then [n]
    else if n < 0x800 then [0xc0 + n / 64, 0x80 + n % 64]
    else if n < 0x1_0000 then [0xe0 + n / 64 / 64, 0x80 + n / 64 % 64, 0x80 + n % 64]
    else [0xf0 + n / 64 / 64 / 64, 0x80 + n / 64 / 64 % 64, 0x80 + n / 64 % 64, 0x80 + n % 64]
  }

  function Encode(s: string): seq<nat> {
    if s == [] then [] else EncodeChar(s[0]) + Encode(s[1..])
  }

  predicate Continues(b: nat) {
    0x80 <= b < 0xc0
  }

  /** Scalar values: no surrogates, nothing beyond the last plane. */
  predicate Scalar(n: int) {
    0 <= n < 0xd800 || 0xe000 <= n < 0x11_0000
  }

  /** The first character and the number of bytes it took; longer forms than needed are
      refused, as section 3 demands. */
  function DecodeChar(s: seq<nat>): Option<(char, nat)> {
    if s == [] then None
    else if s[0] < 0x80 then Some((s[0] as char, 1))
    else if 0xc0 <= s[0] < 0xe0 && |s| >= 2 && Continues(s[1]) then
      var n := (s[0] - 0xc0) * 64 + (s[1] - 0x80);
      if n >= 0x80 then Some((n as char, 2)) else None
    else if 0xe0 <= s[0] < 0xf0 && |s| >= 3 && Continues(s[1]) && Continues(s[2]) then
      var n := (s[0] - 0xe0) * 4096 + (s[1] - 0x80) * 64 + (s[2] - 0x80);
      if n >= 0x800 && Scalar(n) then Some((n as char, 3)) else None
    else if 0xf0 <= s[0] < 0xf8 && |s| >= 4 && Continues(s[1]) && Continues(s[2]) && Continues(s[3]) then
      var n := (s[0] - 0xf0) * 262144 + (s[1] - 0x80) * 4096 + (s[2] - 0x80) * 64 + (s[3] - 0x80);
      if n >= 0x1_0000 && Scalar(n) then Some((n as char, 4)) else None
    else None
  }

  function Decode(s: seq<nat>): Option<string>
    decreases |s|
  {
    if s == [] then Some([])
    else
      match DecodeChar(s)
      case None => None
      case Some((c, n)) =>
        if n == 0 || n > |s| then None
        else match Decode(s[n..]) case None => None case Some(rest) => Some([c] + rest)
  }

  lemma Sextets(n: nat)
    ensures n / 64 * 64 + n % 64 == n
    ensures n / 64 / 64 * 4096 + n / 64 % 64 * 64 + n % 64 == n
    ensures n / 64 / 64 / 64 * 262144 + n / 64 / 64 % 64 * 4096 + n / 64 % 64 * 64 + n % 64 == n
  {
    var q := n / 64;
    var r := q / 64;
    assert n == q * 64 + n % 64 && q == r * 64 + q % 64 && r == r / 64 * 64 + r % 64;
  }

  lemma DecodesFirst(c: char, rest: seq<nat>)
    ensures DecodeChar(EncodeChar(c) + rest) == Some((c, |EncodeChar(c)|))
  {
    var n, s := c as int, EncodeChar(c) + rest;
    Sextets(n);
    if n < 0x80 {
      assert s[0] == n;
    } else if n < 0x800 {
      assert s[0] == 0xc0 + n / 64 && s[1] == 0x80 + n % 64;
    } else if n < 0x1_0000 {
      assert s[0] == 0xe0 + n / 64 / 64 && s[1] == 0x80 + n / 64 % 64 && s[2] == 0x80 + n % 64;
    } else {
      assert s[0] == 0xf0 + n / 64 / 64 / 64 && s[1] == 0x80 + n / 64 / 64 % 64;
      assert s[2] == 0x80 + n / 64 % 64 && s[3] == 0x80 + n % 64;
    }
  }

  /** Decoding gives back what was encoded, so the form is the standard's own, and its bytes
      are what ByteLength counts. */
  lemma {:induction false} EncodeRoundTrip(s: string)
    ensures Decode(Encode(s)) == Some(s)
    ensures |Encode(s)| == ByteLength(s)
    ensures forall b :: b in Encode(s) ==> b < 0x100
  {
    if s != [] {
      EncodeRoundTrip(s[1..]);
      var first, rest := EncodeChar(s[0]), Encode(s[1..]);
      DecodesFirst(s[0], rest);
      assert (first + rest)[|first|..] == rest;
      assert [s[0]] + s[1..] == s;
    }
  }
}
