/** Bytes as text (RFC 3629): what turning bytes into a string and looking at its characters sees.  A byte that
    starts no well-formed sequence stands for the replacement character. */
module Utf8 {
  import opened Base64

  const REPLACEMENT := '\U{FFFD}'

  /** The byte is b10xxxxxx and within the bounds the first byte sets. */
  predicate Within(bs: seq<Byte>, i: nat, low: nat, high: nat) {
    i < |bs| && low <= bs[i] <= high
  }

  predicate Continues(bs: seq<Byte>, i: nat) {
    Within(bs, i, 0x80, 0xBF)
  }

  /** The second byte may not make the sequence overlong, a surrogate, or too large. */
  function SecondLow(first: Byte): nat {
    if first == 0xE0 then 0xA0 else if first == 0xF0 then 0x90 else 0x80
  }

  function SecondHigh(first: Byte): nat {
    if first == 0xED then 0x9F else if first == 0xF4 then 0x8F else 0xBF
  }

  /** How many bytes the first character takes, zero when they are no well-formed sequence. */
  function Width(bs: seq<Byte>): (n: nat)
    requires |bs| > 0
    ensures n <= |bs| && n <= 4
  {
    var b := bs[0];
    if b < 0x80 then 1
    else if !(0xC2 <= b <= 0xF4 && Within(bs, 1, SecondLow(b), SecondHigh(b))) then 0
    else if b < 0xE0 then 2
    else if !Continues(bs, 2) then 0
    else if b < 0xF0 then 3
    else if !Continues(bs, 3) then 0
    else 4
  }

  function Low6(bs: seq<Byte>, i: nat): nat
    requires Continues(bs, i)
  {
    bs[i] - 0x80
  }

  function FirstChar(bs: seq<Byte>): char
    requires |bs| > 0 && Width(bs) > 0
  {
    var b: nat := bs[0];
    if b < 0x80 then b as char
    else if b < 0xE0 then ((b - 0xC0) * 64 + Low6(bs, 1)) as char
    else if b < 0xF0 then ((b - 0xE0) * 4096 + Low6(bs, 1) * 64 + Low6(bs, 2)) as char
    else ((b - 0xF0) * 262144 + Low6(bs, 1) * 4096 + Low6(bs, 2) * 64 + Low6(bs, 3)) as char
  }

  function AsText(bs: seq<Byte>): (s: string)
    ensures |s| <= |bs|
  {
    if |bs| == 0 then []
    else if Width(bs) == 0 then [REPLACEMENT] + AsText(bs[1..])
    else [FirstChar(bs)] + AsText(bs[Width(bs)..])
  }

  /** The bytes of one character. */
  function CharBytes(c: char): (bs: seq<Byte>)
    ensures |bs| > 0
  {
    var n := c as int;
    if n < 0x80 then [n]
    else if n < 0x800 then [0xC0 + n / 64, 0x80 + n % 64]
    else if n < 0x10000 then [0xE0 + n / 4096, 0x80 + n / 64 % 64, 0x80 + n % 64]
    else [0xF0 + n / 262144, 0x80 + n / 4096 % 64, 0x80 + n / 64 % 64, 0x80 + n % 64]
  }

  function AsBytes(s: string): seq<Byte> {
    if |s| == 0 then [] else CharBytes(s[0]) + AsBytes(s[1..])
  }

  lemma CharBack(c: char, rest: seq<Byte>)
    ensures var bs := CharBytes(c) + rest;
            Width(bs) == |CharBytes(c)| && FirstChar(bs) == c && bs[Width(bs)..] == rest
  {
    var n := c as int;
    if n >= 0x800 {
      assert n / 64 == n / 4096 * 64 + n / 64 % 64;
    }
    if n >= 0x10000 {
      assert n / 4096 == n / 262144 * 64 + n / 4096 % 64;
    }
  }

  /** Every text comes back from its bytes. */
  lemma {:induction false} TextBack(s: string)
    ensures AsText(AsBytes(s)) == s
  {
    if |s| > 0 {
      CharBack(s[0], AsBytes(s[1..]));
      TextBack(s[1..]);
      assert s == [s[0]] + s[1..];
    }
  }
}
