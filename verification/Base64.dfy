/** Base64 in its four spellings (sections 3.2, 4 and 5 of RFC 4648) and the decoder that tries them all
    (service/proxyuri/uri.go:335-352). Text is a sequence of bytes. */
module Base64 {
  import opened Wrappers
  import opened Text

  type Byte = b: nat | b < 256
  type Sextet = v: nat | v < 64

  datatype Spelling = Spelling(url: bool, padded: bool)

  // ---------------------------------------------------------------- the two alphabets

  function Letter(v: Sextet, url: bool): char {
    if v < 26 then ('A' as int + v) as char
    else if v < 52 then ('a' as int + v - 26) as char
    else if v < 62 then ('0' as int + v - 52) as char
    else if v == 62 then (if url then '-' else '+')
    else (if url then '_' else '/')
  }

  function Value(c: char, url: bool): Option<Sextet> {
    if 'A' <= c <= 'Z' then Some(c as int - 'A' as int)
    else if 'a' <= c <= 'z' then Some(c as int - 'a' as int + 26)
    else if '0' <= c <= '9' then Some(c as int - '0' as int + 52)
    else if c == (if url then '-' else '+') then Some(62)
    else if c == (if url then '_' else '/') then Some(63)
    else None
  }

  lemma LetterValue(v: Sextet, url: bool)
    ensures Value(Letter(v, url), url) == Some(v)
    ensures Letter(v, url) != '=' && Letter(v, url) != '\n' && Letter(v, url) != '\r' && Letter(v, url) != ':'
            && !Blank(Letter(v, url))
  {
  }

  /** Where both alphabets know a character they mean the same. */
  lemma AlphabetsAgree(c: char, a: bool, b: bool)
    ensures Value(c, a).Some? && Value(c, b).Some? ==> Value(c, a) == Value(c, b)
  {
  }

  // ---------------------------------------------------------------- encoding

  function Encode(bs: seq<Byte>, sp: Spelling): string {
    if |bs| == 0 then ""
    else if |bs| == 1 then
      [Letter(bs[0] / 4, sp.url), Letter(bs[0] % 4 * 16, sp.url)] + (if sp.padded then "==" else "")
    else if |bs| == 2 then
      [Letter(bs[0] / 4, sp.url), Letter(bs[0] % 4 * 16 + bs[1] / 16, sp.url), Letter(bs[1] % 16 * 4, sp.url)]
      + (if sp.padded then "=" else "")
    else
      [Letter(bs[0] / 4, sp.url), Letter(bs[0] % 4 * 16 + bs[1] / 16, sp.url),
       Letter(bs[1] % 16 * 4 + bs[2] / 64, sp.url), Letter(bs[2] % 64, sp.url)]
      + Encode(bs[3..], sp)
  }

  // ---------------------------------------------------------------- decoding

  function First(v: Sextet, w: Sextet): Byte {
    v * 4 + w / 16
  }

  function Second(v: Sextet, w: Sextet): Byte {
    v % 16 * 16 + w / 4
  }

  function Third(v: Sextet, w: Sextet): Byte {
    v % 4 * 64 + w
  }

  /** One byte from two characters; the spare bits of the second are not looked at. */
  function OneByte(s: string, url: bool): Option<seq<Byte>>
    requires |s| >= 2
  {
    var a, b := Value(s[0], url), Value(s[1], url);
    if a.Some? && b.Some? then Some([First(a.value, b.value)]) else None
  }

  function TwoBytes(s: string, url: bool): Option<seq<Byte>>
    requires |s| >= 3
  {
    var c := Value(s[2], url);
    if OneByte(s, url).Some? && c.Some? then Some(OneByte(s, url).value + [Second(Value(s[1], url).value, c.value)])
    else None
  }

  function ThreeBytes(s: string, url: bool): Option<seq<Byte>>
    requires |s| >= 4
  {
    var d := Value(s[3], url);
    if TwoBytes(s, url).Some? && d.Some? then Some(TwoBytes(s, url).value + [Third(Value(s[2], url).value, d.value)])
    else None
  }

  /** Four characters at a time; what is left over must be padded, or must not be. */
  function Quanta(s: string, sp: Spelling): Option<seq<Byte>> {
    if |s| == 0 then Some([])
    else if |s| < 4 then
      if sp.padded || |s| == 1 then None else if |s| == 2 then OneByte(s, sp.url) else TwoBytes(s, sp.url)
    else if sp.padded && |s| == 4 && s[2..] == "==" then OneByte(s, sp.url)
    else if sp.padded && |s| == 4 && s[3] == '=' then TwoBytes(s, sp.url)
    else
      var head, rest := ThreeBytes(s, sp.url), Quanta(s[4..], sp);
      if head.Some? && rest.Some? then Some(head.value + rest.value) else None
  }

  /** Line breaks inside the text are skipped. */
  function Joined(s: string): string {
    if |s| == 0 then "" else (if s[0] == '\n' || s[0] == '\r' then "" else [s[0]]) + Joined(s[1..])
  }

  function Decode(s: string, sp: Spelling): Option<seq<Byte>> {
    Quanta(Joined(s), sp)
  }

  const SPELLINGS := [Spelling(true, false), Spelling(true, true), Spelling(false, false), Spelling(false, true)]

  function Pad(n: nat): string {
    if n == 0 then "" else "=" + Pad(n - 1)
  }

  function FirstOf(s: string, sps: seq<Spelling>): Option<seq<Byte>> {
    if |sps| == 0 then None else if Decode(s, sps[0]).Some? then Decode(s, sps[0]) else FirstOf(s, sps[1..])
  }

  /** decodeBase64Flexible: the four spellings in turn, then the padded standard one with padding added. */
  function Flexible(payload: string): Option<seq<Byte>> {
    var s := Trim(payload);
    var found := FirstOf(s, SPELLINGS);
    if found.Some? then found
    else if |s| % 4 != 0 then Decode(s + Pad(4 - |s| % 4), Spelling(false, true))
    else None
  }

  method DecodeFlexible(payload: string) returns (result: Option<seq<Byte>>)
    ensures result == Flexible(payload)
  {
    var s := Trim(payload);
    for i := 0 to |SPELLINGS|
      invariant FirstOf(s, SPELLINGS) == FirstOf(s, SPELLINGS[i..])
    {
      assert SPELLINGS[i..][0] == SPELLINGS[i] && SPELLINGS[i..][1..] == SPELLINGS[i + 1..];
      var decoded := Decode(s, SPELLINGS[i]);
      if decoded.Some? {
        return decoded;
      }
    }
    var missing := |s| % 4;
    if missing != 0 {
      return Decode(s + Pad(4 - missing), Spelling(false, true));
    }
    return None;
  }

  // ---------------------------------------------------------------- every spelling comes back

  lemma Unpack(a: Byte, b: Byte, c: Byte)
    ensures First(a / 4, a % 4 * 16) == a
    ensures First(a / 4, a % 4 * 16 + b / 16) == a
    ensures Second(a % 4 * 16 + b / 16, b % 16 * 4) == b
    ensures Second(a % 4 * 16 + b / 16, b % 16 * 4 + c / 64) == b
    ensures Third(b % 16 * 4 + c / 64, c % 64) == c
  {
    assert (a % 4 * 16 + b / 16) % 16 == b / 16;
    assert (b % 16 * 4 + c / 64) / 4 == b % 16;
    assert (b % 16 * 4 + c / 64) % 4 == c / 64;
  }

  /** The letters that start every group. */
  lemma GroupBack(s: string, a: Byte, b: Byte, c: Byte, url: bool)
    requires |s| >= 2 && s[0] == Letter(a / 4, url)
    ensures s[1] == Letter(a % 4 * 16, url) ==> OneByte(s, url) == Some([a])
    ensures s[1] == Letter(a % 4 * 16 + b / 16, url) ==> OneByte(s, url) == Some([a])
    ensures |s| >= 3 && s[1] == Letter(a % 4 * 16 + b / 16, url) && s[2] == Letter(b % 16 * 4, url) ==>
              TwoBytes(s, url) == Some([a] + [b])
    ensures |s| >= 3 && s[1] == Letter(a % 4 * 16 + b / 16, url) && s[2] == Letter(b % 16 * 4 + c / 64, url) ==>
              TwoBytes(s, url) == Some([a] + [b])
  {
    LetterValue(a / 4, url);
    LetterValue(a % 4 * 16, url);
    LetterValue(a % 4 * 16 + b / 16, url);
    LetterValue(b % 16 * 4, url);
    LetterValue(b % 16 * 4 + c / 64, url);
    Unpack(a, b, c);
  }

  lemma WholeGroupBack(s: string, a: Byte, b: Byte, c: Byte, url: bool)
    requires |s| >= 4
    requires s[0] == Letter(a / 4, url) && s[1] == Letter(a % 4 * 16 + b / 16, url)
    requires s[2] == Letter(b % 16 * 4 + c / 64, url) && s[3] == Letter(c % 64, url)
    ensures ThreeBytes(s, url) == Some([a] + [b] + [c])
  {
    GroupBack(s, a, b, c, url);
    LetterValue(b % 16 * 4 + c / 64, url);
    LetterValue(c % 64, url);
    Unpack(a, b, c);
  }

  lemma OneByteBack(a: Byte, sp: Spelling)
    ensures Quanta(Encode([a], sp), sp) == Some([a])
  {
    GroupBack(Encode([a], sp), a, 0, 0, sp.url);
  }

  lemma TwoBytesBack(a: Byte, b: Byte, sp: Spelling)
    ensures Quanta(Encode([a, b], sp), sp) == Some([a] + [b])
  {
    var s := Encode([a, b], sp);
    GroupBack(s, a, b, 0, sp.url);
    LetterValue(b % 16 * 4, sp.url);
  }

  lemma GroupThenRest(s: string, sp: Spelling)
    requires |s| >= 4 && s[3] != '=' && ThreeBytes(s, sp.url).Some? && Quanta(s[4..], sp).Some?
    ensures Quanta(s, sp) == Some(ThreeBytes(s, sp.url).value + Quanta(s[4..], sp).value)
  {
    assert Value('=', sp.url) == None;
    assert |s| == 4 ==> s[2..][1] == s[3];
  }

  lemma {:induction false} QuantaInvertsEncode(bs: seq<Byte>, sp: Spelling)
    ensures Quanta(Encode(bs, sp), sp) == Some(bs)
    decreases |bs|
  {
    var s := Encode(bs, sp);
    if |bs| == 1 {
      OneByteBack(bs[0], sp);
      assert bs == [bs[0]];
    } else if |bs| == 2 {
      TwoBytesBack(bs[0], bs[1], sp);
      assert bs == [bs[0], bs[1]] == [bs[0]] + [bs[1]];
    } else if |bs| > 2 {
      WholeGroupBack(s, bs[0], bs[1], bs[2], sp.url);
      LetterValue(bs[2] % 64, sp.url);
      QuantaInvertsEncode(bs[3..], sp);
      assert s[4..] == Encode(bs[3..], sp);
      GroupThenRest(s, sp);
      assert bs == [bs[0]] + [bs[1]] + [bs[2]] + bs[3..];
    }
  }

  lemma {:induction false} EncodedIsPlain(bs: seq<Byte>, sp: Spelling)
    ensures forall c :: c in Encode(bs, sp) ==> !Blank(c) && c != ':'
    decreases |bs|
  {
    if |bs| == 1 {
      LetterValue(bs[0] / 4, sp.url);
      LetterValue(bs[0] % 4 * 16, sp.url);
    } else if |bs| == 2 {
      LetterValue(bs[0] / 4, sp.url);
      LetterValue(bs[0] % 4 * 16 + bs[1] / 16, sp.url);
      LetterValue(bs[1] % 16 * 4, sp.url);
    } else if |bs| > 2 {
      LetterValue(bs[0] / 4, sp.url);
      LetterValue(bs[0] % 4 * 16 + bs[1] / 16, sp.url);
      LetterValue(bs[1] % 16 * 4 + bs[2] / 64, sp.url);
      LetterValue(bs[2] % 64, sp.url);
      EncodedIsPlain(bs[3..], sp);
    }
  }

  lemma {:induction false} JoinedIsSame(s: string)
    requires forall c :: c in s ==> !Blank(c)
    ensures Joined(s) == s
  {
    if |s| > 0 {
      assert s[0] in s;
      JoinedIsSame(s[1..]);
      assert s == [s[0]] + s[1..];
    }
  }

  lemma TailsAgree(s: string, a: bool, b: bool)
    ensures |s| >= 2 && OneByte(s, a).Some? && OneByte(s, b).Some? ==> OneByte(s, a) == OneByte(s, b)
    ensures |s| >= 3 && TwoBytes(s, a).Some? && TwoBytes(s, b).Some? ==> TwoBytes(s, a) == TwoBytes(s, b)
    ensures |s| >= 4 && ThreeBytes(s, a).Some? && ThreeBytes(s, b).Some? ==> ThreeBytes(s, a) == ThreeBytes(s, b)
    ensures |s| >= 4 && (s[2] == '=' || s[3] == '=') ==> ThreeBytes(s, a) == None
    ensures |s| >= 3 && s[2] == '=' ==> TwoBytes(s, a) == None
  {
    if |s| >= 2 {
      AlphabetsAgree(s[0], a, b);
      AlphabetsAgree(s[1], a, b);
    }
    if |s| >= 3 {
      AlphabetsAgree(s[2], a, b);
    }
    if |s| >= 4 {
      AlphabetsAgree(s[3], a, b);
    }
  }

  /** Whichever spelling accepts a text, the bytes are the same: the order of the attempts does not matter. */
  lemma {:induction false} SpellingsAgree(s: string, a: Spelling, b: Spelling)
    requires Quanta(s, a).Some? && Quanta(s, b).Some?
    ensures Quanta(s, a) == Quanta(s, b)
    decreases |s|
  {
    TailsAgree(s, a.url, b.url);
    TailsAgree(s, b.url, a.url);
    if |s| >= 4 {
      if Quanta(s[4..], a).Some? && Quanta(s[4..], b).Some? {
        SpellingsAgree(s[4..], a, b);
      }
    }
  }

  lemma {:induction false} FirstOfFinds(s: string, sps: seq<Spelling>, sp: Spelling)
    requires sp in sps && Decode(s, sp).Some?
    ensures FirstOf(s, sps) == Decode(s, sp)
  {
    if Decode(s, sps[0]).Some? {
      SpellingsAgree(Joined(s), sps[0], sp);
    } else {
      FirstOfFinds(s, sps[1..], sp);
    }
  }

  /** The flexible decoder inverts all four encodings of every byte string. */
  lemma FlexibleInvertsEncode(bs: seq<Byte>, sp: Spelling)
    ensures Flexible(Encode(bs, sp)) == Some(bs)
  {
    var s := Encode(bs, sp);
    EncodedIsPlain(bs, sp);
    JoinedIsSame(s);
    QuantaInvertsEncode(bs, sp);
    TrimTrims(s);
    assert sp in SPELLINGS by {
      assert SPELLINGS[(if sp.url then 0 else 2) + (if sp.padded then 1 else 0)] == sp;
    }
    FirstOfFinds(s, SPELLINGS, sp);
  }

  // ---------------------------------------------------------------- decoding shortens

  function Letters(s: string): nat {
    if |s| == 0 then 0 else (if s[0] == '=' then 0 else 1) + Letters(s[1..])
  }

  lemma {:induction false} LettersSplit(a: string, b: string)
    ensures Letters(a + b) == Letters(a) + Letters(b)
  {
    if |a| == 0 {
      assert a + b == b;
    } else {
      LettersSplit(a[1..], b);
      assert (a + b)[1..] == a[1..] + b;
    }
  }

  lemma {:induction false} LettersAtMost(s: string)
    ensures Letters(s) <= |s|
  {
    if |s| > 0 {
      LettersAtMost(s[1..]);
    }
  }

  lemma LettersOfFour(s: string)
    requires |s| >= 1
    ensures Letters(s) == (if s[0] == '=' then 0 else 1) + Letters(s[1..])
  {
  }

  lemma {:induction false} QuantaShorten(s: string, sp: Spelling)
    requires Quanta(s, sp).Some?
    ensures 4 * |Quanta(s, sp).value| <= 3 * Letters(s)
    decreases |s|
  {
    if |s| >= 2 {
      assert Value('=', sp.url) == None;
      LettersOfFour(s);
      LettersOfFour(s[1..]);
      assert s[1..][1..] == s[2..];
    }
    if |s| >= 3 {
      LettersOfFour(s[2..]);
      assert s[2..][1..] == s[3..];
    }
    if |s| >= 4 {
      LettersOfFour(s[3..]);
      assert s[3..][1..] == s[4..];
      if Quanta(s[4..], sp).Some? {
        QuantaShorten(s[4..], sp);
      }
    }
  }

  lemma {:induction false} JoinedLetters(s: string)
    ensures Letters(Joined(s)) <= Letters(s)
  {
    if |s| > 0 {
      JoinedLetters(s[1..]);
      LettersSplit(if s[0] == '\n' || s[0] == '\r' then "" else [s[0]], Joined(s[1..]));
    }
  }

  lemma {:induction false} PadLetters(n: nat)
    ensures Letters(Pad(n)) == 0
  {
    if n > 0 {
      PadLetters(n - 1);
      assert Pad(n)[1..] == Pad(n - 1);
    }
  }

  lemma DecodeShortens(s: string, sp: Spelling)
    requires Decode(s, sp).Some?
    ensures 4 * |Decode(s, sp).value| <= 3 * Letters(s)
  {
    QuantaShorten(Joined(s), sp);
    JoinedLetters(s);
  }

  lemma {:induction false} FirstOfShortens(s: string, sps: seq<Spelling>)
    requires FirstOf(s, sps).Some?
    ensures 4 * |FirstOf(s, sps).value| <= 3 * Letters(s)
  {
    if Decode(s, sps[0]).Some? {
      DecodeShortens(s, sps[0]);
    } else {
      FirstOfShortens(s, sps[1..]);
    }
  }

  /** A decoded text has at most three quarters of the bytes. */
  lemma FlexibleShortens(payload: string)
    requires Flexible(payload).Some?
    ensures 4 * |Flexible(payload).value| <= 3 * |payload|
  {
    var s := Trim(payload);
    TrimShortens(payload);
    LettersAtMost(s);
    if FirstOf(s, SPELLINGS).Some? {
      FirstOfShortens(s, SPELLINGS);
    } else {
      var pad := Pad(4 - |s| % 4);
      DecodeShortens(s + pad, Spelling(false, true));
      LettersSplit(s, pad);
      PadLetters(4 - |s| % 4);
    }
  }
}
