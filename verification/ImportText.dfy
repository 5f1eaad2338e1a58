/** Expanding pasted import text into node URIs (service/proxyuri/uri.go:558-587). */
module ImportText {
  import opened Wrappers
  import opened Text
  import opened Base64
  import opened Utf8

  predicate Break(c: char) {
    c == '\n' || c == '\r'
  }

  predicate HasBreak(s: string) {
    exists i :: 0 <= i < |s| && Break(s[i])
  }

  predicate HasScheme(s: string) {
    |s| >= 3 && (s[..3] == "://" || HasScheme(s[1..]))
  }

  lemma {:induction false} SchemeNeedsColon(s: string)
    requires HasScheme(s)
    ensures ':' in s
  {
    if s[..3] == "://" {
      assert s[0] == s[..3][0];
    } else {
      SchemeNeedsColon(s[1..]);
    }
  }

  /** strings.FieldsFunc on line breaks: the pieces between breaks, empty ones dropped. */
  function Fields(s: string, piece: string): seq<string> {
    if |s| == 0 then (if piece == "" then [] else [piece])
    else if Break(s[0]) then (if piece == "" then [] else [piece]) + Fields(s[1..], "")
    else Fields(s[1..], piece + [s[0]])
  }

  lemma {:induction false} FieldsFit(s: string, piece: string)
    ensures forall f :: f in Fields(s, piece) ==> 0 < |f| <= |piece| + |s|
    ensures HasBreak(s) ==> forall f :: f in Fields(s, piece) ==> |f| < |piece| + |s|
    decreases |s|
  {
    if |s| > 0 {
      if Break(s[0]) {
        FieldsFit(s[1..], "");
      } else {
        FieldsFit(s[1..], piece + [s[0]]);
        if HasBreak(s) {
          var i :| 0 <= i < |s| && Break(s[i]);
          assert Break(s[1..][i - 1]);
        }
      }
    }
  }

  /** What a value stands for once it is neither a Clash document nor several lines: itself, or the text it
      is the base64 form of. */
  function Decoded(value: string): Option<string> {
    if HasScheme(value) then None
    else
      match Flexible(value)
      case None => None
      case Some(bs) => if Trim(AsText(bs)) == "" then None else Some(Trim(AsText(bs)))
  }

  lemma DecodedShorter(value: string)
    requires value != "" && Decoded(value).Some?
    ensures |Decoded(value).value| < |value|
  {
    FlexibleShortens(value);
    TrimShortens(AsText(Flexible(value).value));
  }

  predicate Mentions(s: string, word: string) {
    |s| >= |word| && (s[..|word|] == word || (|s| > 0 && Mentions(s[1..], word)))
  }

  /** ClashProxyURIs (uri.go:593): only a text that mentions the key is parsed as a Clash document; read stands
      for the parser and the conversion of each proxy. */
  function ClashProxyUris(raw: string, read: string -> seq<string>): seq<string> {
    if Mentions(raw, "proxies:") then read(raw) else []
  }

  /** ExpandImportValue. Splitting lines and decoding both shorten the text, so the recursion ends. */
  function Expand(text: string, read: string -> seq<string>): seq<string>
    decreases |text|, 1, 0
  {
    var value := Trim(text);
    TrimShortens(text);
    if value == "" then []
    else if ClashProxyUris(value, read) != [] then ClashProxyUris(value, read)
    else if HasBreak(value) then
      FieldsFit(value, "");
      ExpandAll(Fields(value, ""), read, |value|)
    else if Decoded(value).Some? then
      DecodedShorter(value);
      Expand(Decoded(value).value, read)
    else [value]
  }

  function ExpandAll(lines: seq<string>, read: string -> seq<string>, bound: nat): seq<string>
    requires forall l :: l in lines ==> |l| < bound
    decreases bound, 0, |lines|
  {
    if |lines| == 0 then [] else Expand(lines[0], read) + ExpandAll(lines[1..], read, bound)
  }

  /** The recursion as the source runs it. */
  method ExpandImportValue(text: string, read: string -> seq<string>) returns (uris: seq<string>)
    ensures uris == Expand(text, read)
    decreases |text|
  {
    var value := Trim(text);
    TrimShortens(text);
    if value == "" {
      return [];
    }
    var proxies := ClashProxyUris(value, read);
    if |proxies| > 0 {
      return proxies;
    }
    if HasBreak(value) {
      FieldsFit(value, "");
      var lines := Fields(value, "");
      uris := [];
      for i := 0 to |lines|
        invariant uris + ExpandAll(lines[i..], read, |value|) == ExpandAll(lines, read, |value|)
      {
        assert lines[i..][0] == lines[i] && lines[i..][1..] == lines[i + 1..];
        var more := ExpandImportValue(lines[i], read);
        uris := uris + more;
      }
      assert lines[|lines|..] == [];
      return uris;
    }
    if HasScheme(value) {
      return [value];
    }
    var decoded := DecodeFlexible(value);
    if decoded == None {
      return [value];
    }
    var decodedText := Trim(AsText(decoded.value));
    if decodedText == "" {
      return [value];
    }
    DecodedShorter(value);
    uris := ExpandImportValue(decodedText, read);
  }

  // ---------------------------------------------------------------- expanding an output again

  ghost predicate AllFinal(uris: seq<string>, read: string -> seq<string>) {
    forall v :: v in uris ==> Expand(v, read) == [v]
  }

  /** Every Clash document met while this text is expanded yields only URIs that expand to themselves. */
  ghost predicate DocumentsFinal(text: string, read: string -> seq<string>)
    decreases |text|, 1, 0
  {
    var value := Trim(text);
    TrimShortens(text);
    if value == "" then true
    else if ClashProxyUris(value, read) != [] then AllFinal(ClashProxyUris(value, read), read)
    else if HasBreak(value) then
      FieldsFit(value, "");
      AllDocumentsFinal(Fields(value, ""), read, |value|)
    else if Decoded(value).Some? then
      DecodedShorter(value);
      DocumentsFinal(Decoded(value).value, read)
    else true
  }

  ghost predicate AllDocumentsFinal(lines: seq<string>, read: string -> seq<string>, bound: nat)
    requires forall l :: l in lines ==> |l| < bound
    decreases bound, 0, |lines|
  {
    |lines| == 0 || (DocumentsFinal(lines[0], read) && AllDocumentsFinal(lines[1..], read, bound))
  }

  /** Every output of a text expands to itself if and only if the URIs of the Clash documents met on the way do. */
  lemma {:induction false} OutputsFinalIff(text: string, read: string -> seq<string>)
    ensures AllFinal(Expand(text, read), read) <==> DocumentsFinal(text, read)
    decreases |text|, 1, 0
  {
    var value := Trim(text);
    TrimShortens(text);
    TrimTrims(text);
    TrimTrims(value);
    if value != "" && ClashProxyUris(value, read) == [] {
      if HasBreak(value) {
        FieldsFit(value, "");
        AllOutputsFinalIff(Fields(value, ""), read, |value|);
      } else if Decoded(value).Some? {
        DecodedShorter(value);
        OutputsFinalIff(Decoded(value).value, read);
      } else {
        assert Expand(value, read) == [value];
      }
    }
  }

  lemma {:induction false} AllOutputsFinalIff(lines: seq<string>, read: string -> seq<string>, bound: nat)
    requires forall l :: l in lines ==> |l| < bound
    ensures AllFinal(ExpandAll(lines, read, bound), read) <==> AllDocumentsFinal(lines, read, bound)
    decreases bound, 0, |lines|
  {
    if |lines| > 0 {
      OutputsFinalIff(lines[0], read);
      AllOutputsFinalIff(lines[1..], read, bound);
      var first, rest := Expand(lines[0], read), ExpandAll(lines[1..], read, bound);
      assert AllFinal(first + rest, read) <==> AllFinal(first, read) && AllFinal(rest, read) by {
        assert forall v :: v in first + rest <==> v in first || v in rest;
      }
    }
  }

  /** No value met while this text is expanded is a Clash document. */
  ghost predicate NoDocument(text: string, read: string -> seq<string>)
    decreases |text|, 1, 0
  {
    var value := Trim(text);
    TrimShortens(text);
    if value == "" then true
    else if ClashProxyUris(value, read) != [] then false
    else if HasBreak(value) then
      FieldsFit(value, "");
      NoneDocument(Fields(value, ""), read, |value|)
    else if Decoded(value).Some? then
      DecodedShorter(value);
      NoDocument(Decoded(value).value, read)
    else true
  }

  ghost predicate NoneDocument(lines: seq<string>, read: string -> seq<string>, bound: nat)
    requires forall l :: l in lines ==> |l| < bound
    decreases bound, 0, |lines|
  {
    |lines| == 0 || (NoDocument(lines[0], read) && NoneDocument(lines[1..], read, bound))
  }

  lemma {:induction false} NoDocumentIsFinal(text: string, read: string -> seq<string>)
    requires NoDocument(text, read)
    ensures DocumentsFinal(text, read)
    decreases |text|, 1, 0
  {
    var value := Trim(text);
    TrimShortens(text);
    if value != "" {
      if HasBreak(value) {
        FieldsFit(value, "");
        NoneDocumentIsFinal(Fields(value, ""), read, |value|);
      } else if Decoded(value).Some? {
        DecodedShorter(value);
        NoDocumentIsFinal(Decoded(value).value, read);
      }
    }
  }

  lemma {:induction false} NoneDocumentIsFinal(lines: seq<string>, read: string -> seq<string>, bound: nat)
    requires (forall l :: l in lines ==> |l| < bound) && NoneDocument(lines, read, bound)
    ensures AllDocumentsFinal(lines, read, bound)
    decreases bound, 0, |lines|
  {
    if |lines| > 0 {
      NoDocumentIsFinal(lines[0], read);
      NoneDocumentIsFinal(lines[1..], read, bound);
    }
  }

  /** A text that leads to no Clash document expands to outputs that expand to themselves, whatever other texts are
      Clash documents. */
  lemma OutputsExpandToThemselves(text: string, read: string -> seq<string>)
    requires NoDocument(text, read)
    ensures forall v :: v in Expand(text, read) ==> Expand(v, read) == [v]
  {
    NoDocumentIsFinal(text, read);
    OutputsFinalIff(text, read);
  }

  lemma {:induction false} MentionsHasChars(s: string, word: string, c: char)
    requires Mentions(s, word) && c in word
    ensures c in s
  {
    if s[..|word|] == word {
      var i :| 0 <= i < |word| && word[i] == c;
      assert s[i] == s[..|word|][i];
    } else {
      MentionsHasChars(s[1..], word, c);
    }
  }

  /** A URI pasted as base64, in any spelling, expands to the URI, unless the URI itself reads as a Clash
      document; its encoded form never does. */
  lemma EncodedUriExpands(uri: string, sp: Spelling, read: string -> seq<string>)
    requires HasScheme(uri) && Trimmed(uri) && !HasBreak(uri) && ClashProxyUris(uri, read) == []
    ensures Expand(Encode(AsBytes(uri), sp), read) == [uri]
  {
    var bs := AsBytes(uri);
    var value := Encode(bs, sp);
    TextBack(uri);
    FlexibleInvertsEncode(bs, sp);
    EncodedIsPlain(bs, sp);
    TrimTrims(value);
    TrimTrims(uri);
    assert Flexible(value) == Some(bs);
    assert !HasScheme(value) by {
      if HasScheme(value) {
        SchemeNeedsColon(value);
      }
    }
    assert !Mentions(value, "proxies:") by {
      if Mentions(value, "proxies:") {
        MentionsHasChars(value, "proxies:", "proxies:"[7]);
      }
    }
    QuantaInvertsEncode(bs, sp);
    assert !HasBreak(value) by {
      forall i | 0 <= i < |value|
        ensures !Break(value[i])
      {
        assert value[i] in value;
      }
    }
    assert Decoded(value) == Some(uri);
    assert Expand(uri, read) == [uri];
  }
}
