/** Trimming text, as every stored column is trimmed. */
module Text {
  import opened Ids

  /** White space as strings.TrimSpace sees it: the property White_Space of Unicode. */
  predicate Blank(c: char) {
    || c == ' ' || '\t' <= c <= '\r' || c == '\U{85}' || c == '\U{A0}' || c == '\U{1680}'
    || '\U{2000}' <= c <= '\U{200A}' || c == '\U{2028}' || c == '\U{2029}' || c == '\U{202F}' || c == '\U{205F}'
    || c == '\U{3000}'
  }

  function TrimLeft(s: string): string {
    if |s| > 0 && Blank(s[0]) then TrimLeft(s[1..]) else s
  }

  function TrimRight(s: string): string {
    if |s| > 0 && Blank(s[|s| - 1]) then TrimRight(s[..|s| - 1]) else s
  }

  function Trim(s: string): string {
    TrimRight(TrimLeft(s))
  }

  function Trims(values: seq<string>): seq<string> {
    seq(|values|, i requires 0 <= i < |values| => Trim(values[i]))
  }

  predicate Trimmed(s: string) {
    |s| > 0 ==> !Blank(s[0]) && !Blank(s[|s| - 1])
  }

  lemma {:induction false} TrimRightTrims(s: string)
    ensures |TrimRight(s)| > 0 ==> !Blank(TrimRight(s)[|TrimRight(s)| - 1])
    ensures TrimRight(s) <= s
  {
    if |s| > 0 && Blank(s[|s| - 1]) {
      TrimRightTrims(s[..|s| - 1]);
    }
  }

  lemma {:induction false} TrimLeftTrims(s: string)
    ensures |TrimLeft(s)| > 0 ==> !Blank(TrimLeft(s)[0])
  {
    if |s| > 0 && Blank(s[0]) {
      TrimLeftTrims(s[1..]);
    }
  }

  lemma TrimTrims(s: string)
    ensures Trimmed(Trim(s)) && (Trimmed(s) ==> Trim(s) == s)
  {
    TrimLeftTrims(s);
    TrimRightTrims(TrimLeft(s));
  }

  lemma TrimsTrim(values: seq<string>)
    ensures forall v :: v in Trims(values) ==> Trimmed(v)
    ensures (forall v :: v in values ==> Trimmed(v)) ==> Trims(values) == values
  {
    forall v | v in Trims(values)
      ensures Trimmed(v)
    {
      var i :| 0 <= i < |values| && Trims(values)[i] == v;
      TrimTrims(values[i]);
    }
    if forall v :: v in values ==> Trimmed(v) {
      forall i | 0 <= i < |values|
        ensures Trims(values)[i] == values[i]
      {
        assert values[i] in values;
        TrimTrims(values[i]);
      }
    }
  }

  lemma {:induction false} TrimShortens(s: string)
    ensures |Trim(s)| <= |s|
  {
    TrimLeftShortens(s);
    TrimRightTrims(TrimLeft(s));
  }

  lemma {:induction false} TrimLeftShortens(s: string)
    ensures |TrimLeft(s)| <= |s|
  {
    if |s| > 0 && Blank(s[0]) {
      TrimLeftShortens(s[1..]);
    }
  }

  /** First occurrences of the trimmed values in order, blank ones dropped. */
  function IdList(values: seq<string>): seq<Id> {
    Unique(Trims(values))
  }

  /** The loop of the source on values as they come in. */
  method UniqueNonEmpty(values: seq<string>) returns (result: seq<Id>)
    ensures result == IdList(values)
    ensures Distinct(result)
    ensures forall v :: v in result <==> v != "" && exists i :: 0 <= i < |values| && Trim(values[i]) == v
  {
    var seen: set<Id> := {};
    result := [];
    for k := 0 to |values|
      invariant result == IdList(values[..k])
      invariant seen == SetOf(result)
    {
      assert Trims(values[..k + 1]) == Trims(values[..k]) + [Trim(values[k])];
      assert Trims(values[..k + 1])[..k] == Trims(values[..k]);
      var value := Trim(values[k]);
      if value == "" || value in seen {
        continue;
      }
      seen := seen + {value};
      result := result + [value];
    }
    assert values[..|values|] == values;
    UniqueContents(Trims(values));
    forall v
      ensures v in Trims(values) <==> exists i :: 0 <= i < |values| && Trim(values[i]) == v
    {
      if i :| 0 <= i < |values| && Trim(values[i]) == v {
        assert Trims(values)[i] == v;
      }
    }
  }
}
