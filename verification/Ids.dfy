/** Identifiers and the small list helpers every other module shares. */
module Ids {

  /** Row identifiers.  Rows are stored trimmed, so trimming an identifier changes nothing. */
  type Id = string

  function SetOf<T(==)>(values: seq<T>): set<T> {
    set v | v in values
  }

  /** No value occurs twice. */
  ghost predicate Distinct<T>(values: seq<T>) {
    forall i, j :: 0 <= i < j < |values| ==> values[i] != values[j]
  }

  /** First occurrences in order, empty strings dropped (service/proxyuri/uri.go:440). */
  function Unique(values: seq<Id>): (r: seq<Id>) {
    if |values| == 0 then []
    else
      var head := Unique(values[..|values| - 1]);
      var v := values[|values| - 1];
      if v == "" || v in head then head else head + [v]
  }

  /** Unique keeps exactly the non-empty values, each once. */
  lemma {:induction false} UniqueContents(values: seq<Id>)
    ensures Distinct(Unique(values))
    ensures forall v :: v in Unique(values) <==> v in values && v != ""
  {
    if |values| > 0 {
      var init := values[..|values| - 1];
      UniqueContents(init);
      assert values == init + [values[|values| - 1]];
    }
  }

  /** A list without repeats or empty strings is its own normal form. */
  lemma {:induction false} UniqueOfNormal(values: seq<Id>)
    requires Distinct(values) && "" !in values
    ensures Unique(values) == values
  {
    if |values| > 0 {
      var init := values[..|values| - 1];
      assert values == init + [values[|values| - 1]];
      UniqueOfNormal(init);
    }
  }

  /** The loop of the source on stored identifiers, which trimming leaves alone. */
  method UniqueNonEmpty(values: seq<Id>) returns (result: seq<Id>)
    ensures result == Unique(values)
    ensures Distinct(result) && forall v :: v in result <==> v in values && v != ""
  {
    var seen: set<Id> := {};
    result := [];
    for i := 0 to |values|
      invariant result == Unique(values[..i])
      invariant seen == SetOf(result)
    {
      assert values[..i + 1][..i] == values[..i];
      if values[i] == "" || values[i] in seen {
        continue;
      }
      seen := seen + {values[i]};
      result := result + [values[i]];
    }
    assert values[..|values|] == values;
    UniqueContents(values);
  }

  /** A subset of a finite set is no larger. */
  lemma {:induction false} SubsetSize<T>(a: set<T>, b: set<T>)
    requires a <= b
    ensures |a| <= |b|
  {
    if a != {} {
      var x :| x in a;
      SubsetSize(a - {x}, b - {x});
    }
  }
}
