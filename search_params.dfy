/**
 * `URLSearchParams`, reduced to what the core uses: a query is the list of
 * its decoded name/value pairs in order, `get` returns the value of the
 * first pair with a name, and `toString` joins form-encoded pairs with `&`.
 */
module SearchParams {
  import opened Wrappers
  import opened Strings

  /** A decoded query string: name/value pairs in order. */
  type Query = seq<(string, string)>

  /** Some pair of the query has the name. */
  predicate HasName(q: Query, name: string) {
    exists i :: 0 <= i < |q| && q[i].0 == name
  }

  /**
   * `URLSearchParams.get(name)`: the value of the first pair with that name.
   * It answers `null` exactly when no pair has the name, and otherwise a
   * value that some pair with the name carries.
   */
  function QueryValue(q: Query, name: string): (v: Option<string>)
    ensures v.None? <==> !HasName(q, name)
    ensures v.Some? ==> (name, v.value) in q
  {
    if |q| == 0 then None
    else if q[0].0 == name then
      assert q[0].0 == name;
      Some(q[0].1)
    else
      assert forall i :: 1 <= i < |q| ==> q[i] == q[1..][i - 1];
      QueryValue(q[1..], name)
  }

  /** `get` finds the first pair with the name: an earlier pair hides every later one. */
  lemma {:induction false} QueryValueFirst(q: Query, i: nat, name: string)
    requires i < |q| && q[i].0 == name
    requires forall j :: 0 <= j < i ==> q[j].0 != name
    ensures QueryValue(q, name) == Some(q[i].1)
  {
    if i > 0 {
      assert q[1..][i - 1] == q[i];
      QueryValueFirst(q[1..], i - 1, name);
    }
  }

  /** A pair with another name, inserted anywhere, does not change what `get` answers. */
  lemma {:induction false} QueryValueIgnoresOtherNames(before: Query, pair: (string, string), after: Query, name: string)
    requires pair.0 != name
    ensures QueryValue(before + [pair] + after, name) == QueryValue(before + after, name)
  {
    if |before| == 0 {
      assert before + [pair] + after == [pair] + after;
      assert ([pair] + after)[1..] == after;
      assert before + after == after;
    } else {
      assert (before + [pair] + after)[0] == before[0] && (before + after)[0] == before[0];
      assert (before + [pair] + after)[1..] == before[1..] + [pair] + after;
      assert (before + after)[1..] == before[1..] + after;
      QueryValueIgnoresOtherNames(before[1..], pair, after, name);
    }
  }

  /** `URLSearchParams.toString()`: `name=value` pairs joined by `&`, each side form-encoded; empty only for the empty query. */
  function SerializeQuery(q: Query, formEncode: string -> string): (r: string)
    ensures r == "" <==> |q| == 0
  {
    if |q| == 0 then ""
    else
      var pair := formEncode(q[0].0) + "=" + formEncode(q[0].1);
      if |q| == 1 then pair else pair + "&" + SerializeQuery(q[1..], formEncode)
  }

  /** The serialized pairs, one `name=value` string each, in order. */
  function EncodedPairs(q: Query, formEncode: string -> string): seq<string> {
    seq(|q|, i requires 0 <= i < |q| => formEncode(q[i].0) + "=" + formEncode(q[i].1))
  }

  /** The serialization is the encoded pairs joined by `&`. */
  lemma {:induction false} SerializeQueryIsJoin(q: Query, formEncode: string -> string)
    ensures SerializeQuery(q, formEncode) == Join(EncodedPairs(q, formEncode), '&')
  {
    if |q| >= 2 {
      assert EncodedPairs(q, formEncode)[1..] == EncodedPairs(q[1..], formEncode);
      SerializeQueryIsJoin(q[1..], formEncode);
    }
  }

  /**
   * Since form encoding escapes `&`, splitting a non-empty serialization on
   * `&` gives back exactly one `name=value` string per pair, in order.
   */
  lemma SerializeQuerySplits(q: Query, formEncode: string -> string)
    requires forall x :: '&' !in formEncode(x)
    requires |q| >= 1
    ensures Split(SerializeQuery(q, formEncode), '&') == EncodedPairs(q, formEncode)
  {
    var parts := EncodedPairs(q, formEncode);
    forall i | 0 <= i < |parts|
      ensures '&' !in parts[i]
    {
      assert '&' !in formEncode(q[i].0) && '&' !in formEncode(q[i].1);
    }
    SerializeQueryIsJoin(q, formEncode);
    SplitJoin(parts, '&');
  }
}
