/**
 * `generateQueryString`, shared by both builds: `?key=value&key=value...`
 * for a non-empty parameter list, `""` for an empty one.
 */
module QueryString {
  import opened Text

  /** One `{ key, value }` entry; the value is given in the text form a template literal prints. */
  datatype QueryParameter = QueryParameter(key: string, value: string)

  /** `${key}=${value}`: the key, then `=`, then the value. */
  function Pair(p: QueryParameter): (r: string)
    ensures p.key <= r && |r| == |p.key| + 1 + |p.value|
    ensures r[|p.key|] == '=' && r[|p.key| + 1..] == p.value
  {
    p.key + "=" + p.value
  }

  /** The `key=value` pieces of a list, in list order. */
  function Pairs(ps: seq<QueryParameter>): (r: seq<string>)
    ensures |r| == |ps|
    ensures forall k :: 0 <= k < |ps| ==> r[k] == Pair(ps[k])
  {
    seq(|ps|, k requires 0 <= k < |ps| => Pair(ps[k]))
  }

  /** `generateQueryString`. */
  function GenerateQueryString(ps: seq<QueryParameter>): (q: string)
    ensures q == "" <==> ps == []
    ensures ps != [] ==> q[0] == '?'
  {
    if |ps| > 0 then "?" + Join(Pairs(ps), '&') else ""
  }

  /** A key fit for the query string: no `&` or `=` inside. */
  predicate PlainKey(key: string)
  {
    '&' !in key && '=' !in key
  }

  /** Reading one `key=value` piece back: the key ends at the first `=`. */
  function ParsePair(piece: string): QueryParameter
  {
    if '=' in piece then
      var i := IndexOf(piece, '=');
      QueryParameter(piece[..i], piece[i + 1..])
    else QueryParameter(piece, "")
  }

  /** Reading a query string back into its parameter list. */
  function ParseQueryString(q: string): seq<QueryParameter>
  {
    if q == "" then []
    else
      var pieces := Split(q[1..], '&');
      seq(|pieces|, k requires 0 <= k < |pieces| => ParsePair(pieces[k]))
  }

  /** A pair is read back whenever its key holds no `=`. */
  lemma ParsePairOfPair(p: QueryParameter)
    requires '=' !in p.key
    ensures ParsePair(Pair(p)) == p
  {
    IndexAfterPiece(p.key, '=', p.value);
  }

  /**
   * The builder loses nothing: when keys hold no `&` or `=` and values no
   * `&`, reading the query string back gives the list, in order.
   */
  lemma {:induction false} QueryStringRoundTrip(ps: seq<QueryParameter>)
    requires forall k :: 0 <= k < |ps| ==> PlainKey(ps[k].key) && '&' !in ps[k].value
    ensures ParseQueryString(GenerateQueryString(ps)) == ps
  {
    if ps != [] {
      var pieces := Pairs(ps);
      forall k | 0 <= k < |ps|
        ensures '&' !in pieces[k] && ParsePair(pieces[k]) == ps[k]
      {
        ParsePairOfPair(ps[k]);
      }
      SplitJoin(pieces, '&');
      assert GenerateQueryString(ps)[1..] == Join(pieces, '&');
    }
  }

  /** Two parameters, as `renderGarage` sends `_page` and `_limit`: `?k1=v1&k2=v2`. */
  lemma TwoParameters(p: QueryParameter, q: QueryParameter)
    ensures GenerateQueryString([p, q]) == "?" + p.key + "=" + p.value + "&" + q.key + "=" + q.value
  {
    var a, b := Pair(p), Pair(q);
    assert Pairs([p, q]) == [a] + [b];
    JoinCons(a, [b], '&');
  }
}
