/** The query strings the Builder writes and the Preview page reads
    (`/preview?type=…&resumeId=…&portfolioId=…`): pieces `name=value`
    joined with `&`, and `URLSearchParams.get`, which answers the value of
    the first piece with that name. Values are written unescaped, as the
    Builder writes them; percent- and plus-decoding are not modelled. */
module SearchParams {
  import opened Wrappers
  import opened Text

  /** One `name=value` piece. */
  function Param(name: string, value: string): string
  {
    name + "=" + value
  }

  /** Pieces joined with `&`. */
  function Encode(pairs: seq<(string, string)>): string
  {
    Join(Pieces(pairs), '&')
  }

  function Pieces(pairs: seq<(string, string)>): (r: seq<string>)
    ensures |r| == |pairs| && forall i :: 0 <= i < |pairs| ==> r[i] == Param(pairs[i].0, pairs[i].1)
  {
    seq(|pairs|, i requires 0 <= i < |pairs| => Param(pairs[i].0, pairs[i].1))
  }

  /** Where the first `=` of a piece is, if it has one. */
  function FirstEq(piece: string): (i: nat)
    ensures i <= |piece|
    ensures '=' !in piece[..i]
    ensures i < |piece| ==> piece[i] == '='
  {
    if |piece| == 0 || piece[0] == '=' then 0
    else
      var j := 1 + FirstEq(piece[1..]);
      assert piece[..j] == [piece[0]] + piece[1..][..j - 1];
      j
  }

  /** A piece's name: up to its first `=`, or the whole piece. */
  function NameOf(piece: string): string
  {
    piece[..FirstEq(piece)]
  }

  /** A piece's value: after its first `=`, or empty. */
  function ValueOf(piece: string): string
  {
    var i := FirstEq(piece);
    if i < |piece| then piece[i + 1..] else ""
  }

  /** The value of the first piece named `name`. */
  function Lookup(pieces: seq<string>, name: string): (r: Option<string>)
    ensures r.Some? <==> exists i :: 0 <= i < |pieces| && NameOf(pieces[i]) == name
    ensures r.Some? ==> exists i :: 0 <= i < |pieces| && NameOf(pieces[i]) == name && r.value == ValueOf(pieces[i])
  {
    if |pieces| == 0 then None
    else if NameOf(pieces[0]) == name then Some(ValueOf(pieces[0]))
    else
      var r := Lookup(pieces[1..], name);
      assert forall i :: 1 <= i < |pieces| ==> pieces[i] == pieces[1..][i - 1];
      r
  }

  /** `new URLSearchParams(q).get(name)` for a non-empty name. */
  function Get(q: string, name: string): Option<string>
  {
    Lookup(Split(q, '&'), name)
  }

  // ----- Lemmas -------------------------------------------------------------

  /** A piece reads back as the name and value it was written from, when
      the name holds no `=` (the value may). */
  lemma ParamRoundTrip(name: string, value: string)
    requires '=' !in name
    ensures NameOf(Param(name, value)) == name
    ensures ValueOf(Param(name, value)) == value
  {
    var p := Param(name, value);
    var i := FirstEq(p);
    assert p[|name|] == '=';
    assert p[|name| + 1..] == value;
  }

  /** Reading back an encoded query: the value of the first pair with the
      name asked for, provided no name holds `=` or `&` and no value holds
      `&`. */
  lemma {:induction false} GetEncoded(pairs: seq<(string, string)>, k: nat)
    requires |pairs| >= 1 && k < |pairs|
    requires forall i :: 0 <= i < |pairs| ==> '=' !in pairs[i].0 && '&' !in pairs[i].0 && '&' !in pairs[i].1
    requires forall i :: 0 <= i < k ==> pairs[i].0 != pairs[k].0
    ensures Get(Encode(pairs), pairs[k].0) == Some(pairs[k].1)
  {
    var ps := Pieces(pairs);
    forall i | 0 <= i < |ps| ensures '&' !in ps[i] {
      assert ps[i] == pairs[i].0 + "=" + pairs[i].1;
    }
    SplitJoin(ps, '&');
    forall i | 0 <= i < |ps| ensures NameOf(ps[i]) == pairs[i].0 && ValueOf(ps[i]) == pairs[i].1 {
      ParamRoundTrip(pairs[i].0, pairs[i].1);
    }
    LookupFirst(ps, pairs[k].0, k);
  }

  lemma {:induction false} LookupFirst(pieces: seq<string>, name: string, k: nat)
    requires k < |pieces| && NameOf(pieces[k]) == name
    requires forall i :: 0 <= i < k ==> NameOf(pieces[i]) != name
    ensures Lookup(pieces, name) == Some(ValueOf(pieces[k]))
  {
    if k > 0 {
      LookupFirst(pieces[1..], name, k - 1);
    }
  }
}
