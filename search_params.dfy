/** The part of `URLSearchParams` the callback page relies on: building the
    parameter list from a string (the application/x-www-form-urlencoded parser
    of section 5.1 of the WHATWG URL Standard) and `get`.
    Percent-decoding and the `+`-to-space replacement are not modelled: names
    and values are kept as the raw text between the separators. */
module SearchParams {
  import opened Wrappers
  import opened Strings
  import opened Seqs

  /** One name/value pair, in the order it appeared in the input. */
  datatype Param = Param(name: string, value: string)

  /** Splits one non-empty `&`-free sequence at its first `=`: the name is what
      precedes it, the value everything after it; without `=`, the whole
      sequence is the name and the value is empty. */
  function ParsePair(piece: string): (p: Param)
    ensures '=' !in p.name
    ensures '=' in piece ==> piece == p.name + "=" + p.value
    ensures '=' !in piece ==> p == Param(piece, "")
  {
    var i := FirstIndex(piece, '=');
    if i == |piece| then Param(piece, "")
    else
      assert piece == piece[..i] + "=" + piece[i + 1..];
      Param(piece[..i], piece[i + 1..])
  }

  /** The pair of one `&`-separated sequence; an empty sequence gives none. */
  function PairOf(piece: string): seq<Param> {
    if piece == "" then [] else [ParsePair(piece)]
  }

  /** The pairs of the `&`-separated sequences, in order. */
  function Pairs(pieces: seq<string>): seq<Param> {
    FlatMap(PairOf, pieces)
  }

  /** The application/x-www-form-urlencoded parser, without decoding. Empty
      input has no pairs. */
  function Parse(input: string): (params: seq<Param>)
    ensures input == "" ==> params == []
  {
    assert Split("", '&') == [""] && Pairs([""]) == PairOf("") + Pairs([]);
    Pairs(Split(input, '&'))
  }

  /** Every pair the parser produces is one `Serialize` writes back unambiguously. */
  lemma ParseWellFormed(input: string)
    ensures AllWellFormed(Parse(input))
  {
    PairsWellFormed(Split(input, '&'));
  }

  /** `new URLSearchParams(init)` for a string `init`: one leading `?` is
      dropped first, so `""` and `"?"` both have no pairs. */
  function FromInit(init: string): (params: seq<Param>)
    ensures init == "" || init == "?" ==> params == []
  {
    if |init| > 0 && init[0] == '?' then Parse(init[1..]) else Parse(init)
  }

  /** Exactly one leading `?` is dropped: a second one stays part of the first name. */
  lemma FromInitDropsQuestion(s: string)
    ensures FromInit("?" + s) == Parse(s)
  {
    assert ("?" + s)[1..] == s;
  }

  /** A piece free of `&` parses into a well-formed pair. */
  lemma ParsePairWellFormed(piece: string)
    requires '&' !in piece
    ensures WellFormed(ParsePair(piece))
  {
    var p := ParsePair(piece);
    if '=' in piece {
      assert forall k :: 0 <= k < |p.name| ==> p.name[k] == piece[k];
      assert forall k :: 0 <= k < |p.value| ==> p.value[k] == piece[|p.name| + 1 + k];
    }
  }

  /** Sequences free of `&` parse into well-formed pairs. */
  lemma {:induction false} PairsWellFormed(pieces: seq<string>)
    requires forall k :: 0 <= k < |pieces| ==> '&' !in pieces[k]
    ensures AllWellFormed(Pairs(pieces))
  {
    if pieces != [] {
      if pieces[0] != "" {
        ParsePairWellFormed(pieces[0]);
      }
      PairsWellFormed(pieces[1..]);
      AllWellFormedAppend(PairOf(pieces[0]), Pairs(pieces[1..]));
    }
  }

  /** Two lists of well-formed pairs placed one after the other. */
  lemma AllWellFormedAppend(p: seq<Param>, q: seq<Param>)
    requires AllWellFormed(p) && AllWellFormed(q)
    ensures AllWellFormed(p + q)
  {
    assert forall x :: x in p + q ==> x in p || x in q;
  }

  /** `URLSearchParams.prototype.get`: the value of the first pair called
      `name`, or `None` (JavaScript's `null`) when there is none. */
  function Get(params: seq<Param>, name: string): (v: Option<string>)
    ensures v.None? <==> forall i :: 0 <= i < |params| ==> params[i].name != name
    ensures v.Some? ==> exists i :: 0 <= i < |params| && params[i] == Param(name, v.value) &&
                          forall j :: 0 <= j < i ==> params[j].name != name
  {
    if params == [] then None
    else if params[0].name == name then Some(params[0].value)
    else
      var v := Get(params[1..], name);
      assert forall i :: 0 < i < |params| ==> params[i] == params[1..][i - 1];
      if v.Some? then
        ghost var k :| 0 <= k < |params[1..]| && params[1..][k] == Param(name, v.value) &&
                       forall j :: 0 <= j < k ==> params[1..][j].name != name;
        assert params[k + 1] == Param(name, v.value);
        v
      else v
  }

  /** The text of one pair as the parser reads it back: `name=value`. */
  function Piece(p: Param): string {
    p.name + "=" + p.value
  }

  /** Pairs joined with `&`: the inverse of `Parse` on pairs it can produce. */
  function Serialize(params: seq<Param>): string {
    if params == [] then ""
    else if |params| == 1 then Piece(params[0])
    else Piece(params[0]) + "&" + Serialize(params[1..])
  }

  /** A pair that `Parse` can produce and that `Serialize` writes unambiguously. */
  predicate WellFormed(p: Param) {
    '&' !in p.name && '=' !in p.name && '&' !in p.value
  }

  /** Every pair of the list is well formed. */
  predicate AllWellFormed(params: seq<Param>) {
    forall p :: p in params ==> WellFormed(p)
  }

  /** A value found in a list of well-formed pairs is well formed under its name. */
  lemma {:induction false} GetWellFormed(params: seq<Param>, name: string)
    requires AllWellFormed(params)
    ensures Get(params, name).Some? ==> WellFormed(Param(name, Get(params, name).value))
  {
    if params != [] && params[0].name != name {
      assert forall p :: p in params[1..] ==> p in params;
      GetWellFormed(params[1..], name);
    }
  }

  /** Text placed on either side of one `&` is parsed independently, in order. */
  lemma ParseAppend(a: string, b: string)
    ensures Parse(a + "&" + b) == Parse(a) + Parse(b)
  {
    SplitAppend(a, '&', b);
    FlatMapAppend(PairOf, Split(a, '&'), Split(b, '&'));
  }

  /** A single well-formed pair is read back exactly. */
  lemma ParsePiece(p: Param)
    requires WellFormed(p)
    ensures Parse(Piece(p)) == [p]
  {
    var s := Piece(p);
    assert '&' !in s by {
      assert forall k :: 0 <= k < |s| ==> s[k] == (if k < |p.name| then p.name[k] else if k == |p.name| then '=' else p.value[k - |p.name| - 1]);
    }
    assert Split(s, '&') == [s];
    assert s != "";
    FirstIndexAfter(p.name, '=', p.value);
    assert FlatMap(PairOf, [s]) == PairOf(s) + FlatMap(PairOf, []);
    assert s[..|p.name|] == p.name && s[|p.name| + 1..] == p.value;
  }

  /** Parsing undoes serializing: every well-formed pair comes back, in order. */
  lemma {:induction false} ParseSerialize(params: seq<Param>)
    requires forall i :: 0 <= i < |params| ==> WellFormed(params[i])
    ensures Parse(Serialize(params)) == params
  {
    if params == [] {
      assert Split("", '&') == [""];
    } else if |params| == 1 {
      ParsePiece(params[0]);
    } else {
      ParsePiece(params[0]);
      ParseSerialize(params[1..]);
      ParseAppend(Piece(params[0]), Serialize(params[1..]));
      assert params == [params[0]] + params[1..];
    }
  }

  /** `get` on two lists placed one after the other looks in the second only
      when the first has no pair of that name. */
  lemma {:induction false} GetAppend(p: seq<Param>, q: seq<Param>, name: string)
    ensures Get(p + q, name) == if Get(p, name).Some? then Get(p, name) else Get(q, name)
  {
    if p != [] {
      assert (p + q)[1..] == p[1..] + q;
      GetAppend(p[1..], q, name);
    } else {
      assert p + q == q;
    }
  }
}
