/**
  Form parameters: url.Values.Encode, url.ParseQuery, FormValue, and
  originalParams of internal/http_handlers/consent.go, which keeps the
  parameters of an authorization request across the consent page.
 */
module Form {
  import opened Text
  import opened Listing
  import opened Escape

  type Values = map<Str, seq<Str>>
  type Pair = (Str, Str)

  // ---------------------------------------------------------------- the parameters of an authorization request

  const STATE_KEY: Str := "state"
  const SCOPE_KEY: Str := "scope"
  const REDIRECT_KEY: Str := "redirect_uri"
  const MODE_KEY: Str := "response_mode"
  const TYPE_KEY: Str := "response_type"
  const CLIENT_KEY: Str := "client_id"
  const HINT_KEY: Str := "login_hint"
  const LOCALES_KEY: Str := "ui_locales"
  const NONCE_KEY: Str := "nonce"
  const CHALLENGE_KEY: Str := "code_challenge"
  const METHOD_KEY: Str := "code_challenge_method"
  const RESOURCE_KEY: Str := "resource"
  const CODE_KEY: Str := "code"
  const PROMPT_KEY: Str := "prompt"
  const MAX_AGE_KEY: Str := "max_age"
  const REQUEST_KEY: Str := "request"
  const REQUEST_URI_KEY: Str := "request_uri"

  // ---------------------------------------------------------------- values

  /** The values given to one key, in order. */
  function ValuesOf(ps: seq<Pair>, k: Str): seq<Str> {
    if ps == [] then []
    else (if ps[0].0 == k then [ps[0].1] else []) + ValuesOf(ps[1..], k)
  }

  /** What appending every pair to an empty url.Values leaves. */
  function Collect(ps: seq<Pair>): Values {
    map k | k in (set p | p in ps :: p.0) :: ValuesOf(ps, k)
  }

  /** One "k=v" segment; a segment that holds ';' or does not decode is skipped. */
  function ParseSegment(seg: Str): seq<Pair> {
    if Contains(seg, ";") || seg == [] then [] else
      var i := IndexFrom(seg, "=", 0);
      var k, v := QueryUnescape(seg[..i]), QueryUnescape(if i < |seg| then seg[i + 1..] else []);
      if k.None? || v.None? then [] else [(k.value, v.value)]
  }

  function ParsePairs(s: Str): seq<Pair>
    decreases |s|
  {
    if s == [] then [] else
      var i := IndexFrom(s, "&", 0);
      ParseSegment(s[..i]) + ParsePairs(if i < |s| then s[i + 1..] else [])
  }

  /** url.ParseQuery; the error it also returns is ignored by every caller modelled here. */
  function Parsed(s: Str): Values { Collect(ParsePairs(s)) }

  function EncodePair(p: Pair): Str { QueryEscape(p.0) + "=" + QueryEscape(p.1) }

  function EncodePairs(ps: seq<Pair>): Str {
    if ps == [] then []
    else if |ps| == 1 then EncodePair(ps[0])
    else EncodePair(ps[0]) + "&" + EncodePairs(ps[1..])
  }

  function PairsOf(k: Str, vs: seq<Str>): seq<Pair> {
    if vs == [] then [] else [(k, vs[0])] + PairsOf(k, vs[1..])
  }

  function Flatten(keys: seq<Str>, v: Values): seq<Pair>
    requires forall k :: k in keys ==> k in v
  {
    if keys == [] then [] else PairsOf(keys[0], v[keys[0]]) + Flatten(keys[1..], v)
  }

  /** url.Values.Encode: keys in sorted order. */
  ghost function Encoded(v: Values): Str { EncodePairs(Flatten(Sorted(v.Keys), v)) }

  /** Request.FormValue: the first value, or "". */
  function FormValue(form: Values, k: Str): Str {
    if k in form && form[k] != [] then form[k][0] else []
  }

  /** originalParams: the first value of every parameter. */
  function FirstValues(form: Values): Values {
    map k | k in form && form[k] != [] :: [form[k][0]]
  }

  // ---------------------------------------------------------------- as the source runs them

  method Encode(v: Values) returns (s: Str)
    ensures s == Encoded(v)
  {
    var keys := SortKeys(v.Keys);
    s := EncodePairs(Flatten(keys, v));
  }

  /** originalParams, ranging over the form in any order. */
  method OriginalParams(form: Values) returns (out: Values)
    ensures out == FirstValues(form)
  {
    out := map[];
    var left := form.Keys;
    while left != {}
      invariant left <= form.Keys
      invariant out == FirstValues(map k | k in form.Keys - left :: form[k])
      decreases left
    {
      var k :| k in left;
      if |form[k]| > 0 {
        out := out[k := [form[k][0]]];
      }
      left := left - {k};
    }
    assert (map k | k in form.Keys - left :: form[k]) == form;
  }

  // ---------------------------------------------------------------- parsing what was encoded

  lemma {:induction false} ValuesAppend(a: seq<Pair>, b: seq<Pair>, k: Str)
    ensures ValuesOf(a + b, k) == ValuesOf(a, k) + ValuesOf(b, k)
  {
    if a == [] {
      assert a + b == b;
    } else {
      assert (a + b)[1..] == a[1..] + b;
      ValuesAppend(a[1..], b, k);
    }
  }

  lemma ValuesAbsent(ps: seq<Pair>, k: Str)
    ensures ValuesOf(ps, k) == [] <==> forall q :: q in ps ==> q.0 != k
  {
  }

  /** A delimiter that escaping removes is found only where the encoder put it. */
  lemma FirstDelimiter(f: Str, c: byte, rest: Str)
    requires c !in f
    ensures IndexFrom(f + [c] + rest, [c], 0) == |f|
  {
    var s := f + [c] + rest;
    forall j | 0 <= j < |f|
      ensures !At(s, [c], j)
    {
      assert s[j..j + 1] == [f[j]];
    }
    IndexIsFirst(s, [c], |f|);
  }

  lemma NoDelimiter(f: Str, c: byte)
    requires c !in f
    ensures IndexFrom(f, [c], 0) == |f|
  {
  }

  lemma SegmentRoundTrip(p: Pair)
    ensures ParseSegment(EncodePair(p)) == [p]
    ensures '&' !in EncodePair(p)
  {
    var k, v := QueryEscape(p.0), QueryEscape(p.1);
    EscapeAlphabet(p.0);
    EscapeAlphabet(p.1);
    var seg := EncodePair(p);
    assert ';' !in seg && '&' !in seg;
    CleanChar(seg, ';');
    FirstDelimiter(k, '=', v);
    assert seg[..|k|] == k && seg[|k| + 1..] == v;
    UnescapeEscape(p.0);
    UnescapeEscape(p.1);
  }

  lemma {:induction false} PairsRoundTrip(ps: seq<Pair>)
    ensures ParsePairs(EncodePairs(ps)) == ps
  {
    if ps != [] {
      var seg := EncodePair(ps[0]);
      SegmentRoundTrip(ps[0]);
      if |ps| == 1 {
        NoDelimiter(seg, '&');
        assert seg[..|seg|] == seg;
        assert ps == [ps[0]];
      } else {
        var rest := EncodePairs(ps[1..]);
        FirstDelimiter(seg, '&', rest);
        var s := seg + "&" + rest;
        assert s[..|seg|] == seg && s[|seg| + 1..] == rest;
        PairsRoundTrip(ps[1..]);
      }
    }
  }

  lemma {:induction false} ValuesOfPairs(k: Str, vs: seq<Str>, j: Str)
    ensures ValuesOf(PairsOf(k, vs), j) == if j == k then vs else []
  {
    if vs != [] {
      ValuesOfPairs(k, vs[1..], j);
    }
  }

  lemma {:induction false} ValuesOfFlatten(keys: seq<Str>, v: Values, j: Str)
    requires StrictlySorted(keys) && forall k :: k in keys ==> k in v
    ensures ValuesOf(Flatten(keys, v), j) == if j in keys then v[j] else []
  {
    if keys != [] {
      var k := keys[0];
      ValuesAppend(PairsOf(k, v[k]), Flatten(keys[1..], v), j);
      ValuesOfPairs(k, v[k], j);
      ValuesOfFlatten(keys[1..], v, j);
      Irreflexive(k);
    }
  }

  /** Parsing an encoded form gives the form back, whatever bytes its keys and values hold. */
  lemma FormRoundTrip(v: Values)
    requires forall k :: k in v ==> v[k] != []
    ensures Parsed(Encoded(v)) == v
  {
    var keys := Sorted(v.Keys);
    var ps := Flatten(keys, v);
    PairsRoundTrip(ps);
    forall k
      ensures (k in Collect(ps) <==> k in v) && (k in v ==> Collect(ps)[k] == v[k])
    {
      ValuesOfFlatten(keys, v, k);
      ValuesAbsent(ps, k);
    }
  }

  /** The encoder determines the form: two forms with one encoding are the same form. */
  lemma EncodedInjective(v: Values, w: Values)
    requires forall k :: k in v ==> v[k] != []
    requires forall k :: k in w ==> w[k] != []
    requires Encoded(v) == Encoded(w)
    ensures v == w
  {
    FormRoundTrip(v);
    FormRoundTrip(w);
  }

  /**
    Replay is faithful. The request that ConsentHandler redirects to carries
    the stored encoding as its query string: its parameters are the stored
    ones, encoding them again gives the same text, and every parameter the
    handler reads is the one the first request carried.
   */
  lemma ReplayFaithful(form: Values)
    ensures var stored := Encoded(FirstValues(form));
            && Parsed(stored) == FirstValues(form)
            && FirstValues(Parsed(stored)) == FirstValues(form)
            && Encoded(FirstValues(Parsed(stored))) == stored
            && forall k :: FormValue(Parsed(stored), k) == FormValue(form, k)
  {
    FormRoundTrip(FirstValues(form));
  }
}
