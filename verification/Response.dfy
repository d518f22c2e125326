/**
  How /authorize answers an accepted request: the parameters of each response
  type, the text a redirect appends or the map a page posts, and what a client
  reads back from it (AuthorizeHandler and handleResponse of
  internal/http_handlers/authorize.go).
 */
module Response {
  import opened Text
  import opened Escape
  import opened Form
  import opened Redirect
  import opened ResponseType
  import opened Authorize

  datatype Param = PCode | PState | PTokenType | PExpiresIn | PAccessToken | PIDToken

  const TOKEN_TYPE_NAME: Str := "token_type"
  const EXPIRES_IN_NAME: Str := "expires_in"
  const ACCESS_TOKEN_NAME: Str := "access_token"
  const BEARER: Str := "Bearer"

  function NameOf(p: Param): Str {
    match p
    case PCode => CODE_KEY
    case PState => STATE_KEY
    case PTokenType => TOKEN_TYPE_NAME
    case PExpiresIn => EXPIRES_IN_NAME
    case PAccessToken => ACCESS_TOKEN_NAME
    case PIDToken => ID_TOKEN
  }

  /** The credentials minted for one answer. */
  datatype Minted = Minted(code: Str, accessToken: Str, idToken: Str, expiresIn: Str)

  /** A UUID, two JSON Web Tokens and a number: nothing that escaping would touch. */
  ghost predicate PlainMinted(m: Minted) {
    PlainText(m.code) && PlainText(m.accessToken) && PlainText(m.idToken) && PlainText(m.expiresIn)
  }

  function ValueOf(m: Minted, state: Str, p: Param): Str {
    match p
    case PCode => m.code
    case PAccessToken => m.accessToken
    case PIDToken => m.idToken
    case PState => state
    case PTokenType => BEARER
    case PExpiresIn => m.expiresIn
  }

  /** The parameters an answer consists of, by the components of its response type. */
  predicate Wanted(code: bool, token: bool, id: bool, p: Param) {
    match p
    case PCode => code
    case PAccessToken => token
    case PIDToken => id
    case PState => true
    case _ => token || (code && id)
  }

  // ---------------------------------------------------------------- the order of the parameters

  function Before(code: bool, token: bool, id: bool): seq<Param> {
    if code then [PCode]
    else if token && id then [PAccessToken, PIDToken, PTokenType, PExpiresIn]
    else if id then [PIDToken]
    else [PAccessToken, PTokenType, PExpiresIn]
  }

  function Behind(code: bool, token: bool, id: bool): seq<Param> {
    if code && (token || id) then
      [PTokenType, PExpiresIn] + (if token then [PAccessToken] else []) + (if id then [PIDToken] else [])
    else []
  }

  function PairsFor(ps: seq<Param>, state: Str, m: Minted): (r: seq<Pair>)
    ensures |r| == |ps| && forall i :: 0 <= i < |ps| ==> r[i] == (NameOf(ps[i]), ValueOf(m, state, ps[i]))
  {
    if ps == [] then [] else [(NameOf(ps[0]), ValueOf(m, state, ps[0]))] + PairsFor(ps[1..], state, m)
  }

  /** The pairs of an answer: the caller's state among what the server minted. */
  function Answer(code: bool, token: bool, id: bool, state: Str, m: Minted): seq<Pair> {
    PairsFor(Before(code, token, id), state, m) + [(STATE_KEY, state)] + PairsFor(Behind(code, token, id), state, m)
  }

  /** The answer of each response type, spelled out. */
  lemma AnswerSpelled(state: Str, m: Minted)
    ensures Answer(true, false, false, state, m) == [("code", m.code), ("state", state)]
    ensures Answer(false, false, true, state, m) == [("id_token", m.idToken), ("state", state)]
    ensures Answer(false, true, false, state, m) ==
            [("access_token", m.accessToken), ("token_type", "Bearer"), ("expires_in", m.expiresIn), ("state", state)]
    ensures Answer(false, true, true, state, m) ==
            [("access_token", m.accessToken), ("id_token", m.idToken), ("token_type", "Bearer"), ("expires_in", m.expiresIn),
             ("state", state)]
    ensures Answer(true, true, false, state, m) ==
            [("code", m.code), ("state", state), ("token_type", "Bearer"), ("expires_in", m.expiresIn),
             ("access_token", m.accessToken)]
    ensures Answer(true, false, true, state, m) ==
            [("code", m.code), ("state", state), ("token_type", "Bearer"), ("expires_in", m.expiresIn), ("id_token", m.idToken)]
    ensures Answer(true, true, true, state, m) ==
            [("code", m.code), ("state", state), ("token_type", "Bearer"), ("expires_in", m.expiresIn),
             ("access_token", m.accessToken), ("id_token", m.idToken)]
  {
  }

  /** An answer carries each wanted parameter, with its value, and no other. */
  lemma AnswerHolds(code: bool, token: bool, id: bool, state: Str, m: Minted, p: Param, v: Str)
    requires code || token || id
    ensures (NameOf(p), v) in Answer(code, token, id, state, m) <==> Wanted(code, token, id, p) && v == ValueOf(m, state, p)
  {
    var all := AllParams(code, token, id);
    WantedListed(code, token, id, p);
    PairsHold(all, state, m, p, v);
    PairsAppend(Before(code, token, id) + [PState], Behind(code, token, id), state, m);
    PairsAppend(Before(code, token, id), [PState], state, m);
  }

  lemma PairsAppend(a: seq<Param>, b: seq<Param>, state: Str, m: Minted)
    ensures PairsFor(a + b, state, m) == PairsFor(a, state, m) + PairsFor(b, state, m)
  {
  }

  function AllParams(code: bool, token: bool, id: bool): seq<Param> {
    Before(code, token, id) + [PState] + Behind(code, token, id)
  }

  lemma WantedListed(code: bool, token: bool, id: bool, p: Param)
    requires code || token || id
    ensures Wanted(code, token, id, p) <==> p in AllParams(code, token, id)
  {
  }

  lemma PairsHold(ps: seq<Param>, state: Str, m: Minted, p: Param, v: Str)
    ensures (NameOf(p), v) in PairsFor(ps, state, m) <==> p in ps && v == ValueOf(m, state, p)
  {
  }

  // ---------------------------------------------------------------- the text of a redirect

  /** Names and values as they are, without escaping. */
  function RawText(ps: seq<Pair>): Str {
    if ps == [] then []
    else if |ps| == 1 then ps[0].0 + "=" + ps[0].1
    else ps[0].0 + "=" + ps[0].1 + "&" + RawText(ps[1..])
  }

  predicate PlainPairs(ps: seq<Pair>) { forall p :: p in ps ==> PlainText(p.0) && PlainText(p.1) }

  lemma {:induction false} RawAppend(a: seq<Pair>, b: seq<Pair>)
    requires a != [] && b != []
    ensures RawText(a + b) == RawText(a) + "&" + RawText(b)
  {
    if |a| == 1 {
      assert (a + b)[1..] == b;
    } else {
      assert (a + b)[1..] == a[1..] + b;
      RawAppend(a[1..], b);
    }
  }

  /** Plain pairs are their own encoding, so they read back. */
  lemma {:induction false} PlainIsEncoded(ps: seq<Pair>)
    requires PlainPairs(ps)
    ensures RawText(ps) == EncodePairs(ps)
  {
    if ps != [] {
      EscapeNothing(ps[0].0);
      EscapeNothing(ps[0].1);
      PlainIsEncoded(ps[1..]);
    }
  }

  lemma PlainReads(ps: seq<Pair>)
    requires PlainPairs(ps)
    ensures ParsePairs(RawText(ps)) == ps
  {
    PlainIsEncoded(ps);
    PairsRoundTrip(ps);
  }

  lemma ParseLast(f: Str)
    requires '&' !in f
    ensures ParsePairs(f) == ParseSegment(f)
  {
    NoDelimiter(f, '&');
    assert f[..|f|] == f;
  }

  lemma ParseStep(f: Str, rest: Str)
    requires '&' !in f
    ensures ParsePairs(f + "&" + rest) == ParseSegment(f) + ParsePairs(rest)
  {
    var s := f + "&" + rest;
    FirstDelimiter(f, '&', rest);
    assert s[..|f|] == f && s[|f| + 1..] == rest;
  }

  /** What a reader of segments makes of a list of them. */
  ghost function ReadAll(read: Str -> seq<Pair>, segs: seq<Str>): seq<Pair> {
    if segs == [] then [] else read(segs[0]) + ReadAll(read, segs[1..])
  }

  lemma {:induction false} ReadAllAppend(read: Str -> seq<Pair>, a: seq<Str>, b: seq<Str>)
    ensures ReadAll(read, a + b) == ReadAll(read, a) + ReadAll(read, b)
  {
    if a == [] {
      assert a + b == b;
    } else {
      assert (a + b)[1..] == a[1..] + b;
      ReadAllAppend(read, a[1..], b);
    }
  }

  lemma {:induction false} ParseIsReadAll(s: Str)
    ensures ParsePairs(s) == ReadAll(ParseSegment, Split(s, "&"))
    decreases |s|
  {
    var i := IndexFrom(s, "&", 0);
    CharBeforeIndex(s, '&');
    if i == |s| {
      assert s[..i] == s;
      ParseLast(s);
    } else {
      assert s == s[..i] + "&" + s[i + 1..];
      ParseStep(s[..i], s[i + 1..]);
      ParseIsReadAll(s[i + 1..]);
    }
  }

  /** Parsing distributes over '&'. */
  lemma ParseAppend(a: Str, b: Str)
    ensures ParsePairs(a + "&" + b) == ParsePairs(a) + ParsePairs(b)
  {
    ParseIsReadAll(a);
    ParseIsReadAll(b);
    ParseIsReadAll(a + "&" + b);
    SplitAppend(a, '&', b);
    ReadAllAppend(ParseSegment, Split(a, "&"), Split(b, "&"));
  }

  // ---------------------------------------------------------------- one raw value

  /** Unescaping never lengthens a text, and leaves it alone exactly when it holds neither '%' nor '+'. */
  lemma {:induction false} UnescapeSame(s: Str)
    ensures QueryUnescape(s).Some? ==> |QueryUnescape(s).value| <= |s|
    ensures QueryUnescape(s) == Some(s) <==> '%' !in s && '+' !in s
  {
    if s != [] {
      if s[0] == '%' {
        if |s| >= 3 {
          UnescapeSame(s[3..]);
        }
      } else {
        UnescapeSame(s[1..]);
        assert s == [s[0]] + s[1..];
      }
    }
  }

  lemma SegmentShort(seg: Str)
    ensures forall p :: p in ParseSegment(seg) ==> |p.1| <= |seg|
  {
    var i := IndexFrom(seg, "=", 0);
    UnescapeSame(if i < |seg| then seg[i + 1..] else []);
  }

  lemma {:induction false} ValuesShort(s: Str)
    ensures forall p :: p in ParsePairs(s) ==> |p.1| <= |s|
    decreases |s|
  {
    if s != [] {
      var i := IndexFrom(s, "&", 0);
      SegmentShort(s[..i]);
      ValuesShort(if i < |s| then s[i + 1..] else []);
    }
  }

  /** Bytes that a value keeps when it is written into a text and read back. */
  predicate Verbatim(v: Str) { '&' !in v && ';' !in v && '+' !in v && '%' !in v }

  /** One segment without '&'. */
  lemma SegmentReads(k: Str, v: Str)
    requires PlainText(k)
    ensures ParseSegment(k + "=" + v) == [(k, v)] <==> ';' !in v && '+' !in v && '%' !in v
    ensures forall p :: p in ParseSegment(k + "=" + v) ==> |p.1| <= |v|
    ensures |ParseSegment(k + "=" + v)| <= 1
  {
    var seg := k + "=" + v;
    assert forall i :: 0 <= i < |k| ==> Unreserved(k[i]);
    assert '=' !in k && ';' !in k && '%' !in k && '+' !in k;
    FirstDelimiter(k, '=', v);
    assert seg[..|k|] == k && seg[|k| + 1..] == v;
    CleanChar(seg, ';');
    UnescapeSame(k);
    UnescapeSame(v);
  }

  lemma PlainLacks(k: Str)
    requires PlainText(k)
    ensures '&' !in k && ';' !in k && '=' !in k
  {
  }

  /** A raw value reads back exactly when it is verbatim; nothing longer is ever read. */
  lemma ValueReads(k: Str, v: Str)
    requires PlainText(k)
    ensures ParsePairs(k + "=" + v) == [(k, v)] <==> Verbatim(v)
    ensures forall p :: p in ParsePairs(k + "=" + v) ==> |p.1| <= |v|
  {
    if '&' in v {
      BrokenAt(k, v);
    } else {
      PlainLacks(k);
      ParseLast(k + "=" + v);
      SegmentReads(k, v);
    }
  }

  lemma BrokenAt(k: Str, v: Str)
    requires PlainText(k) && '&' in v
    ensures forall p :: p in ParsePairs(k + "=" + v) ==> |p.1| < |v|
  {
    var i := IndexFrom(v, "&", 0);
    CharBeforeIndex(v, '&');
    CleanChar(v, '&');
    var head, rest := v[..i], v[i + 1..];
    assert v == head + "&" + rest;
    BrokenReads(k, head, rest);
  }

  /** A value with '&' in it is read in pieces. */
  lemma BrokenReads(k: Str, head: Str, rest: Str)
    requires PlainText(k) && '&' !in head
    ensures forall p :: p in ParsePairs(k + "=" + (head + "&" + rest)) ==> |p.1| < |head + "&" + rest|
  {
    PlainLacks(k);
    assert k + "=" + (head + "&" + rest) == (k + "=" + head) + "&" + rest;
    ParseStep(k + "=" + head, rest);
    SegmentReads(k, head);
    ValuesShort(rest);
  }

  // ---------------------------------------------------------------- the whole text

  lemma PartsPlain(code: bool, token: bool, id: bool, state: Str, m: Minted)
    requires PlainMinted(m)
    ensures PlainPairs(PairsFor(Before(code, token, id), state, m)) && PlainPairs(PairsFor(Behind(code, token, id), state, m))
  {
    NamesPlain();
    assert forall p: Param :: p != PState ==> PlainText(ValueOf(m, state, p));
  }

  lemma NamesPlain()
    ensures PlainText(BEARER) && forall p: Param :: PlainText(NameOf(p))
  {
  }

  /** Around one raw value everything else reads back. */
  lemma AroundReads(pre: seq<Pair>, k: Str, v: Str, post: seq<Pair>)
    requires pre != [] && PlainPairs(pre) && PlainPairs(post)
    ensures ParsePairs(RawText(pre + [(k, v)] + post)) == pre + ParsePairs(k + "=" + v) + post
  {
    var one := [(k, v)];
    PlainReads(pre);
    PlainReads(post);
    RawAppend(pre, one);
    ParseAppend(RawText(pre), RawText(one));
    if post == [] {
      assert pre + one + post == pre + one;
    } else {
      RawAppend(pre + one, post);
      ParseAppend(RawText(pre + one), RawText(post));
    }
  }

  /**
    Every response type: the text of the answer parses to exactly the wanted
    parameters if and only if the caller's state is verbatim.
   */
  lemma TextReads(code: bool, token: bool, id: bool, state: Str, m: Minted)
    requires PlainMinted(m)
    ensures var a := Answer(code, token, id, state, m); ParsePairs(RawText(a)) == a <==> Verbatim(state)
  {
    PartsPlain(code, token, id, state, m);
    NamesPlain();
    assert PlainText(NameOf(PState));
    PairsRead(PairsFor(Before(code, token, id), state, m), STATE_KEY, state, PairsFor(Behind(code, token, id), state, m));
  }

  lemma PairsRead(pre: seq<Pair>, k: Str, v: Str, post: seq<Pair>)
    requires pre != [] && PlainPairs(pre) && PlainPairs(post) && PlainText(k)
    ensures var a := pre + [(k, v)] + post; ParsePairs(RawText(a)) == a <==> Verbatim(v)
  {
    AroundReads(pre, k, v, post);
    ValueReads(k, v);
    Sandwich(pre, ParsePairs(k + "=" + v), (k, v), post);
  }

  lemma Sandwich(pre: seq<Pair>, got: seq<Pair>, x: Pair, post: seq<Pair>)
    ensures pre + got + post == pre + [x] + post <==> got == [x]
  {
    if pre + got + post == pre + [x] + post {
      assert |got| == 1 && (pre + got + post)[|pre|] == got[0] && (pre + [x] + post)[|pre|] == x;
    }
  }

  /** A state that is not verbatim adds a parameter of its own to an answer that has only a code. */
  lemma StateAddsParameter(m: Minted)
    requires PlainMinted(m)
    ensures var a := Answer(true, false, false, "x&access_token=y", m);
            (ACCESS_TOKEN_NAME, "y") in ParsePairs(RawText(a)) && forall v :: (ACCESS_TOKEN_NAME, v) !in a
  {
    var state: Str := "x&access_token=y";
    PartsPlain(true, false, false, state, m);
    AroundReads(PairsFor(Before(true, false, false), state, m), STATE_KEY, state, []);
    ForeignParameter();
    forall v
      ensures (ACCESS_TOKEN_NAME, v) !in Answer(true, false, false, state, m)
    {
      AnswerHolds(true, false, false, state, m, PAccessToken, v);
    }
  }

  lemma ForeignParameter()
    ensures (ACCESS_TOKEN_NAME, "y") in ParsePairs(STATE_KEY + "=" + "x&access_token=y")
  {
    NamesPlain();
    assert PlainText(NameOf(PAccessToken)) && PlainText(NameOf(PState));
    assert "x&access_token=y" == "x" + "&" + (ACCESS_TOKEN_NAME + "=" + "y");
    SecondParameter(STATE_KEY, "x", ACCESS_TOKEN_NAME, "y");
  }

  lemma SecondParameter(k: Str, v: Str, l: Str, w: Str)
    requires PlainText(k) && PlainText(v) && PlainText(l) && Verbatim(w)
    ensures (l, w) in ParsePairs(k + "=" + (v + "&" + (l + "=" + w)))
  {
    PlainLacks(k);
    PlainLacks(v);
    var second := l + "=" + w;
    assert k + "=" + (v + "&" + second) == (k + "=" + v) + "&" + second;
    ParseStep(k + "=" + v, second);
    ValueReads(l, w);
  }

  // ---------------------------------------------------------------- the whole location

  /** The text before the first c, and the text past it. */
  function UpTo(s: Str, c: byte): Str { s[..IndexFrom(s, [c], 0)] }

  function Past(s: Str, c: byte): Str {
    var i := IndexFrom(s, [c], 0);
    if i < |s| then s[i + 1..] else []
  }

  /** The parameters a client finds in a location (section 3 of RFC 3986). */
  function Reads(mode: Mode, location: Str): seq<Pair> {
    ParsePairs(if mode.Query? then Past(UpTo(location, '#'), '?') else Past(location, '#'))
  }

  /** Where a redirect appends the parameters: after what the URI already carries. */
  function Separator(mode: Mode, redirectURI: Str): byte {
    if mode.Query? then if '?' in redirectURI then '&' else '?'
    else if '#' in redirectURI then '&' else '#'
  }

  function Location(mode: Mode, redirectURI: Str, text: Str): Str {
    redirectURI + [Separator(mode, redirectURI)] + text
  }

  /** Appending past a delimiter that is there appends to what is past it. */
  lemma PastAppend(base: Str, c: byte, more: Str)
    ensures c in base ==> Past(base + more, c) == Past(base, c) + more && UpTo(base + more, c) == UpTo(base, c)
    ensures c !in base ==> Past(base + [c] + more, c) == more && Past(base, c) == []
  {
    if c in base {
      var i := IndexFrom(base, [c], 0);
      CharBeforeIndex(base, c);
      CleanChar(base, c);
      assert base[i..i + 1] == [base[i]];
      assert base == base[..i] + [c] + base[i + 1..];
      assert base + more == base[..i] + [c] + (base[i + 1..] + more);
      FirstDelimiter(base[..i], c, base[i + 1..] + more);
    } else {
      FirstDelimiter(base, c, more);
      NoDelimiter(base, c);
    }
  }

  lemma UpToAppend(base: Str, c: byte, more: Str)
    requires c !in base
    ensures UpTo(base + more, c) == base + UpTo(more, c)
  {
    var i := IndexFrom(more, [c], 0);
    CharBeforeIndex(more, c);
    CleanChar(more, c);
    if i < |more| {
      assert more[i..i + 1] == [more[i]] && more[i] == c;
      assert base + more == (base + more[..i]) + [c] + more[i + 1..];
      FirstDelimiter(base + more[..i], c, more[i + 1..]);
    } else {
      assert more[..i] == more;
      NoDelimiter(base + more, c);
    }
  }

  lemma ParseMore(a: Str, b: Str)
    ensures ParsePairs(a + ("&" + b)) == ParsePairs(a) + ParsePairs(b)
  {
    assert a + ("&" + b) == a + "&" + b;
    ParseAppend(a, b);
  }

  lemma FragmentReads(mode: Mode, base: Str, text: Str)
    requires !mode.Query?
    ensures Reads(mode, Location(mode, base, text)) == Reads(mode, base) + ParsePairs(text)
  {
    if '#' in base {
      var more := "&" + text;
      PastAppend(base, '#', more);
      assert Location(mode, base, text) == base + more;
      ParseMore(Past(base, '#'), text);
    } else {
      PastAppend(base, '#', text);
    }
  }

  lemma QueryReads(mode: Mode, base: Str, text: Str)
    requires mode.Query?
    ensures '#' !in base ==> Reads(mode, Location(mode, base, text)) == Reads(mode, base) + ParsePairs(UpTo(text, '#'))
    ensures '#' in base ==> Reads(mode, Location(mode, base, text)) == Reads(mode, base)
  {
    var sep := Separator(mode, base);
    var more := [sep] + text;
    assert Location(mode, base, text) == base + more;
    if '#' in base {
      PastAppend(base, '#', more);
    } else {
      UpToAppend(base + [sep], '#', text);
      assert base + [sep] + text == base + more;
      NoDelimiter(base, '#');
      assert base[..|base|] == base;
      var cut := UpTo(text, '#');
      if '?' in base {
        PastAppend(base, '?', [sep] + cut);
        assert base + [sep] + cut == base + ([sep] + cut);
        ParseMore(Past(base, '?'), cut);
      } else {
        PastAppend(base, '?', cut);
      }
    }
  }

  /** In a query a '#' ends the text, too. */
  lemma QueryTextReads(pre: seq<Pair>, k: Str, v: Str)
    requires pre != [] && PlainPairs(pre) && PlainText(k)
    ensures var a := pre + [(k, v)]; ParsePairs(UpTo(RawText(a), '#')) == a <==> Verbatim(v) && '#' !in v
  {
    var a := pre + [(k, v)];
    var cut := UpTo(v, '#');
    var front := RawText(pre) + "&" + (k + "=");
    RawAppend(pre, [(k, v)]);
    assert RawText(a) == front + v;
    PlainLacksHash(pre, k);
    UpToAppend(front, '#', v);
    RawAppend(pre, [(k, cut)]);
    assert front + cut == RawText(pre + [(k, cut)]);
    assert pre + [(k, cut)] + [] == pre + [(k, cut)];
    AroundReads(pre, k, cut, []);
    ValueReads(k, cut);
    Sandwich(pre, ParsePairs(k + "=" + cut), (k, v), []);
    CleanChar(v, '#');
    CharBeforeIndex(v, '#');
    assert '#' !in v ==> cut == v;
  }

  lemma {:induction false} PlainLacksHash(ps: seq<Pair>, k: Str)
    requires PlainPairs(ps) && PlainText(k)
    ensures '#' !in RawText(ps) && '#' !in RawText(ps) + "&" + (k + "=")
  {
    assert forall i :: 0 <= i < |k| ==> Unreserved(k[i]);
    if ps != [] {
      var p := ps[0];
      assert p in ps;
      assert forall i :: 0 <= i < |p.0| ==> Unreserved(p.0[i]);
      assert forall i :: 0 <= i < |p.1| ==> Unreserved(p.1[i]);
      PlainLacksHash(ps[1..], k);
    }
  }

  /** Values and URIs for which a client reads exactly the answer. */
  predicate Survives(mode: Mode, redirectURI: Str, state: Str) {
    Verbatim(state) && (mode.Query? ==> '#' !in state && '#' !in redirectURI)
  }

  /**
    For every response type and both redirect modes: what the client finds in the
    location is what the redirect URI carried already followed by exactly the
    parameters of the answer, if and only if the state survives.
   */
  lemma DeliveredExactly(mode: Mode, redirectURI: Str, code: bool, token: bool, id: bool, state: Str, m: Minted)
    requires PlainMinted(m) && (mode.Query? ==> code && !token && !id)
    ensures var a := Answer(code, token, id, state, m);
            Reads(mode, Location(mode, redirectURI, RawText(a))) == Reads(mode, redirectURI) + a <==>
            Survives(mode, redirectURI, state)
  {
    PartsPlain(code, token, id, state, m);
    NamesPlain();
    assert PlainText(NameOf(PState));
    var pre, post := PairsFor(Before(code, token, id), state, m), PairsFor(Behind(code, token, id), state, m);
    if mode.Query? {
      assert Answer(code, token, id, state, m) == pre + [(STATE_KEY, state)];
      QueryDelivered(mode, redirectURI, pre, STATE_KEY, state);
    } else {
      FragmentDelivered(mode, redirectURI, pre, STATE_KEY, state, post);
    }
  }

  lemma SameTail(x: seq<Pair>, y: seq<Pair>, z: seq<Pair>)
    ensures x + y == x + z <==> y == z
  {
    if x + y == x + z {
      assert (x + y)[|x|..] == y && (x + z)[|x|..] == z;
    }
  }

  lemma QueryDelivered(mode: Mode, base: Str, pre: seq<Pair>, k: Str, v: Str)
    requires mode.Query? && pre != [] && PlainPairs(pre) && PlainText(k)
    ensures var a := pre + [(k, v)];
            Reads(mode, Location(mode, base, RawText(a))) == Reads(mode, base) + a <==> Survives(mode, base, v)
  {
    var a := pre + [(k, v)];
    QueryReads(mode, base, RawText(a));
    QueryTextReads(pre, k, v);
    SameTail(Reads(mode, base), ParsePairs(UpTo(RawText(a), '#')), a);
  }

  lemma FragmentDelivered(mode: Mode, base: Str, pre: seq<Pair>, k: Str, v: Str, post: seq<Pair>)
    requires !mode.Query? && pre != [] && PlainPairs(pre) && PlainPairs(post) && PlainText(k)
    ensures var a := pre + [(k, v)] + post;
            Reads(mode, Location(mode, base, RawText(a))) == Reads(mode, base) + a <==> Survives(mode, base, v)
  {
    var a := pre + [(k, v)] + post;
    FragmentReads(mode, base, RawText(a));
    PairsRead(pre, k, v, post);
    SameTail(Reads(mode, base), ParsePairs(RawText(a)), a);
  }

  // ---------------------------------------------------------------- the branches of the handler

  /** What leaves the server: a redirect, or a page that posts the answer. */
  datatype Delivery =
    | Redirected(location: Str)
    | PostedMessage(target: Str, response: map<Param, Str>)
    | PostedForm(target: Str, response: map<Param, Str>)

  /** How the flags of an accepted response type hang together. */
  predicate FlowShape(flow: Flow) {
    && (flow.hybrid <==> flow.hasCode && (flow.bareToken || flow.hasIDToken))
    && (flow.codeOnly <==> flow.hasCode && !flow.bareToken && !flow.hasIDToken)
    && (flow.hasCode || flow.bareToken || flow.hasIDToken)
  }

  lemma FlowShaped(s: set<Str>, flow: Flow)
    requires Supported(s) && FlowOf(flow, s)
    ensures FlowShape(flow)
  {
  }

  /** `params += "&k=" + v` */
  method AddRaw(text: Str, ghost ps: seq<Pair>, k: Str, v: Str) returns (r: Str, ghost qs: seq<Pair>)
    requires ps != [] && text == RawText(ps)
    ensures qs == ps + [(k, v)] && r == RawText(qs)
  {
    RawAppend(ps, [(k, v)]);
    r := text + "&" + k + "=" + v;
    qs := ps + [(k, v)];
  }

  method HybridParams(flow: Flow, state: Str, m: Minted) returns (text: Str)
    requires flow.bareToken || flow.hasIDToken
    ensures text == RawText(Answer(true, flow.bareToken, flow.hasIDToken, state, m))
  {
    ghost var ps: seq<Pair>;
    text, ps := CODE_KEY + "=" + m.code, [(CODE_KEY, m.code)];
    text, ps := AddRaw(text, ps, STATE_KEY, state);
    text, ps := AddRaw(text, ps, TOKEN_TYPE_NAME, BEARER);
    text, ps := AddRaw(text, ps, EXPIRES_IN_NAME, m.expiresIn);
    if flow.bareToken {
      text, ps := AddRaw(text, ps, ACCESS_TOKEN_NAME, m.accessToken);
    }
    if flow.hasIDToken {
      text, ps := AddRaw(text, ps, ID_TOKEN, m.idToken);
    }
    assert ps == Answer(true, flow.bareToken, flow.hasIDToken, state, m);
  }

  /** The text of each branch. */
  method Params(flow: Flow, state: Str, m: Minted) returns (text: Str)
    requires FlowShape(flow)
    ensures text == RawText(Answer(flow.hasCode, flow.bareToken, flow.hasIDToken, state, m))
  {
    ghost var ps: seq<Pair>;
    if flow.hybrid {
      text := HybridParams(flow, state, m);
      return;
    } else if flow.bareToken && flow.hasIDToken {
      text, ps := ACCESS_TOKEN_NAME + "=" + m.accessToken, [(ACCESS_TOKEN_NAME, m.accessToken)];
      text, ps := AddRaw(text, ps, ID_TOKEN, m.idToken);
      text, ps := AddRaw(text, ps, TOKEN_TYPE_NAME, BEARER);
      text, ps := AddRaw(text, ps, EXPIRES_IN_NAME, m.expiresIn);
      text, ps := AddRaw(text, ps, STATE_KEY, state);
    } else if flow.codeOnly {
      text, ps := CODE_KEY + "=" + m.code, [(CODE_KEY, m.code)];
      text, ps := AddRaw(text, ps, STATE_KEY, state);
    } else if flow.hasIDToken {
      text, ps := ID_TOKEN + "=" + m.idToken, [(ID_TOKEN, m.idToken)];
      text, ps := AddRaw(text, ps, STATE_KEY, state);
    } else {
      text, ps := ACCESS_TOKEN_NAME + "=" + m.accessToken, [(ACCESS_TOKEN_NAME, m.accessToken)];
      text, ps := AddRaw(text, ps, TOKEN_TYPE_NAME, BEARER);
      text, ps := AddRaw(text, ps, EXPIRES_IN_NAME, m.expiresIn);
      text, ps := AddRaw(text, ps, STATE_KEY, state);
    }
    assert ps == Answer(flow.hasCode, flow.bareToken, flow.hasIDToken, state, m);
  }

  /** The map of each branch. */
  method Contents(flow: Flow, state: Str, m: Minted) returns (res: map<Param, Str>)
    requires FlowShape(flow)
    ensures forall p :: p in res <==> Wanted(flow.hasCode, flow.bareToken, flow.hasIDToken, p)
    ensures forall p :: p in res ==> res[p] == ValueOf(m, state, p)
  {
    if flow.hybrid {
      res := map[PCode := m.code, PState := state, PTokenType := BEARER, PExpiresIn := m.expiresIn];
      if flow.bareToken {
        res := res[PAccessToken := m.accessToken];
      }
      if flow.hasIDToken {
        res := res[PIDToken := m.idToken];
      }
    } else if flow.bareToken && flow.hasIDToken {
      res := map[PAccessToken := m.accessToken, PIDToken := m.idToken, PState := state,
                 PTokenType := BEARER, PExpiresIn := m.expiresIn];
    } else if flow.codeOnly {
      res := map[PCode := m.code, PState := state];
    } else if flow.hasIDToken {
      res := map[PIDToken := m.idToken, PState := state];
    } else {
      res := map[PAccessToken := m.accessToken, PState := state, PTokenType := BEARER, PExpiresIn := m.expiresIn];
    }
    forall p: Param
      ensures p in res <==> Wanted(flow.hasCode, flow.bareToken, flow.hasIDToken, p)
    {
      match p
      case PCode =>
      case PState =>
      case PTokenType =>
      case PExpiresIn =>
      case PAccessToken =>
      case PIDToken =>
    }
  }

  /** A page posts exactly the wanted parameters; a client reads them in a redirect exactly when the state survives. */
  ghost predicate Delivers(d: Delivery, s: set<Str>, mode: Mode, redirectURI: Str, state: Str, m: Minted) {
    match d
    case Redirected(location) =>
      && (mode.Query? ==> s == {CODE}) && (mode.Query? || mode.Fragment?)
      && redirectURI <= location
      && var a := Answer(CODE in s, TOKEN in s, ID_TOKEN in s, state, m);
         Reads(mode, location) == Reads(mode, redirectURI) + a <==> Survives(mode, redirectURI, state)
    case PostedMessage(target, response) => mode.WebMessage? && target == redirectURI && Posts(response, s, state, m)
    case PostedForm(target, response) => mode.FormPost? && target == redirectURI && Posts(response, s, state, m)
  }

  ghost predicate Posts(response: map<Param, Str>, s: set<Str>, state: Str, m: Minted) {
    && (forall p :: p in response <==> Wanted(CODE in s, TOKEN in s, ID_TOKEN in s, p))
    && forall p :: p in response ==> response[p] == ValueOf(m, state, p)
  }

  /**
    The response of an accepted request. What the client gets are the code, the
    access token and the ID token its response type names, with its own state;
    no token is ever put in a query string.
   */
  method BuildResponse(ghost s: set<Str>, flow: Flow, mode: Mode, redirectURI: Str, state: Str, m: Minted)
    returns (d: Delivery)
    requires Supported(s) && FlowOf(flow, s) && KnownMode(mode) && (mode.Query? ==> s == {CODE}) && PlainMinted(m)
    ensures Delivers(d, s, mode, redirectURI, state, m)
  {
    FlowShaped(s, flow);
    var params := Params(flow, state, m);
    var res := Contents(flow, state, m);
    // handleResponse for a success
    match mode
    case WebMessage => d := PostedMessage(redirectURI, res);
    case FormPost => d := PostedForm(redirectURI, res);
    case _ =>
      DeliveredExactly(mode, redirectURI, flow.hasCode, flow.bareToken, flow.hasIDToken, state, m);
      d := Redirected(Location(mode, redirectURI, params));
  }
}
