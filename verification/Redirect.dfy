/**
  Which redirect URIs a client may use (redirectURIMatches of
  internal/http_handlers/authorize.go, internal/http_handlers/client_redirect.go)
  and how an accepted one travels to the login page, which checks it again
  (internal/http_handlers/app.go).
 */
module Redirect {
  import opened Text
  import opened Escape
  import opened Form

  /** What url.Parse yields; parsing itself is a parameter of the model. */
  datatype Url = Url(scheme: Str, host: Str, hostname: Str, path: Str, rawQuery: Str, fragment: Str, hasUser: bool)

  type Parser = Str -> Option<Url>

  const LOOPBACK_V4: Str := "127.0.0.1"
  const LOOPBACK_V6: Str := "::1"
  const LOCALHOST: Str := "localhost"

  predicate IsLoopbackHost(host: Str) {
    host == LOOPBACK_V4 || host == LOOPBACK_V6 || host == LOCALHOST
  }

  /** redirectURIMatches: the same text, or loopback URIs that differ in the port only. */
  predicate Matches(parse: Parser, registered: Str, presented: Str) {
    registered == presented ||
    match (parse(registered), parse(presented))
    case (Some(r), Some(p)) =>
      && IsLoopbackHost(r.hostname) && IsLoopbackHost(p.hostname)
      && !(r.fragment != [] || p.fragment != [] || r.hasUser || p.hasUser)
      && r.scheme == p.scheme && r.hostname == p.hostname && r.path == p.path && r.rawQuery == p.rawQuery
    case _ => false
  }

  /** A loopback URI with neither fragment nor userinfo: the only kind whose port may vary. */
  ghost predicate PortVaries(parse: Parser, uri: Str) {
    match parse(uri)
    case Some(u) => u.hostname in {"localhost", "127.0.0.1", "::1"} && u.fragment == [] && !u.hasUser
    case None => false
  }

  /** Matching sorts all strings into classes. */
  lemma MatchesEquivalence(parse: Parser, a: Str, b: Str, c: Str)
    ensures Matches(parse, a, a)
    ensures Matches(parse, a, b) <==> Matches(parse, b, a)
    ensures Matches(parse, a, b) && Matches(parse, b, c) ==> Matches(parse, a, c)
  {
  }

  /** The class of any other URI is that URI alone; a loopback class fixes everything but the port. */
  lemma MatchClasses(parse: Parser, a: Str, b: Str)
    ensures !PortVaries(parse, a) ==> (Matches(parse, a, b) <==> a == b)
    ensures PortVaries(parse, a) && Matches(parse, a, b) ==>
              && PortVaries(parse, b)
              && parse(a).value.scheme == parse(b).value.scheme && parse(a).value.hostname == parse(b).value.hostname
              && parse(a).value.path == parse(b).value.path && parse(a).value.rawQuery == parse(b).value.rawQuery
    ensures PortVaries(parse, a) && PortVaries(parse, b)
            && parse(a).value.scheme == parse(b).value.scheme && parse(a).value.hostname == parse(b).value.hostname
            && parse(a).value.path == parse(b).value.path && parse(a).value.rawQuery == parse(b).value.rawQuery
            ==> Matches(parse, a, b)
  {
  }

  predicate MatchesAny(parse: Parser, registered: seq<Str>, presented: Str) {
    exists i :: 0 <= i < |registered| && Matches(parse, registered[i], presented)
  }

  function Trimmed(list: seq<Str>): seq<Str> {
    if list == [] then []
    else (if TrimSpace(list[0]) != [] then [TrimSpace(list[0])] else []) + Trimmed(list[1..])
  }

  lemma {:induction false} TrimmedExact(list: seq<Str>, v: Str)
    ensures v in Trimmed(list) <==> v != [] && exists i :: 0 <= i < |list| && TrimSpace(list[i]) == v
  {
    if list != [] {
      TrimmedExact(list[1..], v);
      if v in Trimmed(list[1..]) {
        var i :| 0 <= i < |list[1..]| && TrimSpace(list[1..][i]) == v;
      }
    }
  }

  lemma {:induction false} TrimmedAppend(a: seq<Str>, v: Str)
    ensures Trimmed(a + [v]) == Trimmed(a) + if TrimSpace(v) != [] then [TrimSpace(v)] else []
  {
    if a != [] {
      assert (a + [v])[1..] == a[1..] + [v];
      TrimmedAppend(a[1..], v);
    }
  }

  const APP_PATH: Str := "/app"

  /** Where the answer goes when the request names no redirect URI. */
  function OrApp(given: Str): Str { if given == [] then APP_PATH else given }

  /** trimmed */
  method TrimList(list: seq<Str>) returns (out: seq<Str>)
    ensures out == Trimmed(list)
  {
    out := [];
    for i := 0 to |list|
      invariant out == Trimmed(list[..i])
    {
      var v := TrimSpace(list[i]);
      if v != [] {
        out := out + [v];
      }
      TrimmedAppend(list[..i], list[i]);
      assert list[..i + 1] == list[..i] + [list[i]];
    }
    assert list[..|list|] == list;
  }

  // ---------------------------------------------------------------- the client's rule

  /** GetClientByClientID: a fault, no row, or a row with its registered redirect URIs. */
  datatype Lookup = Unavailable | Absent | Row(dynamic: bool, redirectURIs: seq<Str>)

  /** Configuration, client registry and metadata documents, fixed while a request is checked. */
  datatype Registry = Registry(
    parse: Parser,
    originAllowed: Str -> bool,               // validators.IsValidRedirectURI against AllowedOrigins
    configured: seq<Str>,                     // --redirect-uris
    reservedID: Str,                          // --client-id
    metadata: Option<Str -> Option<seq<Str>>>, // redirect_uris of a document, None when it does not resolve
    isMetadataID: Str -> bool,                // IsMetadataClientIDFor
    rows: Str -> Lookup)

  datatype Check = Unresolvable | CannotCheck | Checked(valid: bool, selfRegistered: bool)

  /** checkClientRedirectURI */
  function CheckRedirect(r: Registry, clientID: Str, uri: Str): Check {
    if clientID == [] then Checked(r.originAllowed(uri), false)
    else if Trimmed(r.configured) != [] && clientID == TrimSpace(r.reservedID) then
      Checked(MatchesAny(r.parse, Trimmed(r.configured), uri), false)
    else if r.metadata.Some? && r.isMetadataID(clientID) then
      match r.metadata.value(clientID)
      case Some(uris) => Checked(MatchesAny(r.parse, uris, uri), false)
      case None => Unresolvable
    else match r.rows(clientID)
      case Unavailable => CannotCheck
      case Absent => Checked(r.originAllowed(uri), false)
      case Row(dynamic, uris) =>
        Checked(if |uris| > 0 then MatchesAny(r.parse, uris, uri) else r.originAllowed(uri), dynamic)
  }

  /** The list a client is held to, when it has registered one. */
  function RegisteredList(r: Registry, clientID: Str): Option<seq<Str>> {
    if clientID == [] then None
    else if Trimmed(r.configured) != [] && clientID == TrimSpace(r.reservedID) then Some(Trimmed(r.configured))
    else if r.metadata.Some? && r.isMetadataID(clientID) then r.metadata.value(clientID)
    else match r.rows(clientID)
      case Row(_, uris) => if |uris| > 0 then Some(uris) else None
      case _ => None
  }

  /** A client with a registered list is accepted exactly on the union of the classes of its entries. */
  lemma RegisteredClientExact(r: Registry, clientID: Str, uri: Str)
    requires RegisteredList(r, clientID).Some?
    ensures CheckRedirect(r, clientID, uri).Checked?
    ensures CheckRedirect(r, clientID, uri).valid <==>
            exists e :: e in RegisteredList(r, clientID).value && Matches(r.parse, e, uri)
    ensures forall v :: Matches(r.parse, uri, v) ==>
              CheckRedirect(r, clientID, v) == CheckRedirect(r, clientID, uri)
  {
  }

  /** The deployment's own client, when its redirect URIs are configured. */
  ghost predicate ReservedClient(r: Registry, clientID: Str) {
    clientID != [] && clientID == TrimSpace(r.reservedID) && exists v :: v in r.configured && TrimSpace(v) != []
  }

  ghost predicate DocumentClient(r: Registry, clientID: Str) {
    clientID != [] && !ReservedClient(r, clientID) && r.metadata.Some? && r.isMetadataID(clientID)
  }

  /** A client that has nothing but its row, if it has that. */
  ghost predicate RowClient(r: Registry, clientID: Str) {
    clientID != [] && !ReservedClient(r, clientID) && !DocumentClient(r, clientID)
  }

  /** The redirect URIs a client may use, from the registry alone. */
  ghost predicate MayUse(r: Registry, clientID: Str, uri: Str) {
    if ReservedClient(r, clientID) then exists v :: v in r.configured && TrimSpace(v) != [] && Matches(r.parse, TrimSpace(v), uri)
    else if DocumentClient(r, clientID) then
      r.metadata.value(clientID).Some? && exists e :: e in r.metadata.value(clientID).value && Matches(r.parse, e, uri)
    else if RowClient(r, clientID) && r.rows(clientID).Row? && r.rows(clientID).redirectURIs != [] then
      exists e :: e in r.rows(clientID).redirectURIs && Matches(r.parse, e, uri)
    else !(RowClient(r, clientID) && r.rows(clientID).Unavailable?) && r.originAllowed(uri)
  }

  /**
    What the check says. It has no answer exactly for a document that does not
    resolve and for a row that cannot be read; it says self-registered exactly of
    a client whose row is dynamic; and it accepts exactly what the client may use.
   */
  lemma CheckExact(r: Registry, clientID: Str, uri: Str)
    ensures var check := CheckRedirect(r, clientID, uri);
            && (check == Unresolvable <==> DocumentClient(r, clientID) && r.metadata.value(clientID).None?)
            && (check == CannotCheck <==> RowClient(r, clientID) && r.rows(clientID).Unavailable?)
            && (check.Checked? && check.selfRegistered <==>
                RowClient(r, clientID) && r.rows(clientID).Row? && r.rows(clientID).dynamic)
            && (check.Checked? && check.valid <==> MayUse(r, clientID, uri))
  {
    TrimmedNothing(r.configured);
    TrimmedMatches(r, uri);
  }

  lemma TrimmedMatches(r: Registry, uri: Str)
    ensures MatchesAny(r.parse, Trimmed(r.configured), uri) <==>
            exists v :: v in r.configured && TrimSpace(v) != [] && Matches(r.parse, TrimSpace(v), uri)
  {
    if MatchesAny(r.parse, Trimmed(r.configured), uri) {
      var i :| 0 <= i < |Trimmed(r.configured)| && Matches(r.parse, Trimmed(r.configured)[i], uri);
      TrimmedExact(r.configured, Trimmed(r.configured)[i]);
    }
    forall v | v in r.configured && TrimSpace(v) != [] && Matches(r.parse, TrimSpace(v), uri)
      ensures MatchesAny(r.parse, Trimmed(r.configured), uri)
    {
      TrimmedExact(r.configured, TrimSpace(v));
    }
  }

  lemma TrimmedNothing(list: seq<Str>)
    ensures Trimmed(list) != [] <==> exists v :: v in list && TrimSpace(v) != []
  {
    if Trimmed(list) != [] {
      TrimmedExact(list, Trimmed(list)[0]);
    }
    forall v | v in list && TrimSpace(v) != []
      ensures Trimmed(list) != []
    {
      TrimmedExact(list, TrimSpace(v));
    }
  }

  // ---------------------------------------------------------------- the way to the login page

  /** What /authorize tells the login page about the request. */
  datatype Detour = Detour(state: Str, scope: Str, redirectURI: Str, mode: Str, responseType: Str, clientID: Str,
    loginHint: Str, uiLocales: Str, nonce: Str, challenge: Str, challengeMethod: Str, resource: Str, code: Str)

  function Given(k: Str, v: Str): seq<Pair> { if v != [] then [(k, v)] else [] }

  function RequiredPairs(d: Detour): seq<Pair> {
    [(STATE_KEY, d.state), (SCOPE_KEY, d.scope), (REDIRECT_KEY, d.redirectURI),
     (MODE_KEY, d.mode), (TYPE_KEY, d.responseType), (CLIENT_KEY, d.clientID)]
  }

  function ForwardedPairs(d: Detour): seq<Pair> {
    Given(HINT_KEY, d.loginHint) + Given(LOCALES_KEY, d.uiLocales) + [(NONCE_KEY, d.nonce)]
  }

  function ChallengePairs(d: Detour): seq<Pair> {
    if d.challenge != [] then [(CHALLENGE_KEY, d.challenge), (METHOD_KEY, d.challengeMethod)] else []
  }

  function DetourPairs(d: Detour): seq<Pair> {
    RequiredPairs(d) + ForwardedPairs(d) + ChallengePairs(d) + Given(RESOURCE_KEY, d.resource) + Given(CODE_KEY, d.code)
  }

  lemma {:induction false} EscapeNothing(s: Str)
    requires forall i :: 0 <= i < |s| ==> Unreserved(s[i])
    ensures QueryEscape(s) == s
  {
    if s != [] {
      EscapeNothing(s[1..]);
    }
  }

  lemma {:induction false} EncodeSnoc(ps: seq<Pair>, p: Pair)
    requires ps != []
    ensures EncodePairs(ps + [p]) == EncodePairs(ps) + "&" + EncodePair(p)
  {
    assert (ps + [p])[1..] == ps[1..] + [p];
    if |ps| > 1 {
      EncodeSnoc(ps[1..], p);
    }
  }

  predicate PlainText(s: Str) { forall i :: 0 <= i < |s| ==> Unreserved(s[i]) }

  lemma ParamText(ps: seq<Pair>, k: Str, v: Str, escaped: Str)
    requires ps != [] && PlainText(k) && escaped == QueryEscape(v)
    ensures EncodePairs(ps + [(k, v)]) == EncodePairs(ps) + "&" + k + "=" + escaped
  {
    EscapeNothing(k);
    EncodeSnoc(ps, (k, v));
  }

  /** `s += "&k=" + url.QueryEscape(v)`, on a text that already holds parameters. */
  method AddParam(s: Str, ghost ps: seq<Pair>, k: Str, v: Str) returns (r: Str, ghost qs: seq<Pair>)
    requires ps != [] && s == EncodePairs(ps) && PlainText(k)
    ensures qs == ps + [(k, v)] && r == EncodePairs(qs)
  {
    var escaped := QueryEscape(v);
    ParamText(ps, k, v, escaped);
    r := s + "&" + k + "=" + escaped;
    qs := ps + [(k, v)];
  }

  /** Optional parameters of the authState text. */
  method AddGiven(s: Str, ghost ps: seq<Pair>, k: Str, v: Str) returns (r: Str, ghost qs: seq<Pair>)
    requires ps != [] && s == EncodePairs(ps) && PlainText(k)
    ensures qs == ps + Given(k, v) && r == EncodePairs(qs)
  {
    r, qs := s, ps;
    if v != [] {
      r, qs := AddParam(s, ps, k, v);
    }
  }

  lemma KeysPlain()
    ensures PlainText(STATE_KEY) && PlainText(SCOPE_KEY) && PlainText(REDIRECT_KEY) && PlainText(MODE_KEY)
    ensures PlainText(TYPE_KEY) && PlainText(CLIENT_KEY) && PlainText(HINT_KEY) && PlainText(LOCALES_KEY)
    ensures PlainText(NONCE_KEY) && PlainText(CHALLENGE_KEY) && PlainText(METHOD_KEY) && PlainText(RESOURCE_KEY)
    ensures PlainText(CODE_KEY)
  {
  }

  method FirstParam(k: Str, v: Str) returns (s: Str)
    requires PlainText(k)
    ensures s == EncodePairs([(k, v)])
  {
    EscapeNothing(k);
    s := k + "=" + QueryEscape(v);
  }

  method RequiredParams(d: Detour) returns (s: Str)
    ensures s == EncodePairs(RequiredPairs(d))
  {
    KeysPlain();
    s := FirstParam(STATE_KEY, d.state);
    ghost var ps := [(STATE_KEY, d.state)];
    s, ps := AddParam(s, ps, SCOPE_KEY, d.scope);
    s, ps := AddParam(s, ps, REDIRECT_KEY, d.redirectURI);
    s, ps := AddParam(s, ps, MODE_KEY, d.mode);
    s, ps := AddParam(s, ps, TYPE_KEY, d.responseType);
    s, ps := AddParam(s, ps, CLIENT_KEY, d.clientID);
    assert ps == RequiredPairs(d);
  }

  method AddForwarded(s: Str, ghost ps: seq<Pair>, d: Detour) returns (r: Str, ghost qs: seq<Pair>)
    requires ps != [] && s == EncodePairs(ps)
    ensures qs == ps + ForwardedPairs(d) && r == EncodePairs(qs)
  {
    KeysPlain();
    r, qs := AddGiven(s, ps, HINT_KEY, d.loginHint);
    r, qs := AddGiven(r, qs, LOCALES_KEY, d.uiLocales);
    r, qs := AddParam(r, qs, NONCE_KEY, d.nonce);
  }

  method AddChallenge(s: Str, ghost ps: seq<Pair>, d: Detour) returns (r: Str, ghost qs: seq<Pair>)
    requires ps != [] && s == EncodePairs(ps)
    ensures qs == ps + ChallengePairs(d) && r == EncodePairs(qs)
  {
    KeysPlain();
    r, qs := s, ps;
    if d.challenge != [] {
      r, qs := AddParam(r, qs, CHALLENGE_KEY, d.challenge);
      r, qs := AddParam(r, qs, METHOD_KEY, d.challengeMethod);
    }
  }

  /** The code is a UUID and is appended as it is. */
  method AddCode(s: Str, ghost ps: seq<Pair>, k: Str, code: Str) returns (r: Str, ghost qs: seq<Pair>)
    requires ps != [] && s == EncodePairs(ps) && PlainText(k) && PlainText(code)
    ensures qs == ps + Given(k, code) && r == EncodePairs(qs)
  {
    r, qs := s, ps;
    if code != [] {
      EscapeNothing(code);
      ParamText(ps, k, code, code);
      r := s + "&" + k + "=" + code;
      qs := ps + [(k, code)];
    }
  }

  /** The authState text of /authorize. */
  method AuthState(d: Detour) returns (s: Str)
    requires PlainText(d.code)
    ensures s == EncodePairs(DetourPairs(d))
  {
    KeysPlain();
    s := RequiredParams(d);
    ghost var ps := RequiredPairs(d);
    s, ps := AddForwarded(s, ps, d);
    s, ps := AddChallenge(s, ps, d);
    s, ps := AddGiven(s, ps, RESOURCE_KEY, d.resource);
    s, ps := AddCode(s, ps, CODE_KEY, d.code);
  }

  /** The first pair with a key decides what the page reads for it. */
  lemma FirstPairRead(ps: seq<Pair>, k: Str, i: nat)
    requires i < |ps| && ps[i].0 == k && forall j :: 0 <= j < i ==> ps[j].0 != k
    ensures FormValue(Collect(ps), k) == ps[i].1
  {
    FirstValueOf(ps, k, i);
  }

  lemma {:induction false} FirstValueOf(ps: seq<Pair>, k: Str, i: nat)
    requires i < |ps| && ps[i].0 == k && forall j :: 0 <= j < i ==> ps[j].0 != k
    ensures ValuesOf(ps, k) != [] && ValuesOf(ps, k)[0] == ps[i].1
  {
    if i > 0 {
      FirstValueOf(ps[1..], k, i - 1);
    }
  }

  /** How /app reads one of its parameters. */
  function AppParam(query: Str, k: Str): Str { TrimSpace(FormValue(Parsed(query), k)) }

  lemma PrefixRead(ps: seq<Pair>, more: seq<Pair>, k: Str, i: nat)
    requires i < |ps| && ps[i].0 == k && forall j :: 0 <= j < i ==> ps[j].0 != k
    ensures FormValue(Parsed(EncodePairs(ps + more)), k) == ps[i].1
  {
    PairsRoundTrip(ps + more);
    FirstPairRead(ps + more, k, i);
  }

  ghost predicate Lacks(ps: seq<Pair>, k: Str) { forall p :: p in ps ==> p.0 != k }

  function FirstOf(vs: seq<Str>): Str { if vs == [] then [] else vs[0] }

  /** A parameter that only one piece of a query may give is read from that piece. */
  lemma PieceRead(before: seq<Pair>, piece: seq<Pair>, after: seq<Pair>, k: Str)
    requires Lacks(before, k) && Lacks(after, k)
    ensures FormValue(Parsed(EncodePairs(before + piece + after)), k) == FirstOf(ValuesOf(piece, k))
  {
    var all := before + piece + after;
    PairsRoundTrip(all);
    ValuesAppend(before + piece, after, k);
    ValuesAppend(before, piece, k);
    ValuesAbsent(before, k);
    ValuesAbsent(after, k);
    ValuesAbsent(all, k);
  }

  lemma AllRead(ps: seq<Pair>, more: seq<Pair>)
    requires forall i, j :: 0 <= i < j < |ps| ==> ps[i].0 != ps[j].0
    ensures forall i :: 0 <= i < |ps| ==> FormValue(Parsed(EncodePairs(ps + more)), ps[i].0) == ps[i].1
  {
    forall i | 0 <= i < |ps|
      ensures FormValue(Parsed(EncodePairs(ps + more)), ps[i].0) == ps[i].1
    {
      PrefixRead(ps, more, ps[i].0, i);
    }
  }

  /** No two of the names are the same. */
  lemma RequiredApart(d: Detour)
    ensures var ps := RequiredPairs(d); forall i, j :: 0 <= i < j < |ps| ==> ps[i].0 != ps[j].0
  {
    assert STATE_KEY[1] != SCOPE_KEY[1];
    assert MODE_KEY[9] != TYPE_KEY[9];
  }

  lemma NamesApart(d: Detour)
    ensures Lacks(RequiredPairs(d), HINT_KEY) && Lacks(RequiredPairs(d), LOCALES_KEY) && Lacks(RequiredPairs(d), NONCE_KEY)
    ensures Lacks(RequiredPairs(d), RESOURCE_KEY) && Lacks(RequiredPairs(d), CODE_KEY)
    ensures Lacks(RequiredPairs(d), CHALLENGE_KEY) && Lacks(RequiredPairs(d), METHOD_KEY)
  {
    assert NONCE_KEY[0] != STATE_KEY[0];
    assert NONCE_KEY[0] != SCOPE_KEY[0];
  }

  lemma LaterNamesApart(d: Detour)
    ensures HINT_KEY != LOCALES_KEY && HINT_KEY != NONCE_KEY && LOCALES_KEY != NONCE_KEY && RESOURCE_KEY != CODE_KEY
    ensures HINT_KEY != CHALLENGE_KEY && HINT_KEY != METHOD_KEY && HINT_KEY != RESOURCE_KEY && HINT_KEY != CODE_KEY
    ensures LOCALES_KEY != CHALLENGE_KEY && LOCALES_KEY != METHOD_KEY && LOCALES_KEY != RESOURCE_KEY && LOCALES_KEY != CODE_KEY
    ensures NONCE_KEY != CHALLENGE_KEY && NONCE_KEY != METHOD_KEY && NONCE_KEY != RESOURCE_KEY && NONCE_KEY != CODE_KEY
    ensures CHALLENGE_KEY != METHOD_KEY && CHALLENGE_KEY != RESOURCE_KEY && CHALLENGE_KEY != CODE_KEY
    ensures METHOD_KEY != RESOURCE_KEY && METHOD_KEY != CODE_KEY
  {
    assert HINT_KEY[0] != LOCALES_KEY[0];
  }

  function Behind(d: Detour): seq<Pair> { Given(RESOURCE_KEY, d.resource) + Given(CODE_KEY, d.code) }

  lemma RequiredRead(d: Detour)
    ensures var q := EncodePairs(DetourPairs(d));
            && AppParam(q, STATE_KEY) == TrimSpace(d.state) && AppParam(q, SCOPE_KEY) == TrimSpace(d.scope)
            && AppParam(q, REDIRECT_KEY) == TrimSpace(d.redirectURI) && AppParam(q, MODE_KEY) == TrimSpace(d.mode)
            && AppParam(q, TYPE_KEY) == TrimSpace(d.responseType) && AppParam(q, CLIENT_KEY) == TrimSpace(d.clientID)
  {
    var ps, more := RequiredPairs(d), DetourPairs(d)[6..];
    assert DetourPairs(d) == ps + more;
    RequiredApart(d);
    AllRead(ps, more);
    assert ps[0] == (STATE_KEY, d.state) && ps[1] == (SCOPE_KEY, d.scope) && ps[2] == (REDIRECT_KEY, d.redirectURI);
    assert ps[3] == (MODE_KEY, d.mode) && ps[4] == (TYPE_KEY, d.responseType) && ps[5] == (CLIENT_KEY, d.clientID);
  }

  lemma ForwardedValues(d: Detour)
    ensures FirstOf(ValuesOf(ForwardedPairs(d), HINT_KEY)) == d.loginHint
    ensures FirstOf(ValuesOf(ForwardedPairs(d), LOCALES_KEY)) == d.uiLocales
    ensures FirstOf(ValuesOf(ForwardedPairs(d), NONCE_KEY)) == d.nonce
  {
    LaterNamesApart(d);
    var hint, locales, nonce := Given(HINT_KEY, d.loginHint), Given(LOCALES_KEY, d.uiLocales), [(NONCE_KEY, d.nonce)];
    ThreeValues(hint, locales, nonce, HINT_KEY);
    ThreeValues(hint, locales, nonce, LOCALES_KEY);
    ThreeValues(hint, locales, nonce, NONCE_KEY);
  }

  lemma ThreeValues(a: seq<Pair>, b: seq<Pair>, c: seq<Pair>, k: Str)
    ensures ValuesOf(a + b + c, k) == ValuesOf(a, k) + ValuesOf(b, k) + ValuesOf(c, k)
  {
    ValuesAppend(a + b, c, k);
    ValuesAppend(a, b, k);
  }

  lemma BehindValues(d: Detour)
    ensures FirstOf(ValuesOf(Behind(d), RESOURCE_KEY)) == d.resource
    ensures FirstOf(ValuesOf(Behind(d), CODE_KEY)) == d.code
  {
    LaterNamesApart(d);
    ValuesAppend(Given(RESOURCE_KEY, d.resource), Given(CODE_KEY, d.code), RESOURCE_KEY);
    ValuesAppend(Given(RESOURCE_KEY, d.resource), Given(CODE_KEY, d.code), CODE_KEY);
  }

  lemma ChallengeValues(d: Detour)
    ensures FirstOf(ValuesOf(ChallengePairs(d), CHALLENGE_KEY)) == d.challenge
    ensures d.challenge != [] ==> FirstOf(ValuesOf(ChallengePairs(d), METHOD_KEY)) == d.challengeMethod
  {
    LaterNamesApart(d);
  }

  lemma ForwardedLacks(d: Detour, k: Str)
    requires k != HINT_KEY && k != LOCALES_KEY && k != NONCE_KEY
    ensures Lacks(ForwardedPairs(d), k)
  {
  }

  lemma ChallengeLacks(d: Detour, k: Str)
    requires k != CHALLENGE_KEY && k != METHOD_KEY
    ensures Lacks(ChallengePairs(d), k)
  {
  }

  lemma BehindLacks(d: Detour, k: Str)
    requires k != RESOURCE_KEY && k != CODE_KEY
    ensures Lacks(Behind(d), k)
  {
  }

  /** The query is read piece by piece. */
  lemma PiecesRead(d: Detour, k: Str)
    requires Lacks(RequiredPairs(d), k)
    ensures var v := FormValue(Parsed(EncodePairs(DetourPairs(d))), k);
            && (Lacks(ChallengePairs(d), k) && Lacks(Behind(d), k) ==> v == FirstOf(ValuesOf(ForwardedPairs(d), k)))
            && (Lacks(ForwardedPairs(d), k) && Lacks(Behind(d), k) ==> v == FirstOf(ValuesOf(ChallengePairs(d), k)))
            && (Lacks(ForwardedPairs(d), k) && Lacks(ChallengePairs(d), k) ==> v == FirstOf(ValuesOf(Behind(d), k)))
  {
    var a, b, c, e := RequiredPairs(d), ForwardedPairs(d), ChallengePairs(d), Behind(d);
    assert DetourPairs(d) == a + b + c + e;
    FourPieces(a, b, c, e, k);
  }

  lemma FourPieces(a: seq<Pair>, b: seq<Pair>, c: seq<Pair>, e: seq<Pair>, k: Str)
    requires Lacks(a, k)
    ensures var v := FormValue(Parsed(EncodePairs(a + b + c + e)), k);
            && (Lacks(c, k) && Lacks(e, k) ==> v == FirstOf(ValuesOf(b, k)))
            && (Lacks(b, k) && Lacks(e, k) ==> v == FirstOf(ValuesOf(c, k)))
            && (Lacks(b, k) && Lacks(c, k) ==> v == FirstOf(ValuesOf(e, k)))
  {
    if Lacks(c, k) && Lacks(e, k) {
      assert a + b + c + e == a + b + (c + e);
      PieceRead(a, b, c + e, k);
    }
    if Lacks(b, k) && Lacks(e, k) {
      PieceRead(a + b, c, e, k);
    }
    if Lacks(b, k) && Lacks(c, k) {
      assert a + b + c + e == a + b + c + e + [];
      PieceRead(a + b + c, e, [], k);
    }
  }

  lemma ForwardedRead(d: Detour)
    ensures var q := EncodePairs(DetourPairs(d));
            && AppParam(q, HINT_KEY) == TrimSpace(d.loginHint) && AppParam(q, LOCALES_KEY) == TrimSpace(d.uiLocales)
            && AppParam(q, NONCE_KEY) == TrimSpace(d.nonce)
  {
    NamesApart(d);
    LaterNamesApart(d);
    ForwardedValues(d);
    ForwardedReadOf(d, HINT_KEY);
    ForwardedReadOf(d, LOCALES_KEY);
    ForwardedReadOf(d, NONCE_KEY);
  }

  lemma ForwardedReadOf(d: Detour, k: Str)
    requires Lacks(RequiredPairs(d), k) && k != CHALLENGE_KEY && k != METHOD_KEY && k != RESOURCE_KEY && k != CODE_KEY
    ensures FormValue(Parsed(EncodePairs(DetourPairs(d))), k) == FirstOf(ValuesOf(ForwardedPairs(d), k))
  {
    ChallengeLacks(d, k);
    BehindLacks(d, k);
    PiecesRead(d, k);
  }

  lemma BehindRead(d: Detour)
    ensures var q := EncodePairs(DetourPairs(d));
            AppParam(q, RESOURCE_KEY) == TrimSpace(d.resource) && AppParam(q, CODE_KEY) == TrimSpace(d.code)
  {
    NamesApart(d);
    LaterNamesApart(d);
    BehindValues(d);
    BehindReadOf(d, RESOURCE_KEY);
    BehindReadOf(d, CODE_KEY);
  }

  lemma BehindReadOf(d: Detour, k: Str)
    requires Lacks(RequiredPairs(d), k)
    requires k != CHALLENGE_KEY && k != METHOD_KEY && k != HINT_KEY && k != LOCALES_KEY && k != NONCE_KEY
    ensures FormValue(Parsed(EncodePairs(DetourPairs(d))), k) == FirstOf(ValuesOf(Behind(d), k))
  {
    ChallengeLacks(d, k);
    ForwardedLacks(d, k);
    PiecesRead(d, k);
  }

  lemma ChallengeRead(d: Detour)
    ensures var q := EncodePairs(DetourPairs(d));
            && AppParam(q, CHALLENGE_KEY) == TrimSpace(d.challenge)
            && (d.challenge != [] ==> AppParam(q, METHOD_KEY) == TrimSpace(d.challengeMethod))
  {
    NamesApart(d);
    LaterNamesApart(d);
    ChallengeValues(d);
    ChallengeReadOf(d, CHALLENGE_KEY);
    ChallengeReadOf(d, METHOD_KEY);
  }

  lemma ChallengeReadOf(d: Detour, k: Str)
    requires Lacks(RequiredPairs(d), k)
    requires k != RESOURCE_KEY && k != CODE_KEY && k != HINT_KEY && k != LOCALES_KEY && k != NONCE_KEY
    ensures FormValue(Parsed(EncodePairs(DetourPairs(d))), k) == FirstOf(ValuesOf(ChallengePairs(d), k))
  {
    BehindLacks(d, k);
    ForwardedLacks(d, k);
    PiecesRead(d, k);
  }

  /** The login page reads, under their own names, all the parameters that /authorize passes on. */
  lemma DetourReadsAll(d: Detour)
    ensures var q := EncodePairs(DetourPairs(d));
            && AppParam(q, STATE_KEY) == TrimSpace(d.state) && AppParam(q, SCOPE_KEY) == TrimSpace(d.scope)
            && AppParam(q, REDIRECT_KEY) == TrimSpace(d.redirectURI) && AppParam(q, MODE_KEY) == TrimSpace(d.mode)
            && AppParam(q, TYPE_KEY) == TrimSpace(d.responseType) && AppParam(q, CLIENT_KEY) == TrimSpace(d.clientID)
            && AppParam(q, HINT_KEY) == TrimSpace(d.loginHint) && AppParam(q, LOCALES_KEY) == TrimSpace(d.uiLocales)
            && AppParam(q, NONCE_KEY) == TrimSpace(d.nonce) && AppParam(q, RESOURCE_KEY) == TrimSpace(d.resource)
            && AppParam(q, CODE_KEY) == TrimSpace(d.code) && AppParam(q, CHALLENGE_KEY) == TrimSpace(d.challenge)
            && (d.challenge != [] ==> AppParam(q, METHOD_KEY) == TrimSpace(d.challengeMethod))
  {
    RequiredRead(d);
    ForwardedRead(d);
    ChallengeRead(d);
    BehindRead(d);
  }

  /** A request as /authorize forwards it: trimmed, with the default in place of no redirect URI. */
  function AsRead(d: Detour): Detour {
    d.(redirectURI := OrApp(TrimSpace(d.redirectURI)), clientID := TrimSpace(d.clientID))
  }

  predicate Accepts(r: Registry, clientID: Str, uri: Str) {
    CheckRedirect(r, clientID, uri).Checked? && CheckRedirect(r, clientID, uri).valid
  }

  /** /authorize checks the redirect URI it is given; the login page checks the one that is forwarded. */
  predicate AuthorizeTakes(r: Registry, given: Detour) {
    var uri := TrimSpace(given.redirectURI);
    uri == [] || Accepts(r, TrimSpace(given.clientID), uri)
  }

  predicate AppTakes(r: Registry, query: Str) {
    var uri := AppParam(query, REDIRECT_KEY);
    uri == [] || Accepts(r, AppParam(query, CLIENT_KEY), uri)
  }

  /**
    A redirect URI that is given is judged by the login page as it was by
    /authorize, while the registry does not change. When none is given
    /authorize accepts, and the login page accepts exactly if the client may use
    the default.
   */
  lemma AppAcceptsAgain(r: Registry, given: Detour)
    ensures var q := EncodePairs(DetourPairs(AsRead(given)));
            if TrimSpace(given.redirectURI) != [] then AppTakes(r, q) <==> AuthorizeTakes(r, given)
            else AuthorizeTakes(r, given) && (AppTakes(r, q) <==> Accepts(r, TrimSpace(given.clientID), APP_PATH))
  {
    RequiredRead(AsRead(given));
    TrimIdempotent(given.redirectURI);
    TrimIdempotent(given.clientID);
    TrimNothing(APP_PATH);
  }
}
