/**
  How /authorize reads its form, and what it finds out about the client
  (internal/http_handlers/authorize.go and
  internal/http_handlers/client_redirect.go).
 */
module Reading {
  import opened Text
  import opened Form
  import opened ResponseType
  import opened Redirect
  import opened Authorize

  const QUERY_NAME: Str := "query"
  const FRAGMENT_NAME: Str := "fragment"
  const FORM_POST_NAME: Str := "form_post"
  const WEB_MESSAGE_NAME: Str := "web_message"
  const NONE_NAME: Str := "none"
  const LOGIN_NAME: Str := "login"
  const PLAIN_NAME: Str := "plain"
  const S256_NAME: Str := "S256"

  function Read(form: Values, k: Str): Str { TrimSpace(FormValue(form, k)) }

  function ModeNamed(s: Str): Mode {
    if s == [] then Unset
    else if s == QUERY_NAME then Query
    else if s == FRAGMENT_NAME then Fragment
    else if s == FORM_POST_NAME then FormPost
    else if s == WEB_MESSAGE_NAME then WebMessage
    else OtherMode(s)
  }

  function MethodNamed(s: Str): ChallengeMethod {
    if s == [] then NoMethod
    else if s == PLAIN_NAME then Plain
    else if s == S256_NAME then S256
    else OtherMethod(s)
  }

  function MethodText(m: ChallengeMethod): Str {
    match m
    case NoMethod => ""
    case Plain => "plain"
    case S256 => "S256"
    case OtherMethod(text) => text
  }

  function PromptNamed(s: Str): Prompt {
    if s == NONE_NAME then PromptNone else if s == LOGIN_NAME then PromptLogin else OtherPrompt(s)
  }

  /** The request a form stands for. */
  function ReadRequest(form: Values): Request {
    Request(
      Read(form, REDIRECT_KEY), Read(form, TYPE_KEY), Read(form, STATE_KEY), Read(form, CHALLENGE_KEY),
      MethodNamed(Read(form, METHOD_KEY)), Read(form, CLIENT_KEY), ModeNamed(Read(form, MODE_KEY)),
      Read(form, NONCE_KEY), PromptNamed(Read(form, PROMPT_KEY)), Read(form, MAX_AGE_KEY),
      Read(form, RESOURCE_KEY), RESOURCE_KEY in form && |form[RESOURCE_KEY]| > 1,
      Read(form, REQUEST_KEY), Read(form, REQUEST_URI_KEY))
  }

  function ModeText(m: Mode): Str {
    match m
    case Unset => ""
    case Query => "query"
    case Fragment => "fragment"
    case FormPost => "form_post"
    case WebMessage => "web_message"
    case OtherMode(text) => text
  }

  function PromptText(p: Prompt): Str {
    match p
    case PromptNone => "none"
    case PromptLogin => "login"
    case OtherPrompt(text) => text
  }

  /** Other values are other than the ones that have a meaning. */
  ghost predicate ProperMode(m: Mode) {
    m.OtherMode? ==> m.text !in {"", "query", "fragment", "form_post", "web_message"}
  }

  ghost predicate ProperPrompt(p: Prompt) { p.OtherPrompt? ==> p.text !in {"none", "login"} }

  ghost predicate ProperMethod(m: ChallengeMethod) { m.OtherMethod? ==> m.text !in {"", "plain", "S256"} }

  ghost predicate Proper(req: Request) {
    ProperMode(req.responseMode) && ProperPrompt(req.prompt) && ProperMethod(req.codeChallengeMethod)
  }

  lemma ModeExact(s: Str, m: Mode)
    ensures ProperMode(ModeNamed(s)) && ModeText(ModeNamed(s)) == s
    ensures ProperMode(m) && s == ModeText(m) ==> ModeNamed(s) == m
  {
  }

  lemma PromptExact(s: Str, p: Prompt)
    ensures ProperPrompt(PromptNamed(s)) && PromptText(PromptNamed(s)) == s
    ensures ProperPrompt(p) && s == PromptText(p) ==> PromptNamed(s) == p
  {
  }

  lemma MethodExact(s: Str, m: ChallengeMethod)
    ensures ProperMethod(MethodNamed(s)) && MethodText(MethodNamed(s)) == s
    ensures ProperMethod(m) && s == MethodText(m) ==> MethodNamed(s) == m
  {
  }

  /** The texts of a request, by name: where its answer goes, what it asks for, and the rest. */
  ghost predicate HoldsTarget(form: Values, req: Request) {
    && Read(form, "client_id") == req.clientID && Read(form, "redirect_uri") == req.redirectURI
    && Read(form, "state") == req.state && Read(form, "response_mode") == ModeText(req.responseMode)
  }

  ghost predicate HoldsWants(form: Values, req: Request) {
    && Read(form, "response_type") == req.responseType && Read(form, "nonce") == req.nonce
    && Read(form, "code_challenge") == req.codeChallenge
    && Read(form, "code_challenge_method") == MethodText(req.codeChallengeMethod)
    && Read(form, "prompt") == PromptText(req.prompt) && Read(form, "max_age") == req.maxAge
  }

  ghost predicate HoldsRest(form: Values, req: Request) {
    && Read(form, "resource") == req.resource && (req.repeatedResource <==> "resource" in form && |form["resource"]| > 1)
    && Read(form, "request") == req.requestObject && Read(form, "request_uri") == req.requestURI
  }

  /** A form reads as exactly the request whose texts it holds. */
  lemma ReadsExactly(form: Values, req: Request)
    requires Proper(req)
    ensures ReadRequest(form) == req <==> HoldsTarget(form, req) && HoldsWants(form, req) && HoldsRest(form, req)
    ensures Proper(ReadRequest(form))
  {
    ModeExact(Read(form, MODE_KEY), req.responseMode);
    PromptExact(Read(form, PROMPT_KEY), req.prompt);
    MethodExact(Read(form, METHOD_KEY), req.codeChallengeMethod);
  }

  /** The client's rule, whether it presents a metadata document, and whether the resource is a URI. */
  function FactsOf(r: Registry, isResource: Str -> bool, req: Request): Facts {
    Facts(CheckRedirect(r, req.clientID, req.redirectURI), r.metadata.Some? && r.isMetadataID(req.clientID), isResource(req.resource))
  }

  // ---------------------------------------------------------------- what is accepted, in terms of the form

  /** A client that nobody vouched for, as far as the request lets on. */
  ghost predicate Unvouched(r: Registry, clientID: Str, uri: Str) {
    || (r.metadata.Some? && r.isMetadataID(clientID))
    || (uri != [] && RowClient(r, clientID) && r.rows(clientID).Row? && r.rows(clientID).dynamic)
  }

  ghost predicate TargetInOrder(r: Registry, isResource: Str -> bool, form: Values) {
    var uri, resource := Read(form, "redirect_uri"), Read(form, "resource");
    && (uri != [] ==> MayUse(r, Read(form, "client_id"), uri))
    && (resource != [] ==> isResource(resource)) && !("resource" in form && |form["resource"]| > 1)
    && Read(form, "request") == [] && Read(form, "request_uri") == [] && Read(form, "state") != []
  }

  ghost predicate ModeInOrder(cfg: Config, form: Values, s: set<Str>) {
    var mode := Read(form, "response_mode");
    if mode == [] then s != {CODE} || cfg.defaultMode in {Query, Fragment, FormPost, WebMessage}
    else mode in {"fragment", "form_post", "web_message"} || (mode == "query" && s == {CODE})
  }

  ghost predicate ProofInOrder(cfg: Config, r: Registry, form: Values, s: set<Str>) {
    var challenge, how := Read(form, "code_challenge"), Read(form, "code_challenge_method");
    && how in {"", "plain", "S256"}
    && (cfg.strict && challenge != [] ==> how == "S256")
    && (Unvouched(r, Read(form, "client_id"), Read(form, "redirect_uri")) ==> CODE in s && challenge != [] && how == "S256")
  }

  lemma TargetExact(r: Registry, isResource: Str -> bool, form: Values)
    ensures var req := ReadRequest(form);
            TargetOK(req, FactsOf(r, isResource, req)) && TrimSpace(req.state) != [] <==> TargetInOrder(r, isResource, form)
  {
    var req := ReadRequest(form);
    CheckExact(r, req.clientID, req.redirectURI);
    TrimIdempotent(FormValue(form, STATE_KEY));
  }

  lemma ModeOrderExact(cfg: Config, form: Values, s: set<Str>)
    ensures var req := ReadRequest(form); var mode := ModeFor(cfg, req, s);
            (s == {CODE} || req.responseMode != Query) && KnownMode(mode) && (mode == Query ==> s == {CODE}) <==>
            ModeInOrder(cfg, form, s)
  {
    var text := Read(form, "response_mode");
    ModeExact(text, ModeNamed(text));
  }

  lemma ProofExact(cfg: Config, r: Registry, isResource: Str -> bool, form: Values, s: set<Str>)
    ensures var req := ReadRequest(form);
            && ChallengeOK(cfg, req)
            && (SelfAsserted(req, FactsOf(r, isResource, req)) ==> CODE in s && req.codeChallenge != [] && MethodOf(req) == S256)
            <==> ProofInOrder(cfg, r, form, s)
  {
    var req := ReadRequest(form);
    var how := Read(form, "code_challenge_method");
    MethodExact(how, MethodNamed(how));
    CheckExact(r, req.clientID, req.redirectURI);
  }

  /** Exactly which forms are accepted, by the names and values of their parameters. */
  lemma AcceptedExactly(cfg: Config, r: Registry, isResource: Str -> bool, form: Values)
    ensures var s := Components(Read(form, "response_type"));
            Acceptable(cfg, ReadRequest(form), FactsOf(r, isResource, ReadRequest(form))) <==>
            && TargetInOrder(r, isResource, form) && ModeInOrder(cfg, form, s) && ProofInOrder(cfg, r, form, s)
            && Supported(s) && (cfg.strict ==> TOKEN !in s) && (ID_TOKEN in s ==> Read(form, "nonce") != [])
  {
    var s := Components(ReadRequest(form).responseType);
    TargetExact(r, isResource, form);
    ModeOrderExact(cfg, form, s);
    ProofExact(cfg, r, isResource, form, s);
  }

  /** And which mode the answer is delivered in: the one that is named, or else fragment if there are tokens, or else the default. */
  lemma ModeChosen(cfg: Config, form: Values, s: set<Str>)
    requires ModeInOrder(cfg, form, s)
    ensures var mode := Read(form, "response_mode");
            ModeFor(cfg, ReadRequest(form), s) ==
            if mode == "query" then Query
            else if mode == "form_post" then FormPost
            else if mode == "web_message" then WebMessage
            else if mode == "fragment" || s != {CODE} then Fragment
            else cfg.defaultMode
  {
    ReadsExactly(form, ReadRequest(form));
  }

  // ---------------------------------------------------------------- what is read, in terms of the query

  /** A parameter that a query gives is read as its first value, trimmed; one that it does not give is read as nothing. */
  lemma ReadEncoded(before: seq<Pair>, k: Str, v: Str, after: seq<Pair>)
    requires forall p :: p in before ==> p.0 != k
    ensures Read(Parsed(EncodePairs(before + [(k, v)] + after)), k) == TrimSpace(v)
    ensures Read(Parsed(EncodePairs(before)), k) == []
  {
    PrefixRead(before + [(k, v)], after, k, |before|);
    PairsRoundTrip(before);
    ValuesAbsent(before, k);
  }

  /** A form sent back as the query of a redirect reads as it did, but for repeats of the resource. */
  lemma ReplayReadsSame(form: Values)
    ensures ReadRequest(Parsed(Encoded(FirstValues(form)))) == ReadRequest(form).(repeatedResource := false)
  {
    ReplayFaithful(form);
  }

  /** So a request that was accepted is read back as it was, and accepted again. */
  lemma AcceptedAgain(cfg: Config, r: Registry, isResource: Str -> bool, form: Values)
    requires Acceptable(cfg, ReadRequest(form), FactsOf(r, isResource, ReadRequest(form)))
    ensures ReadRequest(Parsed(Encoded(FirstValues(form)))) == ReadRequest(form)
  {
    ReplayReadsSame(form);
  }
}
