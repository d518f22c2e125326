/**
  What /authorize accepts, and why it refuses the rest (AuthorizeHandler,
  validateAuthorizeRequest and redirectErrorToRP of
  internal/http_handlers/authorize.go).
 */
module Authorize {
  import opened Text
  import opened ResponseType
  import opened Redirect

  /** response_mode: absent, one of the four, or anything else. */
  datatype Mode = Unset | Query | Fragment | FormPost | WebMessage | OtherMode(text: Str)

  /** code_challenge_method */
  datatype ChallengeMethod = NoMethod | Plain | S256 | OtherMethod(text: Str)

  /** prompt; other values are accepted and change nothing. */
  datatype Prompt = PromptNone | PromptLogin | OtherPrompt(text: Str)

  /** The trimmed parameters of a request. */
  datatype Request = Request(
    redirectURI: Str, responseType: Str, state: Str, codeChallenge: Str, codeChallengeMethod: ChallengeMethod,
    clientID: Str, responseMode: Mode, nonce: Str, prompt: Prompt, maxAge: Str,
    resource: Str, repeatedResource: bool, requestObject: Str, requestURI: Str)

  datatype Config = Config(defaultMode: Mode, strict: bool)

  /** What the server finds out about the request: the client's redirect rule, CIMD, and the resource URI. */
  datatype Facts = Facts(check: Check, metadataClient: bool, resourceValid: bool)

  datatype ErrorCode =
    | InvalidClient | TemporarilyUnavailable | InvalidRequest | InvalidTarget
    | RequestNotSupported | RequestURINotSupported | UnsupportedResponseType

  /** An error is a JSON body of this server, or sent to the client in a response mode. */
  datatype Verdict =
    | Json(status: nat, code: ErrorCode)
    | ToClient(mode: Mode, code: ErrorCode)
    | Proceed(flow: Flow, mode: Mode, challengeMethod: ChallengeMethod)

  function RedirectOf(req: Request): Str { OrApp(req.redirectURI) }

  function FirstMode(cfg: Config, req: Request): Mode {
    if req.responseMode == Unset then cfg.defaultMode else req.responseMode
  }

  function MethodOf(req: Request): ChallengeMethod {
    if req.codeChallengeMethod == NoMethod && req.codeChallenge != [] then Plain else req.codeChallengeMethod
  }

  /** redirectErrorToRP: with the default redirect there is no client to send the error to. */
  function ErrorToRP(req: Request, mode: Mode, code: ErrorCode): Verdict {
    if RedirectOf(req) == APP_PATH then Json(400, code) else ToClient(mode, code)
  }

  /** An error goes to the client exactly if it gave a redirect URI other than the default. */
  lemma ErrorGoes(req: Request, mode: Mode, code: ErrorCode)
    ensures ErrorToRP(req, mode, code) == if req.redirectURI in {"", "/app"} then Json(400, code) else ToClient(mode, code)
  {
  }

  // ---------------------------------------------------------------- which requests are accepted

  predicate KnownMode(mode: Mode) { mode.Query? || mode.WebMessage? || mode.Fragment? || mode.FormPost? }

  /** Token-bearing response types default to fragment, whatever the configured default. */
  function ModeFor(cfg: Config, req: Request, s: set<Str>): Mode {
    if s != {CODE} && req.responseMode == Unset then Fragment else FirstMode(cfg, req)
  }

  /** With no redirect URI the client is not looked up, so it does not count as self-registered. */
  predicate SelfAsserted(req: Request, facts: Facts) {
    facts.metadataClient || (req.redirectURI != [] && facts.check.Checked? && facts.check.selfRegistered)
  }

  ghost predicate TargetOK(req: Request, facts: Facts) {
    && (req.redirectURI != [] ==> facts.check.Checked? && facts.check.valid)
    && !req.repeatedResource && (req.resource != [] ==> facts.resourceValid)
    && req.requestObject == [] && req.requestURI == []
  }

  ghost predicate ChallengeOK(cfg: Config, req: Request) {
    && !MethodOf(req).OtherMethod?
    && !(cfg.strict && MethodOf(req) == Plain && req.codeChallenge != [])
  }

  ghost predicate TypeOK(cfg: Config, req: Request, facts: Facts, s: set<Str>) {
    && Supported(s)
    && (s == {CODE} || req.responseMode != Query)
    && (SelfAsserted(req, facts) ==> CODE in s && req.codeChallenge != [] && MethodOf(req) == S256)
    && (cfg.strict ==> TOKEN !in s)
    && TrimSpace(req.state) != []
    && KnownMode(ModeFor(cfg, req, s)) && (ModeFor(cfg, req, s) == Query ==> s == {CODE})
    && (ID_TOKEN in s ==> req.nonce != [])
  }

  /** What a request must look like to get past the checks. */
  ghost predicate Acceptable(cfg: Config, req: Request, facts: Facts) {
    TargetOK(req, facts) && ChallengeOK(cfg, req) && TypeOK(cfg, req, facts, Components(req.responseType))
  }

  /** Why a request is invalid_request, and where that is said. */
  ghost predicate Invalid(cfg: Config, req: Request, facts: Facts, v: Verdict) {
    var s := Components(req.responseType);
    || (v == Json(400, InvalidRequest) &&
        (|| (req.redirectURI != [] && facts.check.Checked? && !facts.check.valid)
         || MethodOf(req).OtherMethod?
         || (cfg.strict && MethodOf(req) == Plain && req.codeChallenge != [])
         || (SelfAsserted(req, facts) && CODE in s && (req.codeChallenge == [] || MethodOf(req) != S256))
         || TrimSpace(req.state) == []
         || !KnownMode(ModeFor(cfg, req, s))
         || (ModeFor(cfg, req, s) == Query && s != {CODE})))
    || (v == ErrorToRP(req, FirstMode(cfg, req), InvalidRequest) && (req.repeatedResource || req.responseType == []))
    || (v == ErrorToRP(req, Fragment, InvalidRequest) && req.responseMode == Query && s != {CODE})
    || (v == ErrorToRP(req, ModeFor(cfg, req, s), InvalidRequest) && ID_TOKEN in s && req.nonce == [])
  }

  /** Why a response type is not supported, and where that is said. */
  ghost predicate Unsupported(cfg: Config, req: Request, facts: Facts, v: Verdict) {
    var s := Components(req.responseType);
    || (v == Json(400, UnsupportedResponseType) && (!Supported(s) || (SelfAsserted(req, facts) && CODE !in s)))
    || (v == ErrorToRP(req, ModeFor(cfg, req, s), UnsupportedResponseType) && cfg.strict && TOKEN in s)
  }

  /** Every refusal has its own reason and place, and only a client whose redirect URI was accepted is sent one. */
  ghost predicate Justified(cfg: Config, req: Request, facts: Facts, v: Verdict) {
    v.Proceed? ||
    (&& (v.ToClient? ==> req.redirectURI != [] && facts.check.Checked? && facts.check.valid)
     && match v.code
        case InvalidClient => v == Json(400, v.code) && req.redirectURI != [] && facts.check.Unresolvable?
        case TemporarilyUnavailable => v == Json(503, v.code) && req.redirectURI != [] && facts.check.CannotCheck?
        case InvalidTarget => v == ErrorToRP(req, FirstMode(cfg, req), v.code) && req.resource != [] && !facts.resourceValid
        case RequestNotSupported =>
          v == ErrorToRP(req, FirstMode(cfg, req), v.code) && req.requestObject != [] && req.requestURI == []
        case RequestURINotSupported => v == ErrorToRP(req, FirstMode(cfg, req), v.code) && req.requestURI != []
        case UnsupportedResponseType => Unsupported(cfg, req, facts, v)
        case InvalidRequest => Invalid(cfg, req, facts, v))
  }

  /** The redirect URI, the resource indicator and the request object. */
  method CheckTarget(cfg: Config, req: Request, facts: Facts) returns (refusal: Option<Verdict>)
    ensures refusal.None? <==> TargetOK(req, facts)
    ensures refusal.Some? ==> !refusal.value.Proceed? && Justified(cfg, req, facts, refusal.value)
  {
    var responseMode := FirstMode(cfg, req);
    if req.redirectURI != [] {
      match facts.check {
        case Unresolvable => return Some(Json(400, InvalidClient));
        case CannotCheck => return Some(Json(503, TemporarilyUnavailable));
        case Checked(valid, _) =>
          if !valid {
            return Some(Json(400, InvalidRequest));
          }
      }
    }
    if req.repeatedResource {
      return Some(ErrorToRP(req, responseMode, InvalidRequest));
    }
    if req.resource != [] && !facts.resourceValid {
      return Some(ErrorToRP(req, responseMode, InvalidTarget));
    }
    if req.requestObject != [] || req.requestURI != [] {
      return Some(ErrorToRP(req, responseMode, if req.requestURI != [] then RequestURINotSupported else RequestNotSupported));
    }
    return None;
  }

  /** The response type, the response mode, PKCE for self-asserted clients, strict mode, state and nonce. */
  method CheckType(cfg: Config, req: Request, facts: Facts) returns (v: Verdict)
    requires TargetOK(req, facts) && ChallengeOK(cfg, req)
    ensures var s := Components(req.responseType);
            && (v.Proceed? <==> TypeOK(cfg, req, facts, s))
            && (v.Proceed? ==> FlowOf(v.flow, s) && v == Proceed(v.flow, ModeFor(cfg, req, s), MethodOf(req)))
    ensures Justified(cfg, req, facts, v)
  {
    var flow := Classify(req.responseType);
    if flow.None? {
      return Json(400, UnsupportedResponseType);
    }
    v := CheckFlow(cfg, req, facts, flow.value, Components(req.responseType));
  }

  method CheckFlow(cfg: Config, req: Request, facts: Facts, flow: Flow, ghost s: set<Str>) returns (v: Verdict)
    requires TargetOK(req, facts) && Supported(s) && s == Components(req.responseType) && FlowOf(flow, s)
    ensures v.Proceed? <==> TypeOK(cfg, req, facts, s)
    ensures v.Proceed? ==> v == Proceed(flow, ModeFor(cfg, req, s), MethodOf(req))
    ensures Justified(cfg, req, facts, v)
  {
    var responseMode := FirstMode(cfg, req);
    var Flow(_, codeOnly, hybrid, implicit, bareToken, _, needsNonce) := flow;
    if hybrid || implicit {
      if req.responseMode == Query {
        return ErrorToRP(req, Fragment, InvalidRequest);
      }
      if req.responseMode == Unset {
        responseMode := Fragment;
      }
    }
    if SelfAsserted(req, facts) {
      if implicit {
        return Json(400, UnsupportedResponseType);
      }
      if req.codeChallenge == [] || MethodOf(req) != S256 {
        return Json(400, InvalidRequest);
      }
    }
    if cfg.strict && bareToken {
      return ErrorToRP(req, responseMode, UnsupportedResponseType);
    }
    if TrimSpace(req.state) == [] || !KnownMode(responseMode) || (responseMode == Query && !codeOnly) {
      return Json(400, InvalidRequest);
    }
    if needsNonce && req.nonce == [] {
      return ErrorToRP(req, responseMode, InvalidRequest);
    }
    return Proceed(flow, responseMode, MethodOf(req));
  }

  /** The checks of the handler, in order, up to its first write. */
  method Validate(cfg: Config, req: Request, facts: Facts) returns (v: Verdict)
    ensures v.Proceed? <==> Acceptable(cfg, req, facts)
    ensures v.Proceed? ==>
              var s := Components(req.responseType);
              FlowOf(v.flow, s) && v == Proceed(v.flow, ModeFor(cfg, req, s), MethodOf(req))
    ensures Justified(cfg, req, facts, v)
  {
    var refusal := CheckTarget(cfg, req, facts);
    if refusal.Some? {
      return refusal.value;
    }
    if req.responseType == [] {
      assert Components([]) == {};
      return ErrorToRP(req, FirstMode(cfg, req), InvalidRequest);
    }
    var method_ := MethodOf(req);
    if method_.OtherMethod? || (cfg.strict && method_ == Plain && req.codeChallenge != []) {
      return Json(400, InvalidRequest);
    }
    v := CheckType(cfg, req, facts);
  }
}
