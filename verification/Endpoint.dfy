/**
  One whole /authorize request, from the form to the answer: what it reads and
  writes in the state store and in the session store (AuthorizeHandler of
  internal/http_handlers/authorize.go).
 */
module Endpoint {
  import opened Text
  import opened Form
  import opened SessionValue
  import opened ResponseType
  import opened Redirect
  import opened Authorize
  import opened Reading
  import opened Response
  import opened Sessions
  import CodeState
  import Consent

  /** What the request meets: its cookie and the time, what the server draws and mints for it, and what fails. */
  datatype Env = Env(
    cookie: Option<Str>, now: int, drawn: Str, userKnown: bool,
    clientLoads: bool, clientName: Str, pageID: Str, pageFails: bool, json: Consent.Pending -> Str,
    session: Str, minted: Minted, stateFails: bool, mintFails: bool, codeFails: bool, sessionFails: bool, tokenFails: bool)

  /** The state store, and the session and access tokens of the session store. */
  datatype Stores = Stores(texts: map<Str, Str>, sessions: Store, tokens: Store)

  datatype Answer =
    | Rejected(verdict: Verdict)
    | ServerError
    | ChallengeMissing(verdict: Verdict)
    | LoginPage
    | LoginRequired
    | SignupRequired
    | ClientGone
    | ConsentRequired
    | ConsentPage
    | ConsentFails
    | Issued(delivery: Delivery, cookie: Str)

  /** The caller's nonce, or one that is drawn. */
  function NonceOf(req: Request, env: Env): Str { if req.nonce != [] then req.nonce else env.drawn }

  /** The challenge as it is kept, with its method. */
  function ChallengeData(req: Request): Str {
    if req.codeChallenge == [] then [] else req.codeChallenge + "::" + MethodText(MethodOf(req))
  }

  /** What is written under the caller's state before anything is known of the user. */
  function Parked(req: Request, hasCode: bool, env: Env): Str {
    if hasCode then
      CodeState.EncodeAuthorize(CodeState.Authorize(
        env.minted.code, ChallengeData(req), NonceOf(req, env), RedirectOf(req), req.resource, req.clientID))
    else NonceOf(req, env)
  }

  /** What the code stands for; a hybrid flow drops the resource. */
  function CodeRecord(req: Request, codeOnly: bool, env: Env): CodeState.Code {
    CodeState.Code(ChallengeData(req), env.session, NonceOf(req, env), RedirectOf(req),
                   if codeOnly then req.resource else [], req.clientID)
  }

  /** A challenge method needs a challenge in the code flow. */
  predicate ChallengeGiven(req: Request, codeOnly: bool) {
    codeOnly && req.codeChallenge == [] ==> MethodOf(req) == NoMethod
  }

  /** The request's session is good, and the request does not ask for a fresh login. */
  predicate SessionGood(c: Crypto, sessions: Store, req: Request, env: Env) {
    && !ForcesReauth(c, req, env.cookie, env.now)
    && env.cookie.Some? && Validates(c, sessions, env.cookie.value, env.now)
  }

  /** With prompt=none the client is told; otherwise the user is sent to log in. */
  function LoginAnswer(req: Request): Answer { if req.prompt.PromptNone? then LoginRequired else LoginPage }

  // ---------------------------------------------------------------- consent

  /** The names of the grant and of the page for this request, and the text of the page's entry. */
  datatype Keys = Keys(grant: Str, pending: Str, page: Str)

  /** Whose session the request presents. */
  function UserOf(c: Crypto, env: Env): Str {
    if env.cookie.Some? && c.open(env.cookie.value).Some? then c.open(env.cookie.value).value.subject else []
  }

  ghost function KeysOf(c: Crypto, form: Values, env: Env): Keys {
    var p := Consent.RequestOf(form, UserOf(c, env), env.clientName);
    Keys(Consent.GrantKey(c.sha, p.AskOf()), Consent.PendingKey(env.pageID), env.json(p))
  }

  method MakeKeys(c: Crypto, form: Values, env: Env) returns (keys: Keys)
    ensures keys == KeysOf(c, form, env)
  {
    var params := OriginalParams(form);
    var query := Encode(params);
    var p := Consent.Pending(Read(form, CLIENT_KEY), env.clientName, Consent.RedirectOf(form), Consent.ScopesOf(form),
                             query, UserOf(c, env));
    keys := Keys(Consent.GrantKey(c.sha, p.AskOf()), Consent.PendingKey(env.pageID), env.json(p));
  }

  predicate GrantThere(texts: map<Str, Str>, req: Request, facts: Facts, keys: Keys) {
    SelfAsserted(req, facts) ==> keys.grant in texts && texts[keys.grant] != []
  }

  /** A request that needs a grant and has none is shown the page. */
  predicate ShowsPage(req: Request, env: Env) { env.clientLoads && !req.prompt.PromptNone? && !env.pageFails }

  // ---------------------------------------------------------------- what is minted

  /** The hybrid flows and "id_token token" keep the new session as a digest, the others as it is. */
  ghost predicate DigestFor(s: set<Str>) { if CODE in s then s != {CODE} else ID_TOKEN in s && TOKEN in s }

  method StoresDigest(ghost s: set<Str>, flow: Flow) returns (digest: bool)
    requires Supported(s) && FlowOf(flow, s)
    ensures digest == DigestFor(s)
  {
    digest := flow.hybrid || (flow.implicit && flow.bareToken && flow.hasIDToken);
  }

  /** Every flow that mints an access token keeps it, even "code id_token", which does not deliver it. */
  ghost predicate TokenKept(s: set<Str>) { TOKEN in s || (CODE in s && ID_TOKEN in s) }

  method StoresToken(ghost s: set<Str>, flow: Flow) returns (kept: bool)
    requires Supported(s) && FlowOf(flow, s)
    ensures kept <==> TokenKept(s)
  {
    kept := flow.hybrid || (flow.implicit && flow.bareToken);
  }

  /** Minting gives plain texts, and seals a session that continues the presented one. */
  ghost predicate MintSeals(c: Crypto, req: Request, env: Env) {
    && PlainMinted(env.minted)
    && (env.cookie.Some? && c.open(env.cookie.value).Some? ==>
          var sd := c.open(env.cookie.value).value;
          c.open(env.session) ==
          Some(NewSession(sd.subject, sd.loginMethod, NonceOf(req, env), EffectiveAuthTime(sd), env.now)))
  }

  // ---------------------------------------------------------------- the stores after each answer

  /** The caller's state is written first. */
  ghost function ParkedTexts(req: Request, env: Env, texts: map<Str, Str>): map<Str, Str> {
    texts[req.state := Parked(req, CODE in Components(req.responseType), env)]
  }

  /** The grant is used up. */
  ghost function Spent(req: Request, facts: Facts, keys: Keys, texts: map<Str, Str>): map<Str, Str> {
    if SelfAsserted(req, facts) then texts - {keys.grant} else texts
  }

  /** The code is bound. */
  ghost function WithCode(req: Request, env: Env, s: set<Str>, texts: map<Str, Str>): map<Str, Str> {
    if CODE in s then texts[env.minted.code := CodeState.EncodeCode(CodeRecord(req, s == {CODE}, env))] else texts
  }

  /** DeleteUserSession: a session goes together with the access token of its nonce. */
  function Without(st: Stores, slot: Slot): Stores {
    st.(sessions := st.sessions - {slot}, tokens := st.tokens - {slot})
  }

  /** A forced login drops the presented session. */
  function ForcedOut(c: Crypto, env: Env, st: Stores): Stores {
    if env.cookie.Some? && env.cookie.value != [] && c.open(env.cookie.value).Some?
    then Without(st, SlotOf(c.open(env.cookie.value).value)) else st
  }

  /** The new session is kept. */
  ghost function WithSession(c: Crypto, env: Env, s: set<Str>, st: Stores): Stores
    requires c.open(env.session).Some?
  {
    st.(sessions := st.sessions[SlotOf(c.open(env.session).value) := Kept(c, env.session, DigestFor(s))])
  }

  /** And so is the access token, if there is one. */
  ghost function WithToken(c: Crypto, env: Env, s: set<Str>, st: Stores): Stores
    requires c.open(env.session).Some?
  {
    if TokenKept(s)
    then st.(tokens := st.tokens[SlotOf(c.open(env.session).value) := Kept(c, env.minted.accessToken, DigestFor(s))])
    else st
  }

  /** The stores after the credentials were to be minted: a fault leaves what was written before it. */
  ghost function Answered(c: Crypto, req: Request, env: Env, s: set<Str>, st: Stores): Stores
    requires env.cookie.Some? && c.open(env.cookie.value).Some? && c.open(env.session).Some?
  {
    var dropped := Without(st, SlotOf(c.open(env.cookie.value).value));
    if env.mintFails || (CODE in s && env.codeFails) then dropped
    else
      var bound := dropped.(texts := WithCode(req, env, s, dropped.texts));
      if env.sessionFails then bound
      else
        var kept := WithSession(c, env, s, bound);
        if env.tokenFails then kept else WithToken(c, env, s, kept)
  }

  /** The stores after the part of the handler that depends on who is asking. */
  ghost function Continued(c: Crypto, req: Request, facts: Facts, keys: Keys, env: Env, s: set<Str>, st: Stores): Stores
    requires MintSeals(c, req, env)
  {
    var spent := st.(texts := Spent(req, facts, keys, st.texts));
    if ForcesReauth(c, req, env.cookie, env.now) then ForcedOut(c, env, st)
    else if !SessionGood(c, st.sessions, req, env) || !env.userKnown then st
    else if !GrantThere(st.texts, req, facts, keys) then
      if ShowsPage(req, env) then spent.(texts := spent.texts[keys.pending := keys.page]) else spent
    else Answered(c, req, env, s, spent)
  }

  /** Nothing fails on the way to an answer. */
  ghost predicate NoFault(env: Env, s: set<Str>) {
    !env.mintFails && !(CODE in s && env.codeFails) && !env.sessionFails && !(TokenKept(s) && env.tokenFails)
  }

  /** What it takes to be given credentials. */
  ghost predicate Ready(c: Crypto, cfg: Config, req: Request, facts: Facts, keys: Keys, env: Env, st: Stores) {
    var s := Components(req.responseType);
    && Acceptable(cfg, req, facts) && !env.stateFails && ChallengeGiven(req, s == {CODE})
    && SessionGood(c, st.sessions, req, env) && env.userKnown
    && GrantThere(ParkedTexts(req, env, st.texts), req, facts, keys) && NoFault(env, s)
  }

  /** The stores after an answer, whatever it is. */
  ghost function Left(c: Crypto, req: Request, facts: Facts, keys: Keys, env: Env, a: Answer, st: Stores): Stores
    requires MintSeals(c, req, env)
  {
    var parked := st.(texts := ParkedTexts(req, env, st.texts));
    if a.Rejected? || a.ServerError? then st
    else if a.ChallengeMissing? then parked
    else Continued(c, req, facts, keys, env, Components(req.responseType), parked)
  }

  /** Why a page is shown: the client asserts itself, and there is no grant yet. */
  ghost predicate PageShown(req: Request, facts: Facts, keys: Keys, texts: map<Str, Str>, env: Env) {
    && SelfAsserted(req, facts) && ChallengeGiven(req, Components(req.responseType) == {CODE})
    && !GrantThere(ParkedTexts(req, env, texts), req, facts, keys) && ShowsPage(req, env)
  }

  class AuthorizeServer {
    var texts: map<Str, Str>
    var sessions: Store
    var tokens: Store

    constructor ()
      ensures texts == map[] && sessions == map[] && tokens == map[]
    {
      texts, sessions, tokens := map[], map[], map[];
    }

    ghost function Now(): Stores
      reads this
    {
      Stores(texts, sessions, tokens)
    }

    /** The first write: what the caller's state stands for while the user may have to log in. */
    method ParkState(req: Request, env: Env, flow: Flow)
      requires FlowOf(flow, Components(req.responseType))
      modifies this`texts
      ensures texts == ParkedTexts(req, env, old(texts))
    {
      texts := texts[req.state := Parked(req, flow.hasCode, env)];
    }

    method DeleteUserSession(slot: Slot)
      modifies this`sessions, this`tokens
      ensures Now() == Without(old(Now()), slot)
    {
      sessions := sessions - {slot};
      tokens := tokens - {slot};
    }

    /** The session the request presents: dropped if the request forces a new login, otherwise validated. */
    method CheckSession(c: Crypto, req: Request, env: Env) returns (refusal: Option<Answer>)
      modifies this`sessions, this`tokens
      ensures refusal.None? <==> SessionGood(c, old(sessions), req, env) && env.userKnown
      ensures Now() == if ForcesReauth(c, req, env.cookie, env.now) then ForcedOut(c, env, old(Now())) else old(Now())
      ensures refusal.Some? ==>
                refusal.value == if SessionGood(c, old(sessions), req, env) then SignupRequired else LoginAnswer(req)
    {
      if ForcesReauth(c, req, env.cookie, env.now) {
        if env.cookie.Some? && env.cookie.value != [] {
          var sd := c.open(env.cookie.value);
          if sd.Some? {
            DeleteUserSession(SlotOf(sd.value));
          }
        }
        return Some(LoginAnswer(req));
      }
      if env.cookie.None? || !Validates(c, sessions, env.cookie.value, env.now) {
        return Some(LoginAnswer(req));
      }
      if !env.userKnown {
        return Some(SignupRequired);
      }
      return None;
    }

    /** The consent gate: a self-asserted client's request uses up the grant made for it. */
    method CheckConsent(c: Crypto, form: Values, req: Request, facts: Facts, env: Env) returns (refusal: Option<Answer>)
      modifies this`texts
      ensures refusal.None? <==> GrantThere(old(texts), req, facts, KeysOf(c, form, env))
      ensures var keys := KeysOf(c, form, env); var spent := Spent(req, facts, keys, old(texts));
              texts == if refusal.Some? && ShowsPage(req, env) then spent[keys.pending := keys.page] else spent
      ensures refusal.Some? ==> refusal.value in {ClientGone, ConsentRequired, ConsentPage, ConsentFails}
      ensures refusal.Some? ==> (refusal.value.ConsentPage? <==> ShowsPage(req, env))
    {
      if SelfAsserted(req, facts) {
        var keys := MakeKeys(c, form, env);
        var granted := keys.grant in texts && texts[keys.grant] != [];
        texts := texts - {keys.grant};
        if !granted {
          if !env.clientLoads {
            return Some(ClientGone);
          }
          if req.prompt.PromptNone? {
            return Some(ConsentRequired);
          }
          if env.pageFails {
            return Some(ConsentFails);
          }
          texts := texts[keys.pending := keys.page];
          return Some(ConsentPage);
        }
      }
      return None;
    }

    method BindCode(req: Request, env: Env, ghost s: set<Str>, flow: Flow)
      requires FlowOf(flow, s)
      modifies this`texts
      ensures texts == WithCode(req, env, s, old(texts))
    {
      if flow.hasCode {
        texts := texts[env.minted.code := CodeState.EncodeCode(CodeRecord(req, flow.codeOnly, env))];
      }
    }

    method KeepSession(c: Crypto, env: Env, ghost s: set<Str>, flow: Flow, slot: Slot)
      requires Supported(s) && FlowOf(flow, s) && c.open(env.session).Some? && slot == SlotOf(c.open(env.session).value)
      modifies this`sessions
      ensures Now() == WithSession(c, env, s, old(Now()))
    {
      var digest := StoresDigest(s, flow);
      sessions := sessions[slot := Kept(c, env.session, digest)];
    }

    /** True when the access token, if there is one, was kept. */
    method KeepToken(c: Crypto, env: Env, ghost s: set<Str>, flow: Flow, slot: Slot) returns (ok: bool)
      requires Supported(s) && FlowOf(flow, s) && c.open(env.session).Some? && slot == SlotOf(c.open(env.session).value)
      modifies this`tokens
      ensures ok <==> !(TokenKept(s) && env.tokenFails)
      ensures Now() == if env.tokenFails then old(Now()) else WithToken(c, env, s, old(Now()))
    {
      var kept := StoresToken(s, flow);
      if !kept {
        return true;
      }
      if env.tokenFails {
        return false;
      }
      var digest := StoresDigest(s, flow);
      tokens := tokens[slot := Kept(c, env.minted.accessToken, digest)];
      return true;
    }

    /** Rolling the session over, binding the code and answering. */
    method Answer(c: Crypto, req: Request, env: Env, ghost s: set<Str>, flow: Flow, mode: Mode) returns (a: Answer)
      requires Supported(s) && FlowOf(flow, s) && KnownMode(mode) && (mode.Query? ==> s == {CODE})
      requires env.cookie.Some? && c.open(env.cookie.value).Some? && MintSeals(c, req, env)
      modifies this
      ensures a == LoginPage || a.Issued?
      ensures a.Issued? <==> NoFault(env, s)
      ensures a.Issued? ==> a.cookie == env.session && Delivers(a.delivery, s, mode, RedirectOf(req), req.state, env.minted)
      ensures Now() == Answered(c, req, env, s, old(Now()))
    {
      var slot := SlotOf(c.open(env.cookie.value).value);
      DeleteUserSession(slot);
      if env.mintFails {
        return LoginPage;
      }
      if flow.hasCode && env.codeFails {
        return LoginPage;
      }
      BindCode(req, env, s, flow);
      if env.sessionFails {
        return LoginPage;
      }
      var renewed := slot.(nonce := NonceOf(req, env));
      KeepSession(c, env, s, flow, renewed);
      var ok := KeepToken(c, env, s, flow, renewed);
      if !ok {
        return LoginPage;
      }
      var d := BuildResponse(s, flow, mode, RedirectOf(req), req.state, env.minted);
      a := Issued(d, env.session);
    }

    /** The part of the handler that depends on who is asking. */
    method Continue(c: Crypto, form: Values, req: Request, facts: Facts, env: Env, ghost s: set<Str>, flow: Flow, mode: Mode)
      returns (a: Answer)
      requires Supported(s) && FlowOf(flow, s) && KnownMode(mode) && (mode.Query? ==> s == {CODE}) && MintSeals(c, req, env)
      modifies this
      ensures a.Issued? <==>
                && SessionGood(c, old(sessions), req, env) && env.userKnown
                && GrantThere(old(texts), req, facts, KeysOf(c, form, env)) && NoFault(env, s)
      ensures a.Issued? ==> a.cookie == env.session && Delivers(a.delivery, s, mode, RedirectOf(req), req.state, env.minted)
      ensures Now() == Continued(c, req, facts, KeysOf(c, form, env), env, s, old(Now()))
      ensures !a.Rejected? && !a.ServerError? && !a.ChallengeMissing?
      ensures !SessionGood(c, old(sessions), req, env) ==> a == LoginAnswer(req)
      ensures req.prompt.PromptNone? ==> !a.ConsentPage? && (a.LoginPage? ==> !NoFault(env, s))
      ensures a.ConsentPage? <==>
                && SessionGood(c, old(sessions), req, env) && env.userKnown
                && !GrantThere(old(texts), req, facts, KeysOf(c, form, env)) && ShowsPage(req, env)
    {
      var refusal := CheckSession(c, req, env);
      if refusal.Some? {
        return refusal.value;
      }
      refusal := CheckConsent(c, form, req, facts, env);
      if refusal.Some? {
        return refusal.value;
      }
      a := Answer(c, req, env, s, flow, mode);
    }

    /** The handler once the form is read and the client looked up. */
    method Process(c: Crypto, cfg: Config, form: Values, req: Request, facts: Facts, env: Env) returns (a: Answer)
      requires MintSeals(c, req, env)
      modifies this
      ensures a.Issued? <==> Ready(c, cfg, req, facts, KeysOf(c, form, env), env, old(Now()))
      ensures a.Issued? ==>
                var s := Components(req.responseType);
                a.cookie == env.session && Delivers(a.delivery, s, ModeFor(cfg, req, s), RedirectOf(req), req.state, env.minted)
      ensures a.Rejected? <==> !Acceptable(cfg, req, facts)
      ensures Now() == Left(c, req, facts, KeysOf(c, form, env), env, a, old(Now()))
      ensures !a.Rejected? && !a.ServerError? && !a.ChallengeMissing? && !SessionGood(c, old(sessions), req, env) ==>
                a == LoginAnswer(req)
      ensures req.prompt.PromptNone? ==>
                !a.ConsentPage? && (a.LoginPage? ==> !NoFault(env, Components(req.responseType)))
      ensures a.ConsentPage? ==> PageShown(req, facts, KeysOf(c, form, env), old(texts), env)
    {
      var v := Validate(cfg, req, facts);
      if !v.Proceed? {
        return Rejected(v);
      }
      ghost var s := Components(req.responseType);
      if env.stateFails {
        return ServerError;
      }
      ParkState(req, env, v.flow);
      if v.flow.codeOnly && req.codeChallenge == [] && v.challengeMethod != NoMethod {
        return ChallengeMissing(ErrorToRP(req, v.mode, InvalidRequest));
      }
      a := Continue(c, form, req, facts, env, s, v.flow, v.mode);
    }

    /**
      The whole handler. Credentials leave the server exactly when the request is
      acceptable, presents a session fresh enough, and has the consent it needs;
      a request that is rejected writes nothing, and every other answer leaves
      exactly the stores it should.
     */
    method Handle(c: Crypto, cfg: Config, r: Registry, isResource: Str -> bool, form: Values, env: Env) returns (a: Answer)
      requires MintSeals(c, ReadRequest(form), env)
      modifies this
      ensures var req := ReadRequest(form); var facts := FactsOf(r, isResource, req); var s := Components(req.responseType);
              && (a.Issued? <==> Ready(c, cfg, req, facts, KeysOf(c, form, env), env, old(Now())))
              && (a.Issued? ==> a.cookie == env.session &&
                                Delivers(a.delivery, s, ModeFor(cfg, req, s), RedirectOf(req), req.state, env.minted))
              && (a.Rejected? <==> !Acceptable(cfg, req, facts))
              && Now() == Left(c, req, facts, KeysOf(c, form, env), env, a, old(Now()))
              && (!a.Rejected? && !a.ServerError? && !a.ChallengeMissing? && !SessionGood(c, old(sessions), req, env) ==>
                    a == LoginAnswer(req))
              && (req.prompt.PromptNone? ==> !a.ConsentPage? && (a.LoginPage? ==> !NoFault(env, s)))
              && (a.ConsentPage? ==> PageShown(req, facts, KeysOf(c, form, env), old(texts), env))
    {
      var req := ReadRequest(form);
      a := Process(c, cfg, form, req, FactsOf(r, isResource, req), env);
    }
  }

  // ---------------------------------------------------------------- the grant

  /** A caller's state other than the grant's own name neither makes nor hides a grant; that very name always makes one. */
  lemma StateMakesGrant(req: Request, facts: Facts, keys: Keys, env: Env, texts: map<Str, Str>)
    requires env.drawn != []
    ensures GrantThere(ParkedTexts(req, env, texts), req, facts, keys) <==>
            GrantThere(texts, req, facts, keys) || req.state == keys.grant
  {
  }

  /**
    Nobody vouched for a client that registered itself, or that presents a
    document of its own. With a redirect URI of its own, or as a document client
    in any case, it is given nothing but a code, only with a challenge it
    derived by S256, and only with the grant of the user.
   */
  lemma SelfAssertedNeedsProof(c: Crypto, cfg: Config, r: Registry, isResource: Str -> bool, form: Values, env: Env, st: Stores)
    requires var req := ReadRequest(form);
             Ready(c, cfg, req, FactsOf(r, isResource, req), KeysOf(c, form, env), env, st)
    requires var id := Read(form, "client_id");
             || DocumentClient(r, id)
             || (Read(form, "redirect_uri") != [] && RowClient(r, id) && r.rows(id).Row? && r.rows(id).dynamic)
    ensures CODE in Components(Read(form, "response_type"))
    ensures Read(form, "code_challenge") != [] && Read(form, "code_challenge_method") == "S256"
    ensures env.cookie.Some? && c.open(env.cookie.value).Some?
    ensures var grant := "cimd_consent_granted:" + c.open(env.cookie.value).value.subject + ":" + Read(form, "client_id") + ":"
                         + c.sha(Encoded(FirstValues(form)));
            (grant in st.texts && st.texts[grant] != []) || Read(form, "state") == grant
  {
    var req := ReadRequest(form);
    CheckExact(r, req.clientID, req.redirectURI);
    GrantNamed(c, form, env);
  }

  /** The grant is named after the user of the presented session, the client and the parameters; the page after its id. */
  lemma GrantNamed(c: Crypto, form: Values, env: Env)
    requires env.cookie.Some? && c.open(env.cookie.value).Some?
    ensures KeysOf(c, form, env).grant ==
            "cimd_consent_granted:" + c.open(env.cookie.value).value.subject + ":" + Read(form, "client_id") + ":"
            + c.sha(Encoded(FirstValues(form)))
    ensures KeysOf(c, form, env).pending == "cimd_consent:" + env.pageID
    ensures exists p :: KeysOf(c, form, env).page == env.json(p) && p.query == Encoded(FirstValues(form))
                        && p.clientID == Read(form, "client_id") && p.userID == c.open(env.cookie.value).value.subject
  {
    var p := Consent.RequestOf(form, UserOf(c, env), env.clientName);
    assert KeysOf(c, form, env).page == env.json(p);
  }

  /** And a client whose row cannot be read, or whose document does not resolve, is given nothing at a redirect URI of its own. */
  lemma UnknownGetsNothing(c: Crypto, cfg: Config, r: Registry, isResource: Str -> bool, form: Values, env: Env, st: Stores)
    requires var id := Read(form, "client_id");
             || (RowClient(r, id) && r.rows(id).Unavailable?)
             || (DocumentClient(r, id) && r.metadata.value(id).None?)
    requires Read(form, "redirect_uri") != []
    ensures var req := ReadRequest(form);
            !Ready(c, cfg, req, FactsOf(r, isResource, req), KeysOf(c, form, env), env, st)
  {
    var req := ReadRequest(form);
    CheckExact(r, req.clientID, req.redirectURI);
  }

  /** The replayed request looks for the grant that approving its page records. */
  lemma ReplayKeys(c: Crypto, form: Values, p: Consent.Pending, again: Env)
    requires p == Consent.RequestOf(form, UserOf(c, again), p.clientName)
    ensures KeysOf(c, Parsed(p.query), again).grant == Consent.GrantKey(c.sha, p.AskOf())
  {
    Consent.ReplayIsSameRequest(form, UserOf(c, again), p.clientName);
    Consent.ReplayIsSameRequest(form, UserOf(c, again), again.clientName);
  }

  /**
    The round trip of consent. A request that was acceptable was shown its page,
    and the browser is sent back with the parameters kept there, for the same
    user. It is given credentials exactly when nothing fails, its session is good
    for it, and the grant that approving the page records is there, or the
    caller's own state is the name of that grant.
   */
  lemma ReplayIssuedExactly(c: Crypto, cfg: Config, r: Registry, isResource: Str -> bool, form: Values,
                            p: Consent.Pending, again: Env, st: Stores)
    requires Acceptable(cfg, ReadRequest(form), FactsOf(r, isResource, ReadRequest(form)))
    requires p == Consent.RequestOf(form, UserOf(c, again), p.clientName) && again.drawn != []
    ensures var replayed := Parsed(p.query); var req := ReadRequest(replayed); var facts := FactsOf(r, isResource, req);
            var s, grant := Components(req.responseType), Consent.GrantKey(c.sha, p.AskOf());
            && req == ReadRequest(form)
            && (Ready(c, cfg, req, facts, KeysOf(c, replayed, again), again, st) <==>
                && !again.stateFails && ChallengeGiven(req, s == {CODE}) && NoFault(again, s)
                && SessionGood(c, st.sessions, req, again) && again.userKnown
                && (SelfAsserted(req, facts) ==> (grant in st.texts && st.texts[grant] != []) || req.state == grant))
  {
    var req := ReadRequest(form);
    AcceptedAgain(cfg, r, isResource, form);
    ReplayKeys(c, form, p, again);
    StateMakesGrant(req, FactsOf(r, isResource, req), KeysOf(c, Parsed(p.query), again), again, st.texts);
  }

  // ---------------------------------------------------------------- what the other answers leave behind

  /**
    A request that forces a login ends the session it presents, with its access
    token, and nothing else; a request without a good session or a known user
    changes nothing; and one that lacks its grant leaves the page for it, exactly
    if the page is shown, and every session as it was.
   */
  lemma RefusalsLeave(c: Crypto, req: Request, facts: Facts, keys: Keys, env: Env, s: set<Str>, st: Stores)
    requires MintSeals(c, req, env)
    ensures var t := Continued(c, req, facts, keys, env, s, st);
            && (AsksLogin(req) && env.cookie.Some? && env.cookie.value != [] && c.open(env.cookie.value).Some? ==>
                  var slot := SlotOf(c.open(env.cookie.value).value);
                  t == st.(sessions := st.sessions - {slot}, tokens := st.tokens - {slot}))
            && (!ForcesReauth(c, req, env.cookie, env.now) && (env.cookie.None? || !env.userKnown) ==> t == st)
            && (SessionGood(c, st.sessions, req, env) && env.userKnown && !GrantThere(st.texts, req, facts, keys) ==>
                  && t.sessions == st.sessions && t.tokens == st.tokens
                  && (ShowsPage(req, env) ==> keys.pending in t.texts && t.texts[keys.pending] == keys.page)
                  && (forall k :: k != keys.pending && k != keys.grant ==> (k in t.texts <==> k in st.texts))
                  && (forall k :: k in st.texts && k != keys.pending && k != keys.grant ==> t.texts[k] == st.texts[k]))
  {
    ForcesExactly(c, req, env.cookie, env.now);
  }

  // ---------------------------------------------------------------- what an answer leaves behind

  /**
    What an answer leaves behind means: the code reads back as this request, the
    new session validates and keeps the login time, and the old one no longer
    validates, even if the caller's nonce put the new one in its place. An access
    token is kept exactly if the flow mints one, and then it is the one minted.
   */
  lemma AnswerMeans(c: Crypto, req: Request, facts: Facts, keys: Keys, env: Env, s: set<Str>, st: Stores)
    requires env.cookie.Some? && c.open(env.cookie.value).Some? && MintSeals(c, req, env)
    requires NoFault(env, s) && TokenText(env.session) && TokenText(env.minted.accessToken)
    ensures var t := Answered(c, req, env, s, st.(texts := Spent(req, facts, keys, st.texts)));
            var slot := SlotOf(c.open(env.session).value);
            && (CODE in s ==>
                  && env.minted.code in t.texts
                  && (CodeState.ParseCode(t.texts[env.minted.code]) == CodeRecord(req, s == {CODE}, env) <==>
                      && CodeState.DelimiterSafe(ChallengeData(req)) && CodeState.DelimiterSafe(env.session)
                      && CodeState.DelimiterSafe(NonceOf(req, env))))
            && Validates(c, t.sessions, env.session, env.now)
            && (c.sha(env.cookie.value) != c.sha(env.session) ==> !Validates(c, t.sessions, env.cookie.value, env.now))
            && (SelfAsserted(req, facts) && keys.grant != env.minted.code ==> keys.grant !in t.texts)
            && (TokenKept(s) ==> slot in t.tokens && VerifySessionValue(c.sha, env.minted.accessToken, t.tokens[slot]))
    ensures EffectiveAuthTime(c.open(env.session).value) ==
            (var old_ := EffectiveAuthTime(c.open(env.cookie.value).value); if old_ == 0 then env.now else old_)
  {
    CodeState.CodeRoundTrip(CodeRecord(req, s == {CODE}, env));
    VerifyExact(c.sha, env.session, env.session, Kept(c, env.session, DigestFor(s)));
    VerifyExact(c.sha, env.minted.accessToken, env.minted.accessToken, Kept(c, env.minted.accessToken, DigestFor(s)));
    if c.sha(env.cookie.value) != c.sha(env.session) {
      VerifyExact(c.sha, env.cookie.value, env.session, Kept(c, env.session, DigestFor(s)));
    }
  }
}
