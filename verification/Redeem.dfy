/**
  Redeeming an authorization code at the token endpoint
  (internal/http_handlers/token.go), and what a code that /authorize has issued
  is worth there.
 */
module Redeem {
  import opened Text
  import opened SessionValue
  import opened ResponseType
  import opened Redirect
  import opened Authorize
  import opened Reading
  import opened Response
  import opened Sessions
  import opened Endpoint
  import Bridge
  import CodeState

  const MARK: Str := "::"

  /** What the client sends along with the code; it has been authenticated as this client. */
  datatype TokenRequest = TokenRequest(client: Str, redirectURI: Str, verifier: Str, resources: seq<Str>, secret: bool)

  /** Whose session the code stood on, and what it was bound to. */
  datatype Redeemed = Redeemed(claims: SessionData, nonce: Str, resource: Str)

  /** strings.LastIndex, among the positions below this one. */
  function LastBelow(s: Str, sub: Str, below: nat): (r: Option<nat>)
    ensures r.Some? ==> r.value < below && At(s, sub, r.value) && forall j :: r.value < j < below ==> !At(s, sub, j)
    ensures r.None? ==> forall j :: 0 <= j < below ==> !At(s, sub, j)
  {
    if below == 0 then None else if At(s, sub, below - 1) then Some(below - 1) else LastBelow(s, sub, below - 1)
  }

  /** The challenge and its method; a challenge of an older build has none. */
  function Challenge(stored: Str): (Str, Str) {
    match LastBelow(stored, MARK, |stored|)
    case Some(i) => (stored[..i], stored[i + 2..])
    case None => (stored, PLAIN_NAME)
  }

  function TrimPadding(s: Str): Str {
    if s != [] && s[|s| - 1] == '=' then TrimPadding(s[..|s| - 1]) else s
  }

  /** PKCE, or failing that a client secret; s256 is the base64url text of a SHA-256. */
  predicate ProofGiven(s256: Str -> Str, strict: bool, stored: Str, verifier: Str, secret: bool) {
    var (challenge, how) := Challenge(stored);
    if challenge == [] then verifier == [] && secret
    else && verifier != [] && !(strict && how == PLAIN_NAME)
         && ((how == S256_NAME && s256(verifier) == TrimPadding(challenge)) || (how == PLAIN_NAME && verifier == challenge))
  }

  /** The request is the one this code was issued for. */
  predicate Matching(s256: Str -> Str, strict: bool, stored: CodeState.Code, tr: TokenRequest) {
    && (stored.clientID != [] ==> tr.client == stored.clientID)
    && (stored.redirectURI != [] ==> TrimSpace(tr.redirectURI) == stored.redirectURI)
    && (stored.resource != [] ==> |tr.resources| == 1 && TrimSpace(tr.resources[0]) == stored.resource)
    && ProofGiven(s256, strict, stored.challenge, TrimSpace(tr.verifier), tr.secret)
  }

  class TokenServer {
    var texts: map<Str, Str>
    var sessions: Store

    constructor (texts: map<Str, Str>, sessions: Store)
      ensures this.texts == texts && this.sessions == sessions
    {
      this.texts, this.sessions := texts, sessions;
    }

    /** PKCE as the handler goes through it. */
    method CheckProof(s256: Str -> Str, strict: bool, stored: Str, verifier: Str, secret: bool) returns (ok: bool)
      ensures ok <==> ProofGiven(s256, strict, stored, verifier, secret)
    {
      var challenge, how := stored, PLAIN_NAME;
      var i := LastBelow(stored, MARK, |stored|);
      if i.Some? {
        how := stored[i.value + 2..];
        challenge := stored[..i.value];
      }
      if strict && challenge != [] && how == PLAIN_NAME {
        return false;
      }
      if challenge != [] && verifier != [] {
        if how == S256_NAME {
          return s256(verifier) == TrimPadding(challenge);
        }
        return how == PLAIN_NAME && verifier == challenge;
      }
      if challenge != [] || verifier != [] {
        return false;
      }
      return secret;
    }

    /**
      A code is used up whatever comes of it, and is worth something exactly to
      a request that matches what it was issued for, while its session is good.
     */
    method RedeemCode(c: Crypto, s256: Str -> Str, strict: bool, code: Str, tr: TokenRequest, now: int) returns (r: Option<Redeemed>)
      modifies this
      ensures sessions == old(sessions) && texts == if code == [] then old(texts) else old(texts) - {code}
      ensures r.Some? <==>
                && code != [] && code in old(texts) && CodeState.HasCode(old(texts)[code])
                && var stored := CodeState.ParseCode(old(texts)[code]);
                   Matching(s256, strict, stored, tr) && Validates(c, old(sessions), stored.session, now)
      ensures r.Some? ==>
                var stored := CodeState.ParseCode(old(texts)[code]);
                c.open(stored.session).Some? && r.value == Redeemed(c.open(stored.session).value, stored.nonce, stored.resource)
    {
      if code == [] {
        return None;
      }
      var text := if code in texts then texts[code] else [];
      texts := texts - {code};
      CodeState.HasCodeExact(text);
      if text == [] {
        return None;
      }
      var stored := CodeState.DecodeCode(text);
      if stored.clientID != [] && tr.client != stored.clientID {
        return None;
      }
      if stored.redirectURI != [] && TrimSpace(tr.redirectURI) != stored.redirectURI {
        return None;
      }
      if stored.resource != [] && (|tr.resources| != 1 || TrimSpace(tr.resources[0]) != stored.resource) {
        return None;
      }
      var ok := CheckProof(s256, strict, stored.challenge, TrimSpace(tr.verifier), tr.secret);
      // A text without the delimiter has no session to look at.
      if !ok || !CodeState.HasCode(text) || !Validates(c, sessions, stored.session, now) {
        return None;
      }
      return Some(Redeemed(c.open(stored.session).value, stored.nonce, stored.resource));
    }
  }

  // ---------------------------------------------------------------- the challenge

  /** Whatever the challenge holds, it is told apart from a method that holds no colon. */
  lemma ChallengeReads(challenge: Str, how: Str)
    requires ':' !in how
    ensures Challenge(challenge + MARK + how) == (challenge, how)
  {
    var s := challenge + MARK + how;
    assert s[|challenge|..|challenge| + 2] == MARK && At(s, MARK, |challenge|);
    forall j | |challenge| < j < |s|
      ensures !At(s, MARK, j)
    {
      if j + 2 <= |s| {
        assert s[j..j + 2][1] == s[j + 1] == how[j - |challenge| - 1];
      }
    }
    assert s[..|challenge|] == challenge && s[|challenge| + 2..] == how;
  }

  /** The method a request is held to: the one it names, or plain. */
  ghost function HowText(req: Request): Str { if req.codeChallengeMethod == S256 then S256_NAME else PLAIN_NAME }

  /** The proof a request asks for of whoever redeems its code, in its own terms. */
  ghost predicate ProofFor(s256: Str -> Str, strict: bool, req: Request, verifier: Str, secret: bool) {
    if req.codeChallenge == [] then verifier == [] && secret
    else if req.codeChallengeMethod == S256 then verifier != [] && s256(verifier) == TrimPadding(req.codeChallenge)
    else !strict && verifier == req.codeChallenge
  }

  lemma ChallengeDataReads(cfg: Config, req: Request, s256: Str -> Str, strict: bool, verifier: Str, secret: bool)
    requires ChallengeOK(cfg, req)
    ensures ProofGiven(s256, strict, ChallengeData(req), verifier, secret) <==> ProofFor(s256, strict, req, verifier, secret)
    ensures CodeState.DelimiterSafe(ChallengeData(req)) <==> !Contains(req.codeChallenge, CodeState.DELIMITER)
  {
    if req.codeChallenge != [] {
      ChallengeReads(req.codeChallenge, HowText(req));
      assert ChallengeData(req) == req.codeChallenge + MARK + HowText(req);
      ChallengeSafe(req.codeChallenge, HowText(req));
    } else {
      assert LastBelow([], MARK, 0).None?;
      assert !Contains([], CodeState.DELIMITER);
    }
  }

  lemma ChallengeSafe(challenge: Str, how: Str)
    requires '@' !in how && how != []
    ensures CodeState.DelimiterSafe(challenge + MARK + how) <==> !Contains(challenge, CodeState.DELIMITER)
  {
    var s, d := challenge + MARK + how, CodeState.DELIMITER;
    assert s[|s| - 1] == how[|how| - 1];
    forall i | 0 <= i <= |s|
      ensures At(s, d, i) <==> At(challenge, d, i)
    {
      if i + 2 <= |s| {
        assert s[i..i + 2] == [s[i], s[i + 1]];
        if i + 2 <= |challenge| {
          assert challenge[i..i + 2] == s[i..i + 2];
        } else {
          assert s[i + 1] != '@';
        }
      }
    }
  }

  lemma TokenIsSafe(t: Str)
    requires TokenText(t)
    ensures CodeState.DelimiterSafe(t)
  {
    forall i | 0 <= i <= |t|
      ensures !At(t, CodeState.DELIMITER, i)
    {
      if i + 2 <= |t| {
        assert t[i..i + 2][0] == t[i];
      }
    }
  }

  // ---------------------------------------------------------------- what an issued code is worth

  /** The redirect URI to repeat: the default, if the request gave none. */
  ghost predicate RepeatsRedirect(req: Request, given: Str) {
    TrimSpace(given) == if req.redirectURI == [] then "/app" else req.redirectURI
  }

  /** Who may redeem the code of a request, in the request's own terms. */
  ghost predicate Entitled(s256: Str -> Str, strict: bool, req: Request, bindsResource: bool, tr: TokenRequest) {
    && (req.clientID == [] || tr.client == req.clientID)
    && RepeatsRedirect(req, tr.redirectURI)
    && (bindsResource && req.resource != [] ==> |tr.resources| == 1 && TrimSpace(tr.resources[0]) == req.resource)
    && ProofFor(s256, strict, req, TrimSpace(tr.verifier), tr.secret)
  }

  /**
    A code that /authorize has just issued is worth, for a day, exactly what its
    request asked for: to its client, repeating its redirect URI and, in the code
    flow, its resource, with the verifier of its challenge by its method, or with
    a secret if it gave no challenge. What it gives is the user of the session
    the request presented, and the request's nonce.
   */
  lemma IssuedRedeems(c: Crypto, cfg: Config, req: Request, facts: Facts, keys: Keys, env: Env, s: set<Str>, st: Stores,
                      s256: Str -> Str, strict: bool, tr: TokenRequest, now: int)
    requires CODE in s && ChallengeOK(cfg, req) && NoFault(env, s) && MintSeals(c, req, env)
    requires env.cookie.Some? && c.open(env.cookie.value).Some? && TokenText(env.session)
    requires !Contains(req.codeChallenge, CodeState.DELIMITER) && CodeState.DelimiterSafe(NonceOf(req, env))
    ensures var t := Answered(c, req, env, s, st.(texts := Spent(req, facts, keys, st.texts)));
            && env.minted.code in t.texts && CodeState.HasCode(t.texts[env.minted.code])
            && var stored := CodeState.ParseCode(t.texts[env.minted.code]);
               && (Matching(s256, strict, stored, tr) <==> Entitled(s256, strict, req, s == {CODE}, tr))
               && (Validates(c, t.sessions, stored.session, now) <==> now < env.now + 24 * 60 * 60)
               && stored.nonce == (if req.nonce != [] then req.nonce else env.drawn)
               && c.open(stored.session).Some?
               && var claims, presented := c.open(stored.session).value, c.open(env.cookie.value).value;
                  && claims.subject == presented.subject && claims.loginMethod == presented.loginMethod
                  && claims.nonce == stored.nonce && claims.issuedAt == env.now
  {
    AnswerKept(c, req, env, s, st.(texts := Spent(req, facts, keys, st.texts)));
    RecordMatches(cfg, req, env, s == {CODE}, s256, strict, tr);
    SessionLasts(c, env, s, Answered(c, req, env, s, st.(texts := Spent(req, facts, keys, st.texts))).sessions, now);
  }

  /** The two entries an answer leaves for its code. */
  lemma AnswerKept(c: Crypto, req: Request, env: Env, s: set<Str>, st: Stores)
    requires CODE in s && NoFault(env, s) && MintSeals(c, req, env) && env.cookie.Some? && c.open(env.cookie.value).Some?
    ensures c.open(env.session).Some?
    ensures var t := Answered(c, req, env, s, st); var slot := SlotOf(c.open(env.session).value);
            && env.minted.code in t.texts
            && t.texts[env.minted.code] == CodeState.EncodeCode(CodeRecord(req, s == {CODE}, env))
            && slot in t.sessions && t.sessions[slot] == Kept(c, env.session, DigestFor(s))
  {
  }

  lemma RecordMatches(cfg: Config, req: Request, env: Env, codeOnly: bool, s256: Str -> Str, strict: bool, tr: TokenRequest)
    requires ChallengeOK(cfg, req) && TokenText(env.session)
    requires !Contains(req.codeChallenge, CodeState.DELIMITER) && CodeState.DelimiterSafe(NonceOf(req, env))
    ensures var text := CodeState.EncodeCode(CodeRecord(req, codeOnly, env)); var stored := CodeState.ParseCode(text);
            && CodeState.HasCode(text) && stored.session == env.session && stored.nonce == NonceOf(req, env)
            && (Matching(s256, strict, stored, tr) <==> Entitled(s256, strict, req, codeOnly, tr))
  {
    var record := CodeRecord(req, codeOnly, env);
    ChallengeDataReads(cfg, req, s256, strict, TrimSpace(tr.verifier), tr.secret);
    TokenIsSafe(env.session);
    CodeState.JoinHoldsDelimiter(CodeState.CodeSegments(record));
    CodeState.CodeRoundTrip(record);
  }

  lemma SessionLasts(c: Crypto, env: Env, s: set<Str>, sessions: Store, now: int)
    requires TokenText(env.session) && c.open(env.session).Some?
    requires var slot := SlotOf(c.open(env.session).value);
             slot in sessions && sessions[slot] == Kept(c, env.session, DigestFor(s))
    ensures Validates(c, sessions, env.session, now) <==> now < c.open(env.session).value.expiresAt
  {
    VerifyExact(c.sha, env.session, env.session, Kept(c, env.session, DigestFor(s)));
  }

  /**
    The other way to the same code: the request is parked under the caller's
    state, a social callback takes it and binds it to a session of its own. The
    code is then worth what it would have been, except that the resource is no
    longer bound.
   */
  lemma ParkedRedeems(cfg: Config, req: Request, env: Env, session: Str, s256: Str -> Str, strict: bool, tr: TokenRequest)
    requires ChallengeOK(cfg, req) && env.minted.code != [] && CodeState.DelimiterSafe(env.minted.code)
    requires !Contains(req.codeChallenge, CodeState.DELIMITER) && CodeState.DelimiterSafe(NonceOf(req, env))
    requires CodeState.DelimiterSafe(session)
    ensures var taken := Bridge.Resolved(Parked(req, true, env)); var stored := CodeState.ParseCode(Bridge.Rebound(taken, session));
            && taken.code == env.minted.code && stored.session == session
            && taken.nonce == stored.nonce == (if req.nonce != [] then req.nonce else env.drawn)
            && (Matching(s256, strict, stored, tr) <==> Entitled(s256, strict, req, false, tr))
  {
    var a := CodeState.Authorize(env.minted.code, ChallengeData(req), NonceOf(req, env), RedirectOf(req), req.resource, req.clientID);
    ChallengeDataReads(cfg, req, s256, strict, TrimSpace(tr.verifier), tr.secret);
    Bridge.CrossExact(a, session);
    Bridge.TakenIsAsked(a);
  }

  /** Without a code flow, what is parked is read back as the nonce alone, unless it holds the delimiter. */
  lemma ParkedNonce(req: Request, env: Env)
    requires env.drawn != [] && !Contains(NonceOf(req, env), CodeState.DELIMITER)
    ensures var taken := Bridge.Resolved(Parked(req, false, env));
            taken.code == [] && taken.nonce == (if req.nonce != [] then req.nonce else env.drawn)
  {
  }
}
