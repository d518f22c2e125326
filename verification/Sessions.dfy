/**
  Browser sessions across requests: logins begin a chain, /authorize rolls a
  session over to a new one, and max_age and prompt=login force the user to log
  in again (internal/http_handlers/authorize.go, internal/token/auth_token.go).

  Times are Unix seconds. Sealing and opening session tokens is a parameter.
 */
module Sessions {
  import opened Text
  import opened SessionValue
  import opened Authorize
  import opened Numbers

  datatype SessionData = SessionData(
    subject: Str, loginMethod: Str, nonce: Str, issuedAt: int, authTime: int, expiresAt: int)

  const DAY: int := 24 * 60 * 60

  /** The time of the login a session goes back to; sessions of older builds carry none of their own. */
  function EffectiveAuthTime(sd: SessionData): int {
    if sd.authTime != 0 then sd.authTime else sd.issuedAt
  }

  /** CreateSessionToken: no authentication time given means now. */
  function NewSession(subject: Str, loginMethod: Str, nonce: Str, authTime: int, now: int): SessionData {
    SessionData(subject, loginMethod, nonce, now, if authTime == 0 then now else authTime, now + DAY)
  }

  /** The place of a session in the store: the owner, and the nonce the session_token key carries. */
  datatype Slot = Slot(owner: Str, nonce: Str)

  function SlotOf(sd: SessionData): Slot {
    Slot(if sd.loginMethod != [] then sd.loginMethod + ":" + sd.subject else sd.subject, sd.nonce)
  }

  /** Sessions of different users, of different methods, or with different nonces have different places. */
  lemma SlotsApart(a: SessionData, b: SessionData)
    requires SlotOf(a) == SlotOf(b) && ':' !in a.subject && ':' !in b.subject && ':' !in a.loginMethod && ':' !in b.loginMethod
    ensures a.subject == b.subject && a.loginMethod == b.loginMethod && a.nonce == b.nonce
  {
    var s, t := SlotOf(a).owner, SlotOf(b).owner;
    if a.loginMethod != [] {
      assert s[|a.loginMethod|] == ':' && s[..|a.loginMethod|] == a.loginMethod && s[|a.loginMethod| + 1..] == a.subject;
    }
    if b.loginMethod != [] {
      assert t[|b.loginMethod|] == ':' && t[..|b.loginMethod|] == b.loginMethod && t[|b.loginMethod| + 1..] == b.subject;
    }
  }

  /** DecryptAES with Unmarshal, and SHA-256 in hexadecimal. */
  datatype Crypto = Crypto(open: Str -> Option<SessionData>, sha: Str -> Str)

  type Store = map<Slot, Str>

  /** ValidateBrowserSession, the liveness of the subject aside. */
  predicate Validates(c: Crypto, store: Store, token: Str, now: int) {
    && token != [] && c.open(token).Some?
    && var sd := c.open(token).value;
       SlotOf(sd) in store && VerifySessionValue(c.sha, token, store[SlotOf(sd)]) && sd.expiresAt > now
  }

  /** max_age, or -1 when it is absent, negative or not a number. */
  function MaxAge(req: Request): int {
    match Atoi(req.maxAge)
    case Some(n) => if n >= 0 then n else -1
    case None => -1
  }

  /** prompt=login, max_age=0, or a session older than max_age. */
  predicate ForcesReauth(c: Crypto, req: Request, cookie: Option<Str>, now: int) {
    || req.prompt.PromptLogin? || MaxAge(req) == 0
    || (&& MaxAge(req) > 0 && !req.prompt.PromptNone? && cookie.Some? && c.open(cookie.value).Some?
        && now - EffectiveAuthTime(c.open(cookie.value).value) > MaxAge(req))
  }

  /** The request asks for a fresh login outright. */
  ghost predicate AsksLogin(req: Request) { req.prompt.PromptLogin? || Spells(req.maxAge, 0) }

  /** The login behind this cookie is further back than a max_age that counts. */
  ghost predicate TooOld(c: Crypto, req: Request, cookie: Option<Str>, now: int, n: int) {
    && 0 < n < TWO_63 && Spells(req.maxAge, n) && !req.prompt.PromptNone?
    && cookie.Some? && c.open(cookie.value).Some? && now - EffectiveAuthTime(c.open(cookie.value).value) > n
  }

  lemma MaxAgeExact(req: Request, n: int)
    requires n >= 0
    ensures MaxAge(req) == n <==> Spells(req.maxAge, n) && n < TWO_63
  {
    AtoiExact(req.maxAge, n);
  }

  /** What forces a login, in terms of the text of max_age. */
  lemma ForcesExactly(c: Crypto, req: Request, cookie: Option<Str>, now: int)
    ensures ForcesReauth(c, req, cookie, now) <==> AsksLogin(req) || exists n :: TooOld(c, req, cookie, now, n)
  {
    MaxAgeExact(req, 0);
    forall n | n > 0
      ensures MaxAge(req) == n <==> Spells(req.maxAge, n) && n < TWO_63
    {
      MaxAgeExact(req, n);
    }
    if MaxAge(req) > 0 && ForcesReauth(c, req, cookie, now) && !AsksLogin(req) {
      assert TooOld(c, req, cookie, now, MaxAge(req));
    }
  }

  /** Without a max_age, or with one that is no numeral or a negative one, only prompt=login forces anything. */
  lemma NothingForces(c: Crypto, req: Request, cookie: Option<Str>, now: int)
    requires !req.prompt.PromptLogin? && forall n :: n >= 0 ==> !Spells(req.maxAge, n)
    ensures !ForcesReauth(c, req, cookie, now)
  {
    ForcesExactly(c, req, cookie, now);
  }

  lemma NoMaxAge(n: int)
    ensures !Spells([], n)
  {
    UnsignedExact([], if n >= 0 then n else -n);
  }

  /** What forcing does to the store: the presented session goes. */
  function Revoked(c: Crypto, store: Store, cookie: Option<Str>): Store {
    if cookie.Some? && cookie.value != [] && c.open(cookie.value).Some?
    then store - {SlotOf(c.open(cookie.value).value)} else store
  }

  // ---------------------------------------------------------------- requests and logins, interleaved

  /** A request that got past every check with this session, and whether it has dropped it yet. */
  datatype Pass = Pass(token: Str, req: Request, checkedAt: int, dropped: bool)

  datatype Mint =
    | LoggedIn(token: Str, at: int)
    | RolledOver(token: Str, previous: Str, pass: Pass)
    | Renewed(token: Str, previous: Str)

  /** The store, the requests of /authorize and of the session query that hold a validated session, and the tokens minted. */
  datatype State = State(store: Store, passing: multiset<Pass>, visiting: multiset<Str>, log: seq<Mint>)

  datatype Step =
    | Login(token: Str, subject: Str, loginMethod: Str, nonce: Str, now: int, digest: bool)
    | Arrive(req: Request, cookie: Option<Str>, now: int, userKnown: bool, gateOpen: bool)
    | Drop(pass: Pass)
    | Answer(pass: Pass, token: Str, nonce: Str, now: int, digest: bool)
    | Abandon(pass: Pass)
    | Visit(token: Str, now: int)                                 // the session query validates a session
    | Renew(previous: Str, token: Str, nonce: Str, now: int)      // and rolls it over, before it drops the old one
    | Forget(slot: Slot)

  function Kept(c: Crypto, token: Str, digest: bool): Str {
    if digest then HashSessionValue(c.sha, token) else token
  }

  ghost predicate Unused(log: seq<Mint>, token: Str) { forall e :: e in log ==> e.token != token }

  /** A new token is fresh, is token text, and opens to what was sealed. */
  ghost predicate Enabled(c: Crypto, texts: set<Str>, s: State, step: Step) {
    match step
    case Login(token, subject, loginMethod, nonce, now, _) =>
      && now > 0 && Unused(s.log, token) && TokenText(token) && token in texts
      && c.open(token) == Some(NewSession(subject, loginMethod, nonce, 0, now))
    case Arrive(_, cookie, _, _, _) => cookie.Some? ==> cookie.value in texts
    case Drop(pass) => pass in s.passing && !pass.dropped
    case Answer(pass, token, nonce, now, _) =>
      && now > 0 && Unused(s.log, token) && TokenText(token) && token in texts
      && pass in s.passing && pass.dropped && c.open(pass.token).Some?
      && var sd := c.open(pass.token).value;
         c.open(token) == Some(NewSession(sd.subject, sd.loginMethod, nonce, EffectiveAuthTime(sd), now))
    case Abandon(pass) => pass in s.passing
    case Visit(token, _) => token in texts
    case Renew(previous, token, nonce, now) =>
      && now > 0 && Unused(s.log, token) && TokenText(token) && token in texts
      && previous in s.visiting && c.open(previous).Some?
      && var sd := c.open(previous).value;
         c.open(token) == Some(NewSession(sd.subject, sd.loginMethod, nonce, EffectiveAuthTime(sd), now))
    case Forget(_) => true
  }

  function Apply(c: Crypto, s: State, step: Step): State {
    match step
    case Login(token, _, _, _, now, digest) =>
      if c.open(token).None? then s else
        s.(store := s.store[SlotOf(c.open(token).value) := Kept(c, token, digest)], log := s.log + [LoggedIn(token, now)])
    case Arrive(req, cookie, now, userKnown, gateOpen) =>
      if ForcesReauth(c, req, cookie, now) then s.(store := Revoked(c, s.store, cookie))
      else if cookie.Some? && Validates(c, s.store, cookie.value, now) && userKnown && gateOpen
      then s.(passing := s.passing + multiset{Pass(cookie.value, req, now, false)}) else s
    case Drop(pass) =>
      if c.open(pass.token).None? then s else
        s.(store := s.store - {SlotOf(c.open(pass.token).value)},
           passing := s.passing - multiset{pass} + multiset{pass.(dropped := true)})
    case Answer(pass, token, nonce, now, digest) =>
      if c.open(token).None? then s else
        s.(store := s.store[SlotOf(c.open(token).value) := Kept(c, token, digest)], passing := s.passing - multiset{pass},
           log := s.log + [RolledOver(token, pass.token, pass)])
    case Abandon(pass) => s.(passing := s.passing - multiset{pass})
    case Visit(token, now) => if Validates(c, s.store, token, now) then s.(visiting := s.visiting + multiset{token}) else s
    case Renew(previous, token, nonce, now) =>
      if c.open(token).None? then s else
        s.(store := s.store[SlotOf(c.open(token).value) := Kept(c, token, true)], visiting := s.visiting - multiset{previous},
           log := s.log + [Renewed(token, previous)])
    case Forget(slot) => s.(store := s.store - {slot})
  }

  ghost predicate Run(c: Crypto, texts: set<Str>, s: State, steps: seq<Step>)
    decreases |steps|
  {
    steps == [] || (Enabled(c, texts, s, steps[0]) && Run(c, texts, Apply(c, s, steps[0]), steps[1..]))
  }

  function After(c: Crypto, s: State, steps: seq<Step>): State
    decreases |steps|
  {
    if steps == [] then s else After(c, Apply(c, s, steps[0]), steps[1..])
  }

  // ---------------------------------------------------------------- chains

  /** The time of the login that began the chain of a token, read off the log alone. */
  ghost function ChainStart(log: seq<Mint>, token: Str): int {
    if log == [] then 0 else
      var last := log[|log| - 1];
      var earlier := log[..|log| - 1];
      if last.token != token then ChainStart(earlier, token)
      else match last
        case LoggedIn(_, at) => at
        case RolledOver(_, previous, _) => ChainStart(earlier, previous)
        case Renewed(_, previous) => ChainStart(earlier, previous)
  }

  ghost predicate IsMinted(log: seq<Mint>, token: Str) { exists e :: e in log && e.token == token }

  /** A chain begins with a login that is in the log. */
  lemma {:induction false} ChainStartIsLogin(log: seq<Mint>, token: Str)
    requires IsMinted(log, token) && Linked(log)
    ensures exists first :: LoggedIn(first, ChainStart(log, token)) in log
  {
    var last, earlier := log[|log| - 1], log[..|log| - 1];
    if last.token == token && last.LoggedIn? {
      assert LoggedIn(token, ChainStart(log, token)) == last;
    } else {
      var t := if last.token == token then last.previous else token;
      ChainStartIsLogin(earlier, t);
      var first :| LoggedIn(first, ChainStart(earlier, t)) in earlier;
      assert LoggedIn(first, ChainStart(log, token)) in log;
    }
  }

  /** Every rollover starts from a token minted before it. */
  ghost predicate Linked(log: seq<Mint>) {
    log == [] ||
    (Linked(log[..|log| - 1]) &&
     (!log[|log| - 1].LoggedIn? ==> IsMinted(log[..|log| - 1], log[|log| - 1].previous)))
  }

  // ---------------------------------------------------------------- invariants

  /** A minted token opens to a session whose authentication time is that of its chain's login. */
  ghost predicate TokenOK(c: Crypto, texts: set<Str>, log: seq<Mint>, token: Str) {
    && TokenText(token) && token in texts && c.open(token).Some?
    && EffectiveAuthTime(c.open(token).value) == ChainStart(log, token) > 0
  }

  /** A request passes the checks only when it does not ask for a fresh login and is within max_age. */
  ghost predicate PassOK(log: seq<Mint>, p: Pass) {
    && IsMinted(log, p.token) && !p.req.prompt.PromptLogin? && MaxAge(p.req) != 0
    && (MaxAge(p.req) > 0 && !p.req.prompt.PromptNone? ==> p.checkedAt - ChainStart(log, p.token) <= MaxAge(p.req))
  }

  /** What is kept in a slot stands for a minted token of that slot. */
  ghost predicate SlotOK(c: Crypto, log: seq<Mint>, slot: Slot, kept: Str) {
    exists e :: e in log && c.open(e.token).Some? && SlotOf(c.open(e.token).value) == slot
                && Represents(c.sha, kept, e.token)
  }

  ghost predicate Inv(c: Crypto, texts: set<Str>, s: State) {
    && Linked(s.log)
    && (forall e :: e in s.log ==> TokenOK(c, texts, s.log, e.token))
    && (forall e :: e in s.log && e.RolledOver? ==> e.previous == e.pass.token && PassOK(s.log, e.pass))
    && (forall p :: p in s.passing ==> PassOK(s.log, p))
    && (forall token :: token in s.visiting ==> IsMinted(s.log, token))
    && (forall slot :: slot in s.store ==> SlotOK(c, s.log, slot, s.store[slot]))
  }

  // ---------------------------------------------------------------- every step keeps them

  lemma MintKeepsPass(log: seq<Mint>, e: Mint, p: Pass)
    requires Unused(log, e.token) && PassOK(log, p)
    ensures PassOK(log + [e], p)
  {
  }

  lemma MintKeepsTokens(c: Crypto, texts: set<Str>, log: seq<Mint>, e: Mint)
    requires forall m :: m in log ==> TokenOK(c, texts, log, m.token)
    requires Unused(log, e.token) && TokenOK(c, texts, log + [e], e.token)
    ensures forall m :: m in log + [e] ==> TokenOK(c, texts, log + [e], m.token)
  {
  }

  lemma MintKeepsStore(c: Crypto, s: State, e: Mint, digest: bool)
    requires forall k :: k in s.store ==> SlotOK(c, s.log, k, s.store[k])
    requires c.open(e.token).Some? && TokenText(e.token)
    ensures var store := s.store[SlotOf(c.open(e.token).value) := Kept(c, e.token, digest)];
            forall k :: k in store ==> SlotOK(c, s.log + [e], k, store[k])
  {
  }

  lemma MintKeepsPasses(s: State, e: Mint, passing: multiset<Pass>, visiting: multiset<Str>)
    requires Unused(s.log, e.token) && (e.RolledOver? ==> e.previous == e.pass.token && PassOK(s.log, e.pass))
    requires forall m :: m in s.log && m.RolledOver? ==> m.previous == m.pass.token && PassOK(s.log, m.pass)
    requires forall p :: p in s.passing ==> PassOK(s.log, p)
    requires forall token :: token in s.visiting ==> IsMinted(s.log, token)
    requires passing <= s.passing && visiting <= s.visiting
    ensures forall m :: m in s.log + [e] && m.RolledOver? ==> m.previous == m.pass.token && PassOK(s.log + [e], m.pass)
    ensures forall p :: p in passing ==> PassOK(s.log + [e], p)
    ensures forall token :: token in visiting ==> IsMinted(s.log + [e], token)
  {
    forall p | PassOK(s.log, p)
      ensures PassOK(s.log + [e], p)
    {
      MintKeepsPass(s.log, e, p);
    }
    forall token | IsMinted(s.log, token)
      ensures IsMinted(s.log + [e], token)
    {
      var m :| m in s.log && m.token == token;
      assert m in s.log + [e];
    }
  }

  /** A login or a rollover: one new token, stored in its slot. */
  lemma MintKeeps(c: Crypto, texts: set<Str>, s: State, e: Mint, digest: bool, passing: multiset<Pass>,
                  visiting: multiset<Str>)
    requires Inv(c, texts, s) && Unused(s.log, e.token) && TokenOK(c, texts, s.log + [e], e.token)
    requires e.RolledOver? ==> e.previous == e.pass.token && PassOK(s.log, e.pass)
    requires e.Renewed? ==> IsMinted(s.log, e.previous)
    requires passing <= s.passing && visiting <= s.visiting
    ensures var store := s.store[SlotOf(c.open(e.token).value) := Kept(c, e.token, digest)];
            Inv(c, texts, State(store, passing, visiting, s.log + [e]))
  {
    var log := s.log + [e];
    assert log[..|s.log|] == s.log;
    MintKeepsTokens(c, texts, s.log, e);
    MintKeepsStore(c, s, e, digest);
    MintKeepsPasses(s, e, passing, visiting);
  }

  /** Only a minted token validates: what the store holds stands for one token, in either format. */
  lemma ValidatedIsMinted(c: Crypto, texts: set<Str>, s: State, token: Str, now: int)
    requires CollisionFree(c.sha, texts) && Inv(c, texts, s) && token in texts && Validates(c, s.store, token, now)
    ensures IsMinted(s.log, token)
  {
    var slot := SlotOf(c.open(token).value);
    var e :| e in s.log && c.open(e.token).Some? && SlotOf(c.open(e.token).value) == slot
             && Represents(c.sha, s.store[slot], e.token);
    VerifyExact(c.sha, token, e.token, s.store[slot]);
  }

  lemma ShrinkKeeps(c: Crypto, texts: set<Str>, s: State, store: Store, passing: multiset<Pass>)
    requires Inv(c, texts, s) && (forall k :: k in store ==> k in s.store && store[k] == s.store[k])
    requires forall p :: p in passing ==> PassOK(s.log, p)
    ensures Inv(c, texts, s.(store := store, passing := passing))
  {
  }

  lemma ArriveKeeps(c: Crypto, texts: set<Str>, s: State, step: Step)
    requires CollisionFree(c.sha, texts) && Inv(c, texts, s) && step.Arrive? && Enabled(c, texts, s, step)
    ensures Inv(c, texts, Apply(c, s, step))
  {
    var Arrive(req, cookie, now, userKnown, gateOpen) := step;
    if !ForcesReauth(c, req, cookie, now) && cookie.Some? && Validates(c, s.store, cookie.value, now) {
      ValidatedIsMinted(c, texts, s, cookie.value, now);
      assert PassOK(s.log, Pass(cookie.value, req, now, false));
    }
  }

  lemma StepKeeps(c: Crypto, texts: set<Str>, s: State, step: Step)
    requires CollisionFree(c.sha, texts) && Inv(c, texts, s) && Enabled(c, texts, s, step)
    ensures Inv(c, texts, Apply(c, s, step))
  {
    match step
    case Login(token, _, _, _, now, digest) => MintKeeps(c, texts, s, LoggedIn(token, now), digest, s.passing, s.visiting);
    case Arrive(_, _, _, _, _) => ArriveKeeps(c, texts, s, step);
    case Drop(pass) =>
      assert PassOK(s.log, pass) ==> PassOK(s.log, pass.(dropped := true));
    case Answer(_, _, _, _, _) => AnswerKeeps(c, texts, s, step);
    case Abandon(pass) => ShrinkKeeps(c, texts, s, s.store, s.passing - multiset{pass});
    case Visit(token, now) =>
      if Validates(c, s.store, token, now) {
        ValidatedIsMinted(c, texts, s, token, now);
      }
    case Renew(_, _, _, _) => RenewKeeps(c, texts, s, step);
    case Forget(slot) => ShrinkKeeps(c, texts, s, s.store - {slot}, s.passing);
  }

  /** The rolled-over session carries the authentication time of the one it replaces. */
  lemma AnswerKeeps(c: Crypto, texts: set<Str>, s: State, step: Step)
    requires Inv(c, texts, s) && step.Answer? && Enabled(c, texts, s, step)
    ensures Inv(c, texts, Apply(c, s, step))
  {
    var Answer(pass, token, nonce, now, digest) := step;
    var e := RolledOver(token, pass.token, pass);
    assert (s.log + [e])[..|s.log|] == s.log;
    MintKeeps(c, texts, s, e, digest, s.passing - multiset{pass}, s.visiting);
  }

  lemma RenewKeeps(c: Crypto, texts: set<Str>, s: State, step: Step)
    requires Inv(c, texts, s) && step.Renew? && Enabled(c, texts, s, step)
    ensures Inv(c, texts, Apply(c, s, step))
  {
    var Renew(previous, token, nonce, now) := step;
    var e := Renewed(token, previous);
    assert (s.log + [e])[..|s.log|] == s.log;
    MintKeeps(c, texts, s, e, true, s.passing, s.visiting - multiset{previous});
  }

  lemma {:induction false} RunKeeps(c: Crypto, texts: set<Str>, s: State, steps: seq<Step>)
    requires CollisionFree(c.sha, texts) && Inv(c, texts, s) && Run(c, texts, s, steps)
    ensures Inv(c, texts, After(c, s, steps))
    decreases |steps|
  {
    if steps != [] {
      StepKeeps(c, texts, s, steps[0]);
      RunKeeps(c, texts, Apply(c, s, steps[0]), steps[1..]);
    }
  }

  const NOTHING: State := State(map[], multiset{}, multiset{}, [])

  /**
    Over every interleaving of logins, silent rollovers and logouts, however
    many: a session that validates carries the time of the login that began its
    chain, and that login took place.
   */
  lemma AuthTimeIsLoginTime(c: Crypto, texts: set<Str>, steps: seq<Step>, token: Str, now: int)
    requires CollisionFree(c.sha, texts) && Run(c, texts, NOTHING, steps) && token in texts
    requires Validates(c, After(c, NOTHING, steps).store, token, now)
    ensures var t := After(c, NOTHING, steps);
            var begun := EffectiveAuthTime(c.open(token).value);
            begun == ChainStart(t.log, token) && exists first :: LoggedIn(first, begun) in t.log
  {
    RunKeeps(c, texts, NOTHING, steps);
    var t := After(c, NOTHING, steps);
    ValidatedIsMinted(c, texts, t, token, now);
    ChainStartIsLogin(t.log, token);
  }

  /**
    Every request ever answered with a code or a token asked for neither
    prompt=login nor max_age=0, and one that gave a positive max_age without
    prompt=none was checked within max_age seconds of the login.
   */
  lemma MaxAgeHonoured(c: Crypto, texts: set<Str>, steps: seq<Step>, e: Mint)
    requires CollisionFree(c.sha, texts) && Run(c, texts, NOTHING, steps)
    requires e in After(c, NOTHING, steps).log && e.RolledOver?
    ensures var t := After(c, NOTHING, steps);
            && !AsksLogin(e.pass.req)
            && (!e.pass.req.prompt.PromptNone? ==>
                  forall n :: 0 < n < TWO_63 && Spells(e.pass.req.maxAge, n) ==>
                    e.pass.checkedAt - ChainStart(t.log, e.previous) <= n)
            && exists first :: LoggedIn(first, ChainStart(t.log, e.previous)) in t.log
  {
    RunKeeps(c, texts, NOTHING, steps);
    var t := After(c, NOTHING, steps);
    ChainStartIsLogin(t.log, e.previous);
    MaxAgeExact(e.pass.req, 0);
    forall n | 0 < n < TWO_63 && Spells(e.pass.req.maxAge, n)
      ensures MaxAge(e.pass.req) == n
    {
      MaxAgeExact(e.pass.req, n);
    }
  }

  // ---------------------------------------------------------------- sessions that are over

  /** The store still holds this very session. */
  predicate Live(c: Crypto, store: Store, token: Str) {
    && c.open(token).Some? && SlotOf(c.open(token).value) in store
    && Represents(c.sha, store[SlotOf(c.open(token).value)], token)
  }

  /** A session validates exactly while the store holds it and it has not run out. */
  lemma ValidatesExact(c: Crypto, texts: set<Str>, s: State, token: Str, now: int)
    requires CollisionFree(c.sha, texts) && Inv(c, texts, s) && token in texts && TokenText(token)
    ensures Validates(c, s.store, token, now) <==>
            Live(c, s.store, token) && c.open(token).value.expiresAt > now
  {
    if c.open(token).Some? && SlotOf(c.open(token).value) in s.store {
      var slot := SlotOf(c.open(token).value);
      var e :| e in s.log && c.open(e.token).Some? && SlotOf(c.open(e.token).value) == slot
               && Represents(c.sha, s.store[slot], e.token);
      VerifyExact(c.sha, token, e.token, s.store[slot]);
      if Represents(c.sha, s.store[slot], token) {
        RepresentsOne(c.sha, s.store[slot], token, e.token);
      }
    }
  }

  /** Storing a fresh token brings no earlier one back. */
  lemma MintKeepsDead(c: Crypto, texts: set<Str>, s: State, minted: Str, digest: bool, token: Str)
    requires CollisionFree(c.sha, texts) && Unused(s.log, minted) && TokenText(minted) && minted in texts && c.open(minted).Some?
    requires IsMinted(s.log, token) && TokenOK(c, texts, s.log, token) && !Live(c, s.store, token)
    ensures !Live(c, s.store[SlotOf(c.open(minted).value) := Kept(c, minted, digest)], token)
  {
    if Represents(c.sha, Kept(c, minted, digest), token) {
      RepresentsOne(c.sha, Kept(c, minted, digest), token, minted);
    }
  }

  lemma StepKeepsDead(c: Crypto, texts: set<Str>, s: State, step: Step, token: Str)
    requires CollisionFree(c.sha, texts) && Inv(c, texts, s) && Enabled(c, texts, s, step)
    requires IsMinted(s.log, token) && !Live(c, s.store, token)
    ensures !Live(c, Apply(c, s, step).store, token) && IsMinted(Apply(c, s, step).log, token)
  {
    var m :| m in s.log && m.token == token;
    match step
    case Login(minted, _, _, _, _, digest) => MintKeepsDead(c, texts, s, minted, digest, m.token);
    case Answer(_, minted, _, _, digest) => MintKeepsDead(c, texts, s, minted, digest, m.token);
    case Renew(_, minted, _, _) => MintKeepsDead(c, texts, s, minted, true, m.token);
    case _ =>
  }

  /** Once a session is gone from the store nothing brings it back, even when its slot is used again. */
  lemma {:induction false} DeadStaysDead(c: Crypto, texts: set<Str>, s: State, steps: seq<Step>, token: Str, now: int)
    requires CollisionFree(c.sha, texts) && Inv(c, texts, s) && Run(c, texts, s, steps)
    requires IsMinted(s.log, token) && !Live(c, s.store, token)
    ensures !Validates(c, After(c, s, steps).store, token, now)
    decreases |steps|
  {
    if steps == [] {
      var m :| m in s.log && m.token == token;
    } else {
      StepKeeps(c, texts, s, steps[0]);
      StepKeepsDead(c, texts, s, steps[0], token);
      DeadStaysDead(c, texts, Apply(c, s, steps[0]), steps[1..], token, now);
    }
  }

  /**
    prompt=login, max_age=0 and an exceeded max_age leave the presented session
    dead for good: no later state of any run accepts it.
   */
  lemma ForcedReauthIsFinal(c: Crypto, texts: set<Str>, before: seq<Step>, arrival: Step, later: seq<Step>, now: int)
    requires CollisionFree(c.sha, texts) && arrival.Arrive? && arrival.cookie.Some?
    requires Run(c, texts, NOTHING, before)
    requires Enabled(c, texts, After(c, NOTHING, before), arrival)
    requires Run(c, texts, Apply(c, After(c, NOTHING, before), arrival), later)
    requires AsksLogin(arrival.req) || exists n :: TooOld(c, arrival.req, arrival.cookie, arrival.now, n)
    requires IsMinted(After(c, NOTHING, before).log, arrival.cookie.value)
    ensures var s := After(c, NOTHING, before);
            && Apply(c, s, arrival).passing == s.passing && Apply(c, s, arrival).log == s.log
            && !Validates(c, After(c, Apply(c, s, arrival), later).store, arrival.cookie.value, now)
  {
    RunKeeps(c, texts, NOTHING, before);
    ForcesExactly(c, arrival.req, arrival.cookie, arrival.now);
    var s := After(c, NOTHING, before);
    DeadStaysDead(c, texts, Apply(c, s, arrival), later, arrival.cookie.value, now);
  }

  /** A request that is answered leaves the session it came with dead for good. */
  lemma RolloverIsFinal(c: Crypto, texts: set<Str>, before: seq<Step>, drop: Step, later: seq<Step>, now: int)
    requires CollisionFree(c.sha, texts) && drop.Drop?
    requires Run(c, texts, NOTHING, before)
    requires Enabled(c, texts, After(c, NOTHING, before), drop)
    requires Run(c, texts, Apply(c, After(c, NOTHING, before), drop), later)
    ensures !Validates(c, After(c, Apply(c, After(c, NOTHING, before), drop), later).store, drop.pass.token, now)
  {
    RunKeeps(c, texts, NOTHING, before);
    var s := After(c, NOTHING, before);
    StepKeeps(c, texts, s, drop);
    DeadStaysDead(c, texts, Apply(c, s, drop), later, drop.pass.token, now);
  }
}
