/**
  The consent protocol of self-asserted clients, spread over three requests
  that share one key/value store (internal/http_handlers/consent.go and the
  consent gate of internal/http_handlers/authorize.go).

  /authorize takes a single-use grant or renders a page for the request;
  /authorize/consent takes the pending request of the page and records a grant;
  the browser replays /authorize. Requests run concurrently: each access to the
  store is one atomic step, and entries may expire between any two steps.
 */
module Consent {
  import opened Text
  import opened Form
  import Redirect

  const PENDING_PREFIX: Str := "cimd_consent:"
  const GRANT_PREFIX: Str := "cimd_consent_granted:"

  /** One user asked to authorize one client for one exact parameter set. */
  datatype Ask = Ask(user: Str, client: Str, query: Str)

  /** The request kept while the user decides. */
  datatype Pending = Pending(
    clientID: Str, clientName: Str, redirectURI: Str, scopes: seq<Str>, query: Str, userID: Str) {
    function AskOf(): Ask { Ask(userID, clientID, query) }
  }

  /** A stored text: one that reads as a pending request, the text of a grant, or any other. */
  datatype Entry = Held(pending: Pending) | Granted | Blob(text: Str)

  function PendingKey(id: Str): Str { PENDING_PREFIX + id }

  /** consentGrantKey; sha is the hexadecimal SHA-256 of a text. */
  function GrantKey(sha: Str -> Str, a: Ask): Str {
    GRANT_PREFIX + a.user + ":" + a.client + ":" + sha(a.query)
  }

  /** The two key spaces, and the keys outside both. */
  predicate PendingSpace(k: Str) { HasPrefix(k, PENDING_PREFIX) }

  predicate Foreign(k: Str) { !PendingSpace(k) && !HasPrefix(k, GRANT_PREFIX) }

  /** Digests have one length, and no two of the parameter sets in play share one; user ids hold no colon. */
  ghost predicate Distinguishes(sha: Str -> Str, asks: set<Ask>) {
    && (forall q :: |sha(q)| == 64)
    && CollisionFree(sha, set a | a in asks :: a.query)
    && (forall a :: a in asks ==> ':' !in a.user)
  }

  // ---------------------------------------------------------------- keys

  lemma KeySpacesDisjoint(sha: Str -> Str, a: Ask, id: Str)
    ensures PendingKey(id) != GrantKey(sha, a)
    ensures PendingSpace(PendingKey(id)) && !PendingSpace(GrantKey(sha, a))
    ensures !Foreign(PendingKey(id)) && !Foreign(GrantKey(sha, a))
  {
    assert PendingKey(id)[12] == ':' && GrantKey(sha, a)[12] == '_';
  }

  lemma PendingKeySpace(id: Str)
    ensures PendingSpace(PendingKey(id))
  {
  }

  lemma PendingKeyInjective(i: Str, j: Str)
    requires PendingKey(i) == PendingKey(j)
    ensures i == j
  {
    assert PendingKey(i)[|PENDING_PREFIX|..] == i;
  }

  /** Text before the first colon is determined by the whole. */
  lemma UserDetermined(u: Str, v: Str, x: Str, y: Str)
    requires ':' !in u && ':' !in v && u + ":" + x == v + ":" + y
    ensures u == v && x == y
  {
    var s, t := u + ":" + x, v + ":" + y;
    assert s[|u|] == ':' && t[|v|] == ':';
    assert s[..|u|] == u && t[..|v|] == v && s[|u| + 1..] == x && t[|v| + 1..] == y;
  }

  /** A grant names its user, its client and its exact parameters, even though a client id may hold colons. */
  lemma GrantKeyInjective(sha: Str -> Str, asks: set<Ask>, a: Ask, b: Ask)
    requires Distinguishes(sha, asks) && a in asks && b in asks
    requires GrantKey(sha, a) == GrantKey(sha, b)
    ensures a == b
  {
    var x, y := a.client + ":" + sha(a.query), b.client + ":" + sha(b.query);
    var s, t := a.user + ":" + x, b.user + ":" + y;
    assert GrantKey(sha, a)[|GRANT_PREFIX|..] == s && GrantKey(sha, b)[|GRANT_PREFIX|..] == t;
    UserDetermined(a.user, b.user, x, y);
    assert x[|x| - 64..] == sha(a.query) && y[|y| - 64..] == sha(b.query);
    assert x[..|x| - 65] == a.client && y[..|y| - 65] == b.client;
  }

  // ---------------------------------------------------------------- the protocol

  /** Who GetUserIDFromSessionOrAccessToken says is submitting; a delegated token also names an actor. */
  datatype Submitter = Submitter(user: Str, actor: Str)

  datatype Event =
    | Rendered(ask: Ask)
    | Approved(ask: Ask, approver: Str)
    | IssuedPastGate(ask: Ask)

  /**
    The store, the requests between two of their store accesses, what has
    happened, and the texts other parts of the server wrote: under which keys,
    and which of them read as pending requests under pending keys.
   */
  datatype State = State(
    store: map<Str, Entry>,
    rendering: multiset<Pending>,
    recording: multiset<Ask>,
    log: seq<Event>,
    strays: multiset<Str>,
    strayPages: multiset<Ask>)

  datatype Step =
    | Gate(p: Pending)                                  // /authorize takes the grant of this request
    | Render(p: Pending, id: Str)                       // no grant: the page is stored under an id
    | NoPage(p: Pending)                                // no grant and no page: prompt=none, or a fault
    | Submit(id: Str, who: Option<Submitter>, approve: bool) // /authorize/consent takes the pending request
    | Record(a: Ask)                                    // the approved request records its grant
    | RecordFails(a: Ask)
    | Expire(k: Str)
    | Write(k: Str, e: Entry)                           // any other write: authorize.go:510, codes, login flows

  function Take(store: map<Str, Entry>, k: Str): map<Str, Entry> { store - {k} }

  /** GetAndRemoveState answered with something other than the empty string. */
  predicate Found(store: map<Str, Entry>, k: Str) {
    k in store && store[k] != Blob([])
  }

  /** The checks ConsentHandler makes on a pending request it has taken. */
  predicate MayApprove(p: Pending, who: Option<Submitter>, approve: bool) {
    who.Some? && who.value.user == p.userID && TrimSpace(who.value.actor) == [] && approve
  }

  /** A step a request in flight can take; the users who submit hold no colon in their ids. */
  ghost predicate Enabled(s: State, step: Step) {
    match step
    case Render(p, _) => p in s.rendering
    case NoPage(p) => p in s.rendering
    case Submit(_, who, _) => who.Some? ==> ':' !in who.value.user
    case Record(a) => a in s.recording
    case RecordFails(a) => a in s.recording
    case _ => true
  }

  function Apply(sha: Str -> Str, s: State, step: Step): State {
    match step
    case Gate(p) =>
      var k := GrantKey(sha, p.AskOf());
      if Found(s.store, k)
      then s.(store := Take(s.store, k), log := s.log + [IssuedPastGate(p.AskOf())])
      else s.(store := Take(s.store, k), rendering := s.rendering + multiset{p})
    case Render(p, id) =>
      s.(store := s.store[PendingKey(id) := Held(p)], rendering := s.rendering - multiset{p},
         log := s.log + [Rendered(p.AskOf())])
    case NoPage(p) => s.(rendering := s.rendering - multiset{p})
    case Submit(id, who, approve) =>
      var k := PendingKey(id);
      var left := s.(store := Take(s.store, k));
      if k in s.store && s.store[k].Held? && MayApprove(s.store[k].pending, who, approve)
      then left.(recording := s.recording + multiset{s.store[k].pending.AskOf()},
                 log := s.log + [Approved(s.store[k].pending.AskOf(), who.value.user)])
      else left
    case Record(a) => s.(store := s.store[GrantKey(sha, a) := Granted], recording := s.recording - multiset{a})
    case RecordFails(a) => s.(recording := s.recording - multiset{a})
    case Expire(k) => s.(store := Take(s.store, k))
    case Write(k, e) =>
      s.(store := s.store[k := e],
         strays := if e == Blob([]) then s.strays else s.strays + multiset{k},
         strayPages := if e.Held? && PendingSpace(k) then s.strayPages + multiset{e.pending.AskOf()} else s.strayPages)
  }

  /** Every interleaving: a list of steps, each enabled where it is taken. */
  ghost predicate Run(sha: Str -> Str, s: State, steps: seq<Step>)
    decreases |steps|
  {
    steps == [] || (Enabled(s, steps[0]) && Run(sha, Apply(sha, s, steps[0]), steps[1..]))
  }

  function After(sha: Str -> Str, s: State, steps: seq<Step>): State
    decreases |steps|
  {
    if steps == [] then s else After(sha, Apply(sha, s, steps[0]), steps[1..])
  }

  /** Every request the steps bring in is one of `asks`, unless no user can approve it. */
  ghost predicate Over(asks: set<Ask>, steps: seq<Step>) {
    forall i :: 0 <= i < |steps| ==> StepOver(asks, steps[i])
  }

  ghost predicate StepOver(asks: set<Ask>, step: Step) {
    match step
    case Gate(p) => p.AskOf() in asks
    case Write(k, Held(p)) => PendingSpace(k) ==> p.AskOf() in asks || ':' in p.userID
    case _ => true
  }

  /** Nothing of the protocol has happened yet; other flows may have filled the rest of the store. */
  ghost predicate Initial(s: State) {
    && (forall k :: k in s.store ==> Foreign(k))
    && s.rendering == multiset{} && s.recording == multiset{} && s.log == []
    && s.strays == multiset{} && s.strayPages == multiset{}
  }

  // ---------------------------------------------------------------- what is counted

  ghost function Issued(s: State, a: Ask): nat { multiset(s.log)[IssuedPastGate(a)] }

  ghost function Approvals(s: State, a: Ask): nat { multiset(s.log)[Approved(a, a.user)] }

  ghost function Pages(s: State, a: Ask): nat { multiset(s.log)[Rendered(a)] }

  /** 1 when a grant named g is still to be used. */
  ghost function OutstandingGrants(s: State, g: Str): nat {
    if Found(s.store, g) then 1 else 0
  }

  ghost function PendingKeys(store: map<Str, Entry>, a: Ask): set<Str> {
    set k | k in store && PendingSpace(k) && store[k].Held? && store[k].pending.AskOf() == a
  }

  /** The two inequalities, for the request a whose grant is named g. */
  ghost predicate Bounded(s: State, a: Ask, g: Str) {
    && Issued(s, a) + OutstandingGrants(s, g) + s.recording[a] <= Approvals(s, a) + s.strays[g]
    && Approvals(s, a) + |PendingKeys(s.store, a)| <= Pages(s, a) + s.strayPages[a]
  }

  ghost predicate AllBounded(sha: Str -> Str, asks: set<Ask>, s: State) {
    forall a :: a in asks ==> Bounded(s, a, GrantKey(sha, a))
  }

  /** Everything pending or in flight is one of `asks`, and approvals are the user's own. */
  ghost predicate Shaped(asks: set<Ask>, s: State) {
    && (forall k :: k in s.store && PendingSpace(k) && s.store[k].Held? ==>
          s.store[k].pending.AskOf() in asks || ':' in s.store[k].pending.userID)
    && (forall p :: p in s.rendering ==> p.AskOf() in asks)
    && (forall a :: a in s.recording ==> a in asks)
    && (forall e :: e in s.log && e.Approved? ==> e.approver == e.ask.user)
  }

  // ---------------------------------------------------------------- how each access changes the counts

  lemma PendingPut(store: map<Str, Entry>, k: Str, e: Entry, a: Ask)
    ensures PendingKeys(store[k := e], a) ==
            PendingKeys(store, a) - {k} + if PendingSpace(k) && e.Held? && e.pending.AskOf() == a then {k} else {}
    ensures PendingKeys(Take(store, k), a) == PendingKeys(store, a) - {k}
  {
  }

  lemma TakeBounded(s: State, k: Str, a: Ask, g: Str)
    requires Bounded(s, a, g)
    ensures Bounded(s.(store := Take(s.store, k)), a, g)
  {
    PendingPut(s.store, k, Granted, a);
  }

  lemma IssueBounded(s: State, k: Str, b: Ask, a: Ask, g: Str)
    requires Bounded(s, a, g) && Found(s.store, k) && (a == b ==> g == k)
    ensures Bounded(s.(store := Take(s.store, k), log := s.log + [IssuedPastGate(b)]), a, g)
  {
    PendingPut(s.store, k, Granted, a);
  }

  lemma RenderBounded(s: State, k: Str, p: Pending, a: Ask, g: Str)
    requires Bounded(s, a, g) && g != k
    ensures Bounded(s.(store := s.store[k := Held(p)], rendering := s.rendering - multiset{p},
                       log := s.log + [Rendered(p.AskOf())]), a, g)
  {
    PendingPut(s.store, k, Held(p), a);
  }

  lemma ApproveBounded(s: State, k: Str, b: Ask, a: Ask, g: Str)
    requires Bounded(s, a, g) && k in PendingKeys(s.store, b) && g != k
    ensures Bounded(s.(store := Take(s.store, k), recording := s.recording + multiset{b},
                       log := s.log + [Approved(b, b.user)]), a, g)
  {
    PendingPut(s.store, k, Granted, a);
  }

  lemma RecordBounded(s: State, k: Str, b: Ask, a: Ask, g: Str)
    requires Bounded(s, a, g) && b in s.recording && (a == b <==> g == k)
    ensures Bounded(s.(store := s.store[k := Granted], recording := s.recording - multiset{b}), a, g)
  {
    PendingPut(s.store, k, Granted, a);
  }

  lemma WriteGrows(store: map<Str, Entry>, k: Str, e: Entry, a: Ask)
    ensures |PendingKeys(store[k := e], a)| <=
            |PendingKeys(store, a)| + if PendingSpace(k) && e.Held? && e.pending.AskOf() == a then 1 else 0
  {
    PendingPut(store, k, e, a);
    assert PendingKeys(store, a) - {k} <= PendingKeys(store, a);
  }

  lemma WriteBounded(sha: Str -> Str, s: State, k: Str, e: Entry, a: Ask, g: Str)
    requires Bounded(s, a, g)
    ensures Bounded(Apply(sha, s, Write(k, e)), a, g)
  {
    WriteGrows(s.store, k, e, a);
  }

  // ---------------------------------------------------------------- every step keeps the bounds

  lemma GateKeeps(sha: Str -> Str, asks: set<Ask>, s: State, p: Pending)
    requires AllBounded(sha, asks, s)
    ensures AllBounded(sha, asks, Apply(sha, s, Gate(p)))
  {
    var k := GrantKey(sha, p.AskOf());
    forall a | a in asks
      ensures Bounded(Apply(sha, s, Gate(p)), a, GrantKey(sha, a))
    {
      TakeBounded(s, k, a, GrantKey(sha, a));
      if Found(s.store, k) {
        IssueBounded(s, k, p.AskOf(), a, GrantKey(sha, a));
      }
    }
  }

  lemma RenderKeeps(sha: Str -> Str, asks: set<Ask>, s: State, p: Pending, id: Str)
    requires AllBounded(sha, asks, s)
    ensures AllBounded(sha, asks, Apply(sha, s, Render(p, id)))
  {
    forall a | a in asks
      ensures Bounded(Apply(sha, s, Render(p, id)), a, GrantKey(sha, a))
    {
      KeySpacesDisjoint(sha, a, id);
      RenderBounded(s, PendingKey(id), p, a, GrantKey(sha, a));
    }
  }

  lemma SubmitKeeps(sha: Str -> Str, asks: set<Ask>, s: State, id: Str, who: Option<Submitter>, approve: bool)
    requires AllBounded(sha, asks, s)
    ensures AllBounded(sha, asks, Apply(sha, s, Submit(id, who, approve)))
  {
    var k := PendingKey(id);
    forall a | a in asks
      ensures Bounded(Apply(sha, s, Submit(id, who, approve)), a, GrantKey(sha, a))
    {
      KeySpacesDisjoint(sha, a, id);
      TakeBounded(s, k, a, GrantKey(sha, a));
      if k in s.store && s.store[k].Held? {
        ApproveBounded(s, k, s.store[k].pending.AskOf(), a, GrantKey(sha, a));
      }
    }
  }

  lemma RecordKeeps(sha: Str -> Str, asks: set<Ask>, s: State, b: Ask)
    requires Distinguishes(sha, asks) && AllBounded(sha, asks, s) && b in s.recording && b in asks
    ensures AllBounded(sha, asks, Apply(sha, s, Record(b)))
  {
    var k := GrantKey(sha, b);
    forall a | a in asks
      ensures Bounded(Apply(sha, s, Record(b)), a, GrantKey(sha, a))
    {
      if GrantKey(sha, a) == k {
        GrantKeyInjective(sha, asks, a, b);
      }
      RecordBounded(s, k, b, a, GrantKey(sha, a));
    }
  }

  lemma ExpireKeeps(sha: Str -> Str, asks: set<Ask>, s: State, k: Str)
    requires AllBounded(sha, asks, s)
    ensures AllBounded(sha, asks, Apply(sha, s, Expire(k)))
  {
    forall a | a in asks
      ensures Bounded(Apply(sha, s, Expire(k)), a, GrantKey(sha, a))
    {
      TakeBounded(s, k, a, GrantKey(sha, a));
    }
  }

  lemma WriteKeeps(sha: Str -> Str, asks: set<Ask>, s: State, k: Str, e: Entry)
    requires AllBounded(sha, asks, s)
    ensures AllBounded(sha, asks, Apply(sha, s, Write(k, e)))
  {
    forall a | a in asks
      ensures Bounded(Apply(sha, s, Write(k, e)), a, GrantKey(sha, a))
    {
      WriteBounded(sha, s, k, e, a, GrantKey(sha, a));
    }
  }

  lemma StepKeeps(sha: Str -> Str, asks: set<Ask>, s: State, step: Step)
    requires Distinguishes(sha, asks) && AllBounded(sha, asks, s) && Shaped(asks, s) && Enabled(s, step)
    ensures AllBounded(sha, asks, Apply(sha, s, step))
  {
    match step
    case Gate(p) => GateKeeps(sha, asks, s, p);
    case Render(p, id) => RenderKeeps(sha, asks, s, p, id);
    case NoPage(p) =>
    case Submit(id, who, approve) => SubmitKeeps(sha, asks, s, id, who, approve);
    case Record(b) => RecordKeeps(sha, asks, s, b);
    case RecordFails(b) =>
    case Expire(k) => ExpireKeeps(sha, asks, s, k);
    case Write(k, e) => WriteKeeps(sha, asks, s, k, e);
  }

  lemma GateShaped(asks: set<Ask>, s: State, k: Str, p: Pending)
    requires Shaped(asks, s) && p.AskOf() in asks
    ensures Shaped(asks, s.(store := Take(s.store, k), log := s.log + [IssuedPastGate(p.AskOf())]))
    ensures Shaped(asks, s.(store := Take(s.store, k), rendering := s.rendering + multiset{p}))
  {
  }

  lemma RenderShaped(asks: set<Ask>, s: State, k: Str, p: Pending)
    requires Shaped(asks, s) && p in s.rendering
    ensures Shaped(asks, s.(store := s.store[k := Held(p)], rendering := s.rendering - multiset{p},
                            log := s.log + [Rendered(p.AskOf())]))
  {
  }

  lemma SubmitShaped(asks: set<Ask>, s: State, k: Str)
    requires Shaped(asks, s)
    ensures Shaped(asks, s.(store := Take(s.store, k)))
    ensures k in s.store && PendingSpace(k) && s.store[k].Held? && ':' !in s.store[k].pending.userID ==>
              var a := s.store[k].pending.AskOf();
              Shaped(asks, s.(store := Take(s.store, k), recording := s.recording + multiset{a}, log := s.log + [Approved(a, a.user)]))
  {
  }

  lemma RecordShaped(asks: set<Ask>, s: State, k: Str, a: Ask)
    requires Shaped(asks, s)
    ensures Shaped(asks, s.(store := s.store[k := Granted], recording := s.recording - multiset{a}))
    ensures Shaped(asks, s.(recording := s.recording - multiset{a}))
  {
  }

  lemma StepShaped(sha: Str -> Str, asks: set<Ask>, s: State, step: Step)
    requires Shaped(asks, s) && Enabled(s, step) && StepOver(asks, step)
    ensures Shaped(asks, Apply(sha, s, step))
  {
    match step
    case Gate(p) => GateShaped(asks, s, GrantKey(sha, p.AskOf()), p);
    case Render(p, id) => RenderShaped(asks, s, PendingKey(id), p);
    case Submit(id, who, approve) =>
      PendingKeySpace(id);
      SubmitShaped(asks, s, PendingKey(id));
    case Record(a) => RecordShaped(asks, s, GrantKey(sha, a), a);
    case RecordFails(a) => RecordShaped(asks, s, [], a);
    case Expire(k) => SubmitShaped(asks, s, k);
    case _ =>
  }

  lemma {:induction false} RunKeeps(sha: Str -> Str, asks: set<Ask>, s: State, steps: seq<Step>)
    requires Distinguishes(sha, asks) && AllBounded(sha, asks, s) && Shaped(asks, s)
    requires Run(sha, s, steps) && Over(asks, steps)
    ensures AllBounded(sha, asks, After(sha, s, steps)) && Shaped(asks, After(sha, s, steps))
    decreases |steps|
  {
    if steps != [] {
      StepKeeps(sha, asks, s, steps[0]);
      StepShaped(sha, asks, s, steps[0]);
      RunKeeps(sha, asks, Apply(sha, s, steps[0]), steps[1..]);
    }
  }

  /**
    The ledger. In every interleaving, whatever keys callers choose and whatever
    is written under them, for every user, client and parameter set: the requests
    that got past the gate, together with the grants still to be used, never
    outnumber the approvals that same user gave plus the texts other parts of the
    server wrote under the grant's name; and the approvals, together with the
    pages still to be answered, never outnumber the pages shown plus the texts
    that were written under pending keys and read as this request.
   */
  lemma ConsentLedger(sha: Str -> Str, asks: set<Ask>, s: State, steps: seq<Step>, a: Ask)
    requires Distinguishes(sha, asks) && Initial(s) && Run(sha, s, steps) && Over(asks, steps) && a in asks
    ensures var t := After(sha, s, steps); var g := GrantKey(sha, a);
            && Issued(t, a) + OutstandingGrants(t, g) <= Approvals(t, a) + t.strays[g]
            && Approvals(t, a) + |PendingKeys(t.store, a)| <= Pages(t, a) + t.strayPages[a]
            && forall e :: e in t.log && e.Approved? ==> e.approver == e.ask.user
  {
    forall b | b in asks
      ensures Bounded(s, b, GrantKey(sha, b))
    {
      KeySpacesDisjoint(sha, b, []);
      assert PendingKeys(s.store, b) == {};
    }
    RunKeeps(sha, asks, s, steps);
  }

  /** A write that makes neither a grant named g nor a page for a. */
  predicate Harmless(step: Step, a: Ask, g: Str) {
    step.Write? ==>
      && (step.k == g ==> step.e == Blob([]))
      && !(PendingSpace(step.k) && step.e.Held? && step.e.pending.AskOf() == a)
  }

  lemma NoStray(sha: Str -> Str, s: State, step: Step, a: Ask, g: Str)
    requires Harmless(step, a, g)
    ensures Apply(sha, s, step).strays[g] == s.strays[g] && Apply(sha, s, step).strayPages[a] == s.strayPages[a]
  {
  }

  lemma {:induction false} NoStrays(sha: Str -> Str, s: State, steps: seq<Step>, a: Ask, g: Str)
    requires forall i :: 0 <= i < |steps| ==> Harmless(steps[i], a, g)
    ensures After(sha, s, steps).strays[g] == s.strays[g] && After(sha, s, steps).strayPages[a] == s.strayPages[a]
    decreases |steps|
  {
    if steps != [] {
      NoStray(sha, s, steps[0], a, g);
      NoStrays(sha, Apply(sha, s, steps[0]), steps[1..], a, g);
    }
  }

  /**
    Safety. If no other part of the server writes under the grant's name, or
    writes a page for the request, as it cannot under foreign keys: issuances and
    outstanding grants never exceed the user's own approvals, and those never
    exceed the pages shown.
   */
  lemma ConsentSafety(sha: Str -> Str, asks: set<Ask>, s: State, steps: seq<Step>, a: Ask)
    requires Distinguishes(sha, asks) && Initial(s) && Run(sha, s, steps) && Over(asks, steps) && a in asks
    requires forall i :: 0 <= i < |steps| ==> Harmless(steps[i], a, GrantKey(sha, a))
    ensures var t := After(sha, s, steps);
            && Issued(t, a) + OutstandingGrants(t, GrantKey(sha, a)) <= Approvals(t, a)
            && Approvals(t, a) + |PendingKeys(t.store, a)| <= Pages(t, a)
            && forall e :: e in t.log && e.Approved? ==> e.approver == e.ask.user
  {
    ConsentLedger(sha, asks, s, steps, a);
    NoStrays(sha, s, steps, a, GrantKey(sha, a));
  }

  lemma ForeignIsHarmless(sha: Str -> Str, k: Str, e: Entry, a: Ask)
    requires Foreign(k)
    ensures Harmless(Write(k, e), a, GrantKey(sha, a))
  {
  }

  /** The condition on grant names is exact: in any state a text written there lets its request past the gate unless it is empty. */
  lemma StrayGrantOpens(sha: Str -> Str, s: State, p: Pending, e: Entry)
    ensures var t := Apply(sha, Apply(sha, s, Write(GrantKey(sha, p.AskOf()), e)), Gate(p));
            t.log == s.log + [IssuedPastGate(p.AskOf())] <==> e != Blob([])
  {
  }

  /** And the one on pages: a text written under a pending key is approved by its user exactly when it reads as that user's request. */
  lemma StrayPageApproves(sha: Str -> Str, s: State, id: Str, e: Entry, user: Str)
    ensures var t := Apply(sha, Apply(sha, s, Write(PendingKey(id), e)), Submit(id, Some(Submitter(user, [])), true));
            |t.log| > |s.log| <==> e.Held? && e.pending.userID == user
  {
  }

  lemma TwoSteps(sha: Str -> Str, s: State, a: Step, b: Step)
    ensures After(sha, s, [a, b]) == Apply(sha, Apply(sha, s, a), b)
    ensures Run(sha, s, [a, b]) <==> Enabled(s, a) && Enabled(Apply(sha, s, a), b)
  {
    assert [a, b][1..] == [b] && [b][1..] == [];
    assert After(sha, Apply(sha, s, a), [b]) == After(sha, Apply(sha, Apply(sha, s, a), b), []);
    assert Run(sha, Apply(sha, s, a), [b]) <==> Enabled(Apply(sha, s, a), b);
  }

  /** From an initial state: one write under the name of a grant, and its request is issued without any approval. */
  lemma IssuedUnapproved(sha: Str -> Str, s: State, p: Pending)
    requires Initial(s)
    ensures var steps := [Write(GrantKey(sha, p.AskOf()), Blob("x")), Gate(p)]; var t := After(sha, s, steps);
            Run(sha, s, steps) && Issued(t, p.AskOf()) == 1 && Approvals(t, p.AskOf()) == 0
  {
    var a, b := Write(GrantKey(sha, p.AskOf()), Blob("x")), Gate(p);
    TwoSteps(sha, s, a, b);
    StrayGrantOpens(sha, s, p, Blob("x"));
    assert After(sha, s, [a, b]).log == [IssuedPastGate(p.AskOf())];
  }

  /** And one under a pending key: a request is approved although no page was shown for it. */
  lemma ApprovedUnseen(sha: Str -> Str, s: State, p: Pending, id: Str)
    requires Initial(s) && ':' !in p.userID
    ensures var steps := [Write(PendingKey(id), Held(p)), Submit(id, Some(Submitter(p.userID, [])), true)];
            var t := After(sha, s, steps);
            Run(sha, s, steps) && Approvals(t, p.AskOf()) == 1 && Pages(t, p.AskOf()) == 0
  {
    var a, b := Write(PendingKey(id), Held(p)), Submit(id, Some(Submitter(p.userID, [])), true);
    TwoSteps(sha, s, a, b);
    assert TrimSpace([]) == [];
    assert After(sha, s, [a, b]).log == [Approved(p.AskOf(), p.userID)];
  }

  // ---------------------------------------------------------------- an approval is honoured

  const DEFAULT_SCOPES: seq<Str> := ["openid", "profile", "email"]

  function RedirectOf(form: Values): Str {
    Redirect.OrApp(TrimSpace(FormValue(form, REDIRECT_KEY)))
  }

  function ScopesOf(form: Values): seq<Str> {
    var given := TrimSpace(FormValue(form, SCOPE_KEY));
    if given == [] then DEFAULT_SCOPES else Split(given, " ")
  }

  /** The authorization request a form stands for, made by a signed-in user with a client of this name. */
  ghost function RequestOf(form: Values, user: Str, clientName: Str): Pending {
    Pending(TrimSpace(FormValue(form, CLIENT_KEY)), clientName, RedirectOf(form), ScopesOf(form), Encoded(FirstValues(form)), user)
  }

  /** The request the browser is redirected to is the one that was shown. */
  lemma ReplayIsSameRequest(form: Values, user: Str, clientName: Str)
    ensures RequestOf(Parsed(RequestOf(form, user, clientName).query), user, clientName) == RequestOf(form, user, clientName)
  {
    ReplayFaithful(form);
  }

  /** A step that can use up the grant named g. */
  ghost predicate Spends(sha: Str -> Str, step: Step, g: Str) {
    || ((step.Expire? || step.Write?) && step.k == g)
    || (step.Gate? && GrantKey(sha, step.p.AskOf()) == g)
  }

  lemma {:induction false} GrantSurvives(sha: Str -> Str, s: State, mid: seq<Step>, a: Ask)
    requires Run(sha, s, mid) && forall i :: 0 <= i < |mid| ==> !Spends(sha, mid[i], GrantKey(sha, a))
    requires GrantKey(sha, a) in s.store && s.store[GrantKey(sha, a)] == Granted
    ensures var t := After(sha, s, mid); GrantKey(sha, a) in t.store && t.store[GrantKey(sha, a)] == Granted
    decreases |mid|
  {
    if mid != [] {
      StepSparesGrant(sha, s, mid[0], a);
      GrantSurvives(sha, Apply(sha, s, mid[0]), mid[1..], a);
    }
  }

  lemma StepSparesGrant(sha: Str -> Str, s: State, step: Step, a: Ask)
    requires !Spends(sha, step, GrantKey(sha, a))
    requires GrantKey(sha, a) in s.store && s.store[GrantKey(sha, a)] == Granted
    ensures var t := Apply(sha, s, step); GrantKey(sha, a) in t.store && t.store[GrantKey(sha, a)] == Granted
  {
    KeySpacesDisjoint(sha, a, if step.Render? || step.Submit? then step.id else []);
  }

  /** The state in which an approved page has recorded its grant. */
  function Recorded(sha: Str -> Str, s: State, id: Str, who: Submitter, a: Ask): State {
    Apply(sha, Apply(sha, s, Submit(id, Some(who), true)), Record(a))
  }

  lemma ApprovalRecords(sha: Str -> Str, s: State, p: Pending, id: Str, who: Submitter)
    requires PendingKey(id) in s.store && s.store[PendingKey(id)] == Held(p)
    requires who.user == p.userID && TrimSpace(who.actor) == []
    ensures p.AskOf() in Apply(sha, s, Submit(id, Some(who), true)).recording
    ensures var t := Recorded(sha, s, id, who, p.AskOf()); var g := GrantKey(sha, p.AskOf());
            g in t.store && t.store[g] == Granted
  {
  }

  lemma GrantOpensGate(sha: Str -> Str, t: State, p: Pending)
    requires GrantKey(sha, p.AskOf()) in t.store && t.store[GrantKey(sha, p.AskOf())] == Granted
    ensures Apply(sha, t, Gate(p)).log == t.log + [IssuedPastGate(p.AskOf())]
  {
  }

  /**
    Usability. After the user approves the page of a request, the request the
    browser is sent back with gets past the gate, whatever other requests do in
    between, unless the grant expires or the same request is made first.
   */
  lemma ApprovalHonoured(sha: Str -> Str, s: State, form: Values, p: Pending, id: Str, who: Submitter, mid: seq<Step>)
    requires p == RequestOf(form, who.user, p.clientName)
    requires PendingKey(id) in s.store && s.store[PendingKey(id)] == Held(p) && TrimSpace(who.actor) == []
    requires Run(sha, Recorded(sha, s, id, who, p.AskOf()), mid)
    requires forall i :: 0 <= i < |mid| ==> !Spends(sha, mid[i], GrantKey(sha, p.AskOf()))
    ensures var t := After(sha, Recorded(sha, s, id, who, p.AskOf()), mid);
            var replayed := RequestOf(Parsed(p.query), who.user, p.clientName);
            Apply(sha, t, Gate(replayed)).log == t.log + [IssuedPastGate(p.AskOf())]
  {
    ApprovalRecords(sha, s, p, id, who);
    GrantSurvives(sha, Recorded(sha, s, id, who, p.AskOf()), mid, p.AskOf());
    GrantOpensGate(sha, After(sha, Recorded(sha, s, id, who, p.AskOf()), mid), p);
    ReplayIsSameRequest(form, who.user, p.clientName);
  }

  // ---------------------------------------------------------------- the handlers

  const APPROVE: Str := "approve"

  /** How ConsentHandler answers. */
  datatype Answer =
    | MissingID | AlreadyUsed | Unreadable | SignInAgain | NotDelegable
    | Declined(redirectURI: Str, query: Str)
    | CouldNotRecord
    | Replay(query: Str)

  /** Which answer a submission deserves. */
  function Answered(store: map<Str, Entry>, k: Str, who: Option<Submitter>, approve: bool, fails: bool): Answer {
    if !Found(store, k) then AlreadyUsed
    else if !store[k].Held? then Unreadable
    else if who.None? || who.value.user != store[k].pending.userID then SignInAgain
    else if TrimSpace(who.value.actor) != [] then NotDelegable
    else if !approve then Declined(store[k].pending.redirectURI, store[k].pending.query)
    else if fails then CouldNotRecord
    else Replay(store[k].pending.query)
  }

  /** What the store holds after a submission whose two accesses follow each other. */
  function Submitted(sha: Str -> Str, store: map<Str, Entry>, k: Str, who: Option<Submitter>, approve: bool, fails: bool): map<Str, Entry> {
    if Answered(store, k, who, approve, fails).Replay?
    then Take(store, k)[GrantKey(sha, store[k].pending.AskOf()) := Granted]
    else Take(store, k)
  }

  lemma SubmissionApproves(sha: Str -> Str, s: State, id: Str, who: Option<Submitter>, approve: bool, fails: bool)
    requires var answer := Answered(s.store, PendingKey(id), who, approve, fails); answer.Replay? || answer.CouldNotRecord?
    ensures var k := PendingKey(id); var a := s.store[k].pending.AskOf(); var t := Apply(sha, s, Submit(id, who, approve));
            && t.recording == s.recording + multiset{a}
            && Answered(s.store, k, who, approve, fails) == (if fails then CouldNotRecord else Replay(a.query))
            && Submitted(sha, s.store, k, who, approve, fails) == Apply(sha, t, if fails then RecordFails(a) else Record(a)).store
  {
  }

  lemma SubmissionRefused(sha: Str -> Str, s: State, id: Str, who: Option<Submitter>, approve: bool, fails: bool)
    requires var answer := Answered(s.store, PendingKey(id), who, approve, fails); !answer.Replay? && !answer.CouldNotRecord?
    ensures var t := Apply(sha, s, Submit(id, who, approve));
            t.recording == s.recording && t.log == s.log && Submitted(sha, s.store, PendingKey(id), who, approve, fails) == t.store
  {
  }

  /** A submission that replays the request is one that approves and records; one that cannot record approves only; any other does neither. */
  lemma SubmissionSteps(sha: Str -> Str, s: State, id: Str, who: Option<Submitter>, approve: bool, fails: bool)
    ensures var k := PendingKey(id);
            var t := Apply(sha, s, Submit(id, who, approve));
            var answer := Answered(s.store, k, who, approve, fails);
            if answer.Replay? || answer.CouldNotRecord?
            then var a := s.store[k].pending.AskOf();
                 && t.recording == s.recording + multiset{a}
                 && answer == (if fails then CouldNotRecord else Replay(a.query))
                 && Submitted(sha, s.store, k, who, approve, fails) == Apply(sha, t, if fails then RecordFails(a) else Record(a)).store
            else t.recording == s.recording && t.log == s.log && Submitted(sha, s.store, k, who, approve, fails) == t.store
  {
    var answer := Answered(s.store, PendingKey(id), who, approve, fails);
    if answer.Replay? || answer.CouldNotRecord? {
      SubmissionApproves(sha, s, id, who, approve, fails);
    } else {
      SubmissionRefused(sha, s, id, who, approve, fails);
    }
  }

  /** The server's state store, with the accesses of one request made in a row. */
  class ConsentServer {
    const sha: Str -> Str
    var store: map<Str, Entry>

    constructor (sha: Str -> Str)
      ensures this.sha == sha && store == map[]
    {
      this.sha := sha;
      store := map[];
    }

    method GetAndRemoveState(k: Str) returns (e: Option<Entry>)
      modifies this
      ensures store == Take(old(store), k)
      ensures e == if Found(old(store), k) then Some(old(store)[k]) else None
    {
      e := if k in store && store[k] != Blob([]) then Some(store[k]) else None;
      store := store - {k};
    }

    /** The gate of /authorize. */
    method PassGate(form: Values, clientID: Str, user: Str) returns (granted: bool)
      modifies this
      ensures var g := GrantKey(sha, Ask(user, clientID, Encoded(FirstValues(form))));
              store == Take(old(store), g) && (granted <==> Found(old(store), g))
    {
      var params := OriginalParams(form);
      var query := Encode(params);
      var e := GetAndRemoveState(GrantKey(sha, Ask(user, clientID, query)));
      granted := e.Some?;
    }

    /** renderConsent, up to the page itself. */
    method RenderConsent(form: Values, clientID: Str, clientName: Str, redirectURI: Str, scopes: seq<Str>, user: Str, id: Str)
      modifies this
      ensures store == old(store)[PendingKey(id) := Held(Pending(clientID, clientName, redirectURI, scopes, Encoded(FirstValues(form)), user))]
    {
      var params := OriginalParams(form);
      var query := Encode(params);
      store := store[PendingKey(id) := Held(Pending(clientID, clientName, redirectURI, scopes, query, user))];
    }

    method ConsentHandler(consentID: Str, who: Option<Submitter>, action: Str, fails: bool) returns (answer: Answer)
      modifies this
      ensures if TrimSpace(consentID) == [] then answer == MissingID && store == old(store)
              else var k, approve := PendingKey(TrimSpace(consentID)), action == APPROVE;
                   && answer == Answered(old(store), k, who, approve, fails)
                   && store == Submitted(sha, old(store), k, who, approve, fails)
    {
      var id := TrimSpace(consentID);
      if id == [] {
        return MissingID;
      }
      var raw := GetAndRemoveState(PendingKey(id));
      if raw.None? {
        return AlreadyUsed;
      }
      if !raw.value.Held? {
        return Unreadable;
      }
      var pending := raw.value.pending;
      if who.None? || who.value.user != pending.userID {
        return SignInAgain;
      }
      if TrimSpace(who.value.actor) != [] {
        return NotDelegable;
      }
      if action != APPROVE {
        return Declined(pending.redirectURI, pending.query);
      }
      if fails {
        return CouldNotRecord;
      }
      store := store[GrantKey(sha, pending.AskOf()) := Granted];
      return Replay(pending.query);
    }

    /**
      A page and its approval: the grant is recorded for the very user, client and
      parameters the page was shown for, and the browser is sent back with them.
     */
    method Approve(form: Values, clientID: Str, clientName: Str, redirectURI: Str, scopes: seq<Str>, user: Str, id: Str)
      returns (answer: Answer)
      requires TrimSpace(id) == id != []
      modifies this
      ensures var query := Encoded(FirstValues(form));
              && answer == Replay(query)
              && store == (old(store) - {"cimd_consent:" + id})["cimd_consent_granted:" + user + ":" + clientID + ":" + sha(query) := Granted]
    {
      RenderConsent(form, clientID, clientName, redirectURI, scopes, user, id);
      KeySpacesDisjoint(sha, Ask(user, clientID, Encoded(FirstValues(form))), id);
      assert TrimSpace([]) == [];
      answer := ConsentHandler(id, Some(Submitter(user, [])), APPROVE, false);
    }

    /** Then the request made again gets past the gate once, and only once. */
    method ApproveAndPass(form: Values, clientID: Str, clientName: Str, redirectURI: Str, scopes: seq<Str>, user: Str, id: Str)
      returns (first: bool, second: bool)
      requires TrimSpace(id) == id != []
      modifies this
      ensures first && !second
    {
      var _ := Approve(form, clientID, clientName, redirectURI, scopes, user, id);
      first := PassGate(form, clientID, user);
      second := PassGate(form, clientID, user);
    }

    /** A page that is declined sends the browser to the redirect URI it was shown with, and grants nothing. */
    method Decline(form: Values, clientID: Str, clientName: Str, redirectURI: Str, scopes: seq<Str>, user: Str, id: Str, action: Str)
      returns (answer: Answer)
      requires TrimSpace(id) == id != [] && action != "approve"
      modifies this
      ensures answer == Declined(redirectURI, Encoded(FirstValues(form))) && store == old(store) - {"cimd_consent:" + id}
    {
      RenderConsent(form, clientID, clientName, redirectURI, scopes, user, id);
      assert TrimSpace([]) == [];
      answer := ConsentHandler(id, Some(Submitter(user, [])), action, false);
    }
  }
}
