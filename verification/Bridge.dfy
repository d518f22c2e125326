/**
  The bridge from /authorize to a social-login callback: the request is stored
  under the caller's `state`, one callback takes it and rebinds it to the
  authorization code (internal/http_handlers/authorize.go,
  internal/http_handlers/oauth_authorize_state.go,
  internal/http_handlers/oauth_callback.go).
 */
module Bridge {
  import opened Text
  import opened CodeState

  // ---------------------------------------------------------------- one pass over the bridge

  /** What consumeAuthorizeState makes of a stored text. */
  function Resolved(stored: Str): Authorize {
    if stored == [] then Authorize([], [], [], [], [], [])
    else if !HasCode(stored) then Authorize([], [], stored, [], [], [])
    else ParseAuthorize(stored).(resource := [])
  }

  /** The entry a callback writes under the code; the resource does not cross the bridge. */
  function Rebound(a: Authorize, session: Str): Str {
    EncodeCode(Code(a.challenge, session, a.nonce, a.redirectURI, [], a.clientID))
  }

  class StateStore {
    var store: map<Str, Str>

    constructor ()
      ensures store == map[]
    {
      store := map[];
    }

    method SetState(k: Str, text: Str)
      modifies this
      ensures store == old(store)[k := text]
    {
      store := store[k := text];
    }

    method GetAndRemoveState(k: Str) returns (text: Str)
      modifies this
      ensures store == old(store) - {k}
      ensures text == if k in old(store) then old(store)[k] else []
    {
      text := if k in store then store[k] else [];
      store := store - {k};
    }

    method ConsumeAuthorizeState(stateValue: Str) returns (a: Authorize)
      modifies this
      ensures stateValue == [] ==> store == old(store) && a == Resolved([])
      ensures stateValue != [] ==>
                && store == old(store) - {stateValue}
                && a == Resolved(if stateValue in old(store) then old(store)[stateValue] else [])
    {
      a := Authorize([], [], [], [], [], []);
      if stateValue == [] {
        return;
      }
      var text := GetAndRemoveState(stateValue);
      if text == [] {
        return;
      }
      if !HasCode(text) {
        a := a.(nonce := text);
        return;
      }
      var decoded := DecodeAuthorize(text);
      a := decoded.(resource := []);
    }

    /** The callback writes the code entry; the token endpoint will read it. */
    method BindCode(a: Authorize, session: Str) returns (found: Code)
      modifies this
      ensures store == old(store)[a.code := Rebound(a, session)]
      ensures found == ParseCode(Rebound(a, session))
    {
      SetState(a.code, Rebound(a, session));
      found := DecodeCode(store[a.code]);
    }

    /** What /authorize stores under the caller's state, taken back by the callback. */
    method Park(state: Str, text: Str) returns (taken: Authorize)
      requires state != []
      modifies this
      ensures store == old(store) - {state} && taken == Resolved(text)
    {
      SetState(state, text);
      taken := ConsumeAuthorizeState(state);
    }

    /** /authorize, then one callback: what the token endpoint will find under the code. */
    method CrossBridge(state: Str, a: Authorize, session: Str) returns (found: Code)
      requires state != [] && a.code != [] && DelimiterSafe(a.code)
      modifies this
      ensures found == Code(a.challenge, session, a.nonce, a.redirectURI, [], a.clientID) <==>
              DelimiterSafe(a.challenge) && DelimiterSafe(a.nonce) && DelimiterSafe(session)
      ensures store == (old(store) - {state})[a.code := Rebound(Resolved(EncodeAuthorize(a)), session)]
    {
      CodeReadBack(a);
      CrossExact(a, session);
      var taken := Park(state, EncodeAuthorize(a));
      found := BindCode(taken, session);
    }
  }

  /** What stands before the first delimiter of a text is safe itself. */
  lemma FirstIsSafe(f: Str, rest: Str)
    ensures DelimiterSafe(Split(f + DELIMITER + rest, DELIMITER)[0])
  {
    var s := f + DELIMITER + rest;
    assert s[|f|..|f| + 2] == DELIMITER && At(s, DELIMITER, |f|);
    var i := IndexFrom(s, DELIMITER, 0);
    var first := s[..i];
    assert first + DELIMITER == s[..i + 2];
    forall j | 0 <= j < i
      ensures !At(first + DELIMITER, DELIMITER, j)
    {
      assert s[..i + 2][j..j + 2] == s[j..j + 2] && !At(s, DELIMITER, j);
    }
    SafeIsClean(first);
  }

  /**
    The record that crosses the bridge is the one that was asked for, without the
    resource, if and only if challenge, nonce and session are all safe.
   */
  lemma CrossExact(a: Authorize, session: Str)
    requires DelimiterSafe(a.code)
    ensures ParseCode(Rebound(Resolved(EncodeAuthorize(a)), session)) ==
            Code(a.challenge, session, a.nonce, a.redirectURI, [], a.clientID) <==>
            DelimiterSafe(a.challenge) && DelimiterSafe(a.nonce) && DelimiterSafe(session)
  {
    if DelimiterSafe(a.challenge) && DelimiterSafe(a.nonce) && DelimiterSafe(session) {
      TakenIsAsked(a);
      ReboundReads(a, session);
    } else {
      CrossMisread(a, session);
    }
  }

  lemma FirstSlot(f: Str, rest: Str)
    ensures var p := Split(f + DELIMITER + rest, DELIMITER);
            && DelimiterSafe(p[0]) && (p[0] == f <==> DelimiterSafe(f))
            && (DelimiterSafe(f) ==> p == [f] + Split(rest, DELIMITER))
  {
    SafeField(f, rest);
    FirstIsSafe(f, rest);
  }

  /** The unescaped fields of a blob, as they are read: each is safe, and right exactly if it was. */
  lemma LeadingSlots(a: Str, b: Str, c: Str, tail: Str)
    ensures var p := Split(a + DELIMITER + (b + DELIMITER + (c + DELIMITER + tail)), DELIMITER);
            && DelimiterSafe(Slot(p, 0)) && (Slot(p, 0) == a <==> DelimiterSafe(a))
            && (DelimiterSafe(a) ==> DelimiterSafe(Slot(p, 1)) && (Slot(p, 1) == b <==> DelimiterSafe(b)))
            && (DelimiterSafe(a) && DelimiterSafe(b) ==> DelimiterSafe(Slot(p, 2)) && (Slot(p, 2) == c <==> DelimiterSafe(c)))
  {
    FirstSlot(a, b + DELIMITER + (c + DELIMITER + tail));
    FirstSlot(b, c + DELIMITER + tail);
    FirstSlot(c, tail);
  }

  /** So for the two blobs. */
  lemma BlobSlots(segs: seq<Str>)
    requires |segs| == 6
    ensures var p := Split(Join(segs, DELIMITER), DELIMITER);
            && DelimiterSafe(Slot(p, 0)) && (Slot(p, 0) == segs[0] <==> DelimiterSafe(segs[0]))
            && (DelimiterSafe(segs[0]) ==> DelimiterSafe(Slot(p, 1)) && (Slot(p, 1) == segs[1] <==> DelimiterSafe(segs[1])))
            && (DelimiterSafe(segs[0]) && DelimiterSafe(segs[1]) ==>
                  DelimiterSafe(Slot(p, 2)) && (Slot(p, 2) == segs[2] <==> DelimiterSafe(segs[2])))
  {
    JoinSlots(segs[0], segs[1], segs[2], segs[3..], DELIMITER);
    assert [segs[0], segs[1], segs[2]] + segs[3..] == segs;
    LeadingSlots(segs[0], segs[1], segs[2], Join(segs[3..], DELIMITER));
  }

  lemma CrossMisread(a: Authorize, session: Str)
    requires DelimiterSafe(a.code)
    requires !(DelimiterSafe(a.challenge) && DelimiterSafe(a.nonce) && DelimiterSafe(session))
    ensures var c := ParseCode(Rebound(Resolved(EncodeAuthorize(a)), session));
            !(c.challenge == a.challenge && c.session == session && c.nonce == a.nonce)
  {
    CodeReadBack(a);
    var r := Resolved(EncodeAuthorize(a));
    BlobSlots(AuthorizeSegments(a));
    BlobSlots(CodeSegments(Code(r.challenge, session, r.nonce, r.redirectURI, [], r.clientID)));
  }

  /** What a callback takes is what was asked, without the resource. */
  lemma TakenIsAsked(a: Authorize)
    requires DelimiterSafe(a.code) && DelimiterSafe(a.challenge) && DelimiterSafe(a.nonce)
    ensures Resolved(EncodeAuthorize(a)) == a.(resource := [])
  {
    AuthorizeRoundTrip(a);
  }

  lemma ReboundReads(a: Authorize, session: Str)
    requires DelimiterSafe(a.challenge) && DelimiterSafe(session) && DelimiterSafe(a.nonce)
    ensures Rebound(a.(resource := []), session) == Rebound(a, session)
    ensures ParseCode(Rebound(a, session)) == Code(a.challenge, session, a.nonce, a.redirectURI, [], a.clientID)
  {
    CodeRoundTrip(Code(a.challenge, session, a.nonce, a.redirectURI, [], a.clientID));
  }

  /** The code is the first field, so it is read right whenever it is itself safe. */
  lemma CodeReadBack(a: Authorize)
    requires DelimiterSafe(a.code)
    ensures HasCode(EncodeAuthorize(a)) && EncodeAuthorize(a) != []
    ensures ParseAuthorize(EncodeAuthorize(a)).code == a.code
  {
    SafeField(a.code, Join(AuthorizeSegments(a)[1..], DELIMITER));
  }

  /** A text is read as a request with a code exactly when it holds the delimiter, and not at its start. */
  predicate NamesCode(text: Str) { HasCode(text) && !HasPrefix(text, DELIMITER) }

  lemma NamesCodeExact(text: Str)
    ensures Resolved(text).code != [] <==> NamesCode(text)
  {
  }

  // ---------------------------------------------------------------- many requests and callbacks, interleaved

  /** A stored text, and the event that wrote it. */
  datatype Entry = Entry(origin: nat, text: Str)

  /** All but the last write a text. */
  datatype Event =
    | Asked(a: Authorize, text: Str)
    | AskedBare(text: Str)
    | Wrote(text: Str)
    | Bound(origin: nat, code: Str, session: Str, text: Str)
    | Consumed(origin: nat)

  /** The store, the callbacks between taking a text and binding its code, and what has happened. */
  datatype State = State(store: map<Str, Entry>, taken: set<Entry>, log: seq<Event>)

  datatype Step =
    | AskCode(key: Str, a: Authorize)            // /authorize with a code flow, under the caller's state
    | AskNonce(key: Str, nonce: Str)             // /authorize without one: the caller's nonce as it is
    | Consume(key: Str)                          // a callback takes what its state names
    | Bind(e: Entry, session: Str)               // and writes the code entry
    | Withhold(e: Entry)                         // or does not: MFA, or a fault
    | Write(key: Str, text: Str)                 // by any other part: login flows, pending pages, codes of /authorize
    | Expire(key: Str)                           // also the token endpoint redeeming a code

  /** Codes are drawn by the server; keys, nonces and what other parts write are anything at all. */
  ghost predicate Enabled(s: State, step: Step) {
    match step
    case AskCode(_, a) => a.code != [] && DelimiterSafe(a.code)
    case Consume(key) => key != []
    case Bind(e, _) => e in s.taken && Resolved(e.text).code != []
    case Withhold(e) => e in s.taken
    case _ => true
  }

  /** The code entry written on the strength of a text. */
  function BoundBy(e: Entry, session: Str): Event {
    Bound(e.origin, Resolved(e.text).code, session, Rebound(Resolved(e.text), session))
  }

  function Apply(s: State, step: Step): State {
    match step
    case AskCode(key, a) =>
      s.(store := s.store[key := Entry(|s.log|, EncodeAuthorize(a))], log := s.log + [Asked(a, EncodeAuthorize(a))])
    case AskNonce(key, nonce) => s.(store := s.store[key := Entry(|s.log|, nonce)], log := s.log + [AskedBare(nonce)])
    case Write(key, text) => s.(store := s.store[key := Entry(|s.log|, text)], log := s.log + [Wrote(text)])
    case Consume(key) =>
      if key in s.store
      then State(s.store - {key}, s.taken + {s.store[key]}, s.log + [Consumed(s.store[key].origin)])
      else s
    case Bind(e, session) =>
      var b := BoundBy(e, session);
      State(s.store[b.code := Entry(|s.log|, b.text)], s.taken - {e}, s.log + [b])
    case Withhold(e) => s.(taken := s.taken - {e})
    case Expire(key) => s.(store := s.store - {key})
  }

  ghost predicate Run(s: State, steps: seq<Step>)
    decreases |steps|
  {
    steps == [] || (Enabled(s, steps[0]) && Run(Apply(s, steps[0]), steps[1..]))
  }

  function After(s: State, steps: seq<Step>): State
    decreases |steps|
  {
    if steps == [] then s else After(Apply(s, steps[0]), steps[1..])
  }

  // ---------------------------------------------------------------- invariants

  /** The event at `e.origin` wrote this text. */
  ghost predicate WrittenBy(log: seq<Event>, e: Entry) {
    e.origin < |log| && !log[e.origin].Consumed? && log[e.origin].text == e.text
  }

  /** No text is consumed twice, and none bound twice. */
  ghost predicate SingleUse(log: seq<Event>) {
    forall i, j :: 0 <= i < j < |log| ==>
      && (log[i].Consumed? && log[j].Consumed? ==> log[i].origin != log[j].origin)
      && (log[i].Bound? && log[j].Bound? ==> log[i].origin != log[j].origin)
  }

  /** A code entry stands on one text, written before it and consumed. */
  ghost predicate BoundOK(log: seq<Event>, j: nat)
    requires j < |log| && log[j].Bound?
  {
    && log[j].origin < j && !log[log[j].origin].Consumed? && Consumed(log[j].origin) in log
    && log[j].code != []
    && log[j] == BoundBy(Entry(log[j].origin, log[log[j].origin].text), log[j].session)
  }

  ghost predicate LogOK(log: seq<Event>) {
    && SingleUse(log)
    && (forall j :: 0 <= j < |log| && log[j].Bound? ==> BoundOK(log, j))
    && (forall j :: 0 <= j < |log| && log[j].Consumed? ==> log[j].origin < j)
    && (forall j :: 0 <= j < |log| && log[j].Asked? ==> log[j].text == EncodeAuthorize(log[j].a) && DelimiterSafe(log[j].a.code))
  }

  ghost predicate Unconsumed(log: seq<Event>, origin: nat) { Consumed(origin) !in log }

  ghost predicate Unbound(log: seq<Event>, origin: nat) { forall e :: e in log && e.Bound? ==> e.origin != origin }

  ghost predicate Inv(s: State) {
    && LogOK(s.log)
    && (forall k :: k in s.store ==> WrittenBy(s.log, s.store[k]) && Unconsumed(s.log, s.store[k].origin))
    && (forall k, l :: k in s.store && l in s.store && s.store[k].origin == s.store[l].origin ==> k == l)
    && (forall e :: e in s.taken ==> WrittenBy(s.log, e) && Consumed(e.origin) in s.log && Unbound(s.log, e.origin))
  }

  // ---------------------------------------------------------------- every step keeps them

  /** A text written or consumed. */
  lemma LogGrows(log: seq<Event>, e: Event)
    requires LogOK(log)
    requires e.Asked? ==> e.text == EncodeAuthorize(e.a) && DelimiterSafe(e.a.code)
    requires e.Consumed? ==> e.origin < |log| && Unconsumed(log, e.origin)
    requires e.Bound? ==> Unbound(log, e.origin) && BoundOK(log + [e], |log|)
    ensures LogOK(log + [e])
  {
  }

  lemma WriteKeeps(s: State, key: Str, e: Event)
    requires Inv(s) && !e.Consumed? && LogOK(s.log + [e]) && (e.Bound? ==> Unbound(s.log, e.origin))
    requires e.Bound? ==> forall x :: x in s.taken ==> x.origin != e.origin
    ensures Inv(s.(store := s.store[key := Entry(|s.log|, e.text)], log := s.log + [e]))
  {
    var t := s.(store := s.store[key := Entry(|s.log|, e.text)], log := s.log + [e]);
    assert Unconsumed(s.log, |s.log|);
    forall k | k in t.store
      ensures WrittenBy(t.log, t.store[k]) && Unconsumed(t.log, t.store[k].origin)
    {
      assert k != key ==> WrittenBy(s.log, s.store[k]);
    }
    forall x | x in t.taken
      ensures WrittenBy(t.log, x) && Consumed(x.origin) in t.log && Unbound(t.log, x.origin)
    {
      assert WrittenBy(s.log, x);
    }
  }

  lemma ConsumeKeeps(s: State, key: Str)
    requires Inv(s) && key in s.store
    ensures Inv(Apply(s, Consume(key)))
  {
    LogGrows(s.log, Consumed(s.store[key].origin));
  }

  lemma BindKeeps(s: State, e: Entry, session: Str)
    requires Inv(s) && e in s.taken && Resolved(e.text).code != []
    ensures Inv(Apply(s, Bind(e, session)))
  {
    var b := BoundBy(e, session);
    LogGrows(s.log, b);
    WriteKeeps(s.(taken := s.taken - {e}), b.code, b);
  }

  lemma StepKeeps(s: State, step: Step)
    requires Inv(s) && Enabled(s, step)
    ensures Inv(Apply(s, step))
  {
    match step
    case AskCode(key, a) =>
      LogGrows(s.log, Asked(a, EncodeAuthorize(a)));
      WriteKeeps(s, key, Asked(a, EncodeAuthorize(a)));
    case AskNonce(key, nonce) =>
      LogGrows(s.log, AskedBare(nonce));
      WriteKeeps(s, key, AskedBare(nonce));
    case Write(key, text) =>
      LogGrows(s.log, Wrote(text));
      WriteKeeps(s, key, Wrote(text));
    case Consume(key) =>
      if key in s.store {
        ConsumeKeeps(s, key);
      }
    case Bind(e, session) => BindKeeps(s, e, session);
    case _ =>
  }

  lemma {:induction false} RunKeeps(s: State, steps: seq<Step>)
    requires Inv(s) && Run(s, steps)
    ensures Inv(After(s, steps))
    decreases |steps|
  {
    if steps != [] {
      StepKeeps(s, steps[0]);
      RunKeeps(Apply(s, steps[0]), steps[1..]);
    }
  }

  const NOTHING: State := State(map[], {}, [])

  // ---------------------------------------------------------------- what a code entry stands on

  /** A text that was not written for a request of this code, and names one all the same. */
  ghost predicate Misleads(e: Event) { !e.Consumed? && !e.Asked? && NamesCode(e.text) }

  /**
    In every interleaving, whatever else is written to the store, a stored text
    feeds at most one callback; and a code that is bound was asked for by
    /authorize under that very code, or is what some other text names: a bare
    nonce, a code entry, or a text of another part of the server.
   */
  lemma BoundOrigins(steps: seq<Step>, j: nat)
    requires Run(NOTHING, steps) && j < |After(NOTHING, steps).log| && After(NOTHING, steps).log[j].Bound?
    ensures SingleUse(After(NOTHING, steps).log)
    ensures var log := After(NOTHING, steps).log; var from := log[j].origin;
            && from < j && !log[from].Consumed? && Consumed(from) in log
            && (if log[from].Asked? then log[j].code == log[from].a.code
                else Misleads(log[from]) && log[j].code == Resolved(log[from].text).code)
  {
    RunKeeps(NOTHING, steps);
    var log := After(NOTHING, steps).log;
    assert BoundOK(log, j);
    var from := log[log[j].origin];
    NamesCodeExact(from.text);
    if from.Asked? {
      CodeReadBack(from.a);
    }
  }

  /** No callback is given a state under which a misleading text is stored. */
  ghost predicate PlainRun(log: seq<Event>) {
    forall e :: e in log && e.Consumed? && e.origin < |log| ==> !Misleads(log[e.origin])
  }

  /** Then every code that is bound was asked for. */
  lemma BoundWasAsked(steps: seq<Step>, j: nat)
    requires Run(NOTHING, steps) && j < |After(NOTHING, steps).log| && After(NOTHING, steps).log[j].Bound?
    requires PlainRun(After(NOTHING, steps).log)
    ensures var log := After(NOTHING, steps).log;
            log[j].origin < j && log[log[j].origin].Asked? && log[log[j].origin].a.code == log[j].code
  {
    BoundOrigins(steps, j);
  }

  lemma OneStep(s: State, steps: seq<Step>)
    requires steps != []
    ensures After(s, steps) == After(Apply(s, steps[0]), steps[1..])
    ensures Run(s, steps) <==> Enabled(s, steps[0]) && Run(Apply(s, steps[0]), steps[1..])
  {
  }

  /** A text put under a key by something other than a request with a code flow. */
  ghost predicate Puts(step: Step, key: Str, text: Str) {
    (step.AskNonce? && step.key == key && step.nonce == text) || step == Write(key, text)
  }

  /**
    The condition is exact: in any state, a text put under a key and then given
    to a callback ends in a code entry of its own if and only if it names a code.
   */
  lemma TextBindsExactly(s: State, put: Step, key: Str, text: Str, session: Str)
    requires key != [] && Puts(put, key, text)
    ensures var e := Entry(|s.log|, text); var steps := [put, Consume(key), Bind(e, session)];
            && (Run(s, steps) <==> NamesCode(text))
            && After(s, steps).log == Apply(s, put).log + [Consumed(|s.log|), BoundBy(e, session)]
  {
    var e := Entry(|s.log|, text);
    var steps := [put, Consume(key), Bind(e, session)];
    var s1 := Apply(s, put);
    var s2 := Apply(s1, steps[1]);
    NamesCodeExact(text);
    assert s2.log == s1.log + [Consumed(|s.log|)] && e in s2.taken;
    OneStep(s, steps);
    OneStep(s1, steps[1..]);
    OneStep(s2, steps[2..]);
    assert steps[1..][1..] == steps[2..] && steps[2..][1..] == [];
  }

  /** From nothing: any text that names a code has it bound, although nobody asked for it. */
  lemma TextBindsUnasked(put: Step, key: Str, text: Str, session: Str)
    requires key != [] && Puts(put, key, text) && NamesCode(text)
    ensures var steps := [put, Consume(key), Bind(Entry(0, text), session)]; var log := After(NOTHING, steps).log;
            && Run(NOTHING, steps) && |log| == 3 && log[2].Bound? && log[2].code == Resolved(text).code != []
            && forall e :: e in log ==> !e.Asked?
  {
    TextBindsExactly(NOTHING, put, key, text, session);
    NamesCodeExact(text);
  }

  const SOME_NONCE: Str := "c@@h"
  const SOME_FLOW: Str := "{\"scope\":\"x@@y\"}"

  /** Such texts are a nonce of the caller's choice, and the stored flow of a login whose scope holds the delimiter. */
  lemma TextsThatName()
    ensures NamesCode(SOME_NONCE) && NamesCode(SOME_FLOW)
  {
    assert SOME_NONCE[1..3] == DELIMITER && SOME_NONCE[0..2][0] == 'c';
    assert At(SOME_NONCE, DELIMITER, 1);
    assert SOME_FLOW[11..13] == DELIMITER && SOME_FLOW[0..2][0] == '{';
    assert At(SOME_FLOW, DELIMITER, 11);
  }

  /**
    The entry a callback writes under a code that was asked for holds the
    challenge, the nonce, the redirect URI and the client id that /authorize was
    given, if and only if challenge, nonce and session cannot be mistaken for
    the delimiter.
   */
  lemma BridgeFaithful(steps: seq<Step>, j: nat)
    requires Run(NOTHING, steps) && j < |After(NOTHING, steps).log| && After(NOTHING, steps).log[j].Bound?
    ensures var log := After(NOTHING, steps).log; var from := log[j].origin;
            && from < j
            && (log[from].Asked? ==>
                  var a, session := log[from].a, log[j].session;
                  ParseCode(log[j].text) == Code(a.challenge, session, a.nonce, a.redirectURI, [], a.clientID) <==>
                  DelimiterSafe(a.challenge) && DelimiterSafe(a.nonce) && DelimiterSafe(session))
  {
    RunKeeps(NOTHING, steps);
    var log := After(NOTHING, steps).log;
    assert BoundOK(log, j);
    var from := log[log[j].origin];
    if from.Asked? {
      CrossExact(from.a, log[j].session);
    }
  }
}
