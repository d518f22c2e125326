/**
  Social-login flows bound to the browser that began them: /oauth_login draws a
  handle, keeps the flow under it and gives the handle to the browser in a
  cookie; the callback compares the two (internal/http_handlers/oauth_login.go,
  internal/http_handlers/oauth_callback.go, internal/cookie/oauth_state.go).
 */
module LoginFlow {
  import opened Text
  import opened Escape
  import Methods

  type Browser = nat

  /** What a handle stands for; it never leaves the server. */
  datatype Payload = Payload(provider: Str, state: Str, redirectURI: Str, roles: Str, scope: Str)

  /** A text in the state store: one that reads back as a payload, or any other. */
  datatype Entry = Flow(payload: Payload) | Other(text: Str)

  datatype Event =
    | Started(browser: Browser, handle: Str, payload: Payload)
    | Wrote(handle: Str, payload: Payload) // some other part stored a text that reads as a flow
    | Completed(browser: Browser, handle: Str, payload: Payload, sentAt: nat, readAt: nat)

  /** A callback request under way: the cookie it was sent with, and what it has read so far. */
  datatype Callback = Callback(browser: Browser, provider: Str, handle: Str, cookie: Option<Str>, sentAt: nat,
                               read: Option<Payload>, readAt: nat)

  datatype State = State(
    cookies: map<Browser, Str>,
    store: map<Str, Entry>,
    issued: set<Str>,
    calls: multiset<Callback>,
    log: seq<Event>)

  datatype Step =
    | Start(b: Browser, handle: Str, payload: Payload, stored: bool) // /oauth_login; the store may fail after the cookie is set
    | Send(b: Browser, provider: Str, handle: Str)    // a browser is led to the callback, with any state at all
    | Read(call: Callback)                            // GetState and the provider check
    | Finish(call: Callback)                          // the cookie check, then RemoveState
    | GiveUp(call: Callback)
    | LoseCookie(b: Browser)
    | Expire(k: Str)
    | Write(k: Str, entry: Entry)                     // by any other part of the server, under any key

  /** A handle is drawn at random, so nothing has used it yet. */
  ghost predicate Enabled(s: State, step: Step) {
    match step
    case Start(_, handle, _, _) => Fresh(s, handle)
    case Read(call) => call in s.calls && call.read.None?
    case Finish(call) => call in s.calls && call.read.Some?
    case GiveUp(call) => call in s.calls
    case _ => true
  }

  ghost predicate Fresh(s: State, handle: Str) {
    && handle != [] && handle !in s.issued && handle !in s.store
    && (forall call :: call in s.calls ==> call.handle != handle)
    && forall e :: e in s.log ==> e.handle != handle
  }

  /** The flow a callback on this provider's route may read under this state. */
  predicate Readable(store: map<Str, Entry>, handle: Str, provider: Str) {
    && handle in store && store[handle].Flow?
    && store[handle].payload.provider != [] && store[handle].payload.provider == provider
  }

  /** The handle a browser is bound to: its cookie is escaped when it is set and unescaped when it is read. */
  function Bound(cookie: Option<Str>): Str {
    if cookie.Some? then UnescapeOrEmpty(cookie.value) else []
  }

  function CookieOf(s: State, b: Browser): Option<Str> {
    if b in s.cookies then Some(s.cookies[b]) else None
  }

  function Apply(s: State, step: Step): State {
    match step
    case Start(b, handle, payload, stored) =>
      State(s.cookies[b := QueryEscape(handle)], if stored then s.store[handle := Flow(payload)] else s.store,
            s.issued + {handle}, s.calls, s.log + [Started(b, handle, payload)])
    case Send(b, provider, handle) =>
      s.(calls := s.calls + multiset{Callback(b, provider, handle, CookieOf(s, b), |s.log|, None, 0)})
    case Read(call) =>
      var rest := s.calls - multiset{call};
      if Readable(s.store, call.handle, call.provider)
      then s.(calls := rest + multiset{call.(read := Some(s.store[call.handle].payload), readAt := |s.log|)})
      else s.(calls := rest)
    case Finish(call) =>
      var t := s.(cookies := s.cookies - {call.browser}, calls := s.calls - multiset{call});
      if Bound(call.cookie) == call.handle && call.read.Some?
      then t.(store := s.store - {call.handle},
              log := s.log + [Completed(call.browser, call.handle, call.read.value, call.sentAt, call.readAt)])
      else t
    case GiveUp(call) => s.(calls := s.calls - multiset{call})
    case LoseCookie(b) => s.(cookies := s.cookies - {b})
    case Expire(k) => s.(store := s.store - {k})
    case Write(k, entry) =>
      s.(store := s.store[k := entry], log := if entry.Flow? then s.log + [Wrote(k, entry.payload)] else s.log)
  }

  ghost predicate Run(s: State, steps: seq<Step>)
    decreases |steps|
  {
    steps == [] || (Enabled(s, steps[0]) && Run(Apply(s, steps[0]), steps[1..]))
  }

  function After(s: State, steps: seq<Step>): State
    decreases |steps|
  {
    if steps == [] then s else After(Apply(s, steps[0]), steps[1..])
  }

  // ---------------------------------------------------------------- who started what

  /** The last flow a browser started. */
  ghost function LatestStart(log: seq<Event>, b: Browser): Option<Event> {
    if log == [] then None else
      var last := log[|log| - 1];
      if last.Started? && last.browser == b then Some(last) else LatestStart(log[..|log| - 1], b)
  }

  ghost predicate BindsLatest(log: seq<Event>, b: Browser, cookie: Str) {
    var latest := LatestStart(log, b);
    latest.Some? && latest.value.Started? && cookie == QueryEscape(latest.value.handle)
  }

  lemma {:induction false} LatestIsLogged(log: seq<Event>, b: Browser)
    ensures LatestStart(log, b).Some? ==>
              LatestStart(log, b).value in log && LatestStart(log, b).value.Started? && LatestStart(log, b).value.browser == b
  {
    if log != [] {
      LatestIsLogged(log[..|log| - 1], b);
    }
  }

  /** No handle is started twice, and every one that is started is drawn. */
  ghost predicate OneStart(s: State) {
    && (forall e :: e in s.log && e.Started? ==> e.handle in s.issued && e.handle != [])
    && forall d, e :: d in s.log && e in s.log && d.Started? && e.Started? && d.handle == e.handle ==> d == e
  }

  /** Where a flow read under this handle comes from. */
  ghost predicate Source(log: seq<Event>, handle: Str, payload: Payload) {
    Wrote(handle, payload) in log || exists b :: Started(b, handle, payload) in log
  }

  ghost predicate CallOK(s: State, call: Callback) {
    && call.sentAt <= |s.log| && call.readAt <= |s.log|
    && (call.cookie.Some? ==> BindsLatest(s.log[..call.sentAt], call.browser, call.cookie.value))
    && (call.read.Some? ==>
          call.sentAt <= call.readAt && call.read.value.provider == call.provider != [] && Source(s.log, call.handle, call.read.value))
  }

  /**
    A completed flow is the latest one its own browser had started when the
    request was sent, with the payload stored then, or with one that some other
    part wrote under the same handle.
   */
  ghost predicate Own(log: seq<Event>, e: Event)
    requires e.Completed? && e.sentAt <= |log|
  {
    || Wrote(e.handle, e.payload) in log
    || LatestStart(log[..e.sentAt], e.browser) == Some(Started(e.browser, e.handle, e.payload))
  }

  ghost predicate OwnHandle(log: seq<Event>, e: Event)
    requires e.Completed? && e.sentAt <= |log|
  {
    e.handle != [] ==>
      var latest := LatestStart(log[..e.sentAt], e.browser);
      latest.Some? && latest.value.Started? && latest.value.handle == e.handle
  }

  ghost predicate CompletedOK(s: State, e: Event)
    requires e.Completed?
  {
    e.payload.provider != [] && e.sentAt <= e.readAt <= |s.log| && (e.handle in s.issued || e.handle == []) && Own(s.log, e) && OwnHandle(s.log, e)
  }

  ghost predicate Inv(s: State) {
    && OneStart(s)
    && (forall b :: b in s.cookies ==> BindsLatest(s.log, b, s.cookies[b]))
    && (forall k :: k in s.store && s.store[k].Flow? ==> Source(s.log, k, s.store[k].payload))
    && (forall call :: call in s.calls ==> CallOK(s, call))
    && (forall e :: e in s.log && e.Completed? ==> CompletedOK(s, e))
  }

  // ---------------------------------------------------------------- every step keeps the invariant

  lemma SourceGrows(log: seq<Event>, e: Event, k: Str, p: Payload)
    requires Source(log, k, p)
    ensures Source(log + [e], k, p)
  {
  }

  /** What held of the log still holds when an event is added. */
  lemma CallGrows(s: State, t: State, e: Event, call: Callback)
    requires t.log == s.log + [e] && CallOK(s, call)
    ensures CallOK(t, call)
  {
    assert t.log[..call.sentAt] == s.log[..call.sentAt];
    if call.read.Some? {
      SourceGrows(s.log, e, call.handle, call.read.value);
    }
  }

  lemma CompletedGrows(s: State, t: State, e: Event, d: Event)
    requires t.log == s.log + [e] && d.Completed? && CompletedOK(s, d) && s.issued <= t.issued
    ensures CompletedOK(t, d)
  {
    assert t.log[..d.sentAt] == s.log[..d.sentAt];
  }

  lemma LatestGrows(log: seq<Event>, e: Event, b: Browser)
    requires !(e.Started? && e.browser == b)
    ensures LatestStart(log + [e], b) == LatestStart(log, b)
  {
  }

  /** An event is added, and nothing but a new flow of its own comes with it. */
  lemma EventKeeps(s: State, t: State, e: Event)
    requires Inv(s) && t.log == s.log + [e] && s.issued <= t.issued && t.calls <= s.calls && OneStart(t)
    requires forall b :: b in t.cookies ==>
               if e.Started? && e.browser == b then t.cookies[b] == QueryEscape(e.handle)
               else b in s.cookies && t.cookies[b] == s.cookies[b]
    requires forall k :: k in t.store && t.store[k].Flow? ==>
               || (k in s.store && t.store[k] == s.store[k])
               || (!e.Completed? && e.handle == k && t.store[k].payload == e.payload)
    requires e.Completed? ==> CompletedOK(t, e)
    ensures Inv(t)
  {
    forall b | b in t.cookies
      ensures BindsLatest(t.log, b, t.cookies[b])
    {
      if !(e.Started? && e.browser == b) {
        LatestGrows(s.log, e, b);
      }
    }
    forall k | k in t.store && t.store[k].Flow?
      ensures Source(t.log, k, t.store[k].payload)
    {
      if k in s.store && t.store[k] == s.store[k] {
        SourceGrows(s.log, e, k, s.store[k].payload);
      } else {
        assert e in t.log;
      }
    }
    forall call | call in t.calls
      ensures CallOK(t, call)
    {
      CallGrows(s, t, e, call);
    }
    forall d | d in t.log && d.Completed?
      ensures CompletedOK(t, d)
    {
      if d in s.log {
        CompletedGrows(s, t, e, d);
      }
    }
  }

  lemma ReadKeeps(s: State, call: Callback)
    requires Inv(s) && call in s.calls
    ensures Inv(Apply(s, Read(call)))
  {
    var t := Apply(s, Read(call));
    forall other | other in t.calls
      ensures CallOK(t, other)
    {
      assert other in s.calls ==> CallOK(s, other);
      assert CallOK(s, call);
    }
    forall d | d in t.log && d.Completed?
      ensures CompletedOK(t, d)
    {
      assert CompletedOK(s, d);
    }
  }

  /** A cookie that names the handle names the browser's own latest flow. */
  lemma BoundOwn(s: State, call: Callback)
    requires Inv(s) && call in s.calls && Bound(call.cookie) == call.handle && call.handle != []
    ensures call.sentAt <= |s.log| && call.handle in s.issued
    ensures var latest := LatestStart(s.log[..call.sentAt], call.browser);
            && latest.Some? && latest.value in s.log && latest.value.Started?
            && latest.value.browser == call.browser && latest.value.handle == call.handle
  {
    assert CallOK(s, call);
    var before := s.log[..call.sentAt];
    LatestIsLogged(before, call.browser);
    var latest := LatestStart(before, call.browser).value;
    UnescapeEscape(latest.handle);
    assert latest in s.log;
  }

  /** The comparison of cookie and state singles out the browser's own flow. */
  lemma FinishedOwn(s: State, call: Callback)
    requires Inv(s) && call in s.calls && call.read.Some? && Bound(call.cookie) == call.handle
    ensures CompletedOK(s, Completed(call.browser, call.handle, call.read.value, call.sentAt, call.readAt))
  {
    assert CallOK(s, call);
    if call.handle != [] {
      BoundOwn(s, call);
    }
  }

  lemma FinishKeeps(s: State, call: Callback)
    requires Inv(s) && call in s.calls && call.read.Some? && Bound(call.cookie) == call.handle
    ensures Inv(Apply(s, Finish(call)))
  {
    FinishedOwn(s, call);
    var e := Completed(call.browser, call.handle, call.read.value, call.sentAt, call.readAt);
    var t := Apply(s, Finish(call));
    CompletedGrows(s, t, e, e);
    EventKeeps(s, t, e);
  }

  lemma StartKeeps(s: State, b: Browser, handle: Str, payload: Payload, stored: bool)
    requires Inv(s) && Fresh(s, handle)
    ensures Inv(Apply(s, Start(b, handle, payload, stored)))
  {
    EventKeeps(s, Apply(s, Start(b, handle, payload, stored)), Started(b, handle, payload));
  }

  lemma SendKeeps(s: State, b: Browser, provider: Str, handle: Str)
    requires Inv(s)
    ensures Inv(Apply(s, Send(b, provider, handle)))
  {
    assert s.log[..|s.log|] == s.log;
    var t := Apply(s, Send(b, provider, handle));
    forall other | other in t.calls
      ensures CallOK(t, other)
    {
      assert other in s.calls ==> CallOK(s, other);
    }
    forall d | d in t.log && d.Completed?
      ensures CompletedOK(t, d)
    {
      assert CompletedOK(s, d);
    }
  }

  /** Losing things, or writing what is not a flow, keeps the invariant. */
  lemma QuietKeeps(s: State, t: State)
    requires Inv(s)
    requires t.log == s.log && t.issued == s.issued && t.calls <= s.calls
    requires forall b :: b in t.cookies ==> b in s.cookies && t.cookies[b] == s.cookies[b]
    requires forall k :: k in t.store && t.store[k].Flow? ==> k in s.store && s.store[k] == t.store[k]
    ensures Inv(t)
  {
  }

  lemma StepKeeps(s: State, step: Step)
    requires Inv(s) && Enabled(s, step)
    ensures Inv(Apply(s, step))
  {
    var t := Apply(s, step);
    match step
    case Start(b, handle, payload, stored) => StartKeeps(s, b, handle, payload, stored);
    case Send(b, provider, handle) => SendKeeps(s, b, provider, handle);
    case Read(call) => ReadKeeps(s, call);
    case Finish(call) =>
      if Bound(call.cookie) == call.handle {
        FinishKeeps(s, call);
      } else {
        QuietKeeps(s, t);
      }
    case Write(k, entry) => OtherWriteKeeps(s, k, entry);
    case _ => QuietKeeps(s, t);
  }

  lemma OtherWriteKeeps(s: State, k: Str, entry: Entry)
    requires Inv(s)
    ensures Inv(Apply(s, Write(k, entry)))
  {
    if entry.Flow? {
      EventKeeps(s, Apply(s, Write(k, entry)), Wrote(k, entry.payload));
    } else {
      QuietKeeps(s, Apply(s, Write(k, entry)));
    }
  }

  lemma {:induction false} RunKeeps(s: State, steps: seq<Step>)
    requires Inv(s) && Run(s, steps)
    ensures Inv(After(s, steps))
    decreases |steps|
  {
    if steps != [] {
      StepKeeps(s, steps[0]);
      RunKeeps(Apply(s, steps[0]), steps[1..]);
    }
  }

  const NOTHING: State := State(map[], map[], {}, multiset{}, [])

  /**
    However many browsers and flows are interleaved, and whatever else is written
    to the store: a callback that passes the binding check completed the latest
    /oauth_login its own browser had made when the request was sent, and used the
    provider, redirect, roles and scope stored then, unless another part of the
    server wrote a flow under that handle.
   */
  lemma FlowBound(steps: seq<Step>, e: Event)
    requires Run(NOTHING, steps) && e in After(NOTHING, steps).log && e.Completed?
    ensures var log := After(NOTHING, steps).log; e.sentAt <= |log| && Own(log, e) && OwnHandle(log, e) && e.payload.provider != []
  {
    RunKeeps(NOTHING, steps);
    assert CompletedOK(After(NOTHING, steps), e);
  }

  lemma OneStep(s: State, steps: seq<Step>)
    requires steps != []
    ensures After(s, steps) == After(Apply(s, steps[0]), steps[1..])
    ensures Run(s, steps) <==> Enabled(s, steps[0]) && Run(Apply(s, steps[0]), steps[1..])
  {
  }

  /** One callback from sending to finishing, with nothing in between. */
  function Alone(s: State, b: Browser, provider: Str, handle: Str): seq<Step> {
    var call := Callback(b, provider, handle, CookieOf(s, b), |s.log|, None, 0);
    var payload := if handle in s.store && s.store[handle].Flow? then Some(s.store[handle].payload) else None;
    [Send(b, provider, handle), Read(call), Finish(call.(read := payload, readAt := |s.log|))]
  }

  lemma AloneCompletes(s: State, b: Browser, provider: Str, handle: Str)
    requires Bound(CookieOf(s, b)) == handle && Readable(s.store, handle, provider)
    ensures Run(s, Alone(s, b, provider, handle))
    ensures After(s, Alone(s, b, provider, handle)).log ==
            s.log + [Completed(b, handle, s.store[handle].payload, |s.log|, |s.log|)]
    ensures After(s, Alone(s, b, provider, handle)).store == s.store - {handle}
  {
    var steps := Alone(s, b, provider, handle);
    var s1 := Apply(s, steps[0]);
    var s2 := Apply(s1, steps[1]);
    OneStep(s, steps);
    OneStep(s1, steps[1..]);
    OneStep(s2, steps[2..]);
    assert steps[1..][1..] == steps[2..] && steps[2..][1..] == [];
  }

  /** The exception is real: in any state, a flow written under the handle a browser is bound to is the one that browser completes. */
  lemma WrittenFlowCompletes(s: State, b: Browser, handle: Str, p: Payload)
    requires Bound(CookieOf(s, b)) == handle && p.provider != []
    ensures var t := Apply(s, Write(handle, Flow(p))); var steps := Alone(t, b, p.provider, handle);
            && Run(t, steps)
            && After(t, steps).log == s.log + [Wrote(handle, p), Completed(b, handle, p, |s.log| + 1, |s.log| + 1)]
  {
    AloneCompletes(Apply(s, Write(handle, Flow(p))), b, p.provider, handle);
  }

  // ---------------------------------------------------------------- how often a flow completes

  /** A flow was written under this handle between two moments. */
  ghost predicate WroteBetween(log: seq<Event>, handle: Str, from: nat, to: nat) {
    exists w :: from < w < to && w < |log| && log[w].Wrote? && log[w].handle == handle
  }

  /** After a completion the handle is readable again only if it was written again. */
  ghost predicate SpentAt(s: State, i: nat)
    requires i < |s.log| && s.log[i].Completed?
  {
    var h := s.log[i].handle;
    && (h in s.store && s.store[h].Flow? ==> WroteBetween(s.log, h, i, |s.log|))
    && (forall call :: call in s.calls && call.read.Some? && call.handle == h && call.readAt > i ==>
          WroteBetween(s.log, h, i, call.readAt))
    && forall j :: i < j < |s.log| && s.log[j].Completed? && s.log[j].handle == h && s.log[j].readAt > i ==>
         WroteBetween(s.log, h, i, s.log[j].readAt)
  }

  ghost predicate Spent(s: State) { forall i :: 0 <= i < |s.log| && s.log[i].Completed? ==> SpentAt(s, i) }

  lemma BetweenGrows(log: seq<Event>, e: Event, h: Str, from: nat, to: nat)
    requires WroteBetween(log, h, from, to)
    ensures WroteBetween(log + [e], h, from, to) && WroteBetween(log + [e], h, from, to + 1)
  {
    var w :| from < w < to && w < |log| && log[w].Wrote? && log[w].handle == h;
    assert (log + [e])[w] == log[w];
  }

  /** A step that adds an event keeps an earlier completion spent. */
  lemma EventKeepsSpent(s: State, t: State, e: Event, i: nat)
    requires i < |s.log| && s.log[i].Completed? && SpentAt(s, i) && t.log == s.log + [e] && t.calls <= s.calls
    requires var h := s.log[i].handle;
             h in t.store && t.store[h].Flow? ==> (h in s.store && s.store[h].Flow?) || (e.Wrote? && e.handle == h)
    requires var h := s.log[i].handle;
             e.Completed? && e.handle == h && e.readAt > i ==> WroteBetween(s.log, h, i, e.readAt)
    ensures SpentAt(t, i)
  {
    var h := s.log[i].handle;
    if h in t.store && t.store[h].Flow? {
      if h in s.store && s.store[h].Flow? {
        BetweenGrows(s.log, e, h, i, |s.log|);
      } else {
        assert t.log[|s.log|] == e;
      }
    }
    forall call | call in t.calls && call.read.Some? && call.handle == h && call.readAt > i
      ensures WroteBetween(t.log, h, i, call.readAt)
    {
      BetweenGrows(s.log, e, h, i, call.readAt);
    }
    forall j | i < j < |t.log| && t.log[j].Completed? && t.log[j].handle == h && t.log[j].readAt > i
      ensures WroteBetween(t.log, h, i, t.log[j].readAt)
    {
      if j < |s.log| {
        assert t.log[j] == s.log[j];
      }
      BetweenGrows(s.log, e, h, i, t.log[j].readAt);
    }
  }

  lemma StartKeepsSpent(s: State, step: Step)
    requires Inv(s) && Spent(s) && step.Start? && Enabled(s, step)
    ensures Spent(Apply(s, step))
  {
    var t := Apply(s, step);
    forall i | 0 <= i < |t.log| && t.log[i].Completed?
      ensures SpentAt(t, i)
    {
      assert t.log[i] == s.log[i] && s.log[i] in s.log;
      EventKeepsSpent(s, t, Started(step.b, step.handle, step.payload), i);
    }
  }

  lemma FinishKeepsSpent(s: State, call: Callback)
    requires Inv(s) && Spent(s) && call in s.calls && call.read.Some? && Bound(call.cookie) == call.handle
    ensures Spent(Apply(s, Finish(call)))
  {
    var t := Apply(s, Finish(call));
    var e := Completed(call.browser, call.handle, call.read.value, call.sentAt, call.readAt);
    forall i | 0 <= i < |t.log| && t.log[i].Completed?
      ensures SpentAt(t, i)
    {
      if i < |s.log| {
        assert t.log[i] == s.log[i];
        EventKeepsSpent(s, t, e, i);
      } else {
        assert forall other :: other in t.calls ==> CallOK(s, other);
      }
    }
  }

  lemma WriteKeepsSpent(s: State, k: Str, p: Payload)
    requires Spent(s)
    ensures Spent(Apply(s, Write(k, Flow(p))))
  {
    var t := Apply(s, Write(k, Flow(p)));
    forall i | 0 <= i < |t.log| && t.log[i].Completed?
      ensures SpentAt(t, i)
    {
      assert t.log[i] == s.log[i];
      EventKeepsSpent(s, t, Wrote(k, p), i);
    }
  }

  lemma StepKeepsSpent(s: State, step: Step)
    requires Inv(s) && Spent(s) && Enabled(s, step)
    ensures Spent(Apply(s, step))
  {
    var t := Apply(s, step);
    if step.Start? {
      StartKeepsSpent(s, step);
    } else if step.Finish? && Bound(step.call.cookie) == step.call.handle {
      FinishKeepsSpent(s, step.call);
    } else if step.Write? && step.entry.Flow? {
      WriteKeepsSpent(s, step.k, step.entry.payload);
    } else {
      QuietKeepsSpent(s, step);
    }
  }

  /** A step that logs nothing. */
  lemma QuietKeepsSpent(s: State, step: Step)
    requires Spent(s) && Enabled(s, step) && Apply(s, step).log == s.log && !step.Start?
    ensures Spent(Apply(s, step))
  {
    var t := Apply(s, step);
    forall i | 0 <= i < |t.log| && t.log[i].Completed?
      ensures SpentAt(t, i)
    {
      assert SpentAt(s, i);
    }
  }

  lemma {:induction false} RunKeepsSpent(s: State, steps: seq<Step>)
    requires Inv(s) && Spent(s) && Run(s, steps)
    ensures Spent(After(s, steps))
    decreases |steps|
  {
    if steps != [] {
      StepKeeps(s, steps[0]);
      StepKeepsSpent(s, steps[0]);
      RunKeepsSpent(Apply(s, steps[0]), steps[1..]);
    }
  }

  /**
    In every run a handle completes a second time only if the second callback had
    read the flow before the first one finished, or a flow was written under the
    handle in between.
   */
  lemma CompletesAgainOnly(steps: seq<Step>, i: nat, j: nat)
    requires Run(NOTHING, steps) && i < j < |After(NOTHING, steps).log|
    requires var log := After(NOTHING, steps).log; log[i].Completed? && log[j].Completed? && log[i].handle == log[j].handle
    ensures var log := After(NOTHING, steps).log;
            log[j].readAt <= i || WroteBetween(log, log[i].handle, i, log[j].readAt)
  {
    RunKeepsSpent(NOTHING, steps);
    assert SpentAt(After(NOTHING, steps), i);
  }

  /** Two callbacks that both read before either finishes do both complete. */
  function Twice(s: State, b: Browser, provider: Str, handle: Str): seq<Step>
    requires handle in s.store && s.store[handle].Flow?
  {
    var call := Callback(b, provider, handle, CookieOf(s, b), |s.log|, None, 0);
    var read := call.(read := Some(s.store[handle].payload), readAt := |s.log|);
    [Send(b, provider, handle), Send(b, provider, handle), Read(call), Read(call), Finish(read), Finish(read)]
  }

  lemma CompletesTwice(s: State, b: Browser, provider: Str, handle: Str)
    requires Bound(CookieOf(s, b)) == handle && Readable(s.store, handle, provider)
    ensures var steps := Twice(s, b, provider, handle);
            var e := Completed(b, handle, s.store[handle].payload, |s.log|, |s.log|);
            Run(s, steps) && After(s, steps).log == s.log + [e, e]
  {
    var steps := Twice(s, b, provider, handle);
    var call, read := steps[2].call, steps[4].call;
    assert Apply(Apply(s, steps[0]), steps[1]) == Calling(s, call, call);
    BothRead(s, call, read);
    BothFinish(s, read);
    SixSteps(s, steps);
  }

  function Calling(s: State, c: Callback, d: Callback): State { s.(calls := s.calls + multiset{c, d}) }

  lemma BothRead(s: State, call: Callback, read: Callback)
    requires Readable(s.store, call.handle, call.provider) && call.read.None?
    requires read == call.(read := Some(s.store[call.handle].payload), readAt := |s.log|)
    ensures Enabled(Calling(s, call, call), Read(call)) && Enabled(Calling(s, call, read), Read(call))
    ensures Apply(Calling(s, call, call), Read(call)) == Calling(s, call, read)
    ensures Apply(Calling(s, call, read), Read(call)) == Calling(s, read, read)
  {
    Exchange(s.calls, call, call, read);
    Exchange(s.calls, call, read, read);
  }

  lemma Exchange(calls: multiset<Callback>, c: Callback, d: Callback, e: Callback)
    ensures calls + multiset{c, d} - multiset{c} + multiset{e} == calls + multiset{d, e}
    ensures multiset{d, e} == multiset{e, d}
  {
  }

  lemma BothFinish(s: State, read: Callback)
    requires read.read.Some? && Bound(read.cookie) == read.handle
    ensures var two := Calling(s, read, read); var one := Apply(two, Finish(read));
            var e := Completed(read.browser, read.handle, read.read.value, read.sentAt, read.readAt);
            && Enabled(two, Finish(read)) && Enabled(one, Finish(read))
            && Apply(one, Finish(read)).log == s.log + [e, e]
  {
  }

  lemma SixSteps(s: State, steps: seq<Step>)
    requires |steps| == 6
    ensures var s1 := Apply(s, steps[0]); var s2 := Apply(s1, steps[1]); var s3 := Apply(s2, steps[2]);
            var s4 := Apply(s3, steps[3]); var s5 := Apply(s4, steps[4]);
            && After(s, steps) == Apply(s5, steps[5])
            && (Run(s, steps) <==>
                  && Enabled(s, steps[0]) && Enabled(s1, steps[1]) && Enabled(s2, steps[2])
                  && Enabled(s3, steps[3]) && Enabled(s4, steps[4]) && Enabled(s5, steps[5]))
  {
    var s1 := Apply(s, steps[0]);
    var s2 := Apply(s1, steps[1]);
    var s3 := Apply(s2, steps[2]);
    var s4 := Apply(s3, steps[3]);
    var s5 := Apply(s4, steps[4]);
    OneStep(s, steps);
    OneStep(s1, steps[1..]);
    OneStep(s2, steps[2..]);
    OneStep(s3, steps[3..]);
    OneStep(s4, steps[4..]);
    OneStep(s5, steps[5..]);
    assert steps[1..][1..] == steps[2..] && steps[2..][1..] == steps[3..] && steps[3..][1..] == steps[4..];
    assert steps[4..][1..] == steps[5..] && steps[5..][1..] == [];
  }

  /** So after one /oauth_login, from nothing. */
  lemma OneFlowTwice(b: Browser, handle: Str, p: Payload)
    requires handle != [] && p.provider != []
    ensures var start := Start(b, handle, p, true); var s := Apply(NOTHING, start);
            && Enabled(NOTHING, start) && handle in s.store && s.store[handle].Flow?
            && Run(s, Twice(s, b, p.provider, handle))
            && |After(s, Twice(s, b, p.provider, handle)).log| == 3
            && forall j :: 1 <= j < 3 ==> After(s, Twice(s, b, p.provider, handle)).log[j] == Completed(b, handle, p, 1, 1)
  {
    UnescapeEscape(handle);
    CompletesTwice(Apply(NOTHING, Start(b, handle, p, true)), b, p.provider, handle);
  }

  // ---------------------------------------------------------------- which flows can be completed

  /** A browser that sent this handle to the callback now would complete the flow. */
  ghost predicate Completable(s: State, b: Browser, handle: Str) {
    Bound(CookieOf(s, b)) == handle && exists provider :: Readable(s.store, handle, provider)
  }

  lemma CompletableIsLatest(s: State, b: Browser, handle: Str)
    requires Inv(s) && Completable(s, b, handle)
    ensures if handle == [] then b !in s.cookies && exists p :: Wrote([], p) in s.log
            else exists p :: Started(b, handle, p) in s.log && LatestStart(s.log, b) == Some(Started(b, handle, p))
  {
    LatestIsLogged(s.log, b);
    if b in s.cookies {
      var latest := LatestStart(s.log, b).value;
      UnescapeEscape(latest.handle);
      assert latest == Started(b, handle, latest.payload);
    } else {
      assert Source(s.log, [], s.store[[]].payload);
    }
  }

  /**
    At any time a browser can complete one flow at most: its own latest, which
    nobody else can complete. Only a flow written under the empty key is open to
    browsers that have no cookie.
   */
  lemma OneCompletable(steps: seq<Step>, b: Browser, handle: Str, c: Browser, other: Str)
    requires Run(NOTHING, steps)
    requires Completable(After(NOTHING, steps), b, handle) && Completable(After(NOTHING, steps), c, other)
    ensures b == c ==> handle == other
    ensures handle != [] ==> exists p :: LatestStart(After(NOTHING, steps).log, b) == Some(Started(b, handle, p))
    ensures handle == other != [] ==> b == c
    ensures handle == [] ==> exists p :: Wrote([], p) in After(NOTHING, steps).log
  {
    RunKeeps(NOTHING, steps);
    CompletableIsLatest(After(NOTHING, steps), b, handle);
    CompletableIsLatest(After(NOTHING, steps), c, other);
  }

  // ---------------------------------------------------------------- the two handlers

  const SPACE: Str := " "
  const PKCE_PREFIX: Str := "pkce_verifier:"
  const DEFAULT_SCOPE: Str := "openid profile email"

  datatype Query = Query(redirectURL: Str, redirectURI: Str, roles: Str, state: Str, scope: Str)

  datatype LoginConfig = LoginConfig(roles: seq<Str>, protectedRoles: seq<Str>, defaultRoles: seq<Str>)

  datatype Reply = Refused(status: nat, cookie: Option<Str>) | ToProvider(state: Str, cookie: Option<Str>, verifier: Option<Str>)

  /** What /oauth_login has checked of a flow before it stores it. */
  ghost predicate Validated(cfg: LoginConfig, allowed: Str -> bool, provider: Str, p: Payload) {
    && p.provider == provider
    && p.redirectURI != [] && allowed(p.redirectURI)
    && (p.roles == Join(cfg.defaultRoles, COMMA) ||
        forall role :: role in Split(p.roles, COMMA) ==> role in cfg.roles || role in cfg.protectedRoles)
  }

  method IsValidRoles(userRoles: seq<Str>, roles: seq<Str>) returns (valid: bool)
    ensures valid <==> forall role :: role in userRoles ==> role in roles
  {
    valid := true;
    for i := 0 to |userRoles|
      invariant valid && forall role :: role in userRoles[..i] ==> role in roles
    {
      if userRoles[i] !in roles {
        return false;
      }
    }
  }

  function TargetOf(q: Query): Str {
    if TrimSpace(q.redirectURL) == [] then TrimSpace(q.redirectURI) else TrimSpace(q.redirectURL)
  }

  /** The request names a redirect the server allows, and no role it does not know. */
  ghost predicate Startable(cfg: LoginConfig, allowed: Str -> bool, q: Query) {
    && TargetOf(q) != [] && allowed(TargetOf(q))
    && (TrimSpace(q.roles) == [] ||
        forall role :: role in Split(TrimSpace(q.roles), COMMA) ==> role in cfg.roles || role in cfg.protectedRoles)
  }

  /** A flow carries what its request asked for, with the defaults where it asked for nothing. */
  ghost predicate AsAsked(cfg: LoginConfig, q: Query, uuid: Str, p: Payload) {
    && p.state == (if TrimSpace(q.state) == [] then uuid else TrimSpace(q.state))
    && p.scope == (if TrimSpace(q.scope) == [] then "openid profile email" else TrimSpace(q.scope))
    && p.roles == (if TrimSpace(q.roles) == [] then Join(cfg.defaultRoles, ",") else TrimSpace(q.roles))
    && p.redirectURI == (if TrimSpace(q.redirectURL) == [] then TrimSpace(q.redirectURI) else TrimSpace(q.redirectURL))
  }

  /** The parameters a flow is stored with; None when the request is refused. */
  method FlowOf(cfg: LoginConfig, allowed: Str -> bool, provider: Str, q: Query, uuid: Str) returns (p: Option<Payload>)
    ensures p.Some? <==> Startable(cfg, allowed, q)
    ensures p.Some? ==> Validated(cfg, allowed, provider, p.value)
    ensures p.Some? ==> AsAsked(cfg, q, uuid, p.value)
  {
    var redirectURI := TrimSpace(q.redirectURL);
    if redirectURI == [] {
      redirectURI := TrimSpace(q.redirectURI);
    }
    var roles, state, scopeString := TrimSpace(q.roles), TrimSpace(q.state), TrimSpace(q.scope);
    if redirectURI == [] || !allowed(redirectURI) {
      return None;
    }
    if state == [] {
      state := uuid;
    }
    var scope := DEFAULT_SCOPE;
    if scopeString != [] {
      scope := Join(Split(scopeString, SPACE), SPACE);
      JoinSplit(scopeString, SPACE);
    }
    if roles != [] {
      var valid := IsValidRoles(Split(roles, COMMA), cfg.roles + cfg.protectedRoles);
      if !valid {
        return None;
      }
    } else {
      roles := Join(cfg.defaultRoles, COMMA);
    }
    return Some(Payload(provider, state, redirectURI, roles, scope));
  }

  class LoginServer {
    var store: map<Str, Entry>

    constructor ()
      ensures store == map[]
    {
      store := map[];
    }

    /**
      /oauth_login: a refusal stores no flow. The cookie is the escaped handle,
      the handle is all that goes to the provider, and what is stored under it
      has been validated. The store may fail at either write.
     */
    method OAuthLogin(cfg: LoginConfig, allowed: Str -> bool, configured: set<Str>, provider: Str, q: Query, uuid: Str,
                      handle: Str, verifier: Str, stateStored: bool, verifierStored: bool) returns (r: Reply)
      modifies this
      ensures r.ToProvider? <==>
                && Startable(cfg, allowed, q) && provider in configured
                && stateStored && (provider == Methods.TWITTER ==> verifierStored)
      ensures r.ToProvider? ==>
                && r.state == handle && r.cookie == Some(QueryEscape(handle)) && Bound(r.cookie) == handle
                && handle in store && store[handle].Flow?
                && Validated(cfg, allowed, provider, store[handle].payload)
                && AsAsked(cfg, q, uuid, store[handle].payload)
                && r.verifier == (if provider == Methods.TWITTER then Some(verifier) else None)
                && (provider == Methods.TWITTER ==>
                      "pkce_verifier:" + handle in store && store["pkce_verifier:" + handle] == Other(verifier))
      ensures forall k :: k != handle && k != PKCE_PREFIX + handle ==> (k in store <==> k in old(store))
      ensures forall k :: k in old(store) && k != handle && k != PKCE_PREFIX + handle ==> store[k] == old(store)[k]
      ensures r.Refused? && r.cookie.None? ==> store == old(store)
      ensures r.Refused? && store != old(store) ==> provider == Methods.TWITTER && !verifierStored
    {
      var p := FlowOf(cfg, allowed, provider, q, uuid);
      if p.None? {
        return Refused(400, None);
      }
      if provider !in configured {
        return Refused(422, None);
      }
      var cookie := QueryEscape(handle);
      UnescapeEscape(handle);
      if !stateStored {
        return Refused(500, Some(cookie));
      }
      store := store[handle := Flow(p.value)];
      if provider == Methods.TWITTER {
        if !verifierStored {
          return Refused(500, Some(cookie));
        }
        assert |PKCE_PREFIX + handle| != |handle|;
        store := store[PKCE_PREFIX + handle := Other(verifier)];
        return ToProvider(handle, Some(cookie), Some(verifier));
      }
      return ToProvider(handle, Some(cookie), None);
    }

    /**
      The opening of the callback: the flow is handed on exactly when it is
      stored for this route's provider and the browser is bound to it; a request
      that is turned away leaves the store as it was.
     */
    method OpenCallback(provider: Str, state: Str, cookie: Option<Str>) returns (flow: Option<Payload>, clearsCookie: bool)
      modifies this
      ensures flow.Some? <==> Readable(old(store), state, provider) && Bound(cookie) == state
      ensures flow.Some? ==> flow.value == old(store)[state].payload
      ensures store == if flow.Some? then old(store) - {state} else old(store)
      ensures clearsCookie <==> Readable(old(store), state, provider)
    {
      flow, clearsCookie := None, false;
      if state !in store {
        return;
      }
      match store[state]
      case Other(_) => return;
      case Flow(payload) =>
        if payload.provider == [] || payload.provider != provider {
          return;
        }
        clearsCookie := true;
        if Bound(cookie) != state {
          return;
        }
        store := store - {state};
        flow := Some(payload);
    }

    /**
      A login and its callback in the same browser: the callback is handed what
      the query asked for, once and only once.
     */
    method LoginAndReturn(cfg: LoginConfig, allowed: Str -> bool, configured: set<Str>, provider: Str, q: Query, uuid: Str,
                          handle: Str, verifier: Str) returns (first: Option<Payload>, second: Option<Payload>)
      requires provider != []
      modifies this
      ensures first.Some? <==> Startable(cfg, allowed, q) && provider in configured
      ensures first.Some? ==> first.value.provider == provider && AsAsked(cfg, q, uuid, first.value)
      ensures second.None?
    {
      first, second := None, None;
      var r := OAuthLogin(cfg, allowed, configured, provider, q, uuid, handle, verifier, true, true);
      if r.ToProvider? {
        var clears;
        first, clears := OpenCallback(provider, r.state, r.cookie);
        second, clears := OpenCallback(provider, r.state, r.cookie);
      }
    }
  }

  /** As the steps have it: a flow that is started and sent back is the one its browser completes, and is gone. */
  lemma FlowCompletes(s: State, b: Browser, handle: Str, p: Payload)
    requires Fresh(s, handle) && p.provider != []
    ensures var t := Apply(s, Start(b, handle, p, true)); var steps := Alone(t, b, p.provider, handle);
            && Enabled(s, Start(b, handle, p, true)) && Run(t, steps) && After(t, steps).store == s.store
            && After(t, steps).log == s.log + [Started(b, handle, p), Completed(b, handle, p, |s.log| + 1, |s.log| + 1)]
  {
    UnescapeEscape(handle);
    AloneCompletes(Apply(s, Start(b, handle, p, true)), b, p.provider, handle);
  }
}
