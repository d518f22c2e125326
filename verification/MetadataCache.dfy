/**
  Client ID metadata documents: validation, the clamped cache lifetime and the
  bounded cache (internal/clientmetadata/clientmetadata.go).

  Times are nanoseconds, as in package time.
 */
module MetadataCache {
  import opened Text
  import opened Numbers
  import opened Redirect

  const SECOND: int := 1_000_000_000
  const MIN_TTL: int := 60 * SECOND
  const MAX_TTL: int := 3600 * SECOND
  const MAX_ENTRIES: nat := 512

  const MAX_AGE: Str := "max-age="
  const HTTPS: Str := "https"
  const HTTPS_PREFIX: Str := "https://"
  const SLASH: Str := "/"

  // ---------------------------------------------------------------- how long to keep a document

  function Clamp(ttl: int): (r: int)
    ensures MIN_TTL <= r <= MAX_TTL
  {
    if ttl < MIN_TTL then MIN_TTL else if ttl > MAX_TTL then MAX_TTL else ttl
  }

  /** The positive max-age one directive carries, in seconds. */
  function MaxAgeOf(directive: Str): (r: Option<int>)
    ensures r.Some? ==> 0 < r.value < TWO_63
  {
    var d := ToLower(TrimSpace(directive));
    if HasPrefix(d, MAX_AGE) && Atoi(d[|MAX_AGE|..]).Some? && Atoi(d[|MAX_AGE|..]).value > 0
    then Atoi(d[|MAX_AGE|..]) else None
  }

  /** The last valid max-age of a list of directives. */
  function LastMaxAge(directives: seq<Str>): (r: Option<int>)
    ensures r.Some? ==> 0 < r.value < TWO_63
  {
    if directives == [] then None
    else if MaxAgeOf(directives[|directives| - 1]).Some? then MaxAgeOf(directives[|directives| - 1])
    else LastMaxAge(directives[..|directives| - 1])
  }

  /** A directive carries a max-age exactly if, trimmed and in lower case, it is that word and a positive numeral. */
  lemma MaxAgeExact(directive: Str, n: int)
    ensures MaxAgeOf(directive) == Some(n) <==>
            0 < n < TWO_63 && exists text :: ToLower(TrimSpace(directive)) == "max-age=" + text && Spells(text, n)
  {
    var d := ToLower(TrimSpace(directive));
    if HasPrefix(d, MAX_AGE) {
      var text := d[8..];
      assert d == "max-age=" + text;
      AtoiExact(text, n);
    }
    forall text | d == "max-age=" + text
      ensures HasPrefix(d, MAX_AGE) && d[8..] == text
    {
      assert d[0..8] == MAX_AGE;
    }
  }

  /** The last directive that carries one counts, whatever comes before it. */
  lemma {:induction false} LastMaxAgeCounts(before: seq<Str>, directive: Str, after: seq<Str>)
    requires MaxAgeOf(directive).Some? && forall d :: d in after ==> MaxAgeOf(d).None?
    ensures LastMaxAge(before + [directive] + after) == MaxAgeOf(directive)
  {
    var all := before + [directive] + after;
    if after == [] {
      assert all[|all| - 1] == directive;
    } else {
      var last := |after| - 1;
      assert MaxAgeOf(after[last]).None?;
      assert all[..|all| - 1] == before + [directive] + after[..last] && all[|all| - 1] == after[last];
      LastMaxAgeCounts(before, directive, after[..last]);
    }
  }

  lemma {:induction false} NoMaxAgeCounts(directives: seq<Str>)
    requires forall d :: d in directives ==> MaxAgeOf(d).None?
    ensures LastMaxAge(directives) == None
  {
    if directives != [] {
      NoMaxAgeCounts(directives[..|directives| - 1]);
    }
  }

  /** The lifetime a Cache-Control header gets; seconds become nanoseconds in 64 bits. */
  function Lifetime(header: Str): (ttl: int)
    ensures MIN_TTL <= ttl <= MAX_TTL
  {
    match LastMaxAge(Split(header, ","))
    case Some(secs) => Clamp(Wrap64(secs * SECOND))
    case None => MIN_TTL
  }

  /** cacheTTL */
  method CacheTTL(header: Str) returns (ttl: int)
    ensures ttl == Lifetime(header)
  {
    ttl := MIN_TTL;
    var parts := Split(header, ",");
    for i := 0 to |parts|
      invariant ttl == match LastMaxAge(parts[..i]) case Some(secs) => Wrap64(secs * SECOND) case None => MIN_TTL
    {
      assert parts[..i + 1][..i] == parts[..i];
      var part := ToLower(TrimSpace(parts[i]));
      if HasPrefix(part, MAX_AGE) {
        var secs := Atoi(part[|MAX_AGE|..]);
        if secs.Some? && secs.value > 0 {
          ttl := Wrap64(secs.value * SECOND);
        }
      }
    }
    assert parts[..|parts|] == parts;
    if ttl < MIN_TTL {
      ttl := MIN_TTL;
    }
    if ttl > MAX_TTL {
      ttl := MAX_TTL;
    }
  }

  /** The lifetime is the clamp of the seconds asked for exactly when the product fits or wraps to an hour or more. */
  lemma TTLExact(secs: int)
    requires 0 < secs < TWO_63
    ensures Clamp(Wrap64(secs * SECOND)) == Clamp(secs * SECOND) <==>
            secs * SECOND < TWO_63 || Wrap64(secs * SECOND) >= MAX_TTL
    ensures secs * SECOND < TWO_63 ==>
            Clamp(Wrap64(secs * SECOND)) == SECOND * (if secs < 60 then 60 else if secs > 3600 then 3600 else secs)
  {
  }

  /** The lifetime the header asks for, without the 64-bit product. */
  function Asked(header: Str): int {
    match LastMaxAge(Split(header, ","))
    case Some(secs) => Clamp(secs * SECOND)
    case None => MIN_TTL
  }

  /** For every header, what it gets is what it asks for unless the product wraps to less than an hour. */
  lemma LifetimeExact(header: Str)
    ensures var last := LastMaxAge(Split(header, ","));
            Lifetime(header) == Asked(header) <==>
            (last.Some? ==> last.value * SECOND < TWO_63 || Wrap64(last.value * SECOND) >= MAX_TTL)
  {
  }

  /** A max-age of some 292 years is kept for a minute, not for an hour. */
  lemma TTLWraps()
    ensures Clamp(9_223_372_037 * SECOND) == MAX_TTL && Clamp(Wrap64(9_223_372_037 * SECOND)) == MIN_TTL
  {
  }

  // ---------------------------------------------------------------- identifiers and documents

  /** The part of a Client ID Metadata Document the server uses. */
  datatype Document = Document(clientID: Str, clientName: Str, redirectURIs: seq<Str>)

  predicate IsMetadataClientID(parse: Parser, id: Str) {
    && HasPrefix(id, HTTPS_PREFIX)
    && match parse(id)
       case Some(u) => u.scheme == HTTPS && u.host != [] && u.path != [] && u.path != SLASH
       case None => false
  }

  /** What Resolve demands of an identifier before it looks anything up. */
  predicate Resolvable(parse: Parser, allowed: set<Str>, id: Str) {
    && IsMetadataClientID(parse, id)
    && parse(id).value.fragment == [] && !parse(id).value.hasUser
    && (allowed != {} ==> ToLower(parse(id).value.hostname) in allowed)
  }

  /** Which identifiers are looked up, part by part. */
  lemma ResolvableExactly(parse: Parser, allowed: set<Str>, id: Str)
    ensures Resolvable(parse, allowed, id) <==>
            && |id| >= 8 && id[..8] == "https://" && parse(id).Some?
            && var u := parse(id).value;
               && u.scheme == "https" && u.host != [] && u.path !in {"", "/"} && u.fragment == [] && !u.hasUser
               && (allowed == {} || ToLower(u.hostname) in allowed)
  {
    assert |id| >= 8 ==> id[0..8] == id[..8];
  }

  predicate AcceptableRedirect(parse: Parser, uri: Str) {
    match parse(uri)
    case Some(u) => u.scheme != [] && (u.scheme == HTTPS || IsLoopbackHost(u.hostname)) && u.fragment == [] && !u.hasUser
    case None => false
  }

  /** The document claims the URL it was found at, names itself, and lists only acceptable redirects. */
  ghost predicate ValidDocument(parse: Parser, id: Str, doc: Document) {
    && doc.clientID == id
    && TrimSpace(doc.clientName) != []
    && doc.redirectURIs != []
    && forall u :: u in doc.redirectURIs ==> AcceptableRedirect(parse, u)
  }

  /** A document that passes claims the very identifier, and can only be sent codes over https or to this machine. */
  lemma DocumentExactly(parse: Parser, id: Str, doc: Document)
    ensures ValidDocument(parse, id, doc) <==>
            && doc.clientID == id && TrimSpace(doc.clientName) != [] && |doc.redirectURIs| > 0
            && forall i :: 0 <= i < |doc.redirectURIs| ==>
                 && parse(doc.redirectURIs[i]).Some?
                 && var u := parse(doc.redirectURIs[i]).value;
                    && (u.scheme == "https" || (u.scheme != [] && u.hostname in {"127.0.0.1", "::1", "localhost"}))
                    && u.fragment == [] && !u.hasUser
  {
    assert forall i :: 0 <= i < |doc.redirectURIs| ==> doc.redirectURIs[i] in doc.redirectURIs;
  }

  method ValidateDocument(parse: Parser, id: Str, doc: Document) returns (ok: bool)
    ensures ok <==> ValidDocument(parse, id, doc)
  {
    if doc.clientID != id || TrimSpace(doc.clientName) == [] || |doc.redirectURIs| == 0 {
      return false;
    }
    for i := 0 to |doc.redirectURIs|
      invariant forall j :: 0 <= j < i ==> AcceptableRedirect(parse, doc.redirectURIs[j])
    {
      assert doc.redirectURIs[i] in doc.redirectURIs;
      var ru := parse(doc.redirectURIs[i]);
      if ru.None? || ru.value.scheme == [] {
        return false;
      }
      if ru.value.scheme != HTTPS && !IsLoopbackHost(ru.value.hostname) {
        return false;
      }
      if ru.value.fragment != [] || ru.value.hasUser {
        return false;
      }
    }
    return true;
  }

  // ---------------------------------------------------------------- the cache

  datatype CacheEntry = CacheEntry(doc: Document, expiresAt: int)

  type Cache = map<Str, CacheEntry>

  /** cached: an entry is used until its expiry has passed. */
  function Cached(c: Cache, id: Str, now: int): Option<Document> {
    if id in c && now <= c[id].expiresAt then Some(c[id].doc) else None
  }

  /** store: a full cache is cleared first. */
  function Stored(c: Cache, id: Str, doc: Document, ttl: int, now: int): Cache {
    (if |c| >= MAX_ENTRIES then map[] else c)[id := CacheEntry(doc, now + ttl)]
  }

  /** A stored document is found up to its expiry and not after; the others are found as before, unless the cache was full. */
  lemma StoredFound(c: Cache, id: Str, doc: Document, ttl: int, now: int, other: Str, later: int)
    ensures Cached(Stored(c, id, doc, ttl, now), id, later) == if later <= now + ttl then Some(doc) else None
    ensures other != id ==>
              Cached(Stored(c, id, doc, ttl, now), other, later) == if |c| < 512 then Cached(c, other, later) else None
  {
  }

  lemma StoredSize(c: Cache, id: Str, doc: Document, ttl: int, now: int)
    requires |c| <= MAX_ENTRIES
    ensures |Stored(c, id, doc, ttl, now)| <= MAX_ENTRIES
  {
  }

  /** What a fetch produced: nothing usable, or a body with its Cache-Control header. */
  datatype Fetched = NoDocument | Body(doc: Document, header: Str)

  class Provider {
    const parse: Parser
    const allowed: set<Str>
    var cache: Cache

    ghost predicate Valid()
      reads this
    {
      |cache| <= MAX_ENTRIES && forall k :: k in cache ==> ValidDocument(parse, k, cache[k].doc)
    }

    constructor (parse: Parser, allowed: set<Str>)
      ensures this.parse == parse && this.allowed == allowed && cache == map[] && Valid()
    {
      this.parse := parse;
      this.allowed := allowed;
      cache := map[];
    }

    method Store(id: Str, doc: Document, ttl: int, now: int)
      requires Valid() && ValidDocument(parse, id, doc)
      modifies this
      ensures Valid() && cache == Stored(old(cache), id, doc, ttl, now)
    {
      StoredSize(cache, id, doc, ttl, now);
      if |cache| >= MAX_ENTRIES {
        cache := map[];
      }
      cache := cache[id := CacheEntry(doc, now + ttl)];
    }

    /** One Resolve call with nothing in between; `fetched` is what the network would answer. */
    method Resolve(id: Str, now: int, fetched: Fetched, later: int) returns (doc: Option<Document>)
      requires Valid()
      modifies this
      ensures Valid()
      ensures doc.Some? ==> Resolvable(parse, allowed, id) && ValidDocument(parse, id, doc.value)
      ensures Resolvable(parse, allowed, id) && Cached(old(cache), id, now).Some? ==>
                doc == Cached(old(cache), id, now) && cache == old(cache)
      ensures Resolvable(parse, allowed, id) && Cached(old(cache), id, now).None? ==>
                if fetched.Body? && ValidDocument(parse, id, fetched.doc)
                then && doc == Some(fetched.doc)
                     && cache == Stored(old(cache), id, fetched.doc, Lifetime(fetched.header), later)
                else doc.None? && cache == old(cache)
      ensures !Resolvable(parse, allowed, id) ==> doc.None? && cache == old(cache)
    {
      if !Resolvable(parse, allowed, id) {
        return None;
      }
      doc := Cached(cache, id, now);
      if doc.Some? {
        return;
      }
      if fetched.NoDocument? {
        return None;
      }
      var ok := ValidateDocument(parse, id, fetched.doc);
      if !ok {
        return None;
      }
      var ttl := CacheTTL(fetched.header);
      Store(id, fetched.doc, ttl, later);
      return Some(fetched.doc);
    }
  }

  // ---------------------------------------------------------------- interleaved calls

  datatype Event =
    | FetchedAt(id: Str, doc: Document, at: int, ttl: int)
    | Returned(id: Str, doc: Document, at: int)

  /** The cache, the calls waiting for a fetch, and what has happened. */
  datatype State = State(cache: Cache, fetching: multiset<Str>, log: seq<Event>)

  datatype Step =
    | Hit(id: Str, now: int)
    | Miss(id: Str, now: int)
    | FetchFails(id: Str)
    | FetchStores(id: Str, doc: Document, header: Str, now: int)

  ghost predicate Enabled(parse: Parser, allowed: set<Str>, s: State, step: Step) {
    match step
    case Hit(id, now) => Resolvable(parse, allowed, id) && Cached(s.cache, id, now).Some?
    case Miss(id, now) => Resolvable(parse, allowed, id) && Cached(s.cache, id, now).None?
    case FetchFails(id) => id in s.fetching
    case FetchStores(id, doc, _, _) => id in s.fetching && ValidDocument(parse, id, doc)
  }

  function Apply(s: State, step: Step): State {
    match step
    case Hit(id, now) =>
      if Cached(s.cache, id, now).Some?
      then s.(log := s.log + [Returned(id, Cached(s.cache, id, now).value, now)]) else s
    case Miss(id, now) => s.(fetching := s.fetching + multiset{id})
    case FetchFails(id) => s.(fetching := s.fetching - multiset{id})
    case FetchStores(id, doc, header, now) =>
      State(Stored(s.cache, id, doc, Lifetime(header), now), s.fetching - multiset{id},
            s.log + [FetchedAt(id, doc, now, Lifetime(header)), Returned(id, doc, now)])
  }

  ghost predicate Run(parse: Parser, allowed: set<Str>, s: State, steps: seq<Step>)
    decreases |steps|
  {
    steps == [] ||
    (Enabled(parse, allowed, s, steps[0]) && Run(parse, allowed, Apply(s, steps[0]), steps[1..]))
  }

  function After(s: State, steps: seq<Step>): State
    decreases |steps|
  {
    if steps == [] then s else After(Apply(s, steps[0]), steps[1..])
  }

  /** A document that was fetched and validated, and is not past its lifetime at `now`; times are in nanoseconds. */
  ghost predicate Vouched(parse: Parser, log: seq<Event>, id: Str, doc: Document, now: int) {
    && ValidDocument(parse, id, doc)
    && exists at, ttl :: FetchedAt(id, doc, at, ttl) in log && 60_000_000_000 <= ttl <= 3600_000_000_000 && now <= at + ttl
  }

  /** Every document was handed out after the fetch that vouches for it. */
  ghost predicate ReturnsOK(parse: Parser, log: seq<Event>) {
    forall j :: 0 <= j < |log| && log[j].Returned? ==> Vouched(parse, log[..j], log[j].id, log[j].doc, log[j].at)
  }

  ghost predicate Inv(parse: Parser, s: State) {
    && |s.cache| <= MAX_ENTRIES
    && (forall k :: k in s.cache ==> Vouched(parse, s.log, k, s.cache[k].doc, s.cache[k].expiresAt))
    && ReturnsOK(parse, s.log)
  }

  lemma VouchedKeeps(parse: Parser, log: seq<Event>, more: seq<Event>, id: Str, doc: Document, now: int, earlier: int)
    requires Vouched(parse, log, id, doc, now) && earlier <= now
    ensures Vouched(parse, log + more, id, doc, earlier)
  {
  }

  /** One more event; a return is vouched for by what came before it. */
  lemma ReturnsGrow(parse: Parser, log: seq<Event>, e: Event)
    requires ReturnsOK(parse, log) && (e.Returned? ==> Vouched(parse, log, e.id, e.doc, e.at))
    ensures ReturnsOK(parse, log + [e])
  {
    var t := log + [e];
    forall j | 0 <= j < |t| && t[j].Returned?
      ensures Vouched(parse, t[..j], t[j].id, t[j].doc, t[j].at)
    {
      assert t[..j] == log[..j];
    }
  }

  lemma FetchKeeps(parse: Parser, s: State, id: Str, doc: Document, header: Str, now: int)
    requires Inv(parse, s) && ValidDocument(parse, id, doc)
    ensures Inv(parse, Apply(s, FetchStores(id, doc, header, now)))
  {
    var t := Apply(s, FetchStores(id, doc, header, now));
    var fetched, returned := FetchedAt(id, doc, now, Lifetime(header)), Returned(id, doc, now);
    assert t.log == s.log + [fetched] + [returned] && fetched in s.log + [fetched];
    ReturnsGrow(parse, s.log, fetched);
    ReturnsGrow(parse, s.log + [fetched], returned);
    StoredSize(s.cache, id, doc, Lifetime(header), now);
    forall k | k in t.cache
      ensures Vouched(parse, t.log, k, t.cache[k].doc, t.cache[k].expiresAt)
    {
      if k == id {
        assert fetched in t.log;
      } else {
        VouchedKeeps(parse, s.log, [fetched, returned], k, s.cache[k].doc, s.cache[k].expiresAt, s.cache[k].expiresAt);
      }
    }
  }

  lemma HitKeeps(parse: Parser, s: State, id: Str, now: int)
    requires Inv(parse, s) && Cached(s.cache, id, now).Some?
    ensures Inv(parse, Apply(s, Hit(id, now)))
  {
    var e := Returned(id, s.cache[id].doc, now);
    VouchedKeeps(parse, s.log, [], id, s.cache[id].doc, s.cache[id].expiresAt, now);
    assert s.log + [] == s.log;
    ReturnsGrow(parse, s.log, e);
    forall k | k in s.cache
      ensures Vouched(parse, s.log + [e], k, s.cache[k].doc, s.cache[k].expiresAt)
    {
      VouchedKeeps(parse, s.log, [e], k, s.cache[k].doc, s.cache[k].expiresAt, s.cache[k].expiresAt);
    }
  }

  lemma StepKeeps(parse: Parser, allowed: set<Str>, s: State, step: Step)
    requires Inv(parse, s) && Enabled(parse, allowed, s, step)
    ensures Inv(parse, Apply(s, step))
  {
    match step
    case Hit(id, now) => HitKeeps(parse, s, id, now);
    case FetchStores(id, doc, header, now) => FetchKeeps(parse, s, id, doc, header, now);
    case _ =>
  }

  lemma {:induction false} RunKeeps(parse: Parser, allowed: set<Str>, s: State, steps: seq<Step>)
    requires Inv(parse, s) && Run(parse, allowed, s, steps)
    ensures Inv(parse, After(s, steps))
    decreases |steps|
  {
    if steps != [] {
      StepKeeps(parse, allowed, s, steps[0]);
      RunKeeps(parse, allowed, Apply(s, steps[0]), steps[1..]);
    }
  }

  /**
    In every interleaving of Resolve calls the cache holds at most 512 entries,
    each under the client_id of its own validated document, and every document
    handed out had been fetched, no longer ago than a lifetime of one minute to
    one hour.
   */
  lemma CacheSafety(parse: Parser, allowed: set<Str>, steps: seq<Step>)
    requires Run(parse, allowed, State(map[], multiset{}, []), steps)
    ensures var t := After(State(map[], multiset{}, []), steps);
            && |t.cache| <= 512
            && (forall k :: k in t.cache ==> t.cache[k].doc.clientID == k && ValidDocument(parse, k, t.cache[k].doc))
            && ReturnsOK(parse, t.log)
  {
    RunKeeps(parse, allowed, State(map[], multiset{}, []), steps);
  }

  /** While each client serves one document, caching cannot be told from fetching every time. */
  lemma CacheTransparent(parse: Parser, allowed: set<Str>, steps: seq<Step>, served: map<Str, Document>, e: Event)
    requires Run(parse, allowed, State(map[], multiset{}, []), steps)
    requires forall f :: f in After(State(map[], multiset{}, []), steps).log && f.FetchedAt? ==>
               f.id in served && served[f.id] == f.doc
    requires e in After(State(map[], multiset{}, []), steps).log && e.Returned?
    ensures e.id in served && e.doc == served[e.id]
  {
    CacheSafety(parse, allowed, steps);
    var log := After(State(map[], multiset{}, []), steps).log;
    var j :| 0 <= j < |log| && log[j] == e;
    assert Vouched(parse, log[..j], e.id, e.doc, e.at);
  }
}
