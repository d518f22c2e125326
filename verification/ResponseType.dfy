/**
  Canonical response types (supportedResponseTypeSet and the flags the
  authorize handler derives, internal/http_handlers/authorize.go).
 */
module ResponseType {
  import opened Text
  import opened Listing

  const CODE: Str := "code"
  const ID_TOKEN: Str := "id_token"
  const TOKEN: Str := "token"
  const CODE_ID_TOKEN: Str := "code id_token"
  const CODE_TOKEN: Str := "code token"
  const CODE_ID_TOKEN_TOKEN: Str := "code id_token token"
  const ID_TOKEN_TOKEN: Str := "id_token token"

  // ---------------------------------------------------------------- words and case

  /** The length of the run of non-space bytes a text begins with. */
  function WordLength(s: Str): (n: nat)
    ensures n <= |s| && (forall i :: 0 <= i < n ==> !IsSpace(s[i])) && (n < |s| ==> IsSpace(s[n]))
  {
    if s == [] || IsSpace(s[0]) then 0 else 1 + WordLength(s[1..])
  }

  /** strings.Fields, for the white space of ASCII. */
  function Fields(s: Str): seq<Str>
    decreases |s|
  {
    if s == [] then []
    else if IsSpace(s[0]) then Fields(s[1..])
    else [s[..WordLength(s)]] + Fields(s[WordLength(s)..])
  }

  predicate Solid(w: Str) { w != [] && forall i :: 0 <= i < |w| ==> !IsSpace(w[i]) }

  lemma {:induction false} FieldsSolid(s: Str)
    ensures forall w :: w in Fields(s) ==> Solid(w)
    decreases |s|
  {
    if s != [] {
      if IsSpace(s[0]) {
        FieldsSolid(s[1..]);
      } else {
        var n := WordLength(s);
        FieldsSolid(s[n..]);
      }
    }
  }

  /** A component as the canonical form holds it. */
  ghost predicate Word(w: Str) {
    Solid(w) && ToLower(w) == w
  }

  // ---------------------------------------------------------------- components

  /** The set of lower-cased components of a response_type parameter. */
  function Components(raw: Str): set<Str> { LowerSet(Fields(raw)) }

  function LowerSet(words: seq<Str>): set<Str> {
    set w | w in words :: ToLower(w)
  }

  lemma LowerSetSnoc(words: seq<Str>, w: Str)
    ensures LowerSet(words + [w]) == LowerSet(words) + {ToLower(w)}
  {
  }

  lemma ComponentsAreWords(raw: Str)
    ensures forall w :: w in Components(raw) ==> Word(w)
  {
    FieldsSolid(raw);
    forall f | f in Fields(raw)
      ensures Word(ToLower(f))
    {
    }
  }

  ghost function Canonical(s: set<Str>): Str { Join(Sorted(s), " ") }

  /** The combinations section 3 of OpenID Connect Core defines. */
  predicate Supported(s: set<Str>) {
    s != {} && s <= {CODE, ID_TOKEN, TOKEN}
  }

  predicate Listed(canonical: Str) {
    || canonical == CODE || canonical == TOKEN || canonical == ID_TOKEN
    || canonical == CODE_ID_TOKEN || canonical == CODE_TOKEN || canonical == CODE_ID_TOKEN_TOKEN
    || canonical == ID_TOKEN_TOKEN
  }

  /** The sorted listings behind the seven accepted strings. */
  ghost function SevenLists(): set<seq<Str>> {
    {[CODE], [TOKEN], [ID_TOKEN], [CODE, ID_TOKEN], [CODE, TOKEN], [CODE, ID_TOKEN, TOKEN], [ID_TOKEN, TOKEN]}
  }

  lemma SevenJoins()
    ensures Join([CODE], " ") == CODE && Join([TOKEN], " ") == TOKEN && Join([ID_TOKEN], " ") == ID_TOKEN
    ensures Join([CODE, ID_TOKEN], " ") == CODE_ID_TOKEN
    ensures Join([CODE, TOKEN], " ") == CODE_TOKEN
    ensures Join([CODE, ID_TOKEN, TOKEN], " ") == CODE_ID_TOKEN_TOKEN
    ensures Join([ID_TOKEN, TOKEN], " ") == ID_TOKEN_TOKEN
  {
  }

  lemma JoinSpaceInjective(a: seq<Str>, b: seq<Str>)
    requires a != [] && b != [] && (forall w :: w in a + b ==> ' ' !in w) && Join(a, " ") == Join(b, " ")
    ensures a == b
  {
    SplitJoin(a, ' ');
    SplitJoin(b, ' ');
  }

  lemma SevenSorted(l: seq<Str>)
    requires l in SevenLists()
    ensures StrictlySorted(l) && (forall w :: w in l ==> ' ' !in w) && l != []
    ensures forall s :: Lists(l, s) ==> Supported(s)
    ensures Listed(Join(l, " "))
  {
    SevenJoins();
    forall s | Lists(l, s)
      ensures Supported(s)
    {
      assert l[0] in s;
    }
  }

  /** The seven strings are the canonical forms of exactly the seven non-empty sets of components. */
  lemma ListedExact(s: set<Str>)
    requires forall w :: w in s ==> Word(w)
    ensures Listed(Canonical(s)) <==> Supported(s)
  {
    var l := Sorted(s);
    if Supported(s) {
      SupportedListing(s);
      SevenSorted(l);
    } else if Listed(Canonical(s)) {
      SevenJoins();
      var m :| m in SevenLists() && Join(m, " ") == Canonical(s);
      SevenSorted(m);
      forall w | w in l + m
        ensures ' ' !in w
      {
      }
      JoinSpaceInjective(l, m);
    }
  }

  /** The sorted listing of a supported set, spelled out. */
  ghost function ListOf(s: set<Str>): seq<Str> {
    if CODE in s then
      if ID_TOKEN in s then if TOKEN in s then [CODE, ID_TOKEN, TOKEN] else [CODE, ID_TOKEN]
      else if TOKEN in s then [CODE, TOKEN] else [CODE]
    else if ID_TOKEN in s then if TOKEN in s then [ID_TOKEN, TOKEN] else [ID_TOKEN]
    else [TOKEN]
  }

  lemma SupportedListing(s: set<Str>)
    requires Supported(s)
    ensures Sorted(s) == ListOf(s) && ListOf(s) in SevenLists()
  {
    ListingUnique(ListOf(s), Sorted(s), s);
  }

  /** supportedResponseTypeSet: accepted exactly for the seven sets, in canonical form. */
  method SupportedResponseTypeSet(raw: Str) returns (canonical: Str, ok: bool)
    ensures ok <==> Supported(Components(raw))
    ensures canonical == if ok then Canonical(Components(raw)) else []
  {
    var fields := Fields(raw);
    if |fields| == 0 {
      return [], false;
    }
    FieldsSolid(raw);
    var seen: set<Str> := {};
    for i := 0 to |fields|
      invariant seen == LowerSet(fields[..i])
    {
      assert Solid(fields[i]);
      TrimNothing(fields[i]);
      var f := ToLower(TrimSpace(fields[i]));
      if f != [] {
        seen := seen + {f};
      }
      LowerSetSnoc(fields[..i], fields[i]);
      assert fields[..i + 1] == fields[..i] + [fields[i]];
    }
    assert fields[..|fields|] == fields;
    var tokens := SortKeys(seen);
    canonical := Join(tokens, " ");
    ComponentsAreWords(raw);
    ListedExact(Components(raw));
    ok := Listed(canonical);
    if !ok {
      canonical := [];
    }
  }

  // ---------------------------------------------------------------- only the set of components matters

  lemma FieldsWord(w: Str, rest: Str)
    requires Solid(w) && (rest == [] || IsSpace(rest[0]))
    ensures Fields(w + rest) == [w] + Fields(rest)
  {
    var s := w + rest;
    var n := WordLength(s);
    assert n == |w| by {
      assert rest != [] ==> s[|w|] == rest[0];
    }
  }

  predicate Blank(g: Str) { forall i :: 0 <= i < |g| ==> IsSpace(g[i]) }

  lemma {:induction false} FieldsGap(gap: Str, rest: Str)
    requires Blank(gap)
    ensures Fields(gap + rest) == Fields(rest)
  {
    if gap == [] {
      assert gap + rest == rest;
    } else {
      assert (gap + rest)[1..] == gap[1..] + rest;
      FieldsGap(gap[1..], rest);
    }
  }

  /** Words laid out with white space around them. */
  function Spaced(words: seq<Str>, gaps: seq<Str>): Str
    requires |gaps| == |words| + 1
  {
    if words == [] then gaps[0] else gaps[0] + (words[0] + Spaced(words[1..], gaps[1..]))
  }

  ghost predicate Layout(words: seq<Str>, gaps: seq<Str>) {
    && |gaps| == |words| + 1
    && (forall w :: w in words ==> Solid(w))
    && (forall i :: 0 <= i < |gaps| ==> Blank(gaps[i]))
    && (forall i :: 0 < i < |words| ==> gaps[i] != [])
  }

  lemma {:induction false} FieldsSpaced(words: seq<Str>, gaps: seq<Str>)
    requires Layout(words, gaps)
    ensures Fields(Spaced(words, gaps)) == words
  {
    if words == [] {
      FieldsGap(gaps[0], []);
      assert gaps[0] + [] == gaps[0];
    } else {
      var rest := Spaced(words[1..], gaps[1..]);
      assert rest == [] || IsSpace(rest[0]);
      FieldsGap(gaps[0], words[0] + rest);
      FieldsWord(words[0], rest);
      FieldsSpaced(words[1..], gaps[1..]);
    }
  }

  /**
    However the words are ordered, repeated, capitalised and spaced, the answer
    is that of any other writing with the same set of lower-cased words.
   */
  lemma OnlyComponentsMatter(words: seq<Str>, gaps: seq<Str>)
    requires Layout(words, gaps)
    ensures Components(Spaced(words, gaps)) == LowerSet(words)
  {
    FieldsSpaced(words, gaps);
  }

  lemma {:induction false} FieldsJoin(words: seq<Str>)
    requires forall w :: w in words ==> Solid(w)
    ensures Fields(Join(words, " ")) == words
  {
    if |words| == 1 {
      FieldsWord(words[0], []);
      assert words[0] + [] == words[0];
    } else if |words| > 1 {
      var rest := Join(words[1..], " ");
      FieldsJoin(words[1..]);
      FieldsWord(words[0], " " + rest);
      assert Join(words, " ") == words[0] + (" " + rest);
    }
  }

  /** The canonical form has the components it was made of, so canonicalising it again changes nothing. */
  lemma CanonicalIdempotent(s: set<Str>)
    requires forall w :: w in s ==> Word(w)
    ensures Components(Canonical(s)) == s
    ensures Canonical(Components(Canonical(s))) == Canonical(s)
  {
    FieldsJoin(Sorted(s));
  }

  // ---------------------------------------------------------------- the flags of the handler

  predicate IsHybrid(responseType: Str) {
    responseType == CODE_ID_TOKEN || responseType == CODE_TOKEN || responseType == CODE_ID_TOKEN_TOKEN
  }

  predicate IsImplicit(responseType: Str) {
    responseType == TOKEN || responseType == ID_TOKEN || responseType == ID_TOKEN_TOKEN
  }

  predicate HasBareToken(responseType: Str) { TOKEN in Fields(responseType) }

  /** A byte of the pattern that the text lacks rules the pattern out. */
  lemma LacksByte(s: Str, sub: Str, j: nat)
    requires j < |sub| && sub[j] !in s
    ensures !Contains(s, sub)
  {
  }

  lemma NamesCode(rt: Str)
    requires Listed(rt)
    ensures Contains(rt, CODE) <==> rt == CODE || IsHybrid(rt)
  {
    if rt == CODE || IsHybrid(rt) {
      assert At(rt, CODE, 0);
    } else {
      LacksByte(rt, CODE, 0);
    }
  }

  lemma NamesIDToken(rt: Str)
    requires Listed(rt)
    ensures Contains(rt, ID_TOKEN) <==>
            rt == ID_TOKEN || rt == ID_TOKEN_TOKEN || rt == CODE_ID_TOKEN || rt == CODE_ID_TOKEN_TOKEN
  {
    if rt == ID_TOKEN || rt == ID_TOKEN_TOKEN {
      assert At(rt, ID_TOKEN, 0);
    } else if rt == CODE_ID_TOKEN || rt == CODE_ID_TOKEN_TOKEN {
      assert At(rt, ID_TOKEN, 5);
    } else {
      LacksByte(rt, ID_TOKEN, 2);
    }
  }

  /** The canonical form, spelled out. */
  lemma CanonicalSpelled(s: set<Str>)
    requires Supported(s)
    ensures Canonical(s) ==
      if CODE in s then
        if ID_TOKEN in s then if TOKEN in s then CODE_ID_TOKEN_TOKEN else CODE_ID_TOKEN
        else if TOKEN in s then CODE_TOKEN else CODE
      else if ID_TOKEN in s then if TOKEN in s then ID_TOKEN_TOKEN else ID_TOKEN
      else TOKEN
  {
    SupportedListing(s);
    SevenJoins();
  }

  lemma BareTokenExact(s: set<Str>)
    requires Supported(s)
    ensures HasBareToken(Canonical(s)) <==> TOKEN in s
  {
    assert Solid(CODE) && Solid(ID_TOKEN) && Solid(TOKEN);
    FieldsJoin(Sorted(s));
  }

  /**
    The handler's string tests decide membership of the component set, and every
    accepted response type is exactly one of code, implicit and hybrid.
   */
  lemma FlagsExact(s: set<Str>)
    requires Supported(s)
    ensures var rt := Canonical(s);
            && Listed(rt)
            && (rt == CODE <==> s == {CODE})
            && (IsHybrid(rt) <==> CODE in s && s != {CODE})
            && (IsImplicit(rt) <==> CODE !in s)
            && (HasBareToken(rt) <==> TOKEN in s)
            && (Contains(rt, CODE) <==> CODE in s)
            && (Contains(rt, ID_TOKEN) <==> ID_TOKEN in s)
  {
    CanonicalSpelled(s);
    assert s == {CODE} <==> CODE in s && ID_TOKEN !in s && TOKEN !in s;
    NamesCode(Canonical(s));
    NamesIDToken(Canonical(s));
    BareTokenExact(s);
  }

  /** What the handler derives from a response_type it accepts. */
  datatype Flow = Flow(
    canonical: Str, codeOnly: bool, hybrid: bool, implicit: bool, bareToken: bool, hasCode: bool, hasIDToken: bool)

  ghost predicate FlowOf(f: Flow, s: set<Str>) {
    && f.canonical == Canonical(s)
    && (f.codeOnly <==> s == {CODE})
    && (f.hybrid <==> CODE in s && s != {CODE})
    && (f.implicit <==> CODE !in s)
    && (f.bareToken <==> TOKEN in s)
    && (f.hasCode <==> CODE in s)
    && (f.hasIDToken <==> ID_TOKEN in s)
  }

  /** The string tests of the handler, made once. */
  method Classify(raw: Str) returns (f: Option<Flow>)
    ensures f.Some? <==> Supported(Components(raw))
    ensures f.Some? ==> FlowOf(f.value, Components(raw))
  {
    var canonical, ok := SupportedResponseTypeSet(raw);
    if !ok {
      return None;
    }
    FlagsExact(Components(raw));
    return Some(Flow(canonical, canonical == CODE, IsHybrid(canonical), IsImplicit(canonical), HasBareToken(canonical),
                     Contains(canonical, CODE), Contains(canonical, ID_TOKEN)));
  }
}
