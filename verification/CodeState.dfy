/**
  The two positional, "@@"-delimited blobs of the authorization-code flow
  (internal/codestate/codestate.go).
 */
module CodeState {
  import opened Text
  import opened Escape

  const DELIMITER: Str := "@@"

  /** What an authorization code stands for, until the token endpoint consumes it. */
  datatype Code = Code(challenge: Str, session: Str, nonce: Str, redirectURI: Str, resource: Str, clientID: Str)

  /** What the caller's `state` stands for while /authorize detours through a login. */
  datatype Authorize = Authorize(code: Str, challenge: Str, nonce: Str, redirectURI: Str, resource: Str, clientID: Str)

  /** Three fields as they are, three escaped. */
  function Segments(a: Str, b: Str, c: Str, x: Str, y: Str, z: Str): (r: seq<Str>)
    ensures |r| == 6
  {
    [a, b, c, QueryEscape(x), QueryEscape(y), QueryEscape(z)]
  }

  function CodeSegments(c: Code): (r: seq<Str>)
    ensures |r| == 6
  {
    Segments(c.challenge, c.session, c.nonce, c.redirectURI, c.resource, c.clientID)
  }

  function AuthorizeSegments(a: Authorize): (r: seq<Str>)
    ensures |r| == 6
  {
    Segments(a.code, a.challenge, a.nonce, a.redirectURI, a.resource, a.clientID)
  }

  function EncodeCode(c: Code): Str { Join(CodeSegments(c), DELIMITER) }

  function EncodeAuthorize(a: Authorize): Str { Join(AuthorizeSegments(a), DELIMITER) }

  predicate HasCode(raw: Str) { Contains(raw, DELIMITER) }

  // ---------------------------------------------------------------- decoding

  /** Slot i of a blob; an older build may have written fewer slots. */
  function Slot(parts: seq<Str>, i: nat): Str {
    if i < |parts| then parts[i] else []
  }

  function ParseCode(raw: Str): Code {
    var p := Split(raw, DELIMITER);
    Code(Slot(p, 0), Slot(p, 1), Slot(p, 2),
         UnescapeOrEmpty(Slot(p, 3)), UnescapeOrEmpty(Slot(p, 4)), UnescapeOrEmpty(Slot(p, 5)))
  }

  function ParseAuthorize(raw: Str): Authorize {
    var p := Split(raw, DELIMITER);
    if |p| < 2 then Authorize([], [], raw, [], [], [])
    else Authorize(Slot(p, 0), Slot(p, 1), Slot(p, 2),
                   UnescapeOrEmpty(Slot(p, 3)), UnescapeOrEmpty(Slot(p, 4)), UnescapeOrEmpty(Slot(p, 5)))
  }

  method DecodeCode(raw: Str) returns (c: Code)
    ensures c == ParseCode(raw)
  {
    var parts := Split(raw, DELIMITER);
    c := Code([], [], [], [], [], []);
    c := c.(challenge := parts[0]);
    if |parts| > 1 { c := c.(session := parts[1]); }
    if |parts| > 2 { c := c.(nonce := parts[2]); }
    if |parts| > 3 { c := c.(redirectURI := UnescapeOrEmpty(parts[3])); }
    if |parts| > 4 { c := c.(resource := UnescapeOrEmpty(parts[4])); }
    if |parts| > 5 { c := c.(clientID := UnescapeOrEmpty(parts[5])); }
  }

  method DecodeAuthorize(raw: Str) returns (a: Authorize)
    ensures a == ParseAuthorize(raw)
  {
    var parts := Split(raw, DELIMITER);
    a := Authorize([], [], [], [], [], []);
    if |parts| < 2 {
      a := a.(nonce := raw);
      return;
    }
    a := a.(code := parts[0], challenge := parts[1]);
    if |parts| > 2 { a := a.(nonce := parts[2]); }
    if |parts| > 3 { a := a.(redirectURI := UnescapeOrEmpty(parts[3])); }
    if |parts| > 4 { a := a.(resource := UnescapeOrEmpty(parts[4])); }
    if |parts| > 5 { a := a.(clientID := UnescapeOrEmpty(parts[5])); }
  }

  // ---------------------------------------------------------------- when a blob comes back

  /** An unescaped field that cannot be mistaken for, or merge into, the delimiter. */
  predicate DelimiterSafe(f: Str) {
    !Contains(f, DELIMITER) && (f == [] || f[|f| - 1] != '@')
  }

  lemma SafeIsClean(f: Str)
    ensures DelimiterSafe(f) <==> Clean(f, DELIMITER)
  {
    var s := f + DELIMITER;
    forall i | 0 <= i < |f|
      ensures At(s, DELIMITER, i) <==> if i == |f| - 1 then f[i] == '@' else At(f, DELIMITER, i)
    {
      assert s[i..i + 2] == [s[i], s[i + 1]];
    }
    if !Clean(f, DELIMITER) {
      var i :| 0 <= i < |f| && At(s, DELIMITER, i);
    }
  }

  /** Escaped text holds no '@' at all. */
  lemma EscapedIsClean(t: Str)
    ensures Clean(QueryEscape(t), DELIMITER) && !Contains(QueryEscape(t), DELIMITER)
  {
    var e := QueryEscape(t);
    EscapeAlphabet(t);
    assert '@' !in e;
    forall i | 0 <= i <= |e|
      ensures !At(e, DELIMITER, i) && (i < |e| ==> !At(e + DELIMITER, DELIMITER, i))
    {
      if i < |e| {
        assert (e + DELIMITER)[i] == e[i];
      }
    }
  }

  /** A safe field is peeled off; any other is read wrongly. */
  lemma SafeField(f: Str, rest: Str)
    ensures DelimiterSafe(f) ==> Split(f + DELIMITER + rest, DELIMITER) == [f] + Split(rest, DELIMITER)
    ensures !DelimiterSafe(f) ==> Split(f + DELIMITER + rest, DELIMITER)[0] != f
  {
    SafeIsClean(f);
    SplitField(f, DELIMITER, rest);
  }

  lemma ThreeFields(a: Str, b: Str, c: Str, tail: Str)
    ensures var p := Split(a + DELIMITER + (b + DELIMITER + (c + DELIMITER + tail)), DELIMITER);
            if DelimiterSafe(a) && DelimiterSafe(b) && DelimiterSafe(c)
            then p == [a, b, c] + Split(tail, DELIMITER)
            else !(Slot(p, 0) == a && Slot(p, 1) == b && Slot(p, 2) == c)
  {
    var r2 := c + DELIMITER + tail;
    var r1 := b + DELIMITER + r2;
    SafeField(a, r1);
    SafeField(b, r2);
    SafeField(c, tail);
    var p := Split(a + DELIMITER + r1, DELIMITER);
    if DelimiterSafe(a) {
      assert p[1..] == Split(r1, DELIMITER);
      if DelimiterSafe(b) {
        assert p[1..][1..] == Split(r2, DELIMITER);
      }
    }
  }

  /** The escaped slots always come back. */
  lemma EscapedSlots(x: Str, y: Str, z: Str, escaped: seq<Str>)
    requires escaped == [QueryEscape(x), QueryEscape(y), QueryEscape(z)]
    ensures Split(Join(escaped, DELIMITER), DELIMITER) == escaped
  {
    EscapedIsClean(x);
    EscapedIsClean(y);
    EscapedIsClean(z);
    SplitJoinClean(escaped, DELIMITER);
  }

  lemma JoinCons(a: Str, rest: seq<Str>, sep: Str)
    requires rest != []
    ensures Join([a] + rest, sep) == a + sep + Join(rest, sep)
  {
  }

  lemma JoinSlots(a: Str, b: Str, c: Str, rest: seq<Str>, sep: Str)
    requires rest != []
    ensures Join([a, b, c] + rest, sep) == a + sep + (b + sep + (c + sep + Join(rest, sep)))
  {
    JoinCons(c, rest, sep);
    assert [a, b, c] + rest == [a] + ([b] + ([c] + rest));
  }

  /** Slots read back exactly when the three unescaped ones are safe, given that the others are. */
  lemma SlotsSplit(a: Str, b: Str, c: Str, escaped: seq<Str>)
    requires escaped != [] && Split(Join(escaped, DELIMITER), DELIMITER) == escaped
    ensures var p := Split(Join([a, b, c] + escaped, DELIMITER), DELIMITER);
            if DelimiterSafe(a) && DelimiterSafe(b) && DelimiterSafe(c) then p == [a, b, c] + escaped
            else !(Slot(p, 0) == a && Slot(p, 1) == b && Slot(p, 2) == c)
  {
    JoinSlots(a, b, c, escaped, DELIMITER);
    ThreeFields(a, b, c, Join(escaped, DELIMITER));
  }

  /** The six slots come back exactly when the three unescaped ones are safe. */
  lemma SlotsRoundTrip(a: Str, b: Str, c: Str, x: Str, y: Str, z: Str)
    ensures var segs := Segments(a, b, c, x, y, z);
            var p := Split(Join(segs, DELIMITER), DELIMITER);
            if DelimiterSafe(a) && DelimiterSafe(b) && DelimiterSafe(c) then p == segs
            else !(Slot(p, 0) == a && Slot(p, 1) == b && Slot(p, 2) == c)
  {
    var escaped := [QueryEscape(x), QueryEscape(y), QueryEscape(z)];
    EscapedSlots(x, y, z, escaped);
    SlotsSplit(a, b, c, escaped);
    assert Segments(a, b, c, x, y, z) == [a, b, c] + escaped;
  }

  lemma JoinHoldsDelimiter(segs: seq<Str>)
    requires |segs| >= 2
    ensures |Split(Join(segs, DELIMITER), DELIMITER)| >= 2 && HasCode(Join(segs, DELIMITER))
  {
    var s := Join(segs, DELIMITER);
    assert At(s, DELIMITER, |segs[0]|);
  }

  lemma CodeRoundTrip(c: Code)
    ensures ParseCode(EncodeCode(c)) == c <==>
            DelimiterSafe(c.challenge) && DelimiterSafe(c.session) && DelimiterSafe(c.nonce)
  {
    SlotsRoundTrip(c.challenge, c.session, c.nonce, c.redirectURI, c.resource, c.clientID);
    UnescapeEscape(c.redirectURI);
    UnescapeEscape(c.resource);
    UnescapeEscape(c.clientID);
  }

  lemma AuthorizeRoundTrip(a: Authorize)
    ensures ParseAuthorize(EncodeAuthorize(a)) == a <==>
            DelimiterSafe(a.code) && DelimiterSafe(a.challenge) && DelimiterSafe(a.nonce)
    ensures HasCode(EncodeAuthorize(a))
  {
    SlotsRoundTrip(a.code, a.challenge, a.nonce, a.redirectURI, a.resource, a.clientID);
    UnescapeEscape(a.redirectURI);
    UnescapeEscape(a.resource);
    UnescapeEscape(a.clientID);
    JoinHoldsDelimiter(AuthorizeSegments(a));
  }

  // ---------------------------------------------------------------- blobs of older builds

  /** A record of which only the first k slots were ever written. */
  function FirstSlots(c: Code, k: nat): Code {
    Code(c.challenge,
         if k > 1 then c.session else [], if k > 2 then c.nonce else [],
         if k > 3 then c.redirectURI else [], if k > 4 then c.resource else [], if k > 5 then c.clientID else [])
  }

  function FirstAuthorizeSlots(a: Authorize, k: nat): Authorize {
    Authorize(a.code,
              a.challenge, if k > 2 then a.nonce else [],
              if k > 3 then a.redirectURI else [], if k > 4 then a.resource else [], if k > 5 then a.clientID else [])
  }

  /** The blob an older build wrote, which ends after k slots, can be read. */
  ghost predicate LegacyReadable(segs: seq<Str>, k: nat)
    requires 1 <= k <= |segs|
  {
    && (forall i :: 0 <= i < k - 1 ==> Clean(segs[i], DELIMITER))
    && !Contains(segs[k - 1], DELIMITER)
  }

  lemma LegacySlots(segs: seq<Str>, k: nat)
    requires 1 <= k <= |segs| && LegacyReadable(segs, k)
    ensures var p := Split(Join(segs[..k], DELIMITER), DELIMITER);
            && |p| == k
            && forall i :: 0 <= i < |segs| ==> Slot(p, i) == if i < k then segs[i] else []
  {
    SplitJoinClean(segs[..k], DELIMITER);
  }

  /** When it cannot, the first slot at fault is read as something else. */
  lemma {:induction false} Misread(parts: seq<Str>) returns (i: nat)
    requires parts != [] && !LegacyReadable(parts, |parts|)
    ensures i < |parts| && Slot(Split(Join(parts, DELIMITER), DELIMITER), i) != parts[i]
    ensures !Clean(parts[i], DELIMITER) || Contains(parts[i], DELIMITER)
    decreases |parts|
  {
    i := 0;
    if |parts| > 1 {
      SplitField(parts[0], DELIMITER, Join(parts[1..], DELIMITER));
      if Clean(parts[0], DELIMITER) {
        var j := Misread(parts[1..]);
        i := j + 1;
      }
    }
  }

  /** Only an unescaped slot can be at fault. */
  lemma MisreadUnescaped(segs: seq<Str>, k: nat) returns (i: nat)
    requires |segs| == 6 && 1 <= k <= 6 && !LegacyReadable(segs, k)
    requires forall j :: 3 <= j < 6 ==> Clean(segs[j], DELIMITER) && !Contains(segs[j], DELIMITER)
    ensures i < k && i < 3 && Slot(Split(Join(segs[..k], DELIMITER), DELIMITER), i) != segs[i]
  {
    i := Misread(segs[..k]);
  }

  lemma EscapedSegments(a: Str, b: Str, c: Str, x: Str, y: Str, z: Str)
    ensures forall j :: 3 <= j < 6 ==>
              Clean(Segments(a, b, c, x, y, z)[j], DELIMITER) && !Contains(Segments(a, b, c, x, y, z)[j], DELIMITER)
  {
    EscapedIsClean(x);
    EscapedIsClean(y);
    EscapedIsClean(z);
  }

  lemma LegacyCodeMisread(c: Code, k: nat)
    requires 1 <= k <= 6 && !LegacyReadable(CodeSegments(c), k)
    ensures ParseCode(Join(CodeSegments(c)[..k], DELIMITER)) != FirstSlots(c, k)
  {
    EscapedSegments(c.challenge, c.session, c.nonce, c.redirectURI, c.resource, c.clientID);
    var i := MisreadUnescaped(CodeSegments(c), k);
  }

  lemma LegacyAuthorizeMisread(a: Authorize, k: nat)
    requires 2 <= k <= 6 && !LegacyReadable(AuthorizeSegments(a), k)
    ensures ParseAuthorize(Join(AuthorizeSegments(a)[..k], DELIMITER)) != FirstAuthorizeSlots(a, k)
  {
    EscapedSegments(a.code, a.challenge, a.nonce, a.redirectURI, a.resource, a.clientID);
    JoinHoldsDelimiter(AuthorizeSegments(a)[..k]);
    var i := MisreadUnescaped(AuthorizeSegments(a), k);
  }

  /** A blob of k slots decodes to those slots and nothing more if and only if it is readable. */
  lemma LegacyCode(c: Code, k: nat)
    requires 1 <= k <= 6
    ensures ParseCode(Join(CodeSegments(c)[..k], DELIMITER)) == FirstSlots(c, k) <==> LegacyReadable(CodeSegments(c), k)
  {
    if LegacyReadable(CodeSegments(c), k) {
      LegacySlots(CodeSegments(c), k);
      UnescapeEscape(c.redirectURI);
      UnescapeEscape(c.resource);
      UnescapeEscape(c.clientID);
    } else {
      LegacyCodeMisread(c, k);
    }
  }

  lemma LegacyAuthorize(a: Authorize, k: nat)
    requires 2 <= k <= 6
    ensures ParseAuthorize(Join(AuthorizeSegments(a)[..k], DELIMITER)) == FirstAuthorizeSlots(a, k) <==>
            LegacyReadable(AuthorizeSegments(a), k)
  {
    if LegacyReadable(AuthorizeSegments(a), k) {
      LegacySlots(AuthorizeSegments(a), k);
      UnescapeEscape(a.redirectURI);
      UnescapeEscape(a.resource);
      UnescapeEscape(a.clientID);
    } else {
      LegacyAuthorizeMisread(a, k);
    }
  }

  /** A blob carries a code flow exactly when it splits; otherwise all of it is the nonce. */
  lemma HasCodeExact(raw: Str)
    ensures HasCode(raw) <==> |Split(raw, DELIMITER)| >= 2
    ensures !HasCode(raw) <==> ParseAuthorize(raw) == Authorize([], [], raw, [], [], [])
  {
    if HasCode(raw) {
      SplitShorter(raw, DELIMITER);
    }
  }

  /** When the separator occurs every part is shorter than the whole. */
  lemma {:induction false} SplitShorter(s: Str, sep: Str)
    requires sep != []
    ensures forall p :: p in Split(s, sep) ==> |p| <= |s|
    ensures Contains(s, sep) ==> forall p :: p in Split(s, sep) ==> |p| < |s|
    decreases |s|
  {
    var i := IndexFrom(s, sep, 0);
    if i < |s| {
      SplitShorter(s[i + |sep|..], sep);
    }
  }
}
