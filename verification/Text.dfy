/**
  Go strings and the parts of package `strings` the server relies on.

  A Go string is a sequence of bytes; `byte` is the character with that code,
  so that string literals can be written as such.
 */
module Text {

  type byte = c: char | c as int < 256 witness 'a'
  type Str = seq<byte>

  /** A value that may be absent. */
  datatype Option<+T> = None | Some(value: T)

  const COMMA: Str := ","

  /** No two of the texts in play share a digest. */
  ghost predicate CollisionFree(sha: Str -> Str, texts: set<Str>) {
    forall a, b :: a in texts && b in texts && sha(a) == sha(b) ==> a == b
  }

  /** `sub` occurs in `s` at position `i`. */
  predicate At(s: Str, sub: Str, i: nat) {
    i + |sub| <= |s| && s[i..i + |sub|] == sub
  }

  /** strings.Contains */
  predicate Contains(s: Str, sub: Str) {
    exists i :: 0 <= i <= |s| && At(s, sub, i)
  }

  predicate HasPrefix(s: Str, prefix: Str) {
    At(s, prefix, 0)
  }

  /** The first position at or after `from` where `sep` occurs, or |s| when there is none. */
  function IndexFrom(s: Str, sep: Str, from: nat): (i: nat)
    requires from <= |s| && sep != []
    ensures from <= i <= |s|
    ensures i < |s| ==> At(s, sep, i)
    ensures forall j :: from <= j < i ==> !At(s, sep, j)
    decreases |s| - from
  {
    if from == |s| then |s|
    else if At(s, sep, from) then from
    else IndexFrom(s, sep, from + 1)
  }

  /** strings.Split for a non-empty separator. */
  function Split(s: Str, sep: Str): (parts: seq<Str>)
    requires sep != []
    ensures parts != []
    decreases |s|
  {
    var i := IndexFrom(s, sep, 0);
    if i == |s| then [s] else [s[..i]] + Split(s[i + |sep|..], sep)
  }

  /** strings.Join */
  function Join(parts: seq<Str>, sep: Str): Str {
    if |parts| == 0 then []
    else if |parts| == 1 then parts[0]
    else parts[0] + sep + Join(parts[1..], sep)
  }

  /** In `f + sep` the separator first occurs at the end of `f`. */
  ghost predicate Clean(f: Str, sep: Str) {
    forall i :: 0 <= i < |f| ==> !At(f + sep, sep, i)
  }

  lemma IndexIsFirst(s: Str, sep: Str, i: nat)
    requires sep != [] && i < |s| && At(s, sep, i)
    requires forall j :: 0 <= j < i ==> !At(s, sep, j)
    ensures IndexFrom(s, sep, 0) == i
  {
  }

  /** Splitting peels a field off exactly when the field is clean. */
  lemma SplitField(f: Str, sep: Str, rest: Str)
    requires sep != []
    ensures Clean(f, sep) ==> Split(f + sep + rest, sep) == [f] + Split(rest, sep)
    ensures !Clean(f, sep) ==> Split(f + sep + rest, sep)[0] != f
  {
    var s := f + sep + rest;
    forall i | 0 <= i <= |f|
      ensures At(s, sep, i) == At(f + sep, sep, i)
    {
    }
    assert At(s, sep, |f|);
    if Clean(f, sep) {
      assert s[..|f|] == f && s[|f| + |sep|..] == rest;
    } else {
      var i :| 0 <= i < |f| && At(f + sep, sep, i);
    }
  }

  lemma SplitWhole(s: Str, sep: Str)
    requires sep != [] && !Contains(s, sep)
    ensures Split(s, sep) == [s]
  {
  }

  /** Joining what was split gives the text back. */
  lemma {:induction false} JoinSplit(s: Str, sep: Str)
    requires sep != []
    ensures Join(Split(s, sep), sep) == s
    decreases |s|
  {
    var i := IndexFrom(s, sep, 0);
    if i < |s| {
      var rest := s[i + |sep|..];
      JoinSplit(rest, sep);
      assert Split(s, sep)[1..] == Split(rest, sep);
      assert s == s[..i] + sep + rest;
    }
  }

  /** Fields that are clean, the last one free of the separator, survive join and split. */
  lemma {:induction false} SplitJoinClean(parts: seq<Str>, sep: Str)
    requires sep != [] && parts != []
    requires forall i :: 0 <= i < |parts| - 1 ==> Clean(parts[i], sep)
    requires !Contains(parts[|parts| - 1], sep)
    ensures Split(Join(parts, sep), sep) == parts
  {
    if |parts| > 1 {
      SplitField(parts[0], sep, Join(parts[1..], sep));
      SplitJoinClean(parts[1..], sep);
    }
  }

  // ---------------------------------------------------------------- one-character separators

  lemma CleanChar(f: Str, c: byte)
    ensures Clean(f, [c]) <==> c !in f
    ensures Contains(f, [c]) <==> c in f
  {
    forall i | 0 <= i < |f|
      ensures At(f + [c], [c], i) <==> f[i] == c
      ensures At(f, [c], i) <==> f[i] == c
    {
      assert (f + [c])[i..i + 1] == [f[i]] && f[i..i + 1] == [f[i]];
    }
  }

  /** Text before the first separator does not hold it. */
  lemma CharBeforeIndex(s: Str, c: byte)
    ensures c !in s[..IndexFrom(s, [c], 0)]
  {
    forall j | 0 <= j < IndexFrom(s, [c], 0)
      ensures s[j] != c
    {
      assert !At(s, [c], j);
    }
  }

  lemma {:induction false} SplitPartsLackChar(s: Str, c: byte)
    ensures forall p :: p in Split(s, [c]) ==> c !in p
    decreases |s|
  {
    CharBeforeIndex(s, c);
    var i := IndexFrom(s, [c], 0);
    if i < |s| {
      SplitPartsLackChar(s[i + 1..], c);
    }
  }

  /** A list of fields free of the separator survives join and split. */
  lemma SplitJoin(parts: seq<Str>, c: byte)
    requires parts != [] && forall p :: p in parts ==> c !in p
    ensures Split(Join(parts, [c]), [c]) == parts
  {
    forall i | 0 <= i < |parts|
      ensures Clean(parts[i], [c]) && !Contains(parts[i], [c])
    {
      CleanChar(parts[i], c);
    }
    SplitJoinClean(parts, [c]);
  }

  /** Split distributes over a separator in the middle. */
  lemma {:induction false} SplitAppend(a: Str, c: byte, b: Str)
    ensures Split(a + [c] + b, [c]) == Split(a, [c]) + Split(b, [c])
    decreases |a|
  {
    CharBeforeIndex(a, c);
    var i := IndexFrom(a, [c], 0);
    if i == |a| {
      CleanChar(a, c);
      SplitField(a, [c], b);
    } else {
      var f, rest := a[..i], a[i + 1..];
      calc {
        Split(a + [c] + b, [c]);
        { assert a + [c] + b == f + [c] + (rest + [c] + b); SplitField(f, [c], rest + [c] + b); }
        [f] + Split(rest + [c] + b, [c]);
        { SplitAppend(rest, c, b); }
        [f] + (Split(rest, [c]) + Split(b, [c]));
        Split(a, [c]) + Split(b, [c]);
      }
    }
  }

  // ---------------------------------------------------------------- white space

  predicate IsSpace(c: byte) {
    c == ' ' || c == '\t' || c == '\n' || c == '\r' || c as int == 11 || c as int == 12
  }

  function TrimLeft(s: Str): Str {
    if s != [] && IsSpace(s[0]) then TrimLeft(s[1..]) else s
  }

  function TrimRight(s: Str): Str {
    if s != [] && IsSpace(s[|s| - 1]) then TrimRight(s[..|s| - 1]) else s
  }

  /** strings.TrimSpace, for the white space of ASCII. */
  function TrimSpace(s: Str): Str { TrimRight(TrimLeft(s)) }

  lemma TrimLeftEnds(s: Str)
    ensures TrimLeft(s) == [] || !IsSpace(TrimLeft(s)[0])
  {
  }

  lemma TrimRightEnds(s: Str)
    ensures TrimRight(s) <= s && (TrimRight(s) == [] || !IsSpace(TrimRight(s)[|TrimRight(s)| - 1]))
  {
  }

  /** What is left begins and ends with something other than white space. */
  lemma TrimEnds(s: Str)
    ensures TrimSpace(s) == [] || (!IsSpace(TrimSpace(s)[0]) && !IsSpace(TrimSpace(s)[|TrimSpace(s)| - 1]))
  {
    TrimLeftEnds(s);
    TrimRightEnds(TrimLeft(s));
  }

  lemma TrimNothing(s: Str)
    requires s == [] || (!IsSpace(s[0]) && !IsSpace(s[|s| - 1]))
    ensures TrimSpace(s) == s
  {
  }

  lemma TrimIdempotent(s: Str)
    ensures TrimSpace(TrimSpace(s)) == TrimSpace(s)
  {
    TrimEnds(s);
    TrimNothing(TrimSpace(s));
  }

  // ---------------------------------------------------------------- case and numbers

  function LowerByte(c: byte): byte {
    if 'A' <= c <= 'Z' then (c as int + 32) as char else c
  }

  /** strings.ToLower on ASCII letters. */
  function ToLower(s: Str): (r: Str)
    ensures |r| == |s| && forall i :: 0 <= i < |s| ==> r[i] == LowerByte(s[i])
  {
    if s == [] then [] else [LowerByte(s[0])] + ToLower(s[1..])
  }

  const TWO_63: int := 0x8000_0000_0000_0000

  /** Signed 64-bit arithmetic wraps around. */
  function Wrap64(x: int): (r: int)
    ensures -TWO_63 <= r < TWO_63
    ensures -TWO_63 <= x < TWO_63 ==> r == x
  {
    (x + TWO_63) % (2 * TWO_63) - TWO_63
  }

  predicate AllDigits(s: Str) { forall i :: 0 <= i < |s| ==> '0' <= s[i] <= '9' }

  function DecimalValue(s: Str): nat
    requires AllDigits(s)
  {
    if s == [] then 0 else 10 * DecimalValue(s[..|s| - 1]) + (s[|s| - 1] as int - '0' as int)
  }

  /** strconv.Atoi: an optional sign, digits, and a value that fits 64 bits. */
  function Atoi(s: Str): (r: Option<int>)
    ensures r.Some? ==> -TWO_63 <= r.value < TWO_63
  {
    var digits := if s != [] && (s[0] == '+' || s[0] == '-') then s[1..] else s;
    if digits == [] || !AllDigits(digits) then None else
      var n: int := if s[0] == '-' then 0 - DecimalValue(digits) else DecimalValue(digits);
      if -TWO_63 <= n < TWO_63 then Some(n) else None
  }
}
