/**
  Byte-wise ordering of strings and the sorted, duplicate-free listing of a
  set, which is what ranging over a map and calling sort.Strings leaves.
 */
module Listing {
  import opened Text

  /** Go's `<` on strings. */
  predicate Less(a: Str, b: Str) {
    b != [] && (a == [] || a[0] < b[0] || (a[0] == b[0] && Less(a[1..], b[1..])))
  }

  lemma Trichotomy(a: Str, b: Str)
    ensures Less(a, b) || a == b || Less(b, a)
  {
  }

  lemma Irreflexive(a: Str)
    ensures !Less(a, a)
  {
  }

  lemma Transitive(a: Str, b: Str, c: Str)
    requires Less(a, b) && Less(b, c)
    ensures Less(a, c)
  {
  }

  ghost predicate StrictlySorted(r: seq<Str>) {
    forall i, j :: 0 <= i < j < |r| ==> Less(r[i], r[j])
  }

  ghost predicate Lists(r: seq<Str>, s: set<Str>) {
    forall x :: x in r <==> x in s
  }

  /** The place sort.Strings gives a new element among sorted ones. */
  function Insert(x: Str, r: seq<Str>): (out: seq<Str>)
    ensures forall y :: y in out <==> y == x || y in r
  {
    if r == [] then [x]
    else if x == r[0] then r
    else if Less(x, r[0]) then [x] + r
    else [r[0]] + Insert(x, r[1..])
  }

  lemma InsertSorted(x: Str, r: seq<Str>)
    requires StrictlySorted(r)
    ensures StrictlySorted(Insert(x, r))
  {
    if r != [] && x != r[0] {
      if Less(x, r[0]) {
        forall j | 0 <= j < |r|
          ensures Less(x, r[j])
        {
          if j > 0 {
            Transitive(x, r[0], r[j]);
          }
        }
      } else {
        Trichotomy(x, r[0]);
        var out := Insert(x, r[1..]);
        forall j | 0 <= j < |out|
          ensures Less(r[0], out[j])
        {
          assert out[j] in out;
        }
      }
    }
  }

  /** The sorted listing of a set. */
  ghost function Sorted(s: set<Str>): (r: seq<Str>)
    ensures StrictlySorted(r) && Lists(r, s)
  {
    if s == {} then [] else
      var x :| x in s;
      InsertSorted(x, Sorted(s - {x}));
      Insert(x, Sorted(s - {x}))
  }

  /** A set has only one sorted, duplicate-free listing. */
  lemma {:induction false} ListingUnique(a: seq<Str>, b: seq<Str>, s: set<Str>)
    requires StrictlySorted(a) && StrictlySorted(b)
    requires Lists(a, s) && Lists(b, s)
    ensures a == b
  {
    assert a != [] ==> a[0] in b;
    assert b != [] ==> b[0] in a;
    if a != [] && b != [] {
      HeadsAgree(a, b, s);
      TailLists(a, s);
      TailLists(b, s);
      ListingUnique(a[1..], b[1..], s - {a[0]});
    }
  }

  lemma HeadsAgree(a: seq<Str>, b: seq<Str>, s: set<Str>)
    requires a != [] && b != [] && StrictlySorted(a) && StrictlySorted(b)
    requires Lists(a, s) && Lists(b, s)
    ensures a[0] == b[0]
  {
    if a[0] != b[0] {
      assert a[0] in b && b[0] in a;
      var i :| 0 <= i < |b| && b[i] == a[0];
      var j :| 0 <= j < |a| && a[j] == b[0];
      Transitive(a[0], b[0], a[0]);
      Irreflexive(a[0]);
    }
  }

  lemma TailLists(a: seq<Str>, s: set<Str>)
    requires a != [] && StrictlySorted(a) && Lists(a, s)
    ensures StrictlySorted(a[1..]) && Lists(a[1..], s - {a[0]})
  {
    Irreflexive(a[0]);
  }

  /** Ranging over the keys of a map in any order, then sort.Strings. */
  method SortKeys(s: set<Str>) returns (keys: seq<Str>)
    ensures keys == Sorted(s)
  {
    keys := [];
    var left := s;
    while left != {}
      invariant left <= s && StrictlySorted(keys) && Lists(keys, s - left)
      decreases left
    {
      var x :| x in left;
      InsertSorted(x, keys);
      keys := Insert(x, keys);
      left := left - {x};
    }
    ListingUnique(keys, Sorted(s), s);
  }
}
