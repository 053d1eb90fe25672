/** The four public answer keys a, b, c, d shown to the player. */
module Keys {
  import opened Results

  datatype Key = A | B | C | D

  /** Every key, in display order. */
  const Order: seq<Key> := [A, B, C, D]

  const AllKeys: set<Key> := {A, B, C, D}

  /** The place of a key in display order. */
  function Index(k: Key): nat {
    match k
    case A => 0
    case B => 1
    case C => 2
    case D => 3
  }

  /** The lower-case letter a key is shown and stored under. */
  function Name(k: Key): string {
    match k
    case A => "a"
    case B => "b"
    case C => "c"
    case D => "d"
  }

  /** The upper-case letter a friend names in a friend call. */
  function Label(k: Key): char {
    match k
    case A => 'A'
    case B => 'B'
    case C => 'C'
    case D => 'D'
  }

  /** Reads a key from its letter; any other string is no key. */
  function Parse(s: string): (r: Option<Key>)
    ensures r.Some? ==> Name(r.value) == s
    ensures r.None? ==> forall k :: Name(k) != s
  {
    if s == "a" then Some(A)
    else if s == "b" then Some(B)
    else if s == "c" then Some(C)
    else if s == "d" then Some(D)
    else None
  }

  /** Reads a key from its upper-case label. */
  function ParseLabel(c: char): (r: Option<Key>)
    ensures r.Some? ==> Label(r.value) == c
    ensures r.None? ==> forall k :: Label(k) != c
  {
    if c == 'A' then Some(A)
    else if c == 'B' then Some(B)
    else if c == 'C' then Some(C)
    else if c == 'D' then Some(D)
    else None
  }

  lemma ParseName(k: Key)
    ensures Parse(Name(k)) == Some(k)
    ensures ParseLabel(Label(k)) == Some(k)
  {
  }

  /** The members of ks that lie in s, in the order of ks. */
  function Filter(ks: seq<Key>, s: set<Key>): (r: seq<Key>)
    ensures forall k :: k in r <==> k in ks && k in s
    ensures |r| <= |ks|
  {
    if ks == [] then []
    else (if ks[0] in s then [ks[0]] else []) + Filter(ks[1..], s)
  }

  /** The members of a key set, in display order. */
  function InOrder(s: set<Key>): (r: seq<Key>)
    ensures forall k :: k in r <==> k in s
  {
    forall k ensures k in Order { EveryKeyListed(k); }
    Filter(Order, s)
  }

  /**
   * One member of a non-empty key set, picked by the random draw `roll`
   * (a uniform random pick stands behind it).
   */
  function Sample(s: set<Key>, roll: nat): (k: Key)
    requires s != {}
    ensures k in s
  {
    var r := InOrder(s);
    assert |r| > 0 by {
      var x :| x in s;
      assert x in r;
    }
    r[roll % |r|]
  }

  /** No member of s is out of reach of the draw. */
  lemma SampleReachesEvery(s: set<Key>, k: Key)
    requires k in s
    ensures exists roll: nat :: Sample(s, roll) == k
  {
    var r := InOrder(s);
    assert k in r;
    var i :| 0 <= i < |r| && r[i] == k;
    assert i % |r| == i;
    assert Sample(s, i) == k;
  }

  /** Removing one member from a set of at least two leaves something. */
  lemma RemoveLeavesNonEmpty(s: set<Key>, x: Key)
    requires x in s && |s| >= 2
    ensures s - {x} != {}
  {
    assert s == (s - {x}) + {x};
    assert |s - {x}| >= 1;
  }

  lemma EveryKeyListed(k: Key)
    ensures k in Order && k in AllKeys
  {
    match k
    case A => assert Order[0] == k;
    case B => assert Order[1] == k;
    case C => assert Order[2] == k;
    case D => assert Order[3] == k;
  }

  lemma AllKeysSize()
    ensures |AllKeys| == 4
  {
  }
}
