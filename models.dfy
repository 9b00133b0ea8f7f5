/** The closed vocabularies of the MUD builder: the four `Enum` classes of
    muddy/models.py. Every member is numbered by `auto()`, which gives the
    members the values 1, 2, 3, ... in declaration order; `list(E)` lists them
    in that order and `E(v)` looks a member up by its value. */
module Models {
  import opened Wrappers

  // ---------------------------------------------------------------------
  // Finite, repetition-free enumerations
  // ---------------------------------------------------------------------

  /** True when no two positions of `xs` hold the same element. */
  predicate Distinct<T(==)>(xs: seq<T>)
  {
    forall i, j :: 0 <= i < j < |xs| ==> xs[i] != xs[j]
  }

  /** The set of the elements of `xs`. */
  function Elements<T>(xs: seq<T>): set<T>
  {
    set x | x in xs
  }

  /** A sequence without repetitions has as many elements as positions. */
  lemma {:induction false} DistinctElements<T>(xs: seq<T>)
    requires Distinct(xs)
    ensures |Elements(xs)| == |xs|
  {
    if xs != [] {
      DistinctElements(xs[1..]);
      assert Elements(xs) == Elements(xs[1..]) + {xs[0]};
      assert xs[0] !in Elements(xs[1..]) by {
        forall k | 0 <= k < |xs[1..]| ensures xs[1..][k] != xs[0] {
          assert xs[1..][k] == xs[k + 1];
        }
      }
    }
  }

  /** A set whose elements all occur in `xs` has at most `|xs|` elements. */
  lemma {:induction false} BoundedBySeq<T>(s: set<T>, xs: seq<T>)
    requires forall x :: x in s ==> x in xs
    ensures |s| <= |xs|
  {
    if xs != [] {
      var rest := s - {xs[0]};
      forall x | x in rest ensures x in xs[1..] {
        var k :| 0 <= k < |xs| && xs[k] == x;
        assert k != 0;
        assert xs[1..][k - 1] == x;
      }
      BoundedBySeq(rest, xs[1..]);
    } else {
      assert s == {};
    }
  }

  // ---------------------------------------------------------------------
  // MatchType: the kinds of peer an ACL entry can match
  // ---------------------------------------------------------------------

  datatype MatchType =
    | IsLocal          // any local host, for specific services
    | IsMfg            // devices named by the domain of their MUD URL
    | IsController     // a class of devices known to be controllers
    | IsCloud          // a DNS name (ACLDNS match)
    | IsMyController   // controllers specific to this device
    | IsMyMfg          // devices of the same manufacturer

  /** `list(MatchType)`: exactly six distinct members, in declaration order. */
  function MatchTypes(): (r: seq<MatchType>)
    ensures |r| == 6 && Distinct(r)
    ensures forall m: MatchType :: r[MatchTypeValue(m) - 1] == m
  {
    [IsLocal, IsMfg, IsController, IsCloud, IsMyController, IsMyMfg]
  }

  /** `m.value`: the number `auto()` gives `m`, its 1-based declaration position. */
  function MatchTypeValue(m: MatchType): (v: int)
    ensures 1 <= v <= 6
  {
    match m
    case IsLocal => 1
    case IsMfg => 2
    case IsController => 3
    case IsCloud => 4
    case IsMyController => 5
    case IsMyMfg => 6
  }

  /** `MatchType(v)`: the member whose value is `v`; any other value is rejected. */
  function MatchTypeOf(v: int): (r: Option<MatchType>)
    ensures r.Some? <==> 1 <= v <= 6
    ensures r.Some? ==> MatchTypeValue(r.value) == v
  {
    if 1 <= v <= 6 then Some(MatchTypes()[v - 1]) else None
  }

  /** Looking a member up by its own value gives the member back. */
  lemma MatchTypeValueRoundTrip(m: MatchType)
    ensures MatchTypeOf(MatchTypeValue(m)) == Some(m)
  {
  }

  /** MatchType is a closed set of exactly six values: together they make six
      distinct elements, and no set of match types has more. */
  lemma MatchTypeIsClosed(s: set<MatchType>)
    ensures |Elements(MatchTypes())| == 6
    ensures |s| <= 6
  {
    DistinctElements(MatchTypes());
    forall x | x in s ensures x in MatchTypes() {
      assert MatchTypes()[MatchTypeValue(x) - 1] == x;
    }
    BoundedBySeq(s, MatchTypes());
  }

  // ---------------------------------------------------------------------
  // IPVersion
  // ---------------------------------------------------------------------

  datatype IPVersion = IPv4 | IPv6 | Both

  /** `list(IPVersion)`: exactly three distinct members, in declaration order. */
  function IPVersions(): (r: seq<IPVersion>)
    ensures |r| == 3 && Distinct(r)
    ensures forall v: IPVersion :: r[IPVersionValue(v) - 1] == v
  {
    [IPv4, IPv6, Both]
  }

  /** `v.value`: the 1-based declaration position of `v`. */
  function IPVersionValue(v: IPVersion): (n: int)
    ensures 1 <= n <= 3
  {
    match v
    case IPv4 => 1
    case IPv6 => 2
    case Both => 3
  }

  /** `IPVersion(n)`: the member whose value is `n`; any other value is rejected. */
  function IPVersionOf(n: int): (r: Option<IPVersion>)
    ensures r.Some? <==> 1 <= n <= 3
    ensures r.Some? ==> IPVersionValue(r.value) == n
  {
    if 1 <= n <= 3 then Some(IPVersions()[n - 1]) else None
  }

  /** Looking a member up by its own value gives the member back. */
  lemma IPVersionValueRoundTrip(v: IPVersion)
    ensures IPVersionOf(IPVersionValue(v)) == Some(v)
  {
  }

  /** IPVersion is a closed set of exactly three values. */
  lemma IPVersionIsClosed(s: set<IPVersion>)
    ensures |Elements(IPVersions())| == 3
    ensures |s| <= 3
  {
    DistinctElements(IPVersions());
    forall x | x in s ensures x in IPVersions() {
      assert IPVersions()[IPVersionValue(x) - 1] == x;
    }
    BoundedBySeq(s, IPVersions());
  }

  // ---------------------------------------------------------------------
  // Protocol
  // ---------------------------------------------------------------------

  datatype Protocol = Tcp | Udp | Any

  /** `list(Protocol)`: exactly three distinct members, in declaration order. */
  function Protocols(): (r: seq<Protocol>)
    ensures |r| == 3 && Distinct(r)
    ensures forall p: Protocol :: r[ProtocolValue(p) - 1] == p
  {
    [Tcp, Udp, Any]
  }

  /** `p.value`: the 1-based declaration position of `p`. */
  function ProtocolValue(p: Protocol): (n: int)
    ensures 1 <= n <= 3
  {
    match p
    case Tcp => 1
    case Udp => 2
    case Any => 3
  }

  /** `Protocol(n)`: the member whose value is `n`; any other value is rejected. */
  function ProtocolOf(n: int): (r: Option<Protocol>)
    ensures r.Some? <==> 1 <= n <= 3
    ensures r.Some? ==> ProtocolValue(r.value) == n
  {
    if 1 <= n <= 3 then Some(Protocols()[n - 1]) else None
  }

  /** Looking a member up by its own value gives the member back. */
  lemma ProtocolValueRoundTrip(p: Protocol)
    ensures ProtocolOf(ProtocolValue(p)) == Some(p)
  {
  }

  /** Protocol is a closed set of exactly three values. */
  lemma ProtocolIsClosed(s: set<Protocol>)
    ensures |Elements(Protocols())| == 3
    ensures |s| <= 3
  {
    DistinctElements(Protocols());
    forall x | x in s ensures x in Protocols() {
      assert Protocols()[ProtocolValue(x) - 1] == x;
    }
    BoundedBySeq(s, Protocols());
  }

  // ---------------------------------------------------------------------
  // Direction
  // ---------------------------------------------------------------------

  datatype Direction = ToDevice | FromDevice

  /** `list(Direction)`: exactly two distinct members, in declaration order. */
  function Directions(): (r: seq<Direction>)
    ensures |r| == 2 && Distinct(r)
    ensures forall d: Direction :: r[DirectionValue(d) - 1] == d
  {
    [ToDevice, FromDevice]
  }

  /** `d.value`: the 1-based declaration position of `d`. */
  function DirectionValue(d: Direction): (n: int)
    ensures 1 <= n <= 2
  {
    match d
    case ToDevice => 1
    case FromDevice => 2
  }

  /** `Direction(n)`: the member whose value is `n`; any other value is rejected. */
  function DirectionOf(n: int): (r: Option<Direction>)
    ensures r.Some? <==> 1 <= n <= 2
    ensures r.Some? ==> DirectionValue(r.value) == n
  {
    if 1 <= n <= 2 then Some(Directions()[n - 1]) else None
  }

  /** Looking a member up by its own value gives the member back. */
  lemma DirectionValueRoundTrip(d: Direction)
    ensures DirectionOf(DirectionValue(d)) == Some(d)
  {
  }

  /** Direction is a closed set of exactly two values. */
  lemma DirectionIsClosed(s: set<Direction>)
    ensures |Elements(Directions())| == 2
    ensures |s| <= 2
  {
    DistinctElements(Directions());
    forall x | x in s ensures x in Directions() {
      assert Directions()[DirectionValue(x) - 1] == x;
    }
    BoundedBySeq(s, Directions());
  }
}
