/** Builders for MUD document fragments (muddy/maker.py): the port-match part
    of an access-control entry. The `ietf-mud:direction-initiated` key is the
    one of section 4.7 of RFC 8520; the `source-port` and `destination-port`
    blocks use the `eq` operator of section 4.2 of RFC 8519. */
module Maker {
  import opened Wrappers

  /** A JSON-like value, as the builders' nested Python dictionaries hold. */
  datatype Json = Str(s: string) | Int(n: int) | Object(members: map<string, Json>)

  const DirectionInitiatedKey: string := "ietf-mud:direction-initiated"
  const SourcePortKey: string := "source-port"
  const DestinationPortKey: string := "destination-port"
  const OperatorKey: string := "operator"
  const PortKey: string := "port"
  const EqOperator: string := "eq"

  /** The only initiation directions the builder writes out. */
  const InitiationDirections: seq<string> := ["to-device", "from-device"]

  /** Whether `dirInit` names a direction the builder emits: present and one of
      "to-device" and "from-device". */
  predicate IsInitiationDirection(dirInit: Option<string>)
  {
    dirInit.Some? && dirInit.value in InitiationDirections
  }

  /** The `{operator: "eq", port: p}` block that matches exactly port `p`. */
  function PortMatch(port: int): (j: Json)
    ensures j.Object? && j.members.Keys == {OperatorKey, PortKey}
    ensures j.members[OperatorKey] == Str(EqOperator) && j.members[PortKey] == Int(port)
  {
    Object(map[OperatorKey := Str(EqOperator), PortKey := Int(port)])
  }

  /** The port-range fragment for the three inputs, as a union of the three
      independent optional entries. */
  function PortRange(dirInit: Option<string>, sourcePort: Option<int>, destinationPort: Option<int>)
    : (r: map<string, Json>)
    ensures r.Keys <= {DirectionInitiatedKey, SourcePortKey, DestinationPortKey}
    ensures DirectionInitiatedKey in r <==> IsInitiationDirection(dirInit)
    ensures DirectionInitiatedKey in r ==> r[DirectionInitiatedKey] == Str(dirInit.value)
    ensures SourcePortKey in r <==> sourcePort.Some?
    ensures SourcePortKey in r ==> r[SourcePortKey] == PortMatch(sourcePort.value)
    ensures DestinationPortKey in r <==> destinationPort.Some?
    ensures DestinationPortKey in r ==> r[DestinationPortKey] == PortMatch(destinationPort.value)
  {
    (if IsInitiationDirection(dirInit) then map[DirectionInitiatedKey := Str(dirInit.value)] else map[])
    + (if sourcePort.Some? then map[SourcePortKey := PortMatch(sourcePort.value)] else map[])
    + (if destinationPort.Some? then map[DestinationPortKey := PortMatch(destinationPort.value)] else map[])
  }

  /** `make_port_range`: starts from an empty dictionary and adds each key whose
      input asks for it, one conditional assignment after another. */
  method MakePortRange(dirInit: Option<string>, sourcePort: Option<int>, destinationPort: Option<int>)
    returns (portRange: map<string, Json>)
    ensures portRange == PortRange(dirInit, sourcePort, destinationPort)
  {
    portRange := map[];

    if IsInitiationDirection(dirInit) {
      portRange := portRange[DirectionInitiatedKey := Str(dirInit.value)];
    }

    if sourcePort.Some? {
      portRange := portRange[SourcePortKey := PortMatch(sourcePort.value)];
    }
    if destinationPort.Some? {
      portRange := portRange[DestinationPortKey := PortMatch(destinationPort.value)];
    }
  }

  /** The number of keys is the number of inputs that ask for one. */
  lemma PortRangeSize(dirInit: Option<string>, sourcePort: Option<int>, destinationPort: Option<int>)
    ensures |PortRange(dirInit, sourcePort, destinationPort)| ==
      (if IsInitiationDirection(dirInit) then 1 else 0) +
      (if sourcePort.Some? then 1 else 0) +
      (if destinationPort.Some? then 1 else 0)
  {
  }

  /** With no input given the fragment is empty. */
  lemma PortRangeEmpty(dirInit: Option<string>)
    requires !IsInitiationDirection(dirInit)
    ensures PortRange(dirInit, None, None) == map[]
  {
  }

  /** Every port block uses the `eq` operator; no other operator is produced. */
  lemma PortRangeOnlyEq(dirInit: Option<string>, sourcePort: Option<int>, destinationPort: Option<int>, key: string)
    requires key in PortRange(dirInit, sourcePort, destinationPort)
    requires key != DirectionInitiatedKey
    ensures PortRange(dirInit, sourcePort, destinationPort)[key].Object?
    ensures PortRange(dirInit, sourcePort, destinationPort)[key].members[OperatorKey] == Str(EqOperator)
  {
  }

  /** Each key depends on its own input only: changing the other two inputs
      changes neither its presence nor its value. */
  lemma PortRangeIndependent(
    d1: Option<string>, s1: Option<int>, t1: Option<int>,
    d2: Option<string>, s2: Option<int>, t2: Option<int>)
    ensures d1 == d2 ==> EqualOnKey(PortRange(d1, s1, t1), PortRange(d2, s2, t2), DirectionInitiatedKey)
    ensures s1 == s2 ==> EqualOnKey(PortRange(d1, s1, t1), PortRange(d2, s2, t2), SourcePortKey)
    ensures t1 == t2 ==> EqualOnKey(PortRange(d1, s1, t1), PortRange(d2, s2, t2), DestinationPortKey)
  {
  }

  /** `m` and `m'` agree on `key`: both lack it or both map it to the same value. */
  predicate EqualOnKey(m: map<string, Json>, m': map<string, Json>, key: string)
  {
    (key !in m && key !in m') || (key in m && key in m' && m[key] == m'[key])
  }

  /** Reads a port block back: the port of an `eq` match, if it is one. */
  function PortOf(j: Json): Option<int>
  {
    if j.Object? && OperatorKey in j.members && PortKey in j.members
       && j.members[OperatorKey] == Str(EqOperator) && j.members[PortKey].Int?
    then Some(j.members[PortKey].n)
    else None
  }

  /** Reads a port-range fragment back into the inputs it records. */
  function ReadPortRange(r: map<string, Json>): (Option<string>, Option<int>, Option<int>)
  {
    var dir := if DirectionInitiatedKey in r && r[DirectionInitiatedKey].Str?
               then Some(r[DirectionInitiatedKey].s) else None;
    var src := if SourcePortKey in r then PortOf(r[SourcePortKey]) else None;
    var dst := if DestinationPortKey in r then PortOf(r[DestinationPortKey]) else None;
    (dir, src, dst)
  }

  /** Reading a fragment back gives the ports unchanged and the initiation
      direction when it is one of the two the builder accepts, `None` otherwise. */
  lemma PortRangeReadBack(dirInit: Option<string>, sourcePort: Option<int>, destinationPort: Option<int>)
    ensures ReadPortRange(PortRange(dirInit, sourcePort, destinationPort)) ==
      (if IsInitiationDirection(dirInit) then dirInit else None, sourcePort, destinationPort)
  {
  }

  /** Two calls give the same fragment exactly when they agree on both ports
      and on the direction once unaccepted directions are treated as absent. */
  lemma PortRangeInjective(
    d1: Option<string>, s1: Option<int>, t1: Option<int>,
    d2: Option<string>, s2: Option<int>, t2: Option<int>)
    ensures PortRange(d1, s1, t1) == PortRange(d2, s2, t2) <==>
      (&& (if IsInitiationDirection(d1) then d1 else None) == (if IsInitiationDirection(d2) then d2 else None)
       && s1 == s2 && t1 == t2)
  {
  }

  /** The module's own example: `make_port_range("to-device", 888, 80)`. */
  lemma PortRangeExample()
    ensures PortRange(Some("to-device"), Some(888), Some(80)) == map[
      DirectionInitiatedKey := Str("to-device"),
      SourcePortKey := Object(map[OperatorKey := Str("eq"), PortKey := Int(888)]),
      DestinationPortKey := Object(map[OperatorKey := Str("eq"), PortKey := Int(80)])]
  {
  }
}
