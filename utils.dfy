/** Helpers shared by the builders (muddy/utils.py): the name under which an
    IP version appears in a layer-3 ACL match, "ipv4" or "ipv6" as in section
    4.1 of RFC 8519. */
module Utils {
  import opened Wrappers
  import opened Models

  /** The exception raised for an IP version that has no single key string. */
  datatype InputError = InvalidIpVersion

  /** `get_ipversion_string`: the key string of a concrete IP version. `Both`
      stands for two versions at once and is rejected. */
  function IpVersionString(version: IPVersion): (r: Result<string, InputError>)
    ensures r.Success? <==> version != Both
    ensures version == IPv4 ==> r == Success("ipv4")
    ensures version == IPv6 ==> r == Success("ipv6")
    ensures version == Both ==> r == Failure(InvalidIpVersion)
  {
    match version
    case IPv4 => Success("ipv4")
    case IPv6 => Success("ipv6")
    case Both => Failure(InvalidIpVersion)
  }

  /** The IP version a layer-3 key string names, the reading a consumer of the
      produced document applies. */
  function IpVersionOfString(key: string): (r: Option<IPVersion>)
    ensures r.Some? ==> r.value != Both
  {
    if key == "ipv4" then Some(IPv4)
    else if key == "ipv6" then Some(IPv6)
    else None
  }

  /** The key string and its reading are inverse to each other, in both
      directions: a version produces a key exactly when that key reads back as
      the version. */
  lemma IpVersionStringRoundTrip(version: IPVersion, key: string)
    ensures IpVersionString(version) == Success(key) <==> IpVersionOfString(key) == Some(version)
  {
  }

  /** Distinct versions never share a key string. */
  lemma IpVersionStringInjective(a: IPVersion, b: IPVersion)
    requires IpVersionString(a).Success? && IpVersionString(b).Success?
    requires IpVersionString(a).value == IpVersionString(b).value
    ensures a == b
  {
  }

  /** Only "ipv4" and "ipv6" are ever produced, so in particular never "both". */
  lemma IpVersionStringRange(version: IPVersion)
    ensures IpVersionString(version).Success? ==>
      IpVersionString(version).value in {"ipv4", "ipv6"}
  {
  }

  /** Exactly two of the three members of `IPVersion` have a key string. */
  lemma IpVersionStringDomain()
    ensures |set v | v in IPVersions() && IpVersionString(v).Success?| == 2
  {
    assert (set v | v in IPVersions() && IpVersionString(v).Success?) == {IPv4, IPv6};
  }
}
