# muddy: port-range builder and MUD vocabularies

A model of the core of `muddy`, a Python library that builds MUD
(Manufacturer Usage Description, RFC 8520) files. The core holds:

- the four closed vocabularies of the builder (`MatchType`, `IPVersion`,
  `Protocol`, `Direction`), Python `Enum` classes numbered by `auto()`;
- `make_port_range`, which builds the port-match fragment of an
  access-control entry: an optional `ietf-mud:direction-initiated` key
  (section 4.7 of RFC 8520) and optional `source-port`/`destination-port`
  blocks using the `eq` operator (section 4.2 of RFC 8519);
- `get_ipversion_string`, which names an IP version by its layer-3 key,
  `"ipv4"` or `"ipv6"` (section 4.1 of RFC 8519).

Files:

- `wrappers.dfy` (module `Wrappers`): `Option` for Python's `None`, `Result`
  for a call that raises.
- `models.dfy` (module `Models`): one datatype per enum. `MatchTypes()` and its
  siblings are `list(E)`. `MatchTypeValue` and its siblings are `.value`.
  `MatchTypeOf` and its siblings are the lookup `E(v)`. Lemmas show that each
  enum is a closed set of exactly N distinct values.
- `utils.dfy` (module `Utils`): `IpVersionString`, with its reading
  `IpVersionOfString` as partner.
- `maker.dfy` (module `Maker`): the port-range fragment as a map from key to
  a JSON-like value. `MakePortRange` builds it imperatively, one conditional
  map update after another, as the Python function fills its dictionary. It
  is proved equal to the declarative `PortRange`, and the lemmas are stated
  about `PortRange`.

Inputs that Python leaves untyped are modelled as follows. `dir_init` is an
`Option<string>`. The ports are `Option<int>`, so a port of `0` is present,
because the source tests `is not None`. `ip_version` is an `IPVersion`:
the Python function accepts any object and raises for everything but `IPV4`
and `IPV6` (for `None`, the string "ipv4" or the integer 1 alike), and the
model keeps only the `BOTH` member of those failing inputs.

## Code as written

- `muddy/utils.py:3` lacks the colon after the `def` line, so the module does
  not parse. The model gives the evident intent: the chain of conditional
  returns.
- `muddy/utils.py:9` raises `InputException`, a name defined nowhere. The
  model has a single error value, `InvalidIpVersion`, and records only that
  the call fails.

## Model

| member | source | states |
|---|---|---|
| `Models.MatchTypes` | muddy/models.py:4-21 | `list(MatchType)` has exactly six pairwise distinct members, and member `m` sits at position `m.value - 1`, so every member is listed |
| `Models.MatchTypeValue` | muddy/models.py:8-20 | `auto()` numbers the match types within 1..6 |
| `Models.MatchTypeOf` | muddy/models.py:4-21 | `MatchType(v)` succeeds exactly for 1 <= v <= 6 and returns the member whose value is `v` |
| `Models.MatchTypeValueRoundTrip` | muddy/models.py:4-21 | looking a match type up by its own value returns it |
| `Models.MatchTypeIsClosed` | muddy/models.py:4-21 | the six match types form a set of six elements, and no set of match types is larger |
| `Models.IPVersions` | muddy/models.py:24-29 | `list(IPVersion)` has exactly three pairwise distinct members, each at position `value - 1` |
| `Models.IPVersionValue` | muddy/models.py:27-29 | `auto()` numbers the IP versions within 1..3 |
| `Models.IPVersionOf` | muddy/models.py:24-29 | `IPVersion(n)` succeeds exactly for 1 <= n <= 3 and returns the member whose value is `n` |
| `Models.IPVersionValueRoundTrip` | muddy/models.py:24-29 | looking an IP version up by its own value returns it |
| `Models.IPVersionIsClosed` | muddy/models.py:24-29 | the three IP versions form a set of three elements, and no set of IP versions is larger |
| `Models.Protocols` | muddy/models.py:32-37 | `list(Protocol)` has exactly three pairwise distinct members, each at position `value - 1` |
| `Models.ProtocolValue` | muddy/models.py:35-37 | `auto()` numbers the protocols within 1..3 |
| `Models.ProtocolOf` | muddy/models.py:32-37 | `Protocol(n)` succeeds exactly for 1 <= n <= 3 and returns the member whose value is `n` |
| `Models.ProtocolValueRoundTrip` | muddy/models.py:32-37 | looking a protocol up by its own value returns it |
| `Models.ProtocolIsClosed` | muddy/models.py:32-37 | the three protocols form a set of three elements, and no set of protocols is larger |
| `Models.Directions` | muddy/models.py:40-44 | `list(Direction)` has exactly two distinct members, each at position `value - 1` |
| `Models.DirectionValue` | muddy/models.py:43-44 | `auto()` numbers the directions within 1..2 |
| `Models.DirectionOf` | muddy/models.py:40-44 | `Direction(n)` succeeds exactly for 1 <= n <= 2 and returns the member whose value is `n` |
| `Models.DirectionValueRoundTrip` | muddy/models.py:40-44 | looking a direction up by its own value returns it |
| `Models.DirectionIsClosed` | muddy/models.py:40-44 | the two directions form a set of two elements, and no set of directions is larger |
| `Utils.IpVersionString` | muddy/utils.py:3-9 | succeeds if and only if the version is not `BOTH`; `IPV4` gives "ipv4", `IPV6` gives "ipv6", and `BOTH` fails with the input error |
| `Utils.IpVersionStringRoundTrip` | muddy/utils.py:3-9 | a version yields a key string exactly when that string reads back as the version, in both directions |
| `Utils.IpVersionStringInjective` | muddy/utils.py:4-7 | two versions that both succeed and get the same string are the same version |
| `Utils.IpVersionStringRange` | muddy/utils.py:4-9 | every string produced is "ipv4" or "ipv6", never "both" |
| `Utils.IpVersionStringDomain` | muddy/utils.py:3-9 | exactly two of the three IP versions have a key string |
| `Maker.PortMatch` | muddy/maker.py:17-20 | a port block has exactly the keys `operator` and `port`, with operator "eq" and the given port |
| `Maker.PortRange` | muddy/maker.py:10-27 | no keys but the three. The direction key is present iff `dir_init` is "to-device" or "from-device", and then holds `dir_init`. `source-port` is present iff a source port is given, and then is its `eq` block. The same holds for `destination-port` |
| `Maker.MakePortRange` | muddy/maker.py:10-27 | the dictionary built by the three conditional assignments is exactly the fragment `PortRange` describes |
| `Maker.PortRangeSize` | muddy/maker.py:11-27 | the fragment has one key per input that asks for one |
| `Maker.PortRangeEmpty` | muddy/maker.py:11-27 | no accepted direction and no ports give the empty dictionary, whatever the rejected direction string, and nothing fails |
| `Maker.PortRangeOnlyEq` | muddy/maker.py:16-25 | every key other than the direction key holds a block whose operator is "eq" |
| `Maker.PortRangeIndependent` | muddy/maker.py:13-25 | each key's presence and value depend only on its own input |
| `Maker.PortRangeReadBack` | muddy/maker.py:13-25 | reading the fragment back returns both ports unchanged, and the direction if it is accepted, otherwise none |
| `Maker.PortRangeInjective` | muddy/maker.py:13-25 | two calls give equal fragments iff they agree on both ports and on the accepted direction |
| `Maker.PortRangeExample` | muddy/maker.py:30 | `make_port_range("to-device", 888, 80)` gives all three keys, with source port 888 and destination port 80 |

## Left out

- `make_support_info` (muddy/maker.py:3-8): a stub. It builds an empty dictionary, discards it and returns `None`. Its only logic is commented out.
- The `__main__` block (muddy/maker.py:29-30) prints to the console. Only its call is kept, as `Maker.PortRangeExample`.
- `int()` coercion of the ports (muddy/maker.py:19,24): ports are integers in the model, so no string is parsed. There is no range check on port numbers because the source has none.
- The text of the error message in muddy/utils.py:9 is not modelled. It is not an f-string and its exception class is undefined, so the model records only that the call fails.
- muddy/scripts/mudcli.py: command-line plumbing whose only effect is terminal output.
- muddy/constants.py: a static table of help texts with no behaviour.
- setup.py: packaging metadata.
- Match-clause builders, ACE/ACL expansion and policy/document assembly have no code in the modelled files.
- Key order: a Python dictionary keeps insertion order, so `make_port_range` lists its keys as direction, `source-port`, `destination-port`, and JSON serialisation keeps that order. `Maker.PortRange` is a `map`, which records no order. Nothing in the modelled code depends on the order.
