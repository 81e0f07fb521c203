# hpswitch in Dafny

A model of the core of hpswitch, a Python 2 library for managing HP Networking switches. It works through SNMP and the switch's command line. The model covers these parts:

- **VLAN port lists** (`hpswitch/vlan.py`). A Q-BRIDGE-MIB PortList is a bitmap with one bit per port, and the most significant bit of octet *i* stands for port 8*i*+1. The model covers the single-bit update, the decoding into member ports, and the read-modify-write of the egress and untagged lists. The untagged write also sets the port's PVID.
- **The VLAN's IP addresses in hpicfIpAddressTable** (`hpswitch/vlan.py`). The index suffix is `(ifindex, type, length, octets…)`. The type is the InetAddressType of section 3 of RFC 4001: 1 for IPv4 and 2 for IPv6. The octets are a length-prefixed OCTET STRING, as in section 7.7 of RFC 2578. The VLAN's ifindex is `vid + 577`. The model covers the set requests that create and destroy address rows, the reader's row filter, and the dotted IPv4 and grouped IPv6 text the reader builds. It also covers the VLAN name check.
- **Port arithmetic** (`hpswitch/switch.py`, `hpswitch/port.py`). An identifier such as `A5` maps to an ifindex or base port, and an ifindex maps to a (unit, port) location. The model also covers the admin and operational status of a port and its untagged VLAN.
- **Interface names** (`hpswitch/interface.py`). The name is read from `show running-config` output by a one-line pattern, checked against its alphabet, and set and removed by fixed three-command sequences.

The project is organised as follows:

- `Runtime` (`runtime.dfy`) holds the Python 2 behaviour the core relies on: exceptions as `Result` failures, negative indexing and slicing, `int()`/`str()`, `"%02x"` and `upper()`. `Split` stands for the line structure the MULTILINE pattern of `hpswitch/interface.py:24` sees, and `Join` for the `reduce(lambda a, b: a + "." + b, …)` of `hpswitch/vlan.py:65`.
- `Switch` (`switch.dfy`) is the switch. Its SNMP agent is a record of the MIB columns the core reads and writes, plus a log of the set requests not aimed at a modelled column, whatever their number of varbinds, and a log of CLI commands.
- `Octet` (`octet.dfy`) holds the bit operations on one octet of a port list: the mask of a bit and the octet with one bit forced.
- `Port`, `PortList`, `AddressIndex`, `Vlan` and `Interface` follow the source files.

Some conventions hold across the model:

- Objects whose state changes are classes. The switch's fields are updated in place.
- Pure codecs are functions with lemmas relating them.
- Each loop of the source is a method whose loop invariants prove it against a specification function: the port-list decoder, the two address readers and the loop that groups IPv6 digits.
- Python 2 `/` and `%` with the positive divisors used here (8, 52) are floor operations, and they agree with Dafny's Euclidean ones.

## Model

| member | source | states |
|---|---|---|
| Runtime.Index | hpswitch/vlan.py:188 | `s[i]` succeeds exactly for `-len <= i < len`, and a negative index reads position `i + len` |
| Runtime.SliceTo | hpswitch/vlan.py:192 | `s[:j]` for an in-range `j` is the first `j` elements |
| Runtime.SliceFrom | hpswitch/vlan.py:192 | `s[i:]` for an in-range `i` is everything from position `i` |
| Runtime.Upper | hpswitch/switch.py:43 | `upper()` changes only ASCII lower-case letters, and maps each to its upper-case letter |
| Runtime.LetterIndex | hpswitch/switch.py:43 | `string.ascii_uppercase.index(c.upper())` succeeds exactly for ASCII letters of either case and gives their 0-based alphabet position; otherwise ValueError |
| Runtime.StripLeftMeaning | hpswitch/switch.py:44 | the leading white space `int()` skips: what remains is a suffix of the text that does not start with white space, and everything dropped is white space |
| Runtime.SpaceAfterSignParses | hpswitch/switch.py:44 | a sign, any run of white space, then the digits of `m` parse as `m` or `-m`, as CPython 2's `int()` skips white space again after the sign |
| Runtime.SignedTextExamples | hpswitch/switch.py:44 | `int("- 5")` is -5, while a bare sign and a trailing `L` raise ValueError |
| Runtime.IntTextRoundTrip | hpswitch/vlan.py:65-66 | `int(str(n)) == n` for every integer, negative ones included |
| Runtime.Hex02 | hpswitch/vlan.py:123 | `"%02x" % n` for `n < 256` is exactly two lower-case hex digits, high nibble first |
| Runtime.HexPairRoundTrip | hpswitch/vlan.py:123 | the two `%02x` digits of an octet read back as that octet |
| Runtime.Split | hpswitch/interface.py:24 | splitting gives at least one piece, and no piece contains the separator |
| Runtime.SplitJoin | hpswitch/interface.py:24 | splitting the joined lines gives the lines back when none contains the separator |
| Runtime.JoinSplit | hpswitch/interface.py:24 | joining the pieces of a split gives the text back |
| Switch.Switch.constructor | hpswitch/switch.py:15-26 | a new switch has the given MIB contents and has issued no set request and no command |
| Switch.Switch.ExecuteCommand | hpswitch/interface.py:19 | a command is appended to the command log; the MIB and the set requests stay as they were |
| Switch.Switch.SendSet | hpswitch/switch.py:54-60 | one set request with all its varbinds is appended to the request log; the MIB and the commands stay as they were |
| Switch.IfIndexForPortLocation | hpswitch/switch.py:38-40 | `(unit-1)*24 + port`: for a port in `1..24` the unit and port are recovered from the ifindex by floor division and modulo by 24 |
| Switch.PortLocationForIfIndex | hpswitch/switch.py:35-36 | `(unit-1)*52 + port == ifindex` with `1 <= port <= 52`, and `unit >= 1` exactly when `ifindex >= 1` |
| Switch.IfIndexForPortIdentifier | hpswitch/switch.py:42-45 | an empty identifier raises IndexError; the result succeeds exactly when the first character is an ASCII letter and the rest parses with `int()`, and is then `letterIndex*24 + number`; any other failure is ValueError |
| Switch.LocationRoundTrip | hpswitch/switch.py:35-40 | ifindex → location → ifindex is the identity exactly for `1 <= ifindex <= 52` |
| Switch.LocationRoundTripFailsOnSecondUnit | hpswitch/switch.py:35-40 | ifindex 53 maps to (2, 1) and then to 25 |
| Switch.IdentifierOfLetterAndNumber | hpswitch/switch.py:42-45 | `<letter><number>` maps to `letterIndex*24 + number`, and the upper-case letter gives the same value |
| Port.IfIndexForPortLocation | hpswitch/port.py:26-32 | `unit*24 + port` with a 0-based unit: the switch's function shifted by one unit, and for a port in `1..24` the 0-based unit and the port are recovered from the ifindex |
| Port.IfIndexForPortIdentifierAsWritten | hpswitch/port.py:34-41 | as written, every identifier raises NameError |
| Port.IfIndexForPortIdentifier | hpswitch/port.py:26-41 | intended: the same error cases and value `letterIndex*24 + number` as the switch's function, with which it agrees on every identifier |
| Port.IdentifierAsWrittenRaises | hpswitch/port.py:39-41 | `A1` raises NameError as written and gives 1 as intended |
| Port.AdminStatusFor | hpswitch/port.py:81-88 | `_set_enabled` writes 1 or 2, and reading it back as `== 1` returns the written boolean |
| Port.SetNameAsWritten | hpswitch/port.py:58-66 | as written, `_set_name` raises NameError for every non-empty name, because `string` is not imported and `map` is eager; only the empty name reaches NotImplementedError |
| Port.SetName | hpswitch/port.py:58-66 | as intended, with `string` imported: always raises, AssertionError exactly when a character is not an ASCII letter or digit, NotImplementedError otherwise (the empty name included) |
| Port.SetNameAsWrittenDiffers | hpswitch/port.py:58-66 | the code as written and the intended check raise the same error exactly for the empty name |
| Port.SetNameAsWrittenExamples | hpswitch/port.py:58-66 | `A1` raises NameError as written and NotImplementedError as intended; `a b` raises NameError as written and AssertionError as intended |
| Port.Port.constructor | hpswitch/port.py:9-14 | the port keeps its switch and identifier |
| Port.Port.BasePort | hpswitch/port.py:43-50 | `base_port` and `ifindex` are the same function of the identifier |
| Port.Port.GetEnabled | hpswitch/port.py:76-81 | `enabled` is true exactly when ifAdminStatus of the port's ifindex is 1; identifier errors and a missing instance fail |
| Port.Port.SetEnabled | hpswitch/port.py:83-88 | ifAdminStatus of the port's ifindex becomes 1 or 2 and reads back as the written value; nothing else changes |
| Port.Port.GetOperational | hpswitch/port.py:92-97 | `operational` is true exactly when ifOperStatus of the port's ifindex is 1 |
| Port.Port.GetUntaggedVlan | hpswitch/port.py:101-105 | the untagged VLAN is dot1qPvid of the port's base port |
| Octet.MaskIsShift | hpswitch/vlan.py:188-190 | the mask for bit `k` is `1 << k`, a non-zero octet |
| Octet.MasksDisjoint | hpswitch/vlan.py:188-190 | the masks of two different bits share no bit |
| PortList.BitOf | hpswitch/vlan.py:185 | the bit position within the octet is below 8 |
| PortList.DistinctPortsDistinctBits | hpswitch/vlan.py:184-185 | two different ports never share an (octet, bit) position |
| Octet.WithBitBits | hpswitch/vlan.py:187-190 | OR-ing or AND-NOT-ing the mask sets bit `k` to the status and leaves the other seven bits alone |
| Octet.OctetOtherBit | hpswitch/vlan.py:187-190 | forcing bit `k` leaves any other bit `j` as it was |
| Octet.WithBitTwice | hpswitch/vlan.py:187-190 | forcing the same bit twice gives what the second forcing alone gives |
| Octet.OctetFromBits | hpswitch/vlan.py:187-190 | two octets that agree on all eight masked bits are equal |
| PortList.SetPortStatus | hpswitch/vlan.py:177-193 | corrected: succeeds exactly for `1 <= base_port <= 8*len`, otherwise IndexError; same length, other octets and other bits unchanged; the port is a member exactly when `status`; every other port's membership unchanged |
| PortList.SetPortStatusAsWritten | hpswitch/vlan.py:184-192 | as written, with Python's negative indexing: succeeds exactly for `-8*len < base_port <= 8*len`, otherwise IndexError |
| PortList.AsWrittenAgreesOnListedPorts | hpswitch/vlan.py:184-192 | for ports `1..8*len` the code as written and the corrected update agree |
| PortList.AsWrittenDoublesListBelowPortOne | hpswitch/vlan.py:184-192 | for base ports -7..0 the code as written returns a list of twice the length, where the corrected update raises |
| PortList.AsWrittenPortZeroExample | hpswitch/vlan.py:184-192 | port 0 set in `[0x00]` gives `[0x01, 0x00]` |
| PortList.WithOctetBitTwice | hpswitch/vlan.py:187-192 | rebuilding the list around the same octet twice, with the same bit forced, gives what the second rebuild alone gives |
| PortList.SetPortStatusLastWins | hpswitch/vlan.py:187-192 | two updates of the same port equal the second one alone (set-true then set-false equals set-false) |
| PortList.SetPortStatusIdempotent | hpswitch/vlan.py:187-192 | repeating an update changes nothing |
| PortList.EnabledPorts | hpswitch/vlan.py:202-210 | the decoded list has at most one entry per bit of the list; its members and order are stated by the lemmas below |
| PortList.OctetPortsMember | hpswitch/vlan.py:204-207 | within one octet, the inner loop lists port `base + bit + 1` exactly when bit `7 - bit` is set |
| PortList.EnabledPortsMember | hpswitch/vlan.py:202-210 | one port is in the decoded list exactly when its bit is set |
| PortList.EnabledPortsMembers | hpswitch/vlan.py:202-210 | a port is in the decoded list exactly when its bit is set |
| PortList.EnabledPortsAscending | hpswitch/vlan.py:202-210 | the decoded ports lie in `1..8*len` and are strictly ascending |
| PortList.GetEnabledPorts | hpswitch/vlan.py:195-210 | the nested loop yields exactly the ports whose bit is set, strictly ascending |
| PortList.EnabledPortsAfterSet | hpswitch/vlan.py:177-210 | after an update the decoded list contains the port exactly when `status`, and every other port as before |
| PortList.EnabledPortsDetermineList | hpswitch/vlan.py:195-210 | two port lists of the same length with the same decoded members are equal |
| AddressIndex.VlanIfIndex | hpswitch/vlan.py:24-26 | the VLAN's ifindex lies above 576 and gives its VLAN id back |
| AddressIndex.AddIpv4AddressRequest | hpswitch/vlan.py:72-89 | five varbinds, the last three creating the row indexed `(vid+577, 1, 4) + octets` |
| AddressIndex.AddIpv6AddressRequest | hpswitch/vlan.py:140-163 | six varbinds, the last three creating the row indexed `(vid+577, 2, 16) + octets` |
| AddressIndex.RemoveAddressRequest | hpswitch/vlan.py:91-101 | one varbind: the row-status column and index that the add sets to createAndGo (4), set to destroy (6); the IPv6 removal at hpswitch/vlan.py:165-175 is the same request with type 2 |
| AddressIndex.RowSelected | hpswitch/vlan.py:53-60 | the filter is evaluated left to right: it fails with IndexError exactly when the OID is too short for the components it reaches, and keeps the row exactly when ifindex, type and column all match |
| AddressIndex.SelectRows | hpswitch/vlan.py:53-60 | the filter succeeds exactly when every row's test does, otherwise IndexError; it keeps exactly the selected rows and no more rows than it was given |
| AddressIndex.SelectRowsCons | hpswitch/vlan.py:53-60 | the filter tests the first row of the walk and then the rest: it succeeds exactly when both do, keeping the first row when its test is true ahead of the rest's rows |
| AddressIndex.SelectRowsOne | hpswitch/vlan.py:53-60 | a one-row walk keeps the row exactly when its test is true, drops it when false, and raises IndexError when the test does |
| AddressIndex.SelectRowsAppend | hpswitch/vlan.py:53-60 | the filter keeps walk order and multiplicity: two consecutive stretches of the walk give the rows kept from the first followed by those kept from the second, and the whole walk raises exactly when one stretch does |
| AddressIndex.Last | hpswitch/vlan.py:65 | `oid[-n:]` is the last `n` components |
| AddressIndex.AddedRowReadBack | hpswitch/vlan.py:26-123 | the prefix-length row an add creates is selected for its own VLAN and family, its last components are the octets and its value the prefix length; rows of the other family, another VLAN or another column are not selected |
| AddressIndex.DecimalTexts | hpswitch/vlan.py:65 | each component is rendered by `str()`, and each text reads back with `int()` as its component |
| AddressIndex.DottedTextRoundTrip | hpswitch/vlan.py:65 | splitting the dotted text on `.` gives one field per component, each of which reads back as that component |
| AddressIndex.HexDigits | hpswitch/vlan.py:121-124 | only hex digits, two per octet |
| AddressIndex.GroupDigits | hpswitch/vlan.py:125-132 | the `while True` loop builds exactly the grouped text |
| AddressIndex.GroupedLayout | hpswitch/vlan.py:125-132 | the grouped text has `n + (n-1)/4` characters, a colon at every position `i % 5 == 4` and digit `i - i/5` elsewhere |
| AddressIndex.GroupedWithoutColons | hpswitch/vlan.py:125-132 | deleting the colons from the grouped text gives the digits back |
| AddressIndex.Ipv6TextRoundTrip | hpswitch/vlan.py:118-133 | 16 octets become 39 characters with colons at exactly 7 positions; deleting the colons gives the 32 digits, which read back as the octets |
| AddressIndex.Ipv4Addresses | hpswitch/vlan.py:47-68 | the IPv4 reader succeeds exactly when the filter does, otherwise IndexError, with one text per kept row |
| AddressIndex.Ipv6Addresses | hpswitch/vlan.py:103-136 | the IPv6 reader succeeds exactly when the filter does, otherwise IndexError, with one text per kept row |
| AddressIndex.AddedAddressIsListed | hpswitch/vlan.py:47-136 | an address row an add created appears in the reader's output as its text and prefix length |
| Vlan.UpdatedPortListMembers | hpswitch/vlan.py:222-252 | a successful read-modify-write makes the port a member exactly when `status` and keeps every other port's membership |
| Vlan.IsLegalName | hpswitch/vlan.py:42 | a name is legal exactly when none of the characters `"'@#$^&*` occurs in it, the check taken one refused character at a time as the source does |
| Vlan.Vlan.constructor | hpswitch/vlan.py:12-17 | the VLAN keeps its switch and id |
| Vlan.Vlan.GetName | hpswitch/vlan.py:33-37 | the name is dot1qVlanStaticName of the vid |
| Vlan.Vlan.SetName | hpswitch/vlan.py:39-43 | a name with none of `"'@#$^&*` is written as dot1qVlanStaticName; any other fails the assertion and writes nothing |
| Vlan.Vlan.GetIpv4Addresses | hpswitch/vlan.py:47-68 | the loop returns `AddressIndex.Ipv4Addresses` of the table for the VLAN's ifindex: the dotted text and prefix length of each selected row, or the filter's IndexError |
| Vlan.Vlan.GetIpv6Addresses | hpswitch/vlan.py:103-136 | the loop, with `GroupDigits` for each row, returns `AddressIndex.Ipv6Addresses` of the table for the VLAN's ifindex: the grouped text and prefix length of each selected row, or the filter's IndexError |
| Vlan.Vlan.AddIpv4Address | hpswitch/vlan.py:72-89 | issues one set request with the five IPv4 varbinds |
| Vlan.Vlan.RemoveIpv4Address | hpswitch/vlan.py:91-101 | issues one set request destroying the IPv4 row |
| Vlan.Vlan.AddIpv6Address | hpswitch/vlan.py:140-163 | issues one set request with the six IPv6 varbinds |
| Vlan.Vlan.RemoveIpv6Address | hpswitch/vlan.py:165-175 | issues one set request destroying the IPv6 row |
| Vlan.Vlan.GetTaggedPorts | hpswitch/vlan.py:213-218 | the tagged ports are exactly the ports set in the egress list, ascending |
| Vlan.Vlan.GetUntaggedPorts | hpswitch/vlan.py:239-244 | the untagged ports are exactly the ports set in the untagged list, ascending |
| Vlan.Vlan.SetPortTaggedStatus | hpswitch/vlan.py:222-225 | only the VLAN's egress list changes, to its single-bit update; a missing list or a bad base port changes nothing |
| Vlan.Vlan.SetPortUntaggedStatus | hpswitch/vlan.py:248-252 | the untagged list changes to its single-bit update and the port's PVID becomes the vid, for removal as for addition |
| Vlan.Vlan.AddTaggedPort | hpswitch/vlan.py:227-231 | afterwards the port is a tagged member and every other port's membership is unchanged; the list keeps its length, the MIB changes only in that VLAN's egress list, and no command or logged set request is issued |
| Vlan.Vlan.RemoveTaggedPort | hpswitch/vlan.py:233-237 | afterwards the port is not a tagged member and every other port's membership is unchanged; the list keeps its length, the MIB changes only in that VLAN's egress list, and no command or logged set request is issued |
| Vlan.Vlan.AddUntaggedPort | hpswitch/vlan.py:254-258 | afterwards the port is an untagged member, other memberships are unchanged and its PVID is the vid; the list keeps its length, the MIB changes only in that VLAN's untagged list and that port's PVID, and no command or logged set request is issued |
| Vlan.Vlan.RemoveUntaggedPort | hpswitch/vlan.py:260-264 | afterwards the port is not an untagged member, other memberships are unchanged and its PVID is the vid; the list keeps its length, the MIB changes only in that VLAN's untagged list and that port's PVID, and no command or logged set request is issued |
| Interface.ClosingQuoteIsLast | hpswitch/interface.py:24 | only one quote of a line can be followed by nothing but white space |
| Interface.ClosingQuote | hpswitch/interface.py:24 | the lazy group ends at the first quote followed only by white space, and there is none exactly when no quote qualifies |
| Interface.NameInLine | hpswitch/interface.py:24 | a line matches exactly when it starts with `   name "` and a later quote is followed only by white space; the name is what lies between the prefix and the first such quote |
| Interface.FirstMatch | hpswitch/interface.py:24 | the first line the pattern matches: all lines before it do not match |
| Interface.FirstNameMeaning | hpswitch/interface.py:24-29 | no name exactly when no line matches; otherwise the name of a matching line with no match before it |
| Interface.ExtractName | hpswitch/interface.py:24-29 | no name exactly when no line of the output matches; otherwise the name of a matching line with no match before it |
| Interface.NameLineRoundTrip | hpswitch/interface.py:24 | `   name "<n>"` followed by white space reads back as exactly `n`, even when `n` holds quotes or spaces |
| Interface.FirstMatchAfter | hpswitch/interface.py:24 | lines that do not match, put before the output, only shift the first match |
| Interface.ExtractNameRoundTrip | hpswitch/interface.py:19-29 | output whose first name line names `n` yields `n`, whatever lines surround it |
| Interface.SetNameCommands | hpswitch/interface.py:31-41 | an ASCII letter-and-digit name (the empty one included) gives `config`, `interface <id> name <value>`, `exit`; any other name fails the assertion |
| Interface.DelNameCommands | hpswitch/interface.py:47-49 | `config`, then the set command for any valid name with `no ` in front and the name dropped, then `exit` |
| Interface.SetNameReadBack | hpswitch/interface.py:24-41 | a name `_set_name` accepts is read back from the line `   name "<value>"` of the running-config |
| Interface.Interface.constructor | hpswitch/interface.py:8-13 | the interface keeps its switch and identifier |
| Interface.Interface.GetName | hpswitch/interface.py:15-29 | issues `show running-config interface <id>` and returns the name the pattern finds in the output; none exactly when no line of the output matches |
| Interface.Interface.SetName | hpswitch/interface.py:31-41 | a valid name issues exactly the three set commands; an invalid one issues none and fails the assertion |
| Interface.Interface.DelName | hpswitch/interface.py:43-49 | issues exactly `config`, `no interface <id> name`, `exit` |

## Left out

- The SNMP transport and MIB plumbing of `hpswitch/switch.py` (pysnmp command generator, MIB loading, name-to-OID resolution). The agent is the `Mib` record. A set of a modelled column updates that record. Any other set, whatever its number of varbinds (the address adds, and the single-varbind address removals), is recorded as one request in `setRequests`, and its effect on the device's table is not modelled.
- An instance the agent does not hold is a `NoSuchInstance` failure. pysnmp instead hands back a placeholder value, and what the caller then does with it depends on that library.
- The VLAN constructor's create-on-miss (`hpswitch/vlan.py:20-22`): it reads the row status and creates the VLAN on the device. This is device-side row-status behaviour.
- `ipaddress` objects. Addresses are octet sequences plus a prefix length, and the readers stop at the text they would hand to `IPv4Interface`/`IPv6Interface`. The parsing and normalisation that library performs are not modelled.
- The hpicfIpAddressEntry OID prefix, which the MIB resolves, is a 16-component parameter. The two HP IPv6 interface OIDs are constants with the values the source writes.
- `hpswitch/route.py`, `setup.py` and the static-route stubs of `hpswitch/switch.py`: they hold no logic.
- `execute_command` is not defined in `hpswitch/switch.py`. It is a log of commands, and the output `_get_name` searches is a parameter of `Interface.Interface.GetName`.
- Port `_get_name`, `_del_name` and `_get_tagged_vlans` raise NotImplementedError and carry no further behaviour.
- PortList.GetEnabledPorts: returns base-port numbers, not Port objects. `hpswitch/vlan.py:208` names the unbound `port.Port` with a `base_port=` keyword the Port constructor does not accept, so it would raise NameError on the first set bit.
- Port.Port.SetEnabled: models the intended write of ifAdminStatus. `hpswitch/port.py:88` passes the OID and the value to `snmp_set` as two separate arguments instead of one pair, and `snmp_set` unpacks each argument as a pair. What the SNMP library then does is not modelled.
- Port.Port.BasePort: uses the intended arithmetic, because the function port.py binds always raises NameError; the as-written behaviour is `Port.IfIndexForPortIdentifierAsWritten`.
- Vlan.Vlan.SetPortTaggedStatus and Vlan.Vlan.SetPortUntaggedStatus: use the corrected `PortList.SetPortStatus`, so a base port below 1 raises IndexError instead of reaching the negative-index behaviour described under Findings.
- `int()` is modelled as surrounding white space, an optional sign, optional white space after the sign and decimal digits. Digits outside ASCII, which `int()` of a unicode string accepts, are not modelled.
- hpswitch has no interactive command session and no comma/hyphen range-list codec, so none is modelled.

## Findings

| source | as written | input that shows it | evidently intended | confidence | as-written member | corrected member |
|---|---|---|---|---|---|---|
| hpswitch/vlan.py:184-192 | a base port of 0 or below gives a negative byte position, which Python's indexing and slicing accept: ports -7..0 return a list twice as long, and lower ports rewrite an octet counted from the end | port list `[0x00]`, base port 0 (identifier `A0` via the switch's arithmetic), status true gives `[0x01, 0x00]` | IndexError for any base port outside `1..8*len`, as for ports past the end | not executed | PortList.SetPortStatusAsWritten | PortList.SetPortStatus |
| hpswitch/port.py:39-41 | the static method uses the module `string`, which port.py never imports, and then `self`, which a static method does not have, so every identifier raises NameError; `ifindex` and `base_port` inherit this | identifier `A1` | `letterIndex*24 + number` with a 0-based unit, the value `hpswitch/switch.py:42-45` computes | not executed | Port.IfIndexForPortIdentifierAsWritten | Port.IfIndexForPortIdentifier |
| hpswitch/port.py:64 | the check uses the module `string`, which port.py never imports; `map` calls the lambda on every character before `all` sees any, so every non-empty name raises NameError and only the empty name reaches NotImplementedError | names `A1` and `a b` | AssertionError for a name with a character outside ASCII letters and digits, NotImplementedError otherwise | not executed | Port.SetNameAsWritten | Port.SetName |
