/**
 * The switch the library talks to (hpswitch/switch.py): the SNMP objects the
 * other modules read and write, the sink that records CLI commands, and the
 * arithmetic that turns port identifiers and ifindexes into each other.
 *
 * The SNMP transport (pysnmp, MIB loading, OID name resolution) is not part
 * of this model: an `snmp_get` reads one of the maps below, an `snmp_set` of a
 * modelled column replaces one of their entries, and any other set, whatever
 * its number of varbinds, is recorded as a request whose device-side effect
 * is not modelled.
 */
module Switch {
  import opened Runtime

  /** The value of one SNMP varbind: the two integer syntaxes the library writes. */
  datatype Value = Integer(i: int) | Gauge32(g: nat)

  /** A managed object, either by MIB name or by a numeric OID the library spells out. */
  datatype ObjectId = Named(name: string) | Numeric(oid: seq<nat>)

  /** One varbind of an SNMP set request: the object, its index suffix and the value. */
  datatype VarBind = VarBind(object: ObjectId, index: seq<nat>, value: Value)

  /** One row returned by walking a table: its full OID and its value. */
  datatype Row = Row(oid: seq<nat>, value: nat)

  /** The SNMP objects the library reads back, each keyed by its index. */
  datatype Mib = Mib(
    egressPorts: map<nat, seq<bv8>>,    // dot1qVlanStaticEgressPorts, by VLAN id
    untaggedPorts: map<nat, seq<bv8>>,  // dot1qVlanStaticUntaggedPorts, by VLAN id
    pvid: map<int, nat>,                // dot1qPvid, by base port
    vlanNames: map<nat, string>,        // dot1qVlanStaticName, by VLAN id
    adminStatus: map<int, int>,         // ifAdminStatus, by ifindex
    operStatus: map<int, int>,          // ifOperStatus, by ifindex
    ipAddressEntries: seq<Row>          // the walk of hpicfIpAddressEntry
  )

  class Switch {
    /** What `snmp_get` and `snmp_get_subtree` answer. */
    var mib: Mib
    /** Every `snmp_set` not aimed at a modelled column, in order, whatever its number of varbinds; its effect on the device is not modelled. */
    var setRequests: seq<seq<VarBind>>
    /** Every command given to `execute_command`, in order. */
    var commands: seq<string>

    constructor (mib: Mib)
      ensures this.mib == mib && setRequests == [] && commands == []
    {
      this.mib := mib;
      setRequests := [];
      commands := [];
    }

    /** `execute_command`: the command is recorded; its output, where used, is a parameter of the caller. */
    method ExecuteCommand(command: string)
      modifies this
      ensures commands == old(commands) + [command]
      ensures mib == old(mib) && setRequests == old(setRequests)
    {
      commands := commands + [command];
    }

    /** An `snmp_set` not aimed at a modelled column, with one varbind or several: the request is recorded. */
    method SendSet(varBinds: seq<VarBind>)
      modifies this
      ensures setRequests == old(setRequests) + [varBinds]
      ensures mib == old(mib) && commands == old(commands)
    {
      setRequests := setRequests + [varBinds];
    }
  }

  // ---------------------------------------------------------------------------
  // Port locations and ifindexes (switch.py:35-45)
  // ---------------------------------------------------------------------------

  /** Number of ifindexes per stack unit assumed when an ifindex is turned into a location. */
  const IfIndexesPerUnit := 52
  /** Number of ports per stack unit assumed when a location is turned into an ifindex. */
  const PortsPerUnit := 24

  /**
   * `_get_port_location_for_ifindex`: the 1-based (unit, port) pair of an
   * ifindex, with 52 ifindexes per unit. Python's floor division and modulo
   * by 52 are Dafny's `/` and `%` here, so negative ifindexes are covered too.
   */
  function PortLocationForIfIndex(ifindex: int): (location: (int, int))
    ensures (location.0 - 1) * IfIndexesPerUnit + location.1 == ifindex
    ensures 1 <= location.1 <= IfIndexesPerUnit
    ensures location.0 >= 1 <==> ifindex >= 1
  {
    ((ifindex - 1) / IfIndexesPerUnit + 1, (ifindex - 1) % IfIndexesPerUnit + 1)
  }

  /**
   * `_get_ifindex_for_port_location`: a 1-based unit and a port, with 24
   * ports per unit. A port within `1..24` is recovered from the ifindex, as
   * is its unit, by the same floor arithmetic with 24 in place of 52.
   */
  function IfIndexForPortLocation(location: (int, int)): (ifindex: int)
    ensures 1 <= location.1 <= PortsPerUnit ==>
              (ifindex - 1) / PortsPerUnit + 1 == location.0 && (ifindex - 1) % PortsPerUnit + 1 == location.1
  {
    (location.0 - 1) * PortsPerUnit + location.1
  }

  /**
   * `_get_ifindex_for_port_identifier`: the letter names the unit (`A` is
   * unit 1, either case) and the rest is the port number as `int()` reads it.
   * An empty identifier raises IndexError; a first character that is not an
   * ASCII letter, or a rest that is not an integer, raises ValueError.
   */
  function IfIndexForPortIdentifier(identifier: string): (r: Result<int>)
    ensures |identifier| == 0 ==> r == Failure(IndexError)
    ensures |identifier| >= 1 ==>
              (r.Success? <==> IsAsciiLetter(identifier[0]) && ParseInt(identifier[1..]).Success?)
    ensures r.Failure? && |identifier| >= 1 ==> r.error == ValueError
    ensures r.Success? ==>
              r.value == LetterIndex(identifier[0]).value * PortsPerUnit + ParseInt(identifier[1..]).value
  {
    if |identifier| == 0 then Failure(IndexError)
    else
      var unit :- LetterIndex(identifier[0]);
      var port :- ParseInt(identifier[1..]);
      Success(IfIndexForPortLocation((unit + 1, port)))
  }

  /**
   * The two constants disagree (52 ifindexes per unit one way, 24 ports per
   * unit the other), so going from an ifindex to its location and back gives
   * the same ifindex exactly on the first unit.
   */
  lemma LocationRoundTrip(ifindex: int)
    ensures IfIndexForPortLocation(PortLocationForIfIndex(ifindex)) == ifindex <==> 1 <= ifindex <= 52
  {
    var (unit, port) := PortLocationForIfIndex(ifindex);
    assert IfIndexForPortLocation((unit, port)) - ifindex == (unit - 1) * (PortsPerUnit - IfIndexesPerUnit);
  }

  /** The first ifindex of the second unit does not survive the round trip. */
  lemma LocationRoundTripFailsOnSecondUnit()
    ensures PortLocationForIfIndex(53) == (2, 1)
    ensures IfIndexForPortLocation(PortLocationForIfIndex(53)) == 25
  {
  }

  /** The identifier `<letter><number>` denotes `letterIndex * 24 + number`, whatever the case of the letter. */
  lemma IdentifierOfLetterAndNumber(letter: char, number: int)
    requires IsAsciiLetter(letter)
    ensures IfIndexForPortIdentifier([letter] + IntText(number)) ==
              Success(LetterIndex(letter).value * PortsPerUnit + number)
    ensures IfIndexForPortIdentifier([letter] + IntText(number)) ==
              IfIndexForPortIdentifier([Upper(letter)] + IntText(number))
  {
    var text := IntText(number);
    IntTextRoundTrip(number);
    UpperKeepsLetterIndex(letter);
    IdentifierOfLetterAndText(letter, text, number);
    IdentifierOfLetterAndText(Upper(letter), text, number);
  }

  lemma UpperKeepsLetterIndex(letter: char)
    requires IsAsciiLetter(letter)
    ensures IsAsciiLetter(Upper(letter)) && LetterIndex(Upper(letter)) == LetterIndex(letter)
  {
  }

  lemma IdentifierOfLetterAndText(letter: char, text: string, number: int)
    requires IsAsciiLetter(letter) && ParseInt(text) == Success(number)
    ensures IfIndexForPortIdentifier([letter] + text) == Success(LetterIndex(letter).value * PortsPerUnit + number)
  {
    assert ([letter] + text)[1..] == text;
  }
}
