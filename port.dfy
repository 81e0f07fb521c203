/**
 * A physical port of a switch (hpswitch/port.py): its identifier (a unit
 * letter and a port number, such as `A5`), the ifindex and bridge base port
 * that identifier stands for, and the admin and operational status read and
 * written through SNMP.
 */
module Port {
  import opened Runtime
  import Switch

  /**
   * `Port._get_ifindex_for_port_location`: a 0-based unit and a port, 24 ports
   * per unit. It is the switch's function shifted by one unit, and a port
   * within `1..24` is recovered from the ifindex with its 0-based unit.
   */
  function IfIndexForPortLocation(location: (int, int)): (ifindex: int)
    ensures ifindex == Switch.IfIndexForPortLocation((location.0 + 1, location.1))
    ensures 1 <= location.1 <= Switch.PortsPerUnit ==>
              (ifindex - 1) / Switch.PortsPerUnit == location.0 && (ifindex - 1) % Switch.PortsPerUnit + 1 == location.1
  {
    location.0 * Switch.PortsPerUnit + location.1
  }

  /**
   * `Port._get_ifindex_for_port_identifier` as written: the body looks up the
   * module `string`, which port.py never imports, before anything else, so
   * every call raises NameError (and the `self` it would reach next is not
   * bound in a static method either).
   */
  function IfIndexForPortIdentifierAsWritten(identifier: string): (r: Result<int>)
    ensures r.Failure? && r.error == NameError
  {
    Failure(NameError)
  }

  /**
   * `Port._get_ifindex_for_port_identifier` as intended: the letter gives the
   * 0-based unit (`A` is 0, either case) and the rest the port number, so the
   * value is `letterIndex * 24 + number`, the same as the switch computes.
   */
  function IfIndexForPortIdentifier(identifier: string): (r: Result<int>)
    ensures |identifier| == 0 ==> r == Failure(IndexError)
    ensures |identifier| >= 1 ==>
              (r.Success? <==> IsAsciiLetter(identifier[0]) && ParseInt(identifier[1..]).Success?)
    ensures r.Success? ==>
              r.value == LetterIndex(identifier[0]).value * Switch.PortsPerUnit + ParseInt(identifier[1..]).value
    ensures r == Switch.IfIndexForPortIdentifier(identifier)
  {
    if |identifier| == 0 then Failure(IndexError)
    else
      var unit :- LetterIndex(identifier[0]);
      var port :- ParseInt(identifier[1..]);
      Success(IfIndexForPortLocation((unit, port)))
  }

  /** The defect shows on the plainest identifier: `A1` raises instead of giving 1. */
  lemma IdentifierAsWrittenRaises()
    ensures IfIndexForPortIdentifierAsWritten("A1") == Failure(NameError)
    ensures IfIndexForPortIdentifier("A1") == Success(1)
  {
    Switch.IdentifierOfLetterAndNumber('A', 1);
    assert IntText(1) == "1";
    assert ['A'] + "1" == "A1";
  }

  /** `ifAdminStatus`/`ifOperStatus` read as a boolean: up is 1. */
  predicate IsUp(status: int)
  {
    status == 1
  }

  /** The ifAdminStatus value `_set_enabled` writes: 1 (up) for true, 2 (down) for false. */
  function AdminStatusFor(enabled: bool): (status: int)
    ensures status == 1 || status == 2
    ensures IsUp(status) == enabled
  {
    if enabled then 1 else 2
  }

  /**
   * `_set_name` as written: the check looks up the module `string`, which
   * port.py never imports. `map` calls the lambda on every character before
   * `all` sees a result, so a name of one or more characters raises NameError
   * on its first character; only the empty name gets through the check, to
   * the NotImplementedError that follows it.
   */
  function SetNameAsWritten(value: string): (outcome: Outcome)
    ensures outcome.Fail?
    ensures outcome.error == NameError <==> |value| >= 1
    ensures outcome.error == NotImplementedError <==> value == []
  {
    if |value| >= 1 then Fail(NameError) else Fail(NotImplementedError)
  }

  /**
   * `_set_name` as intended, with `string` imported as interface.py does: the
   * name must consist of ASCII letters and digits (the empty name passes),
   * otherwise the assertion fails. The body then raises NotImplementedError,
   * so nothing is ever written.
   */
  function SetName(value: string): (outcome: Outcome)
    ensures outcome.Fail?
    ensures outcome.error == AssertionError <==> !AllAsciiAlnum(value)
    ensures outcome.error == NotImplementedError <==> AllAsciiAlnum(value)
  {
    if AllAsciiAlnum(value) then Fail(NotImplementedError) else Fail(AssertionError)
  }

  /** The two readings of `_set_name` agree on the empty name only. */
  lemma SetNameAsWrittenDiffers(value: string)
    ensures SetNameAsWritten(value) == SetName(value) <==> value == []
  {
    if value != [] {
      assert SetNameAsWritten(value).error == NameError;
    }
  }

  /** A legal name and an illegal one both raise NameError as written. */
  lemma SetNameAsWrittenExamples()
    ensures SetNameAsWritten("A1") == Fail(NameError) && SetName("A1") == Fail(NotImplementedError)
    ensures SetNameAsWritten("a b") == Fail(NameError) && SetName("a b") == Fail(AssertionError)
  {
    assert IsAsciiAlnum('A') && IsAsciiAlnum('1');
    assert !IsAsciiAlnum("a b"[1]);
  }

  class Port {
    const switch: Switch.Switch
    const identifier: string

    constructor (switch: Switch.Switch, identifier: string)
      ensures this.switch == switch && this.identifier == identifier
    {
      this.switch := switch;
      this.identifier := identifier;
    }

    /** The `ifindex` property. */
    function IfIndex(): Result<int>
    {
      IfIndexForPortIdentifier(identifier)
    }

    /** The `base_port` property (the dot1dBasePortEntry index): port.py binds it to the same function as `ifindex`. */
    function BasePort(): (r: Result<int>)
      ensures r == IfIndex()
    {
      IfIndexForPortIdentifier(identifier)
    }

    /** `_get_enabled`: true exactly when ifAdminStatus of the port's ifindex is 1. */
    method GetEnabled() returns (r: Result<bool>)
      ensures r.Success? <==> IfIndex().Success? && IfIndex().value in switch.mib.adminStatus
      ensures IfIndex().Failure? ==> r == Failure(IfIndex().error)
      ensures r.Success? ==> (r.value <==> switch.mib.adminStatus[IfIndex().value] == 1)
    {
      var ifindex :- IfIndex();
      if ifindex !in switch.mib.adminStatus {
        return Failure(NoSuchInstance);
      }
      r := Success(IsUp(switch.mib.adminStatus[ifindex]));
    }

    /** `_set_enabled`: ifAdminStatus of the port's ifindex becomes 1 for true and 2 for false. */
    method SetEnabled(value: bool) returns (o: Outcome)
      modifies switch
      ensures IfIndex().Failure? ==> o == Fail(IfIndex().error) && switch.mib == old(switch.mib)
      ensures IfIndex().Success? ==>
                o == Pass &&
                switch.mib == old(switch.mib).(adminStatus := old(switch.mib.adminStatus)[IfIndex().value := AdminStatusFor(value)])
      ensures IfIndex().Success? ==> IsUp(switch.mib.adminStatus[IfIndex().value]) == value
      ensures switch.commands == old(switch.commands) && switch.setRequests == old(switch.setRequests)
    {
      var r := IfIndex();
      if r.Failure? {
        return Fail(r.error);
      }
      switch.mib := switch.mib.(adminStatus := switch.mib.adminStatus[r.value := AdminStatusFor(value)]);
      o := Pass;
    }

    /** `_get_operational`: true exactly when ifOperStatus of the port's ifindex is 1. */
    method GetOperational() returns (r: Result<bool>)
      ensures r.Success? <==> IfIndex().Success? && IfIndex().value in switch.mib.operStatus
      ensures IfIndex().Failure? ==> r == Failure(IfIndex().error)
      ensures r.Success? ==> (r.value <==> switch.mib.operStatus[IfIndex().value] == 1)
    {
      var ifindex :- IfIndex();
      if ifindex !in switch.mib.operStatus {
        return Failure(NoSuchInstance);
      }
      r := Success(IsUp(switch.mib.operStatus[ifindex]));
    }

    /** `_get_untagged_vlan`: dot1qPvid of the port's base port. */
    method GetUntaggedVlan() returns (r: Result<nat>)
      ensures r.Success? <==> BasePort().Success? && BasePort().value in switch.mib.pvid
      ensures BasePort().Failure? ==> r == Failure(BasePort().error)
      ensures r.Success? ==> r.value == switch.mib.pvid[BasePort().value]
    {
      var basePort :- BasePort();
      if basePort !in switch.mib.pvid {
        return Failure(NoSuchInstance);
      }
      r := Success(switch.mib.pvid[basePort]);
    }
  }
}
