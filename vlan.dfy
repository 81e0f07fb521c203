/**
 * An 802.1Q VLAN of a switch (hpswitch/vlan.py): its name, its tagged and
 * untagged member ports (PortList bitmaps updated by read-modify-write), the
 * port VLAN id written with untagged membership, and its IPv4 and IPv6
 * addresses in hpicfIpAddressTable.
 */
module Vlan {
  import opened Runtime
  import opened PortList
  import opened AddressIndex
  import Switch
  import Port

  /** The characters `_set_name` refuses in a VLAN name. */
  const IllegalNameChars: string := "\"'@#$^&*"

  /** A name `_set_name` accepts: none of the refused characters occurs in it. */
  predicate IsLegalName(value: string)
    ensures IsLegalName(value) <==> forall c | c in IllegalNameChars :: c !in value
  {
    forall i | 0 <= i < |value| :: value[i] !in IllegalNameChars
  }

  /**
   * The new port list of a read-modify-write of one port's bit, or what stops
   * it: no list for the VLAN, a port whose base port cannot be computed, or a
   * base port outside the list.
   */
  function UpdatedPortList(lists: map<nat, seq<bv8>>, vid: nat, basePort: Result<int>, status: bool): Result<seq<bv8>>
  {
    if vid !in lists then Failure(NoSuchInstance)
    else
      var p :- basePort;
      SetPortStatus(lists[vid], p, status)
  }

  /** A successful read-modify-write sets the port's bit to `status` and leaves every other port as it was. */
  lemma UpdatedPortListMembers(lists: map<nat, seq<bv8>>, vid: nat, basePort: Result<int>, status: bool)
    requires UpdatedPortList(lists, vid, basePort, status).Success?
    ensures basePort.Success? && vid in lists
    ensures basePort.value in EnabledPorts(UpdatedPortList(lists, vid, basePort, status).value) <==> status
    ensures forall q | q != basePort.value ::
              q in EnabledPorts(UpdatedPortList(lists, vid, basePort, status).value) <==> q in EnabledPorts(lists[vid])
  {
    forall q
      ensures q in EnabledPorts(UpdatedPortList(lists, vid, basePort, status).value) <==>
                if q == basePort.value then status else q in EnabledPorts(lists[vid])
    {
      EnabledPortsAfterSet(lists[vid], basePort.value, status, q);
    }
  }

  class Vlan {
    const switch: Switch.Switch
    const vid: nat

    /** The VLAN with id `vid` on `switch`; creating it on the switch when missing is not modelled. */
    constructor (switch: Switch.Switch, vid: nat)
      ensures this.switch == switch && this.vid == vid
    {
      this.switch := switch;
      this.vid := vid;
    }

    /** The `ifindex` property. */
    function IfIndex(): nat
    {
      VlanIfIndex(vid)
    }

    /** `_get_name`: dot1qVlanStaticName of the VLAN. */
    method GetName() returns (r: Result<string>)
      ensures r.Success? <==> vid in switch.mib.vlanNames
      ensures r.Success? ==> r.value == switch.mib.vlanNames[vid]
      ensures r.Failure? ==> r.error == NoSuchInstance
    {
      if vid !in switch.mib.vlanNames {
        return Failure(NoSuchInstance);
      }
      r := Success(switch.mib.vlanNames[vid]);
    }

    /** `_set_name`: a name holding none of the refused characters becomes dot1qVlanStaticName; any other fails the assertion. */
    method SetName(value: string) returns (o: Outcome)
      modifies switch
      ensures o.Pass? <==> IsLegalName(value)
      ensures o.Fail? ==> o.error == AssertionError && switch.mib == old(switch.mib)
      ensures o.Pass? ==> switch.mib == old(switch.mib).(vlanNames := old(switch.mib.vlanNames)[vid := value])
      ensures switch.commands == old(switch.commands) && switch.setRequests == old(switch.setRequests)
    {
      if !IsLegalName(value) {
        return Fail(AssertionError);
      }
      switch.mib := switch.mib.(vlanNames := switch.mib.vlanNames[vid := value]);
      o := Pass;
    }

    // -------------------------------------------------------------------------
    // Addresses
    // -------------------------------------------------------------------------

    /** `_get_ipv4_addresses`: the interface texts of the IPv4 prefix-length rows of this VLAN's ifindex. */
    method GetIpv4Addresses() returns (r: Result<seq<string>>)
      ensures r == Ipv4Addresses(switch.mib.ipAddressEntries, IfIndex())
    {
      var rows := switch.mib.ipAddressEntries;
      var kept :- SelectRows(rows, IfIndex(), TypeTag(IPv4));
      var addresses: seq<string> := [];
      for k := 0 to |kept|
        invariant |addresses| == k
        invariant forall j | 0 <= j < k :: addresses[j] == Ipv4InterfaceText(kept[j])
      {
        var entry := DottedText(Last(kept[k].oid, 4)) + "/" + IntText(kept[k].value);
        Ipv4TextsStep(addresses, kept, entry);
        addresses := addresses + [entry];
      }
      Ipv4TextsComplete(addresses, kept);
      r := Success(addresses);
    }

    /** `_get_ipv6_addresses`: the interface texts of the IPv6 prefix-length rows of this VLAN's ifindex. */
    method GetIpv6Addresses() returns (r: Result<seq<string>>)
      ensures r == Ipv6Addresses(switch.mib.ipAddressEntries, IfIndex())
    {
      var rows := switch.mib.ipAddressEntries;
      var kept :- SelectRows(rows, IfIndex(), TypeTag(IPv6));
      var addresses: seq<string> := [];
      for k := 0 to |kept|
        invariant |addresses| == k
        invariant forall j | 0 <= j < k :: addresses[j] == Ipv6InterfaceText(kept[j])
      {
        var entry := RowIpv6InterfaceText(kept[k]);
        Ipv6TextsStep(addresses, kept, entry);
        addresses := addresses + [entry];
      }
      Ipv6TextsComplete(addresses, kept);
      r := Success(addresses);
    }

    /** `add_ipv4_address`: one set request enabling IPv4 on the VLAN and creating the address row. */
    method AddIpv4Address(address: InterfaceAddress)
      requires |address.octets| == 4
      modifies switch
      ensures switch.setRequests == old(switch.setRequests) + [AddIpv4AddressRequest(vid, address)]
      ensures switch.mib == old(switch.mib) && switch.commands == old(switch.commands)
    {
      switch.SendSet(AddIpv4AddressRequest(vid, address));
    }

    /** `remove_ipv4_address`: one set request destroying the address row. */
    method RemoveIpv4Address(address: InterfaceAddress)
      requires |address.octets| == 4
      modifies switch
      ensures switch.setRequests == old(switch.setRequests) + [RemoveAddressRequest(vid, IPv4, address)]
      ensures switch.mib == old(switch.mib) && switch.commands == old(switch.commands)
    {
      switch.SendSet(RemoveAddressRequest(vid, IPv4, address));
    }

    /** `add_ipv6_address`: one set request enabling IPv6 on the VLAN and creating the address row. */
    method AddIpv6Address(address: InterfaceAddress)
      requires |address.octets| == 16
      modifies switch
      ensures switch.setRequests == old(switch.setRequests) + [AddIpv6AddressRequest(vid, address)]
      ensures switch.mib == old(switch.mib) && switch.commands == old(switch.commands)
    {
      switch.SendSet(AddIpv6AddressRequest(vid, address));
    }

    /** `remove_ipv6_address`: one set request destroying the address row. */
    method RemoveIpv6Address(address: InterfaceAddress)
      requires |address.octets| == 16
      modifies switch
      ensures switch.setRequests == old(switch.setRequests) + [RemoveAddressRequest(vid, IPv6, address)]
      ensures switch.mib == old(switch.mib) && switch.commands == old(switch.commands)
    {
      switch.SendSet(RemoveAddressRequest(vid, IPv6, address));
    }

    // -------------------------------------------------------------------------
    // Port membership
    // -------------------------------------------------------------------------

    /** `_get_tagged_ports`: the base ports of the egress port list, ascending. */
    method GetTaggedPorts() returns (r: Result<seq<int>>)
      ensures r.Success? <==> vid in switch.mib.egressPorts
      ensures r.Failure? ==> r.error == NoSuchInstance
      ensures r.Success? ==> r.value == EnabledPorts(switch.mib.egressPorts[vid])
      ensures r.Success? ==> forall p :: p in r.value <==> HasPort(switch.mib.egressPorts[vid], p)
    {
      if vid !in switch.mib.egressPorts {
        return Failure(NoSuchInstance);
      }
      var ports := GetEnabledPorts(switch.mib.egressPorts[vid]);
      r := Success(ports);
    }

    /** `_get_untagged_ports`: the base ports of the untagged port list, ascending. */
    method GetUntaggedPorts() returns (r: Result<seq<int>>)
      ensures r.Success? <==> vid in switch.mib.untaggedPorts
      ensures r.Failure? ==> r.error == NoSuchInstance
      ensures r.Success? ==> r.value == EnabledPorts(switch.mib.untaggedPorts[vid])
      ensures r.Success? ==> forall p :: p in r.value <==> HasPort(switch.mib.untaggedPorts[vid], p)
    {
      if vid !in switch.mib.untaggedPorts {
        return Failure(NoSuchInstance);
      }
      var ports := GetEnabledPorts(switch.mib.untaggedPorts[vid]);
      r := Success(ports);
    }

    /** `_set_port_tagged_status`: read the egress list, set the port's bit, write the list back. */
    method SetPortTaggedStatus(port: Port.Port, status: bool) returns (o: Outcome)
      modifies switch
      ensures var update := UpdatedPortList(old(switch.mib.egressPorts), vid, port.BasePort(), status);
              && (update.Failure? ==> o == Fail(update.error) && switch.mib == old(switch.mib))
              && (update.Success? ==>
                    o == Pass &&
                    switch.mib == old(switch.mib).(egressPorts := old(switch.mib.egressPorts)[vid := update.value]))
      ensures switch.commands == old(switch.commands) && switch.setRequests == old(switch.setRequests)
    {
      var update := UpdatedPortList(switch.mib.egressPorts, vid, port.BasePort(), status);
      if update.Failure? {
        return Fail(update.error);
      }
      switch.mib := switch.mib.(egressPorts := switch.mib.egressPorts[vid := update.value]);
      o := Pass;
    }

    /**
     * `_set_port_untagged_status`: read the untagged list, set the port's bit,
     * write the list back, then write this VLAN's id as the port's PVID, for a
     * removal as much as for an addition.
     */
    method SetPortUntaggedStatus(port: Port.Port, status: bool) returns (o: Outcome)
      modifies switch
      ensures var update := UpdatedPortList(old(switch.mib.untaggedPorts), vid, port.BasePort(), status);
              && (update.Failure? ==> o == Fail(update.error) && switch.mib == old(switch.mib))
              && (update.Success? ==>
                    o == Pass &&
                    switch.mib == old(switch.mib).(untaggedPorts := old(switch.mib.untaggedPorts)[vid := update.value],
                                                   pvid := old(switch.mib.pvid)[port.BasePort().value := vid]))
      ensures switch.commands == old(switch.commands) && switch.setRequests == old(switch.setRequests)
    {
      var update := UpdatedPortList(switch.mib.untaggedPorts, vid, port.BasePort(), status);
      if update.Failure? {
        return Fail(update.error);
      }
      switch.mib := switch.mib.(untaggedPorts := switch.mib.untaggedPorts[vid := update.value]);
      switch.mib := switch.mib.(pvid := switch.mib.pvid[port.BasePort().value := vid]);
      o := Pass;
    }

    /** `add_tagged_port`: afterwards the port is a tagged member and no other port's membership changed. */
    method AddTaggedPort(port: Port.Port) returns (o: Outcome)
      modifies switch
      ensures o.Pass? <==> UpdatedPortList(old(switch.mib.egressPorts), vid, port.BasePort(), true).Success?
      ensures o.Fail? ==> switch.mib == old(switch.mib)
      ensures o.Pass? ==>
                && port.BasePort().Success? && vid in switch.mib.egressPorts
                && port.BasePort().value in EnabledPorts(switch.mib.egressPorts[vid])
                && (forall q | q != port.BasePort().value ::
                      q in EnabledPorts(switch.mib.egressPorts[vid]) <==> q in EnabledPorts(old(switch.mib.egressPorts[vid])))
                && |switch.mib.egressPorts[vid]| == |old(switch.mib.egressPorts[vid])|
                && switch.mib == old(switch.mib).(egressPorts := old(switch.mib.egressPorts)[vid :=
                     UpdatedPortList(old(switch.mib.egressPorts), vid, port.BasePort(), true).value])
      ensures switch.commands == old(switch.commands) && switch.setRequests == old(switch.setRequests)
    {
      ghost var before := switch.mib.egressPorts;
      o := SetPortTaggedStatus(port, true);
      if o.Pass? {
        UpdatedPortListMembers(before, vid, port.BasePort(), true);
      }
    }

    /** `remove_tagged_port`: afterwards the port is not a tagged member and no other port's membership changed. */
    method RemoveTaggedPort(port: Port.Port) returns (o: Outcome)
      modifies switch
      ensures o.Pass? <==> UpdatedPortList(old(switch.mib.egressPorts), vid, port.BasePort(), false).Success?
      ensures o.Fail? ==> switch.mib == old(switch.mib)
      ensures o.Pass? ==>
                && port.BasePort().Success? && vid in switch.mib.egressPorts
                && port.BasePort().value !in EnabledPorts(switch.mib.egressPorts[vid])
                && (forall q | q != port.BasePort().value ::
                      q in EnabledPorts(switch.mib.egressPorts[vid]) <==> q in EnabledPorts(old(switch.mib.egressPorts[vid])))
                && |switch.mib.egressPorts[vid]| == |old(switch.mib.egressPorts[vid])|
                && switch.mib == old(switch.mib).(egressPorts := old(switch.mib.egressPorts)[vid :=
                     UpdatedPortList(old(switch.mib.egressPorts), vid, port.BasePort(), false).value])
      ensures switch.commands == old(switch.commands) && switch.setRequests == old(switch.setRequests)
    {
      ghost var before := switch.mib.egressPorts;
      o := SetPortTaggedStatus(port, false);
      if o.Pass? {
        UpdatedPortListMembers(before, vid, port.BasePort(), false);
      }
    }

    /** `add_untagged_port`: afterwards the port is an untagged member with this VLAN as its PVID. */
    method AddUntaggedPort(port: Port.Port) returns (o: Outcome)
      modifies switch
      ensures o.Pass? <==> UpdatedPortList(old(switch.mib.untaggedPorts), vid, port.BasePort(), true).Success?
      ensures o.Fail? ==> switch.mib == old(switch.mib)
      ensures o.Pass? ==>
                && port.BasePort().Success? && vid in switch.mib.untaggedPorts
                && port.BasePort().value in EnabledPorts(switch.mib.untaggedPorts[vid])
                && (forall q | q != port.BasePort().value ::
                      q in EnabledPorts(switch.mib.untaggedPorts[vid]) <==> q in EnabledPorts(old(switch.mib.untaggedPorts[vid])))
                && |switch.mib.untaggedPorts[vid]| == |old(switch.mib.untaggedPorts[vid])|
                && switch.mib.pvid == old(switch.mib.pvid)[port.BasePort().value := vid]
                && switch.mib == old(switch.mib).(untaggedPorts := old(switch.mib.untaggedPorts)[vid :=
                     UpdatedPortList(old(switch.mib.untaggedPorts), vid, port.BasePort(), true).value],
                                                  pvid := old(switch.mib.pvid)[port.BasePort().value := vid])
      ensures switch.commands == old(switch.commands) && switch.setRequests == old(switch.setRequests)
    {
      ghost var before := switch.mib.untaggedPorts;
      o := SetPortUntaggedStatus(port, true);
      if o.Pass? {
        UpdatedPortListMembers(before, vid, port.BasePort(), true);
      }
    }

    /** `remove_untagged_port`: afterwards the port is not an untagged member, yet its PVID is this VLAN. */
    method RemoveUntaggedPort(port: Port.Port) returns (o: Outcome)
      modifies switch
      ensures o.Pass? <==> UpdatedPortList(old(switch.mib.untaggedPorts), vid, port.BasePort(), false).Success?
      ensures o.Fail? ==> switch.mib == old(switch.mib)
      ensures o.Pass? ==>
                && port.BasePort().Success? && vid in switch.mib.untaggedPorts
                && port.BasePort().value !in EnabledPorts(switch.mib.untaggedPorts[vid])
                && (forall q | q != port.BasePort().value ::
                      q in EnabledPorts(switch.mib.untaggedPorts[vid]) <==> q in EnabledPorts(old(switch.mib.untaggedPorts[vid])))
                && |switch.mib.untaggedPorts[vid]| == |old(switch.mib.untaggedPorts[vid])|
                && switch.mib.pvid == old(switch.mib.pvid)[port.BasePort().value := vid]
                && switch.mib == old(switch.mib).(untaggedPorts := old(switch.mib.untaggedPorts)[vid :=
                     UpdatedPortList(old(switch.mib.untaggedPorts), vid, port.BasePort(), false).value],
                                                  pvid := old(switch.mib.pvid)[port.BasePort().value := vid])
      ensures switch.commands == old(switch.commands) && switch.setRequests == old(switch.setRequests)
    {
      ghost var before := switch.mib.untaggedPorts;
      o := SetPortUntaggedStatus(port, false);
      if o.Pass? {
        UpdatedPortListMembers(before, vid, port.BasePort(), false);
      }
    }
  }
}
