/**
 * The PortList bitmap of the Q-BRIDGE-MIB (RFC 4363) as hpswitch/vlan.py
 * reads and writes it: one bit per port, octet `i` covering ports
 * `8i+1 .. 8i+8`, the most significant bit standing for the lowest port.
 * The list is a Python 2 byte string; here a sequence of octets.
 */
module PortList {
  import opened Runtime
  import opened Octet

  /** The octet that holds port `p`. */
  function ByteOf(p: int): int
  {
    (p - 1) / 8
  }

  /** The bit within its octet that holds port `p`. */
  function BitOf(p: int): (k: nat)
    ensures k < 8
  {
    7 - (p - 1) % 8
  }

  /** Port `p` is in the list: it lies within the list and its bit is set. */
  predicate HasPort(portList: seq<bv8>, p: int)
  {
    1 <= p <= 8 * |portList| && portList[ByteOf(p)] & Mask(BitOf(p)) != 0
  }

  /** Distinct ports of the same octet use distinct bits. */
  lemma DistinctPortsDistinctBits(p: int, q: int)
    requires p != q && ByteOf(p) == ByteOf(q)
    ensures BitOf(p) != BitOf(q)
  {
  }

  /**
   * `_set_port_list_port_status` for the ports it is meant for: a new list,
   * identical to `portList` except that the bit of `basePort` is `status`.
   * A port past the end of the list raises IndexError, as the byte access
   * does; so does a port below 1 (see `SetPortStatusAsWritten`).
   */
  function SetPortStatus(portList: seq<bv8>, basePort: int, status: bool): (r: Result<seq<bv8>>)
    ensures r.Success? <==> 1 <= basePort <= 8 * |portList|
    ensures r.Failure? ==> r.error == IndexError
    ensures r.Success? ==> |r.value| == |portList|
    ensures r.Success? ==>
              forall i | 0 <= i < |portList| && i != ByteOf(basePort) :: r.value[i] == portList[i]
    ensures r.Success? ==>
              forall k | 0 <= k < 8 && k != BitOf(basePort) ::
                r.value[ByteOf(basePort)] & Mask(k) == portList[ByteOf(basePort)] & Mask(k)
    ensures r.Success? ==> HasPort(r.value, basePort) == status
    ensures r.Success? ==> forall q | q != basePort :: HasPort(r.value, q) == HasPort(portList, q)
  {
    if 1 <= basePort <= 8 * |portList| then
      var updated := WithOctetBit(portList, ByteOf(basePort), BitOf(basePort), status);
      UpdateTouchesOnlyItsPort(portList, basePort, status, updated);
      Success(updated)
    else Failure(IndexError)
  }

  /** `port_list[:i] + newbyte + port_list[i + 1:]` with bit `k` of octet `i` forced to `status`. */
  function WithOctetBit(portList: seq<bv8>, i: nat, k: nat, status: bool): seq<bv8>
    requires i < |portList| && k < 8
  {
    portList[..i] + [WithBit(portList[i], k, status)] + portList[i + 1..]
  }

  /** Forcing the same bit twice leaves what the second forcing says. */
  lemma WithOctetBitTwice(portList: seq<bv8>, i: nat, k: nat, first: bool, second: bool)
    requires i < |portList| && k < 8
    ensures WithOctetBit(WithOctetBit(portList, i, k, first), i, k, second) == WithOctetBit(portList, i, k, second)
  {
    var once := WithOctetBit(portList, i, k, first);
    assert once[..i] == portList[..i] && once[i + 1..] == portList[i + 1..];
    WithBitTwice(portList[i], k, first, second);
  }

  /** Replacing the octet of `basePort` by the octet with its bit forced changes that port and no other. */
  lemma UpdateTouchesOnlyItsPort(portList: seq<bv8>, basePort: int, status: bool, updated: seq<bv8>)
    requires 1 <= basePort <= 8 * |portList|
    requires updated == WithOctetBit(portList, ByteOf(basePort), BitOf(basePort), status)
    ensures |updated| == |portList|
    ensures forall i | 0 <= i < |portList| && i != ByteOf(basePort) :: updated[i] == portList[i]
    ensures updated[ByteOf(basePort)] == WithBit(portList[ByteOf(basePort)], BitOf(basePort), status)
    ensures HasPort(updated, basePort) == status
    ensures forall q | q != basePort :: HasPort(updated, q) == HasPort(portList, q)
  {
    PortsOfUpdatedOctet(portList, basePort, status, updated);
  }

  /** The port-level reading of an update that replaced one octet. */
  lemma PortsOfUpdatedOctet(portList: seq<bv8>, basePort: int, status: bool, updated: seq<bv8>)
    requires 1 <= basePort <= 8 * |portList|
    requires |updated| == |portList|
    requires forall i | 0 <= i < |portList| && i != ByteOf(basePort) :: updated[i] == portList[i]
    requires updated[ByteOf(basePort)] == WithBit(portList[ByteOf(basePort)], BitOf(basePort), status)
    ensures HasPort(updated, basePort) == status
    ensures forall q | q != basePort :: HasPort(updated, q) == HasPort(portList, q)
  {
    ByteOfInRange(basePort, |portList|);
    WithBitBits(portList[ByteOf(basePort)], BitOf(basePort), status);
    forall q | q != basePort
      ensures HasPort(updated, q) == HasPort(portList, q)
    {
      OtherPortOfUpdatedOctet(portList, basePort, status, updated, q);
    }
  }

  /** The octet of a port within the list lies within the list. */
  lemma ByteOfInRange(p: int, n: nat)
    requires 1 <= p <= 8 * n
    ensures 0 <= ByteOf(p) < n
  {
  }

  /** One port other than `basePort` keeps its membership through the update. */
  lemma OtherPortOfUpdatedOctet(portList: seq<bv8>, basePort: int, status: bool, updated: seq<bv8>, q: int)
    requires 1 <= basePort <= 8 * |portList| && q != basePort
    requires |updated| == |portList|
    requires forall i | 0 <= i < |portList| && i != ByteOf(basePort) :: updated[i] == portList[i]
    requires updated[ByteOf(basePort)] == WithBit(portList[ByteOf(basePort)], BitOf(basePort), status)
    ensures HasPort(updated, q) == HasPort(portList, q)
  {
    if 1 <= q <= 8 * |portList| {
      ByteOfInRange(q, |portList|);
      if ByteOf(q) == ByteOf(basePort) {
        NeighbourInUpdatedOctet(portList, basePort, status, updated, q);
      } else {
        SameOctetBit(portList, updated, q, ByteOf(q), BitOf(q));
      }
    }
  }

  /** A port sharing the octet of `basePort` keeps its membership through the update. */
  lemma NeighbourInUpdatedOctet(portList: seq<bv8>, basePort: int, status: bool, updated: seq<bv8>, q: int)
    requires 1 <= basePort <= 8 * |portList| && 1 <= q <= 8 * |portList|
    requires q != basePort && ByteOf(q) == ByteOf(basePort)
    requires |updated| == |portList|
    requires updated[ByteOf(basePort)] == WithBit(portList[ByteOf(basePort)], BitOf(basePort), status)
    ensures HasPort(updated, q) == HasPort(portList, q)
  {
    var i, j, k := ByteOf(q), BitOf(q), BitOf(basePort);
    ByteOfInRange(q, |portList|);
    DistinctPortsDistinctBits(q, basePort);
    NeighbourBit(portList, updated, i, j, k, status);
    SameOctetBit(portList, updated, q, i, j);
  }

  /** Bit `j` of octet `i` is the same in `b` as in `a` when that octet of `b` is the one of `a` with another bit forced. */
  lemma NeighbourBit(a: seq<bv8>, b: seq<bv8>, i: int, j: nat, k: nat, status: bool)
    requires 0 <= i < |a| == |b| && j < 8 && k < 8 && j != k
    requires b[i] == WithBit(a[i], k, status)
    ensures (b[i] & Mask(j) != 0) == (a[i] & Mask(j) != 0)
  {
    OctetOtherBit(a[i], k, status, j);
  }

  /** A port whose octet reads the same bit in two lists of one length is in both or in neither. */
  lemma SameOctetBit(a: seq<bv8>, b: seq<bv8>, q: int, i: int, j: nat)
    requires |a| == |b| && 1 <= q <= 8 * |a|
    requires i == ByteOf(q) && 0 <= i < |a| && j == BitOf(q)
    requires (a[i] & Mask(j) != 0) == (b[i] & Mask(j) != 0)
    ensures HasPort(a, q) == HasPort(b, q)
  {
  }

  /**
   * `_set_port_list_port_status` as written, with Python's negative indexing
   * and slicing. A port below 1 gives a negative byte position: `port_list[-1]`
   * and the slice `port_list[0:]` then stand for the last octet and the whole
   * list, and for another negative position the update lands on an octet
   * counted from the end.
   */
  function SetPortStatusAsWritten(portList: seq<bv8>, basePort: int, status: bool): (r: Result<seq<bv8>>)
    ensures r.Success? <==> -8 * |portList| < basePort <= 8 * |portList|
    ensures r.Failure? ==> r.error == IndexError
  {
    var bytePosition := (basePort - 1) / 8;
    var bitPosition := 7 - (basePort - 1) % 8;
    match Index(|portList|, bytePosition)
    case None => Failure(IndexError)
    case Some(i) =>
      var newByte := WithBit(portList[i], bitPosition, status);
      Success(SliceTo(portList, bytePosition) + [newByte] + SliceFrom(portList, bytePosition + 1))
  }

  /** On the ports the list covers, the code as written does what it is meant to. */
  lemma AsWrittenAgreesOnListedPorts(portList: seq<bv8>, basePort: int, status: bool)
    requires 1 <= basePort <= 8 * |portList|
    ensures SetPortStatusAsWritten(portList, basePort, status) == SetPortStatus(portList, basePort, status)
  {
  }

  /**
   * Ports -7 .. 0 (the identifier `A0` has base port 0) make the code as
   * written return a list twice as long: everything but the last octet, the
   * updated last octet, then the whole original list again.
   */
  lemma AsWrittenDoublesListBelowPortOne(portList: seq<bv8>, basePort: int, status: bool)
    requires |portList| >= 1 && -7 <= basePort <= 0
    ensures SetPortStatusAsWritten(portList, basePort, status).Success?
    ensures |SetPortStatusAsWritten(portList, basePort, status).value| == 2 * |portList|
    ensures SetPortStatus(portList, basePort, status) == Failure(IndexError)
  {
    assert (basePort - 1) / 8 == -1;
  }

  /** A concrete instance: port 0 on a one-octet list. */
  lemma AsWrittenPortZeroExample()
    ensures SetPortStatusAsWritten([0x00], 0, true) == Success([0x01, 0x00])
  {
    var portList: seq<bv8> := [0x00];
    assert (0 - 1) / 8 == -1 && 7 - (0 - 1) % 8 == 0;
    assert Index(1, -1) == Some(0);
    assert WithBit(0x00, 0, true) == 0x01 by { assert Mask(0) == 0x01; }
    assert SliceTo(portList, -1) == [] && SliceFrom(portList, 0) == portList;
    assert SetPortStatusAsWritten(portList, 0, true) ==
             Success(SliceTo(portList, -1) + [WithBit(portList[0], 0, true)] + SliceFrom(portList, 0));
    assert SliceTo(portList, -1) + [WithBit(portList[0], 0, true)] + SliceFrom(portList, 0) == [0x01, 0x00];
  }

  // ---------------------------------------------------------------------------
  // Setting a bit: idempotence and overwriting
  // ---------------------------------------------------------------------------

  /** A later update of the same port overwrites an earlier one: the last status wins. */
  lemma SetPortStatusLastWins(portList: seq<bv8>, basePort: int, first: bool, second: bool)
    requires SetPortStatus(portList, basePort, first).Success?
    ensures SetPortStatus(SetPortStatus(portList, basePort, first).value, basePort, second) ==
              SetPortStatus(portList, basePort, second)
  {
    WithOctetBitTwice(portList, ByteOf(basePort), BitOf(basePort), first, second);
  }

  /** Setting the same bit to the same value twice is the same as once. */
  lemma SetPortStatusIdempotent(portList: seq<bv8>, basePort: int, status: bool)
    requires SetPortStatus(portList, basePort, status).Success?
    ensures SetPortStatus(SetPortStatus(portList, basePort, status).value, basePort, status) ==
              SetPortStatus(portList, basePort, status)
  {
    SetPortStatusLastWins(portList, basePort, status, status);
  }

  // ---------------------------------------------------------------------------
  // Decoding: the ports whose bits are set
  // ---------------------------------------------------------------------------

  /** The ports of bits 0 .. n-1 of octet `b`, counted from the most significant, for an octet starting after port `base`. */
  function OctetPorts(b: bv8, base: int, n: nat): (ports: seq<int>)
    requires n <= 8
    ensures |ports| <= n
  {
    if n == 0 then []
    else OctetPorts(b, base, n - 1) + (if b & Mask(7 - (n - 1)) != 0 then [base + n] else [])
  }

  /** The ports of the list in ascending order: what `_get_port_list_enabled_ports` collects. */
  function EnabledPorts(portList: seq<bv8>): (ports: seq<int>)
    ensures |ports| <= 8 * |portList|
  {
    if portList == [] then []
    else
      var n := |portList| - 1;
      EnabledPorts(portList[..n]) + OctetPorts(portList[n], 8 * n, 8)
  }

  /** Port `p` is listed for the octet exactly when it is one of its first `n` ports and its bit is set. */
  lemma {:induction false} OctetPortsMember(b: bv8, base: int, n: nat, p: int)
    requires n <= 8
    ensures p in OctetPorts(b, base, n) <==> base < p <= base + n && b & Mask(7 - (p - base - 1)) != 0
  {
    if n > 0 {
      OctetPortsMember(b, base, n - 1, p);
      var prev := OctetPorts(b, base, n - 1);
      var last := if b & Mask(7 - (n - 1)) != 0 then [base + n] else [];
      assert OctetPorts(b, base, n) == prev + last;
      assert p in prev + last <==> p in prev || p in last;
      if p == base + n {
        assert p - base - 1 == n - 1;
      } else {
        assert p !in last;
      }
    }
  }

  lemma OctetPortsMembers(b: bv8, base: int, n: nat)
    requires n <= 8
    ensures forall p :: p in OctetPorts(b, base, n) <==> base < p <= base + n && b & Mask(7 - (p - base - 1)) != 0
  {
    forall p
      ensures p in OctetPorts(b, base, n) <==> base < p <= base + n && b & Mask(7 - (p - base - 1)) != 0
    {
      OctetPortsMember(b, base, n, p);
    }
  }

  lemma {:induction false} OctetPortsAscending(b: bv8, base: int, n: nat)
    requires n <= 8
    ensures forall i, j | 0 <= i < j < |OctetPorts(b, base, n)| :: OctetPorts(b, base, n)[i] < OctetPorts(b, base, n)[j]
  {
    if n > 0 {
      OctetPortsAscending(b, base, n - 1);
      OctetPortsMembers(b, base, n - 1);
      var s := OctetPorts(b, base, n - 1);
      assert forall i | 0 <= i < |s| :: s[i] in s;
    }
  }

  /** Exactly the ports whose bits are set are listed. */
  lemma EnabledPortsMembers(portList: seq<bv8>)
    ensures forall p :: p in EnabledPorts(portList) <==> HasPort(portList, p)
  {
    forall p
      ensures p in EnabledPorts(portList) <==> HasPort(portList, p)
    {
      EnabledPortsMember(portList, p);
    }
  }

  /** Port `p` is listed exactly when its bit is set. */
  lemma {:induction false} EnabledPortsMember(portList: seq<bv8>, p: int)
    ensures p in EnabledPorts(portList) <==> HasPort(portList, p)
  {
    if portList != [] {
      var n := |portList| - 1;
      var prefix := portList[..n];
      EnabledPortsMember(prefix, p);
      OctetPortsMember(portList[n], 8 * n, 8, p);
      assert EnabledPorts(portList) == EnabledPorts(prefix) + OctetPorts(portList[n], 8 * n, 8);
      if 1 <= p <= 8 * n {
        HasPortInPrefix(portList, n, p);
      } else if 8 * n < p <= 8 * n + 8 {
        HasPortInLastOctet(portList, p);
      }
    }
  }

  /** A port of the first `n` octets is in the list exactly when it is in those octets. */
  lemma HasPortInPrefix(portList: seq<bv8>, n: nat, p: int)
    requires n <= |portList| && 1 <= p <= 8 * n
    ensures HasPort(portList[..n], p) == HasPort(portList, p)
  {
    ByteOfInRange(p, n);
    assert portList[..n][ByteOf(p)] == portList[ByteOf(p)];
  }

  /** A port of the last octet is in the list exactly when its bit of that octet is set. */
  lemma HasPortInLastOctet(portList: seq<bv8>, p: int)
    requires |portList| > 0 && 8 * (|portList| - 1) < p <= 8 * |portList|
    ensures HasPort(portList, p) == (portList[|portList| - 1] & Mask(7 - (p - 8 * (|portList| - 1) - 1)) != 0)
  {
    var n := |portList| - 1;
    assert ByteOf(p) == n;
    assert 7 - (p - 8 * n - 1) == BitOf(p);
  }

  /** The listed ports lie in 1 .. 8 * |portList| and ascend strictly. */
  lemma {:induction false} EnabledPortsAscending(portList: seq<bv8>)
    ensures forall i | 0 <= i < |EnabledPorts(portList)| :: 1 <= EnabledPorts(portList)[i] <= 8 * |portList|
    ensures forall i, j | 0 <= i < j < |EnabledPorts(portList)| :: EnabledPorts(portList)[i] < EnabledPorts(portList)[j]
  {
    if portList != [] {
      var n := |portList| - 1;
      var front, back := EnabledPorts(portList[..n]), OctetPorts(portList[n], 8 * n, 8);
      EnabledPortsAscending(portList[..n]);
      OctetPortsAscending(portList[n], 8 * n, 8);
      OctetPortsMembers(portList[n], 8 * n, 8);
      assert forall i | 0 <= i < |back| :: back[i] in back;
      assert EnabledPorts(portList) == front + back;
    }
  }

  /**
   * `_get_port_list_enabled_ports`: walks the octets and, within each, the
   * bits from the most significant, collecting `byte_count * 8 + bit + 1`
   * for every bit that is set.
   */
  method GetEnabledPorts(portList: seq<bv8>) returns (enabledPorts: seq<int>)
    ensures enabledPorts == EnabledPorts(portList)
    ensures forall p :: p in enabledPorts <==> HasPort(portList, p)
    ensures forall i, j | 0 <= i < j < |enabledPorts| :: enabledPorts[i] < enabledPorts[j]
  {
    enabledPorts := [];
    var byteCount := 0;
    while byteCount < |portList|
      invariant 0 <= byteCount <= |portList|
      invariant enabledPorts == EnabledPorts(portList[..byteCount])
    {
      var b := portList[byteCount];
      for bit := 0 to 8
        invariant enabledPorts == EnabledPorts(portList[..byteCount]) + OctetPorts(b, byteCount * 8, bit)
      {
        OctetPortsStep(b, byteCount * 8, bit);
        if b & Mask(7 - bit) != 0 {
          enabledPorts := enabledPorts + [byteCount * 8 + (bit + 1)];
        }
      }
      EnabledPortsStep(portList, byteCount);
      byteCount := byteCount + 1;
    }
    assert portList[..byteCount] == portList;
    EnabledPortsMembers(portList);
    EnabledPortsAscending(portList);
  }

  /** One more bit of the octet adds its port when the bit is set. */
  lemma OctetPortsStep(b: bv8, base: int, bit: nat)
    requires bit < 8
    ensures b & Mask(7 - bit) != 0 ==> OctetPorts(b, base, bit + 1) == OctetPorts(b, base, bit) + [base + (bit + 1)]
    ensures b & Mask(7 - bit) == 0 ==> OctetPorts(b, base, bit + 1) == OctetPorts(b, base, bit)
  {
  }

  /** One more octet of the list adds the ports of that octet. */
  lemma EnabledPortsStep(portList: seq<bv8>, n: nat)
    requires n < |portList|
    ensures EnabledPorts(portList[..n + 1]) == EnabledPorts(portList[..n]) + OctetPorts(portList[n], n * 8, 8)
  {
    assert portList[..n + 1][..n] == portList[..n];
  }

  /** After an update, the decoded ports hold `basePort` exactly when `status`, and every other port as before. */
  lemma EnabledPortsAfterSet(portList: seq<bv8>, basePort: int, status: bool, q: int)
    requires SetPortStatus(portList, basePort, status).Success?
    ensures q in EnabledPorts(SetPortStatus(portList, basePort, status).value) <==>
              if q == basePort then status else q in EnabledPorts(portList)
  {
    EnabledPortsMembers(portList);
    EnabledPortsMembers(SetPortStatus(portList, basePort, status).value);
  }

  /** Two lists of the same length that decode to the same ports are the same octets. */
  lemma {:induction false} EnabledPortsDetermineList(a: seq<bv8>, b: seq<bv8>)
    requires |a| == |b| && EnabledPorts(a) == EnabledPorts(b)
    ensures a == b
  {
    EnabledPortsMembers(a);
    EnabledPortsMembers(b);
    forall i | 0 <= i < |a|
      ensures a[i] == b[i]
    {
      forall k | 0 <= k < 8
        ensures a[i] & Mask(k) == b[i] & Mask(k)
      {
        var p := 8 * i + 8 - k;
        assert ByteOf(p) == i && BitOf(p) == k;
        assert HasPort(a, p) == HasPort(b, p);
      }
      OctetFromBits(a[i], b[i]);
    }
  }
}
