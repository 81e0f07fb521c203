/**
 * The hpicfIpAddressTable index codec of hpswitch/vlan.py: the index suffix
 * the library builds when it adds or removes an address of a VLAN, the filter
 * it applies to a walk of the table, and the address text it builds from the
 * OID of each row it keeps before handing it to the `ipaddress` library.
 *
 * A row of the table is indexed by the interface, the address type
 * (InetAddressType, section 3 of RFC 4001: 1 for IPv4, 2 for IPv6) and the
 * address as an OCTET STRING, which an index encodes as its length followed
 * by its octets (section 7.7 of RFC 2578).
 */
module AddressIndex {
  import opened Runtime
  import opened Switch

  type Byte = x: nat | x < 256

  datatype Family = IPv4 | IPv6

  /** The InetAddressType value of a family. */
  function TypeTag(family: Family): nat
  {
    match family
    case IPv4 => 1
    case IPv6 => 2
  }

  /** The number of octets of an address of a family. */
  function Width(family: Family): nat
  {
    match family
    case IPv4 => 4
    case IPv6 => 16
  }

  /**
   * `VLAN._get_ifindex`: the ifindex of a VLAN's interface is its VLAN id plus
   * 577, so it lies above 576 and the VLAN id is recovered from it.
   */
  function VlanIfIndex(vid: nat): (ifindex: nat)
    ensures ifindex > 576
    ensures ifindex - 577 == vid
  {
    vid + 577
  }

  /** The column of hpicfIpAddressEntry the readers keep: hpicfIpAddressPrefixLength. */
  const PrefixLengthColumn: nat := 3

  /**
   * The number of components of the OID of hpicfIpAddressEntry the readers
   * assume: they read the column at position 16, the ifindex at 17 and the
   * address type at 18.
   */
  const EntryLength: nat := 16

  /** The index of a table row: ifindex, address type, then the address as a length-prefixed octet string. */
  function RowIndex(ifindex: nat, family: Family, octets: seq<Byte>): seq<nat>
    requires |octets| == Width(family)
  {
    [ifindex, TypeTag(family), Width(family)] + octets
  }

  // ---------------------------------------------------------------------------
  // Writing: the set requests of add_/remove_ipv4/ipv6_address
  // ---------------------------------------------------------------------------

  /** The part of an `ipaddress` interface the library uses: `ip.packed` and `prefixlen`. */
  datatype InterfaceAddress = InterfaceAddress(octets: seq<Byte>, prefixLength: nat)

  /** hpicfIpv6InterfaceCfgEnableStatus, spelled out numerically in vlan.py. */
  const Ipv6InterfaceCfgEnableStatus: seq<nat> := [1, 3, 6, 1, 4, 1, 11, 2, 14, 11, 1, 10, 3, 2, 1, 1, 6]
  /** hpicfIpv6InterfaceManual, spelled out numerically in vlan.py. */
  const Ipv6InterfaceManual: seq<nat> := [1, 3, 6, 1, 4, 1, 11, 2, 14, 11, 1, 10, 3, 2, 1, 1, 2]

  /** The three varbinds that create a row of hpicfIpAddressTable: prefix length, type unicast (1), row status createAndGo (4). */
  function CreateAddressRow(ifindex: nat, family: Family, address: InterfaceAddress): seq<VarBind>
    requires |address.octets| == Width(family)
  {
    var index := RowIndex(ifindex, family, address.octets);
    [ VarBind(Named("hpicfIpAddressPrefixLength"), index, Gauge32(address.prefixLength)),
      VarBind(Named("hpicfIpAddressType"), index, Integer(1)),
      VarBind(Named("hpicfIpAddressRowStatus"), index, Integer(4)) ]
  }

  /**
   * `add_ipv4_address`: enable IPv4 on the VLAN interface, turn its DHCP
   * client off (2), then create the address row.
   */
  function AddIpv4AddressRequest(vid: nat, address: InterfaceAddress): (request: seq<VarBind>)
    requires |address.octets| == 4
    ensures |request| == 5
    ensures request[2..] == CreateAddressRow(VlanIfIndex(vid), IPv4, address)
  {
    var ifindex := VlanIfIndex(vid);
    [ VarBind(Named("ipv4InterfaceEnableStatus"), [ifindex], Integer(1)),
      VarBind(Named("hpicfIpv4InterfaceDhcpEnable"), [ifindex], Integer(2)) ]
    + CreateAddressRow(ifindex, IPv4, address)
  }

  /**
   * `add_ipv6_address`: enable IPv6 with a link-local address, enable manual
   * configuration, enable the IPv6 interface, then create the address row.
   */
  function AddIpv6AddressRequest(vid: nat, address: InterfaceAddress): (request: seq<VarBind>)
    requires |address.octets| == 16
    ensures |request| == 6
    ensures request[3..] == CreateAddressRow(VlanIfIndex(vid), IPv6, address)
  {
    var ifindex := VlanIfIndex(vid);
    [ VarBind(Numeric(Ipv6InterfaceCfgEnableStatus), [ifindex], Integer(1)),
      VarBind(Numeric(Ipv6InterfaceManual), [ifindex], Integer(1)),
      VarBind(Named("ipv6InterfaceEnableStatus"), [ifindex], Integer(1)) ]
    + CreateAddressRow(ifindex, IPv6, address)
  }

  /**
   * `remove_ipv4_address` / `remove_ipv6_address`: row status destroy (6) on
   * the address row, the same column and index the add sets to createAndGo (4).
   */
  function RemoveAddressRequest(vid: nat, family: Family, address: InterfaceAddress): (request: seq<VarBind>)
    requires |address.octets| == Width(family)
    ensures |request| == 1
    ensures var created := CreateAddressRow(VlanIfIndex(vid), family, address)[2];
              created.value == Integer(4) && request[0] == created.(value := Integer(6))
  {
    [VarBind(Named("hpicfIpAddressRowStatus"), RowIndex(VlanIfIndex(vid), family, address.octets), Integer(6))]
  }

  // ---------------------------------------------------------------------------
  // Reading: the filter of _get_ipv4_addresses / _get_ipv6_addresses
  // ---------------------------------------------------------------------------

  /**
   * The filter's test of one row's OID: the ifindex at position 17, then the
   * address type at 18, then the column at 16, each compared only when the
   * earlier ones matched. A component the OID is too short for raises IndexError.
   */
  function RowSelected(oid: seq<nat>, ifindex: nat, tag: nat): (r: Result<bool>)
    ensures r.Failure? ==> r.error == IndexError
    ensures r.Success? <==> |oid| > 17 && (oid[17] == ifindex ==> |oid| > 18)
    ensures r == Success(true) <==>
              |oid| > 18 && oid[17] == ifindex && oid[18] == tag && oid[16] == PrefixLengthColumn
  {
    if |oid| <= 17 then Failure(IndexError)
    else if oid[17] != ifindex then Success(false)
    else if |oid| <= 18 then Failure(IndexError)
    else if oid[18] != tag then Success(false)
    else Success(oid[16] == PrefixLengthColumn)
  }

  /** The filter over a whole walk: the rows it keeps, in walk order; it raises if the test raises on any row. */
  function SelectRows(rows: seq<Row>, ifindex: nat, tag: nat): (r: Result<seq<Row>>)
    ensures r.Success? <==> forall i | 0 <= i < |rows| :: RowSelected(rows[i].oid, ifindex, tag).Success?
    ensures r.Failure? ==> r.error == IndexError
    ensures r.Success? ==> |r.value| <= |rows|
    ensures r.Success? ==> forall k | 0 <= k < |r.value| :: |r.value[k].oid| > 18
    ensures r.Success? ==>
              forall row :: row in r.value <==> row in rows && RowSelected(row.oid, ifindex, tag) == Success(true)
  {
    if rows == [] then Success([])
    else
      var keep :- RowSelected(rows[0].oid, ifindex, tag);
      var rest :- SelectRows(rows[1..], ifindex, tag);
      assert rows == [rows[0]] + rows[1..];
      Success(if keep then [rows[0]] + rest else rest)
  }

  /** A walk of one row keeps it exactly when the test selects it. */
  lemma SelectRowsOne(row: Row, ifindex: nat, tag: nat)
    ensures RowSelected(row.oid, ifindex, tag) == Success(true) ==> SelectRows([row], ifindex, tag) == Success([row])
    ensures RowSelected(row.oid, ifindex, tag) == Success(false) ==> SelectRows([row], ifindex, tag) == Success([])
    ensures RowSelected(row.oid, ifindex, tag).Failure? ==> SelectRows([row], ifindex, tag) == Failure(IndexError)
  {
    assert [row][1..] == [] && [row] + [] == [row];
  }

  /** The filter takes the walk one row at a time: the first row's test, then the rest of the walk. */
  lemma SelectRowsCons(rows: seq<Row>, ifindex: nat, tag: nat)
    requires rows != []
    ensures SelectRows(rows, ifindex, tag).Success? <==>
              RowSelected(rows[0].oid, ifindex, tag).Success? && SelectRows(rows[1..], ifindex, tag).Success?
    ensures SelectRows(rows, ifindex, tag).Success? ==>
              SelectRows(rows, ifindex, tag).value ==
                (if RowSelected(rows[0].oid, ifindex, tag).value then [rows[0]] else []) + SelectRows(rows[1..], ifindex, tag).value
  {
  }

  /**
   * The filter keeps walk order and multiplicity: the rows kept from two
   * consecutive stretches of the walk are those of the first stretch
   * followed by those of the second, and the whole walk raises exactly
   * when one of the stretches does.
   */
  lemma {:induction false} SelectRowsAppend(a: seq<Row>, b: seq<Row>, ifindex: nat, tag: nat)
    ensures SelectRows(a + b, ifindex, tag).Success? <==>
              SelectRows(a, ifindex, tag).Success? && SelectRows(b, ifindex, tag).Success?
    ensures SelectRows(a + b, ifindex, tag).Success? ==>
              SelectRows(a + b, ifindex, tag).value == SelectRows(a, ifindex, tag).value + SelectRows(b, ifindex, tag).value
  {
    if a == [] {
      assert a + b == b;
    } else {
      var ab := a + b;
      assert ab[0] == a[0] && ab[1..] == a[1..] + b;
      SelectRowsCons(a, ifindex, tag);
      SelectRowsCons(ab, ifindex, tag);
      SelectRowsAppend(a[1..], b, ifindex, tag);
      if SelectRows(ab, ifindex, tag).Success? {
        var head := if RowSelected(a[0].oid, ifindex, tag).value then [a[0]] else [];
        var restA, restB := SelectRows(a[1..], ifindex, tag).value, SelectRows(b, ifindex, tag).value;
        ConcatAssoc(head, restA, restB);
      }
    }
  }

  lemma ConcatAssoc<T>(x: seq<T>, y: seq<T>, z: seq<T>)
    ensures x + (y + z) == (x + y) + z
  {
  }

  /** The last `n` components of an OID, `oid[-n:]`. */
  function Last(oid: seq<nat>, n: nat): (tail: seq<nat>)
    requires n >= 1
    ensures |oid| >= n ==> tail == oid[|oid| - n..]
  {
    SliceFrom(oid, -(n as int))
  }

  /** A row the table would hold for an address added with `CreateAddressRow`. */
  function PrefixLengthRow(entry: seq<nat>, ifindex: nat, family: Family, address: InterfaceAddress): Row
    requires |address.octets| == Width(family)
  {
    var vb := CreateAddressRow(ifindex, family, address)[0];
    Row(entry + [PrefixLengthColumn] + vb.index, vb.value.g)
  }

  /**
   * The index the library writes is the one it reads back: the prefix-length
   * row of an added address is kept by the reader of its own VLAN and family,
   * and its last components are the address octets and its value the prefix
   * length; the reader of the other family, of any other VLAN, and any other
   * column drop it.
   */
  lemma AddedRowReadBack(entry: seq<nat>, vid: nat, family: Family, address: InterfaceAddress)
    requires |entry| == EntryLength && |address.octets| == Width(family)
    ensures var row := PrefixLengthRow(entry, VlanIfIndex(vid), family, address);
              && RowSelected(row.oid, VlanIfIndex(vid), TypeTag(family)) == Success(true)
              && Last(row.oid, Width(family)) == address.octets
              && row.value == address.prefixLength
    ensures forall other: Family | other != family ::
              RowSelected(PrefixLengthRow(entry, VlanIfIndex(vid), family, address).oid, VlanIfIndex(vid), TypeTag(other))
                == Success(false)
    ensures forall otherVid: nat | otherVid != vid ::
              RowSelected(PrefixLengthRow(entry, VlanIfIndex(vid), family, address).oid, VlanIfIndex(otherVid), TypeTag(family))
                == Success(false)
    ensures forall column: nat | column != PrefixLengthColumn ::
              RowSelected(entry + [column] + RowIndex(VlanIfIndex(vid), family, address.octets),
                          VlanIfIndex(vid), TypeTag(family)) == Success(false)
  {
    var index := RowIndex(VlanIfIndex(vid), family, address.octets);
    var oid := entry + [PrefixLengthColumn] + index;
    assert oid[16] == PrefixLengthColumn && oid[17] == VlanIfIndex(vid) && oid[18] == TypeTag(family);
    assert oid[|oid| - Width(family)..] == address.octets;
  }

  // ---------------------------------------------------------------------------
  // The address text handed to the ipaddress library
  // ---------------------------------------------------------------------------

  /** `map(unicode, components)` */
  function DecimalTexts(components: seq<nat>): (texts: seq<string>)
    ensures |texts| == |components|
    ensures forall k | 0 <= k < |texts| :: texts[k] == IntText(components[k])
    ensures forall k | 0 <= k < |texts| :: ParseInt(texts[k]) == Success(components[k])
  {
    AllIntTextsParse(components);
    seq(|components|, k requires 0 <= k < |components| => IntText(components[k]))
  }

  /** Each component's decimal text reads back as that component. */
  lemma AllIntTextsParse(components: seq<nat>)
    ensures forall k | 0 <= k < |components| :: ParseInt(IntText(components[k])) == Success(components[k])
  {
    forall k | 0 <= k < |components|
      ensures ParseInt(IntText(components[k])) == Success(components[k])
    {
      IntTextRoundTrip(components[k]);
    }
  }

  /** `reduce(lambda a, b: a + "." + b, map(unicode, components))`: the dotted-decimal text. */
  function DottedText(components: seq<nat>): string
    requires |components| >= 1
  {
    Join(DecimalTexts(components), '.')
  }

  /** The dotted text splits at its dots into one decimal field per component, each reading back as that component. */
  lemma DottedTextRoundTrip(components: seq<nat>)
    requires |components| >= 1
    ensures |Split(DottedText(components), '.')| == |components|
    ensures forall k | 0 <= k < |components| :: ParseInt(Split(DottedText(components), '.')[k]) == Success(components[k])
  {
    var texts := DecimalTexts(components);
    forall k | 0 <= k < |texts|
      ensures '.' !in texts[k]
    {
      assert forall i | 0 <= i < |texts[k]| :: texts[k][i] != '.';
    }
    SplitJoin(texts, '.');
    forall k | 0 <= k < |components|
      ensures ParseInt(texts[k]) == Success(components[k])
    {
      IntTextRoundTrip(components[k]);
    }
  }

  /** `reduce(lambda a, b: a + b, map(lambda x: unicode("%02x" % x), components))`. */
  function HexDigits(components: seq<nat>): (digits: string)
    ensures forall i | 0 <= i < |digits| :: IsHexDigit(digits[i])
    ensures (forall k | 0 <= k < |components| :: components[k] < 256) ==> |digits| == 2 * |components|
  {
    if components == [] then []
    else HexDigits(components[..|components| - 1]) + Hex02(components[|components| - 1])
  }

  /**
   * The text the loop of `_get_ipv6_addresses` builds: groups of four
   * characters separated by colons, the last group holding what is left.
   */
  function Grouped(digits: string): string
  {
    if |digits| <= 4 then digits else digits[..4] + ":" + Grouped(digits[4..])
  }

  /**
   * The loop of `_get_ipv6_addresses`: move four characters at a time from
   * the digits to the text, with a colon between groups, until no digits remain.
   */
  method GroupDigits(digits: string) returns (text: string)
    ensures text == Grouped(digits)
  {
    text := "";
    var rest := digits;
    while true
      invariant text + Grouped(rest) == Grouped(digits)
      decreases |rest|
    {
      var n := if |rest| < 4 then |rest| else 4;
      text := text + rest[..n];
      if |rest| <= 4 {
        assert Grouped(rest) == rest[..n];
      }
      rest := rest[n..];
      if |rest| != 0 {
        text := text + ":";
      } else {
        break;
      }
    }
  }

  /** The characters of a string other than colons. */
  function WithoutColons(s: string): string
  {
    if s == [] then [] else (if s[0] == ':' then [] else [s[0]]) + WithoutColons(s[1..])
  }

  /**
   * A colon after every fourth character: a non-empty digit string of
   * length n becomes n + (n - 1) / 4 characters, position i holding a colon
   * when i % 5 == 4 and otherwise the digit at i - i / 5.
   */
  lemma {:induction false} GroupedLayout(digits: string)
    requires |digits| >= 1
    ensures |Grouped(digits)| == |digits| + (|digits| - 1) / 4
    ensures forall i | 0 <= i < |Grouped(digits)| ::
              Grouped(digits)[i] == if i % 5 == 4 then ':' else digits[i - i / 5]
  {
    if |digits| > 4 {
      var rest := digits[4..];
      GroupedLayout(rest);
      var g := Grouped(digits);
      assert g == digits[..4] + ":" + Grouped(rest);
      forall i | 5 <= i < |g|
        ensures g[i] == if i % 5 == 4 then ':' else digits[i - i / 5]
      {
        assert g[i] == Grouped(rest)[i - 5];
        FiveBack(i);
      }
    }
  }

  /** Stepping back one group of five keeps the position within the group. */
  lemma FiveBack(i: int)
    requires i >= 5
    ensures (i - 5) % 5 == i % 5 && (i - 5) / 5 == i / 5 - 1
  {
  }

  /** Deleting the colons of the grouped text gives the digits back. */
  lemma {:induction false} GroupedWithoutColons(digits: string)
    requires ':' !in digits
    ensures WithoutColons(Grouped(digits)) == digits
    decreases |digits|
  {
    if |digits| > 4 {
      GroupedWithoutColons(digits[4..]);
      WithoutColonsAppend(digits[..4] + ":", Grouped(digits[4..]));
      WithoutColonsAppend(digits[..4], ":");
      NoColons(digits[..4]);
      assert digits[..4] + digits[4..] == digits;
    } else {
      NoColons(digits);
    }
  }

  lemma {:induction false} WithoutColonsAppend(a: string, b: string)
    ensures WithoutColons(a + b) == WithoutColons(a) + WithoutColons(b)
    decreases |a|
  {
    if a != [] {
      WithoutColonsAppend(a[1..], b);
      assert (a + b)[1..] == a[1..] + b;
    } else {
      assert a + b == b;
    }
  }

  lemma {:induction false} NoColons(s: string)
    requires ':' !in s
    ensures WithoutColons(s) == s
    decreases |s|
  {
    if s != [] {
      NoColons(s[1..]);
    }
  }

  /** Two hexadecimal digits per octet: the pair at 2k, 2k+1 is the `%02x` of octet k. */
  lemma {:induction false} HexDigitsLayout(components: seq<nat>)
    requires forall k | 0 <= k < |components| :: components[k] < 256
    ensures |HexDigits(components)| == 2 * |components|
    ensures forall k | 0 <= k < |components| ::
              HexDigits(components)[2 * k] == Hex02(components[k])[0] &&
              HexDigits(components)[2 * k + 1] == Hex02(components[k])[1]
  {
    if components != [] {
      var n := |components| - 1;
      var front := components[..n];
      HexDigitsLayout(front);
      var digits, frontDigits, last := HexDigits(components), HexDigits(front), Hex02(components[n]);
      assert digits == frontDigits + last;
      assert |frontDigits| == 2 * n && |last| == 2;
      forall k | 0 <= k < |components|
        ensures digits[2 * k] == Hex02(components[k])[0] && digits[2 * k + 1] == Hex02(components[k])[1]
      {
        PairAt(frontDigits, last, n, k);
        if k < n {
          assert front[k] == components[k];
        }
      }
    }
  }

  /** The pair of characters at pair position `k` of a text of `n` pairs followed by one more pair. */
  lemma PairAt(front: string, last: string, n: nat, k: nat)
    requires |front| == 2 * n && |last| == 2 && k <= n
    ensures k < n ==> (front + last)[2 * k] == front[2 * k] && (front + last)[2 * k + 1] == front[2 * k + 1]
    ensures k == n ==> (front + last)[2 * k] == last[0] && (front + last)[2 * k + 1] == last[1]
  {
  }

  /** The octets the digits denote, read two hexadecimal digits at a time. */
  function HexPairs(digits: string): seq<nat>
    requires |digits| % 2 == 0
    requires forall i | 0 <= i < |digits| :: IsHexDigit(digits[i])
  {
    seq(|digits| / 2, k requires 0 <= k < |digits| / 2 => HexPairValue(digits[2 * k], digits[2 * k + 1]))
  }

  /** The text of an IPv6 address: eight colon-separated groups of four hexadecimal digits. */
  function Ipv6Text(components: seq<nat>): string
  {
    Grouped(HexDigits(components))
  }

  /**
   * For the 16 octets of an IPv6 address the text is 39 characters, eight
   * groups of four lower-case hexadecimal digits and seven colons; deleting
   * the colons gives the 32 digits, which read two at a time give the octets back.
   */
  lemma Ipv6TextRoundTrip(components: seq<nat>)
    requires |components| == 16
    requires forall k | 0 <= k < 16 :: components[k] < 256
    ensures |Ipv6Text(components)| == 39
    ensures forall i | 0 <= i < 39 :: (Ipv6Text(components)[i] == ':' <==> i % 5 == 4)
    ensures WithoutColons(Ipv6Text(components)) == HexDigits(components)
    ensures HexPairs(HexDigits(components)) == components
  {
    var digits := HexDigits(components);
    HexDigitsLayout(components);
    GroupedLayout(digits);
    assert ':' !in digits by {
      forall i | 0 <= i < |digits| ensures digits[i] != ':' { assert IsHexDigit(digits[i]); }
    }
    GroupedWithoutColons(digits);
    forall i | 0 <= i < 39
      ensures Ipv6Text(components)[i] == ':' <==> i % 5 == 4
    {
      if i % 5 != 4 {
        assert IsHexDigit(digits[i - i / 5]);
      }
    }
    HexPairsOfLayout(components, digits);
  }

  /** Digits laid out two per octet read back, pair by pair, as the octets. */
  lemma HexPairsOfLayout(components: seq<nat>, digits: string)
    requires forall k | 0 <= k < |components| :: components[k] < 256
    requires |digits| == 2 * |components|
    requires forall i | 0 <= i < |digits| :: IsHexDigit(digits[i])
    requires forall k | 0 <= k < |components| ::
               digits[2 * k] == Hex02(components[k])[0] && digits[2 * k + 1] == Hex02(components[k])[1]
    ensures HexPairs(digits) == components
  {
    var pairs := HexPairs(digits);
    forall k | 0 <= k < |components|
      ensures pairs[k] == components[k]
    {
      HexPairRoundTrip(components[k]);
    }
  }

  // ---------------------------------------------------------------------------
  // The interface texts of the rows a reader keeps
  // ---------------------------------------------------------------------------

  /** `ipv4_address_string + "/" + unicode(prefix length)` for one kept row. */
  function Ipv4InterfaceText(row: Row): string
    requires |row.oid| >= 4
  {
    DottedText(Last(row.oid, 4)) + "/" + IntText(row.value)
  }

  /** `ipv6_address_string + "/" + unicode(prefix length)` for one kept row. */
  function Ipv6InterfaceText(row: Row): string
    requires |row.oid| >= 16
  {
    Ipv6Text(Last(row.oid, 16)) + "/" + IntText(row.value)
  }

  /**
   * The body of the row loop of `_get_ipv6_addresses`: the octets as `%02x`
   * digits, grouped four at a time by the `while True` loop, then the prefix length.
   */
  method RowIpv6InterfaceText(row: Row) returns (text: string)
    requires |row.oid| >= 16
    ensures text == Ipv6InterfaceText(row)
  {
    var grouped := GroupDigits(HexDigits(Last(row.oid, 16)));
    text := grouped + "/" + IntText(row.value);
  }

  /** One more row's text extends a list of the texts of the rows before it. */
  lemma Ipv4TextsStep(texts: seq<string>, kept: seq<Row>, entry: string)
    requires |texts| < |kept|
    requires forall j | 0 <= j < |kept| :: |kept[j].oid| >= 4
    requires forall j | 0 <= j < |texts| :: texts[j] == Ipv4InterfaceText(kept[j])
    requires entry == Ipv4InterfaceText(kept[|texts|])
    ensures forall j | 0 <= j < |texts| + 1 :: (texts + [entry])[j] == Ipv4InterfaceText(kept[j])
  {
  }

  /** One more row's text extends a list of the texts of the rows before it. */
  lemma Ipv6TextsStep(texts: seq<string>, kept: seq<Row>, entry: string)
    requires |texts| < |kept|
    requires forall j | 0 <= j < |kept| :: |kept[j].oid| >= 16
    requires forall j | 0 <= j < |texts| :: texts[j] == Ipv6InterfaceText(kept[j])
    requires entry == Ipv6InterfaceText(kept[|texts|])
    ensures forall j | 0 <= j < |texts| + 1 :: (texts + [entry])[j] == Ipv6InterfaceText(kept[j])
  {
  }

  /** Texts that match the rows one by one are the comprehension over the rows. */
  lemma Ipv4TextsComplete(texts: seq<string>, kept: seq<Row>)
    requires |texts| == |kept|
    requires forall j | 0 <= j < |kept| :: |kept[j].oid| >= 4
    requires forall j | 0 <= j < |texts| :: texts[j] == Ipv4InterfaceText(kept[j])
    ensures texts == seq(|kept|, j requires 0 <= j < |kept| => Ipv4InterfaceText(kept[j]))
  {
  }

  /** Texts that match the rows one by one are the comprehension over the rows. */
  lemma Ipv6TextsComplete(texts: seq<string>, kept: seq<Row>)
    requires |texts| == |kept|
    requires forall j | 0 <= j < |kept| :: |kept[j].oid| >= 16
    requires forall j | 0 <= j < |texts| :: texts[j] == Ipv6InterfaceText(kept[j])
    ensures texts == seq(|kept|, j requires 0 <= j < |kept| => Ipv6InterfaceText(kept[j]))
  {
  }

  /** What `_get_ipv4_addresses` hands to `IPv4Interface`, one text per kept row, in walk order. */
  function Ipv4Addresses(rows: seq<Row>, ifindex: nat): (r: Result<seq<string>>)
    ensures r.Success? <==> SelectRows(rows, ifindex, TypeTag(IPv4)).Success?
    ensures r.Failure? ==> r.error == IndexError
    ensures r.Success? ==> |r.value| == |SelectRows(rows, ifindex, TypeTag(IPv4)).value| <= |rows|
  {
    var kept :- SelectRows(rows, ifindex, TypeTag(IPv4));
    Success(seq(|kept|, k requires 0 <= k < |kept| => Ipv4InterfaceText(kept[k])))
  }

  /** What `_get_ipv6_addresses` hands to `IPv6Interface`, one text per kept row, in walk order. */
  function Ipv6Addresses(rows: seq<Row>, ifindex: nat): (r: Result<seq<string>>)
    ensures r.Success? <==> SelectRows(rows, ifindex, TypeTag(IPv6)).Success?
    ensures r.Failure? ==> r.error == IndexError
    ensures r.Success? ==> |r.value| == |SelectRows(rows, ifindex, TypeTag(IPv6)).value| <= |rows|
  {
    var kept :- SelectRows(rows, ifindex, TypeTag(IPv6));
    Success(seq(|kept|, k requires 0 <= k < |kept| => Ipv6InterfaceText(kept[k])))
  }

  /**
   * An address added to a VLAN is listed back: when the walk holds its
   * prefix-length row (and the filter can read every row), the reader of its
   * family lists the address's own text with its prefix length.
   */
  lemma AddedAddressIsListed(rows: seq<Row>, entry: seq<nat>, vid: nat, family: Family, address: InterfaceAddress)
    requires |entry| == EntryLength && |address.octets| == Width(family)
    requires PrefixLengthRow(entry, VlanIfIndex(vid), family, address) in rows
    requires SelectRows(rows, VlanIfIndex(vid), TypeTag(family)).Success?
    ensures family == IPv4 ==>
              DottedText(address.octets) + "/" + IntText(address.prefixLength) in Ipv4Addresses(rows, VlanIfIndex(vid)).value
    ensures family == IPv6 ==>
              Ipv6Text(address.octets) + "/" + IntText(address.prefixLength) in Ipv6Addresses(rows, VlanIfIndex(vid)).value
  {
    var row := PrefixLengthRow(entry, VlanIfIndex(vid), family, address);
    AddedRowReadBack(entry, vid, family, address);
    KeptRowIsSelected(rows, VlanIfIndex(vid), TypeTag(family), row);
    if family == IPv4 {
      KeptRowIsListedIpv4(rows, VlanIfIndex(vid), row);
    } else {
      KeptRowIsListedIpv6(rows, VlanIfIndex(vid), row);
    }
  }

  /** A row of the walk whose test is true is among the kept rows. */
  lemma KeptRowIsSelected(rows: seq<Row>, ifindex: nat, tag: nat, row: Row)
    requires row in rows && RowSelected(row.oid, ifindex, tag) == Success(true)
    requires SelectRows(rows, ifindex, tag).Success?
    ensures row in SelectRows(rows, ifindex, tag).value
  {
  }

  /** A kept row's text is listed by the IPv4 reader. */
  lemma KeptRowIsListedIpv4(rows: seq<Row>, ifindex: nat, row: Row)
    requires SelectRows(rows, ifindex, TypeTag(IPv4)).Success?
    requires row in SelectRows(rows, ifindex, TypeTag(IPv4)).value
    ensures |row.oid| >= 4 && Ipv4InterfaceText(row) in Ipv4Addresses(rows, ifindex).value
  {
    var kept := SelectRows(rows, ifindex, TypeTag(IPv4)).value;
    var k :| 0 <= k < |kept| && kept[k] == row;
    assert Ipv4Addresses(rows, ifindex).value[k] == Ipv4InterfaceText(row);
  }

  /** A kept row's text is listed by the IPv6 reader. */
  lemma KeptRowIsListedIpv6(rows: seq<Row>, ifindex: nat, row: Row)
    requires SelectRows(rows, ifindex, TypeTag(IPv6)).Success?
    requires row in SelectRows(rows, ifindex, TypeTag(IPv6)).value
    ensures |row.oid| >= 16 && Ipv6InterfaceText(row) in Ipv6Addresses(rows, ifindex).value
  {
    var kept := SelectRows(rows, ifindex, TypeTag(IPv6)).value;
    var k :| 0 <= k < |kept| && kept[k] == row;
    assert Ipv6Addresses(rows, ifindex).value[k] == Ipv6InterfaceText(row);
  }
}
