/** Named IPv4 subnets and membership of an address in them (package cidrs).

    Addresses are 32-bit values; a subnet is a network address with a prefix
    length.  The textual forms ("192.168.0.0/24") that net.ParseCIDR reads
    are taken already parsed. */
module Cidrs {

  type IPv4 = bv32

  type PrefixLen = p: bv32 | p <= 32

  /** A subnet as given in the configuration: an address and a prefix length. */
  datatype Cidr = Cidr(addr: IPv4, prefixLen: PrefixLen)

  /** A parsed subnet: net.ParseCIDR clears the host bits of the network. */
  datatype Subnet = Subnet(network: IPv4, prefixLen: PrefixLen)

  /** The address a.b.c.d. */
  function Address(a: bv8, b: bv8, c: bv8, d: bv8): IPv4
  {
    (a as bv32 << 24) | (b as bv32 << 16) | (c as bv32 << 8) | d as bv32
  }

  /** The netmask of a prefix length: its top prefixLen bits are set and
      the others are clear. */
  function Mask(prefixLen: PrefixLen): (m: bv32)
    ensures prefixLen == 0 ==> m == 0
    ensures prefixLen == 32 ==> m == 0xFFFF_FFFF
    ensures forall i: bv32 {:trigger m >> i} :: i < 32 ==> ((m >> i) & 1 == 1 <==> i >= 32 - prefixLen)
  {
    if prefixLen == 0 then 0 else 0xFFFF_FFFF << (32 - prefixLen)
  }

  /** Masking keeps exactly the top prefixLen bits of an address: it is the
      address shifted down past the host bits and back up again. */
  lemma MaskKeepsTopBits(a: IPv4, prefixLen: PrefixLen)
    requires 0 < prefixLen
    ensures a & Mask(prefixLen) == (a >> (32 - prefixLen)) << (32 - prefixLen)
  {
  }

  /** net.ParseCIDR: the subnet an address and a prefix length name; its
      network is the address with the host bits cleared. */
  function ParseSubnet(c: Cidr): (s: Subnet)
    ensures s.prefixLen == c.prefixLen
    ensures s.network & Mask(c.prefixLen) == c.addr & Mask(c.prefixLen)
  {
    Subnet(c.addr & Mask(c.prefixLen), c.prefixLen)
  }

  /** IPNet.Contains: the address agrees with the network under the mask.
      A /0 subnet contains every address and a /32 only its network. */
  predicate Contains(s: Subnet, ip: IPv4): (b: bool)
    ensures s.prefixLen == 0 ==> b
    ensures s.prefixLen == 32 ==> (b <==> s.network == ip)
  {
    s.network & Mask(s.prefixLen) == ip & Mask(s.prefixLen)
  }

  /** A subnet contains the address it was written with. */
  lemma SubnetContainsOwnAddress(c: Cidr)
    ensures Contains(ParseSubnet(c), c.addr)
  {
    var s := ParseSubnet(c);
    assert s.prefixLen == c.prefixLen;
  }

  /** The subnets of the test suite: 192.168.0.5 lies in 192.168.0.0/24 only
      and 192.168.1.254 in 192.168.1.0/24 only. */
  lemma TestSubnets()
    ensures var test1 := ParseSubnet(Cidr(Address(192, 168, 0, 0), 24));
            var test2 := ParseSubnet(Cidr(Address(192, 168, 1, 0), 24));
            && Contains(test1, Address(192, 168, 0, 5)) && !Contains(test2, Address(192, 168, 0, 5))
            && Contains(test2, Address(192, 168, 1, 254)) && !Contains(test1, Address(192, 168, 1, 254))
  {
  }

  /** The Cidrs map: inventory group name -> subnet. */
  class Cidrs {
    var subnets: map<string, Subnet>

    /** make(cidrs.Cidrs) */
    constructor ()
      ensures subnets == map[]
    {
      subnets := map[];
    }

    /** ParseCIDRs: the names of the subnets that contain the address, each
        once, in no particular order (Go's map iteration order). */
    method ParseCIDRs(ip: IPv4) returns (memberOf: seq<string>)
      ensures forall i, j :: 0 <= i < j < |memberOf| ==> memberOf[i] != memberOf[j]
      ensures forall name :: name in memberOf <==> name in subnets && Contains(subnets[name], ip)
    {
      memberOf := [];
      var pending := subnets.Keys;
      while pending != {}
        invariant pending <= subnets.Keys
        invariant forall i, j :: 0 <= i < j < |memberOf| ==> memberOf[i] != memberOf[j]
        invariant forall name :: name in memberOf <==>
                    name in subnets && name !in pending && Contains(subnets[name], ip)
        decreases pending
      {
        var name :| name in pending;
        if Contains(subnets[name], ip) {
          memberOf := memberOf + [name];
        }
        pending := pending - {name};
      }
    }

    /** AddCIDR: name now denotes the parsed subnet, replacing any earlier
        one; no other name changes. */
    method AddCIDR(name: string, cidr: Cidr)
      modifies this
      ensures subnets == old(subnets)[name := ParseSubnet(cidr)]
    {
      subnets := subnets[name := ParseSubnet(cidr)];
    }

    /** AddCIDRMap: AddCIDR for every entry of the map; names not in the map
        keep their subnets. */
    method AddCIDRMap(cidrMap: map<string, Cidr>)
      modifies this
      ensures subnets.Keys == old(subnets).Keys + cidrMap.Keys
      ensures forall name :: name in cidrMap ==> subnets[name] == ParseSubnet(cidrMap[name])
      ensures forall name :: name in old(subnets) && name !in cidrMap ==> subnets[name] == old(subnets)[name]
    {
      var pending := cidrMap.Keys;
      while pending != {}
        invariant pending <= cidrMap.Keys
        invariant subnets.Keys == old(subnets).Keys + (cidrMap.Keys - pending)
        invariant forall name :: name in cidrMap && name !in pending ==> subnets[name] == ParseSubnet(cidrMap[name])
        invariant forall name :: name in old(subnets) && name !in cidrMap ==> subnets[name] == old(subnets)[name]
        decreases pending
      {
        var name :| name in pending;
        AddCIDR(name, cidrMap[name]);
        pending := pending - {name};
      }
    }
  }

  /** The test suite's scenario: after adding test1 and test2, the address
      192.168.0.5 is reported in test1 only and 192.168.1.254 in test2 only. */
  method TestCIDR() returns (first: seq<string>, second: seq<string>)
    ensures "test1" in first && "test2" !in first
    ensures "test2" in second && "test1" !in second
  {
    var c := new Cidrs();
    c.AddCIDRMap(map["test1" := Cidr(Address(192, 168, 0, 0), 24),
                     "test2" := Cidr(Address(192, 168, 1, 0), 24)]);
    TestSubnets();
    first := c.ParseCIDRs(Address(192, 168, 0, 5));
    second := c.ParseCIDRs(Address(192, 168, 1, 254));
  }
}
