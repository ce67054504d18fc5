/** Which flow an IP packet belongs to. */
module PacketFlow {
  import opened Bytes

  const TCP: Byte := 6
  const UDP: Byte := 17

  /** A packet of at most this many bytes makes the flow it opens an interactive one. */
  const INTERACTIVE_BYTES := 256

  function Word(p: Bytes, at: nat): nat
    requires at + 1 < |p|
  {
    256 * (p[at] as int) + p[at + 1]
  }

  /** The flow key: version, protocol and addresses, and the ports where the packet shows them. Packets
      that are not well-formed IP share the empty key. */
  function FlowKey(p: Bytes): (key: Bytes)
    ensures |key| in {0, 10, 14, 34, 38}
  {
    if p == [] then []
    else if p[0] / 16 == 4 && |p| >= 20 then
      var ihl := (p[0] % 16) * 4;
      var total := Word(p, 2);
      if ihl < 20 || total < ihl || |p| < ihl || |p| < total then []
      else [4, p[9]] + p[12..20] + (if ShowsPorts4(p) then p[ihl..ihl + 4] else [])
    else if p[0] / 16 == 6 && |p| >= 40 then
      [6, p[6]] + p[8..40] + (if (p[6] == TCP || p[6] == UDP) && |p| >= 44 then p[40..44] else [])
    else []
  }

  predicate Fragmented(p: Bytes)
    requires |p| >= 20
  {
    p[6] % 64 != 0 || p[7] != 0
  }

  predicate ShowsPorts4(p: Bytes)
    requires |p| >= 20
  {
    !Fragmented(p) && (p[9] == TCP || p[9] == UDP) && Word(p, 2) >= (p[0] % 16) * 4 + 4
  }

  /** A packet is part of a fragmented datagram if its more-fragments flag or its fragment offset says so (section 3.1
      of RFC 791). */
  lemma FragmentedMeaning(p: Bytes)
    requires |p| >= 20
    ensures var word := Word(p, 6); Fragmented(p) <==> (word / 0x2000) % 2 == 1 || word % 0x2000 != 0
  {
  }

  /** The ports are shown exactly by whole TCP and UDP packets that have the four bytes behind their header. */
  lemma PortsShown4(p: Bytes)
    requires Valid4(p)
    ensures ShowsPorts4(p) <==>
              && Word(p, 6) % 0x4000 == 0 && p[9] in {6, 17}
              && (p[0] % 16) * 4 + 4 <= Word(p, 2)
  {
  }

  predicate Valid4(p: Bytes) {
    && |p| >= 20 && p[0] / 16 == 4
    && 20 <= (p[0] % 16) * 4 <= Word(p, 2) <= |p|
  }

  /** Two well-formed IPv4 packets are of one flow exactly if protocol, addresses and shown ports agree;
      so all fragments of a datagram stay together, whichever of them carries the ports. */
  lemma SameFlow4(p: Bytes, q: Bytes)
    requires Valid4(p) && Valid4(q)
    ensures FlowKey(p) == FlowKey(q) <==>
              && p[9] == q[9] && p[12..20] == q[12..20]
              && ShowsPorts4(p) == ShowsPorts4(q)
              && (ShowsPorts4(p) ==>
                    p[(p[0] % 16) * 4..(p[0] % 16) * 4 + 4] == q[(q[0] % 16) * 4..(q[0] % 16) * 4 + 4])
    ensures Fragmented(p) && Fragmented(q) && p[9] == q[9] && p[12..20] == q[12..20] ==> FlowKey(p) == FlowKey(q)
  {
    var k, l := FlowKey(p), FlowKey(q);
    assert k[1] == p[9] && k[2..10] == p[12..20];
    assert l[1] == q[9] && l[2..10] == q[12..20];
    if ShowsPorts4(p) && ShowsPorts4(q) {
      assert k[10..14] == p[(p[0] % 16) * 4..(p[0] % 16) * 4 + 4];
      assert l[10..14] == q[(q[0] % 16) * 4..(q[0] % 16) * 4 + 4];
    }
  }

  predicate Valid6(p: Bytes) {
    |p| >= 40 && p[0] / 16 == 6
  }

  predicate ShowsPorts6(p: Bytes)
    requires |p| >= 40
  {
    (p[6] == TCP || p[6] == UDP) && |p| >= 44
  }

  /** Two IPv6 packets are of one flow exactly if next header, addresses and shown ports agree. */
  lemma SameFlow6(p: Bytes, q: Bytes)
    requires Valid6(p) && Valid6(q)
    ensures FlowKey(p) == FlowKey(q) <==>
              && p[6] == q[6] && p[8..40] == q[8..40]
              && ShowsPorts6(p) == ShowsPorts6(q) && (ShowsPorts6(p) ==> p[40..44] == q[40..44])
  {
    var k, l := FlowKey(p), FlowKey(q);
    assert k[1] == p[6] && k[2..34] == p[8..40];
    assert l[1] == q[6] && l[2..34] == q[8..40];
    if ShowsPorts6(p) && ShowsPorts6(q) {
      assert k[34..38] == p[40..44];
      assert l[34..38] == q[40..44];
    }
  }

  datatype Kind = IPv4 | IPv6 | Malformed

  function KindOf(p: Bytes): Kind {
    if Valid4(p) then IPv4 else if Valid6(p) then IPv6 else Malformed
  }

  /** Packets of different kinds are never of one flow, and all malformed packets are. */
  lemma KindsApart(p: Bytes, q: Bytes)
    ensures FlowKey(p) == FlowKey(q) ==> KindOf(p) == KindOf(q)
    ensures KindOf(p).Malformed? && KindOf(q).Malformed? ==> FlowKey(p) == FlowKey(q)
  {
    KeySize(p);
    KeySize(q);
  }

  /** The length of the key gives the kind away. */
  lemma KeySize(p: Bytes)
    ensures match KindOf(p)
            case IPv4 => |FlowKey(p)| in {10, 14}
            case IPv6 => |FlowKey(p)| in {34, 38}
            case Malformed => FlowKey(p) == []
  {
  }
}
