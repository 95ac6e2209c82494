/** A packet-in message as the controller sees it after the packet library has
    decoded the frame: only the header fields the controller reads are kept. */
module Packets {
  import opened OpenFlow

  const ETH_TYPE_LLDP: nat := 0x88cc
  const TCP_SYN: bv16 := 0x002
  const TCP_ACK: bv16 := 0x010

  /** TCP header: its flag bits. */
  datatype TcpHeader = TcpHeader(bits: bv16)

  /** IPv4 header, with the TCP segment it carries, if any. */
  datatype Ipv4Packet = Ipv4Packet(tcp: Option<TcpHeader>)

  /** Ethernet header, with the IPv4 packet the frame carries, if any. */
  datatype EthernetFrame = EthernetFrame(ethertype: nat, src: Mac, dst: Mac, ipv4: Option<Ipv4Packet>)

  /** A packet-in event from switch `dpid`: the ingress port, the switch's
      buffer id for the packet, the raw bytes and their decoding. */
  datatype PacketInMsg = PacketInMsg(dpid: Dpid, inPort: Port, bufferId: BufferId, data: Bytes,
                                     frame: EthernetFrame)

  /** The flags hold SYN (bit 1) and not ACK (bit 4); other flags do not matter. */
  predicate SynWithoutAck(bits: bv16): (r: bool)
    ensures r <==> (bits >> 1) & 1 == 1 && (bits >> 4) & 1 == 0
  {
    bits & TCP_SYN != 0 && bits & TCP_ACK == 0
  }

  /** The frame passes every filter of the packet-in handler: each of its
      five early returns (LLDP, no IPv4, no TCP, SYN clear, ACK set) rejects
      the frame, and a frame that meets none of them is accepted. */
  predicate Accepted(f: EthernetFrame): (r: bool)
    ensures f.ethertype == ETH_TYPE_LLDP ==> !r
    ensures f.ipv4.None? ==> !r
    ensures f.ipv4.Some? && f.ipv4.value.tcp.None? ==> !r
    ensures f.ipv4.Some? && f.ipv4.value.tcp.Some? && f.ipv4.value.tcp.value.bits & TCP_SYN == 0 ==> !r
    ensures f.ipv4.Some? && f.ipv4.value.tcp.Some? && f.ipv4.value.tcp.value.bits & TCP_ACK != 0 ==> !r
    ensures r <== && f.ethertype != ETH_TYPE_LLDP && f.ipv4.Some? && f.ipv4.value.tcp.Some?
                  && f.ipv4.value.tcp.value.bits & TCP_SYN != 0 && f.ipv4.value.tcp.value.bits & TCP_ACK == 0
  {
    && f.ethertype != ETH_TYPE_LLDP
    && f.ipv4.Some?
    && f.ipv4.value.tcp.Some?
    && SynWithoutAck(f.ipv4.value.tcp.value.bits)
  }

  /** Only the SYN and ACK bits decide: SYN+FIN or SYN+RST is accepted,
      a SYN/ACK is not. */
  lemma SynWithoutAckExamples()
    ensures SynWithoutAck(0x002) && SynWithoutAck(0x003) && SynWithoutAck(0x006)
    ensures !SynWithoutAck(0x012) && !SynWithoutAck(0x010) && !SynWithoutAck(0x000)
  {
  }
}
