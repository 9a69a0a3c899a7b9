/** From an IPv4 packet to the key it is looked up by (`hookfn` of `nfstat/nfs_hook.c`). */
module NfsHook {
  import opened Wrappers
  import opened NfsRule

  const IPPROTO_ICMP: nat := 1
  const IPPROTO_IGMP: nat := 2
  const IPPROTO_TCP: nat := 6
  const IPPROTO_UDP: nat := 17
  const IPPROTO_SCTP: nat := 132

  /** What `hookfn` reads of a packet. `transport` is the transport header, with source and
      destination port in host order; None where the kernel has no header to give. */
  datatype Packet = Packet(
    version: nat, protocol: nat, saddr: seq<nat>, daddr: seq<nat>,
    hasIn: bool, hasOut: bool, transport: Option<(nat, nat)>, len: nat)

  predicate IsPacket(p: Packet) { |p.saddr| == 4 && |p.daddr| == 4 }

  function Four(bytes: seq<nat>): IpAddr
    requires |bytes| == 4
  {
    IpAddr(4, seq(3, _ => 0), bytes + seq(12, _ => 0))
  }

  predicate HasPorts(protocol: nat) {
    protocol == IPPROTO_TCP || protocol == IPPROTO_UDP || protocol == IPPROTO_SCTP
  }

  predicate NeedsHeader(protocol: nat) {
    HasPorts(protocol) || protocol == IPPROTO_ICMP || protocol == IPPROTO_IGMP
  }

  /** The key of a packet: direction from the interfaces present, "local" the side that is this host's
      for incoming and forwarded traffic the destination, and no ports outside TCP, UDP and SCTP.
      None if the packet passes uncounted. */
  function KeyOf(p: Packet): Option<Rule>
    requires IsPacket(p)
  {
    if p.version != 4 || (NeedsHeader(p.protocol) && p.transport.None?) then None
    else
      var dir := (if p.hasIn then 1 else 0) + (if p.hasOut then 2 else 0);
      var sport := if HasPorts(p.protocol) then p.transport.value.0 else 0;
      var dport := if HasPorts(p.protocol) then p.transport.value.1 else 0;
      Some(Rule(
        Four(if p.hasIn then p.daddr else p.saddr), Four(if p.hasIn then p.saddr else p.daddr),
        if dir == NFS_OUT then sport else dport, if dir == NFS_OUT then dport else sport,
        p.protocol, dir, 0))
  }

  /** A packet is looked up exactly if it is IPv4 and, for TCP, UDP, SCTP, ICMP and IGMP, has a transport
      header. All others pass uncounted. */
  lemma KeyedIff(p: Packet)
    requires IsPacket(p)
    ensures KeyOf(p).Some? <==> p.version == 4 && (p.protocol in {6, 17, 132, 1, 2} ==> p.transport.Some?)
  {
  }

  /** An IPv4 address as the hook writes it: four bytes, then zeroes. */
  ghost predicate IsFour(a: IpAddr, bytes: seq<nat>) {
    a.len == 4 && a.padding == [0, 0, 0] && a.addr == bytes + [0, 0, 0, 0, 0, 0, 0, 0, 0, 0, 0, 0]
  }

  /** The ports of TCP, UDP and SCTP: local is the source port of what only goes out, else the target port. */
  ghost predicate PortsAre(p: Packet, lport: nat, rport: nat) {
    if p.protocol in {6, 17, 132} then
      && p.transport.Some?
      && (lport, rport) == if p.hasOut && !p.hasIn then p.transport.value
                           else (p.transport.value.1, p.transport.value.0)
    else lport == rport == 0
  }

  /** Every field of the key. */
  lemma KeyIs(p: Packet)
    requires IsPacket(p) && KeyOf(p).Some?
    ensures var k := KeyOf(p).value;
      && k.typeidx == 0 && k.protocol == p.protocol && k.dir == (if p.hasIn then 1 else 0) + (if p.hasOut then 2 else 0)
      && IsFour(k.lip, if p.hasIn then p.daddr else p.saddr) && IsFour(k.rip, if p.hasIn then p.saddr else p.daddr)
      && PortsAre(p, k.lport, k.rport)
  {
    FourIs(p.saddr);
    FourIs(p.daddr);
  }

  lemma FourIs(bytes: seq<nat>)
    requires |bytes| == 4
    ensures IsFour(Four(bytes), bytes)
  {
    assert seq(12, _ => 0) == [0, 0, 0, 0, 0, 0, 0, 0, 0, 0, 0, 0];
    assert seq(3, _ => 0) == [0, 0, 0];
  }

  /** One side of a packet; port 0 where the protocol has none. */
  datatype End = End(addr: seq<nat>, port: nat)

  function Source(p: Packet): End {
    End(p.saddr, if HasPorts(p.protocol) && p.transport.Some? then p.transport.value.0 else 0)
  }

  function Target(p: Packet): End {
    End(p.daddr, if HasPorts(p.protocol) && p.transport.Some? then p.transport.value.1 else 0)
  }

  /** This host is the target of what comes in, also of what is forwarded, and the source of the rest. */
  function LocalEnd(p: Packet): End { if p.hasIn then Target(p) else Source(p) }

  function RemoteEnd(p: Packet): End { if p.hasIn then Source(p) else Target(p) }

  ghost predicate EndMeets(e: End, ip: IpAddr, port: nat) {
    && (ip.len == 0 || (ip.len == 4 && ip.addr[..4] == e.addr))
    && (port == 0 || e.port == 0 || port == e.port)
  }

  ghost predicate DirMeets(p: Packet, dir: nat) {
    || dir == NFS_ALL
    || (dir == NFS_IN && p.hasIn && !p.hasOut)
    || (dir == NFS_OUT && !p.hasIn && p.hasOut)
    || (dir == NFS_FORWARD && p.hasIn && p.hasOut)
  }

  lemma FourMatches(bytes: seq<nat>, ip: IpAddr)
    requires |bytes| == 4
    ensures AddrMatches(Four(bytes), ip) <==> ip.len == 0 || (ip.len == 4 && ip.addr[..4] == bytes)
  {
    assert Four(bytes).addr[..4] == bytes;
  }

  /** What a rule asks of a packet: its protocol, its direction, and both ends, address and port together. */
  lemma RuleMeans(p: Packet, r: Rule)
    requires IsPacket(p) && KeyOf(p).Some? && (p.hasIn || p.hasOut)
    ensures Compatible(KeyOf(p).value, r) <==>
      && p.protocol == r.protocol && DirMeets(p, r.dir)
      && EndMeets(LocalEnd(p), r.lip, r.lport) && EndMeets(RemoteEnd(p), r.rip, r.rport)
  {
    FourMatches(LocalEnd(p).addr, r.lip);
    FourMatches(RemoteEnd(p).addr, r.rip);
  }

  /** Field by field, as the hook fills the record. */
  method FillKey(p: Packet) returns (key: Option<Rule>)
    requires IsPacket(p)
    ensures key == KeyOf(p)
    ensures key.Some? <==> p.version == 4 && (p.protocol in {6, 17, 132, 1, 2} ==> p.transport.Some?)
  {
    if p.version != 4 {
      return None;
    }
    var dir: nat := 0;
    if p.hasIn {
      dir := dir + 1;
    }
    if p.hasOut {
      dir := dir + 2;
    }
    var lip, rip;
    if p.hasIn {
      lip, rip := Four(p.daddr), Four(p.saddr);
    } else {
      lip, rip := Four(p.saddr), Four(p.daddr);
    }
    var lport: nat, rport: nat := 0, 0;
    if HasPorts(p.protocol) {
      if p.transport.None? {
        return None;
      }
      lport := if dir == NFS_OUT then p.transport.value.0 else p.transport.value.1;
      rport := if dir == NFS_OUT then p.transport.value.1 else p.transport.value.0;
    } else if p.protocol == IPPROTO_ICMP || p.protocol == IPPROTO_IGMP {
      if p.transport.None? {
        return None;
      }
    }
    return Some(Rule(lip, rip, lport, rport, p.protocol, dir, 0));
  }
}
