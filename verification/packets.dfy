/** `struct ip_key_info`: what both capture modules keep of a packet. */
module Packets {

  datatype KeyInfo = KeyInfo(
    inDev: string, outDev: string, src: seq<nat>, dst: seq<nat>, version: nat,
    direct: nat, protocol: nat, sport: nat, dport: nat, totallen: nat)
}
