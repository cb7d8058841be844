/** Forwarding rules as the control plane stores them and agents receive them. */
module Domain {

  datatype Option<+T> = None | Some(value: T)

  function Min(a: int, b: int): int {
    if a <= b then a else b
  }

  type Port = p: nat | p < 65536

  /** Both wire fields are free text; only the named values are accepted. */
  datatype Protocol = Tcp | Udp | TcpUdp | OtherProtocol(text: string)
  datatype Mode = Direct | Relay | OtherMode(text: string)

  const MAX_BANDWIDTH_KBPS: nat := 10_000_000

  /** What the libraries decide about text: trimming, private IPv4 addresses, CIDR blocks. */
  datatype Parsers = Parsers(trim: string -> string, privateAddress: string -> bool, cidr: string -> bool)

  /** Live counters a heartbeat overwrites without a new configuration version. */
  datatype Counters = Counters(active: nat, bytesIn: nat, bytesOut: nat, updated: int)

  const ZERO_COUNTERS := Counters(0, 0, 0, 0)

  datatype Endpoint = Endpoint(host: string, port: Port)

  datatype Access = Access(allow: seq<string>, deny: seq<string>)

  /** The configuration versions at which ingress and egress first carry the rule. */
  datatype Stamps = Stamps(ingress: nat, egress: nat)

  datatype Rule = Rule(
    id: string, name: string, protocol: Protocol, mode: Mode, ingress: string, egress: string,
    listen: Endpoint, target: Endpoint, relay: Endpoint,
    enabled: bool, bandwidthKbps: nat, maxConnections: nat, access: Access,
    stamps: Stamps, counters: Counters)
  {
    /** The rule without the fields that change under a fixed configuration version. */
    function Static(): Rule {
      this.(relay := relay.(host := ""), counters := ZERO_COUNTERS)
    }

    predicate UsesTcp() {
      protocol == Tcp || protocol == TcpUdp
    }

    predicate UsesUdp() {
      protocol == Udp || protocol == TcpUdp
    }

    predicate Valid(parsers: Parsers) {
      && parsers.trim(id) != ""
      && parsers.trim(name) != ""
      && !protocol.OtherProtocol?
      && !mode.OtherMode?
      && ingress != ""
      && (mode == Relay ==>
            && egress != ""
            && ingress != egress
            && relay.port != 0
            && (enabled ==> ValidTunnelAddress(relay.host, parsers)))
      && (mode == Direct ==> relay == Endpoint("", 0) && egress == "")
      && listen.port != 0 && target.port != 0
      && bandwidthKbps <= MAX_BANDWIDTH_KBPS
      && parsers.trim(target.host) != ""
      && (forall block | block in access.allow :: parsers.cidr(block))
      && (forall block | block in access.deny :: parsers.cidr(block))
    }
  }

  predicate ValidTunnelAddress(value: string, parsers: Parsers) {
    parsers.privateAddress(parsers.trim(value))
  }

  predicate ProtocolsOverlap(first: Protocol, second: Protocol) {
    first == TcpUdp || second == TcpUdp || first == second
  }
}
