/** The part of the OpenFlow 1.3 vocabulary the controller uses: identifiers,
    the reserved port and buffer numbers, and the two commands it sends to a
    switch (flow-mod and packet-out) as abstract records. Wire encoding is not
    modelled; a command is the value handed to the switch connection. */
module OpenFlow {

  datatype Option<+T> = None | Some(value: T)

  /** Datapath (switch) identifier. */
  type Dpid = nat
  /** Switch port number. */
  type Port = nat
  /** Identifier of a packet held in the switch's buffer. */
  type BufferId = nat
  /** Ethernet address in Ryu's textual form, e.g. "00:00:00:00:00:01". */
  type Mac = string
  type Bytes = seq<bv8>

  /** Reserved port: all physical ports except the ingress port. */
  const OFPP_FLOOD: Port := 0xffff_fffb
  /** Reserved port: send to the controller. */
  const OFPP_CONTROLLER: Port := 0xffff_fffd
  /** Buffer id meaning "the packet is not buffered on the switch". */
  const OFP_NO_BUFFER: BufferId := 0xffff_ffff
  /** Output max_len: send the whole packet to the controller, unbuffered. */
  const OFPCML_NO_BUFFER: nat := 0xffff
  /** Output max_len that an output action carries when none is given. */
  const OFPCML_MAX: nat := 0xffe5

  /** An output action: send to `port`; `maxLen` bytes go to the controller. */
  datatype Action = Output(port: Port, maxLen: nat)

  /** The only instruction the controller uses: apply these actions now. */
  datatype Instruction = ApplyActions(actions: seq<Action>)

  /** A flow match: either all traffic, or one ingress port and destination. */
  datatype Match =
    | MatchAll
    | MatchInPortEthDst(inPort: Port, ethDst: Mac)

  /** A command sent to switch `dpid`. An idle timeout of 0 means the rule
      never expires; a flow-mod whose buffer id is not OFP_NO_BUFFER also
      applies the new rule to that buffered packet. */
  datatype Command =
    | FlowMod(dpid: Dpid, priority: nat, flowMatch: Match, instructions: seq<Instruction>,
              bufferId: BufferId, idleTimeout: nat)
    | PacketOut(dpid: Dpid, bufferId: BufferId, inPort: Port, actions: seq<Action>,
                data: Option<Bytes>)
}
