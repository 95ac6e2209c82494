/** The learning switch with client redirection: a per-switch table from
    Ethernet address to port, the filter that lets only TCP SYN segments
    through, the forwarding decision, and the flow-mod and packet-out
    commands the two event handlers send. The decision and the command
    construction are functions; the handlers are methods of `RyuForward`,
    which owns the table and the sequence of commands sent so far. */
module Controller {
  import opened OpenFlow
  import opened Packets

  /** The client whose SYNs are steered to server1, and server1 itself. */
  const CLIENT_MAC: Mac := "00:00:00:00:00:03"
  const SERVER1_MAC: Mac := "00:00:00:00:00:01"

  /** add_flow's default idle timeout, in seconds. */
  const DEFAULT_IDLE_TIMEOUT: nat := 5
  const TABLE_MISS_PRIORITY: nat := 0
  const LEARNED_PRIORITY: nat := 1

  /** mac_to_port: datapath id, then Ethernet address, then port. */
  type Tables = map<Dpid, map<Mac, Port>>

  /** The table of one switch; a switch with no entry has an empty table. */
  function TableOf(tables: Tables, dp: Dpid): map<Mac, Port> {
    if dp in tables then tables[dp] else map[]
  }

  /** Python's truth test on add_flow's buffer_id: None and 0 are false. */
  predicate Truthy(bufferId: Option<BufferId>) {
    bufferId.Some? && bufferId.value != 0
  }

  /** The flow-mod add_flow builds: one apply-actions instruction; a rule of
      priority above 0 idles out after the given timeout, a priority-0 rule
      never expires; the buffered packet is named only when the buffer id is
      truthy, otherwise the command says "no buffer". */
  function FlowModFor(dp: Dpid, priority: nat, flowMatch: Match, actions: seq<Action>,
                      bufferId: Option<BufferId>, idleTimeout: nat): (r: Command)
    ensures r.FlowMod? && r.dpid == dp && r.priority == priority && r.flowMatch == flowMatch
    ensures r.instructions == [ApplyActions(actions)]
    ensures priority > 0 ==> r.idleTimeout == idleTimeout
    ensures priority == 0 ==> r.idleTimeout == 0
    ensures Truthy(bufferId) ==> r.bufferId == bufferId.value
    ensures !Truthy(bufferId) ==> r.bufferId == OFP_NO_BUFFER
  {
    var inst := [ApplyActions(actions)];
    var timeout := if priority > 0 then idleTimeout else 0;
    if Truthy(bufferId) then
      FlowMod(dp, priority, flowMatch, inst, bufferId.value, timeout)
    else
      FlowMod(dp, priority, flowMatch, inst, OFP_NO_BUFFER, timeout)
  }

  /** The table-miss rule: lowest priority, matches everything, sends the
      whole packet to the controller, never expires (although add_flow is
      called with its default timeout of 5). */
  function TableMissRule(dp: Dpid): (r: Command)
    ensures r == FlowMod(dp, 0, MatchAll, [ApplyActions([Output(OFPP_CONTROLLER, OFPCML_NO_BUFFER)])],
                         OFP_NO_BUFFER, 0)
  {
    FlowModFor(dp, TABLE_MISS_PRIORITY, MatchAll, [Output(OFPP_CONTROLLER, OFPCML_NO_BUFFER)],
               None, DEFAULT_IDLE_TIMEOUT)
  }

  /** Learning: switch dp's table gains (or overwrites) src -> port, creating
      the table if the switch had none; nothing else changes. */
  function Learn(tables: Tables, dp: Dpid, src: Mac, port: Port): (r: Tables)
    ensures r.Keys == tables.Keys + {dp}
    ensures src in r[dp] && r[dp][src] == port
    ensures forall m :: m != src ==> (m in r[dp] <==> m in TableOf(tables, dp))
    ensures forall m :: m != src && m in TableOf(tables, dp) ==> r[dp][m] == TableOf(tables, dp)[m]
    ensures forall d :: d in tables && d != dp ==> r[d] == tables[d]
  {
    tables[dp := TableOf(tables, dp)[src := port]]
  }

  /** Traffic from the client is steered to server1 once server1's port is known. */
  predicate Redirected(table: map<Mac, Port>, src: Mac) {
    src == CLIENT_MAC && SERVER1_MAC in table
  }

  /** Plain learning-switch forwarding: the known port, or flood. */
  function LookupOrFlood(table: map<Mac, Port>, mac: Mac): Port {
    if mac in table then table[mac] else OFPP_FLOOD
  }

  /** The output port chosen for a frame from src to dst, given the switch's
      table (already holding src). Redirected client traffic goes to
      server1's port whatever dst is; everything else goes to dst's port,
      or floods when dst is unknown. */
  function OutPort(table: map<Mac, Port>, src: Mac, dst: Mac): (p: Port)
    ensures Redirected(table, src) ==> p == table[SERVER1_MAC]
    ensures !Redirected(table, src) ==> p == LookupOrFlood(table, dst)
  {
    if src == CLIENT_MAC then
      if SERVER1_MAC in table then table[SERVER1_MAC]
      else if dst in table then table[dst]
      else OFPP_FLOOD
    else if dst in table then table[dst]
    else OFPP_FLOOD
  }

  /** The tables after a packet-in: only an accepted frame teaches anything. */
  function NextTables(tables: Tables, msg: PacketInMsg): (r: Tables)
    ensures !Accepted(msg.frame) ==> r == tables
    ensures Accepted(msg.frame) ==> r.Keys == tables.Keys + {msg.dpid}
    ensures Accepted(msg.frame) ==>
              msg.frame.src in TableOf(r, msg.dpid) && TableOf(r, msg.dpid)[msg.frame.src] == msg.inPort
    ensures forall d, m :: (d != msg.dpid || m != msg.frame.src) ==>
              (m in TableOf(r, d) <==> m in TableOf(tables, d))
    ensures forall d, m :: (d != msg.dpid || m != msg.frame.src) && m in TableOf(tables, d) ==>
              TableOf(r, d)[m] == TableOf(tables, d)[m]
  {
    if Accepted(msg.frame) then Learn(tables, msg.dpid, msg.frame.src, msg.inPort) else tables
  }

  /** The output port the handler computes for an accepted frame: the
      decision is taken on the table after learning the source, so the port
      is flood, the frame's own ingress port, or a port already learned at
      that switch. */
  function DecidedPort(tables: Tables, msg: PacketInMsg): (p: Port)
    ensures p == OFPP_FLOOD || p == msg.inPort || p in TableOf(tables, msg.dpid).Values
  {
    OutPort(TableOf(Learn(tables, msg.dpid, msg.frame.src, msg.inPort), msg.dpid),
            msg.frame.src, msg.frame.dst)
  }

  /** The packet-out the handler sends: it names the switch's buffer id and,
      when the packet is not buffered, carries the packet's bytes. */
  function PacketOutFor(msg: PacketInMsg, actions: seq<Action>): (r: Command)
    ensures r.PacketOut? && r.dpid == msg.dpid && r.inPort == msg.inPort && r.actions == actions
    ensures r.bufferId == msg.bufferId
    ensures r.data.Some? <==> msg.bufferId == OFP_NO_BUFFER
    ensures r.data.Some? ==> r.data.value == msg.data
  {
    PacketOut(msg.dpid, msg.bufferId, msg.inPort, actions,
              if msg.bufferId == OFP_NO_BUFFER then Some(msg.data) else None)
  }

  /** The commands one packet-in produces, given the tables before it:
      nothing for a filtered frame, otherwise one or two commands. */
  function Response(tables: Tables, msg: PacketInMsg): (cmds: seq<Command>)
    ensures cmds != [] <==> Accepted(msg.frame)
    ensures |cmds| <= 2
    ensures forall c :: c in cmds ==> c.dpid == msg.dpid
  {
    if !Accepted(msg.frame) then []
    else
      var outPort := DecidedPort(tables, msg);
      var actions := [Output(outPort, OFPCML_MAX)];
      if outPort != OFPP_FLOOD then
        var flowMatch := MatchInPortEthDst(msg.inPort, msg.frame.dst);
        if msg.bufferId != OFP_NO_BUFFER then
          [FlowModFor(msg.dpid, LEARNED_PRIORITY, flowMatch, actions, Some(msg.bufferId), DEFAULT_IDLE_TIMEOUT)]
        else
          [FlowModFor(msg.dpid, LEARNED_PRIORITY, flowMatch, actions, None, DEFAULT_IDLE_TIMEOUT),
           PacketOutFor(msg, actions)]
      else
        [PacketOutFor(msg, actions)]
  }

  /** The two events the controller handles. */
  datatype Event =
    | SwitchFeaturesEvent(dpid: Dpid)
    | PacketInEvent(msg: PacketInMsg)
  {
    /** The switch the event comes from. */
    function Switch(): Dpid {
      match this
      case SwitchFeaturesEvent(dp) => dp
      case PacketInEvent(msg) => msg.dpid
    }
  }

  /** The tables after one event: a features event changes nothing, and no
      event touches the table of another switch than its own; an accepted
      frame leaves its source mapped to its ingress port. */
  function Step(tables: Tables, ev: Event): (r: Tables)
    ensures ev.SwitchFeaturesEvent? ==> r == tables
    ensures forall d :: d != ev.Switch() ==> TableOf(r, d) == TableOf(tables, d)
    ensures ev.PacketInEvent? && Accepted(ev.msg.frame) ==>
              ev.msg.frame.src in TableOf(r, ev.Switch()) && TableOf(r, ev.Switch())[ev.msg.frame.src] == ev.msg.inPort
  {
    match ev
    case SwitchFeaturesEvent(_) => tables
    case PacketInEvent(msg) => NextTables(tables, msg)
  }

  /** The commands one event produces, given the tables before it: all go
      to the switch the event came from; a features event sends one
      priority-0 rule, a packet-in at most two commands and no priority-0 rule. */
  function Emitted(tables: Tables, ev: Event): (cmds: seq<Command>)
    ensures forall c :: c in cmds ==> c.dpid == ev.Switch()
    ensures ev.SwitchFeaturesEvent? ==> |cmds| == 1 && cmds[0].FlowMod? && cmds[0].priority == 0
    ensures ev.PacketInEvent? ==> |cmds| <= 2 && forall c :: c in cmds && c.FlowMod? ==> c.priority != 0
  {
    match ev
    case SwitchFeaturesEvent(dp) => [TableMissRule(dp)]
    case PacketInEvent(msg) => Response(tables, msg)
  }

  /** The controller application: the learning tables and every command sent
      to any switch so far, oldest first. */
  class RyuForward {
    var macToPort: Tables
    var sent: seq<Command>

    constructor ()
      ensures macToPort == map[] && sent == []
    {
      macToPort := map[];
      sent := [];
    }

    /** Sending a command to its switch appends it to the output. */
    method SendMsg(cmd: Command)
      modifies this`sent
      ensures sent == old(sent) + [cmd]
    {
      sent := sent + [cmd];
    }

    /** Sends the flow-mod FlowModFor describes. */
    method AddFlow(dp: Dpid, priority: nat, flowMatch: Match, actions: seq<Action>,
                   bufferId: Option<BufferId>, idleTimeout: nat)
      modifies this`sent
      ensures sent == old(sent) + [FlowModFor(dp, priority, flowMatch, actions, bufferId, idleTimeout)]
    {
      var mod := FlowModFor(dp, priority, flowMatch, actions, bufferId, idleTimeout);
      SendMsg(mod);
    }

    /** A switch announced its features: install the table-miss rule. */
    method SwitchFeatures(dp: Dpid)
      modifies this`sent
      ensures macToPort == old(macToPort)
      ensures sent == old(sent) + [TableMissRule(dp)]
    {
      var flowMatch := MatchAll;
      var actions := [Output(OFPP_CONTROLLER, OFPCML_NO_BUFFER)];
      AddFlow(dp, TABLE_MISS_PRIORITY, flowMatch, actions, None, DEFAULT_IDLE_TIMEOUT);
    }

    /** A packet reached the controller: filter, learn, decide, and send a
      flow-mod, a packet-out, or both. */
    method PacketIn(msg: PacketInMsg)
      modifies this
      ensures macToPort == NextTables(old(macToPort), msg)
      ensures sent == old(sent) + Response(old(macToPort), msg)
    {
      var eth := msg.frame;
      if eth.ethertype == ETH_TYPE_LLDP {
        return;
      }
      if eth.ipv4.None? {
        return;
      }
      var ipPkt := eth.ipv4.value;
      if ipPkt.tcp.None? {
        return;
      }
      var tcpPkt := ipPkt.tcp.value;
      if tcpPkt.bits & TCP_SYN == 0 || tcpPkt.bits & TCP_ACK != 0 {
        return;
      }

      var dst, src, dpid := eth.dst, eth.src, msg.dpid;
      if dpid !in macToPort {
        macToPort := macToPort[dpid := map[]];
      }
      var learned: map<Mac, Port> := macToPort[dpid][src := msg.inPort];
      macToPort := macToPort[dpid := learned];

      var outPort := OutPort(macToPort[dpid], src, dst);
      var actions := [Output(outPort, OFPCML_MAX)];

      if outPort != OFPP_FLOOD {
        var flowMatch := MatchInPortEthDst(msg.inPort, dst);
        if msg.bufferId != OFP_NO_BUFFER {
          AddFlow(dpid, LEARNED_PRIORITY, flowMatch, actions, Some(msg.bufferId), DEFAULT_IDLE_TIMEOUT);
          return;
        } else {
          AddFlow(dpid, LEARNED_PRIORITY, flowMatch, actions, None, DEFAULT_IDLE_TIMEOUT);
        }
      }

      var data: Option<Bytes> := None;
      if msg.bufferId == OFP_NO_BUFFER {
        data := Some(msg.data);
      }
      var out := PacketOut(dpid, msg.bufferId, msg.inPort, actions, data);
      SendMsg(out);
    }

    /** Hands an event to its handler. */
    method Dispatch(ev: Event)
      modifies this
      ensures macToPort == Step(old(macToPort), ev)
      ensures sent == old(sent) + Emitted(old(macToPort), ev)
    {
      match ev
      case SwitchFeaturesEvent(dp) => SwitchFeatures(dp);
      case PacketInEvent(msg) => PacketIn(msg);
    }
  }

  /** A frame stopped by any of the handler's filters sends nothing and
      teaches nothing. */
  lemma FilteredFrameDoesNothing(tables: Tables, msg: PacketInMsg)
    requires || msg.frame.ethertype == ETH_TYPE_LLDP
             || msg.frame.ipv4.None?
             || msg.frame.ipv4.value.tcp.None?
             || msg.frame.ipv4.value.tcp.value.bits & TCP_SYN == 0
             || msg.frame.ipv4.value.tcp.value.bits & TCP_ACK != 0
    ensures Response(tables, msg) == []
    ensures NextTables(tables, msg) == tables
  {
  }

  /** Redirect: an accepted SYN from the client goes to server1's known port,
      and the packet's own destination plays no part in the choice. */
  lemma RedirectIgnoresDestination(tables: Tables, msg: PacketInMsg, otherDst: Mac)
    requires Accepted(msg.frame)
    requires msg.frame.src == CLIENT_MAC && SERVER1_MAC in TableOf(tables, msg.dpid)
    ensures DecidedPort(tables, msg) == TableOf(tables, msg.dpid)[SERVER1_MAC]
    ensures DecidedPort(tables, msg.(frame := msg.frame.(dst := otherDst))) == DecidedPort(tables, msg)
  {
  }

  /** Fallback: in every other case the port is the destination's, looked up
      after learning (so a frame addressed to its own source goes back to
      the ingress port), or flood when the destination is unknown. */
  lemma LearnOrFloodFallback(tables: Tables, msg: PacketInMsg)
    requires Accepted(msg.frame)
    requires !(msg.frame.src == CLIENT_MAC && SERVER1_MAC in TableOf(tables, msg.dpid))
    ensures DecidedPort(tables, msg) ==
              if msg.frame.dst == msg.frame.src then msg.inPort
              else LookupOrFlood(TableOf(tables, msg.dpid), msg.frame.dst)
  {
  }

  /** A decided port other than flood installs a priority-1 rule for the
      ingress port and the packet's literal destination, idling out after 5.
      A buffered packet is released by the rule itself and no packet-out
      follows, except that buffer id 0 fails add_flow's truth test: the rule
      is sent without a buffer and the packet is not forwarded at all. An
      unbuffered packet is sent on by a packet-out carrying its bytes. */
  lemma NonFloodResponse(tables: Tables, msg: PacketInMsg)
    requires Accepted(msg.frame)
    requires DecidedPort(tables, msg) != OFPP_FLOOD
    ensures var actions := [Output(DecidedPort(tables, msg), OFPCML_MAX)];
            var flowMatch := MatchInPortEthDst(msg.inPort, msg.frame.dst);
            && (msg.bufferId != OFP_NO_BUFFER && msg.bufferId != 0 ==>
                  Response(tables, msg) ==
                    [FlowMod(msg.dpid, 1, flowMatch, [ApplyActions(actions)], msg.bufferId, 5)])
            && (msg.bufferId == 0 ==>
                  Response(tables, msg) ==
                    [FlowMod(msg.dpid, 1, flowMatch, [ApplyActions(actions)], OFP_NO_BUFFER, 5)])
            && (msg.bufferId == OFP_NO_BUFFER ==>
                  Response(tables, msg) ==
                    [FlowMod(msg.dpid, 1, flowMatch, [ApplyActions(actions)], OFP_NO_BUFFER, 5),
                     PacketOut(msg.dpid, OFP_NO_BUFFER, msg.inPort, actions, Some(msg.data))])
  {
  }

  /** A flood decision installs no rule: one packet-out to OFPP_FLOOD naming
      the packet's buffer id, with the bytes only when it is not buffered. */
  lemma FloodResponse(tables: Tables, msg: PacketInMsg)
    requires Accepted(msg.frame)
    requires DecidedPort(tables, msg) == OFPP_FLOOD
    ensures Response(tables, msg) ==
              [PacketOut(msg.dpid, msg.bufferId, msg.inPort, [Output(OFPP_FLOOD, OFPCML_MAX)],
                         if msg.bufferId == OFP_NO_BUFFER then Some(msg.data) else None)]
  {
  }

  /** Handling the same packet-in twice changes nothing the first did not,
      and the second time sends the same commands as the first. */
  lemma RepeatedPacketIn(tables: Tables, msg: PacketInMsg)
    ensures NextTables(NextTables(tables, msg), msg) == NextTables(tables, msg)
    ensures Response(NextTables(tables, msg), msg) == Response(tables, msg)
  {
    if Accepted(msg.frame) {
      var once := TableOf(NextTables(tables, msg), msg.dpid);
      assert once[msg.frame.src := msg.inPort] == once;
    }
  }

  /** The switches do not interfere: what a packet-in from switch dp sends,
      and what dp's table becomes, depend on dp's own table only. */
  lemma OnlyOwnTableMatters(t1: Tables, t2: Tables, msg: PacketInMsg)
    requires TableOf(t1, msg.dpid) == TableOf(t2, msg.dpid)
    ensures Response(t1, msg) == Response(t2, msg)
    ensures TableOf(NextTables(t1, msg), msg.dpid) == TableOf(NextTables(t2, msg), msg.dpid)
  {
  }

  /** The client (port 3) opens a connection to server2 while server1 is
      known on port 2: the rule matches server2's address but outputs to
      port 2, and the unbuffered packet follows on port 2. */
  lemma ClientRedirectScenario(data: Bytes)
    ensures var server2 := "00:00:00:00:00:02";
            var msg := PacketInMsg(1, 3, OFP_NO_BUFFER, data,
                                   EthernetFrame(0x0800, CLIENT_MAC, server2,
                                                 Some(Ipv4Packet(Some(TcpHeader(TCP_SYN))))));
            Response(map[1 := map[SERVER1_MAC := 2]], msg) ==
              [FlowMod(1, 1, MatchInPortEthDst(3, server2), [ApplyActions([Output(2, OFPCML_MAX)])],
                       OFP_NO_BUFFER, 5),
               PacketOut(1, OFP_NO_BUFFER, 3, [Output(2, OFPCML_MAX)], Some(data))]
  {
  }

  /** An unknown station opens a connection to server2, whose port is not
      known: the packet floods and no rule is installed. */
  lemma UnknownDestinationScenario(data: Bytes)
    ensures var server2 := "00:00:00:00:00:02";
            var msg := PacketInMsg(1, 4, 7, data,
                                   EthernetFrame(0x0800, "00:00:00:00:00:99", server2,
                                                 Some(Ipv4Packet(Some(TcpHeader(TCP_SYN))))));
            Response(map[1 := map[SERVER1_MAC := 2]], msg) ==
              [PacketOut(1, 7, 4, [Output(OFPP_FLOOD, OFPCML_MAX)], None)]
  {
  }
}
