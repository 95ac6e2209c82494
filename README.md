# Ryu learning switch with client redirection — a Dafny model

This project models the controller logic of `CW2/ryu_forward.py`, an OpenFlow 1.3
application for the Ryu framework. The controller keeps one learning table per switch
(`mac_to_port`: datapath id, then Ethernet address, then port). It installs a table-miss
rule when a switch announces its features. It handles packet-in events in five steps:

1. It drops everything except TCP/IPv4 segments with SYN set and ACK clear. LLDP frames
   are dropped too.
2. It learns the source address of each accepted frame.
3. It steers connection attempts from the client `00:00:00:00:00:03` to server1
   `00:00:00:00:00:01` once server1's port is known.
4. Otherwise it behaves as a learning switch: the known port, or flood.
5. It sends a flow-mod, a packet-out, or both.

Files:

- `openflow.dfy` (module `OpenFlow`): identifiers, the reserved numbers `OFPP_FLOOD`,
  `OFPP_CONTROLLER`, `OFP_NO_BUFFER`, `OFPCML_NO_BUFFER` and `OFPCML_MAX`, which have
  the values of Ryu's `ofproto_v1_3`. It also holds the flow-mod and packet-out commands
  as abstract records.
- `packets.dfy` (module `Packets`): the decoded packet-in message (ethertype, IPv4 and
  TCP presence, TCP flag bits, source and destination address, ingress port, buffer id,
  raw bytes) and the handler's filter `Accepted`.
- `controller.dfy` (module `Controller`): the pure parts. These are `FlowModFor` (what
  `add_flow` builds), `TableMissRule`, `Learn`, `OutPort` (the decision), `NextTables`
  and `Response` (the new tables and the commands of one packet-in). It also holds class
  `RyuForward`, whose field `macToPort` is the table and whose field `sent` is every
  command sent so far. Its methods `SwitchFeatures`, `AddFlow` and `PacketIn` update
  these fields step by step, as the handlers do, and are proved against the functions.
  `Dispatch` routes an event to its handler. The file ends with the lemmas about a
  single packet-in.
- `traces.dfy` (module `Traces`): the tables and output after a whole sequence of
  events, and the lemmas about such runs.

Points where the code behaves in a way worth stating:

- Learning happens only after every filter has passed (lines 70-96), so a filtered
  frame teaches nothing; a plain learning switch would learn from every frame.
- There is no session state machine and no disconnect handling. The table is never
  cleared.
- A rule's match uses the packet's literal destination, not the redirect target
  (lines 120-123). Redirected traffic to several apparent destinations therefore gets a
  separate rule for each one.
- `add_flow` tests `if buffer_id:` (line 40), so buffer id 0 counts as "no buffer". A
  packet-in with buffer id 0 and a known port therefore installs the rule without
  releasing the buffered packet. It then returns without a packet-out, so that packet
  is never forwarded. `NonFloodResponse` states this case.
- When `add_flow` is not given a buffer, the command carries `OFP_NO_BUFFER`, the
  default of Ryu's `OFPFlowMod`. An output action with no length given carries
  `OFPCML_MAX`, the default of `OFPActionOutput`.

## Model

| member | source | states |
|---|---|---|
| `Controller.FlowModFor` | CW2/ryu_forward.py:31-52 | a flow-mod with one apply-actions instruction; priority above 0 keeps the given idle timeout, priority 0 always gets 0 (permanent); the buffer id is carried only when it is truthy (not None, not 0), otherwise the command says no buffer |
| `Controller.TableMissRule` | CW2/ryu_forward.py:19-38 | the table-miss rule is priority 0, matches all traffic, outputs to the controller with max_len OFPCML_NO_BUFFER, names no buffer and never expires, although add_flow is called with its default timeout 5 |
| `Controller.RyuForward.constructor` | CW2/ryu_forward.py:14-16 | the application starts with an empty table and has sent nothing |
| `Controller.RyuForward.AddFlow` | CW2/ryu_forward.py:31-53 | sends exactly the flow-mod FlowModFor describes and nothing else |
| `Controller.RyuForward.SwitchFeatures` | CW2/ryu_forward.py:19-29 | sends exactly one command, the table-miss rule for that switch, and leaves the table unchanged |
| `Controller.Learn` | CW2/ryu_forward.py:91-96 | switch dp's table gets src mapped to the ingress port, created if absent (setdefault); every other address of dp and every other switch's table is unchanged |
| `Controller.NextTables` | CW2/ryu_forward.py:69-96 | a filtered frame leaves the tables unchanged; an accepted frame maps its source to its ingress port at its switch and changes no other (switch, address) entry |
| `Controller.OutPort` | CW2/ryu_forward.py:99-115 | client traffic goes to server1's port when server1 is known; in every other case the port is the destination's known port, else OFPP_FLOOD |
| `Controller.Response` | CW2/ryu_forward.py:69-141 | a packet-in sends no command exactly when its frame is filtered out; an accepted one sends one or two commands, never more, all to the switch the packet came from |
| `Controller.DecidedPort` | CW2/ryu_forward.py:94-115 | the port is decided on the table after learning the source, so it is flood, the frame's own ingress port, or a port already learned at that switch |
| `Controller.PacketOutFor` | CW2/ryu_forward.py:130-140 | the packet-out goes to the packet's switch with its ingress port, the given actions and the message's buffer id; it carries the packet's bytes exactly when the buffer id is OFP_NO_BUFFER |
| `Controller.RyuForward.SendMsg` | CW2/ryu_forward.py:53 | sending a command appends exactly that command to the output and changes nothing else |
| `Controller.Step` | CW2/ryu_forward.py:19-96 | a features event leaves the tables unchanged; no event changes another switch's table; an accepted frame leaves its source mapped to its ingress port |
| `Controller.Emitted` | CW2/ryu_forward.py:19-141 | every command an event sends goes to the switch it came from; a features event sends exactly one priority-0 flow-mod; a packet-in sends at most two commands and no priority-0 rule |
| `Packets.Accepted` | CW2/ryu_forward.py:69-83 | each of the five early returns rejects the frame (ethertype LLDP at 70-71, no IPv4 at 74-76, no TCP at 77-79, SYN clear or ACK set at 82-83), and a frame that meets none of them is accepted |
| `Packets.SynWithoutAck` | CW2/ryu_forward.py:82 | the flags pass exactly when bit 1 (SYN, 0x002) is set and bit 4 (ACK, 0x010) is clear, whatever the other bits are |
| `Controller.RyuForward.PacketIn` | CW2/ryu_forward.py:55-141 | the handler's new table is NextTables of the old one, and it appends exactly Response of the old table to the output |
| `Controller.RyuForward.Dispatch` | CW2/ryu_forward.py:19-56 | a features event runs the features handler and a packet-in runs the packet-in handler, with their effects |
| `Controller.FilteredFrameDoesNothing` | CW2/ryu_forward.py:69-83 | a frame that is LLDP, lacks IPv4, lacks TCP, has SYN clear or has ACK set sends nothing and leaves the tables unchanged |
| `Controller.RedirectIgnoresDestination` | CW2/ryu_forward.py:99-105 | an accepted frame from the client, with server1 known at that switch, goes to server1's port, and changing its destination does not change the port |
| `Controller.LearnOrFloodFallback` | CW2/ryu_forward.py:94-115 | otherwise the port is the destination's port in the table before the packet, or flood; because lookup follows learning, a frame addressed to its own source goes back to its ingress port |
| `Controller.NonFloodResponse` | CW2/ryu_forward.py:117-141 | with a port other than flood: a priority-1 rule matching (ingress port, literal destination) with output to that port and timeout 5; a buffered packet's id goes in the rule and no packet-out follows; buffer id 0 gives a rule without a buffer and no packet-out; an unbuffered packet gets the rule and then a packet-out carrying its bytes |
| `Controller.FloodResponse` | CW2/ryu_forward.py:130-141 | a flood decision installs no rule and sends one packet-out to OFPP_FLOOD with the packet's buffer id, carrying the bytes exactly when the packet is not buffered |
| `Controller.RepeatedPacketIn` | CW2/ryu_forward.py:94-141 | handling the same packet-in again leaves the tables as the first handling left them and sends the same commands |
| `Controller.OnlyOwnTableMatters` | CW2/ryu_forward.py:93-115 | what a packet-in from one switch sends, and that switch's new table, depend only on that switch's table |
| `Controller.ClientRedirectScenario` | CW2/ryu_forward.py:99-141 | the client on port 3 opening a connection to server2 while server1 is on port 2 gets a rule matching (3, server2) that outputs to port 2, then a packet-out to port 2 |
| `Controller.UnknownDestinationScenario` | CW2/ryu_forward.py:106-141 | an unknown station's SYN to an unknown destination floods with one packet-out and installs no rule |
| `Packets.SynWithoutAckExamples` | CW2/ryu_forward.py:82 | only the SYN and ACK bits decide: SYN, SYN+FIN and SYN+RST pass; SYN/ACK, a bare ACK and no flags do not |
| `Traces.LookupIsLatestObservation` | CW2/ryu_forward.py:94-96 | after any sequence of events, a switch's table maps an address to the ingress port of the latest accepted frame from it at that switch; an address never observed keeps its earlier entry, or stays absent |
| `Traces.KnownIffObserved` | CW2/ryu_forward.py:14-96 | from the initial empty table, an address is known at a switch exactly when an accepted frame from it has arrived there |
| `Traces.TablesNeverShrink` | CW2/ryu_forward.py:94-96 | no event removes a learned entry |
| `Traces.ResponseHasNoPriorityZeroRule` | CW2/ryu_forward.py:117-128 | every flow-mod a packet-in sends has priority 1 |
| `Traces.EmittedPriorityZeroCount` | CW2/ryu_forward.py:19-38 | one event sends one priority-0 rule for a switch exactly when it is that switch's features event, and every priority-0 rule it sends is the table-miss rule |
| `Traces.OneTableMissRulePerFeatures` | CW2/ryu_forward.py:19-38 | over any run, a switch receives exactly one priority-0 rule per features announcement from it, and each is the table-miss rule |

## Left out

- Ryu's event dispatch (`set_ev_cls`, `CONFIG_DISPATCHER`, `MAIN_DISPATCHER`) and
  `app_manager`: `Dispatch` accepts either event at any time, with no handshake states.
- Wire encoding, and the fields of `OFPFlowMod` and `OFPPacketOut` that the code leaves
  at Ryu's defaults (command, table id, cookie, hard timeout, flags). The command records
  hold only the fields the code sets.
- `datapath.send_msg` and the transport behind it: sending appends to `sent`.
  Transmission faults are not modelled; the code handles none.
- Packet decoding (`packet.Packet`, `get_protocols`, `get_protocol`): the message
  carries an already decoded frame. A frame without an Ethernet header makes line 67
  raise; this is not modelled, because every frame in the model has an Ethernet header.
  At line 77 the code calls `ip_pkt.get_protocol(tcp.tcp)` on the `ipv4` header object.
  The model assumes this call returns the TCP header or None, as `pkt.get_protocol`
  would. Nothing in the source shows that Ryu's header classes offer this call; if they
  do not, line 77 raises for every TCP/IPv4 frame and no such frame is ever forwarded.
- Logging, the truncation check of lines 57-58, which only logs, and the unused
  variables of lines 85-88.
- Integer widths: datapath ids, ports and buffer ids are unbounded naturals, not 64- or
  32-bit fields. No operation here does arithmetic on them.
- `CW2/networkTopo.py` builds the emulated network and is not part of this model. It only
  fixes the addresses of server1 and the client used as constants (its lines 30-32).
- Sessions and disconnects: the code has none, so the model has none.
