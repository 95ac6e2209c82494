/** Runs of the controller: the tables and the commands sent after a sequence
    of events, each handed to `RyuForward.Dispatch` in the order the switches
    delivered them, starting from the tables `tables`. */
module Traces {
  import opened OpenFlow
  import opened Packets
  import opened Controller

  /** The tables after the events `evs`. */
  function TablesAfter(tables: Tables, evs: seq<Event>): Tables
    decreases |evs|
  {
    if evs == [] then tables
    else Step(TablesAfter(tables, evs[..|evs| - 1]), evs[|evs| - 1])
  }

  /** Every command sent while handling the events `evs`, oldest first. */
  function SentAfter(tables: Tables, evs: seq<Event>): seq<Command>
    decreases |evs|
  {
    if evs == [] then []
    else
      var before := evs[..|evs| - 1];
      SentAfter(tables, before) + Emitted(TablesAfter(tables, before), evs[|evs| - 1])
  }

  /** The event is an accepted frame from `mac` arriving at switch `dp`. */
  predicate Observes(ev: Event, dp: Dpid, mac: Mac) {
    ev.PacketInEvent? && Accepted(ev.msg.frame) && ev.msg.dpid == dp && ev.msg.frame.src == mac
  }

  /** The ingress port of the last event that observes `mac` at `dp`, if any. */
  function LatestPort(evs: seq<Event>, dp: Dpid, mac: Mac): Option<Port>
    decreases |evs|
  {
    if evs == [] then None
    else if Observes(evs[|evs| - 1], dp, mac) then Some(evs[|evs| - 1].msg.inPort)
    else LatestPort(evs[..|evs| - 1], dp, mac)
  }

  /** A switch's table maps an address to the port of the most recent
      accepted frame from it; an address never observed keeps whatever entry
      it had (filtered frames and other switches' frames teach nothing). */
  lemma {:induction false} LookupIsLatestObservation(tables: Tables, evs: seq<Event>, dp: Dpid, mac: Mac)
    ensures var table := TableOf(TablesAfter(tables, evs), dp);
            match LatestPort(evs, dp, mac)
            case Some(p) => mac in table && table[mac] == p
            case None =>
              && (mac in table <==> mac in TableOf(tables, dp))
              && (mac in table ==> table[mac] == TableOf(tables, dp)[mac])
    decreases |evs|
  {
    if evs != [] {
      LookupIsLatestObservation(tables, evs[..|evs| - 1], dp, mac);
    }
  }

  /** From the empty start, an address is known at a switch exactly when an
      accepted frame from it has arrived there, and then with the latest port. */
  lemma KnownIffObserved(evs: seq<Event>, dp: Dpid, mac: Mac)
    ensures mac in TableOf(TablesAfter(map[], evs), dp) <==> LatestPort(evs, dp, mac).Some?
    ensures LatestPort(evs, dp, mac).Some? ==>
              TableOf(TablesAfter(map[], evs), dp)[mac] == LatestPort(evs, dp, mac).value
  {
    LookupIsLatestObservation(map[], evs, dp, mac);
  }

  /** The table is never cleared: a known address stays known. */
  lemma TablesNeverShrink(tables: Tables, evs: seq<Event>, dp: Dpid, mac: Mac)
    requires mac in TableOf(tables, dp)
    ensures mac in TableOf(TablesAfter(tables, evs), dp)
  {
    LookupIsLatestObservation(tables, evs, dp, mac);
  }

  /** A flow-mod of priority 0 for switch dp. */
  predicate IsPriorityZeroRule(cmd: Command, dp: Dpid) {
    cmd.FlowMod? && cmd.dpid == dp && cmd.priority == 0
  }

  /** The number of priority-0 flow-mods for dp among `cmds`. */
  function PriorityZeroCount(cmds: seq<Command>, dp: Dpid): nat
    decreases |cmds|
  {
    if cmds == [] then 0
    else PriorityZeroCount(cmds[..|cmds| - 1], dp) + (if IsPriorityZeroRule(cmds[|cmds| - 1], dp) then 1 else 0)
  }

  /** The number of switch-features events from dp among `evs`. */
  function FeaturesCount(evs: seq<Event>, dp: Dpid): nat
    decreases |evs|
  {
    if evs == [] then 0
    else FeaturesCount(evs[..|evs| - 1], dp) + (if evs[|evs| - 1] == SwitchFeaturesEvent(dp) then 1 else 0)
  }

  lemma {:induction false} PriorityZeroCountAppend(a: seq<Command>, b: seq<Command>, dp: Dpid)
    ensures PriorityZeroCount(a + b, dp) == PriorityZeroCount(a, dp) + PriorityZeroCount(b, dp)
    decreases |b|
  {
    if b == [] {
      assert a + b == a;
    } else {
      assert (a + b)[..|a + b| - 1] == a + b[..|b| - 1];
      assert (a + b)[|a + b| - 1] == b[|b| - 1];
      PriorityZeroCountAppend(a, b[..|b| - 1], dp);
    }
  }

  lemma {:induction false} PriorityZeroCountNone(cmds: seq<Command>, dp: Dpid)
    requires forall c :: c in cmds ==> !IsPriorityZeroRule(c, dp)
    ensures PriorityZeroCount(cmds, dp) == 0
    decreases |cmds|
  {
    if cmds != [] {
      assert cmds[|cmds| - 1] in cmds;
      assert forall c :: c in cmds[..|cmds| - 1] ==> c in cmds;
      PriorityZeroCountNone(cmds[..|cmds| - 1], dp);
    }
  }

  /** A packet-in sends no priority-0 rule: what it installs is priority 1. */
  lemma ResponseHasNoPriorityZeroRule(tables: Tables, msg: PacketInMsg)
    ensures forall c :: c in Response(tables, msg) && c.FlowMod? ==> c.priority == LEARNED_PRIORITY
  {
  }

  /** Of the commands one event sends, the priority-0 flow-mods for dp are
      the one table-miss rule of a features event from dp; a packet-in never
      sends one. */
  lemma EmittedPriorityZeroCount(tables: Tables, ev: Event, dp: Dpid)
    ensures PriorityZeroCount(Emitted(tables, ev), dp) == if ev == SwitchFeaturesEvent(dp) then 1 else 0
    ensures forall c :: c in Emitted(tables, ev) && c.FlowMod? && c.priority == 0 ==> c == TableMissRule(c.dpid)
  {
    match ev
    case SwitchFeaturesEvent(d) =>
      assert [TableMissRule(d)][..0] == [];
    case PacketInEvent(msg) =>
      ResponseHasNoPriorityZeroRule(tables, msg);
      PriorityZeroCountNone(Response(tables, msg), dp);
  }

  /** Every priority-0 rule sent is the table-miss rule, and a switch gets
      exactly as many as it sent features announcements: one per announcement. */
  lemma {:induction false} OneTableMissRulePerFeatures(tables: Tables, evs: seq<Event>, dp: Dpid)
    ensures PriorityZeroCount(SentAfter(tables, evs), dp) == FeaturesCount(evs, dp)
    ensures forall c :: c in SentAfter(tables, evs) && c.FlowMod? && c.priority == 0 ==> c == TableMissRule(c.dpid)
    decreases |evs|
  {
    if evs != [] {
      var before := evs[..|evs| - 1];
      var last := Emitted(TablesAfter(tables, before), evs[|evs| - 1]);
      OneTableMissRulePerFeatures(tables, before, dp);
      PriorityZeroCountAppend(SentAfter(tables, before), last, dp);
      EmittedPriorityZeroCount(TablesAfter(tables, before), evs[|evs| - 1], dp);
    }
  }
}
