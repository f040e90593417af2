/** What the commands do to a port once the switch has applied them, as far
    as the voice configuration read back shows; used to state when a second
    reconciliation run has nothing left to do. */
module Convergence {
  import opened Base
  import opened PortConfig
  import opened Commands

  /** The port record the switch reports after one command. A negative
      number or the unsupplied VLAN is refused by the switch and changes
      nothing; enabling an enabled LLDP option changes nothing. */
  function ApplyCmd(port: Port, c: Cmd): Port {
    match c
    case SetVlan(v) => if v.Vlan? && v.id >= 0 then port.(voiceVlan := Num(v.id)) else port
    case ClearVlan => port.(voiceVlan := No)
    case SetDscp(d) => if d >= 0 then port.(voiceDscp := Num(d)) else port
    case ClearDscp => port.(voiceDscp := No)
    case EnableLldp(x) => if x in port.lldp then port else port.(lldp := port.lldp + [x])
  }

  function Apply(port: Port, cs: seq<Cmd>): Port
    decreases |cs|
  {
    if |cs| == 0 then port else Apply(ApplyCmd(port, cs[0]), cs[1..])
  }

  lemma {:induction false} ApplyAppend(port: Port, a: seq<Cmd>, b: seq<Cmd>)
    ensures Apply(port, a + b) == Apply(Apply(port, a), b)
    decreases |a|
  {
    if |a| > 0 {
      assert (a + b)[1..] == a[1..] + b;
      ApplyAppend(ApplyCmd(port, a[0]), a[1..], b);
    } else {
      assert a + b == b;
    }
  }

  /** Enabling options leaves VLAN and DSCP alone, keeps every enabled
      option and enables every given one. */
  lemma {:induction false} ApplyEnables(port: Port, opts: seq<string>)
    ensures Apply(port, Enables(opts)).voiceVlan == port.voiceVlan
    ensures Apply(port, Enables(opts)).voiceDscp == port.voiceDscp
    ensures forall x :: x in port.lldp ==> x in Apply(port, Enables(opts)).lldp
    ensures forall x :: x in opts ==> x in Apply(port, Enables(opts)).lldp
    decreases |opts|
  {
    if |opts| > 0 {
      assert Enables(opts)[1..] == Enables(opts[1..]);
      var p' := ApplyCmd(port, EnableLldp(opts[0]));
      ApplyEnables(p', opts[1..]);
      assert opts[0] in p'.lldp;
    }
  }

  lemma NothingNewWhenAllEnabled(requested: seq<string>, enabled: seq<string>)
    requires forall x :: x in requested ==> x in enabled
    ensures NewOptions(requested, enabled) == []
  {
  }

  /** Idempotence of `present`: once the switch has applied the commands,
      a second run for the same entry emits nothing, provided the VLAN and
      DSCP are ones the switch accepts and, when no DSCP is requested, the
      port reports DSCP 0. */
  lemma PresentConverges(e: Entry, port: Port, key: string)
    requires e.state == Present && e.vlan.Vlan? && e.vlan.id >= 0
    requires e.dscp.Some? ==> e.dscp.value >= 0
    requires e.dscp.None? ==> port.voiceDscp == Num(0)
    ensures PortCommands(e, Apply(port, PortCommands(e, port, key)), key) == []
  {
    if !IsFibre(key) {
      var v := VlanStep(e.vlan, port.voiceVlan);
      var d := DscpStep(e.dscp, port.voiceDscp);
      var opts := NewOptions(Requested(e.lldp), port.lldp);
      assert PortCommands(e, port, key) == (v + d) + Enables(opts);
      ApplyAppend(port, v + d, Enables(opts));
      var mid := Apply(port, v + d);
      SettingsApplied(e, port);
      ApplyEnables(mid, opts);
      var after := Apply(mid, Enables(opts));
      assert VlanStep(e.vlan, after.voiceVlan) == [];
      assert DscpStep(e.dscp, after.voiceDscp) == [];
      assert forall x :: x in Requested(e.lldp) ==> x in after.lldp;
      NothingNewWhenAllEnabled(Requested(e.lldp), after.lldp);
      assert PortCommands(e, after, key) == [] + [] + Enables([]);
    }
  }

  /** After the VLAN and DSCP steps the port holds the requested VLAN and
      DSCP, and its LLDP options are untouched. */
  lemma SettingsApplied(e: Entry, port: Port)
    requires e.vlan.Vlan? && e.vlan.id >= 0
    requires e.dscp.Some? ==> e.dscp.value >= 0
    requires e.dscp.None? ==> port.voiceDscp == Num(0)
    ensures Apply(port, VlanStep(e.vlan, port.voiceVlan) + DscpStep(e.dscp, port.voiceDscp)).voiceVlan == Num(e.vlan.id)
    ensures Apply(port, VlanStep(e.vlan, port.voiceVlan) + DscpStep(e.dscp, port.voiceDscp)).voiceDscp
      == if e.dscp.Some? then Num(e.dscp.value) else Num(0)
    ensures Apply(port, VlanStep(e.vlan, port.voiceVlan) + DscpStep(e.dscp, port.voiceDscp)).lldp == port.lldp
  {
    var v := VlanStep(e.vlan, port.voiceVlan);
    var d := DscpStep(e.dscp, port.voiceDscp);
    ApplyAppend(port, v, d);
    var p1 := Apply(port, v);
    assert p1.voiceVlan == Num(e.vlan.id) && p1.voiceDscp == port.voiceDscp && p1.lldp == port.lldp;
    var p2 := Apply(p1, d);
    assert p2.voiceVlan == p1.voiceVlan && p2.lldp == p1.lldp;
  }

  /** Idempotence of `absent`: after the clearing commands, a second run
      emits nothing. */
  lemma AbsentConverges(e: Entry, port: Port, key: string)
    requires e.state == Absent
    ensures PortCommands(e, Apply(port, PortCommands(e, port, key)), key) == []
  {
    var after := Apply(port, PortCommands(e, port, key));
    ApplyAppend(port, if port.voiceVlan != No then [ClearVlan] else [], if port.voiceDscp != No then [ClearDscp] else []);
    assert after.voiceVlan == No && after.voiceDscp == No;
  }

  /** Without a requested DSCP, a copper port whose DSCP is not 0 is sent
      `no voice vlan dscp` on every run: clearing leaves DSCP unset, and an
      unset DSCP is cleared again. */
  lemma DscpOmittedNeverSettles(e: Entry, port: Port, key: string)
    requires e.state == Present && !IsFibre(key) && e.dscp.None?
    requires port.voiceDscp != Num(0)
    ensures ClearDscp in PortCommands(e, port, key)
    ensures ClearDscp in PortCommands(e, Apply(port, PortCommands(e, port, key)), key)
  {
    var v := VlanStep(e.vlan, port.voiceVlan);
    var opts := NewOptions(Requested(e.lldp), port.lldp);
    PresentDscpOmitted(e, port, key);
    ApplyAppend(port, v + [ClearDscp], Enables(opts));
    ApplyAppend(port, v, [ClearDscp]);
    var mid := Apply(port, v + [ClearDscp]);
    assert mid.voiceDscp == No;
    ApplyEnables(mid, opts);
    PresentDscpOmitted(e, Apply(port, PortCommands(e, port, key)), key);
  }
}
