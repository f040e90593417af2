/** The per-interface diff (`map_to_commands_interface`): the voice commands
    that move one port from its current record to the desired one, and the
    exact command text the switch receives. */
module Commands {
  import opened Base
  import opened Text
  import opened PortConfig

  datatype State = Present | Absent

  /** The requested voice VLAN, or the "not supplied" sentinel. */
  datatype VlanArg = Missing | Vlan(id: int)

  /** One desired configuration entry: a top-level request or one element
      of `aggregate`. An interface specifier may be null. */
  datatype Entry = Entry(
    vlan: VlanArg,
    dscp: Option<int>,
    interfaces: seq<Option<string>>,
    lldp: Option<seq<string>>,
    state: State)

  /** The commands the diff can emit. */
  datatype Cmd =
    | SetVlan(vlan: VlanArg)
    | SetDscp(dscp: int)
    | ClearDscp
    | EnableLldp(option: string)
    | ClearVlan

  /** The command line sent to the switch; an unsupplied VLAN is written as
      `None`, as Python's `str` writes the sentinel. No command line looks
      like an interface selector. */
  function Render(c: Cmd): (r: string)
    ensures |r| > 0 && !(HeaderKeyword <= r)
  {
    var r := match c
      case SetVlan(Missing) => "voice vlan None"
      case SetVlan(Vlan(id)) => "voice vlan " + IntToString(id)
      case SetDscp(d) => "voice vlan dscp " + IntToString(d)
      case ClearDscp => "no voice vlan dscp"
      case EnableLldp(x) => "lldp " + x
      case ClearVlan => "no voice vlan";
    assert r[0] in "vnl";
    r
  }

  /** Reads a command line back. */
  function ParseCmd(s: string): Option<Cmd> {
    if s == "no voice vlan" then Some(ClearVlan)
    else if s == "no voice vlan dscp" then Some(ClearDscp)
    else if "lldp " <= s then Some(EnableLldp(s[5..]))
    else if "voice vlan dscp " <= s then
      match ParseInt(s[16..])
      case Some(d) => Some(SetDscp(d))
      case None => None
    else if s == "voice vlan None" then Some(SetVlan(Missing))
    else if "voice vlan " <= s then
      match ParseInt(s[11..])
      case Some(i) => Some(SetVlan(Vlan(i)))
      case None => None
    else None
  }

  /** Every command line names exactly one command. */
  lemma RenderRoundTrip(c: Cmd)
    ensures ParseCmd(Render(c)) == Some(c)
  {
    var s := Render(c);
    match c
    case SetVlan(Vlan(id)) =>
      IntToStringRoundTrip(id);
      assert s[0] == 'v' && "voice vlan " <= s;
      assert s[11..] == IntToString(id);
      assert s[11] != 'd' && s[11] != 'N';
      assert !("voice vlan dscp " <= s) && s != "voice vlan None";
    case SetDscp(d) =>
      assert s[0] == 'v' && s[11] == 'd';
      IntToStringRoundTrip(d);
      assert s[16..] == IntToString(d);
    case EnableLldp(x) =>
      assert s[0] == 'l' && "lldp " <= s;
      assert s[5..] == x;
    case SetVlan(Missing) =>
      assert s[0] == 'v' && s[11] == 'N';
    case ClearDscp =>
      assert s[0] == 'n' && s != "no voice vlan";
    case ClearVlan =>
      assert s[0] == 'n';
  }

  /** Position of a command in the phase order: VLAN, then DSCP, then LLDP. */
  function Phase(c: Cmd): nat {
    match c
    case SetVlan(_) => 0
    case ClearVlan => 0
    case SetDscp(_) => 1
    case ClearDscp => 1
    case EnableLldp(_) => 2
  }

  predicate InPhaseOrder(cs: seq<Cmd>) {
    forall i, j :: 0 <= i < j < |cs| ==> Phase(cs[i]) <= Phase(cs[j])
  }

  /** VLAN and DSCP commands occur at most once each. */
  predicate NoRepeatedSetting(cs: seq<Cmd>) {
    forall i, j :: 0 <= i < j < |cs| && Phase(cs[i]) < 2 ==> cs[i] != cs[j]
  }

  /** Fibre ports, named `3/<n>`, are left out of voice VLAN assignment. */
  predicate IsFibre(key: string) {
    "3/" <= key
  }

  /** Whether the reported value equals the given integer. */
  predicate Holds(cur: Val, x: int) {
    cur.Num? && cur.n == x
  }

  predicate VlanHolds(cur: Val, v: VlanArg) {
    v.Vlan? && Holds(cur, v.id)
  }

  /** The requested LLDP options the port has not enabled, in request order. */
  function NewOptions(requested: seq<string>, enabled: seq<string>): (r: seq<string>)
    ensures |r| <= |requested|
    ensures forall x :: x in r <==> x in requested && x !in enabled
  {
    if |requested| == 0 then []
    else if requested[0] in enabled then NewOptions(requested[1..], enabled)
    else [requested[0]] + NewOptions(requested[1..], enabled)
  }

  function Enables(opts: seq<string>): (r: seq<Cmd>)
    ensures |r| == |opts|
    ensures forall i :: 0 <= i < |r| ==> r[i] == EnableLldp(opts[i])
  {
    seq(|opts|, i requires 0 <= i < |opts| => EnableLldp(opts[i]))
  }

  /** The LLDP options a command list enables, in order. */
  function EnabledOptions(cs: seq<Cmd>): (r: seq<string>)
    ensures |r| <= |cs|
  {
    if |cs| == 0 then []
    else if cs[0].EnableLldp? then [cs[0].option] + EnabledOptions(cs[1..])
    else EnabledOptions(cs[1..])
  }

  function Requested(lldp: Option<seq<string>>): seq<string> {
    if lldp.Some? then lldp.value else []
  }

  function VlanStep(v: VlanArg, cur: Val): seq<Cmd> {
    if !VlanHolds(cur, v) then [SetVlan(v)] else []
  }

  function DscpStep(dscp: Option<int>, cur: Val): seq<Cmd> {
    match dscp
    case None => if cur != Num(0) then [ClearDscp] else []
    case Some(d) => if !Holds(cur, d) then [SetDscp(d)] else []
  }

  function RemovalSteps(port: Port): seq<Cmd> {
    (if port.voiceVlan != No then [ClearVlan] else [])
    + (if port.voiceDscp != No then [ClearDscp] else [])
  }

  lemma EnabledOptionsAppend(a: seq<Cmd>, b: seq<Cmd>)
    ensures EnabledOptions(a + b) == EnabledOptions(a) + EnabledOptions(b)
  {
    if |a| > 0 {
      assert (a + b)[1..] == a[1..] + b;
    } else {
      assert a + b == b;
    }
  }

  lemma {:induction false} EnabledOptionsOfEnables(opts: seq<string>)
    ensures EnabledOptions(Enables(opts)) == opts
  {
    if |opts| > 0 {
      assert Enables(opts)[1..] == Enables(opts[1..]);
      EnabledOptionsOfEnables(opts[1..]);
    }
  }

  /** `map_to_commands_interface`: the commands for one port. There is at
      most one VLAN command, one DSCP command and one command per requested
      LLDP option; `present` never clears the VLAN and `absent` only clears. */
  function PortCommands(e: Entry, port: Port, key: string): (r: seq<Cmd>)
    ensures |r| <= 2 + |Requested(e.lldp)|
    ensures e.state == Present ==> ClearVlan !in r
    ensures e.state == Absent ==> forall c :: c in r ==> c == ClearVlan || c == ClearDscp
  {
    if e.state == Present && !IsFibre(key) then
      VlanStep(e.vlan, port.voiceVlan)
      + DscpStep(e.dscp, port.voiceDscp)
      + Enables(NewOptions(Requested(e.lldp), port.lldp))
    else if e.state == Absent then
      RemovalSteps(port)
    else
      []
  }

  /** Within a port's commands the VLAN command comes first, the DSCP
      command next and the LLDP commands last; VLAN and DSCP commands
      appear at most once. */
  lemma PortCommandsOrder(e: Entry, port: Port, key: string)
    ensures InPhaseOrder(PortCommands(e, port, key))
    ensures NoRepeatedSetting(PortCommands(e, port, key))
  {
    if e.state == Present && !IsFibre(key) {
      var v := VlanStep(e.vlan, port.voiceVlan);
      var d := DscpStep(e.dscp, port.voiceDscp);
      var l := Enables(NewOptions(Requested(e.lldp), port.lldp));
      assert |v| <= 1 && PhasesWithin(v, 0, 0);
      assert |d| <= 1 && PhasesWithin(d, 1, 1);
      assert PhasesWithin(l, 2, 2);
      OrderedConcat(v, 0, 0, d, 1, 1);
      OrderedConcat(v + d, 0, 1, l, 2, 2);
    } else if e.state == Absent {
      var r := RemovalSteps(port);
      assert r == [] || r == [ClearVlan] || r == [ClearDscp] || r == [ClearVlan, ClearDscp];
    }
  }

  /** Every command of `cs` has a phase between `lo` and `hi`. */
  predicate PhasesWithin(cs: seq<Cmd>, lo: nat, hi: nat) {
    forall i :: 0 <= i < |cs| ==> lo <= Phase(cs[i]) <= hi
  }

  /** Two ordered lists whose phases do not overlap, the first below the
      second, concatenate to an ordered list; a VLAN or DSCP command cannot
      repeat across them. */
  lemma OrderedConcat(a: seq<Cmd>, alo: nat, ahi: nat, b: seq<Cmd>, blo: nat, bhi: nat)
    requires InPhaseOrder(a) && NoRepeatedSetting(a) && PhasesWithin(a, alo, ahi)
    requires InPhaseOrder(b) && NoRepeatedSetting(b) && PhasesWithin(b, blo, bhi)
    requires alo <= ahi < blo <= bhi
    ensures InPhaseOrder(a + b) && NoRepeatedSetting(a + b) && PhasesWithin(a + b, alo, bhi)
  {
    var r := a + b;
    forall i, j | 0 <= i < j < |r|
      ensures Phase(r[i]) <= Phase(r[j])
      ensures Phase(r[i]) < 2 ==> r[i] != r[j]
    {
      if j < |a| {
        assert r[i] == a[i] && r[j] == a[j];
      } else if i < |a| {
        assert r[i] == a[i] && r[j] == b[j - |a|];
      } else {
        assert r[i] == b[i - |a|] && r[j] == b[j - |a|];
      }
    }
    assert forall i :: 0 <= i < |r| ==> (i < |a| ==> r[i] == a[i]) && (|a| <= i ==> r[i] == b[i - |a|]);
  }

  /** For `present` on a copper port the VLAN command is sent exactly when
      the port's VLAN differs from the requested one, and nothing else
      touches the VLAN. */
  lemma PresentVlan(e: Entry, port: Port, key: string)
    requires e.state == Present && !IsFibre(key)
    ensures SetVlan(e.vlan) in PortCommands(e, port, key) <==> !VlanHolds(port.voiceVlan, e.vlan)
    ensures forall c :: c in PortCommands(e, port, key) && Phase(c) == 0 ==> c == SetVlan(e.vlan)
  {
  }

  /** For `present` on a copper port with a DSCP: `voice vlan dscp <d>` is
      sent exactly when the port's DSCP differs, and DSCP is never cleared. */
  lemma PresentDscpGiven(e: Entry, port: Port, key: string)
    requires e.state == Present && !IsFibre(key) && e.dscp.Some?
    ensures SetDscp(e.dscp.value) in PortCommands(e, port, key) <==> !Holds(port.voiceDscp, e.dscp.value)
    ensures forall c :: c in PortCommands(e, port, key) && Phase(c) == 1 ==> c == SetDscp(e.dscp.value)
  {
  }

  /** For `present` on a copper port without a DSCP: the DSCP is cleared
      exactly when the port does not report DSCP 0, which includes a port
      with no DSCP configured. */
  lemma PresentDscpOmitted(e: Entry, port: Port, key: string)
    requires e.state == Present && !IsFibre(key) && e.dscp.None?
    ensures ClearDscp in PortCommands(e, port, key) <==> port.voiceDscp != Num(0)
    ensures forall c :: c in PortCommands(e, port, key) && Phase(c) == 1 ==> c == ClearDscp
  {
  }

  /** LLDP handling only adds: for `present` on a copper port, the LLDP
      commands enable exactly the requested options the port lacks, in
      request order; no command disables an option. */
  lemma PresentLldp(e: Entry, port: Port, key: string)
    requires e.state == Present && !IsFibre(key)
    ensures EnabledOptions(PortCommands(e, port, key)) == NewOptions(Requested(e.lldp), port.lldp)
    ensures forall c :: c in PortCommands(e, port, key) ==> c != ClearVlan
  {
    var v := VlanStep(e.vlan, port.voiceVlan);
    var d := DscpStep(e.dscp, port.voiceDscp);
    var l := Enables(NewOptions(Requested(e.lldp), port.lldp));
    EnabledOptionsAppend(v, d);
    EnabledOptionsAppend(v + d, l);
    EnabledOptionsOfEnables(NewOptions(Requested(e.lldp), port.lldp));
  }

  /** Fibre ports get no commands under `present`. */
  lemma PresentFibre(e: Entry, port: Port, key: string)
    requires e.state == Present && IsFibre(key)
    ensures PortCommands(e, port, key) == []
  {
  }

  /** Under `absent` a port is cleared of the VLAN exactly when it reports
      one and of the DSCP exactly when it reports one, whatever its name. */
  lemma AbsentClears(e: Entry, port: Port, key: string, other: string)
    requires e.state == Absent
    ensures forall c :: c in PortCommands(e, port, key) ==> c == ClearVlan || c == ClearDscp
    ensures ClearVlan in PortCommands(e, port, key) <==> port.voiceVlan.Num?
    ensures ClearDscp in PortCommands(e, port, key) <==> port.voiceDscp.Num?
    ensures PortCommands(e, port, key) == PortCommands(e, port, other)
  {
  }
}
