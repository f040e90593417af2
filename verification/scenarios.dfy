/** The module's two documented examples, worked through the model. */
module Scenarios {
  import opened Base
  import opened Text
  import opened Dict
  import opened PortConfig
  import opened Commands
  import opened Specifiers
  import opened Script

  /** A port without voice configuration, and one with VLAN 100 and DSCP 46. */
  const Bare := Port(No, No, [])
  const Voice := Port(Num(100), Num(46), [])

  lemma VoiceLines()
    ensures ShowVlan(Voice) == ["voice vlan 100"]
    ensures ShowDscp(Voice) == ["voice vlan dscp 46"]
  {
    assert NatToString(1) == "1";
    assert NatToString(10) == "10";
    assert NatToString(100) == "100";
    assert NatToString(4) == "4";
    assert NatToString(46) == "46";
    assert VlanKeyword + "100" == "voice vlan 100";
    assert DscpKeyword + "46" == "voice vlan dscp 46";
  }

  lemma BareBlockText(name: string)
    ensures ShowBlock(name, Bare) == [HeaderKeyword + name, "exit"]
  {
    assert ShowVlan(Bare) == [] && ShowDscp(Bare) == [] && LldpLines([]) == [];
    ShowBlockParts(name, Bare);
  }

  lemma VoiceBlockText(name: string)
    ensures ShowBlock(name, Voice) == [HeaderKeyword + name, "voice vlan 100", "voice vlan dscp 46", "exit"]
  {
    VoiceLines();
    assert LldpLines(Voice.lldp) == [];
    ShowBlockParts(name, Voice);
    assert ShowVlan(Voice) + (ShowDscp(Voice) + (LldpLines(Voice.lldp) + ["exit"]))
      == ["voice vlan 100", "voice vlan dscp 46", "exit"];
  }

  /** The switch of the setup example: port 0/1 unconfigured, ports 0/3 to
      0/6 already carrying VLAN 100 and DSCP 46. */
  const SetupPorts: Dict<Port> :=
    [("0/1", Bare), ("0/3", Voice), ("0/4", Voice), ("0/5", Voice), ("0/6", Voice)]

  lemma SetupPortsDistinct()
    ensures DistinctKeys(SetupPorts)
    ensures Keys(SetupPorts) == ["0/1", "0/3", "0/4", "0/5", "0/6"]
  {
    var ks := Keys(SetupPorts);
    assert ks == ["0/1", "0/3", "0/4", "0/5", "0/6"];
    assert forall i, j :: 0 <= i < j < 5 ==> ks[i][2] != ks[j][2];
  }

  /** The running configuration of the setup example's switch: the block
      it shows for each of its ports. */
  function ShowAll(ports: Dict<Port>): (blocks: seq<seq<string>>)
    ensures |blocks| == |ports|
    ensures forall i :: 0 <= i < |ports| ==> blocks[i] == ShowBlock(ports[i].0, ports[i].1)
  {
    seq(|ports|, i requires 0 <= i < |ports| => ShowBlock(ports[i].0, ports[i].1))
  }

  /** The blocks shown for ports without LLDP options parse back to those ports. */
  lemma ShowAllParses(ports: Dict<Port>)
    requires forall i :: 0 <= i < |ports| ==> ports[i].1.lldp == []
    ensures forall i :: 0 <= i < |ports| ==> ParseBlock(ShowAll(ports)[i]) == Some(ports[i])
  {
    forall i | 0 <= i < |ports|
      ensures ParseBlock(ShowAll(ports)[i]) == Some(ports[i])
    {
      ShowThenParse(ports[i].0, ports[i].1);
    }
  }

  /** The setup example's switch shows these five blocks. */
  lemma SetupConfigText()
    ensures ShowAll(SetupPorts) == [
      ["interface 0/1", "exit"],
      ["interface 0/3", "voice vlan 100", "voice vlan dscp 46", "exit"],
      ["interface 0/4", "voice vlan 100", "voice vlan dscp 46", "exit"],
      ["interface 0/5", "voice vlan 100", "voice vlan dscp 46", "exit"],
      ["interface 0/6", "voice vlan 100", "voice vlan dscp 46", "exit"]]
  {
    var blocks := ShowAll(SetupPorts);
    assert blocks[0] == ["interface 0/1", "exit"] by {
      assert SetupPorts[0] == ("0/1", Bare);
      assert blocks[0] == ShowBlock("0/1", Bare);
      BareBlockText("0/1");
      assert HeaderKeyword + "0/1" == "interface 0/1";
    }
    assert blocks[1] == ["interface 0/3", "voice vlan 100", "voice vlan dscp 46", "exit"] by {
      assert SetupPorts[1] == ("0/3", Voice);
      assert blocks[1] == ShowBlock("0/3", Voice);
      VoiceBlockText("0/3");
      assert HeaderKeyword + "0/3" == "interface 0/3";
    }
    assert blocks[2] == ["interface 0/4", "voice vlan 100", "voice vlan dscp 46", "exit"] by {
      assert SetupPorts[2] == ("0/4", Voice);
      assert blocks[2] == ShowBlock("0/4", Voice);
      VoiceBlockText("0/4");
      assert HeaderKeyword + "0/4" == "interface 0/4";
    }
    assert blocks[3] == ["interface 0/5", "voice vlan 100", "voice vlan dscp 46", "exit"] by {
      assert SetupPorts[3] == ("0/5", Voice);
      assert blocks[3] == ShowBlock("0/5", Voice);
      VoiceBlockText("0/5");
      assert HeaderKeyword + "0/5" == "interface 0/5";
    }
    assert blocks[4] == ["interface 0/6", "voice vlan 100", "voice vlan dscp 46", "exit"] by {
      assert SetupPorts[4] == ("0/6", Voice);
      assert blocks[4] == ShowBlock("0/6", Voice);
      VoiceBlockText("0/6");
      assert HeaderKeyword + "0/6" == "interface 0/6";
    }
  }

  lemma SetupConfigParses()
    ensures ParseConfig(ShowAll(SetupPorts)) == SetupPorts
  {
    ShowAllParses(SetupPorts);
    HeadedAll(ShowAll(SetupPorts), SetupPorts);
    SetupPortsDistinct();
    PutAllFresh(SetupPorts);
  }

  /** The setup entry: VLAN 100, DSCP 46, on 0/1 and on the range 0/3-0/6. */
  const SetupEntry := Entry(Vlan(100), Some(46), [Some("0/1"), Some("0/3-0/6")], None, Present)

  /** The assignments of the setup run: 0/1 gets both settings, the range
      ports, already configured, get empty lists. */
  const SetupAssignments: seq<(string, seq<Cmd>)> :=
    [("0/1", [SetVlan(Vlan(100)), SetDscp(46)]), ("0/3", []), ("0/4", []), ("0/5", []), ("0/6", [])]

  lemma SetupSingleWrites()
    ensures SpecWrites(SetupEntry, Some("0/1"), SetupPorts) == Success([SetupAssignments[0]])
  {
    SetupPortsDistinct();
    PlainNameExpands("0/1", SetupPorts);
    assert "0/1"[0] != "3/"[0];
    assert VlanStep(Vlan(100), No) == [SetVlan(Vlan(100))];
    assert DscpStep(Some(46), No) == [SetDscp(46)];
    assert Enables(NewOptions([], [])) == [];
    assert Get(SetupPorts, "0/1") == Some(Bare);
    assert PortCommands(SetupEntry, Bare, "0/1") == SetupAssignments[0].1;
    assert KeyWrites(SetupEntry, ["0/1"], SetupPorts) == [SetupAssignments[0]];
  }

  lemma RangeText()
    ensures RangeSpec('0', 3, 6) == "0/3-0/6"
    ensures RangeKeys('0', 3, 6) == ["0/3", "0/4", "0/5", "0/6"]
  {
    assert NatToString(3) == "3" && NatToString(4) == "4";
    assert NatToString(5) == "5" && NatToString(6) == "6";
    var r := RangeKeys('0', 3, 6);
    assert |r| == 4;
    assert r[0] == "0/3" && r[1] == "0/4" && r[2] == "0/5" && r[3] == "0/6";
  }

  /** A range port already configured as requested gets no commands. */
  lemma VoicePortQuiet(key: string)
    requires |key| > 0 && key[0] == '0'
    ensures PortCommands(SetupEntry, Voice, key) == []
  {
    assert !IsFibre(key);
    assert VlanStep(Vlan(100), Num(100)) == [];
    assert DscpStep(Some(46), Num(46)) == [];
    assert Enables(NewOptions([], [])) == [];
  }

  lemma SetupRangeExpands()
    ensures Expand("0/3-0/6", SetupPorts) == Success(["0/3", "0/4", "0/5", "0/6"])
  {
    SetupPortsDistinct();
    RangeText();
    RangeSpecExpands('0', 3, 6, SetupPorts);
  }

  lemma SetupRangeKeyWrites()
    ensures Keys(SetupPorts)[1..] == ["0/3", "0/4", "0/5", "0/6"]
    ensures KeyWrites(SetupEntry, ["0/3", "0/4", "0/5", "0/6"], SetupPorts) == SetupAssignments[1..]
  {
    var keys := ["0/3", "0/4", "0/5", "0/6"];
    SetupPortsDistinct();
    EntryIsLookup(SetupPorts, 1);
    EntryIsLookup(SetupPorts, 2);
    EntryIsLookup(SetupPorts, 3);
    EntryIsLookup(SetupPorts, 4);
    VoicePortQuiet("0/3");
    VoicePortQuiet("0/4");
    VoicePortQuiet("0/5");
    VoicePortQuiet("0/6");
    var kw := KeyWrites(SetupEntry, keys, SetupPorts);
    var want := SetupAssignments[1..];
    assert |kw| == 4 == |want|;
    forall i | 0 <= i < 4
      ensures kw[i] == want[i]
    {
      assert want[i] == SetupAssignments[i + 1];
      assert keys[i] == SetupPorts[i + 1].0;
    }
  }

  lemma SetupRangeWrites()
    ensures SpecWrites(SetupEntry, Some("0/3-0/6"), SetupPorts) == Success(SetupAssignments[1..])
  {
    SetupRangeExpands();
    SetupRangeKeyWrites();
  }

  lemma SetupEntryWrites()
    ensures EntryWrites(SetupEntry, SetupEntry.interfaces, SetupPorts) == Success(SetupAssignments)
  {
    SetupSingleWrites();
    SetupRangeWrites();
    var specs := SetupEntry.interfaces;
    assert specs[1..] == [Some("0/3-0/6")];
    assert specs[1..][1..] == [];
    assert EntryWrites(SetupEntry, specs[1..], SetupPorts) == Success(SetupAssignments[1..] + []);
    assert [SetupAssignments[0]] + (SetupAssignments[1..] + []) == SetupAssignments;
  }

  lemma SetupWrites()
    ensures Writes([SetupEntry], SetupPorts) == Success(SetupAssignments)
  {
    SetupEntryWrites();
    assert [SetupEntry][1..] == [];
    assert Writes([SetupEntry][1..], SetupPorts) == Success([]);
    assert SetupAssignments + [] == SetupAssignments;
  }

  lemma SetupLines()
    ensures RenderAll([SetVlan(Vlan(100)), SetDscp(46)]) == ["voice vlan 100", "voice vlan dscp 46"]
  {
    var cmds := [SetVlan(Vlan(100)), SetDscp(46)];
    assert NatToString(1) == "1";
    assert NatToString(10) == "10";
    assert NatToString(100) == "100";
    assert NatToString(4) == "4";
    assert NatToString(46) == "46";
    assert IntToString(100) == "100" && IntToString(46) == "46";
    assert Render(cmds[0]) == "voice vlan 100";
    assert Render(cmds[1]) == "voice vlan dscp 46";
  }

  lemma SetupScript()
    ensures Flatten(SetupAssignments) == ["interface 0/1", "voice vlan 100", "voice vlan dscp 46"]
  {
    var cmds := [SetVlan(Vlan(100)), SetDscp(46)];
    SetupLines();
    assert HeaderKeyword + "0/1" == "interface 0/1";
    var rest := SetupAssignments[1..];
    assert forall i :: 0 <= i < |rest| ==> |rest[i].1| == 0;
    assert Flatten(rest) == [];
    assert Flatten(SetupAssignments) == Block("0/1", cmds) + Flatten(rest);
  }

  lemma SetupAssignmentsDistinct()
    ensures DistinctKeys(SetupAssignments)
  {
    var ks := Keys(SetupAssignments);
    assert ks == ["0/1", "0/3", "0/4", "0/5", "0/6"];
    assert forall i, j :: 0 <= i < j < 5 ==> ks[i][2] != ks[j][2];
  }

  /** The documented setup example: VLAN 100 with DSCP 46 on 0/1 and on
      0/3-0/6, where only 0/1 still lacks the configuration. The script
      selects 0/1 alone, since the range ports have nothing to do, and the
      run reports a change. */
  lemma SetupExample()
    ensures Reconcile([SetupEntry], ShowAll(SetupPorts))
      == Success(Outcome(true, ["interface 0/1", "voice vlan 100", "voice vlan dscp 46"]))
    ensures Reconcile([SetupEntry], [
        ["interface 0/1", "exit"],
        ["interface 0/3", "voice vlan 100", "voice vlan dscp 46", "exit"],
        ["interface 0/4", "voice vlan 100", "voice vlan dscp 46", "exit"],
        ["interface 0/5", "voice vlan 100", "voice vlan dscp 46", "exit"],
        ["interface 0/6", "voice vlan 100", "voice vlan dscp 46", "exit"]])
      == Success(Outcome(true, ["interface 0/1", "voice vlan 100", "voice vlan dscp 46"]))
  {
    SetupConfigText();
    SetupConfigParses();
    SetupWrites();
    SetupAssignmentsDistinct();
    PutAllFresh(SetupAssignments);
    SetupScript();
  }

  lemma ConfiguredPortParses()
    ensures ParseConfig([["interface 0/1", "voice vlan 100", "voice vlan dscp 46", "exit"]])
      == [("0/1", Port(Num(100), Num(46), []))]
  {
    var p := Port(Num(100), Num(46), []);
    var block := ["interface 0/1", "voice vlan 100", "voice vlan dscp 46", "exit"];
    assert HeaderKeyword + "0/1" == "interface 0/1";
    assert NatToString(1) == "1";
    assert NatToString(10) == "10";
    assert NatToString(100) == "100";
    assert NatToString(4) == "4";
    assert NatToString(46) == "46";
    assert VlanKeyword + "100" == "voice vlan 100";
    assert DscpKeyword + "46" == "voice vlan dscp 46";
    assert ShowVlan(p) == ["voice vlan 100"];
    assert ShowDscp(p) == ["voice vlan dscp 46"];
    assert LldpLines([]) == [];
    ShowBlockParts("0/1", p);
    assert ShowBlock("0/1", p) == block;
    ShowThenParse("0/1", p);
    assert Headed([block]) == [("0/1", p)];
    var hs := [("0/1", p)];
    assert hs[..0] == [];
    assert PutAll([], hs) == Put([], "0/1", p);
  }

  lemma RemovalWrites()
    ensures Writes([Entry(Missing, None, [Some("all")], None, Absent)], [("0/1", Port(Num(100), Num(46), []))])
      == Success([("0/1", [ClearVlan, ClearDscp])])
  {
    var e := Entry(Missing, None, [Some("all")], None, Absent);
    var p := Port(Num(100), Num(46), []);
    var ports := [("0/1", p)];
    var cmds := [ClearVlan, ClearDscp];
    assert Keys(ports) == ["0/1"];
    assert PortCommands(e, p, "0/1") == cmds;
    assert KeyWrites(e, ["0/1"], ports) == [("0/1", cmds)];
    assert SpecWrites(e, Some("all"), ports) == Success([("0/1", cmds)]);
    var specs := [Some("all")];
    assert specs[1..] == [];
    assert [("0/1", cmds)] + [] == [("0/1", cmds)];
    assert EntryWrites(e, specs, ports) == Success([("0/1", cmds)]);
    assert [e][1..] == [];
    assert Writes([e][1..], ports) == Success([]);
  }

  lemma RemovalScript()
    ensures Flatten([("0/1", [ClearVlan, ClearDscp])])
      == ["interface 0/1", "no voice vlan", "no voice vlan dscp"]
  {
    var cmds := [ClearVlan, ClearDscp];
    assert RenderAll(cmds) == ["no voice vlan", "no voice vlan dscp"];
    assert HeaderKeyword + "0/1" == "interface 0/1";
    var d := [("0/1", cmds)];
    assert d[1..] == [];
    assert Flatten(d) == Block("0/1", cmds) + [];
  }

  /** The documented removal example, `all` interfaces `absent`, on a port
      with VLAN 100 and DSCP 46: the selector and both clearing commands. */
  lemma RemovalExample()
    ensures Reconcile(
      [Entry(Missing, None, [Some("all")], None, Absent)],
      [["interface 0/1", "voice vlan 100", "voice vlan dscp 46", "exit"]])
      == Success(Outcome(true, ["interface 0/1", "no voice vlan", "no voice vlan dscp"]))
  {
    ConfiguredPortParses();
    RemovalWrites();
    var ws := [("0/1", [ClearVlan, ClearDscp])];
    assert ws[..0] == [];
    assert PutAll([], ws) == ws;
    RemovalScript();
  }
}
