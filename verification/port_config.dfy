/** The current voice configuration of each port, read from the switch's
    per-interface running-configuration blocks (`map_config_to_obj`).

    Regular-expression searches are modelled line by line: each keyword is
    recognised at the start of a line, and the text it captures ends where
    the line's run of matching characters ends. */
module PortConfig {
  import opened Base
  import opened Text
  import opened Dict

  /** A configured number, or the sentinel for "not configured". Zero is a
      configured value, distinct from No. */
  datatype Val = No | Num(n: nat)

  /** What the switch reports for one interface. */
  datatype Port = Port(voiceVlan: Val, voiceDscp: Val, lldp: seq<string>)

  const HeaderKeyword := "interface "
  const VlanKeyword := "voice vlan "
  const DscpKeyword := "voice vlan dscp "
  const LldpKeyword := "lldp "

  /** Characters of an LLDP phrase: word characters, `-` and space. */
  predicate IsPhraseChar(c: char) {
    'a' <= c <= 'z' || 'A' <= c <= 'Z' || IsDigit(c) || c == '_' || c == '-' || c == ' '
  }

  /** Length of the longest run of digits at the start of `s`. */
  function DigitRun(s: string): (n: nat)
    ensures n <= |s| && AllDigits(s[..n])
    ensures n < |s| ==> !IsDigit(s[n])
  {
    if |s| == 0 || !IsDigit(s[0]) then 0
    else
      var n := 1 + DigitRun(s[1..]);
      assert s[..n] == [s[0]] + s[1..][..n - 1];
      n
  }

  /** Length of the longest run of phrase characters at the start of `s`. */
  function PhraseRun(s: string): (n: nat)
    ensures n <= |s|
    ensures forall i :: 0 <= i < n ==> IsPhraseChar(s[i])
    ensures n < |s| ==> !IsPhraseChar(s[n])
  {
    if |s| == 0 || !IsPhraseChar(s[0]) then 0 else 1 + PhraseRun(s[1..])
  }

  /** The number in a line `<kw><digits>...`: the keyword followed by at
      least one digit, read as far as the digits go. */
  function LeadingNumber(line: string, kw: string): Option<nat> {
    if kw <= line then
      var rest := line[|kw|..];
      var n := DigitRun(rest);
      if n > 0 then Some(DigitsValue(rest[..n])) else None
    else None
  }

  /** The number of the first line that carries one after `kw`, or No. */
  function FirstNumber(lines: seq<string>, kw: string): (v: Val)
    ensures v.No? <==> forall i :: 0 <= i < |lines| ==> LeadingNumber(lines[i], kw).None?
    ensures v.Num? ==> exists i :: 0 <= i < |lines| && LeadingNumber(lines[i], kw) == Some(v.n)
                          && forall j :: 0 <= j < i ==> LeadingNumber(lines[j], kw).None?
  {
    if |lines| == 0 then No
    else match LeadingNumber(lines[0], kw)
      case Some(n) => Num(n)
      case None =>
        var v := FirstNumber(lines[1..], kw);
        assert forall i :: 1 <= i < |lines| ==> lines[i] == lines[1..][i - 1];
        v
  }

  /** The phrase of a line `lldp <phrase>`, at least one phrase character long. */
  function LldpPhrase(line: string): Option<string> {
    if LldpKeyword <= line then
      var rest := line[|LldpKeyword|..];
      var n := PhraseRun(rest);
      if n > 0 then Some(rest[..n]) else None
    else None
  }

  /** Every LLDP phrase of the block, in textual order. */
  function LldpPhrases(lines: seq<string>): (r: seq<string>)
    ensures |r| <= |lines|
    ensures forall x :: x in r <==> exists i :: 0 <= i < |lines| && LldpPhrase(lines[i]) == Some(x)
  {
    if |lines| == 0 then []
    else
      var rest := LldpPhrases(lines[1..]);
      assert forall i :: 1 <= i < |lines| ==> lines[i] == lines[1..][i - 1];
      match LldpPhrase(lines[0])
      case Some(x) => [x] + rest
      case None => rest
  }

  /** The interface name of the first `interface <name>` line that is
      followed by another line; the header needs the line break after it. */
  function HeaderName(lines: seq<string>): (r: Option<string>)
    ensures r.None? <==> forall i :: 0 <= i < |lines| - 1 ==> !(HeaderKeyword <= lines[i])
    ensures r.Some? ==> exists i :: 0 <= i < |lines| - 1 && HeaderKeyword <= lines[i]
                          && r.value == lines[i][|HeaderKeyword|..]
                          && forall j :: 0 <= j < i ==> !(HeaderKeyword <= lines[j])
  {
    if |lines| < 2 then None
    else if HeaderKeyword <= lines[0] then Some(lines[0][|HeaderKeyword|..])
    else
      var r := HeaderName(lines[1..]);
      assert forall i :: 1 <= i < |lines| ==> lines[i] == lines[1..][i - 1];
      r
  }

  /** One interface block: its name and port record, or None when the block
      has no interface header. */
  function ParseBlock(lines: seq<string>): (r: Option<(string, Port)>)
    ensures r.None? <==> HeaderName(lines).None?
  {
    match HeaderName(lines)
    case None => None
    case Some(name) =>
      Some((name, Port(FirstNumber(lines, VlanKeyword), FirstNumber(lines, DscpKeyword), LldpPhrases(lines))))
  }

  /** The parsed blocks that have a header, in input order. */
  function Headed(blocks: seq<seq<string>>): (ws: seq<(string, Port)>)
    ensures forall k :: k in Keys(ws) <==>
      exists i :: 0 <= i < |blocks| && ParseBlock(blocks[i]).Some? && ParseBlock(blocks[i]).value.0 == k
  {
    if |blocks| == 0 then []
    else
      var init := Headed(blocks[..|blocks| - 1]);
      assert forall i :: 0 <= i < |blocks| - 1 ==> blocks[i] == blocks[..|blocks| - 1][i];
      match ParseBlock(blocks[|blocks| - 1])
      case None => init
      case Some(p) =>
        assert Keys(init + [p]) == Keys(init) + [p.0];
        init + [p]
  }

  lemma SplitLast<T>(s: seq<T>)
    requires |s| > 0
    ensures s[..|s| - 1] + [s[|s| - 1]] == s
  {
  }

  /** When every block has a header, the headed blocks are all of them. */
  lemma {:induction false} HeadedAll(blocks: seq<seq<string>>, ws: seq<(string, Port)>)
    requires |blocks| == |ws|
    requires forall i :: 0 <= i < |blocks| ==> ParseBlock(blocks[i]) == Some(ws[i])
    ensures Headed(blocks) == ws
  {
    if |blocks| > 0 {
      var n := |blocks| - 1;
      assert forall i :: 0 <= i < n ==> blocks[..n][i] == blocks[i] && ws[..n][i] == ws[i];
      HeadedAll(blocks[..n], ws[..n]);
      assert ParseBlock(blocks[n]) == Some(ws[n]);
      assert Headed(blocks) == Headed(blocks[..n]) + [ws[n]];
      SplitLast(ws);
    }
  }

  /** `map_config_to_obj`: the port map, one entry per headed block, where a
      later block with the same name replaces the earlier one in place. It
      holds exactly the names of headed blocks, once each, in the order of
      their first block, and each name maps to the record of its last block. */
  function ParseConfig(blocks: seq<seq<string>>): (r: Dict<Port>)
    ensures DistinctKeys(r)
    ensures Keys(r) == FirstKeys(Keys(Headed(blocks)), [])
    ensures forall k :: k in Keys(r) <==>
      exists i :: 0 <= i < |blocks| && ParseBlock(blocks[i]).Some? && ParseBlock(blocks[i]).value.0 == k
    ensures forall k :: Get(r, k) == LastWrite(Headed(blocks), k)
  {
    var ws := Headed(blocks);
    PutAllKeys([], ws);
    assert Keys<Port>([]) == [];
    assert forall k :: Get(PutAll([], ws), k) == LastWrite(ws, k) by {
      forall k ensures Get(PutAll([], ws), k) == LastWrite(ws, k) {
        PutAllLastWriterWins([], ws, k);
      }
    }
    PutAll([], ws)
  }

  /** A `voice vlan dscp <n>` line does not set the voice VLAN. */
  lemma DscpLineIsNotVlan(s: string)
    ensures LeadingNumber(DscpKeyword + s, VlanKeyword).None?
  {
    var line := DscpKeyword + s;
    assert line[|VlanKeyword|..][0] == 'd';
  }

  /** The running-configuration block the switch shows for a port: the
      header, the VLAN and DSCP lines when configured, one line per LLDP
      phrase, and the closing `exit`. */
  function ShowBlock(name: string, p: Port): seq<string> {
    [HeaderKeyword + name]
    + ShowVlan(p)
    + ShowDscp(p)
    + LldpLines(p.lldp)
    + ["exit"]
  }

  /** One `lldp <phrase>` line per phrase, in order. */
  function LldpLines(xs: seq<string>): (r: seq<string>)
    ensures |r| == |xs|
    ensures forall i :: 0 <= i < |r| ==> LldpKeyword <= r[i] && r[i][|LldpKeyword|..] == xs[i]
  {
    if |xs| == 0 then [] else [LldpKeyword + xs[0]] + LldpLines(xs[1..])
  }

  /** An LLDP phrase the switch can show: non-empty, phrase characters only. */
  predicate WellFormedPhrase(x: string) {
    |x| > 0 && forall i :: 0 <= i < |x| ==> IsPhraseChar(x[i])
  }

  lemma {:induction false} FirstNumberAppend(a: seq<string>, b: seq<string>, kw: string)
    ensures FirstNumber(a + b, kw) == if FirstNumber(a, kw).Num? then FirstNumber(a, kw) else FirstNumber(b, kw)
  {
    if |a| > 0 {
      assert (a + b)[1..] == a[1..] + b;
      FirstNumberAppend(a[1..], b, kw);
    } else {
      assert a + b == b;
    }
  }

  lemma {:induction false} LldpPhrasesAppend(a: seq<string>, b: seq<string>)
    ensures LldpPhrases(a + b) == LldpPhrases(a) + LldpPhrases(b)
  {
    if |a| > 0 {
      assert (a + b)[1..] == a[1..] + b;
      LldpPhrasesAppend(a[1..], b);
    } else {
      assert a + b == b;
    }
  }

  lemma {:induction false} DigitRunOfDigits(s: string)
    requires AllDigits(s)
    ensures DigitRun(s) == |s|
  {
    if |s| > 0 {
      DigitRunOfDigits(s[1..]);
    }
  }

  lemma {:induction false} PhraseRunOfPhrase(s: string)
    requires forall i :: 0 <= i < |s| ==> IsPhraseChar(s[i])
    ensures PhraseRun(s) == |s|
  {
    if |s| > 0 {
      PhraseRunOfPhrase(s[1..]);
    }
  }

  lemma NumberLine(kw: string, n: nat)
    ensures LeadingNumber(kw + NatToString(n), kw) == Some(n)
  {
    var line := kw + NatToString(n);
    assert line[|kw|..] == NatToString(n);
    DigitRunOfDigits(NatToString(n));
    assert NatToString(n)[..|NatToString(n)|] == NatToString(n);
    DigitsValueOfNatToString(n);
  }

  /** The lines of ShowBlock, in its four groups plus the closing line. */
  lemma ShowBlockParts(name: string, p: Port)
    ensures ShowBlock(name, p) == [HeaderKeyword + name] + (ShowVlan(p) + (ShowDscp(p) + (LldpLines(p.lldp) + ["exit"])))
  {
  }

  function ShowVlan(p: Port): seq<string> {
    if p.voiceVlan.Num? then [VlanKeyword + NatToString(p.voiceVlan.n)] else []
  }

  function ShowDscp(p: Port): seq<string> {
    if p.voiceDscp.Num? then [DscpKeyword + NatToString(p.voiceDscp.n)] else []
  }

  lemma ShownVlan(name: string, p: Port)
    ensures FirstNumber(ShowBlock(name, p), VlanKeyword) == p.voiceVlan
  {
    var h, v, d, l, e := [HeaderKeyword + name], ShowVlan(p), ShowDscp(p), LldpLines(p.lldp), ["exit"];
    ShowBlockParts(name, p);
    assert h[0][0] == 'i';
    assert FirstNumber(h, VlanKeyword).No?;
    if p.voiceVlan.Num? {
      NumberLine(VlanKeyword, p.voiceVlan.n);
    }
    assert FirstNumber(v, VlanKeyword) == p.voiceVlan;
    if p.voiceDscp.Num? {
      DscpLineIsNotVlan(NatToString(p.voiceDscp.n));
    }
    assert FirstNumber(d, VlanKeyword).No?;
    assert forall i :: 0 <= i < |l| ==> l[i][0] == LldpKeyword[0];
    assert FirstNumber(l, VlanKeyword).No?;
    assert FirstNumber(e, VlanKeyword).No?;
    FirstNumberAppend(l, e, VlanKeyword);
    FirstNumberAppend(d, l + e, VlanKeyword);
    FirstNumberAppend(v, d + (l + e), VlanKeyword);
    FirstNumberAppend(h, v + (d + (l + e)), VlanKeyword);
  }

  lemma ShownDscp(name: string, p: Port)
    ensures FirstNumber(ShowBlock(name, p), DscpKeyword) == p.voiceDscp
  {
    var h, v, d, l, e := [HeaderKeyword + name], ShowVlan(p), ShowDscp(p), LldpLines(p.lldp), ["exit"];
    ShowBlockParts(name, p);
    assert h[0][0] == 'i';
    assert FirstNumber(h, DscpKeyword).No?;
    if p.voiceVlan.Num? {
      assert v[0][|VlanKeyword|] != 'd';
    }
    assert FirstNumber(v, DscpKeyword).No?;
    if p.voiceDscp.Num? {
      NumberLine(DscpKeyword, p.voiceDscp.n);
    }
    assert FirstNumber(d, DscpKeyword) == p.voiceDscp;
    assert forall i :: 0 <= i < |l| ==> l[i][0] == LldpKeyword[0];
    assert FirstNumber(l, DscpKeyword).No?;
    assert FirstNumber(e, DscpKeyword).No?;
    FirstNumberAppend(l, e, DscpKeyword);
    FirstNumberAppend(d, l + e, DscpKeyword);
    FirstNumberAppend(v, d + (l + e), DscpKeyword);
    FirstNumberAppend(h, v + (d + (l + e)), DscpKeyword);
  }

  lemma ShownLldp(name: string, p: Port)
    requires forall i :: 0 <= i < |p.lldp| ==> WellFormedPhrase(p.lldp[i])
    ensures LldpPhrases(ShowBlock(name, p)) == p.lldp
  {
    var h, v, d, l, e := [HeaderKeyword + name], ShowVlan(p), ShowDscp(p), LldpLines(p.lldp), ["exit"];
    ShowBlockParts(name, p);
    assert h[0][0] == 'i';
    assert LldpPhrases(h) == [];
    assert LldpPhrases(v) == [];
    assert LldpPhrases(d) == [];
    assert LldpPhrases(e) == [];
    LldpLinesPhrases(p.lldp);
    LldpPhrasesAppend(l, e);
    LldpPhrasesAppend(d, l + e);
    LldpPhrasesAppend(v, d + (l + e));
    LldpPhrasesAppend(h, v + (d + (l + e)));
  }

  /** Parsing the block the switch shows for a port gives back the port's
      name and record, provided its LLDP phrases are ones the switch shows. */
  lemma ShowThenParse(name: string, p: Port)
    requires forall i :: 0 <= i < |p.lldp| ==> WellFormedPhrase(p.lldp[i])
    ensures ParseBlock(ShowBlock(name, p)) == Some((name, p))
  {
    var lines := ShowBlock(name, p);
    assert HeaderKeyword <= lines[0] && lines[0][|HeaderKeyword|..] == name;
    ShownVlan(name, p);
    ShownDscp(name, p);
    ShownLldp(name, p);
  }

  lemma {:induction false} LldpLinesPhrases(xs: seq<string>)
    requires forall i :: 0 <= i < |xs| ==> WellFormedPhrase(xs[i])
    ensures LldpPhrases(LldpLines(xs)) == xs
  {
    if |xs| > 0 {
      var l := LldpLines(xs);
      assert l[1..] == LldpLines(xs[1..]);
      LldpLinesPhrases(xs[1..]);
      PhraseRunOfPhrase(xs[0]);
      assert xs[0][..|xs[0]|] == xs[0];
      assert LldpPhrase(l[0]) == Some(xs[0]);
    }
  }
}
