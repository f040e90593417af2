/** Command generation over all entries (`map_to_commands`) and the run's
    result: the per-interface command lists, last writer winning, flattened
    into one script of `interface <name>` selectors and their commands. */
module Script {
  import opened Base
  import opened Dict
  import opened PortConfig
  import opened Commands
  import opened Specifiers

  /** One assignment `interfaces_cmds[key] = <commands>`. */
  type Write = (string, seq<Cmd>)

  /** The assignments for a list of resolved interfaces, in order. */
  function KeyWrites(e: Entry, keys: seq<string>, ports: Dict<Port>): (ws: seq<Write>)
    requires forall k :: k in keys ==> k in Keys(ports)
    ensures Keys(ws) == keys
    ensures forall i :: 0 <= i < |ws| ==> ws[i].1 == PortCommands(e, Get(ports, keys[i]).value, keys[i])
  {
    seq(|keys|, i requires 0 <= i < |keys| => (keys[i], PortCommands(e, Get(ports, keys[i]).value, keys[i])))
  }

  /** The assignments for one specifier; a null specifier assigns nothing. */
  function SpecWrites(e: Entry, spec: Option<string>, ports: Dict<Port>): (r: Result<seq<Write>, Error>)
    ensures r.Failure? ==> spec.Some? && r.error.UnknownInterface? && r.error.name !in Keys(ports)
  {
    match spec
    case None => Success([])
    case Some(s) =>
      var keys :- Expand(s, ports);
      Success(KeyWrites(e, keys, ports))
  }

  /** The assignments for an entry's specifiers, in order, or the first
      lookup error. */
  function EntryWrites(e: Entry, specs: seq<Option<string>>, ports: Dict<Port>): (r: Result<seq<Write>, Error>)
    ensures r.Failure? ==> r.error.UnknownInterface? && r.error.name !in Keys(ports)
  {
    if |specs| == 0 then Success([])
    else
      var first :- SpecWrites(e, specs[0], ports);
      var rest :- EntryWrites(e, specs[1..], ports);
      Success(first + rest)
  }

  /** `present` needs a VLAN. */
  predicate Valid(e: Entry) {
    !(e.state == Present && e.vlan.Missing?)
  }

  /** All assignments of the run in order, or the first error: an entry
      without a needed VLAN aborts when it is reached, a lookup failure
      aborts where it occurs. */
  function Writes(want: seq<Entry>, ports: Dict<Port>): (r: Result<seq<Write>, Error>)
    ensures r.Failure? ==> r.error == MissingVlanId || (r.error.UnknownInterface? && r.error.name !in Keys(ports))
    ensures r.Failure? && r.error == MissingVlanId ==> exists i :: 0 <= i < |want| && !Valid(want[i])
  {
    if |want| == 0 then Success([])
    else if !Valid(want[0]) then Failure(MissingVlanId)
    else
      var first :- EntryWrites(want[0], want[0].interfaces, ports);
      var rest :- Writes(want[1..], ports);
      Success(first + rest)
  }

  /** Range compression of the command lists; not part of this model, taken
      as the identity. */
  function MergeInterfaces(d: Dict<seq<Cmd>>): (r: Dict<seq<Cmd>>)
    ensures Keys(r) == Keys(d)
    ensures forall k :: Get(r, k) == Get(d, k)
  {
    d
  }

  /** `map_to_commands` before flattening: the per-interface command lists,
      one per interface. Generation succeeds exactly when every `present`
      entry has a VLAN and every specifier resolves. */
  function MapToCommands(want: seq<Entry>, ports: Dict<Port>): (r: Result<Dict<seq<Cmd>>, Error>)
    ensures r.Success? <==> forall i :: 0 <= i < |want| ==> Valid(want[i]) && Resolvable(want[i], ports)
    ensures r.Success? ==> DistinctKeys(r.value)
  {
    WritesSucceedIff(want, ports);
    var ws :- Writes(want, ports);
    PutAllDistinct([], ws);
    Success(MergeInterfaces(PutAll([], ws)))
  }

  function RenderAll(cs: seq<Cmd>): (r: seq<string>)
    ensures |r| == |cs|
    ensures forall i :: 0 <= i < |cs| ==> r[i] == Render(cs[i])
  {
    seq(|cs|, i requires 0 <= i < |cs| => Render(cs[i]))
  }

  /** The script lines of one interface: its selector and commands, or
      nothing when it has no commands. */
  function Block(name: string, cs: seq<Cmd>): seq<string> {
    if |cs| > 0 then [HeaderKeyword + name] + RenderAll(cs) else []
  }

  /** The final script, interface by interface in dictionary order. It is
      empty exactly when every interface's list is empty. */
  function Flatten(d: Dict<seq<Cmd>>): (script: seq<string>)
    ensures |script| == 0 <==> forall i :: 0 <= i < |d| ==> |d[i].1| == 0
    ensures |script| > 0 ==> HeaderKeyword <= script[0]
  {
    if |d| == 0 then []
    else
      var rest := Flatten(d[1..]);
      assert forall i :: 1 <= i < |d| ==> d[i] == d[1..][i - 1];
      Block(d[0].0, d[0].1) + rest
  }

  /** The number of leading lines that are not interface selectors. */
  function BodyLength(lines: seq<string>): (n: nat)
    ensures n <= |lines|
  {
    if |lines| == 0 || HeaderKeyword <= lines[0] then 0 else 1 + BodyLength(lines[1..])
  }

  /** Splits a script back into (interface, command lines) groups; None when
      it does not start with a selector. */
  function Unflatten(script: seq<string>): Option<seq<(string, seq<string>)>>
    decreases |script|
  {
    if |script| == 0 then Some([])
    else if !(HeaderKeyword <= script[0]) then None
    else
      var n := BodyLength(script[1..]);
      match Unflatten(script[1 + n..])
      case None => None
      case Some(rest) => Some([(script[0][|HeaderKeyword|..], script[1..1 + n])] + rest)
  }

  /** The interfaces with commands, each with its command lines, in order. */
  function NonEmptyBlocks(d: Dict<seq<Cmd>>): seq<(string, seq<string>)> {
    if |d| == 0 then []
    else if |d[0].1| > 0 then [(d[0].0, RenderAll(d[0].1))] + NonEmptyBlocks(d[1..])
    else NonEmptyBlocks(d[1..])
  }

  lemma {:induction false} BodyLengthAppend(a: seq<string>, b: seq<string>)
    requires forall i :: 0 <= i < |a| ==> !(HeaderKeyword <= a[i])
    requires |b| > 0 ==> HeaderKeyword <= b[0]
    ensures BodyLength(a + b) == |a|
  {
    if |a| > 0 {
      assert (a + b)[1..] == a[1..] + b;
      BodyLengthAppend(a[1..], b);
    } else {
      assert a + b == b;
    }
  }

  /** One selector, its command lines, then the rest of a script. */
  lemma UnflattenCons(header: string, body: seq<string>, rest: seq<string>, tail: seq<(string, seq<string>)>)
    requires HeaderKeyword <= header
    requires forall i :: 0 <= i < |body| ==> !(HeaderKeyword <= body[i])
    requires |rest| > 0 ==> HeaderKeyword <= rest[0]
    requires Unflatten(rest) == Some(tail)
    ensures Unflatten([header] + (body + rest)) == Some([(header[|HeaderKeyword|..], body)] + tail)
  {
    var script := [header] + (body + rest);
    assert script[1..] == body + rest;
    BodyLengthAppend(body, rest);
    assert script[1 + |body|..] == rest;
    assert script[1..1 + |body|] == body;
  }

  lemma UnflattenBlock(name: string, cs: seq<Cmd>, rest: seq<string>, tail: seq<(string, seq<string>)>)
    requires |cs| > 0 && (|rest| > 0 ==> HeaderKeyword <= rest[0])
    requires Unflatten(rest) == Some(tail)
    ensures Unflatten(Block(name, cs) + rest) == Some([(name, RenderAll(cs))] + tail)
  {
    var header := HeaderKeyword + name;
    assert Block(name, cs) + rest == [header] + (RenderAll(cs) + rest);
    assert header[|HeaderKeyword|..] == name;
    RenderAllNoHeader(cs);
    UnflattenCons(header, RenderAll(cs), rest, tail);
  }

  lemma RenderAllNoHeader(cs: seq<Cmd>)
    ensures forall i :: 0 <= i < |cs| ==> !(HeaderKeyword <= RenderAll(cs)[i])
  {
    forall i | 0 <= i < |cs|
      ensures !(HeaderKeyword <= RenderAll(cs)[i])
    {
      assert RenderAll(cs)[i] == Render(cs[i]);
    }
  }

  /** The script can be split back into exactly the interfaces that have
      commands, each with its own command lines: selectors and commands
      never run together, and empty lists leave no trace. */
  lemma {:induction false} FlattenRoundTrip(d: Dict<seq<Cmd>>)
    ensures Unflatten(Flatten(d)) == Some(NonEmptyBlocks(d))
  {
    if |d| > 0 {
      FlattenRoundTrip(d[1..]);
      var name, cs := d[0].0, d[0].1;
      var rest := Flatten(d[1..]);
      assert Flatten(d) == Block(name, cs) + rest;
      if |cs| > 0 {
        UnflattenBlock(name, cs, rest, NonEmptyBlocks(d[1..]));
      } else {
        assert Block(name, cs) + rest == rest;
      }
    }
  }

  /** The specifier is given and names interface `k`. */
  predicate Names(spec: Option<string>, ports: Dict<Port>, k: string) {
    spec.Some? && Expand(spec.value, ports).Success? && k in Expand(spec.value, ports).value
  }

  /** Some specifier of the entry names interface `k`. */
  predicate Covers(e: Entry, ports: Dict<Port>, k: string) {
    exists j :: 0 <= j < |e.interfaces| && Names(e.interfaces[j], ports, k)
  }

  /** Every specifier of the entry resolves. */
  predicate Resolvable(e: Entry, ports: Dict<Port>) {
    forall j :: 0 <= j < |e.interfaces| && e.interfaces[j].Some? ==> Expand(e.interfaces[j].value, ports).Success?
  }

  /** The last entry that names interface `k`. */
  function LastCover(want: seq<Entry>, ports: Dict<Port>, k: string): (r: Option<nat>)
    ensures r.Some? ==> r.value < |want| && Covers(want[r.value], ports, k)
                        && forall j :: r.value < j < |want| ==> !Covers(want[j], ports, k)
    ensures r.None? ==> forall j :: 0 <= j < |want| ==> !Covers(want[j], ports, k)
  {
    if |want| == 0 then None
    else
      var later := LastCover(want[1..], ports, k);
      assert forall j :: 1 <= j < |want| ==> want[j] == want[1..][j - 1];
      match later
      case Some(i) => Some(i + 1)
      case None => if Covers(want[0], ports, k) then Some(0) else None
  }

  /** An entry's assignments, when its specifiers resolve: each assigns the
      port's own commands for this entry, and they assign exactly the
      interfaces the entry names. */
  lemma {:induction false} EntryWritesContent(e: Entry, specs: seq<Option<string>>, ports: Dict<Port>)
    ensures EntryWrites(e, specs, ports).Success? <==>
      forall j :: 0 <= j < |specs| && specs[j].Some? ==> Expand(specs[j].value, ports).Success?
    ensures EntryWrites(e, specs, ports).Success? ==>
      var ws := EntryWrites(e, specs, ports).value;
      && (forall i :: 0 <= i < |ws| ==> ws[i].0 in Keys(ports) && ws[i].1 == PortCommands(e, Get(ports, ws[i].0).value, ws[i].0))
      && (forall k :: k in Keys(ws) <==> exists j :: 0 <= j < |specs| && Names(specs[j], ports, k))
  {
    if |specs| > 0 {
      EntryWritesContent(e, specs[1..], ports);
      assert forall j :: 1 <= j < |specs| ==> specs[j] == specs[1..][j - 1];
      var first := SpecWrites(e, specs[0], ports);
      var rest := EntryWrites(e, specs[1..], ports);
      if first.Success? && rest.Success? {
        assert Keys(first.value + rest.value) == Keys(first.value) + Keys(rest.value);
        forall k
          ensures (exists j :: 0 <= j < |specs| && Names(specs[j], ports, k)) <==>
                  Names(specs[0], ports, k) || exists j :: 0 <= j < |specs[1..]| && Names(specs[1..][j], ports, k)
        {
          if exists j :: 0 <= j < |specs| && Names(specs[j], ports, k) {
            var j :| 0 <= j < |specs| && Names(specs[j], ports, k);
            if j > 0 {
              assert Names(specs[1..][j - 1], ports, k);
            }
          }
        }
      }
    }
  }

  /** Generation succeeds exactly when every entry has the VLAN it needs and
      every specifier of every entry resolves. */
  lemma {:induction false} WritesSucceedIff(want: seq<Entry>, ports: Dict<Port>)
    ensures Writes(want, ports).Success? <==>
      forall i :: 0 <= i < |want| ==> Valid(want[i]) && Resolvable(want[i], ports)
  {
    if |want| > 0 {
      WritesSucceedIff(want[1..], ports);
      EntryWritesContent(want[0], want[0].interfaces, ports);
      assert Resolvable(want[0], ports) <==> EntryWrites(want[0], want[0].interfaces, ports).Success?;
      assert (forall i :: 0 <= i < |want| ==> Valid(want[i]) && Resolvable(want[i], ports)) <==>
        Valid(want[0]) && Resolvable(want[0], ports) &&
        forall i :: 0 <= i < |want[1..]| ==> Valid(want[1..][i]) && Resolvable(want[1..][i], ports) by {
        assert forall i :: 1 <= i < |want| ==> want[i] == want[1..][i - 1];
      }
    }
  }

  /** A `present` entry without a VLAN aborts the whole run with that error
      once the entries before it have resolved, whatever they produced. */
  lemma {:induction false} MissingVlanAborts(want: seq<Entry>, ports: Dict<Port>, i: nat)
    requires i < |want| && !Valid(want[i])
    requires forall j :: 0 <= j < i ==> Valid(want[j]) && Resolvable(want[j], ports)
    ensures MapToCommands(want, ports) == Failure(MissingVlanId)
  {
    if i > 0 {
      EntryWritesContent(want[0], want[0].interfaces, ports);
      assert forall j :: 1 <= j < |want| ==> want[j] == want[1..][j - 1];
      MissingVlanAborts(want[1..], ports, i - 1);
    }
  }

  lemma {:induction false} WritesLastWrite(want: seq<Entry>, ports: Dict<Port>, k: string)
    requires Writes(want, ports).Success?
    ensures LastWrite(Writes(want, ports).value, k) ==
      match LastCover(want, ports, k)
      case Some(i) => Some(PortCommands(want[i], Get(ports, k).value, k))
      case None => None
  {
    if |want| > 0 {
      var first := EntryWrites(want[0], want[0].interfaces, ports).value;
      var rest := Writes(want[1..], ports).value;
      WritesLastWrite(want[1..], ports, k);
      LastWriteAppend(first, rest, k);
      EntryWritesContent(want[0], want[0].interfaces, ports);
      if k in Keys(first) {
        var i :| 0 <= i < |first| && first[i].0 == k;
        UniformLastWrite(first, k, PortCommands(want[0], Get(ports, k).value, k));
      } else {
        UniformLastWrite(first, k, []);
      }
      assert forall j :: 1 <= j < |want| ==> want[j] == want[1..][j - 1];
    }
  }

  /** Last writer wins: after generation each interface holds the commands
      of the last entry that names it, and interfaces no entry names are
      absent. The dictionary has no repeated interface, and its interfaces
      come in the order in which they were first assigned. */
  lemma MapToCommandsLookup(want: seq<Entry>, ports: Dict<Port>, k: string)
    requires MapToCommands(want, ports).Success?
    ensures DistinctKeys(MapToCommands(want, ports).value)
    ensures Keys(MapToCommands(want, ports).value) == FirstKeys(Keys(Writes(want, ports).value), [])
    ensures Get(MapToCommands(want, ports).value, k) ==
      match LastCover(want, ports, k)
      case Some(i) => Some(PortCommands(want[i], Get(ports, k).value, k))
      case None => None
  {
    var ws := Writes(want, ports).value;
    PutAllKeys([], ws);
    assert Keys<seq<Cmd>>([]) == [];
    PutAllLastWriterWins([], ws, k);
    WritesLastWrite(want, ports, k);
  }

  /** The module's result: the script and whether anything changes. */
  datatype Outcome = Outcome(changed: bool, commands: seq<string>)

  /** One run: parse the port map, generate, flatten. The run changes the
      switch exactly when the script is not empty. */
  function Reconcile(want: seq<Entry>, config: seq<seq<string>>): (r: Result<Outcome, Error>)
    ensures r.Success? <==> Writes(want, ParseConfig(config)).Success?
    ensures r.Success? ==> (r.value.changed <==> |r.value.commands| > 0)
  {
    var m :- MapToCommands(want, ParseConfig(config));
    var commands := Flatten(m);
    Success(Outcome(|commands| > 0, commands))
  }

  /** Whether the last entry naming `k` has commands for it. */
  predicate Pending(want: seq<Entry>, ports: Dict<Port>, k: string) {
    match LastCover(want, ports, k)
    case Some(i) => PortCommands(want[i], Get(ports, k).value, k) != []
    case None => false
  }

  /** The run reports a change exactly when some interface's last naming
      entry has commands for it. */
  lemma ChangedIffPending(want: seq<Entry>, config: seq<seq<string>>)
    requires Reconcile(want, config).Success?
    ensures Reconcile(want, config).value.changed <==> exists k :: Pending(want, ParseConfig(config), k)
  {
    var ports := ParseConfig(config);
    var m := MapToCommands(want, ports).value;
    if Reconcile(want, config).value.changed {
      var idx :| 0 <= idx < |m| && |m[idx].1| > 0;
      var k := m[idx].0;
      MapToCommandsLookup(want, ports, k);
      EntryIsLookup(m, idx);
      assert Pending(want, ports, k);
    }
    if exists k :: Pending(want, ports, k) {
      var k :| Pending(want, ports, k);
      MapToCommandsLookup(want, ports, k);
      assert k in Keys(m);
      var idx :| 0 <= idx < |m| && m[idx].0 == k;
      EntryIsLookup(m, idx);
      assert |m[idx].1| > 0;
    }
  }
}
