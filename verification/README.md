# Voice VLAN reconciliation for EdgeSwitch/M4300 ports

This project models the reconciliation core of the `edgeswitch_voice` network
module. The module reads the switch's per-interface running configuration
into a port map (`map_config_to_obj`). For every desired entry it computes the
voice commands each named port needs (`map_to_commands_interface`). When
several entries name the same interface, the last one wins. The per-interface
lists are then flattened into one script of `interface <name>` selectors,
each followed by its commands (`map_to_commands`). The run reports a change
exactly when that script is non-empty.

Modules, in dependency order:

- `Base`: `Option` and `Result`, the latter usable with `:-`.
- `Text`: decimal numerals as Python's `str` writes them and `int` reads them.
- `Dict`: a Python `dict` as an insertion-ordered sequence of pairs.
  - Assigning to a present key replaces its value in place.
  - Assigning to a new key appends it.
- `PortConfig`: the port map read from the configuration blocks (`map_config_to_obj`).
- `Commands`: the per-port diff (`map_to_commands_interface`) and the exact command text.
- `Specifiers`: interface specifiers, which are `all`, `0/A-0/B`, `3/A-3/B`, or a single name.
- `Script`: command generation over all entries, flattening, and the changed flag.
- `Convergence`: what the commands do to a port, and whether a second run is quiet.
- `Scenarios`: the module's documented examples, worked end to end.

The model follows the code as written where it differs from the module's
documentation:

- The documented removal sample shows `no voice vlan dscp`. The code emits it
  only when the port reports a DSCP.
- When no DSCP is requested, the code compares the port's DSCP with the
  integer 0, not with the "not configured" sentinel (line 101). So
  `no voice vlan dscp` is sent whenever the port does not hold DSCP 0. That
  includes a port with no DSCP at all. `Convergence.DscpOmittedNeverSettles`
  states the consequence: with a reported DSCP other than 0, the request never
  settles.
- Requested LLDP options are not deduplicated. A repeated option produces a
  repeated `lldp` command, in request order.
- Fibre ports are recognised only by the `3/` prefix of the interface key
  (line 96). The `present` state leaves them untouched. The `absent` state
  clears them like any other port.

## Model

| member | source | states |
|---|---|---|
| PortConfig.HeaderName | library/edgeswitch_voice.py:177-182 | The name is None exactly when no line before the last starts with `interface `. Otherwise it is the rest of the first such line, which must be followed by a line break. |
| PortConfig.DigitRun | library/edgeswitch_voice.py:186 | The captured `\d+` run is maximal: all digits, and the next character is not a digit. |
| PortConfig.PhraseRun | library/edgeswitch_voice.py:198 | The captured `[\w\- ]+` run is maximal: all phrase characters, and the next character is not one. |
| PortConfig.FirstNumber | library/edgeswitch_voice.py:186-196 | The value is the "not configured" sentinel exactly when no line carries the keyword followed by digits. Otherwise it is the number on the first line that does. |
| PortConfig.LldpPhrases | library/edgeswitch_voice.py:198 | Every phrase of every `lldp` line is collected, and nothing else. |
| PortConfig.LldpPhrasesAppend | library/edgeswitch_voice.py:198 | The phrases of two runs of lines are the phrases of the first run followed by those of the second, so phrases come out in the order of their lines. |
| PortConfig.ParseBlock | library/edgeswitch_voice.py:178-180 | A block is skipped exactly when it has no interface header. |
| PortConfig.Headed | library/edgeswitch_voice.py:176-185 | The names read are exactly the names of the blocks that have an interface header. Blocks without one are skipped. |
| PortConfig.ParseConfig | library/edgeswitch_voice.py:174-185 | The port map holds exactly the names of the headed blocks, each once, in the order of each name's first block. Each name maps to the record of the last block carrying it. |
| PortConfig.DscpLineIsNotVlan | library/edgeswitch_voice.py:186-196 | A `voice vlan dscp <n>` line does not count as a voice VLAN setting. |
| PortConfig.ShowThenParse | library/edgeswitch_voice.py:176-198 | Parsing the block the switch shows for a port gives back that port's name and record: VLAN, DSCP and LLDP phrases. |
| Commands.Render | library/edgeswitch_voice.py:98-116 | A command line is never empty and never starts with `interface `, so in the script it cannot pass for a selector. |
| Commands.RenderRoundTrip | library/edgeswitch_voice.py:98-116 | Each emitted command line reads back as the command it was made from, so the text names the command uniquely. |
| Commands.PortCommands | library/edgeswitch_voice.py:94-118 | A port gets at most one VLAN command, one DSCP command and one command per requested option. `present` never clears the VLAN, and `absent` sends nothing but the two clearing commands. |
| Commands.PortCommandsOrder | library/edgeswitch_voice.py:94-118 | VLAN commands come first, DSCP commands next and LLDP commands last. No VLAN or DSCP command is repeated. |
| Commands.PresentVlan | library/edgeswitch_voice.py:96-98 | Under `present` on a non-fibre port, `voice vlan <id>` is sent exactly when the port's VLAN differs from the request. No other VLAN command is sent. |
| Commands.PresentDscpGiven | library/edgeswitch_voice.py:103-104 | With a requested DSCP, `voice vlan dscp <d>` is sent exactly when the port's DSCP differs from it. The DSCP is never cleared. |
| Commands.PresentDscpOmitted | library/edgeswitch_voice.py:100-102 | Without a requested DSCP, `no voice vlan dscp` is sent exactly when the port does not report DSCP 0. No other DSCP command is sent. |
| Commands.NewOptions | library/edgeswitch_voice.py:106-109 | An option is new exactly when it is requested and the port does not already have it enabled. |
| Commands.PresentLldp | library/edgeswitch_voice.py:106-109 | The LLDP commands enable exactly the requested options that are not yet enabled, in request order. Under `present` nothing removes the VLAN. |
| Commands.PresentFibre | library/edgeswitch_voice.py:96 | Under `present`, a port whose key starts with `3/` gets no commands. |
| Commands.AbsentClears | library/edgeswitch_voice.py:111-116 | Under `absent`, the VLAN is cleared exactly when the port reports one, and the DSCP exactly when it reports one. Nothing else is sent, whatever the port's name. |
| Convergence.PresentConverges | library/edgeswitch_voice.py:94-109 | Applying a `present` port's commands and diffing again yields nothing. This holds for a non-negative VLAN and DSCP, and when a DSCP is omitted the port already holds 0. |
| Convergence.AbsentConverges | library/edgeswitch_voice.py:111-116 | Applying an `absent` port's commands and diffing again yields nothing. |
| Convergence.DscpOmittedNeverSettles | library/edgeswitch_voice.py:100-102 | If no DSCP is requested and the port's DSCP is not 0, both the first run and the run after it send `no voice vlan dscp`. |
| Specifiers.SearchRange | library/edgeswitch_voice.py:145-148 | A match found is the range read at some position of the specifier, at or after the starting point. |
| Specifiers.SearchRangeSpec | library/edgeswitch_voice.py:145-148 | The range search fails exactly when `T/(\d+)-T/(\d+)` occurs nowhere in the specifier. Otherwise it returns the numbers of the leftmost occurrence. |
| Specifiers.RangeKeys | library/edgeswitch_voice.py:150-151 | A range from A to B names `T/A` through `T/B`, B - A + 1 names in all, and none when A > B. |
| Specifiers.Resolve | library/edgeswitch_voice.py:152 | Every name is looked up in the port map. The lookup fails exactly when some name is not a port, and the error names the first such name. |
| Specifiers.Expand | library/edgeswitch_voice.py:137-158 | `all` names every port in map order. Any other specifier names only ports, or fails on a name that is not a port. |
| Specifiers.RangeSpecExpands | library/edgeswitch_voice.py:143-154 | The specifiers `0/A-0/B` and `3/A-3/B` name exactly the ports of that range. |
| Specifiers.FibreRangeIsNotCopper | library/edgeswitch_voice.py:145-148 | The copper pattern `0/…-0/…` does not match a fibre range specifier, so the fibre pattern is the one tried. |
| Specifiers.PlainNameExpands | library/edgeswitch_voice.py:155-158 | A specifier other than `all` that contains no `-` names exactly itself, and fails if it is not a port. |
| Script.EntryWritesContent | library/edgeswitch_voice.py:136-158 | An entry's specifiers resolve exactly when each one does. The entry then assigns to exactly the interfaces it names, each with that port's own commands. |
| Script.WritesSucceedIff | library/edgeswitch_voice.py:124-158 | Generation succeeds exactly when every `present` entry has a VLAN and every specifier of every entry resolves. |
| Script.MissingVlanAborts | library/edgeswitch_voice.py:132-134 | The first `present` entry without a VLAN aborts the whole run with that error, once the entries before it have resolved. |
| Script.LastCover | library/edgeswitch_voice.py:136-158 | The entry returned is the last one that names the interface, or none names it. |
| Script.Writes | library/edgeswitch_voice.py:121-158 | Generation fails only in two ways. One is a missing VLAN, and then some entry is `present` without one. The other is an interface name that is not a port. |
| Script.MapToCommands | library/edgeswitch_voice.py:121-161 | The per-interface lists are produced exactly when every entry has its VLAN and every specifier resolves. No interface appears twice. |
| Script.MergeInterfaces | library/edgeswitch_voice.py:161 | Every interface keeps its place and its command list. |
| Script.MapToCommandsLookup | library/edgeswitch_voice.py:123-161 | Each interface holds the commands of the last entry naming it, and interfaces no entry names are absent. No interface appears twice. The interfaces come in the order in which they were first assigned. |
| Script.Flatten | library/edgeswitch_voice.py:164-170 | The script is empty exactly when every interface's command list is empty. A non-empty script starts with an interface selector. |
| Script.FlattenRoundTrip | library/edgeswitch_voice.py:164-168 | Splitting the script at its selectors gives back, in map order, each interface with a non-empty list, together with that list's command text. |
| Script.Reconcile | library/edgeswitch_voice.py:226-235 | A run fails exactly when generation fails. A successful run reports a change exactly when its script is non-empty. |
| Script.ChangedIffPending | library/edgeswitch_voice.py:229-235 | A run reports a change exactly when, for some interface, the last entry naming it has commands for it. |
| Dict.PutGet | library/edgeswitch_voice.py:153-154 | After `d[k] = v` the key maps to the new value, and every other key keeps its value. |
| Dict.PutKeys | library/edgeswitch_voice.py:153-154 | After `d[k] = v` a present key keeps its place, and a new key goes last. |
| Dict.PutDistinct | library/edgeswitch_voice.py:153-154 | Assigning into a dictionary without repeated keys leaves it without repeated keys. |
| Dict.PutAllLastWriterWins | library/edgeswitch_voice.py:136-158 | After a run of assignments each key holds the value of its last assignment. Keys that were not assigned keep their value. |
| Dict.PutAllKeys | library/edgeswitch_voice.py:165 | After a run of assignments the keys are the old ones, in their places, followed by the new keys in the order of their first assignment, each exactly once. |
| Text.IntToStringRoundTrip | library/edgeswitch_voice.py:98 | The decimal text written for an integer reads back as the same integer. |
| Scenarios.SetupExample | library/edgeswitch_voice.py:52-59 | Take VLAN 100 with DSCP 46 on `0/1` and `0/3-0/6`. The switch shows 0/1 bare and ports 0/3 to 0/6 already holding VLAN 100 and DSCP 46. The script is `interface 0/1`, `voice vlan 100`, `voice vlan dscp 46`, and the run reports a change. The range ports have nothing to do and get no selector. |
| Scenarios.RemovalExample | library/edgeswitch_voice.py:61-65 | Take `absent` on `all` against a port 0/1 holding VLAN 100 and DSCP 46. The script is `interface 0/1`, `no voice vlan`, `no voice vlan dscp`. |

## Left out

- `main` is left out. Argument handling, `required_one_of` and `mutually_exclusive` belong to the surrounding framework. The desired entries are taken as input.
- `map_params_to_obj` and `build_aggregate_spec` are not part of this model. An entry here is the record they produce, with an unsupplied `vlan_id` as the explicit `Missing` value.
- `get_interfaces_config` is not part of this model. The configuration blocks are taken as input, as sequences of lines, in the order the switch reports them.
- `load_config` and check mode are left out. Sending commands to the switch is I/O. The model computes the script and the changed flag only.
- Wrapping a non-list `interfaces` value into a one-element list (lines 128-129) is left out. Entries always carry a sequence of specifiers.
- The failure text of `fail_json` and Python's `KeyError` on an unknown interface are not modelled as text. Both become a `Result` failure: `MissingVlanId` or `UnknownInterface`.
- PortConfig.FirstNumber, PortConfig.HeaderName, PortConfig.LldpPhrases: the searches at lines 178, 186, 192 and 198 are recognised only at the start of a line, not anywhere in the joined text. Lines are assumed free of line breaks. `\d` and `\w` cover ASCII characters only.
- Commands.PresentVlan: a supplied `vlan_id` is read as an integer and an unsupplied one as the string `'None'`, which is what line 132 tests. Under the other reading, where line 97 compares the port's integer VLAN with a string, the VLAN always differs. `voice vlan` would then be sent on every run, and this lemma and Convergence.PresentConverges would not hold of the program.
- Script.MissingVlanAborts: under the same reading, the abort at line 132 fires for an unsupplied VLAN. If an unsupplied `vlan_id` were Python's `None` instead, line 132 would never fire, and a `present` entry without a VLAN would send `voice vlan None`. `Render` keeps that text for the `Missing` value.
- Specifiers.SearchRangeSpec: Python 3's `\d` at lines 145 and 148 also matches non-ASCII decimal digits, such as the Arabic-Indic digits of `0/١-0/٣`, and `int()` reads them. The model's digits are ASCII only, so such a specifier is treated as a plain name here.
- Script.MergeInterfaces: `merge_interfaces` (range compression) is not part of this model and is taken as the identity, so the script never uses range syntax. The contract states only that every interface keeps its place and its list.
- Convergence.PresentConverges: the effect of a command on the switch is an assumed model. `voice vlan <n>` sets the VLAN, `voice vlan dscp <d>` sets the DSCP, `lldp <x>` enables the option, and the `no` forms clear. The switch's real behaviour is not part of this model.
- The command-condition evaluator, the retry loop of the companion command module and its unit tests are not part of this model.
