/** Interface specifiers (`map_to_commands`, lines 136-158): the literal
    `all`, a range `0/A-0/B` or `3/A-3/B` found anywhere in the text, or a
    single interface name, each resolved against the port map. */
module Specifiers {
  import opened Base
  import opened Text
  import opened Dict
  import opened PortConfig

  datatype Error =
    | UnknownInterface(name: string)  // a port-map lookup that found nothing
    | MissingVlanId                   // `present` without `vlan_id`

  const All := "all"

  /** The range pattern `T/(\d+)-T/(\d+)` matched at position `p`, with its
      two numbers. Each digit run is taken as far as it goes. */
  function RangeAt(s: string, p: nat, t: char): Option<(nat, nat)> {
    if p + 2 <= |s| && s[p] == t && s[p + 1] == '/' then
      var n1 := DigitRun(s[p + 2..]);
      var q := p + 2 + n1;
      if n1 > 0 && q + 3 <= |s| && s[q] == '-' && s[q + 1] == t && s[q + 2] == '/' then
        var n2 := DigitRun(s[q + 3..]);
        if n2 > 0 then Some((DigitsValue(s[p + 2..][..n1]), DigitsValue(s[q + 3..][..n2]))) else None
      else None
    else None
  }

  /** The range pattern matches nowhere in positions lo..hi-1. */
  predicate NoRangeIn(s: string, t: char, lo: nat, hi: nat) {
    forall p :: lo <= p < hi ==> RangeAt(s, p, t).None?
  }

  /** The leftmost match of the range pattern at or after `from`, as
      `re.search` finds it. */
  function SearchRange(s: string, t: char, from: nat): (r: Option<(nat, nat)>)
    ensures r.Some? ==> exists p :: from <= p < |s| && RangeAt(s, p, t) == r
    decreases |s| - from
  {
    if from >= |s| then None
    else if RangeAt(s, from, t).Some? then RangeAt(s, from, t)
    else SearchRange(s, t, from + 1)
  }

  /** The search finds the pattern exactly when it occurs, and then at its
      leftmost occurrence. */
  lemma {:induction false} SearchRangeSpec(s: string, t: char, from: nat)
    ensures SearchRange(s, t, from).None? <==> NoRangeIn(s, t, from, |s|)
    ensures SearchRange(s, t, from).Some? ==>
      exists p :: from <= p < |s| && RangeAt(s, p, t) == SearchRange(s, t, from) && NoRangeIn(s, t, from, p)
    decreases |s| - from
  {
    if from < |s| {
      if RangeAt(s, from, t).Some? {
        assert NoRangeIn(s, t, from, from);
      } else {
        SearchRangeSpec(s, t, from + 1);
        assert SearchRange(s, t, from) == SearchRange(s, t, from + 1);
        assert NoRangeIn(s, t, from, |s|) <==> NoRangeIn(s, t, from + 1, |s|);
        if SearchRange(s, t, from).Some? {
          var p :| from + 1 <= p < |s| && RangeAt(s, p, t) == SearchRange(s, t, from) && NoRangeIn(s, t, from + 1, p);
          assert NoRangeIn(s, t, from, p);
        }
      }
    }
  }

  /** The names `T/lo`, ..., `T/hi`, as Python's `range(lo, hi + 1)` gives
      them; none when lo > hi. */
  function RangeKeys(t: char, lo: nat, hi: nat): (r: seq<string>)
    ensures |r| == if lo <= hi then hi - lo + 1 else 0
    ensures forall i :: 0 <= i < |r| ==> r[i] == [t, '/'] + NatToString(lo + i)
  {
    var n := if lo <= hi then hi - lo + 1 else 0;
    seq(n, i requires 0 <= i < n => [t, '/'] + NatToString(lo + i))
  }

  /** The keys when every one is a port, else the first that is not. */
  function Resolve(keys: seq<string>, ports: Dict<Port>): (r: Result<seq<string>, Error>)
    ensures r.Success? <==> forall k :: k in keys ==> k in Keys(ports)
    ensures r.Success? ==> r.value == keys
    ensures r.Failure? ==> exists i :: 0 <= i < |keys| && r.error == UnknownInterface(keys[i])
                             && keys[i] !in Keys(ports) && forall j :: 0 <= j < i ==> keys[j] in Keys(ports)
  {
    if |keys| == 0 then Success([])
    else if keys[0] !in Keys(ports) then Failure(UnknownInterface(keys[0]))
    else
      var rest := Resolve(keys[1..], ports);
      assert forall i :: 1 <= i < |keys| ==> keys[i] == keys[1..][i - 1];
      assert keys == [keys[0]] + keys[1..];
      match rest
      case Success(ks) => Success([keys[0]] + ks)
      case Failure(err) => Failure(err)
  }

  /** The interfaces one specifier names: every port for `all`, the range
      when the `0/` pattern or else the `3/` pattern occurs, otherwise the
      specifier itself; an interface that is not a port is an error. */
  function Expand(spec: string, ports: Dict<Port>): (r: Result<seq<string>, Error>)
    ensures r.Success? ==> forall k :: k in r.value ==> k in Keys(ports)
    ensures r.Failure? ==> r.error.UnknownInterface? && r.error.name !in Keys(ports)
    ensures spec == All ==> r == Success(Keys(ports))
  {
    if spec == All then Success(Keys(ports))
    else match SearchRange(spec, '0', 0)
      case Some(m) => Resolve(RangeKeys('0', m.0, m.1), ports)
      case None =>
        match SearchRange(spec, '3', 0)
        case Some(m) => Resolve(RangeKeys('3', m.0, m.1), ports)
        case None => Resolve([spec], ports)
  }

  /** The specifier text `T/a-T/b`. */
  function RangeSpec(t: char, a: nat, b: nat): string {
    [t, '/'] + NatToString(a) + ['-', t, '/'] + NatToString(b)
  }

  lemma RangeSpecMatches(t: char, a: nat, b: nat)
    ensures RangeAt(RangeSpec(t, a, b), 0, t) == Some((a, b))
  {
    var s := RangeSpec(t, a, b);
    var sa, sb := NatToString(a), NatToString(b);
    assert s[2..] == sa + (['-', t, '/'] + sb);
    DigitRunOfDigits(sa);
    DigitRunAppend(sa, ['-', t, '/'] + sb);
    assert s[2..][..|sa|] == sa;
    var q := 2 + |sa|;
    assert s[q..q + 3] == ['-', t, '/'];
    assert s[q + 3..] == sb;
    DigitRunOfDigits(sb);
    assert sb[..|sb|] == sb;
    DigitsValueOfNatToString(a);
    DigitsValueOfNatToString(b);
  }

  lemma {:induction false} DigitRunAppend(a: string, b: string)
    requires AllDigits(a) && |b| > 0 && !IsDigit(b[0])
    ensures DigitRun(a + b) == |a|
  {
    if |a| > 0 {
      assert (a + b)[1..] == a[1..] + b;
      DigitRunAppend(a[1..], b);
    } else {
      assert a + b == b;
    }
  }

  /** A `3/` range contains no `0/`, so the `0/` pattern never matches it. */
  lemma FibreRangeIsNotCopper(a: nat, b: nat)
    ensures SearchRange(RangeSpec('3', a, b), '0', 0).None?
  {
    var s := RangeSpec('3', a, b);
    var sa, sb := NatToString(a), NatToString(b);
    assert forall p :: 2 <= p < 2 + |sa| ==> s[p] == sa[p - 2];
    assert forall p :: |sa| + 5 <= p < |s| ==> s[p] == sb[p - |sa| - 5];
    forall p | 0 <= p < |s|
      ensures RangeAt(s, p, '0').None?
    {
      if p + 2 <= |s| && s[p + 1] == '/' {
        assert s[p] == '3';
      }
    }
    assert NoRangeIn(s, '0', 0, |s|);
    SearchRangeSpec(s, '0', 0);
  }

  /** A range specifier names exactly its range: `all` and the other
      pattern play no part. */
  lemma RangeSpecExpands(t: char, a: nat, b: nat, ports: Dict<Port>)
    requires t == '0' || t == '3'
    ensures Expand(RangeSpec(t, a, b), ports) == Resolve(RangeKeys(t, a, b), ports)
  {
    var s := RangeSpec(t, a, b);
    assert s[0] != All[0];
    RangeSpecMatches(t, a, b);
    if t == '3' {
      FibreRangeIsNotCopper(a, b);
    }
  }

  /** A name without `-` other than `all` is a single interface, found in
      the port map or reported as unknown. */
  lemma PlainNameExpands(spec: string, ports: Dict<Port>)
    requires spec != All && '-' !in spec
    ensures Expand(spec, ports) ==
      if spec in Keys(ports) then Success([spec]) else Failure(UnknownInterface(spec))
  {
    forall p, t | 0 <= p < |spec|
      ensures RangeAt(spec, p, t).None?
    {
      if p + 2 <= |spec| && spec[p] == t && spec[p + 1] == '/' {
        var n1 := DigitRun(spec[p + 2..]);
        var q := p + 2 + n1;
        if q + 3 <= |spec| {
          assert spec[q] in spec;
        }
      }
    }
    assert NoRangeIn(spec, '0', 0, |spec|) && NoRangeIn(spec, '3', 0, |spec|);
    SearchRangeSpec(spec, '0', 0);
    SearchRangeSpec(spec, '3', 0);
  }
}
