/** An insertion-ordered dictionary with Python `dict` semantics: assigning
    to a present key replaces its value in place, assigning to a new key
    appends it, and iteration follows first-insertion order. */
module Dict {
  import opened Base

  type Dict<V> = seq<(string, V)>

  function Keys<V>(d: Dict<V>): (ks: seq<string>)
    ensures |ks| == |d|
    ensures forall i :: 0 <= i < |d| ==> ks[i] == d[i].0
  {
    seq(|d|, i requires 0 <= i < |d| => d[i].0)
  }

  /** No key occurs twice, as in every Python dict. */
  predicate DistinctKeys<V>(d: Dict<V>) {
    forall i, j :: 0 <= i < j < |d| ==> d[i].0 != d[j].0
  }

  /** `d[k]` when `k` is present. */
  function Get<V>(d: Dict<V>, k: string): (r: Option<V>)
    ensures r.Some? <==> k in Keys(d)
  {
    if |d| == 0 then None
    else if d[0].0 == k then Some(d[0].1)
    else
      assert Keys(d) == [d[0].0] + Keys(d[1..]);
      Get(d[1..], k)
  }

  /** `d[k] = v`. */
  function Put<V>(d: Dict<V>, k: string, v: V): Dict<V> {
    if |d| == 0 then [(k, v)]
    else if d[0].0 == k then [(k, v)] + d[1..]
    else [d[0]] + Put(d[1..], k, v)
  }

  /** Assignment as Python's dict performs it: the key then maps to the new
      value, every other key keeps its value, a present key keeps its place
      and a new key goes last, and no key is repeated. */
  lemma PutSpec<V>(d: Dict<V>, k: string, v: V)
    ensures Get(Put(d, k, v), k) == Some(v)
    ensures forall k' :: k' != k ==> Get(Put(d, k, v), k') == Get(d, k')
    ensures k in Keys(d) ==> Keys(Put(d, k, v)) == Keys(d)
    ensures k !in Keys(d) ==> Keys(Put(d, k, v)) == Keys(d) + [k]
    ensures DistinctKeys(d) ==> DistinctKeys(Put(d, k, v))
  {
    forall k' ensures Get(Put(d, k, v), k') == if k' == k then Some(v) else Get(d, k') {
      PutGet(d, k, v, k');
    }
    PutKeys(d, k, v);
    if DistinctKeys(d) {
      PutDistinct(d, k, v);
    }
  }

  lemma {:induction false} PutGet<V>(d: Dict<V>, k: string, v: V, k': string)
    ensures Get(Put(d, k, v), k') == if k' == k then Some(v) else Get(d, k')
  {
    if |d| > 0 && d[0].0 != k {
      PutGet(d[1..], k, v, k');
      assert Put(d, k, v)[1..] == Put(d[1..], k, v);
    }
  }

  lemma KeysCons<V>(d: Dict<V>)
    requires |d| > 0
    ensures Keys(d) == [d[0].0] + Keys(d[1..])
  {
  }

  lemma {:induction false} PutKeys<V>(d: Dict<V>, k: string, v: V)
    ensures Keys(Put(d, k, v)) == if k in Keys(d) then Keys(d) else Keys(d) + [k]
  {
    if |d| > 0 {
      KeysCons(d);
      var r := Put(d, k, v);
      KeysCons(r);
      if d[0].0 == k {
        assert r[1..] == d[1..];
      } else {
        var rest := Put(d[1..], k, v);
        PutKeys(d[1..], k, v);
        assert r[1..] == rest;
        assert k in Keys(d) <==> k in Keys(d[1..]);
      }
    }
  }

  lemma PutDistinct<V>(d: Dict<V>, k: string, v: V)
    requires DistinctKeys(d)
    ensures DistinctKeys(Put(d, k, v))
  {
    var r := Put(d, k, v);
    PutKeys(d, k, v);
    var ks := Keys(r);
    assert forall i :: 0 <= i < |r| ==> r[i].0 == ks[i];
    assert forall i, j :: 0 <= i < j < |ks| ==> ks[i] != ks[j];
  }

  /** The dictionary after the assignments `ws`, performed in order. */
  function PutAll<V>(d: Dict<V>, ws: seq<(string, V)>): Dict<V>
  {
    if |ws| == 0 then d else Put(PutAll(d, ws[..|ws| - 1]), ws[|ws| - 1].0, ws[|ws| - 1].1)
  }

  /** The value of the last assignment to `k` in `ws`. */
  function LastWrite<V>(ws: seq<(string, V)>, k: string): Option<V>
  {
    if |ws| == 0 then None
    else if ws[|ws| - 1].0 == k then Some(ws[|ws| - 1].1)
    else LastWrite(ws[..|ws| - 1], k)
  }

  /** After a run of assignments the last writer of each key wins; untouched
      keys keep their value. */
  lemma {:induction false} PutAllLastWriterWins<V>(d: Dict<V>, ws: seq<(string, V)>, k: string)
    ensures Get(PutAll(d, ws), k) == if LastWrite(ws, k).Some? then LastWrite(ws, k) else Get(d, k)
  {
    if |ws| > 0 {
      PutAllLastWriterWins(d, ws[..|ws| - 1], k);
      PutSpec(PutAll(d, ws[..|ws| - 1]), ws[|ws| - 1].0, ws[|ws| - 1].1);
    }
  }

  /** The keys of `ks` not in `seen`, each at its first occurrence. */
  function FirstKeys(ks: seq<string>, seen: seq<string>): seq<string> {
    if |ks| == 0 then []
    else if ks[0] in seen then FirstKeys(ks[1..], seen)
    else [ks[0]] + FirstKeys(ks[1..], seen + [ks[0]])
  }

  /** One more key extends the first occurrences exactly when it is new. */
  lemma {:induction false} FirstKeysSnoc(ks: seq<string>, seen: seq<string>, k: string)
    ensures FirstKeys(ks + [k], seen) == FirstKeys(ks, seen) + (if k in seen || k in ks then [] else [k])
  {
    if |ks| == 0 {
      assert ks + [k] == [k];
    } else {
      assert (ks + [k])[0] == ks[0];
      assert (ks + [k])[1..] == ks[1..] + [k];
      assert k in ks <==> k == ks[0] || k in ks[1..];
      if ks[0] in seen {
        FirstKeysSnoc(ks[1..], seen, k);
      } else {
        FirstKeysSnoc(ks[1..], seen + [ks[0]], k);
        assert k in seen + [ks[0]] <==> k in seen || k == ks[0];
      }
    }
  }

  /** The keys after a run of assignments: the old ones in their places,
      then each new key in order of its first assignment. */
  lemma {:induction false} PutAllKeyOrder<V>(d: Dict<V>, ws: seq<(string, V)>)
    ensures Keys(PutAll(d, ws)) == Keys(d) + FirstKeys(Keys(ws), Keys(d))
  {
    if |ws| > 0 {
      var init := ws[..|ws| - 1];
      var k := ws[|ws| - 1].0;
      var prev := PutAll(d, init);
      var first := FirstKeys(Keys(init), Keys(d));
      var extra := if k in Keys(d) || k in Keys(init) then [] else [k];
      PutAllKeyOrder(d, init);
      assert k in Keys(prev) <==> k in Keys(d) || k in Keys(init) by {
        FirstKeysMembers(Keys(init), Keys(d), k);
      }
      assert Keys(PutAll(d, ws)) == Keys(prev) + extra by {
        PutKeys(prev, k, ws[|ws| - 1].1);
      }
      assert FirstKeys(Keys(ws), Keys(d)) == first + extra by {
        assert Keys(ws) == Keys(init) + [k];
        FirstKeysSnoc(Keys(init), Keys(d), k);
      }
      assert Keys(d) + (first + extra) == (Keys(d) + first) + extra;
    } else {
      assert Keys(ws) == [];
    }
  }

  lemma {:induction false} FirstKeysMembers(ks: seq<string>, seen: seq<string>, k: string)
    ensures k in FirstKeys(ks, seen) <==> k in ks && k !in seen
  {
    if |ks| > 0 {
      assert k in ks <==> k == ks[0] || k in ks[1..];
      if ks[0] in seen {
        FirstKeysMembers(ks[1..], seen, k);
      } else {
        FirstKeysMembers(ks[1..], seen + [ks[0]], k);
      }
    }
  }

  /** The keys after a run of assignments: the old ones in their places,
      then each new key in order of its first assignment, each once. */
  lemma {:induction false} PutAllKeys<V>(d: Dict<V>, ws: seq<(string, V)>)
    requires DistinctKeys(d)
    ensures DistinctKeys(PutAll(d, ws))
    ensures Keys(PutAll(d, ws)) == Keys(d) + FirstKeys(Keys(ws), Keys(d))
    ensures forall k :: k in Keys(PutAll(d, ws)) <==> k in Keys(d) || k in Keys(ws)
  {
    PutAllKeyOrder(d, ws);
    PutAllDistinct(d, ws);
    forall k ensures k in Keys(PutAll(d, ws)) <==> k in Keys(d) || k in Keys(ws) {
      FirstKeysMembers(Keys(ws), Keys(d), k);
    }
  }

  lemma {:induction false} PutAllDistinct<V>(d: Dict<V>, ws: seq<(string, V)>)
    requires DistinctKeys(d)
    ensures DistinctKeys(PutAll(d, ws))
  {
    if |ws| > 0 {
      PutAllDistinct(d, ws[..|ws| - 1]);
      PutDistinct(PutAll(d, ws[..|ws| - 1]), ws[|ws| - 1].0, ws[|ws| - 1].1);
    }
  }

  /** Assigning a new key appends it. */
  lemma {:induction false} PutNew<V>(d: Dict<V>, k: string, v: V)
    requires k !in Keys(d)
    ensures Put(d, k, v) == d + [(k, v)]
  {
    if |d| > 0 {
      KeysCons(d);
      PutNew(d[1..], k, v);
      assert d == [d[0]] + d[1..];
    }
  }

  /** Assigning distinct keys, in order, to an empty dictionary builds
      exactly the list of assignments. */
  lemma {:induction false} PutAllFresh<V>(ws: seq<(string, V)>)
    requires DistinctKeys(ws)
    ensures PutAll([], ws) == ws
  {
    if |ws| > 0 {
      var init := ws[..|ws| - 1];
      assert DistinctKeys(init);
      PutAllFresh(init);
      assert ws[|ws| - 1].0 !in Keys(init);
      PutNew(init, ws[|ws| - 1].0, ws[|ws| - 1].1);
      assert init + [ws[|ws| - 1]] == ws;
    }
  }

  /** In a dictionary without repeated keys, each entry is what Get finds. */
  lemma EntryIsLookup<V>(d: Dict<V>, i: nat)
    requires DistinctKeys(d) && i < |d|
    ensures Get(d, d[i].0) == Some(d[i].1)
  {
    if i > 0 && d[0].0 != d[i].0 {
      assert DistinctKeys(d[1..]);
      EntryIsLookup(d[1..], i - 1);
    }
  }

  lemma {:induction false} LastWriteAppend<V>(a: seq<(string, V)>, b: seq<(string, V)>, k: string)
    ensures LastWrite(a + b, k) == if LastWrite(b, k).Some? then LastWrite(b, k) else LastWrite(a, k)
  {
    if |b| > 0 {
      assert (a + b)[..|a + b| - 1] == a + b[..|b| - 1];
      LastWriteAppend(a, b[..|b| - 1], k);
    } else {
      assert a + b == a;
    }
  }

  /** When every assignment to `k` carries the same value, the last one
      does too, and there is one exactly when `k` is assigned at all. */
  lemma {:induction false} UniformLastWrite<V>(ws: seq<(string, V)>, k: string, v: V)
    requires forall i :: 0 <= i < |ws| && ws[i].0 == k ==> ws[i].1 == v
    ensures LastWrite(ws, k) == if k in Keys(ws) then Some(v) else None
  {
    if |ws| > 0 {
      var init := ws[..|ws| - 1];
      assert Keys(ws) == Keys(init) + [ws[|ws| - 1].0];
      UniformLastWrite(init, k, v);
    }
  }
}
