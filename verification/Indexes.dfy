/** Secondary indexes over an append-only log: each maps a key to the positions holding it. */
module Indexes {
  import opened Base
  import opened Sequences

  /** A hash map from key to the vector of log positions pushed under it. */
  type Index = map<u64, seq<nat>>

  function Lookup(ix: Index, k: u64): seq<nat> {
    if k in ix then ix[k] else []
  }

  /** `ix[key].push_back(i)`, skipped when the record has no such key. */
  function Push(ix: Index, key: Option<u64>, i: nat): Index {
    match key
    case None => ix
    case Some(k) => ix[k := Lookup(ix, k) + [i]]
  }

  /** The positions of `keys` that hold `k`, in log order: what a scan of the log finds. */
  function Positions(keys: seq<Option<u64>>, k: u64): seq<nat> {
    if keys == [] then []
    else
      var n := |keys| - 1;
      Positions(keys[..n], k) + if keys[n] == Some(k) then [n] else []
  }

  /** A scan yields exactly the matching positions, in increasing order. */
  lemma {:induction false} PositionsExact(keys: seq<Option<u64>>, k: u64)
    ensures forall i, j :: 0 <= i < j < |Positions(keys, k)| ==> Positions(keys, k)[i] < Positions(keys, k)[j]
    ensures forall i: nat :: i in Positions(keys, k) <==> i < |keys| && keys[i] == Some(k)
  {
    if keys == [] {
    } else {
      var before := Positions(keys[..|keys| - 1], k);
      PositionsExact(keys[..|keys| - 1], k);
      assert forall i :: 0 <= i < |before| ==> before[i] in before;
    }
  }

  /** The index holds for every key precisely what a scan would find, and no empty entries. */
  ghost predicate Agrees(ix: Index, keys: seq<Option<u64>>) {
    && (forall k: u64 :: Lookup(ix, k) == Positions(keys, k))
    && (forall k: u64 :: k in ix ==> ix[k] != [])
  }

  /** Indexing each record as it is appended keeps the agreement. */
  lemma PushAgrees(ix: Index, keys: seq<Option<u64>>, key: Option<u64>)
    requires Agrees(ix, keys)
    ensures Agrees(Push(ix, key, |keys|), keys + [key])
  {
    assert (keys + [key])[..|keys|] == keys;
    forall k: u64
      ensures Lookup(Push(ix, key, |keys|), k) == Positions(keys + [key], k)
    {
      assert Lookup(ix, k) == Positions(keys, k);
    }
  }

  /** The keys determine the index: two that agree with the same log are the same map. */
  lemma AgreesUnique(ix1: Index, ix2: Index, keys: seq<Option<u64>>)
    requires Agrees(ix1, keys) && Agrees(ix2, keys)
    ensures ix1 == ix2
  {
    forall k: u64
      ensures k in ix1 <==> k in ix2
      ensures k in ix1 ==> ix1[k] == ix2[k]
    {
      assert Lookup(ix1, k) == Positions(keys, k) == Lookup(ix2, k);
    }
  }

  /** The last position holding `k`: what a single-valued index remembers. */
  function Latest(keys: seq<Option<u64>>, k: u64): Option<nat> {
    if keys == [] then None
    else if keys[|keys| - 1] == Some(k) then Some(|keys| - 1)
    else Latest(keys[..|keys| - 1], k)
  }

  lemma {:induction false} LatestExact(keys: seq<Option<u64>>, k: u64)
    ensures match Latest(keys, k)
            case None => forall i :: 0 <= i < |keys| ==> keys[i] != Some(k)
            case Some(n) => n < |keys| && keys[n] == Some(k) && forall i :: n < i < |keys| ==> keys[i] != Some(k)
  {
    if keys == [] {
    } else {
      LatestExact(keys[..|keys| - 1], k);
    }
  }

  function Overwrite(ix: map<u64, nat>, key: Option<u64>, i: nat): map<u64, nat> {
    match key
    case None => ix
    case Some(k) => ix[k := i]
  }

  function Find(ix: map<u64, nat>, k: u64): Option<nat> {
    if k in ix then Some(ix[k]) else None
  }

  ghost predicate Remembers(ix: map<u64, nat>, keys: seq<Option<u64>>) {
    forall k: u64 :: Find(ix, k) == Latest(keys, k)
  }

  lemma OverwriteRemembers(ix: map<u64, nat>, keys: seq<Option<u64>>, key: Option<u64>)
    requires Remembers(ix, keys)
    ensures Remembers(Overwrite(ix, key, |keys|), keys + [key])
  {
    assert (keys + [key])[..|keys|] == keys;
    forall k: u64
      ensures Find(Overwrite(ix, key, |keys|), k) == Latest(keys + [key], k)
    {
      assert Find(ix, k) == Latest(keys, k);
    }
  }

  lemma RemembersUnique(ix1: map<u64, nat>, ix2: map<u64, nat>, keys: seq<Option<u64>>)
    requires Remembers(ix1, keys) && Remembers(ix2, keys)
    ensures ix1 == ix2
  {
    forall k: u64
      ensures k in ix1 <==> k in ix2
      ensures k in ix1 ==> ix1[k] == ix2[k]
    {
      assert Find(ix1, k) == Latest(keys, k) == Find(ix2, k);
    }
  }

  // ----- lookups against scans

  function Gather<T>(log: seq<T>, at: seq<nat>): (r: seq<T>)
    requires forall i :: 0 <= i < |at| ==> at[i] < |log|
    ensures |r| == |at| && forall i :: 0 <= i < |at| ==> r[i] == log[at[i]]
  {
    if at == [] then [] else [log[at[0]]] + Gather(log, at[1..])
  }

  /** Every position a scan for `k` yields lies inside the log. */
  lemma PositionsInside(keys: seq<Option<u64>>, k: u64)
    ensures forall i :: 0 <= i < |Positions(keys, k)| ==> Positions(keys, k)[i] < |keys|
  {
    PositionsExact(keys, k);
    assert forall i :: 0 <= i < |Positions(keys, k)| ==> Positions(keys, k)[i] in Positions(keys, k);
  }

  /** Collecting the positions an index lists for a key is the same as filtering the whole log. */
  lemma {:induction false} LookupIsScan<T>(log: seq<T>, keys: seq<Option<u64>>, k: u64, p: T -> bool)
    requires |keys| == |log| && forall i :: 0 <= i < |log| ==> (p(log[i]) <==> keys[i] == Some(k))
    ensures forall i :: 0 <= i < |Positions(keys, k)| ==> Positions(keys, k)[i] < |log|
    ensures Gather(log, Positions(keys, k)) == Filter(p, log)
  {
    hide Gather;
    PositionsInside(keys, k);
    if log == [] {
    } else {
      var n := |log| - 1;
      var before := Positions(keys[..n], k);
      PositionsInside(keys[..n], k);
      LookupIsScan(log[..n], keys[..n], k, p);
      assert log == log[..n] + [log[n]];
      FilterSnoc(p, log[..n], log[n]);
      assert Gather(log, before) == Gather(log[..n], before);
      assert Gather(log, before + [n]) == Gather(log, before) + [log[n]];
    }
  }
}
