/** What a query returns, said of the log and of the criteria asked for. */
module Queries {
  import opened Base
  import opened Model
  import opened Sequences
  import opened Indexes
  import opened Store
  import opened Runs
  import opened Accounting

  /** The positions kept: exactly those `kept` marks, in increasing order. */
  ghost predicate Picks(at: seq<nat>, n: nat, kept: nat -> bool) {
    && (forall i, j :: 0 <= i < j < |at| ==> at[i] < at[j])
    && (forall i :: 0 <= i < |at| ==> at[i] < n && kept(at[i]))
    && forall k: nat :: k < n && kept(k) ==> k in at
  }

  lemma PicksSnoc(front: seq<nat>, n: nat, kept: nat -> bool)
    requires Picks(front, n, kept)
    ensures Picks(if kept(n) then front + [n] else front, n + 1, kept)
  {
    var at := front + [n];
    assert at[|front|] == n;
    forall k: nat | k < n + 1 && kept(k)
      ensures k in at && (k < n ==> k in front)
    {
      if k < n {
        assert k in front;
      }
    }
  }

  lemma GatherSnoc<T>(s: seq<T>, front: seq<nat>, n: nat)
    requires |s| == n + 1 && forall i :: 0 <= i < |front| ==> front[i] < n
    ensures Gather(s, front) == Gather(s[..n], front) && Gather(s, front + [n]) == Gather(s[..n], front) + [s[n]]
  {
  }

  /** Filtering keeps the elements at the positions where the condition holds, in their order. */
  lemma {:induction false} FilterPicks<T>(p: T -> bool, s: seq<T>, kept: nat -> bool) returns (at: seq<nat>)
    requires forall k: nat :: k < |s| ==> kept(k) == p(s[k])
    ensures Picks(at, |s|, kept) && Filter(p, s) == Gather(s, at)
    decreases |s|
  {
    hide Gather;
    if s == [] {
      at := [];
      assert Gather(s, at) == [];
    } else {
      var n := |s| - 1;
      assert forall k: nat :: k < n ==> s[..n][k] == s[k];
      var front := FilterPicks(p, s[..n], kept);
      assert s == s[..n] + [s[n]];
      FilterSnoc(p, s[..n], s[n]);
      PicksSnoc(front, n, kept);
      GatherSnoc(s, front, n);
      at := if kept(n) then front + [n] else front;
    }
  }

  // ----- observations

  /** A criterion asks for an observation and gets another. The criteria left at 0 ask for nothing; the
      wall time is between the two times given, inclusively. */
  predicate ObservationMisses(f: QueryFilter, o: Obs) {
    || (f.workloadId != 0 && o.workloadId != f.workloadId)
    || (f.requestId != 0 && o.requestId != f.requestId)
    || (f.decisionId != 0 && o.decisionId != f.decisionId)
    || (f.attemptId != 0 && o.attemptId != f.attemptId)
    || (f.nodeId != 0 && o.nodeId != f.nodeId)
    || (f.deviceId != 0 && o.deviceId != f.deviceId)
    || (f.sourceId != 0 && o.sourceId != f.sourceId)
    || (f.sourceGeneration != 0 && o.sourceGeneration != f.sourceGeneration)
    || (f.epoch != 0 && o.epoch != f.epoch)
    || (f.namespaceId != 0 && o.namespaceId != f.namespaceId)
    || (f.tBegin != 0 && o.timestamp.wall < f.tBegin)
    || (f.tEnd != 0 && o.timestamp.wall > f.tEnd)
  }

  /** A query returns the observations that miss no criterion, in log order. */
  lemma ObservationsAsked(f: QueryFilter, log: seq<Obs>) returns (at: seq<nat>)
    ensures Picks(at, |log|, k => 0 <= k < |log| && !ObservationMisses(f, log[k]))
    ensures Filter(o => MatchesObs(f, o), log) == Gather(log, at)
  {
    hide MatchesObs, ObservationMisses, Filter, Gather;
    forall o
      ensures MatchesObs(f, o) <==> !ObservationMisses(f, o)
    {
      MissesNothing(f, o);
    }
    at := FilterPicks(o => MatchesObs(f, o), log, k => 0 <= k < |log| && !ObservationMisses(f, log[k]));
  }

  lemma MissesNothing(f: QueryFilter, o: Obs)
    ensures MatchesObs(f, o) <==> !ObservationMisses(f, o)
  {
  }

  /** A time window returns exactly the observations whose wall time lies in it, ends included; an end
      at 0 is open. */
  lemma WindowReturns(log: seq<Obs>, begin: i64, end: i64)
    ensures Filter(o => MatchesObs(ANYTHING.(tBegin := begin, tEnd := end), o), log) ==
            Filter((o: Obs) => (begin == 0 || begin <= o.timestamp.wall) && (end == 0 || o.timestamp.wall <= end), log)
  {
    FilterSame((o: Obs) => MatchesObs(ANYTHING.(tBegin := begin, tEnd := end), o),
      (o: Obs) => (begin == 0 || begin <= o.timestamp.wall) && (end == 0 || o.timestamp.wall <= end), log);
  }

  /** The observations of one decision. */
  lemma DecisionIdReturns(log: seq<Obs>, id: u64)
    requires id != 0
    ensures Filter(o => MatchesObs(ANYTHING.(decisionId := id), o), log) == Filter((o: Obs) => o.decisionId == id, log)
  {
    FilterSame((o: Obs) => MatchesObs(ANYTHING.(decisionId := id), o), (o: Obs) => o.decisionId == id, log);
  }

  // ----- decisions

  predicate DecisionMisses(f: QueryFilter, d: Dec) {
    || (f.workloadId != 0 && d.workloadId != f.workloadId)
    || (f.requestId != 0 && d.requestId != f.requestId)
    || (f.decisionId != 0 && d.decisionId != f.decisionId)
    || (f.attemptId != 0 && d.attemptId != f.attemptId)
    || (f.nodeId != 0 && d.nodeId != f.nodeId)
    || (f.deviceId != 0 && d.deviceId != f.deviceId)
    || (f.policyGeneration != 0 && d.policyGeneration != f.policyGeneration)
    || (f.epoch != 0 && d.epoch != f.epoch)
    || (f.namespaceId != 0 && d.namespaceId != f.namespaceId)
  }

  /** A query returns the decisions that miss no criterion, in log order; source and time are not asked
      of decisions. */
  lemma DecisionsAsked(f: QueryFilter, log: seq<Dec>) returns (at: seq<nat>)
    ensures Picks(at, |log|, k => 0 <= k < |log| && !DecisionMisses(f, log[k]))
    ensures Filter(d => MatchesDec(f, d), log) == Gather(log, at)
  {
    hide MatchesDec, DecisionMisses, Filter, Gather;
    forall d
      ensures MatchesDec(f, d) <==> !DecisionMisses(f, d)
    {
      DecisionMissesNothing(f, d);
    }
    at := FilterPicks(d => MatchesDec(f, d), log, k => 0 <= k < |log| && !DecisionMisses(f, log[k]));
  }

  lemma DecisionMissesNothing(f: QueryFilter, d: Dec)
    ensures MatchesDec(f, d) <==> !DecisionMisses(f, d)
  {
  }

  lemma OneDecision(log: seq<Dec>, id: u64)
    requires id != 0
    ensures Filter(d => MatchesDec(ANYTHING.(decisionId := id), d), log) == Filter((d: Dec) => d.decisionId == id, log)
  {
    FilterSame((d: Dec) => MatchesDec(ANYTHING.(decisionId := id), d), (d: Dec) => d.decisionId == id, log);
  }

  /** With exact indexes, asking for a decision id returns that decision alone, or nothing if no decision
      of that id is on record. */
  lemma DecisionIdReturnsIt(l: DecLog, id: u64)
    requires DecIndexed(l) && id != 0
    ensures
      var r := Filter(d => MatchesDec(ANYTHING.(decisionId := id), d), l.log);
      if exists i :: 0 <= i < |l.log| && l.log[i].decisionId == id
      then |r| == 1 && r[0] in l.log && r[0].decisionId == id
      else r == []
  {
    hide Agrees, Remembers, MatchesDec, Filter;
    var p := (d: Dec) => d.decisionId == id;
    OneDecision(l.log, id);
    var at := FilterPicks(p, l.log, k => 0 <= k < |l.log| && p(l.log[k]));
    if i :| 0 <= i < |l.log| && l.log[i].decisionId == id {
      assert i in at;
      forall j | 0 <= j < |at|
        ensures at[j] == i
      {
        assert l.log[at[j]].decisionId == id;
      }
    }
  }
}
