/** What recovery does to authority. Generations come back as far as they are on record; boots come
    back only with a generation that no descriptor carries already, so the rule of one boot per
    generation survives recovery under an exact condition, and can be broken otherwise. */
module RecoveredAuthority {
  import opened Base
  import opened Model
  import opened Sequences
  import opened Records
  import opened RecordLog
  import opened Store
  import opened Runs
  import opened AuthorityLaws
  import opened Persistence

  /** The boot of the first observation of the source at that generation. */
  function FirstBootAt(os: seq<Obs>, id: u64, generation: u64): Option<u64>
    decreases |os|
  {
    if os == [] then None
    else if os[0].sourceId == id && os[0].sourceGeneration == generation then Some(os[0].workerBoot)
    else FirstBootAt(os[1..], id, generation)
  }

  /** Re-reading the log trusts the boot first seen at the newest generation, if that generation
      is news. */
  lemma {:induction false} ReadoptedBoot(a: Authority, os: seq<Obs>, id: u64)
    ensures
      var top, boot := MaxLogged(CurrentGeneration(a, id), os, id), TrustedBoot(ReadoptAll(a, os), id);
      && (top > CurrentGeneration(a, id) ==> FirstBootAt(os, id, top) == Some(boot))
      && (top <= CurrentGeneration(a, id) ==> boot == TrustedBoot(a, id))
    decreases |os|
  {
    if os == [] {
    } else {
      var next := Readopt(a, os[0]);
      ReadoptedBoot(next, os[1..], id);
      MaxLoggedIsMaximum(CurrentGeneration(next, id), os[1..], id);
    }
  }

  lemma {:induction false} ErasedBoots(os: seq<Obs>, id: u64, generation: u64)
    ensures FirstBootAt(MapSeq(EraseObservation, os), id, generation) == FirstBootAt(os, id, generation)
    decreases |os|
  {
    if os == [] {
    } else {
      MapCons(EraseObservation, os);
      ErasedBoots(os[1..], id, generation);
    }
  }

  lemma {:induction false} FirstBootIsLogged(os: seq<Obs>, id: u64, generation: u64)
    ensures FirstBootAt(os, id, generation).Some? <==>
            exists i :: 0 <= i < |os| && os[i].sourceId == id && os[i].sourceGeneration == generation
    ensures FirstBootAt(os, id, generation).Some? ==>
              exists i :: 0 <= i < |os| && os[i].sourceId == id && os[i].sourceGeneration == generation
                          && os[i].workerBoot == FirstBootAt(os, id, generation).value
    decreases |os|
  {
    if os == [] {
    } else {
      var tail := os[1..];
      FirstBootIsLogged(tail, id, generation);
      assert forall i :: 0 <= i < |tail| ==> tail[i] == os[i + 1];
      assert forall i :: 0 < i < |os| ==> os[i] == tail[i - 1];
    }
  }

  function DescribedGeneration(s: State, id: u64): u64 {
    if id in s.sources then s.sources[id].generation else 0
  }

  /** The boot trusted after saving and recovering: the first one logged at the newest generation,
      provided the log, not the descriptor, is what makes that generation known. */
  lemma RestoredBoot(s: State, sourceOrder: seq<u64>, id: u64)
    requires SourcesKeyed(s.sources) && Enumerates(sourceOrder, s.sources)
    ensures
      var top, boot := RecordedGeneration(s, id), TrustedBoot(RestoredAuthority(s, Values(s.sources, sourceOrder)), id);
      && (top > DescribedGeneration(s, id) ==> FirstBootAt(s.observed.log, id, top) == Some(boot))
      && (top <= DescribedGeneration(s, id) ==> boot == 0)
  {
    hide ReadoptAll, RaiseAll, EraseObservation, MapSeq, FirstBootAt;
    var a := RaiseAll(Authority(map[], map[]), Values(s.sources, sourceOrder));
    RaiseAllHolds(Authority(map[], map[]), s.sources, sourceOrder);
    assert id in s.sources <==> id in sourceOrder;
    assert CurrentGeneration(a, id) == DescribedGeneration(s, id);
    ReadoptedBoot(a, MapSeq(EraseObservation, s.observed.log), id);
    MaxLoggedErased(CurrentGeneration(a, id), s.observed.log, id);
    ErasedBoots(s.observed.log, id, RecordedGeneration(s, id));
  }

  /** Some observation of the source carries a boot at that generation. */
  predicate BootLogged(os: seq<Obs>, id: u64, generation: u64) {
    exists i :: 0 <= i < |os| && os[i].sourceId == id && os[i].sourceGeneration == generation && os[i].workerBoot != 0
  }

  /** What a caller can check before saving: if a boot is logged at the source's newest recorded
      generation, then the descriptor is older, and the first observation there carries the boot. */
  predicate BootRecoverable(s: State, id: u64) {
    var top := RecordedGeneration(s, id);
    BootLogged(s.observed.log, id, top) ==>
      DescribedGeneration(s, id) < top && FirstBootAt(s.observed.log, id, top) != Some(0)
  }

  lemma BootsOfGenerationAgree(os: seq<Obs>, i: nat, j: nat)
    requires OneBootPerGeneration(os) && i < |os| && j < |os|
    requires os[i].sourceId == os[j].sourceId && os[i].sourceGeneration == os[j].sourceGeneration
    requires os[i].workerBoot != 0 && os[j].workerBoot != 0
    ensures os[i].workerBoot == os[j].workerBoot
  {
    assert i < j ==> os[i].workerBoot == os[j].workerBoot;
    assert j < i ==> os[j].workerBoot == os[i].workerBoot;
  }

  /** An authoritative state recovers to an authoritative one exactly when the boots of all its
      sources are recoverable. */
  lemma RecoveryKeepsAuthority(s: State, sourceOrder: seq<u64>)
    requires SourcesKeyed(s.sources) && Enumerates(sourceOrder, s.sources) && Authoritative(s.observed.log, s.authority)
    ensures
      Authoritative(MapSeq(EraseObservation, s.observed.log), RestoredAuthority(s, Values(s.sources, sourceOrder))) <==>
      forall id: u64 :: BootRecoverable(s, id)
  {
    hide RestoredAuthority, EraseObservation, RecordedGeneration, FirstBootAt, Values, MaxLogged;
    var log := s.observed.log;
    var os := MapSeq(EraseObservation, log);
    var a := RestoredAuthority(s, Values(s.sources, sourceOrder));
    forall i | 0 <= i < |log|
      ensures os[i].sourceId == log[i].sourceId && os[i].sourceGeneration == log[i].sourceGeneration
              && os[i].workerBoot == log[i].workerBoot
      ensures Covered(a, os[i]) <==> CoveredAgain(s, a, i)
    {
      ErasedStanding(log[i]);
      LoggedIsRecorded(s, i);
      RestoredGeneration(s, sourceOrder, log[i].sourceId);
    }
    if forall id: u64 :: BootRecoverable(s, id) {
      forall i | 0 <= i < |log|
        ensures CoveredAgain(s, a, i)
      {
        RecoverableIsCovered(s, sourceOrder, i);
      }
    }
    if forall i :: 0 <= i < |log| ==> CoveredAgain(s, a, i) {
      forall id: u64
        ensures BootRecoverable(s, id)
      {
        CoveredIsRecoverable(s, sourceOrder, id);
      }
    }
  }

  /** The boot part of being covered, after recovery. */
  predicate CoveredAgain(s: State, a: Authority, i: nat)
    requires i < |s.observed.log|
  {
    var o := s.observed.log[i];
    o.sourceGeneration == RecordedGeneration(s, o.sourceId) && o.workerBoot != 0 ==>
      TrustedBoot(a, o.sourceId) == o.workerBoot
  }

  lemma ErasedStanding(o: Obs)
    ensures EraseObservation(o).sourceId == o.sourceId && EraseObservation(o).sourceGeneration == o.sourceGeneration
    ensures EraseObservation(o).workerBoot == o.workerBoot
  {
  }

  lemma LoggedIsRecorded(s: State, i: nat)
    requires i < |s.observed.log|
    ensures s.observed.log[i].sourceGeneration <= RecordedGeneration(s, s.observed.log[i].sourceId)
  {
    MaxLoggedIsMaximum(DescribedGeneration(s, s.observed.log[i].sourceId), s.observed.log, s.observed.log[i].sourceId);
  }

  lemma RecoverableIsCovered(s: State, sourceOrder: seq<u64>, i: nat)
    requires SourcesKeyed(s.sources) && Enumerates(sourceOrder, s.sources) && OneBootPerGeneration(s.observed.log)
    requires i < |s.observed.log| && BootRecoverable(s, s.observed.log[i].sourceId)
    ensures CoveredAgain(s, RestoredAuthority(s, Values(s.sources, sourceOrder)), i)
  {
    hide RestoredAuthority, RecordedGeneration, FirstBootAt, Values, OneBootPerGeneration;
    var log, o := s.observed.log, s.observed.log[i];
    var top := RecordedGeneration(s, o.sourceId);
    RestoredBoot(s, sourceOrder, o.sourceId);
    FirstBootIsLogged(log, o.sourceId, top);
    if o.sourceGeneration == top && o.workerBoot != 0 {
      assert BootLogged(log, o.sourceId, top);
      var first := FirstBootAt(log, o.sourceId, top).value;
      var j :| 0 <= j < |log| && log[j].sourceId == o.sourceId && log[j].sourceGeneration == top
        && log[j].workerBoot == first;
      BootsOfGenerationAgree(log, i, j);
    }
  }

  lemma CoveredIsRecoverable(s: State, sourceOrder: seq<u64>, id: u64)
    requires SourcesKeyed(s.sources) && Enumerates(sourceOrder, s.sources)
    requires forall i :: 0 <= i < |s.observed.log| ==>
             CoveredAgain(s, RestoredAuthority(s, Values(s.sources, sourceOrder)), i)
    ensures BootRecoverable(s, id)
  {
    hide RestoredAuthority, FirstBootAt, Values, MaxLogged;
    var log, top := s.observed.log, RecordedGeneration(s, id);
    RestoredBoot(s, sourceOrder, id);
    MaxLoggedIsMaximum(DescribedGeneration(s, id), log, id);
    if BootLogged(log, id, top) {
      var i :| 0 <= i < |log| && log[i].sourceId == id && log[i].sourceGeneration == top && log[i].workerBoot != 0;
      assert CoveredAgain(s, RestoredAuthority(s, Values(s.sources, sourceOrder)), i);
    }
  }

  /** Where it does not, the rule is open to be broken: while no boot is trusted although one is
      logged at the current generation, a well-formed observation with any other boot is accepted,
      and then one generation of the source is logged under two boots. */
  lemma LostBootAdmitsAnother(cfg: Config, s: State, i: nat, o: Obs)
    requires i < |s.observed.log| && s.observed.log[i].workerBoot != 0 && TrustedBoot(s.authority, o.sourceId) == 0
    requires s.observed.log[i].sourceId == o.sourceId && s.observed.log[i].sourceGeneration == o.sourceGeneration
    requires CurrentGeneration(s.authority, o.sourceId) == o.sourceGeneration
    requires Malformed(s.observed, o).None? && LateFault(cfg, s.coordinator, o).None?
    requires o.workerBoot != 0 && o.workerBoot != s.observed.log[i].workerBoot
    ensures Ingest(cfg, s, o).1.Accepted? && !OneBootPerGeneration(Ingest(cfg, s, o).0.observed.log)
  {
    hide IndexObs, LateFault, Malformed;
    var log := Ingest(cfg, s, o).0.observed.log;
    assert log == s.observed.log + [Correlated(o)];
    assert log[i].workerBoot != log[|s.observed.log|].workerBoot;
  }
}
