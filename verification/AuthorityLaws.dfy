/** Source authority over whole runs: trusted generations only rise, what is logged respects them,
    and the generation finally trusted does not depend on the order of arrival. */
module AuthorityLaws {
  import opened Base
  import opened Model
  import opened RecordLog
  import opened Sequences
  import opened Serialize
  import opened Records
  import opened Store
  import opened Runs

  // ----- generations never fall

  predicate Raised(a: Authority, b: Authority, id: u64) {
    CurrentGeneration(a, id) <= CurrentGeneration(b, id)
  }

  lemma LoadRecordRaises(s: State, r: Record, id: u64)
    requires LoadRecord(s, r).Ok?
    ensures Raised(s.authority, LoadRecord(s, r).value.0.authority, id)
  {
    hide GetObservation, GetDecision, GetOutcome, GetSourceDescriptor, GetU64, AppendObs, AppendDec;
  }

  lemma {:induction false} LoadRaises(s: State, rs: seq<Record>, loaded: nat, id: u64)
    ensures Raised(s.authority, Load(s, rs, loaded).0.authority, id)
    decreases |rs|
  {
    hide LoadRecord;
    if rs == [] || LoadRecord(s, rs[0]).Err? {
    } else {
      var (t, counted) := LoadRecord(s, rs[0]).value;
      LoadRecordRaises(s, rs[0], id);
      LoadRaises(t, rs[1..], if counted then loaded + 1 else loaded, id);
    }
  }

  lemma StepRaises(cfg: Config, s: State, c: Call, id: u64)
    ensures Raised(s.authority, Step(cfg, s, c).authority, id)
  {
    hide Load, Parse, AppendObs, IngestDecision, OutcomeFault, Malformed, Unauthorized, LateFault;
    match c {
      case Restore(file) => LoadRaises(s, Parse(file), 0, id);
      case Decide(d) => DecisionKeepsAuthority(cfg, s, d);
      case _ =>
    }
  }

  lemma DecisionKeepsAuthority(cfg: Config, s: State, d: Dec)
    ensures IngestDecision(cfg, s, d).0.authority == s.authority
  {
  }

  /** No call of any kind, in any configuration, ever lowers the trusted generation of a source. */
  lemma {:induction false} RunRaises(cfg: Config, s: State, calls: seq<Call>, id: u64)
    ensures Raised(s.authority, Run(cfg, s, calls).authority, id)
    decreases |calls|
  {
    hide Step;
    if calls == [] {
    } else {
      StepRaises(cfg, s, calls[0], id);
      RunRaises(cfg, Step(cfg, s, calls[0]), calls[1..], id);
    }
  }

  // ----- what is logged respects authority

  predicate Enforcing(cfg: Config) {
    cfg.staleGeneration && cfg.staleBoot
  }

  predicate NoRestore(calls: seq<Call>) {
    forall i :: 0 <= i < |calls| ==> !calls[i].Restore?
  }

  /** Logged generations of one source do not decrease in log order. */
  predicate GenerationsInOrder(log: seq<Obs>) {
    forall i, j :: 0 <= i < j < |log| && log[i].sourceId == log[j].sourceId ==>
      log[i].sourceGeneration <= log[j].sourceGeneration
  }

  /** Within one generation of a source all logged boots, where given, are the same. */
  predicate OneBootPerGeneration(log: seq<Obs>) {
    forall i, j ::
      && 0 <= i < j < |log| && log[i].sourceId == log[j].sourceId
      && log[i].sourceGeneration == log[j].sourceGeneration && log[i].workerBoot != 0 && log[j].workerBoot != 0
      ==> log[i].workerBoot == log[j].workerBoot
  }

  /** An observation is no newer than its source's authority, and of the current generation only
      with the trusted boot. */
  predicate Covered(a: Authority, o: Obs) {
    && 0 < o.sourceGeneration <= CurrentGeneration(a, o.sourceId)
    && (o.sourceGeneration == CurrentGeneration(a, o.sourceId) && o.workerBoot != 0 ==>
          TrustedBoot(a, o.sourceId) == o.workerBoot)
  }

  ghost predicate Authoritative(log: seq<Obs>, a: Authority) {
    && GenerationsInOrder(log) && OneBootPerGeneration(log)
    && forall i :: 0 <= i < |log| ==> Covered(a, log[i])
  }

  lemma EnrolCovers(a: Authority, d: SourceDescriptor, o: Obs)
    requires Covered(a, o)
    ensures Covered(Enrol(a, d), o)
  {
  }

  lemma AuthorizeCovers(a: Authority, o: Obs, before: Obs)
    requires Covered(a, before)
    ensures Covered(Authorize(a, o), before)
  {
  }

  lemma AppendAuthoritative(cfg: Config, log: seq<Obs>, a: Authority, o: Obs)
    requires Enforcing(cfg) && Authoritative(log, a) && o.sourceGeneration > 0 && Unauthorized(cfg, a, o).None?
    ensures Authoritative(log + [Correlated(o)], Authorize(a, o))
  {
    hide Covered;
    forall i | 0 <= i < |log|
      ensures Covered(Authorize(a, o), log[i])
    {
      AuthorizeCovers(a, o, log[i]);
    }
    AppendedIsCovered(cfg, a, o);
    forall i | 0 <= i < |log| && log[i].sourceId == o.sourceId
      ensures log[i].sourceGeneration <= o.sourceGeneration
      ensures log[i].sourceGeneration == o.sourceGeneration && log[i].workerBoot != 0 && o.workerBoot != 0 ==>
              log[i].workerBoot == o.workerBoot
    {
      CoveredBefore(cfg, a, o, log[i]);
    }
  }

  lemma AppendedIsCovered(cfg: Config, a: Authority, o: Obs)
    requires Enforcing(cfg) && o.sourceGeneration > 0 && Unauthorized(cfg, a, o).None?
    ensures Covered(Authorize(a, o), Correlated(o))
  {
  }

  lemma CoveredBefore(cfg: Config, a: Authority, o: Obs, before: Obs)
    requires Enforcing(cfg) && Unauthorized(cfg, a, o).None? && Covered(a, before) && before.sourceId == o.sourceId
    ensures before.sourceGeneration <= o.sourceGeneration
    ensures before.sourceGeneration == o.sourceGeneration && before.workerBoot != 0 && o.workerBoot != 0 ==>
            before.workerBoot == o.workerBoot
  {
  }

  lemma StepAuthoritative(cfg: Config, s: State, c: Call)
    requires Enforcing(cfg) && Authoritative(s.observed.log, s.authority) && !c.Restore?
    ensures Authoritative(Step(cfg, s, c).observed.log, Step(cfg, s, c).authority)
  {
    hide Covered, GenerationsInOrder, OneBootPerGeneration, IndexObs, DecisionFault, OutcomeFault, Enrol,
      Authorize, LateFault, Unauthorized;
    var log := s.observed.log;
    match c {
      case RegisterSource(d) =>
        forall i | 0 <= i < |log|
          ensures Covered(Enrol(s.authority, d), log[i])
        {
          EnrolCovers(s.authority, d, log[i]);
        }
      case Observe(o) =>
        if Malformed(s.observed, o).None? && Unauthorized(cfg, s.authority, o).None? {
          AppendAuthoritative(cfg, log, s.authority, o);
          forall i | 0 <= i < |log|
            ensures Covered(Authorize(s.authority, o), log[i])
          {
            AuthorizeCovers(s.authority, o, log[i]);
          }
        }
      case _ =>
    }
  }

  /** With enforcement on, and through any re-registrations, epoch changes and late rejections: as
      long as nothing is recovered from a file, the log stays in generation order per source, no
      generation of a source is logged under two boots, and nothing logged outruns authority. */
  lemma {:induction false} RunAuthoritative(cfg: Config, s: State, calls: seq<Call>)
    requires Enforcing(cfg) && Authoritative(s.observed.log, s.authority) && NoRestore(calls)
    ensures Authoritative(Run(cfg, s, calls).observed.log, Run(cfg, s, calls).authority)
    decreases |calls|
  {
    hide Authoritative, Step;
    if calls == [] {
    } else {
      StepAuthoritative(cfg, s, calls[0]);
      RunAuthoritative(cfg, Step(cfg, s, calls[0]), calls[1..]);
    }
  }

  // ----- what a rejection can move

  predicate Late(why: Rejection) {
    why == StaleCoordinatorEpoch || why == NonFiniteEvidence || why == ImpossibleMemory
  }

  lemma {:induction false} FieldsFaultIsLate(fields: seq<Measurement<Pattern>>)
    ensures FieldsFault(fields).Some? ==> Late(FieldsFault(fields).value)
    decreases |fields|
  {
    if fields == [] {
    } else {
      FieldsFaultIsLate(fields[1..]);
    }
  }

  predicate SameTrust(a: Authority, b: Authority, id: u64) {
    CurrentGeneration(a, id) == CurrentGeneration(b, id) && TrustedBoot(a, id) == TrustedBoot(b, id)
  }

  /** A rejected observation is not free of effect. Before the call one can tell: it will be rejected
      and yet move the authority of its source if and only if it passes the checks of identity and
      standing, fails a late one, and carries a newer generation or the first boot. No other
      source is ever touched, and the reason given is then one of the late ones. */
  lemma RejectionMovesAuthority(cfg: Config, s: State, o: Obs)
    ensures
      var (t, reply) := Ingest(cfg, s, o);
      var a := s.authority;
      var news := o.sourceGeneration > CurrentGeneration(a, o.sourceId)
        || (TrustedBoot(a, o.sourceId) == 0 && o.workerBoot != 0);
      && (reply.Rejected? && !SameTrust(a, t.authority, o.sourceId) <==>
          Malformed(s.observed, o).None? && Unauthorized(cfg, a, o).None?
          && LateFault(cfg, s.coordinator, o).Some? && news)
      && (reply.Rejected? && !SameTrust(a, t.authority, o.sourceId) ==> Late(reply.why))
      && forall id: u64 :: id != o.sourceId ==> SameTrust(a, t.authority, id)
  {
    FieldsFaultIsLate(o.fields);
  }

  /** Evidence of an infinite value, from boot 7 in generation 1 of source 1. */
  function InfiniteEvidence(): Obs {
    var now := Timestamp(0, 0, 0);
    var p := Provenance(0, 0, 0, 0, 0, 0, now, 0, 0, 0, [], [], []);
    var infinity := Measurement([], [], Double(0x7FF0_0000_0000_0000), 0, p);
    Observation(1, 1, 0, 1, 1, 0, now, 7, 0, 0, 0, 0, 0, 0, 0, 0, 0, 0, 0, [infinity], 0, false)
  }

  /** Sent to a new observatory it is rejected, nothing is logged, and generation and boot of the
      source are trusted from then on. */
  lemma LateRejectionWitness(cfg: Config)
    ensures
      var (t, reply) := Ingest(cfg, Fresh(), InfiniteEvidence());
      && reply == Rejected(NonFiniteEvidence, 0) && t.observed == Fresh().observed
      && CurrentGeneration(Fresh().authority, 1) == 0 && CurrentGeneration(t.authority, 1) == 1
      && TrustedBoot(t.authority, 1) == 7
  {
    hide FieldsFault, IndexObs, InfiniteEvidence;
    InfinityIsFaulty();
    InfinityIsIdentified();
  }

  lemma InfinityIsIdentified()
    ensures
      var o := InfiniteEvidence();
      && Malformed(Fresh().observed, o).None? && o.epoch == 0 && o.coordinatorEpoch == 0
      && o.sourceId == 1 && o.sourceGeneration == 1 && o.workerBoot == 7
  {
    hide FieldsFault;
  }

  lemma InfinityIsFaulty()
    ensures FieldsFault(InfiniteEvidence().fields) == Some(NonFiniteEvidence)
  {
    hide Finite;
    NotFinite(0x7FF0_0000_0000_0000, 0x7FF, 0);
  }

  /** A pattern whose exponent bits are all set. */
  lemma NotFinite(d: Pattern, high: nat, low: nat)
    requires d == high * 0x10_0000_0000_0000 + low && low < 0x10_0000_0000_0000 && high % 0x800 == 0x7FF
    ensures !Finite(d)
  {
    assert d / 0x10_0000_0000_0000 == high;
  }

  // ----- confluence

  /** The generation a call reports for a source; 0 when it reports none. */
  function Sent(c: Call, id: u64): u64 {
    match c
    case RegisterSource(d) => if d.sourceId == id then d.generation else 0
    case Observe(o) => if o.sourceId == id then o.sourceGeneration else 0
    case _ => 0
  }

  function Max(x: u64, y: u64): u64 {
    if x < y then y else x
  }

  /** The largest of `m` and every generation reported for the source. */
  function MaxSent(m: u64, calls: seq<Call>, id: u64): u64
    decreases |calls|
  {
    if calls == [] then m else MaxSent(Max(m, Sent(calls[0], id)), calls[1..], id)
  }

  lemma {:induction false} MaxSentIsMaximum(m: u64, calls: seq<Call>, id: u64)
    ensures m <= MaxSent(m, calls, id)
    ensures forall c :: c in calls ==> Sent(c, id) <= MaxSent(m, calls, id)
    ensures MaxSent(m, calls, id) == m || exists c :: c in calls && Sent(c, id) == MaxSent(m, calls, id)
    decreases |calls|
  {
    if calls == [] {
    } else {
      var c0, rest, m1 := calls[0], calls[1..], Max(m, Sent(calls[0], id));
      MaxSentIsMaximum(m1, rest, id);
      forall c | c in calls
        ensures Sent(c, id) <= MaxSent(m, calls, id)
      {
        if c != c0 {
          assert c in rest;
        }
      }
      if MaxSent(m, calls, id) != m && MaxSent(m, calls, id) != m1 {
        var c :| c in rest && Sent(c, id) == MaxSent(m1, rest, id);
        assert c in calls;
      } else {
        assert c0 in calls;
      }
    }
  }

  /** Every observation is well formed and carries an id not yet logged. */
  predicate Fit(l: ObsLog, calls: seq<Call>) {
    && NoRestore(calls)
    && forall i :: 0 <= i < |calls| && calls[i].Observe? ==> Malformed(l, calls[i].obs).None?
  }

  predicate DistinctIds(calls: seq<Call>) {
    forall i, j ::
      0 <= i < j < |calls| && calls[i].Observe? && calls[j].Observe? ==>
        calls[i].obs.observationId != calls[j].obs.observationId
  }

  lemma StepTakesMaximum(cfg: Config, s: State, c: Call, id: u64)
    requires Fit(s.observed, [c])
    ensures CurrentGeneration(Step(cfg, s, c).authority, id) == Max(CurrentGeneration(s.authority, id), Sent(c, id))
  {
    hide IndexObs, LateFault, OutcomeFault, DecisionFault;
    assert !c.Restore? && (c.Observe? ==> Malformed(s.observed, c.obs).None?) by {
      assert [c][0] == c;
    }
  }

  lemma StepKeepsFit(cfg: Config, s: State, calls: seq<Call>)
    requires calls != [] && Fit(s.observed, calls) && DistinctIds(calls)
    ensures Fit(s.observed, [calls[0]])
    ensures Fit(Step(cfg, s, calls[0]).observed, calls[1..]) && DistinctIds(calls[1..])
  {
    hide IndexObs, LateFault, OutcomeFault, DecisionFault, Unauthorized, Authorize;
    var rest := calls[1..];
    assert forall i :: 0 <= i < |rest| ==> rest[i] == calls[i + 1];
    assert !calls[0].Restore?;
  }

  /** Over any run of registrations, well-formed observations with fresh distinct ids, epoch
      changes, decisions and outcomes, in any configuration, the generation finally trusted is
      the maximum of the initial one and all those sent, whether or not calls were rejected. */
  lemma {:induction false} RunTakesMaximum(cfg: Config, s: State, calls: seq<Call>, id: u64)
    requires Fit(s.observed, calls) && DistinctIds(calls)
    ensures CurrentGeneration(Run(cfg, s, calls).authority, id) ==
            MaxSent(CurrentGeneration(s.authority, id), calls, id)
    decreases |calls|
  {
    hide Step, Fit, DistinctIds;
    if calls == [] {
    } else {
      StepKeepsFit(cfg, s, calls);
      StepTakesMaximum(cfg, s, calls[0], id);
      RunTakesMaximum(cfg, Step(cfg, s, calls[0]), calls[1..], id);
    }
  }

  lemma SameCallsSameMaximum(m: u64, calls1: seq<Call>, calls2: seq<Call>, id: u64)
    requires multiset(calls1) == multiset(calls2)
    ensures MaxSent(m, calls1, id) == MaxSent(m, calls2, id)
  {
    MaxSentIsMaximum(m, calls1, id);
    MaxSentIsMaximum(m, calls2, id);
    assert forall c :: c in calls1 <==> c in multiset(calls1);
    assert forall c :: c in calls2 <==> c in multiset(calls2);
  }

  predicate SameObsId(c1: Call, c2: Call) {
    c1.Observe? && c2.Observe? && c1.obs.observationId == c2.obs.observationId
  }

  lemma PermutationKeepsFit(l: ObsLog, calls1: seq<Call>, calls2: seq<Call>)
    requires multiset(calls1) == multiset(calls2) && Fit(l, calls1) && DistinctIds(calls1)
    ensures Fit(l, calls2) && DistinctIds(calls2)
  {
    forall c | c in calls2
      ensures c in calls1
    {
      assert c in multiset(calls2);
    }
    assert forall i :: 0 <= i < |calls2| ==> calls2[i] in calls2;
    assert !Clashing(calls1, SameObsId);
    ClashingPermutes(calls1, calls2, SameObsId);
    assert forall i, j :: 0 <= i < j < |calls2| ==> !SameObsId(calls2[i], calls2[j]);
  }

  /** However the same calls are ordered, under whatever configurations, every source ends with
      the same trusted generation. */
  lemma Confluence(cfg1: Config, cfg2: Config, s: State, calls1: seq<Call>, calls2: seq<Call>, id: u64)
    requires multiset(calls1) == multiset(calls2)
    requires Fit(s.observed, calls1) && DistinctIds(calls1)
    ensures CurrentGeneration(Run(cfg1, s, calls1).authority, id) ==
            CurrentGeneration(Run(cfg2, s, calls2).authority, id)
  {
    hide Fit, DistinctIds, Run;
    PermutationKeepsFit(s.observed, calls1, calls2);
    RunTakesMaximum(cfg1, s, calls1, id);
    RunTakesMaximum(cfg2, s, calls2, id);
    SameCallsSameMaximum(CurrentGeneration(s.authority, id), calls1, calls2, id);
  }
}
