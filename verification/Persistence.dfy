/** Saving the store to a file and recovering it: nothing is lost but the erased uncertainties,
    every index is rebuilt, and a file cut short yields the records wholly inside it. */
module Persistence {
  import opened Base
  import opened Bytes
  import opened Model
  import opened Sequences
  import opened Serialize
  import opened Records
  import opened RecordLog
  import opened Indexes
  import opened Store
  import opened Runs
  import opened AuthorityLaws

  // ----- what is written

  function EpochRecord(epoch: u64): Record {
    Record(EPOCH, PutU64([], epoch))
  }

  function SourceRecord(d: SourceDescriptor): Record {
    Record(SOURCE_DESCRIPTOR, PutSourceDescriptor([], d))
  }

  function ObsRecord(o: Obs): Record {
    Record(OBSERVATION, PutObservation([], o))
  }

  function DecRecord(d: Dec): Record {
    Record(DECISION, PutDecision([], d))
  }

  function OutcomeRecord(o: Outcome): Record {
    Record(OUTCOME, PutOutcome([], o))
  }

  /** The values of a hash map in the order in which it happens to be iterated. */
  function Values<V>(m: map<u64, V>, order: seq<u64>): seq<V>
    requires forall i :: 0 <= i < |order| ==> order[i] in m
  {
    if order == [] then [] else [m[order[0]]] + Values(m, order[1..])
  }

  /** The keys of `m`, each once, in some order. */
  ghost predicate Enumerates<V>(order: seq<u64>, m: map<u64, V>) {
    && (forall i :: 0 <= i < |order| ==> order[i] in m)
    && (forall i, j :: 0 <= i < j < |order| ==> order[i] != order[j])
    && (forall k <- m :: k in order)
  }

  function SavedRecords(s: State, sources: seq<SourceDescriptor>, outcomes: seq<Outcome>): seq<Record> {
    [EpochRecord(s.coordinator)] + (MapSeq(SourceRecord, sources) + (MapSeq(ObsRecord, s.observed.log) +
    (MapSeq(DecRecord, s.decided.log) + MapSeq(OutcomeRecord, outcomes))))
  }

  function SavedFile(s: State, sources: seq<SourceDescriptor>, outcomes: seq<Outcome>): seq<byte> {
    LogOf(SavedRecords(s, sources, outcomes))
  }

  // ----- what can be read back

  predicate StorableSource(d: SourceDescriptor) {
    FitsSourceDescriptor(d) && |PutSourceDescriptor([], d)| <= MAX_BODY
  }

  predicate StorableObs(o: Obs) {
    FitsObservation(o) && |PutObservation([], o)| <= MAX_BODY
  }

  predicate StorableDec(d: Dec) {
    FitsDecision(d) && |PutDecision([], d)| <= MAX_BODY
  }

  predicate StorableOutcome(o: Outcome) {
    FitsOutcome(o) && |PutOutcome([], o)| <= MAX_BODY
  }

  lemma EpochLoads(s: State, epoch: u64)
    ensures LoadRecord(s, EpochRecord(epoch)) == Ok((SetEpoch(s, epoch), true)) && Loadable(EpochRecord(epoch))
  {
    U64Reads([], epoch, PutU64([], epoch));
  }

  lemma SourceLoads(s: State, d: SourceDescriptor)
    requires StorableSource(d)
    ensures LoadRecord(s, SourceRecord(d)) == Ok((LoadSource(s, EraseSourceDescriptor(d)), true))
    ensures Loadable(SourceRecord(d))
  {
    hide GetSourceDescriptor, PutSourceDescriptor, EraseSourceDescriptor, LoadSource, GetObservation,
      GetDecision, GetOutcome;
    SourceDescriptorReads([], d, PutSourceDescriptor([], d));
  }

  lemma ObsLoads(s: State, o: Obs)
    requires StorableObs(o)
    ensures LoadRecord(s, ObsRecord(o)) == Ok(OfferObs(s, EraseObservation(o))) && Loadable(ObsRecord(o))
  {
    hide GetObservation, PutObservation, EraseObservation, FitsObservation, OfferObs, GetSourceDescriptor,
      GetDecision, GetOutcome;
    ObservationReads([], o, PutObservation([], o));
  }

  lemma DecLoads(s: State, d: Dec)
    requires StorableDec(d)
    ensures LoadRecord(s, DecRecord(d)) == Ok(OfferDec(s, EraseDecision(d))) && Loadable(DecRecord(d))
  {
    hide GetDecision, PutDecision, EraseDecision, FitsDecision, OfferDec, GetSourceDescriptor,
      GetObservation, GetOutcome;
    DecisionReads([], d, PutDecision([], d));
  }

  lemma OutcomeLoads(s: State, o: Outcome)
    requires StorableOutcome(o)
    ensures LoadRecord(s, OutcomeRecord(o)) == Ok(OfferOutcome(s, EraseOutcome(o))) && Loadable(OutcomeRecord(o))
  {
    hide GetOutcome, PutOutcome, EraseOutcome, FitsOutcome, OfferOutcome, GetSourceDescriptor,
      GetObservation, GetDecision;
    OutcomeReads([], o, PutOutcome([], o));
  }

  // ----- loading a stretch of records of one kind

  function OfferStoredSource(s: State, d: SourceDescriptor): (State, bool) {
    (LoadSource(s, EraseSourceDescriptor(d)), true)
  }

  function OfferStoredObs(s: State, o: Obs): (State, bool) {
    OfferObs(s, EraseObservation(o))
  }

  function OfferStoredDec(s: State, d: Dec): (State, bool) {
    OfferDec(s, EraseDecision(d))
  }

  function OfferStoredOutcome(s: State, o: Outcome): (State, bool) {
    OfferOutcome(s, EraseOutcome(o))
  }

  /** The state after offering `xs` one by one, and how many of them counted. */
  function Fold<T>(s: State, xs: seq<T>, offer: (State, T) -> (State, bool)): (State, nat)
    decreases |xs|
  {
    if xs == [] then (s, 0)
    else
      var (t, counted) := offer(s, xs[0]);
      var (r, n) := Fold(t, xs[1..], offer);
      (r, if counted then n + 1 else n)
  }

  /** `record` is how the file holds what `offer` loads. */
  ghost predicate Stores<T(!new)>(xs: seq<T>, record: T -> Record, offer: (State, T) -> (State, bool)) {
    forall t: State, i :: 0 <= i < |xs| ==> LoadRecord(t, record(xs[i])) == Ok(offer(t, xs[i]))
  }

  lemma {:induction false} LoadStretch<T(!new)>(s: State, xs: seq<T>, record: T -> Record,
                                                  offer: (State, T) -> (State, bool), rest: seq<Record>, n: nat)
    requires Stores(xs, record, offer)
    ensures Load(s, MapSeq(record, xs) + rest, n) == Load(Fold(s, xs, offer).0, rest, n + Fold(s, xs, offer).1)
    decreases |xs|
  {
    hide LoadRecord, MapSeq;
    if xs == [] {
      assert MapSeq(record, xs) + rest == rest;
    } else {
      var tail := xs[1..];
      var (t, counted) := offer(s, xs[0]);
      assert LoadRecord(s, record(xs[0])) == Ok(offer(s, xs[0]));
      MapCons(record, xs);
      assert (MapSeq(record, xs) + rest)[1..] == MapSeq(record, tail) + rest;
      assert Stores(tail, record, offer) by {
        assert forall i :: 0 <= i < |tail| ==> tail[i] == xs[i + 1];
      }
      LoadStretch(t, tail, record, offer, rest, if counted then n + 1 else n);
    }
  }

  /** Offers that change nothing, all counted or all passed over. */
  lemma {:induction false} FoldUnchanged<T>(s: State, xs: seq<T>, offer: (State, T) -> (State, bool), counted: bool)
    requires forall i :: 0 <= i < |xs| ==> offer(s, xs[i]) == (s, counted)
    ensures Fold(s, xs, offer) == (s, if counted then |xs| else 0)
    decreases |xs|
  {
    if xs == [] {
    } else {
      assert offer(s, xs[0]) == (s, counted);
      FoldUnchanged(s, xs[1..], offer, counted);
    }
  }

  // ----- what each stretch leaves behind

  /** A table in which each entry is filed under its own source. */
  predicate SourcesKeyed(m: map<u64, SourceDescriptor>) {
    forall id <- m :: m[id].sourceId == id
  }

  function FileSources(m: map<u64, SourceDescriptor>, ds: seq<SourceDescriptor>): map<u64, SourceDescriptor>
    decreases |ds|
  {
    if ds == [] then m else FileSources(m[ds[0].sourceId := EraseSourceDescriptor(ds[0])], ds[1..])
  }

  function RaiseAll(a: Authority, ds: seq<SourceDescriptor>): Authority
    decreases |ds|
  {
    if ds == [] then a else RaiseAll(RaiseTo(a, ds[0]), ds[1..])
  }

  lemma {:induction false} SourcesFold(s: State, ds: seq<SourceDescriptor>)
    ensures Fold(s, ds, OfferStoredSource) ==
            (s.(sources := FileSources(s.sources, ds), authority := RaiseAll(s.authority, ds)), |ds|)
    decreases |ds|
  {
    if ds == [] {
    } else {
      SourcesFold(LoadSource(s, EraseSourceDescriptor(ds[0])), ds[1..]);
    }
  }

  lemma {:induction false} FileSourcesHolds(m0: map<u64, SourceDescriptor>, m: map<u64, SourceDescriptor>,
                                            order: seq<u64>)
    requires SourcesKeyed(m) && forall i :: 0 <= i < |order| ==> order[i] in m
    ensures
      var r := FileSources(m0, Values(m, order));
      && (forall id :: id in r <==> id in m0 || id in order)
      && forall id <- r :: r[id] == if id in order then EraseSourceDescriptor(m[id]) else m0[id]
    decreases |order|
  {
    hide EraseSourceDescriptor;
    if order == [] {
    } else {
      var d := m[order[0]];
      FileSourcesHolds(m0[d.sourceId := EraseSourceDescriptor(d)], m, order[1..]);
      assert forall id :: id in order <==> id == order[0] || id in order[1..];
    }
  }

  lemma {:induction false} RaiseAllHolds(a: Authority, m: map<u64, SourceDescriptor>, order: seq<u64>)
    requires SourcesKeyed(m) && forall i :: 0 <= i < |order| ==> order[i] in m
    ensures
      var r := RaiseAll(a, Values(m, order));
      && r.boot == a.boot
      && (forall id <- order :: id in r.generation)
      && (forall id <- a.generation :: id in r.generation)
      && forall id: u64 :: CurrentGeneration(r, id) ==
            if id in order then Max(CurrentGeneration(a, id), m[id].generation) else CurrentGeneration(a, id)
    decreases |order|
  {
    if order == [] {
    } else {
      var d := m[order[0]];
      RaiseAllHolds(RaiseTo(a, d), m, order[1..]);
      assert forall id :: id in order <==> id == order[0] || id in order[1..];
    }
  }

  // Observations.

  function Rebuild(l: ObsLog, os: seq<Obs>): ObsLog
    decreases |os|
  {
    if os == [] then l else Rebuild(AppendObs(l, os[0]), os[1..])
  }

  function ReadoptAll(a: Authority, os: seq<Obs>): Authority
    decreases |os|
  {
    if os == [] then a else ReadoptAll(Readopt(a, os[0]), os[1..])
  }

  /** No id twice, and none that is on record already. */
  predicate NewObs(l: ObsLog, os: seq<Obs>) {
    && (forall i :: 0 <= i < |os| ==> os[i].observationId !in l.byId)
    && (forall i, j :: 0 <= i < j < |os| ==> os[i].observationId != os[j].observationId)
  }

  lemma {:induction false} ObsFold(s: State, os: seq<Obs>)
    requires NewObs(s.observed, os)
    ensures Fold(s, os, OfferStoredObs) ==
            (s.(observed := Rebuild(s.observed, MapSeq(EraseObservation, os)),
                authority := ReadoptAll(s.authority, MapSeq(EraseObservation, os))), |os|)
    decreases |os|
  {
    if os == [] {
    } else {
      var o, tail := EraseObservation(os[0]), os[1..];
      var next := OfferStoredObs(s, os[0]).0;
      MapCons(EraseObservation, os);
      assert NewObs(next.observed, tail) by {
        assert forall i :: 0 <= i < |tail| ==> tail[i] == os[i + 1];
      }
      hide IndexObs, EraseObservation, NewObs;
      ObsFold(next, tail);
    }
  }

  lemma NewObsTail(l: ObsLog, os: seq<Obs>)
    requires os != [] && NewObs(l, os)
    ensures os[0].observationId !in l.byId && NewObs(AppendObs(l, os[0]), os[1..])
  {
    hide IndexObs;
    assert forall i :: 0 <= i < |os| - 1 ==> os[1..][i] == os[i + 1];
  }

  lemma AppendedLogs(l: ObsLog, o: Obs)
    ensures AppendObs(l, o).log == l.log + [o]
  {
  }

  lemma {:induction false} RebuildHolds(l: ObsLog, os: seq<Obs>)
    requires ObsIndexed(l) && NewObs(l, os)
    ensures ObsIndexed(Rebuild(l, os)) && Rebuild(l, os).log == l.log + os
    decreases |os|
  {
    hide ObsIndexed, NewObs, AppendObs;
    if os == [] {
      assert l.log + os == l.log;
    } else {
      var tail := os[1..];
      NewObsTail(l, os);
      AppendObsIndexed(l, os[0]);
      RebuildHolds(AppendObs(l, os[0]), tail);
      AppendedLogs(l, os[0]);
      assert l.log + [os[0]] + tail == l.log + os;
    }
  }

  /** The largest of `m` and the generations at which the source is logged. */
  function MaxLogged(m: u64, os: seq<Obs>, id: u64): u64
    decreases |os|
  {
    if os == [] then m
    else MaxLogged(if os[0].sourceId == id then Max(m, os[0].sourceGeneration) else m, os[1..], id)
  }

  lemma {:induction false} ReadoptAllHolds(a: Authority, os: seq<Obs>, id: u64)
    ensures CurrentGeneration(ReadoptAll(a, os), id) == MaxLogged(CurrentGeneration(a, id), os, id)
    ensures id in a.generation ==> id in ReadoptAll(a, os).generation
    decreases |os|
  {
    if os == [] {
    } else {
      ReadoptAllHolds(Readopt(a, os[0]), os[1..], id);
    }
  }

  lemma {:induction false} MaxLoggedIsMaximum(m: u64, os: seq<Obs>, id: u64)
    ensures m <= MaxLogged(m, os, id)
    ensures forall o <- os :: o.sourceId == id ==> o.sourceGeneration <= MaxLogged(m, os, id)
    ensures MaxLogged(m, os, id) == m ||
            exists o <- os :: o.sourceId == id && o.sourceGeneration == MaxLogged(m, os, id)
    decreases |os|
  {
    if os == [] {
    } else {
      var next, tail := if os[0].sourceId == id then Max(m, os[0].sourceGeneration) else m, os[1..];
      MaxLoggedIsMaximum(next, tail, id);
      forall o <- os | o.sourceId == id
        ensures o.sourceGeneration <= MaxLogged(m, os, id)
      {
        if o != os[0] {
          assert o in tail;
        }
      }
      assert os[0] in os;
      assert forall o <- tail :: o in os;
    }
  }

  lemma {:induction false} MaxLoggedErased(m: u64, os: seq<Obs>, id: u64)
    ensures MaxLogged(m, MapSeq(EraseObservation, os), id) == MaxLogged(m, os, id)
    decreases |os|
  {
    if os == [] {
    } else {
      assert MapSeq(EraseObservation, os) == [EraseObservation(os[0])] + MapSeq(EraseObservation, os[1..]);
      MaxLoggedErased(if os[0].sourceId == id then Max(m, os[0].sourceGeneration) else m, os[1..], id);
    }
  }

  // Decisions.

  function RebuildDec(l: DecLog, ds: seq<Dec>): DecLog
    decreases |ds|
  {
    if ds == [] then l else RebuildDec(AppendDec(l, ds[0]), ds[1..])
  }

  predicate NewDec(l: DecLog, ds: seq<Dec>) {
    && (forall i :: 0 <= i < |ds| ==> ds[i].decisionId !in l.byId)
    && (forall i, j :: 0 <= i < j < |ds| ==> ds[i].decisionId != ds[j].decisionId)
  }

  lemma NewDecTail(l: DecLog, ds: seq<Dec>)
    requires ds != [] && NewDec(l, ds)
    ensures ds[0].decisionId !in l.byId && NewDec(AppendDec(l, ds[0]), ds[1..])
  {
    hide IndexDec;
    assert forall i :: 0 <= i < |ds| - 1 ==> ds[1..][i] == ds[i + 1];
  }

  /** Erasing changes nothing a decision is looked up by. */
  lemma ErasedDecisionKeys(d: Dec)
    ensures EraseDecision(d).decisionId == d.decisionId && EraseDecision(d).attemptId == d.attemptId
    ensures forall w: DecKey :: DecKeyOf(w, EraseDecision(d)) == DecKeyOf(w, d)
  {
  }

  lemma AppendErasedKeeps(l: DecLog, d: Dec, ds: seq<Dec>)
    requires NewDec(AppendDec(l, d), ds)
    ensures NewDec(AppendDec(l, EraseDecision(d)), ds)
  {
    hide IndexDec, EraseDecision;
    ErasedDecisionKeys(d);
  }

  lemma {:induction false} DecFold(s: State, ds: seq<Dec>)
    requires NewDec(s.decided, ds)
    ensures Fold(s, ds, OfferStoredDec) == (s.(decided := RebuildDec(s.decided, MapSeq(EraseDecision, ds))), |ds|)
    decreases |ds|
  {
    if ds == [] {
    } else {
      hide AppendDec, EraseDecision, NewDec, MapSeq, DecKeyOf;
      var tail := ds[1..];
      ErasedDecisionKeys(ds[0]);
      NewDecTail(s.decided, ds);
      AppendErasedKeeps(s.decided, ds[0], tail);
      MapCons(EraseDecision, ds);
      DecFold(OfferStoredDec(s, ds[0]).0, tail);
    }
  }

  lemma AppendedDecisions(l: DecLog, d: Dec)
    ensures AppendDec(l, d).log == l.log + [d]
  {
  }

  lemma {:induction false} RebuildDecHolds(l: DecLog, ds: seq<Dec>)
    requires DecIndexed(l) && NewDec(l, ds)
    ensures DecIndexed(RebuildDec(l, ds)) && RebuildDec(l, ds).log == l.log + ds
    decreases |ds|
  {
    hide DecIndexed, NewDec, AppendDec;
    if ds == [] {
      assert l.log + ds == l.log;
    } else {
      var tail := ds[1..];
      NewDecTail(l, ds);
      AppendDecIndexed(l, ds[0]);
      RebuildDecHolds(AppendDec(l, ds[0]), tail);
      AppendedDecisions(l, ds[0]);
      assert l.log + [ds[0]] + tail == l.log + ds;
    }
  }

  // Outcomes.

  predicate OutcomesKeyed(l: DecLog, m: map<u64, Outcome>) {
    forall id <- m :: m[id].decisionId == id && id in l.byId
  }

  function FileOutcomes(m: map<u64, Outcome>, os: seq<Outcome>): map<u64, Outcome>
    decreases |os|
  {
    if os == [] then m else FileOutcomes(m[os[0].decisionId := EraseOutcome(os[0])], os[1..])
  }

  predicate NewOutcomes(l: DecLog, m: map<u64, Outcome>, os: seq<Outcome>) {
    && (forall i :: 0 <= i < |os| ==> os[i].decisionId in l.byId && os[i].decisionId !in m)
    && (forall i, j :: 0 <= i < j < |os| ==> os[i].decisionId != os[j].decisionId)
  }

  lemma {:induction false} OutcomesFold(s: State, os: seq<Outcome>)
    requires NewOutcomes(s.decided, s.outcomes, os)
    ensures Fold(s, os, OfferStoredOutcome) == (s.(outcomes := FileOutcomes(s.outcomes, os)), |os|)
    decreases |os|
  {
    if os == [] {
    } else {
      var next, tail := OfferStoredOutcome(s, os[0]).0, os[1..];
      assert NewOutcomes(next.decided, next.outcomes, tail) by {
        assert forall i :: 0 <= i < |tail| ==> tail[i] == os[i + 1];
      }
      hide NewOutcomes;
      OutcomesFold(next, tail);
    }
  }

  lemma {:induction false} FileOutcomesHolds(m0: map<u64, Outcome>, m: map<u64, Outcome>, order: seq<u64>)
    requires forall id <- m :: m[id].decisionId == id
    requires forall i :: 0 <= i < |order| ==> order[i] in m
    ensures
      var r := FileOutcomes(m0, Values(m, order));
      && (forall id :: id in r <==> id in m0 || id in order)
      && forall id <- r :: r[id] == if id in order then EraseOutcome(m[id]) else m0[id]
    decreases |order|
  {
    hide EraseOutcome;
    if order == [] {
    } else {
      var o := m[order[0]];
      FileOutcomesHolds(m0[o.decisionId := EraseOutcome(o)], m, order[1..]);
      assert forall id :: id in order <==> id == order[0] || id in order[1..];
    }
  }

  // ----- the whole file

  /** Everything in the store is within the reader's limits. */
  ghost predicate Storable(s: State) {
    && (forall id <- s.sources :: StorableSource(s.sources[id]))
    && (forall i :: 0 <= i < |s.observed.log| ==> StorableObs(s.observed.log[i]))
    && (forall i :: 0 <= i < |s.decided.log| ==> StorableDec(s.decided.log[i]))
    && (forall id <- s.outcomes :: StorableOutcome(s.outcomes[id]))
  }

  lemma {:induction false} ValuesAre<V>(m: map<u64, V>, order: seq<u64>)
    requires forall i :: 0 <= i < |order| ==> order[i] in m
    ensures |Values(m, order)| == |order| && forall i :: 0 <= i < |order| ==> Values(m, order)[i] == m[order[i]]
    decreases |order|
  {
    if order == [] {
    } else {
      ValuesAre(m, order[1..]);
    }
  }

  lemma {:induction false} EnumerationSize<V>(order: seq<u64>, m: map<u64, V>)
    requires Enumerates(order, m)
    ensures |order| == |m|
    decreases |order|
  {
    if order == [] {
      assert m.Keys == {};
    } else {
      var k := order[0];
      var rest := m - {k};
      assert forall i :: 0 <= i < |order[1..]| ==> order[1..][i] == order[i + 1];
      EnumerationSize(order[1..], rest);
      assert m.Keys == rest.Keys + {k};
    }
  }

  /** What the stretches of a saved file do, one after the other, to any state. */
  function Replayed(s0: State, s: State, sources: seq<SourceDescriptor>, outcomes: seq<Outcome>): (State, nat) {
    var (t1, n1) := Fold(SetEpoch(s0, s.coordinator), sources, OfferStoredSource);
    var (t2, n2) := Fold(t1, s.observed.log, OfferStoredObs);
    var (t3, n3) := Fold(t2, s.decided.log, OfferStoredDec);
    var (t4, n4) := Fold(t3, outcomes, OfferStoredOutcome);
    (t4, 1 + n1 + n2 + n3 + n4)
  }

  lemma StretchesStore(s: State, sourceOrder: seq<u64>, outcomeOrder: seq<u64>)
    requires Storable(s) && Enumerates(sourceOrder, s.sources) && Enumerates(outcomeOrder, s.outcomes)
    ensures Stores(Values(s.sources, sourceOrder), SourceRecord, OfferStoredSource)
    ensures Stores(s.observed.log, ObsRecord, OfferStoredObs)
    ensures Stores(s.decided.log, DecRecord, OfferStoredDec)
    ensures Stores(Values(s.outcomes, outcomeOrder), OutcomeRecord, OfferStoredOutcome)
  {
    hide LoadRecord, OfferObs, OfferDec, OfferOutcome, LoadSource, EraseSourceDescriptor, EraseObservation,
      EraseDecision, EraseOutcome;
    hide StorableSource, StorableObs, StorableDec, StorableOutcome, SourceRecord, ObsRecord, DecRecord, OutcomeRecord;
    ValuesAre(s.sources, sourceOrder);
    ValuesAre(s.outcomes, outcomeOrder);
    forall t: State, i | 0 <= i < |sourceOrder|
      ensures LoadRecord(t, SourceRecord(Values(s.sources, sourceOrder)[i])) ==
              Ok(OfferStoredSource(t, Values(s.sources, sourceOrder)[i]))
    {
      SourceLoads(t, s.sources[sourceOrder[i]]);
    }
    forall t: State, i | 0 <= i < |s.observed.log|
      ensures LoadRecord(t, ObsRecord(s.observed.log[i])) == Ok(OfferStoredObs(t, s.observed.log[i]))
    {
      ObsLoads(t, s.observed.log[i]);
    }
    forall t: State, i | 0 <= i < |s.decided.log|
      ensures LoadRecord(t, DecRecord(s.decided.log[i])) == Ok(OfferStoredDec(t, s.decided.log[i]))
    {
      DecLoads(t, s.decided.log[i]);
    }
    forall t: State, i | 0 <= i < |outcomeOrder|
      ensures LoadRecord(t, OutcomeRecord(Values(s.outcomes, outcomeOrder)[i])) ==
              Ok(OfferStoredOutcome(t, Values(s.outcomes, outcomeOrder)[i]))
    {
      OutcomeLoads(t, s.outcomes[outcomeOrder[i]]);
    }
  }

  lemma EpochThenRest(s0: State, epoch: u64, rest: seq<Record>)
    ensures Load(s0, [EpochRecord(epoch)] + rest, 0) == Load(SetEpoch(s0, epoch), rest, 1)
  {
    hide LoadRecord, EpochRecord, SetEpoch;
    EpochLoads(s0, epoch);
    assert ([EpochRecord(epoch)] + rest)[1..] == rest;
  }

  lemma LastStretch<T(!new)>(s: State, xs: seq<T>, record: T -> Record, offer: (State, T) -> (State, bool), n: nat)
    requires Stores(xs, record, offer)
    ensures Load(s, MapSeq(record, xs), n) == (Fold(s, xs, offer).0, n + Fold(s, xs, offer).1)
  {
    hide LoadRecord, Stores, Fold, MapSeq;
    LoadStretch(s, xs, record, offer, [], n);
    assert MapSeq(record, xs) + [] == MapSeq(record, xs);
  }

  lemma SavedRecordsLoad(s0: State, s: State, sources: seq<SourceDescriptor>, outcomes: seq<Outcome>)
    requires Stores(sources, SourceRecord, OfferStoredSource) && Stores(s.observed.log, ObsRecord, OfferStoredObs)
    requires Stores(s.decided.log, DecRecord, OfferStoredDec) && Stores(outcomes, OutcomeRecord, OfferStoredOutcome)
    ensures Load(s0, SavedRecords(s, sources, outcomes), 0) == Replayed(s0, s, sources, outcomes)
  {
    hide Load, Stores, Fold, MapSeq, EpochRecord, SetEpoch;
    var rest3 := MapSeq(DecRecord, s.decided.log) + MapSeq(OutcomeRecord, outcomes);
    var rest2 := MapSeq(ObsRecord, s.observed.log) + rest3;
    var s1 := SetEpoch(s0, s.coordinator);
    EpochThenRest(s0, s.coordinator, MapSeq(SourceRecord, sources) + rest2);
    var (t1, n1) := Fold(s1, sources, OfferStoredSource);
    LoadStretch(s1, sources, SourceRecord, OfferStoredSource, rest2, 1);
    var (t2, n2) := Fold(t1, s.observed.log, OfferStoredObs);
    LoadStretch(t1, s.observed.log, ObsRecord, OfferStoredObs, rest3, 1 + n1);
    var (t3, n3) := Fold(t2, s.decided.log, OfferStoredDec);
    LoadStretch(t2, s.decided.log, DecRecord, OfferStoredDec, MapSeq(OutcomeRecord, outcomes), 1 + n1 + n2);
    LastStretch(t3, outcomes, OutcomeRecord, OfferStoredOutcome, 1 + n1 + n2 + n3);
  }

  ghost predicate AllOf(rs: seq<Record>) {
    forall i :: 0 <= i < |rs| ==> Loadable(rs[i])
  }

  lemma JoinedLoadable(a: seq<Record>, b: seq<Record>)
    requires AllOf(a) && AllOf(b)
    ensures AllOf(a + b)
  {
    hide Loadable;
  }

  lemma StretchLoadable<T(!new)>(xs: seq<T>, record: T -> Record, storable: T -> bool)
    requires forall i :: 0 <= i < |xs| ==> storable(xs[i])
    requires forall x: T :: storable(x) ==> Loadable(record(x))
    ensures AllOf(MapSeq(record, xs))
  {
    hide Loadable;
    forall i | 0 <= i < |xs|
      ensures Loadable(MapSeq(record, xs)[i])
    {
      assert storable(xs[i]);
    }
  }

  lemma RecordsLoadable()
    ensures forall d :: StorableSource(d) ==> Loadable(SourceRecord(d))
    ensures forall o :: StorableObs(o) ==> Loadable(ObsRecord(o))
    ensures forall d :: StorableDec(d) ==> Loadable(DecRecord(d))
    ensures forall o :: StorableOutcome(o) ==> Loadable(OutcomeRecord(o))
  {
    hide PutSourceDescriptor, PutObservation, PutDecision, PutOutcome, FitsSourceDescriptor, FitsObservation,
      FitsDecision, FitsOutcome;
  }

  lemma SavedRecordsLoadable(s: State, sourceOrder: seq<u64>, outcomeOrder: seq<u64>)
    requires Storable(s) && Enumerates(sourceOrder, s.sources) && Enumerates(outcomeOrder, s.outcomes)
    ensures AllOf(SavedRecords(s, Values(s.sources, sourceOrder), Values(s.outcomes, outcomeOrder)))
  {
    hide Values, MapSeq, AllOf, EpochRecord, StorableSource, StorableObs, StorableDec, StorableOutcome;
    hide SourceRecord, ObsRecord, DecRecord, OutcomeRecord, Loadable;
    var sources, outcomes := Values(s.sources, sourceOrder), Values(s.outcomes, outcomeOrder);
    ValuesAre(s.sources, sourceOrder);
    ValuesAre(s.outcomes, outcomeOrder);
    var ss, rs := MapSeq(SourceRecord, sources), MapSeq(OutcomeRecord, outcomes);
    var os, ds := MapSeq(ObsRecord, s.observed.log), MapSeq(DecRecord, s.decided.log);
    RecordsLoadable();
    StretchLoadable(sources, SourceRecord, StorableSource);
    StretchLoadable(s.observed.log, ObsRecord, StorableObs);
    StretchLoadable(s.decided.log, DecRecord, StorableDec);
    StretchLoadable(outcomes, OutcomeRecord, StorableOutcome);
    EpochLoadable(s.coordinator);
    JoinedLoadable(ds, rs);
    JoinedLoadable(os, ds + rs);
    JoinedLoadable(ss, os + (ds + rs));
    JoinedLoadable([EpochRecord(s.coordinator)], ss + (os + (ds + rs)));
  }

  lemma EpochLoadable(epoch: u64)
    ensures AllOf([EpochRecord(epoch)])
  {
    hide Loadable, LoadRecord, EpochRecord;
    EpochLoads(Fresh(), epoch);
  }

  /** Recovering a saved file replays its stretches in order. */
  lemma SavedFileReplays(s0: State, s: State, sourceOrder: seq<u64>, outcomeOrder: seq<u64>)
    requires Storable(s) && Enumerates(sourceOrder, s.sources) && Enumerates(outcomeOrder, s.outcomes)
    ensures
      var sources, outcomes := Values(s.sources, sourceOrder), Values(s.outcomes, outcomeOrder);
      Recover(s0, SavedFile(s, sources, outcomes)) == Replayed(s0, s, sources, outcomes)
  {
    hide Load, Parse, LogOf, Replayed, Loadable, Values, SavedRecords, Stores;
    var sources, outcomes := Values(s.sources, sourceOrder), Values(s.outcomes, outcomeOrder);
    var rs := SavedRecords(s, sources, outcomes);
    StretchesStore(s, sourceOrder, outcomeOrder);
    SavedRecordsLoad(s0, s, sources, outcomes);
    SavedRecordsLoadable(s, sourceOrder, outcomeOrder);
    assert Bounded(rs) by {
      forall i | 0 <= i < |rs|
        ensures |rs[i].body| < TWO64
      {
        assert Loadable(rs[i]);
        LoadableIsBounded(rs[i]);
      }
    }
    ParseLog(rs);
    AllLoadable(rs);
  }

  lemma LoadableIsBounded(r: Record)
    requires Loadable(r)
    ensures |r.body| < TWO64
  {
  }

  // ----- recovery restores what was saved

  /** The log's keys alone determine its by-id map and its indexes. */
  lemma SameKeysSameObsIndex(l: ObsLog, r: ObsLog)
    requires ObsIndexed(l) && ObsIndexed(r) && |l.log| == |r.log|
    requires forall i :: 0 <= i < |l.log| ==> l.log[i].observationId == r.log[i].observationId
    requires forall w: ObsKey, i :: 0 <= i < |l.log| ==> ObsKeyOf(w, l.log[i]) == ObsKeyOf(w, r.log[i])
    ensures l.byId == r.byId && l.index == r.index
  {
    hide ObsKeyOf, Agrees, ObsIndexBy;
    forall w: ObsKey
      ensures ObsIndexBy(l.index, w) == ObsIndexBy(r.index, w)
    {
      assert ObsKeys(w, l.log) == ObsKeys(w, r.log);
      AgreesUnique(ObsIndexBy(l.index, w), ObsIndexBy(r.index, w), ObsKeys(w, l.log));
    }
    ObsIndexByAll(l.index, r.index);
    assert l.byId == r.byId by {
      forall id: u64
        ensures id in l.byId <==> id in r.byId
        ensures id in l.byId ==> l.byId[id] == r.byId[id]
      {
        if id in l.byId {
          assert l.log[l.byId[id]].observationId == id == r.log[l.byId[id]].observationId;
        }
        if id in r.byId {
          assert r.log[r.byId[id]].observationId == id == l.log[r.byId[id]].observationId;
        }
      }
    }
  }

  lemma ObsIndexByAll(x: ObsIndex, y: ObsIndex)
    requires forall w: ObsKey :: ObsIndexBy(x, w) == ObsIndexBy(y, w)
    ensures x == y
  {
    assert ObsIndexBy(x, OWorkload) == ObsIndexBy(y, OWorkload) && ObsIndexBy(x, ORequest) == ObsIndexBy(y, ORequest);
    assert ObsIndexBy(x, ONode) == ObsIndexBy(y, ONode) && ObsIndexBy(x, ODevice) == ObsIndexBy(y, ODevice);
    assert ObsIndexBy(x, OSource) == ObsIndexBy(y, OSource) && ObsIndexBy(x, OGeneration) == ObsIndexBy(y, OGeneration);
    assert ObsIndexBy(x, OEpoch) == ObsIndexBy(y, OEpoch) && ObsIndexBy(x, ONamespace) == ObsIndexBy(y, ONamespace);
    assert ObsIndexBy(x, OAttempt) == ObsIndexBy(y, OAttempt);
  }

  lemma SameKeysSameDecIndex(l: DecLog, r: DecLog)
    requires DecIndexed(l) && DecIndexed(r) && |l.log| == |r.log|
    requires forall i :: 0 <= i < |l.log| ==>
             l.log[i].decisionId == r.log[i].decisionId && l.log[i].attemptId == r.log[i].attemptId
    requires forall w: DecKey, i :: 0 <= i < |l.log| ==> DecKeyOf(w, l.log[i]) == DecKeyOf(w, r.log[i])
    ensures l.byId == r.byId && l.index == r.index
  {
    hide DecKeyOf, Agrees, DecIndexBy, Remembers;
    forall w: DecKey
      ensures DecIndexBy(l.index, w) == DecIndexBy(r.index, w)
    {
      assert DecKeys(w, l.log) == DecKeys(w, r.log);
      AgreesUnique(DecIndexBy(l.index, w), DecIndexBy(r.index, w), DecKeys(w, l.log));
    }
    assert Attempts(l.log) == Attempts(r.log);
    RemembersUnique(l.index.attempt, r.index.attempt, Attempts(l.log));
    DecIndexByAll(l.index, r.index);
    assert l.byId == r.byId by {
      forall id: u64
        ensures id in l.byId <==> id in r.byId
        ensures id in l.byId ==> l.byId[id] == r.byId[id]
      {
        if id in l.byId {
          assert l.log[l.byId[id]].decisionId == id == r.log[l.byId[id]].decisionId;
        }
        if id in r.byId {
          assert r.log[r.byId[id]].decisionId == id == l.log[r.byId[id]].decisionId;
        }
      }
    }
  }

  lemma DecIndexByAll(x: DecIndex, y: DecIndex)
    requires x.attempt == y.attempt && forall w: DecKey :: DecIndexBy(x, w) == DecIndexBy(y, w)
    ensures x == y
  {
    assert DecIndexBy(x, DWorkload) == DecIndexBy(y, DWorkload) && DecIndexBy(x, DRequest) == DecIndexBy(y, DRequest);
    assert DecIndexBy(x, DNode) == DecIndexBy(y, DNode) && DecIndexBy(x, DDevice) == DecIndexBy(y, DDevice);
    assert DecIndexBy(x, DEpoch) == DecIndexBy(y, DEpoch) && DecIndexBy(x, DNamespace) == DecIndexBy(y, DNamespace);
    assert DecIndexBy(x, DPolicy) == DecIndexBy(y, DPolicy) && DecIndexBy(x, DSelected) == DecIndexBy(y, DSelected);
  }

  lemma ErasedObsKeys(o: Obs)
    ensures EraseObservation(o).observationId == o.observationId && EraseObservation(o).sourceId == o.sourceId
    ensures forall w: ObsKey :: ObsKeyOf(w, EraseObservation(o)) == ObsKeyOf(w, o)
  {
  }

  /** Re-appending the erased observations to an empty log rebuilds map and indexes. */
  lemma ObsRebuilt(l: ObsLog)
    requires ObsIndexed(l)
    ensures NewObs(EmptyObsLog(), l.log)
    ensures Rebuild(EmptyObsLog(), MapSeq(EraseObservation, l.log)) == l.(log := MapSeq(EraseObservation, l.log))
  {
    hide Rebuild, EraseObservation, ObsKeyOf, Agrees;
    var os := MapSeq(EraseObservation, l.log);
    forall i | 0 <= i < |l.log|
      ensures os[i].observationId == l.log[i].observationId
      ensures forall w: ObsKey :: ObsKeyOf(w, os[i]) == ObsKeyOf(w, l.log[i])
    {
      ErasedObsKeys(l.log[i]);
    }
    FreshIndexed();
    RebuildHolds(EmptyObsLog(), os);
    assert [] + os == os;
    SameKeysSameObsIndex(l, Rebuild(EmptyObsLog(), os));
  }

  lemma DecRebuilt(l: DecLog)
    requires DecIndexed(l)
    ensures NewDec(EmptyDecLog(), l.log)
    ensures RebuildDec(EmptyDecLog(), MapSeq(EraseDecision, l.log)) == l.(log := MapSeq(EraseDecision, l.log))
  {
    hide RebuildDec, EraseDecision, DecKeyOf, Agrees, Remembers;
    var ds := MapSeq(EraseDecision, l.log);
    forall i | 0 <= i < |l.log|
      ensures ds[i].decisionId == l.log[i].decisionId && ds[i].attemptId == l.log[i].attemptId
      ensures forall w: DecKey :: DecKeyOf(w, ds[i]) == DecKeyOf(w, l.log[i])
    {
      ErasedDecisionKeys(l.log[i]);
    }
    FreshIndexed();
    RebuildDecHolds(EmptyDecLog(), ds);
    assert [] + ds == ds;
    SameKeysSameDecIndex(l, RebuildDec(EmptyDecLog(), ds));
  }

  /** What holds in every reachable state and saving relies on. */
  ghost predicate Filed(s: State) {
    Indexed(s) && SourcesKeyed(s.sources) && OutcomesKeyed(s.decided, s.outcomes)
  }

  /** The generation recovery can know for a source: the one its descriptor carries, or the
      newest at which it is logged. */
  function RecordedGeneration(s: State, id: u64): u64 {
    MaxLogged(if id in s.sources then s.sources[id].generation else 0, s.observed.log, id)
  }

  function ErasedSources(m: map<u64, SourceDescriptor>): map<u64, SourceDescriptor> {
    map id <- m :: EraseSourceDescriptor(m[id])
  }

  function ErasedOutcomes(m: map<u64, Outcome>): map<u64, Outcome> {
    map id <- m :: EraseOutcome(m[id])
  }

  /** The records of `s` up to erasure, with `s`'s own indexes, and fresh counters. */
  function RestoredState(s: State, authority: Authority): State {
    State(s.observed.(log := MapSeq(EraseObservation, s.observed.log)),
      s.decided.(log := MapSeq(EraseDecision, s.decided.log)),
          ErasedOutcomes(s.outcomes), ErasedSources(s.sources), authority, s.coordinator, 0, 0, 0)
  }

  /** The authority recovery builds from a saved state. */
  function RestoredAuthority(s: State, sources: seq<SourceDescriptor>): Authority {
    ReadoptAll(RaiseAll(Authority(map[], map[]), sources), MapSeq(EraseObservation, s.observed.log))
  }

  lemma SourcesRestored(m: map<u64, SourceDescriptor>, order: seq<u64>)
    requires SourcesKeyed(m) && Enumerates(order, m)
    ensures FileSources(map[], Values(m, order)) == ErasedSources(m) && |Values(m, order)| == |m|
  {
    hide EraseSourceDescriptor;
    FileSourcesHolds(map[], m, order);
    ValuesAre(m, order);
    EnumerationSize(order, m);
  }

  lemma OutcomesRestored(l: DecLog, m: map<u64, Outcome>, order: seq<u64>)
    requires OutcomesKeyed(l, m) && Enumerates(order, m)
    ensures FileOutcomes(map[], Values(m, order)) == ErasedOutcomes(m) && |Values(m, order)| == |m|
    ensures NewOutcomes(l, map[], Values(m, order))
  {
    hide EraseOutcome, NewOutcomes;
    FileOutcomesHolds(map[], m, order);
    EnumeratedAreNew(l, m, order);
    EnumerationSize(order, m);
  }

  lemma EnumeratedAreNew(l: DecLog, m: map<u64, Outcome>, order: seq<u64>)
    requires OutcomesKeyed(l, m) && Enumerates(order, m)
    ensures NewOutcomes(l, map[], Values(m, order)) && |Values(m, order)| == |order|
  {
    hide Values;
    ValuesAre(m, order);
  }

  lemma ReplayedOnFresh(s: State, sourceOrder: seq<u64>, outcomeOrder: seq<u64>)
    requires Filed(s) && Enumerates(sourceOrder, s.sources) && Enumerates(outcomeOrder, s.outcomes)
    ensures
      var sources, outcomes := Values(s.sources, sourceOrder), Values(s.outcomes, outcomeOrder);
      Replayed(Fresh(), s, sources, outcomes) ==
      (RestoredState(s, RestoredAuthority(s, sources)),
        1 + |s.sources| + |s.observed.log| + |s.decided.log| + |s.outcomes|)
  {
    hide Fold, ObsIndexed, DecIndexed, Rebuild, RebuildDec, ReadoptAll, RaiseAll, FileSources, FileOutcomes,
      EraseObservation, EraseDecision, MapSeq;
    hide ErasedSources, ErasedOutcomes, NewObs, NewDec, NewOutcomes, Values, OfferObs, OfferDec,
      OfferOutcome, LoadSource;
    var sources, outcomes := Values(s.sources, sourceOrder), Values(s.outcomes, outcomeOrder);
    var s1 := SetEpoch(Fresh(), s.coordinator);
    SourcesFold(s1, sources);
    SourcesRestored(s.sources, sourceOrder);
    var t1 := Fold(s1, sources, OfferStoredSource).0;
    ObsRebuilt(s.observed);
    ObsFold(t1, s.observed.log);
    var t2 := Fold(t1, s.observed.log, OfferStoredObs).0;
    DecRebuilt(s.decided);
    DecFold(t2, s.decided.log);
    var t3 := Fold(t2, s.decided.log, OfferStoredDec).0;
    OutcomesRestored(s.decided, s.outcomes, outcomeOrder);
    SameDecisionIds(t3.decided, s.decided, map[], outcomes);
    OutcomesFold(t3, outcomes);
  }

  lemma SameDecisionIds(l: DecLog, r: DecLog, m: map<u64, Outcome>, os: seq<Outcome>)
    requires l.byId == r.byId && NewOutcomes(r, m, os)
    ensures NewOutcomes(l, m, os)
  {
  }

  /** Saving any reachable, storable state and recovering it into a fresh observatory, whatever the
      iteration order of the hash maps, gives back the same observations, decisions, outcomes,
      sources and coordinator epoch up to erasure, the very same by-id maps and indexes, and
      counts every record. */
  lemma SaveThenRecover(s: State, sourceOrder: seq<u64>, outcomeOrder: seq<u64>)
    requires Filed(s) && Storable(s) && Enumerates(sourceOrder, s.sources) && Enumerates(outcomeOrder, s.outcomes)
    ensures
      var sources := Values(s.sources, sourceOrder);
      Recover(Fresh(), SavedFile(s, sources, Values(s.outcomes, outcomeOrder))) ==
      (RestoredState(s, RestoredAuthority(s, sources)),
        1 + |s.sources| + |s.observed.log| + |s.decided.log| + |s.outcomes|)
  {
    hide Recover, SavedFile, Replayed, RestoredState, RestoredAuthority, Values, Filed, Storable, Fresh;
    SavedFileReplays(Fresh(), s, sourceOrder, outcomeOrder);
    ReplayedOnFresh(s, sourceOrder, outcomeOrder);
  }

  /** Recovered authority is exactly the newest generation on record for each source. */
  lemma RestoredGeneration(s: State, sourceOrder: seq<u64>, id: u64)
    requires SourcesKeyed(s.sources) && Enumerates(sourceOrder, s.sources)
    ensures CurrentGeneration(RestoredAuthority(s, Values(s.sources, sourceOrder)), id) == RecordedGeneration(s, id)
    ensures id in s.sources ==> id in RestoredAuthority(s, Values(s.sources, sourceOrder)).generation
  {
    hide ReadoptAll, RaiseAll, EraseObservation, MapSeq;
    var a := RaiseAll(Authority(map[], map[]), Values(s.sources, sourceOrder));
    RaiseAllHolds(Authority(map[], map[]), s.sources, sourceOrder);
    ReadoptAllHolds(a, MapSeq(EraseObservation, s.observed.log), id);
    MaxLoggedErased(CurrentGeneration(a, id), s.observed.log, id);
    assert id in s.sources ==> id in sourceOrder;
  }

  /** No record outruns the authority of its source. */
  ghost predicate Outranked(s: State) {
    && (forall i :: 0 <= i < |s.observed.log| ==>
       s.observed.log[i].sourceGeneration <= CurrentGeneration(s.authority, s.observed.log[i].sourceId))
    && (forall id <- s.sources :: s.sources[id].generation <= CurrentGeneration(s.authority, id))
  }

  /** Recovery never grants a source more than it had. */
  lemma RecordedGenerationBounded(s: State, id: u64)
    requires Outranked(s)
    ensures RecordedGeneration(s, id) <= CurrentGeneration(s.authority, id)
  {
    MaxLoggedIsMaximum(if id in s.sources then s.sources[id].generation else 0, s.observed.log, id);
  }

  // ----- every reachable state can be saved so

  /** Tables filed under their own ids, and no record above its source's authority. */
  ghost predicate Orderly(s: State) {
    SourcesKeyed(s.sources) && OutcomesKeyed(s.decided, s.outcomes) && Outranked(s)
  }

  lemma RaisedKeepsOutranked(s: State, t: State)
    requires Outranked(s) && t.observed == s.observed && t.sources == s.sources
    requires forall id: u64 :: Raised(s.authority, t.authority, id)
    ensures Outranked(t)
  {
    forall i | 0 <= i < |t.observed.log|
      ensures t.observed.log[i].sourceGeneration <= CurrentGeneration(t.authority, t.observed.log[i].sourceId)
    {
      assert Raised(s.authority, t.authority, t.observed.log[i].sourceId);
    }
    forall id <- t.sources
      ensures t.sources[id].generation <= CurrentGeneration(t.authority, id)
    {
      assert Raised(s.authority, t.authority, id);
    }
  }

  lemma LoadSourceOrderly(s: State, d: SourceDescriptor)
    requires Orderly(s)
    ensures Orderly(LoadSource(s, d))
  {
    hide OutcomesKeyed;
    var a := s.(authority := RaiseTo(s.authority, d));
    RaisedKeepsOutranked(s, a);
  }

  lemma OfferObsOrderly(s: State, o: Obs)
    requires Orderly(s)
    ensures Orderly(OfferObs(s, o).0)
  {
    hide OutcomesKeyed, SourcesKeyed, IndexObs;
    if o.observationId !in s.observed.byId {
      var a := s.(authority := Readopt(s.authority, o));
      RaisedKeepsOutranked(s, a);
    }
  }

  lemma OfferDecOrderly(s: State, d: Dec)
    requires Orderly(s)
    ensures Orderly(OfferDec(s, d).0)
  {
    hide IndexDec;
  }

  lemma LoadRecordOrderly(s: State, r: Record)
    requires Orderly(s) && LoadRecord(s, r).Ok?
    ensures Orderly(LoadRecord(s, r).value.0)
  {
    hide GetObservation, GetDecision, GetOutcome, GetSourceDescriptor, GetU64, OfferObs, OfferDec, LoadSource;
    if r.kind == SOURCE_DESCRIPTOR {
      LoadSourceOrderly(s, GetSourceDescriptor(r.body, 0).value.0);
    } else if r.kind == OBSERVATION {
      OfferObsOrderly(s, GetObservation(r.body, 0).value.0);
    } else if r.kind == DECISION {
      OfferDecOrderly(s, GetDecision(r.body, 0).value.0);
    }
  }

  lemma {:induction false} LoadOrderly(s: State, rs: seq<Record>, loaded: nat)
    requires Orderly(s)
    ensures Orderly(Load(s, rs, loaded).0)
    decreases |rs|
  {
    hide Orderly, LoadRecord;
    if rs == [] || LoadRecord(s, rs[0]).Err? {
    } else {
      var (t, counted) := LoadRecord(s, rs[0]).value;
      LoadRecordOrderly(s, rs[0]);
      LoadOrderly(t, rs[1..], if counted then loaded + 1 else loaded);
    }
  }

  lemma RegisterOrderly(s: State, d: SourceDescriptor)
    requires Orderly(s)
    ensures Orderly(Register(s, d))
  {
    hide OutcomesKeyed;
    var a := s.(authority := Enrol(s.authority, d));
    RaisedKeepsOutranked(s, a);
  }

  lemma IngestOrderly(cfg: Config, s: State, o: Obs)
    requires Orderly(s)
    ensures Orderly(Ingest(cfg, s, o).0)
  {
    hide OutcomesKeyed, SourcesKeyed, Malformed, Unauthorized, LateFault, IndexObs;
    RaisedKeepsOutranked(s, Believe(s, o));
  }

  lemma StepOrderly(cfg: Config, s: State, c: Call)
    requires Indexed(s) && Orderly(s)
    ensures Orderly(Step(cfg, s, c))
  {
    hide Load, Parse, Ingest, Register, DecisionFault, IndexDec, Outranked, Compatible;
    match c {
      case RegisterSource(d) => RegisterOrderly(s, d);
      case Observe(o) => IngestOrderly(cfg, s, o);
      case Restore(file) => LoadOrderly(s, Parse(file), 0);
      case Decide(d) => DecideOrderly(cfg, s, d);
      case _ => SameRecordsOutranked(s, Step(cfg, s, c));
    }
  }

  lemma SameRecordsOutranked(s: State, t: State)
    requires Outranked(s) && t.observed == s.observed && t.sources == s.sources && t.authority == s.authority
    ensures Outranked(t)
  {
  }

  lemma DecideOrderly(cfg: Config, s: State, d: Dec)
    requires Orderly(s)
    ensures Orderly(IngestDecision(cfg, s, d).0)
  {
    hide DecisionFault, IndexDec, Outranked;
    SameRecordsOutranked(s, IngestDecision(cfg, s, d).0);
  }

  /** Every state any calls lead to, recoveries from arbitrary files included, is one that
      saving and recovering handle: the requirements of the results here are met for free. */
  lemma {:induction false} RunFiled(cfg: Config, s: State, calls: seq<Call>)
    requires Indexed(s) && Orderly(s)
    ensures Filed(Run(cfg, s, calls)) && Outranked(Run(cfg, s, calls))
    decreases |calls|
  {
    if calls == [] {
    } else {
      hide Indexed, Orderly, Step, Outranked, Filed;
      StepIndexed(cfg, s, calls[0]);
      StepOrderly(cfg, s, calls[0]);
      RunFiled(cfg, Step(cfg, s, calls[0]), calls[1..]);
    }
  }

  // ----- recovering the same file again

  lemma SourceAgain(s: State, authority: Authority, d: SourceDescriptor)
    requires SourcesKeyed(s.sources) && d.sourceId in s.sources && d == s.sources[d.sourceId]
    requires d.sourceId in authority.generation && d.generation <= CurrentGeneration(authority, d.sourceId)
    ensures OfferStoredSource(RestoredState(s, authority), d) == (RestoredState(s, authority), true)
  {
    var m := ErasedSources(s.sources);
    assert m[d.sourceId := EraseSourceDescriptor(d)] == m;
  }

  lemma ObsAgain(s: State, authority: Authority, o: Obs)
    requires o.observationId in s.observed.byId
    ensures OfferStoredObs(RestoredState(s, authority), o) == (RestoredState(s, authority), false)
  {
  }

  lemma DecAgain(s: State, authority: Authority, d: Dec)
    requires d.decisionId in s.decided.byId
    ensures OfferStoredDec(RestoredState(s, authority), d) == (RestoredState(s, authority), false)
  {
    hide EraseDecision, MapSeq;
    ErasedDecisionKeys(d);
  }

  lemma OutcomeAgain(s: State, authority: Authority, o: Outcome)
    requires o.decisionId in s.outcomes
    ensures OfferStoredOutcome(RestoredState(s, authority), o) == (RestoredState(s, authority), false)
  {
  }

  /** Recovering the very same file once more changes nothing at all; only the epoch and the
      descriptors are counted again. */
  lemma RecoverAgain(s: State, sourceOrder: seq<u64>, outcomeOrder: seq<u64>)
    requires Filed(s) && Storable(s) && Enumerates(sourceOrder, s.sources) && Enumerates(outcomeOrder, s.outcomes)
    ensures
      var sources := Values(s.sources, sourceOrder);
      var file := SavedFile(s, sources, Values(s.outcomes, outcomeOrder));
      var t := Recover(Fresh(), file).0;
      Recover(t, file) == (t, 1 + |s.sources|)
  {
    hide Recover, SavedFile, Fold, Values, Storable, Fresh, RestoredState, RestoredAuthority,
      RecordedGeneration, MaxLogged, Agrees, Remembers;
    hide OfferStoredSource, OfferStoredObs, OfferStoredDec, OfferStoredOutcome;
    var sources, outcomes := Values(s.sources, sourceOrder), Values(s.outcomes, outcomeOrder);
    var a := RestoredAuthority(s, sources);
    var t := RestoredState(s, a);
    SaveThenRecover(s, sourceOrder, outcomeOrder);
    SavedFileReplays(t, s, sourceOrder, outcomeOrder);
    ValuesAre(s.sources, sourceOrder);
    ValuesAre(s.outcomes, outcomeOrder);
    EnumerationSize(sourceOrder, s.sources);
    EpochAgain(s, a);
    forall i | 0 <= i < |sources|
      ensures OfferStoredSource(t, sources[i]) == (t, true)
    {
      var id := sourceOrder[i];
      RestoredGeneration(s, sourceOrder, id);
      RecordedCoversDescriptor(s, id);
      SourceAgain(s, a, sources[i]);
    }
    FoldUnchanged(t, sources, OfferStoredSource, true);
    forall i | 0 <= i < |s.observed.log|
      ensures OfferStoredObs(t, s.observed.log[i]) == (t, false)
    {
      ObsAgain(s, a, s.observed.log[i]);
    }
    FoldUnchanged(t, s.observed.log, OfferStoredObs, false);
    forall i | 0 <= i < |s.decided.log|
      ensures OfferStoredDec(t, s.decided.log[i]) == (t, false)
    {
      DecAgain(s, a, s.decided.log[i]);
    }
    FoldUnchanged(t, s.decided.log, OfferStoredDec, false);
    forall i | 0 <= i < |outcomes|
      ensures OfferStoredOutcome(t, outcomes[i]) == (t, false)
    {
      OutcomeAgain(s, a, outcomes[i]);
    }
    FoldUnchanged(t, outcomes, OfferStoredOutcome, false);
  }

  lemma EpochAgain(s: State, authority: Authority)
    ensures SetEpoch(RestoredState(s, authority), s.coordinator) == RestoredState(s, authority)
  {
  }

  lemma RecordedCoversDescriptor(s: State, id: u64)
    requires id in s.sources
    ensures s.sources[id].generation <= RecordedGeneration(s, id)
  {
    MaxLoggedIsMaximum(s.sources[id].generation, s.observed.log, id);
  }

  // ----- a file cut short

  /** Crash safety: recovering what is left of a log after truncation, into any state, gives the
      state and the count of recovering just the records lying wholly inside it. */
  lemma RecoverPrefix(s0: State, rs: seq<Record>, n: nat) returns (k: nat)
    requires Bounded(rs) && n <= |LogOf(rs)|
    ensures k <= |rs| && |LogOf(rs[..k])| <= n && (k < |rs| ==> n < |LogOf(rs[..k + 1])|)
    ensures Recover(s0, LogOf(rs)[..n]) == Recover(s0, LogOf(rs[..k])) == Load(s0, LoadablePart(rs[..k]), 0)
  {
    k := ParsePrefix(rs, n);
  }
}
