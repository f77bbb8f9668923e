/** What a saved file gives back when something in the store is larger than the reader takes: the
    state as far as it was written before the first such entry, and nothing behind it. */
module Oversized {
  import opened Base
  import opened Model
  import opened Sequences
  import opened Serialize
  import opened Records
  import opened RecordLog
  import opened Capacity
  import opened Indexes
  import opened Store
  import opened Runs
  import opened Persistence
  import opened Restarts

  // ----- an entry is lost exactly for its size

  /** The reader takes an entry back if and only if its encoding is within the cap of a body, and
      then its record is loadable. */
  lemma SizeDecides()
    ensures forall d: SourceDescriptor :: StorableSource(d) <==> Loadable(SourceRecord(d))
    ensures forall o: Obs :: StorableObs(o) <==> Loadable(ObsRecord(o))
    ensures forall d: Dec :: StorableDec(d) <==> Loadable(DecRecord(d))
    ensures forall o: Outcome :: StorableOutcome(o) <==> Loadable(OutcomeRecord(o))
  {
    hide PutSourceDescriptor, PutObservation, PutDecision, PutOutcome;
    hide FitsSourceDescriptor, FitsObservation, FitsDecision, FitsOutcome;
    forall d: SourceDescriptor
      ensures StorableSource(d) <==> Loadable(SourceRecord(d))
    {
      SourceDescriptorSized([], d);
    }
    forall o: Obs
      ensures StorableObs(o) <==> Loadable(ObsRecord(o))
    {
      ObservationSized([], o);
    }
    forall d: Dec
      ensures StorableDec(d) <==> Loadable(DecRecord(d))
    {
      DecisionSized([], d);
    }
    forall o: Outcome
      ensures StorableOutcome(o) <==> Loadable(OutcomeRecord(o))
    {
      OutcomeSized([], o);
    }
  }

  // ----- the part of a file in front of the first oversized record

  /** How many elements come before the first that is not storable. */
  function Front<T>(xs: seq<T>, storable: T -> bool): (n: nat)
    ensures n <= |xs|
    decreases |xs|
  {
    if xs == [] || !storable(xs[0]) then 0 else 1 + Front(xs[1..], storable)
  }

  lemma {:induction false} FrontHolds<T>(xs: seq<T>, storable: T -> bool)
    ensures forall i :: 0 <= i < Front(xs, storable) ==> storable(xs[i])
    ensures Front(xs, storable) < |xs| ==> !storable(xs[Front(xs, storable)])
    decreases |xs|
  {
    if xs == [] || !storable(xs[0]) {
    } else {
      FrontHolds(xs[1..], storable);
      assert forall i :: 1 <= i < |xs| ==> xs[i] == xs[1..][i - 1];
    }
  }

  lemma {:induction false} LoadableMap<T>(xs: seq<T>, record: T -> Record, storable: T -> bool)
    requires forall i :: 0 <= i < |xs| ==> (storable(xs[i]) <==> Loadable(record(xs[i])))
    ensures LoadablePart(MapSeq(record, xs)) == MapSeq(record, xs[..Front(xs, storable)])
    decreases |xs|
  {
    hide Loadable, MapSeq;
    if xs == [] {
      assert xs[..0] == [] && MapSeq(record, xs) == [] by { NothingMapped(record); }
    } else {
      MapCons(record, xs);
      var mapped, tail := MapSeq(record, xs), xs[1..];
      assert mapped[0] == record(xs[0]) && mapped[1..] == MapSeq(record, tail);
      assert storable(xs[0]) <==> Loadable(record(xs[0]));
      if storable(xs[0]) {
        LoadableMap(tail, record, storable);
        var kept := xs[..1 + Front(tail, storable)];
        MapCons(record, kept);
        assert kept[0] == xs[0] && kept[1..] == tail[..Front(tail, storable)];
      } else {
        assert xs[..0] == [];
        NothingMapped(record);
      }
    }
  }

  lemma NothingMapped<T, U>(f: T -> U)
    ensures MapSeq(f, []) == []
  {
  }

  lemma ConsKept(x: Record, kept: seq<Record>, tail: seq<Record>, more: seq<Record>)
    ensures [x] + kept == [x] + tail <==> kept == tail
    ensures [x] + (kept + more) == ([x] + kept) + more
    ensures ([x] + tail)[0] == x && ([x] + tail)[1..] == tail
  {
    assert ([x] + kept)[1..] == kept;
  }

  lemma {:induction false} LoadableConcat(a: seq<Record>, b: seq<Record>)
    ensures LoadablePart(a + b) == LoadablePart(a) + if LoadablePart(a) == a then LoadablePart(b) else []
    decreases |a|
  {
    hide Loadable;
    if a == [] {
      assert a + b == b && LoadablePart(a) + LoadablePart(b) == LoadablePart(b);
    } else {
      var x, tail := a[0], a[1..];
      assert a == [x] + tail && a + b == [x] + (tail + b);
      LoadableConcat(tail, b);
      ConsKept(x, LoadablePart(tail), tail, if LoadablePart(tail) == tail then LoadablePart(b) else []);
      ConsKept(x, LoadablePart(tail), tail + b, []);
    }
  }

  /** A stretch followed by more: what follows is reached only if the whole stretch is storable. */
  lemma LoadableStretch<T>(xs: seq<T>, record: T -> Record, storable: T -> bool, rest: seq<Record>)
    requires forall i :: 0 <= i < |xs| ==> (storable(xs[i]) <==> Loadable(record(xs[i])))
    ensures
      var n := Front(xs, storable);
      LoadablePart(MapSeq(record, xs) + rest) ==
        MapSeq(record, xs[..n]) + if n == |xs| then LoadablePart(rest) else []
  {
    hide Loadable, LoadablePart, MapSeq, Front;
    LoadableMap(xs, record, storable);
    LoadableConcat(MapSeq(record, xs), rest);
    var n := Front(xs, storable);
    MappedLength(record, xs);
    MappedLength(record, xs[..n]);
    if n == |xs| {
      assert xs[..n] == xs;
    }
  }

  lemma MappedLength<T, U>(f: T -> U, xs: seq<T>)
    ensures |MapSeq(f, xs)| == |xs|
  {
  }

  // ----- what is given back

  /** How many entries of each table come before the first oversized one in the file. */
  datatype Extent = Extent(sources: nat, observations: nat, decisions: nat, outcomes: nat)

  function ExtentOf(s: State, sources: seq<SourceDescriptor>, outcomes: seq<Outcome>): (e: Extent)
    ensures e.sources <= |sources| && e.observations <= |s.observed.log|
    ensures e.decisions <= |s.decided.log| && e.outcomes <= |outcomes|
  {
    var a := Front(sources, StorableSource);
    var b := if a < |sources| then 0 else Front(s.observed.log, StorableObs);
    var c := if a < |sources| || b < |s.observed.log| then 0 else Front(s.decided.log, StorableDec);
    var d := if a < |sources| || b < |s.observed.log| || c < |s.decided.log| then 0
             else Front(outcomes, StorableOutcome);
    Extent(a, b, c, d)
  }

  function Restricted<V>(m: map<u64, V>, keys: seq<u64>): map<u64, V> {
    map id <- m | id in keys :: m[id]
  }

  /** The part of the store written before the first oversized entry, as a store of its own. */
  function Before(s: State, sourceOrder: seq<u64>, outcomeOrder: seq<u64>, e: Extent): State
    requires e.sources <= |sourceOrder| && e.observations <= |s.observed.log|
    requires e.decisions <= |s.decided.log| && e.outcomes <= |outcomeOrder|
  {
    s.(observed := Rebuild(EmptyObsLog(), s.observed.log[..e.observations]),
       decided := RebuildDec(EmptyDecLog(), s.decided.log[..e.decisions]),
       sources := Restricted(s.sources, sourceOrder[..e.sources]),
       outcomes := Restricted(s.outcomes, outcomeOrder[..e.outcomes]))
  }

  lemma ValuesOfFront<V>(m: map<u64, V>, k: map<u64, V>, order: seq<u64>, n: nat)
    requires forall i :: 0 <= i < |order| ==> order[i] in m
    requires n <= |order| && forall i :: 0 <= i < n ==> order[i] in k && k[order[i]] == m[order[i]]
    ensures |Values(m, order)| == |order|
    ensures Values(k, order[..n]) == Values(m, order)[..n] == Values(m, order[..n])
  {
    ValuesAre(m, order);
    ValuesAre(m, order[..n]);
    ValuesAre(k, order[..n]);
  }

  lemma RestrictionEnumerated<V>(m: map<u64, V>, order: seq<u64>, n: nat)
    requires Enumerates(order, m) && n <= |order|
    ensures Enumerates(order[..n], Restricted(m, order[..n]))
  {
  }

  /** Records in front of the first oversized one are exactly those of that smaller store. */
  lemma LoadableSaved(s: State, sources: seq<SourceDescriptor>, outcomes: seq<Outcome>, u: State)
    requires
      var e := ExtentOf(s, sources, outcomes);
      && u.coordinator == s.coordinator && u.observed.log == s.observed.log[..e.observations]
      && u.decided.log == s.decided.log[..e.decisions]
    ensures
      var e := ExtentOf(s, sources, outcomes);
      LoadablePart(SavedRecords(s, sources, outcomes)) ==
        SavedRecords(u, sources[..e.sources], outcomes[..e.outcomes])
  {
    hide Loadable, LoadablePart, MapSeq, Front, EpochRecord, SourceRecord, ObsRecord, DecRecord, OutcomeRecord;
    hide StorableSource, StorableObs, StorableDec, StorableOutcome;
    SizeDecides();
    var e := ExtentOf(s, sources, outcomes);
    var rest4 := MapSeq(OutcomeRecord, outcomes);
    var rest3 := MapSeq(DecRecord, s.decided.log) + rest4;
    var rest2 := MapSeq(ObsRecord, s.observed.log) + rest3;
    var rest1 := MapSeq(SourceRecord, sources) + rest2;
    EpochFirst(s.coordinator, rest1);
    LoadableStretch(sources, SourceRecord, StorableSource, rest2);
    LoadableStretch(s.observed.log, ObsRecord, StorableObs, rest3);
    LoadableStretch(s.decided.log, DecRecord, StorableDec, rest4);
    LoadableMap(outcomes, OutcomeRecord, StorableOutcome);
    NothingStored();
    var m1, m2 := MapSeq(SourceRecord, sources[..e.sources]), MapSeq(ObsRecord, s.observed.log[..e.observations]);
    var m3, m4 := MapSeq(DecRecord, s.decided.log[..e.decisions]), MapSeq(OutcomeRecord, outcomes[..e.outcomes]);
    if e.sources < |sources| {
      assert m2 == [] && m3 == [] && m4 == [];
    } else if e.observations < |s.observed.log| {
      assert m3 == [] && m4 == [];
    } else if e.decisions < |s.decided.log| {
      assert m4 == [];
    }
  }

  lemma NothingStored()
    ensures MapSeq(ObsRecord, []) == [] && MapSeq(DecRecord, []) == [] && MapSeq(OutcomeRecord, []) == []
  {
  }

  lemma EpochFirst(epoch: u64, rest: seq<Record>)
    ensures LoadablePart([EpochRecord(epoch)] + rest) == [EpochRecord(epoch)] + LoadablePart(rest)
  {
    hide Loadable, EpochRecord, LoadRecord;
    EpochLoads(Fresh(), epoch);
    assert ([EpochRecord(epoch)] + rest)[1..] == rest;
  }

  lemma SourcesBefore(m: map<u64, SourceDescriptor>, order: seq<u64>)
    requires SourcesKeyed(m) && Enumerates(order, m)
    ensures
      var n := Front(Values(m, order), StorableSource);
      && n <= |order|
      && var k := Restricted(m, order[..n]);
         SourcesKeyed(k) && forall id <- k :: StorableSource(k[id])
  {
    hide StorableSource, Front;
    var ds := Values(m, order);
    ValuesAre(m, order);
    FrontHolds(ds, StorableSource);
    var n := Front(ds, StorableSource);
    forall id | id in order[..n]
      ensures StorableSource(m[id])
    {
      var i :| 0 <= i < n && order[i] == id;
      assert ds[i] == m[id];
    }
  }

  lemma OutcomesBefore(l: DecLog, r: DecLog, m: map<u64, Outcome>, order: seq<u64>, n: nat)
    requires OutcomesKeyed(l, m) && Enumerates(order, m)
    requires n <= Front(Values(m, order), StorableOutcome) && (n == 0 || r.byId == l.byId)
    ensures
      && n <= |order|
      && var k := Restricted(m, order[..n]);
         OutcomesKeyed(r, k) && forall id <- k :: StorableOutcome(k[id])
  {
    hide StorableOutcome, Front;
    var os := Values(m, order);
    ValuesAre(m, order);
    FrontHolds(os, StorableOutcome);
    forall id | id in order[..n]
      ensures StorableOutcome(m[id])
    {
      var i :| 0 <= i < n && order[i] == id;
      assert os[i] == m[id];
    }
  }

  lemma LogsBefore(s: State, sources: seq<SourceDescriptor>, outcomes: seq<Outcome>)
    ensures
      var e := ExtentOf(s, sources, outcomes);
      && (forall i :: 0 <= i < e.observations ==> StorableObs(s.observed.log[i]))
      && (forall i :: 0 <= i < e.decisions ==> StorableDec(s.decided.log[i]))
      && e.sources == Front(sources, StorableSource) && e.outcomes <= Front(outcomes, StorableOutcome)
      && (e.outcomes > 0 ==> e.decisions == |s.decided.log|)
  {
    hide StorableSource, StorableObs, StorableDec, StorableOutcome, Front;
    FrontHolds(s.observed.log, StorableObs);
    FrontHolds(s.decided.log, StorableDec);
  }

  /** In a reachable store, saved in these orders, the first oversized entry comes right behind `e`. */
  ghost predicate Reaches(s: State, sourceOrder: seq<u64>, outcomeOrder: seq<u64>, e: Extent) {
    && Filed(s) && Enumerates(sourceOrder, s.sources) && Enumerates(outcomeOrder, s.outcomes)
    && e == ExtentOf(s, Values(s.sources, sourceOrder), Values(s.outcomes, outcomeOrder))
    && e.sources <= |sourceOrder| && e.outcomes <= |outcomeOrder|
  }

  lemma ExtentExists(s: State, sourceOrder: seq<u64>, outcomeOrder: seq<u64>)
    requires Filed(s) && Enumerates(sourceOrder, s.sources) && Enumerates(outcomeOrder, s.outcomes)
    ensures Reaches(s, sourceOrder, outcomeOrder,
                    ExtentOf(s, Values(s.sources, sourceOrder), Values(s.outcomes, outcomeOrder)))
  {
    hide Filed, Values, ExtentOf;
    ValuesAre(s.sources, sourceOrder);
    ValuesAre(s.outcomes, outcomeOrder);
  }

  /** The smaller store is one that can be reached. */
  lemma BeforeIsFiled(s: State, sourceOrder: seq<u64>, outcomeOrder: seq<u64>, e: Extent)
    requires Reaches(s, sourceOrder, outcomeOrder, e)
    ensures
      var u := Before(s, sourceOrder, outcomeOrder, e);
      && Filed(u)
      && u.observed.log == s.observed.log[..e.observations] && u.decided.log == s.decided.log[..e.decisions]
  {
    hide StorableSource, StorableOutcome, ObsIndexed, DecIndexed;
    hide Rebuild, RebuildDec, ExtentOf, SourcesKeyed, OutcomesKeyed, Front, Values, Before, Restricted;
    LogsBefore(s, Values(s.sources, sourceOrder), Values(s.outcomes, outcomeOrder));
    FrontLogs(s, e.observations, e.decisions);
    SourcesBefore(s.sources, sourceOrder);
    OutcomesBefore(s.decided, RebuildDec(EmptyDecLog(), s.decided.log[..e.decisions]), s.outcomes, outcomeOrder,
                   e.outcomes);
    BeforeHas(s, sourceOrder, outcomeOrder, e);
  }

  /** And it is saved and read back whole. */
  lemma BeforeIsStorable(s: State, sourceOrder: seq<u64>, outcomeOrder: seq<u64>, e: Extent)
    requires Reaches(s, sourceOrder, outcomeOrder, e)
    ensures Storable(Before(s, sourceOrder, outcomeOrder, e))
  {
    hide StorableSource, StorableObs, StorableDec, StorableOutcome, ObsIndexed, DecIndexed, SourcesKeyed, OutcomesKeyed;
    hide Rebuild, RebuildDec, ExtentOf, Front, Values, Before, Restricted;
    BeforeIsFiled(s, sourceOrder, outcomeOrder, e);
    LogsBefore(s, Values(s.sources, sourceOrder), Values(s.outcomes, outcomeOrder));
    SourcesBefore(s.sources, sourceOrder);
    OutcomesBefore(s.decided, s.decided, s.outcomes, outcomeOrder, e.outcomes);
    BeforeHas(s, sourceOrder, outcomeOrder, e);
  }

  lemma BeforeHas(s: State, sourceOrder: seq<u64>, outcomeOrder: seq<u64>, e: Extent)
    requires e.sources <= |sourceOrder| && e.observations <= |s.observed.log|
    requires e.decisions <= |s.decided.log| && e.outcomes <= |outcomeOrder|
    ensures
      var u := Before(s, sourceOrder, outcomeOrder, e);
      && u.observed == Rebuild(EmptyObsLog(), s.observed.log[..e.observations])
      && u.decided == RebuildDec(EmptyDecLog(), s.decided.log[..e.decisions])
      && u.sources == Restricted(s.sources, sourceOrder[..e.sources])
      && u.outcomes == Restricted(s.outcomes, outcomeOrder[..e.outcomes])
      && u.coordinator == s.coordinator
  {
  }

  /** A log cut short, indexed anew; uncut, it is indexed as it was. */
  lemma FrontLogs(s: State, n: nat, m: nat)
    requires Indexed(s) && n <= |s.observed.log| && m <= |s.decided.log|
    ensures
      var l, r := Rebuild(EmptyObsLog(), s.observed.log[..n]), RebuildDec(EmptyDecLog(), s.decided.log[..m]);
      && ObsIndexed(l) && DecIndexed(r) && l.log == s.observed.log[..n] && r.log == s.decided.log[..m]
      && (m == |s.decided.log| ==> r.byId == s.decided.byId)
  {
    hide Rebuild, RebuildDec, Agrees, Remembers;
    hide ObsIndexed, DecIndexed;
    ObsRebuilt(s.observed);
    DecRebuilt(s.decided);
    FreshIndexed();
    RebuildHolds(EmptyObsLog(), s.observed.log[..n]);
    RebuildDecHolds(EmptyDecLog(), s.decided.log[..m]);
    assert [] + s.observed.log[..n] == s.observed.log[..n] && [] + s.decided.log[..m] == s.decided.log[..m];
    if m == |s.decided.log| {
      assert s.decided.log[..m] == s.decided.log;
      SameKeysSameDecIndex(RebuildDec(EmptyDecLog(), s.decided.log[..m]), s.decided);
    }
  }

  /** Tables restricted to the keys written. */
  lemma BeforeTables(s: State, sourceOrder: seq<u64>, outcomeOrder: seq<u64>, e: Extent)
    requires Reaches(s, sourceOrder, outcomeOrder, e)
    ensures
      var u := Before(s, sourceOrder, outcomeOrder, e);
      && Enumerates(sourceOrder[..e.sources], u.sources) && Enumerates(outcomeOrder[..e.outcomes], u.outcomes)
      && |Values(s.sources, sourceOrder)| == |sourceOrder| && |Values(s.outcomes, outcomeOrder)| == |outcomeOrder|
      && Values(u.sources, sourceOrder[..e.sources]) == Values(s.sources, sourceOrder)[..e.sources]
      && Values(s.sources, sourceOrder[..e.sources]) == Values(s.sources, sourceOrder)[..e.sources]
      && Values(u.outcomes, outcomeOrder[..e.outcomes]) == Values(s.outcomes, outcomeOrder)[..e.outcomes]
      && |u.sources| == e.sources && |u.outcomes| == e.outcomes && u.coordinator == s.coordinator
  {
    hide Rebuild, RebuildDec, Values, Filed, ExtentOf;
    BeforeHas(s, sourceOrder, outcomeOrder, e);
    var u := Before(s, sourceOrder, outcomeOrder, e);
    RestrictionEnumerated(s.sources, sourceOrder, e.sources);
    RestrictionEnumerated(s.outcomes, outcomeOrder, e.outcomes);
    ValuesOfFront(s.sources, u.sources, sourceOrder, e.sources);
    ValuesOfFront(s.outcomes, u.outcomes, outcomeOrder, e.outcomes);
    EnumerationSize(sourceOrder[..e.sources], u.sources);
    EnumerationSize(outcomeOrder[..e.outcomes], u.outcomes);
  }

  /** A storable state's file streams all its records. */
  lemma SavedIsWhole(u: State, sourceOrder: seq<u64>, outcomeOrder: seq<u64>)
    requires Storable(u) && Enumerates(sourceOrder, u.sources) && Enumerates(outcomeOrder, u.outcomes)
    ensures
      var rs := SavedRecords(u, Values(u.sources, sourceOrder), Values(u.outcomes, outcomeOrder));
      Parse(LogOf(rs)) == rs
  {
    hide Loadable, Parse, LogOf, LoadablePart, SavedRecords, Values, Storable;
    var rs := SavedRecords(u, Values(u.sources, sourceOrder), Values(u.outcomes, outcomeOrder));
    SavedRecordsLoadable(u, sourceOrder, outcomeOrder);
    forall i | 0 <= i < |rs|
      ensures |rs[i].body| < TWO64
    {
      LoadableIsBounded(rs[i]);
    }
    ParseLog(rs);
    AllLoadable(rs);
  }

  /** The file streams exactly the records of the smaller store's file. */
  lemma SameFilePart(s: State, sourceOrder: seq<u64>, outcomeOrder: seq<u64>, e: Extent)
    requires Reaches(s, sourceOrder, outcomeOrder, e)
    requires Bounded(SavedRecords(s, Values(s.sources, sourceOrder), Values(s.outcomes, outcomeOrder)))
    ensures
      var sources, outcomes := Values(s.sources, sourceOrder), Values(s.outcomes, outcomeOrder);
      && e.sources <= |sources| && e.outcomes <= |outcomes|
      && Parse(SavedFile(s, sources, outcomes)) ==
         Parse(SavedFile(Before(s, sourceOrder, outcomeOrder, e), sources[..e.sources], outcomes[..e.outcomes]))
  {
    hide Parse, LogOf, LoadablePart, SavedRecords, Filed, ExtentOf, Bounded, Storable, Values, Before;
    var sources, outcomes := Values(s.sources, sourceOrder), Values(s.outcomes, outcomeOrder);
    BeforeIsFiled(s, sourceOrder, outcomeOrder, e);
    BeforeIsStorable(s, sourceOrder, outcomeOrder, e);
    BeforeTables(s, sourceOrder, outcomeOrder, e);
    LoadableSaved(s, sources, outcomes, Before(s, sourceOrder, outcomeOrder, e));
    ParseLog(SavedRecords(s, sources, outcomes));
    SavedIsWhole(Before(s, sourceOrder, outcomeOrder, e), sourceOrder[..e.sources], outcomeOrder[..e.outcomes]);
  }

  /** Nothing is cut off exactly when everything is storable. */
  lemma FullExtent(s: State, sourceOrder: seq<u64>, outcomeOrder: seq<u64>)
    requires Enumerates(sourceOrder, s.sources) && Enumerates(outcomeOrder, s.outcomes)
    ensures
      var sources, outcomes := Values(s.sources, sourceOrder), Values(s.outcomes, outcomeOrder);
      var e := ExtentOf(s, sources, outcomes);
      && |sources| == |sourceOrder| && |outcomes| == |outcomeOrder|
      && (Storable(s) <==> e == Extent(|sources|, |s.observed.log|, |s.decided.log|, |outcomes|))
  {
    hide StorableSource, StorableObs, StorableDec, StorableOutcome, Front;
    var sources, outcomes := Values(s.sources, sourceOrder), Values(s.outcomes, outcomeOrder);
    ValuesAre(s.sources, sourceOrder);
    ValuesAre(s.outcomes, outcomeOrder);
    FrontHolds(sources, StorableSource);
    FrontHolds(s.observed.log, StorableObs);
    FrontHolds(s.decided.log, StorableDec);
    FrontHolds(outcomes, StorableOutcome);
    var e := ExtentOf(s, sources, outcomes);
    if e == Extent(|sources|, |s.observed.log|, |s.decided.log|, |outcomes|) {
      forall id <- s.sources
        ensures StorableSource(s.sources[id])
      {
        var i :| 0 <= i < |sourceOrder| && sourceOrder[i] == id;
        assert StorableSource(sources[i]);
      }
      forall id <- s.outcomes
        ensures StorableOutcome(s.outcomes[id])
      {
        var i :| 0 <= i < |outcomeOrder| && outcomeOrder[i] == id;
        assert StorableOutcome(outcomes[i]);
      }
    }
  }

  /** The part of the store written before the first oversized entry, as it is recovered. */
  function RecoveredPart(s: State, sourceOrder: seq<u64>, outcomeOrder: seq<u64>, e: Extent): (State, nat)
    requires e.sources <= |sourceOrder| && e.observations <= |s.observed.log|
    requires e.decisions <= |s.decided.log| && e.outcomes <= |outcomeOrder|
    requires forall i :: 0 <= i < |sourceOrder| ==> sourceOrder[i] in s.sources
  {
    var u := Before(s, sourceOrder, outcomeOrder, e);
    (RestoredState(u, RestoredAuthority(u, Values(s.sources, sourceOrder[..e.sources]))),
     1 + e.sources + e.observations + e.decisions + e.outcomes)
  }

  /** Saving any reachable state, whatever is in it, and recovering it gives back exactly the part
      written before the first oversized entry: the logs cut short there, the tables up to there,
      indexes and authority rebuilt from them (`BeforeIsFiled`, `BeforeTables` say what that is). */
  lemma SaveThenRecoverExactly(s: State, sourceOrder: seq<u64>, outcomeOrder: seq<u64>, e: Extent)
    requires Reaches(s, sourceOrder, outcomeOrder, e)
    requires Bounded(SavedRecords(s, Values(s.sources, sourceOrder), Values(s.outcomes, outcomeOrder)))
    ensures Recover(Fresh(), SavedFile(s, Values(s.sources, sourceOrder), Values(s.outcomes, outcomeOrder))) ==
            RecoveredPart(s, sourceOrder, outcomeOrder, e)
  {
    hide Load, Parse, SavedFile, SavedRecords, RestoredAuthority, RestoredState, Filed, ExtentOf, Bounded;
    hide Storable, Values, Before;
    BeforeIsFiled(s, sourceOrder, outcomeOrder, e);
    BeforeIsStorable(s, sourceOrder, outcomeOrder, e);
    BeforeTables(s, sourceOrder, outcomeOrder, e);
    SameFilePart(s, sourceOrder, outcomeOrder, e);
    SaveThenRecover(Before(s, sourceOrder, outcomeOrder, e), sourceOrder[..e.sources], outcomeOrder[..e.outcomes]);
  }

  /** Everything comes back, to the full count, if and only if nothing is oversized. */
  lemma FullCountExactly(s: State, sourceOrder: seq<u64>, outcomeOrder: seq<u64>)
    requires Filed(s) && Enumerates(sourceOrder, s.sources) && Enumerates(outcomeOrder, s.outcomes)
    requires Bounded(SavedRecords(s, Values(s.sources, sourceOrder), Values(s.outcomes, outcomeOrder)))
    ensures
      var n := Recover(Fresh(), SavedFile(s, Values(s.sources, sourceOrder), Values(s.outcomes, outcomeOrder))).1;
      n == 1 + |s.sources| + |s.observed.log| + |s.decided.log| + |s.outcomes| <==> Storable(s)
  {
    hide Recover, SavedFile, SavedRecords, RestoredState, RestoredAuthority, Filed, Bounded, Storable, Values, Before;
    hide ExtentOf;
    ExtentExists(s, sourceOrder, outcomeOrder);
    SaveThenRecoverExactly(s, sourceOrder, outcomeOrder,
                           ExtentOf(s, Values(s.sources, sourceOrder), Values(s.outcomes, outcomeOrder)));
    EnumerationSize(sourceOrder, s.sources);
    EnumerationSize(outcomeOrder, s.outcomes);
    FullExtent(s, sourceOrder, outcomeOrder);
  }

  // ----- an input

  /** A source whose name alone fills a body. */
  function HugeSource(): SourceDescriptor {
    SampleSource(1, 1).(name := seq(MAX_BODY, _ => 'a'))
  }

  function HugeState(cfg: Config): State {
    Run(cfg, Fresh(), [RegisterSource(HugeSource())])
  }

  lemma HugeStateIs(cfg: Config)
    ensures HugeState(cfg) == Register(Fresh(), HugeSource())
    ensures HugeState(cfg).sources == map[1 := HugeSource()] && HugeState(cfg).outcomes == map[]
    ensures HugeState(cfg).observed.log == [] && HugeState(cfg).decided.log == []
    ensures Filed(HugeState(cfg))
  {
    hide HugeSource, Orderly, Indexed, Filed;
    var calls := [RegisterSource(HugeSource())];
    HugeIsOversized();
    FreshIsKept();
    RunOrderly(cfg, Fresh(), calls);
    assert calls[1..] == [];
  }

  lemma HugeRecords(cfg: Config)
    ensures
      var s := HugeState(cfg);
      && s.sources == map[1 := HugeSource()] && s.outcomes == map[]
      && Reaches(s, [1], [], Extent(0, 0, 0, 0))
      && Bounded(SavedRecords(s, Values(s.sources, [1]), Values(s.outcomes, [])))
  {
    hide HugeState, HugeSource, Filed, StorableSource, EpochRecord, SourceRecord;
    var s := HugeState(cfg);
    HugeStateIs(cfg);
    HugeIsOversized();
    EpochIsBounded(s.coordinator);
    assert Values(s.sources, [1]) == [HugeSource()] by { assert [1][1..] == []; }
    assert MapSeq(SourceRecord, [HugeSource()]) == [SourceRecord(HugeSource())];
  }

  /** Registered and saved, it is not read back: only the epoch is. */
  lemma HugeSourceIsLost(cfg: Config)
    ensures
      var s := HugeState(cfg);
      && s.sources == map[1 := HugeSource()] && s.outcomes == map[]
      && var (t, n) := Recover(Fresh(), SavedFile(s, Values(s.sources, [1]), Values(s.outcomes, [])));
         n == 1 && t.sources == map[]
  {
    hide Recover, SavedFile, SavedRecords, Bounded, HugeState, HugeSource, RestoredAuthority, Filed, ExtentOf, Values;
    HugeRecords(cfg);
    SaveThenRecoverExactly(HugeState(cfg), [1], [], Extent(0, 0, 0, 0));
  }

  lemma HugeIsOversized()
    ensures !StorableSource(HugeSource()) && HugeSource().sourceId == 1
    ensures |SourceRecord(HugeSource()).body| < TWO64
  {
  }

  lemma EpochIsBounded(epoch: u64)
    ensures |EpochRecord(epoch).body| < TWO64
  {
  }
}
