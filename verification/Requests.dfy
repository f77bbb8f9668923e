/** What the bytes of a frame make the collector do: from the type and the encoded payload to the change
    of the store and the answer sent. */
module Requests {
  import opened Base
  import opened Model
  import opened Serialize
  import opened Records
  import opened RecordLayout
  import opened Store
  import opened Runs
  import opened Server
  import Admission
  import P = Protocol

  /** Types 1 to 4 carry a registration, an observation, a decision and an outcome, 6 an epoch and 10 a
      source asked about, each in its record format; bytes behind it are ignored. Type 7 ends the
      service; the other types ask for nothing. */
  lemma RequestsAre(d: SourceDescriptor, o: Obs, c: Dec, u: Outcome, n: u64, kind: byte, rest: seq<byte>)
    ensures FitsSourceDescriptor(d) ==>
              RequestOf(P.Frame(1, SourceDescriptorBytes(d) + rest)) ==
                Ok(Apply(RegisterSource(EraseSourceDescriptor(d))))
    ensures FitsObservation(o) ==>
              RequestOf(P.Frame(2, ObservationBytes(o) + rest)) == Ok(Apply(Observe(EraseObservation(o))))
    ensures FitsDecision(c) ==>
              RequestOf(P.Frame(3, DecisionBytes(c) + rest)) == Ok(Apply(Decide(EraseDecision(c))))
    ensures FitsOutcome(u) ==> RequestOf(P.Frame(4, OutcomeBytes(u) + rest)) == Ok(Apply(Finish(EraseOutcome(u))))
    ensures RequestOf(P.Frame(6, Long(n) + rest)) == Ok(Apply(CoordinatorEpoch(n)))
    ensures RequestOf(P.Frame(10, Long(n) + rest)) == Ok(Query(n))
    ensures RequestOf(P.Frame(7, rest)) == Ok(Stop)
    ensures kind !in {1, 2, 3, 4, 6, 7, 10} ==> RequestOf(P.Frame(kind, rest)) == Ok(Nothing)
  {
    hide GetSourceDescriptor, GetObservation, GetDecision, GetOutcome, GetU64, SourceDescriptorBytes, ObservationBytes,
      DecisionBytes, OutcomeBytes, Long, EraseSourceDescriptor, EraseObservation, EraseDecision, EraseOutcome,
      FitsSourceDescriptor, FitsObservation, FitsDecision, FitsOutcome, PutSourceDescriptor, PutObservation,
      PutDecision, PutOutcome, PutU64;
    SourceDescriptorBytesIs([], d);
    assert [] + SourceDescriptorBytes(d) == SourceDescriptorBytes(d);
    SourceDescriptorReads([], d, SourceDescriptorBytes(d) + rest);
    ObservationBytesIs([], o);
    assert [] + ObservationBytes(o) == ObservationBytes(o);
    ObservationReads([], o, ObservationBytes(o) + rest);
    DecisionBytesIs([], c);
    assert [] + DecisionBytes(c) == DecisionBytes(c);
    DecisionReads([], c, DecisionBytes(c) + rest);
    OutcomeBytesIs([], u);
    assert [] + OutcomeBytes(u) == OutcomeBytes(u);
    OutcomeReads([], u, OutcomeBytes(u) + rest);
    LongIs([], n);
    assert [] + Long(n) == Long(n);
    U64Reads([], n, Long(n) + rest);
  }

  lemma ServeOne(cfg: Config, s: State, f: P.Frame, r: Request)
    requires RequestOf(f) == Ok(r) && !r.Stop? && (r.Apply? ==> !r.call.Restore?)
    ensures Serve(cfg, s, [f], []) == (After(cfg, s, r), [AnswerTo(cfg, s, r)], Closed)
  {
    hide RequestOf, After, AnswerTo;
    assert [f][1..] == [];
    assert [] + [AnswerTo(cfg, s, r)] == [AnswerTo(cfg, s, r)];
  }

  /** A registration frame is answered as registered; the source's generation is then the greater of the
      trusted and the sent one, without a boot if that is news, and its descriptor the one sent. */
  lemma RegistrationServed(cfg: Config, s: State, d: SourceDescriptor)
    requires FitsSourceDescriptor(d)
    ensures
      var (t, sent, end) := Serve(cfg, s, [P.Frame(1, SourceDescriptorBytes(d))], []);
      var trusted := Admission.Generation(s.authority, d.sourceId);
      && sent == [Registered] && end == Closed
      && Admission.Generation(t.authority, d.sourceId) == (if d.generation > trusted then d.generation else trusted)
      && (d.generation > trusted ==> Admission.Boot(t.authority, d.sourceId) == 0)
      && d.sourceId in t.sources && t.sources[d.sourceId] == EraseSourceDescriptor(d)
      && t == s.(authority := t.authority, sources := t.sources)
  {
    hide RequestOf, SourceDescriptorBytes, FitsSourceDescriptor, Serve, Register;
    var e := EraseSourceDescriptor(d);
    RegistrationRequest(d);
    ServeOne(cfg, s, P.Frame(1, SourceDescriptorBytes(d)), Apply(RegisterSource(e)));
    Admission.RegistrationEffect(s, e);
  }

  lemma RegistrationRequest(d: SourceDescriptor)
    requires FitsSourceDescriptor(d)
    ensures RequestOf(P.Frame(1, SourceDescriptorBytes(d))) == Ok(Apply(RegisterSource(EraseSourceDescriptor(d))))
  {
    hide GetSourceDescriptor, SourceDescriptorBytes, PutSourceDescriptor, EraseSourceDescriptor, FitsSourceDescriptor;
    SourceDescriptorBytesIs([], d);
    assert [] + SourceDescriptorBytes(d) == SourceDescriptorBytes(d);
    SourceDescriptorReads([], d, SourceDescriptorBytes(d));
  }

  lemma ObservationRequest(o: Obs)
    requires FitsObservation(o)
    ensures RequestOf(P.Frame(2, ObservationBytes(o))) == Ok(Apply(Observe(EraseObservation(o))))
  {
    hide GetObservation, ObservationBytes, PutObservation, EraseObservation, FitsObservation;
    ObservationBytesIs([], o);
    assert [] + ObservationBytes(o) == ObservationBytes(o);
    ObservationReads([], o, ObservationBytes(o));
  }

  /** An observation frame is answered with the verdict on what its bytes carry, and logged exactly on
      acceptance. */
  lemma ObservationServed(cfg: Config, s: State, o: Obs)
    requires Indexed(s) && FitsObservation(o)
    ensures
      var (t, sent, end) := Serve(cfg, s, [P.Frame(2, ObservationBytes(o))], []);
      var e := EraseObservation(o);
      var verdict := Admission.Verdict(Admission.EarlyChecks(cfg, s, e) + Admission.LateChecks(cfg, s, e), s.events);
      && sent == [Verdict(verdict)] && end == Closed
      && t.observed.log == s.observed.log + (if verdict.Accepted? then [e.(lifecycle := 2)] else [])
  {
    hide RequestOf, ObservationBytes, FitsObservation, EraseObservation, Serve, Ingest, ObsIndexed, DecIndexed,
      Admission.EarlyChecks, Admission.LateChecks, Admission.Verdict;
    var e := EraseObservation(o);
    ObservationRequest(o);
    ServeOne(cfg, s, P.Frame(2, ObservationBytes(o)), Apply(Observe(e)));
    Admission.ObservationVerdict(cfg, s, e);
    Admission.ObservationEffect(cfg, s, e);
  }

  lemma DecisionRequest(d: Dec)
    requires FitsDecision(d)
    ensures RequestOf(P.Frame(3, DecisionBytes(d))) == Ok(Apply(Decide(EraseDecision(d))))
  {
    hide GetDecision, DecisionBytes, PutDecision, EraseDecision, FitsDecision;
    DecisionBytesIs([], d);
    assert [] + DecisionBytes(d) == DecisionBytes(d);
    DecisionReads([], d, DecisionBytes(d));
  }

  /** A decision frame likewise. */
  lemma DecisionServed(cfg: Config, s: State, d: Dec)
    requires Indexed(s) && FitsDecision(d)
    ensures
      var (t, sent, end) := Serve(cfg, s, [P.Frame(3, DecisionBytes(d))], []);
      var e := EraseDecision(d);
      var verdict := Admission.Verdict(Admission.DecisionChecks(cfg, s, e), s.events);
      && sent == [Verdict(verdict)] && end == Closed
      && t.decided.log == s.decided.log + (if verdict.Accepted? then [e] else [])
  {
    hide RequestOf, DecisionBytes, FitsDecision, EraseDecision, Serve, IngestDecision, ObsIndexed, DecIndexed,
      Admission.DecisionChecks, Admission.Verdict;
    var e := EraseDecision(d);
    DecisionRequest(d);
    ServeOne(cfg, s, P.Frame(3, DecisionBytes(d)), Apply(Decide(e)));
    Admission.DecisionVerdict(cfg, s, e);
    Admission.DecisionEffect(cfg, s, e);
  }

  lemma OutcomeRequest(o: Outcome)
    requires FitsOutcome(o)
    ensures RequestOf(P.Frame(4, OutcomeBytes(o))) == Ok(Apply(Finish(EraseOutcome(o))))
  {
    hide GetOutcome, OutcomeBytes, PutOutcome, EraseOutcome, FitsOutcome;
    OutcomeBytesIs([], o);
    assert [] + OutcomeBytes(o) == OutcomeBytes(o);
    OutcomeReads([], o, OutcomeBytes(o));
  }

  /** An outcome frame is answered with its verdict and, on acceptance, filed under its decision. */
  lemma OutcomeServed(cfg: Config, s: State, o: Outcome)
    requires Indexed(s) && FitsOutcome(o)
    ensures
      var (t, sent, end) := Serve(cfg, s, [P.Frame(4, OutcomeBytes(o))], []);
      var e := EraseOutcome(o);
      var verdict := Admission.Verdict(Admission.OutcomeChecks(s, e), s.events);
      && sent == [Verdict(verdict)] && end == Closed
      && t.outcomes == (if verdict.Accepted? then s.outcomes[e.decisionId := e] else s.outcomes)
  {
    hide RequestOf, OutcomeBytes, FitsOutcome, EraseOutcome, Serve, IngestOutcome, ObsIndexed, DecIndexed,
      Admission.OutcomeChecks, Admission.Verdict;
    var e := EraseOutcome(o);
    OutcomeRequest(o);
    ServeOne(cfg, s, P.Frame(4, OutcomeBytes(o)), Apply(Finish(e)));
    Admission.OutcomeVerdict(s, e);
  }

  lemma QueryRequest(id: u64)
    ensures RequestOf(P.Frame(10, Long(id))) == Ok(Query(id))
  {
    hide GetU64, Long, PutU64;
    LongIs([], id);
    assert [] + Long(id) == Long(id);
    U64Reads([], id, Long(id));
  }

  /** A status frame is answered with the epoch in force and the generation trusted for the source, 0 if
      it is unknown, and changes nothing. */
  lemma StatusServed(cfg: Config, s: State, id: u64)
    ensures Serve(cfg, s, [P.Frame(10, Long(id))], []) ==
            (s, [Status(s.coordinator, Admission.Generation(s.authority, id))], Closed)
  {
    hide RequestOf, Long, Serve;
    QueryRequest(id);
    ServeOne(cfg, s, P.Frame(10, Long(id)), Query(id));
  }
}
