/** The collector: what a received frame asks for, how it is answered, the loop that serves one
    connection, and what any number of connections served together can do to the store. */
module Server {
  import opened Base
  import opened Model
  import opened Serialize
  import opened Records
  import opened RecordIO
  import opened Store
  import opened Runs
  import opened AuthorityLaws
  import O = Observatory
  import P = Protocol

  datatype Request = Apply(call: Call) | Query(source: u64) | Stop | Nothing

  /** What a frame asks for. A payload that does not decode throws out of the serving thread. */
  function RequestOf(f: P.Frame): Result<Request, CodecError> {
    if f.kind == P.REGISTER_SOURCE then
      var (d, _) :- GetSourceDescriptor(f.payload, 0);
      Ok(Apply(RegisterSource(d)))
    else if f.kind == P.COORDINATOR_EPOCH then
      var (e, _) :- GetU64(f.payload, 0);
      Ok(Apply(CoordinatorEpoch(e)))
    else if f.kind == P.OBSERVATION then
      var (o, _) :- GetObservation(f.payload, 0);
      Ok(Apply(Observe(o)))
    else if f.kind == P.DECISION then
      var (d, _) :- GetDecision(f.payload, 0);
      Ok(Apply(Decide(d)))
    else if f.kind == P.OUTCOME then
      var (o, _) :- GetOutcome(f.payload, 0);
      Ok(Apply(Finish(o)))
    else if f.kind == P.STATUS then
      var (id, _) :- GetU64(f.payload, 0);
      Ok(Query(id))
    else if f.kind == P.SHUTDOWN then Ok(Stop)
    else Ok(Nothing)
  }

  /** The reply frame: an acknowledgement saying what became of the request, or the coordinator
      epoch and the trusted generation asked for. */
  datatype Answer = Registered | EpochSet | Verdict(reply: Reply) | Status(epoch: u64, generation: u64) | Acknowledged

  function AnswerTo(cfg: Config, s: State, r: Request): Answer
    requires !r.Stop? && (r.Apply? ==> !r.call.Restore?)
  {
    match r
    case Query(id) => Status(s.coordinator, CurrentGeneration(s.authority, id))
    case Nothing => Acknowledged
    case Apply(c) =>
      match c
      case RegisterSource(_) => Registered
      case CoordinatorEpoch(_) => EpochSet
      case Observe(o) => Verdict(Ingest(cfg, s, o).1)
      case Decide(d) => Verdict(IngestDecision(cfg, s, d).1)
      case Finish(o) => Verdict(IngestOutcome(s, o).1)
  }

  /** The store after a request. */
  function After(cfg: Config, s: State, r: Request): State {
    if r.Apply? then Step(cfg, s, r.call) else s
  }

  lemma RequestsDoNotRestore(f: P.Frame)
    ensures RequestOf(f).Ok? && RequestOf(f).value.Apply? ==> !RequestOf(f).value.call.Restore?
  {
    hide GetSourceDescriptor, GetObservation, GetDecision, GetOutcome, GetU64;
  }

  /** How a connection's service ends: the peer closed or broke framing, a shutdown frame came,
      or a payload did not decode. */
  datatype End = Closed | ShutDown | Threw(error: CodecError)

  /** Serving frames in order: the final store, the answers sent, and how it ended. */
  function Serve(cfg: Config, s: State, frames: seq<P.Frame>, sent: seq<Answer>): (State, seq<Answer>, End)
    decreases |frames|
  {
    if frames == [] then (s, sent, Closed)
    else
      RequestsDoNotRestore(frames[0]);
      match RequestOf(frames[0])
      case Err(e) => (s, sent, Threw(e))
      case Ok(Stop) => (s, sent, ShutDown)
      case Ok(r) => Serve(cfg, After(cfg, s, r), frames[1..], sent + [AnswerTo(cfg, s, r)])
  }

  /** Decodes the payload of a frame by its type. */
  method ReadRequest(f: P.Frame) returns (res: Result<Request, CodecError>)
    ensures res == RequestOf(f)
  {
    hide GetSourceDescriptor, GetObservation, GetDecision, GetOutcome, GetU64;
    var r := new BinReader(f.payload);
    if f.kind == P.REGISTER_SOURCE {
      var d :- ReadSourceDescriptor(r);
      return Ok(Apply(RegisterSource(d)));
    } else if f.kind == P.COORDINATOR_EPOCH {
      var e :- r.U64();
      return Ok(Apply(CoordinatorEpoch(e)));
    } else if f.kind == P.OBSERVATION {
      var o :- ReadObservation(r);
      return Ok(Apply(Observe(o)));
    } else if f.kind == P.DECISION {
      var d :- ReadDecision(r);
      return Ok(Apply(Decide(d)));
    } else if f.kind == P.OUTCOME {
      var o :- ReadOutcome(r);
      return Ok(Apply(Finish(o)));
    } else if f.kind == P.STATUS {
      var id :- r.U64();
      return Ok(Query(id));
    } else if f.kind == P.SHUTDOWN {
      return Ok(Stop);
    }
    return Ok(Nothing);
  }

  /** Performs a request on the shared observatory and answers it. */
  method Perform(obs: O.Observatory, r: Request) returns (a: Answer)
    requires obs.Valid() && !r.Stop? && (r.Apply? ==> !r.call.Restore?)
    modifies obs
    ensures obs.Valid() && obs.View() == After(obs.cfg, old(obs.View()), r)
    ensures a == AnswerTo(obs.cfg, old(obs.View()), r)
  {
    hide ObsIndexed, DecIndexed, Ingest, IngestDecision, IngestOutcome, Register;
    match r {
      case Query(id) =>
        var g := obs.CurrentSourceGeneration(id);
        a := Status(obs.coordinator, g);
      case Nothing => a := Acknowledged;
      case Apply(c) =>
        match c {
          case RegisterSource(d) => obs.RegisterSource(d); a := Registered;
          case CoordinatorEpoch(e) => obs.SetCoordinatorEpoch(e); a := EpochSet;
          case Observe(o) => var reply := obs.Ingest(o); a := Verdict(reply);
          case Decide(d) => var reply := obs.IngestDecision(d); a := Verdict(reply);
          case Finish(o) => var reply := obs.IngestOutcome(o); a := Verdict(reply);
        }
    }
  }

  /** Serves one connection to its end, while no other touches the store: receives frame after
      frame from the byte stream, performs and answers them. */
  method ServeConnection(conn: P.Socket, obs: O.Observatory) returns (sent: seq<Answer>, end: End)
    requires obs.Valid() && conn.open
    modifies conn, obs
    ensures obs.Valid()
    ensures (obs.View(), sent, end) == Serve(obs.cfg, old(obs.View()), P.Frames(old(conn.incoming)), [])
  {
    hide ObsIndexed, DecIndexed, RequestOf, P.Decode, After;
    sent := [];
    ghost var goal := Serve(obs.cfg, obs.View(), P.Frames(conn.incoming), []);
    while true
      invariant obs.Valid() && conn.open
      invariant Serve(obs.cfg, obs.View(), P.Frames(conn.incoming), sent) == goal
      decreases |conn.incoming|
    {
      ghost var stream := conn.incoming;
      var ok, f := P.RecvFrame(conn);
      if !ok {
        assert P.Frames(stream) == [];
        return sent, Closed;
      }
      P.FramesStep(stream, f, P.Decode(stream).value.1);
      FrameShrinks(stream);
      assert P.Frames(stream)[1..] == P.Frames(conn.incoming);
      var request := ReadRequest(f);
      if request.Err? { return sent, Threw(request.error); }
      if request.value.Stop? { return sent, ShutDown; }
      RequestsDoNotRestore(f);
      var a := Perform(obs, request.value);
      sent := sent + [a];
    }
  }

  lemma FrameShrinks(stream: seq<byte>)
    requires P.Decode(stream).Ok?
    ensures 0 < P.Decode(stream).value.1 <= |stream|
  {
  }

  /** What a client puts into a frame is what the collector understands, up to erasure. */
  lemma RequestReads(d: SourceDescriptor, o: Obs)
    ensures FitsSourceDescriptor(d) ==>
              RequestOf(P.Frame(P.REGISTER_SOURCE, PutSourceDescriptor([], d))) ==
                Ok(Apply(RegisterSource(EraseSourceDescriptor(d))))
    ensures FitsObservation(o) ==>
              RequestOf(P.Frame(P.OBSERVATION, PutObservation([], o))) == Ok(Apply(Observe(EraseObservation(o))))
  {
    hide GetSourceDescriptor, PutSourceDescriptor, EraseSourceDescriptor, GetObservation, PutObservation,
      EraseObservation, FitsObservation;
    SourceDescriptorReads([], d, PutSourceDescriptor([], d));
    ObservationReads([], o, PutObservation([], o));
  }
}
