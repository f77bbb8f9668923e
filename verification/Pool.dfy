/** Any number of connections served at once over one observatory. Each thread in turn looks at the
    running flag, waits for a frame, and performs it as one atomic step; a schedule says whose
    turn it is. */
module Pool {
  import opened Base
  import opened Store
  import opened Runs
  import opened AuthorityLaws
  import opened Server
  import P = Protocol

  /** A connection: the frames still to come, and whether its thread has passed the running check
      and waits for the next one. */
  datatype Conn = Conn(queue: seq<P.Frame>, waiting: bool)

  /** `failed` when an undecodable payload ended the whole process. */
  datatype Collector = Collector(store: State, running: bool, failed: bool, conns: seq<Conn>)

  /** The collector with one connection per byte stream. */
  function Open(s: State, streams: seq<seq<byte>>): Collector {
    Collector(s, true, false, seq(|streams|, i requires 0 <= i < |streams| => Conn(P.Frames(streams[i]), false)))
  }

  /** One turn of connection `i`: pass the check, or receive and perform a frame. */
  function Turn(cfg: Config, c: Collector, i: nat): Collector {
    if c.failed || i >= |c.conns| then c
    else
      var conn := c.conns[i];
      if !conn.waiting then
        if c.running then c.(conns := c.conns[i := conn.(waiting := true)]) else c
      else if conn.queue == [] then c
      else
        var rest := c.conns[i := Conn(conn.queue[1..], false)];
        match RequestOf(conn.queue[0])
        case Err(_) => c.(failed := true)
        case Ok(Stop) => c.(running := false, conns := rest)
        case Ok(r) => c.(store := After(cfg, c.store, r), conns := rest)
  }

  function Schedule(cfg: Config, c: Collector, turns: seq<nat>): Collector
    decreases |turns|
  {
    if turns == [] then c else Schedule(cfg, Turn(cfg, c, turns[0]), turns[1..])
  }

  // ----- every schedule is a run

  /** The call connection `i` makes in its turn, if any. */
  function CallMade(c: Collector, i: nat): seq<Call> {
    if c.failed || i >= |c.conns| || !c.conns[i].waiting || c.conns[i].queue == [] then []
    else CallsOf(c.conns[i].queue[..1])
  }

  /** The calls that frames ask for, in order. */
  function CallsOf(frames: seq<P.Frame>): seq<Call> {
    if frames == [] then []
    else
      var r := RequestOf(frames[0]);
      (if r.Ok? && r.value.Apply? then [r.value.call] else []) + CallsOf(frames[1..])
  }

  function CallsMade(cfg: Config, c: Collector, turns: seq<nat>): seq<Call>
    decreases |turns|
  {
    if turns == [] then [] else CallMade(c, turns[0]) + CallsMade(cfg, Turn(cfg, c, turns[0]), turns[1..])
  }

  lemma OneCall(frames: seq<P.Frame>)
    requires frames != []
    ensures CallsOf(frames) == CallsOf(frames[..1]) + CallsOf(frames[1..])
    ensures CallsOf(frames[..1]) ==
            var r := RequestOf(frames[0]); if r.Ok? && r.value.Apply? then [r.value.call] else []
    ensures NoRestore(CallsOf(frames[..1]))
  {
    hide RequestOf;
    RequestsDoNotRestore(frames[0]);
    assert frames[..1][1..] == [];
  }

  lemma TurnIsRun(cfg: Config, c: Collector, i: nat)
    ensures Turn(cfg, c, i).store == Run(cfg, c.store, CallMade(c, i)) && NoRestore(CallMade(c, i))
  {
    hide RequestOf, Step;
    if CallMade(c, i) != [] {
      OneCall(c.conns[i].queue);
      assert CallMade(c, i)[1..] == [];
    } else if !c.failed && i < |c.conns| && c.conns[i].waiting && c.conns[i].queue != [] {
      OneCall(c.conns[i].queue);
    }
  }

  lemma {:induction false} RunConcat(cfg: Config, s: State, a: seq<Call>, b: seq<Call>)
    ensures Run(cfg, s, a + b) == Run(cfg, Run(cfg, s, a), b)
    decreases |a|
  {
    hide Step;
    if a == [] {
      assert a + b == b;
    } else {
      assert (a + b)[1..] == a[1..] + b;
      RunConcat(cfg, Step(cfg, s, a[0]), a[1..], b);
    }
  }

  /** However many connections and whatever their frames: at any moment the store is the result of
      a run of the calls made so far, none of them a recovery. So everything proved of runs holds
      of the collector under every interleaving. */
  lemma {:induction false} ScheduleIsRun(cfg: Config, c: Collector, turns: seq<nat>)
    ensures Schedule(cfg, c, turns).store == Run(cfg, c.store, CallsMade(cfg, c, turns))
    ensures NoRestore(CallsMade(cfg, c, turns))
    decreases |turns|
  {
    hide Turn, CallMade, Run;
    if turns == [] {
      NothingRun(cfg, c.store);
    } else {
      var next := Turn(cfg, c, turns[0]);
      TurnIsRun(cfg, c, turns[0]);
      ScheduleIsRun(cfg, next, turns[1..]);
      RunConcat(cfg, c.store, CallMade(c, turns[0]), CallsMade(cfg, next, turns[1..]));
    }
  }

  lemma NothingRun(cfg: Config, s: State)
    ensures Run(cfg, s, []) == s
  {
  }

  /** With enforcement on, the collector's log respects source authority under every schedule. */
  lemma ScheduleAuthoritative(cfg: Config, s: State, streams: seq<seq<byte>>, turns: seq<nat>)
    requires Enforcing(cfg) && Authoritative(s.observed.log, s.authority)
    ensures var t := Schedule(cfg, Open(s, streams), turns).store; Authoritative(t.observed.log, t.authority)
  {
    hide Authoritative, Schedule, Run;
    var c := Open(s, streams);
    ScheduleIsRun(cfg, c, turns);
    RunAuthoritative(cfg, s, CallsMade(cfg, c, turns));
  }

  // ----- confluence over connections

  /** The calls still queued, connection by connection. */
  function Pending(conns: seq<Conn>): seq<Call> {
    if conns == [] then [] else CallsOf(conns[0].queue) + Pending(conns[1..])
  }

  /** No frame queued anywhere is undecodable or a shutdown. */
  predicate Orderly(conns: seq<Conn>) {
    forall i, j :: 0 <= i < |conns| && 0 <= j < |conns[i].queue| ==> Serviceable(conns[i].queue[j])
  }

  predicate Serviceable(f: P.Frame) {
    RequestOf(f).Ok? && !RequestOf(f).value.Stop?
  }

  predicate Drained(conns: seq<Conn>) {
    forall i :: 0 <= i < |conns| ==> conns[i].queue == []
  }

  lemma {:induction false} PendingTakes(conns: seq<Conn>, i: nat, conn: Conn, taken: seq<Call>)
    requires i < |conns| && CallsOf(conns[i].queue) == taken + CallsOf(conn.queue)
    ensures multiset(Pending(conns)) == multiset(taken) + multiset(Pending(conns[i := conn]))
    decreases |conns|
  {
    hide CallsOf;
    var after := conns[i := conn];
    if i == 0 {
      assert after[1..] == conns[1..];
    } else {
      assert after[1..] == conns[1..][i - 1 := conn];
      PendingTakes(conns[1..], i - 1, conn, taken);
    }
  }

  lemma {:induction false} NothingPending(conns: seq<Conn>)
    requires Drained(conns)
    ensures Pending(conns) == []
    decreases |conns|
  {
    if conns == [] {
    } else {
      NothingPending(conns[1..]);
    }
  }

  /** Calls made and calls pending are conserved by a turn. */
  lemma TurnConserves(cfg: Config, c: Collector, i: nat)
    requires Orderly(c.conns) && !c.failed
    ensures var t := Turn(cfg, c, i);
            && Orderly(t.conns) && !t.failed
            && multiset(Pending(c.conns)) == multiset(CallMade(c, i)) + multiset(Pending(t.conns))
  {
    hide RequestOf, After, CallsOf;
    if i < |c.conns| {
      var conn := c.conns[i];
      if !conn.waiting {
        PendingTakes(c.conns, i, conn.(waiting := true), []);
      } else if conn.queue != [] {
        assert Serviceable(conn.queue[0]);
        OneCall(conn.queue);
        PendingTakes(c.conns, i, Conn(conn.queue[1..], false), CallsOf(conn.queue[..1]));
      }
    }
  }

  lemma {:induction false} ScheduleConserves(cfg: Config, c: Collector, turns: seq<nat>)
    requires Orderly(c.conns) && !c.failed
    ensures var t := Schedule(cfg, c, turns);
            multiset(Pending(c.conns)) == multiset(CallsMade(cfg, c, turns)) + multiset(Pending(t.conns))
    decreases |turns|
  {
    hide Turn, Pending, CallMade, Orderly;
    if turns == [] {
    } else {
      TurnConserves(cfg, c, turns[0]);
      ScheduleConserves(cfg, Turn(cfg, c, turns[0]), turns[1..]);
    }
  }

  /** Confluence over connections: when clients send registrations and well-formed observations
      with fresh distinct ids (and any epochs, decisions, outcomes and status queries), every
      schedule that serves all of them ends with the same trusted generation of every source: the
      maximum of the initial one and all those sent, whatever was rejected on the way. */
  lemma ScheduleConfluent(cfg: Config, s: State, streams: seq<seq<byte>>, turns: seq<nat>, id: u64)
    requires Orderly(Open(s, streams).conns) && Drained(Schedule(cfg, Open(s, streams), turns).conns)
    requires Fit(s.observed, Pending(Open(s, streams).conns)) && DistinctIds(Pending(Open(s, streams).conns))
    ensures CurrentGeneration(Schedule(cfg, Open(s, streams), turns).store.authority, id) ==
            MaxSent(CurrentGeneration(s.authority, id), Pending(Open(s, streams).conns), id)
  {
    hide Schedule, Run, Fit, DistinctIds, Orderly;
    var c := Open(s, streams);
    var sent, made := Pending(c.conns), CallsMade(cfg, c, turns);
    ScheduleIsRun(cfg, c, turns);
    ScheduleConserves(cfg, c, turns);
    NothingPending(Schedule(cfg, c, turns).conns);
    assert multiset(made) == multiset(sent);
    PermutationKeepsFit(s.observed, sent, made);
    RunTakesMaximum(cfg, s, made, id);
    SameCallsSameMaximum(CurrentGeneration(s.authority, id), made, sent, id);
  }
}
