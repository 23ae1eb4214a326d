/** That every operation does its own job: before it is over, a goroutine has been through the sections that its
    request calls for, with its own arguments, in order. */
module DaemonJobs {
  import opened Wire
  import opened Matching
  import opened Coalescing
  import opened Credentials
  import opened Session
  import opened Daemon

  /** A point of the program under the lock. */
  datatype Stop = AtR(r: RPoint) | AtW(w: WPoint)

  /** The sections a request calls for. */
  function Itinerary(job: Job): (stops: seq<Stop>) {
    match job
    case RetrieveJob(_, _) => [AtR(Check(job)), AtR(Scan(job, [])), AtR(Serve(job))]
    case ListJob(_) => [AtR(Check(job)), AtR(Scan(job, [])), AtR(Look)]
    case MaintainJob(_) => [AtR(Check(job)), AtR(Scan(job, [])), AtR(Look)]
    case LookJob => [AtR(Look)]
    case StoreJob(wire) => [AtW(StoreIt(wire))]
    case InitJob(p) => [AtW(InitIt(p))]
    case RemoveJob(client, server) => [AtW(RemoveIt(client, server))]
  }

  /** Those after the sweep. */
  function Serving(job: Job): (stops: seq<Stop>) {
    if job.RetrieveJob? then [AtR(Serve(job))] else [AtR(Look)]
  }

  function Sweeping(job: Job): (stops: seq<Stop>) { [AtR(Scan(job, []))] + Serving(job) }

  /** Run looks up its next wake-up once the context is given back. */
  function Afterwards(out: Outcome): (stops: seq<Stop>) { if out.Passed? then [AtR(Look)] else [] }

  /** Those still ahead from a point without the lock. */
  function AheadOut(o: OutPoint): (stops: seq<Stop>) {
    match o
    case Start(job) => Itinerary(job)
    case Checked(job, _, _) => Sweeping(job)
    case Exchange(job, _) => Sweeping(job)
    case LogFailure(job) => Sweeping(job)
    case ToSweep(job) => Sweeping(job)
    case ToServe(job) => Serving(job)
    case Done(out) => Afterwards(out)
  }

  /** Those still ahead from a point of a read section, that point included. */
  function AheadR(r: RPoint): (stops: seq<Stop>) {
    match r
    case Check(job) => [AtR(r)] + Sweeping(job)
    case Note(job) => Sweeping(job)
    case Scan(job, stale) => if stale == [] then Sweeping(job) else Serving(job)
    case Evict(job, _) => Serving(job)
    case Serve(job) => [AtR(r)]
    case Look => [AtR(r)]
    case _ => []
  }

  function AheadW(w: WPoint): (stops: seq<Stop>) {
    match w
    case Reload(job) => Sweeping(job)
    case Loading(job, _, _) => Sweeping(job)
    case RenewBegin(job) => Sweeping(job)
    case RenewEnd(job, _, _) => Sweeping(job)
    case SwapRemove(_, why) => if why.ForStore? then [] else Sweeping(why.job)
    case SwapStore(_, why) => if why.ForStore? then [] else Sweeping(why.job)
    case _ => [AtW(w)]
  }

  function Ahead(pc: Pc): (stops: seq<Stop>) {
    match pc
    case WantSlot(job) => Itinerary(job)
    case HaveSlot(job) => Itinerary(job)
    case Creating(job) => Itinerary(job)
    case Working(_, b) => (
      match b
      case Out(o) => AheadOut(o)
      case WantR(r) => AheadR(r)
      case InR(_, r) => AheadR(r)
      case WantW(w) => AheadW(w)
      case PendW(w) => AheadW(w)
      case InW(w) => AheadW(w))
    case Handing(_, out) => Afterwards(out)
    case Returned(out) => Afterwards(out)
    case Finished(_) => []
  }

  /** The goroutine stands at that point, with the lock. */
  predicate At(s: State, t: Tid, stop: Stop) {
    && t in s.threads && s.threads[t].Working?
    && match stop
       case AtR(r) => s.threads[t].body.InR? && s.threads[t].body.r == r
       case AtW(w) => s.threads[t].body.InW? && s.threads[t].body.w == w
  }

  /** It was refused a context. */
  predicate Denied(s: State, t: Tid, a: Action) {
    a.Step? && a.t == t && t in s.threads && s.threads[t].Creating? && !a.c.ok
  }

  /** During the run the goroutine stands at each of the stops, in that order, unless it is refused a context. */
  ghost predicate Visits(s: State, run: seq<Action>, t: Tid, stops: seq<Stop>)
    requires Legal(s, run)
    decreases |run|, |stops|
  {
    || stops == []
    || (At(s, t, stops[0]) && Visits(s, run, t, stops[1..]))
    || (run != [] && (Denied(s, t, run[0]) || Visits(Do(s, run[0]), run[1..], t, stops)))
  }

  // ---- One step ----

  /** A step leaves the itinerary ahead as it is, or takes the stop it was made at off it. */
  ghost predicate Follows(s: State, t: Tid, pc: Pc, pc': Pc) {
    || Ahead(pc') == Ahead(pc)
    || (Ahead(pc) != [] && At(s, t, Ahead(pc)[0]) && Ahead(pc') == Ahead(pc)[1..])
  }

  lemma OutFollows(o: OutPoint, c: Choice)
    ensures match OutStep(o, c)
            case GoR(r) => AheadR(r) == AheadOut(o)
            case GoW(w) => AheadW(w) == AheadOut(o)
            case Return(out) => AheadOut(o) == Afterwards(out)
  {
  }

  lemma ReadFollows(minLife: int, d: Data, r: RPoint, c: Choice)
    requires !IsFlightPoint(r)
    ensures var n := ReadStep(minLife, d, r, c).1;
            var ahead := if n.StayR? then AheadR(n.r) else AheadOut(n.o);
            ahead == AheadR(r) || (AheadR(r) != [] && AheadR(r)[0] == AtR(r) && ahead == AheadR(r)[1..])
  {
    hide Reloads, RenewWanted, Stale, RemoveExact;
  }

  lemma FlightFollows(t: Tid, e: nat, d: Data, fl: Flights, r: RPoint, c: Choice)
    requires IsFlightPoint(r)
    ensures var n := FlightStep(t, e, d, fl, r, c).2;
            (if n.StayR? then AheadR(n.r) else AheadOut(n.o)) == []
    ensures AheadR(r) == [] || AheadR(r) == [AtR(r)]
  {
    hide NoUsableTgt, Amend, Result, MatchKey;
  }

  lemma WriteFollows(t: Tid, minLife: int, d: Data, h: History, w: WPoint, c: Choice)
    ensures var n := WriteStep(t, minLife, d, h, w, c).2;
            var ahead := match n case StayW(w') => AheadW(w') case LeaveW(o) => AheadOut(o) case Crash => AheadW(w);
            ahead == AheadW(w) || (AheadW(w) == [AtW(w)] && ahead == [])
  {
    hide Reloads, RenewWanted, Adopts, LoadOne, Adopted, WithoutTgt, Install, BecomesTgt, Initialize, Remove;
  }

  lemma BodyFollows(s: State, t: Tid, k: Option<Ctx>, b: Body, c: Choice)
    requires Enabled(s, t) && s.threads[t] == Working(k, b)
    ensures var s' := BodyStep(s, t, k, b, c); t in s'.threads && Follows(s, t, s.threads[t], s'.threads[t])
  {
    match b
    case Out(o) => OutFollows(o, c);
    case InR(e, r) =>
      if IsFlightPoint(r) {
        FlightFollows(t, e, s.data, s.flights, r, c);
      } else {
        ReadFollows(s.minLife, s.data, r, c);
      }
    case InW(w) => WriteFollows(t, s.minLife, s.data, s.hist, w, c);
    case _ =>
    hide OutStep, ReadStep, FlightStep, WriteStep, IsFlightPoint, AheadOut, AheadR, AheadW, Settled, Enabled;
  }

  lemma StepFollows(s: State, t: Tid, c: Choice)
    requires Enabled(s, t) && !(s.threads[t].Creating? && !c.ok)
    ensures var s' := ThreadStep(s, t, c); t in s'.threads && Follows(s, t, s.threads[t], s'.threads[t])
  {
    var pc := s.threads[t];
    if pc.Working? {
      BodyFollows(s, t, pc.ctx, pc.body, c);
      hide BodyStep, Follows;
    } else {
      hide BodyStep, AheadOut, AheadR, AheadW;
      assert AheadR(Look) == [AtR(Look)] by { LookAhead(); }
      assert pc.Creating? || pc.HaveSlot? ==> AheadOut(Start(pc.job)) == Itinerary(pc.job) by { StartAhead(pc); }
    }
  }

  lemma LookAhead()
    ensures AheadR(Look) == [AtR(Look)]
  {
  }

  lemma StartAhead(pc: Pc)
    ensures pc.Creating? || pc.HaveSlot? ==> AheadOut(Start(pc.job)) == Itinerary(pc.job)
  {
  }

  // ---- Runs ----

  lemma OthersStand(s: State, t: Tid, a: Action)
    requires Can(s, a) && t in s.threads && !(a.Step? && a.t == t)
    ensures t in Do(s, a).threads && Do(s, a).threads[t] == s.threads[t]
  {
    if a.Step? {
      MoverOnly(s, a.t, a.c);
      hide ThreadStep, Enabled;
    }
  }

  lemma MoverOnly(s: State, t: Tid, c: Choice)
    requires Enabled(s, t)
    ensures var s' := ThreadStep(s, t, c); t in s'.threads && s'.threads == s.threads[t := s'.threads[t]]
  {
    if s.threads[t].Working? {
      BodyMovesOnly(s, t, s.threads[t].ctx, s.threads[t].body, c);
      hide BodyStep;
    } else {
      hide BodyStep;
    }
  }

  lemma BodyMovesOnly(s: State, t: Tid, k: Option<Ctx>, b: Body, c: Choice)
    requires Enabled(s, t) && s.threads[t] == Working(k, b)
    ensures var s' := BodyStep(s, t, k, b, c); t in s'.threads && s'.threads == s.threads[t := s'.threads[t]]
  {
    hide OutStep, ReadStep, FlightStep, WriteStep, IsFlightPoint, Settled, Enabled;
  }

  lemma {:induction false} AheadIsVisited(s: State, run: seq<Action>, t: Tid)
    requires Legal(s, run) && t in s.threads
    requires t in Final(s, run).threads && Final(s, run).threads[t].Finished?
    ensures Visits(s, run, t, Ahead(s.threads[t]))
    decreases |run|
  {
    if run != [] {
      var a, s', rest := run[0], Do(s, run[0]), run[1..];
      if a.Step? && a.t == t {
        if !Denied(s, t, a) {
          StepFollows(s, t, a.c);
          hide ThreadStep, Enabled, Ahead, At;
          AheadIsVisited(s', rest, t);
          var pc, pc' := s.threads[t], s'.threads[t];
          if Ahead(pc') != Ahead(pc) {
            LaterVisits(s, run, t, Ahead(pc'));
          }
        }
      } else {
        OthersStand(s, t, a);
        hide Do, Can, Ahead, At, Denied;
        AheadIsVisited(s', rest, t);
      }
    }
  }

  /** What is visited from the next state on is visited from this one on. */
  lemma LaterVisits(s: State, run: seq<Action>, t: Tid, stops: seq<Stop>)
    requires Legal(s, run) && run != [] && Visits(Do(s, run[0]), run[1..], t, stops)
    ensures Visits(s, run, t, stops)
  {
    hide At, Denied, Do, Can;
  }

  /** In every run: an operation that is over has stood, with the lock, at each section its request calls for,
      with its own arguments and in order, unless it was refused a context. So STORE, INITIALIZE and REMOVE have
      been through the write section for their own arguments, and RETRIEVE through its check, its sweep and
      its own lookup. */
  lemma OperationsDoTheirJob(s: State, run: seq<Action>, t: Tid, job: Job)
    requires Legal(s, run) && t in s.threads && s.threads[t] == WantSlot(job)
    requires t in Final(s, run).threads && Final(s, run).threads[t].Finished?
    ensures Visits(s, run, t, Itinerary(job))
  {
    AheadIsVisited(s, run, t);
  }

  /** The lookup of a RETRIEVE: with a valid TGT it joins the flight of its own key, if there is one, and otherwise
      starts one for its own request; without one it answers nothing. */
  lemma ServeStep(t: Tid, e: nat, d: Data, fl: Flights, job: Job, c: Choice)
    requires job.RetrieveJob?
    ensures var (d', fl', n) := FlightStep(t, e, d, fl, Serve(job), c);
            var valid := d.tgt.Some? && job.now < KrbTime(d.tgt.value.cred.endTime);
            var key := MatchKey(job.mc);
            && d' == d
            && (!valid ==> n == LeaveR(Done(Plain)) && fl' == fl)
            && (valid && key in fl.table ==> n == StayR(Follow(fl.table[key], job.mc)) && fl'.all == fl.all)
            && (valid && key !in fl.table ==>
                  && n == StayR(Lead(|fl.all|, key)) && |fl'.all| == |fl.all| + 1
                  && fl'.all[|fl.all|].asked == job.mc && fl'.all[|fl.all|].leader == t
                  && key in fl'.table && fl'.table[key] == |fl.all|)
  {
    hide MatchKey;
  }

  /** A running lookup: while it goes on, the tickets it obtains go to the end of the cache; when it is over, its
      answer becomes the flight's. */
  lemma LookupStep(t: Tid, e: nat, d: Data, fl: Flights, f: Fid, key: Bytes, c: Choice)
    requires f < |fl.all|
    ensures var (d', fl', n) := FlightStep(t, e, d, fl, Lead(f, key), c);
            if c.more then d' == d.(cache := d.cache + c.added) && fl' == fl && n == StayR(Lead(f, key))
            else
              && d' == d && n == StayR(Ran(f, key)) && |fl'.all| == |fl.all|
              && fl'.all[f].answer == Some(c.answer) && fl'.table == fl.table
  {
  }
}
