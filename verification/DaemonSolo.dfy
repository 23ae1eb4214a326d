/** The step machine against the sequential client: a maintenance pass whose steps nobody interrupts does
    exactly what Session.Maintain does, in the world its own steps met. */
module DaemonSolo {
  import opened Wire
  import opened Credentials
  import opened Session
  import opened SessionLaws
  import opened Daemon
  import opened DaemonSweep
  import opened DaemonSections
  import Coalescing

  /** The jobs that begin with a maintenance pass. */
  predicate Maintains(job: Job) { job.RetrieveJob? || job.ListJob? || job.MaintainJob? }

  /** Both critical sections of a renewal, one right after the other. */
  function RenewPass(d: Data, now: Time, v: World): (d': Data) {
    if RenewalStarts(d) then RenewFinish(d.(renewing := true), d.tgt.value, v.kdc, now, v.swap) else d
  }

  // ---- What is left of a pass, by where it stands ----

  /** Once the reload is behind it. */
  function RenewalPart(minLife: int, d: Data, now: Time, renew: bool, v: World): (d': Data) {
    Sweep(if renew then RenewPass(d, now, v) else d, minLife, now)
  }

  /** Inside the reload section. */
  function ReloadPart(minLife: int, d: Data, now: Time, w: WPoint, v: World): (d': Data) {
    var d1 := Leaves(minLife, d, w, v);
    RenewalPart(minLife, d1, now, RenewWanted(d1, now), v)
  }

  predicate WritePart(minLife: int, d: Data, w: WPoint, v: World, d': Data) {
    match w
    case Reload(job) => d' == ReloadPart(minLife, d, Clock(job), w, v)
    case Loading(job, _, _) => d' == ReloadPart(minLife, d, Clock(job), w, v)
    case RenewBegin(job) => d' == RenewalPart(minLife, d, Clock(job), true, v)
    case RenewEnd(job, _, _) => d' == Sweep(Leaves(minLife, d, w, v), minLife, Clock(job))
    case SwapRemove(_, why) => why.ForRenewal? && d' == Sweep(Leaves(minLife, d, w, v), minLife, Clock(why.job))
    case SwapStore(_, why) => why.ForRenewal? && d' == Sweep(Leaves(minLife, d, w, v), minLife, Clock(why.job))
    case _ => false
  }

  ghost predicate SweepPart(minLife: int, d: Data, r: RPoint, d': Data) {
    match r
    case Note(job) => d' == Sweep(d, minLife, Clock(job))
    case Scan(job, stale) => AllStale(d.tgt, minLife, Clock(job), stale) ==> d' == Sweep(d, minLife, Clock(job))
    case Evict(_, stale) => d' == d.(cache := Filter((e: Cred) => !Doomed(stale, e), d.cache))
    case _ => false
  }

  function CheckedPart(minLife: int, d: Data, job: Job, reload: bool, renew: bool, v: World): (d': Data) {
    if reload then ReloadPart(minLife, d, Clock(job), Reload(job), v) else RenewalPart(minLife, d, Clock(job), renew, v)
  }

  /** The rest of the pass, from the point of body `b` in world `v`, leaves `d'`. */
  ghost predicate PassPart(minLife: int, d: Data, b: Body, v: World, d': Data) {
    match b
    case Out(Start(job)) => Maintains(job) && d' == Maintain(d, minLife, Clock(job), v)
    case Out(Checked(job, reload, renew)) => d' == CheckedPart(minLife, d, job, reload, renew, v)
    case Out(Exchange(job, started)) =>
      d' == Sweep(RenewFinish(d, started, v.kdc, Clock(job), v.swap), minLife, Clock(job))
    case Out(LogFailure(job)) => d' == Sweep(d, minLife, Clock(job))
    case Out(ToSweep(job)) => d' == Sweep(d, minLife, Clock(job))
    case Out(ToServe(_)) => d' == d
    case WantR(r) => if r.Check? then d' == Maintain(d, minLife, Clock(r.job), v) else SweepPart(minLife, d, r, d')
    case InR(_, r) => if r.Check? then d' == Maintain(d, minLife, Clock(r.job), v) else SweepPart(minLife, d, r, d')
    case WantW(w) => WritePart(minLife, d, w, v, d')
    case PendW(w) => WritePart(minLife, d, w, v, d')
    case InW(w) => WritePart(minLife, d, w, v, d')
    case _ => false
  }

  // ---- One step, backwards ----

  lemma OutPart(minLife: int, d: Data, k: Option<Ctx>, o: OutPoint, c: Choice, v: World, d': Data)
    requires !o.ToServe?
    ensures var v0 := Meet(d, Working(k, Out(o)), c, v);
            match OutStep(o, c)
            case GoR(r) => PassPart(minLife, d, WantR(r), v, d') ==> PassPart(minLife, d, Out(o), v0, d')
            case GoW(w) => PassPart(minLife, d, WantW(w), v, d') ==> PassPart(minLife, d, Out(o), v0, d')
            case Return(_) => true
  {
    hide Maintain, RenewPass, RenewFinish, ReloadPart, Sweep;
  }

  /** The decision under the read lock is the one the sequential pass takes. */
  lemma CheckPart(minLife: int, d: Data, job: Job, v: World)
    ensures var now := Clock(job);
            CheckedPart(minLife, d, job, Reloads(d, minLife, now), RenewWanted(d, now), v) ==
            Maintain(d, minLife, now, v)
  {
    hide LoadNewer, RenewFinish, NeedsAttention, RenewDue, Sweep;
  }

  lemma ReadPart(minLife: int, d: Data, r: RPoint, c: Choice, e: nat, v: World, d': Data)
    requires !IsFlightPoint(r) && (r.Evict? ==> c.ok)
    requires r.Scan? && !(c.more && c.pick < |d.cache|) ==> Covers(minLife, d, r.job, r.stale)
    ensures var (d1, n) := ReadStep(minLife, d, r, c);
            PassPart(minLife, d1, AfterRead(e, n), v, d') ==> PassPart(minLife, d, InR(e, r), v, d')
  {
    match r
    case Check(job) =>
      CheckPart(minLife, d, job, v);
      hide CheckedPart, Maintain, Reloads, RenewWanted;
    case Scan(job, stale) =>
      if !(c.more && c.pick < |d.cache|) && AllStale(d.tgt, minLife, Clock(job), stale) {
        ScanFindsStale(minLife, d, job, stale);
      }
      hide Stale, Filter, Doomed;
    case Evict(job, stale) =>
      EvictPart(d.cache, stale);
      hide Stale, Filter, Doomed, Sweep;
    case _ => hide Sweep;
  }

  /** The scan has shown every stale entry. */
  ghost predicate Covers(minLife: int, d: Data, job: Job, stale: seq<Cred>) {
    forall i :: 0 <= i < |d.cache| && Stale(d.tgt, minLife, Clock(job), d.cache[i]) ==> d.cache[i] in stale
  }

  lemma ScanFindsStale(minLife: int, d: Data, job: Job, stale: seq<Cred>)
    requires AllStale(d.tgt, minLife, Clock(job), stale) && Covers(minLife, d, job, stale)
    ensures d.(cache := Filter((e: Cred) => !Doomed(stale, e), d.cache)) == Sweep(d, minLife, Clock(job))
  {
    var now := Clock(job);
    forall i | 0 <= i < |d.cache| ensures Doomed(stale, d.cache[i]) == Stale(d.tgt, minLife, now, d.cache[i]) {
      var e := d.cache[i];
      if Stale(d.tgt, minLife, now, e) {
        var j :| 0 <= j < |stale| && stale[j] == e;
        assert ExactMatch(stale[j], e);
      }
      if Doomed(stale, e) {
        var j :| 0 <= j < |stale| && ExactMatch(stale[j], e);
        MatchSharesStaleness(d.tgt, minLife, now, stale[j], e);
      }
    }
    FilterSame((e: Cred) => !Doomed(stale, e), (e: Cred) => !Stale(d.tgt, minLife, now, e), d.cache);
  }

  lemma EvictPart(cache: seq<Cred>, stale: seq<Cred>)
    ensures var left := Filter((e: Cred) => !Doomed(stale, e), cache);
            if stale == [] then left == cache
            else left == Filter((e: Cred) => !Doomed(stale[1..], e), RemoveExact(cache, stale[0]))
  {
    hide ExactMatch;
    if stale == [] {
      FilterAll((e: Cred) => !Doomed(stale, e), cache);
    } else {
      var rest := stale[1..];
      forall e: Cred ensures Doomed(stale, e) <==> ExactMatch(stale[0], e) || Doomed(rest, e) {
        DoomedCons(stale, e);
      }
      hide Doomed;
      FilterTwice((e: Cred) => !Doomed(rest, e), (e: Cred) => !ExactMatch(stale[0], e),
                  (e: Cred) => !Doomed(stale, e), cache);
    }
  }

  lemma DoomedCons(stale: seq<Cred>, e: Cred)
    requires stale != []
    ensures Doomed(stale, e) <==> ExactMatch(stale[0], e) || Doomed(stale[1..], e)
  {
    hide ExactMatch;
    var rest := stale[1..];
    if Doomed(rest, e) {
      var j :| 0 <= j < |rest| && ExactMatch(rest[j], e);
      assert stale[j + 1] == rest[j];
    }
    if Doomed(stale, e) && !ExactMatch(stale[0], e) {
      var j :| 0 <= j < |stale| && ExactMatch(stale[j], e);
      assert rest[j - 1] == stale[j];
    }
  }

  lemma ReloadingPart(t: Tid, minLife: int, d: Data, h: History, w: WPoint, c: Choice, v: World, d': Data)
    requires (w.Reload? || w.Loading?) && !WriteStep(t, minLife, d, h, w, c).2.Crash?
    ensures var (d1, _, n) := WriteStep(t, minLife, d, h, w, c);
            PassPart(minLife, d1, AfterWrite(w, n), v, d') ==> WritePart(minLife, d, w, MeetUnderWrite(d, w, c, v), d')
  {
    WriteStepRefines(t, minLife, d, h, w, c, v);
    ReloadLeads(t, minLife, d, h, w, c);
    hide RenewWanted, WriteStep, Leaves, Sweep, RenewFinish;
  }

  /** A reload stays in its load or goes on to the renewal. */
  lemma ReloadLeads(t: Tid, minLife: int, d: Data, h: History, w: WPoint, c: Choice)
    requires w.Reload? || w.Loading?
    ensures var (d1, _, n) := WriteStep(t, minLife, d, h, w, c);
            match n
            case StayW(w1) => w1.Loading? && w1.job == w.job
            case LeaveW(o) => o == Checked(w.job, false, RenewWanted(d1, Clock(w.job)))
            case Crash => true
  {
    hide RenewWanted, Reloads, Adopts, LoadOne, OwnTgt, Adopted;
  }

  lemma RenewingPart(t: Tid, minLife: int, d: Data, h: History, w: WPoint, c: Choice, v: World, d': Data)
    requires !w.Reload? && !w.Loading?
    ensures var (d1, _, n) := WriteStep(t, minLife, d, h, w, c);
            PassPart(minLife, d1, AfterWrite(w, n), v, d') ==> WritePart(minLife, d, w, MeetUnderWrite(d, w, c, v), d')
  {
    WriteStepRefines(t, minLife, d, h, w, c, v);
    RenewalLeads(t, minLife, d, h, w, c);
    hide WriteStep, Leaves, Sweep, MeetUnderWrite;
    if w.RenewBegin? {
      BeginMeetsNothing(d, w, c, v);
      hide RenewFinish;
    }
  }

  lemma BeginMeetsNothing(d: Data, w: WPoint, c: Choice, v: World)
    requires w.RenewBegin?
    ensures MeetUnderWrite(d, w, c, v) == v
  {
  }

  /** Where the other write sections go. */
  lemma RenewalLeads(t: Tid, minLife: int, d: Data, h: History, w: WPoint, c: Choice)
    requires !w.Reload? && !w.Loading?
    ensures var (d1, _, n) := WriteStep(t, minLife, d, h, w, c);
            && !n.Crash?
            && (w.RenewBegin? ==> n.LeaveW? && if RenewalStarts(d)
                  then d1 == d.(renewing := true) && n.o == Exchange(w.job, d.tgt.value)
                  else d1 == d && (n.o == ToSweep(w.job) || n.o == LogFailure(w.job)))
            && (w.RenewEnd? ==> RenewalGoes(w.job, n))
            && (w.SwapRemove? || w.SwapStore? ==> if w.why.ForRenewal? then RenewalGoes(w.why.job, n) else StoreGoes(n))
            && (w.StoreIt? || w.InitIt? || w.RemoveIt? ==> StoreGoes(n))
  {
    hide WithoutTgt, Install, NoteRenewFailure, BecomesTgt, Initialize, Remove;
  }

  predicate RenewalGoes(job: Job, n: WNext) {
    match n
    case StayW(w) => (w.SwapRemove? || w.SwapStore?) && w.why.ForRenewal? && w.why.job == job
    case LeaveW(o) => o == ToSweep(job) || o == LogFailure(job)
    case Crash => false
  }

  predicate StoreGoes(n: WNext) {
    match n
    case StayW(w) => (w.SwapRemove? || w.SwapStore?) && w.why.ForStore?
    case LeaveW(o) => o.Done?
    case Crash => false
  }

  // ---- A whole pass ----

  predicate AtEnd(pc: Pc) { pc.Working? && pc.body.Out? && pc.body.o.ToServe? }

  /** The sweep's scan shows every stale entry before it ends, and its evictions succeed. */
  ghost predicate Thorough(s: State, pc: Pc, c: Choice) {
    match pc
    case Working(_, InR(_, Scan(job, stale))) =>
      !(c.more && c.pick < |s.data.cache|) ==> Covers(s.minLife, s.data, job, stale)
    case Working(_, InR(_, Evict(_, _))) => c.ok
    case _ => true
  }

  /** Only goroutine `t` steps, until its pass is over. */
  ghost predicate PassRun(s: State, run: seq<Action>, t: Tid)
    requires Legal(s, run)
    decreases |run|
  {
    && t in s.threads && !s.down
    && (AtEnd(s.threads[t]) <==> run == [])
    && (run != [] ==> StepOf(run[0], t) && Thorough(s, s.threads[t], run[0].c) && PassRun(Do(s, run[0]), run[1..], t))
  }

  ghost predicate PassPc(minLife: int, d: Data, pc: Pc, v: World, d': Data) {
    match pc
    case WantSlot(job) => PassPart(minLife, d, Out(Start(job)), v, d')
    case HaveSlot(job) => PassPart(minLife, d, Out(Start(job)), v, d')
    case Creating(job) => PassPart(minLife, d, Out(Start(job)), v, d')
    case Working(_, b) => PassPart(minLife, d, b, v, d')
    case _ => false
  }

  lemma WriterPart(s: State, t: Tid, k: Option<Ctx>, w: WPoint, c: Choice, v: World, d': Data)
    requires !UnderWrite(s, t, k, w, c).down
    ensures var s' := UnderWrite(s, t, k, w, c);
            && t in s'.threads && s'.minLife == s.minLife
            && (PassPc(s.minLife, s'.data, s'.threads[t], v, d') ==>
                  WritePart(s.minLife, s.data, w, MeetUnderWrite(s.data, w, c, v), d'))
  {
    if w.Reload? || w.Loading? {
      ReloadingPart(t, s.minLife, s.data, s.hist, w, c, v, d');
    } else {
      RenewingPart(t, s.minLife, s.data, s.hist, w, c, v, d');
    }
    hide WriteStep, PassPart, WritePart, MeetUnderWrite, Settled;
  }

  lemma ReaderPart(s: State, t: Tid, k: Option<Ctx>, e: nat, r: RPoint, c: Choice, v: World, d': Data)
    requires Thorough(s, Working(k, InR(e, r)), c)
    ensures var s' := UnderRead(s, t, k, e, r, c);
            && t in s'.threads && s'.minLife == s.minLife
            && (PassPc(s.minLife, s'.data, s'.threads[t], v, d') ==> PassPart(s.minLife, s.data, InR(e, r), v, d'))
  {
    if IsFlightPoint(r) {
      FlightsAreLater(s, t, e, r, c, v, d');
    } else {
      ReadPart(s.minLife, s.data, r, c, e, v, d');
    }
    hide ReadStep, FlightStep, IsFlightPoint, PassPart, Covers;
  }

  lemma FlightsAreLater(s: State, t: Tid, e: nat, r: RPoint, c: Choice, v: World, d': Data)
    requires IsFlightPoint(r)
    ensures var (d1, _, n) := FlightStep(t, e, s.data, s.flights, r, c);
            !PassPart(s.minLife, d1, AfterRead(e, n), v, d')
  {
    hide NoUsableTgt, Amend, Result, Coalescing.MatchKey;
  }

  lemma StepPart(s: State, t: Tid, c: Choice, v: World, d': Data)
    requires Enabled(s, t) && !AtEnd(s.threads[t]) && Thorough(s, s.threads[t], c) && !ThreadStep(s, t, c).down
    ensures var s' := ThreadStep(s, t, c);
            && t in s'.threads && s'.minLife == s.minLife
            && (PassPc(s.minLife, s'.data, s'.threads[t], v, d') ==>
                  PassPc(s.minLife, s.data, s.threads[t], Meet(s.data, s.threads[t], c, v), d'))
  {
    var pc := s.threads[t];
    if !pc.Working? {
      hide BodyStep, Maintain;
    } else if pc.body.InR? {
      ReaderPart(s, t, pc.ctx, pc.body.epoch, pc.body.r, c, v, d');
      hide UnderRead, PassPart;
    } else if pc.body.InW? {
      WriterPart(s, t, pc.ctx, pc.body.w, c, v, d');
      hide UnderWrite, WritePart, MeetUnderWrite;
    } else if pc.body.Out? {
      OutPart(s.minLife, s.data, pc.ctx, pc.body.o, c, v, d');
      hide PassPart, OutStep;
    } else {
      hide WritePart, SweepPart, Maintain;
    }
  }

  lemma {:induction false} PassBackwards(s: State, run: seq<Action>, t: Tid)
    requires Legal(s, run) && PassRun(s, run, t)
    ensures PassPc(s.minLife, s.data, s.threads[t], Met(s, run, t), Final(s, run).data)
    decreases |run|
  {
    if run != [] {
      var s' := Do(s, run[0]);
      StepPart(s, t, run[0].c, Met(s', run[1..], t), Final(s', run[1..]).data);
      hide PassPc, ThreadStep, Enabled, Thorough, Meet;
      PassBackwards(s', run[1..], t);
    }
  }

  /** Whatever the file, the KDC and the library do: when a goroutine that nobody interrupts has ended its
      maintenance pass, with a thorough sweep, the data is what the sequential pass leaves in that world. */
  lemma SoloPassIsSequential(s: State, run: seq<Action>, t: Tid, job: Job)
    requires Legal(s, run) && PassRun(s, run, t) && s.threads[t] == WantSlot(job)
    ensures Maintains(job) && Final(s, run).data == Maintain(s.data, s.minLife, job.now, Met(s, run, t))
  {
    PassBackwards(s, run, t);
    hide Final, Legal, PassRun, Maintain, Met;
  }
}
