/** Sweeps and source reads under every interleaving: evictions drop only tickets that are stale at that
    sweep's time, and the source file is read at most once per interval. */
module DaemonSweep {
  import opened Wire
  import opened Credentials
  import opened Session
  import opened SessionLaws
  import opened Daemon
  import opened DaemonLock
  import opened DaemonFrame
  import Names
  import Coalescing

  // ---- Sweeping beside other readers ----

  ghost predicate AllStale(tgt: Option<Tgt>, minLife: int, now: Time, es: seq<Cred>) {
    forall i :: 0 <= i < |es| ==> Stale(tgt, minLife, now, es[i])
  }

  ghost predicate SweepPoint(tgt: Option<Tgt>, minLife: int, r: RPoint) {
    r.Scan? || r.Evict? ==> AllStale(tgt, minLife, Clock(r.job), r.stale)
  }

  /** What a sweeping goroutine has collected is stale by the TGT held now; one that still waits for
      the lock has collected nothing. */
  ghost predicate SweepOk(tgt: Option<Tgt>, minLife: int, pc: Pc) {
    pc.Working? ==>
      && (pc.body.WantR? ==> forall tgt' :: SweepPoint(tgt', minLife, pc.body.r))
      && (pc.body.InR? ==> SweepPoint(tgt, minLife, pc.body.r))
  }

  ghost predicate SweepInv(s: State) {
    forall t :: t in s.threads ==> SweepOk(s.data.tgt, s.minLife, s.threads[t])
  }

  lemma ReadSweeps(minLife: int, d: Data, r: RPoint, c: Choice)
    requires !IsFlightPoint(r) && SweepPoint(d.tgt, minLife, r)
    ensures var (_, n) := ReadStep(minLife, d, r, c); n.StayR? ==> SweepPoint(d.tgt, minLife, n.r)
  {
    hide Reloads, RenewWanted, Stale, RemoveExact;
  }

  lemma FlightSweeps(t: Tid, e: nat, d: Data, fl: Flights, r: RPoint, c: Choice, tgt: Option<Tgt>, minLife: int)
    requires IsFlightPoint(r)
    ensures var (_, _, n) := FlightStep(t, e, d, fl, r, c); n.StayR? ==> SweepPoint(tgt, minLife, n.r)
  {
    hide NoUsableTgt, Amend, Result, Coalescing.MatchKey;
  }

  lemma OutSweeps(o: OutPoint, c: Choice, tgt: Option<Tgt>, minLife: int)
    ensures var n := OutStep(o, c); n.GoR? ==> SweepPoint(tgt, minLife, n.r)
  {
  }

  /** The goroutine that moves is fine by the TGT held before its step. */
  lemma MoverSweeps(s: State, t: Tid, c: Choice)
    requires Enabled(s, t) && SweepOk(s.data.tgt, s.minLife, s.threads[t])
    ensures var s' := ThreadStep(s, t, c); t in s'.threads && SweepOk(s.data.tgt, s.minLife, s'.threads[t])
  {
    var pc := s.threads[t];
    if pc.Working? {
      BodySweeps(s, t, pc.ctx, pc.body, c);
    }
    hide BodyStep, Enabled, SweepPoint;
    assert forall tgt: Option<Tgt> :: SweepPoint(tgt, s.minLife, Look) by { LookSweeps(s.minLife); }
  }

  lemma LookSweeps(minLife: int)
    ensures forall tgt: Option<Tgt> :: SweepPoint(tgt, minLife, Look)
  {
  }

  lemma BodySweeps(s: State, t: Tid, k: Option<Ctx>, b: Body, c: Choice)
    requires Enabled(s, t) && s.threads[t] == Working(k, b) && SweepOk(s.data.tgt, s.minLife, s.threads[t])
    ensures var s' := BodyStep(s, t, k, b, c); t in s'.threads && SweepOk(s.data.tgt, s.minLife, s'.threads[t])
  {
    match b
    case Out(o) =>
      forall tgt: Option<Tgt> ensures var n := OutStep(o, c); n.GoR? ==> SweepPoint(tgt, s.minLife, n.r) {
        OutSweeps(o, c, tgt, s.minLife);
      }
    case InR(e, r) =>
      if IsFlightPoint(r) {
        FlightSweeps(t, e, s.data, s.flights, r, c, s.data.tgt, s.minLife);
      } else {
        ReadSweeps(s.minLife, s.data, r, c);
      }
    case _ =>
    hide OutStep, ReadStep, FlightStep, WriteStep, IsFlightPoint, SweepPoint, Enabled;
  }

  /** Nobody is under the read lock when the TGT changes. */
  lemma NobodySweeps(s: State, t: Tid, u: Tid)
    requires LockInv(s) && t in s.threads && Writes(s.threads[t]) && u in s.threads
    ensures !Reads(s.threads[u])
  {
    assert RoleIn(s, t).Writer?;
    assert s.lock.readers == {};
    assert !RoleIn(s, u).Reader?;
  }

  lemma StepKeepsSweeps(s: State, t: Tid, c: Choice)
    requires SweepInv(s) && LockInv(s) && Enabled(s, t)
    ensures SweepInv(ThreadStep(s, t, c))
  {
    var pc, s' := s.threads[t], ThreadStep(s, t, c);
    MoverSweeps(s, t, c);
    hide ThreadStep, Enabled, LockInv, SweepPoint;
    if Writes(pc) {
      WriteFrame(s, t, c);
      hide WriteStep;
      forall u | u in s'.threads ensures SweepOk(s'.data.tgt, s'.minLife, s'.threads[u]) {
        if u != t {
          NobodySweeps(s, t, u);
        }
      }
    } else {
      if Reads(pc) { ReadFrame(s, t, c); }
      else if Enters(pc) { EnterFrame(s, t, c); }
      else { OutsideFrame(s, t, c); }
    }
  }

  lemma DoKeepsSweeps(s: State, a: Action)
    requires SweepInv(s) && LockInv(s) && Can(s, a)
    ensures SweepInv(Do(s, a))
  {
    hide SweepPoint;
    if a.Step? {
      StepKeepsSweeps(s, a.t, a.c);
    } else {
      LookSweeps(s.minLife);
    }
  }

  lemma {:induction false} SweepRun(s: State, run: seq<Action>)
    requires SweepInv(s) && LockInv(s) && Legal(s, run)
    ensures SweepInv(Final(s, run)) && LockInv(Final(s, run))
    decreases |run|
  {
    hide LockInv, SweepInv, Do, Can;
    if run != [] {
      DoKeepsLock(s, run[0]);
      DoKeepsSweeps(s, run[0]);
      SweepRun(Do(s, run[0]), run[1..]);
    }
  }

  /** A scan that is shown an entry collects it exactly when it may not be handed out any more. */
  lemma ScanCollects(minLife: int, d: Data, job: Job, stale: seq<Cred>, c: Choice)
    requires c.more && c.pick < |d.cache| && (job.RetrieveJob? || job.ListJob? || job.MaintainJob?)
    ensures var e := d.cache[c.pick];
            var (d', n) := ReadStep(minLife, d, Scan(job, stale), c);
            var keep := || IsConfig(e.server) || LocalTGT(e)
                        || (if d.tgt.Some? then LivesLongEnough(d.tgt.value.cred, minLife, job.now, e)
                            else job.now < KrbTime(e.endTime));
            d' == d && n == StayR(Scan(job, if keep then stale else stale + [e]))
  {
    StaleMeans(d.tgt, minLife, job.now, d.cache[c.pick]);
    hide Stale, LivesLongEnough, IsConfig, LocalTGT, KrbTime;
  }

  /** Dropping the matches of a stale ticket leaves all that is not stale, in order. */
  lemma EvictionSpares(cache: seq<Cred>, x: Cred, tgt: Option<Tgt>, minLife: int, now: Time)
    requires Stale(tgt, minLife, now, x)
    ensures var kept := (e: Cred) => !Stale(tgt, minLife, now, e);
            Filter(kept, RemoveExact(cache, x)) == Filter(kept, cache)
    ensures forall e :: e in cache && e !in RemoveExact(cache, x) ==> Stale(tgt, minLife, now, e)
    ensures forall e :: e in RemoveExact(cache, x) ==> e in cache
  {
    var kept, keep := (e: Cred) => !Stale(tgt, minLife, now, e), (e: Cred) => !ExactMatch(x, e);
    forall e: Cred ensures ExactMatch(x, e) ==> Stale(tgt, minLife, now, e) {
      if ExactMatch(x, e) {
        MatchSharesStaleness(tgt, minLife, now, x, e);
      }
    }
    hide ExactMatch, Stale;
    FilterTwice(kept, keep, kept, cache);
    forall e: Cred ensures e in RemoveExact(cache, x) <==> e in cache && !ExactMatch(x, e) {
      FilterMembers(keep, cache, e);
    }
  }

  /** In every interleaving, an eviction step loses only entries that are stale at that sweep's time
      under the TGT held now. All other entries stay, in order; they include every local TGT and every
      config entry. */
  lemma EvictionsHitOnlyStale(s: State, creds: seq<Cred>, now: Time, run: seq<Action>, t: Tid, c: Choice)
    requires Opened(s, creds, now) && Legal(s, run)
    requires Enabled(Final(s, run), t) && Reads(Final(s, run).threads[t]) && Final(s, run).threads[t].body.r.Evict?
    ensures var s1 := Final(s, run);
            var d, d', at := s1.data, ThreadStep(s1, t, c).data, Clock(s1.threads[t].body.r.job);
            var kept := (e: Cred) => !Stale(d.tgt, s1.minLife, at, e);
            && Filter(kept, d'.cache) == Filter(kept, d.cache)
            && d' == d.(cache := d'.cache)
            && (forall e :: e in d.cache && e !in d'.cache ==>
                  Stale(d.tgt, s1.minLife, at, e) && !LocalTGT(e) && !IsConfig(e.server))
            && (forall e :: e in d'.cache ==> e in d.cache)
  {
    OpenedLock(s, creds, now);
    SweepRun(s, run);
    var s1 := Final(s, run);
    hide Final, Legal, Opened;
    var r := s1.threads[t].body.r;
    assert SweepOk(s1.data.tgt, s1.minLife, s1.threads[t]);
    ReadFrame(s1, t, c);
    EvictStep(s1, t, c);
    if r.stale != [] && c.ok {
      assert Stale(s1.data.tgt, s1.minLife, Clock(r.job), r.stale[0]);
      EvictionSpares(s1.data.cache, r.stale[0], s1.data.tgt, s1.minLife, Clock(r.job));
    }
    assert forall e :: Stale(s1.data.tgt, s1.minLife, Clock(r.job), e) ==> !LocalTGT(e) && !IsConfig(e.server);
    hide ThreadStep, LockInv, SweepInv, Enabled, Stale, RemoveExact, LocalTGT, IsConfig;
  }

  /** In every interleaving, no eviction loses a ticket that may still be handed out: one that lives long enough
      beside the TGT held or, when none is held, has not ended. */
  lemma NoGoodTicketEvicted(s: State, creds: seq<Cred>, now: Time, run: seq<Action>, t: Tid, c: Choice, e: Cred)
    requires Opened(s, creds, now) && Legal(s, run)
    requires Enabled(Final(s, run), t) && Reads(Final(s, run).threads[t]) && Final(s, run).threads[t].body.r.Evict?
    requires e in Final(s, run).data.cache
    ensures var s1 := Final(s, run);
            var d, at := s1.data, Clock(s1.threads[t].body.r.job);
            (if d.tgt.Some? then LivesLongEnough(d.tgt.value.cred, s1.minLife, at, e) else at < KrbTime(e.endTime)) ==>
              e in ThreadStep(s1, t, c).data.cache
  {
    EvictionsHitOnlyStale(s, creds, now, run, t, c);
    var s1 := Final(s, run);
    StaleMeans(s1.data.tgt, s1.minLife, Clock(s1.threads[t].body.r.job), e);
    hide Final, Legal, Opened, ThreadStep, Enabled, Stale, LivesLongEnough, Filter;
  }

  lemma EvictStep(s: State, t: Tid, c: Choice)
    requires Enabled(s, t) && Reads(s.threads[t]) && s.threads[t].body.r.Evict?
    ensures var r := s.threads[t].body.r;
            ThreadStep(s, t, c).data.cache ==
            if r.stale != [] && c.ok then RemoveExact(s.data.cache, r.stale[0]) else s.data.cache
  {
    hide RemoveExact, Enabled, FlightStep, WriteStep, OutStep;
  }

  // ---- Reading the source file ----

  /** Successive times lie at least the check interval apart. */
  ghost predicate Spaced(ts: seq<Time>) {
    forall i :: 0 < i < |ts| ==> ts[i] - ts[i - 1] >= FILE_CHECK_INTERVAL
  }

  ghost predicate ReadsOk(d: Data, h: History) {
    Spaced(h.readTimes) && (h.readTimes != [] ==> h.readTimes[|h.readTimes| - 1] == d.lastCheck)
  }

  lemma WriteReads(t: Tid, minLife: int, d: Data, h: History, w: WPoint, c: Choice)
    requires ReadsOk(d, h)
    ensures var (d', h', _) := WriteStep(t, minLife, d, h, w, c); ReadsOk(d', h')
  {
    hide RenewWanted, Adopts, LoadOne, WithoutTgt, BecomesTgt, Names.BuildPrincipal, RemoveNamed, OwnTgt;
    hide ClearRenewable;
  }

  lemma {:induction false} ReadsRun(s: State, run: seq<Action>)
    requires LockInv(s) && ReadsOk(s.data, s.hist) && Legal(s, run)
    ensures ReadsOk(Final(s, run).data, Final(s, run).hist)
    decreases |run|
  {
    hide LockInv, Spaced;
    if run != [] {
      DoKeepsLock(s, run[0]);
      if run[0].Step? {
        StepReads(s, run[0].t, run[0].c);
      }
      hide ThreadStep, Enabled;
      ReadsRun(Do(s, run[0]), run[1..]);
    }
  }

  lemma StepReads(s: State, t: Tid, c: Choice)
    requires LockInv(s) && ReadsOk(s.data, s.hist) && Enabled(s, t)
    ensures var s' := ThreadStep(s, t, c); ReadsOk(s'.data, s'.hist)
  {
    var pc := s.threads[t];
    hide ThreadStep, Enabled, LockInv, Spaced;
    if Writes(pc) {
      WriteFrame(s, t, c);
      WriteReads(t, s.minLife, s.data, s.hist, pc.body.w, c);
      hide WriteStep, Agrees;
    }
    else if Reads(pc) { ReadFrame(s, t, c); }
    else if Enters(pc) { EnterFrame(s, t, c); }
    else { OutsideFrame(s, t, c); }
  }

  /** In every interleaving, with any number of goroutines deciding to reload at once and whatever clock
      readings they bring, two source reads are never closer than the check interval. */
  lemma ReadsAreSpaced(s: State, creds: seq<Cred>, now: Time, run: seq<Action>, i: nat, j: nat)
    requires Opened(s, creds, now) && Legal(s, run) && i < j < |Final(s, run).hist.readTimes|
    ensures var ts := Final(s, run).hist.readTimes; ts[j] - ts[i] >= (j - i) * FILE_CHECK_INTERVAL
  {
    OpenedLock(s, creds, now);
    ReadsRun(s, run);
    Apart(Final(s, run).hist.readTimes, i, j);
  }

  lemma {:induction false} Apart(ts: seq<Time>, i: nat, j: nat)
    requires Spaced(ts) && i < j < |ts|
    ensures ts[j] - ts[i] >= (j - i) * FILE_CHECK_INTERVAL
    decreases j
  {
    if i + 1 < j {
      Apart(ts, i, j - 1);
    }
  }
}
