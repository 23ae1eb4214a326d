/** Write sections are atomic: however many library calls a section makes and whatever other goroutines
    do between them, its net effect on the data is that of one session operation, in the world that the
    section's own steps met. */
module DaemonSections {
  import opened Wire
  import opened Names
  import opened Credentials
  import opened Session
  import opened SessionLaws
  import opened Daemon
  import opened DaemonLock
  import opened DaemonFrame

  // ---- The world a goroutine meets ----

  /** Nothing there, and nothing fails. */
  const CALM: World := World(Unusable, [], LoadOk, None, SwapOk)

  /** A load that fails after n more entries fails after n + 1 of these. */
  function OneMore(load: LoadFault): (l: LoadFault) { if load.LoadFails? then LoadFails(load.n + 1) else LoadOk }

  /** The world as seen from write point `w`, given this step's choice and what is met later. */
  function MeetUnderWrite(d: Data, w: WPoint, c: Choice, later: World): (v: World) {
    match w
    case Reload(_) =>
      later.(src := c.src, loaded := c.loaded,
             load := if !c.ok then InitFails else if later.load.InitFails? then LoadOk else later.load)
    case Loading(_, rest, _) =>
      later.(load := if !c.ok then LoadFails(0) else if rest == [] then LoadOk else OneMore(later.load))
    case SwapRemove(_, _) =>
      later.(swap := if d.tgt.Some? && !c.ok then RemoveFails
                     else if later.swap.RemoveFails? then SwapOk else later.swap)
    case SwapStore(_, _) => later.(swap := if c.ok then SwapOk else StoreFails)
    case StoreIt(wire) =>
      if wire.Marshalled? && BecomesTgt(d, wire.cred) then later
      else later.(swap := if c.ok then SwapOk else StoreFails)
    case InitIt(_) => later.(load := if c.ok then LoadOk else InitFails)
    case _ => later
  }

  function Meet(d: Data, pc: Pc, c: Choice, later: World): (v: World) {
    match pc
    case Working(_, Out(Exchange(_, _))) => later.(kdc := c.kdc)
    case Working(_, InW(w)) => MeetUnderWrite(d, w, c, later)
    case _ => later
  }

  predicate StepOf(a: Action, t: Tid) { a.Step? && a.t == t }

  /** What goroutine `t` meets in a run: the file, the KDC's answer and the failures of its own steps. */
  ghost function Met(s: State, run: seq<Action>, t: Tid): (v: World)
    requires Legal(s, run)
    decreases |run|
  {
    if run == [] then CALM
    else
      var later := Met(Do(s, run[0]), run[1..], t);
      if StepOf(run[0], t) then Meet(s.data, s.threads[t], run[0].c, later) else later
  }

  ghost predicate AllOk(run: seq<Action>, t: Tid) {
    forall i :: 0 <= i < |run| && StepOf(run[i], t) ==> run[i].c.ok
  }

  /** A goroutine whose library calls all succeed meets no failure. */
  lemma {:induction false} NoFailureMet(s: State, run: seq<Action>, t: Tid)
    requires Legal(s, run) && AllOk(run, t)
    ensures Met(s, run, t).load == LoadOk && Met(s, run, t).swap == SwapOk
    decreases |run|
  {
    if run != [] {
      NoFailureMet(Do(s, run[0]), run[1..], t);
      hide Do, Can, BecomesTgt;
    }
  }

  // ---- What a section does ----

  /** A swap and, when it serves a renewal, the backoff after its failure. */
  function Swapped(d: Data, cred: Cred, why: SwapFor, fault: SwapFault): (d': Data) {
    var d' := SetTGT(d, cred, fault);
    if SwapSucceeds(d, fault) || why.ForStore? then d' else NoteRenewFailure(d', Clock(why.job))
  }

  /** The rest of a load. */
  function LoadRest(d: Data, rest: seq<Cred>, found: Option<Cred>, now: Time, load: LoadFault): (d': Data) {
    if load.LoadFails? && load.n <= |rest| then d.(cache := LoadAll(d.cache, found, rest[..load.n], now).0)
    else var (cache, found) := LoadAll(d.cache, found, rest, now); Adopted(d, d.principal, cache, found)
  }

  /** The data a section leaves behind, by where it stands, in world `v`. */
  function Leaves(minLife: int, d: Data, w: WPoint, v: World): (d': Data) {
    match w
    case Reload(job) =>
      if NeedsAttention(d, minLife, Clock(job)) then LoadNewer(d, Clock(job), v.src, v.loaded, v.load) else d
    case Loading(job, rest, found) => LoadRest(d, rest, found, Clock(job), v.load)
    case RenewBegin(job) => if RenewalStarts(d) then d.(renewing := true) else d
    case RenewEnd(job, started, answer) => RenewFinish(d, started, answer, Clock(job), v.swap)
    case SwapRemove(cred, why) => Swapped(d, cred, why, v.swap)
    case SwapStore(cred, why) => if v.swap.StoreFails? then SwapFailed(d, why).0 else Install(d, cred)
    case StoreIt(wire) => Store(d, wire, v.swap)
    case InitIt(p) => Initialize(d, p, v.load.LoadOk?)
    case RemoveIt(client, server) => Remove(d, client, server)
  }

  /** Whether the process ends in it. */
  predicate Fatal(minLife: int, d: Data, w: WPoint, v: World) {
    match w
    case Reload(job) => Reloads(d, minLife, Clock(job)) && LosesTgt(d, Clock(job), v.src, v.loaded, v.load)
    case Loading(_, rest, found) => (v.load.LoadFails? ==> v.load.n > |rest|) && found.None? && Peek(rest).None?
    case _ => false
  }

  // ---- One write step ----

  /** A step that leaves or ends the process does what its section does from there; a step that stays hands
      the section on. */
  ghost predicate Refines(t: Tid, minLife: int, d: Data, h: History, w: WPoint, c: Choice, later: World) {
    var (d1, _, n) := WriteStep(t, minLife, d, h, w, c);
    var v := MeetUnderWrite(d, w, c, later);
    match n
    case StayW(w1) => Leaves(minLife, d, w, v) == Leaves(minLife, d1, w1, later)
                      && Fatal(minLife, d, w, v) == Fatal(minLife, d1, w1, later)
    case LeaveW(_) => Leaves(minLife, d, w, v) == d1 && !Fatal(minLife, d, w, v)
    case Crash => Leaves(minLife, d, w, v) == d1 && Fatal(minLife, d, w, v)
  }

  lemma SwapStepRefines(t: Tid, minLife: int, d: Data, h: History, w: WPoint, c: Choice, later: World)
    requires w.SwapRemove? || w.SwapStore?
    ensures Refines(t, minLife, d, h, w, c, later)
  {
    hide ClearRenewable, RemoveExact;
  }

  lemma LoadStepRefines(t: Tid, minLife: int, d: Data, h: History, w: WPoint, c: Choice, later: World)
    requires w.Loading?
    ensures Refines(t, minLife, d, h, w, c, later)
  {
    var now, rest := Clock(w.job), w.rest;
    if !c.ok {
      assert rest[..0] == [];
    } else if rest != [] {
      LoadOneFinds(d.cache, w.found, rest[0], now);
      if later.load.LoadFails? && later.load.n < |rest| {
        var part := rest[..later.load.n + 1];
        assert part[0] == rest[0] && part[1..] == rest[1..][..later.load.n];
      }
    }
    hide LoadOne, RenewWanted, OwnTgt, Candidate;
  }

  lemma LoadOneFinds(cache: seq<Cred>, found: Option<Cred>, c: Cred, now: Time)
    ensures LoadOne(cache, found, c, now).1.None? <==> found.None? && !Candidate(c)
  {
    hide IsConfig, LocalTGT, ClearRenewable, End;
  }

  lemma ReloadStepRefines(t: Tid, minLife: int, d: Data, h: History, w: WPoint, c: Choice, later: World)
    requires w.Reload?
    ensures Refines(t, minLife, d, h, w, c, later)
  {
    hide RenewWanted, NeedsAttention, LoadAll, Peek, End, Expired;
  }

  lemma RenewalStepRefines(t: Tid, minLife: int, d: Data, h: History, w: WPoint, c: Choice, later: World)
    requires w.RenewBegin? || w.RenewEnd?
    ensures Refines(t, minLife, d, h, w, c, later)
  {
    hide SetTGT;
  }

  lemma OperationRefines(t: Tid, minLife: int, d: Data, h: History, w: WPoint, c: Choice, later: World)
    requires w.StoreIt? || w.InitIt? || w.RemoveIt?
    ensures Refines(t, minLife, d, h, w, c, later)
  {
    hide SetTGT, BuildPrincipal, BecomesTgt, RemoveNamed;
  }

  lemma WriteStepRefines(t: Tid, minLife: int, d: Data, h: History, w: WPoint, c: Choice, later: World)
    ensures Refines(t, minLife, d, h, w, c, later)
  {
    hide Refines;
    match w
    case Reload(_) => ReloadStepRefines(t, minLife, d, h, w, c, later);
    case Loading(_, _, _) => LoadStepRefines(t, minLife, d, h, w, c, later);
    case RenewBegin(_) => RenewalStepRefines(t, minLife, d, h, w, c, later);
    case RenewEnd(_, _, _) => RenewalStepRefines(t, minLife, d, h, w, c, later);
    case SwapRemove(_, _) => SwapStepRefines(t, minLife, d, h, w, c, later);
    case SwapStore(_, _) => SwapStepRefines(t, minLife, d, h, w, c, later);
    case _ => OperationRefines(t, minLife, d, h, w, c, later);
  }

  // ---- A whole section inside any run ----

  /** The run lasts exactly as long as goroutine `t` keeps the write lock, or until the process ends. */
  ghost predicate Section(s: State, run: seq<Action>, t: Tid)
    requires Legal(s, run)
    decreases |run|
  {
    && run != [] && s.lock.writer == Some(t)
    && var s' := Do(s, run[0]);
       if |run| == 1 then s'.lock.writer != Some(t) || s'.down else Section(s', run[1..], t)
  }

  /** Beside a writer nothing touches the data. */
  lemma WriterIsAlone(s: State, t: Tid, a: Action)
    requires LockInv(s) && s.lock.writer == Some(t) && Can(s, a) && !StepOf(a, t)
    ensures Do(s, a).data == s.data && Do(s, a).lock.writer == Some(t) && !Do(s, a).down
    ensures Do(s, a).minLife == s.minLife && WriterPoint(Do(s, a)) == WriterPoint(s)
  {
    if a.Step? {
      var pc := s.threads[a.t];
      assert !RoleIn(s, a.t).Writer?;
      if Reads(pc) {
        ReadFrame(s, a.t, a.c);
        assert false;
      } else if Enters(pc) {
        EnterFrame(s, a.t, a.c);
        assert false;
      } else {
        OutsideFrame(s, a.t, a.c);
      }
      hide ThreadStep, Enabled, LockInv;
    } else {
      assert RoleIn(s, t).Writer?;
      hide LockInv;
    }
  }

  lemma WriterStep(s: State, c: Choice, t: Tid)
    requires LockInv(s) && Enabled(s, t) && s.lock.writer == Some(t) && WriterPoint(s).Some?
    ensures var s', (d, h, n) := ThreadStep(s, t, c), WriteStep(t, s.minLife, s.data, s.hist, WriterPoint(s).value, c);
            && s'.data == d && s'.minLife == s.minLife && WriterPoint(s') == PointAfter(WriterPoint(s).value, n)
            && (s'.lock.writer == Some(t) <==> !n.LeaveW?) && s'.down == (s.down || n.Crash?)
            && s.threads[t] == Working(s.threads[t].ctx, InW(WriterPoint(s).value))
  {
    WriteFrame(s, t, c);
    hide ThreadStep, WriteStep, LockInv, Enabled;
  }

  /** From the moment a goroutine has the write lock until it gives it up, in every interleaving, the data
      changes exactly as one session operation changes it, for the file its own steps read and the failures
      they met; and the process ends in it exactly when that operation is fatal. */
  lemma {:induction false} SectionIsAtomic(s: State, run: seq<Action>, t: Tid)
    requires LockInv(s) && Legal(s, run) && Section(s, run, t) && WriterPoint(s).Some?
    ensures var s', w, v := Final(s, run), WriterPoint(s).value, Met(s, run, t);
            s'.data == Leaves(s.minLife, s.data, w, v) && s'.down == Fatal(s.minLife, s.data, w, v)
    decreases |run|
  {
    hide Leaves, Fatal, LockInv, Can;
    var a := run[0];
    var s', rest := Do(s, a), run[1..];
    assert !s.down && Can(s, a) by { NotDown(s, run); }
    DoKeepsLock(s, a);
    var later := Met(s', rest, t);
    if StepOf(a, t) {
      StepEnabled(s, a);
      WriterStep(s, a.c, t);
      assert s' == ThreadStep(s, t, a.c);
      var w := WriterPoint(s).value;
      WriteStepRefines(t, s.minLife, s.data, s.hist, w, a.c, later);
      hide ThreadStep, Enabled;
      if |run| > 1 {
        NotDown(s', rest);
        SectionIsAtomic(s', rest, t);
      } else {
        assert rest == [] && Final(s', rest) == s';
      }
      hide WriteStep, MeetUnderWrite, Do;
      assert Final(s, run) == Final(s', rest);
    } else {
      WriterIsAlone(s, t, a);
      SectionIsAtomic(s', rest, t);
    }
  }

  lemma NotDown(s: State, run: seq<Action>)
    requires Legal(s, run) && run != []
    ensures !s.down && Can(s, run[0])
  {
  }

  lemma StepEnabled(s: State, a: Action)
    requires Can(s, a) && a.Step?
    ensures Enabled(s, a.t)
  {
  }

  /** The whole operation, nothing failing, on the file `src`, loaded as `loaded`. */
  predicate Succeeds(minLife: int, d: Data, w: WPoint, src: Source, loaded: seq<Cred>, d': Data) {
    match w
    case Reload(job) => NeedsAttention(d, minLife, Clock(job)) ==> d' == LoadNewer(d, Clock(job), src, loaded, LoadOk)
    case RenewEnd(job, started, answer) => d' == RenewFinish(d, started, answer, Clock(job), SwapOk)
    case StoreIt(wire) => d' == Store(d, wire, SwapOk)
    case InitIt(p) => d' == Initialize(d, p, true)
    case RemoveIt(client, server) => d' == Remove(d, client, server)
    case _ => true
  }

  /** A section none of whose own library calls fails does the whole operation. */
  lemma CleanSection(s: State, run: seq<Action>, t: Tid)
    requires LockInv(s) && Legal(s, run) && Section(s, run, t) && WriterPoint(s).Some? && AllOk(run, t)
    ensures var v := Met(s, run, t);
            Succeeds(s.minLife, s.data, WriterPoint(s).value, v.src, v.loaded, Final(s, run).data)
  {
    SectionIsAtomic(s, run, t);
    NoFailureMet(s, run, t);
    hide Final, Legal, Section, LockInv, WriterPoint, LoadNewer, RenewFinish, Store, Initialize, Remove, Met;
  }

  /** In every interleaving a reload keeps the TGT; or, when one of its own library calls fails, it may leave
      none; or it puts in place the TGT of the entries it loaded. That one is newer than the TGT held exactly
      when those entries would themselves be adopted, so always when the file did not change between its two
      reads; and without one the process ends there. */
  lemma ReloadSectionIsNewer(s: State, run: seq<Action>, t: Tid)
    requires LockInv(s) && Legal(s, run) && Section(s, run, t)
    requires WriterPoint(s).Some? && WriterPoint(s).value.Reload?
    ensures var s', d, now, v := Final(s, run), s.data, Clock(WriterPoint(s).value.job), Met(s, run, t);
            var d' := s'.data;
            || (d'.tgt == d.tgt && !s'.down)
            || (d'.tgt.None? && !AllOk(run, t) && !s'.down)
            || (&& v.src.File? && HeldCred(d') == Peek(v.loaded) && s'.down == d'.tgt.None?
                && (d'.tgt.Some? && Newer(d, now, d'.tgt.value.cred) <==>
                    Adopts(d, now, File(v.src.principal, v.loaded)))
                && (v.loaded == v.src.creds ==> !s'.down && Newer(d, now, d'.tgt.value.cred)))
  {
    SectionIsAtomic(s, run, t);
    if AllOk(run, t) {
      NoFailureMet(s, run, t);
    }
    var d, now, v := s.data, Clock(WriterPoint(s).value.job), Met(s, run, t);
    AdoptionIsNewer(d, now, v.src, v.loaded, v.load);
    hide Final, Legal, Section, LockInv, WriterPoint, Met, AllOk, LoadNewer, NeedsAttention, Newer, Peek, Adopts;
    if Reloads(d, s.minLife, now) && GoesThrough(d, now, v.src, v.loaded, v.load) {
      assert v.src.File? by { AdoptsFile(d, now, v.src); }
    } else {
      Throttled(d, now, v);
    }
  }

  lemma AdoptsFile(d: Data, now: Time, src: Source)
    requires Adopts(d, now, src)
    ensures src.File?
  {
  }

  lemma Throttled(d: Data, now: Time, v: World)
    ensures now - d.lastCheck < FILE_CHECK_INTERVAL ==> LoadNewer(d, now, v.src, v.loaded, v.load) == d
  {
  }

  /** In every interleaving the section that ends a renewal clears the renewing flag and, if it replaces
      the TGT at all, replaces the object the renewal started from by the KDC's answer; when its own library
      calls succeed and the answer is there, it does replace it. */
  lemma RenewalSectionReplacesStarted(s: State, run: seq<Action>, t: Tid)
    requires LockInv(s) && Legal(s, run) && Section(s, run, t)
    requires WriterPoint(s).Some? && WriterPoint(s).value.RenewEnd?
    ensures var d, d', w := s.data, Final(s, run).data, WriterPoint(s).value;
            var same := d.tgt.Some? && d.tgt.value.id == w.started.id;
            && !d'.renewing && d'.principal == d.principal
            && (d'.tgt == d.tgt || (same && d'.tgt.Some? && Some(d'.tgt.value.cred) == w.answer))
            && (same && w.answer.Some? && AllOk(run, t) ==> HeldCred(d') == w.answer && d'.backoff == 0)
            && (!same ==> d' == d.(renewing := false))
  {
    SectionIsAtomic(s, run, t);
    if AllOk(run, t) {
      NoFailureMet(s, run, t);
    }
    hide Final, Legal, Section, LockInv, WriterPoint, RemoveExact, ClearRenewable, Met, AllOk;
  }

  // ---- A file that keeps its TGT between the two reads ----

  /** The TGT that was peeked at is there, or another one is, when the file is loaded. */
  predicate KeepsTgt(c: Choice) { c.src.File? && Peek(c.src.creds).Some? ==> Peek(c.loaded).Some? }

  ghost predicate KeepsTgtRun(run: seq<Action>) {
    forall i :: 0 <= i < |run| && run[i].Step? ==> KeepsTgt(run[i].c)
  }

  predicate WillFind(pc: Pc) {
    pc.Working? && (pc.body.WantW? || pc.body.PendW? || pc.body.InW?) && pc.body.w.Loading? ==>
      pc.body.w.found.Some? || Peek(pc.body.w.rest).Some?
  }

  ghost predicate UpInv(s: State) { !s.down && forall t :: t in s.threads ==> WillFind(s.threads[t]) }

  lemma WriteFinds(t: Tid, minLife: int, d: Data, h: History, w: WPoint, c: Choice)
    requires w.Loading? ==> w.found.Some? || Peek(w.rest).Some?
    requires KeepsTgt(c)
    ensures var n := WriteStep(t, minLife, d, h, w, c).2;
            !n.Crash? && (n.StayW? && n.w.Loading? ==> n.w.found.Some? || Peek(n.w.rest).Some?)
  {
    if w.Loading? && w.rest != [] {
      LoadOneFinds(d.cache, w.found, w.rest[0], Clock(w.job));
    }
    hide Reloads, RenewWanted, LoadOne, WithoutTgt, BecomesTgt, BuildPrincipal, RemoveNamed, OwnTgt, ClearRenewable;
    hide Candidate, End, Expired;
  }

  lemma StepStaysUp(s: State, t: Tid, c: Choice)
    requires UpInv(s) && LockInv(s) && Enabled(s, t) && KeepsTgt(c)
    ensures UpInv(ThreadStep(s, t, c))
  {
    var pc := s.threads[t];
    assert WillFind(pc);
    if Writes(pc) {
      WriteFrame(s, t, c);
      WriteFinds(t, s.minLife, s.data, s.hist, pc.body.w, c);
      hide ThreadStep, WriteStep, LockInv, Enabled, Peek;
    } else {
      OtherFinds(s, t, c);
      if Reads(pc) { ReadFrame(s, t, c); }
      else if Enters(pc) { EnterFrame(s, t, c); }
      else { OutsideFrame(s, t, c); }
      hide ThreadStep, LockInv, Enabled, Peek;
    }
  }

  lemma OtherFinds(s: State, t: Tid, c: Choice)
    requires Enabled(s, t) && !Writes(s.threads[t]) && WillFind(s.threads[t])
    ensures var s' := ThreadStep(s, t, c); t in s'.threads && WillFind(s'.threads[t])
  {
    var pc := s.threads[t];
    if pc.Working? {
      BodyFinds(s, t, pc.ctx, pc.body, c);
      hide BodyStep, Peek;
    } else {
      hide BodyStep, Peek;
    }
  }

  lemma BodyFinds(s: State, t: Tid, k: Option<Ctx>, b: Body, c: Choice)
    requires Enabled(s, t) && s.threads[t] == Working(k, b) && !b.InW? && WillFind(s.threads[t])
    ensures var s' := BodyStep(s, t, k, b, c); t in s'.threads && WillFind(s'.threads[t])
  {
    hide ReadStep, FlightStep, IsFlightPoint, Peek, Enabled;
  }

  lemma DoStaysUp(s: State, a: Action)
    requires UpInv(s) && LockInv(s) && Can(s, a) && (a.Step? ==> KeepsTgt(a.c))
    ensures UpInv(Do(s, a))
  {
    if a.Step? {
      StepStaysUp(s, a.t, a.c);
    }
    hide ThreadStep, Enabled, LockInv, Peek;
  }

  lemma {:induction false} StaysUp(s: State, run: seq<Action>)
    requires UpInv(s) && LockInv(s) && Legal(s, run) && KeepsTgtRun(run)
    ensures UpInv(Final(s, run))
    decreases |run|
  {
    hide LockInv, UpInv, KeepsTgt, Do, Can;
    if run != [] {
      DoKeepsLock(s, run[0]);
      DoStaysUp(s, run[0]);
      StaysUp(Do(s, run[0]), run[1..]);
    }
  }

  /** In every run in which the file never loses its TGT between the two reads of a reload, the process
      stays up. */
  lemma NeverDown(s: State, creds: seq<Cred>, now: Time, run: seq<Action>)
    requires Opened(s, creds, now) && Legal(s, run) && KeepsTgtRun(run)
    ensures !Final(s, run).down
  {
    OpenedLock(s, creds, now);
    StaysUp(s, run);
  }
}
