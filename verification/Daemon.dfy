/** The daemon as a step system: any number of operations interleaving over the context pool, the
    read/write lock, the flight table, the remembered TGT and the working cache.

One step is one action of one goroutine between two points where others may run: a channel operation,
a lock operation, one library call, or one mutex-guarded block of the flight table. What the
environment decides in a step (the KDC, the file, library failures, which cache entry a cursor shows)
is a Choice.
*/
module Daemon {
  import opened Wire
  import opened Names
  import opened Matching
  import opened Coalescing
  import opened Credentials
  import opened Session
  import opened SessionLaws

  type Tid = nat
  type Ctx = nat
  type Fid = nat

  // ---- What operations do ----

  datatype Job =
    | RetrieveJob(now: Time, mc: MatchCredential)
    | ListJob(now: Time)                                    // ListEntries, EntryByUUID
    | MaintainJob(now: Time)                                // one pass of Run
    | LookJob                                               // DefaultPrincipal
    | StoreJob(wire: CredWire)
    | InitJob(p: Principal)
    | RemoveJob(client: Principal, server: Principal)       // RemoveMatching, RemoveByUUID

  /** The jobs that start with maintenance carry the clock reading they were given. */
  function Clock(job: Job): (now: Time) {
    if job.RetrieveJob? || job.ListJob? || job.MaintainJob? then job.now else 0
  }

  /** What a library lookup gave: the bytes, or an error. */
  datatype Answer = Answer(ok: bool, bytes: Bytes)

  datatype Outcome =
    | Plain                                                 // no shared result involved
    | Passed                                                // a maintenance pass of Run
    | Led(f: Fid, answer: Answer)                           // ran the lookup itself
    | Joined(f: Fid, epoch: nat, mc: MatchCredential, answer: Answer)   // waited for another caller's lookup

  /** Where a goroutine stands while it holds no lock. */
  datatype OutPoint =
    | Start(job: Job)
    | Checked(job: Job, reload: bool, renew: bool)
    | Exchange(job: Job, started: Tgt)                      // the renewal round trip
    | LogFailure(job: Job)
    | ToSweep(job: Job)
    | ToServe(job: Job)
    | Done(out: Outcome)

  /** Where it stands under the read lock. */
  datatype RPoint =
    | Check(job: Job)
    | Note(job: Job)
    | Scan(job: Job, stale: seq<Cred>)
    | Evict(job: Job, stale: seq<Cred>)
    | Serve(job: Job)
    | Lead(f: Fid, key: Bytes)                              // running the lookup
    | Ran(f: Fid, key: Bytes)                               // result written, still in the table
    | Unlisted(f: Fid)                                      // out of the table, done not yet closed
    | Follow(f: Fid, mc: MatchCredential)                   // waiting for done
    | Look

  datatype SwapFor = ForStore | ForRenewal(job: Job, started: Tgt)

  /** Where it stands under the write lock. */
  datatype WPoint =
    | Reload(job: Job)
    | Loading(job: Job, rest: seq<Cred>, found: Option<Cred>)
    | RenewBegin(job: Job)
    | RenewEnd(job: Job, started: Tgt, answer: Option<Cred>)
    | SwapRemove(cred: Cred, why: SwapFor)
    | SwapStore(cred: Cred, why: SwapFor)
    | StoreIt(wire: CredWire)
    | InitIt(p: Principal)
    | RemoveIt(client: Principal, server: Principal)

  /** Lock status of a goroutine, with where it is (or where it will be once it has the lock). */
  datatype Body =
    | Out(o: OutPoint)
    | WantR(r: RPoint)
    | InR(epoch: nat, r: RPoint)
    | WantW(w: WPoint)
    | PendW(w: WPoint)                                      // announced; new readers wait behind it
    | InW(w: WPoint)

  datatype Pc =
    | WantSlot(job: Job)
    | HaveSlot(job: Job)
    | Creating(job: Job)
    | Working(ctx: Option<Ctx>, body: Body)
    | Handing(k: Ctx, out: Outcome)                         // release: about to send the context back
    | Returned(out: Outcome)                                // release: about to give the slot back
    | Finished(out: Outcome)

  // ---- Shared state ----

  /** `leader`, `asked`, `epoch` and `basis` record who started the flight, for what request and on what
      data, for stating properties. */
  datatype Flight = Flight(key: Bytes, leader: Tid, asked: MatchCredential, epoch: nat,
                           basis: (Principal, Option<Tgt>), answer: Option<Answer>, closed: bool)

  datatype Flights = Flights(table: map<Bytes, Fid>, all: seq<Flight>, calls: nat, joins: nat, runs: nat)

  datatype Lock = Lock(readers: set<Tid>, pending: Option<Tid>, writer: Option<Tid>)

  datatype Closer = NotCalled | Taking(n: nat) | Draining | Closed

  /** What happened so far, for stating properties; no step depends on it. `torn` marks a cache left
      behind by a reload that failed after storing the TGT, until the agreement is restored. */
  datatype History = History(torn: bool, readTimes: seq<Time>, renewer: Option<Tid>)

  datatype State = State(
    cap: nat, minLife: int,
    sem: nat, idle: seq<Ctx>, made: nat, freed: seq<Ctx>, closer: Closer,
    lock: Lock, epoch: nat, data: Data, hist: History, flights: Flights,
    threads: map<Tid, Pc>,
    down: bool)                                             // the process has ended

  datatype Choice = Choice(ok: bool, src: Source, loaded: seq<Cred>, kdc: Option<Cred>, pick: nat, more: bool,
                           answer: Answer, added: seq<Cred>)

  // ---- Steps inside a critical section ----

  datatype ONext = GoR(r: RPoint) | GoW(w: WPoint) | Return(out: Outcome)
  datatype RNext = StayR(r: RPoint) | LeaveR(o: OutPoint)
  datatype WNext = StayW(w: WPoint) | LeaveW(o: OutPoint) | Crash

  function OutStep(o: OutPoint, c: Choice): (n: ONext) {
    match o
    case Start(job) => (
      match job
      case StoreJob(wire) => GoW(StoreIt(wire))
      case InitJob(p) => GoW(InitIt(p))
      case RemoveJob(client, server) => GoW(RemoveIt(client, server))
      case LookJob => GoR(Look)
      case _ => GoR(Check(job)))
    case Checked(job, reload, renew) =>
      if reload then GoW(Reload(job)) else if renew then GoW(RenewBegin(job)) else GoR(Scan(job, []))
    case Exchange(job, started) => GoW(RenewEnd(job, started, c.kdc))
    case LogFailure(job) => GoR(Note(job))
    case ToSweep(job) => GoR(Scan(job, []))
    case ToServe(job) =>
      if job.RetrieveJob? then GoR(Serve(job)) else if job.MaintainJob? then Return(Passed) else GoR(Look)
    case Done(out) => Return(out)
  }

  /** Steps that only touch the data; the flight steps are in FlightStep. */
  function ReadStep(minLife: int, d: Data, r: RPoint, c: Choice): (res: (Data, RNext))
    requires !IsFlightPoint(r)
  {
    match r
    case Check(job) =>
      (d, LeaveR(Checked(job, Reloads(d, minLife, Clock(job)), RenewWanted(d, Clock(job)))))
    case Note(job) => (d, LeaveR(ToSweep(job)))
    case Scan(job, stale) =>
      if c.more && c.pick < |d.cache| then
        var e := d.cache[c.pick];
        (d, StayR(Scan(job, if Stale(d.tgt, minLife, Clock(job), e) then stale + [e] else stale)))
      else (d, StayR(Evict(job, stale)))
    case Evict(job, stale) =>
      if stale == [] then (d, LeaveR(ToServe(job)))
      else (if c.ok then d.(cache := RemoveExact(d.cache, stale[0])) else d, StayR(Evict(job, stale[1..])))
    case _ => (d, LeaveR(Done(Plain)))
  }

  predicate IsFlightPoint(r: RPoint) { r.Serve? || r.Lead? || r.Ran? || r.Unlisted? || r.Follow? }

  /** A flight's val and err fields; zero values until the leader has written them. */
  function Result(fl: Flights, f: Fid): (a: Answer) {
    if f < |fl.all| && fl.all[f].answer.Some? then fl.all[f].answer.value else Answer(true, [])
  }

  function Amend(fl: Flights, f: Fid, answer: Option<Answer>, closed: bool): (fl': Flights) {
    if f < |fl.all| then fl.(all := fl.all[f := fl.all[f].(answer := answer, closed := closed)]) else fl
  }

  function FlightStep(t: Tid, epoch: nat, d: Data, fl: Flights, r: RPoint, c: Choice): (res: (Data, Flights, RNext))
    requires IsFlightPoint(r)
  {
    match r
    case Serve(job) =>
      if !job.RetrieveJob? || NoUsableTgt(d, Clock(job)) then (d, fl, LeaveR(Done(Plain)))
      else
        var key := MatchKey(job.mc);
        if key in fl.table then
          (d, fl.(calls := fl.calls + 1, joins := fl.joins + 1), StayR(Follow(fl.table[key], job.mc)))
        else
          var f := |fl.all|;
          (d, fl.(calls := fl.calls + 1, table := fl.table[key := f],
                  all := fl.all + [Flight(key, t, job.mc, epoch, (d.principal, d.tgt), None, false)]),
           StayR(Lead(f, key)))
    case Lead(f, key) =>
      if c.more then (d.(cache := d.cache + c.added), fl, StayR(r))
      else (d, Amend(fl.(runs := fl.runs + 1), f, Some(c.answer), false), StayR(Ran(f, key)))
    case Ran(f, key) => (d, fl.(table := fl.table - {key}), StayR(Unlisted(f)))
    case Unlisted(f) =>
      (d, Amend(fl, f, Some(Result(fl, f)), true), LeaveR(Done(Led(f, Result(fl, f)))))
    case Follow(f, mc) => (d, fl, LeaveR(Done(Joined(f, epoch, mc, Result(fl, f)))))
  }

  /** Where a failed swap goes on. */
  function SwapFailed(d: Data, why: SwapFor): (res: (Data, OutPoint)) {
    match why
    case ForStore => (d, Done(Plain))
    case ForRenewal(job, _) => (NoteRenewFailure(d, Clock(job)), LogFailure(job))
  }

  function WriteStep(t: Tid, minLife: int, d: Data, h: History, w: WPoint, c: Choice): (res: (Data, History, WNext)) {
    match w
    case Reload(job) =>
      var now := Clock(job);
      if !Reloads(d, minLife, now) then
        (d, h, LeaveW(Checked(job, false, RenewWanted(d, now))))
      else
        var d, h := d.(lastCheck := now), h.(readTimes := h.readTimes + [now]);
        if !Adopts(d, now, c.src) || !c.ok then (d, h, LeaveW(Checked(job, false, RenewWanted(d, now))))
        else (d.(principal := c.src.principal, cache := [], tgt := None), h.(torn := false),
              StayW(Loading(job, c.loaded, None)))
    case Loading(job, rest, found) =>
      if !c.ok then
        (d, h.(torn := found.Some? && OwnTgt(d.principal, found.value)),
         LeaveW(Checked(job, false, RenewWanted(d, Clock(job)))))
      else if rest == [] then
        var d := Adopted(d, d.principal, d.cache, found);
        (d, h, if found.None? then Crash else LeaveW(Checked(job, false, RenewWanted(d, Clock(job)))))
      else
        var (cache, found) := LoadOne(d.cache, found, rest[0], Clock(job));
        (d.(cache := cache), h, StayW(Loading(job, rest[1..], found)))
    case RenewBegin(job) =>
      if d.renewing then (d, h, LeaveW(ToSweep(job)))
      else if d.tgt.None? then (d, h, LeaveW(LogFailure(job)))
      else (d.(renewing := true), h.(renewer := Some(t)), LeaveW(Exchange(job, d.tgt.value)))
    case RenewEnd(job, started, answer) =>
      var d, h := d.(renewing := false), h.(renewer := None);
      if d.tgt.None? || d.tgt.value.id != started.id then (d, h, LeaveW(ToSweep(job)))
      else if answer.None? then (NoteRenewFailure(d, Clock(job)), h, LeaveW(LogFailure(job)))
      else (d, h, StayW(SwapRemove(answer.value, ForRenewal(job, started))))
    case SwapRemove(cred, why) =>
      if d.tgt.Some? && !c.ok then
        var (d, o) := SwapFailed(d, why);
        (d, h, LeaveW(o))
      else (d.(cache := WithoutTgt(d)), h, StayW(SwapStore(cred, why)))
    case SwapStore(cred, why) =>
      if !c.ok then
        var (d, o) := SwapFailed(d, why);
        (d, h, LeaveW(o))
      else (Install(d, cred), h, LeaveW(if why.ForRenewal? then ToSweep(why.job) else Done(Plain)))
    case StoreIt(wire) =>
      if wire.Malformed? then (d, h, LeaveW(Done(Plain)))
      else if BecomesTgt(d, wire.cred) then (d, h, StayW(SwapRemove(wire.cred, ForStore)))
      else (if c.ok then d.(cache := d.cache + [wire.cred]) else d, h, LeaveW(Done(Plain)))
    case InitIt(p) =>
      (Initialize(d, p, c.ok), if c.ok && BuildPrincipal(p).Some? then h.(torn := false) else h, LeaveW(Done(Plain)))
    case RemoveIt(client, server) => (Remove(d, client, server), h, LeaveW(Done(Plain)))
  }

  /** The history as a write section leaves it. */
  function Settled(h: History, d: Data): (h': History) { h.(torn := h.torn && !Agrees(d)) }

  // ---- Steps of a goroutine ----

  predicate LockFree(l: Lock) { l.writer.None? && l.pending.None? }

  /** Whether the goroutine's next action can happen now. Only five kinds of action ever wait. */
  predicate Enabled(s: State, t: Tid) {
    && t in s.threads
    && match s.threads[t]
       case WantSlot(_) => s.sem < s.cap
       case Handing(_, _) => |s.idle| < s.cap
       case Finished(_) => false
       case Working(_, b) => (
         match b
         case WantR(_) => LockFree(s.lock)
         case WantW(_) => LockFree(s.lock)
         case PendW(_) => s.lock.readers == {}
         case InR(_, r) => r.Follow? ==> r.f < |s.flights.all| && s.flights.all[r.f].closed
         case _ => true)
       case _ => true
  }

  function With(s: State, t: Tid, pc: Pc): (s': State) { s.(threads := s.threads[t := pc]) }

  /** A pass of Run goes on to read the next wake-up time; every other operation is over. */
  function After(out: Outcome): (pc: Pc) {
    if out.Passed? then Working(None, WantR(Look)) else Finished(out)
  }

  function AfterRead(e: nat, n: RNext): (b: Body) { if n.StayR? then InR(e, n.r) else Out(n.o) }

  function AfterWrite(w: WPoint, n: WNext): (b: Body) {
    match n
    case StayW(w') => InW(w')
    case LeaveW(o) => Out(o)
    case Crash => InW(w)
  }

  /** A step of a reader whose lock was taken in epoch `e`. */
  function UnderRead(s: State, t: Tid, k: Option<Ctx>, e: nat, r: RPoint, c: Choice): (s': State) {
    var (d, fl, next) :=
      if IsFlightPoint(r) then FlightStep(t, e, s.data, s.flights, r, c)
      else var (d, n) := ReadStep(s.minLife, s.data, r, c); (d, s.flights, n);
    With(s, t, Working(k, AfterRead(e, next)))
    .(data := d, flights := fl, lock := if next.StayR? then s.lock else s.lock.(readers := s.lock.readers - {t}))
  }

  /** A step of the writer. A crash ends the process where it stands. */
  function UnderWrite(s: State, t: Tid, k: Option<Ctx>, w: WPoint, c: Choice): (s': State) {
    var (d, h, next) := WriteStep(t, s.minLife, s.data, s.hist, w, c);
    With(s, t, Working(k, AfterWrite(w, next)))
    .(data := d, hist := if next.LeaveW? then Settled(h, d) else h, down := s.down || next.Crash?,
      lock := if next.LeaveW? then s.lock.(writer := None) else s.lock)
  }

  function BodyStep(s: State, t: Tid, k: Option<Ctx>, b: Body, c: Choice): (s': State)
    requires Enabled(s, t) && s.threads[t] == Working(k, b)
  {
    match b
    case Out(o) => (
      match OutStep(o, c)
      case GoR(r) => With(s, t, Working(k, WantR(r)))
      case GoW(w) => With(s, t, Working(k, WantW(w)))
      case Return(out) => With(s, t, if k.Some? then Handing(k.value, out) else After(out)))
    case WantR(r) =>
      With(s, t, Working(k, InR(s.epoch, r))).(lock := s.lock.(readers := s.lock.readers + {t}))
    case WantW(w) => With(s, t, Working(k, PendW(w))).(lock := s.lock.(pending := Some(t)))
    case PendW(w) =>
      With(s, t, Working(k, InW(w))).(lock := s.lock.(pending := None, writer := Some(t)), epoch := s.epoch + 1)
    case InR(e, r) => UnderRead(s, t, k, e, r, c)
    case InW(w) => UnderWrite(s, t, k, w, c)
  }

  function ThreadStep(s: State, t: Tid, c: Choice): (s': State)
    requires Enabled(s, t)
  {
    match s.threads[t]
    case WantSlot(job) => With(s, t, HaveSlot(job)).(sem := s.sem + 1)
    case HaveSlot(job) =>
      if s.idle == [] then With(s, t, Creating(job))
      else With(s, t, Working(Some(s.idle[0]), Out(Start(job)))).(idle := s.idle[1..])
    case Creating(job) =>
      if c.ok then With(s, t, Working(Some(s.made), Out(Start(job)))).(made := s.made + 1)
      else With(s, t, After(if job.MaintainJob? then Passed else Plain)).(sem := if s.sem == 0 then 0 else s.sem - 1)
    case Working(k, b) => BodyStep(s, t, k, b, c)
    case Handing(k, out) => With(s, t, Returned(out)).(idle := s.idle + [k])
    case Returned(out) => With(s, t, After(out)).(sem := if s.sem == 0 then 0 else s.sem - 1)
    case Finished(_) => s
  }

  // ---- Runs ----

  datatype Action =
    | Call(t: Tid, job: Job)               // a request arrives, or Run starts a pass
    | Status(t: Tid)                       // TGT(): read lock only, no context
    | Step(t: Tid, c: Choice)
    | CallClose
    | CloseStep

  predicate CanClose(s: State) {
    match s.closer
    case NotCalled => false
    case Taking(n) => n == s.cap || s.sem < s.cap
    case Draining => true
    case Closed => false
  }

  predicate Can(s: State, a: Action) {
    && !s.down
    && match a
       case Call(t, _) => t !in s.threads
       case Status(t) => t !in s.threads
       case Step(t, _) => Enabled(s, t)
       case CallClose => s.closer.NotCalled?
       case CloseStep => CanClose(s)
  }

  function Do(s: State, a: Action): (s': State)
    requires Can(s, a)
  {
    match a
    case Call(t, job) => With(s, t, WantSlot(job))
    case Status(t) => With(s, t, Working(None, WantR(Look)))
    case Step(t, c) => ThreadStep(s, t, c)
    case CallClose => s.(closer := Taking(0))
    case CloseStep =>
      match s.closer
      case Taking(n) => if n == s.cap then s.(closer := Draining) else s.(closer := Taking(n + 1), sem := s.sem + 1)
      case _ => if s.idle == [] then s.(closer := Closed)
                else s.(freed := s.freed + [s.idle[0]], idle := s.idle[1..])
  }

  ghost predicate Legal(s: State, run: seq<Action>)
    decreases |run|
  {
    run != [] ==> Can(s, run[0]) && Legal(Do(s, run[0]), run[1..])
  }

  ghost function Final(s: State, run: seq<Action>): (s': State)
    requires Legal(s, run)
    decreases |run|
  {
    if run == [] then s else Final(Do(s, run[0]), run[1..])
  }

  /** Open has just returned: one idle context, nobody running, the cache filled from the file. */
  predicate Opened(s: State, creds: seq<Cred>, now: Time) {
    && s.cap >= 1 && s.sem == 0 && s.idle == [0] && s.made == 1 && s.freed == [] && s.closer == NotCalled
    && s.lock == Lock({}, None, None) && s.epoch == 0
    && s.flights == Flights(map[], [], 0, 0, 0) && s.threads == map[] && !s.down
    && s.hist == History(false, [], None) && s.data.lastCheck == ZERO_TIME && !s.data.renewing
    && (s.data.cache, HeldCred(s.data)) == LoadAll([], None, creds, now)
    && (s.data.tgt.Some? ==> s.data.tgt.value.id < s.data.nextId)
  }

  // ---- Counting goroutines ----

  function Those(ths: map<Tid, Pc>, p: Pc -> bool): (ts: set<Tid>) { set t | t in ths && p(ths[t]) }

  lemma ThoseUpdate(ths: map<Tid, Pc>, p: Pc -> bool, t: Tid, pc: Pc)
    ensures Those(ths[t := pc], p) == if p(pc) then Those(ths, p) + {t} else Those(ths, p) - {t}
    ensures t in Those(ths, p) <==> t in ths && p(ths[t])
    ensures |Those(ths[t := pc], p)| ==
            |Those(ths, p)| + (if p(pc) then 1 else 0) - (if t in ths && p(ths[t]) then 1 else 0)
  {
    var a, b := Those(ths, p), Those(ths[t := pc], p);
    assert forall u :: u in b <==> if u == t then p(pc) else u in a;
    assert t in a <==> t in ths && p(ths[t]);
    hide Those;
    assert b == if p(pc) then a + {t} else a - {t};
    AddRemove(a, t);
  }

  lemma AddRemove<T>(a: set<T>, t: T)
    ensures |a + {t}| == |a| + (if t in a then 0 else 1)
    ensures |a - {t}| == |a| - (if t in a then 1 else 0)
  {
    if t in a {
      assert a + {t} == a;
    } else {
      assert a - {t} == a;
    }
  }
}
