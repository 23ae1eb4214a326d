/** The renewal protocol under every interleaving: the exchange runs outside the lock, one at a time, and its
    result is swapped in only over the TGT object it started from. */
module DaemonTgt {
  import opened Wire
  import opened Names
  import opened Credentials
  import opened Session
  import opened SessionLaws
  import opened Daemon
  import opened DaemonLock

  // ---- Where goroutines are ----

  /** The points a goroutine may ask for the write lock at. */
  predicate EntryPoint(w: WPoint) { !w.Loading? && !w.SwapRemove? && !w.SwapStore? }

  predicate WellPlaced(pc: Pc) {
    pc.Working? && (pc.body.WantW? || pc.body.PendW?) ==> EntryPoint(pc.body.w)
  }

  /** The TGT whose renewal a goroutine has started and not yet finished. */
  function Renewing(pc: Pc): (st: Option<Tgt>) {
    if !pc.Working? then None
    else
      match pc.body
      case Out(Exchange(_, started)) => Some(started)
      case WantW(RenewEnd(_, started, _)) => Some(started)
      case PendW(RenewEnd(_, started, _)) => Some(started)
      case InW(RenewEnd(_, started, _)) => Some(started)
      case _ => None
  }

  /** The TGT a swap under way replaces, when it comes from a renewal. */
  function Swapping(pc: Pc): (st: Option<Tgt>) {
    if !pc.Working? || !pc.body.InW? then None
    else
      match pc.body.w
      case SwapRemove(_, ForRenewal(_, started)) => Some(started)
      case SwapStore(_, ForRenewal(_, started)) => Some(started)
      case _ => None
  }

  function RenewingIn(s: State, t: Tid): (st: Option<Tgt>) {
    if t in s.threads then Renewing(s.threads[t]) else None
  }

  function SwappingIn(s: State, t: Tid): (st: Option<Tgt>) {
    if t in s.threads then Swapping(s.threads[t]) else None
  }

  // ---- Renewal ----

  /** `renewing` is set exactly while one goroutine is between the two critical sections, TGT objects
      are told apart by identity, and a renewal swaps out the very object it started from. */
  ghost predicate RenewInv(s: State) {
    && (s.data.renewing <==> s.hist.renewer.Some?)
    && (forall t: Tid :: RenewingIn(s, t).Some? <==> s.hist.renewer == Some(t))
    && (s.data.tgt.Some? ==> s.data.tgt.value.id < s.data.nextId)
    && (forall t: Tid :: RenewingIn(s, t).Some? ==> Traced(s.data, RenewingIn(s, t).value))
    && (forall t: Tid :: SwappingIn(s, t).Some? ==> s.data.tgt == SwappingIn(s, t))
    && (forall t :: t in s.threads ==> WellPlaced(s.threads[t]))
  }

  /** The identity of `st` can only mean `st`. */
  predicate Traced(d: Data, st: Tgt) {
    st.id < d.nextId && (d.tgt.Some? && d.tgt.value.id == st.id ==> d.tgt.value == st)
  }

  /** What a step does to the remembered TGT: keeps it, drops it, or installs a new object. */
  predicate TgtMove(d: Data, d': Data) {
    && d'.nextId >= d.nextId
    && (d'.tgt == d.tgt || d'.tgt.None? || (d'.nextId > d.nextId && d'.tgt.value.id == d.nextId))
  }

  lemma TracedStays(d: Data, d': Data, st: Tgt)
    requires Traced(d, st) && TgtMove(d, d')
    ensures Traced(d', st)
  {
  }

  /** The parts of a step that the renewal protocol is about. */
  ghost predicate RenewStep(s: State, t: Tid, s': State) {
    && t in s'.threads && s'.threads == s.threads[t := s'.threads[t]]
    && TgtMove(s.data, s'.data) && WellPlaced(s'.threads[t])
    && (|| (Renewing(s'.threads[t]) == RenewingIn(s, t)
            && s'.data.renewing == s.data.renewing && s'.hist.renewer == s.hist.renewer)
        || (RenewingIn(s, t).None? && !s.data.renewing && s'.data.renewing && s'.hist.renewer == Some(t)
            && s.data.tgt.Some? && s'.data == s.data.(renewing := true) && Renewing(s'.threads[t]) == s.data.tgt)
        || (RenewingIn(s, t).Some? && Renewing(s'.threads[t]).None? && !s'.data.renewing && s'.hist.renewer.None?))
    && (Swapping(s'.threads[t]).Some? ==>
          || (Swapping(s'.threads[t]) == SwappingIn(s, t) && s'.data.tgt == s.data.tgt)
          || (Swapping(s'.threads[t]) == RenewingIn(s, t) && s'.data.tgt == s.data.tgt
              && s.data.tgt.Some? && s.data.tgt.value.id == RenewingIn(s, t).value.id))
    && ((exists u: Tid :: u != t && SwappingIn(s, u).Some?) ==> s'.data.tgt == s.data.tgt)
  }

  lemma RenewStepKeeps(s: State, t: Tid, s': State)
    requires RenewInv(s) && RenewStep(s, t, s')
    ensures RenewInv(s')
  {
    assert forall u: Tid :: u != t ==> RenewingIn(s', u) == RenewingIn(s, u) && SwappingIn(s', u) == SwappingIn(s, u);
    assert RenewingIn(s', t) == Renewing(s'.threads[t]) && SwappingIn(s', t) == Swapping(s'.threads[t]);
    assert RenewingIn(s, t).Some? ==> Traced(s.data, RenewingIn(s, t).value);
    hide RenewingIn, SwappingIn, Renewing, Swapping, WellPlaced;
    forall u: Tid | RenewingIn(s', u).Some? ensures Traced(s'.data, RenewingIn(s', u).value) {
      if u != t || RenewingIn(s', t) == RenewingIn(s, t) {
        TracedStays(s.data, s'.data, RenewingIn(s, u).value);
      }
    }
    forall u: Tid | SwappingIn(s', u).Some? ensures s'.data.tgt == SwappingIn(s', u) {
      if u != t {
        assert SwappingIn(s, u).Some?;
      }
    }
  }

  lemma OutsideRenewStep(s: State, t: Tid, k: Option<Ctx>, b: Body, c: Choice)
    requires RenewInv(s) && LockInv(s) && Enabled(s, t) && s.threads[t] == Working(k, b) && !b.InR? && !b.InW?
    ensures RenewStep(s, t, BodyStep(s, t, k, b, c))
  {
    assert WellPlaced(s.threads[t]);
    hide RenewInv, LockInv, UnderRead, UnderWrite, Enabled;
  }

  lemma PoolRenewStep(s: State, t: Tid, c: Choice)
    requires Enabled(s, t) && !s.threads[t].Working?
    ensures RenewStep(s, t, ThreadStep(s, t, c))
  {
  }

  lemma SharedSteps(s: State, t: Tid, e: nat, r: RPoint, c: Choice)
    ensures IsFlightPoint(r) ==>
              var (d, _, n) := FlightStep(t, e, s.data, s.flights, r, c);
              && d == s.data.(cache := d.cache) && (n.LeaveR? ==> !n.o.Exchange?)
    ensures !IsFlightPoint(r) ==>
              var (d, n) := ReadStep(s.minLife, s.data, r, c);
              && d == s.data.(cache := d.cache) && (n.LeaveR? ==> !n.o.Exchange?)
  {
    hide NeedsAttention, RenewWanted, Stale, RemoveExact, NoUsableTgt, Result, Amend;
  }

  lemma ReadRenewStep(s: State, t: Tid, k: Option<Ctx>, b: Body, c: Choice)
    requires Enabled(s, t) && s.threads[t] == Working(k, b) && b.InR?
    ensures RenewStep(s, t, BodyStep(s, t, k, b, c))
  {
    SharedSteps(s, t, b.epoch, b.r, c);
    hide ReadStep, FlightStep, IsFlightPoint, Enabled;
  }

  /** A write step seen from the renewal protocol. */
  lemma WriteRenewals(t: Tid, minLife: int, d: Data, h: History, w: WPoint, c: Choice)
    ensures var (d', h', n) := WriteStep(t, minLife, d, h, w, c);
            var from, to := Working(None, InW(w)), Working(None, AfterWrite(w, n));
            && TgtMove(d, d')
            && (|| (Renewing(to) == Renewing(from) && d'.renewing == d.renewing && h'.renewer == h.renewer)
                || (Renewing(from).None? && !d.renewing && d'.renewing && h'.renewer == Some(t)
                    && d.tgt.Some? && d' == d.(renewing := true) && Renewing(to) == d.tgt)
                || (Renewing(from).Some? && Renewing(to).None? && !d'.renewing && h'.renewer.None?))
            && (Swapping(to).Some? ==>
                  || (Swapping(to) == Swapping(from) && d'.tgt == d.tgt)
                  || (Swapping(to) == Renewing(from) && d'.tgt == d.tgt
                      && d.tgt.Some? && d.tgt.value.id == Renewing(from).value.id))
  {
    hide Reloads, RenewWanted, Adopts, LoadOne, WithoutTgt, BecomesTgt, BuildPrincipal, RemoveNamed, OwnTgt;
    hide ClearRenewable;
  }

  /** A goroutine that decided to renew earlier starts whenever it can, even where the retry time set in the
      meantime says to wait: the spacing of retries is one loop's affair. */
  lemma StartIgnoresBackoff(t: Tid, minLife: int, d: Data, h: History, job: Job, c: Choice)
    ensures var n := WriteStep(t, minLife, d, h, RenewBegin(job), c).2;
            n.LeaveW? && (n.o.Exchange? <==> RenewalStarts(d))
    ensures RenewalStarts(d) ==>
              var later := d.(retryAt := Clock(job) + 1);
              && !RenewWanted(later, Clock(job))
              && WriteStep(t, minLife, later, h, RenewBegin(job), c).2 == LeaveW(Exchange(job, d.tgt.value))
  {
  }

  lemma OnlyWriterSwaps(s: State, t: Tid)
    requires LockInv(s) && RoleIn(s, t).Writer?
    ensures forall u: Tid :: u != t ==> SwappingIn(s, u).None?
  {
    forall u: Tid | u != t ensures SwappingIn(s, u).None? {
      assert s.lock.writer == Some(t);
      assert !RoleIn(s, u).Writer?;
    }
  }

  lemma WriteRenewStep(s: State, t: Tid, k: Option<Ctx>, b: Body, c: Choice)
    requires LockInv(s) && Enabled(s, t) && s.threads[t] == Working(k, b) && b.InW?
    ensures RenewStep(s, t, BodyStep(s, t, k, b, c))
  {
    WriteRenewals(t, s.minLife, s.data, s.hist, b.w, c);
    OnlyWriterSwaps(s, t);
    hide WriteStep, LockInv, Enabled, Settled, AfterWrite;
  }

  lemma DoKeepsRenewal(s: State, a: Action)
    requires RenewInv(s) && LockInv(s) && Can(s, a)
    ensures RenewInv(Do(s, a))
  {
    var s' := Do(s, a);
    match a
    case Call(t, job) => RenewStepKeeps(s, t, s');
    case Status(t) => RenewStepKeeps(s, t, s');
    case Step(t, c) => StepKeepsRenewal(s, t, c);
    case CallClose => SameThreads(s, s');
    case CloseStep => SameThreads(s, s');
  }

  lemma SameThreads(s: State, s': State)
    requires s'.threads == s.threads && s'.data == s.data && s'.hist == s.hist && RenewInv(s)
    ensures RenewInv(s')
  {
    assert forall t: Tid :: RenewingIn(s', t) == RenewingIn(s, t) && SwappingIn(s', t) == SwappingIn(s, t);
    hide RenewingIn, SwappingIn;
  }

  lemma StepKeepsRenewal(s: State, t: Tid, c: Choice)
    requires RenewInv(s) && LockInv(s) && Enabled(s, t)
    ensures RenewInv(ThreadStep(s, t, c))
  {
    hide BodyStep, RenewInv, LockInv, RenewStep;
    if !s.threads[t].Working? {
      PoolRenewStep(s, t, c);
    } else {
      var Working(k, b) := s.threads[t];
      if b.InR? { ReadRenewStep(s, t, k, b, c); }
      else if b.InW? { WriteRenewStep(s, t, k, b, c); }
      else { OutsideRenewStep(s, t, k, b, c); }
    }
    RenewStepKeeps(s, t, ThreadStep(s, t, c));
  }

  // ---- Every run ----

  lemma {:induction false} RenewRun(s: State, run: seq<Action>)
    requires LockInv(s) && RenewInv(s) && Legal(s, run)
    ensures LockInv(Final(s, run)) && RenewInv(Final(s, run))
    decreases |run|
  {
    hide LockInv, RenewInv, Do, Can;
    if run != [] {
      DoKeepsLock(s, run[0]);
      DoKeepsRenewal(s, run[0]);
      RenewRun(Do(s, run[0]), run[1..]);
    }
  }

  lemma OpenedRenewal(s: State, creds: seq<Cred>, now: Time)
    requires Opened(s, creds, now)
    ensures RenewInv(s)
  {
    hide LoadAll;
  }

  /** In every interleaving the renewing flag is set exactly while some goroutine is between starting a
      renewal and finishing it, there is never a second such goroutine, and while a renewal's result is
      being swapped in, the TGT held is still the very object that renewal started from. */
  lemma RenewalIsExclusive(s: State, creds: seq<Cred>, now: Time, run: seq<Action>)
    requires Opened(s, creds, now) && Legal(s, run)
    ensures var s' := Final(s, run);
            && (s'.data.renewing <==> exists t: Tid :: RenewingIn(s', t).Some?)
            && (forall t: Tid, u: Tid :: RenewingIn(s', t).Some? && RenewingIn(s', u).Some? ==> t == u)
            && (forall t: Tid :: SwappingIn(s', t).Some? ==> s'.data.tgt == SwappingIn(s', t))
  {
    OpenedLock(s, creds, now);
    OpenedRenewal(s, creds, now);
    RenewRun(s, run);
    hide Final, Legal, RenewingIn, SwappingIn;
    var s' := Final(s, run);
    if s'.data.renewing {
      assert RenewingIn(s', s'.hist.renewer.value).Some?;
    }
  }
}
