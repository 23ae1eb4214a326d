/** Whose TGT it is: in every interleaving, with a KDC that renews for the same client and source files
    that belong to one client, the TGT held is the cache principal's own, whatever INITIALIZE, STORE or
    reload happened while a renewal was out. */
module DaemonOwner {
  import opened Wire
  import opened Names
  import opened Credentials
  import opened Session
  import opened SessionLaws
  import opened Daemon
  import opened DaemonLock
  import opened DaemonTgt
  import opened DaemonFrame

  predicate BelongsTo(p: Principal, c: Cred) { Text(p) == Text(c.client) }

  // ---- The environment ----

  /** Every local TGT in a source file is for the file's own principal. */
  ghost predicate OneOwner(p: Principal, creds: seq<Cred>) {
    forall i :: 0 <= i < |creds| && Candidate(creds[i]) ==> BelongsTo(p, creds[i])
  }

  /** What the environment offers a goroutine that stands at `pc`. */
  ghost predicate HonestChoice(pc: Pc, c: Choice) {
    && (c.src.File? ==> OneOwner(c.src.principal, c.loaded))
    && (c.kdc.Some? && pc.Working? && pc.body.Out? && pc.body.o.Exchange? ==>
          BelongsTo(pc.body.o.started.cred.client, c.kdc.value))
  }

  ghost predicate Honest(s: State, a: Action) {
    a.Step? && a.t in s.threads ==> HonestChoice(s.threads[a.t], a.c)
  }

  ghost predicate HonestRun(s: State, run: seq<Action>)
    requires Legal(s, run)
    decreases |run|
  {
    run != [] ==> Honest(s, run[0]) && HonestRun(Do(s, run[0]), run[1..])
  }

  // ---- The invariant ----

  /** The renewal answer a goroutine brings back is for the client it asked for. */
  predicate AnswerFits(pc: Pc) {
    && pc.Working? && (pc.body.WantW? || pc.body.PendW? || pc.body.InW?)
    && pc.body.w.RenewEnd? && pc.body.w.answer.Some?
    ==>
      BelongsTo(pc.body.w.started.cred.client, pc.body.w.answer.value)
  }

  ghost predicate OwnerGood(d: Data, w: Option<WPoint>) {
    && (d.tgt.Some? ==> BelongsTo(d.principal, d.tgt.value.cred))
    && (w.Some? ==>
          match w.value
          case Loading(_, rest, found) =>
            OneOwner(d.principal, rest) && (found.Some? ==> BelongsTo(d.principal, found.value))
          case SwapRemove(cred, _) => BelongsTo(d.principal, cred)
          case SwapStore(cred, _) => BelongsTo(d.principal, cred)
          case _ => true)
  }

  ghost predicate OwnerInv(s: State) {
    && OwnerGood(s.data, WriterPoint(s))
    && (forall t :: t in s.threads ==> AnswerFits(s.threads[t]))
  }

  // ---- Write sections ----

  lemma WriteKeepsOwner(t: Tid, minLife: int, d: Data, h: History, w: WPoint, c: Choice)
    requires OwnerGood(d, Some(w)) && (c.src.File? ==> OneOwner(c.src.principal, c.loaded))
    requires w.RenewEnd? ==>
               Traced(d, w.started) && (w.answer.Some? ==> BelongsTo(w.started.cred.client, w.answer.value))
    ensures var (d', _, n) := WriteStep(t, minLife, d, h, w, c);
            && OwnerGood(d', PointAfter(w, n))
            && (n.StayW? ==> !n.w.RenewEnd?)
  {
    if w.Loading? && w.rest != [] {
      LoadOneFits(d.principal, d.cache, w.found, w.rest, Clock(w.job));
    }
    hide Reloads, RenewWanted, Adopts, LoadOne, WithoutTgt, BuildPrincipal, RemoveNamed, OwnTgt;
    hide ClearRenewable, OneOwner, LocalTGT;
  }

  lemma LoadOneFits(p: Principal, cache: seq<Cred>, found: Option<Cred>, rest: seq<Cred>, now: Time)
    requires rest != [] && OneOwner(p, rest) && (found.Some? ==> BelongsTo(p, found.value))
    ensures var f := LoadOne(cache, found, rest[0], now).1; f.Some? ==> BelongsTo(p, f.value)
    ensures OneOwner(p, rest[1..])
  {
    hide IsConfig, LocalTGT, End, ClearRenewable;
    assert forall i :: 0 <= i < |rest[1..]| ==> rest[1..][i] == rest[i + 1];
  }

  // ---- Every step ----

  lemma OutsideAnswers(s: State, t: Tid, c: Choice)
    requires Enabled(s, t) && !Writes(s.threads[t]) && HonestChoice(s.threads[t], c) && AnswerFits(s.threads[t])
    ensures var s' := ThreadStep(s, t, c); t in s'.threads && AnswerFits(s'.threads[t])
  {
    var pc := s.threads[t];
    if pc.Working? {
      BodyAnswers(s, t, pc.ctx, pc.body, c);
    }
    hide BodyStep, Enabled, HonestChoice, BelongsTo;
  }

  lemma BodyAnswers(s: State, t: Tid, k: Option<Ctx>, b: Body, c: Choice)
    requires Enabled(s, t) && s.threads[t] == Working(k, b) && !b.InW?
    requires HonestChoice(s.threads[t], c) && AnswerFits(s.threads[t])
    ensures var s' := BodyStep(s, t, k, b, c); t in s'.threads && AnswerFits(s'.threads[t])
  {
    hide ReadStep, FlightStep, IsFlightPoint, OneOwner, BelongsTo, Enabled;
  }

  lemma StepKeepsOwner(s: State, t: Tid, c: Choice)
    requires OwnerInv(s) && RenewInv(s) && LockInv(s) && Enabled(s, t) && HonestChoice(s.threads[t], c)
    ensures OwnerInv(ThreadStep(s, t, c))
  {
    var pc := s.threads[t];
    hide LockInv, ThreadStep, Enabled, OneOwner, BelongsTo;
    assert AnswerFits(pc);
    if Writes(pc) {
      assert pc.body.w.RenewEnd? ==> RenewingIn(s, t) == Some(pc.body.w.started);
      WriteFrame(s, t, c);
      WriteKeepsOwner(t, s.minLife, s.data, s.hist, pc.body.w, c);
      hide WriteStep, OwnerGood;
    } else {
      OutsideAnswers(s, t, c);
      if Reads(pc) {
        ReadFrame(s, t, c);
      } else if Enters(pc) {
        EnterFrame(s, t, c);
        assert WellPlaced(pc);
      } else {
        OutsideFrame(s, t, c);
      }
    }
  }

  lemma DoKeepsOwner(s: State, a: Action)
    requires OwnerInv(s) && RenewInv(s) && LockInv(s) && Can(s, a) && Honest(s, a)
    ensures OwnerInv(Do(s, a))
  {
    hide OwnerGood;
    match a
    case Call(t, job) => assert WriterPoint(Do(s, a)) == WriterPoint(s);
    case Status(t) => assert WriterPoint(Do(s, a)) == WriterPoint(s);
    case Step(t, c) => StepKeepsOwner(s, t, c);
    case CallClose =>
    case CloseStep =>
  }

  // ---- Every run ----

  lemma {:induction false} OwnerRun(s: State, run: seq<Action>)
    requires OwnerInv(s) && RenewInv(s) && LockInv(s) && Legal(s, run) && HonestRun(s, run)
    ensures OwnerInv(Final(s, run))
    decreases |run|
  {
    hide OwnerInv, RenewInv, LockInv, Do, Can, Honest;
    if run != [] {
      DoKeepsOwner(s, run[0]);
      DoKeepsRenewal(s, run[0]);
      DoKeepsLock(s, run[0]);
      OwnerRun(Do(s, run[0]), run[1..]);
    }
  }

  /** A renewal is dropped when the TGT changed meanwhile, so no old identity comes back: the TGT held is
      always for the cache's own principal. */
  lemma TgtIsOwn(s: State, creds: seq<Cred>, now: Time, run: seq<Action>)
    requires Opened(s, creds, now) && OneOwner(s.data.principal, creds)
    requires Legal(s, run) && HonestRun(s, run)
    ensures var d := Final(s, run).data;
            d.tgt.Some? ==> Text(d.tgt.value.cred.client) == Text(d.principal)
  {
    OpenedLock(s, creds, now);
    OpenedRenewal(s, creds, now);
    PeekAgreesWithLoad(creds, now);
    var i := PeekIndex(creds);
    OwnerRun(s, run);
    hide Final, Legal, LoadAll, HonestRun;
  }
}
