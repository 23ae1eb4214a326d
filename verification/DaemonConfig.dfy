/** Config pseudo-entries under every interleaving: only STORE ever puts one into the working cache. */
module DaemonConfig {
  import opened Wire
  import opened Credentials
  import opened Session
  import opened SessionLaws
  import opened Daemon
  import opened DaemonLock
  import opened DaemonFrame
  import opened ConfigEntries
  import Names
  import Coalescing

  predicate ConfigWire(w: CredWire) { w.Marshalled? && IsConfig(w.cred.server) }

  /** What the KDC issues are tickets, never config entries. */
  ghost predicate Tickets(c: Choice) {
    ConfigFree(c.added) && (c.kdc.Some? ==> !IsConfig(c.kdc.value.server))
  }

  ghost predicate TicketRun(run: seq<Action>) { forall i :: 0 <= i < |run| && run[i].Step? ==> Tickets(run[i].c) }

  /** What a write section is about to install as the TGT is no config entry. */
  predicate PlainPoint(w: WPoint) {
    match w
    case RenewEnd(_, _, answer) => answer.Some? ==> !IsConfig(answer.value.server)
    case SwapRemove(cred, _) => !IsConfig(cred.server)
    case SwapStore(cred, _) => !IsConfig(cred.server)
    case _ => true
  }

  predicate PlainPc(pc: Pc) {
    pc.Working? && (pc.body.WantW? || pc.body.PendW? || pc.body.InW?) ==> PlainPoint(pc.body.w)
  }

  /** The goroutine is about to store a config entry, or will be. */
  predicate Bears(pc: Pc) {
    match pc
    case WantSlot(job) => job.StoreJob? && ConfigWire(job.wire)
    case HaveSlot(job) => job.StoreJob? && ConfigWire(job.wire)
    case Creating(job) => job.StoreJob? && ConfigWire(job.wire)
    case Working(_, Out(Start(job))) => job.StoreJob? && ConfigWire(job.wire)
    case Working(_, WantW(StoreIt(wire))) => ConfigWire(wire)
    case Working(_, PendW(StoreIt(wire))) => ConfigWire(wire)
    case Working(_, InW(StoreIt(wire))) => ConfigWire(wire)
    case _ => false
  }

  /** Its next step stores the config entry, if the library does. */
  predicate Puts(pc: Pc) { pc.Working? && pc.body.InW? && pc.body.w.StoreIt? && ConfigWire(pc.body.w.wire) }

  // ---- One step ----

  /** A write step adds a config entry exactly when it is a successful store of one. */
  lemma WriteConfig(t: Tid, minLife: int, d: Data, h: History, w: WPoint, c: Choice)
    requires ConfigFree(d.cache) && PlainPoint(w)
    ensures var (d', _, n) := WriteStep(t, minLife, d, h, w, c);
            && (ConfigFree(d'.cache) <==> !(w.StoreIt? && ConfigWire(w.wire) && c.ok))
            && (n.StayW? ==> PlainPoint(n.w) && !n.w.StoreIt?) && (n.LeaveW? ==> !n.o.Start?)
  {
    assert ConfigFree([]);
    match w
    case Loading(job, rest, found) =>
      if rest != [] { LoadOneConfig(d.cache, found, rest[0], Clock(job)); }
    case SwapRemove(_, _) => WithoutKeepsConfigFree(d);
    case SwapStore(cred, _) =>
      SameServer(cred);
      AppendConfig(d.cache, ClearRenewable(cred));
    case StoreIt(wire) =>
      if wire.Marshalled? {
        AppendConfig(d.cache, wire.cred);
        if BecomesTgt(d, wire.cred) { TgtIsNoConfig(wire.cred); }
      }
    case RemoveIt(client, server) =>
      FilterKeepsConfigFree((e: Cred) => !(SameName(client, e.client) && SameName(server, e.server)), d.cache);
    case _ =>
    hide IsConfig, ConfigFree, LoadOne, WithoutTgt, Filter, BecomesTgt, Reloads, RenewWanted, Adopts, ClearRenewable;
    hide OwnTgt, Names.BuildPrincipal;
  }

  lemma ReadConfig(s: State, t: Tid, e: nat, r: RPoint, c: Choice)
    requires ConfigFree(s.data.cache) && ConfigFree(c.added)
    ensures IsFlightPoint(r) ==> ConfigFree(FlightStep(t, e, s.data, s.flights, r, c).0.cache)
    ensures !IsFlightPoint(r) ==> ConfigFree(ReadStep(s.minLife, s.data, r, c).0.cache)
  {
    assert ConfigFree(s.data.cache + c.added) by { hide IsConfig; }
    if r.Evict? && r.stale != [] {
      FilterKeepsConfigFree((x: Cred) => !ExactMatch(r.stale[0], x), s.data.cache);
    }
    hide IsConfig, ConfigFree, Filter, Reloads, RenewWanted, Stale, NoUsableTgt, Result, Amend, Coalescing.MatchKey;
  }

  lemma OtherPlain(s: State, t: Tid, c: Choice)
    requires Enabled(s, t) && !Writes(s.threads[t]) && PlainPc(s.threads[t]) && Tickets(c)
    ensures var s' := ThreadStep(s, t, c);
            t in s'.threads && PlainPc(s'.threads[t]) && (Bears(s'.threads[t]) ==> Bears(s.threads[t]))
  {
    var pc := s.threads[t];
    if pc.Working? {
      BodyPlain(s, t, pc.ctx, pc.body, c);
    }
    hide BodyStep, ConfigFree, IsConfig;
  }

  lemma BodyPlain(s: State, t: Tid, k: Option<Ctx>, b: Body, c: Choice)
    requires Enabled(s, t) && s.threads[t] == Working(k, b) && !b.InW? && PlainPc(s.threads[t]) && Tickets(c)
    ensures var s' := BodyStep(s, t, k, b, c);
            t in s'.threads && PlainPc(s'.threads[t]) && (Bears(s'.threads[t]) ==> Bears(s.threads[t]))
  {
    if b.InR? {
      ReadersNeverStart(s, t, b.epoch, b.r, c);
    }
    hide ReadStep, FlightStep, IsFlightPoint, IsConfig, ConfigFree, Enabled;
  }

  lemma ReadersNeverStart(s: State, t: Tid, e: nat, r: RPoint, c: Choice)
    ensures IsFlightPoint(r) ==> var n := FlightStep(t, e, s.data, s.flights, r, c).2; n.LeaveR? ==> !n.o.Start?
    ensures !IsFlightPoint(r) ==> var n := ReadStep(s.minLife, s.data, r, c).1; n.LeaveR? ==> !n.o.Start?
  {
    hide Reloads, RenewWanted, Stale, RemoveExact, NoUsableTgt, Result, Amend, Coalescing.MatchKey;
  }

  /** In a config-free cache a step leaves a config entry exactly when it is the store of one. */
  lemma StepConfig(s: State, t: Tid, c: Choice)
    requires LockInv(s) && Enabled(s, t) && ConfigFree(s.data.cache) && PlainPc(s.threads[t]) && Tickets(c)
    ensures ConfigFree(ThreadStep(s, t, c).data.cache) <==> !(Puts(s.threads[t]) && c.ok)
    ensures var s' := ThreadStep(s, t, c);
            && OnlyMoves(s, t, s') && PlainPc(s'.threads[t])
            && (Bears(s'.threads[t]) ==> Bears(s.threads[t]))
  {
    var pc := s.threads[t];
    if Writes(pc) {
      WriteFrame(s, t, c);
      WriteConfig(t, s.minLife, s.data, s.hist, pc.body.w, c);
      hide ThreadStep, WriteStep, LockInv, Enabled, ConfigFree, IsConfig, Tickets;
    } else {
      OtherPlain(s, t, c);
      if Reads(pc) {
        ReadFrame(s, t, c);
        ReadStepConfig(s, t, c);
      }
      else if Enters(pc) { EnterFrame(s, t, c); }
      else { OutsideFrame(s, t, c); }
      hide ThreadStep, LockInv, Enabled, ConfigFree, IsConfig, Tickets, PlainPc, Bears;
    }
  }

  lemma ReadStepConfig(s: State, t: Tid, c: Choice)
    requires Enabled(s, t) && Reads(s.threads[t]) && ConfigFree(s.data.cache) && Tickets(c)
    ensures ConfigFree(ThreadStep(s, t, c).data.cache)
  {
    var b := s.threads[t].body;
    ReadConfig(s, t, b.epoch, b.r, c);
    hide ReadStep, FlightStep, IsFlightPoint, ConfigFree, Enabled;
  }

  // ---- Runs ----

  ghost predicate PlainInv(s: State) { forall t :: t in s.threads ==> PlainPc(s.threads[t]) }

  /** The writer's part of a step, whatever the cache holds. */
  lemma WritePlain(t: Tid, minLife: int, d: Data, h: History, w: WPoint, c: Choice)
    requires PlainPoint(w)
    ensures var n := WriteStep(t, minLife, d, h, w, c).2; n.StayW? ==> PlainPoint(n.w)
  {
    if w.StoreIt? && w.wire.Marshalled? && BecomesTgt(d, w.wire.cred) {
      TgtIsNoConfig(w.wire.cred);
    }
    hide IsConfig, LoadOne, WithoutTgt, BecomesTgt, Reloads, RenewWanted, Adopts, ClearRenewable, OwnTgt;
    hide Names.BuildPrincipal;
  }

  lemma DoKeepsPlain(s: State, a: Action)
    requires PlainInv(s) && LockInv(s) && Can(s, a) && (a.Step? ==> Tickets(a.c))
    ensures PlainInv(Do(s, a))
  {
    if a.Step? {
      var pc := s.threads[a.t];
      if Writes(pc) {
        WriteFrame(s, a.t, a.c);
        WritePlain(a.t, s.minLife, s.data, s.hist, pc.body.w, a.c);
        hide ThreadStep, WriteStep, LockInv, Enabled, IsConfig, Tickets;
      } else {
        OtherPlain(s, a.t, a.c);
        if Reads(pc) { ReadFrame(s, a.t, a.c); }
        else if Enters(pc) { EnterFrame(s, a.t, a.c); }
        else { OutsideFrame(s, a.t, a.c); }
        hide ThreadStep, LockInv, Enabled, IsConfig, Tickets;
      }
    }
  }

  lemma {:induction false} PlainRun(s: State, run: seq<Action>)
    requires PlainInv(s) && LockInv(s) && Legal(s, run) && TicketRun(run)
    ensures PlainInv(Final(s, run)) && LockInv(Final(s, run))
    decreases |run|
  {
    hide PlainInv, LockInv, Do, Can, Tickets;
    if run != [] {
      DoKeepsLock(s, run[0]);
      DoKeepsPlain(s, run[0]);
      PlainRun(Do(s, run[0]), run[1..]);
    }
  }

  /** In every run: a step after which a config-free cache is config-free no more is the successful store of
      a config credential, and such a store is always such a step. */
  lemma ConfigComesFromStore(s: State, creds: seq<Cred>, now: Time, run: seq<Action>, t: Tid, c: Choice)
    requires Opened(s, creds, now) && Legal(s, run) && TicketRun(run) && Tickets(c)
    requires ConfigFree(Final(s, run).data.cache) && Enabled(Final(s, run), t)
    ensures var s1 := Final(s, run);
            !ConfigFree(ThreadStep(s1, t, c).data.cache) <==> Puts(s1.threads[t]) && c.ok
  {
    OpenedLock(s, creds, now);
    PlainRun(s, run);
    hide Final, Legal, Opened, ThreadStep, Enabled, LockInv, ConfigFree, Tickets, TicketRun;
    StepConfig(Final(s, run), t, c);
  }

  ghost predicate NoConfigCalls(run: seq<Action>) {
    forall i :: 0 <= i < |run| && run[i].Call? && run[i].job.StoreJob? ==> !ConfigWire(run[i].job.wire)
  }

  ghost predicate ConfigInv(s: State) {
    ConfigFree(s.data.cache) && forall t :: t in s.threads ==> PlainPc(s.threads[t]) && !Bears(s.threads[t])
  }

  lemma DoKeepsConfigFree(s: State, a: Action)
    requires ConfigInv(s) && LockInv(s) && Can(s, a) && (a.Step? ==> Tickets(a.c))
    requires a.Call? && a.job.StoreJob? ==> !ConfigWire(a.job.wire)
    ensures ConfigInv(Do(s, a))
  {
    if a.Step? {
      StepConfig(s, a.t, a.c);
      assert !Puts(s.threads[a.t]);
    }
    hide ThreadStep, LockInv, Enabled, ConfigFree, IsConfig, Tickets;
  }

  lemma {:induction false} ConfigRun(s: State, run: seq<Action>)
    requires ConfigInv(s) && LockInv(s) && Legal(s, run) && TicketRun(run) && NoConfigCalls(run)
    ensures ConfigInv(Final(s, run))
    decreases |run|
  {
    hide ConfigInv, LockInv, Do, Can, Tickets, ConfigWire;
    if run != [] {
      DoKeepsLock(s, run[0]);
      DoKeepsConfigFree(s, run[0]);
      ConfigRun(Do(s, run[0]), run[1..]);
    }
  }

  /** In every run in which no client stores a config entry, the working cache never holds one. */
  lemma NoStoreNoConfig(s: State, creds: seq<Cred>, now: Time, run: seq<Action>)
    requires Opened(s, creds, now) && Legal(s, run) && TicketRun(run) && NoConfigCalls(run)
    ensures ConfigFree(Final(s, run).data.cache)
  {
    OpenedLock(s, creds, now);
    LoadConfig([], None, creds, now);
    ConfigRun(s, run);
    hide Final, Legal, LoadAll, ConfigFree, TicketRun, NoConfigCalls;
  }
}
