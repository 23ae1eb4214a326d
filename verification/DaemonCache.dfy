/** The working cache under every interleaving: readers never see a half-done swap or reload, and the cached
    TGT agrees with the remembered one, except after a reload that failed half-way. */
module DaemonCache {
  import opened Wire
  import opened Names
  import opened Credentials
  import opened Session
  import opened SessionLaws
  import opened Daemon
  import opened DaemonLock
  import opened DaemonTgt
  import opened DaemonFrame
  import opened DaemonSweep
  import Coalescing

  /** The lock-protected data as the current section leaves it between two library calls. Outside the two
      multi-step changes, `torn` says exactly that the agreement is lost. */
  ghost predicate DataGood(d: Data, h: History, w: Option<WPoint>) {
    if w.Some? && w.value.Loading? then
      !h.torn && d.tgt.None? && Consistent(d.principal, d.cache, w.value.found)
    else if w.Some? && w.value.SwapStore? then h.torn || NoOwnTgt(d.principal, d.cache)
    else h.torn <==> !Agrees(d)
  }

  /** The data after a step, as the lock's next holder finds it. */
  ghost predicate StepGood(d: Data, h: History, w: WPoint, n: WNext) {
    if n.LeaveW? then h.torn || Agrees(d) else DataGood(d, h, PointAfter(w, n))
  }

  ghost predicate CacheInv(s: State) { DataGood(s.data, s.hist, WriterPoint(s)) }

  // ---- Write sections ----

  lemma ReloadGood(t: Tid, minLife: int, d: Data, h: History, w: WPoint, c: Choice)
    requires w.Reload? && DataGood(d, h, Some(w))
    ensures var (d', h', n) := WriteStep(t, minLife, d, h, w, c); StepGood(d', h', w, n)
  {
    hide Reloads, RenewWanted, Adopts, OwnTgt, ClearRenewable;
  }

  lemma LoadingGood(t: Tid, minLife: int, d: Data, h: History, w: WPoint, c: Choice)
    requires w.Loading? && DataGood(d, h, Some(w))
    ensures var (d', h', n) := WriteStep(t, minLife, d, h, w, c); StepGood(d', h', w, n)
  {
    if !c.ok {
      AbandonedLoad(d, w.found);
    } else if w.rest != [] {
      LoadOneKeepsConsistent(d.principal, d.cache, w.found, w.rest[0], Clock(w.job));
      hide LoadOne;
    }
    hide RenewWanted, OwnTgt, ClearRenewable, Consistent;
  }

  /** A load given up before its own TGT went in leaves nothing inconsistent behind. */
  lemma AbandonedLoad(d: Data, found: Option<Cred>)
    requires Consistent(d.principal, d.cache, found) && d.tgt.None?
    ensures (found.Some? && OwnTgt(d.principal, found.value)) || Agrees(d)
  {
    if found.Some? && !OwnTgt(d.principal, found.value) {
      OwnIgnoresFlags(d.principal, found.value);
    }
    hide OwnTgt, ClearRenewable;
  }

  lemma SwapGood(t: Tid, minLife: int, d: Data, h: History, w: WPoint, c: Choice)
    requires (w.SwapRemove? || w.SwapStore?) && DataGood(d, h, Some(w))
    ensures var (d', h', n) := WriteStep(t, minLife, d, h, w, c); StepGood(d', h', w, n)
  {
    if !h.torn {
      if w.SwapRemove? {
        SwapClearsOwnTgt(d);
      } else {
        FirstTgtIsConsistent(d.principal, d.cache, w.cred);
        NothingOwnAgrees(d);
      }
    }
    hide OwnTgt, ClearRenewable, WithoutTgt, RenewWanted;
  }

  lemma NothingOwnAgrees(d: Data)
    requires NoOwnTgt(d.principal, d.cache)
    ensures Agrees(d)
  {
    hide OwnTgt;
  }

  lemma OtherGood(t: Tid, minLife: int, d: Data, h: History, w: WPoint, c: Choice)
    requires DataGood(d, h, Some(w)) && !w.Reload? && !w.Loading? && !w.SwapRemove? && !w.SwapStore?
    ensures var (d', h', n) := WriteStep(t, minLife, d, h, w, c); StepGood(d', h', w, n)
  {
    if !h.torn {
      match w
      case StoreIt(wire) =>
        if wire.Marshalled? && !BecomesTgt(d, wire.cred) {
          StoreKeepsConsistent(d.principal, d.cache, HeldCred(d), wire.cred);
        }
      case RemoveIt(client, server) =>
        RemovalKeepsConsistent(d.principal, d.cache, HeldCred(d),
          (e: Cred) => !(SameName(client, e.client) && SameName(server, e.server)));
      case _ =>
    }
    hide OwnTgt, ClearRenewable, RenewWanted, Filter, SameName, BuildPrincipal, BecomesTgt;
  }

  lemma WriteKeepsGood(t: Tid, minLife: int, d: Data, h: History, w: WPoint, c: Choice)
    requires DataGood(d, h, Some(w))
    ensures var (d', h', n) := WriteStep(t, minLife, d, h, w, c); StepGood(d', h', w, n)
  {
    hide WriteStep, DataGood, StepGood;
    if w.Reload? { ReloadGood(t, minLife, d, h, w, c); }
    else if w.Loading? { LoadingGood(t, minLife, d, h, w, c); }
    else if w.SwapRemove? || w.SwapStore? { SwapGood(t, minLife, d, h, w, c); }
    else { OtherGood(t, minLife, d, h, w, c); }
  }

  // ---- Read sections ----

  /** What a lookup adds to the cache are tickets it asked for, never the client's own TGT: requests for
      a ticket-granting ticket are refused before they reach the library. */
  predicate TicketsOnly(c: Choice) { forall i :: 0 <= i < |c.added| ==> !LocalTGT(c.added[i]) }

  /** All that a read section ever does to the data: drop the matches of a service ticket, or append
      tickets. */
  ghost predicate CacheTouched(d: Data, d': Data, c: Choice) {
    || d' == d
    || (exists x :: !LocalTGT(x) && d' == d.(cache := RemoveExact(d.cache, x)))
    || d' == d.(cache := d.cache + c.added)
  }

  lemma ReadTouches(s: State, t: Tid, e: nat, r: RPoint, c: Choice)
    requires SweepPoint(s.data.tgt, s.minLife, r)
    ensures IsFlightPoint(r) ==> CacheTouched(s.data, FlightStep(t, e, s.data, s.flights, r, c).0, c)
    ensures !IsFlightPoint(r) ==> CacheTouched(s.data, ReadStep(s.minLife, s.data, r, c).0, c)
  {
    if r.Evict? && r.stale != [] {
      assert Stale(s.data.tgt, s.minLife, Clock(r.job), r.stale[0]);
      assert !LocalTGT(r.stale[0]);
    }
    hide Reloads, RenewWanted, Stale, RemoveExact, NoUsableTgt, Result, Amend, LocalTGT, Coalescing.MatchKey;
  }

  /** A read section leaves the own TGTs alone. */
  lemma TouchKeepsOwn(d: Data, d': Data, c: Choice)
    requires CacheTouched(d, d', c) && TicketsOnly(c)
    ensures OwnIn(d.principal, d'.cache) == OwnIn(d.principal, d.cache)
  {
    var own := (e: Cred) => OwnTgt(d.principal, e);
    if d' == d.(cache := d.cache + c.added) {
      FilterAppend(own, d.cache, c.added);
      FilterNone(own, c.added);
    } else if d' != d {
      var x :| !LocalTGT(x) && d' == d.(cache := RemoveExact(d.cache, x));
      FilterTwice(own, (e: Cred) => !ExactMatch(x, e), own, d.cache);
    }
  }

  lemma {:induction false} FilterNone(keep: Cred -> bool, s: seq<Cred>)
    requires forall i :: 0 <= i < |s| ==> !keep(s[i])
    ensures Filter(keep, s) == []
  {
    if s != [] {
      assert forall i :: 0 <= i < |s[1..]| ==> s[1..][i] == s[i + 1];
      FilterNone(keep, s[1..]);
    }
  }

  lemma TouchKeepsAgreement(d: Data, d': Data, c: Choice)
    requires CacheTouched(d, d', c) && TicketsOnly(c)
    ensures Agrees(d') <==> Agrees(d)
  {
    TouchKeepsOwn(d, d', c);
    hide OwnIn, Consistent, RemoveExact, LocalTGT, ClearRenewable, TicketsOnly;
    ConsistentMeans(d.principal, d.cache, HeldCred(d));
    ConsistentMeans(d.principal, d'.cache, HeldCred(d));
  }

  // ---- Every step ----

  lemma ReadStepCache(s: State, t: Tid, c: Choice)
    requires CacheInv(s) && SweepInv(s) && LockInv(s) && Enabled(s, t) && Reads(s.threads[t]) && TicketsOnly(c)
    ensures CacheInv(ThreadStep(s, t, c))
  {
    var b, s' := s.threads[t].body, ThreadStep(s, t, c);
    ReadFrame(s, t, c);
    assert SweepOk(s.data.tgt, s.minLife, s.threads[t]);
    ReadTouches(s, t, b.epoch, b.r, c);
    hide ReadStep, FlightStep, LockInv, Enabled, Agrees, TicketsOnly, IsFlightPoint;
    assert CacheTouched(s.data, s'.data, c);
    hide ThreadStep, CacheTouched;
    TouchKeepsAgreement(s.data, s'.data, c);
  }

  lemma EnterStepCache(s: State, t: Tid, c: Choice)
    requires CacheInv(s) && RenewInv(s) && LockInv(s) && Enabled(s, t) && Enters(s.threads[t])
    ensures CacheInv(ThreadStep(s, t, c))
  {
    EnterFrame(s, t, c);
    assert WellPlaced(s.threads[t]);
    hide ThreadStep, LockInv, RenewInv, Enabled, Agrees;
  }

  lemma WriteStepCache(s: State, t: Tid, c: Choice)
    requires CacheInv(s) && LockInv(s) && Enabled(s, t) && Writes(s.threads[t])
    ensures CacheInv(ThreadStep(s, t, c))
  {
    WriteFrame(s, t, c);
    WriteKeepsGood(t, s.minLife, s.data, s.hist, s.threads[t].body.w, c);
    hide LockInv, ThreadStep, Enabled, WriteStep, Agrees;
  }

  lemma StepKeepsCache(s: State, t: Tid, c: Choice)
    requires CacheInv(s) && SweepInv(s) && RenewInv(s) && LockInv(s) && Enabled(s, t) && TicketsOnly(c)
    ensures CacheInv(ThreadStep(s, t, c))
  {
    var pc := s.threads[t];
    hide DataGood, RenewInv, LockInv, SweepInv, ThreadStep, Enabled, TicketsOnly;
    if Writes(pc) {
      WriteStepCache(s, t, c);
    } else if Reads(pc) {
      ReadStepCache(s, t, c);
    } else if Enters(pc) {
      EnterStepCache(s, t, c);
    } else {
      OutsideFrame(s, t, c);
    }
  }

  lemma DoKeepsCache(s: State, a: Action)
    requires SafeInv(s) && Can(s, a) && (a.Step? ==> TicketsOnly(a.c))
    ensures CacheInv(Do(s, a))
  {
    hide DataGood;
    match a
    case Call(t, job) => assert WriterPoint(Do(s, a)) == WriterPoint(s);
    case Status(t) => assert WriterPoint(Do(s, a)) == WriterPoint(s);
    case Step(t, c) => StepKeepsCache(s, t, c);
    case CallClose =>
    case CloseStep =>
  }

  // ---- Every run ----

  ghost predicate TicketsOnlyRun(run: seq<Action>) {
    forall i :: 0 <= i < |run| && run[i].Step? ==> TicketsOnly(run[i].c)
  }

  /** Every library call of the run succeeds. */
  ghost predicate NothingFails(run: seq<Action>) { forall i :: 0 <= i < |run| && run[i].Step? ==> run[i].c.ok }

  ghost predicate SafeInv(s: State) { LockInv(s) && RenewInv(s) && SweepInv(s) && CacheInv(s) }

  lemma {:induction false} SafeRun(s: State, run: seq<Action>)
    requires SafeInv(s) && Legal(s, run) && TicketsOnlyRun(run)
    ensures SafeInv(Final(s, run))
    decreases |run|
  {
    hide LockInv, RenewInv, SweepInv, CacheInv, Do, Can, TicketsOnly;
    if run != [] {
      DoKeepsLock(s, run[0]);
      DoKeepsRenewal(s, run[0]);
      DoKeepsSweeps(s, run[0]);
      DoKeepsCache(s, run[0]);
      SafeRun(Do(s, run[0]), run[1..]);
    }
  }

  lemma OpenedSafe(s: State, creds: seq<Cred>, now: Time)
    requires Opened(s, creds, now)
    ensures SafeInv(s)
  {
    OpenedLock(s, creds, now);
    LoadAllKeepsConsistent(s.data.principal, [], None, creds, now);
    hide LoadAll, OwnTgt, ClearRenewable, LockInv;
  }

  /** Only a library failure tears a reload. */
  lemma WriteTears(t: Tid, minLife: int, d: Data, h: History, w: WPoint, c: Choice)
    requires c.ok
    ensures WriteStep(t, minLife, d, h, w, c).1.torn ==> h.torn
  {
    hide Reloads, RenewWanted, Adopts, LoadOne, WithoutTgt, BecomesTgt, BuildPrincipal, RemoveNamed, OwnTgt;
  }

  lemma StepTears(s: State, t: Tid, c: Choice)
    requires Enabled(s, t) && c.ok
    ensures ThreadStep(s, t, c).hist.torn ==> s.hist.torn
  {
    if s.threads[t].Working? && s.threads[t].body.InW? {
      WriteTears(t, s.minLife, s.data, s.hist, s.threads[t].body.w, c);
    }
    hide WriteStep, ReadStep, FlightStep, OutStep, Enabled;
  }

  lemma {:induction false} NothingTorn(s: State, run: seq<Action>)
    requires !s.hist.torn && Legal(s, run) && NothingFails(run)
    ensures !Final(s, run).hist.torn
    decreases |run|
  {
    if run != [] {
      if run[0].Step? {
        StepTears(s, run[0].t, run[0].c);
      }
      hide ThreadStep, Enabled;
      NothingTorn(Do(s, run[0]), run[1..]);
    }
  }

  /** In every run, whenever no writer holds the lock (so whenever anyone reads): the cache holds at most one
      own TGT, and it is the remembered one with the renewable bit cleared, exactly unless a reload that
      failed after storing the TGT has not been made up for. Without library failures there is no such
      reload at all. */
  lemma CacheAgreement(s: State, creds: seq<Cred>, now: Time, run: seq<Action>)
    requires Opened(s, creds, now) && Legal(s, run) && TicketsOnlyRun(run)
    ensures var s' := Final(s, run);
            && (s'.lock.readers != {} ==> s'.lock.writer.None?)
            && (s'.lock.writer.None? ==> (Agrees(s'.data) <==> !s'.hist.torn))
            && (NothingFails(run) ==> !s'.hist.torn)
  {
    OpenedSafe(s, creds, now);
    SafeRun(s, run);
    hide Final, Legal, Agrees;
    if NothingFails(run) {
      NothingTorn(s, run);
    }
  }

  /** What the agreement means for one entry a reader finds. */
  lemma ReaderSeesClearedTgt(d: Data, i: nat)
    requires Agrees(d) && i < |d.cache| && OwnTgt(d.principal, d.cache[i])
    ensures !RenewableFlag(d.cache[i]) && d.tgt.Some? && d.cache[i] == ClearRenewable(d.tgt.value.cred)
  {
    hide OwnTgt;
    ClearedIsClear(d.tgt.value.cred);
  }
}
