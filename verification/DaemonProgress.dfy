/** Deadlock freedom of the pool, the read/write lock and the flight table together: the order is always
    slot, then lock, then flight, and whoever leads a flight already has the first two. */
module DaemonProgress {
  import opened Wire
  import opened Daemon
  import opened DaemonPool
  import opened DaemonLock
  import opened DaemonFlights
  import Credentials

  ghost predicate Stuck(s: State) { forall t: Tid :: !Enabled(s, t) }

  /** Some goroutine's next step is legal, whatever the environment does in it. */
  ghost predicate SomeoneMoves(s: State) { !s.down && exists u: Tid :: Enabled(s, u) }

  ghost predicate AllInv(s: State) { PoolInv(s) && LockInv(s) && FlightInv(s) }

  /** The leader of an unclosed flight is never blocked. */
  lemma LeaderMoves(s: State, u: Tid, f: Fid)
    requires LeadsFlight(PartIn(s, u), f)
    ensures Enabled(s, u)
  {
  }

  lemma NobodyReads(s: State, t: Tid)
    requires FlightInv(s) && Stuck(s)
    ensures !RoleIn(s, t).Reader?
  {
    if RoleIn(s, t).Reader? {
      assert PartOk(s.flights, t, PartIn(s, t));
      assert !Enabled(s, t);
      var f := s.threads[t].body.r.f;
      assert !s.flights.all[f].closed;
      LeaderMoves(s, s.flights.all[f].leader, f);
      assert false;
    }
  }

  lemma LockIsFree(s: State)
    requires LockInv(s) && FlightInv(s) && Stuck(s)
    ensures s.lock.readers == {} && LockFree(s.lock)
  {
    forall t ensures t !in s.lock.readers {
      NobodyReads(s, t);
    }
    assert s.lock.readers == {};
    forall t: Tid ensures s.lock.pending != Some(t) && s.lock.writer != Some(t) {
      assert !Enabled(s, t);
    }
  }

  /** When nobody can move, everybody is finished or waiting for a slot. */
  lemma OnlySlotsAreWaitedFor(s: State, t: Tid)
    requires AllInv(s) && Stuck(s) && t in s.threads
    ensures s.threads[t].WantSlot? || s.threads[t].Finished?
  {
    LockIsFree(s);
    assert !Enabled(s, t);
    if s.threads[t].Handing? {
      ReleaseNeverBlocks(s, t);
    }
    if s.threads[t].Working? && s.threads[t].body.InR? {
      assert RoleIn(s, t).Reader?;
      NobodyReads(s, t);
    }
  }

  lemma StuckMeansClosed(s: State, t: Tid)
    requires AllInv(s) && Stuck(s) && t in s.threads && !s.threads[t].Finished?
    ensures s.threads[t].WantSlot? && CloserSlots(s) == s.cap
  {
    OnlySlotsAreWaitedFor(s, t);
    assert !Enabled(s, t);
    forall u ensures u !in Slots(s) {
      if u in s.threads {
        OnlySlotsAreWaitedFor(s, u);
      }
    }
    assert Slots(s) == {};
  }

  lemma AllRun(s: State, creds: seq<Credentials.Cred>, now: Credentials.Time, run: seq<Action>)
    requires Opened(s, creds, now) && Legal(s, run)
    ensures AllInv(Final(s, run))
  {
    PoolIsSafe(s, creds, now, run);
    OpenedLock(s, creds, now);
    OpenedFlights(s, creds, now);
    FlightRun(s, run);
  }

  /** In every run, with any number of operations in flight, pending writers included: while the process is
      up and an operation is unfinished, some operation can move, unless Close has taken every slot; and
      then only operations that never got a slot are left. */
  lemma NoDeadlock(s: State, creds: seq<Credentials.Cred>, now: Credentials.Time, run: seq<Action>, t: Tid)
    requires Opened(s, creds, now) && Legal(s, run)
    requires t in Final(s, run).threads && !Final(s, run).threads[t].Finished?
    ensures var s' := Final(s, run);
            || s'.down
            || SomeoneMoves(s')
            || (s'.threads[t].WantSlot? && CloserSlots(s') == s'.cap)
  {
    AllRun(s, creds, now, run);
    hide AllInv, Enabled, Final, Legal, CloserSlots;
    if Stuck(Final(s, run)) {
      StuckMeansClosed(Final(s, run), t);
    }
  }

  /** Close itself is never stuck on its own account: when it cannot take the next slot, or nothing at
      all can move, some operation still holds one, or Close is done. */
  lemma CloseGoesOn(s: State, creds: seq<Credentials.Cred>, now: Credentials.Time, run: seq<Action>)
    requires Opened(s, creds, now) && Legal(s, run) && !Final(s, run).closer.NotCalled?
    ensures var s' := Final(s, run);
            || s'.down || s'.closer.Closed? || Can(s', CloseStep)
            || SomeoneMoves(s')
  {
    AllRun(s, creds, now, run);
    hide Final, Legal;
    var s' := Final(s, run);
    if Stuck(s') && s'.closer.Taking? && !CanClose(s') {
      var u :| u in Slots(s');
      OnlySlotsAreWaitedFor(s', u);
    }
  }
}
