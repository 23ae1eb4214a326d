/** The read/write lock c.mu under every interleaving: readers and writers exclude each other, a
    waiting writer keeps new readers out, and a reader's epoch is the current one. */
module DaemonLock {
  import opened Wire
  import opened Daemon
  import Credentials

  /** What a goroutine is to the lock. */
  datatype Role = Outside | Reader(epoch: nat) | Pending | Writer

  function RoleOf(pc: Pc): (r: Role) {
    if !pc.Working? then Outside
    else
      match pc.body
      case InR(e, _) => Reader(e)
      case PendW(_) => Pending
      case InW(_) => Writer
      case _ => Outside
  }

  function RoleIn(s: State, t: Tid): (r: Role) { if t in s.threads then RoleOf(s.threads[t]) else Outside }

  /** The lock's own record and the goroutines agree, and the epoch counts write sections: it cannot
      change while anybody reads. */
  ghost predicate LockInv(s: State) {
    && (forall t :: t in s.lock.readers <==> RoleIn(s, t).Reader?)
    && (forall t: Tid :: s.lock.pending == Some(t) <==> RoleIn(s, t).Pending?)
    && (forall t: Tid :: s.lock.writer == Some(t) <==> RoleIn(s, t).Writer?)
    && (s.lock.writer.Some? ==> s.lock.readers == {} && s.lock.pending.None?)
    && (forall t :: t in s.lock.readers ==> RoleIn(s, t) == Reader(s.epoch))
  }

  /** The lock move that goes with each change of role. */
  predicate LockMove(t: Tid, from: Role, to: Role, l: Lock, e: nat, l': Lock, e': nat) {
    match from
    case Outside =>
      || (to == Outside && l' == l && e' == e)
      || (to == Reader(e) && LockFree(l) && l' == l.(readers := l.readers + {t}) && e' == e)
      || (to == Pending && LockFree(l) && l' == l.(pending := Some(t)) && e' == e)
    case Pending =>
      to == Writer && l.readers == {} && l' == l.(pending := None, writer := Some(t)) && e' == e + 1
    case Reader(_) => (
      || (to == from && l' == l && e' == e)
      || (to == Outside && l' == l.(readers := l.readers - {t}) && e' == e))
    case Writer => (
      || (to == Writer && l' == l && e' == e)
      || (to == Outside && l' == l.(writer := None) && e' == e))
  }

  ghost predicate IsLockMove(s: State, t: Tid, s': State)
    requires t in s.threads
  {
    && t in s'.threads && s'.threads == s.threads[t := s'.threads[t]]
    && LockMove(t, RoleOf(s.threads[t]), RoleOf(s'.threads[t]), s.lock, s.epoch, s'.lock, s'.epoch)
  }

  lemma SectionStepIsLockMove(s: State, t: Tid, k: Option<Ctx>, b: Body, c: Choice)
    requires Enabled(s, t) && s.threads[t] == Working(k, b) && (b.InR? || b.InW?)
    ensures IsLockMove(s, t, BodyStep(s, t, k, b, c))
  {
    hide ReadStep, FlightStep, WriteStep, Enabled;
  }

  lemma OutsideStepIsLockMove(s: State, t: Tid, k: Option<Ctx>, b: Body, c: Choice)
    requires Enabled(s, t) && s.threads[t] == Working(k, b) && !b.InR? && !b.InW?
    ensures IsLockMove(s, t, BodyStep(s, t, k, b, c))
  {
    hide OutStep;
  }

  lemma PoolStepIsLockMove(s: State, t: Tid, c: Choice)
    requires Enabled(s, t) && !s.threads[t].Working?
    ensures IsLockMove(s, t, ThreadStep(s, t, c))
  {
  }

  lemma StepIsLockMove(s: State, t: Tid, c: Choice)
    requires Enabled(s, t)
    ensures IsLockMove(s, t, ThreadStep(s, t, c))
  {
    hide BodyStep, IsLockMove;
    if s.threads[t].Working? {
      var Working(k, b) := s.threads[t];
      if b.InR? || b.InW? {
        SectionStepIsLockMove(s, t, k, b, c);
      } else {
        OutsideStepIsLockMove(s, t, k, b, c);
      }
    } else {
      PoolStepIsLockMove(s, t, c);
    }
  }

  lemma MoveKeepsLock(s: State, s': State, t: Tid)
    requires LockInv(s) && t in s'.threads && s'.threads == s.threads[t := s'.threads[t]]
    requires LockMove(t, RoleIn(s, t), RoleOf(s'.threads[t]), s.lock, s.epoch, s'.lock, s'.epoch)
    ensures LockInv(s')
  {
    assert forall u :: u != t ==> RoleIn(s', u) == RoleIn(s, u);
    hide RoleOf;
    assert RoleIn(s', t) == RoleOf(s'.threads[t]);
    hide RoleIn;
  }

  lemma DoKeepsLock(s: State, a: Action)
    requires LockInv(s) && Can(s, a)
    ensures LockInv(Do(s, a))
  {
    var s' := Do(s, a);
    match a
    case Call(t, job) => MoveKeepsLock(s, s', t);
    case Status(t) => MoveKeepsLock(s, s', t);
    case Step(t, c) =>
      StepIsLockMove(s, t, c);
      MoveKeepsLock(s, s', t);
    case CallClose => assert forall t :: RoleIn(s', t) == RoleIn(s, t);
    case CloseStep => assert forall t :: RoleIn(s', t) == RoleIn(s, t);
  }

  lemma {:induction false} LockRun(s: State, run: seq<Action>)
    requires LockInv(s) && Legal(s, run)
    ensures LockInv(Final(s, run))
    decreases |run|
  {
    hide LockInv, Do, Can;
    if run != [] {
      DoKeepsLock(s, run[0]);
      LockRun(Do(s, run[0]), run[1..]);
    }
  }

  lemma OpenedLock(s: State, creds: seq<Credentials.Cred>, now: Credentials.Time)
    requires Opened(s, creds, now)
    ensures LockInv(s)
  {
  }

  /** In every run a write section excludes every other section, and readers share one epoch. */
  lemma MutualExclusion(s: State, creds: seq<Credentials.Cred>, now: Credentials.Time, run: seq<Action>, t: Tid, u: Tid)
    requires Opened(s, creds, now) && Legal(s, run) && t != u
    ensures var s' := Final(s, run);
            && (RoleIn(s', t).Writer? ==> !RoleIn(s', u).Writer? && !RoleIn(s', u).Reader?)
            && (RoleIn(s', t).Reader? && RoleIn(s', u).Reader? ==> RoleIn(s', t) == RoleIn(s', u))
  {
    OpenedLock(s, creds, now);
    LockRun(s, run);
    hide RoleIn, Final, Legal;
    var s' := Final(s, run);
    if RoleIn(s', t).Writer? {
      assert s'.lock.writer == Some(t);
    }
  }
}
