/** What one step of one goroutine can touch: the writer alone changes the TGT and the history, a reader
    at most the cache, anyone else neither. */
module DaemonFrame {
  import opened Wire
  import opened Daemon
  import opened DaemonLock
  import opened DaemonTgt

  /** The point of the goroutine that holds the write lock. */
  function WriterPoint(s: State): (w: Option<WPoint>) {
    if s.lock.writer.None? || s.lock.writer.value !in s.threads then None
    else
      match s.threads[s.lock.writer.value]
      case Working(_, InW(w)) => Some(w)
      case _ => None
  }

  predicate Writes(pc: Pc) { pc.Working? && pc.body.InW? }

  predicate Reads(pc: Pc) { pc.Working? && pc.body.InR? }

  predicate Enters(pc: Pc) { pc.Working? && pc.body.PendW? }

  /** Where the write lock's holder stands after its step from `w`. */
  function PointAfter(w: WPoint, n: WNext): (p: Option<WPoint>) {
    match n
    case StayW(w') => Some(w')
    case LeaveW(_) => None
    case Crash => Some(w)
  }

  /** Only goroutine `t` moves. */
  ghost predicate OnlyMoves(s: State, t: Tid, s': State) {
    t in s'.threads && s'.threads == s.threads[t := s'.threads[t]] && s'.minLife == s.minLife && s'.cap == s.cap
  }

  /** A write step, with the machine around it. */
  lemma WriteFrame(s: State, t: Tid, c: Choice)
    requires LockInv(s) && Enabled(s, t) && Writes(s.threads[t])
    ensures var s', pc := ThreadStep(s, t, c), s.threads[t];
            var (d, h, n) := WriteStep(t, s.minLife, s.data, s.hist, pc.body.w, c);
            && OnlyMoves(s, t, s') && s'.data == d && s'.hist == (if n.LeaveW? then Settled(h, d) else h)
            && s'.flights == s.flights && s'.down == (s.down || n.Crash?)
            && s'.threads[t] == Working(pc.ctx, AfterWrite(pc.body.w, n))
            && s.lock.writer == Some(t) && s'.lock.writer == (if n.LeaveW? then None else Some(t))
            && WriterPoint(s) == Some(pc.body.w) && WriterPoint(s') == PointAfter(pc.body.w, n)
  {
    assert RoleIn(s, t).Writer?;
    hide WriteStep, LockInv, Enabled, Settled;
  }

  /** A step that is neither a write nor a way into the write lock. */
  ghost predicate Quiet(s: State, t: Tid, s': State) {
    && OnlyMoves(s, t, s') && s'.hist == s.hist && s'.down == s.down && s'.data == s.data.(cache := s'.data.cache)
    && s'.lock.writer == s.lock.writer && WriterPoint(s') == WriterPoint(s)
  }

  lemma ReadFrame(s: State, t: Tid, c: Choice)
    requires LockInv(s) && Enabled(s, t) && Reads(s.threads[t])
    ensures s.lock.writer.None? && Quiet(s, t, ThreadStep(s, t, c))
  {
    var pc := s.threads[t];
    assert RoleIn(s, t).Reader?;
    assert s.lock.writer.None?;
    SharedSteps(s, t, pc.body.epoch, pc.body.r, c);
    hide LockInv, RoleIn, ReadStep, FlightStep, IsFlightPoint, Enabled;
  }

  lemma EnterFrame(s: State, t: Tid, c: Choice)
    requires LockInv(s) && Enabled(s, t) && Enters(s.threads[t])
    ensures var s', pc := ThreadStep(s, t, c), s.threads[t];
            && OnlyMoves(s, t, s') && s'.hist == s.hist && s'.data == s.data && s'.down == s.down
            && s.lock.writer.None? && s'.lock.writer == Some(t)
            && s'.threads[t] == Working(pc.ctx, InW(pc.body.w)) && WriterPoint(s') == Some(pc.body.w)
  {
    assert RoleIn(s, t).Pending?;
    hide RoleIn;
  }

  lemma OutsideFrame(s: State, t: Tid, c: Choice)
    requires LockInv(s) && Enabled(s, t) && !Writes(s.threads[t]) && !Reads(s.threads[t]) && !Enters(s.threads[t])
    ensures Quiet(s, t, ThreadStep(s, t, c)) && ThreadStep(s, t, c).data == s.data
  {
    var pc := s.threads[t];
    assert !RoleIn(s, t).Writer?;
    assert s.lock.writer != Some(t);
    if pc.Working? {
      BodyFrame(s, t, pc.ctx, pc.body, c);
    } else {
      PoolFrame(s, t, c);
    }
    hide LockInv, RoleIn, ThreadStep, WriterPoint, Enabled;
    SameWriter(s, t, ThreadStep(s, t, c));
  }

  lemma PoolFrame(s: State, t: Tid, c: Choice)
    requires Enabled(s, t) && !s.threads[t].Working?
    ensures var s' := ThreadStep(s, t, c);
            && OnlyMoves(s, t, s') && s'.hist == s.hist && s'.data == s.data && s'.lock == s.lock && s'.down == s.down
  {
  }

  lemma BodyFrame(s: State, t: Tid, k: Option<Ctx>, b: Body, c: Choice)
    requires Enabled(s, t) && s.threads[t] == Working(k, b) && !b.InR? && !b.InW? && !b.PendW?
    ensures var s' := ThreadStep(s, t, c);
            && OnlyMoves(s, t, s') && s'.hist == s.hist && s'.data == s.data && s'.down == s.down
            && s'.lock.writer == s.lock.writer
  {
    hide OutStep, Enabled;
  }

  lemma SameWriter(s: State, t: Tid, s': State)
    requires OnlyMoves(s, t, s') && s'.lock.writer == s.lock.writer && s.lock.writer != Some(t)
    ensures WriterPoint(s') == WriterPoint(s)
  {
  }
}
