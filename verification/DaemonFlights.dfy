/** Coalescing of concurrent lookups (flightGroup.do in internal/krb5c/flight.go, called under the read
    lock by Retrieve in internal/krb5c/ops.go) under every interleaving. */
module DaemonFlights {
  import opened Wire
  import opened Matching
  import opened Coalescing
  import opened Daemon
  import opened DaemonLock
  import Credentials
  import Session
  import Names

  /** What a goroutine is to the flight table; `e` is the epoch in which it took the read lock. */
  datatype Part =
    | NoPart
    | Leading(f: Fid, key: Bytes, ran: bool, e: nat)        // in the table, lookup running or done
    | Closing(f: Fid, e: nat)                               // out of the table, done not closed
    | Following(f: Fid, mc: MatchCredential, e: nat)
    | Telling(out: Outcome)                                 // carrying a shared result home
    | Misplaced                                             // never happens

  function Carrying(out: Outcome): (p: Part) { if out.Led? || out.Joined? then Telling(out) else NoPart }

  function PartOf(pc: Pc): (p: Part) {
    match pc
    case Working(_, InR(e, r)) => (
      match r
      case Lead(f, key) => Leading(f, key, false, e)
      case Ran(f, key) => Leading(f, key, true, e)
      case Unlisted(f) => Closing(f, e)
      case Follow(f, mc) => Following(f, mc, e)
      case _ => NoPart)
    case Working(_, WantR(r)) => if r.Lead? || r.Ran? || r.Unlisted? || r.Follow? then Misplaced else NoPart
    case Working(_, Out(o)) => if o.Done? then Carrying(o.out) else NoPart
    case Handing(_, out) => Carrying(out)
    case Returned(out) => Carrying(out)
    case Finished(out) => Carrying(out)
    case _ => NoPart
  }

  function PartIn(s: State, t: Tid): (p: Part) { if t in s.threads then PartOf(s.threads[t]) else NoPart }

  predicate AtLead(pc: Pc) { PartOf(pc).Leading? && !PartOf(pc).ran }

  /** What must hold of a goroutine's part. */
  predicate PartOk(fl: Flights, t: Tid, p: Part) {
    match p
    case NoPart => true
    case Leading(f, key, ran, e) =>
      && f < |fl.all| && fl.all[f].leader == t && fl.all[f].key == key && fl.all[f].epoch == e
      && key in fl.table && fl.table[key] == f && fl.all[f].answer.Some? == ran && !fl.all[f].closed
    case Closing(f, e) =>
      && f < |fl.all| && fl.all[f].leader == t && fl.all[f].epoch == e
      && fl.all[f].answer.Some? && !fl.all[f].closed
    case Following(f, mc, e) => f < |fl.all| && fl.all[f].epoch == e && fl.all[f].key == MatchKey(mc)
    case Telling(out) => Told(fl, out)
    case Misplaced => false
  }

  /** The result carried is exactly its flight's, and a joiner's epoch is its flight's. */
  predicate Told(fl: Flights, out: Outcome) {
    match out
    case Led(f, a) => f < |fl.all| && fl.all[f].closed && fl.all[f].answer == Some(a)
    case Joined(f, e, mc, a) =>
      && f < |fl.all| && fl.all[f].closed && fl.all[f].answer == Some(a)
      && fl.all[f].epoch == e && fl.all[f].key == MatchKey(mc)
    case _ => true
  }

  predicate LeadsFlight(p: Part, f: Fid) { (p.Leading? || p.Closing?) && p.f == f }

  /** Every unclosed flight has its leader at work; every table entry is its leader's. */
  ghost predicate FlightsOk(s: State) {
    var fl := s.flights;
    && (forall f :: 0 <= f < |fl.all| && !fl.all[f].closed ==> LeadsFlight(PartIn(s, fl.all[f].leader), f))
    && (forall f :: 0 <= f < |fl.all| && fl.all[f].closed ==> fl.all[f].answer.Some?)
    && (forall f :: 0 <= f < |fl.all| ==> fl.all[f].key == MatchKey(fl.all[f].asked))
    && (forall key :: key in fl.table ==>
          && fl.table[key] < |fl.all| && fl.all[fl.table[key]].key == key
          && PartIn(s, fl.all[fl.table[key]].leader).Leading?
          && PartIn(s, fl.all[fl.table[key]].leader).f == fl.table[key])
  }

  ghost predicate PartsOk(s: State) { forall t: Tid :: PartOk(s.flights, t, PartIn(s, t)) }

  /** Calls are executions plus joins, and every flight's lookup is run exactly once. */
  ghost predicate Counted(s: State) {
    && s.flights.calls == |s.flights.all| + s.flights.joins
    && s.flights.runs + |Those(s.threads, AtLead)| == |s.flights.all|
  }

  /** A flight of the current epoch was computed for the principal and TGT the daemon has now. */
  ghost predicate Based(s: State) {
    forall f :: 0 <= f < |s.flights.all| ==>
      && s.flights.all[f].epoch <= s.epoch
      && (s.flights.all[f].epoch == s.epoch ==>
            s.lock.writer.None? && s.flights.all[f].basis == (s.data.principal, s.data.tgt))
  }

  ghost predicate FlightInv(s: State) { PartsOk(s) && FlightsOk(s) && Counted(s) && Based(s) }

  // ---- Steps that leave the flight table alone ----

  /** t's part and the table are as before; only its place in the program changed. */
  ghost predicate Aside(s: State, t: Tid, s': State) {
    && t in s'.threads && s'.threads == s.threads[t := s'.threads[t]]
    && s'.flights == s.flights && PartOf(s'.threads[t]) == PartIn(s, t)
    && (t !in s.threads ==> PartOf(s'.threads[t]) == NoPart)
  }

  lemma AsideKeepsParts(s: State, t: Tid, s': State)
    requires Aside(s, t, s') && PartsOk(s) && FlightsOk(s) && Counted(s)
    ensures PartsOk(s') && FlightsOk(s') && Counted(s')
  {
    AsideParts(s, t, s');
    hide PartIn, PartOf, PartOk, Those, AtLead;
  }

  lemma AsideParts(s: State, t: Tid, s': State)
    requires Aside(s, t, s')
    ensures forall u: Tid :: PartIn(s', u) == PartIn(s, u)
    ensures |Those(s'.threads, AtLead)| == |Those(s.threads, AtLead)|
  {
    ThoseUpdate(s.threads, AtLead, t, s'.threads[t]);
    hide PartOf, Those;
  }

  /** What a step outside the flight code does to the things flights depend on. */
  ghost predicate BasisKept(s: State, s': State) {
    || (s'.epoch == s.epoch && s'.lock.writer == s.lock.writer && s'.data.principal == s.data.principal
        && s'.data.tgt == s.data.tgt)
    || (s'.epoch == s.epoch && s.lock.writer.Some?)
    || s'.epoch == s.epoch + 1
  }

  lemma KeepsBased(s: State, s': State)
    requires Based(s) && BasisKept(s, s') && s'.flights == s.flights
    ensures Based(s')
  {
  }

  lemma OutStepParts(o: OutPoint, c: Choice)
    ensures match OutStep(o, c)
            case GoR(r) => !(r.Lead? || r.Ran? || r.Unlisted? || r.Follow?) && !o.Done?
            case GoW(_) => !o.Done?
            case Return(out) => if o.Done? then out == o.out else out == Passed
  {
  }

  lemma OutsideStepIsAside(s: State, t: Tid, k: Option<Ctx>, b: Body, c: Choice)
    requires Enabled(s, t) && s.threads[t] == Working(k, b) && !b.InR? && !b.InW? && PartOf(s.threads[t]) != Misplaced
    ensures Aside(s, t, BodyStep(s, t, k, b, c)) && BasisKept(s, BodyStep(s, t, k, b, c))
  {
    if b.Out? {
      OutStepParts(b.o, c);
    }
    hide OutStep;
  }

  lemma ReadStepParts(minLife: int, d: Session.Data, r: RPoint, c: Choice)
    requires !IsFlightPoint(r)
    ensures var (d', n) := ReadStep(minLife, d, r, c);
            && d'.principal == d.principal && d'.tgt == d.tgt
            && (n.StayR? ==> !IsFlightPoint(n.r)) && (n.LeaveR? && n.o.Done? ==> n.o.out == Plain)
  {
    hide Session.NeedsAttention, Session.RenewWanted, Session.Stale, Credentials.RemoveExact;
  }

  lemma ReadStepIsAside(s: State, t: Tid, k: Option<Ctx>, b: Body, c: Choice)
    requires Enabled(s, t) && s.threads[t] == Working(k, b) && b.InR? && !IsFlightPoint(b.r)
    ensures Aside(s, t, BodyStep(s, t, k, b, c)) && BasisKept(s, BodyStep(s, t, k, b, c))
  {
    ReadStepParts(s.minLife, s.data, b.r, c);
    hide ReadStep, FlightStep;
  }

  lemma WriteStepParts(t: Tid, minLife: int, d: Session.Data, h: History, w: WPoint, c: Choice)
    ensures var (_, _, n) := WriteStep(t, minLife, d, h, w, c);
            n.LeaveW? && n.o.Done? ==> n.o.out == Plain
  {
    hide Session.NeedsAttention, Session.RenewWanted, Session.Adopts, Session.LoadOne, Session.Adopted;
    hide Session.Install, Session.WithoutTgt, Session.Initialize, Session.Remove, Session.BecomesTgt;
  }

  lemma WriteStepIsAside(s: State, t: Tid, k: Option<Ctx>, b: Body, c: Choice)
    requires LockInv(s) && Enabled(s, t) && s.threads[t] == Working(k, b) && b.InW?
    ensures Aside(s, t, BodyStep(s, t, k, b, c)) && BasisKept(s, BodyStep(s, t, k, b, c))
  {
    WriteStepParts(t, s.minLife, s.data, s.hist, b.w, c);
    assert RoleIn(s, t).Writer?;
    hide WriteStep;
  }

  lemma PoolStepIsAside(s: State, t: Tid, c: Choice)
    requires Enabled(s, t) && !s.threads[t].Working?
    ensures Aside(s, t, ThreadStep(s, t, c)) && BasisKept(s, ThreadStep(s, t, c))
  {
  }

  // ---- Steps of flightGroup.do ----

  /** Everyone else's part stays put. */
  ghost predicate Moves(s: State, t: Tid, s': State, p: Part) {
    && t in s.threads && t in s'.threads && s'.threads == s.threads[t := s'.threads[t]]
    && PartOf(s'.threads[t]) == p
    && s'.epoch == s.epoch && s'.lock.writer == s.lock.writer
    && s'.data.principal == s.data.principal && s'.data.tgt == s.data.tgt
  }

  lemma OthersStay(s: State, t: Tid, s': State, p: Part)
    requires Moves(s, t, s', p)
    ensures PartIn(s', t) == p && PartIn(s, t) == PartOf(s.threads[t])
    ensures forall u: Tid :: u != t ==> PartIn(s', u) == PartIn(s, u)
    ensures |Those(s'.threads, AtLead)| == |Those(s.threads, AtLead)|
              + (if p.Leading? && !p.ran then 1 else 0)
              - (if PartIn(s, t).Leading? && !PartIn(s, t).ran then 1 else 0)
  {
    ThoseUpdate(s.threads, AtLead, t, s'.threads[t]);
  }

  /** What goroutine `t` may do to the flight table: add flights of its own, finish flights of its own that
      are not closed yet, and change the table's entries for its own flights only. */
  ghost predicate OwnChange(fl: Flights, fl': Flights, t: Tid) {
    && |fl.all| <= |fl'.all|
    && (forall f :: 0 <= f < |fl.all| ==>
          && fl'.all[f] == fl.all[f].(answer := fl'.all[f].answer, closed := fl'.all[f].closed)
          && (fl.all[f].leader != t || fl.all[f].closed ==> fl'.all[f] == fl.all[f]))
    && (forall f :: |fl.all| <= f < |fl'.all| ==>
          fl'.all[f].leader == t && fl'.all[f].key == MatchKey(fl'.all[f].asked))
    && (forall key :: key in fl.table && fl.table[key] < |fl.all| && fl.all[fl.table[key]].leader != t ==>
          key in fl'.table && fl'.table[key] == fl.table[key])
    && (forall key :: key in fl'.table && fl'.table[key] < |fl.all| ==>
          key in fl.table && fl.table[key] == fl'.table[key])
  }

  /** New flights are started in the current epoch, on the data the daemon has. */
  ghost predicate NewBased(s: State, fl': Flights) {
    forall f :: |s.flights.all| <= f < |fl'.all| ==>
      s.lock.writer.None? && fl'.all[f].epoch == s.epoch && fl'.all[f].basis == (s.data.principal, s.data.tgt)
  }

  /** The table as far as it concerns `t`, whose part is `p`. */
  ghost predicate OwnSide(fl: Flights, t: Tid, p: Part) {
    && PartOk(fl, t, p)
    && (forall f :: 0 <= f < |fl.all| && fl.all[f].leader == t ==>
          if fl.all[f].closed then fl.all[f].answer.Some? else LeadsFlight(p, f))
    && (forall key :: key in fl.table ==>
          && fl.table[key] < |fl.all| && fl.all[fl.table[key]].key == key
          && (fl.all[fl.table[key]].leader == t ==> p.Leading? && p.f == fl.table[key]))
  }

  lemma PartStays(fl: Flights, fl': Flights, t: Tid, u: Tid, p: Part)
    requires u != t && PartOk(fl, u, p) && OwnChange(fl, fl', t)
    ensures PartOk(fl', u, p)
  {
    hide MatchKey;
  }

  lemma FlightsStay(s: State, t: Tid, s': State, p: Part)
    requires FlightsOk(s) && OwnChange(s.flights, s'.flights, t) && OwnSide(s'.flights, t, p)
    requires forall u: Tid :: PartIn(s', u) == if u == t then p else PartIn(s, u)
    ensures FlightsOk(s')
  {
    hide PartIn, MatchKey, PartOk, LeadsFlight;
    var fl, fl' := s.flights, s'.flights;
    forall f | 0 <= f < |fl'.all| && !fl'.all[f].closed ensures LeadsFlight(PartIn(s', fl'.all[f].leader), f) {
      if fl'.all[f].leader != t {
        assert fl'.all[f] == fl.all[f];
      }
    }
    forall key | key in fl'.table
      ensures PartIn(s', fl'.all[fl'.table[key]].leader).Leading?
      ensures PartIn(s', fl'.all[fl'.table[key]].leader).f == fl'.table[key]
    {
      if fl'.all[fl'.table[key]].leader != t {
        assert fl'.table[key] < |fl.all| && fl'.all[fl'.table[key]] == fl.all[fl'.table[key]];
      }
    }
  }

  /** A step of flightGroup.do keeps the invariant when it changes only what is t's own and the counts fit. */
  lemma ChangeKeeps(s: State, t: Tid, s': State, p: Part)
    requires FlightInv(s) && Moves(s, t, s', p) && Counted(s') && NewBased(s, s'.flights)
    requires OwnChange(s.flights, s'.flights, t) && OwnSide(s'.flights, t, p)
    ensures FlightInv(s')
  {
    OthersStay(s, t, s', p);
    BasedStays(s, t, s', p);
    hide PartIn, PartOf, Those, AtLead, OwnChange, OwnSide, Moves, NewBased, Counted, Based;
    FlightsStay(s, t, s', p);
    forall u: Tid ensures PartOk(s'.flights, u, PartIn(s', u)) {
      assert PartOk(s.flights, u, PartIn(s, u));
      if u != t {
        PartStays(s.flights, s'.flights, t, u, PartIn(s, u));
      } else {
        assert OwnSide(s'.flights, t, p) ==> PartOk(s'.flights, t, p) by { OwnPart(s'.flights, t, p); }
      }
    }
    hide FlightsOk, PartOk;
  }

  lemma OwnPart(fl: Flights, t: Tid, p: Part)
    ensures OwnSide(fl, t, p) ==> PartOk(fl, t, p)
  {
    hide PartOk, MatchKey;
  }

  lemma BasedStays(s: State, t: Tid, s': State, p: Part)
    requires Based(s) && Moves(s, t, s', p) && OwnChange(s.flights, s'.flights, t) && NewBased(s, s'.flights)
    ensures Based(s')
  {
    hide PartOf, MatchKey;
  }

  /** What the invariant says about `t` before its step. */
  lemma Mine(s: State, t: Tid)
    requires FlightInv(s)
    ensures OwnSide(s.flights, t, PartIn(s, t))
  {
    hide PartIn, MatchKey, Counted, Based;
    assert PartOk(s.flights, t, PartIn(s, t));
  }

  // ---- The six steps, on the table alone ----

  lemma RegisterTable(fl: Flights, fl': Flights, t: Tid, added: Flight)
    requires OwnSide(fl, t, NoPart) && added.key !in fl.table && added.leader == t && added.key == MatchKey(added.asked)
    requires added.answer.None? && !added.closed
    requires fl'.table == fl.table[added.key := |fl.all|] && fl'.all == fl.all + [added]
    ensures OwnChange(fl, fl', t) && OwnSide(fl', t, Leading(|fl.all|, added.key, false, added.epoch))
  {
    hide MatchKey;
  }

  lemma SameTable(fl: Flights, fl': Flights, t: Tid, p: Part, p': Part)
    requires OwnSide(fl, t, p) && !p.Leading? && !p.Closing? && fl'.table == fl.table && fl'.all == fl.all
    requires PartOk(fl', t, p')
    ensures OwnChange(fl, fl', t) && OwnSide(fl', t, p')
  {
    hide MatchKey, PartOk;
    assert forall f :: !LeadsFlight(p, f);
  }

  /** The same flights and the same counts, but for lookups finished. */
  predicate SameCounts(fl: Flights, fl': Flights, ran: nat) {
    |fl'.all| == |fl.all| && fl'.calls == fl.calls && fl'.joins == fl.joins && fl'.runs == fl.runs + ran
  }

  predicate Unlists(fl: Flights, fl': Flights, key: Bytes) { fl' == fl.(table := fl.table - {key}) }

  lemma RunTable(fl: Flights, fl': Flights, t: Tid, f: Fid, key: Bytes, e: nat, a: Answer)
    requires OwnSide(fl, t, Leading(f, key, false, e))
    requires fl' == Amend(fl.(runs := fl.runs + 1), f, Some(a), false)
    ensures OwnChange(fl, fl', t) && OwnSide(fl', t, Leading(f, key, true, e)) && SameCounts(fl, fl', 1)
  {
    hide MatchKey;
  }

  lemma UnlistTable(fl: Flights, fl': Flights, t: Tid, f: Fid, key: Bytes, e: nat)
    requires OwnSide(fl, t, Leading(f, key, true, e)) && Unlists(fl, fl', key)
    ensures OwnChange(fl, fl', t) && OwnSide(fl', t, Closing(f, e)) && SameCounts(fl, fl', 0)
  {
    hide MatchKey;
  }

  lemma CloseTable(fl: Flights, fl': Flights, t: Tid, f: Fid, e: nat)
    requires OwnSide(fl, t, Closing(f, e)) && fl' == Amend(fl, f, Some(Result(fl, f)), true)
    ensures OwnChange(fl, fl', t) && OwnSide(fl', t, Telling(Led(f, Result(fl, f)))) && SameCounts(fl, fl', 0)
  {
    hide MatchKey;
  }

  /** A step that starts no flight. */
  lemma NoNewFlight(s: State, t: Tid, s': State, p: Part, ran: nat)
    requires FlightInv(s) && Moves(s, t, s', p) && SameCounts(s.flights, s'.flights, ran)
    requires OwnChange(s.flights, s'.flights, t) && OwnSide(s'.flights, t, p)
    requires (if p.Leading? && !p.ran then 1 else 0) + ran ==
             if PartIn(s, t).Leading? && !PartIn(s, t).ran then 1 else 0
    ensures FlightInv(s')
  {
    CountsFit(s, t, s', p, ran);
    assert NewBased(s, s'.flights);
    hide FlightInv, Counted, NewBased, Moves, OwnSide, OwnChange, PartIn, SameCounts;
    ChangeKeeps(s, t, s', p);
  }

  lemma CountsFit(s: State, t: Tid, s': State, p: Part, ran: nat)
    requires Counted(s) && Moves(s, t, s', p) && SameCounts(s.flights, s'.flights, ran)
    requires (if p.Leading? && !p.ran then 1 else 0) + ran ==
             if PartIn(s, t).Leading? && !PartIn(s, t).ran then 1 else 0
    ensures Counted(s')
  {
    ThoseUpdate(s.threads, AtLead, t, s'.threads[t]);
    hide Those, PartOf;
  }

  // ---- The six steps of the machine ----

  lemma RegisterKeeps(s: State, t: Tid, s': State, mc: MatchCredential, key: Bytes)
    requires FlightInv(s) && LockInv(s) && PartIn(s, t) == NoPart && key == MatchKey(mc) && key !in s.flights.table
    requires RoleIn(s, t) == Reader(s.epoch)
    requires Moves(s, t, s', Leading(|s.flights.all|, key, false, s.epoch))
    requires s'.flights == s.flights.(calls := s.flights.calls + 1, table := s.flights.table[key := |s.flights.all|],
               all := s.flights.all + [Flight(key, t, mc, s.epoch, (s.data.principal, s.data.tgt), None, false)])
    ensures FlightInv(s')
  {
    var p := Leading(|s.flights.all|, key, false, s.epoch);
    OthersStay(s, t, s', p);
    Mine(s, t);
    assert s.lock.writer.None? by { assert t in s.lock.readers; }
    hide PartIn, PartOf, Those, AtLead, RoleIn, LockInv, MatchKey, PartsOk, FlightsOk, Based, OwnSide, OwnChange, Moves;
    RegisterTable(s.flights, s'.flights, t, Flight(key, t, mc, s.epoch, (s.data.principal, s.data.tgt), None, false));
    ChangeKeeps(s, t, s', p);
  }

  lemma JoinKeeps(s: State, t: Tid, s': State, mc: MatchCredential, key: Bytes)
    requires FlightInv(s) && LockInv(s) && PartIn(s, t) == NoPart && key == MatchKey(mc) && key in s.flights.table
    requires RoleIn(s, t) == Reader(s.epoch)
    requires Moves(s, t, s', Following(s.flights.table[key], mc, s.epoch))
    requires s'.flights == s.flights.(calls := s.flights.calls + 1, joins := s.flights.joins + 1)
    ensures FlightInv(s')
  {
    var p := Following(s.flights.table[key], mc, s.epoch);
    OthersStay(s, t, s', p);
    Mine(s, t);
    LeaderEpoch(s, key);
    assert PartOk(s'.flights, t, p);
    hide PartIn, PartOf, Those, AtLead, RoleIn, LockInv, MatchKey, PartsOk, FlightsOk, Based, OwnSide, OwnChange, Moves;
    SameTable(s.flights, s'.flights, t, NoPart, p);
    ChangeKeeps(s, t, s', p);
  }

  /** A flight in the table is being run right now, so its epoch is the current one. */
  lemma LeaderEpoch(s: State, key: Bytes)
    requires FlightInv(s) && LockInv(s) && key in s.flights.table
    ensures s.flights.all[s.flights.table[key]].epoch == s.epoch
  {
    var u := s.flights.all[s.flights.table[key]].leader;
    LeaderReads(s, u);
    hide PartIn, RoleIn, MatchKey, Counted, Based;
    assert PartOk(s.flights, u, PartIn(s, u));
    assert u in s.lock.readers;
  }

  lemma LeaderReads(s: State, u: Tid)
    ensures PartIn(s, u).Leading? ==> RoleIn(s, u) == Reader(PartIn(s, u).e)
  {
  }

  lemma RunKeeps(s: State, t: Tid, s': State, f: Fid, key: Bytes, e: nat, a: Answer)
    requires FlightInv(s) && PartIn(s, t) == Leading(f, key, false, e) && Moves(s, t, s', Leading(f, key, true, e))
    requires s'.flights == Amend(s.flights.(runs := s.flights.runs + 1), f, Some(a), false)
    ensures FlightInv(s')
  {
    hide PartIn, MatchKey, FlightInv, OwnSide, OwnChange, Moves, Amend, Result, Unlists, SameCounts;
    Mine(s, t);
    RunTable(s.flights, s'.flights, t, f, key, e, a);
    NoNewFlight(s, t, s', Leading(f, key, true, e), 1);
  }

  lemma UnlistKeeps(s: State, t: Tid, s': State, f: Fid, key: Bytes, e: nat)
    requires FlightInv(s) && PartIn(s, t) == Leading(f, key, true, e) && Moves(s, t, s', Closing(f, e))
    requires Unlists(s.flights, s'.flights, key)
    ensures FlightInv(s')
  {
    hide PartIn, MatchKey, FlightInv, OwnSide, OwnChange, Moves, Amend, Result, Unlists, SameCounts;
    Mine(s, t);
    UnlistTable(s.flights, s'.flights, t, f, key, e);
    NoNewFlight(s, t, s', Closing(f, e), 0);
  }

  lemma CloseKeeps(s: State, t: Tid, s': State, f: Fid, e: nat)
    requires FlightInv(s) && PartIn(s, t) == Closing(f, e) && Moves(s, t, s', Telling(Led(f, Result(s.flights, f))))
    requires s'.flights == Amend(s.flights, f, Some(Result(s.flights, f)), true)
    ensures FlightInv(s')
  {
    hide PartIn, MatchKey, FlightInv, OwnSide, OwnChange, Moves, Amend, Result, Unlists, SameCounts;
    Mine(s, t);
    CloseTable(s.flights, s'.flights, t, f, e);
    NoNewFlight(s, t, s', Telling(Led(f, Result(s.flights, f))), 0);
  }

  lemma FollowKeeps(s: State, t: Tid, s': State, f: Fid, mc: MatchCredential, e: nat)
    requires FlightInv(s) && PartIn(s, t) == Following(f, mc, e) && f < |s.flights.all| && s.flights.all[f].closed
    requires Moves(s, t, s', Telling(Joined(f, e, mc, Result(s.flights, f)))) && s'.flights == s.flights
    ensures FlightInv(s')
  {
    var p := Telling(Joined(f, e, mc, Result(s.flights, f)));
    Mine(s, t);
    OwnPart(s.flights, t, Following(f, mc, e));
    hide PartIn, MatchKey, OwnSide, OwnChange, Moves, LeadsFlight, PartsOk, Counted, Based;
    assert PartOk(s'.flights, t, p);
    SameTable(s.flights, s'.flights, t, Following(f, mc, e), p);
    hide FlightInv;
    NoNewFlight(s, t, s', p, 0);
  }

  /** A goroutine in a read section entered it in the current epoch. */
  lemma ReaderEpoch(s: State, t: Tid)
    requires LockInv(s) && t in s.threads && s.threads[t].Working? && s.threads[t].body.InR?
    ensures RoleIn(s, t) == Reader(s.epoch) && s.threads[t].body.epoch == s.epoch
  {
    assert RoleIn(s, t).Reader? && t in s.lock.readers;
  }

  /** Whether Serve goes to the flight table at all. */
  predicate Asks(d: Session.Data, job: Job) { job.RetrieveJob? && !Session.NoUsableTgt(d, Clock(job)) }

  /** The machine around a step of flightGroup.do. */
  lemma FlightFrame(s: State, t: Tid, k: Option<Ctx>, b: Body, c: Choice)
    requires Enabled(s, t) && s.threads[t] == Working(k, b) && b.InR? && IsFlightPoint(b.r)
    ensures var s', (_, fl, n) := BodyStep(s, t, k, b, c), FlightStep(t, b.epoch, s.data, s.flights, b.r, c);
            && s'.flights == fl && PartIn(s, t) == PartOf(Working(None, b))
            && Moves(s, t, s', PartOf(Working(None, AfterRead(b.epoch, n))))
  {
    FlightKeepsData(t, b.epoch, s.data, s.flights, b.r, c);
    AnyContext(k, b);
    AnyContext(k, AfterRead(b.epoch, FlightStep(t, b.epoch, s.data, s.flights, b.r, c).2));
    hide FlightStep, ReadStep, Enabled, PartOf, IsFlightPoint;
  }

  lemma AnyContext(k: Option<Ctx>, b: Body)
    ensures PartOf(Working(k, b)) == PartOf(Working(None, b))
  {
  }

  lemma FlightKeepsData(t: Tid, e: nat, d: Session.Data, fl: Flights, r: RPoint, c: Choice)
    requires IsFlightPoint(r)
    ensures var d' := FlightStep(t, e, d, fl, r, c).0; d'.principal == d.principal && d'.tgt == d.tgt
  {
    hide Session.NoUsableTgt, MatchKey, Amend, Result;
  }

  /** What each step of flightGroup.do does to the table and to its goroutine's part. */
  lemma FlightSteps(t: Tid, e: nat, d: Session.Data, fl: Flights, r: RPoint, c: Choice)
    requires IsFlightPoint(r)
    ensures var (_, fl', n) := FlightStep(t, e, d, fl, r, c);
            var p, p' := PartOf(Working(None, InR(e, r))), PartOf(Working(None, AfterRead(e, n)));
            match r
            case Serve(job) => p == NoPart && ServeParts(t, e, d, fl, job, fl', p')
            case Lead(f, key) =>
              && p == Leading(f, key, false, e)
              && if c.more then p' == p && fl' == fl
                 else p' == Leading(f, key, true, e) && fl' == Amend(fl.(runs := fl.runs + 1), f, Some(c.answer), false)
            case Ran(f, key) =>
              p == Leading(f, key, true, e) && p' == Closing(f, e) && Unlists(fl, fl', key)
            case Unlisted(f) =>
              && p == Closing(f, e) && p' == Telling(Led(f, Result(fl, f)))
              && fl' == Amend(fl, f, Some(Result(fl, f)), true)
            case Follow(f, mc) =>
              p == Following(f, mc, e) && p' == Telling(Joined(f, e, mc, Result(fl, f))) && fl' == fl
            case _ => true
  {
    hide Session.NoUsableTgt, MatchKey, Amend, Result;
  }

  predicate ServeParts(t: Tid, e: nat, d: Session.Data, fl: Flights, job: Job, fl': Flights, p': Part) {
    if !Asks(d, job) then p' == NoPart && fl' == fl
    else
      var key := MatchKey(job.mc);
      if key in fl.table then
        && p' == Following(fl.table[key], job.mc, e)
        && fl' == fl.(calls := fl.calls + 1, joins := fl.joins + 1)
      else
        && p' == Leading(|fl.all|, key, false, e)
        && fl' == fl.(calls := fl.calls + 1, table := fl.table[key := |fl.all|],
                      all := fl.all + [Flight(key, t, job.mc, e, (d.principal, d.tgt), None, false)])
  }

  lemma ServeKeeps(s: State, t: Tid, k: Option<Ctx>, b: Body, c: Choice)
    requires FlightInv(s) && LockInv(s) && Enabled(s, t) && s.threads[t] == Working(k, b) && b.InR? && b.r.Serve?
    ensures FlightInv(BodyStep(s, t, k, b, c))
  {
    ReaderEpoch(s, t);
    FlightFrame(s, t, k, b, c);
    FlightSteps(t, b.epoch, s.data, s.flights, b.r, c);
    var n := FlightStep(t, b.epoch, s.data, s.flights, b.r, c).2;
    hide FlightInv, LockInv, Enabled, RoleIn, BodyStep, Moves, PartIn, PartOf, FlightStep, IsFlightPoint, ServeParts;
    AskKeeps(s, t, BodyStep(s, t, k, b, c), b.r.job, PartOf(Working(None, AfterRead(b.epoch, n))));
  }

  lemma AskKeeps(s: State, t: Tid, s': State, job: Job, p': Part)
    requires FlightInv(s) && LockInv(s) && RoleIn(s, t) == Reader(s.epoch) && PartIn(s, t) == NoPart
    requires Moves(s, t, s', p') && ServeParts(t, s.epoch, s.data, s.flights, job, s'.flights, p')
    ensures FlightInv(s')
  {
    hide FlightInv, LockInv, RoleIn, Moves, PartIn, MatchKey, Session.NoUsableTgt;
    if !Asks(s.data, job) {
      MovesAside(s, t, s', NoPart);
    } else if MatchKey(job.mc) in s.flights.table {
      JoinKeeps(s, t, s', job.mc, MatchKey(job.mc));
    } else {
      RegisterKeeps(s, t, s', job.mc, MatchKey(job.mc));
    }
  }

  lemma LeadKeeps(s: State, t: Tid, k: Option<Ctx>, b: Body, c: Choice)
    requires FlightInv(s) && Enabled(s, t) && s.threads[t] == Working(k, b) && b.InR? && b.r.Lead?
    ensures FlightInv(BodyStep(s, t, k, b, c))
  {
    var s' := BodyStep(s, t, k, b, c);
    FlightFrame(s, t, k, b, c);
    FlightSteps(t, b.epoch, s.data, s.flights, b.r, c);
    hide FlightInv, Enabled, BodyStep, Moves, PartIn, PartOf, FlightStep, IsFlightPoint;
    hide Amend, Result, MatchKey, Unlists;
    if c.more {
      MovesAside(s, t, s', PartIn(s, t));
    } else {
      RunKeeps(s, t, s', b.r.f, b.r.key, b.epoch, c.answer);
    }
  }

  lemma RanKeeps(s: State, t: Tid, k: Option<Ctx>, b: Body, c: Choice)
    requires FlightInv(s) && Enabled(s, t) && s.threads[t] == Working(k, b) && b.InR? && b.r.Ran?
    ensures FlightInv(BodyStep(s, t, k, b, c))
  {
    var s' := BodyStep(s, t, k, b, c);
    FlightFrame(s, t, k, b, c);
    FlightSteps(t, b.epoch, s.data, s.flights, b.r, c);
    hide FlightInv, Enabled, BodyStep, Moves, PartIn, PartOf, FlightStep, IsFlightPoint;
    hide Amend, Result, MatchKey, Unlists;
    UnlistKeeps(s, t, s', b.r.f, b.r.key, b.epoch);
  }

  lemma UnlistedKeeps(s: State, t: Tid, k: Option<Ctx>, b: Body, c: Choice)
    requires FlightInv(s) && Enabled(s, t) && s.threads[t] == Working(k, b) && b.InR? && b.r.Unlisted?
    ensures FlightInv(BodyStep(s, t, k, b, c))
  {
    var s' := BodyStep(s, t, k, b, c);
    FlightFrame(s, t, k, b, c);
    FlightSteps(t, b.epoch, s.data, s.flights, b.r, c);
    hide FlightInv, Enabled, BodyStep, Moves, PartIn, PartOf, FlightStep, IsFlightPoint;
    hide Amend, Result, MatchKey, Unlists;
    CloseKeeps(s, t, s', b.r.f, b.epoch);
  }

  lemma WaitedKeeps(s: State, t: Tid, k: Option<Ctx>, b: Body, c: Choice)
    requires FlightInv(s) && Enabled(s, t) && s.threads[t] == Working(k, b) && b.InR? && b.r.Follow?
    ensures FlightInv(BodyStep(s, t, k, b, c))
  {
    FlightFrame(s, t, k, b, c);
    FlightSteps(t, b.epoch, s.data, s.flights, b.r, c);
    hide FlightInv, BodyStep, Moves, PartIn, PartOf, FlightStep, Result;
    FollowKeeps(s, t, BodyStep(s, t, k, b, c), b.r.f, b.r.mc, b.epoch);
  }

  lemma MovesAside(s: State, t: Tid, s': State, p: Part)
    requires FlightInv(s) && Moves(s, t, s', p) && PartIn(s, t) == p && s'.flights == s.flights
    ensures FlightInv(s')
  {
    hide FlightInv;
    QuietKeeps(s, t, s');
  }

  lemma QuietKeeps(s: State, t: Tid, s': State)
    requires FlightInv(s) && Aside(s, t, s') && BasisKept(s, s')
    ensures FlightInv(s')
  {
    AsideKeepsParts(s, t, s');
    KeepsBased(s, s');
  }

  // ---- Runs ----

  lemma StepKeepsFlights(s: State, t: Tid, c: Choice)
    requires FlightInv(s) && LockInv(s) && Enabled(s, t)
    ensures FlightInv(ThreadStep(s, t, c))
  {
    var s' := ThreadStep(s, t, c);
    assert PartOk(s.flights, t, PartIn(s, t));
    hide BodyStep, FlightInv, LockInv, Aside, BasisKept, Enabled;
    if !s.threads[t].Working? {
      PoolStepIsAside(s, t, c);
      QuietKeeps(s, t, s');
    } else {
      var Working(k, b) := s.threads[t];
      if b.InR? && b.r.Serve? { ServeKeeps(s, t, k, b, c); }
      else if b.InR? && b.r.Lead? { LeadKeeps(s, t, k, b, c); }
      else if b.InR? && b.r.Ran? { RanKeeps(s, t, k, b, c); }
      else if b.InR? && b.r.Unlisted? { UnlistedKeeps(s, t, k, b, c); }
      else if b.InR? && b.r.Follow? { WaitedKeeps(s, t, k, b, c); }
      else {
        if b.InR? { ReadStepIsAside(s, t, k, b, c); }
        else if b.InW? { WriteStepIsAside(s, t, k, b, c); }
        else { OutsideStepIsAside(s, t, k, b, c); }
        QuietKeeps(s, t, s');
      }
    }
  }

  lemma DoKeepsFlights(s: State, a: Action)
    requires FlightInv(s) && LockInv(s) && Can(s, a)
    ensures FlightInv(Do(s, a))
  {
    var s' := Do(s, a);
    hide FlightInv, LockInv;
    match a
    case Call(t, job) => QuietKeeps(s, t, s');
    case Status(t) => QuietKeeps(s, t, s');
    case Step(t, c) => StepKeepsFlights(s, t, c);
    case CallClose => SameFlights(s, s');
    case CloseStep => SameFlights(s, s');
  }

  lemma SameFlights(s: State, s': State)
    requires FlightInv(s) && s'.threads == s.threads && s'.flights == s.flights
    requires s'.epoch == s.epoch && s'.lock == s.lock && s'.data == s.data
    ensures FlightInv(s')
  {
    assert forall t: Tid :: PartIn(s', t) == PartIn(s, t);
    hide PartIn, PartOk, LeadsFlight, Those;
  }

  lemma {:induction false} FlightRun(s: State, run: seq<Action>)
    requires FlightInv(s) && LockInv(s) && Legal(s, run)
    ensures FlightInv(Final(s, run)) && LockInv(Final(s, run))
    decreases |run|
  {
    hide FlightInv, LockInv, Do, Can;
    if run != [] {
      DoKeepsFlights(s, run[0]);
      DoKeepsLock(s, run[0]);
      FlightRun(Do(s, run[0]), run[1..]);
    }
  }

  lemma OpenedFlights(s: State, creds: seq<Credentials.Cred>, now: Credentials.Time)
    requires Opened(s, creds, now)
    ensures FlightInv(s)
  {
    assert Those(s.threads, AtLead) == {};
  }

  /** In every run: no two lookups for one key run at once, and the entry a leader is about to delete
      is its own. */
  lemma OneLeaderPerKey(s: State, creds: seq<Credentials.Cred>, now: Credentials.Time, run: seq<Action>, t: Tid, u: Tid)
    requires Opened(s, creds, now) && Legal(s, run)
    requires PartIn(Final(s, run), t).Leading? && PartIn(Final(s, run), u).Leading?
    ensures var s' := Final(s, run);
            var p, q := PartIn(s', t), PartIn(s', u);
            && (p.key == q.key ==> t == u)
            && p.key in s'.flights.table && s'.flights.table[p.key] == p.f
  {
    OpenedLock(s, creds, now);
    OpenedFlights(s, creds, now);
    FlightRun(s, run);
    hide PartIn, Final, Legal;
    var s' := Final(s, run);
    assert PartOk(s'.flights, t, PartIn(s', t)) && PartOk(s'.flights, u, PartIn(s', u));
  }

  /** In every run: each call either runs a lookup of its own or joins one, each flight's lookup runs
      once, and whoever brings home a shared result has exactly its flight's. */
  lemma SharedResults(s: State, creds: seq<Credentials.Cred>, now: Credentials.Time, run: seq<Action>)
    requires Opened(s, creds, now) && Legal(s, run)
    ensures var s' := Final(s, run);
            var fl := s'.flights;
            && fl.calls == |fl.all| + fl.joins
            && fl.runs + |Those(s'.threads, AtLead)| == |fl.all|
            && forall t: Tid :: PartIn(s', t).Telling? ==> Told(fl, PartIn(s', t).out)
  {
    OpenedLock(s, creds, now);
    OpenedFlights(s, creds, now);
    FlightRun(s, run);
    hide PartIn, Final, Legal, Those;
    var s' := Final(s, run);
    forall t: Tid | PartIn(s', t).Telling? ensures Told(s'.flights, PartIn(s', t).out) {
      assert PartOk(s'.flights, t, PartIn(s', t));
    }
  }

  /** In every run: whoever waits for a flight holds the read lock in the very epoch the flight was
      started in, so no INITIALIZE, STORE, swap or reload fell between, and the flight was started for
      the principal and TGT the daemon still has. */
  lemma FollowerSharesEpoch(s: State, creds: seq<Credentials.Cred>, now: Credentials.Time, run: seq<Action>, t: Tid)
    requires Opened(s, creds, now) && Legal(s, run) && PartIn(Final(s, run), t).Following?
    ensures var s' := Final(s, run);
            var p := PartIn(s', t);
            && p.f < |s'.flights.all| && s'.flights.all[p.f].epoch == p.e == s'.epoch
            && s'.flights.all[p.f].basis == (s'.data.principal, s'.data.tgt)
  {
    OpenedLock(s, creds, now);
    OpenedFlights(s, creds, now);
    FlightRun(s, run);
    hide Final, Legal;
    var s' := Final(s, run);
    assert PartOk(s'.flights, t, PartIn(s', t));
    assert RoleIn(s', t) == Reader(PartIn(s', t).e);
    hide PartIn, RoleIn;
    assert t in s'.lock.readers;
  }

  /** In every run: a shared answer answers the joiner's own question. Joiner and leader asked for the same
      template under the principal the flight was started for, unless they differ in whether they named
      a server or, given one, a client; this holds of everyone waiting and of every answer brought home. */
  lemma JoinerAskedTheSame(s: State, creds: seq<Credentials.Cred>, now: Credentials.Time, run: seq<Action>, t: Tid)
    requires Opened(s, creds, now) && Legal(s, run)
    ensures var s' := Final(s, run);
            var p := PartIn(s', t);
            && (p.Following? ==>
                  p.f < |s'.flights.all| && AskedTheSame(p.mc, s'.flights.all[p.f], s'.data.principal))
            && (p.Telling? && p.out.Joined? ==>
                  && p.out.f < |s'.flights.all| && s'.flights.all[p.out.f].answer == Some(p.out.answer)
                  && AskedTheSame(p.out.mc, s'.flights.all[p.out.f], s'.flights.all[p.out.f].basis.0))
  {
    OpenedLock(s, creds, now);
    OpenedFlights(s, creds, now);
    FlightRun(s, run);
    var s' := Final(s, run);
    var p := PartIn(s', t);
    assert PartOk(s'.flights, t, p);
    hide Final, Legal, Opened, PartIn, LockInv, MatchKey, AskedTheSame;
    if p.Following? {
      SameQuestion(p.mc, s'.flights.all[p.f], s'.data.principal);
    } else if p.Telling? && p.out.Joined? {
      SameQuestion(p.out.mc, s'.flights.all[p.out.f], s'.flights.all[p.out.f].basis.0);
    }
  }

  predicate AskedTheSame(mc: MatchCredential, fl: Flight, own: Names.Principal) {
    mc.hasServer == fl.asked.hasServer && (mc.hasServer ==> mc.hasClient == fl.asked.hasClient) ==>
      BuildTemplate(mc, own) == BuildTemplate(fl.asked, own)
  }

  lemma SameQuestion(mc: MatchCredential, fl: Flight, own: Names.Principal)
    requires fl.key == MatchKey(mc) && fl.key == MatchKey(fl.asked)
    ensures AskedTheSame(mc, fl, own)
  {
    SharedKeySharesTemplate(mc, fl.asked);
    hide MatchKey, BuildTemplate;
  }
}
