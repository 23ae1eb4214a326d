/** The pool of krb5 contexts (acquire, release and Close in internal/krb5c/krb5c.go) under every
    interleaving. */
module DaemonPool {
  import opened Wire
  import opened Daemon
  import Credentials

  predicate HoldsSlot(pc: Pc) {
    pc.HaveSlot? || pc.Creating? || (pc.Working? && pc.ctx.Some?) || pc.Handing? || pc.Returned?
  }

  /** The context an operation holds. */
  function CtxOf(pc: Pc): (k: Option<Ctx>) {
    if pc.Working? then pc.ctx else if pc.Handing? then Some(pc.k) else None
  }

  /** Has a context or is creating one. */
  predicate UsesCtx(pc: Pc) { CtxOf(pc).Some? || pc.Creating? }

  function Slots(s: State): (ts: set<Tid>) { Those(s.threads, HoldsSlot) }
  function Users(s: State): (ts: set<Tid>) { Those(s.threads, UsesCtx) }
  function Owners(ths: map<Tid, Pc>): (m: map<Tid, Ctx>) {
    map t | t in ths && CtxOf(ths[t]).Some? :: CtxOf(ths[t]).value
  }

  function CloserSlots(s: State): (n: nat) {
    match s.closer
    case NotCalled => 0
    case Taking(n) => n
    case _ => s.cap
  }

  predicate Distinct(ks: seq<Ctx>) { forall i, j :: 0 <= i < j < |ks| ==> ks[i] != ks[j] }

  /** Slots and contexts are counted right: the semaphore counts its holders, and contexts that are
      idle, held or being created never exceed the pool. */
  predicate CountInv(s: State) {
    && s.cap >= 1 && CloserSlots(s) <= s.cap
    && |Slots(s)| + CloserSlots(s) == s.sem <= s.cap
    && |s.idle| + |Users(s)| <= s.cap
  }

  /** Every context made is in exactly one place: idle, held by one operation, or freed. */
  ghost predicate OwnInv(made: nat, idle: seq<Ctx>, freed: seq<Ctx>, own: map<Tid, Ctx>) {
    && Distinct(idle) && Distinct(freed)
    && (forall k :: k in idle ==> k < made && k !in freed)
    && (forall k :: k in freed ==> k < made)
    && (forall t :: t in own ==> own[t] < made && own[t] !in idle && own[t] !in freed)
    && (forall t, u :: t in own && u in own && t != u ==> own[t] != own[u])
    && (forall k: Ctx :: k < made ==> k in idle || k in freed || k in own.Values)
  }

  ghost predicate PoolInv(s: State) {
    && CountInv(s) && OwnInv(s.made, s.idle, s.freed, Owners(s.threads))
    && (s.freed != [] ==> s.closer.Draining? || s.closer.Closed?)
    && (s.closer.Closed? ==> s.idle == [])
  }

  // ---- How a step looks from the pool ----

  lemma OwnersUpdate(ths: map<Tid, Pc>, t: Tid, pc: Pc)
    ensures Owners(ths[t := pc]) ==
            if CtxOf(pc).Some? then Owners(ths)[t := CtxOf(pc).value] else Owners(ths) - {t}
    ensures t in Owners(ths) <==> t in ths && CtxOf(ths[t]).Some?
    ensures t in Owners(ths) ==> Owners(ths)[t] == CtxOf(ths[t]).value
  {
    hide CtxOf;
    var a, b := Owners(ths), Owners(ths[t := pc]);
    assert forall u :: u in b <==> if u == t then CtxOf(pc).Some? else u in a;
  }

  /** While an operation works with its context, the pool does not change. */
  lemma WorkingShape(s: State, t: Tid, c: Choice)
    requires Enabled(s, t) && s.threads[t].Working?
    ensures var s' := ThreadStep(s, t, c);
            && PoolSame(s, t, s') && CtxOf(s'.threads[t]) == CtxOf(s.threads[t])
            && HoldsSlot(s'.threads[t]) == HoldsSlot(s.threads[t])
            && UsesCtx(s'.threads[t]) == UsesCtx(s.threads[t])
  {
    var pc := s.threads[t];
    BodyShape(s, t, pc.ctx, pc.body, c);
    hide BodyStep, Enabled;
  }

  ghost predicate PoolSame(s: State, t: Tid, s': State) {
    && s'.cap == s.cap && s'.closer == s.closer && s'.freed == s.freed
    && s'.sem == s.sem && s'.idle == s.idle && s'.made == s.made
    && t in s'.threads && s'.threads == s.threads[t := s'.threads[t]]
  }

  lemma ReadShape(s: State, t: Tid, k: Option<Ctx>, e: nat, r: RPoint, c: Choice)
    ensures var s' := UnderRead(s, t, k, e, r, c);
            PoolSame(s, t, s') && s'.threads[t].Working? && s'.threads[t].ctx == k
  {
    hide ReadStep, FlightStep, IsFlightPoint;
  }

  lemma WriteShape(s: State, t: Tid, k: Option<Ctx>, w: WPoint, c: Choice)
    ensures var s' := UnderWrite(s, t, k, w, c);
            PoolSame(s, t, s') && s'.threads[t].Working? && s'.threads[t].ctx == k
  {
    hide WriteStep, Settled;
  }

  /** A working goroutine goes on with its context, or hands it back, or never had one. */
  lemma BodyShape(s: State, t: Tid, k: Option<Ctx>, b: Body, c: Choice)
    requires Enabled(s, t) && s.threads[t] == Working(k, b)
    ensures var s' := BodyStep(s, t, k, b, c);
            && PoolSame(s, t, s')
            && match s'.threads[t]
               case Working(k', _) => k' == k
               case Handing(k', _) => k == Some(k')
               case Finished(_) => k.None?
               case _ => false
  {
    if b.InR? { ReadShape(s, t, k, b.epoch, b.r, c); }
    if b.InW? { WriteShape(s, t, k, b.w, c); }
    hide OutStep, UnderRead, UnderWrite, Enabled;
  }

  /** Replacing t's program counter by one with the same pool role changes nothing here. */
  lemma SameRole(s: State, s': State, t: Tid, pc': Pc)
    requires PoolInv(s) && t in s.threads && s'.threads == s.threads[t := pc']
    requires CtxOf(pc') == CtxOf(s.threads[t])
    requires HoldsSlot(pc') == HoldsSlot(s.threads[t]) && UsesCtx(pc') == UsesCtx(s.threads[t])
    ensures Slots(s') == Slots(s) && Users(s') == Users(s) && Owners(s'.threads) == Owners(s.threads)
  {
    ThoseUpdate(s.threads, HoldsSlot, t, pc');
    ThoseUpdate(s.threads, UsesCtx, t, pc');
    OwnersUpdate(s.threads, t, pc');
    hide CtxOf, HoldsSlot, UsesCtx, Those, Owners, PoolInv;
    assert Those(s'.threads, HoldsSlot) == Those(s.threads, HoldsSlot);
    assert Those(s'.threads, UsesCtx) == Those(s.threads, UsesCtx);
    assert Owners(s'.threads) == Owners(s.threads);
  }

  // ---- Preservation ----

  lemma DistinctTail(ks: seq<Ctx>)
    requires Distinct(ks) && ks != []
    ensures Distinct(ks[1..]) && ks[0] !in ks[1..] && forall k :: k in ks <==> k == ks[0] || k in ks[1..]
  {
    assert forall i :: 0 <= i < |ks| - 1 ==> ks[1..][i] == ks[i + 1];
    assert ks == [ks[0]] + ks[1..];
  }

  lemma DistinctSnoc(ks: seq<Ctx>, k: Ctx)
    requires Distinct(ks) && k !in ks
    ensures Distinct(ks + [k])
  {
  }

  lemma OwnTake(made: nat, idle: seq<Ctx>, freed: seq<Ctx>, own: map<Tid, Ctx>, t: Tid)
    requires OwnInv(made, idle, freed, own) && idle != [] && t !in own
    ensures OwnInv(made, idle[1..], freed, own[t := idle[0]])
  {
    var own' := own[t := idle[0]];
    DistinctTail(idle);
    forall k | k in own.Values ensures k in own'.Values {
      var u :| u in own && own[u] == k;
      assert own'[u] == k;
    }
    assert own'[t] == idle[0];
    hide Distinct;
  }

  lemma OwnMake(made: nat, idle: seq<Ctx>, freed: seq<Ctx>, own: map<Tid, Ctx>, t: Tid)
    requires OwnInv(made, idle, freed, own) && t !in own
    ensures OwnInv(made + 1, idle, freed, own[t := made])
  {
    var own' := own[t := made];
    forall k | k in own.Values ensures k in own'.Values {
      var u :| u in own && own[u] == k;
      assert own'[u] == k;
    }
    assert own'[t] == made;
  }

  lemma OwnHand(made: nat, idle: seq<Ctx>, freed: seq<Ctx>, own: map<Tid, Ctx>, t: Tid)
    requires OwnInv(made, idle, freed, own) && t in own
    ensures OwnInv(made, idle + [own[t]], freed, own - {t})
  {
    var own' := own - {t};
    forall k | k in own.Values && k != own[t] ensures k in own'.Values {
      var u :| u in own && own[u] == k;
      assert own'[u] == k;
    }
  }

  lemma OwnFree(made: nat, idle: seq<Ctx>, freed: seq<Ctx>, own: map<Tid, Ctx>)
    requires OwnInv(made, idle, freed, own) && idle != []
    ensures OwnInv(made, idle[1..], freed + [idle[0]], own)
  {
    DistinctTail(idle);
    assert idle[0] in idle;
    DistinctSnoc(freed, idle[0]);
    hide Distinct;
  }

  lemma UsersHoldSlots(s: State)
    ensures Users(s) <= Slots(s) && |Users(s)| <= |Slots(s)|
  {
    var a, b := Users(s), Slots(s);
    assert b == a + (b - a);
  }

  /** When Close has every slot nobody holds a slot, so nobody has or is making a context. */
  lemma NoUsersOnceClosed(s: State)
    requires CountInv(s) && CloserSlots(s) == s.cap
    ensures Slots(s) == {} && Users(s) == {}
  {
    UsersHoldSlots(s);
  }

  /** The counts and owners once t's program counter has become pc'. */
  lemma Counts(s: State, s': State, t: Tid, pc': Pc)
    requires s'.threads == s.threads[t := pc']
    ensures |Slots(s')| == |Slots(s)| + (if HoldsSlot(pc') then 1 else 0)
                                      - (if t in s.threads && HoldsSlot(s.threads[t]) then 1 else 0)
    ensures |Users(s')| == |Users(s)| + (if UsesCtx(pc') then 1 else 0)
                                      - (if t in s.threads && UsesCtx(s.threads[t]) then 1 else 0)
    ensures Owners(s'.threads) ==
            if CtxOf(pc').Some? then Owners(s.threads)[t := CtxOf(pc').value] else Owners(s.threads) - {t}
    ensures t in Owners(s.threads) <==> t in s.threads && CtxOf(s.threads[t]).Some?
    ensures t in Owners(s.threads) ==> Owners(s.threads)[t] == CtxOf(s.threads[t]).value
  {
    ThoseUpdate(s.threads, HoldsSlot, t, pc');
    ThoseUpdate(s.threads, UsesCtx, t, pc');
    OwnersUpdate(s.threads, t, pc');
  }

  lemma WorkingKeepsPool(s: State, t: Tid, c: Choice)
    requires PoolInv(s) && Enabled(s, t) && s.threads[t].Working?
    ensures PoolInv(ThreadStep(s, t, c))
  {
    WorkingShape(s, t, c);
    hide ThreadStep, OwnInv, Enabled;
    var s' := ThreadStep(s, t, c);
    SameRole(s, s', t, s'.threads[t]);
  }

  lemma SlotKeepsPool(s: State, t: Tid, c: Choice)
    requires PoolInv(s) && Enabled(s, t) && (s.threads[t].WantSlot? || s.threads[t].Returned?)
    ensures PoolInv(ThreadStep(s, t, c))
  {
    var s', own := ThreadStep(s, t, c), Owners(s.threads);
    var pc' := s'.threads[t];
    Counts(s, s', t, pc');
    hide ThreadStep, OwnInv, Owners, Slots, Users;
    assert Owners(s'.threads) == own;
  }

  lemma TakeKeepsPool(s: State, t: Tid, c: Choice)
    requires PoolInv(s) && Enabled(s, t) && s.threads[t].HaveSlot?
    ensures PoolInv(ThreadStep(s, t, c))
  {
    var s', own := ThreadStep(s, t, c), Owners(s.threads);
    var pc' := s'.threads[t];
    Counts(s, s', t, pc');
    UsersHoldSlots(s');
    if s.idle == [] {
      hide ThreadStep, OwnInv, Owners, Slots, Users;
      assert Owners(s'.threads) == own;
    } else {
      OwnTake(s.made, s.idle, s.freed, own, t);
      hide ThreadStep, OwnInv, Owners, Slots, Users;
    }
  }

  lemma CreatedKeepsPool(s: State, t: Tid, c: Choice)
    requires PoolInv(s) && Enabled(s, t) && s.threads[t].Creating? && c.ok
    ensures PoolInv(ThreadStep(s, t, c))
  {
    var s' := ThreadStep(s, t, c);
    Counts(s, s', t, s'.threads[t]);
    OwnMake(s.made, s.idle, s.freed, Owners(s.threads), t);
    hide BodyStep, OwnInv, Owners, Slots, Users, Enabled;
  }

  lemma NotCreatedKeepsPool(s: State, t: Tid, c: Choice)
    requires PoolInv(s) && Enabled(s, t) && s.threads[t].Creating? && !c.ok
    ensures PoolInv(ThreadStep(s, t, c))
  {
    var s', own := ThreadStep(s, t, c), Owners(s.threads);
    Counts(s, s', t, s'.threads[t]);
    assert s'.threads[t] == After(if s.threads[t].job.MaintainJob? then Passed else Plain);
    hide BodyStep, OwnInv, Owners, Slots, Users, Enabled;
    assert Owners(s'.threads) == own;
  }

  lemma HandKeepsPool(s: State, t: Tid, c: Choice)
    requires PoolInv(s) && Enabled(s, t) && s.threads[t].Handing?
    ensures PoolInv(ThreadStep(s, t, c))
  {
    var s', own := ThreadStep(s, t, c), Owners(s.threads);
    var pc' := s'.threads[t];
    Counts(s, s', t, pc');
    OwnHand(s.made, s.idle, s.freed, own, t);
    UsersHoldSlots(s);
    hide ThreadStep, OwnInv, Owners, Slots, Users;
  }

  lemma NewcomerKeepsPool(s: State, t: Tid, pc: Pc)
    requires PoolInv(s) && t !in s.threads && !HoldsSlot(pc) && !UsesCtx(pc)
    ensures PoolInv(With(s, t, pc))
  {
    var s', own := With(s, t, pc), Owners(s.threads);
    Counts(s, s', t, pc);
    hide OwnInv, Owners, Slots, Users, HoldsSlot;
    assert Owners(s'.threads) == own;
  }

  lemma CloseKeepsPool(s: State)
    requires PoolInv(s) && Can(s, CloseStep)
    ensures PoolInv(Do(s, CloseStep))
  {
    if s.idle != [] {
      OwnFree(s.made, s.idle, s.freed, Owners(s.threads));
    }
    hide OwnInv, Owners, Those;
  }

  lemma DoKeepsPool(s: State, a: Action)
    requires PoolInv(s) && Can(s, a)
    ensures PoolInv(Do(s, a))
  {
    match a
    case Call(t, job) => NewcomerKeepsPool(s, t, WantSlot(job));
    case Status(t) => NewcomerKeepsPool(s, t, Working(None, WantR(Look)));
    case Step(t, c) =>
      hide ThreadStep, PoolInv;
      if s.threads[t].HaveSlot? { TakeKeepsPool(s, t, c); }
      else if s.threads[t].Creating? && c.ok { CreatedKeepsPool(s, t, c); }
      else if s.threads[t].Creating? { NotCreatedKeepsPool(s, t, c); }
      else if s.threads[t].Handing? { HandKeepsPool(s, t, c); }
      else if s.threads[t].Working? { WorkingKeepsPool(s, t, c); }
      else { SlotKeepsPool(s, t, c); }
    case CallClose =>
    case CloseStep => CloseKeepsPool(s);
  }

  // ---- Whole runs ----

  /** In every run from Open on: contexts existing or being created never exceed the pool, none is
      held twice or held while idle, and none is freed before Close has drained the pool. */
  lemma PoolIsSafe(s: State, creds: seq<Credentials.Cred>, now: Credentials.Time, run: seq<Action>)
    requires Opened(s, creds, now) && Legal(s, run)
    ensures PoolInv(Final(s, run))
  {
    assert Slots(s) == {} && Users(s) == {} && Owners(s.threads) == map[];
    PoolRun(s, run);
  }

  lemma {:induction false} PoolRun(s: State, run: seq<Action>)
    requires PoolInv(s) && Legal(s, run)
    ensures PoolInv(Final(s, run))
    decreases |run|
  {
    hide PoolInv, Do, Can;
    if run != [] {
      DoKeepsPool(s, run[0]);
      PoolRun(Do(s, run[0]), run[1..]);
    }
  }

  /** release's send never blocks: whoever hands a context back finds room for it. */
  lemma ReleaseNeverBlocks(s: State, t: Tid)
    requires PoolInv(s) && t in s.threads && s.threads[t].Handing?
    ensures Enabled(s, t)
  {
    hide OwnInv;
    ThoseUpdate(s.threads, UsesCtx, t, Finished(Plain));
    AddRemove(Users(s), t);
  }

  /** Once Close has returned, every context ever created has been freed, and exactly once. */
  lemma CloseFreesEverything(s: State)
    requires PoolInv(s) && s.closer.Closed?
    ensures Distinct(s.freed) && forall k: Ctx :: k in s.freed <==> k < s.made
  {
    NoUsersOnceClosed(s);
    NobodyOwns(s);
  }

  /** In every run: a release finds room for its context; once Close has filled the semaphore no
      operation holds a context, so every one ever created is idle or already freed; and when Close is
      over each has been freed exactly once. */
  lemma CloseIsComplete(s: State, creds: seq<Credentials.Cred>, now: Credentials.Time, run: seq<Action>)
    requires Opened(s, creds, now) && Legal(s, run)
    ensures var s' := Final(s, run);
            && (forall t :: t in s'.threads && s'.threads[t].Handing? ==> Enabled(s', t))
            && (s'.closer.Draining? || s'.closer.Closed? ==>
                  && Users(s') == {} && Distinct(s'.idle) && Distinct(s'.freed)
                  && forall k: Ctx :: k < s'.made <==> (k in s'.idle <==> k !in s'.freed))
            && (s'.closer.Closed? ==> forall k: Ctx :: k in s'.freed <==> k < s'.made)
  {
    PoolIsSafe(s, creds, now, run);
    var s' := Final(s, run);
    hide Final, Legal, Opened;
    forall t | t in s'.threads && s'.threads[t].Handing? ensures Enabled(s', t) {
      ReleaseNeverBlocks(s', t);
    }
    hide Enabled;
    if s'.closer.Draining? || s'.closer.Closed? {
      NoUsersOnceClosed(s');
      NobodyOwns(s');
    }
    if s'.closer.Closed? {
      CloseFreesEverything(s');
    }
  }

  lemma NobodyOwns(s: State)
    requires Users(s) == {}
    ensures Owners(s.threads).Values == {}
  {
    var own := Owners(s.threads);
    assert forall t :: t in own ==> t in Users(s);
    assert own.Keys == {};
  }
}
