/** When the background loop wakes and renews (Run, nextWake, noteRenewFailure in
    internal/krb5c/tgt.go and internal/krb5c/policy.go), with one loop and an ideal clock. */
module Timing {
  import opened Wire
  import Names
  import opened Credentials
  import opened Session
  import opened SessionLaws

  /** The loop's state after one pass per world met, starting at `now`. */
  function RunLoop(d: Data, minLife: int, now: Time, ws: seq<World>): (r: (Data, Time)) {
    if ws == [] then (d, now)
    else
      var (d, now) := RunLoop(d, minLife, now, ws[..|ws| - 1]);
      var d' := Maintain(d, minLife, now, ws[|ws| - 1]);
      (d', NextWake(d', now))
  }

  /** Whether the process survives all those passes. */
  predicate LoopSurvives(d: Data, minLife: int, now: Time, ws: seq<World>) {
    ws != [] ==>
      var init, last := ws[..|ws| - 1], ws[|ws| - 1];
      var (d', now') := RunLoop(d, minLife, now, init);
      LoopSurvives(d, minLife, now, init) && Survives(d', minLife, now', last)
  }

  lemma {:induction false} DeadLoop(d: Data, minLife: int, now: Time, ws: seq<World>, k: nat)
    requires k <= |ws| && !LoopSurvives(d, minLife, now, ws[..k])
    ensures !LoopSurvives(d, minLife, now, ws)
  {
    hide Survives, RunLoop;
    if k < |ws| {
      var init := ws[..|ws| - 1];
      assert init[..k] == ws[..k];
      DeadLoop(d, minLife, now, init, k);
    } else {
      assert ws[..k] == ws;
    }
  }

  /** How many of those passes start a renewal. */
  function Attempts(d: Data, minLife: int, now: Time, ws: seq<World>): (n: nat) {
    if ws == [] then 0
    else
      var init, last := ws[..|ws| - 1], ws[|ws| - 1];
      var (d', now') := RunLoop(d, minLife, now, init);
      Attempts(d, minLife, now, init) + if RenewWanted(Reloaded(d', minLife, now', last), now') then 1 else 0
  }

  /** The source file never holds a TGT that ends later than t. */
  predicate NothingNewer(w: World, t: Cred) {
    w.src.File? && Peek(w.src.creds).Some? ==> End(Peek(w.src.creds).value) <= End(t)
  }

  ghost predicate Quiet(ws: seq<World>, t: Cred) {
    forall i :: 0 <= i < |ws| ==> NothingNewer(ws[i], t)
  }

  ghost predicate Outage(ws: seq<World>, t: Cred) {
    Quiet(ws, t) && forall i :: 0 <= i < |ws| ==> ws[i].kdc.None?
  }

  function CeilDiv(a: int, b: int): (q: int)
    requires b > 0
  {
    (a + b - 1) / b
  }

  /** A TGT worth renewing: renewable, with a positive lifetime. */
  predicate Sound(t: Cred) { Renewable(t) && Began(t) < End(t) }

  lemma HalfLife(t: Cred)
    requires Began(t) < End(t)
    ensures Began(t) <= RenewPoint(t) < End(t)
    ensures 2 * (End(t) - RenewPoint(t)) >= End(t) - Began(t)
  {
    hide KrbTime, Began;
  }

  /** A pass that finds no newer file does nothing to the TGT unless a renewal is wanted, and then
      only the KDC's answer counts. */
  lemma QuietPass(d: Data, minLife: int, now: Time, w: World)
    requires d.tgt.Some? && NothingNewer(w, d.tgt.value.cred)
    ensures RenewWanted(Reloaded(d, minLife, now, w), now) == RenewWanted(d, now) && Survives(d, minLife, now, w)
    ensures !RenewWanted(d, now) ==>
              var d' := Maintain(d, minLife, now, w);
              && d'.tgt == d.tgt && d'.renewing == d.renewing
              && d'.backoff == d.backoff && d'.retryAt == d.retryAt
    ensures RenewWanted(d, now) && w.kdc.None? ==>
              var d', f := Maintain(d, minLife, now, w), NoteRenewFailure(d, now);
              && d'.tgt == d.tgt && !d'.renewing
              && d'.backoff == f.backoff && d'.retryAt == f.retryAt
  {
    hide Filter, Peek, LoadAll, RenewDue, End, Expired, Remaining;
  }

  // ---- Before half-life: the loop reaches it exactly ----

  lemma SleepStep(d: Data, now: Time)
    requires d.tgt.Some? && Sound(d.tgt.value.cred) && now < RenewPoint(d.tgt.value.cred)
    ensures var rp := RenewPoint(d.tgt.value.cred);
            NextWake(d, now) == if rp <= now + MAX_SLEEP then rp else now + MAX_SLEEP
    ensures !RenewWanted(d, now)
  {
    HalfLife(d.tgt.value.cred);
    hide RenewPoint, End, Renewable;
  }

  /** After i wakes the clock has advanced by i full sleeps, or is at the half-life. */
  lemma {:induction false} SleepsAdvance(d: Data, minLife: int, now: Time, ws: seq<World>)
    requires d.tgt.Some? && Sound(d.tgt.value.cred) && Quiet(ws, d.tgt.value.cred)
    requires ws != [] ==> now + (|ws| - 1) * MAX_SLEEP < RenewPoint(d.tgt.value.cred)
    ensures var (d', now') := RunLoop(d, minLife, now, ws);
            var rp := RenewPoint(d.tgt.value.cred);
            && d'.tgt == d.tgt && d'.renewing == d.renewing && d'.retryAt == d.retryAt && d'.backoff == d.backoff
            && now' == if ws != [] && now + |ws| * MAX_SLEEP > rp then rp else now + |ws| * MAX_SLEEP
  {
    if ws != [] {
      var n := |ws| - 1;
      var init, last := ws[..n], ws[n];
      assert NothingNewer(last, d.tgt.value.cred);
      assert Quiet(init, d.tgt.value.cred) by { assert forall i :: 0 <= i < n ==> init[i] == ws[i]; }
      SleepsAdvance(d, minLife, now, init);
      var (d1, now1) := RunLoop(d, minLife, now, init);
      hide Maintain, NextWake, RenewWanted, RenewPoint, NothingNewer, Quiet, Sound;
      assert now1 == now + n * MAX_SLEEP;
      SleepStep(d1, now1);
      QuietPass(d1, minLife, now1, last);
      var d2 := Maintain(d1, minLife, now1, last);
      SleepStep(d2, now1);
    }
  }

  /** The wakes reach the half-life exactly, after ceil((half-life - now) / maxSleep) of them, and a
      renewal is wanted there. */
  lemma NoOversleeping(d: Data, minLife: int, now: Time, ws: seq<World>)
    requires d.tgt.Some? && Sound(d.tgt.value.cred) && Quiet(ws, d.tgt.value.cred)
    requires now < RenewPoint(d.tgt.value.cred) && d.retryAt <= now && !d.renewing
    requires |ws| == CeilDiv(RenewPoint(d.tgt.value.cred) - now, MAX_SLEEP)
    ensures var (d', now') := RunLoop(d, minLife, now, ws);
            now' == RenewPoint(d.tgt.value.cred) && d'.tgt == d.tgt && RenewWanted(d', now')
  {
    var t := d.tgt.value.cred;
    HalfLife(t);
    CeilBounds(RenewPoint(t) - now, MAX_SLEEP);
    SleepsAdvance(d, minLife, now, ws);
  }

  lemma CeilBounds(a: int, b: int)
    requires a > 0 && b > 0
    ensures CeilDiv(a, b) >= 1 && (CeilDiv(a, b) - 1) * b < a <= CeilDiv(a, b) * b
  {
    var q := (a + b - 1) / b;
    assert a + b - 1 == q * b + (a + b - 1) % b;
  }

  // ---- From half-life on, with the KDC out ----

  function Pow2(k: nat): (p: nat)
    ensures p >= 1
  {
    if k == 0 then 1 else 2 * Pow2(k - 1)
  }

  /** min(30s * 2^(k-1), 10min): the backoff after k failures in a row. */
  function BackoffAfter(k: nat): (b: int) {
    if k == 0 then 0
    else if MIN_BACKOFF * Pow2(k - 1) > MAX_BACKOFF then MAX_BACKOFF else MIN_BACKOFF * Pow2(k - 1)
  }

  /** When the attempt after k failures happens, the first one being at `start`. */
  function AttemptTime(start: Time, k: nat): (at: Time) {
    if k == 0 then start else AttemptTime(start, k - 1) + BackoffAfter(k)
  }

  lemma BackoffStep(d: Data, now: Time, k: nat)
    requires d.backoff == BackoffAfter(k)
    ensures NoteRenewFailure(d, now).backoff == BackoffAfter(k + 1)
    ensures NoteRenewFailure(d, now).retryAt == now + BackoffAfter(k + 1)
    ensures 0 < BackoffAfter(k + 1) <= MAX_BACKOFF
  {
    if k > 0 {
      assert Pow2(k) == 2 * Pow2(k - 1);
    }
  }

  lemma {:induction false} AttemptsAreFrequent(start: Time, k: nat)
    ensures start <= AttemptTime(start, k) <= start + k * MAX_BACKOFF
  {
    if k > 0 {
      AttemptsAreFrequent(start, k - 1);
      BackoffStep(Data(Names.NO_PRINCIPAL, [], None, 0, false, BackoffAfter(k - 1), 0, 0), 0, k - 1);
      assert k * MAX_BACKOFF == (k - 1) * MAX_BACKOFF + MAX_BACKOFF;
    }
  }

  lemma RetryWake(d: Data, now: Time)
    requires d.tgt.Some? && CanRenew(d.tgt.value.cred, now) && RenewPoint(d.tgt.value.cred) <= now
    requires now < d.retryAt <= now + MAX_SLEEP
    ensures NextWake(d, now) == d.retryAt
  {
    hide RenewPoint, CanRenew;
  }

  lemma AttemptsIncrease(start: Time, k: nat)
    ensures AttemptTime(start, k) < AttemptTime(start, k + 1)
  {
    BackoffStep(Data(Names.NO_PRINCIPAL, [], None, 0, false, BackoffAfter(k), 0, 0), 0, k);
  }

  lemma FirstAttempt(d: Data)
    requires d.tgt.Some? && Sound(d.tgt.value.cred) && d.retryAt <= RenewPoint(d.tgt.value.cred) && !d.renewing
    ensures RenewWanted(d, RenewPoint(d.tgt.value.cred))
  {
    HalfLife(d.tgt.value.cred);
  }

  /** Where the loop stands after k passes of an outage that began at half-life: as long as the k-th retry
      time lies before the end it is exactly that time, and a renewal is wanted; after that the TGT has
      ended. */
  predicate OutageState(d: Data, now: Time, t: Option<Tgt>, k: nat) {
    && d.tgt == t && t.Some? && !d.renewing
    && var rp, end := RenewPoint(t.value.cred), End(t.value.cred);
       if AttemptTime(rp, k) < end then
         && now == AttemptTime(rp, k) && d.backoff == BackoffAfter(k) && (k > 0 ==> d.retryAt == now)
         && RenewWanted(d, now)
       else now >= end
  }

  /** A pass before the end fails and sleeps to exactly the next retry time. */
  lemma OutageStep(d: Data, minLife: int, now: Time, w: World, k: nat)
    requires d.tgt.Some? && Sound(d.tgt.value.cred) && NothingNewer(w, d.tgt.value.cred) && w.kdc.None?
    requires OutageState(d, now, d.tgt, k) && now < End(d.tgt.value.cred)
    ensures RenewWanted(Reloaded(d, minLife, now, w), now)
    ensures var d' := Maintain(d, minLife, now, w); OutageState(d', NextWake(d', now), d.tgt, k + 1)
    ensures AttemptTime(RenewPoint(d.tgt.value.cred), k) < End(d.tgt.value.cred)
  {
    QuietPass(d, minLife, now, w);
    BackoffStep(d, now, k);
    var d' := Maintain(d, minLife, now, w);
    hide Maintain, Reloaded, NextWake, NoteRenewFailure, RenewPoint, BackoffAfter, NothingNewer;
    assert d'.retryAt == AttemptTime(RenewPoint(d.tgt.value.cred), k + 1);
    RetryWake(d', now);
  }

  /** A pass after the end starts nothing, and the next one comes later still. */
  lemma LapsedStep(d: Data, minLife: int, now: Time, w: World, k: nat)
    requires d.tgt.Some? && NothingNewer(w, d.tgt.value.cred)
    requires OutageState(d, now, d.tgt, k) && now >= End(d.tgt.value.cred)
    ensures !RenewWanted(Reloaded(d, minLife, now, w), now)
    ensures var d' := Maintain(d, minLife, now, w); OutageState(d', NextWake(d', now), d.tgt, k + 1)
    ensures AttemptTime(RenewPoint(d.tgt.value.cred), k) >= End(d.tgt.value.cred)
  {
    assert !RenewWanted(d, now);
    QuietPass(d, minLife, now, w);
    AttemptsIncrease(RenewPoint(d.tgt.value.cred), k);
    hide Maintain, Reloaded, NextWake, RenewPoint, AttemptTime, BackoffAfter, NothingNewer, End, RenewWanted;
  }

  /** The whole outage, however long: pass k starts a renewal exactly when the k-th retry time lies before
      the end of the TGT, and then happens exactly at that time, with the backoff after k failures. */
  lemma {:induction false} OutageAttempt(d: Data, minLife: int, ws: seq<World>)
    requires d.tgt.Some? && Sound(d.tgt.value.cred) && Outage(ws, d.tgt.value.cred)
    requires d.backoff == 0 && d.retryAt <= RenewPoint(d.tgt.value.cred) && !d.renewing
    ensures var rp := RenewPoint(d.tgt.value.cred);
            var (d', now') := RunLoop(d, minLife, rp, ws);
            OutageState(d', now', d.tgt, |ws|)
    ensures Attempts(d, minLife, RenewPoint(d.tgt.value.cred), ws) ==
            AttemptsBefore(RenewPoint(d.tgt.value.cred), End(d.tgt.value.cred), |ws|)
  {
    var t := d.tgt.value.cred;
    var rp, k := RenewPoint(t), |ws|;
    FirstAttempt(d);
    HalfLife(t);
    if ws != [] {
      var n := k - 1;
      var init, last := ws[..n], ws[n];
      assert NothingNewer(last, t) && last.kdc.None?;
      assert Outage(init, t) by { assert forall i :: 0 <= i < n ==> init[i] == ws[i]; }
      hide Maintain, Reloaded, NextWake, RenewWanted, RenewPoint, NothingNewer, Outage, AttemptTime, OutageState;
      hide Sound, End, Began;
      OutageAttempt(d, minLife, init);
      var (d1, now1) := RunLoop(d, minLife, rp, init);
      assert d1.tgt == d.tgt by { SameTgt(d1, now1, d.tgt, n); }
      if now1 < End(t) {
        OutageStep(d1, minLife, now1, last, n);
      } else {
        LapsedStep(d1, minLife, now1, last, n);
      }
    }
  }

  /** The attempts are exactly the retry times before the end, each at its time. */
  lemma OutageAttemptsExactly(d: Data, minLife: int, ws: seq<World>, k: nat)
    requires d.tgt.Some? && Sound(d.tgt.value.cred) && Outage(ws, d.tgt.value.cred) && k < |ws|
    requires d.backoff == 0 && d.retryAt <= RenewPoint(d.tgt.value.cred) && !d.renewing
    ensures var rp, end := RenewPoint(d.tgt.value.cred), End(d.tgt.value.cred);
            var (d', now') := RunLoop(d, minLife, rp, ws[..k]);
            if AttemptTime(rp, k) < end then
              && RenewWanted(Reloaded(d', minLife, now', ws[k]), now')
              && now' == AttemptTime(rp, k) && d'.backoff == BackoffAfter(k)
            else !RenewWanted(Reloaded(d', minLife, now', ws[k]), now')
  {
    var t, rp := d.tgt.value.cred, RenewPoint(d.tgt.value.cred);
    assert Outage(ws[..k], t) by { assert forall i :: 0 <= i < k ==> ws[..k][i] == ws[i]; }
    assert NothingNewer(ws[k], t) && ws[k].kdc.None?;
    OutageAttempt(d, minLife, ws[..k]);
    hide RunLoop, Maintain, Reloaded, NextWake, RenewWanted, RenewPoint, NothingNewer, Outage;
    hide AttemptTime, BackoffAfter;
    var (d', now') := RunLoop(d, minLife, rp, ws[..k]);
    if now' < End(t) {
      OutageStep(d', minLife, now', ws[k], k);
    } else {
      LapsedStep(d', minLife, now', ws[k], k);
    }
  }

  lemma SameTgt(d: Data, now: Time, t: Option<Tgt>, k: nat)
    requires OutageState(d, now, t, k)
    ensures d.tgt == t
  {
  }

  /** How many of the first n retry times lie before `end`. */
  function AttemptsBefore(start: Time, end: Time, n: nat): (a: nat)
    ensures a <= n
  {
    if n == 0 then 0 else AttemptsBefore(start, end, n - 1) + if AttemptTime(start, n - 1) < end then 1 else 0
  }

  /** Those are the first ones: all of them while the last still fits. */
  lemma {:induction false} AllFit(start: Time, end: Time, n: nat)
    ensures n == 0 || AttemptTime(start, n - 1) < end ==> AttemptsBefore(start, end, n) == n
  {
    hide AttemptTime;
    if n > 1 {
      AttemptsIncrease(start, n - 2);
      AllFit(start, end, n - 1);
    }
  }

  /** k backoffs of 10 minutes fit between half-life and expiry, so the k-th retry comes before it. */
  lemma RoomFor(t: Cred, k: nat)
    requires k * MAX_BACKOFF < End(t) - RenewPoint(t)
    ensures AttemptTime(RenewPoint(t), k) < End(t)
  {
    AttemptsAreFrequent(RenewPoint(t), k);
    hide End, RenewPoint, AttemptTime;
  }

  lemma OutageRoom(t: Cred, n: nat)
    requires Began(t) < End(t) && n == CeilDiv(End(t) - RenewPoint(t), MAX_BACKOFF)
    ensures n >= 1 && AttemptTime(RenewPoint(t), n - 1) < End(t) && 2 * n * MAX_BACKOFF >= End(t) - Began(t)
  {
    HalfLife(t);
    hide End, Began, RenewPoint, AttemptTime;
    CeilBounds(End(t) - RenewPoint(t), MAX_BACKOFF);
    RoomFor(t, n - 1);
  }

  /** A KDC that stays out from half-life to expiry is asked at least ceil(W / 10min) times, where the
      window W is at least half the lifetime: every one of those passes starts a renewal before the
      TGT ends. */
  lemma OutageBound(d: Data, minLife: int, ws: seq<World>)
    requires d.tgt.Some? && Sound(d.tgt.value.cred) && Outage(ws, d.tgt.value.cred)
    requires d.backoff == 0 && d.retryAt <= RenewPoint(d.tgt.value.cred) && !d.renewing
    requires |ws| == CeilDiv(End(d.tgt.value.cred) - RenewPoint(d.tgt.value.cred), MAX_BACKOFF)
    ensures Attempts(d, minLife, RenewPoint(d.tgt.value.cred), ws) == |ws|
    ensures forall k :: 0 <= k < |ws| ==>
              RunLoop(d, minLife, RenewPoint(d.tgt.value.cred), ws[..k]).1 < End(d.tgt.value.cred)
    ensures 2 * |ws| * MAX_BACKOFF >= End(d.tgt.value.cred) - Began(d.tgt.value.cred)
  {
    var t := d.tgt.value.cred;
    var rp, n := RenewPoint(t), |ws|;
    OutageRoom(t, n);
    hide RunLoop, Attempts, RenewWanted, RenewPoint, End, Began, Sound, CeilDiv, AttemptTime, OutageState;
    forall k | 0 <= k < n ensures RunLoop(d, minLife, rp, ws[..k]).1 < End(t) {
      assert Outage(ws[..k], t) by { assert forall i :: 0 <= i < k ==> ws[..k][i] == ws[i]; }
      OutageAttempt(d, minLife, ws[..k]);
      var (d', now') := RunLoop(d, minLife, rp, ws[..k]);
      EarlierFits(rp, k, n - 1);
      StillBefore(d', now', d.tgt, k);
    }
    OutageAttempt(d, minLife, ws);
    AllFit(rp, End(t), n);
  }

  lemma {:induction false} EarlierFits(start: Time, k: nat, m: nat)
    requires k <= m
    ensures AttemptTime(start, k) <= AttemptTime(start, m)
  {
    hide AttemptTime;
    if k < m {
      EarlierFits(start, k, m - 1);
      AttemptsIncrease(start, m - 1);
    }
  }

  lemma StillBefore(d: Data, now: Time, t: Option<Tgt>, k: nat)
    requires OutageState(d, now, t, k) && AttemptTime(RenewPoint(t.value.cred), k) < End(t.value.cred)
    ensures now < End(t.value.cred)
  {
  }

  // ---- The two phases together ----

  lemma {:induction false} LoopAppend(d: Data, minLife: int, now: Time, a: seq<World>, b: seq<World>)
    ensures var (d1, now1) := RunLoop(d, minLife, now, a);
            && RunLoop(d, minLife, now, a + b) == RunLoop(d1, minLife, now1, b)
            && Attempts(d, minLife, now, a + b) == Attempts(d, minLife, now, a) + Attempts(d1, minLife, now1, b)
    decreases |b|
  {
    hide Maintain, NextWake, RenewWanted, Reloaded;
    if b == [] {
      assert a + b == a;
    } else {
      var n, ab := |b| - 1, a + b;
      assert ab[..|ab| - 1] == a + b[..n] && ab[|ab| - 1] == b[n];
      LoopAppend(d, minLife, now, a, b[..n]);
    }
  }

  /** From any time before half-life into an outage that lasts until expiry: the passes `a` sleep up to
      exactly the half-life, and the passes `b`, ceil(W / 10min) of them, all ask the KDC before the TGT
      ends. */
  lemma OutageFromAnyTime(d: Data, minLife: int, now: Time, a: seq<World>, b: seq<World>)
    requires d.tgt.Some? && Sound(d.tgt.value.cred) && Outage(a, d.tgt.value.cred) && Outage(b, d.tgt.value.cred)
    requires now < RenewPoint(d.tgt.value.cred) && d.backoff == 0 && d.retryAt <= now && !d.renewing
    requires |a| == CeilDiv(RenewPoint(d.tgt.value.cred) - now, MAX_SLEEP)
    requires |b| == CeilDiv(End(d.tgt.value.cred) - RenewPoint(d.tgt.value.cred), MAX_BACKOFF)
    ensures RunLoop(d, minLife, now, a).1 == RenewPoint(d.tgt.value.cred)
    ensures Attempts(d, minLife, now, a + b) >= |b|
    ensures forall k :: 0 <= k < |b| ==> RunLoop(d, minLife, now, a + b[..k]).1 < End(d.tgt.value.cred)
  {
    CeilBounds(RenewPoint(d.tgt.value.cred) - now, MAX_SLEEP);
    SleepsAdvance(d, minLife, now, a);
    NoOversleeping(d, minLife, now, a);
    hide CeilDiv, Outage, Quiet, RenewWanted, Sound, RenewPoint, End, Began, RunLoop, Attempts;
    var d1 := RunLoop(d, minLife, now, a).0;
    OutageBound(d1, minLife, b);
    LoopAppend(d, minLife, now, a, b);
    forall k | 0 <= k < |b| ensures RunLoop(d, minLife, now, a + b[..k]).1 < End(d.tgt.value.cred) {
      LoopAppend(d, minLife, now, a, b[..k]);
    }
  }

  // ---- With a KDC that answers ----

  /** The loop is on time: a sound TGT is held, its half-life is not over, and no retry is pending. */
  predicate OnTime(d: Data, now: Time) {
    d.tgt.Some? && Sound(d.tgt.value.cred) && now <= RenewPoint(d.tgt.value.cred) && d.retryAt <= now && !d.renewing
  }

  /** What a pass meets when all is well: no newer file, and a KDC that would renew for a while. */
  predicate Well(w: World, d: Data, now: Time) {
    && (d.tgt.Some? ==> NothingNewer(w, d.tgt.value.cred))
    && w.kdc.Some? && Sound(w.kdc.value) && now < RenewPoint(w.kdc.value) && w.swap.SwapOk?
  }

  ghost predicate AllWell(d: Data, minLife: int, now: Time, ws: seq<World>) {
    ws != [] ==>
      var init, last := ws[..|ws| - 1], ws[|ws| - 1];
      var (d', now') := RunLoop(d, minLife, now, init);
      AllWell(d, minLife, now, init) && Well(last, d', now')
  }

  /** However a TGT comes in, by a swap or by adopting the file, no old backoff delays its renewal. */
  lemma NewTgtIsOnTime(d: Data, now: Time, cred: Cred, src: Source, loaded: seq<Cred>)
    requires Sound(cred) && ZERO_TIME <= now <= RenewPoint(cred) && !d.renewing
    ensures OnTime(SetTGT(d, cred, SwapOk), now)
    ensures GoesThrough(d, now, src, loaded, LoadOk) && Peek(loaded) == Some(cred) ==>
              OnTime(LoadNewer(d, now, src, loaded, LoadOk), now)
  {
    PeekAgreesWithLoad(loaded, now);
    hide Sound, RenewPoint, LoadAll, Filter, ClearRenewable, Expired, End;
  }

  lemma LifeBegins(t: Cred)
    requires Began(t) < End(t)
    ensures ZERO_TIME <= RenewPoint(t)
  {
    HalfLife(t);
  }

  /** At half-life the KDC's answer takes over, with a clean slate. */
  lemma RenewalPass(d: Data, minLife: int, now: Time, w: World)
    requires OnTime(d, now) && Well(w, d, now) && RenewWanted(d, now)
    ensures var d' := Maintain(d, minLife, now, w);
            && d'.tgt.Some? && Some(d'.tgt.value.cred) == w.kdc && d'.retryAt == ZERO_TIME && !d'.renewing
  {
    QuietPass(d, minLife, now, w);
    hide Filter, Peek, LoadAll, RenewDue, End, Expired, Remaining, RenewPoint, Sound;
  }

  lemma WellPass(d: Data, minLife: int, now: Time, w: World)
    requires OnTime(d, now) && Well(w, d, now)
    ensures var d' := Maintain(d, minLife, now, w); OnTime(d', NextWake(d', now))
  {
    var t := d.tgt.value.cred;
    HalfLife(t);
    LifeBegins(t);
    var d' := Maintain(d, minLife, now, w);
    if now < RenewPoint(t) {
      SleepStep(d, now);
      QuietPass(d, minLife, now, w);
    } else {
      assert RenewWanted(d, now);
      RenewalPass(d, minLife, now, w);
    }
    hide Maintain, NextWake, RenewWanted, RenewPoint, NothingNewer, Sound;
    SleepStep(d', now);
  }

  /** As long as the KDC renews, the TGT never lapses: at every wake-up of the loop, however long it
      runs, the half-life of the TGT held is not over. */
  lemma {:induction false} TgtNeverLapses(d: Data, minLife: int, now: Time, ws: seq<World>)
    requires OnTime(d, now) && AllWell(d, minLife, now, ws)
    ensures var (d', now') := RunLoop(d, minLife, now, ws);
            OnTime(d', now') && !Expired(d'.tgt.value.cred, now')
  {
    hide Maintain, NextWake, RenewWanted, RenewPoint, Well, Sound;
    if ws != [] {
      var init, last := ws[..|ws| - 1], ws[|ws| - 1];
      TgtNeverLapses(d, minLife, now, init);
      var (d1, now1) := RunLoop(d, minLife, now, init);
      WellPass(d1, minLife, now1, last);
    }
    var (d', now') := RunLoop(d, minLife, now, ws);
    BeforeTheEnd(d', now');
  }

  lemma BeforeTheEnd(d: Data, now: Time)
    requires OnTime(d, now)
    ensures !Expired(d.tgt.value.cred, now)
  {
    HalfLife(d.tgt.value.cred);
  }
}
