/** What the operations on the session mean for a caller, in the fields of what they are given: when a pass looks
    at the file and what a new login does, when a renewal is tried, and what INITIALIZE, STORE and a swap of the
    TGT leave behind. */
module OperationLaws {
  import opened Wire
  import opened Names
  import opened Credentials
  import opened CredentialLaws
  import opened Session
  import opened SessionLaws

  // ---- When a pass looks at the source file ----

  /** At least half of a renewable ticket's life is over, but not all of it. */
  predicate HalfSpent(t: Cred, now: Time) {
    && t.flags & 0x0080_0000 != 0 && t.renewTill > t.endTime && now < KrbTime(t.endTime)
    && 2 * now >= KrbTime(if t.startTime != 0 then t.startTime else t.authTime) + KrbTime(t.endTime)
  }

  /** No TGT is held, or one that is half spent, or has less than the least ticket life left. */
  predicate Worn(d: Data, minLife: int, now: Time) {
    || d.tgt.None?
    || HalfSpent(d.tgt.value.cred, now)
    || KrbTime(d.tgt.value.cred.endTime) - now < minLife
  }

  predicate Looks(d: Data, minLife: int, now: Time) {
    Worn(d, minLife, now) && now - d.lastCheck >= 5_000_000_000
  }

  lemma LooksMeans(d: Data, minLife: int, now: Time)
    ensures Reloads(d, minLife, now) <==> Looks(d, minLife, now)
  {
    if d.tgt.Some? {
      RenewalIsDue(d.tgt.value.cred, now);
    }
    hide KrbTime, RenewDue;
  }

  /** The i-th entry of the file is its first local TGT, has not ended, and ends later than the one held. */
  predicate HasNews(d: Data, now: Time, src: Source, i: nat) {
    && src.File? && i < |src.creds| && LocalTGT(src.creds[i]) && (forall j :: 0 <= j < i ==> !LocalTGT(src.creds[j]))
    && now < KrbTime(src.creds[i].endTime)
    && (d.tgt.Some? ==> src.creds[i].endTime > d.tgt.value.cred.endTime)
  }

  lemma LocalIsCandidate(c: Cred)
    ensures Candidate(c) <==> LocalTGT(c)
  {
  }

  lemma FirstLocal(creds: seq<Cred>, i: nat)
    requires i < |creds| && LocalTGT(creds[i]) && forall j :: 0 <= j < i ==> !LocalTGT(creds[j])
    ensures Peek(creds) == Some(creds[i])
  {
    var k := PeekIndex(creds);
    forall j | 0 <= j < |creds| ensures Candidate(creds[j]) == LocalTGT(creds[j]) { LocalIsCandidate(creds[j]); }
    hide Candidate, LocalTGT, Peek;
    assert k == i;
  }

  /** The entries the file adopts as service tickets: all but config entries and local TGTs, if not ended. */
  predicate CarriedOver(c: Cred, now: Time) { !IsConfig(c.server) && !LocalTGT(c) && now < KrbTime(c.endTime) }

  /** A login seen by a pass: half-spent, short or missing TGT, last look over five seconds ago, and a file,
      unchanged while it is read, with a later unexpired TGT. The pass then holds exactly that TGT before it
      thinks of renewing, and the cache is the file's. */
  lemma LoginIsNoticed(d: Data, minLife: int, now: Time, w: World, i: nat)
    requires Looks(d, minLife, now) && HasNews(d, now, w.src, i) && w.loaded == w.src.creds && w.load == LoadOk
    ensures var d1, login := Reloaded(d, minLife, now, w), w.src.creds[i];
            && d1.tgt == Some(Tgt(d.nextId, login)) && d1.principal == w.src.principal && d1.lastCheck == now
            && d1.backoff == 0 && d1.retryAt == ZERO_TIME && d1.renewing == d.renewing
            && (forall e :: e in d1.cache <==> e == ClearRenewable(login) || (e in w.src.creds && CarriedOver(e, now)))
    ensures Survives(d, minLife, now, w)
  {
    var creds, t := w.src.creds, w.src.creds[i];
    LooksMeans(d, minLife, now);
    FirstLocal(creds, i);
    PeekAgreesWithLoad(creds, now);
    if d.tgt.Some? {
      TimesKeepOrder(d.tgt.value.cred.endTime, t.endTime);
    }
    LoadedEntries(creds, now);
    hide KrbTime, LocalTGT, IsConfig, ClearRenewable, Peek, LoadAll, Looks, NeedsAttention;
  }

  /** What a load puts into the cache. */
  lemma LoadedEntries(creds: seq<Cred>, now: Time)
    requires Peek(creds).Some?
    ensures forall e :: e in LoadAll([], None, creds, now).0 <==>
              e == ClearRenewable(Peek(creds).value) || (e in creds && CarriedOver(e, now))
  {
    PeekAgreesWithLoad(creds, now);
    PeekedIsLocal(creds);
    hide LocalTGT, IsConfig, KrbTime, ClearRenewable, Peek, LoadAll, Carried;
    var cache := LoadAll([], None, creds, now).0;
    var i :| 0 <= i < |creds| && creds[i] == Peek(creds).value && cache ==
      Carried(creds[..i], now) + [ClearRenewable(creds[i])] + Carried(creds[i + 1..], now);
    LoadedAround(creds, now, i, cache);
  }

  lemma LoadedAround(creds: seq<Cred>, now: Time, i: nat, cache: seq<Cred>)
    requires i < |creds| && LocalTGT(creds[i])
    requires cache == Carried(creds[..i], now) + [ClearRenewable(creds[i])] + Carried(creds[i + 1..], now)
    ensures forall e :: e in cache <==> e == ClearRenewable(creds[i]) || (e in creds && CarriedOver(e, now))
  {
    assert !CarriedOver(creds[i], now);
    hide CarriedOver, Carried, ClearRenewable, LocalTGT;
    SplitAt(creds, i);
    forall e: Cred ensures e in cache <==> e == ClearRenewable(creds[i]) || (e in creds && CarriedOver(e, now)) {
      LoadedEntry(creds[..i], creds[i], creds[i + 1..], now, cache, e);
    }
  }

  lemma SplitAt<T>(s: seq<T>, i: nat)
    requires i < |s|
    ensures s == s[..i] + [s[i]] + s[i + 1..]
  {
  }

  lemma LoadedEntry(pre: seq<Cred>, t: Cred, post: seq<Cred>, now: Time, cache: seq<Cred>, e: Cred)
    requires cache == Carried(pre, now) + [ClearRenewable(t)] + Carried(post, now) && !CarriedOver(t, now)
    ensures e in cache <==> e == ClearRenewable(t) || (e in pre + [t] + post && CarriedOver(e, now))
  {
    CarriedMeans(pre, now, e);
    CarriedMeans(post, now, e);
    InThree(pre, t, post, e);
    InThree(Carried(pre, now), ClearRenewable(t), Carried(post, now), e);
    hide CarriedOver, Carried, ClearRenewable;
  }

  lemma InThree<T>(a: seq<T>, x: T, b: seq<T>, e: T)
    ensures e in a + [x] + b <==> e in a || e == x || e in b
  {
  }

  lemma CarriedMeans(creds: seq<Cred>, now: Time, e: Cred)
    ensures e in Carried(creds, now) <==> e in creds && CarriedOver(e, now)
  {
    FilterMembers((c: Cred) => !IsConfig(c.server) && !LocalTGT(c) && End(c) > now, creds, e);
  }

  lemma PeekedIsLocal(creds: seq<Cred>)
    requires Peek(creds).Some?
    ensures LocalTGT(Peek(creds).value)
  {
    var i := PeekIndex(creds);
  }

  /** Without a reason to look, or without news, a pass leaves everything but the time of the look alone before
      it thinks of renewing; and it looks exactly when there is a reason. */
  lemma NoNewsNoChange(d: Data, minLife: int, now: Time, w: World)
    requires !Looks(d, minLife, now) || forall i: nat :: !HasNews(d, now, w.src, i)
    ensures Reloaded(d, minLife, now, w) == d.(lastCheck := if Looks(d, minLife, now) then now else d.lastCheck)
    ensures Survives(d, minLife, now, w)
  {
    LooksMeans(d, minLife, now);
    if w.src.File? && Peek(w.src.creds).Some? {
      var creds := w.src.creds;
      var i := PeekIndex(creds);
      forall j | 0 <= j < |creds| ensures Candidate(creds[j]) == LocalTGT(creds[j]) { LocalIsCandidate(creds[j]); }
      if d.tgt.Some? {
        TimesKeepOrder(d.tgt.value.cred.endTime, creds[i].endTime);
      }
      hide Candidate, LocalTGT, KrbTime, Looks, NeedsAttention, Peek;
      assert Looks(d, minLife, now) ==> !HasNews(d, now, w.src, i);
      assert Looks(d, minLife, now) ==> !Adopts(d, now, w.src);
    }
    hide KrbTime, LocalTGT, Looks, NeedsAttention, Peek;
  }

  /** The time of the last look, over a whole pass. */
  lemma LookIsRecorded(d: Data, minLife: int, now: Time, w: World)
    ensures Maintain(d, minLife, now, w).lastCheck == if Looks(d, minLife, now) then now else d.lastCheck
  {
    LooksMeans(d, minLife, now);
    hide Looks, NeedsAttention, RenewWanted, Adopts, LoadAll, Filter, WithoutTgt;
  }

  /** After such a login a pass ends with a valid TGT, unless the KDC itself renews with an expired one. */
  lemma LoginEndsExpiry(d: Data, minLife: int, now: Time, w: World, i: nat)
    requires Looks(d, minLife, now) && HasNews(d, now, w.src, i) && w.loaded == w.src.creds && w.load == LoadOk
    requires w.kdc.Some? ==> now < KrbTime(w.kdc.value.endTime)
    ensures var d' := Maintain(d, minLife, now, w); d'.tgt.Some? && now < KrbTime(d'.tgt.value.cred.endTime)
  {
    LoginIsNoticed(d, minLife, now, w, i);
    hide Reloaded, Looks, RenewWanted, KrbTime, LocalTGT, Filter, ClearRenewable;
  }

  // ---- When a renewal is tried, and what it does ----

  /** A renewal is tried exactly for a half-spent TGT, from the retry time on, when none is running. */
  predicate Tries(d: Data, now: Time) {
    d.tgt.Some? && HalfSpent(d.tgt.value.cred, now) && now >= d.retryAt && !d.renewing
  }

  /** Half a minute first, then twice as long each time, up to ten minutes. */
  function NextBackoff(b: int): (b': int) {
    if b == 0 then 30 * SECONDS else if 2 * b < 600 * SECONDS then 2 * b else 600 * SECONDS
  }

  lemma RenewalMeans(d: Data, now: Time, w: World)
    ensures !Tries(d, now) ==> Renewed(d, now, w) == d
    ensures Tries(d, now) && w.kdc.None? ==>
              var d' := Renewed(d, now, w);
              && d' == d.(backoff := d'.backoff, retryAt := now + d'.backoff)
              && d'.backoff == NextBackoff(d.backoff)
    ensures Tries(d, now) && w.kdc.Some? && w.swap == SwapOk ==>
              var d' := Renewed(d, now, w);
              && HeldCred(d') == w.kdc && !d'.renewing && d'.backoff == 0 && d'.retryAt == ZERO_TIME
              && d'.principal == d.principal && d'.lastCheck == d.lastCheck
    ensures Tries(d, now) && w.kdc.Some? && w.swap != SwapOk ==>
              var d' := Renewed(d, now, w);
              d'.tgt == d.tgt && !d'.renewing && d'.backoff == NextBackoff(d.backoff) && d'.retryAt == now + d'.backoff
  {
    if d.tgt.Some? {
      RenewalIsDue(d.tgt.value.cred, now);
    }
    hide KrbTime, RenewDue, RemoveExact, ClearRenewable;
  }

  // ---- INITIALIZE, STORE and the swap ----

  /** INITIALIZE p leaves an empty cache for p, no TGT and no backoff, and nothing else changed; or, when the
      library fails, everything as it was. */
  lemma InitializeMeans(d: Data, p: Principal, ok: bool)
    ensures !ok ==> Initialize(d, p, ok) == d
    ensures ok ==>
              var d' := Initialize(d, p, ok);
              && Text(d'.principal) == Text(p) && (d'.principal.components, d'.principal.realm) == Shown(p)
              && d'.cache == [] && d'.tgt.None? && d'.backoff == 0 && d'.retryAt == ZERO_TIME
              && d'.nextId == d.nextId && d'.renewing == d.renewing && d'.lastCheck == d.lastCheck
  {
    RebuiltName(p);
    hide BuildPrincipal, Text, Shown;
  }

  /** A swap that goes through remembers the new TGT as a new object, and caches it, renewable bit cleared,
      behind all the entries that the old one does not match. One that fails keeps the TGT remembered. */
  lemma SwapMeans(d: Data, cred: Cred, fault: SwapFault)
    ensures SwapSucceeds(d, fault) <==> fault == SwapOk || (fault == RemoveFails && d.tgt.None?)
    ensures SwapSucceeds(d, fault) ==>
              var d' := SetTGT(d, cred, fault);
              var n := |d'.cache| - 1;
              && d'.tgt == Some(Tgt(d.nextId, cred)) && d'.nextId == d.nextId + 1
              && d'.backoff == 0 && d'.retryAt == ZERO_TIME
              && d'.principal == d.principal && d'.renewing == d.renewing && d'.lastCheck == d.lastCheck
              && n >= 0 && d'.cache[n] == ClearRenewable(cred)
              && (forall e :: e in d'.cache[..n] <==>
                    e in d.cache && (d.tgt.Some? ==> !ExactMatch(d.tgt.value.cred, e)))
    ensures !SwapSucceeds(d, fault) ==>
              var d' := SetTGT(d, cred, fault);
              && d' == d.(cache := d'.cache)
              && (fault == RemoveFails ==> d'.cache == d.cache)
              && (fault == StoreFails ==> forall e :: e in d'.cache <==>
                    e in d.cache && (d.tgt.Some? ==> !ExactMatch(d.tgt.value.cred, e)))
  {
    var d' := SetTGT(d, cred, fault);
    var base := if d.tgt.None? then d.cache else RemoveExact(d.cache, d.tgt.value.cred);
    if d.tgt.Some? {
      forall e: Cred ensures e in base <==> e in d.cache && !ExactMatch(d.tgt.value.cred, e) {
        FilterMembers((x: Cred) => !ExactMatch(d.tgt.value.cred, x), d.cache, e);
      }
    }
    if SwapSucceeds(d, fault) {
      var n := |d'.cache| - 1;
      assert d'.cache == base + [ClearRenewable(cred)];
      assert d'.cache[..n] == base;
    }
    hide ExactMatch, ClearRenewable, Filter;
  }

  /** A swap of local TGTs leaves every other entry in its place. */
  lemma SwapKeepsTickets(d: Data, cred: Cred, fault: SwapFault)
    requires LocalTGT(cred) && (d.tgt.Some? ==> LocalTGT(d.tgt.value.cred))
    ensures var other := (e: Cred) => !LocalTGT(e);
            Filter(other, SetTGT(d, cred, fault).cache) == Filter(other, d.cache)
  {
    var other, kept := (e: Cred) => !LocalTGT(e), ClearRenewable(cred);
    if d.tgt.Some? {
      var held := d.tgt.value.cred;
      FilterTwice(other, (e: Cred) => !ExactMatch(held, e), other, d.cache);
    }
    FilterAppend(other, WithoutTgt(d), [kept]);
    FilterAppend(other, d.cache, [kept]);
    assert LocalTGT(kept) && [kept][1..] == [];
    assert Filter(other, [kept]) == [];
    hide LocalTGT, ExactMatch, ClearRenewable;
  }

  /** STORE: a local TGT for the cache's own principal is swapped in; anything else that unmarshals is put at the
      end, as it is; what does not unmarshal, or is not stored, changes nothing. */
  lemma StoreMeans(d: Data, w: CredWire, fault: SwapFault)
    ensures w.Malformed? ==> Store(d, w, fault) == d
    ensures w.Marshalled? && LocalTGT(w.cred) && Text(w.cred.client) == Text(d.principal) ==>
              Store(d, w, fault) == SetTGT(d, w.cred, fault)
    ensures w.Marshalled? && !(LocalTGT(w.cred) && Text(w.cred.client) == Text(d.principal)) ==>
              Store(d, w, fault) == if fault == StoreFails then d else d.(cache := d.cache + [w.cred])
  {
    hide LocalTGT, Text, SetTGT;
  }

  /** kinit into the daemon's cache: INITIALIZE p and then STORE of a local TGT for p leaves exactly that TGT. */
  lemma KinitTakesOver(d: Data, p: Principal, c: Cred, fault: SwapFault)
    requires LocalTGT(c) && Text(c.client) == Text(p) && fault != StoreFails
    ensures var d' := Store(Initialize(d, p, true), Marshalled(c), fault);
            && d'.tgt == Some(Tgt(d.nextId, c)) && d'.cache == [ClearRenewable(c)]
            && Text(d'.principal) == Text(p) && d'.backoff == 0
  {
    InitializeMeans(d, p, true);
    hide LocalTGT, Text, Initialize, ClearRenewable, Shown;
  }

  /** The wake-up, in the cases that no renewal decides: ten minutes without a TGT worth renewing, and one second
      when one is due and no retry time lies ahead. */
  lemma WakeMeans(d: Data, now: Time)
    ensures d.tgt.None? || !(d.tgt.value.cred.flags & 0x0080_0000 != 0
                             && d.tgt.value.cred.renewTill > d.tgt.value.cred.endTime
                             && now < KrbTime(d.tgt.value.cred.endTime)) ==>
              NextWake(d, now) == now + 600 * SECONDS
    ensures d.tgt.Some? && HalfSpent(d.tgt.value.cred, now) && d.retryAt <= now ==> NextWake(d, now) == now + SECONDS
  {
    if d.tgt.Some? {
      RenewalIsDue(d.tgt.value.cred, now);
      TimesKeepOrder(d.tgt.value.cred.renewTill, d.tgt.value.cred.endTime);
    }
    hide KrbTime, RenewPoint;
  }
}
