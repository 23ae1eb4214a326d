/** Laws of the session operations: what a sweep removes, what a reload loads, and the agreement
    between the cached TGT and the remembered one that every operation keeps. */
module SessionLaws {
  import opened Wire
  import opened Names
  import opened Credentials
  import opened Session

  // ---- Sweeping ----

  /** Staleness depends only on what an exact match compares, so removing by match is safe. */
  lemma MatchSharesStaleness(tgt: Option<Tgt>, minLife: int, now: Time, a: Cred, b: Cred)
    requires ExactMatch(a, b)
    ensures Stale(tgt, minLife, now, a) == Stale(tgt, minLife, now, b)
  {
  }

  /** The cache after removing each of `stale` in turn. */
  function RemoveEach(cache: seq<Cred>, stale: seq<Cred>): (r: seq<Cred>) {
    if stale == [] then cache
    else RemoveExact(RemoveEach(cache, stale[..|stale| - 1]), stale[|stale| - 1])
  }

  ghost predicate Doomed(stale: seq<Cred>, e: Cred) {
    exists j :: 0 <= j < |stale| && ExactMatch(stale[j], e)
  }

  lemma {:induction false} RemoveEachIsFilter(cache: seq<Cred>, stale: seq<Cred>)
    ensures RemoveEach(cache, stale) == Filter((e: Cred) => !Doomed(stale, e), cache)
  {
    hide ExactMatch;
    if stale == [] {
      FilterAll((e: Cred) => !Doomed(stale, e), cache);
    } else {
      var n := |stale| - 1;
      var init, last := stale[..n], stale[n];
      RemoveEachIsFilter(cache, init);
      var p, q := (e: Cred) => !ExactMatch(last, e), (e: Cred) => !Doomed(init, e);
      forall e: Cred ensures Doomed(stale, e) == (Doomed(init, e) || ExactMatch(last, e)) {
        DoomedSnoc(stale, e);
      }
      FilterTwice(p, q, (e: Cred) => !Doomed(stale, e), cache);
    }
  }

  lemma DoomedSnoc(stale: seq<Cred>, e: Cred)
    requires stale != []
    ensures Doomed(stale, e) <==> Doomed(stale[..|stale| - 1], e) || ExactMatch(stale[|stale| - 1], e)
  {
    hide ExactMatch;
    var init := stale[..|stale| - 1];
    if Doomed(init, e) {
      var j :| 0 <= j < |init| && ExactMatch(init[j], e);
      assert ExactMatch(stale[j], e);
    }
    if Doomed(stale, e) && !ExactMatch(stale[|stale| - 1], e) {
      var j :| 0 <= j < |stale| && ExactMatch(stale[j], e);
      assert ExactMatch(init[j], e);
    }
  }

  lemma {:induction false} FilterAll<T>(keep: T -> bool, s: seq<T>)
    requires forall x :: x in s ==> keep(x)
    ensures Filter(keep, s) == s
  {
    if s != [] {
      FilterAll(keep, s[1..]);
    }
  }

  /** Collecting every stale entry and removing each by match leaves exactly the others, in order. */
  lemma SweepIsFilter(d: Data, minLife: int, now: Time)
    ensures RemoveEach(d.cache, Filter((e: Cred) => Stale(d.tgt, minLife, now, e), d.cache)) ==
            Sweep(d, minLife, now).cache
  {
    var isStale := (e: Cred) => Stale(d.tgt, minLife, now, e);
    var stale := Filter(isStale, d.cache);
    RemoveEachIsFilter(d.cache, stale);
    forall i | 0 <= i < |d.cache| ensures Doomed(stale, d.cache[i]) == isStale(d.cache[i]) {
      var e := d.cache[i];
      FilterMembers(isStale, d.cache, e);
      if isStale(e) {
        var j :| 0 <= j < |stale| && stale[j] == e;
        assert ExactMatch(stale[j], e);
      }
      if Doomed(stale, e) {
        var j :| 0 <= j < |stale| && ExactMatch(stale[j], e);
        FilterMembers(isStale, d.cache, stale[j]);
        MatchSharesStaleness(d.tgt, minLife, now, stale[j], e);
      }
    }
    FilterSame((e: Cred) => !Doomed(stale, e), (e: Cred) => !Stale(d.tgt, minLife, now, e), d.cache);
  }

  /** The ticket is alive, and lives for minLife more or as long as the TGT. */
  predicate LivesLongEnough(tgt: Cred, minLife: int, now: Time, e: Cred) {
    var left, tgtLeft := End(e) - now, Remaining(tgt, now);
    left > 0 && left >= if minLife < tgtLeft then minLife else tgtLeft
  }

  /** A sweep keeps a service ticket exactly when it may still be handed out: with a TGT held, when it lives
      long enough beside it; without one, when it has not ended. */
  lemma SweptTicketLives(d: Data, minLife: int, now: Time, e: Cred)
    requires e in d.cache && !IsConfig(e.server) && !LocalTGT(e)
    ensures d.tgt.Some? ==>
              (e in Sweep(d, minLife, now).cache <==> LivesLongEnough(d.tgt.value.cred, minLife, now, e))
    ensures d.tgt.None? ==> (e in Sweep(d, minLife, now).cache <==> now < KrbTime(e.endTime))
  {
    FilterMembers((x: Cred) => !Stale(d.tgt, minLife, now, x), d.cache, e);
  }

  /** It keeps every local TGT and every config entry, and adds nothing. */
  lemma SweepSparesTheRest(d: Data, minLife: int, now: Time, e: Cred)
    ensures e in d.cache && (IsConfig(e.server) || LocalTGT(e)) ==> e in Sweep(d, minLife, now).cache
    ensures e in Sweep(d, minLife, now).cache ==> e in d.cache
  {
    FilterMembers((x: Cred) => !Stale(d.tgt, minLife, now, x), d.cache, e);
  }

  /** What makes an entry stale. */
  lemma StaleMeans(tgt: Option<Tgt>, minLife: int, now: Time, e: Cred)
    ensures Stale(tgt, minLife, now, e) <==>
            && !IsConfig(e.server) && !LocalTGT(e)
            && if tgt.Some? then !LivesLongEnough(tgt.value.cred, minLife, now, e) else now >= KrbTime(e.endTime)
  {
  }

  // ---- Loading ----

  /** The service tickets a reload carries over. */
  function Carried(creds: seq<Cred>, now: Time): (r: seq<Cred>) {
    Filter((c: Cred) => !IsConfig(c.server) && !LocalTGT(c) && End(c) > now, creds)
  }

  lemma {:induction false} LoadAppend(cache: seq<Cred>, found: Option<Cred>, a: seq<Cred>, b: seq<Cred>, now: Time)
    ensures LoadAll(cache, found, a + b, now) ==
            var (c, f) := LoadAll(cache, found, a, now); LoadAll(c, f, b, now)
    decreases |a|
  {
    if a == [] {
      assert a + b == b;
    } else {
      var ab := a + b;
      assert ab[0] == a[0] && ab[1..] == a[1..] + b;
      var (c, f) := LoadOne(cache, found, a[0], now);
      LoadAppend(c, f, a[1..], b, now);
    }
  }

  /** Once a TGT is found, or while there is none, only the carried tickets are added. */
  lemma {:induction false} LoadTickets(cache: seq<Cred>, found: Option<Cred>, creds: seq<Cred>, now: Time)
    requires found.None? ==> forall i :: 0 <= i < |creds| ==> !Candidate(creds[i])
    ensures LoadAll(cache, found, creds, now) == (cache + Carried(creds, now), found)
    decreases |creds|
  {
    hide IsConfig, LocalTGT, End;
    if creds == [] {
      assert cache + [] == cache;
    } else {
      assert forall i :: 0 <= i < |creds[1..]| ==> creds[1..][i] == creds[i + 1];
      var (c, f) := LoadOne(cache, found, creds[0], now);
      LoadTickets(c, f, creds[1..], now);
      assert c + Carried(creds[1..], now) == cache + Carried(creds, now);
    }
  }

  /** Where peekTGT's answer sits: it is the first candidate. */
  lemma {:induction false} PeekIndex(creds: seq<Cred>) returns (i: nat)
    ensures Peek(creds).None? ==> i == |creds|
    ensures Peek(creds).Some? ==> i < |creds| && Peek(creds) == Some(creds[i]) && Candidate(creds[i])
    ensures forall j :: 0 <= j < i ==> !Candidate(creds[j])
  {
    hide Candidate;
    if creds == [] {
      i := 0;
    } else if Candidate(creds[0]) {
      i := 0;
    } else {
      var k := PeekIndex(creds[1..]);
      i := k + 1;
      assert forall j :: 1 <= j < i ==> creds[j] == creds[1..][j - 1];
    }
  }

  /** On an unchanged file loadFrom finds the very TGT peekTGT found (so it is never nil when the
      file is adopted), and the cache becomes that TGT with the renewable bit cleared among the
      unexpired, non-config tickets, all in file order. */
  lemma PeekAgreesWithLoad(creds: seq<Cred>, now: Time)
    ensures LoadAll([], None, creds, now).1 == Peek(creds)
    ensures Peek(creds).None? ==> LoadAll([], None, creds, now).0 == Carried(creds, now)
    ensures Peek(creds).Some? ==>
              exists i :: 0 <= i < |creds| && creds[i] == Peek(creds).value
                && LoadAll([], None, creds, now).0 ==
                   Carried(creds[..i], now) + [ClearRenewable(creds[i])] + Carried(creds[i + 1..], now)
  {
    hide IsConfig, LocalTGT, End, ClearRenewable;
    var i := PeekIndex(creds);
    if Peek(creds).None? {
      LoadTickets([], None, creds, now);
      assert [] + Carried(creds, now) == Carried(creds, now);
    } else {
      var pre, t, post := creds[..i], creds[i], creds[i + 1..];
      assert creds == pre + ([t] + post);
      LoadAppend([], None, pre, [t] + post, now);
      LoadTickets([], None, pre, now);
      assert [] + Carried(pre, now) == Carried(pre, now);
      assert ([t] + post)[1..] == post;
      LoadTickets(Carried(pre, now) + [ClearRenewable(t)], Some(t), post, now);
    }
  }

  /** The TGT that the end of a reload uses is missing exactly when every call went through and the
      entries loaded hold none. */
  lemma MissingTgt(d: Data, now: Time, src: Source, loaded: seq<Cred>, fault: LoadFault)
    requires GoesThrough(d, now, src, loaded, fault)
    ensures LoadNewer(d, now, src, loaded, fault).tgt.None? <==> LosesTgt(d, now, src, loaded, fault)
    ensures loaded == src.creds ==> !LosesTgt(d, now, src, loaded, fault)
  {
    PeekAgreesWithLoad(loaded, now);
  }

  /** It can happen: the file is emptied right after its TGT was peeked at. */
  lemma EmptiedFile(d: Data, now: Time, src: Source)
    requires now - d.lastCheck >= FILE_CHECK_INTERVAL && Adopts(d, now, src)
    ensures LosesTgt(d, now, src, [], LoadOk)
  {
  }

  /** Newer than the TGT held: unexpired, and ending strictly later if one is held. */
  predicate Newer(d: Data, now: Time, t: Cred) {
    !Expired(t, now) && (d.tgt.Some? ==> End(t) > End(d.tgt.value.cred))
  }

  /** What a reload does to the TGT. Unless every call goes through it keeps it, or leaves none after a
      failure. Otherwise the loaded entries' TGT is installed; that one is newer exactly when those entries
      would themselves be adopted, and so always when the file did not change between the two reads. */
  lemma AdoptionIsNewer(d: Data, now: Time, src: Source, loaded: seq<Cred>, fault: LoadFault)
    ensures var d' := LoadNewer(d, now, src, loaded, fault);
            && (!GoesThrough(d, now, src, loaded, fault) ==> d'.tgt == d.tgt || (d'.tgt.None? && fault.LoadFails?))
            && (GoesThrough(d, now, src, loaded, fault) ==>
                  && HeldCred(d') == Peek(loaded)
                  && (d'.tgt.Some? && Newer(d, now, d'.tgt.value.cred) <==> Adopts(d, now, File(src.principal, loaded)))
                  && (loaded == src.creds ==> d'.tgt.Some? && Newer(d, now, d'.tgt.value.cred)))
  {
    PeekAgreesWithLoad(loaded, now);
  }

  /** A file rewritten between the two reads can put an expired TGT in place of a valid one. */
  lemma RewrittenFile()
    ensures exists d: Data, now, src, loaded: seq<Cred> ::
              && GoesThrough(d, now, src, loaded, LoadOk)
              && var d' := LoadNewer(d, now, src, loaded, LoadOk);
                 d'.tgt.Some? && Expired(d'.tgt.value.cred, now)
  {
    var t := SomeTgt(9);
    var stale := SomeTgt(1);
    var d, now, src := Data(t.client, [], None, 0, false, 0, ZERO_TIME, ZERO_TIME), 2 * SECONDS, File(t.client, [t]);
    assert Candidate(t) && Candidate(stale);
    assert Peek([t]) == Some(t) && Peek([stale]) == Some(stale);
    assert GoesThrough(d, now, src, [stale], LoadOk);
    AdoptionIsNewer(d, now, src, [stale], LoadOk);
    assert HeldCred(LoadNewer(d, now, src, [stale], LoadOk)) == Some(stale);
  }

  /** An initial TGT of a@R that ends at `end`. */
  function SomeTgt(end: uint32): (c: Cred)
    ensures Candidate(c) && c.endTime == end
  {
    var realm: Bytes := [0x52];
    Cred(Principal(1, realm, [[0x61]]), Principal(1, realm, [KRBTGT, realm]), 0, [], 1, 1, end, 9, 0, [])
  }

  // ---- The cached TGT and the remembered one ----

  /** A local TGT in the cache that belongs to the cache's own principal. */
  predicate OwnTgt(principal: Principal, e: Cred) { LocalTGT(e) && Text(principal) == Text(e.client) }

  /** At most one own TGT is cached, and it is `t` with the renewable bit cleared. */
  predicate Consistent(principal: Principal, cache: seq<Cred>, t: Option<Cred>) {
    && (forall i :: 0 <= i < |cache| && OwnTgt(principal, cache[i]) ==>
          t.Some? && cache[i] == ClearRenewable(t.value))
    && (forall i, j :: 0 <= i < j < |cache| ==> !(OwnTgt(principal, cache[i]) && OwnTgt(principal, cache[j])))
  }

  ghost predicate NoOwnTgt(principal: Principal, cache: seq<Cred>) {
    forall i :: 0 <= i < |cache| ==> !OwnTgt(principal, cache[i])
  }

  function HeldCred(d: Data): (c: Option<Cred>) { if d.tgt.None? then None else Some(d.tgt.value.cred) }

  predicate Agrees(d: Data) { Consistent(d.principal, d.cache, HeldCred(d)) }

  /** Where the k-th kept entry stood. */
  function KeptAt<T>(keep: T -> bool, s: seq<T>, k: nat): (i: nat)
    requires k < |Filter(keep, s)|
    ensures i < |s| && s[i] == Filter(keep, s)[k]
  {
    if keep(s[0]) then
      if k == 0 then 0 else KeptAt(keep, s[1..], k - 1) + 1
    else KeptAt(keep, s[1..], k) + 1
  }

  lemma {:induction false} KeptInOrder<T>(keep: T -> bool, s: seq<T>, k: nat, l: nat)
    requires k < l < |Filter(keep, s)|
    ensures KeptAt(keep, s, k) < KeptAt(keep, s, l)
  {
    if !keep(s[0]) {
      KeptInOrder(keep, s[1..], k, l);
    } else if k > 0 {
      KeptInOrder(keep, s[1..], k - 1, l - 1);
    }
  }

  /** Removing entries, for whatever reason, keeps the agreement. */
  lemma RemovalKeepsConsistent(principal: Principal, cache: seq<Cred>, t: Option<Cred>, keep: Cred -> bool)
    requires Consistent(principal, cache, t)
    ensures Consistent(principal, Filter(keep, cache), t)
  {
    hide OwnTgt, ClearRenewable;
    var kept := Filter(keep, cache);
    forall k, l | 0 <= k < l < |kept| ensures !(OwnTgt(principal, kept[k]) && OwnTgt(principal, kept[l])) {
      KeptInOrder(keep, cache, k, l);
      var i, j := KeptAt(keep, cache, k), KeptAt(keep, cache, l);
      assert !(OwnTgt(principal, cache[i]) && OwnTgt(principal, cache[j]));
    }
    forall k | 0 <= k < |kept| && OwnTgt(principal, kept[k])
      ensures t.Some? && kept[k] == ClearRenewable(t.value)
    {
      var i := KeptAt(keep, cache, k);
      assert OwnTgt(principal, cache[i]);
    }
  }

  /** Removing the previous TGT by exact match clears every own TGT, since matching ignores flags. */
  lemma SwapClearsOwnTgt(d: Data)
    requires Agrees(d)
    ensures NoOwnTgt(d.principal, WithoutTgt(d))
  {
    if d.tgt.Some? {
      var c := d.tgt.value.cred;
      var keep := (e: Cred) => !ExactMatch(c, e);
      var kept := Filter(keep, d.cache);
      forall k | 0 <= k < |kept| ensures !OwnTgt(d.principal, kept[k]) {
        FilterMembers(keep, d.cache, kept[k]);
        assert ExactMatch(c, ClearRenewable(c));
      }
    }
  }

  lemma StoreKeepsConsistent(principal: Principal, cache: seq<Cred>, t: Option<Cred>, e: Cred)
    requires Consistent(principal, cache, t) && !OwnTgt(principal, e)
    ensures Consistent(principal, cache + [e], t)
  {
    hide OwnTgt, ClearRenewable;
  }

  lemma FirstTgtIsConsistent(principal: Principal, cache: seq<Cred>, t: Cred)
    requires NoOwnTgt(principal, cache)
    ensures Consistent(principal, cache + [ClearRenewable(t)], Some(t))
  {
    hide OwnTgt, ClearRenewable;
  }

  lemma LoadOneKeepsConsistent(principal: Principal, cache: seq<Cred>, found: Option<Cred>, c: Cred, now: Time)
    requires Consistent(principal, cache, found)
    ensures Consistent(principal, LoadOne(cache, found, c, now).0, LoadOne(cache, found, c, now).1)
  {
    hide Consistent, ClearRenewable;
    if !IsConfig(c.server) && LocalTGT(c) && found.None? {
      NothingFoundNothingOwn(principal, cache);
      FirstTgtIsConsistent(principal, cache, c);
    } else if !LocalTGT(c) {
      StoreKeepsConsistent(principal, cache, found, c);
    }
  }

  lemma NothingFoundNothingOwn(principal: Principal, cache: seq<Cred>)
    requires Consistent(principal, cache, None)
    ensures NoOwnTgt(principal, cache)
  {
  }

  lemma SetTGTKeepsAgreement(d: Data, cred: Cred, fault: SwapFault)
    requires Agrees(d)
    ensures Agrees(SetTGT(d, cred, fault))
  {
    hide OwnTgt, ClearRenewable, Filter, ExactMatch;
    SwapClearsOwnTgt(d);
    FirstTgtIsConsistent(d.principal, WithoutTgt(d), cred);
  }

  lemma StoreKeepsAgreement(d: Data, w: CredWire, fault: SwapFault)
    requires Agrees(d)
    ensures Agrees(Store(d, w, fault))
  {
    if w.Marshalled? {
      if BecomesTgt(d, w.cred) {
        SetTGTKeepsAgreement(d, w.cred, fault);
      } else {
        StoreKeepsConsistent(d.principal, d.cache, HeldCred(d), w.cred);
      }
    }
  }

  lemma {:induction false} LoadAllKeepsConsistent(principal: Principal, cache: seq<Cred>, found: Option<Cred>,
                                                  creds: seq<Cred>, now: Time)
    requires Consistent(principal, cache, found)
    ensures Consistent(principal, LoadAll(cache, found, creds, now).0, LoadAll(cache, found, creds, now).1)
    decreases |creds|
  {
    hide Consistent, LoadOne;
    if creds != [] {
      LoadOneKeepsConsistent(principal, cache, found, creds[0], now);
      var (c, f) := LoadOne(cache, found, creds[0], now);
      LoadAllKeepsConsistent(principal, c, f, creds[1..], now);
    }
  }

  /** The reload loses the agreement in exactly one way: it fails after the file's TGT, if that is
      the file principal's own, has already gone into the cache. */
  predicate TornReload(d: Data, now: Time, src: Source, loaded: seq<Cred>, fault: LoadFault) {
    && now - d.lastCheck >= FILE_CHECK_INTERVAL && Adopts(d, now, src)
    && fault.LoadFails? && fault.n <= |loaded|
    && var found := LoadAll([], None, loaded[..fault.n], now).1;
       found.Some? && OwnTgt(src.principal, found.value)
  }

  lemma ReloadAgreement(d: Data, now: Time, src: Source, loaded: seq<Cred>, fault: LoadFault)
    requires Agrees(d)
    ensures Agrees(LoadNewer(d, now, src, loaded, fault)) <==> !TornReload(d, now, src, loaded, fault)
  {
    hide OwnTgt, Filter, ClearRenewable;
    if now - d.lastCheck >= FILE_CHECK_INTERVAL && Adopts(d, now, src) && !fault.InitFails? {
      LoadAllKeepsConsistent(src.principal, [], None, loaded, now);
      if fault.LoadFails? && fault.n <= |loaded| {
        PartialLoad(src.principal, loaded[..fault.n], now);
      } else {
        PeekAgreesWithLoad(loaded, now);
      }
    }
  }

  lemma PartialLoad(principal: Principal, part: seq<Cred>, now: Time)
    ensures var (cache, found) := LoadAll([], None, part, now);
            Consistent(principal, cache, None) <==> !(found.Some? && OwnTgt(principal, found.value))
  {
    hide LoadOne, Filter, LoadAll;
    var (cache, found) := LoadAll([], None, part, now);
    LoadAllKeepsConsistent(principal, [], None, part, now);
    PeekAgreesWithLoad(part, now);
    if found.Some? {
      var i :| 0 <= i < |part| && part[i] == found.value && cache ==
        Carried(part[..i], now) + [ClearRenewable(part[i])] + Carried(part[i + 1..], now);
      assert cache[|Carried(part[..i], now)|] == ClearRenewable(found.value);
      OwnIgnoresFlags(principal, found.value);
      hide OwnTgt, ClearRenewable;
      if Consistent(principal, cache, None) {
        assert !OwnTgt(principal, ClearRenewable(found.value));
      }
    }
  }

  lemma OwnIgnoresFlags(principal: Principal, c: Cred)
    ensures OwnTgt(principal, ClearRenewable(c)) == OwnTgt(principal, c)
  {
  }

  /** Such a reload is possible: a one-entry file whose close fails. */
  lemma TornReloadHappens()
    ensures exists d, now, src: Source, fault :: src.File? && Agrees(d) && TornReload(d, now, src, src.creds, fault)
  {
    var tgt := SomeTgt(9);
    var d := Data(tgt.client, [], None, 0, false, 0, ZERO_TIME, ZERO_TIME);
    var src, fault := File(tgt.client, [tgt]), LoadFails(1);
    assert [tgt][..1] == [tgt] && [tgt][1..] == [];
    assert Peek([tgt]) == Some(tgt);
    assert Agrees(d) && Adopts(d, 0, src);
    PeekAgreesWithLoad([tgt], 0);
    assert TornReload(d, 0, src, src.creds, fault);
  }

  // ---- After a torn reload ----

  /** The own TGTs in the cache. */
  function OwnIn(principal: Principal, cache: seq<Cred>): (es: seq<Cred>) {
    Filter((e: Cred) => OwnTgt(principal, e), cache)
  }

  /** The agreement in one line: the cache's own TGTs are none, or the remembered one alone. */
  lemma {:induction false} ConsistentMeans(principal: Principal, cache: seq<Cred>, t: Option<Cred>)
    ensures Consistent(principal, cache, t) <==>
            OwnIn(principal, cache) == [] || (t.Some? && OwnIn(principal, cache) == [ClearRenewable(t.value)])
  {
    hide OwnTgt, ClearRenewable;
    if cache != [] {
      var rest := cache[1..];
      assert cache == [cache[0]] + rest;
      ConsistentMeans(principal, rest, t);
      if OwnTgt(principal, cache[0]) {
        assert OwnIn(principal, cache) == [cache[0]] + OwnIn(principal, rest);
        assert OwnIn(principal, cache)[0] == cache[0];
        FirstIsOwn(principal, cache, t);
      } else {
        FirstIsOther(principal, cache, t);
      }
    }
  }

  lemma FirstIsOther(principal: Principal, cache: seq<Cred>, t: Option<Cred>)
    requires cache != [] && !OwnTgt(principal, cache[0])
    ensures Consistent(principal, cache, t) <==> Consistent(principal, cache[1..], t)
  {
    hide OwnTgt, ClearRenewable;
    var rest := cache[1..];
    assert forall i :: 0 <= i < |rest| ==> rest[i] == cache[i + 1];
    if Consistent(principal, rest, t) {
      forall i, j | 0 <= i < j < |cache| ensures !(OwnTgt(principal, cache[i]) && OwnTgt(principal, cache[j])) {
        if i > 0 {
          assert cache[i] == rest[i - 1] && cache[j] == rest[j - 1];
        }
      }
      forall i | 0 <= i < |cache| && OwnTgt(principal, cache[i])
        ensures t.Some? && cache[i] == ClearRenewable(t.value)
      {
        assert cache[i] == rest[i - 1];
      }
    }
  }

  lemma FirstIsOwn(principal: Principal, cache: seq<Cred>, t: Option<Cred>)
    requires cache != [] && OwnTgt(principal, cache[0])
    ensures Consistent(principal, cache, t) <==>
            OwnIn(principal, cache[1..]) == [] && t.Some? && cache[0] == ClearRenewable(t.value)
  {
    hide OwnTgt, ClearRenewable;
    var rest, own := cache[1..], (e: Cred) => OwnTgt(principal, e);
    forall e: Cred ensures e in Filter(own, rest) <==> e in rest && own(e) { FilterMembers(own, rest, e); }
    if OwnIn(principal, rest) != [] {
      var e := OwnIn(principal, rest)[0];
      assert e in rest;
      var j :| 0 <= j < |rest| && rest[j] == e;
      assert cache[j + 1] == e;
    } else {
      forall j | 0 < j < |cache| ensures !OwnTgt(principal, cache[j]) {
        assert cache[j] == rest[j - 1] && rest[j - 1] in rest;
      }
    }
  }

  /** What a torn reload leaves: no TGT remembered, but an own one in the cache. */
  predicate Leftover(d: Data) { d.tgt.None? && OwnIn(d.principal, d.cache) != [] }

  lemma TornReloadLeavesOne(d: Data, now: Time, src: Source, loaded: seq<Cred>, fault: LoadFault)
    requires TornReload(d, now, src, loaded, fault)
    ensures Leftover(LoadNewer(d, now, src, loaded, fault))
  {
    var d' := LoadNewer(d, now, src, loaded, fault);
    hide LoadAll, OwnTgt, ClearRenewable, OwnIn;
    PartialLoad(src.principal, loaded[..fault.n], now);
    ConsistentMeans(d'.principal, d'.cache, None);
  }

  /** A TGT stored after that joins the leftover one: two own TGTs, no agreement. */
  lemma StoreAfterTorn(d: Data, c: Cred, fault: SwapFault)
    requires Leftover(d) && BecomesTgt(d, c) && !fault.StoreFails?
    ensures var d' := Store(d, Marshalled(c), fault);
            && OwnIn(d.principal, d'.cache) == OwnIn(d.principal, d.cache) + [ClearRenewable(c)]
            && !Agrees(d')
  {
    var d', kept := Store(d, Marshalled(c), fault), ClearRenewable(c);
    OwnIgnoresFlags(d.principal, c);
    assert OwnTgt(d.principal, kept);
    hide OwnTgt, ClearRenewable;
    FilterAppend((e: Cred) => OwnTgt(d.principal, e), d.cache, [kept]);
    ConsistentMeans(d'.principal, d'.cache, HeldCred(d'));
  }

  /** A removal restores the agreement exactly when it matches every leftover. */
  lemma RemoveAfterTorn(d: Data, client: Principal, server: Principal)
    requires Leftover(d)
    ensures Agrees(Remove(d, client, server)) <==>
            forall e :: e in OwnIn(d.principal, d.cache) ==> SameName(client, e.client) && SameName(server, e.server)
  {
    hide OwnTgt, SameName;
    var own := (e: Cred) => OwnTgt(d.principal, e);
    var keep := (e: Cred) => !(SameName(client, e.client) && SameName(server, e.server));
    var d' := Remove(d, client, server);
    ConsistentMeans(d'.principal, d'.cache, None);
    forall e: Cred
      ensures e in Filter(own, d.cache) <==> e in d.cache && own(e)
      ensures e in Filter(own, Filter(keep, d.cache)) <==> e in d.cache && keep(e) && own(e)
    {
      FilterMembers(own, d.cache, e);
      FilterMembers(keep, d.cache, e);
      FilterMembers(own, Filter(keep, d.cache), e);
    }
    if OwnIn(d.principal, d'.cache) != [] {
      assert OwnIn(d.principal, d'.cache)[0] in OwnIn(d.principal, d'.cache);
    }
  }

  /** Starting the cache afresh restores the agreement, whatever was there before. */
  lemma InitializeAgrees(d: Data, p: Principal)
    requires BuildPrincipal(p).Some?
    ensures Agrees(Initialize(d, p, true))
  {
    hide BuildPrincipal, OwnTgt, ClearRenewable;
  }

  lemma FreshLoadAgrees(d: Data, now: Time, src: Source, loaded: seq<Cred>, fault: LoadFault)
    requires GoesThrough(d, now, src, loaded, fault)
    ensures Agrees(LoadNewer(d, now, src, loaded, fault))
  {
    hide LoadAll, Consistent, Peek;
    assert Consistent(src.principal, [], None) by { EmptyIsConsistent(src.principal); }
    LoadAllKeepsConsistent(src.principal, [], None, loaded, now);
  }

  lemma EmptyIsConsistent(principal: Principal)
    ensures Consistent(principal, [], None)
  {
  }
}
