/** The Client object: its fields, and the methods that read and write them, as
    internal/krb5c/tgt.go, internal/krb5c/policy.go, internal/krb5c/krb5c.go and
    internal/krb5c/ops.go write them. Each method is tied to the session function that specifies it.
    Library failures, the KDC's answer, the source file and the clock are parameters. */
module Engine {
  import opened Wire
  import opened Names
  import opened Matching
  import opened Coalescing
  import opened Credentials
  import opened SessionLaws
  import opened Listing
  import opened OperationLaws
  import opened Timing
  import S = Session

  datatype Outcome =
    | Refused                  // KRB5_FCC_PERM: a ticket-granting ticket was asked for
    | TktExpired               // no valid TGT to drive an exchange
    | BadRequest               // no server principal, or a name that does not parse
    | NotFound                 // a ccache config pseudo-entry
    | Cached(cred: Cred)       // answered from the working cache
    | Fetched(cred: Cred)      // answered by the KDC
    | Failed                   // the library's error
    | Crashed                  // the process ended during maintenance

  /** What the library does on a lookup: answer with entry `pick` if it matches, or ask the KDC,
      which may add tickets to the cache. */
  datatype Lookup = Lookup(pick: nat, fetched: Option<Cred>, added: seq<Cred>)

  /** The entry is for the server asked for, and for the client asked for or else the cache's own. */
  predicate Answers(mc: MatchCredential, own: Principal, e: Cred) {
    && (e.server.components, e.server.realm) == Shown(mc.server)
    && (e.client.components, e.client.realm) == if mc.hasClient then Shown(mc.client) else (own.components, own.realm)
  }

  /** The library finds its answer in the cache. */
  predicate Hits(mc: MatchCredential, d: S.Data, look: Lookup) {
    look.pick < |d.cache| && Answers(mc, d.principal, d.cache[look.pick])
  }

  /** A login has put a later, unexpired TGT into the file, and the pass has a reason to look. */
  ghost predicate FreshLogin(d: S.Data, minLife: int, now: Time, w: S.World) {
    && Looks(d, minLife, now) && w.loaded == (if w.src.File? then w.src.creds else []) && w.load == S.LoadOk
    && (w.kdc.Some? ==> now < KrbTime(w.kdc.value.endTime))
    && exists i: nat :: HasNews(d, now, w.src, i)
  }

  class Client {
    const minLife: int
    var principal: Principal
    var cache: seq<Cred>
    var tgt: Option<S.Tgt>
    var nextId: nat              // identity of the next tgtInfo allocated
    var renewing: bool
    var renewBackoff: int
    var renewRetryAt: Time
    var lastFileCheck: Time

    function View(): (d: S.Data)
      reads this
    {
      S.Data(principal, cache, tgt, nextId, renewing, renewBackoff, renewRetryAt, lastFileCheck)
    }

    /** A client for `own` with an empty cache. */
    constructor (minTicketLife: int, own: Principal)
      ensures minLife == if minTicketLife <= 0 then 300 * SECONDS else minTicketLife
      ensures View() == S.Data(own, [], None, 0, false, 0, ZERO_TIME, ZERO_TIME)
    {
      minLife := if minTicketLife <= 0 then 300 * SECONDS else minTicketLife;
      principal, cache, tgt, nextId := own, [], None, 0;
      renewing, renewBackoff, renewRetryAt, lastFileCheck := false, 0, ZERO_TIME, ZERO_TIME;
    }

    /** Open: a fresh cache for the file's principal, filled from the file; no client at all when the file
        is missing, unusable or somebody else's, or a library call fails. */
    static method Open(minTicketLife: int, required: int, owner: Option<int>, src: S.Source, fault: S.LoadFault,
                       now: Time) returns (c: Client?)
      ensures c == null <==>
              || owner.None?
              || (required >= 0 && owner.value >= 0 && owner.value != required)
              || src.Unusable? || fault.InitFails? || (fault.LoadFails? && fault.n <= |src.creds|)
      ensures c != null ==>
                && fresh(c) && c.minLife == (if minTicketLife <= 0 then 300 * SECONDS else minTicketLife)
                && c.View() == S.Data(src.principal, S.LoadAll([], None, src.creds, now).0,
                                      if S.Peek(src.creds).None? then None
                                      else Some(S.Tgt(0, S.Peek(src.creds).value)),
                                      1, false, 0, ZERO_TIME, ZERO_TIME)
    {
      if owner.None? { return null; }
      if required >= 0 && owner.value >= 0 && owner.value != required { return null; }
      if src.Unusable? || fault.InitFails? { return null; }
      var client := new Client(minTicketLife, src.principal);
      var found, ok := client.LoadFrom(src.creds, now, if fault.LoadFails? then fault.n else |src.creds| + 1);
      if !ok { return null; }
      PeekAgreesWithLoad(src.creds, now);
      if found.Some? {
        client.tgt := Some(S.Tgt(client.nextId, found.value));
      }
      client.nextId := client.nextId + 1;
      return client;
    }

    // ---- Backoff and wake-ups ----

    method NoteRenewFailure(now: Time)
      modifies this`renewBackoff, this`renewRetryAt
      ensures View() == S.NoteRenewFailure(old(View()), now)
    {
      if renewBackoff == 0 {
        renewBackoff := MIN_BACKOFF;
      } else {
        renewBackoff := renewBackoff * 2;
        if renewBackoff > MAX_BACKOFF {
          renewBackoff := MAX_BACKOFF;
        }
      }
      renewRetryAt := now + renewBackoff;
    }

    method ResetRenewBackoff()
      modifies this`renewBackoff, this`renewRetryAt
      ensures View() == S.ResetBackoff(old(View()))
    {
      renewBackoff := 0;
      renewRetryAt := ZERO_TIME;
    }

    method NextWake(now: Time) returns (at: Time)
      ensures at == S.NextWake(View(), now)
    {
      at := now + MAX_SLEEP;
      if tgt.Some? && CanRenew(tgt.value.cred, now) {
        at := RenewPoint(tgt.value.cred);
        if at <= now {
          at := renewRetryAt;
        }
      }
      if at > now + MAX_SLEEP {
        at := now + MAX_SLEEP;
      }
      if at <= now {
        at := now + SECONDS;
      }
    }

    // ---- The TGT in the working cache ----

    method StoreTGT(cred: Cred)
      modifies this`cache
      ensures cache == old(cache) + [ClearRenewable(cred)]
    {
      var copy := cred.(flags := cred.flags & !TKT_FLG_RENEWABLE);
      cache := cache + [copy];
    }

    method SetTGT(cred: Cred, fault: S.SwapFault) returns (ok: bool)
      modifies this`cache, this`tgt, this`nextId, this`renewBackoff, this`renewRetryAt
      ensures View() == S.SetTGT(old(View()), cred, fault)
      ensures ok == S.SwapSucceeds(old(View()), fault)
    {
      if tgt.Some? {
        if fault.RemoveFails? { return false; }
        cache := RemoveExact(cache, tgt.value.cred);
      }
      if fault.StoreFails? { return false; }
      StoreTGT(cred);
      tgt := Some(S.Tgt(nextId, cred));
      nextId := nextId + 1;
      ResetRenewBackoff();
      return true;
    }

    // ---- The source file ----

    method PeekTGT(creds: seq<Cred>) returns (found: Option<Cred>)
      ensures found == S.Peek(creds)
    {
      found := None;
      var i := 0;
      while found.None? && i < |creds|
        invariant 0 <= i <= |creds|
        invariant found.None? ==> S.Peek(creds) == S.Peek(creds[i..])
        invariant found.Some? ==> S.Peek(creds) == found
      {
        assert creds[i..][1..] == creds[i + 1..];
        if !IsConfig(creds[i].server) && IsLocalTGT(creds[i].client, creds[i].server) {
          found := Some(creds[i]);
        }
        i := i + 1;
      }
    }

    /** loadFrom with loadOne: reading the source fails after `failAfter` entries (no failure when
        the file is shorter than that). */
    method LoadFrom(creds: seq<Cred>, now: Time, failAfter: nat) returns (found: Option<Cred>, ok: bool)
      modifies this`cache
      ensures ok == (failAfter > |creds|)
      ensures ok ==> (cache, found) == S.LoadAll(old(cache), None, creds, now)
      ensures !ok ==> cache == S.LoadAll(old(cache), None, creds[..failAfter], now).0 && found.None?
    {
      found := None;
      var n := 0;
      ghost var all := S.LoadAll(cache, None, creds, now);
      while n < |creds|
        invariant 0 <= n <= |creds| && n <= failAfter
        invariant (cache, found) == S.LoadAll(old(cache), None, creds[..n], now)
      {
        if n == failAfter { return None, false; }
        var cred := creds[n];
        assert creds[..n + 1] == creds[..n] + [cred];
        LoadAppend(old(cache), None, creds[..n], [cred], now);
        LoadSingle(cache, found, cred, now);
        n := n + 1;
        if IsConfig(cred.server) {
          continue;
        }
        if IsLocalTGT(cred.client, cred.server) {
          if found.None? {
            StoreTGT(cred);
            found := Some(cred);
          }
          continue;
        }
        if KrbTime(cred.endTime) > now {
          cache := cache + [cred];
        }
      }
      assert creds[..n] == creds;
      if failAfter == |creds| { return None, false; }
      return found, true;
    }

    /** The file is peeked at as `src` and then loaded as `loaded`. `missing` says that the TGT which the
        closing log record dereferences is not there. */
    method LoadNewerTGT(now: Time, src: S.Source, loaded: seq<Cred>, fault: S.LoadFault) returns (missing: bool)
      modifies this
      ensures View() == S.LoadNewer(old(View()), now, src, loaded, fault)
      ensures missing == S.LosesTgt(old(View()), now, src, loaded, fault)
    {
      hide S.AdoptFile, S.Peek;
      if now - lastFileCheck < FILE_CHECK_INTERVAL { return false; }
      lastFileCheck := now;
      if src.Unusable? { return false; }
      var peek := PeekTGT(src.creds);
      if peek.None? { return false; }
      if Expired(peek.value, now) { return false; }
      if tgt.Some? && End(peek.value) <= End(tgt.value.cred) { return false; }

      if fault.InitFails? { return false; }
      missing := AdoptFile(now, src.principal, loaded, fault);
    }

    /** The part after the cache was re-initialised for the file's principal. */
    method AdoptFile(now: Time, own: Principal, loaded: seq<Cred>, fault: S.LoadFault) returns (missing: bool)
      requires !fault.InitFails?
      modifies this
      ensures View() == S.AdoptFile(old(View()), now, own, loaded, fault)
      ensures missing <==> (fault.LoadFails? ==> fault.n > |loaded|) && S.Peek(loaded).None?
    {
      hide Carried, ClearRenewable, S.LoadAll, S.LoadOne, S.Peek;
      principal, cache := own, [];
      tgt := None;
      var found, ok := LoadFrom(loaded, now, if fault.LoadFails? then fault.n else |loaded| + 1);
      if !ok { return false; }
      PeekAgreesWithLoad(loaded, now);
      tgt := if found.None? then None else Some(S.Tgt(nextId, found.value));
      nextId := nextId + 1;
      ResetRenewBackoff();
      return tgt.None?;
    }

    // ---- Sweeping ----

    method Sweep(now: Time)
      modifies this`cache
      ensures View() == S.Sweep(old(View()), minLife, now)
    {
      hide RemoveExact, IsTGTServer;
      ghost var isStale := (e: Cred) => S.Stale(old(tgt), minLife, now, e);
      var stale: seq<Cred> := [];
      var i := 0;
      while i < |cache|
        invariant 0 <= i <= |cache| && cache == old(cache) && tgt == old(tgt)
        invariant stale == Filter(isStale, cache[..i])
      {
        var cred := cache[i];
        assert cache[..i + 1] == cache[..i] + [cred];
        FilterAppend(isStale, cache[..i], [cred]);
        if !IsConfig(cred.server) {
          var end := KrbTime(cred.endTime);
          var left := end - now;
          var evict := left <= 0 || (left < minLife && tgt.Some? && End(tgt.value.cred) > end);
          if evict && !IsLocalTGT(cred.client, cred.server) {
            stale := stale + [cred];
          }
        }
        i := i + 1;
      }
      assert cache[..i] == cache;
      SweepIsFilter(View(), minLife, now);

      var n := 0;
      while n < |stale|
        invariant 0 <= n <= |stale| && tgt == old(tgt)
        invariant cache == RemoveEach(old(cache), stale[..n])
      {
        assert stale[..n + 1][..n] == stale[..n] && stale[..n + 1][n] == stale[n];
        cache := RemoveExact(cache, stale[n]);
        n := n + 1;
      }
      assert stale[..n] == stale;
    }

    // ---- Renewal and maintenance, with nobody else running ----

    method RenewTGT(now: Time, kdc: Option<Cred>, swap: S.SwapFault) returns (ok: bool)
      modifies this`cache, this`tgt, this`nextId, this`renewBackoff, this`renewRetryAt, this`renewing
      ensures View() == if S.RenewalStarts(old(View()))
                        then S.RenewFinish(old(View()).(renewing := true), old(tgt).value, kdc, now, swap)
                        else old(View())
      ensures ok <==> S.RenewalStarts(old(View())) && kdc.Some? && S.SwapSucceeds(old(View()), swap)
    {
      if renewing { return false; }
      var started := tgt;
      if started.None? { return false; }
      renewing := true;
      // the exchange with the KDC happens here, outside the lock
      renewing := false;
      if tgt.None? || tgt.value.id != started.value.id { return true; }
      if kdc.None? {
        NoteRenewFailure(now);
        return false;
      }
      ok := SetTGT(kdc.value, swap);
      if !ok {
        NoteRenewFailure(now);
      }
    }

    /** The process does not survive a reload that loses the TGT. */
    method Maintain(now: Time, w: S.World) returns (alive: bool)
      modifies this
      ensures alive == S.Survives(old(View()), minLife, now, w)
      ensures alive ==> View() == S.Maintain(old(View()), minLife, now, w)
    {
      var reload := S.NeedsAttention(View(), minLife, now) && now - lastFileCheck >= FILE_CHECK_INTERVAL;
      var renew := S.RenewWanted(View(), now);
      if reload {
        if S.NeedsAttention(View(), minLife, now) {
          var missing := LoadNewerTGT(now, w.src, w.loaded, w.load);
          if missing { return false; }
        }
        renew := S.RenewWanted(View(), now);
      }
      if renew {
        var _ := RenewTGT(now, w.kdc, w.swap);
      }
      Sweep(now);
      return true;
    }

    /** Run: one pass per world met, each at the wake-up the last one chose, on an ideal clock. */
    method Run(start: Time, ws: seq<S.World>) returns (now: Time, alive: bool)
      modifies this
      ensures alive == LoopSurvives(old(View()), minLife, start, ws)
      ensures alive ==> (View(), now) == RunLoop(old(View()), minLife, start, ws)
    {
      hide S.Maintain, S.Survives;
      now, alive := start, true;
      for i := 0 to |ws|
        invariant alive && LoopSurvives(old(View()), minLife, start, ws[..i])
        invariant (View(), now) == RunLoop(old(View()), minLife, start, ws[..i])
      {
        assert ws[..i + 1][..i] == ws[..i] && ws[..i + 1][i] == ws[i];
        alive := Maintain(now, ws[i]);
        if !alive {
          DeadLoop(old(View()), minLife, start, ws, i + 1);
          return;
        }
        now := NextWake(now);
      }
      assert ws[..|ws|] == ws;
    }

    // ---- Client operations ----

    method Store(w: CredWire, fault: S.SwapFault) returns (ok: bool)
      modifies this`cache, this`tgt, this`nextId, this`renewBackoff, this`renewRetryAt
      ensures View() == S.Store(old(View()), w, fault)
      ensures ok == (w.Marshalled? &&
                     if LocalTGT(w.cred) && Text(w.cred.client) == Text(old(principal))
                     then fault == S.SwapOk || (fault == S.RemoveFails && old(tgt).None?)
                     else fault != S.StoreFails)
    {
      if w.Malformed? { return false; }
      if IsLocalTGT(w.cred.client, w.cred.server) {
        var mine := UnparseName(principal);
        var theirs := UnparseName(w.cred.client);
        if mine == theirs {
          ok := SetTGT(w.cred, fault);
          return;
        }
      }
      if fault.StoreFails? { return false; }
      cache := cache + [w.cred];
      return true;
    }

    method Initialize(p: Principal, libraryOk: bool) returns (ok: bool)
      modifies this`principal, this`cache, this`tgt, this`renewBackoff, this`renewRetryAt
      ensures View() == S.Initialize(old(View()), p, libraryOk)
      ensures ok == libraryOk
      ensures ok ==> Text(principal) == Text(p) && cache == [] && tgt.None? && renewBackoff == 0
      ensures !ok ==> View() == old(View())
    {
      hide BuildPrincipal, Text, Shown;
      RebuiltName(p);
      var own := BuildPrincipal(p);
      if own.None? || !libraryOk { return false; }
      principal, cache := own.value, [];
      tgt := None;
      ResetRenewBackoff();
      return true;
    }

    /** None for a request without a server; otherwise whether anything matched (the library reports
        KRB5_CC_NOTFOUND when nothing did). */
    method RemoveMatching(mc: MatchCredential) returns (removed: Option<bool>)
      modifies this`cache
      ensures removed.None? <==> !mc.hasServer
      ensures removed.None? ==> cache == old(cache)
      ensures removed.Some? ==>
                && (removed.value <==> exists e :: e in old(cache) && Answers(mc, principal, e))
                && (forall e :: e in cache <==> e in old(cache) && !Answers(mc, principal, e))
                && var t := BuildTemplate(mc, old(principal));
                   t.Some? && View() == S.Remove(old(View()), t.value.client, t.value.server)
    {
      hide BuildTemplate, Text;
      TemplateMeans(mc, principal);
      var t := BuildTemplate(mc, principal);
      if t.None? { return None; }
      var before := |cache|;
      RemovedNames(mc, principal, t.value, cache);
      cache := RemoveNamed(cache, t.value.client, t.value.server);
      return Some(|cache| < before);
    }

    // ---- Listings ----

    /** None when the maintenance pass ends the process. */
    method ListEntries<U>(uuid: CredWire -> U, now: Time, w: S.World) returns (listed: Option<seq<Entry<U>>>)
      modifies this
      ensures listed.Some? == S.Survives(old(View()), minLife, now, w)
      ensures listed.Some? ==>
                && View() == S.Maintain(old(View()), minLife, now, w)
                && listed.value == Entries(uuid, tgt, cache)
    {
      var alive := Maintain(now, w);
      if !alive { return None; }
      var entries := WalkEntries(uuid);
      return Some(entries);
    }

    /** The walk over the cache under the read lock. */
    method WalkEntries<U>(uuid: CredWire -> U) returns (entries: seq<Entry<U>>)
      ensures entries == Entries(uuid, tgt, cache)
    {
      entries := [];
      for i := 0 to |cache|
        invariant entries == Entries(uuid, tgt, cache[..i])
      {
        var cred := cache[i];
        assert cache[..i + 1] == cache[..i] + [cred];
        EntriesAppend(uuid, tgt, cache[..i], [cred]);
        assert [cred][1..] == [];
        if IsConfig(cred.server) {
          continue;
        }
        var shown := Marshalled(cred);
        if IsTGTServer(cred.server) {
          shown := MarshalTGTForListing(cred);
        }
        entries := entries + [Entry(uuid(Marshalled(cred)), cred.server, shown)];
      }
      assert cache[..|cache|] == cache;
    }

    /** The key is blanked and the flags restored on the credential being marshalled. */
    method MarshalTGTForListing(cred: Cred) returns (w: CredWire)
      ensures w == Marshalled(Redacted(tgt, cred))
    {
      var shown := cred.(key := []);
      if tgt.Some? && IsLocalTGT(cred.client, cred.server) {
        shown := shown.(flags := tgt.value.cred.flags);
      }
      return Marshalled(shown);
    }

    /** The inner None is "no such entry"; the outer one as for ListEntries. */
    method EntryByUUID<U(==)>(uuid: CredWire -> U, u: U, now: Time, w: S.World)
      returns (found: Option<Option<Entry<U>>>)
      modifies this
      ensures found.Some? == S.Survives(old(View()), minLife, now, w)
      ensures found.Some? ==>
                && View() == S.Maintain(old(View()), minLife, now, w)
                && found.value == EntryOf(uuid, u, tgt, cache)
    {
      var alive := Maintain(now, w);
      if !alive { return None; }
      var entry := FindEntry(uuid, u);
      return Some(entry);
    }

    method FindEntry<U(==)>(uuid: CredWire -> U, u: U) returns (found: Option<Entry<U>>)
      ensures found == EntryOf(uuid, u, tgt, cache)
    {
      var i := 0;
      while i < |cache|
        invariant 0 <= i <= |cache|
        invariant EntryOf(uuid, u, tgt, cache) == EntryOf(uuid, u, tgt, cache[i..])
      {
        var cred := cache[i];
        assert cache[i..][1..] == cache[i + 1..];
        if !IsConfig(cred.server) && uuid(Marshalled(cred)) == u {
          var shown := Marshalled(cred);
          if IsTGTServer(cred.server) {
            shown := MarshalTGTForListing(cred);
          }
          return Some(Entry(u, cred.server, shown));
        }
        i := i + 1;
      }
      return None;
    }

    /** RETRIEVE with nobody else running. */
    method Retrieve(mc: MatchCredential, now: Time, w: S.World, look: Lookup) returns (out: Outcome)
      modifies this
      ensures mc.hasServer && IsTGTServer(mc.server) ==> out == Refused && View() == old(View())
      ensures !(mc.hasServer && IsTGTServer(mc.server)) ==>
                && out != Refused
                && (out == Crashed <==> !S.Survives(old(View()), minLife, now, w))
      ensures !(mc.hasServer && IsTGTServer(mc.server)) && out != Crashed ==>
                var d := S.Maintain(old(View()), minLife, now, w);
                && (out == TktExpired <==> d.tgt.None? || now >= KrbTime(d.tgt.value.cred.endTime))
                && (out != TktExpired ==>
                      && (out == BadRequest <==> !mc.hasServer)
                      && (out == NotFound <==> mc.hasServer && IsConfig(mc.server))
                      && (mc.hasServer && !IsConfig(mc.server) ==>
                            && (out.Cached? <==> Hits(mc, d, look))
                            && (out.Fetched? <==> !Hits(mc, d, look) && look.fetched.Some?)
                            && (out == Failed <==> !Hits(mc, d, look) && look.fetched.None?)))
                && (out.Cached? ==>
                      && look.pick < |d.cache| && out.cred == d.cache[look.pick]
                      && !IsTGTServer(out.cred.server) && !IsConfig(out.cred.server)
                      && LivesLongEnough(d.tgt.value.cred, minLife, now, out.cred))
                && (out.Fetched? ==> look.fetched == Some(out.cred))
                && View() == if out.Fetched? then d.(cache := d.cache + look.added) else d
      ensures FreshLogin(old(View()), minLife, now, w) ==> out != TktExpired
    {
      hide S.Maintain, S.Survives, LivesLongEnough, BuildTemplate, Text;
      if mc.hasServer && IsTGTServer(mc.server) { return Refused; }
      var alive := Maintain(now, w);
      if !alive { return Crashed; }
      if S.NoUsableTgt(View(), now) {
        LoginEndsTrouble(old(View()), minLife, now, w);
        return TktExpired;
      }
      TemplateMeans(mc, principal);
      var t := BuildTemplate(mc, principal);
      if t.None? { return BadRequest; }
      RebuiltVerdicts(mc.server, t.value.server);
      if IsConfig(t.value.server) { return NotFound; }
      if look.pick < |cache| && SameName(t.value.client, cache[look.pick].client)
         && SameName(t.value.server, cache[look.pick].server) {
        RebuiltVerdicts(mc.server, cache[look.pick].server);
        MaintainedTicketLives(old(View()), minLife, now, w, cache[look.pick]);
        return Cached(cache[look.pick]);
      }
      if look.fetched.None? { return Failed; }
      cache := cache + look.added;
      return Fetched(look.fetched.value);
    }
  }

  lemma LoginEndsTrouble(d: S.Data, minLife: int, now: Time, w: S.World)
    ensures FreshLogin(d, minLife, now, w) ==> !S.NoUsableTgt(S.Maintain(d, minLife, now, w), now)
  {
    if FreshLogin(d, minLife, now, w) {
      var i: nat :| HasNews(d, now, w.src, i);
      LoginEndsExpiry(d, minLife, now, w, i);
    }
    hide S.Maintain;
  }

  /** What is removed by a template's names. */
  lemma RemovedNames(mc: MatchCredential, own: Principal, t: Template, cache: seq<Cred>)
    requires (t.server.components, t.server.realm) == Shown(mc.server)
    requires (t.client.components, t.client.realm) ==
             if mc.hasClient then Shown(mc.client) else (own.components, own.realm)
    ensures var kept := RemoveNamed(cache, t.client, t.server);
            && (forall e :: e in kept <==> e in cache && !Answers(mc, own, e))
            && (|kept| < |cache| <==> exists e :: e in cache && Answers(mc, own, e))
  {
    var keep := (e: Cred) => !(SameName(t.client, e.client) && SameName(t.server, e.server));
    FilterShrinks(keep, cache);
    forall e: Cred ensures e in RemoveNamed(cache, t.client, t.server) <==> e in cache && !Answers(mc, own, e) {
      FilterMembers(keep, cache, e);
    }
    if |RemoveNamed(cache, t.client, t.server)| < |cache| && !(exists e :: e in cache && Answers(mc, own, e)) {
      FilterAll(keep, cache);
      assert false;
    }
  }

  /** What the refusals look at is the same for a principal and for one rebuilt from its text. */
  lemma RebuiltVerdicts(p: Principal, q: Principal)
    requires (q.components, q.realm) == Shown(p)
    ensures IsTGTServer(q) == IsTGTServer(p) && IsConfig(q) == IsConfig(p)
  {
  }

  /** Any service ticket in the cache after a maintenance pass may be handed out. */
  lemma MaintainedTicketLives(d: S.Data, minLife: int, now: Time, w: S.World, e: Cred)
    requires var d' := S.Maintain(d, minLife, now, w);
             d'.tgt.Some? && e in d'.cache && !IsConfig(e.server) && !IsTGTServer(e.server)
    ensures LivesLongEnough(S.Maintain(d, minLife, now, w).tgt.value.cred, minLife, now, e)
  {
    var before := S.Renewed(S.Reloaded(d, minLife, now, w), now, w);
    SweepSparesTheRest(before, minLife, now, e);
    SweptTicketLives(before, minLife, now, e);
  }

  lemma {:induction false} FilterShrinks<T>(keep: T -> bool, s: seq<T>)
    ensures Filter(keep, s) != s ==> |Filter(keep, s)| < |s|
  {
    if s != [] {
      FilterShrinks(keep, s[1..]);
      assert s == [s[0]] + s[1..];
    }
  }

  lemma LoadSingle(cache: seq<Cred>, found: Option<Cred>, c: Cred, now: Time)
    ensures S.LoadAll(cache, found, [c], now) == S.LoadOne(cache, found, c, now)
  {
    hide S.LoadOne;
    assert [c][1..] == [];
    var r := S.LoadOne(cache, found, c, now);
    assert S.LoadAll(r.0, r.1, [], now) == r;
  }
}
