/** Config pseudo-entries of a ccache in the working cache: where they come from, and what clients see of
    them (internal/krb5c/ops.go, internal/krb5c/krb5c.go). */
module ConfigEntries {
  import opened Wire
  import opened Names
  import opened Credentials
  import opened Session
  import opened Listing

  ghost predicate ConfigFree(cache: seq<Cred>) { forall i :: 0 <= i < |cache| ==> !IsConfig(cache[i].server) }

  lemma TgtIsNoConfig(c: Cred)
    requires LocalTGT(c)
    ensures !IsConfig(c.server) && !IsConfig(ClearRenewable(c).server)
  {
  }

  lemma FilterKeepsConfigFree(keep: Cred -> bool, cache: seq<Cred>)
    requires ConfigFree(cache)
    ensures ConfigFree(Filter(keep, cache))
  {
    var kept := Filter(keep, cache);
    forall k | 0 <= k < |kept| ensures !IsConfig(kept[k].server) {
      FilterMembers(keep, cache, kept[k]);
      assert kept[k] in cache;
    }
  }

  lemma WithoutKeepsConfigFree(d: Data)
    requires ConfigFree(d.cache)
    ensures ConfigFree(WithoutTgt(d))
  {
    if d.tgt.Some? {
      FilterKeepsConfigFree((e: Cred) => !ExactMatch(d.tgt.value.cred, e), d.cache);
    }
  }

  lemma AppendConfig(cache: seq<Cred>, c: Cred)
    requires ConfigFree(cache)
    ensures ConfigFree(cache + [c]) <==> !IsConfig(c.server)
  {
    hide IsConfig;
    assert (cache + [c])[|cache|] == c;
  }

  lemma SwapConfig(d: Data, cred: Cred, fault: SwapFault)
    requires ConfigFree(d.cache)
    ensures ConfigFree(SetTGT(d, cred, fault).cache) <==> !(SwapSucceeds(d, fault) && IsConfig(cred.server))
  {
    hide IsConfig, Filter, ClearRenewable, ConfigFree;
    WithoutKeepsConfigFree(d);
    SameServer(cred);
    AppendConfig(d.cache, ClearRenewable(cred));
    AppendConfig(WithoutTgt(d), ClearRenewable(cred));
  }

  lemma SameServer(c: Cred)
    ensures ClearRenewable(c).server == c.server
  {
  }

  /** STORE puts a config entry into the cache exactly when it is given one and the library stores it. */
  lemma StoreConfig(d: Data, w: CredWire, fault: SwapFault)
    requires ConfigFree(d.cache)
    ensures ConfigFree(Store(d, w, fault).cache) <==>
            !(w.Marshalled? && IsConfig(w.cred.server) && !fault.StoreFails?)
  {
    if w.Marshalled? {
      if BecomesTgt(d, w.cred) {
        TgtIsNoConfig(w.cred);
        SwapConfig(d, w.cred, fault);
      } else {
        AppendConfig(d.cache, w.cred);
      }
    }
    hide IsConfig, LocalTGT, SetTGT, Text, ConfigFree;
  }

  /** So the working cache can come to hold one. */
  lemma StoredConfigHappens(d: Data, c: Cred)
    requires ConfigFree(d.cache)
    ensures var config := c.(server := Principal(0, CONFIG_REALM, [CONFIG_NAME]));
            !ConfigFree(Store(d, Marshalled(config), SwapOk).cache)
  {
    StoreConfig(d, Marshalled(c.(server := Principal(0, CONFIG_REALM, [CONFIG_NAME]))), SwapOk);
  }

  lemma LoadOneConfig(cache: seq<Cred>, found: Option<Cred>, c: Cred, now: Time)
    requires ConfigFree(cache)
    ensures ConfigFree(LoadOne(cache, found, c, now).0)
  {
    SameServer(c);
    AppendConfig(cache, c);
    AppendConfig(cache, ClearRenewable(c));
    hide IsConfig, LocalTGT, ClearRenewable, ConfigFree;
  }

  /** A source file brings none in, whatever it holds. */
  lemma {:induction false} LoadConfig(cache: seq<Cred>, found: Option<Cred>, creds: seq<Cred>, now: Time)
    requires ConfigFree(cache)
    ensures ConfigFree(LoadAll(cache, found, creds, now).0)
    decreases |creds|
  {
    hide ConfigFree, LoadOne;
    if creds != [] {
      LoadOneConfig(cache, found, creds[0], now);
      var (c, f) := LoadOne(cache, found, creds[0], now);
      LoadConfig(c, f, creds[1..], now);
    }
  }

  /** Nothing else brings one in either: not a reload, however it goes, a sweep, a removal, an
      initialisation, or a renewal whose answer is a ticket. */
  lemma OthersStayConfigFree(d: Data, minLife: int, now: Time, w: World, p: Principal, q: Principal, ok: bool)
    requires ConfigFree(d.cache)
    ensures ConfigFree(LoadNewer(d, now, w.src, w.loaded, w.load).cache)
    ensures ConfigFree(Sweep(d, minLife, now).cache)
    ensures ConfigFree(Remove(d, p, q).cache)
    ensures ConfigFree(Initialize(d, p, ok).cache)
    ensures forall started :: (w.kdc.Some? ==> !IsConfig(w.kdc.value.server)) ==>
              ConfigFree(RenewFinish(d, started, w.kdc, now, w.swap).cache)
  {
    LoadConfig([], None, w.loaded, now);
    if w.load.LoadFails? && w.load.n <= |w.loaded| {
      LoadConfig([], None, w.loaded[..w.load.n], now);
    }
    FilterKeepsConfigFree((e: Cred) => !Stale(d.tgt, minLife, now, e), d.cache);
    FilterKeepsConfigFree((e: Cred) => !(SameName(p, e.client) && SameName(q, e.server)), d.cache);
    if w.kdc.Some? {
      SwapConfig(d.(renewing := false), w.kdc.value, w.swap);
    }
    assert ConfigFree([]);
    hide IsConfig, ConfigFree, LoadAll, Filter, Adopts, SetTGT, BuildPrincipal;
  }

  // ---- What clients see ----

  /** Whether a request names a config entry is decided on the principal rebuilt from its text. */
  lemma ConfigVerdictSurvivesText(p: Principal)
    ensures BuildPrincipal(p).Some? && IsConfig(BuildPrincipal(p).value) == IsConfig(p)
  {
    NameRoundTrip(p);
  }

  /** A config entry in the cache is never listed, never found by UUID and never swept. */
  lemma ConfigIsHidden<U>(uuid: CredWire -> U, u: U, tgt: Option<Tgt>, a: seq<Cred>, c: Cred, b: seq<Cred>,
                              minLife: int, now: Time)
    requires IsConfig(c.server)
    ensures Entries(uuid, tgt, a + [c] + b) == Entries(uuid, tgt, a + b)
    ensures EntryOf(uuid, u, tgt, a + [c] + b) == EntryOf(uuid, u, tgt, a + b)
    ensures !Stale(tgt, minLife, now, c)
  {
    EntriesAppend(uuid, tgt, a + [c], b);
    EntriesAppend(uuid, tgt, a, [c]);
    EntriesAppend(uuid, tgt, a, b);
    assert [c][1..] == [];
    hide ListedEntry;
    SkipsConfig(uuid, u, tgt, a, c, b);
  }

  lemma {:induction false} SkipsConfig<U>(uuid: CredWire -> U, u: U, tgt: Option<Tgt>,
                                          a: seq<Cred>, c: Cred, b: seq<Cred>)
    requires IsConfig(c.server)
    ensures EntryOf(uuid, u, tgt, a + [c] + b) == EntryOf(uuid, u, tgt, a + b)
    decreases |a|
  {
    hide ListedEntry;
    var with, without := a + [c] + b, a + b;
    if a == [] {
      assert with[0] == c && with[1..] == b && without == b;
    } else {
      assert with[0] == a[0] && with[1..] == a[1..] + [c] + b;
      assert without[0] == a[0] && without[1..] == a[1..] + b;
      SkipsConfig(uuid, u, tgt, a[1..], c, b);
    }
  }
}
