/** What the policy predicates mean in the fields of a credential (internal/krb5c/policy.go and
    internal/krb5c/krb5c.go). */
module CredentialLaws {
  import opened Wire
  import opened Names
  import opened Credentials

  // ---- Times ----

  /** Timestamps keep their order and their distance, to the second; zero is Go's zero time, before them all. */
  lemma TimesKeepOrder(a: uint32, b: uint32)
    ensures KrbTime(a) <= KrbTime(b) <==> a <= b
    ensures a > 0 && b > 0 ==> KrbTime(a) - KrbTime(b) == (a - b) * 1_000_000_000
    ensures KrbTime(1) == 1_000_000_000 && KrbTime(0) == ZERO_TIME < 0
  {
  }

  /** When the life of a ticket begins: its start time, or its authentication time when it has none. */
  lemma LifeStart(t: Cred)
    ensures Began(t) == if t.startTime != 0 then KrbTime(t.startTime) else KrbTime(t.authTime)
  {
  }

  /** The renewal point is the middle of the life, exactly: times are whole seconds, so Go's division never
      rounds. */
  lemma HalfLifeIsExact(t: Cred)
    ensures 2 * RenewPoint(t) == Began(t) + End(t)
  {
    EvenTime(t.startTime);
    EvenTime(t.authTime);
    EvenTime(t.endTime);
    hide KrbTime;
  }

  lemma EvenTime(ts: uint32)
    ensures KrbTime(ts) % 2 == 0
  {
  }

  /** A renewal is due for a ticket that the KDC marked renewable, whose renewable life outlasts its end, that
      has not ended, and at least half of whose life is over. */
  lemma RenewalIsDue(t: Cred, now: Time)
    ensures RenewDue(t, now) <==>
            && t.flags & 0x0080_0000 != 0 && t.renewTill > t.endTime
            && now < KrbTime(t.endTime)
            && 2 * now >= KrbTime(if t.startTime != 0 then t.startTime else t.authTime) + KrbTime(t.endTime)
  {
    TimesKeepOrder(t.renewTill, t.endTime);
    HalfLifeIsExact(t);
    LifeStart(t);
    hide KrbTime, RenewPoint, Began;
  }

  // ---- Flags ----

  /** Clearing the renewable bit changes nothing else. */
  lemma OnlyTheBit(c: Cred)
    ensures ClearRenewable(c) == c.(flags := ClearRenewable(c).flags)
    ensures ClearRenewable(c).flags & 0x0080_0000 == 0
    ensures ClearRenewable(c).flags | 0x0080_0000 == c.flags | 0x0080_0000
  {
    BitsKept(c.flags);
  }

  lemma BitsKept(f: bv32)
    ensures (f & !TKT_FLG_RENEWABLE) & 0x0080_0000 == 0
    ensures (f & !TKT_FLG_RENEWABLE) | 0x0080_0000 == f | 0x0080_0000
  {
  }

  // ---- Names ----

  /** The bytes of an ASCII string. */
  predicate Spells(b: Bytes, s: string) { |b| == |s| && forall i :: 0 <= i < |s| ==> b[i] == s[i] as int }

  lemma NamesSpelled()
    ensures Spells(KRBTGT, "krbtgt")
    ensures Spells(CONFIG_NAME, "krb5_ccache_conf_data")
    ensures Spells(CONFIG_REALM, "X-CACHECONF:")
  {
  }

  /** The local TGT of client realm R is the one for krbtgt/R@R. */
  lemma LocalTgtMeans(c: Cred)
    ensures LocalTGT(c) <==>
            SameName(c.server, Principal(0, c.client.realm, [KRBTGT, c.client.realm]))
  {
    assert c.server.components == [KRBTGT, c.client.realm] <==>
           |c.server.components| == 2 && c.server.components[0] == KRBTGT && c.server.components[1] == c.client.realm;
  }

  /** A ticket-granting service, by its text: "krbtgt", one more component, and a realm. */
  lemma TgtServerMeans(p: Principal)
    ensures IsTGTServer(p) <==> exists x: Bytes :: SameName(p, Principal(0, p.realm, [KRBTGT, x]))
  {
    if IsTGTServer(p) {
      assert SameName(p, Principal(0, p.realm, [KRBTGT, p.components[1]]));
    }
  }

  /** A config entry: krb5_ccache_conf_data, with anything after it, in realm X-CACHECONF:. */
  lemma ConfigMeans(p: Principal)
    ensures IsConfig(p) <==> exists rest: seq<Bytes> :: SameName(p, Principal(0, CONFIG_REALM, [CONFIG_NAME] + rest))
  {
    if IsConfig(p) {
      assert p.components == [CONFIG_NAME] + p.components[1..];
      assert SameName(p, Principal(0, CONFIG_REALM, [CONFIG_NAME] + p.components[1..]));
    }
  }

  /** Names are compared by text; the name type does not take part. */
  lemma SameNameMeans(a: Principal, b: Principal)
    ensures SameName(a, b) <==> a.(ntype := 0) == b.(ntype := 0)
    ensures SameName(a, b) ==> Text(a) == Text(b)
  {
  }

  // ---- Matching and removal ----

  /** An exact match is the same credential but for key, flags, ticket and the name types. */
  lemma ExactMatchMeans(a: Cred, b: Cred)
    ensures ExactMatch(a, b) <==>
            a == b.(client := b.client.(ntype := a.client.ntype), server := b.server.(ntype := a.server.ntype),
                    enctype := a.enctype, key := a.key, flags := a.flags, ticket := a.ticket)
  {
  }

  /** REMOVE drops an entry exactly when both names match; the others stay, in order and number. */
  lemma RemoveNamedMeans(cache: seq<Cred>, client: Principal, server: Principal)
    ensures forall e :: e in RemoveNamed(cache, client, server) <==>
              && e in cache
              && !(e.client.(ntype := 0) == client.(ntype := 0) && e.server.(ntype := 0) == server.(ntype := 0))
    ensures cache == [] ==> RemoveNamed(cache, client, server) == []
    ensures forall i :: 0 <= i < |cache| ==>
              RemoveNamed(cache, client, server) ==
              RemoveNamed(cache[..i], client, server) + RemoveNamed(cache[i..], client, server)
    ensures |cache| == 1 && RemoveNamed(cache, client, server) != [] ==> RemoveNamed(cache, client, server) == cache
  {
    var keep := (e: Cred) => !(SameName(client, e.client) && SameName(server, e.server));
    forall e: Cred ensures e in RemoveNamed(cache, client, server) <==> e in cache && keep(e) {
      FilterMembers(keep, cache, e);
    }
    forall i | 0 <= i < |cache|
      ensures RemoveNamed(cache, client, server) ==
              RemoveNamed(cache[..i], client, server) + RemoveNamed(cache[i..], client, server)
    {
      assert cache == cache[..i] + cache[i..];
      FilterAppend(keep, cache[..i], cache[i..]);
    }
  }
}
