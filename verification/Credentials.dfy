/** Credentials, the working cache as libkrb5 presents it, and the TGT policy predicates
    (internal/krb5c/policy.go, internal/krb5c/krb5c.go).

libkrb5 is a small interface: a cache is a sequence, storing appends, removing drops every entry that
matches on client and server (and on all four times when asked to), and the marshalled form of a
credential determines it. Times are mathematical nanoseconds since the epoch.
*/
module Credentials {
  import opened Wire
  import opened Names

  type Time = int

  const SECONDS: int := 1_000_000_000
  const MAX_SLEEP: int := 600 * SECONDS
  const MIN_BACKOFF: int := 30 * SECONDS
  const MAX_BACKOFF: int := 600 * SECONDS
  const FILE_CHECK_INTERVAL: int := 5 * SECONDS

  /** Go's zero time.Time, the first instant of year 1. */
  const ZERO_TIME: Time := -62_135_596_800 * SECONDS

  const TKT_FLG_RENEWABLE: bv32 := 0x0080_0000

  datatype Cred = Cred(
    client: Principal, server: Principal,
    enctype: int32, key: Bytes,
    authTime: uint32, startTime: uint32, endTime: uint32, renewTill: uint32,
    flags: bv32, ticket: Bytes)

  /** A marshalled credential; anything else a client may send does not unmarshal. */
  datatype CredWire = Marshalled(cred: Cred) | Malformed(junk: Bytes)

  function KrbTime(ts: uint32): (t: Time) {
    if ts == 0 then ZERO_TIME else ts * SECONDS
  }

  function End(c: Cred): (t: Time) { KrbTime(c.endTime) }

  function ClearRenewable(c: Cred): (r: Cred) { c.(flags := c.flags & !TKT_FLG_RENEWABLE) }

  predicate RenewableFlag(c: Cred) { c.flags & TKT_FLG_RENEWABLE != 0 }

  lemma ClearedIsClear(c: Cred)
    ensures !RenewableFlag(ClearRenewable(c))
    ensures ClearRenewable(ClearRenewable(c)) == ClearRenewable(c)
    ensures !RenewableFlag(c) ==> ClearRenewable(c) == c
  {
    BitClear(c.flags);
  }

  lemma BitClear(f: bv32)
    ensures (f & !TKT_FLG_RENEWABLE) & TKT_FLG_RENEWABLE == 0
    ensures (f & !TKT_FLG_RENEWABLE) & !TKT_FLG_RENEWABLE == f & !TKT_FLG_RENEWABLE
    ensures f & TKT_FLG_RENEWABLE == 0 ==> f & !TKT_FLG_RENEWABLE == f
  {
  }

  // ---- Kinds of entries ----

  predicate IsLocalTGT(client: Principal, server: Principal) {
    && IsTGTServer(server)
    && server.components[1] == server.realm
    && server.realm == client.realm
  }

  predicate LocalTGT(c: Cred) { IsLocalTGT(c.client, c.server) }

  const CONFIG_REALM: Bytes :=    // "X-CACHECONF:"
    [0x58, 0x2d, 0x43, 0x41, 0x43, 0x48, 0x45, 0x43, 0x4f, 0x4e, 0x46, 0x3a]
  const CONFIG_NAME: Bytes :=     // "krb5_ccache_conf_data"
    [0x6b, 0x72, 0x62, 0x35, 0x5f, 0x63, 0x63, 0x61, 0x63, 0x68, 0x65, 0x5f, 0x63, 0x6f, 0x6e, 0x66,
     0x5f, 0x64, 0x61, 0x74, 0x61]

  /** krb5_is_config_principal. */
  predicate IsConfig(server: Principal) {
    server.realm == CONFIG_REALM && |server.components| > 0 && server.components[0] == CONFIG_NAME
  }

  // ---- Matching and removal ----

  /** krb5_principal_compare: the name type does not take part. */
  predicate SameName(a: Principal, b: Principal) { a.realm == b.realm && a.components == b.components }

  predicate NamesMatch(a: Cred, b: Cred) { SameName(a.client, b.client) && SameName(a.server, b.server) }

  /** KRB5_TC_MATCH_TIMES_EXACT on top of the names; ticket flags are not compared. */
  predicate ExactMatch(a: Cred, b: Cred) {
    && NamesMatch(a, b)
    && a.authTime == b.authTime && a.startTime == b.startTime
    && a.endTime == b.endTime && a.renewTill == b.renewTill
  }

  function Filter<T>(keep: T -> bool, s: seq<T>): (r: seq<T>)
    ensures |r| <= |s|
  {
    if s == [] then []
    else if keep(s[0]) then [s[0]] + Filter(keep, s[1..])
    else Filter(keep, s[1..])
  }

  function RemoveExact(cache: seq<Cred>, c: Cred): (r: seq<Cred>) {
    Filter((e: Cred) => !ExactMatch(c, e), cache)
  }

  function RemoveNamed(cache: seq<Cred>, client: Principal, server: Principal): (r: seq<Cred>) {
    Filter((e: Cred) => !(SameName(client, e.client) && SameName(server, e.server)), cache)
  }

  lemma {:induction false} FilterAppend<T>(keep: T -> bool, a: seq<T>, b: seq<T>)
    ensures Filter(keep, a + b) == Filter(keep, a) + Filter(keep, b)
  {
    if a == [] {
      assert a + b == b;
    } else {
      var ab := a + b;
      assert ab != [] && ab[0] == a[0] && ab[1..] == a[1..] + b;
      FilterAppend(keep, a[1..], b);
    }
  }

  lemma {:induction false} FilterSame<T>(keep: T -> bool, keep': T -> bool, s: seq<T>)
    requires forall i :: 0 <= i < |s| ==> keep(s[i]) == keep'(s[i])
    ensures Filter(keep, s) == Filter(keep', s)
  {
    if s != [] {
      assert forall i :: 0 <= i < |s[1..]| ==> s[1..][i] == s[i + 1];
      FilterSame(keep, keep', s[1..]);
    }
  }

  lemma {:induction false} FilterTwice<T>(p: T -> bool, q: T -> bool, both: T -> bool, s: seq<T>)
    requires forall i :: 0 <= i < |s| ==> both(s[i]) == (q(s[i]) && p(s[i]))
    ensures Filter(p, Filter(q, s)) == Filter(both, s)
  {
    if s != [] {
      assert forall i :: 0 <= i < |s[1..]| ==> s[1..][i] == s[i + 1];
      FilterTwice(p, q, both, s[1..]);
      if q(s[0]) {
        assert Filter(q, s)[1..] == Filter(q, s[1..]);
      }
    }
  }

  lemma {:induction false} FilterMembers<T>(keep: T -> bool, s: seq<T>, x: T)
    ensures x in Filter(keep, s) <==> x in s && keep(x)
  {
    if s != [] {
      FilterMembers(keep, s[1..], x);
      assert s == [s[0]] + s[1..];
    }
  }

  // ---- What the daemon knows about its TGT ----

  predicate Renewable(t: Cred) { RenewableFlag(t) && KrbTime(t.renewTill) > End(t) }

  predicate Expired(t: Cred, now: Time) { now >= End(t) }

  function Remaining(t: Cred, now: Time): (d: int) { End(t) - now }

  predicate CanRenew(t: Cred, now: Time) { Renewable(t) && !Expired(t, now) }

  /** When the ticket's life began: its start time, or its authentication time if it has none. */
  function Began(t: Cred): (at: Time) {
    if KrbTime(t.startTime) == ZERO_TIME then KrbTime(t.authTime) else KrbTime(t.startTime)
  }

  /** Go's division of a Duration by two rounds toward zero. */
  function Half(d: int): (h: int) { if d >= 0 then d / 2 else -(-d / 2) }

  function RenewPoint(t: Cred): (at: Time) { Began(t) + Half(End(t) - Began(t)) }

  predicate RenewDue(t: Cred, now: Time) { CanRenew(t, now) && now >= RenewPoint(t) }
}
