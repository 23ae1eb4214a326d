/** What listings show of the working cache (ListEntries, EntryByUUID and marshalTGTForListing in
    internal/krb5c/ops.go and internal/krb5c/krb5c.go). */
module Listing {
  import opened Wire
  import opened Names
  import opened Credentials
  import opened Session
  import opened SessionLaws

  /** One answer of a listing. */
  datatype Entry<U> = Entry(uuid: U, server: Principal, wire: CredWire)

  /** A ticket-granting ticket without its session key; the client's own with its real flags. */
  function Redacted(tgt: Option<Tgt>, c: Cred): (r: Cred) {
    c.(key := [], flags := if tgt.Some? && LocalTGT(c) then tgt.value.cred.flags else c.flags)
  }

  function ListedWire(tgt: Option<Tgt>, c: Cred): (w: CredWire) {
    if IsTGTServer(c.server) then Marshalled(Redacted(tgt, c)) else Marshalled(c)
  }

  /** The UUID comes from the true credential, not from the listed one. */
  function ListedEntry<U>(uuid: CredWire -> U, tgt: Option<Tgt>, c: Cred): (e: Entry<U>) {
    Entry(uuid(Marshalled(c)), c.server, ListedWire(tgt, c))
  }

  function Entries<U>(uuid: CredWire -> U, tgt: Option<Tgt>, cache: seq<Cred>): (es: seq<Entry<U>>) {
    if cache == [] then []
    else if IsConfig(cache[0].server) then Entries(uuid, tgt, cache[1..])
    else [ListedEntry(uuid, tgt, cache[0])] + Entries(uuid, tgt, cache[1..])
  }

  /** The first real entry whose true credential has UUID u. */
  function EntryOf<U(==)>(uuid: CredWire -> U, u: U, tgt: Option<Tgt>, cache: seq<Cred>): (r: Option<Entry<U>>) {
    if cache == [] then None
    else if !IsConfig(cache[0].server) && uuid(Marshalled(cache[0])) == u
    then Some(ListedEntry(uuid, tgt, cache[0]))
    else EntryOf(uuid, u, tgt, cache[1..])
  }

  lemma {:induction false} EntriesAppend<U>(uuid: CredWire -> U, tgt: Option<Tgt>, a: seq<Cred>, b: seq<Cred>)
    ensures Entries(uuid, tgt, a + b) == Entries(uuid, tgt, a) + Entries(uuid, tgt, b)
  {
    hide ListedEntry, IsConfig;
    if a == [] {
      assert a + b == b;
    } else {
      var ab := a + b;
      assert ab[0] == a[0] && ab[1..] == a[1..] + b;
      EntriesAppend(uuid, tgt, a[1..], b);
    }
  }

  ghost predicate Unlisted<U>(es: seq<Entry<U>>, u: U) { forall i :: 0 <= i < |es| ==> es[i].uuid != u }

  /** The first entry of `es` with UUID u is `e`. */
  ghost predicate FirstListed<U>(es: seq<Entry<U>>, u: U, e: Entry<U>) {
    exists i :: 0 <= i < |es| && es[i] == e && e.uuid == u && Unlisted(es[..i], u)
  }

  lemma ListedLater<U>(first: Entry<U>, tail: seq<Entry<U>>, u: U, e: Entry<U>)
    requires first.uuid != u
    ensures Unlisted([first] + tail, u) <==> Unlisted(tail, u)
    ensures FirstListed(tail, u, e) ==> FirstListed([first] + tail, u, e)
  {
    UnlistedCons(first, tail, u);
    if FirstListed(tail, u, e) {
      var es := [first] + tail;
      var i :| 0 <= i < |tail| && tail[i] == e && e.uuid == u && Unlisted(tail[..i], u);
      UnlistedCons(first, tail[..i], u);
      hide Unlisted;
      assert es[i + 1] == e && es[..i + 1] == [first] + tail[..i];
    }
  }

  lemma UnlistedCons<U>(first: Entry<U>, tail: seq<Entry<U>>, u: U)
    ensures Unlisted([first] + tail, u) <==> first.uuid != u && Unlisted(tail, u)
  {
    var es := [first] + tail;
    assert forall j :: 0 <= j < |tail| ==> es[j + 1] == tail[j];
    if first.uuid != u && Unlisted(tail, u) {
      forall j | 0 <= j < |es| ensures es[j].uuid != u {
        assert j > 0 ==> es[j] == tail[j - 1];
      }
    }
    assert es[0] == first;
  }

  /** GET_CRED_BY_UUID answers with the first listed entry of that UUID, and with nothing exactly
      when the list has none. */
  lemma {:induction false} ByUuidAgreesWithList<U>(uuid: CredWire -> U, u: U, tgt: Option<Tgt>, cache: seq<Cred>)
    ensures var es, r := Entries(uuid, tgt, cache), EntryOf(uuid, u, tgt, cache);
            && (r.None? <==> Unlisted(es, u))
            && (r.Some? ==> FirstListed(es, u, r.value))
  {
    hide IsConfig, ListedWire;
    if cache != [] {
      ByUuidAgreesWithList(uuid, u, tgt, cache[1..]);
      if !IsConfig(cache[0].server) {
        var first, tail := ListedEntry(uuid, tgt, cache[0]), Entries(uuid, tgt, cache[1..]);
        var es, r := Entries(uuid, tgt, cache), EntryOf(uuid, u, tgt, cache);
        assert es == [first] + tail && first.uuid == uuid(Marshalled(cache[0]));
        if first.uuid == u {
          assert es[0] == first && es[..0] == [];
        } else {
          ListedLater(first, tail, u, if r.Some? then r.value else first);
        }
      }
    }
  }

  /** How a credential is listed: under its own server and the UUID of its true form; whole, if it is a service
      ticket; otherwise without its key and, if it is the client's local TGT, with the remembered flags. */
  predicate ListedAs<U(==)>(uuid: CredWire -> U, tgt: Option<Tgt>, c: Cred, e: Entry<U>) {
    && e.uuid == uuid(Marshalled(c)) && e.server == c.server && e.wire.Marshalled?
    && var shown := e.wire.cred;
       if !IsTGTServer(c.server) then shown == c
       else
         && shown.key == [] && shown.(key := c.key, flags := c.flags) == c
         && shown.flags == if LocalTGT(c) && tgt.Some? then tgt.value.cred.flags else c.flags
  }

  /** A listing shows every entry but the config ones, in order, each as it should be. */
  lemma {:induction false} ListedMeans<U>(uuid: CredWire -> U, tgt: Option<Tgt>, cache: seq<Cred>)
    ensures var es, listed := Entries(uuid, tgt, cache), Filter((c: Cred) => !IsConfig(c.server), cache);
            |es| == |listed| && forall i :: 0 <= i < |es| ==> ListedAs(uuid, tgt, listed[i], es[i])
  {
    if cache != [] {
      ListedMeans(uuid, tgt, cache[1..]);
      assert ListedAs(uuid, tgt, cache[0], ListedEntry(uuid, tgt, cache[0]));
      hide ListedAs, ListedEntry, IsConfig;
    }
  }

  /** The cache's own TGT is listed as the remembered one, real flags and all, but without its key. */
  lemma OwnTgtIsListedKeyless(d: Data, i: nat)
    requires Agrees(d) && i < |d.cache| && OwnTgt(d.principal, d.cache[i])
    ensures d.tgt.Some? && ListedWire(d.tgt, d.cache[i]) == Marshalled(d.tgt.value.cred.(key := []))
  {
  }

  /** Two entries that a listing client must not be able to tell apart. */
  predicate SameButForTgtKey(a: Cred, b: Cred) {
    a == b || (IsTGTServer(a.server) && a.(key := []) == b.(key := []))
  }

  /** Listed wires do not depend on the session key of any ticket-granting ticket. */
  lemma {:induction false} ListingHidesTgtKeys<U>(uuid: CredWire -> U, tgt: Option<Tgt>, tgt': Option<Tgt>,
                                                  a: seq<Cred>, b: seq<Cred>)
    requires tgt.Some? == tgt'.Some? && (tgt.Some? ==> tgt.value.cred.flags == tgt'.value.cred.flags)
    requires |a| == |b| && forall i :: 0 <= i < |a| ==> SameButForTgtKey(a[i], b[i])
    ensures |Entries(uuid, tgt, a)| == |Entries(uuid, tgt', b)|
    ensures forall i :: 0 <= i < |Entries(uuid, tgt, a)| ==>
              && Entries(uuid, tgt, a)[i].wire == Entries(uuid, tgt', b)[i].wire
              && Entries(uuid, tgt, a)[i].server == Entries(uuid, tgt', b)[i].server
  {
    if a != [] {
      forall i | 0 <= i < |a[1..]| ensures SameButForTgtKey(a[1..][i], b[1..][i]) {
        assert SameButForTgtKey(a[i + 1], b[i + 1]);
      }
      ListingHidesTgtKeys(uuid, tgt, tgt', a[1..], b[1..]);
      SameListing(uuid, tgt, tgt', a[0], b[0]);
      hide ListedEntry, IsConfig, SameButForTgtKey;
      var es, fs := Entries(uuid, tgt, a), Entries(uuid, tgt', b);
      var es', fs' := Entries(uuid, tgt, a[1..]), Entries(uuid, tgt', b[1..]);
      if !IsConfig(a[0].server) {
        assert forall i :: 1 <= i < |es| ==> es[i] == es'[i - 1] && fs[i] == fs'[i - 1];
      }
    }
  }

  lemma SameListing<U>(uuid: CredWire -> U, tgt: Option<Tgt>, tgt': Option<Tgt>, a: Cred, b: Cred)
    requires tgt.Some? == tgt'.Some? && (tgt.Some? ==> tgt.value.cred.flags == tgt'.value.cred.flags)
    requires SameButForTgtKey(a, b)
    ensures IsConfig(a.server) == IsConfig(b.server)
    ensures ListedEntry(uuid, tgt, a).wire == ListedEntry(uuid, tgt', b).wire
    ensures ListedEntry(uuid, tgt, a).server == ListedEntry(uuid, tgt', b).server
  {
    assert a.(key := []) == b.(key := []) ==> a.client == b.client && a.server == b.server && a.flags == b.flags;
  }
}
