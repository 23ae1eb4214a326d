/** The match-credential decoder against a reference encoder for MIT's k5_marshal_mcred layout
    (described in internal/kcmproto/match.go:5-16): every header, every list, every suffix. */
module MatchCodec {
  import opened Wire
  import opened Names
  import opened Matching

  /** Everything a client can put in a match-credential; `reserved` holds header bits above 0x0040. */
  datatype WireMatch = WireMatch(head: Head, fixed: Fixed, tail: Tail, reserved: nat)

  predicate WellFormed(w: WireMatch) { |w.fixed.times| == 4 && w.reserved < 0x200_0000 }

  function Bit(b: bool): (n: nat)
    ensures n < 2
  {
    if b then 1 else 0
  }

  function Pack(a: nat, b: nat, c: nat, d: nat, e: nat, f: nat, g: nat, r: nat): (h: uint32)
    requires a < 2 && b < 2 && c < 2 && d < 2 && e < 2 && f < 2 && g < 2 && r < 0x200_0000
  {
    a + 2 * (b + 2 * (c + 2 * (d + 2 * (e + 2 * (f + 2 * (g + 2 * r))))))
  }

  function Header(w: WireMatch): (h: uint32)
    requires WellFormed(w)
  {
    Pack(Bit(w.head.client.Some?), Bit(w.head.server.Some?), Bit(w.head.key.Some?),
         Bit(w.tail.ticket.Some?), Bit(w.tail.second.Some?), Bit(w.tail.authdata.Some?),
         Bit(w.tail.addresses.Some?), w.reserved)
  }

  function PutOptPrincipal(o: Option<Principal>): (out: Bytes) {
    if o.None? then [] else EncodePrincipal(o.value)
  }
  function PutTagged(t: Tagged): (out: Bytes) { PutUint16(t.tag) + PutCounted(t.data) }
  function PutOptKey(o: Option<Tagged>): (out: Bytes) { if o.None? then [] else PutTagged(o.value) }
  function PutOptCounted(o: Option<Bytes>): (out: Bytes) { if o.None? then [] else PutCounted(o.value) }
  function PutWords(ws: seq<uint32>): (out: Bytes) {
    if ws == [] then [] else PutUint32(ws[0]) + PutWords(ws[1..])
  }
  function PutMany(es: seq<Tagged>): (out: Bytes) {
    if es == [] then [] else PutTagged(es[0]) + PutMany(es[1..])
  }
  function PutOptList(o: Option<seq<Tagged>>): (out: Bytes) {
    if o.None? then [] else PutUint32(ToUint32(|o.value|)) + PutMany(o.value)
  }
  function PutHead(head: Head): (out: Bytes) {
    PutOptPrincipal(head.client) + (PutOptPrincipal(head.server) + PutOptKey(head.key))
  }
  function PutFixed(f: Fixed): (out: Bytes) { PutWords(f.times) + ([f.skey] + PutUint32(f.flags)) }
  function PutTail(t: Tail): (out: Bytes) {
    PutOptList(t.addresses) + (PutOptList(t.authdata) + (PutOptCounted(t.ticket) + PutOptCounted(t.second)))
  }
  function EncodeMatch(w: WireMatch): (out: Bytes)
    requires WellFormed(w)
  {
    PutUint32(Header(w)) + (PutHead(w.head) + (PutFixed(w.fixed) + PutTail(w.tail)))
  }

  /** The fields the daemon keeps of w. */
  function Retained(w: WireMatch): (mc: MatchCredential)
    requires WellFormed(w)
  {
    var Head(c, s, k) := w.head;
    var t, u := w.tail.ticket, w.tail.second;
    MatchCredential(
      c.Some?, if c.Some? then c.value else NO_PRINCIPAL,
      s.Some?, if s.Some? then s.value else NO_PRINCIPAL,
      k.Some?, if k.Some? then k.value.tag else 0, if k.Some? then k.value.data else [],
      ToInt32(w.fixed.times[0]), ToInt32(w.fixed.times[1]),
      ToInt32(w.fixed.times[2]), ToInt32(w.fixed.times[3]),
      w.fixed.skey != 0, w.fixed.flags,
      t.Some?, if t.Some? then t.value else [],
      u.Some?, if u.Some? then u.value else [])
  }

  // ---- Each field reads back, and stops where its encoding stops ----

  lemma HeaderBits(w: WireMatch)
    requires WellFormed(w)
    ensures HasClient(Header(w)) == w.head.client.Some? && HasServer(Header(w)) == w.head.server.Some?
    ensures HasKey(Header(w)) == w.head.key.Some? && HasTicket(Header(w)) == w.tail.ticket.Some?
    ensures HasSecond(Header(w)) == w.tail.second.Some? && HasAuthdata(Header(w)) == w.tail.authdata.Some?
    ensures HasAddresses(Header(w)) == w.tail.addresses.Some?
  {
    hide Pack, HasClient, HasServer, HasKey, HasTicket, HasSecond, HasAuthdata, HasAddresses;
    SevenBits(Bit(w.head.client.Some?), Bit(w.head.server.Some?), Bit(w.head.key.Some?),
              Bit(w.tail.ticket.Some?), Bit(w.tail.second.Some?), Bit(w.tail.authdata.Some?),
              Bit(w.tail.addresses.Some?), w.reserved);
  }

  lemma Halve(bit: nat, rest: nat)
    requires bit < 2
    ensures (bit + 2 * rest) % 2 == bit && (bit + 2 * rest) / 2 == rest
  {
  }

  lemma HalfOf(h: nat)
    ensures h / 4 == h / 2 / 2 && h / 8 == h / 2 / 4
    ensures h / 16 == h / 2 / 8 && h / 32 == h / 2 / 16 && h / 64 == h / 2 / 32
  {
  }

  lemma SevenBits(a: nat, b: nat, c: nat, d: nat, e: nat, f: nat, g: nat, r: nat)
    requires a < 2 && b < 2 && c < 2 && d < 2 && e < 2 && f < 2 && g < 2 && r < 0x200_0000
    ensures var h := Pack(a, b, c, d, e, f, g, r);
            && HasClient(h) == (a == 1) && HasServer(h) == (b == 1) && HasKey(h) == (c == 1)
            && HasTicket(h) == (d == 1) && HasSecond(h) == (e == 1)
            && HasAuthdata(h) == (f == 1) && HasAddresses(h) == (g == 1)
  {
    var h3 := d + 2 * (e + 2 * (f + 2 * (g + 2 * r)));
    ThreeBits(a, b, c, h3);
    ThreeBits(d, e, f, g + 2 * r);
    Halve(g, r);
    OctalShift(Pack(a, b, c, d, e, f, g, r));
  }

  lemma ThreeBits(a: nat, b: nat, c: nat, q: nat)
    requires a < 2 && b < 2 && c < 2
    ensures var h := a + 2 * (b + 2 * (c + 2 * q));
            h % 2 == a && h / 2 % 2 == b && h / 4 % 2 == c && h / 8 == q
  {
    var h := a + 2 * (b + 2 * (c + 2 * q));
    Halve(a, b + 2 * (c + 2 * q));
    Halve(b, c + 2 * q);
    Halve(c, q);
    HalfOf(h);
    HalfOf(h / 2);
  }

  lemma OctalShift(h: nat)
    ensures h / 16 == h / 8 / 2 && h / 32 == h / 8 / 4 && h / 64 == h / 8 / 8
  {
  }

  lemma TaggedRoundTrip(t: Tagged, suffix: Bytes)
    requires |PutTagged(t) + suffix| < TWO_32
    ensures ReadTagged(PutTagged(t) + suffix) == Got(t, suffix)
  {
    hide PutUint16, ReadUint16, PutCounted, ReadCounted;
    Assoc(PutUint16(t.tag), PutCounted(t.data), suffix);
    ReadAfterPut16(t.tag, PutCounted(t.data) + suffix);
    CountedLength(t.data);
    CountedRoundTrip(t.data, suffix);
  }

  lemma {:induction false} ManyRoundTrip(es: seq<Tagged>, suffix: Bytes)
    requires |PutMany(es) + suffix| < TWO_32
    ensures ReadMany(|es|, PutMany(es) + suffix) == Got(es, suffix)
    ensures |es| <= |PutMany(es)|
  {
    hide ReadTagged;
    if es == [] {
      assert PutMany(es) + suffix == suffix;
    } else {
      hide PutCounted;
      Assoc(PutTagged(es[0]), PutMany(es[1..]), suffix);
      TaggedRoundTrip(es[0], PutMany(es[1..]) + suffix);
      ManyRoundTrip(es[1..], suffix);
      assert [es[0]] + es[1..] == es;
    }
  }

  lemma OptListRoundTrip(o: Option<seq<Tagged>>, suffix: Bytes)
    requires |PutOptList(o) + suffix| < TWO_32
    ensures ReadOptList(o.Some?, PutOptList(o) + suffix) == Got(o, suffix)
  {
    hide PutUint32, ReadUint32, PutMany, ReadMany;
    if o.None? {
      assert [] + suffix == suffix;
    } else {
      var n := ToUint32(|o.value|);
      Assoc(PutUint32(n), PutMany(o.value), suffix);
      ReadAfterPut32(n, PutMany(o.value) + suffix);
      ManyRoundTrip(o.value, suffix);
    }
  }

  lemma OptPrincipalRoundTrip(o: Option<Principal>, suffix: Bytes)
    requires |PutOptPrincipal(o) + suffix| < TWO_32
    ensures ReadOptPrincipal(o.Some?, PutOptPrincipal(o) + suffix) == Got(o, suffix)
  {
    hide EncodePrincipal, DecodePrincipal;
    if o.None? {
      assert [] + suffix == suffix;
    } else {
      PrincipalRoundTrip(o.value, suffix);
    }
  }

  lemma OptKeyRoundTrip(o: Option<Tagged>, suffix: Bytes)
    requires |PutOptKey(o) + suffix| < TWO_32
    ensures ReadOptKey(o.Some?, PutOptKey(o) + suffix) == Got(o, suffix)
  {
    hide PutTagged, ReadTagged;
    if o.None? {
      assert [] + suffix == suffix;
    } else {
      TaggedRoundTrip(o.value, suffix);
    }
  }

  lemma OptCountedRoundTrip(o: Option<Bytes>, suffix: Bytes)
    requires |PutOptCounted(o) + suffix| < TWO_32
    ensures ReadOptCounted(o.Some?, PutOptCounted(o) + suffix) == Got(o, suffix)
  {
    hide PutCounted, ReadCounted;
    if o.None? {
      assert [] + suffix == suffix;
    } else {
      CountedLength(o.value);
      CountedRoundTrip(o.value, suffix);
    }
  }

  lemma {:induction false} WordsRoundTrip(ws: seq<uint32>, suffix: Bytes)
    ensures ReadWords(|ws|, PutWords(ws) + suffix) == Got(ws, suffix)
  {
    hide PutUint32, ReadUint32;
    if ws == [] {
      assert PutWords(ws) + suffix == suffix;
    } else {
      Assoc(PutUint32(ws[0]), PutWords(ws[1..]), suffix);
      ReadAfterPut32(ws[0], PutWords(ws[1..]) + suffix);
      WordsRoundTrip(ws[1..], suffix);
      assert [ws[0]] + ws[1..] == ws;
    }
  }

  lemma FixedRoundTrip(f: Fixed, suffix: Bytes)
    requires |f.times| == 4
    ensures ReadFixed(PutFixed(f) + suffix) == Got(f, suffix)
  {
    hide PutUint32, ReadUint32, PutWords, ReadWords;
    var flags := PutUint32(f.flags);
    Assoc(PutWords(f.times), [f.skey] + flags, suffix);
    Assoc([f.skey], flags, suffix);
    WordsRoundTrip(f.times, [f.skey] + (flags + suffix));
    assert ([f.skey] + (flags + suffix))[1..] == flags + suffix;
    ReadAfterPut32(f.flags, suffix);
  }

  lemma HeadRoundTrip(h: uint32, head: Head, suffix: Bytes)
    requires HasClient(h) == head.client.Some? && HasServer(h) == head.server.Some? && HasKey(h) == head.key.Some?
    requires |PutHead(head) + suffix| < TWO_32
    ensures ReadHead(h, PutHead(head) + suffix) == Got(head, suffix)
  {
    hide ReadOptPrincipal, ReadOptKey, PutOptPrincipal, PutOptKey, HasClient, HasServer, HasKey;
    var c, s, k := PutOptPrincipal(head.client), PutOptPrincipal(head.server), PutOptKey(head.key);
    Assoc(c, s + k, suffix);
    Assoc(s, k, suffix);
    OptPrincipalRoundTrip(head.client, s + (k + suffix));
    OptPrincipalRoundTrip(head.server, k + suffix);
    OptKeyRoundTrip(head.key, suffix);
  }

  lemma TailRoundTrip(h: uint32, tail: Tail, suffix: Bytes)
    requires HasAddresses(h) == tail.addresses.Some? && HasAuthdata(h) == tail.authdata.Some?
    requires HasTicket(h) == tail.ticket.Some? && HasSecond(h) == tail.second.Some?
    requires |PutTail(tail) + suffix| < TWO_32
    ensures ReadTail(h, PutTail(tail) + suffix) == Got(tail, suffix)
  {
    hide ReadOptList, ReadOptCounted, PutOptList, PutOptCounted;
    hide HasAddresses, HasAuthdata, HasTicket, HasSecond;
    var a, d := PutOptList(tail.addresses), PutOptList(tail.authdata);
    var t, u := PutOptCounted(tail.ticket), PutOptCounted(tail.second);
    Assoc(a, d + (t + u), suffix);
    Assoc(d, t + u, suffix);
    Assoc(t, u, suffix);
    OptListRoundTrip(tail.addresses, d + (t + (u + suffix)));
    OptListRoundTrip(tail.authdata, t + (u + suffix));
    OptCountedRoundTrip(tail.ticket, u + suffix);
    OptCountedRoundTrip(tail.second, suffix);
  }

  /** Every encoding decodes to exactly the retained fields and the decoder stops at its end,
      for all 128 header combinations, any reserved bits and arbitrary lists. */
  lemma MatchRoundTrip(w: WireMatch, suffix: Bytes)
    requires WellFormed(w) && |EncodeMatch(w) + suffix| < TWO_32
    ensures DecodeMatch(EncodeMatch(w) + suffix) == Got(Retained(w), suffix)
  {
    hide PutUint32, ReadUint32, PutHead, ReadHead, PutFixed, ReadFixed, PutTail, ReadTail, Header;
    var a, b, c, d := PutUint32(Header(w)), PutHead(w.head), PutFixed(w.fixed), PutTail(w.tail);
    Assoc(a, b + (c + d), suffix);
    Assoc(b, c + d, suffix);
    Assoc(c, d, suffix);
    HeaderBits(w);
    ReadAfterPut32(Header(w), b + (c + (d + suffix)));
    HeadRoundTrip(Header(w), w.head, c + (d + suffix));
    FixedRoundTrip(w.fixed, d + suffix);
    TailRoundTrip(Header(w), w.tail, suffix);
  }

  // ---- More input never changes a decoded field ----

  lemma TaggedExtends(body: Bytes, more: Bytes)
    requires ReadTagged(body).Got? && |body| + |more| < TWO_32
    ensures ReadTagged(body + more) == Got(ReadTagged(body).value, ReadTagged(body).rest + more)
  {
    hide ReadUint16, ReadCounted;
    Uint16Extends(body, more);
    CountedExtends(ReadUint16(body).rest, more);
  }

  lemma {:induction false} ManyExtends(n: nat, body: Bytes, more: Bytes)
    requires ReadMany(n, body).Got? && |body| + |more| < TWO_32
    ensures ReadMany(n, body + more) == Got(ReadMany(n, body).value, ReadMany(n, body).rest + more)
  {
    hide ReadTagged;
    if n != 0 {
      TaggedExtends(body, more);
      ManyExtends(n - 1, ReadTagged(body).rest, more);
    }
  }

  lemma OptListExtends(present: bool, body: Bytes, more: Bytes)
    requires ReadOptList(present, body).Got? && |body| + |more| < TWO_32
    ensures ReadOptList(present, body + more) ==
            Got(ReadOptList(present, body).value, ReadOptList(present, body).rest + more)
  {
    hide ReadUint32, ReadMany;
    if present {
      Uint32Extends(body, more);
      ManyExtends(ReadUint32(body).value, ReadUint32(body).rest, more);
    }
  }

  lemma {:induction false} WordsExtend(n: nat, body: Bytes, more: Bytes)
    requires ReadWords(n, body).Got?
    ensures ReadWords(n, body + more) == Got(ReadWords(n, body).value, ReadWords(n, body).rest + more)
    ensures |ReadWords(n, body).rest| <= |body|
  {
    hide ReadUint32;
    if n != 0 {
      Uint32Extends(body, more);
      WordsExtend(n - 1, ReadUint32(body).rest, more);
    }
  }

  lemma FixedExtends(body: Bytes, more: Bytes)
    requires ReadFixed(body).Got?
    ensures ReadFixed(body + more) == Got(ReadFixed(body).value, ReadFixed(body).rest + more)
    ensures |ReadFixed(body).rest| <= |body|
  {
    hide ReadUint32, ReadWords;
    WordsExtend(4, body, more);
    var rest := ReadWords(4, body).rest;
    assert (rest + more)[1..] == rest[1..] + more;
    Uint32Extends(rest[1..], more);
  }

  lemma HeadExtends(h: uint32, body: Bytes, more: Bytes)
    requires ReadHead(h, body).Got? && |body| + |more| < TWO_32
    ensures ReadHead(h, body + more) == Got(ReadHead(h, body).value, ReadHead(h, body).rest + more)
    ensures |ReadHead(h, body).rest| <= |body|
  {
    hide DecodePrincipal, ReadTagged, HasClient, HasServer, HasKey;
    if HasClient(h) { PrincipalExtends(body, more); }
    var rest := ReadOptPrincipal(HasClient(h), body).rest;
    if HasServer(h) { PrincipalExtends(rest, more); }
    var rest' := ReadOptPrincipal(HasServer(h), rest).rest;
    if HasKey(h) { TaggedExtends(rest', more); }
  }

  lemma TailExtends(h: uint32, body: Bytes, more: Bytes)
    requires ReadTail(h, body).Got? && |body| + |more| < TWO_32
    ensures ReadTail(h, body + more) == Got(ReadTail(h, body).value, ReadTail(h, body).rest + more)
  {
    hide ReadCounted, ReadOptList, HasAddresses, HasAuthdata, HasTicket, HasSecond;
    OptListExtends(HasAddresses(h), body, more);
    var r1 := ReadOptList(HasAddresses(h), body).rest;
    OptListExtends(HasAuthdata(h), r1, more);
    var r2 := ReadOptList(HasAuthdata(h), r1).rest;
    if HasTicket(h) { CountedExtends(r2, more); }
    var r3 := ReadOptCounted(HasTicket(h), r2).rest;
    if HasSecond(h) { CountedExtends(r3, more); }
  }

  lemma MatchExtends(body: Bytes, more: Bytes)
    requires DecodeMatch(body).Got? && |body| + |more| < TWO_32
    ensures DecodeMatch(body + more) == Got(DecodeMatch(body).value, DecodeMatch(body).rest + more)
  {
    hide ReadUint32, ReadHead, ReadFixed, ReadTail, HeadMatch, WithFixed, WithTail;
    var h := ReadUint32(body);
    Uint32Extends(body, more);
    HeadExtends(h.value, h.rest, more);
    var head := ReadHead(h.value, h.rest);
    FixedExtends(head.rest, more);
    TailExtends(h.value, ReadFixed(head.rest).rest, more);
  }

  /** No strict prefix of an encoding is accepted: a cut-off request is always an error,
      never a different request. */
  lemma StrictPrefixRejected(w: WireMatch, cut: nat)
    requires WellFormed(w) && cut < |EncodeMatch(w)| < TWO_32
    ensures DecodeMatch(EncodeMatch(w)[..cut]).Truncated?
  {
    hide EncodeMatch, DecodeMatch;
    var whole := EncodeMatch(w);
    var head, more := whole[..cut], whole[cut..];
    assert whole == head + more && whole + [] == whole;
    MatchRoundTrip(w, []);
    if DecodeMatch(head).Got? {
      MatchExtends(head, more);
    }
  }
}
