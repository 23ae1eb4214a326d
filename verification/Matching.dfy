/** The sparse match-credential of KCM_OP_RETRIEVE and KCM_OP_REMOVE_CRED
    (internal/kcmproto/match.go): a header bitmask, then only the fields it announces. */
module Matching {
  import opened Wire
  import opened Names

  datatype MatchCredential = MatchCredential(
    hasClient: bool, client: Principal,
    hasServer: bool, server: Principal,
    hasSessionKey: bool, keyType: int32, keyData: Bytes,
    authTime: int32, startTime: int32, endTime: int32, renewTill: int32,
    isSKey: bool, ticketFlags: uint32,
    hasTicket: bool, ticket: Bytes,
    hasSecondTicket: bool, secondTicket: Bytes)

  const EMPTY_MATCH := MatchCredential(
    false, NO_PRINCIPAL, false, NO_PRINCIPAL, false, 0, [], 0, 0, 0, 0, false, 0, false, [], false, [])

  // ---- Header bits ----

  predicate HasClient(h: uint32) { h % 2 == 1 }            // 0x0001
  predicate HasServer(h: uint32) { h / 2 % 2 == 1 }        // 0x0002
  predicate HasKey(h: uint32) { h / 4 % 2 == 1 }           // 0x0004
  predicate HasTicket(h: uint32) { h / 8 % 2 == 1 }        // 0x0008
  predicate HasSecond(h: uint32) { h / 16 % 2 == 1 }       // 0x0010
  predicate HasAuthdata(h: uint32) { h / 32 % 2 == 1 }     // 0x0020
  predicate HasAddresses(h: uint32) { h / 64 % 2 == 1 }    // 0x0040

  // ---- Fields ----

  /** A type tag and its bytes: a session key, one address or one authdata element. */
  datatype Tagged = Tagged(tag: uint16, data: Bytes)

  /** The part every match-credential has: authtime, starttime, endtime, renew_till, is_skey, flags. */
  datatype Fixed = Fixed(times: seq<uint32>, skey: byte, flags: uint32)

  function ReadOptPrincipal(present: bool, body: Bytes): (r: Read<Option<Principal>>) {
    if !present then Got(None, body) else
    var (p, rest) :- DecodePrincipal(body);
    Got(Some(p), rest)
  }

  function ReadTagged(body: Bytes): (r: Read<Tagged>)
    ensures r.Got? ==> |r.rest| <= |body|
  {
    var (tag, rest) :- ReadUint16(body);
    var (data, rest) :- ReadCounted(rest);
    Got(Tagged(tag, data), rest)
  }

  function ReadOptKey(present: bool, body: Bytes): (r: Read<Option<Tagged>>) {
    if !present then Got(None, body) else
    var (k, rest) :- ReadTagged(body);
    Got(Some(k), rest)
  }

  function ReadByte(body: Bytes): (r: Read<byte>)
    ensures r.Got? <==> |body| >= 1
    ensures r.Got? ==> r.rest == body[1..]
  {
    if |body| < 1 then Truncated else Got(body[0], body[1..])
  }

  function ReadWords(n: nat, body: Bytes): (r: Read<seq<uint32>>)
    ensures r.Got? ==> |r.value| == n
  {
    if n == 0 then Got([], body) else
    var (v, rest) :- ReadUint32(body);
    var (vs, rest) :- ReadWords(n - 1, rest);
    Got([v] + vs, rest)
  }

  function ReadFixed(body: Bytes): (r: Read<Fixed>)
    ensures r.Got? ==> |r.value.times| == 4
  {
    var (times, rest) :- ReadWords(4, body);
    var (skey, rest) :- ReadByte(rest);
    var (flags, rest) :- ReadUint32(rest);
    Got(Fixed(times, skey, flags), rest)
  }

  function ReadMany(n: nat, body: Bytes): (r: Read<seq<Tagged>>)
    ensures r.Got? ==> |r.rest| <= |body|
  {
    if n == 0 then Got([], body) else
    var (e, rest) :- ReadTagged(body);
    var (es, rest) :- ReadMany(n - 1, rest);
    Got([e] + es, rest)
  }

  function ReadOptList(present: bool, body: Bytes): (r: Read<Option<seq<Tagged>>>)
    ensures r.Got? ==> |r.rest| <= |body|
  {
    if !present then Got(None, body) else
    var (n, rest) :- ReadUint32(body);
    var (es, rest) :- ReadMany(n, rest);
    Got(Some(es), rest)
  }

  function ReadOptCounted(present: bool, body: Bytes): (r: Read<Option<Bytes>>) {
    if !present then Got(None, body) else
    var (data, rest) :- ReadCounted(body);
    Got(Some(data), rest)
  }

  /** The optional fields before the fixed part. */
  datatype Head = Head(client: Option<Principal>, server: Option<Principal>, key: Option<Tagged>)

  /** The optional fields after it. */
  datatype Tail = Tail(addresses: Option<seq<Tagged>>, authdata: Option<seq<Tagged>>,
                       ticket: Option<Bytes>, second: Option<Bytes>)

  function ReadHead(h: uint32, body: Bytes): (r: Read<Head>) {
    var (c, rest) :- ReadOptPrincipal(HasClient(h), body);
    var (s, rest) :- ReadOptPrincipal(HasServer(h), rest);
    var (k, rest) :- ReadOptKey(HasKey(h), rest);
    Got(Head(c, s, k), rest)
  }

  function ReadTail(h: uint32, body: Bytes): (r: Read<Tail>) {
    var (a, rest) :- ReadOptList(HasAddresses(h), body);
    var (d, rest) :- ReadOptList(HasAuthdata(h), rest);
    var (t, rest) :- ReadOptCounted(HasTicket(h), rest);
    var (u, rest) :- ReadOptCounted(HasSecond(h), rest);
    Got(Tail(a, d, t, u), rest)
  }

  function HeadMatch(head: Head): (mc: MatchCredential) {
    var c, s, k := head.client, head.server, head.key;
    EMPTY_MATCH.(
      hasClient := c.Some?, client := if c.Some? then c.value else NO_PRINCIPAL,
      hasServer := s.Some?, server := if s.Some? then s.value else NO_PRINCIPAL,
      hasSessionKey := k.Some?, keyType := if k.Some? then k.value.tag else 0,
      keyData := if k.Some? then k.value.data else [])
  }

  function WithFixed(mc: MatchCredential, f: Fixed): (mc': MatchCredential)
    requires |f.times| == 4
  {
    mc.(authTime := ToInt32(f.times[0]), startTime := ToInt32(f.times[1]),
        endTime := ToInt32(f.times[2]), renewTill := ToInt32(f.times[3]),
        isSKey := f.skey != 0, ticketFlags := f.flags)
  }

  function WithTail(mc: MatchCredential, tail: Tail): (mc': MatchCredential) {
    var t, u := tail.ticket, tail.second;
    var mc' := if t.Some? then mc.(hasTicket := true, ticket := t.value) else mc;
    if u.Some? then mc'.(hasSecondTicket := true, secondTicket := u.value) else mc'
  }

  function DecodeMatch(body: Bytes): (r: Read<MatchCredential>) {
    var (h, rest) :- ReadUint32(body);
    var (head, rest) :- ReadHead(h, rest);
    var (f, rest) :- ReadFixed(rest);
    var (tail, rest) :- ReadTail(h, rest);
    Got(WithTail(WithFixed(HeadMatch(head), f), tail), rest)
  }

  // ---- The decoder as written: one cursor moved over the body ----

  lemma ReadManyStep(n: nat, body: Bytes)
    requires n > 0
    ensures ReadMany(n, body).Got? <==>
            ReadTagged(body).Got? && ReadMany(n - 1, ReadTagged(body).rest).Got?
    ensures ReadMany(n, body).Got? ==>
              ReadMany(n, body).rest == ReadMany(n - 1, ReadTagged(body).rest).rest
  {
  }

  method SkipAddressOrAuthdataList(body: Bytes) returns (r: Option<Bytes>)
    ensures r == match ReadOptList(true, body) case Truncated => None case Got(_, rest) => Some(rest)
  {
    hide ReadUint32, ReadUint16, ReadCounted;
    var count := ReadUint32(body);
    if count.Truncated? { return None; }
    var rest := count.rest;
    ghost var all := ReadMany(count.value, rest);
    var i := 0;
    while i < count.value
      invariant 0 <= i <= count.value
      invariant all.Got? <==> ReadMany(count.value - i, rest).Got?
      invariant all.Got? ==> all.rest == ReadMany(count.value - i, rest).rest
    {
      ReadManyStep(count.value - i, rest);
      var tag := ReadUint16(rest);
      if tag.Truncated? { return None; }
      CountedParts(tag.rest);
      var n := ReadUint32(tag.rest);
      if n.Truncated? { return None; }
      if ToUint32(|n.rest|) < n.value { return None; }
      rest := n.rest[n.value..];
      i := i + 1;
    }
    return Some(rest);
  }

  lemma ReadWordsStep(done: seq<uint32>, n: nat, body: Bytes)
    requires n > 0
    ensures ReadWords(n, body).Got? <==>
            ReadUint32(body).Got? && ReadWords(n - 1, ReadUint32(body).rest).Got?
    ensures ReadWords(n, body).Got? ==>
              var tail := ReadWords(n - 1, ReadUint32(body).rest);
              && done + ReadWords(n, body).value == done + [ReadUint32(body).value] + tail.value
              && ReadWords(n, body).rest == tail.rest
  {
  }

  /** The always-present middle of the decoder: the loop over four times, is_skey, ticket flags. */
  method UnmarshalFixed(body: Bytes) returns (r: Option<(Fixed, Bytes)>)
    ensures r == match ReadFixed(body) case Truncated => None case Got(f, rest) => Some((f, rest))
  {
    hide ReadUint32;
    var times: seq<uint32> := [];
    var rest := body;
    ghost var all := ReadWords(4, body);
    for i := 0 to 4
      invariant |times| == i
      invariant all.Got? <==> ReadWords(4 - i, rest).Got?
      invariant all.Got? ==>
                  && all.value == times + ReadWords(4 - i, rest).value
                  && all.rest == ReadWords(4 - i, rest).rest
    {
      ReadWordsStep(times, 4 - i, rest);
      var v := ReadUint32(rest);
      if v.Truncated? { return None; }
      times := times + [v.value];
      rest := v.rest;
    }
    assert times + [] == times;
    if |rest| < 1 { return None; }
    var skey := rest[0];
    rest := rest[1..];
    var flags := ReadUint32(rest);
    if flags.Truncated? { return None; }
    return Some((Fixed(times, skey, flags.value), flags.rest));
  }

  /** The first section of the decoder: client, server and session key into mc. */
  method UnmarshalHead(h: uint32, body: Bytes) returns (r: Option<(MatchCredential, Bytes)>)
    ensures r == match ReadHead(h, body)
                 case Truncated => None
                 case Got(head, rest) => Some((HeadMatch(head), rest))
  {
    hide ReadUint32, ReadUint16, ReadCounted, DecodePrincipal;
    hide HasClient, HasServer, HasKey, ToInt32;
    var mc := EMPTY_MATCH;
    var rest := body;
    ghost var c := ReadOptPrincipal(HasClient(h), rest);
    if HasClient(h) {
      var p, n := UnmarshalPrincipal(rest);
      if p.None? { return None; }
      mc := mc.(hasClient := true, client := p.value);
      PrincipalRest(rest);
      rest := rest[n..];
    }
    assert c.Got? && rest == c.rest;
    ghost var s := ReadOptPrincipal(HasServer(h), rest);
    if HasServer(h) {
      var p, n := UnmarshalPrincipal(rest);
      if p.None? { return None; }
      mc := mc.(hasServer := true, server := p.value);
      PrincipalRest(rest);
      rest := rest[n..];
    }
    assert s.Got? && rest == s.rest;
    if HasKey(h) {
      var enctype := ReadUint16(rest);
      if enctype.Truncated? { return None; }
      CountedParts(enctype.rest);
      var keylen := ReadUint32(enctype.rest);
      if keylen.Truncated? { return None; }
      if ToUint32(|keylen.rest|) < keylen.value { return None; }
      mc := mc.(hasSessionKey := true, keyType := enctype.value, keyData := keylen.rest[..keylen.value]);
      rest := keylen.rest[keylen.value..];
    }
    return Some((mc, rest));
  }

  /** The last section: skip addresses and authdata, keep the two tickets. */
  method UnmarshalTail(h: uint32, start: MatchCredential, body: Bytes) returns (r: Option<MatchCredential>)
    ensures r == match ReadTail(h, body)
                 case Truncated => None
                 case Got(tail, _) => Some(WithTail(start, tail))
  {
    hide ReadUint32, ReadCounted, ReadMany;
    hide HasAddresses, HasAuthdata, HasTicket, HasSecond;
    var mc := start;
    var rest := body;
    ghost var a := ReadOptList(HasAddresses(h), rest);
    if HasAddresses(h) {
      var left := SkipAddressOrAuthdataList(rest);
      if left.None? { return None; }
      rest := left.value;
    }
    assert a.Got? && rest == a.rest;
    ghost var d := ReadOptList(HasAuthdata(h), rest);
    if HasAuthdata(h) {
      var left := SkipAddressOrAuthdataList(rest);
      if left.None? { return None; }
      rest := left.value;
    }
    assert d.Got? && rest == d.rest;
    ghost var t := ReadOptCounted(HasTicket(h), rest);
    if HasTicket(h) {
      CountedParts(rest);
      var n := ReadUint32(rest);
      if n.Truncated? { return None; }
      if ToUint32(|n.rest|) < n.value { return None; }
      mc := mc.(hasTicket := true, ticket := n.rest[..n.value]);
      rest := n.rest[n.value..];
    }
    assert t.Got? && rest == t.rest;
    if HasSecond(h) {
      CountedParts(rest);
      var n := ReadUint32(rest);
      if n.Truncated? { return None; }
      if ToUint32(|n.rest|) < n.value { return None; }
      mc := mc.(hasSecondTicket := true, secondTicket := n.rest[..n.value]);
      rest := n.rest[n.value..];
    }
    return Some(mc);
  }

  method UnmarshalMatchCredential(body: Bytes) returns (r: Option<MatchCredential>)
    ensures r == match DecodeMatch(body) case Truncated => None case Got(mc, _) => Some(mc)
  {
    hide ReadUint32, ReadHead, ReadFixed, ReadTail;
    var header := ReadUint32(body);
    if header.Truncated? { return None; }
    var head := UnmarshalHead(header.value, header.rest);
    if head.None? { return None; }
    var f := UnmarshalFixed(head.value.1);
    if f.None? { return None; }
    r := UnmarshalTail(header.value, WithFixed(head.value.0, f.value.0), f.value.1);
  }

  /** The unread part of a body is its tail, so advancing by the consumed count reaches it. */
  lemma PrincipalRest(body: Bytes)
    requires DecodePrincipal(body).Got?
    ensures DecodePrincipal(body).rest == body[|body| - |DecodePrincipal(body).rest|..]
  {
    hide EncodePrincipal, DecodePrincipal;
    PrincipalConverse(body);
  }
}
