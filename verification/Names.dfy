/** Principal names: the wire form and the text form (internal/kcmproto/principal.go). */
module Names {
  import opened Wire

  /** `ntype` is the Kerberos name type, which both text form and name comparison ignore. */
  datatype Principal = Principal(ntype: int32, realm: Bytes, components: seq<Bytes>)

  const NO_PRINCIPAL := Principal(0, [], [])

  // ---- Wire form ----

  function EncodeComponents(cs: seq<Bytes>): (out: Bytes) {
    if cs == [] then [] else PutCounted(cs[0]) + EncodeComponents(cs[1..])
  }

  function EncodePrincipal(p: Principal): (out: Bytes) {
    PutUint32(ToUint32(p.ntype)) + PutUint32(ToUint32(|p.components|)) +
    PutCounted(p.realm) + EncodeComponents(p.components)
  }

  function ReadComponents(n: nat, body: Bytes): (r: Read<seq<Bytes>>)
    ensures r.Got? ==> |r.rest| <= |body| && |r.value| == n
  {
    if n == 0 then Got([], body) else
    var (c, rest) :- ReadCounted(body);
    var (cs, rest) :- ReadComponents(n - 1, rest);
    Got([c] + cs, rest)
  }

  function DecodePrincipal(body: Bytes): (r: Read<Principal>)
    ensures r.Got? ==> |r.rest| <= |body|
  {
    var (ntype, rest) :- ReadUint32(body);
    var (count, rest) :- ReadUint32(rest);
    var (realm, rest) :- ReadCounted(rest);
    var (comps, rest) :- ReadComponents(count, rest);
    Got(Principal(ToInt32(ntype), realm, comps), rest)
  }

  /** Every length of p is representable in its 32-bit length field. */
  predicate Fits(p: Principal) {
    && |p.components| < TWO_32 && |p.realm| < TWO_32
    && forall i :: 0 <= i < |p.components| ==> |p.components[i]| < TWO_32
  }

  lemma EncodeComponentsSnoc(cs: seq<Bytes>, c: Bytes)
    ensures EncodeComponents(cs + [c]) == EncodeComponents(cs) + PutCounted(c)
  {
    if cs == [] {
      assert [c][1..] == [];
      assert cs + [c] == [c];
    } else {
      assert (cs + [c])[1..] == cs[1..] + [c];
      EncodeComponentsSnoc(cs[1..], c);
    }
  }

  method MarshalPrincipal(p: Principal) returns (out: Bytes)
    ensures out == EncodePrincipal(p)
  {
    hide PutUint32, BigEndian;
    out := PutUint32(ToUint32(p.ntype));
    out := out + PutUint32(ToUint32(|p.components|));
    out := out + PutUint32(ToUint32(|p.realm|));
    out := out + p.realm;
    ghost var head := out;
    for i := 0 to |p.components|
      invariant out == head + EncodeComponents(p.components[..i])
    {
      var c := p.components[i];
      EncodeComponentsSnoc(p.components[..i], c);
      assert p.components[..i + 1] == p.components[..i] + [c];
      out := out + PutUint32(ToUint32(|c|));
      out := out + c;
    }
    assert p.components[..|p.components|] == p.components;
  }

  /** Reading n components is reading i of them and then the others. */
  lemma ReadComponentsSplit(done: seq<Bytes>, n: nat, body: Bytes)
    requires n > 0
    ensures ReadComponents(n, body).Got? <==>
            ReadCounted(body).Got? && ReadComponents(n - 1, ReadCounted(body).rest).Got?
    ensures ReadComponents(n, body).Got? ==>
              var tail := ReadComponents(n - 1, ReadCounted(body).rest);
              && done + ReadComponents(n, body).value == done + [ReadCounted(body).value] + tail.value
              && ReadComponents(n, body).rest == tail.rest
  {
  }

  method UnmarshalPrincipal(body: Bytes) returns (r: Option<Principal>, n: nat)
    ensures r == match DecodePrincipal(body) case Truncated => None case Got(p, _) => Some(p)
    ensures r.Some? ==> n == |body| - |DecodePrincipal(body).rest|
    ensures r.None? ==> n == 0
  {
    hide ReadCounted, ReadUint32;
    var first := ReadUint32(body);
    if first.Truncated? { return None, 0; }
    var second := ReadUint32(first.rest);
    if second.Truncated? { return None, 0; }
    CountedParts(second.rest);
    var third := ReadUint32(second.rest);
    if third.Truncated? { return None, 0; }
    var rest := third.rest;
    if ToUint32(|rest|) < third.value { return None, 0; }
    var realm := rest[..third.value];
    rest := rest[third.value..];
    ghost var all := ReadComponents(second.value, rest);

    var comps: seq<Bytes> := [];
    var i := 0;
    while i < second.value
      invariant 0 <= i <= second.value && |rest| <= |body|
      invariant all.Got? <==> ReadComponents(second.value - i, rest).Got?
      invariant all.Got? ==>
                  && all.value == comps + ReadComponents(second.value - i, rest).value
                  && all.rest == ReadComponents(second.value - i, rest).rest
    {
      CountedParts(rest);
      ReadComponentsSplit(comps, second.value - i, rest);
      var clen := ReadUint32(rest);
      if clen.Truncated? { return None, 0; }
      rest := clen.rest;
      if ToUint32(|rest|) < clen.value { return None, 0; }
      comps := comps + [rest[..clen.value]];
      rest := rest[clen.value..];
      i := i + 1;
    }
    assert comps + [] == comps;
    assert all == Got(comps, rest);
    return Some(Principal(ToInt32(first.value), realm, comps)), |body| - |rest|;
  }

  lemma {:induction false} ComponentsRoundTrip(cs: seq<Bytes>, suffix: Bytes)
    requires |EncodeComponents(cs) + suffix| < TWO_32
    ensures ReadComponents(|cs|, EncodeComponents(cs) + suffix) == Got(cs, suffix)
  {
    hide PutCounted, ReadCounted;
    if cs == [] {
      assert EncodeComponents(cs) + suffix == suffix;
    } else {
      var tail := EncodeComponents(cs[1..]) + suffix;
      Assoc(PutCounted(cs[0]), EncodeComponents(cs[1..]), suffix);
      CountedLength(cs[0]);
      CountedRoundTrip(cs[0], tail);
      ComponentsRoundTrip(cs[1..], suffix);
      assert [cs[0]] + cs[1..] == cs;
    }
  }

  lemma {:induction false} ComponentsConverse(n: nat, body: Bytes)
    requires ReadComponents(n, body).Got?
    ensures body == EncodeComponents(ReadComponents(n, body).value) + ReadComponents(n, body).rest
    ensures forall i :: 0 <= i < n ==> |ReadComponents(n, body).value[i]| < TWO_32
  {
    hide PutCounted, ReadCounted;
    var r := ReadComponents(n, body);
    if n != 0 {
      CountedConverse(body);
      var c := ReadCounted(body);
      ComponentsConverse(n - 1, c.rest);
      assert r.value[1..] == ReadComponents(n - 1, c.rest).value;
      Assoc(PutCounted(c.value), EncodeComponents(r.value[1..]), r.rest);
      assert forall i :: 1 <= i < n ==> r.value[i] == ReadComponents(n - 1, c.rest).value[i - 1];
    }
  }

  lemma PrincipalLayout(p: Principal, suffix: Bytes)
    ensures EncodePrincipal(p) + suffix ==
            PutUint32(ToUint32(p.ntype)) + (PutUint32(ToUint32(|p.components|)) +
            (PutCounted(p.realm) + (EncodeComponents(p.components) + suffix)))
  {
    hide PutCounted, ReadCounted, PutUint32, ReadUint32;
    var a, b := PutUint32(ToUint32(p.ntype)), PutUint32(ToUint32(|p.components|));
    var c, d := PutCounted(p.realm), EncodeComponents(p.components);
    Assoc(a + b + c, d, suffix);
    Assoc(a + b, c, d + suffix);
    Assoc(a, b, c + (d + suffix));
  }

  /** Decoding what was encoded gives the principal back and stops at the suffix.
      The total stays under 2^32 bytes, as the one-mebibyte message limit ensures. */
  lemma PrincipalRoundTrip(p: Principal, suffix: Bytes)
    requires |EncodePrincipal(p) + suffix| < TWO_32
    ensures DecodePrincipal(EncodePrincipal(p) + suffix) == Got(p, suffix)
  {
    hide PutCounted, ReadCounted, PutUint32, ReadUint32;
    var d := EncodeComponents(p.components) + suffix;
    var c := PutCounted(p.realm) + d;
    var b := PutUint32(ToUint32(|p.components|)) + c;
    PrincipalLayout(p, suffix);
    Int32RoundTrip(p.ntype);
    CountedLength(p.realm);
    ComponentsCount(p.components);
    ReadAfterPut32(ToUint32(p.ntype), b);
    ReadAfterPut32(ToUint32(|p.components|), c);
    CountedRoundTrip(p.realm, d);
    ComponentsRoundTrip(p.components, suffix);
  }

  /** The byte form of a@RS with name type 1: type, number of components, realm, component. */
  lemma PrincipalBytes()
    ensures EncodePrincipal(Principal(1, [0x52, 0x53], [[0x61]])) ==
            [0, 0, 0, 1] + [0, 0, 0, 1] + [0, 0, 0, 2, 0x52, 0x53] + [0, 0, 0, 1, 0x61]
  {
    assert [[0x61]][1..] == [];
    assert EncodeComponents([[0x61]]) == [0, 0, 0, 1, 0x61];
  }

  lemma ComponentsCount(cs: seq<Bytes>)
    ensures |cs| <= |EncodeComponents(cs)|
  {
  }

  /** Whatever decodes is exactly the encoding of its result followed by the rest,
      so the wire form is a bijection with the principals that fit it. */
  lemma PrincipalConverse(body: Bytes)
    requires DecodePrincipal(body).Got?
    ensures body == EncodePrincipal(DecodePrincipal(body).value) + DecodePrincipal(body).rest
    ensures Fits(DecodePrincipal(body).value)
  {
    hide PutCounted, ReadCounted, PutUint32, ReadUint32;
    PutAfterRead32(body);
    var a := ReadUint32(body);
    PutAfterRead32(a.rest);
    var b := ReadUint32(a.rest);
    CountedConverse(b.rest);
    var c := ReadCounted(b.rest);
    ComponentsConverse(b.value, c.rest);
    var r := DecodePrincipal(body);
    assert ToUint32(r.value.ntype) == a.value && ToUint32(|r.value.components|) == b.value;
    PrincipalLayout(r.value, r.rest);
  }

  /** A name that does not fit its length fields never survives, whatever follows it. */
  lemma OversizeNeverSurvives(p: Principal, suffix: Bytes)
    requires !Fits(p)
    ensures DecodePrincipal(EncodePrincipal(p) + suffix) != Got(p, suffix)
  {
    if DecodePrincipal(EncodePrincipal(p) + suffix) == Got(p, suffix) {
      PrincipalConverse(EncodePrincipal(p) + suffix);
    }
  }

  lemma {:induction false} ComponentsExtend(n: nat, body: Bytes, more: Bytes)
    requires ReadComponents(n, body).Got? && |body| + |more| < TWO_32
    ensures ReadComponents(n, body + more) ==
            Got(ReadComponents(n, body).value, ReadComponents(n, body).rest + more)
  {
    hide PutCounted, ReadCounted;
    if n != 0 {
      CountedExtends(body, more);
      ComponentsExtend(n - 1, ReadCounted(body).rest, more);
    }
  }

  lemma PrincipalExtends(body: Bytes, more: Bytes)
    requires DecodePrincipal(body).Got? && |body| + |more| < TWO_32
    ensures DecodePrincipal(body + more) ==
            Got(DecodePrincipal(body).value, DecodePrincipal(body).rest + more)
  {
    hide PutCounted, ReadCounted, PutUint32, ReadUint32;
    var a := ReadUint32(body);
    var b := ReadUint32(a.rest);
    var c := ReadCounted(b.rest);
    Uint32Extends(body, more);
    Uint32Extends(a.rest, more);
    CountedExtends(b.rest, more);
    ComponentsExtend(b.value, c.rest, more);
  }

  // ---- Text form ----

  const NUL: byte := 0
  const BS: byte := 8           // '\b'
  const TAB: byte := 9
  const NL: byte := 10
  const SLASH: byte := 0x2f
  const DIGIT_0: byte := 0x30
  const AT: byte := 0x40
  const BACKSLASH: byte := 0x5c
  const LOWER_B: byte := 0x62
  const LOWER_N: byte := 0x6e
  const LOWER_T: byte := 0x74

  function Quote(c: byte): (q: Bytes) {
    if c == BACKSLASH || c == SLASH || c == AT then [BACKSLASH, c]
    else if c == TAB then [BACKSLASH, LOWER_T]
    else if c == NL then [BACKSLASH, LOWER_N]
    else if c == BS then [BACKSLASH, LOWER_B]
    else if c == NUL then [BACKSLASH, DIGIT_0]
    else [c]
  }

  function Escape(s: Bytes): (out: Bytes) {
    if s == [] then [] else Quote(s[0]) + Escape(s[1..])
  }

  function JoinEscaped(cs: seq<Bytes>): (out: Bytes) {
    if cs == [] then []
    else if |cs| == 1 then Escape(cs[0])
    else Escape(cs[0]) + [SLASH] + JoinEscaped(cs[1..])
  }

  function Text(p: Principal): (out: Bytes) {
    JoinEscaped(p.components) + if p.realm == [] then [] else [AT] + Escape(p.realm)
  }

  lemma EscapeSnoc(s: Bytes, c: byte)
    ensures Escape(s + [c]) == Escape(s) + Quote(c)
  {
    if s == [] {
      assert s + [c] == [c] && [c][1..] == [];
    } else {
      assert (s + [c])[1..] == s[1..] + [c];
      EscapeSnoc(s[1..], c);
    }
  }

  lemma JoinSnoc(cs: seq<Bytes>, c: Bytes)
    ensures JoinEscaped(cs + [c]) ==
            if cs == [] then Escape(c) else JoinEscaped(cs) + [SLASH] + Escape(c)
  {
    if cs == [] {
      assert cs + [c] == [c];
    } else {
      assert (cs + [c])[1..] == cs[1..] + [c];
      JoinSnoc(cs[1..], c);
    }
  }

  method EscapeComponent(s: Bytes) returns (out: Bytes)
    ensures out == Escape(s)
  {
    out := [];
    for i := 0 to |s|
      invariant out == Escape(s[..i])
    {
      var c := s[i];
      EscapeSnoc(s[..i], c);
      assert s[..i + 1] == s[..i] + [c];
      if c == BACKSLASH || c == SLASH || c == AT {
        out := out + [BACKSLASH, c];
      } else if c == TAB {
        out := out + [BACKSLASH, LOWER_T];
      } else if c == NL {
        out := out + [BACKSLASH, LOWER_N];
      } else if c == BS {
        out := out + [BACKSLASH, LOWER_B];
      } else if c == NUL {
        out := out + [BACKSLASH, DIGIT_0];
      } else {
        out := out + [c];
      }
    }
    assert s[..|s|] == s;
  }

  method UnparseName(p: Principal) returns (out: Bytes)
    ensures out == Text(p)
  {
    out := [];
    for i := 0 to |p.components|
      invariant out == JoinEscaped(p.components[..i])
    {
      JoinSnoc(p.components[..i], p.components[i]);
      assert p.components[..i + 1] == p.components[..i] + [p.components[i]];
      if i > 0 {
        out := out + [SLASH];
      }
      var e := EscapeComponent(p.components[i]);
      out := out + e;
    }
    assert p.components[..|p.components|] == p.components;
    if p.realm != [] {
      var e := EscapeComponent(p.realm);
      out := out + ([AT] + e);
    }
  }

  /** The bytes that are quoted: backslash, slash, at, tab, newline, backspace and NUL. */
  predicate Special(c: byte) {
    c == 0x5c || c == 0x2f || c == 0x40 || c == 0x09 || c == 0x0a || c == 0x08 || c == 0x00
  }

  /** All other bytes stand for themselves. */
  lemma {:induction false} PlainStaysPlain(s: Bytes)
    ensures Escape(s) == s <==> forall i :: 0 <= i < |s| ==> !Special(s[i])
    ensures |Escape(s)| >= |s|
  {
    if s != [] {
      var rest := s[1..];
      PlainStaysPlain(rest);
      assert Quote(s[0]) == [s[0]] || |Quote(s[0])| == 2;
      assert Quote(s[0]) == [s[0]] <==> !Special(s[0]);
      assert forall i :: 0 <= i < |rest| ==> rest[i] == s[i + 1];
      if Quote(s[0]) == [s[0]] {
        assert Escape(s)[1..] == Escape(rest);
      } else {
        assert |Escape(s)| > |s|;
      }
    }
  }

  /** Three texts written out: a/b@R, a without a realm, and the component "a/b". */
  lemma TextBytes()
    ensures Text(Principal(1, [0x52], [[0x61], [0x62]])) == [0x61, 0x2f, 0x62, 0x40, 0x52]
    ensures Text(Principal(1, [], [[0x61]])) == [0x61]
    ensures Text(Principal(1, [], [[0x61, 0x2f, 0x62]])) == [0x61, 0x5c, 0x2f, 0x62]
  {
    PlainStaysPlain([0x61]);
    PlainStaysPlain([0x62]);
    PlainStaysPlain([0x52]);
    assert [[0x61], [0x62]][1..] == [[0x62]];
    assert Escape([0x2f, 0x62]) == [0x5c, 0x2f, 0x62] by { assert [0x2f, 0x62][1..] == [0x62]; }
    assert Escape([0x61, 0x2f, 0x62]) == [0x61, 0x5c, 0x2f, 0x62] by { assert [0x61, 0x2f, 0x62][1..] == [0x2f, 0x62]; }
  }

  // ---- Reference reader for the quoting rules (section 2.1.1 of RFC 1964) ----

  predicate Separator(c: byte) { c == SLASH || c == AT }

  function Unquote(c: byte): (q: byte) {
    if c == LOWER_T then TAB else if c == LOWER_N then NL
    else if c == LOWER_B then BS else if c == DIGIT_0 then NUL else c
  }

  /** One field: everything up to an unquoted separator or the end; a dangling backslash is malformed. */
  function ReadField(t: Bytes): (r: Option<(Bytes, Bytes)>)
    ensures r.Some? ==> |r.value.1| <= |t| && (r.value.1 == [] || Separator(r.value.1[0]))
  {
    if t == [] || Separator(t[0]) then Some(([], t))
    else if t[0] != BACKSLASH then
      match ReadField(t[1..])
      case None => None
      case Some((f, rest)) => Some(([t[0]] + f, rest))
    else if |t| < 2 then None
    else
      match ReadField(t[2..])
      case None => None
      case Some((f, rest)) => Some(([Unquote(t[1])] + f, rest))
  }

  function ReadFields(t: Bytes): (r: Option<(seq<Bytes>, Bytes)>)
    decreases |t|
  {
    match ReadField(t)
    case None => None
    case Some((f, rest)) =>
      if rest == [] || rest[0] != SLASH then Some(([f], rest))
      else
        match ReadFields(rest[1..])
        case None => None
        case Some((fs, rest')) => Some(([f] + fs, rest'))
  }

  /** Components and realm of a text form; an absent realm reads as the empty one. */
  function ParseName(t: Bytes): (r: Option<(seq<Bytes>, Bytes)>) {
    match ReadFields(t)
    case None => None
    case Some((fs, rest)) =>
      if rest == [] then Some((fs, []))
      else if rest[0] != AT then None
      else
        match ReadField(rest[1..])
        case None => None
        case Some((realm, rest')) => if rest' == [] then Some((fs, realm)) else None
  }

  lemma FieldStep(c: byte, tail: Bytes)
    requires ReadField(tail).Some?
    ensures ReadField(Quote(c) + tail) == Some(([c] + ReadField(tail).value.0, ReadField(tail).value.1))
  {
    var t := Quote(c) + tail;
    if |Quote(c)| == 1 {
      assert t[0] == c && t[1..] == tail;
    } else {
      assert t[0] == BACKSLASH && t[1] == Quote(c)[1] && t[2..] == tail;
    }
  }

  lemma {:induction false} FieldRoundTrip(s: Bytes, rest: Bytes)
    requires rest == [] || Separator(rest[0])
    ensures ReadField(Escape(s) + rest) == Some((s, rest))
  {
    hide Quote;
    if s == [] {
      assert Escape(s) + rest == rest;
    } else {
      FieldRoundTrip(s[1..], rest);
      FieldStep(s[0], Escape(s[1..]) + rest);
      Assoc(Quote(s[0]), Escape(s[1..]), rest);
      assert s == [s[0]] + s[1..];
    }
  }

  lemma {:induction false} FieldsRoundTrip(cs: seq<Bytes>, rest: Bytes)
    requires cs != [] && (rest == [] || rest[0] == AT)
    ensures ReadFields(JoinEscaped(cs) + rest) == Some((cs, rest))
  {
    hide Escape, ReadField;
    if |cs| == 1 {
      assert cs == [cs[0]];
      FieldRoundTrip(cs[0], rest);
    } else {
      var tail := [SLASH] + (JoinEscaped(cs[1..]) + rest);
      assert JoinEscaped(cs) + rest == Escape(cs[0]) + tail;
      FieldRoundTrip(cs[0], tail);
      assert tail[1..] == JoinEscaped(cs[1..]) + rest;
      FieldsRoundTrip(cs[1..], rest);
      assert cs == [cs[0]] + cs[1..];
    }
  }

  /** What the text form denotes: a name without components reads as one empty component. */
  function Shown(p: Principal): (shown: (seq<Bytes>, Bytes)) {
    (if p.components == [] then [[]] else p.components, p.realm)
  }

  lemma NameRoundTrip(p: Principal)
    ensures ParseName(Text(p)) == Some(Shown(p))
  {
    var rest := if p.realm == [] then [] else [AT] + Escape(p.realm);
    if p.components == [] {
      assert JoinEscaped([[]]) == [];
      FieldsRoundTrip([[]], rest);
    } else {
      FieldsRoundTrip(p.components, rest);
    }
    if p.realm != [] {
      assert rest[1..] == Escape(p.realm) + [];
      FieldRoundTrip(p.realm, []);
    }
  }

  /** The text is the same for exactly the names that agree on realm and components,
      apart from "no components" against "one empty component". */
  lemma TextCollisions(p: Principal, q: Principal)
    ensures Text(p) == Text(q) <==> Shown(p) == Shown(q)
  {
    NameRoundTrip(p);
    NameRoundTrip(q);
    if Shown(p) == Shown(q) {
      assert JoinEscaped([[]]) == JoinEscaped([]);
    }
  }

  predicate NoNul(s: Bytes) { NUL !in s }

  lemma {:induction false} EscapeHasNoNul(s: Bytes)
    ensures NoNul(Escape(s))
  {
    if s != [] {
      EscapeHasNoNul(s[1..]);
      assert NoNul(Quote(s[0]));
    }
  }

  lemma {:induction false} JoinHasNoNul(cs: seq<Bytes>)
    ensures NoNul(JoinEscaped(cs))
  {
    if cs != [] {
      EscapeHasNoNul(cs[0]);
      JoinHasNoNul(cs[1..]);
    }
  }

  lemma TextHasNoNul(p: Principal)
    ensures NoNul(Text(p))
  {
    JoinHasNoNul(p.components);
    EscapeHasNoNul(p.realm);
  }

  // ---- Ticket-granting services (section 7.3 of RFC 4120) ----

  const KRBTGT: Bytes := [0x6b, 0x72, 0x62, 0x74, 0x67, 0x74]

  predicate IsTGTServer(server: Principal) {
    |server.components| == 2 && server.components[0] == KRBTGT
  }

  /** buildPrincipal: the library principal parsed from p's text form, or a parse error. */
  function BuildPrincipal(p: Principal): (r: Option<Principal>) {
    match ParseName(Text(p))
    case None => None
    case Some((cs, realm)) => Some(Principal(1, realm, cs))
  }

  /** A principal always goes through its text, and comes back under the same names. */
  lemma RebuiltName(p: Principal)
    ensures BuildPrincipal(p).Some?
    ensures var q := BuildPrincipal(p).value;
            (q.components, q.realm) == Shown(p) && Shown(q) == Shown(p) && Text(q) == Text(p)
  {
    NameRoundTrip(p);
    TextCollisions(BuildPrincipal(p).value, p);
  }

  /** The refusal of ticket-granting tickets is decided on the request's own principal, but the
      library is given the one rebuilt from text: both verdicts agree for every principal. */
  lemma TGTVerdictSurvivesText(p: Principal)
    ensures BuildPrincipal(p).Some?
    ensures IsTGTServer(BuildPrincipal(p).value) == IsTGTServer(p)
  {
    NameRoundTrip(p);
  }
}
