/** The key under which concurrent RETRIEVEs share one answer (matchKey) and the library
    template a request stands for (buildMatchTemplate), both in internal/krb5c/ops.go. */
module Coalescing {
  import opened Wire
  import opened Names
  import opened Matching

  const ENCTYPE: Bytes := [0x65, 0x6e, 0x63, 0x74, 0x79, 0x70, 0x65, 0x3d]   // "enctype="
  const SKEY: Bytes := [0x73, 0x6b, 0x65, 0x79]                              // "skey"
  const SECOND: Bytes := [0x73, 0x65, 0x63, 0x6f, 0x6e, 0x64, 0x3d]          // "second="
  const MINUS: byte := 0x2d

  /** Go's "%d". */
  function Digits(n: nat): (s: Bytes)
    ensures |s| > 0
  {
    if n < 10 then [DIGIT_0 + n] else Digits(n / 10) + [DIGIT_0 + n % 10]
  }

  function Decimal(n: int): (s: Bytes) {
    if n < 0 then [MINUS] + Digits(-n) else Digits(n)
  }

  function EnctypeOf(mc: MatchCredential): (e: Option<int32>) {
    if mc.hasSessionKey then Some(mc.keyType) else None
  }

  function SecondOf(mc: MatchCredential): (u: Option<Bytes>) {
    if mc.hasSecondTicket && |mc.secondTicket| > 0 then Some(mc.secondTicket) else None
  }

  function ClientText(mc: MatchCredential): (t: Bytes) {
    if mc.hasClient then Text(mc.client) else []
  }

  function EnctypePart(e: Option<int32>): (s: Bytes) {
    if e.None? then [] else [NUL] + (ENCTYPE + Decimal(e.value))
  }
  function SKeyPart(b: bool): (s: Bytes) { if b then [NUL] + SKEY else [] }
  function SecondPart(u: Option<Bytes>): (s: Bytes) {
    if u.None? then [] else [NUL] + (SECOND + u.value)
  }
  function Options(e: Option<int32>, skey: bool, u: Option<Bytes>): (s: Bytes) {
    EnctypePart(e) + (SKeyPart(skey) + SecondPart(u))
  }

  function MatchKey(mc: MatchCredential): (key: Bytes) {
    ClientText(mc) + ([NUL] + (Text(mc.server) + Options(EnctypeOf(mc), mc.isSKey, SecondOf(mc))))
  }

  // ---- The key determines every field it was built from ----

  function DigitsValue(s: Bytes): (n: int) {
    if s == [] then 0
    else
      var last: int := s[|s| - 1];
      DigitsValue(s[..|s| - 1]) * 10 + (last - DIGIT_0)
  }

  lemma {:induction false} DigitsBack(n: nat)
    ensures DigitsValue(Digits(n)) == n
    ensures forall i :: 0 <= i < |Digits(n)| ==> DIGIT_0 <= Digits(n)[i]
  {
    if n < 10 {
      assert Digits(n)[..0] == [];
      assert DigitsValue([]) == 0;
    } else {
      DigitsBack(n / 10);
      var s := Digits(n);
      assert s[..|s| - 1] == Digits(n / 10);
    }
  }

  lemma DecimalInjective(m: int, n: int)
    ensures Decimal(m) == Decimal(n) ==> m == n
    ensures NoNul(Decimal(m))
  {
    hide Digits, DigitsValue;
    DigitsBack(if m < 0 then -m else m);
    DigitsBack(if n < 0 then -n else n);
    if Decimal(m) == Decimal(n) {
      var a, b := Decimal(m), Decimal(n);
      assert (a[0] == MINUS) == (m < 0) && (b[0] == MINUS) == (n < 0);
      if m < 0 {
        assert a[1..] == Digits(-m) && b[1..] == Digits(-n);
      }
    }
  }

  /** A NUL-free part is recovered from in front of anything that starts with NUL or is empty. */
  lemma CutAtNul(x: Bytes, r: Bytes, y: Bytes, r': Bytes)
    requires NoNul(x) && NoNul(y) && x + r == y + r'
    requires (r == [] || r[0] == NUL) && (r' == [] || r'[0] == NUL)
    ensures x == y && r == r'
  {
    var all := x + r;
    assert |x| < |all| ==> all[|x|] == NUL;
    assert |y| < |all| ==> all[|y|] == NUL;
    assert forall i :: 0 <= i < |x| ==> all[i] == x[i] && all[i] != NUL;
    assert forall i :: 0 <= i < |y| ==> all[i] == y[i] && all[i] != NUL;
    assert x == (x + r)[..|x|] && y == (y + r')[..|y|];
    assert r == (x + r)[|x|..] && r' == (y + r')[|y|..];
  }

  lemma CancelPrefix(p: Bytes, a: Bytes, b: Bytes)
    requires p + a == p + b
    ensures a == b
  {
    assert a == (p + a)[|p|..] && b == (p + b)[|p|..];
  }

  /** The bytes that tell the three optional parts apart. */
  lemma PartMarks(e: Option<int32>, u: Option<Bytes>)
    ensures |SKeyPart(true)| == 5 && SKeyPart(true)[0] == NUL && SKeyPart(true)[1] == 0x73
    ensures SKeyPart(true)[2] == 0x6b
    ensures u.Some? ==> |SecondPart(u)| >= 8 && SecondPart(u)[0] == NUL && SecondPart(u)[1] == 0x73
    ensures u.Some? ==> SecondPart(u)[2] == 0x65
    ensures e.Some? ==> |EnctypePart(e)| >= 9 && EnctypePart(e)[0] == NUL && EnctypePart(e)[1] == 0x65
  {
    hide Decimal;
  }

  lemma SecondInjective(u: Option<Bytes>, u': Option<Bytes>)
    requires SecondPart(u) == SecondPart(u')
    ensures u == u'
  {
    if u.Some? && u'.Some? {
      CancelPrefix([NUL], SECOND + u.value, SECOND + u'.value);
      CancelPrefix(SECOND, u.value, u'.value);
    }
  }

  lemma TrailerInjective(s: bool, u: Option<Bytes>, s': bool, u': Option<Bytes>)
    requires SKeyPart(s) + SecondPart(u) == SKeyPart(s') + SecondPart(u')
    ensures s == s' && u == u'
  {
    PartMarks(None, u);
    PartMarks(None, u');
    assert SKeyPart(false) == [] && SecondPart(None) == [];
    hide SKeyPart, SecondPart;
    var t, t' := SKeyPart(s) + SecondPart(u), SKeyPart(s') + SecondPart(u');
    assert (|t| > 2 && t[2] == 0x6b) == s && (|t'| > 2 && t'[2] == 0x6b) == s';
    CancelPrefix(SKeyPart(s), SecondPart(u), SecondPart(u'));
    SecondInjective(u, u');
  }

  lemma EnctypeInjective(e: Option<int32>, t: Bytes, e': Option<int32>, t': Bytes)
    requires EnctypePart(e) + t == EnctypePart(e') + t'
    requires t == [] || (|t| > 1 && t[0] == NUL && t[1] == 0x73)
    requires t' == [] || (|t'| > 1 && t'[0] == NUL && t'[1] == 0x73)
    ensures e == e' && t == t'
  {
    PartMarks(e, None);
    PartMarks(e', None);
    assert EnctypePart(None) == [];
    EnctypePresence(e, t, e', t');
    if e.Some? {
      EnctypeCut(e.value, t, e'.value, t');
    } else {
      assert [] + t == t && [] + t' == t';
    }
  }

  lemma EnctypePresence(e: Option<int32>, t: Bytes, e': Option<int32>, t': Bytes)
    requires EnctypePart(e) + t == EnctypePart(e') + t'
    requires t == [] || (|t| > 1 && t[0] == NUL && t[1] == 0x73)
    requires t' == [] || (|t'| > 1 && t'[0] == NUL && t'[1] == 0x73)
    ensures e.Some? == e'.Some?
  {
    PartMarks(e, None);
    PartMarks(e', None);
    assert EnctypePart(None) == [];
    hide EnctypePart;
    var all, all' := EnctypePart(e) + t, EnctypePart(e') + t';
    assert (|all| > 1 && all[1] == 0x65) == e.Some?;
    assert (|all'| > 1 && all'[1] == 0x65) == e'.Some?;
  }

  lemma EnctypeCut(e: int32, t: Bytes, e': int32, t': Bytes)
    requires EnctypePart(Some(e)) + t == EnctypePart(Some(e')) + t'
    requires (t == [] || t[0] == NUL) && (t' == [] || t'[0] == NUL)
    ensures e == e' && t == t'
  {
    DecimalInjective(e, e');
    DecimalInjective(e', e);
    hide Decimal;
    var x, x' := ENCTYPE + Decimal(e), ENCTYPE + Decimal(e');
    assert NoNul(ENCTYPE);
    Assoc([NUL], x, t);
    Assoc([NUL], x', t');
    CancelPrefix([NUL], x + t, x' + t');
    CutAtNul(x, t, x', t');
    CancelPrefix(ENCTYPE, Decimal(e), Decimal(e'));
  }

  lemma OptionsInjective(e: Option<int32>, s: bool, u: Option<Bytes>,
                         e': Option<int32>, s': bool, u': Option<Bytes>)
    requires Options(e, s, u) == Options(e', s', u')
    ensures e == e' && s == s' && u == u'
  {
    PartMarks(e, u);
    PartMarks(e', u');
    assert SKeyPart(false) == [] && SecondPart(None) == [];
    hide EnctypePart, SKeyPart, SecondPart;
    EnctypeInjective(e, SKeyPart(s) + SecondPart(u), e', SKeyPart(s') + SecondPart(u'));
    TrailerInjective(s, u, s', u');
  }

  /** A client is named and its text is not empty. */
  predicate NamesClient(mc: MatchCredential) { mc.hasClient && Text(mc.client) != [] }

  /** A second ticket is announced and not empty. */
  predicate GivesSecond(mc: MatchCredential) { mc.hasSecondTicket && mc.secondTicket != [] }

  /** Two requests share a key exactly when they agree on the client's text (none and an empty one being the
      same), the server's text, whether a session key is given and then its enctype, is_skey, and whether a
      non-empty second ticket is given and then its bytes. */
  lemma MatchKeyExact(a: MatchCredential, b: MatchCredential)
    ensures MatchKey(a) == MatchKey(b) <==>
            && NamesClient(a) == NamesClient(b) && (NamesClient(a) ==> Text(a.client) == Text(b.client))
            && Text(a.server) == Text(b.server)
            && a.hasSessionKey == b.hasSessionKey && (a.hasSessionKey ==> a.keyType == b.keyType)
            && a.isSKey == b.isSKey
            && GivesSecond(a) == GivesSecond(b) && (GivesSecond(a) ==> a.secondTicket == b.secondTicket)
  {
    hide Text, Options;
    var oa, ob := Options(EnctypeOf(a), a.isSKey, SecondOf(a)), Options(EnctypeOf(b), b.isSKey, SecondOf(b));
    TextHasNoNul(a.client);
    TextHasNoNul(b.client);
    TextHasNoNul(a.server);
    TextHasNoNul(b.server);
    if MatchKey(a) == MatchKey(b) {
      var ra, rb := [NUL] + (Text(a.server) + oa), [NUL] + (Text(b.server) + ob);
      CutAtNul(ClientText(a), ra, ClientText(b), rb);
      assert ra[1..] == Text(a.server) + oa && rb[1..] == Text(b.server) + ob;
      OptionsStart(EnctypeOf(a), a.isSKey, SecondOf(a));
      OptionsStart(EnctypeOf(b), b.isSKey, SecondOf(b));
      CutAtNul(Text(a.server), oa, Text(b.server), ob);
      OptionsInjective(EnctypeOf(a), a.isSKey, SecondOf(a), EnctypeOf(b), b.isSKey, SecondOf(b));
    }
  }

  lemma OptionsStart(e: Option<int32>, s: bool, u: Option<Bytes>)
    ensures Options(e, s, u) == [] || Options(e, s, u)[0] == NUL
  {
  }

  // ---- Templates ----

  /** The in_creds handed to the library: times, addresses and authdata are never copied. */
  datatype Template = Template(client: Principal, server: Principal, enctype: Option<int32>,
                               isSKey: bool, second: Option<Bytes>)

  /** None when the request has no server or a name does not parse. An absent client stands for
      the cache's own principal. */
  function BuildTemplate(mc: MatchCredential, own: Principal): (r: Option<Template>) {
    var client := if mc.hasClient then BuildPrincipal(mc.client) else Some(own);
    if client.None? || !mc.hasServer then None
    else
      match BuildPrincipal(mc.server)
      case None => None
      case Some(server) => Some(Template(client.value, server, EnctypeOf(mc), mc.isSKey, SecondOf(mc)))
  }

  /** What a template holds: the names of the request, or the cache's own principal for an absent client, the
      enctype exactly when a session key is given, and the second ticket exactly when it is not empty. There
      is a template exactly when a server is named. */
  lemma TemplateMeans(mc: MatchCredential, own: Principal)
    ensures BuildTemplate(mc, own).Some? <==> mc.hasServer
    ensures mc.hasServer ==>
              var t := BuildTemplate(mc, own).value;
              && (t.server.components, t.server.realm) == Shown(mc.server) && Text(t.server) == Text(mc.server)
              && (mc.hasClient ==>
                    (t.client.components, t.client.realm) == Shown(mc.client) && Text(t.client) == Text(mc.client))
              && (!mc.hasClient ==> t.client == own)
              && (if mc.hasSessionKey then t.enctype == Some(mc.keyType) else t.enctype.None?)
              && t.isSKey == mc.isSKey
              && (if GivesSecond(mc) then t.second == Some(mc.secondTicket) else t.second.None?)
  {
    RebuiltName(mc.server);
    RebuiltName(mc.client);
    hide BuildPrincipal, Text, Shown;
  }

  /** Requests that share a key stand for the same template, whoever owns the cache, exactly when
      they agree on whether a server and (given a server) a client was named. */
  lemma SharedKeySharesTemplate(a: MatchCredential, b: MatchCredential)
    requires MatchKey(a) == MatchKey(b)
    ensures (forall own :: BuildTemplate(a, own) == BuildTemplate(b, own)) <==>
            a.hasServer == b.hasServer && (a.hasServer ==> a.hasClient == b.hasClient)
  {
    hide Text, MatchKey;
    MatchKeyExact(a, b);
    NameRoundTrip(a.client);
    NameRoundTrip(b.client);
    NameRoundTrip(a.server);
    NameRoundTrip(b.server);
    var other := Principal(0, [], []);
    if !(a.hasServer == b.hasServer && (a.hasServer ==> a.hasClient == b.hasClient)) {
      assert BuildTemplate(a, other) != BuildTemplate(b, other);
    }
  }

  /** One of the two conflations: naming no client, against naming a client whose text is empty. */
  lemma EmptyClientIsConflated(server: Principal)
    ensures var named := EMPTY_MATCH.(hasClient := true, hasServer := true, server := server);
            var silent := named.(hasClient := false);
            && MatchKey(named) == MatchKey(silent)
            && !(forall own :: BuildTemplate(named, own) == BuildTemplate(silent, own))
  {
    var named := EMPTY_MATCH.(hasClient := true, hasServer := true, server := server);
    var silent := named.(hasClient := false);
    assert Text(NO_PRINCIPAL) == [];
    MatchKeyExact(named, silent);
    SharedKeySharesTemplate(named, silent);
  }

  /** The other: naming no server, which is an error, against naming a server whose text is empty. */
  lemma EmptyServerIsConflated(own: Principal)
    ensures var named := EMPTY_MATCH.(hasServer := true);
            && MatchKey(named) == MatchKey(EMPTY_MATCH)
            && BuildTemplate(EMPTY_MATCH, own).None? && BuildTemplate(named, own).Some?
  {
    var named := EMPTY_MATCH.(hasServer := true);
    MatchKeyExact(named, EMPTY_MATCH);
    NameRoundTrip(named.server);
  }
}
