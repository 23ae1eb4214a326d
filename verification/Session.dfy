/** The Client's TGT and working cache as values: what each critical section of
    internal/krb5c/tgt.go, internal/krb5c/ops.go and internal/krb5c/krb5c.go does to them. */
module Session {
  import opened Wire
  import opened Names
  import opened Credentials

  /** A remembered TGT. `id` is the identity of the tgtInfo object, which renewTGT compares. */
  datatype Tgt = Tgt(id: nat, cred: Cred)

  datatype Data = Data(
    principal: Principal, cache: seq<Cred>,
    tgt: Option<Tgt>, nextId: nat,
    renewing: bool, backoff: int, retryAt: Time, lastCheck: Time)

  /** Which library call of a TGT swap fails, if any. */
  datatype SwapFault = SwapOk | RemoveFails | StoreFails

  /** The source ccache as read: unusable (missing, foreign owner, unreadable, no principal) or its
      default principal and entries. */
  datatype Source = Unusable | File(principal: Principal, creds: seq<Cred>)

  /** How adopting the file goes wrong: not at all, at re-initialisation, or after `n` entries were read. */
  datatype LoadFault = LoadOk | InitFails | LoadFails(n: nat)

  // ---- Decisions ----

  predicate NeedsAttention(d: Data, minLife: int, now: Time) {
    d.tgt.None? || RenewDue(d.tgt.value.cred, now) || Remaining(d.tgt.value.cred, now) < minLife
  }

  predicate RenewWanted(d: Data, now: Time) {
    d.tgt.Some? && RenewDue(d.tgt.value.cred, now) && now >= d.retryAt && !d.renewing
  }

  /** tgtError: no TGT, or an expired one, to drive a TGS exchange. */
  predicate NoUsableTgt(d: Data, now: Time) { d.tgt.None? || Expired(d.tgt.value.cred, now) }

  function NextWake(d: Data, now: Time): (at: Time)
    ensures now < at <= now + MAX_SLEEP
  {
    var at :=
      if d.tgt.Some? && CanRenew(d.tgt.value.cred, now) then
        if RenewPoint(d.tgt.value.cred) > now then RenewPoint(d.tgt.value.cred) else d.retryAt
      else now + MAX_SLEEP;
    var at := if at > now + MAX_SLEEP then now + MAX_SLEEP else at;
    if at <= now then now + SECONDS else at
  }

  // ---- Backoff ----

  function NoteRenewFailure(d: Data, now: Time): (d': Data) {
    var b := if d.backoff == 0 then MIN_BACKOFF
             else if d.backoff * 2 > MAX_BACKOFF then MAX_BACKOFF else d.backoff * 2;
    d.(backoff := b, retryAt := now + b)
  }

  function ResetBackoff(d: Data): (d': Data) { d.(backoff := 0, retryAt := ZERO_TIME) }

  // ---- Swapping the TGT ----

  /** The cache between the two steps of setTGT: without the previous TGT. */
  function WithoutTgt(d: Data): (cache: seq<Cred>) {
    if d.tgt.None? then d.cache else RemoveExact(d.cache, d.tgt.value.cred)
  }

  /** setTGT's second step: the new TGT, cached with the renewable bit cleared. */
  function Install(d: Data, cred: Cred): (d': Data) {
    ResetBackoff(d.(cache := d.cache + [ClearRenewable(cred)], tgt := Some(Tgt(d.nextId, cred)),
                    nextId := d.nextId + 1))
  }

  function SetTGT(d: Data, cred: Cred, fault: SwapFault): (d': Data) {
    match fault
    case RemoveFails => if d.tgt.None? then Install(d, cred) else d
    case StoreFails => d.(cache := WithoutTgt(d))
    case SwapOk => Install(d.(cache := WithoutTgt(d)), cred)
  }

  predicate SwapSucceeds(d: Data, fault: SwapFault) {
    fault.SwapOk? || (fault.RemoveFails? && d.tgt.None?)
  }

  // ---- Adopting the source file ----

  function LoadOne(cache: seq<Cred>, found: Option<Cred>, c: Cred, now: Time): (r: (seq<Cred>, Option<Cred>)) {
    if IsConfig(c.server) then (cache, found)
    else if LocalTGT(c) then
      if found.Some? then (cache, found) else (cache + [ClearRenewable(c)], Some(c))
    else if End(c) <= now then (cache, found)
    else (cache + [c], found)
  }

  function LoadAll(cache: seq<Cred>, found: Option<Cred>, creds: seq<Cred>, now: Time): (r: (seq<Cred>, Option<Cred>))
    decreases |creds|
  {
    if creds == [] then (cache, found)
    else
      var (cache', found') := LoadOne(cache, found, creds[0], now);
      LoadAll(cache', found', creds[1..], now)
  }

  predicate Candidate(c: Cred) { !IsConfig(c.server) && LocalTGT(c) }

  /** peekTGT: the file's first local TGT. */
  function Peek(creds: seq<Cred>): (r: Option<Cred>) {
    if creds == [] then None else if Candidate(creds[0]) then Some(creds[0]) else Peek(creds[1..])
  }

  /** Whether loadNewerTGT goes on to replace the working cache by the file. */
  predicate Adopts(d: Data, now: Time, src: Source) {
    && src.File?
    && var p := Peek(src.creds);
       p.Some? && !Expired(p.value, now) && (d.tgt.Some? ==> End(p.value) > End(d.tgt.value.cred))
  }

  function Adopted(d: Data, principal: Principal, cache: seq<Cred>, found: Option<Cred>): (d': Data) {
    ResetBackoff(d.(principal := principal, cache := cache,
                    tgt := if found.None? then None else Some(Tgt(d.nextId, found.value)),
                    nextId := d.nextId + 1))
  }

  /** Whether adopting the file gets past every library call. The file is read twice: `src` is what was
      peeked at, `loaded` the entries met when it was loaded. */
  predicate GoesThrough(d: Data, now: Time, src: Source, loaded: seq<Cred>, fault: LoadFault) {
    && now - d.lastCheck >= FILE_CHECK_INTERVAL && Adopts(d, now, src)
    && !fault.InitFails? && (fault.LoadFails? ==> fault.n > |loaded|)
  }

  function LoadNewer(d: Data, now: Time, src: Source, loaded: seq<Cred>, fault: LoadFault): (d': Data) {
    if now - d.lastCheck < FILE_CHECK_INTERVAL then d
    else
      var d := d.(lastCheck := now);
      if !Adopts(d, now, src) || fault.InitFails? then d
      else AdoptFile(d, now, src.principal, loaded, fault)
  }

  function AdoptFile(d: Data, now: Time, own: Principal, loaded: seq<Cred>, fault: LoadFault): (d': Data) {
    if fault.LoadFails? && fault.n <= |loaded| then
      d.(principal := own, tgt := None, cache := LoadAll([], None, loaded[..fault.n], now).0)
    else
      var (cache, found) := LoadAll([], None, loaded, now);
      Adopted(d, own, cache, found)
  }

  /** The file lost its TGT between the two reads: the record of the reload then uses a TGT that is not
      there, which ends the process. */
  predicate LosesTgt(d: Data, now: Time, src: Source, loaded: seq<Cred>, fault: LoadFault) {
    GoesThrough(d, now, src, loaded, fault) && Peek(loaded).None?
  }

  // ---- Sweeping ----

  /** A service ticket that must not be handed out any more. */
  predicate Stale(tgt: Option<Tgt>, minLife: int, now: Time, e: Cred) {
    && !IsConfig(e.server) && !LocalTGT(e)
    && var left := End(e) - now;
       left <= 0 || (left < minLife && tgt.Some? && End(tgt.value.cred) > End(e))
  }

  function Sweep(d: Data, minLife: int, now: Time): (d': Data) {
    d.(cache := Filter((e: Cred) => !Stale(d.tgt, minLife, now, e), d.cache))
  }

  // ---- Client operations ----

  /** A stored credential that becomes the daemon's TGT. */
  predicate BecomesTgt(d: Data, c: Cred) { LocalTGT(c) && Text(d.principal) == Text(c.client) }

  function Store(d: Data, w: CredWire, fault: SwapFault): (d': Data) {
    if w.Malformed? then d
    else if BecomesTgt(d, w.cred) then SetTGT(d, w.cred, fault)
    else if fault.StoreFails? then d
    else d.(cache := d.cache + [w.cred])
  }

  function Initialize(d: Data, p: Principal, ok: bool): (d': Data) {
    match BuildPrincipal(p)
    case None => d
    case Some(own) => if !ok then d else ResetBackoff(d.(principal := own, cache := [], tgt := None))
  }

  function Remove(d: Data, client: Principal, server: Principal): (d': Data) {
    d.(cache := RemoveNamed(d.cache, client, server))
  }

  // ---- Renewal, in its two critical sections ----

  /** Whether renewTGT gets past its first critical section. */
  predicate RenewalStarts(d: Data) { !d.renewing && d.tgt.Some? }

  function RenewFinish(d: Data, started: Tgt, answer: Option<Cred>, now: Time, fault: SwapFault): (d': Data) {
    var d := d.(renewing := false);
    if d.tgt.None? || d.tgt.value.id != started.id then d
    else if answer.None? then NoteRenewFailure(d, now)
    else
      var d' := SetTGT(d, answer.value, fault);
      if SwapSucceeds(d, fault) then d' else NoteRenewFailure(d', now)
  }

  // ---- One whole maintenance pass with nobody else around ----

  /** Everything outside the daemon that one pass can meet. */
  datatype World = World(src: Source, loaded: seq<Cred>, load: LoadFault, kdc: Option<Cred>, swap: SwapFault)

  predicate Reloads(d: Data, minLife: int, now: Time) {
    NeedsAttention(d, minLife, now) && now - d.lastCheck >= FILE_CHECK_INTERVAL
  }

  function Reloaded(d: Data, minLife: int, now: Time, w: World): (d': Data) {
    if Reloads(d, minLife, now) then LoadNewer(d, now, w.src, w.loaded, w.load) else d
  }

  /** Whether the process survives the pass. */
  predicate Survives(d: Data, minLife: int, now: Time, w: World) {
    Reloads(d, minLife, now) ==> !LosesTgt(d, now, w.src, w.loaded, w.load)
  }

  function Renewed(d: Data, now: Time, w: World): (d': Data) {
    if RenewWanted(d, now) then RenewFinish(d.(renewing := true), d.tgt.value, w.kdc, now, w.swap) else d
  }

  function Maintain(d: Data, minLife: int, now: Time, w: World): (d': Data) {
    Sweep(Renewed(Reloaded(d, minLife, now, w), now, w), minLife, now)
  }
}
