/** The audio tables of the SQLite repository and the four methods that touch them.

    Each method is one atomic step on a `Ledger`; the functions give the step as a value,
    and `AudioRepository` (AudioRepository.dfy) performs it in place.  Times are whole
    microseconds since the epoch. */
module AudioLedger {
  import opened Options

  const SECOND: int := 1_000_000
  const HOUR: int := 3600 * SECOND
  const DAY: int := 24 * HOUR

  datatype Status = Pending | Accepted | Duplicate | Rejected | Expired | Failed | Uncertain

  datatype Playback = Playback(status: Status, token: Option<nat>, expiresAt: Option<int>)

  /** One row of `audio_receipts`. */
  datatype Receipt = Receipt(zone: string, at: int, playback: Option<Playback>)

  /** One row of `audio_receipt_attempts`. */
  datatype Attempt = Attempt(number: nat, at: int, playback: Option<Playback>)

  datatype Ledger = Ledger(receipts: map<string, Receipt>, attempts: map<string, seq<Attempt>>)

  /** The limits the service passes along with every reservation, in seconds. */
  datatype Limits = Limits(cooldown: int, hourlyCap: int, dailyCap: int, ttl: int)

  datatype Reason = ZoneCooldown | HourlyCap | DailyCap | ReservationExpired

  datatype Reservation = Granted | Existing | Refused(reason: Reason)

  datatype Finalization = Finalized | Missing | AlreadyFinalized | OwnerMismatch

  datatype Reconciliation = Reconciled | Unknown | NotPending | NoExpiry | NotExpired

  function Max(a: int, b: int): int {
    if a < b then b else a
  }

  function StatusOf(receipt: Receipt): Option<Status> {
    match receipt.playback
    case None => None
    case Some(p) => Some(p.status)
  }

  /** Rows that count towards cooldown and caps: every reported status but `rejected`. */
  predicate Counted(receipt: Receipt) {
    receipt.playback.Some? && receipt.playback.value.status != Rejected
  }

  predicate CountedIn(receipt: Receipt, zone: string) {
    receipt.zone == zone && Counted(receipt)
  }

  function Since(receipts: map<string, Receipt>, zone: string, cutoff: int): set<string> {
    set r | r in receipts && CountedIn(receipts[r], zone) && receipts[r].at >= cutoff
  }

  function OnDay(receipts: map<string, Receipt>, zone: string, day: int): set<string> {
    set r | r in receipts && CountedIn(receipts[r], zone) && receipts[r].at / DAY == day
  }

  /** A UTC day runs from midnight to midnight. */
  lemma DayAsInterval(at: int, now: int)
    ensures at / DAY == now / DAY <==> now - now % DAY <= at < now - now % DAY + DAY
  {
    assert at == DAY * (at / DAY) + at % DAY && now == DAY * (now / DAY) + now % DAY;
  }

  lemma SubsetSize<T>(a: set<T>, b: set<T>)
    requires a <= b
    ensures |a| <= |b|
  {
    assert b == a + (b - a);
  }

  /** The limit a reservation at `now` would break, if any; hourly cap first, cooldown last.
      A limit of zero switches its check off. */
  function BrokenLimit(receipts: map<string, Receipt>, limits: Limits, zone: string, now: int): Option<Reason> {
    if limits.hourlyCap != 0 && |Since(receipts, zone, now - HOUR)| >= limits.hourlyCap then Some(HourlyCap)
    else if limits.dailyCap != 0 && |OnDay(receipts, zone, now / DAY)| >= limits.dailyCap then Some(DailyCap)
    else if limits.cooldown != 0 && Since(receipts, zone, now - Max(limits.cooldown, 0) * SECOND) != {} then
        Some(ZoneCooldown)
    else None
  }

  function AttemptsOf(l: Ledger, r: string): seq<Attempt> {
    if r in l.attempts then l.attempts[r] else []
  }

  /** `COALESCE(MAX(attempt_no), 0)`. */
  function MaxNumber(log: seq<Attempt>): nat {
    if log == [] then 0
    else
      var rest := MaxNumber(log[..|log| - 1]);
      var last := log[|log| - 1].number;
      if rest < last then last else rest
  }

  function Log(l: Ledger, r: string, at: int, playback: Option<Playback>): Ledger {
    var log := AttemptsOf(l, r);
    l.(attempts := l.attempts[r := log + [Attempt(MaxNumber(log) + 1, at, playback)]])
  }

  function PendingPlayback(limits: Limits, now: int, token: nat): Playback {
    Playback(Pending, Some(token), Some(now + Max(limits.ttl, 1) * SECOND))
  }

  /** `reserve_audio_receipt`: what a status already on file decides before any limit is read. */
  function Standing(l: Ledger, r: string): Option<Reservation> {
    if r !in l.receipts then None
    else match StatusOf(l.receipts[r])
      case Some(Accepted) => Some(Existing)
      case Some(Duplicate) => Some(Existing)
      case Some(Pending) => Some(Refused(ZoneCooldown))
      case Some(Expired) => Some(Refused(ReservationExpired))
      case Some(Uncertain) => Some(Refused(ReservationExpired))
      case _ => None
  }

  function Reserve(l: Ledger, limits: Limits, r: string, zone: string, now: int, token: nat): (Ledger, Reservation) {
    match Standing(l, r)
    case Some(answer) => (l, answer)
    case None =>
      match BrokenLimit(l.receipts, limits, zone, now)
      case Some(reason) => (l, Refused(reason))
      case None =>
        var playback := Some(PendingPlayback(limits, now, token));
        var written := l.(receipts := l.receipts[r := Receipt(zone, now, playback)]);
        // A retry of an existing row logs nothing until it is finalized.
        (if r in l.receipts then written
         else written.(attempts := l.attempts[r := AttemptsOf(l, r) + [Attempt(1, now, playback)]]),
         Granted)
  }

  function Finalize(l: Ledger, r: string, token: nat, zone: string, now: int, status: Status): (Ledger, Finalization) {
    if r !in l.receipts then (l, Missing)
    else if StatusOf(l.receipts[r]) !in {Some(Pending), Some(Uncertain)} then (l, AlreadyFinalized)
    else if l.receipts[r].playback.value.token != Some(token) then (l, OwnerMismatch)
    else
      var playback := Some(Playback(status, Some(token), None));
      (Log(l.(receipts := l.receipts[r := Receipt(zone, now, playback)]), r, now, playback), Finalized)
  }

  function Reconcile(l: Ledger, r: string, observed: int): (Ledger, Reconciliation) {
    if r !in l.receipts then (l, Unknown)
    else
      var receipt := l.receipts[r];
      if StatusOf(receipt) != Some(Pending) then (l, NotPending)
      else if receipt.playback.value.expiresAt == None then (l, NoExpiry)
      else if receipt.playback.value.expiresAt.value > observed then (l, NotExpired)
      else
        var playback := Some(receipt.playback.value.(status := Uncertain));
        (Log(l.(receipts := l.receipts[r := receipt.(playback := playback)]), r, observed, playback), Reconciled)
  }

  function Put(l: Ledger, r: string, zone: string, now: int, playback: Option<Playback>): Ledger {
    // The statuses that count are also the ones that must not be overwritten.
    var kept := r in l.receipts && Counted(l.receipts[r]);
    var written := if kept then l else l.(receipts := l.receipts[r := Receipt(zone, now, playback)]);
    Log(written, r, now, playback)
  }

  /** `f"audio:{decision_id}"`: distinct decisions own distinct receipts. */
  function ReceiptId(decision: string): (r: string)
    ensures |r| >= 6 && r[6..] == decision
  {
    "audio:" + decision
  }
}
