/** The audio policy and the history it is fed, compared with the reservation's own limits. */
module AudioPolicy {
  import opened Options
  import opened AudioLedger

  datatype Mode = Simulation | Replay | Shadow | HumanConfirmed | Automatic

  datatype Suppression =
    | ManualMute | CameraSuspended | AudioMuted | DecisionIneligible | WouldAnnounce | ModeDisabled
    | QuietHours | Limit(reason: Reason)

  /** Quiet hours are two times of day, in microseconds since midnight UTC. */
  datatype Config = Config(mode: Mode, audioMuted: bool, limits: Limits, quiet: Option<(int, int)>)

  datatype Context = Context(
    now: int,
    zone: string,
    siteMuted: bool,
    zoneMuted: bool,
    cameraMuted: bool,
    suspended: bool)

  predicate InQuietHours(quiet: Option<(int, int)>, current: int) {
    match quiet
    case None => false
    case Some((start, end)) =>
      if start == end then true
      else if start < end then start <= current < end
      else current >= start || current < end
  }

  /** The rows the route counts: as the reservation does, but without acknowledged duplicates. */
  predicate Announced(receipt: Receipt, zone: string) {
    CountedIn(receipt, zone) && StatusOf(receipt) != Some(Duplicate)
  }

  function AnnouncedSince(receipts: map<string, Receipt>, zone: string, cutoff: int): set<string> {
    set r | r in receipts && Announced(receipts[r], zone) && receipts[r].at >= cutoff
  }

  function AnnouncedOn(receipts: map<string, Receipt>, zone: string, day: int): set<string> {
    set r | r in receipts && Announced(receipts[r], zone) && receipts[r].at / DAY == day
  }

  /** The policy's limits on the route's history; here a cap of zero means never. */
  function PolicyLimit(receipts: map<string, Receipt>, limits: Limits, zone: string, now: int): Option<Reason> {
    if |AnnouncedSince(receipts, zone, now - HOUR)| >= limits.hourlyCap then Some(HourlyCap)
    else if |AnnouncedOn(receipts, zone, now / DAY)| >= limits.dailyCap then Some(DailyCap)
    else if limits.cooldown != 0 && AnnouncedSince(receipts, zone, now - limits.cooldown * SECOND) != {} then
        Some(ZoneCooldown)
    else None
  }

  /** `AudioPolicy.evaluate`: `None` stands for an announcement command. */
  function Evaluate(config: Config, context: Context, eligible: bool,
                    receipts: map<string, Receipt>): Option<Suppression> {
    if context.siteMuted || context.zoneMuted || context.cameraMuted then Some(ManualMute)
    else if context.suspended then Some(CameraSuspended)
    else if config.audioMuted then Some(AudioMuted)
    else if !eligible then Some(DecisionIneligible)
    else if config.mode == Shadow then Some(WouldAnnounce)
    else if config.mode != Automatic then Some(ModeDisabled)
    else if InQuietHours(config.quiet, context.now % DAY) then Some(QuietHours)
    else match PolicyLimit(receipts, config.limits, context.zone, context.now)
      case Some(reason) => Some(Limit(reason))
      case None => None
  }

  /** Quiet hours are the half-open arc of the day from start to end, the whole day if they coincide. */
  lemma QuietHoursAreAnArc(start: int, end: int, current: int)
    requires 0 <= start < DAY && 0 <= end < DAY && 0 <= current < DAY
    ensures InQuietHours(Some((start, end)), current) <==>
            start == end || (current - start) % DAY < (end - start) % DAY
  {
    Around(current - start);
    Around(end - start);
  }

  lemma Around(x: int)
    requires -DAY < x < DAY
    ensures x % DAY == if x < 0 then x + DAY else x
  {
    if x < 0 {
      assert (x + DAY) % DAY == x % DAY;
    }
  }

  // ----- the policy's limits against the reservation's

  predicate NonNegative(limits: Limits) {
    limits.hourlyCap >= 0 && limits.dailyCap >= 0 && limits.cooldown >= 0
  }

  predicate PositiveCaps(limits: Limits) {
    limits.hourlyCap > 0 && limits.dailyCap > 0 && limits.cooldown >= 0
  }

  /** Where the caps are positive, a reservation the ledger would grant is one the policy allows: the
      atomic check is never the weaker of the two. */
  lemma ReservationIsStricter(receipts: map<string, Receipt>, limits: Limits, zone: string, now: int)
    requires PositiveCaps(limits)
    requires BrokenLimit(receipts, limits, zone, now) == None
    ensures PolicyLimit(receipts, limits, zone, now) == None
  {
    SubsetSize(AnnouncedSince(receipts, zone, now - HOUR), Since(receipts, zone, now - HOUR));
    SubsetSize(AnnouncedOn(receipts, zone, now / DAY), OnDay(receipts, zone, now / DAY));
    var cutoff := now - limits.cooldown * SECOND;
    assert AnnouncedSince(receipts, zone, cutoff) <= Since(receipts, zone, cutoff);
  }

  /** On an empty table the reservation refuses nobody, and the policy refuses everybody at a zero cap. */
  lemma EmptyTable(limits: Limits, zone: string, now: int)
    requires NonNegative(limits)
    ensures BrokenLimit(map[], limits, zone, now) == None
    ensures PolicyLimit(map[], limits, zone, now) == None <==> limits.hourlyCap > 0 && limits.dailyCap > 0
  {
    assert Since(map[], zone, now - HOUR) == {} && OnDay(map[], zone, now / DAY) == {};
    assert Since(map[], zone, now - limits.cooldown * SECOND) == {};
    assert AnnouncedSince(map[], zone, now - HOUR) == {} && AnnouncedOn(map[], zone, now / DAY) == {};
    assert AnnouncedSince(map[], zone, now - limits.cooldown * SECOND) == {};
  }

  /** The policy allows whatever the reservation would grant, on every table, exactly when no cap is zero. */
  lemma ReservationIsStricterIff(limits: Limits)
    requires NonNegative(limits)
    ensures PositiveCaps(limits) <==>
            forall receipts, zone, now :: BrokenLimit(receipts, limits, zone, now) == None ==>
              PolicyLimit(receipts, limits, zone, now) == None
  {
    if PositiveCaps(limits) {
      forall receipts, zone, now | BrokenLimit(receipts, limits, zone, now) == None
        ensures PolicyLimit(receipts, limits, zone, now) == None
      {
        ReservationIsStricter(receipts, limits, zone, now);
      }
    } else {
      EmptyTable(limits, "z", 0);
    }
  }

  predicate NoDuplicates(receipts: map<string, Receipt>, zone: string) {
    forall r :: r in receipts && receipts[r].zone == zone ==> StatusOf(receipts[r]) != Some(Duplicate)
  }

  lemma SameHistory(receipts: map<string, Receipt>, zone: string, cutoff: int, day: int)
    requires NoDuplicates(receipts, zone)
    ensures AnnouncedSince(receipts, zone, cutoff) == Since(receipts, zone, cutoff)
    ensures AnnouncedOn(receipts, zone, day) == OnDay(receipts, zone, day)
  {
  }

  /** They give the same answer whenever the zone holds no acknowledged duplicate. */
  lemma SameLimitWithoutDuplicates(receipts: map<string, Receipt>, limits: Limits, zone: string, now: int)
    requires PositiveCaps(limits) && NoDuplicates(receipts, zone)
    ensures PolicyLimit(receipts, limits, zone, now) == BrokenLimit(receipts, limits, zone, now)
  {
    SameHistory(receipts, zone, now - HOUR, now / DAY);
    SameHistory(receipts, zone, now - limits.cooldown * SECOND, now / DAY);
  }

  /** At the time of an acknowledged duplicate, a cap that the duplicate just fills is full for the
      reservation and not for the policy. */
  lemma DuplicateSplits(receipts: map<string, Receipt>, r: string)
    requires r in receipts && StatusOf(receipts[r]) == Some(Duplicate)
    ensures var zone, now := receipts[r].zone, receipts[r].at;
            var limits := Limits(0, |Since(receipts, zone, now - HOUR)|, 1, 1);
            && PositiveCaps(limits)
            && BrokenLimit(receipts, limits, zone, now) == Some(HourlyCap)
            && PolicyLimit(receipts, limits, zone, now) != Some(HourlyCap)
  {
    var zone, now := receipts[r].zone, receipts[r].at;
    var counted, announced := Since(receipts, zone, now - HOUR), AnnouncedSince(receipts, zone, now - HOUR);
    assert r in counted && r !in announced;
    SubsetSize(announced, counted - {r});
  }

  /** On a given table and zone the two agree under all limits with positive caps and at all times
      exactly when no row of the zone is acknowledged as duplicate. */
  lemma AgreeOnTableIff(receipts: map<string, Receipt>, zone: string)
    ensures NoDuplicates(receipts, zone) <==>
            forall limits, now :: PositiveCaps(limits) ==>
              PolicyLimit(receipts, limits, zone, now) == BrokenLimit(receipts, limits, zone, now)
  {
    if NoDuplicates(receipts, zone) {
      forall limits, now | PositiveCaps(limits)
        ensures PolicyLimit(receipts, limits, zone, now) == BrokenLimit(receipts, limits, zone, now)
      {
        SameLimitWithoutDuplicates(receipts, limits, zone, now);
      }
    } else {
      var r :| r in receipts && receipts[r].zone == zone && StatusOf(receipts[r]) == Some(Duplicate);
      DuplicateSplits(receipts, r);
    }
  }

  /** Without duplicates in the zone, whatever the caps: the two agree at a given time exactly when no
      cap is zero, or the daily cap alone is and the hourly cap already refuses. */
  lemma AgreeWithZeroCapsIff(receipts: map<string, Receipt>, limits: Limits, zone: string, now: int)
    requires NonNegative(limits) && NoDuplicates(receipts, zone)
    ensures PolicyLimit(receipts, limits, zone, now) == BrokenLimit(receipts, limits, zone, now) <==>
            limits.hourlyCap > 0 && (limits.dailyCap > 0 || |Since(receipts, zone, now - HOUR)| >= limits.hourlyCap)
  {
    SameHistory(receipts, zone, now - HOUR, now / DAY);
    SameHistory(receipts, zone, now - limits.cooldown * SECOND, now / DAY);
  }

  /** A zero cap silences the policy for good, and the reservation, where nothing else limits it, takes
      it for no cap: it then refuses nobody, whatever the table. */
  lemma ZeroCapNeverAnnounces(config: Config, context: Context, eligible: bool, receipts: map<string, Receipt>)
    requires config.limits.hourlyCap == 0 || config.limits.dailyCap == 0
    ensures Evaluate(config, context, eligible, receipts).Some?
    ensures config.limits == Limits(0, 0, 0, config.limits.ttl) ==>
              BrokenLimit(receipts, config.limits, context.zone, context.now) == None
  {
  }

  /** Quiet hours, as two times of day, that leave some time of the day. */
  predicate LeavesTime(quiet: Option<(int, int)>) {
    quiet.Some? ==> quiet.value.0 != quiet.value.1
  }

  /** The policy ever announces anything exactly when it is automatic, not muted, has no zero cap and
      its quiet hours are not the whole day. */
  lemma AnnouncesIff(config: Config)
    requires NonNegative(config.limits)
    requires config.quiet.Some? ==> 0 <= config.quiet.value.0 < DAY && 0 <= config.quiet.value.1 < DAY
    ensures (exists context, eligible, receipts :: Evaluate(config, context, eligible, receipts) == None) <==>
            config.mode == Automatic && !config.audioMuted && PositiveCaps(config.limits) && LeavesTime(config.quiet)
  {
    if config.mode == Automatic && !config.audioMuted && PositiveCaps(config.limits) && LeavesTime(config.quiet) {
      // The moment quiet hours end is not quiet.
      var context := Context(if config.quiet.Some? then config.quiet.value.1 else 0, "z", false, false, false, false);
      EmptyTable(config.limits, context.zone, context.now);
      assert Evaluate(config, context, true, map[]) == None;
    }
  }

  // ----- what each single request is answered

  predicate Muted(context: Context) {
    context.siteMuted || context.zoneMuted || context.cameraMuted
  }

  /** The time of day lies on the arc from the start of the quiet hours to their end. */
  predicate QuietAt(config: Config, now: int) {
    match config.quiet
    case None => false
    case Some((start, end)) => start == end || (now % DAY - start) % DAY < (end - start) % DAY
  }

  /** A row the route counts as announced, or possibly so, in the zone. */
  predicate Heard(receipt: Receipt, zone: string) {
    && receipt.zone == zone
    && StatusOf(receipt) in {Some(Accepted), Some(Pending), Some(Failed), Some(Expired), Some(Uncertain)}
  }

  predicate HourSpent(config: Config, context: Context, receipts: map<string, Receipt>) {
    |set r | r in receipts && Heard(receipts[r], context.zone) && receipts[r].at >= context.now - 3600 * SECOND|
    >= config.limits.hourlyCap
  }

  predicate DaySpent(config: Config, context: Context, receipts: map<string, Receipt>) {
    var midnight := context.now - context.now % DAY;
    |set r | r in receipts && Heard(receipts[r], context.zone) && midnight <= receipts[r].at < midnight + DAY|
    >= config.limits.dailyCap
  }

  predicate JustHeard(config: Config, context: Context, receipts: map<string, Receipt>) {
    && config.limits.cooldown != 0
    && exists r :: r in receipts && Heard(receipts[r], context.zone)
                   && receipts[r].at >= context.now - config.limits.cooldown * SECOND
  }

  lemma PolicyLimitsAre(config: Config, context: Context, receipts: map<string, Receipt>)
    ensures var limit := PolicyLimit(receipts, config.limits, context.zone, context.now);
            var hour, day := HourSpent(config, context, receipts), DaySpent(config, context, receipts);
            && (limit == Some(HourlyCap) <==> hour)
            && (limit == Some(DailyCap) <==> !hour && day)
            && (limit == Some(ZoneCooldown) <==> !hour && !day && JustHeard(config, context, receipts))
            && limit != Some(ReservationExpired)
  {
    var zone, now := context.zone, context.now;
    var midnight, cutoff := now - now % DAY, now - config.limits.cooldown * SECOND;
    assert AnnouncedSince(receipts, zone, now - HOUR) ==
           set r | r in receipts && Heard(receipts[r], zone) && receipts[r].at >= now - 3600 * SECOND;
    forall r | r in receipts
      ensures receipts[r].at / DAY == now / DAY <==> midnight <= receipts[r].at < midnight + DAY
    {
      DayAsInterval(receipts[r].at, now);
    }
    assert AnnouncedOn(receipts, zone, now / DAY) ==
           set r | r in receipts && Heard(receipts[r], zone) && midnight <= receipts[r].at < midnight + DAY;
    if r :| r in receipts && Heard(receipts[r], zone) && receipts[r].at >= cutoff {
      assert r in AnnouncedSince(receipts, zone, cutoff);
    }
  }

  /** Each request is answered by the first of these that applies: a mute of site, zone or camera, a
      suspended camera, muted audio, an ineligible decision, shadow mode, any other mode but automatic,
      quiet hours, the hourly cap, the daily cap, the cooldown.  It is announced exactly when none does. */
  lemma PolicyAnswers(config: Config, context: Context, eligible: bool, receipts: map<string, Receipt>)
    requires config.quiet.Some? ==> 0 <= config.quiet.value.0 < DAY && 0 <= config.quiet.value.1 < DAY
    ensures var answer := Evaluate(config, context, eligible, receipts);
            var muted, silent := Muted(context), Muted(context) || context.suspended || config.audioMuted;
            var ready := !silent && eligible && config.mode == Automatic && !QuietAt(config, context.now);
            var hour, day := HourSpent(config, context, receipts), DaySpent(config, context, receipts);
            && (answer == Some(ManualMute) <==> muted)
            && (answer == Some(CameraSuspended) <==> !muted && context.suspended)
            && (answer == Some(AudioMuted) <==> !muted && !context.suspended && config.audioMuted)
            && (answer == Some(DecisionIneligible) <==> !silent && !eligible)
            && (answer == Some(WouldAnnounce) <==> !silent && eligible && config.mode == Shadow)
            && (answer == Some(ModeDisabled) <==>
                  !silent && eligible && config.mode in {Simulation, Mode.Replay, HumanConfirmed})
            && (answer == Some(QuietHours) <==>
                  !silent && eligible && config.mode == Automatic && QuietAt(config, context.now))
            && (answer == Some(Limit(HourlyCap)) <==> ready && hour)
            && (answer == Some(Limit(DailyCap)) <==> ready && !hour && day)
            && (answer == Some(Limit(ZoneCooldown)) <==>
                  ready && !hour && !day && JustHeard(config, context, receipts))
            && (answer == None <==> ready && !hour && !day && !JustHeard(config, context, receipts))
  {
    PolicyLimitsAre(config, context, receipts);
    if config.quiet.Some? {
      QuietHoursAreAnArc(config.quiet.value.0, config.quiet.value.1, context.now % DAY);
    }
  }
}
