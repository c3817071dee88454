/** Algorithm 1 of limiter.py: a rate estimate that grows with every request
    and decays with the time elapsed since the previous one. */
module DecayRate {

  import opened Wrappers
  import opened LimiterState

  datatype Params = Params(
    maximumRate: real,             // requests per second
    maximumExcesses: int,          // -1 for no maximum
    extendedBlockExpiration: nat,  // seconds
    expiration: nat)               // seconds

  /** The compiled-in parameters: 4 requests per second, 30 excesses, 6 hours, 1 hour. */
  const Defaults := Params(4.0, 30, 21600, 3600)

  /** The values a client with no stored record starts from: no rate, no
      excesses, not blocked, last seen at the epoch. */
  function Initial(): (r: Record)
    ensures r.status == NoBlock && r.excesses == 0
    ensures r.value == 0.0 && r.last == 0.0
  {
    Record(0.0, 0.0, 0, NoBlock)
  }

  /** The record the step works from: the stored one, or the initial values. */
  function Prior(data: Option<Record>): Record {
    data.GetOr(Initial())
  }

  /** One request from a client whose stored record is `data`, at time `now`.
      An extended block is returned untouched. Otherwise the rate becomes
      `(1 + rate) / ((now - last) + 1)`; reaching the maximum rate runs the
      excess handling, staying below it keeps the previous status (the source
      has no branch that clears a short block). */
  function Step(p: Params, data: Option<Record>, now: real): (r: Result<Decision, Error>)
    // an extended block is terminal: returned as is, nothing written
    ensures Prior(data).status == ExtendedBlock ==> r == Success(Decision(ExtendedBlock, None))
    // the only failure is the division by zero of the rate formula
    ensures r.Failure? <==> Prior(data).status != ExtendedBlock && (now - Prior(data).last) + 1.0 == 0.0
    ensures r.Failure? ==> r.error == ZeroDivision
    ensures r.Success? ==> WritesStatus(r.value, now, p.expiration, p.extendedBlockExpiration)
    ensures r.Success? && Prior(data).status != ExtendedBlock ==>
      var prior := Prior(data);
      var w := r.value.write;
      && w.Some?
      // the persisted rate solves the decay equation
      && w.value.record.value * ((now - prior.last) + 1.0) == 1.0 + prior.value
      // a new excess is counted exactly on a fresh crossing
      && prior.excesses <= w.value.record.excesses <= prior.excesses + 1
      && (w.value.record.excesses == prior.excesses + 1 <==>
            w.value.record.value >= p.maximumRate && prior.status == NoBlock)
      // below the maximum the previous status is carried over
      && (w.value.record.value < p.maximumRate ==> r.value.status == prior.status)
      // at or above it the client is blocked, extended once past the maximum excesses
      && (w.value.record.value >= p.maximumRate ==>
            && r.value.status != NoBlock
            && (r.value.status == ExtendedBlock <==>
                  p.maximumExcesses != -1 && w.value.record.excesses > p.maximumExcesses))
  {
    var prior := Prior(data);
    if prior.status == ExtendedBlock then
      Success(Decision(ExtendedBlock, None))
    else if (now - prior.last) + 1.0 == 0.0 then
      Failure(ZeroDivision)
    else
      var rate := (1.0 + prior.value) / ((now - prior.last) + 1.0);
      var (excesses, status) :=
        if rate >= p.maximumRate then Escalate(prior.status, prior.excesses, p.maximumExcesses)
        else (prior.excesses, prior.status);
      var ttl := Expiration(status, p.expiration, p.extendedBlockExpiration);
      Success(Decision(status, Some(Persist(Record(rate, now, excesses, status), ttl))))
  }

  /** The step as the source writes it: the write on limiter.py:275 names
      `self.clientIdentifier`, an attribute the class never defines, so every
      call that gets past the extended-block check and the rate formula raises
      instead of persisting. `Step` models the evident intent, a write keyed by
      the `clientIdentifier` argument. */
  function StepAsWritten(p: Params, data: Option<Record>, now: real): (r: Result<Status, Error>)
    ensures r.Success? <==> Prior(data).status == ExtendedBlock
    ensures r.Success? ==> r.value == ExtendedBlock
    ensures r.Failure? ==> r.error == (if (now - Prior(data).last) + 1.0 == 0.0 then ZeroDivision else UndefinedName)
  {
    var prior := Prior(data);
    if prior.status == ExtendedBlock then Success(ExtendedBlock)
    else if (now - prior.last) + 1.0 == 0.0 then Failure(ZeroDivision)
    else Failure(UndefinedName)
  }

  /** With time not running backwards and a non-negative stored rate the
      formula is defined and the new rate is positive and no larger than one
      more than the stored rate. */
  lemma RateStaysPositive(p: Params, data: Option<Record>, now: real)
    requires Prior(data).status != ExtendedBlock
    requires Prior(data).value >= 0.0 && Prior(data).last <= now
    ensures Step(p, data, now).Success?
    ensures var w := Step(p, data, now).value.write.value.record;
      0.0 < w.value <= 1.0 + Prior(data).value
  {
    var prior := Prior(data);
    var divisor := (now - prior.last) + 1.0;
    var w := Step(p, data, now).value.write.value.record;
    assert w.value * divisor == 1.0 + prior.value;
    assert w.value > 0.0;
    assert w.value * (divisor - 1.0) >= 0.0;
  }

  /** A client with no stored record is admitted at any time from the epoch
      on, as long as the maximum rate is above one request per second: the
      first rate is 1 / (now + 1). */
  lemma FreshClientAdmitted(p: Params, now: real)
    requires p.maximumRate > 1.0 && now >= 0.0
    ensures Step(p, None, now).Success?
    ensures Step(p, None, now).value.status == NoBlock
  {
  }

  /** A request that comes at least `rate` seconds after the previous one
      brings the rate down to at most one per second, so it never crosses a
      maximum above that: the status is carried over unchanged. A client
      that was admitted stays admitted, and a short-blocked one stays
      short-blocked, since nothing clears the block. */
  lemma IsolatedRequestKeepsStatus(p: Params, rec: Record, now: real)
    requires p.maximumRate > 1.0
    requires rec.status != ExtendedBlock && rec.value >= 0.0
    requires now - rec.last >= rec.value
    ensures Step(p, Some(rec), now).Success?
    ensures Step(p, Some(rec), now).value.status == rec.status
    ensures Step(p, Some(rec), now).value.write.value.record.excesses == rec.excesses
  {
    var denominator := (now - rec.last) + 1.0;
    var rate := (1.0 + rec.value) / denominator;
    assert rate * denominator == 1.0 + rec.value;
    assert rate <= 1.0;
  }

  /** The records algorithm 1 can reach from a fresh start: at most one
      excess, and none while not blocked. */
  ghost predicate SingleCrossing(rec: Record) {
    rec.excesses <= 1 && (rec.status == NoBlock ==> rec.excesses == 0)
  }

  /** Since nothing clears a short block, a client counts a fresh crossing at
      most once: the step keeps `SingleCrossing`, which the initial values
      satisfy. So with a maximum of at least one excess (the compiled-in one
      is 30) an extended block is never reached from a fresh start while the
      record lives. */
  lemma StepKeepsSingleCrossing(p: Params, data: Option<Record>, now: real)
    requires SingleCrossing(Prior(data))
    ensures var r := Step(p, data, now);
      r.Success? && r.value.write.Some? ==> SingleCrossing(r.value.write.value.record)
    ensures var r := Step(p, data, now);
      p.maximumExcesses >= 1 && Prior(data).status != ExtendedBlock && r.Success? ==> r.value.status != ExtendedBlock
  {
  }

  /** A fresh client at t = 0 shows the difference: the source as written
      raises, the intended step admits it and persists its first rate. */
  lemma AsWrittenRaisesForFreshClient()
    ensures StepAsWritten(Defaults, None, 0.0) == Failure(UndefinedName)
    ensures Step(Defaults, None, 0.0).Success?
    ensures Step(Defaults, None, 0.0).value.status == NoBlock
    ensures Step(Defaults, None, 0.0).value.write == Some(Persist(Record(1.0, 0.0, 0, NoBlock), 3600))
  {
  }
}
