/** Algorithm 2 of limiter.py: a token bucket whose allowance refills
    continuously, is capped at the number of requests per period, and loses one
    unit per admitted request. */
module TokenBucket {

  import opened Wrappers
  import opened LimiterState

  datatype Params = Params(
    requests: real,                // requests per period, also the cap
    period: real,                  // seconds
    maximumExcesses: int,          // -1 for no maximum
    extendedBlockExpiration: nat,  // seconds
    expiration: nat)               // seconds

  /** The compiled-in parameters: 10 requests per 5 seconds, 30 excesses, 6 hours, 1 hour. */
  const Defaults := Params(10.0, 5.0, 30, 60 * 60 * 6, 3600)

  /** Allowance regained per second: a whole period regains exactly the
      requests of one period. */
  function Replenish(p: Params): (rate: real)
    requires p.period > 0.0
    ensures rate * p.period == p.requests
    ensures p.requests >= 0.0 ==> rate >= 0.0
  {
    p.requests / p.period
  }

  /** The values a client with no stored record starts from: one second's
      worth of allowance, not a full bucket. */
  function Initial(p: Params): (r: Record)
    requires p.period > 0.0
    ensures r.status == NoBlock && r.excesses == 0 && r.last == 0.0
    ensures r.value == Replenish(p)
    // short of a full bucket whenever the period is longer than a second
    ensures p.requests > 0.0 && p.period > 1.0 ==> r.value < p.requests
  {
    var rate := Replenish(p);
    assert p.requests > 0.0 && p.period > 1.0 ==> rate < p.requests by {
      if p.requests > 0.0 && p.period > 1.0 {
        assert rate > 0.0;
        assert rate * (p.period - 1.0) > 0.0;
        assert rate * p.period == p.requests;
      }
    }
    Record(rate, 0.0, 0, NoBlock)
  }

  /** The record the step works from: the stored one, or the initial values. */
  function Prior(p: Params, data: Option<Record>): Record
    requires p.period > 0.0
  {
    data.GetOr(Initial(p))
  }

  /** The allowance after `elapsed` seconds of refill: the sum, capped at the
      number of requests. */
  function Refill(p: Params, allowance: real, elapsed: real): (a: real)
    requires p.period > 0.0
    ensures a <= p.requests
    ensures a <= allowance + elapsed * Replenish(p)
    ensures a == p.requests || a == allowance + elapsed * Replenish(p)
  {
    var sum := allowance + elapsed * Replenish(p);
    if sum > p.requests then p.requests else sum
  }

  /** One request from a client whose stored record is `data`, at time `now`.
      An extended block is returned untouched. Otherwise the allowance is
      refilled; with at least one unit left the request is admitted and pays
      one unit, below that the excess handling runs and nothing is spent. */
  function Step(p: Params, data: Option<Record>, now: real): (r: Decision)
    requires p.period > 0.0
    // an extended block is terminal: returned as is, nothing written
    ensures Prior(p, data).status == ExtendedBlock ==> r == Decision(ExtendedBlock, None)
    ensures WritesStatus(r, now, p.expiration, p.extendedBlockExpiration)
    ensures Prior(p, data).status != ExtendedBlock ==>
      var prior := Prior(p, data);
      var a := Refill(p, prior.value, now - prior.last);
      var w := r.write;
      && w.Some?
      // admitted exactly when a whole unit is available, and then it is spent
      && (r.status == NoBlock <==> a >= 1.0)
      && (r.status == NoBlock ==>
            && w.value.record.value == a - 1.0
            && 0.0 <= w.value.record.value <= p.requests - 1.0
            && w.value.record.excesses == prior.excesses)
      // otherwise the allowance is kept unspent and the excess handling runs
      && (r.status != NoBlock ==>
            && w.value.record.value == a
            && w.value.record.value < 1.0
            && prior.excesses <= w.value.record.excesses <= prior.excesses + 1
            && (w.value.record.excesses == prior.excesses + 1 <==> prior.status == NoBlock)
            && (r.status == ExtendedBlock <==>
                  p.maximumExcesses != -1 && w.value.record.excesses > p.maximumExcesses))
  {
    var prior := Prior(p, data);
    if prior.status == ExtendedBlock then
      Decision(ExtendedBlock, None)
    else
      var allowance := Refill(p, prior.value, now - prior.last);
      var (value, excesses, status) :=
        if allowance < 1.0 then
          var (count, blocked) := Escalate(prior.status, prior.excesses, p.maximumExcesses);
          (allowance, count, blocked)
        else
          (allowance - 1.0, prior.excesses, NoBlock);
      var ttl := Expiration(status, p.expiration, p.extendedBlockExpiration);
      // The source persists `rate` on limiter.py:356 and logs it on
      // limiter.py:357: the name `rate`, never assigned in the method, so it
      // raises NameError; the evident intent of both lines, modelled here, is
      // the allowance.
      Decision(status, Some(Persist(Record(value, now, excesses, status), ttl)))
  }

  /** The step as the source writes it: the write on limiter.py:356 reads the
      name `rate`, never assigned in the method, so it raises NameError and
      every call past the extended-block check raises instead of persisting.
      The log call on limiter.py:357 reads the same name, so correcting the
      write alone would still raise, after the write. */
  function StepAsWritten(p: Params, data: Option<Record>, now: real): (r: Result<Status, Error>)
    requires p.period > 0.0
    ensures r.Success? <==> Prior(p, data).status == ExtendedBlock
    ensures r.Success? ==> r.value == ExtendedBlock
    ensures r.Failure? ==> r.error == UndefinedName
  {
    if Prior(p, data).status == ExtendedBlock then Success(ExtendedBlock)
    else Failure(UndefinedName)
  }

  /** A stored allowance within the bucket stays within it when time does not
      run backwards: refill never exceeds the cap and spending never goes below
      zero. */
  lemma StepKeepsAllowanceInBucket(p: Params, data: Option<Record>, now: real)
    requires p.period > 0.0 && p.requests >= 0.0
    requires 0.0 <= Prior(p, data).value <= p.requests
    requires Prior(p, data).last <= now
    ensures var r := Step(p, data, now);
      r.write.Some? ==> 0.0 <= r.write.value.record.value <= p.requests
  {
    var prior := Prior(p, data);
    if prior.status != ExtendedBlock {
      var elapsed := now - prior.last;
      assert elapsed * Replenish(p) >= 0.0;
      var a := Refill(p, prior.value, elapsed);
      assert a >= 0.0;
    }
  }

  /** A client with no stored record is admitted whenever one second's refill
      is a whole unit and the clock reads at least the epoch. */
  lemma FreshClientAdmitted(p: Params, now: real)
    requires p.period > 0.0 && p.requests >= 1.0 && Replenish(p) >= 1.0
    requires now >= 0.0
    ensures Step(p, None, now).status == NoBlock
  {
  }

  /** A client that waited a whole period since its last request is admitted
      again, whatever it did before, unless it is in an extended block. */
  lemma WaitingOnePeriodReadmits(p: Params, rec: Record, now: real)
    requires p.period > 0.0 && p.requests >= 1.0
    requires rec.status != ExtendedBlock && rec.value >= 0.0
    requires now - rec.last >= p.period
    ensures Step(p, Some(rec), now).status == NoBlock
  {
    var elapsed := now - rec.last;
    var rate := Replenish(p);
    assert rate >= 0.0;
    assert (elapsed - p.period) * rate >= 0.0;
    assert elapsed * rate >= p.period * rate == p.requests;
  }

  /** The statuses of `n` requests made at one instant `now`, starting from `rec`. */
  function Burst(p: Params, rec: Record, now: real, n: nat): (statuses: seq<Status>)
    requires p.period > 0.0
    ensures |statuses| == n
    decreases n
  {
    if n == 0 then []
    else
      var d := Step(p, Some(rec), now);
      var next := if d.write.Some? then d.write.value.record else rec;
      [d.status] + Burst(p, next, now, n - 1)
  }

  /** Requests arriving together are admitted one per whole unit of
      allowance: the i-th (from 0) is admitted exactly when i + 1 units were
      available, and every later one is blocked. */
  lemma {:induction false} BurstAdmitsWholeUnits(p: Params, rec: Record, now: real, n: nat)
    requires p.period > 0.0
    requires rec.last == now && rec.value <= p.requests
    requires rec.status != ExtendedBlock || rec.value < 1.0
    ensures var statuses := Burst(p, rec, now, n);
      forall i :: 0 <= i < n ==> (statuses[i] == NoBlock <==> (i as real) + 1.0 <= rec.value)
    decreases n
  {
    if n > 0 {
      var d := Step(p, Some(rec), now);
      var next := if d.write.Some? then d.write.value.record else rec;
      assert Refill(p, rec.value, 0.0) == rec.value;
      if rec.status == ExtendedBlock {
        assert next == rec;
      } else if rec.value >= 1.0 {
        assert next.value == rec.value - 1.0;
      } else {
        assert next.value == rec.value;
      }
      BurstAdmitsWholeUnits(p, next, now, n - 1);
      var statuses := Burst(p, rec, now, n);
      assert statuses == [d.status] + Burst(p, next, now, n - 1);
      forall i | 0 <= i < n
        ensures statuses[i] == NoBlock <==> (i as real) + 1.0 <= rec.value
      {
        if i == 0 {
          assert statuses[0] == d.status;
          assert d.status == NoBlock <==> rec.value >= 1.0;
        } else {
          assert statuses[i] == Burst(p, next, now, n - 1)[i - 1];
          assert Burst(p, next, now, n - 1)[i - 1] == NoBlock <==> ((i - 1) as real) + 1.0 <= next.value;
          assert ((i - 1) as real) + 1.0 <= next.value <==> (i as real) + 1.0 <= rec.value;
        }
      }
    }
  }

  /** A fresh client at t = 0 shows the difference: the source as written
      raises, the intended step admits it and persists the unit it spent. */
  lemma AsWrittenRaisesForFreshClient()
    ensures StepAsWritten(Defaults, None, 0.0) == Failure(UndefinedName)
    ensures Step(Defaults, None, 0.0).status == NoBlock
    ensures Step(Defaults, None, 0.0).write == Some(Persist(Record(1.0, 0.0, 0, NoBlock), 3600))
  {
  }
}
