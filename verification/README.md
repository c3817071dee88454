# Rate limiter admission engine, in Dafny

This project models the admission decision of the `Limiter` class in
`limiter.py`. For each request, `incrementRate(clientIdentifier)` decides
whether the client is not blocked, short-blocked or in an extended block.
It first rejects a falsy client identifier. It then routes to the selected
algorithm:

- algorithm 1, the decay rate: a rate estimate `(1 + rate) / (elapsed + 1)` is
  compared with a maximum rate;
- algorithm 2, the token bucket: an allowance refills over time, is capped at
  the requests per period, and one unit is spent per admitted request;
- algorithm 3, the pass-through: every request is admitted without limiting.

Both stateful algorithms keep a per-client record `(value, last, excesses,
status)` in a key-value store with expiry. They share one state machine:

- an extended block is terminal;
- the excess counter grows only on a fresh crossing of the threshold;
- a client whose counter passes the maximum excesses is put in an extended
  block;
- the time to live of the written record depends on its new status.

Modules:

- `Wrappers` (wrappers.dfy): `Option` and `Result`.
- `LimiterState` (state.dfy): statuses, the record, the error kinds, and the
  shared escalation step.
- `DecayRate` (decay_rate.dfy): algorithm 1 as a pure step function.
- `TokenBucket` (token_bucket.dfy): algorithm 2 as a pure step function.
- `Limiter` (limiter.dfy): `_get`, `_set` and the dispatcher `incrementRate`
  over an abstract store `map<string, Entry>`. Each call returns its status or
  the exception it raises, the store accesses it made (as data, also when it
  raises) and the store afterwards.
- `LimiterRuns` (runs.dfy): properties of sequences of requests against one
  store. A request that raises leaves the store unchanged, and the run goes on
  with the next request.

Modelling choices:

- Time, rates and allowances are `real`. The current time `now` is a parameter
  instead of a call to `time.time()`.
- The algorithm parameters are datatypes. Their `Defaults` hold the compiled-in
  constants. `Limiter.Source` is the compiled-in configuration, which selects
  algorithm 3.
- An exception becomes a `Failure` value. This covers the `ValueError`s, and
  also the `ZeroDivisionError` that algorithm 1 raises when `now - last == -1`.
- A client identifier is a string, and it is falsy exactly when it is empty.
  Python's `None` is treated like the empty string.
- An expired store entry is simply absent from the map.

Three behaviours of the code are easy to misread. The model follows the
code:

- Algorithm 2 starts a new client at an allowance of `_A2_ALLOWANCE`
  (limiter.py:308), the refill per second (2.0). It does not start at
  `_A2_REQUESTS`, the full bucket of 10.
- A new client has `last = 0`, so its first elapsed time is the whole clock
  reading `now`. With real clock values, the first refill therefore reaches
  the cap.
- Algorithm 1 never resets a short block to not blocked. The comment on the
  short-block status (limiter.py:40) says the block lasts "until the rate
  drops back below the maximum rate". Yet no branch of `_A1_incrementRate`
  sets the status back to not blocked: when the rate falls below the
  maximum, the previous status is kept. `DecayRate.IsolatedRequestKeepsStatus`
  states this stickiness. Its consequence is that a client counts a fresh
  crossing at most once while its record lives, so its excess count stays at
  most 1. With the compiled-in maximum of 30 excesses, the extended-block
  branch of algorithm 1 (limiter.py:263-264) is never reached from a fresh
  start. `DecayRate.StepKeepsSingleCrossing` states the one-step invariant,
  and `LimiterRuns.DecayRateNeverExtends` states it over any run.

Two lines of the source write with names that are not bound. The model uses
the evident intent, and a comment marks each place. See "## Findings".

## Model

| member | source | states |
|---|---|---|
| LimiterState.Code | limiter.py:37-45 | Each status has its integer code: 0 for no block, 1 for a short block, 2 for an extended block. |
| LimiterState.FromCode | limiter.py:37-45 | Exactly the codes 0..2 name a status, and decoding agrees with `Code`. |
| LimiterState.CodeRoundTrip | limiter.py:37-45 | Decoding the code of a status gives back that status. |
| LimiterState.Expiration | limiter.py:269-272 | The time to live is the extended-block expiration or the normal one. When the two differ, it is the extended-block expiration exactly for an extended block. |
| LimiterState.Escalate | limiter.py:258-266 | Crossing the threshold adds one excess exactly when the prior status was no block. Otherwise the count is unchanged. The result is never no block. It is an extended block exactly when the maximum is not -1 and the count exceeds it. |
| DecayRate.Initial | limiter.py:236 | A client with no record starts from rate 0, time 0, no excesses and no block. |
| DecayRate.Step | limiter.py:224-280 | An extended block is returned with no write. The only failure is the division by zero. Otherwise: the written rate solves `rate * (elapsed + 1) == 1 + prior rate`; the time is `now`; excesses grow by one exactly on a fresh crossing; below the maximum the prior status is kept; at or above it the client is blocked, extended exactly past the maximum excesses; the time to live follows the status. |
| DecayRate.RateStaysPositive | limiter.py:252-253 | With `now >= last` and a non-negative stored rate, the step succeeds. The new rate is positive and at most one more than the stored rate. |
| DecayRate.FreshClientAdmitted | limiter.py:235-256 | A client with no record is admitted at any `now >= 0` when the maximum rate exceeds 1. |
| DecayRate.IsolatedRequestKeepsStatus | limiter.py:252-266 | A request at least `rate` seconds after the previous one keeps the prior status and excess count. An admitted client stays admitted, and a short-blocked one stays short-blocked. |
| DecayRate.StepAsWritten | limiter.py:242-275 | As written, only an extended block returns normally. A call with `now - last == -1` raises the division by zero. Every other call reaches the write and raises on the unset `self.clientIdentifier`. |
| DecayRate.StepKeepsSingleCrossing | limiter.py:252-266 | From a record with at most one excess, and none while not blocked, the step writes such a record again. With a maximum of at least one excess, it never produces an extended block. |
| DecayRate.AsWrittenRaisesForFreshClient | limiter.py:235-275 | For a fresh client at t = 0 the code as written raises. The intended step admits the client and writes rate 1.0 with the one-hour expiration. |
| TokenBucket.Replenish | limiter.py:97 | The refill per second times the period is the requests per period, and it is non-negative when the requests are. |
| TokenBucket.Initial | limiter.py:308 | A client with no record starts from one second's refill, time 0, no excesses and no block. With more than one second per period this is below the cap. |
| TokenBucket.Refill | limiter.py:324-329 | The refilled allowance never exceeds the cap or the uncapped sum. It equals one of the two. |
| TokenBucket.Step | limiter.py:296-361 | An extended block is returned with no write. Otherwise the request is admitted exactly when the refilled allowance is at least 1. An admitted request spends exactly one unit, leaving a value in `[0, cap - 1]` with the excesses unchanged. A blocked request keeps its allowance (below 1) unspent and applies the excess rule. The time written is `now`, and the time to live follows the status. |
| TokenBucket.StepKeepsAllowanceInBucket | limiter.py:324-347 | If the stored allowance is in `[0, cap]` and `now >= last`, the written allowance stays in `[0, cap]`. |
| TokenBucket.FreshClientAdmitted | limiter.py:307-347 | A client with no record is admitted at any `now >= 0` when the refill per second is at least one unit. |
| TokenBucket.WaitingOnePeriodReadmits | limiter.py:324-347 | A client that is not in an extended block, and waits a whole period, is admitted. |
| TokenBucket.BurstAdmitsWholeUnits | limiter.py:331-347 | Among requests arriving at one instant, the i-th is admitted exactly when `i + 1` units were in the bucket. |
| TokenBucket.StepAsWritten | limiter.py:355-357 | As written, every call past the extended-block check raises `NameError` on `rate`, a name the method never assigns. Only an extended block returns normally. |
| TokenBucket.AsWrittenRaisesForFreshClient | limiter.py:307-356 | For a fresh client at t = 0 the code as written raises. The intended step admits the client and writes allowance 1.0. |
| Limiter.Get | limiter.py:375-386 | An empty key raises. Otherwise the result is the stored record exactly when the key is present. |
| Limiter.Set | limiter.py:402-410 | An empty key raises. Otherwise the key maps to the record and its time to live, and every other entry is unchanged. |
| Limiter.GetAfterSet | limiter.py:375-410 | After a set under a non-empty key, a get of that key returns the record just set, and a get of any other key returns what it returned before. |
| Limiter.PersistDecision | limiter.py:350-356 | The status returned is the decision's. A decision without a write leaves the store and the access list unchanged. A write is appended to the accesses and stored under the client's key. |
| Limiter.IncrementRate | limiter.py:190-208 | A falsy identifier and an unknown algorithm both raise `ValueError` with no store access. Pass-through admits with no access. Algorithm 2 returns `TokenBucket.Step`'s status on the stored record: one read, then a write exactly when the step writes, stored under the identifier. Algorithm 1 does the same with `DecayRate.Step`, and raises exactly when that step fails, after the read and with the store unchanged. A stored extended block is returned after the single read. No other entry changes, and the key checks in `_get`/`_set` never fire. |
| Limiter.WrittenTtlFollowsStatus | limiter.py:269-275 | The written time to live is the active algorithm's extended-block expiration exactly for an extended block, and its normal expiration otherwise. |
| Limiter.ExcessesGrowByAtMostOne | limiter.py:256-260 | A stored client's excess count never decreases and grows by at most one per call. It grows only when a client that was not blocked is now blocked. |
| Limiter.NoExtendedBlockWithoutMaximum | limiter.py:262-266 | With the maximum excesses set to -1, no call creates an extended block. |
| LimiterRuns.Serve | limiter.py:190-208 | Serving a run of requests in order yields one status or exception per request. |
| LimiterRuns.PassThroughNeverTouchesStore | limiter.py:192-205 | Under pass-through, every request with a non-empty identifier is admitted and every other one raises `ValueError`, with no store access and the store unchanged. |
| LimiterRuns.SourceConfigurationAdmitsEveryone | limiter.py:121-122 | With the compiled-in configuration (algorithm 3), every valid request is admitted and the store is unchanged. |
| LimiterRuns.ExtendedBlockIsTerminal | limiter.py:242-246 | Once a client's record is an extended block, all of its later requests return an extended block, including after other requests raised. Its record is never rewritten, whatever other clients do. |
| LimiterRuns.ExcessesNeverDecrease | limiter.py:258-260 | Over a whole run, including requests that raise, a client's excess count never decreases. It grows by at most the number of requests the client made, and a stored client stays stored. |
| LimiterRuns.DecayRateNeverExtends | limiter.py:252-266 | With algorithm 1 and its compiled-in parameters, start from a store where every record has at most one excess, none while not blocked, and none is an extended block. Then no request in any run returns an extended block, and the final store still has those properties. |
| LimiterRuns.FreshRecordHasAtMostOneExcess | limiter.py:235-260 | The first record written for a client holds at most one excess. |
| LimiterRuns.AdmitSpendsOneUnit | limiter.py:344-347 | With defaults and one to ten units stamped at time `t`, a request at `t` is admitted and the bucket loses exactly one unit. |
| LimiterRuns.EmptyBucketBlocks | limiter.py:331-342 | With defaults, an empty bucket stamped at `t` short-blocks a request at `t`. It counts one fresh excess and leaves the allowance at zero. |
| LimiterRuns.OneSecondRefillReadmits | limiter.py:324-347 | With defaults, at `t + 1` after that block two units are refilled. The request is admitted and leaves one unit stamped `t + 1`, with the excess count kept at one. |
| LimiterRuns.BurstThenPause | limiter.py:296-361 | From `units` whole units at `t`, a burst at `t` admits exactly `units` requests and short-blocks the next. A request at `t + 1` is admitted. |
| LimiterRuns.TokenBucketScenario | limiter.py:296-361 | With defaults, a new client first seen at any `t >= 4` is admitted for its first ten requests at `t`. The eleventh is short-blocked, and a twelfth at `t + 1` is admitted. (From `t >= 4`, the first refill from `last = 0` reaches the cap.) |

## Left out

- `time.time()` (limiter.py:250, 322) is replaced by the `now` parameter.
- The module as shipped cannot be used. It calls `locale.setlocale` (limiter.py:132) and `logging.basicConfig` (limiter.py:138, also `logging.getLogger` at 147) without importing `locale` or `logging`, so loading it raises `NameError`. The constructor sets `self._database = None` (limiter.py:173), so the first `_get` raises `AttributeError` at limiter.py:383. The model assumes a module that imports and a working key-value store behind `_get`/`_set`. Under that assumption, the locale and logging setup and the `logger.debug` calls are left out. They have no effect on the decision, with one exception: the call at limiter.py:357 reads the name `rate`, never assigned in `_A2_incrementRate`, and so raises `NameError` (see "## Findings").
- The concrete database, real expiry and serialisation are left out. The store is a map of live entries. The run lemmas assume no entry expires during the run.
- Concurrent read-modify-write races are left out. Every call is modelled as sequential.
- IEEE floating point is left out. Arithmetic is exact `real` arithmetic, so no claim is made about bit-exact agreement with Python floats.
- Limiter.IncrementRate: Python's `None` identifier is not modelled separately from the empty string. Non-string identifiers are not modelled.
- Stored records are always records the limiter wrote. The Python code would misbehave on foreign tuple shapes, and those are not modelled.

## Findings

| source | as written | input that shows it | evidently intended | confidence | as-written member | corrected member |
|---|---|---|---|---|---|---|
| limiter.py:275 | persists under `self.clientIdentifier`, an attribute the class never sets, so the call raises `AttributeError` (reached only once the module imports and the store works, see "## Left out") | a fresh client at now = 0 with the decay-rate algorithm | persist under the `clientIdentifier` argument | high; not executed | DecayRate.StepAsWritten | DecayRate.Step |
| limiter.py:356 | persists `rate`, a name `_A2_incrementRate` never assigns, so the call raises `NameError` (reached only once the module imports and the store works, see "## Left out"). The `logger.debug` call at limiter.py:357 reads the same name, so correcting line 356 alone still raises, after the write | a fresh client at now = 0 with the token-bucket algorithm | persist and log the refilled and spent `allowance`, which needs both lines 356 and 357 corrected | high; not executed | TokenBucket.StepAsWritten | TokenBucket.Step |
