/** Sequences of calls to `incrementRate` against one store: the properties
    that span several requests. Entries are assumed not to expire during a
    run; an expired entry would simply be absent from the map. */
module LimiterRuns {

  import opened Wrappers
  import opened LimiterState
  import opened Limiter
  import DecayRate
  import TokenBucket

  datatype Request = Request(clientIdentifier: string, now: real)

  /** What a run did: per request the status returned or the exception
      raised, the store accesses made and the final store. */
  datatype Trace = Trace(results: seq<Result<Status, Error>>, effects: seq<Effect>, store: Store)

  /** Serves `requests` in order. A request that raises leaves the store as
      it was, and the requests after it are still served. */
  function Serve(cfg: Config, store: Store, requests: seq<Request>): (r: Trace)
    requires ValidConfig(cfg)
    ensures |r.results| == |requests|
    decreases |requests|
  {
    if requests == [] then Trace([], [], store)
    else
      var o := IncrementRate(cfg, store, requests[0].clientIdentifier, requests[0].now);
      var rest := Serve(cfg, o.store, requests[1..]);
      Trace([o.result] + rest.results, o.effects + rest.effects, rest.store)
  }

  /** Serving a non-empty run is serving its first request, then the rest
      against the store that request left. */
  lemma ServeFirst(cfg: Config, store: Store, requests: seq<Request>)
    requires ValidConfig(cfg) && requests != []
    ensures var first := IncrementRate(cfg, store, requests[0].clientIdentifier, requests[0].now);
      var rest := Serve(cfg, first.store, requests[1..]);
      Serve(cfg, store, requests) == Trace([first.result] + rest.results, first.effects + rest.effects, rest.store)
  {
  }

  /** The number of requests from `clientIdentifier`. */
  function CountFor(requests: seq<Request>, clientIdentifier: string): nat
  {
    if requests == [] then 0
    else (if requests[0].clientIdentifier == clientIdentifier then 1 else 0) + CountFor(requests[1..], clientIdentifier)
  }

  /** Pass-through admits every request with a valid identifier, refuses the
      others, and never touches the store. */
  lemma {:induction false} PassThroughNeverTouchesStore(cfg: Config, store: Store, requests: seq<Request>)
    requires ValidConfig(cfg) && cfg.algorithmId == PassThroughId
    ensures var r := Serve(cfg, store, requests);
      && r.effects == []
      && r.store == store
      && forall i :: 0 <= i < |requests| ==>
           r.results[i] == (if requests[i].clientIdentifier == [] then Failure(InvalidClientIdentifier) else Success(NoBlock))
    decreases |requests|
  {
    if requests != [] {
      PassThroughNeverTouchesStore(cfg, store, requests[1..]);
      var r := Serve(cfg, store, requests);
      forall i | 1 <= i < |requests|
        ensures r.results[i] == (if requests[i].clientIdentifier == [] then Failure(InvalidClientIdentifier) else Success(NoBlock))
      {
        assert requests[1..][i - 1] == requests[i];
      }
    }
  }

  /** As compiled in, the limiter admits every request with a valid
      identifier, refuses the others, and never touches the store. */
  lemma SourceConfigurationAdmitsEveryone(store: Store, requests: seq<Request>)
    ensures var r := Serve(Source, store, requests);
      && r.store == store
      && forall i :: 0 <= i < |requests| && requests[i].clientIdentifier != [] ==> r.results[i] == Success(NoBlock)
  {
    PassThroughNeverTouchesStore(Source, store, requests);
  }

  /** Once a client's stored record is an extended block, every later request
      from it returns an extended block (an empty identifier is refused
      first) and its record is never rewritten, whatever other clients do,
      for as long as the record lives. */
  lemma {:induction false} ExtendedBlockIsTerminal(cfg: Config, store: Store, requests: seq<Request>, clientIdentifier: string)
    requires ValidConfig(cfg) && Stateful(cfg)
    requires clientIdentifier in store && store[clientIdentifier].record.status == ExtendedBlock
    ensures var r := Serve(cfg, store, requests);
      && clientIdentifier in r.store
      && r.store[clientIdentifier] == store[clientIdentifier]
      && forall i :: 0 <= i < |requests| && requests[i].clientIdentifier == clientIdentifier ==>
           r.results[i] == (if clientIdentifier == [] then Failure(InvalidClientIdentifier) else Success(ExtendedBlock))
    decreases |requests|
  {
    if requests != [] {
      var r := Serve(cfg, store, requests);
      var o := IncrementRate(cfg, store, requests[0].clientIdentifier, requests[0].now);
      assert clientIdentifier in o.store && o.store[clientIdentifier] == store[clientIdentifier];
      ExtendedBlockIsTerminal(cfg, o.store, requests[1..], clientIdentifier);
      var rest := Serve(cfg, o.store, requests[1..]);
      assert r.results == [o.result] + rest.results;
      forall i | 0 <= i < |requests| && requests[i].clientIdentifier == clientIdentifier
        ensures r.results[i] == (if clientIdentifier == [] then Failure(InvalidClientIdentifier) else Success(ExtendedBlock))
      {
        if i > 0 {
          assert requests[1..][i - 1] == requests[i];
        }
      }
    }
  }

  /** Over a run, a client's excess count never decreases and grows by at most
      one per request it makes; a stored client stays stored. */
  lemma {:induction false} ExcessesNeverDecrease(cfg: Config, store: Store, requests: seq<Request>, clientIdentifier: string)
    requires ValidConfig(cfg)
    ensures var r := Serve(cfg, store, requests);
      var before := if clientIdentifier in store then store[clientIdentifier].record.excesses else 0;
      && (clientIdentifier in store ==> clientIdentifier in r.store)
      && (clientIdentifier in r.store ==>
            before <= r.store[clientIdentifier].record.excesses <= before + CountFor(requests, clientIdentifier))
    decreases |requests|
  {
    if requests != [] {
      var request := requests[0];
      var o := IncrementRate(cfg, store, request.clientIdentifier, request.now);
      var before := if clientIdentifier in store then store[clientIdentifier].record.excesses else 0;
      var middle := if clientIdentifier in o.store then o.store[clientIdentifier].record.excesses else 0;
      var step := if request.clientIdentifier == clientIdentifier then 1 else 0;
      if request.clientIdentifier == clientIdentifier {
        if clientIdentifier in store {
          ExcessesGrowByAtMostOne(cfg, store, clientIdentifier, request.now);
        } else if clientIdentifier in o.store {
          FreshRecordHasAtMostOneExcess(cfg, store, clientIdentifier, request.now);
        }
      }
      assert before <= middle <= before + step;
      assert clientIdentifier in store ==> clientIdentifier in o.store;
      ExcessesNeverDecrease(cfg, o.store, requests[1..], clientIdentifier);
    }
  }

  /** A store in which algorithm 1 has only ever counted one crossing per
      client and holds no extended block. */
  ghost predicate SingleCrossingStore(store: Store) {
    forall k :: k in store ==>
      DecayRate.SingleCrossing(store[k].record) && store[k].record.status != ExtendedBlock
  }

  /** With the compiled-in decay-rate parameters (30 excesses allowed), a
      client counts at most one crossing while its record lives, so from a
      store of such records no run ever returns an extended block. */
  lemma {:induction false} DecayRateNeverExtends(store: Store, requests: seq<Request>)
    requires SingleCrossingStore(store)
    ensures var r := Serve(Config(DecayRateId, DecayRate.Defaults, TokenBucket.Defaults), store, requests);
      && SingleCrossingStore(r.store)
      && forall i :: 0 <= i < |requests| ==> r.results[i] != Success(ExtendedBlock)
    decreases |requests|
  {
    if requests != [] {
      var cfg := Config(DecayRateId, DecayRate.Defaults, TokenBucket.Defaults);
      var request := requests[0];
      var o := IncrementRate(cfg, store, request.clientIdentifier, request.now);
      if request.clientIdentifier != [] {
        DecayRate.StepKeepsSingleCrossing(DecayRate.Defaults, Stored(store, request.clientIdentifier), request.now);
      }
      assert o.result != Success(ExtendedBlock);
      assert SingleCrossingStore(o.store);
      DecayRateNeverExtends(o.store, requests[1..]);
      var r := Serve(cfg, store, requests);
      var rest := Serve(cfg, o.store, requests[1..]);
      assert r.results == [o.result] + rest.results;
      forall i | 1 <= i < |requests|
        ensures r.results[i] != Success(ExtendedBlock)
      {
        assert r.results[i] == rest.results[i - 1];
      }
    }
  }

  /** The first record written for a client holds at most one excess. */
  lemma FreshRecordHasAtMostOneExcess(cfg: Config, store: Store, clientIdentifier: string, now: real)
    requires ValidConfig(cfg)
    requires clientIdentifier !in store
    ensures var o := IncrementRate(cfg, store, clientIdentifier, now);
      clientIdentifier in o.store ==> o.store[clientIdentifier].record.excesses <= 1
  {
  }

  /** The token-bucket configuration with the compiled-in parameters. */
  const TokenBucketConfig := Config(TokenBucketId, DecayRate.Defaults, TokenBucket.Defaults)

  /** The store of the scenarios below: client "c" holds `units` whole units
      of allowance, stamped at time `t`. */
  function Bucket(units: nat, t: real): Store {
    map["c" := Entry(Record(units as real, t, 0, NoBlock), 3600)]
  }

  /** With at least one unit in the bucket a request at the same instant is
      admitted and spends exactly one unit. */
  lemma AdmitSpendsOneUnit(units: nat, t: real)
    requires 1 <= units <= 10
    ensures var r := IncrementRate(TokenBucketConfig, Bucket(units, t), "c", t);
      r.result == Success(NoBlock) && r.store == Bucket(units - 1, t)
  {
    var d := TokenBucket.Step(TokenBucket.Defaults, Some(Record(units as real, t, 0, NoBlock)), t);
    assert TokenBucket.Replenish(TokenBucket.Defaults) == 2.0;
    assert TokenBucket.Refill(TokenBucket.Defaults, units as real, 0.0) == units as real;
    assert d.write.value == Persist(Record((units - 1) as real, t, 0, NoBlock), 3600);
  }

  /** The record left by a short block on an empty bucket at time `t`. */
  function Blocked(t: real): Record {
    Record(0.0, t, 1, ShortBlock)
  }

  /** With an empty bucket a request at the same instant is short-blocked,
      counts a fresh excess and leaves the allowance at zero. */
  lemma EmptyBucketBlocks(t: real)
    ensures var r := IncrementRate(TokenBucketConfig, Bucket(0, t), "c", t);
      r.result == Success(ShortBlock) && r.store == map["c" := Entry(Blocked(t), 3600)]
  {
  }

  /** One second after that short block, two units have been refilled: the
      request is admitted, spends one unit and keeps the excess count. */
  lemma OneSecondRefillReadmits(t: real)
    ensures var r := IncrementRate(TokenBucketConfig, map["c" := Entry(Blocked(t), 3600)], "c", t + 1.0);
      && r.result == Success(NoBlock)
      && r.store == map["c" := Entry(Record(1.0, t + 1.0, 1, NoBlock), 3600)]
  {
    assert TokenBucket.Replenish(TokenBucket.Defaults) == 2.0;
  }

  /** Served on its own, the request one second after the short block is
      admitted. */
  lemma OneSecondLater(t: real)
    ensures Serve(TokenBucketConfig, map["c" := Entry(Blocked(t), 3600)], [Request("c", t + 1.0)]).results == [Success(NoBlock)]
  {
    var requests := [Request("c", t + 1.0)];
    var after := map["c" := Entry(Blocked(t), 3600)];
    OneSecondRefillReadmits(t);
    assert requests[1..] == [];
    ServeFirst(TokenBucketConfig, after, requests);
  }

  /** `n` requests from "c" at time `t`, then one at `t + 1`. */
  function BurstThenPauseRequests(n: nat, t: real): (requests: seq<Request>)
    ensures |requests| == n + 1
  {
    if n == 0 then [Request("c", t + 1.0)]
    else [Request("c", t)] + BurstThenPauseRequests(n - 1, t)
  }

  /** `units` admissions, a short block, then an admission. */
  function AdmittedThenBlocked(units: nat): (results: seq<Result<Status, Error>>)
    ensures |results| == units + 2
  {
    if units == 0 then [Success(ShortBlock), Success(NoBlock)]
    else [Success(NoBlock)] + AdmittedThenBlocked(units - 1)
  }

  /** A burst at time `t` followed by one request a second later, from a
      client whose bucket holds `units` whole units at `t`: the first `units`
      requests are admitted, the next is short-blocked and the one a second
      later is admitted again. */
  lemma {:induction false} BurstThenPause(units: nat, t: real)
    requires units <= 10
    ensures Serve(TokenBucketConfig, Bucket(units, t), BurstThenPauseRequests(units + 1, t)).results == AdmittedThenBlocked(units)
  {
    var requests := BurstThenPauseRequests(units + 1, t);
    assert requests == [Request("c", t)] + BurstThenPauseRequests(units, t);
    assert requests[0] == Request("c", t);
    assert requests[1..] == BurstThenPauseRequests(units, t);
    ServeFirst(TokenBucketConfig, Bucket(units, t), requests);
    if units == 0 {
      assert requests[1..] == [Request("c", t + 1.0)];
      EmptyBucketBlocks(t);
      OneSecondLater(t);
    } else {
      AdmitSpendsOneUnit(units, t);
      BurstThenPause(units - 1, t);
    }
  }

  /** Ten requests per five seconds: a client first seen at time `t` (at
      least four seconds after the epoch, so that the refill from `last = 0`
      reaches the cap) makes eleven requests at that instant and a twelfth one
      second later. Ten are admitted, the eleventh is short-blocked, and the
      two units refilled in one second admit the twelfth. */
  lemma TokenBucketScenario(t: real)
    requires t >= 4.0
    ensures var r := Serve(TokenBucketConfig, map[], BurstThenPauseRequests(11, t)).results;
      && r == AdmittedThenBlocked(10)
      && |r| == 12
      && (forall i :: 0 <= i < 10 ==> r[i] == Success(NoBlock))
      && r[10] == Success(ShortBlock)
      && r[11] == Success(NoBlock)
  {
    var requests := BurstThenPauseRequests(11, t);
    assert requests[0] == Request("c", t);
    assert TokenBucket.Replenish(TokenBucket.Defaults) == 2.0;
    var d := TokenBucket.Step(TokenBucket.Defaults, None, t);
    assert TokenBucket.Refill(TokenBucket.Defaults, 2.0, t) == 10.0;
    assert d.write.value == Persist(Record(9.0, t, 0, NoBlock), 3600);
    var first := IncrementRate(TokenBucketConfig, map[], "c", t);
    assert first.store == Bucket(9, t) && first.result == Success(NoBlock);
    BurstThenPause(9, t);
    assert requests[1..] == BurstThenPauseRequests(10, t);
    ServeFirst(TokenBucketConfig, map[], requests);
    AdmittedThenBlockedShape(10);
  }

  /** The shape of `AdmittedThenBlocked`: admissions first, then a short block
      and a final admission. */
  lemma {:induction false} AdmittedThenBlockedShape(units: nat)
    ensures var results := AdmittedThenBlocked(units);
      && (forall i :: 0 <= i < units ==> results[i] == Success(NoBlock))
      && results[units] == Success(ShortBlock)
      && results[units + 1] == Success(NoBlock)
  {
    if units > 0 {
      AdmittedThenBlockedShape(units - 1);
    }
  }
}
