/** The `Limiter` class of limiter.py: the dispatcher `incrementRate`, which
    validates the client identifier and routes to the configured algorithm,
    and the `_get`/`_set` pair over an abstract key-value store. */
module Limiter {

  import opened Wrappers
  import opened LimiterState
  import DecayRate
  import TokenBucket

  const DecayRateId := 1
  const TokenBucketId := 2
  const PassThroughId := 3

  /** The module-level settings: which algorithm is selected and the
      parameters of the two stateful ones. */
  datatype Config = Config(algorithmId: int, decayRate: DecayRate.Params, tokenBucket: TokenBucket.Params)

  /** The settings as compiled in: algorithm 3, no rate limit, is selected. */
  const Source := Config(PassThroughId, DecayRate.Defaults, TokenBucket.Defaults)

  /** The token bucket divides by its period when the module loads. */
  predicate ValidConfig(cfg: Config) {
    cfg.tokenBucket.period > 0.0
  }

  /** A live store entry: the record and the time to live it was written with.
      An expired entry is simply absent from the map. */
  datatype Entry = Entry(record: Record, ttl: nat)

  type Store = map<string, Entry>

  /** One access to the store, in the order the limiter makes them. */
  datatype Effect = Read(key: string) | Write(key: string, entry: Entry)

  /** What one call does: the status it returns or the exception it raises,
      the store accesses it made, and the store afterwards. */
  datatype Outcome = Outcome(result: Result<Status, Error>, effects: seq<Effect>, store: Store)

  /** The record stored under `key`, if any. */
  function Stored(store: Store, key: string): Option<Record> {
    if key in store then Some(store[key].record) else None
  }

  /** `_get`: the record stored under a non-empty key, if any. */
  function Get(store: Store, key: string): (r: Result<Option<Record>, Error>)
    ensures r.Failure? <==> key == []
    ensures r.Failure? ==> r.error == InvalidKey
    ensures r.Success? ==> (r.value.Some? <==> key in store)
    ensures r.Success? && r.value.Some? ==> r.value.value == store[key].record
  {
    if key == [] then Failure(InvalidKey)
    else Success(Stored(store, key))
  }

  /** `_set`: stores a record under a non-empty key with a time to live,
      leaving every other key as it was. */
  function Set(store: Store, key: string, record: Record, ttl: nat): (r: Result<Store, Error>)
    ensures r.Failure? <==> key == []
    ensures r.Failure? ==> r.error == InvalidKey
    ensures r.Success? ==> r.value.Keys == store.Keys + {key}
    ensures r.Success? ==> r.value[key] == Entry(record, ttl)
    ensures r.Success? ==> forall k :: k in store && k != key ==> r.value[k] == store[k]
  {
    if key == [] then Failure(InvalidKey)
    else Success(store[key := Entry(record, ttl)])
  }

  /** Reading a key back after setting it gives the record just set; every
      other key reads as before. */
  lemma GetAfterSet(store: Store, key: string, record: Record, ttl: nat, other: string)
    requires key != []
    ensures Set(store, key, record, ttl).Success?
    ensures Get(Set(store, key, record, ttl).value, key) == Success(Some(record))
    ensures other != key ==> Get(Set(store, key, record, ttl).value, other) == Get(store, other)
  {
  }

  /** Persists an algorithm's decision, when it asks for a write, under the
      client's key; `effects` are the accesses made before it. */
  function PersistDecision(store: Store, key: string, d: Decision, effects: seq<Effect>): (r: Outcome)
    requires key != []
    ensures r.result == Success(d.status)
    ensures d.write.None? ==> r == Outcome(Success(d.status), effects, store)
    ensures d.write.Some? ==>
      var e := Entry(d.write.value.record, d.write.value.ttl);
      && r.effects == effects + [Write(key, e)]
      && r.store == store[key := e]
  {
    match d.write
    case None => Outcome(Success(d.status), effects, store)
    case Some(w) =>
      match Set(store, key, w.record, w.ttl)
      case Failure(e) => Outcome(Failure(e), effects, store)
      case Success(store') => Outcome(Success(d.status), effects + [Write(key, Entry(w.record, w.ttl))], store')
  }

  /** The algorithms that read and write the store. */
  predicate Stateful(cfg: Config) {
    cfg.algorithmId == DecayRateId || cfg.algorithmId == TokenBucketId
  }

  /** The outcome of a stateful call whose algorithm decided `d` after reading
      the client's entry: `d`'s status, and `d`'s write, if any, stored under
      the client's key. */
  ghost predicate Carries(r: Outcome, store: Store, key: string, d: Decision)
  {
    && r.result == Success(d.status)
    && (d.write.None? ==> r.effects == [Read(key)] && r.store == store)
    && (d.write.Some? ==>
          var e := Entry(d.write.value.record, d.write.value.ttl);
          r.effects == [Read(key), Write(key, e)] && r.store == store[key := e])
  }

  /** `incrementRate`: one request from `clientIdentifier` at time `now`. */
  function IncrementRate(cfg: Config, store: Store, clientIdentifier: string, now: real): (r: Outcome)
    requires ValidConfig(cfg)
    // a falsy identifier is refused before the store is consulted
    ensures clientIdentifier == [] ==> r == Outcome(Failure(InvalidClientIdentifier), [], store)
    // an unknown algorithm is refused, also before the store is consulted
    ensures clientIdentifier != [] && !Stateful(cfg) && cfg.algorithmId != PassThroughId ==>
      r == Outcome(Failure(NoAlgorithmSelected), [], store)
    // pass-through admits without any store access
    ensures clientIdentifier != [] && cfg.algorithmId == PassThroughId ==>
      r == Outcome(Success(NoBlock), [], store)
    // algorithm 2 returns and persists the token bucket's decision
    ensures clientIdentifier != [] && cfg.algorithmId == TokenBucketId ==>
      Carries(r, store, clientIdentifier, TokenBucket.Step(cfg.tokenBucket, Stored(store, clientIdentifier), now))
    // algorithm 1 returns and persists the decay rate's decision, or raises
    // its exception after the read
    ensures clientIdentifier != [] && cfg.algorithmId == DecayRateId ==>
      var s := DecayRate.Step(cfg.decayRate, Stored(store, clientIdentifier), now);
      && (s.Failure? ==> r == Outcome(Failure(s.error), [Read(clientIdentifier)], store))
      && (s.Success? ==> Carries(r, store, clientIdentifier, s.value))
    // an extended block is returned after the read, and nothing is written
    ensures clientIdentifier != [] && Stateful(cfg) && clientIdentifier in store &&
            store[clientIdentifier].record.status == ExtendedBlock ==>
      r == Outcome(Success(ExtendedBlock), [Read(clientIdentifier)], store)
    // any other admitted or blocked stateful call writes the client's entry,
    // with the returned status and `now`
    ensures clientIdentifier != [] && Stateful(cfg) && r.result.Success? &&
            (clientIdentifier !in store || store[clientIdentifier].record.status != ExtendedBlock) ==>
      && |r.effects| == 2
      && clientIdentifier in r.store
      && r.effects[1] == Write(clientIdentifier, r.store[clientIdentifier])
      && r.store[clientIdentifier].record.status == r.result.value
      && r.store[clientIdentifier].record.last == now
    // a call that raises leaves the store as it was; the key checks of the
    // store never fire, and only algorithm 1 can raise after the read
    ensures r.result.Failure? ==> r.store == store
    ensures r.result.Failure? ==> r.result.error != InvalidKey && r.result.error != UndefinedName
    ensures r.result.Failure? && r.effects != [] ==> cfg.algorithmId == DecayRateId && r.result.error == ZeroDivision
    // no other client's entry changes
    ensures r.store.Keys <= store.Keys + {clientIdentifier}
    ensures forall k :: k in store && k != clientIdentifier ==> k in r.store && r.store[k] == store[k]
  {
    if clientIdentifier == [] then
      Outcome(Failure(InvalidClientIdentifier), [], store)
    else if cfg.algorithmId == DecayRateId then
      match Get(store, clientIdentifier)
      case Failure(e) => Outcome(Failure(e), [], store)
      case Success(data) =>
        match DecayRate.Step(cfg.decayRate, data, now)
        case Failure(e) => Outcome(Failure(e), [Read(clientIdentifier)], store)
        case Success(d) =>
          // keyed by the argument: limiter.py:275 names `self.clientIdentifier`
          PersistDecision(store, clientIdentifier, d, [Read(clientIdentifier)])
    else if cfg.algorithmId == TokenBucketId then
      match Get(store, clientIdentifier)
      case Failure(e) => Outcome(Failure(e), [], store)
      case Success(data) =>
        var d := TokenBucket.Step(cfg.tokenBucket, data, now);
        PersistDecision(store, clientIdentifier, d, [Read(clientIdentifier)])
    else if cfg.algorithmId == PassThroughId then
      Outcome(Success(NoBlock), [], store)
    else
      Outcome(Failure(NoAlgorithmSelected), [], store)
  }

  /** The written time to live is the extended-block expiration of the active
      algorithm exactly for an extended block, the normal expiration otherwise. */
  lemma WrittenTtlFollowsStatus(cfg: Config, store: Store, clientIdentifier: string, now: real)
    requires ValidConfig(cfg) && Stateful(cfg)
    ensures var o := IncrementRate(cfg, store, clientIdentifier, now);
      var (expiration, extended) :=
        if cfg.algorithmId == DecayRateId
        then (cfg.decayRate.expiration, cfg.decayRate.extendedBlockExpiration)
        else (cfg.tokenBucket.expiration, cfg.tokenBucket.extendedBlockExpiration);
      o.result.Success? && |o.effects| == 2 ==>
        && (o.result.value == ExtendedBlock ==> o.store[clientIdentifier].ttl == extended)
        && (o.result.value != ExtendedBlock ==> o.store[clientIdentifier].ttl == expiration)
  {
  }

  /** A client's excess count never decreases and grows by at most one per
      call; it grows only when the call blocks a client that was admitted. */
  lemma ExcessesGrowByAtMostOne(cfg: Config, store: Store, clientIdentifier: string, now: real)
    requires ValidConfig(cfg)
    requires clientIdentifier in store
    ensures var o := IncrementRate(cfg, store, clientIdentifier, now);
      var before := store[clientIdentifier].record;
      && clientIdentifier in o.store
      && before.excesses <= o.store[clientIdentifier].record.excesses <= before.excesses + 1
      && (o.store[clientIdentifier].record.excesses == before.excesses + 1 ==>
            before.status == NoBlock && o.result.Success? && o.result.value != NoBlock)
  {
  }

  /** With the maximum excesses of the active algorithm set to -1 no call
      puts a client in an extended block. */
  lemma NoExtendedBlockWithoutMaximum(cfg: Config, store: Store, clientIdentifier: string, now: real)
    requires ValidConfig(cfg) && Stateful(cfg)
    requires cfg.algorithmId == DecayRateId ==> cfg.decayRate.maximumExcesses == -1
    requires cfg.algorithmId == TokenBucketId ==> cfg.tokenBucket.maximumExcesses == -1
    requires clientIdentifier in store ==> store[clientIdentifier].record.status != ExtendedBlock
    ensures IncrementRate(cfg, store, clientIdentifier, now).result != Success(ExtendedBlock)
  {
  }
}
