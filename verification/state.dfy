/** The per-client record shared by the two stateful algorithms of limiter.py,
    the three limiter statuses, and the small state machine both algorithms
    run when a client crosses its threshold. */
module LimiterState {

  import opened Wrappers

  /** Limiter status. The source returns these as the integers 0, 1 and 2. */
  datatype Status = NoBlock | ShortBlock | ExtendedBlock

  /** The integer the source uses for each status. */
  function Code(s: Status): (c: int)
    ensures 0 <= c <= 2
    ensures c == 0 <==> s == NoBlock
    ensures c == 2 <==> s == ExtendedBlock
  {
    match s
    case NoBlock => 0
    case ShortBlock => 1
    case ExtendedBlock => 2
  }

  /** Reads a status back from its integer code; codes outside 0..2 name no status. */
  function FromCode(c: int): (s: Option<Status>)
    ensures s.Some? <==> 0 <= c <= 2
    ensures s.Some? ==> Code(s.value) == c
  {
    if c == 0 then Some(NoBlock)
    else if c == 1 then Some(ShortBlock)
    else if c == 2 then Some(ExtendedBlock)
    else None
  }

  /** Every status survives a trip through its integer code. */
  lemma CodeRoundTrip(s: Status)
    ensures FromCode(Code(s)) == Some(s)
  {
  }

  /** The value tuple stored per client: `value` is the decay rate (algorithm 1)
      or the token allowance (algorithm 2); `last` is the time of the previous
      request, `excesses` the number of fresh threshold crossings. */
  datatype Record = Record(value: real, last: real, excesses: nat, status: Status)

  /** What an algorithm asks the store to persist, with its time to live in seconds. */
  datatype Persist = Persist(record: Record, ttl: nat)

  /** The outcome of one algorithm step: the status returned to the caller and
      the optional write. */
  datatype Decision = Decision(status: Status, write: Option<Persist>)

  /** The exceptions the limiter can raise. */
  datatype Error =
    | InvalidClientIdentifier   // ValueError('Missing or invalid client identifier')
    | NoAlgorithmSelected       // ValueError('No algorithm was selected')
    | InvalidKey                // ValueError('Missing or invalid key') from _get/_set
    | ZeroDivision              // ZeroDivisionError in the decay-rate formula
    | UndefinedName             // AttributeError/NameError on the source's write lines

  /** The excess handling both algorithms run once the threshold is crossed:
      a crossing counts as a new excess only from NO_BLOCK, and the client is
      put in an extended block once the count passes `maximumExcesses`
      (-1 disables extended blocks). */
  function Escalate(status: Status, excesses: nat, maximumExcesses: int): (r: (nat, Status))
    ensures excesses <= r.0 <= excesses + 1
    ensures r.0 == excesses + 1 <==> status == NoBlock
    ensures r.1 != NoBlock
    ensures r.1 == ExtendedBlock <==> maximumExcesses != -1 && r.0 > maximumExcesses
  {
    var count := if status == NoBlock then excesses + 1 else excesses;
    if maximumExcesses != -1 && count > maximumExcesses then (count, ExtendedBlock)
    else (count, ShortBlock)
  }

  /** The time to live written with a record: the extended-block expiration for
      an extended block, the normal expiration otherwise. */
  function Expiration(status: Status, expiration: nat, extendedBlockExpiration: nat): (ttl: nat)
    ensures ttl == expiration || ttl == extendedBlockExpiration
    ensures expiration != extendedBlockExpiration ==> (ttl == extendedBlockExpiration <==> status == ExtendedBlock)
  {
    if status == ExtendedBlock then extendedBlockExpiration else expiration
  }

  /** The record carried by a decision's write, when there is one, agrees with
      the returned status, is stamped with `now`, and carries the TTL chosen by
      its status. */
  ghost predicate WritesStatus(d: Decision, now: real, expiration: nat, extendedBlockExpiration: nat)
  {
    d.write.Some? ==>
      && d.write.value.record.status == d.status
      && d.write.value.record.last == now
      && (d.status == ExtendedBlock ==> d.write.value.ttl == extendedBlockExpiration)
      && (d.status != ExtendedBlock ==> d.write.value.ttl == expiration)
  }
}
