/**
 Login handlers that overlap.  A handler asks whether the key is locked, and records its
 failure later; in between, others may ask and be let through too.
 */
module LoginRace {
  import opened LoginLimiter

  datatype Call =
    | Check(key: string, now: Instant)     // `is_locked`: let through or refused
    | Record(key: string, now: Instant)    // a handler that was let through records a failure
    | Clear(key: string)                   // ... or succeeds
    | Leave(key: string)                   // ... or ends without a verdict

  /** The limiter's map, and how many handlers are between check and verdict for the key in question. */
  datatype State = State(failures: Failures, inFlight: nat)

  const IDLE := State(map[], 0)

  predicate LetsIn(c: Config, s: State, call: Call) {
    call.Check? && !Locked(c, Pruned(c, s.failures, call.now), call.key)
  }

  function Step(c: Config, s: State, key: string, call: Call): State {
    var own := call.key == key;
    var left := if own && s.inFlight > 0 then s.inFlight - 1 else s.inFlight;
    match call
    case Check(k, now) =>
      State(Pruned(c, s.failures, now), if own && LetsIn(c, s, call) then s.inFlight + 1 else s.inFlight)
    case Record(k, now) => State(Recorded(Pruned(c, s.failures, now), k, now), left)
    case Clear(k) => State(s.failures - {k}, left)
    case Leave(_) => s.(inFlight := left)
  }

  /** At most `width` handlers of the key at a time, and only those let in reach a verdict. */
  predicate Possible(c: Config, s: State, key: string, width: nat, call: Call) {
    call.key == key ==> if call.Check? then (LetsIn(c, s, call) ==> s.inFlight < width) else s.inFlight > 0
  }

  function Run(c: Config, key: string, calls: seq<Call>): State {
    if calls == [] then IDLE else Step(c, Run(c, key, calls[..|calls| - 1]), key, calls[|calls| - 1])
  }

  predicate PossibleRun(c: Config, key: string, width: nat, calls: seq<Call>) {
    calls == [] || (&& PossibleRun(c, key, width, calls[..|calls| - 1])
                    && Possible(c, Run(c, key, calls[..|calls| - 1]), key, width, calls[|calls| - 1]))
  }

  function Count(s: State, key: string): nat { if key in s.failures then s.failures[key].count else 0 }

  lemma StepKeepsSum(c: Config, s: State, key: string, width: nat, call: Call)
    requires c.max > 0 && width > 0 && Possible(c, s, key, width, call)
    requires s.inFlight <= width && Count(s, key) + s.inFlight < c.max + width
    ensures var t := Step(c, s, key, call); t.inFlight <= width && Count(t, key) + t.inFlight < c.max + width
  {
  }

  /** Recorded failures and handlers still to come stay below `max + width`. */
  lemma {:induction false} RunKeepsSum(c: Config, key: string, width: nat, calls: seq<Call>)
    requires c.max > 0 && width > 0 && PossibleRun(c, key, width, calls)
    ensures var s := Run(c, key, calls); s.inFlight <= width && Count(s, key) + s.inFlight < c.max + width
  {
    if calls != [] {
      var front := calls[..|calls| - 1];
      RunKeepsSum(c, key, width, front);
      StepKeepsSum(c, Run(c, key, front), key, width, calls[|calls| - 1]);
    }
  }

  /** With `width` handlers at a time an entry exceeds `max` by at most `width - 1`. */
  lemma EntryExceedsByAtMost(c: Config, key: string, width: nat, calls: seq<Call>)
    requires c.max > 0 && width > 0 && PossibleRun(c, key, width, calls)
    ensures Count(Run(c, key, calls), key) <= c.max + width - 1
  {
    RunKeepsSum(c, key, width, calls);
  }

  // -------------------------------------------------------------------------
  // The excess is reached
  // -------------------------------------------------------------------------

  function Checks(key: string, n: nat): seq<Call> { seq(n, i => Check(key, 0)) }

  function Records(key: string, n: nat): seq<Call> { seq(n, i => Record(key, 0)) }

  /** One after the other up to one below the limit, then `width` at once. */
  function Rush(c: Config, key: string, width: nat): seq<Call>
    requires c.max > 0
  {
    OneByOne(key, c.max - 1) + Checks(key, width) + Records(key, width)
  }

  function OneByOne(key: string, n: nat): seq<Call> {
    if n == 0 then [] else OneByOne(key, n - 1) + [Check(key, 0)] + [Record(key, 0)]
  }

  /** A possible run that leaves `count` failures recorded at instant 0 and `inFlight` handlers. */
  predicate Reaches(c: Config, key: string, width: nat, calls: seq<Call>, count: nat, inFlight: nat) {
    && PossibleRun(c, key, width, calls)
    && var s := Run(c, key, calls);
       s.inFlight == inFlight && Count(s, key) == count && (key in s.failures ==> s.failures[key].first == 0)
  }

  lemma OneCheck(c: Config, key: string, width: nat, calls: seq<Call>, count: nat, inFlight: nat)
    requires c.window > 0 && count < c.max && inFlight < width && Reaches(c, key, width, calls, count, inFlight)
    ensures Reaches(c, key, width, calls + [Check(key, 0)], count, inFlight + 1)
  {
    assert (calls + [Check(key, 0)])[..|calls|] == calls;
  }

  lemma OneRecord(c: Config, key: string, width: nat, calls: seq<Call>, count: nat, more: nat, inFlight: nat, less: nat)
    requires c.window > 0 && count < U32_MAX && more == count + 1 && inFlight == less + 1
    requires Reaches(c, key, width, calls, count, inFlight)
    ensures Reaches(c, key, width, calls + [Record(key, 0)], more, less)
  {
    assert (calls + [Record(key, 0)])[..|calls|] == calls;
  }

  lemma {:induction false} OneByOneReaches(c: Config, key: string, width: nat, n: nat)
    requires c.window > 0 && n < c.max <= U32_MAX && width > 0
    ensures Reaches(c, key, width, OneByOne(key, n), n, 0)
  {
    if n > 0 {
      OneByOneReaches(c, key, width, n - 1);
      OneCheck(c, key, width, OneByOne(key, n - 1), n - 1, 0);
      OneRecord(c, key, width, OneByOne(key, n - 1) + [Check(key, 0)], n - 1, n, 1, 0);
    }
  }

  lemma {:induction false} ChecksReach(c: Config, key: string, width: nat, calls: seq<Call>, count: nat, n: nat)
    requires c.window > 0 && count < c.max && n <= width && Reaches(c, key, width, calls, count, 0)
    ensures Reaches(c, key, width, calls + Checks(key, n), count, n)
  {
    if n == 0 {
      assert calls + Checks(key, 0) == calls;
    } else {
      ChecksReach(c, key, width, calls, count, n - 1);
      OneCheck(c, key, width, calls + Checks(key, n - 1), count, n - 1);
      assert calls + Checks(key, n) == calls + Checks(key, n - 1) + [Check(key, 0)];
    }
  }

  lemma {:induction false} RecordsReach(
    c: Config, key: string, width: nat, calls: seq<Call>, count: nat, w: nat, n: nat)
    requires c.window > 0 && n <= w && count + n <= U32_MAX && Reaches(c, key, width, calls, count, w)
    ensures Reaches(c, key, width, calls + Records(key, n), count + n, w - n)
  {
    if n == 0 {
      assert calls + Records(key, 0) == calls;
    } else {
      RecordsReach(c, key, width, calls, count, w, n - 1);
      OneRecord(c, key, width, calls + Records(key, n - 1), count + (n - 1), count + n, w - (n - 1), w - n);
      assert calls + Records(key, n) == calls + Records(key, n - 1) + [Record(key, 0)];
    }
  }

  /** `width` handlers that are let in together all record. */
  lemma ExcessIsReached(c: Config, key: string, width: nat)
    requires c.window > 0 && c.max > 0 && width > 0 && c.max + width - 1 <= U32_MAX
    ensures PossibleRun(c, key, width, Rush(c, key, width))
    ensures Count(Run(c, key, Rush(c, key, width)), key) == c.max + width - 1
  {
    OneByOneReaches(c, key, width, c.max - 1);
    ChecksReach(c, key, width, OneByOne(key, c.max - 1), c.max - 1, width);
    RecordsReach(c, key, width, OneByOne(key, c.max - 1) + Checks(key, width), c.max - 1, width, width);
  }
}
