/**
  The in-memory sliding-window limiter.  It prunes what it stores, and still answers as if it kept every
  event; behind check-then-record callers no window holds more than the maximum.
 */
module RateLimiting {
  import opened Wrappers
  import opened Collections

  /** The events later than the cutoff. */
  function After(events: seq<real>, cutoff: real): (r: seq<real>)
    ensures |r| <= |events|
  {
    if events == [] then []
    else After(events[..|events| - 1], cutoff) + if events[|events| - 1] > cutoff then [events[|events| - 1]] else []
  }

  /** The number of events in the half-open window that ends at `t`. */
  function Within(events: seq<real>, window: real, t: real): nat {
    if events == [] then 0
    else
      var last := events[|events| - 1];
      Within(events[..|events| - 1], window, t) + if t - window < last <= t then 1 else 0
  }

  ghost predicate UpTo(events: seq<real>, clock: real) {
    forall i | 0 <= i < |events| :: events[i] <= clock
  }

  lemma {:induction false} AfterAppend(events: seq<real>, e: real, cutoff: real)
    ensures After(events + [e], cutoff) == After(events, cutoff) + if e > cutoff then [e] else []
  {
    assert (events + [e])[..|events|] == events;
  }

  lemma {:induction false} WithinAppend(events: seq<real>, e: real, window: real, t: real)
    ensures Within(events + [e], window, t) == Within(events, window, t) + if t - window < e <= t then 1 else 0
  {
    assert (events + [e])[..|events|] == events;
  }

  /** Pruning twice is pruning by the later cutoff. */
  lemma {:induction false} AfterTwice(events: seq<real>, early: real, late: real)
    requires early <= late
    ensures After(After(events, early), late) == After(events, late)
  {
    if events != [] {
      var rest, last := events[..|events| - 1], events[|events| - 1];
      AfterTwice(rest, early, late);
      AfterAppend(After(rest, early), last, late);
      ConcatNothing(After(rest, early));
    }
  }

  /** The events after the cutoff are those in the window, if none is in the future. */
  lemma {:induction false} AfterIsWithin(events: seq<real>, window: real, now: real)
    requires UpTo(events, now)
    ensures |After(events, now - window)| == Within(events, window, now)
  {
    if events != [] {
      AfterIsWithin(events[..|events| - 1], window, now);
    }
  }

  /** A window that ends later holds no more of the events there are. */
  lemma {:induction false} LaterWindow(events: seq<real>, window: real, now: real, t: real)
    requires UpTo(events, now) && now <= t
    ensures Within(events, window, t) <= Within(events, window, now)
  {
    if events != [] {
      LaterWindow(events[..|events| - 1], window, now, t);
    }
  }

  /** No window of the given length holds more than `max` events. */
  ghost predicate Bounded(events: seq<real>, window: real, max: nat) {
    forall t: real :: Within(events, window, t) <= max
  }

  /** Admitting one more event into a window that is not full keeps every window within the maximum. */
  lemma {:induction false} AdmitStep(events: seq<real>, window: real, max: nat, now: real)
    requires Bounded(events, window, max) && UpTo(events, now) && Within(events, window, now) < max
    ensures Bounded(events + [now], window, max)
  {
    forall t: real ensures Within(events + [now], window, t) <= max {
      WithinAppend(events, now, window, t);
      if now <= t {
        LaterWindow(events, window, now, t);
      }
    }
  }

  type Log = map<string, seq<real>>

  function Events(log: Log, key: string): seq<real> {
    if key in log then log[key] else []
  }

  ghost predicate AllUpTo(log: Log, clock: real) {
    forall key: string :: UpTo(Events(log, key), clock)
  }

  /** What is stored of a key is its log after some cutoff, or nothing if it has no log. */
  ghost predicate AgreesOn(attempts: Log, log: Log, cutoffs: map<string, real>, limit: real, key: string) {
    if key in cutoffs then
      cutoffs[key] <= limit && Events(attempts, key) == After(Events(log, key), cutoffs[key])
    else
      Events(attempts, key) == [] && Events(log, key) == []
  }

  ghost predicate Agree(attempts: Log, log: Log, cutoffs: map<string, real>, limit: real) {
    forall key: string :: AgreesOn(attempts, log, cutoffs, limit, key)
  }

  /** Pruning what is stored is pruning the log. */
  lemma {:induction false} PruneAgrees(attempts: Log, log: Log, cutoffs: map<string, real>, limit: real, key: string, now: real)
    requires Agree(attempts, log, cutoffs, limit) && limit <= now
    ensures After(Events(attempts, key), now) == After(Events(log, key), now)
  {
    assert AgreesOn(attempts, log, cutoffs, limit, key);
    if key in cutoffs {
      AfterTwice(Events(log, key), cutoffs[key], now);
    }
  }

  /** After pruning or recording one key, with the cutoff of now, everything still agrees. */
  lemma {:induction false} AgreeStep(attempts: Log, log: Log, cutoffs: map<string, real>, limit: real, attempts': Log, log': Log,
                                     key: string, now: real)
    requires Agree(attempts, log, cutoffs, limit) && limit <= now
    requires forall k: string :: k != key ==> Events(attempts', k) == Events(attempts, k) && Events(log', k) == Events(log, k)
    requires Events(attempts', key) == After(Events(log', key), now)
    ensures Agree(attempts', log', cutoffs[key := now], now)
  {
    var cutoffs' := cutoffs[key := now];
    forall k: string ensures AgreesOn(attempts', log', cutoffs', now, k) {
      assert AgreesOn(attempts, log, cutoffs, limit, k);
    }
  }

  lemma {:induction false} AllUpToStep(log: Log, clock: real, key: string, events: seq<real>, now: real)
    requires AllUpTo(log, clock) && clock <= now && UpTo(events, now)
    ensures AllUpTo(log[key := events], now)
    ensures AllUpTo(log, now)
  {
    var log' := log[key := events];
    forall k: string ensures UpTo(Events(log', k), now) && UpTo(Events(log, k), now) {
      assert UpTo(Events(log, k), clock);
      assert Events(log', k) == if k == key then events else Events(log, k);
    }
  }

  lemma {:induction false} ResetAgrees(attempts: Log, log: Log, cutoffs: map<string, real>, clock: real, window: real, key: string)
    requires AllUpTo(log, clock) && Agree(attempts, log, cutoffs, clock - window)
    ensures AllUpTo(log - {key}, clock) && Agree(attempts - {key}, log - {key}, cutoffs - {key}, clock - window)
  {
    forall k: string
      ensures UpTo(Events(log - {key}, k), clock)
      ensures AgreesOn(attempts - {key}, log - {key}, cutoffs - {key}, clock - window, k)
    {
      assert UpTo(Events(log, k), clock);
      assert AgreesOn(attempts, log, cutoffs, clock - window, k);
    }
  }

  /** Every window of every key is within the maximum, and so is every stored list. */
  ghost predicate EachBounded(log: Log, attempts: Log, window: real, max: nat) {
    forall key: string :: KeyBounded(log, attempts, window, max, key)
  }

  ghost predicate KeyBounded(log: Log, attempts: Log, window: real, max: nat, key: string) {
    Bounded(Events(log, key), window, max) && |Events(attempts, key)| <= max
  }

  lemma {:induction false} BoundedStep(log: Log, attempts: Log, log': Log, attempts': Log, window: real, max: nat, key: string)
    requires EachBounded(log, attempts, window, max)
    requires forall k: string :: k != key ==> Events(attempts', k) == Events(attempts, k) && Events(log', k) == Events(log, k)
    requires KeyBounded(log', attempts', window, max, key)
    ensures EachBounded(log', attempts', window, max)
  {
    forall k: string ensures KeyBounded(log', attempts', window, max, k) {
      assert KeyBounded(log, attempts, window, max, k);
    }
  }

  lemma {:induction false} Updated(log: Log, key: string, events: seq<real>)
    ensures Events(log[key := events], key) == events
    ensures forall k: string :: k != key ==> Events(log[key := events], k) == Events(log, k)
  {
  }

  /** What is stored is the log from the cutoff on, also with one more event behind both. */
  lemma {:induction false} RecordPrunes(attempts: Log, log: Log, window: real, key: string, now: real)
    requires UpTo(Events(log, key), now) && window > 0.0
    requires Events(attempts, key) == After(Events(log, key), now - window)
    ensures var stored, events := Events(attempts, key) + [now], Events(log, key) + [now];
      UpTo(events, now) && stored == After(events, now - window) && |stored| == Within(events, window, now)
  {
    AfterAppend(Events(log, key), now, now - window);
    AfterIsWithin(Events(log, key) + [now], window, now);
  }

  /** Recording an event at the instant of the last pruning keeps the agreement. */
  lemma {:induction false} RecordAgrees(attempts: Log, log: Log, cutoffs: map<string, real>, window: real, key: string, now: real,
                                        attempts': Log, log': Log)
    requires AllUpTo(log, now) && Agree(attempts, log, cutoffs, now - window) && window > 0.0
    requires Events(attempts, key) == After(Events(log, key), now - window)
    requires attempts' == attempts[key := Events(attempts, key) + [now]] && log' == log[key := Events(log, key) + [now]]
    ensures AllUpTo(log', now) && Agree(attempts', log', cutoffs[key := now - window], now - window)
    ensures |Events(attempts', key)| == Within(Events(log', key), window, now)
  {
    var stored, events := Events(attempts, key) + [now], Events(log, key) + [now];
    assert UpTo(Events(log, key), now);
    RecordPrunes(attempts, log, window, key, now);
    Updated(attempts, key, stored);
    Updated(log, key, events);
    AgreeStep(attempts, log, cutoffs, now - window, attempts', log', key, now - window);
    AllUpToStep(log, now, key, events, now);
  }

  class RateLimiter {
    const maxAttempts: nat
    const window: real
    var attempts: Log
    /** Every event since the last reset of its key, and the last instant seen. */
    ghost var log: Log
    ghost var clock: real
    /** The last cutoff by which each key was pruned. */
    ghost var cutoffs: map<string, real>

    ghost predicate Valid()
      reads this
    {
      && AllUpTo(log, clock)
      && Agree(attempts, log, cutoffs, clock - window)
    }

    constructor (maxAttempts: nat, window: real)
      ensures Valid() && log == map[] && attempts == map[]
      ensures this.maxAttempts == maxAttempts && this.window == window
    {
      this.maxAttempts, this.window := maxAttempts, window;
      attempts, log, clock, cutoffs := map[], map[], 0.0, map[];
    }

    /** `_prune`. */
    method Prune(key: string, now: real) returns (kept: seq<real>)
      requires Valid() && clock <= now
      modifies this
      ensures Valid() && log == old(log) && clock == now
      ensures kept == After(Events(log, key), now - window) == Events(attempts, key)
      ensures forall k: string :: k != key ==> Events(attempts, k) == Events(old(attempts), k)
    {
      kept := After(Events(attempts, key), now - window);
      PruneAgrees(attempts, log, cutoffs, clock - window, key, now - window);
      ghost var before := attempts;
      if kept != [] {
        attempts := attempts[key := kept];
      } else {
        attempts := attempts - {key};
      }
      AgreeStep(before, log, cutoffs, clock - window, attempts, log, key, now - window);
      AllUpToStep(log, clock, key, [], now);
      clock := now;
      cutoffs := cutoffs[key := now - window];
    }

    /** Whether the window that ends now holds the maximum of all events recorded since the last reset. */
    method IsLimited(key: string, now: real) returns (limited: bool)
      requires Valid() && clock <= now
      modifies this
      ensures Valid() && log == old(log) && clock == now
      ensures limited <==> Within(Events(log, key), window, now) >= maxAttempts
      ensures |Events(attempts, key)| == Within(Events(log, key), window, now)
      ensures forall k: string :: k != key ==> Events(attempts, k) == Events(old(attempts), k)
    {
      var kept := Prune(key, now);
      AfterIsWithin(Events(log, key), window, now);
      limited := |kept| >= maxAttempts;
    }

    method Record(key: string, now: real)
      requires Valid() && clock <= now && window > 0.0
      modifies this
      ensures Valid() && log == old(log)[key := Events(old(log), key) + [now]] && clock == now
      ensures |Events(attempts, key)| == Within(Events(log, key), window, now)
      ensures forall k: string :: k != key ==> Events(attempts, k) == Events(old(attempts), k)
    {
      var kept := Prune(key, now);
      Append(key, kept, now);
    }

    /** Puts the event of this instant behind the pruned list. */
    method Append(key: string, kept: seq<real>, now: real)
      requires Valid() && now == clock && window > 0.0 && kept == Events(attempts, key) == After(Events(log, key), now - window)
      modifies this
      ensures Valid() && log == old(log)[key := Events(old(log), key) + [now]] && clock == old(clock)
      ensures attempts == old(attempts)[key := kept + [now]]
      ensures |Events(attempts, key)| == Within(Events(log, key), window, now)
    {
      ghost var log' := log[key := Events(log, key) + [now]];
      RecordAgrees(attempts, log, cutoffs, window, key, now, attempts[key := kept + [now]], log');
      attempts, log, cutoffs := attempts[key := kept + [now]], log', cutoffs[key := now - window];
    }

    method Reset(key: string)
      requires Valid()
      modifies this
      ensures Valid() && log == old(log) - {key} && attempts == old(attempts) - {key} && clock == old(clock)
    {
      ResetAgrees(attempts, log, cutoffs, clock, window, key);
      attempts, log, cutoffs := attempts - {key}, log - {key}, cutoffs - {key};
    }

    method ResetAll()
      requires Valid()
      modifies this
      ensures Valid() && log == map[] && attempts == map[] && clock == old(clock)
    {
      attempts, log, cutoffs := map[], map[], map[];
    }

    /** A caller that checks at one instant and, if it is let in, records at that instant or later. */
    method Admit(key: string, checked: real, recorded: real) returns (admitted: bool)
      requires Valid() && clock <= checked <= recorded && window > 0.0 && AllBounded()
      modifies this
      ensures Valid() && AllBounded() && clock <= recorded
      ensures admitted <==> Within(Events(old(log), key), window, checked) < maxAttempts
      ensures log == if admitted then old(log)[key := Events(old(log), key) + [recorded]] else old(log)
    {
      ghost var attempts0, log0 := attempts, log;
      assert KeyBounded(log0, attempts0, window, maxAttempts, key);
      assert UpTo(Events(log0, key), clock);
      var limited := IsLimited(key, checked);
      if !limited {
        LaterWindow(Events(log, key), window, checked, recorded);
        AdmitStep(Events(log, key), window, maxAttempts, recorded);
        Record(key, recorded);
        assert Bounded(Events(log, key), window, maxAttempts);
      }
      BoundedStep(log0, attempts0, log, attempts, window, maxAttempts, key);
      admitted := !limited;
    }

    ghost predicate AllBounded()
      reads this
    {
      EachBounded(log, attempts, window, maxAttempts)
    }
  }

  datatype Request = Request(key: string, checked: real, recorded: real)

  /** Whether a request is let in, by the events recorded before it. */
  predicate LetIn(log: Log, request: Request, window: real, max: nat) {
    Within(Events(log, request.key), window, request.checked) < max
  }

  /** The log after a request: it grows by exactly the requests that are let in. */
  function Served(log: Log, request: Request, window: real, max: nat): Log {
    if LetIn(log, request, window, max) then log[request.key := Events(log, request.key) + [request.recorded]] else log
  }

  /** The log after the requests, one after the other. */
  function ServedAll(log: Log, requests: seq<Request>, window: real, max: nat): Log {
    if requests == [] then log
    else Served(ServedAll(log, requests[..|requests| - 1], window, max), requests[|requests| - 1], window, max)
  }

  /** The answers are those of a limiter that keeps every event. */
  ghost predicate Answers(admitted: seq<bool>, log: Log, requests: seq<Request>, window: real, max: nat) {
    && |admitted| == |requests|
    && forall i | 0 <= i < |requests| :: AnswerAt(admitted, log, requests, window, max, i)
  }

  ghost predicate AnswerAt(admitted: seq<bool>, log: Log, requests: seq<Request>, window: real, max: nat, i: nat)
    requires i < |admitted| == |requests|
  {
    admitted[i] <==> LetIn(ServedAll(log, requests[..i], window, max), requests[i], window, max)
  }

  lemma {:induction false} AnswerKept(admitted: seq<bool>, ok: bool, log: Log, requests: seq<Request>, window: real, max: nat, k: nat, i: nat)
    requires i < k < |requests| && |admitted| == k && AnswerAt(admitted, log, requests[..k], window, max, i)
    ensures AnswerAt(admitted + [ok], log, requests[..k + 1], window, max, i)
  {
    PrefixOfPrefix(requests, k + 1, i);
    PrefixOfPrefix(requests, k, i);
  }

  lemma {:induction false} AnswerNew(admitted: seq<bool>, ok: bool, log: Log, requests: seq<Request>, window: real, max: nat, k: nat)
    requires k < |requests| && |admitted| == k && (ok <==> LetIn(ServedAll(log, requests[..k], window, max), requests[k], window, max))
    ensures AnswerAt(admitted + [ok], log, requests[..k + 1], window, max, k)
  {
    PrefixOfPrefix(requests, k + 1, k);
  }

  lemma {:induction false} AnswersStep(admitted: seq<bool>, ok: bool, log: Log, requests: seq<Request>, window: real, max: nat, k: nat)
    requires k < |requests| && Answers(admitted, log, requests[..k], window, max)
    requires ok <==> LetIn(ServedAll(log, requests[..k], window, max), requests[k], window, max)
    ensures Answers(admitted + [ok], log, requests[..k + 1], window, max)
  {
    var longer, first := admitted + [ok], requests[..k + 1];
    AnswerNew(admitted, ok, log, requests, window, max, k);
    forall i | 0 <= i < k ensures AnswerAt(longer, log, first, window, max, i) {
      AnswerKept(admitted, ok, log, requests, window, max, k, i);
    }
  }

  /** Any sequence of requests that are handled one after the other. */
  method Serve(limiter: RateLimiter, requests: seq<Request>) returns (admitted: seq<bool>)
    requires limiter.Valid() && limiter.AllBounded() && limiter.window > 0.0
    requires forall i | 0 <= i < |requests| :: limiter.clock <= requests[i].checked <= requests[i].recorded
    requires forall i, j | 0 <= i < j < |requests| :: requests[i].recorded <= requests[j].checked
    modifies limiter
    ensures limiter.Valid() && limiter.AllBounded()
    ensures Answers(admitted, old(limiter.log), requests, limiter.window, limiter.maxAttempts)
    ensures limiter.log == ServedAll(old(limiter.log), requests, limiter.window, limiter.maxAttempts)
  {
    admitted := [];
    for k := 0 to |requests|
      invariant limiter.Valid() && limiter.AllBounded()
      invariant Answers(admitted, old(limiter.log), requests[..k], limiter.window, limiter.maxAttempts)
      invariant limiter.log == ServedAll(old(limiter.log), requests[..k], limiter.window, limiter.maxAttempts)
      invariant forall i | k <= i < |requests| :: limiter.clock <= requests[i].checked
    {
      assert requests[..k + 1][..k] == requests[..k];
      ghost var before := limiter.log;
      var ok := limiter.Admit(requests[k].key, requests[k].checked, requests[k].recorded);
      AnswersStep(admitted, ok, old(limiter.log), requests, limiter.window, limiter.maxAttempts, k);
      admitted := admitted + [ok];
    }
    FullPrefix(requests);
  }
}
