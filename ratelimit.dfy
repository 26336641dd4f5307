/**
  The per-venue rate limiter `_check_rate_limit` (xyz415.py): each venue keeps
  the times of its recent API calls; a call first forgets the times that are a
  minute old or older, then is refused when 60 remain, and otherwise is
  recorded. Times are microseconds.
*/
module RateLimit {

  /** The trailing window: one minute. */
  const Window: int := 60_000_000

  /** `max_api_calls_per_minute`. */
  const MaxCallsPerMinute: nat := 60

  /** `api_call_times`. */
  type CallLog = map<string, seq<int>>

  /** The list comprehension that keeps the times strictly after `cutoff`, in order. */
  function Recent(times: seq<int>, cutoff: int): (r: seq<int>)
    ensures |r| <= |times|
    ensures forall t :: t in r <==> t in times && t > cutoff
    ensures forall t :: multiset(r)[t] == if t > cutoff then multiset(times)[t] else 0
  {
    if times == [] then []
    else
      assert times == [times[0]] + times[1..];
      if times[0] > cutoff then [times[0]] + Recent(times[1..], cutoff)
      else Recent(times[1..], cutoff)
  }

  /** The comprehension keeps the order of the log: pruning a concatenation
      prunes each part. */
  lemma {:induction false} RecentAppend(a: seq<int>, b: seq<int>, cutoff: int)
    ensures Recent(a + b, cutoff) == Recent(a, cutoff) + Recent(b, cutoff)
    decreases |a|
  {
    if a != [] {
      assert (a + b)[0] == a[0] && (a + b)[1..] == a[1..] + b;
      RecentAppend(a[1..], b, cutoff);
    } else {
      assert a + b == b;
    }
  }

  /** The venue's pruned list: what was logged for it (nothing, for a venue never
      seen) after forgetting the calls at least a minute old. */
  function Pruned(log: CallLog, name: string, now: int): seq<int> {
    Recent(if name in log then log[name] else [], now - Window)
  }

  /** `_check_rate_limit(name)` at `now`: the new log and whether the call may go ahead. */
  function CheckRate(log: CallLog, name: string, now: int): (r: (CallLog, bool))
    ensures name in r.0
    ensures forall t :: t in r.0[name] ==> t > now - Window
    ensures r.0.Keys == log.Keys + {name}
    ensures forall v :: v in log && v != name ==> r.0[v] == log[v]
  {
    var pruned := Pruned(log, name, now);
    if |pruned| >= MaxCallsPerMinute then (log[name := pruned], false)
    else (log[name := pruned + [now]], true)
  }

  /** With 60 or more calls in the last minute the call is refused and nothing is
      appended; otherwise exactly one entry, `now`, is appended and it may go ahead. */
  lemma CheckRateDecision(log: CallLog, name: string, now: int)
    ensures var r := CheckRate(log, name, now);
      (r.1 <==> |Pruned(log, name, now)| < MaxCallsPerMinute)
      && (r.1 ==> r.0[name] == Pruned(log, name, now) + [now])
      && (!r.1 ==> r.0[name] == Pruned(log, name, now))
  {
  }

  /** The cap is an invariant: a venue with at most 60 logged calls still has at
      most 60 after any check, and a venue never seen has exactly one. */
  lemma CheckRateCap(log: CallLog, name: string, now: int)
    requires name in log ==> |log[name]| <= MaxCallsPerMinute
    ensures |CheckRate(log, name, now).0[name]| <= MaxCallsPerMinute
    ensures name !in log ==> CheckRate(log, name, now) == (log[name := [now]], true)
  {
    if name !in log {
      assert Pruned(log, name, now) + [now] == [now];
    }
  }

  /** A refused call changes nothing of the venue's log but the forgetting:
      repeating it at the same moment is refused again, with the same log. */
  lemma RefusalIsStable(log: CallLog, name: string, now: int)
    requires !CheckRate(log, name, now).1
    ensures CheckRate(CheckRate(log, name, now).0, name, now) == CheckRate(log, name, now)
  {
    var r := CheckRate(log, name, now);
    RecentIdempotent(Pruned(log, name, now), now - Window);
    assert r.0[name := r.0[name]] == r.0;
  }

  /** Forgetting twice forgets nothing more. */
  lemma {:induction false} RecentIdempotent(times: seq<int>, cutoff: int)
    requires forall t :: t in times ==> t > cutoff
    ensures Recent(times, cutoff) == times
    decreases |times|
  {
    if times != [] {
      assert times[0] in times;
      forall t | t in times[1..] ensures t > cutoff {
        assert t in times;
      }
      RecentIdempotent(times[1..], cutoff);
      assert [times[0]] + times[1..] == times;
    }
  }
}
