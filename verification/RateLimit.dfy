/** The fixed-window request limiter: a count and an expiry per key, on a clock that never runs back. */
module RateLimit {
  import opened Wrappers

  const WINDOW := 60.0

  /** Count and expiry of a key. */
  datatype Entry = Entry(count: nat, expiresAt: real)

  /** `increment`: an absent or expired entry starts a new window. */
  function Bump(entry: Option<Entry>, now: real): (e: Entry)
    ensures e.count >= 1
  {
    if entry.None? || entry.value.expiresAt <= now then Entry(1, now + WINDOW)
    else Entry(entry.value.count + 1, entry.value.expiresAt)
  }

  type Store = map<string, Entry>

  function Lookup(values: Store, key: string): Option<Entry> {
    if key in values then Some(values[key]) else None
  }

  datatype Request = Request(key: string, at: real)

  /** The store after one request: the entry of its key is bumped, the others stay. */
  function Serve(values: Store, request: Request): Store {
    values[request.key := Bump(Lookup(values, request.key), request.at)]
  }

  class RateLimitStore {
    var values: Store

    constructor ()
      ensures values == map[]
    {
      values := map[];
    }

    /** Counts one request; other keys are not touched. */
    method Increment(key: string, now: real) returns (count: nat)
      modifies this
      ensures values == Serve(old(values), Request(key, now))
      ensures count == values[key].count
    {
      var currentCount, expiresAt := 0, now + WINDOW;
      if key in values {
        currentCount, expiresAt := values[key].count, values[key].expiresAt;
      }
      if expiresAt <= now {
        currentCount := 0;
        expiresAt := now + WINDOW;
      }
      currentCount := currentCount + 1;
      values := values[key := Entry(currentCount, expiresAt)];
      count := currentCount;
    }

    /** `dispatch`: requests beyond the limit are answered with an error. */
    method Dispatch(key: string, limit: int, now: real) returns (accepted: bool)
      modifies this
      ensures values == Serve(old(values), Request(key, now))
      ensures accepted <==> values[key].count <= limit
    {
      var count := Increment(key, now);
      accepted := !(count > limit);
    }
  }

  // ---------------------------------------------------------------- traces of one key

  /** The entry after all requests of a trace, from an unused key. */
  function After(times: seq<real>): (e: Option<Entry>)
    ensures times != [] ==> e.Some?
  {
    if times == [] then None else Some(Bump(After(times[..|times| - 1]), times[|times| - 1]))
  }

  predicate Ordered(times: seq<real>) {
    forall i, j :: 0 <= i < j < |times| ==> times[i] <= times[j]
  }

  predicate Accepted(times: seq<real>, limit: int, i: nat)
    requires i < |times|
  {
    After(times[..i + 1]).value.count <= limit
  }

  /** One more request extends the trace: if the entry of the key is that of the trace, `Dispatch` leaves
      the entry of the longer trace, and decides as the trace does. */
  lemma TraceExtends(times: seq<real>, now: real, limit: int)
    ensures After(times + [now]) == Some(Bump(After(times), now))
    ensures Accepted(times + [now], limit, |times|) <==> Bump(After(times), now).count <= limit
  {
    assert (times + [now])[..|times|] == times;
    assert (times + [now])[..|times| + 1] == times + [now];
  }

  // ---------------------------------------------------------------- many keys

  /** The store after requests of any keys, one `Dispatch` after another. */
  function Served(values: Store, requests: seq<Request>): Store {
    if requests == [] then values
    else Serve(Served(values, requests[..|requests| - 1]), requests[|requests| - 1])
  }

  /** What `Dispatch` answers to the i-th request. */
  predicate Answered(requests: seq<Request>, limit: int, i: nat)
    requires i < |requests|
  {
    var entry := Lookup(Served(map[], requests[..i + 1]), requests[i].key);
    entry.Some? && entry.value.count <= limit
  }

  /** The times of the requests of one key. */
  function TimesOf(requests: seq<Request>, key: string): seq<real> {
    if requests == [] then []
    else
      var last := requests[|requests| - 1];
      TimesOf(requests[..|requests| - 1], key) + if last.key == key then [last.at] else []
  }

  /** Whatever the other requests were, the entry of a key is that of the key's own requests. */
  lemma {:induction false} EntryFollowsOwnRequests(requests: seq<Request>, key: string)
    ensures Lookup(Served(map[], requests), key) == After(TimesOf(requests, key))
  {
    hide Bump;
    if requests != [] {
      var before, last := requests[..|requests| - 1], requests[|requests| - 1];
      EntryFollowsOwnRequests(before, key);
      if last.key == key {
        TraceExtends(TimesOf(before, key), last.at, 0);
      } else {
        assert TimesOf(requests, key) == TimesOf(before, key);
      }
    }
  }

  lemma {:induction false} TimesOfPrefix(requests: seq<Request>, key: string, n: nat)
    requires n <= |requests|
    ensures |TimesOf(requests[..n], key)| <= |TimesOf(requests, key)|
    ensures TimesOf(requests, key)[..|TimesOf(requests[..n], key)|] == TimesOf(requests[..n], key)
  {
    if n < |requests| {
      var before := requests[..|requests| - 1];
      TimesOfPrefix(before, key, n);
      assert before[..n] == requests[..n];
    } else {
      assert requests[..n] == requests;
    }
  }

  /** A request is answered as the trace of its own key is, whatever the other keys did in between. */
  lemma AnsweredByOwnTrace(requests: seq<Request>, limit: int, i: nat)
    requires i < |requests|
    ensures var key := requests[i].key;
      var nth := |TimesOf(requests[..i], key)|;
      nth < |TimesOf(requests, key)| && (Answered(requests, limit, i) <==> Accepted(TimesOf(requests, key), limit, nth))
  {
    var key, upTo := requests[i].key, requests[..i + 1];
    assert upTo[..i] == requests[..i];
    EntryFollowsOwnRequests(upTo, key);
    TimesOfPrefix(requests, key, i + 1);
  }

  predicate OrderedRequests(requests: seq<Request>) {
    forall i, j :: 0 <= i < j < |requests| ==> requests[i].at <= requests[j].at
  }

  lemma {:induction false} OwnTimesOrdered(requests: seq<Request>, key: string)
    requires OrderedRequests(requests)
    ensures Ordered(TimesOf(requests, key))
    ensures forall i :: 0 <= i < |TimesOf(requests, key)| ==> TimesOf(requests, key)[i] <= requests[|requests| - 1].at
  {
    if requests != [] {
      OwnTimesOrdered(requests[..|requests| - 1], key);
    }
  }

  /** How many requests of a key with a time in [from, to) are let through. */
  function LetThrough(requests: seq<Request>, key: string, limit: int, from: real, to: real): nat {
    if requests == [] then 0
    else
      var last := |requests| - 1;
      LetThrough(requests[..last], key, limit, from, to)
        + if requests[last].key == key && from <= requests[last].at < to && Answered(requests, limit, last) then 1 else 0
  }

  lemma {:induction false} LetThroughOwnTrace(requests: seq<Request>, key: string, limit: int, from: real, to: real)
    ensures LetThrough(requests, key, limit, from, to) == AcceptedIn(TimesOf(requests, key), limit, from, to)
  {
    hide Served, Bump;
    if requests != [] {
      var last := |requests| - 1;
      LetThroughOwnTrace(requests[..last], key, limit, from, to);
      if requests[last].key == key {
        assert requests[..last + 1] == requests;
        EntryFollowsOwnRequests(requests, key);
        var times := TimesOf(requests, key);
        assert times[..|times| - 1] == TimesOf(requests[..last], key);
      } else {
        assert TimesOf(requests, key) == TimesOf(requests[..last], key);
      }
    }
  }

  /** In any run of requests of many keys, no key gets more than twice the limit less one through in any
      half-open minute. */
  lemma RunMinuteBound(requests: seq<Request>, key: string, limit: int, from: real)
    requires OrderedRequests(requests)
    ensures LetThrough(requests, key, limit, from, from + WINDOW) <= if limit < 1 then 0 else 2 * limit - 1
  {
    LetThroughOwnTrace(requests, key, limit, from, from + WINDOW);
    OwnTimesOrdered(requests, key);
    MinuteBound(TimesOf(requests, key), limit, from);
  }

  // ---------------------------------------------------------------- the bound for one key

  /** How many requests with a time in [from, to) are accepted. */
  function AcceptedIn(times: seq<real>, limit: int, from: real, to: real): nat {
    if times == [] then 0
    else
      var last := |times| - 1;
      AcceptedIn(times[..last], limit, from, to)
        + if from <= times[last] < to && After(times).value.count <= limit then 1 else 0
  }

  function Least(a: int, b: int): int {
    if a <= b then a else b
  }

  lemma OrderedPrefix(times: seq<real>)
    requires times != [] && Ordered(times)
    ensures Ordered(times[..|times| - 1])
    ensures forall i :: 0 <= i < |times| - 1 ==> times[i] <= times[|times| - 1]
  {
  }

  lemma {:induction false} NoneBefore(times: seq<real>, limit: int, from: real, to: real)
    requires forall i :: 0 <= i < |times| ==> times[i] < from
    ensures AcceptedIn(times, limit, from, to) == 0
  {
    if times != [] {
      NoneBefore(times[..|times| - 1], limit, from, to);
    }
  }

  /** The last request is inside the current window. */
  lemma {:induction false} LastInWindow(times: seq<real>)
    requires times != [] && Ordered(times)
    ensures var e := After(times).value; e.expiresAt - WINDOW <= times[|times| - 1] < e.expiresAt
  {
    var before := times[..|times| - 1];
    if before != [] {
      OrderedPrefix(times);
      LastInWindow(before);
    }
  }

  /** What an interval can have seen so far, given the current count and window start: from inside the
      window, not its first request; from less than a window before its start, at most one request
      less than the limit besides those of the window. */
  lemma {:induction false} SeenSoFar(times: seq<real>, limit: int, from: real, to: real)
    requires times != [] && Ordered(times) && limit >= 1
    ensures var e := After(times).value;
      && (from > e.expiresAt - WINDOW ==> AcceptedIn(times, limit, from, to) <= Least(e.count, limit) - 1)
      && (from > e.expiresAt - WINDOW - WINDOW ==> AcceptedIn(times, limit, from, to) <= limit - 1 + Least(e.count, limit))
  {
    hide Ordered;
    var before, last := times[..|times| - 1], times[|times| - 1];
    OrderedPrefix(times);
    if before == [] {
      assert AcceptedIn(before, limit, from, to) == 0;
    } else {
      SeenSoFar(before, limit, from, to);
      LastInWindow(before);
      if from > last {
        NoneBefore(before, limit, from, to);
      }
    }
  }

  lemma {:induction false} NoneAccepted(times: seq<real>, limit: int, from: real, to: real)
    requires limit < 1
    ensures AcceptedIn(times, limit, from, to) == 0
  {
    if times != [] {
      NoneAccepted(times[..|times| - 1], limit, from, to);
    }
  }

  lemma {:induction false} NoneFrom(times: seq<real>, more: seq<real>, limit: int, from: real, to: real)
    requires forall i :: 0 <= i < |more| ==> to <= more[i]
    ensures AcceptedIn(times + more, limit, from, to) == AcceptedIn(times, limit, from, to)
  {
    if more == [] {
      assert times + more == times;
    } else {
      var n := |more| - 1;
      NoneFrom(times, more[..n], limit, from, to);
      assert (times + more)[..|times + more| - 1] == times + more[..n];
      assert (times + more)[|times + more| - 1] == more[n];
    }
  }

  /** The requests before a time are a prefix of the trace. */
  function CutAt(times: seq<real>, to: real): (n: nat)
    requires Ordered(times)
    ensures n <= |times|
    ensures forall i :: 0 <= i < n ==> times[i] < to
    ensures forall i :: n <= i < |times| ==> to <= times[i]
  {
    if times == [] || times[|times| - 1] < to then |times| else CutAt(times[..|times| - 1], to)
  }

  /** In any half-open minute, at most twice the limit less one requests are accepted. */
  lemma MinuteBound(times: seq<real>, limit: int, from: real)
    requires Ordered(times)
    ensures AcceptedIn(times, limit, from, from + WINDOW) <= if limit < 1 then 0 else 2 * limit - 1
  {
    hide AcceptedIn, After;
    var to := from + WINDOW;
    if limit < 1 {
      NoneAccepted(times, limit, from, to);
    } else {
      var n := CutAt(times, to);
      var early := times[..n];
      assert times == early + times[n..];
      NoneFrom(early, times[n..], limit, from, to);
      if early == [] {
        NoneBefore(early, limit, from, to);
      } else {
        SeenSoFar(early, limit, from, to);
        LastInWindow(early);
      }
    }
  }

  /** Requests in the current window: counted since it was opened by request `first`. */
  lemma {:induction false} CountInWindow(times: seq<real>, first: nat)
    requires Ordered(times) && first < |times| && After(times[..first + 1]).value.count == 1
    requires times[|times| - 1] < times[first] + WINDOW
    ensures After(times) == Some(Entry(|times| - first, After(times[..first + 1]).value.expiresAt))
    ensures After(times[..first + 1]).value.expiresAt == times[first] + WINDOW
    decreases |times|
  {
    WindowOpens(times[..first + 1]);
    if |times| - 1 == first {
      assert times[..first + 1] == times;
    } else {
      var before := times[..|times| - 1];
      assert before[..first + 1] == times[..first + 1];
      OrderedPrefix(times);
      CountInWindow(before, first);
    }
  }

  lemma WindowOpens(times: seq<real>)
    requires times != [] && After(times).value.count == 1
    ensures After(times).value.expiresAt == times[|times| - 1] + WINDOW
  {
    var before := times[..|times| - 1];
    if before != [] {
      assert After(before).value.count >= 1;
    }
  }

  /** A window, from the request that opens it to its expiry, accepts at most `limit` requests: exactly
      the first ones. */
  lemma WindowBound(times: seq<real>, limit: int, first: nat, i: nat)
    requires Ordered(times) && first <= i < |times| && After(times[..first + 1]).value.count == 1
    requires times[i] < times[first] + WINDOW
    ensures Accepted(times, limit, i) <==> i - first < limit
  {
    var upTo := times[..i + 1];
    assert upTo[..first + 1] == times[..first + 1];
    CountInWindow(upTo, first);
  }

  // ---------------------------------------------------------------- the bound is reached

  function Repeat(n: nat, t: real): (r: seq<real>)
    ensures |r| == n && forall i :: 0 <= i < n ==> r[i] == t
  {
    seq(n, _ => t)
  }

  /** A first request, the rest of the limit just before the window ends, and the limit again right after. */
  function Burst(limit: nat): seq<real>
    requires limit >= 1
  {
    [0.0] + Repeat(limit - 1, 59.0) + Repeat(limit, 60.0)
  }

  lemma {:induction false} Repeated(times: seq<real>, n: nat, t: real, limit: int, from: real, to: real)
    requires times != [] && After(times).value.expiresAt > t && from <= t < to
    requires After(times).value.count + n <= limit
    ensures After(times + Repeat(n, t)) == Some(Entry(After(times).value.count + n, After(times).value.expiresAt))
    ensures AcceptedIn(times + Repeat(n, t), limit, from, to) == AcceptedIn(times, limit, from, to) + n
  {
    if n == 0 {
      assert times + Repeat(0, t) == times;
    } else {
      Repeated(times, n - 1, t, limit, from, to);
      var longer := times + Repeat(n, t);
      assert longer[..|longer| - 1] == times + Repeat(n - 1, t);
      assert longer[|longer| - 1] == t;
    }
  }

  /** The bound of `MinuteBound` cannot be improved for any limit. */
  lemma MinuteBoundIsReached(limit: nat)
    requires limit >= 1
    ensures Ordered(Burst(limit)) && AcceptedIn(Burst(limit), limit, 59.0, 59.0 + WINDOW) == 2 * limit - 1
  {
    var first := [0.0];
    assert first[..0] == [];
    assert After(first) == Some(Entry(1, 60.0)) && AcceptedIn(first, limit, 59.0, 119.0) == 0;
    Repeated(first, limit - 1, 59.0, limit, 59.0, 119.0);
    var full := first + Repeat(limit - 1, 59.0);
    var next := full + [60.0];
    assert next[..|next| - 1] == full;
    assert After(next) == Some(Entry(1, 120.0));
    Repeated(next, limit - 1, 60.0, limit, 59.0, 119.0);
    assert next + Repeat(limit - 1, 60.0) == Burst(limit);
  }
}
