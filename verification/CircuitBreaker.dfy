/** The circuit breaker around a sender (client/senddecorator, pkg/backpressure, pkg/httputil).
    Times are nanoseconds. */
module CircuitBreaker {
  import opened Common

  const DEFAULT_WAIT: int := 6 * 60 * SECOND
  const TOO_MANY_REQUESTS: int := 429

  /** One value of a Retry-After header, as parsed: a number, a date, or neither. */
  datatype Header = Delay(seconds: int) | Date(at: int) | Junk

  /** What the next sender answers; None when it answers with an error only. */
  datatype Response = Response(status: int, retryAfter: seq<Header>)

  predicate Parseable(h: Header) { h.Date? || (h.Delay? && h.seconds > 0) }

  function Retry(h: Header, now: int): int
    requires Parseable(h)
  {
    if h.Date? then h.at else now + h.seconds * SECOND
  }

  /** The first value that can be parsed wins. */
  function RetryAfter(hs: seq<Header>, now: int): Option<int> {
    if hs == [] then None
    else if Parseable(hs[0]) then Some(Retry(hs[0], now))
    else RetryAfter(hs[1..], now)
  }

  method ParseRetryAfter(hs: seq<Header>, now: int) returns (r: Option<int>)
    ensures r == RetryAfter(hs, now)
  {
    for i := 0 to |hs|
      invariant RetryAfter(hs, now) == RetryAfter(hs[i..], now)
    {
      match hs[i]
      case Delay(s) => if s > 0 { return Some(now + s * SECOND); }
      case Date(t) => return Some(t);
      case Junk =>
    }
    return None;
  }

  class Backpressure {
    var notBefore: int

    constructor ()
      ensures notBefore == 0
    {
      notBefore := 0;
    }

    method NotBefore(t: int)
      modifies this
      ensures notBefore == t
    {
      notBefore := t;
    }

    predicate CanProceed(now: int)
      reads this
    {
      now > notBefore
    }
  }

  datatype Outcome = ShortCircuited | TooManyRequests | Passed(response: Option<Response>)

  /** One use of the breaker: when it started and ended, whether it was forwarded, and the retry time it
      stored, if it got a 429. */
  datatype Event = Event(started: int, answered: int, sent: bool, retry: Option<int>)

  function Serve(notBefore: int, started: int, answered: int, reply: Option<Response>): Event {
    var sent := started > notBefore;
    if sent && reply.Some? && reply.value.status == TOO_MANY_REQUESTS then
      var parsed := RetryAfter(reply.value.retryAfter, answered);
      Event(started, answered, sent, Some(if parsed.Some? then parsed.value else answered + DEFAULT_WAIT))
    else Event(started, answered, sent, None)
  }

  /** One request. `answered` is the clock when the answer arrives, `reply` the answer of the next sender.
      `sent` tells whether the request was forwarded. */
  method Do(g: Backpressure, started: int, answered: int, reply: Option<Response>)
    returns (out: Outcome, sent: bool)
    modifies g
    ensures var e := Serve(old(g.notBefore), started, answered, reply);
      && sent == e.sent
      && g.notBefore == (if e.retry.Some? then e.retry.value else old(g.notBefore))
      && out == if !e.sent then ShortCircuited else if e.retry.Some? then TooManyRequests else Passed(reply)
  {
    var proceed := g.CanProceed(started);
    if !proceed { return ShortCircuited, false; }
    if reply.Some? && reply.value.status == TOO_MANY_REQUESTS {
      var parsed := ParseRetryAfter(reply.value.retryAfter, answered);
      var retryAfter := if parsed.Some? then parsed.value else answered + DEFAULT_WAIT;
      g.NotBefore(retryAfter);
      return TooManyRequests, true;
    }
    return Passed(reply), true;
  }

  /** The first header value that can be read: a date, or a positive number of seconds. */
  predicate FirstReadable(hs: seq<Header>, k: nat) {
    && k < |hs| && (hs[k].Date? || (hs[k].Delay? && hs[k].seconds > 0))
    && forall j :: 0 <= j < k ==> hs[j].Junk? || (hs[j].Delay? && hs[j].seconds <= 0)
  }

  lemma {:induction false} RetryAfterMeans(hs: seq<Header>, now: int)
    ensures forall k: nat :: FirstReadable(hs, k) ==>
      RetryAfter(hs, now) == Some(if hs[k].Date? then hs[k].at else now + hs[k].seconds * 1_000_000_000)
    ensures (forall k: nat :: !FirstReadable(hs, k)) ==> RetryAfter(hs, now) == None
  {
    if hs != [] {
      var rest := hs[1..];
      RetryAfterMeans(rest, now);
      assert forall j :: 0 < j < |hs| ==> hs[j] == rest[j - 1];
      if Parseable(hs[0]) {
        assert FirstReadable(hs, 0);
        forall k: nat | FirstReadable(hs, k) ensures k == 0 {}
      } else {
        forall k: nat ensures FirstReadable(hs, k) ==> k > 0 && FirstReadable(rest, k - 1) {}
        forall k: nat ensures FirstReadable(rest, k) ==> FirstReadable(hs, k + 1) {}
      }
    }
  }

  /** What one request stores: only a forwarded one that is answered by 429 stores a time, the one of its first readable
      header value or six minutes after the answer. */
  lemma ServeMeans(notBefore: int, started: int, answered: int, reply: Option<Response>)
    ensures var e := Serve(notBefore, started, answered, reply);
      && e.started == started && e.answered == answered
      && (e.sent <==> started > notBefore)
      && (e.retry.Some? <==> e.sent && reply.Some? && reply.value.status == 429)
      && (e.retry.Some? ==>
            var hs := reply.value.retryAfter;
            && (forall k: nat :: FirstReadable(hs, k) ==>
                e.retry.value == if hs[k].Date? then hs[k].at else answered + hs[k].seconds * 1_000_000_000)
            && ((forall k: nat :: !FirstReadable(hs, k)) ==> e.retry.value == answered + 360 * 1_000_000_000))
  {
    if reply.Some? { RetryAfterMeans(reply.value.retryAfter, answered); }
    hide RetryAfter, FirstReadable;
  }

  // ---------------------------------------------------------------- runs

  /** The stored time after a number of events. */
  function Stored(run: seq<Event>, initial: int): int {
    if run == [] then initial
    else if run[|run| - 1].retry.Some? then run[|run| - 1].retry.value
    else Stored(run[..|run| - 1], initial)
  }

  /** A sequential run: the clock never goes back, requests are forwarded as `Do` forwards them, and only
      forwarded ones can be answered by a 429. Retry times are arbitrary, also in the past. */
  predicate Sequential(run: seq<Event>, initial: int) {
    forall i :: 0 <= i < |run| ==>
      && run[i].started <= run[i].answered
      && (i > 0 ==> run[i - 1].answered <= run[i].started)
      && (run[i].sent <==> run[i].started > Stored(run[..i], initial))
      && (run[i].retry.Some? ==> run[i].sent)
  }

  /** What the breaker does with any answers at all is such a run, when the clock never goes back. */
  lemma ServedIsSequential(run: seq<Event>, replies: seq<Option<Response>>, initial: int)
    requires |replies| == |run|
    requires forall i :: 0 <= i < |run| ==>
      && run[i] == Serve(Stored(run[..i], initial), run[i].started, run[i].answered, replies[i])
      && run[i].started <= run[i].answered && (i > 0 ==> run[i - 1].answered <= run[i].started)
    ensures Sequential(run, initial)
  {
    hide Stored, RetryAfter;
  }

  /** Each retry time so far is the stored one or has gone by. */
  lemma {:induction false} RetryTimesGoBy(run: seq<Event>, initial: int, n: nat, i: nat)
    requires Sequential(run, initial) && i < n <= |run| && run[i].retry.Some?
    ensures run[i].retry.value == Stored(run[..n], initial) || run[i].retry.value < run[n - 1].answered
    decreases n
  {
    assert run[..n][..n - 1] == run[..n - 1];
    if i < n - 1 {
      RetryTimesGoBy(run, initial, n - 1, i);
    }
  }

  /** Main result on the breaker: no request is forwarded at or before the retry time of any earlier 429,
      although a later 429 may overwrite the stored time with a smaller one. */
  lemma NoRequestBeforeRetryTime(run: seq<Event>, initial: int, i: nat, j: nat)
    requires Sequential(run, initial) && i < j < |run|
    requires run[i].retry.Some? && run[j].sent
    ensures run[j].started > run[i].retry.value
  {
    RetryTimesGoBy(run, initial, j, i);
  }

  /** Short-circuiting is not stricter than it has to be: a request held back is at or before the retry
      time of the latest 429, or at or before the initial time if there was none. */
  lemma {:induction false} HeldBackOnlyByLatest(run: seq<Event>, initial: int, j: nat)
    requires Sequential(run, initial) && j < |run| && !run[j].sent
    ensures (run[j].started <= initial && (forall i :: 0 <= i < j ==> run[i].retry.None?))
      || (exists i :: 0 <= i < j && run[i].retry.Some? && run[j].started <= run[i].retry.value
            && forall k :: i < k < j ==> run[k].retry.None?)
  {
    StoredIsLatest(run[..j], initial);
    hide Stored;
    if i :| 0 <= i < j && run[..j][i].retry == Some(Stored(run[..j], initial))
            && forall k :: i < k < j ==> run[..j][k].retry.None? {
      assert forall k :: i < k < j ==> run[..j][k] == run[k];
    } else {
      assert forall k :: 0 <= k < j ==> run[..j][k] == run[k];
    }
  }

  lemma {:induction false} StoredIsLatest(run: seq<Event>, initial: int)
    ensures (Stored(run, initial) == initial && forall i :: 0 <= i < |run| ==> run[i].retry.None?)
      || (exists i :: 0 <= i < |run| && run[i].retry == Some(Stored(run, initial))
            && forall k :: i < k < |run| ==> run[k].retry.None?)
  {
    if run != [] {
      var before, last := run[..|run| - 1], run[|run| - 1];
      StoredIsLatest(before, initial);
      if last.retry.None? {
        if i :| 0 <= i < |before| && before[i].retry == Some(Stored(before, initial))
                && forall k :: i < k < |before| ==> before[k].retry.None? {
          assert run[i].retry == Some(Stored(run, initial));
        }
      } else {
        assert run[|run| - 1].retry == Some(Stored(run, initial));
      }
    }
  }

  // ---------------------------------------------------------------- the status codes for retries

  function RemoveFirst(s: seq<int>, x: int): seq<int> {
    if s == [] then [] else if s[0] == x then s[1..] else [s[0]] + RemoveFirst(s[1..], x)
  }

  /** Copies the tail after position `at` one to the left. */
  method ShiftLeft(xs: array<int>, at: nat)
    requires at < xs.Length
    modifies xs
    ensures forall k :: 0 <= k < at ==> xs[k] == old(xs[k])
    ensures forall k :: at <= k < xs.Length - 1 ==> xs[k] == old(xs[k + 1])
  {
    for j := at to xs.Length - 1
      invariant forall k :: 0 <= k < at ==> xs[k] == old(xs[k])
      invariant forall k :: at <= k < j ==> xs[k] == old(xs[k + 1])
      invariant forall k :: j <= k < xs.Length ==> xs[k] == old(xs[k])
    {
      xs[j] := xs[j + 1];
    }
  }

  /** The slice is shifted in place; the result is its new length. */
  method RemoveElementFromSlice(xs: array<int>, x: int) returns (n: nat)
    modifies xs
    ensures n <= xs.Length && xs[..n] == RemoveFirst(old(xs[..]), x)
  {
    ghost var was := xs[..];
    for i := 0 to xs.Length
      invariant xs[..] == was
      invariant forall j :: 0 <= j < i ==> was[j] != x
    {
      if xs[i] == x {
        RemoveFirstAt(was, x, i);
        ShiftLeft(xs, i);
        assert xs[..xs.Length - 1] == was[..i] + was[i + 1..];
        return xs.Length - 1;
      }
    }
    RemoveFirstAbsent(was, x);
    return xs.Length;
  }

  lemma {:induction false} RemoveFirstAt(s: seq<int>, x: int, i: nat)
    requires i < |s| && s[i] == x && forall j :: 0 <= j < i ==> s[j] != x
    ensures RemoveFirst(s, x) == s[..i] + s[i + 1..]
  {
    if i > 0 { RemoveFirstAt(s[1..], x, i - 1); }
  }

  lemma {:induction false} RemoveFirstAbsent(s: seq<int>, x: int)
    requires forall j :: 0 <= j < |s| ==> s[j] != x
    ensures RemoveFirst(s, x) == s
  {
    if s != [] { RemoveFirstAbsent(s[1..], x); }
  }

  /** One occurrence goes, nothing else does; the element is gone exactly when it occurred at most once. */
  lemma {:induction false} RemovesOneOccurrence(s: seq<int>, x: int)
    ensures multiset(RemoveFirst(s, x)) == multiset(s) - multiset{x}
    ensures x !in RemoveFirst(s, x) <==> multiset(s)[x] <= 1
  {
    if s != [] {
      assert s == [s[0]] + s[1..];
      RemovesOneOccurrence(s[1..], x);
    }
    assert x in RemoveFirst(s, x) <==> x in multiset(RemoveFirst(s, x));
  }
}
