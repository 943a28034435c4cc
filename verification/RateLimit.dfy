/** The per-client sliding-window rate limiter of the HTTP interface: its pruned and swept table decides
  * every request as the full history of admissions would. Clock readings are reals. */
module RateLimit {

  const WINDOW: real := 60.0

  datatype Arrival = Arrival(client: string, at: real)

  /** What the caller of the middleware gets: the request passes unlimited, passes with the number of
    * requests it has left, or is refused with a number of seconds to wait. */
  datatype Verdict = Unlimited | Admitted(remaining: nat) | Refused(retryAfter: nat)

  // The decision, on the full history of admissions

  /** When a client's requests were admitted, oldest first. */
  function Times(history: seq<Arrival>, client: string): seq<real>
    decreases |history|
  {
    if history == [] then []
    else
      var last := history[|history| - 1];
      Times(history[..|history| - 1], client) + (if last.client == client then [last.at] else [])
  }

  /** The entries after `cutoff`, in order. */
  function Since(times: seq<real>, cutoff: real): seq<real>
    decreases |times|
  {
    if times == [] then []
    else
      var last := times[|times| - 1];
      Since(times[..|times| - 1], cutoff) + (if last > cutoff then [last] else [])
  }

  function Max(a: int, b: int): int {
    if a < b then b else a
  }

  function Judge(recent: seq<real>, rpm: int, now: real): Verdict
    requires rpm > 0
  {
    if |recent| >= rpm then
      Refused(Max((recent[0] - (now - WINDOW)).Floor + 1, 1))
    else
      Admitted(rpm - (|recent| + 1))
  }

  function Decide(history: seq<Arrival>, rpm: int, request: Arrival): Verdict {
    if rpm <= 0 then Unlimited
    else Judge(Since(Times(history, request.client), request.at - WINDOW), rpm, request.at)
  }

  function Recorded(history: seq<Arrival>, rpm: int, request: Arrival): seq<Arrival> {
    if Decide(history, rpm, request).Admitted? then history + [request] else history
  }

  /** The admissions recorded after a whole run of requests. */
  function After(history: seq<Arrival>, rpm: int, requests: seq<Arrival>): seq<Arrival>
    decreases |requests|
  {
    if requests == [] then history
    else
      var earlier := After(history, rpm, requests[..|requests| - 1]);
      Recorded(earlier, rpm, requests[|requests| - 1])
  }

  /** The clock never runs backwards over these requests, and they all come at or after `start`. */
  predicate Monotone(start: real, requests: seq<Arrival>) {
    && (forall i :: 0 <= i < |requests| ==> start <= requests[i].at)
    && (forall i, j :: 0 <= i <= j < |requests| ==> requests[i].at <= requests[j].at)
  }

  // Facts about the two filters

  predicate Sorted(times: seq<real>) {
    forall i, j :: 0 <= i <= j < |times| ==> times[i] <= times[j]
  }

  lemma {:induction false} NothingSince(times: seq<real>, cutoff: real)
    requires forall i :: 0 <= i < |times| ==> times[i] <= cutoff
    ensures Since(times, cutoff) == []
    decreases |times|
  {
    if times != [] {
      NothingSince(times[..|times| - 1], cutoff);
    }
  }

  // `kept` is the end of `times` that lies after the cutoff.
  predicate IsSuffixSince(times: seq<real>, kept: seq<real>, cutoff: real) {
    && |kept| <= |times| && kept == times[|times| - |kept|..]
    && forall i :: 0 <= i < |times| ==> (times[i] > cutoff <==> i >= |times| - |kept|)
  }

  lemma SuffixSnoc(init: seq<real>, t: real, kept: seq<real>, cutoff: real)
    requires IsSuffixSince(init, kept, cutoff) && t > cutoff
    ensures IsSuffixSince(init + [t], kept + [t], cutoff)
  {
  }

  lemma {:induction false} SinceIsThatSuffix(times: seq<real>, cutoff: real)
    requires Sorted(times)
    ensures IsSuffixSince(times, Since(times, cutoff), cutoff)
    decreases |times|
  {
    if times != [] {
      var init, t := times[..|times| - 1], times[|times| - 1];
      assert times == init + [t];
      if t <= cutoff {
        NothingSince(times, cutoff);
      } else {
        SinceIsThatSuffix(init, cutoff);
        SuffixSnoc(init, t, Since(init, cutoff), cutoff);
      }
    }
  }

  lemma SinceIsSuffix(times: seq<real>, cutoff: real)
    requires Sorted(times)
    ensures |Since(times, cutoff)| <= |times|
    ensures Since(times, cutoff) == times[|times| - |Since(times, cutoff)|..]
    ensures forall i :: 0 <= i < |times| ==>
      (times[i] > cutoff <==> i >= |times| - |Since(times, cutoff)|)
  {
    SinceIsThatSuffix(times, cutoff);
  }

  lemma SinceSnoc(times: seq<real>, t: real, cutoff: real)
    ensures Since(times + [t], cutoff) == Since(times, cutoff) + (if t > cutoff then [t] else [])
  {
    assert (times + [t])[..|times|] == times;
  }

  /** Pruning once with an older cutoff changes nothing for a newer one. */
  lemma {:induction false} SinceTwice(times: seq<real>, older: real, newer: real)
    requires older <= newer
    ensures Since(Since(times, older), newer) == Since(times, newer)
    decreases |times|
  {
    if times != [] {
      var n := |times| - 1;
      var kept := Since(times[..n], older);
      SinceTwice(times[..n], older, newer);
      if times[n] > older {
        SinceSnoc(kept, times[n], newer);
        assert Since(times, older) == kept + [times[n]];
      } else {
        assert Since(times, older) == kept;
      }
    }
  }

  lemma TimesSnoc(history: seq<Arrival>, request: Arrival, client: string)
    ensures Times(history + [request], client)
         == Times(history, client) + (if request.client == client then [request.at] else [])
  {
    assert (history + [request])[..|history|] == history;
  }

  // What every run keeps

  /** A client's admissions are in order, none after `now`, and any `rpm` of them in a row are followed
    * by a further one only when a whole window has passed since the first. */
  ghost predicate Paced(times: seq<real>, rpm: int, now: real) {
    && Sorted(times)
    && (forall i :: 0 <= i < |times| ==> times[i] <= now)
    && (rpm > 0 ==> forall i :: rpm <= i < |times| ==> times[i - rpm] + WINDOW <= times[i])
  }

  lemma PaceSnoc(times: seq<real>, rpm: int, now: real, at: real)
    requires Paced(times, rpm, now) && now <= at
    requires rpm > 0 ==> |Since(times, at - WINDOW)| < rpm
    ensures Paced(times + [at], rpm, at)
  {
    SinceIsSuffix(times, at - WINDOW);
  }

  lemma RecordingKeepsPace(history: seq<Arrival>, rpm: int, request: Arrival, client: string, now: real)
    requires Paced(Times(history, client), rpm, now) && now <= request.at
    ensures Paced(Times(Recorded(history, rpm, request), client), rpm, request.at)
  {
    if Decide(history, rpm, request).Admitted? {
      TimesSnoc(history, request, client);
      if request.client == client {
        PaceSnoc(Times(history, client), rpm, now, request.at);
      }
    }
  }

  lemma {:induction false} EveryRunIsPaced(rpm: int, start: real, requests: seq<Arrival>, client: string)
    requires Monotone(start, requests)
    ensures Paced(Times(After([], rpm, requests), client), rpm,
                  if requests == [] then start else requests[|requests| - 1].at)
    decreases |requests|
  {
    if requests != [] {
      var n := |requests| - 1;
      EveryRunIsPaced(rpm, start, requests[..n], client);
      RecordingKeepsPace(After([], rpm, requests[..n]), rpm, requests[n], client,
                         if n == 0 then start else requests[n - 1].at);
    }
  }

  // At most rpm admissions in any window

  /** Whether `t` lies in the window that begins at `from`: closed on the left or on the right. */
  predicate Inside(t: real, from: real, closedLeft: bool) {
    if closedLeft then from <= t < from + 60.0 else from < t <= from + 60.0
  }

  function Count(times: seq<real>, from: real, closedLeft: bool): nat
    decreases |times|
  {
    if times == [] then 0
    else
      var n := |times| - 1;
      Count(times[..n], from, closedLeft) + (if Inside(times[n], from, closedLeft) then 1 else 0)
  }

  lemma {:induction false} CountOfTail(times: seq<real>, k: nat, from: real, closedLeft: bool)
    requires k <= |times|
    requires forall i :: 0 <= i < k ==> !Inside(times[i], from, closedLeft)
    ensures Count(times, from, closedLeft) <= |times| - k
    decreases |times|
  {
    if times != [] {
      var n := |times| - 1;
      CountOfTail(times[..n], if k <= n then k else n, from, closedLeft);
    }
  }

  lemma {:induction false} PacedMeansFewPerWindow(times: seq<real>, rpm: int, now: real,
                                                  from: real, closedLeft: bool)
    requires rpm > 0 && Paced(times, rpm, now)
    ensures Count(times, from, closedLeft) <= rpm
    decreases |times|
  {
    if |times| <= rpm {
      CountOfTail(times, 0, from, closedLeft);
    } else {
      var n := |times| - 1;
      if Inside(times[n], from, closedLeft) {
        assert times[n - rpm] + WINDOW <= times[n];
        assert forall i :: 0 <= i < |times| - rpm ==> times[i] <= times[n - rpm];
        CountOfTail(times, |times| - rpm, from, closedLeft);
      } else {
        PacedMeansFewPerWindow(times[..n], rpm, now, from, closedLeft);
      }
    }
  }

  /** No client is ever admitted more than `rpm` times in any half-open minute, over every run. */
  lemma AtMostRpmPerWindow(rpm: int, start: real, requests: seq<Arrival>, client: string,
                           from: real, closedLeft: bool)
    requires rpm > 0 && Monotone(start, requests)
    ensures Count(Times(After([], rpm, requests), client), from, closedLeft) <= rpm
  {
    EveryRunIsPaced(rpm, start, requests, client);
    PacedMeansFewPerWindow(Times(After([], rpm, requests), client), rpm,
                           if requests == [] then start else requests[|requests| - 1].at,
                           from, closedLeft);
  }

  lemma {:induction false} CountIsSince(times: seq<real>, now: real)
    requires forall i :: 0 <= i < |times| ==> times[i] <= now
    ensures Count(times, now - WINDOW, false) == |Since(times, now - WINDOW)|
    decreases |times|
  {
    if times != [] {
      CountIsSince(times[..|times| - 1], now);
    }
  }

  lemma MonotoneSnoc(start: real, requests: seq<Arrival>, next: Arrival)
    requires Monotone(start, requests + [next])
    ensures Monotone(start, requests) && start <= next.at
    ensures forall i :: 0 <= i < |requests| ==> requests[i].at <= next.at
  {
    var all := requests + [next];
    assert all[|requests|] == next;
    assert forall i :: 0 <= i < |requests| ==> all[i] == requests[i];
  }

  /** A run of requests seen at a later moment. */
  lemma RunIsPaced(rpm: int, start: real, requests: seq<Arrival>, next: Arrival, client: string)
    requires Monotone(start, requests + [next])
    ensures Paced(Times(After([], rpm, requests), client), rpm, next.at)
  {
    MonotoneSnoc(start, requests, next);
    EveryRunIsPaced(rpm, start, requests, client);
  }

  lemma FullMeansRefused(times: seq<real>, rpm: int, now: real)
    requires rpm > 0 && forall i :: 0 <= i < |times| ==> times[i] <= now
    ensures Count(times + [now], now - WINDOW, false) == |Since(times, now - WINDOW)| + 1
  {
    CountIsSince(times, now);
    assert (times + [now])[..|times|] == times;
  }

  /** The limiter is not stricter than that: it refuses exactly when admitting would put `rpm + 1`
    * admissions of the client into the minute that ends now. */
  lemma RefusesOnlyWhenFull(rpm: int, start: real, requests: seq<Arrival>, next: Arrival)
    requires rpm > 0 && Monotone(start, requests + [next])
    ensures Decide(After([], rpm, requests), rpm, next).Refused?
      <==> Count(Times(After([], rpm, requests), next.client) + [next.at], next.at - WINDOW, false) > rpm
  {
    RunIsPaced(rpm, start, requests, next, next.client);
    FullMeansRefused(Times(After([], rpm, requests), next.client), rpm, next.at);
  }

  /** The number of requests left is exact: that many more fill the minute that ends now. */
  lemma RemainingIsExact(rpm: int, start: real, requests: seq<Arrival>, next: Arrival)
    requires rpm > 0 && Monotone(start, requests + [next])
    requires Decide(After([], rpm, requests), rpm, next).Admitted?
    ensures Count(Times(After([], rpm, requests), next.client) + [next.at], next.at - WINDOW, false)
          + Decide(After([], rpm, requests), rpm, next).remaining == rpm
  {
    RunIsPaced(rpm, start, requests, next, next.client);
    FullMeansRefused(Times(After([], rpm, requests), next.client), rpm, next.at);
  }

  // ---------- what one request gets, counted on the admissions themselves ----------

  // The admissions of this client in the minute that ends with the request
  function LastMinute(history: seq<Arrival>, request: Arrival): set<nat> {
    set i | 0 <= i < |history| && history[i].client == request.client && request.at - 60.0 < history[i].at
  }

  lemma LastMinuteSnoc(history: seq<Arrival>, last: Arrival, request: Arrival)
    ensures |LastMinute(history + [last], request)|
         == |LastMinute(history, request)|
            + (if last.client == request.client && request.at - 60.0 < last.at then 1 else 0)
  {
    var before, n := LastMinute(history, request), |history|;
    var inside := last.client == request.client && request.at - 60.0 < last.at;
    assert LastMinute(history + [last], request) == if inside then before + {n} else before;
  }

  lemma RecentSnoc(history: seq<Arrival>, last: Arrival, client: string, cutoff: real)
    ensures Since(Times(history + [last], client), cutoff)
         == Since(Times(history, client), cutoff) + (if last.client == client && last.at > cutoff then [last.at] else [])
  {
    TimesSnoc(history, last, client);
    if last.client == client {
      SinceSnoc(Times(history, client), last.at, cutoff);
    } else {
      assert Times(history + [last], client) == Times(history, client);
    }
  }

  lemma {:induction false} RecentAreLastMinute(history: seq<Arrival>, request: Arrival)
    ensures |Since(Times(history, request.client), request.at - 60.0)| == |LastMinute(history, request)|
    decreases |history|
  {
    if history == [] {
      assert LastMinute(history, request) == {};
    } else {
      var n := |history| - 1;
      RecentAreLastMinute(history[..n], request);
      assert history == history[..n] + [history[n]];
      LastMinuteSnoc(history[..n], history[n], request);
      RecentSnoc(history[..n], history[n], request.client, request.at - 60.0);
    }
  }

  // The i-th admission is the earliest of that minute.
  predicate Earliest(history: seq<Arrival>, request: Arrival, i: nat) {
    i in LastMinute(history, request) && forall j | j in LastMinute(history, request) :: i <= j
  }

  lemma EarlierMinute(history: seq<Arrival>, request: Arrival)
    requires history != []
    ensures LastMinute(history[..|history| - 1], request) == LastMinute(history, request) - {|history| - 1}
  {
  }

  lemma NoneBeforeLast(history: seq<Arrival>, request: Arrival)
    requires history != [] && Earliest(history, request, |history| - 1)
    ensures LastMinute(history[..|history| - 1], request) == {}
  {
    EarlierMinute(history, request);
    assert forall j | j in LastMinute(history, request) :: j == |history| - 1;
  }

  // The first of a client's admissions in the minute that ends with the request
  predicate BeginsWith(history: seq<Arrival>, request: Arrival, first: real) {
    var recent := Since(Times(history, request.client), request.at - 60.0);
    recent != [] && recent[0] == first
  }

  lemma FirstStays(init: seq<Arrival>, last: Arrival, request: Arrival, first: real)
    requires BeginsWith(init, request, first)
    ensures BeginsWith(init + [last], request, first)
  {
    RecentSnoc(init, last, request.client, request.at - 60.0);
  }

  lemma FirstIsLast(init: seq<Arrival>, last: Arrival, request: Arrival)
    requires LastMinute(init, request) == {} && last.client == request.client && request.at - 60.0 < last.at
    ensures BeginsWith(init + [last], request, last.at)
  {
    RecentAreLastMinute(init, request);
    RecentSnoc(init, last, request.client, request.at - 60.0);
  }

  lemma {:induction false} FirstOfRecent(history: seq<Arrival>, request: Arrival, i: nat)
    requires Earliest(history, request, i)
    ensures BeginsWith(history, request, history[i].at)
    decreases |history|
  {
    var init, last := history[..|history| - 1], history[|history| - 1];
    assert history == init + [last];
    if i < |init| {
      EarlierMinute(history, request);
      FirstOfRecent(init, request, i);
      FirstStays(init, last, request, history[i].at);
    } else {
      NoneBeforeLast(history, request);
      FirstIsLast(init, last, request);
    }
  }

  lemma AdmittedOrRefused(history: seq<Arrival>, rpm: int, next: Arrival)
    ensures var verdict, recent := Decide(history, rpm, next), |LastMinute(history, next)|;
            && (rpm <= 0 ==> verdict == Unlimited)
            && (rpm > 0 && recent < rpm ==> verdict == Admitted(rpm - recent - 1))
            && (rpm > 0 && recent >= rpm ==> verdict.Refused?)
  {
    RecentAreLastMinute(history, next);
  }

  lemma RefusedUntil(history: seq<Arrival>, rpm: int, next: Arrival, earliest: nat)
    requires rpm > 0 && |LastMinute(history, next)| >= rpm && Earliest(history, next, earliest)
    ensures var verdict := Decide(history, rpm, next);
            && verdict.Refused? && verdict.retryAfter > 0
            && next.at + (verdict.retryAfter - 1) as real <= history[earliest].at + 60.0
            && history[earliest].at + 60.0 < next.at + verdict.retryAfter as real
  {
    RecentAreLastMinute(history, next);
    FirstOfRecent(history, next, earliest);
  }

  lemma OneMoreRecorded(rpm: int, requests: seq<Arrival>, next: Arrival)
    ensures After([], rpm, requests + [next]) == Recorded(After([], rpm, requests), rpm, next)
  {
    assert (requests + [next])[..|requests|] == requests;
  }

  /** One request in any run: a limit of nothing or less lets it pass unlimited; with fewer than `rpm` of its
    * client's admissions in the last sixty seconds it is admitted and told how many are left after it; and
    * otherwise it is refused until the whole second after the earliest of them is a minute old. Only an
    * admitted request is recorded. */
  lemma EveryVerdictIsExact(rpm: int, requests: seq<Arrival>, next: Arrival, earliest: nat)
    ensures var history := After([], rpm, requests);
            var verdict, recent := Decide(history, rpm, next), |LastMinute(history, next)|;
            && (rpm <= 0 ==> verdict == Unlimited)
            && (rpm > 0 && recent < rpm ==> verdict == Admitted(rpm - recent - 1))
            && (rpm > 0 && recent >= rpm ==> verdict.Refused?)
            && (rpm > 0 && recent >= rpm && Earliest(history, next, earliest) ==>
                  && verdict.retryAfter > 0
                  && next.at + (verdict.retryAfter - 1) as real <= history[earliest].at + 60.0
                  && history[earliest].at + 60.0 < next.at + verdict.retryAfter as real)
            && After([], rpm, requests + [next]) == (if rpm > 0 && recent < rpm then history + [next] else history)
  {
    var history := After([], rpm, requests);
    AdmittedOrRefused(history, rpm, next);
    if rpm > 0 && |LastMinute(history, next)| >= rpm && Earliest(history, next, earliest) {
      RefusedUntil(history, rpm, next, earliest);
    }
    OneMoreRecorded(rpm, requests, next);
  }

  // Retry-After

  /** How long a refusal stands: not past Retry-After, and until a second before it. */
  lemma RefusalStands(times: seq<real>, rpm: int, now: real, later: real)
    requires rpm > 0 && Paced(times, rpm, now) && now <= later
    requires Judge(Since(times, now - WINDOW), rpm, now).Refused?
    ensures
      var wait := Judge(Since(times, now - WINDOW), rpm, now).retryAfter as real;
      && (later >= now + wait ==> |Since(times, later - WINDOW)| < rpm)
      && (later < now + wait - 1.0 ==> |Since(times, later - WINDOW)| >= rpm)
  {
    SinceIsSuffix(times, now - WINDOW);
    SinceIsSuffix(times, later - WINDOW);
    var full := |Since(times, now - WINDOW)|;
    var first := |times| - full;
    var last := |times| - 1;
    if rpm <= last {
      assert times[last - rpm] + WINDOW <= times[last];
    }
    assert full == rpm;
    assert Since(times, now - WINDOW)[0] == times[first];
  }

  /** After a refusal, a request at or beyond Retry-After is admitted, if nothing of that client's was
    * admitted in between, whatever the other clients did. */
  lemma RetryAfterIsEnough(rpm: int, start: real, requests: seq<Arrival>, refused: Arrival,
                           between: seq<Arrival>, retryAt: real)
    requires rpm > 0 && Monotone(start, requests + [refused])
    requires Decide(After([], rpm, requests), rpm, refused).Refused?
    requires Times(After(After([], rpm, requests), rpm, between), refused.client)
          == Times(After([], rpm, requests), refused.client)
    requires retryAt >= refused.at + Decide(After([], rpm, requests), rpm, refused).retryAfter as real
    ensures Decide(After(After([], rpm, requests), rpm, between), rpm, Arrival(refused.client, retryAt)).Admitted?
  {
    RunIsPaced(rpm, start, requests, refused, refused.client);
    RefusalStands(Times(After([], rpm, requests), refused.client), rpm, refused.at, retryAt);
  }

  lemma RefusedLeavesTimes(history: seq<Arrival>, rpm: int, request: Arrival, client: string)
    requires Decide(history, rpm, Arrival(client, request.at)).Refused?
    ensures Times(Recorded(history, rpm, request), client) == Times(history, client)
  {
    TimesSnoc(history, request, client);
  }

  /** And Retry-After is late by at most one second: until a second before it, every request of that
    * client is refused, in every run. */
  lemma {:induction false} RetryAfterIsNotLate(rpm: int, start: real, requests: seq<Arrival>, refused: Arrival,
                                               between: seq<Arrival>, retryAt: real)
    requires rpm > 0 && Monotone(start, requests + [refused])
    requires Decide(After([], rpm, requests), rpm, refused).Refused?
    requires Monotone(refused.at, between) && refused.at <= retryAt
    requires forall i :: 0 <= i < |between| ==> between[i].at <= retryAt
    requires retryAt < refused.at + Decide(After([], rpm, requests), rpm, refused).retryAfter as real - 1.0
    ensures Times(After(After([], rpm, requests), rpm, between), refused.client)
         == Times(After([], rpm, requests), refused.client)
    ensures Decide(After(After([], rpm, requests), rpm, between), rpm, Arrival(refused.client, retryAt)).Refused?
    decreases |between|
  {
    var history := After([], rpm, requests);
    RunIsPaced(rpm, start, requests, refused, refused.client);
    RefusalStands(Times(history, refused.client), rpm, refused.at, retryAt);
    if between != [] {
      var n := |between| - 1;
      RetryAfterIsNotLate(rpm, start, requests, refused, between[..n], between[n].at);
      RefusedLeavesTimes(After(history, rpm, between[..n]), rpm, between[n], refused.client);
    }
  }

  // The table the middleware keeps

  function Stored(requests: map<string, seq<real>>, client: string): seq<real> {
    if client in requests then requests[client] else []
  }

  /** Pruned and swept as it is, the table shows the same recent admissions as the full history. */
  ghost predicate Agrees(requests: map<string, seq<real>>, history: seq<Arrival>, cutoff: real) {
    forall client {:trigger SameSince(Stored(requests, client), Times(history, client), cutoff)} ::
      SameSince(Stored(requests, client), Times(history, client), cutoff)
  }

  ghost predicate SameSince(left: seq<real>, right: seq<real>, cutoff: real) {
    Since(left, cutoff) == Since(right, cutoff)
  }

  /** The table holds the admissions after `cutoff` and nothing else: no idle client has an entry. */
  ghost predicate Exact(requests: map<string, seq<real>>, history: seq<Arrival>, cutoff: real) {
    forall client {:trigger ExactFor(requests, client, Times(history, client), cutoff)} ::
      ExactFor(requests, client, Times(history, client), cutoff)
  }

  ghost predicate ExactFor(requests: map<string, seq<real>>, client: string, times: seq<real>, cutoff: real) {
    && (client in requests <==> Since(times, cutoff) != [])
    && Stored(requests, client) == Since(times, cutoff)
  }

  /** What one sweep leaves: every other client pruned, and dropped with nothing left. */
  function Swept(requests: map<string, seq<real>>, client: string, cutoff: real): map<string, seq<real>> {
    map key | key in requests && (key == client || Since(requests[key], cutoff) != []) ::
      if key == client then requests[key] else Since(requests[key], cutoff)
  }

  lemma AgreesLater(requests: map<string, seq<real>>, history: seq<Arrival>, older: real, newer: real)
    requires Agrees(requests, history, older) && older <= newer
    ensures Agrees(requests, history, newer)
  {
    forall client
      ensures SameSince(Stored(requests, client), Times(history, client), newer)
    {
      assert SameSince(Stored(requests, client), Times(history, client), older);
      SinceTwice(Stored(requests, client), older, newer);
      SinceTwice(Times(history, client), older, newer);
    }
  }

  lemma ExactAgrees(requests: map<string, seq<real>>, history: seq<Arrival>, cutoff: real)
    requires Exact(requests, history, cutoff)
    ensures Agrees(requests, history, cutoff)
  {
    forall client
      ensures SameSince(Stored(requests, client), Times(history, client), cutoff)
    {
      assert ExactFor(requests, client, Times(history, client), cutoff);
      SinceTwice(Times(history, client), cutoff, cutoff);
    }
  }

  lemma SweptAt(requests: map<string, seq<real>>, client: string, cutoff: real, key: string)
    ensures Stored(Swept(requests, client, cutoff), key)
         == if key == client then Stored(requests, key) else Since(Stored(requests, key), cutoff)
    ensures key in Swept(requests, client, cutoff)
       <==> key in requests && (key == client || Since(Stored(requests, key), cutoff) != [])
  {
  }

  lemma AdmissionMakesExactAt(requests: map<string, seq<real>>, history: seq<Arrival>, client: string, now: real,
                              recent: seq<real>, key: string)
    requires SameSince(Stored(requests, key), Times(history, key), now - WINDOW)
    requires recent == Since(Times(history, client), now - WINDOW)
    ensures ExactFor(Swept(requests[client := recent + [now]], client, now - WINDOW), key,
                     Times(history + [Arrival(client, now)], key), now - WINDOW)
  {
    SweptAt(requests[client := recent + [now]], client, now - WINDOW, key);
    TimesSnoc(history, Arrival(client, now), key);
    if key == client {
      SinceSnoc(Times(history, key), now, now - WINDOW);
    } else {
      assert Stored(requests[client := recent + [now]], key) == Stored(requests, key);
      assert Times(history + [Arrival(client, now)], key) == Times(history, key);
    }
  }

  lemma AdmissionMakesExact(requests: map<string, seq<real>>, history: seq<Arrival>, client: string, now: real,
                            recent: seq<real>)
    requires Agrees(requests, history, now - WINDOW)
    requires recent == Since(Times(history, client), now - WINDOW)
    ensures Exact(Swept(requests[client := recent + [now]], client, now - WINDOW),
                  history + [Arrival(client, now)], now - WINDOW)
  {
    forall key
      ensures ExactFor(Swept(requests[client := recent + [now]], client, now - WINDOW), key,
                       Times(history + [Arrival(client, now)], key), now - WINDOW)
    {
      assert SameSince(Stored(requests, key), Times(history, key), now - WINDOW);
      AdmissionMakesExactAt(requests, history, client, now, recent, key);
    }
  }

  class Limiter {
    const rpm: int
    var requests: map<string, seq<real>>
    ghost var history: seq<Arrival>
    ghost var clock: real

    ghost predicate Valid()
      reads this
    {
      Agrees(requests, history, clock - WINDOW)
    }

    constructor (rpm: int, now: real)
      ensures Valid() && this.rpm == rpm && requests == map[] && history == [] && clock == now
    {
      this.rpm := rpm;
      requests := map[];
      history := [];
      clock := now;
    }

    /** Drop what has expired, and the clients with nothing left, but for `client`. */
    method Sweep(client: string, cutoff: real)
      modifies `requests
      ensures requests == Swept(old(requests), client, cutoff)
    {
      var keys := requests.Keys;
      while keys != {}
        invariant keys <= old(requests).Keys
        invariant forall key :: key in keys ==> key in requests && requests[key] == old(requests)[key]
        invariant forall key :: key !in keys ==>
          (key in requests <==> key in Swept(old(requests), client, cutoff))
        invariant forall key :: key !in keys && key in requests ==>
          requests[key] == Swept(old(requests), client, cutoff)[key]
        decreases |keys|
      {
        var key :| key in keys;
        keys := keys - {key};
        if key != client {
          var pruned := Since(requests[key], cutoff);
          if pruned != [] {
            requests := requests[key := pruned];
          } else {
            requests := requests - {key};
          }
        }
      }
    }

    /** Write this client's pruned list back with the new admission, and sweep the others. */
    method Admit(client: string, now: real, timestamps: seq<real>)
      requires Agrees(requests, history, now - WINDOW)
      requires timestamps == Since(Times(history, client), now - WINDOW)
      modifies `requests, `history
      ensures history == old(history) + [Arrival(client, now)]
      ensures Exact(requests, history, now - WINDOW) && Agrees(requests, history, now - WINDOW)
    {
      AdmissionMakesExact(requests, history, client, now, timestamps);
      requests := requests[client := timestamps + [now]];
      history := history + [Arrival(client, now)];
      Sweep(client, now - WINDOW);
      ExactAgrees(requests, history, now - WINDOW);
    }

    /** One request. The verdict is that of the full history, and an admitted request leaves the table
      * holding exactly the admissions of the last minute. */
    method Dispatch(client: string, now: real) returns (verdict: Verdict)
      requires Valid() && clock <= now
      modifies this
      ensures Valid() && clock == now
      ensures verdict == Decide(old(history), rpm, Arrival(client, now))
      ensures history == Recorded(old(history), rpm, Arrival(client, now))
      ensures !verdict.Admitted? ==> requests == old(requests)
      ensures verdict.Admitted? ==> Exact(requests, history, now - WINDOW)
    {
      AgreesLater(requests, history, clock - WINDOW, now - WINDOW);
      clock := now;
      if rpm <= 0 {
        return Unlimited;
      }
      var cutoff := now - WINDOW;
      var timestamps := Since(Stored(requests, client), cutoff);
      assert SameSince(Stored(requests, client), Times(history, client), cutoff);
      if |timestamps| >= rpm {
        var retryAfter := (timestamps[0] - cutoff).Floor + 1;
        return Refused(Max(retryAfter, 1));
      }
      Admit(client, now, timestamps);
      verdict := Admitted(Max(0, rpm - |timestamps + [now]|));
    }
  }
}
