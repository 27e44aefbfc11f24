/** The sliding-window rate limiter over a Redis sorted set. */
module RateLimit {
  /**
   One key: the scores in the sorted set, and when the key expires. Members are named by the text of their timestamp,
   so equal timestamps are one member.
   */
  datatype Window = Window(scores: set<real>, expires: real)

  const EMPTY := Window({}, 0.0)

  predicate Live(w: Window, now: real) {
    w.scores != {} && now < w.expires
  }

  function Trimmed(scores: set<real>, start: real): set<real> {
    set t | t in scores && t > start
  }

  /** Expiry, trim, insert, refresh the expiry; admitted when the count does not exceed the limit. */
  function Check(w: Window, limit: int, window: real, now: real): (Window, bool) {
    var present := if Live(w, now) then w.scores else {};
    var scores := Trimmed(present, now - window) + {now};
    (Window(scores, now + window), |scores| <= limit)
  }

  class RateLimiter {
    var keys: map<string, Window>
    const enabled: bool

    constructor (enabled: bool)
      ensures keys == map[] && this.enabled == enabled
    {
      keys := map[];
      this.enabled := enabled;
    }

    function At(key: string): Window
      reads this
    {
      if FullKey(key) in keys then keys[FullKey(key)] else EMPTY
    }

    function FullKey(key: string): string {
      "rate_limit:" + key
    }

    /** Different keys have different windows. */
    lemma FullKeysDiffer(key: string, other: string)
      requires key != other
      ensures FullKey(key) != FullKey(other)
    {
      assert FullKey(key)[|"rate_limit:"|..] == key;
      assert FullKey(other)[|"rate_limit:"|..] == other;
    }

    /** The pipeline, command by command; a refusal advertises the whole window as the time to wait. */
    method CheckRateLimit(key: string, limit: int, window: real, now: real) returns (admitted: bool, retryAfter: real)
      modifies this
      ensures !enabled ==> admitted && keys == old(keys)
      ensures enabled ==>
        (At(key), admitted) == Check(old(At(key)), limit, window, now) && keys == old(keys)[FullKey(key) := At(key)]
      ensures forall other :: other != key ==> At(other) == old(At(other))
      ensures !admitted ==> retryAfter == window
    {
      retryAfter := window;
      if !enabled {
        return true, retryAfter;
      }
      forall other | other != key
        ensures FullKey(other) != FullKey(key)
      {
        FullKeysDiffer(key, other);
      }
      var fullKey := FullKey(key);
      var w := if fullKey in keys then keys[fullKey] else EMPTY;
      var scores := if Live(w, now) then w.scores else {};
      // ZREMRANGEBYSCORE -inf (now - window)
      scores := set t | t in scores && t > now - window;
      // ZADD
      scores := scores + {now};
      // ZCARD
      var count := |scores|;
      // EXPIRE
      keys := keys[fullKey := Window(scores, now + window)];
      admitted := count <= limit;
    }
  }

  // ---- a sequence of attempts on one key ----

  predicate NonDecreasing(times: seq<real>) {
    forall i, j :: 0 <= i < j < |times| ==> times[i] <= times[j]
  }

  predicate Increasing(times: seq<real>) {
    forall i, j :: 0 <= i < j < |times| ==> times[i] < times[j]
  }

  /** The state of the key after the attempts. */
  function After(times: seq<real>, limit: int, window: real): Window {
    if times == [] then EMPTY
    else Check(After(times[..|times| - 1], limit, window), limit, window, times[|times| - 1]).0
  }

  predicate Admitted(times: seq<real>, i: nat, limit: int, window: real)
    requires i < |times|
  {
    Check(After(times[..i], limit, window), limit, window, times[i]).1
  }

  /** The distinct timestamps in (now - window, now]. */
  function Recent(times: seq<real>, start: real): set<real> {
    set t | t in times && t > start
  }

  lemma NextScores(front: seq<real>, now: real, w: Window, window: real)
    requires window > 0.0 && NonDecreasing(front + [now])
    requires front == [] ==> w == EMPTY
    requires front != [] ==> w == Window(Recent(front, front[|front| - 1] - window), front[|front| - 1] + window)
    ensures Trimmed(if Live(w, now) then w.scores else {}, now - window) + {now} == Recent(front + [now], now - window)
  {
    var times := front + [now];
    assert forall t :: t in times <==> t in front || t == now;
    if front != [] {
      var before := times[|times| - 2];
      assert before == front[|front| - 1] && times[|times| - 1] == now;
      forall t | t in front
        ensures t <= before
      {
        var i :| 0 <= i < |front| && front[i] == t;
        assert times[i] == t;
      }
    }
  }

  lemma NonDecreasingFront(front: seq<real>, now: real)
    requires NonDecreasing(front + [now])
    ensures NonDecreasing(front)
  {
    var times := front + [now];
    forall i, j | 0 <= i < j < |front|
      ensures front[i] <= front[j]
    {
      assert times[i] <= times[j];
    }
  }

  ghost predicate HoldsRecent(times: seq<real>, w: Window, window: real) {
    if times == [] then w == EMPTY
    else w == Window(Recent(times, times[|times| - 1] - window), times[|times| - 1] + window)
  }

  lemma CheckHolds(front: seq<real>, now: real, w: Window, limit: int, window: real)
    requires window > 0.0 && NonDecreasing(front + [now]) && HoldsRecent(front, w, window)
    ensures HoldsRecent(front + [now], Check(w, limit, window, now).0, window)
  {
    NextScores(front, now, w, window);
    var times, scores := front + [now], Recent(front + [now], now - window);
    assert Check(w, limit, window, now).0 == Window(scores, now + window);
    assert times != [] && times[|times| - 1] == now;
  }

  lemma OneMoreScore(front: seq<real>, now: real, limit: int, window: real)
    requires window > 0.0 && NonDecreasing(front + [now]) && HoldsRecent(front, After(front, limit, window), window)
    ensures HoldsRecent(front + [now], After(front + [now], limit, window), window)
  {
    CheckHolds(front, now, After(front, limit, window), limit, window);
  }

  /** What the set holds after the attempts: the timestamps still in the last attempt's window. */
  lemma {:induction false} ScoresAreRecent(times: seq<real>, limit: int, window: real)
    requires window > 0.0 && NonDecreasing(times)
    ensures HoldsRecent(times, After(times, limit, window), window)
  {
    if times != [] {
      var front, now := times[..|times| - 1], times[|times| - 1];
      assert times == front + [now];
      NonDecreasingFront(front, now);
      ScoresAreRecent(front, limit, window);
      OneMoreScore(front, now, limit, window);
    }
  }

  /** An attempt is admitted exactly if the window that ends with it holds at most `limit` distinct timestamps. */
  lemma AdmittedIff(times: seq<real>, i: nat, limit: int, window: real)
    requires window > 0.0 && NonDecreasing(times) && i < |times|
    ensures Admitted(times, i, limit, window) <==> |Recent(times[..i + 1], times[i] - window)| <= limit
  {
    var upTo := times[..i + 1];
    assert upTo[..i] == times[..i];
    ScoresAreRecent(upTo, limit, window);
  }

  // ---- the key's expiry ----

  /** The same limiter on a key that never expires. */
  function AfterForever(times: seq<real>, window: real): set<real> {
    if times == [] then {}
    else Trimmed(AfterForever(times[..|times| - 1], window), times[|times| - 1] - window) + {times[|times| - 1]}
  }

  lemma {:induction false} ForeverIsRecent(times: seq<real>, window: real)
    requires window > 0.0 && NonDecreasing(times) && times != []
    ensures AfterForever(times, window) == Recent(times, times[|times| - 1] - window)
  {
    var front, now := times[..|times| - 1], times[|times| - 1];
    assert times == front + [now];
    NonDecreasingFront(front, now);
    if front != [] {
      ForeverIsRecent(front, window);
    }
  }

  /** Expiry changes nothing: by the time the key expires, every score in it would be trimmed anyway. */
  lemma ExpiryIsInvisible(times: seq<real>, limit: int, window: real)
    requires window > 0.0 && NonDecreasing(times)
    ensures After(times, limit, window).scores == AfterForever(times, window)
  {
    ScoresAreRecent(times, limit, window);
    if times != [] {
      ForeverIsRecent(times, window);
    }
  }

  // ---- counting attempts ----

  /** How many attempts fall into (start, end]. */
  function Attempts(times: seq<real>, start: real, end: real): nat {
    if times == [] then 0
    else Attempts(times[..|times| - 1], start, end) + (if start < times[|times| - 1] <= end then 1 else 0)
  }

  // ---- the bound ----

  /** The timestamps of some of the attempts. */
  function Instants(times: seq<real>, s: set<nat>): set<real> {
    set i | i in s && i < |times| :: times[i]
  }

  lemma {:induction false} InstantsOfIncreasing(times: seq<real>, s: set<nat>)
    requires Increasing(times) && forall i :: i in s ==> i < |times|
    ensures |Instants(times, s)| == |s|
  {
    if s == {} {
      assert Instants(times, s) == {};
    } else {
      var m :| m in s;
      InstantsOfIncreasing(times, s - {m});
      var rest := Instants(times, s - {m});
      assert Instants(times, s) == rest + {times[m]};
      assert times[m] !in rest;
    }
  }

  lemma {:induction false} Latest(s: set<nat>) returns (m: nat)
    requires s != {}
    ensures m in s && forall i :: i in s ==> i <= m
  {
    var first :| first in s;
    m := first;
    if s != {first} {
      assert s - {first} != {};
      var other := Latest(s - {first});
      m := if first < other then other else first;
      assert forall i :: i in s ==> i == first || i in s - {first};
    }
  }

  lemma SubsetSize(a: set<real>, b: set<real>)
    requires a <= b
    ensures |a| <= |b|
  {
    assert b == a + (b - a);
  }

  /** Admitted attempts that all lie less than one window apart have at most `limit` different timestamps. */
  lemma WindowBound(times: seq<real>, limit: nat, window: real, s: set<nat>)
    requires window > 0.0 && NonDecreasing(times)
    requires forall i :: i in s ==> i < |times| && Admitted(times, i, limit, window)
    requires forall i, j :: i in s && j in s ==> times[j] - times[i] < window
    ensures |Instants(times, s)| <= limit
  {
    if s == {} {
      assert Instants(times, s) == {};
    } else {
      var m := Latest(s);
      AdmittedIff(times, m, limit, window);
      var recent := Recent(times[..m + 1], times[m] - window);
      forall t | t in Instants(times, s)
        ensures t in recent
      {
        var i :| i in s && times[i] == t;
        assert times[..m + 1][i] == t;
      }
      SubsetSize(Instants(times, s), recent);
    }
  }

  predicate AdmittedBetween(times: seq<real>, i: nat, limit: nat, window: real, a: real, b: real, closedLeft: bool) {
    i < |times| && Admitted(times, i, limit, window) && if closedLeft then a <= times[i] < b else a < times[i] <= b
  }

  /** The attempts admitted in a half-open interval, closed on the left or on the right. */
  function AdmittedIn(times: seq<real>, limit: nat, window: real, a: real, b: real, closedLeft: bool): set<nat> {
    set i | 0 <= i < |times| && AdmittedBetween(times, i, limit, window, a, b, closedLeft)
  }

  /**
   Whatever half-open interval of one window's length one looks at, attempts in it were admitted at `limit` instants
   at most.
   */
  lemma InstantBound(times: seq<real>, limit: nat, window: real, a: real, closedLeft: bool)
    requires window > 0.0 && NonDecreasing(times)
    ensures |Instants(times, AdmittedIn(times, limit, window, a, a + window, closedLeft))| <= limit
  {
    var s := AdmittedIn(times, limit, window, a, a + window, closedLeft);
    assert forall i :: i in s ==> AdmittedBetween(times, i, limit, window, a, a + window, closedLeft);
    WindowBound(times, limit, window, s);
  }

  /** With increasing times, at most `limit` attempts in it were admitted. */
  lemma IntervalBound(times: seq<real>, limit: nat, window: real, a: real, closedLeft: bool)
    requires window > 0.0 && Increasing(times)
    ensures |AdmittedIn(times, limit, window, a, a + window, closedLeft)| <= limit
  {
    InstantBound(times, limit, window, a, closedLeft);
    InstantsOfIncreasing(times, AdmittedIn(times, limit, window, a, a + window, closedLeft));
  }

  // ---- equal timestamps ----

  predicate DistinctIn(times: seq<real>, start: real, end: real) {
    forall i, j :: 0 <= i < j < |times| && start < times[i] <= end && start < times[j] <= end ==> times[i] != times[j]
  }

  function Stamps(times: seq<real>, start: real, end: real): set<real> {
    set t | t in times && start < t <= end
  }

  lemma OneMoreStamp(front: seq<real>, now: real, start: real, end: real)
    ensures Stamps(front + [now], start, end) == Stamps(front, start, end) + if start < now <= end then {now} else {}
    ensures DistinctIn(front + [now], start, end) <==>
      DistinctIn(front, start, end) && !(start < now <= end && now in Stamps(front, start, end))
  {
    var times := front + [now];
    assert forall t :: t in times <==> t in front || t == now;
    assert forall i :: 0 <= i < |front| ==> times[i] == front[i];
    if start < now <= end && now in Stamps(front, start, end) {
      var i :| 0 <= i < |front| && front[i] == now;
      assert times[i] == times[|front|];
    }
  }

  /** Attempts outnumber timestamps unless the timestamps are all different. */
  lemma {:induction false} AttemptsAndTimestamps(times: seq<real>, start: real, end: real)
    ensures |Stamps(times, start, end)| <= Attempts(times, start, end)
    ensures |Stamps(times, start, end)| == Attempts(times, start, end) <==> DistinctIn(times, start, end)
  {
    if times == [] {
      assert Stamps(times, start, end) == {};
    } else {
      var front, now := times[..|times| - 1], times[|times| - 1];
      assert times == front + [now];
      AttemptsAndTimestamps(front, start, end);
      OneMoreStamp(front, now, start, end);
    }
  }

  lemma RecentIsStamps(times: seq<real>, i: nat, window: real)
    requires NonDecreasing(times) && i < |times|
    ensures Recent(times[..i + 1], times[i] - window) == Stamps(times[..i + 1], times[i] - window, times[i])
  {
  }

  /** The i-th attempt is admitted under exactly the limits from n on. */
  ghost predicate CountsAs(times: seq<real>, i: nat, window: real, n: nat)
    requires i < |times|
  {
    forall limit: int {:trigger Admitted(times, i, limit, window)} :: Admitted(times, i, limit, window) <==> n <= limit
  }

  lemma CountsTimestamps(times: seq<real>, i: nat, window: real)
    requires window > 0.0 && NonDecreasing(times) && i < |times|
    ensures CountsAs(times, i, window, |Stamps(times[..i + 1], times[i] - window, times[i])|)
  {
    RecentIsStamps(times, i, window);
    forall limit: int
      ensures Admitted(times, i, limit, window) <==> |Stamps(times[..i + 1], times[i] - window, times[i])| <= limit
    {
      AdmittedIff(times, i, limit, window);
    }
  }

  lemma CountIsUnique(times: seq<real>, i: nat, window: real, m: nat, n: nat)
    requires i < |times| && CountsAs(times, i, window, m)
    ensures CountsAs(times, i, window, n) <==> m == n
  {
    var a: int, b: int := m, n;
    assert Admitted(times, i, a, window) && (Admitted(times, i, b, window) <==> m <= n);
  }

  /**
   The limiter counts attempts, for every limit, exactly if the attempts in the window have different timestamps: equal
   timestamps are one member of the set.
   */
  lemma CountsAttemptsIff(times: seq<real>, i: nat, window: real)
    requires window > 0.0 && NonDecreasing(times) && i < |times|
    ensures var upTo, start := times[..i + 1], times[i] - window;
      CountsAs(times, i, window, Attempts(upTo, start, times[i])) <==> DistinctIn(upTo, start, times[i])
  {
    var upTo, start := times[..i + 1], times[i] - window;
    AttemptsAndTimestamps(upTo, start, times[i]);
    CountsIff(times, i, window, Attempts(upTo, start, times[i]));
  }

  lemma CountsIff(times: seq<real>, i: nat, window: real, n: nat)
    requires window > 0.0 && NonDecreasing(times) && i < |times|
    ensures CountsAs(times, i, window, n) <==> |Stamps(times[..i + 1], times[i] - window, times[i])| == n
  {
    CountsTimestamps(times, i, window);
    CountIsUnique(times, i, window, |Stamps(times[..i + 1], times[i] - window, times[i])|, n);
  }

  /**
   With increasing times: admitted exactly if at most `limit` attempts, refused ones included, fall into the window.
   */
  lemma AdmittedIffFewAttempts(times: seq<real>, i: nat, limit: int, window: real)
    requires window > 0.0 && Increasing(times) && i < |times|
    ensures Admitted(times, i, limit, window) <==> Attempts(times[..i + 1], times[i] - window, times[i]) <= limit
  {
    CountsAttemptsIff(times, i, window);
  }

  /** Two attempts at the same instant are both admitted under a limit of one. */
  lemma SameInstantSlipsThrough()
    ensures Admitted([5.0, 5.0], 0, 1, 60.0) && Admitted([5.0, 5.0], 1, 1, 60.0)
  {
    var times := [5.0, 5.0];
    AdmittedIff(times, 0, 1, 60.0);
    AdmittedIff(times, 1, 1, 60.0);
    assert Recent(times[..1], 5.0 - 60.0) == {5.0};
    assert Recent(times[..2], 5.0 - 60.0) == {5.0};
  }

  // ---- waiting as told ----

  /** Whoever stays silent for the advertised `retry_after` is admitted next, provided anybody ever is. */
  lemma SilenceIsRewarded(times: seq<real>, i: nat, limit: int, window: real)
    requires window > 0.0 && NonDecreasing(times) && 0 < i < |times|
    requires times[i] >= times[i - 1] + window
    ensures Admitted(times, i, limit, window) <==> limit >= 1
  {
  }
}
