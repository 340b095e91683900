/**
 The sliding-window rate limiter of one identifier. All limiters share its sorted set: every request
 trims old members, counts, adds itself and renews the key's expiry, in one atomic pipeline. Clocks
 do not run backwards, and members are distinct.
 */
module RateLimiter {
  import opened Collections

  const WINDOW := 60_000

  datatype Request = Request(now: nat, member: nat, max: nat, redisUp: bool)

  datatype Verdict = Admitted | Rejected | FailedOpen

  /** The sorted set with the score of each member, and the time its key expires. */
  datatype SortedSet = SortedSet(scores: map<nat, nat>, expiresAt: int)

  const NoKey := SortedSet(map[], 0)

  /** ZREMRANGEBYSCORE key 0 windowStart: the window start itself is removed too. */
  function Trim(scores: map<nat, nat>, windowStart: int): map<nat, nat> {
    map m | m in scores && scores[m] > windowStart :: scores[m]
  }

  function Visible(z: SortedSet, now: nat): map<nat, nat> {
    if now < z.expiresAt then z.scores else map[]
  }

  function CountFor(z: SortedSet, now: nat): nat {
    |Trim(Visible(z, now), now - WINDOW)|
  }

  /** One request. A Redis error lets it through and leaves no trace. */
  function Step(z: SortedSet, r: Request): (SortedSet, Verdict) {
    if !r.redisUp then (z, FailedOpen)
    else
      (SortedSet(Trim(Visible(z, r.now), r.now - WINDOW)[r.member := r.now], r.now + 2 * WINDOW),
       if CountFor(z, r.now) >= r.max then Rejected else Admitted)
  }

  function After(requests: seq<Request>): SortedSet {
    if requests == [] then NoKey else Step(After(requests[..|requests| - 1]), requests[|requests| - 1]).0
  }

  function VerdictOn(requests: seq<Request>, i: nat): Verdict
    requires i < |requests|
  {
    Step(After(requests[..i]), requests[i]).1
  }

  predicate ClocksAndMembersOk(requests: seq<Request>) {
    && (forall i, j :: 0 <= i < j < |requests| ==> requests[i].now <= requests[j].now)
    && (forall i, j :: 0 <= i < j < |requests| ==> requests[i].member != requests[j].member)
  }

  // ---------------------------------------------------------------- the full log as reference

  predicate Logged(requests: seq<Request>, i: nat, from: int) {
    i < |requests| && requests[i].redisUp && requests[i].now > from
  }

  /** All requests of the log later than a time, told apart by their members. */
  function LoggedAfter(requests: seq<Request>, from: int): set<nat> {
    set i | 0 <= i < |requests| && Logged(requests, i, from) :: requests[i].member
  }

  predicate UpToNow(requests: seq<Request>, now: nat) {
    forall i :: 0 <= i < |requests| ==> requests[i].now <= now
  }

  /** The log as a sorted set that is never trimmed and never expires. */
  function Untrimmed(requests: seq<Request>): map<nat, nat> {
    if requests == [] then map[]
    else
      var n := |requests| - 1;
      var before := Untrimmed(requests[..n]);
      if requests[n].redisUp then before[requests[n].member := requests[n].now] else before
  }

  lemma {:induction false} UntrimmedUpTo(requests: seq<Request>, now: nat)
    requires UpToNow(requests, now)
    ensures forall m :: m in Untrimmed(requests) ==> Untrimmed(requests)[m] <= now
  {
    if requests != [] {
      UntrimmedUpTo(requests[..|requests| - 1], now);
    }
  }

  lemma {:induction false} UntrimmedHas(requests: seq<Request>, i: nat)
    requires ClocksAndMembersOk(requests) && i < |requests| && requests[i].redisUp
    ensures requests[i].member in Untrimmed(requests) && Untrimmed(requests)[requests[i].member] == requests[i].now
  {
    var n := |requests| - 1;
    if i < n {
      UntrimmedHas(requests[..n], i);
    }
  }

  lemma {:induction false} UntrimmedFrom(requests: seq<Request>, m: nat) returns (i: nat)
    requires m in Untrimmed(requests)
    ensures i < |requests| && requests[i].redisUp && requests[i].member == m && requests[i].now == Untrimmed(requests)[m]
  {
    var n := |requests| - 1;
    if requests[n].redisUp && requests[n].member == m {
      i := n;
    } else {
      i := UntrimmedFrom(requests[..n], m);
    }
  }

  /** Trimming twice is trimming once at the later time, and what is added last survives. */
  lemma {:induction false} TrimAgain(scores: map<nat, nat>, first: int, later: int, member: nat, score: nat)
    requires first <= later
    ensures Trim(Trim(scores, first)[member := score], later) == Trim(scores[member := score], later)
  {}

  /** One request on the real set and on the untrimmed one: later cuts see no difference. */
  lemma {:induction false} StepMirrors(z: SortedSet, all: map<nat, nat>, r: Request, now: nat)
    requires r.redisUp && r.now <= now
    requires Trim(Visible(z, r.now), r.now - WINDOW) == Trim(all, r.now - WINDOW)
    requires forall m :: m in all ==> all[m] <= r.now
    ensures Trim(Visible(Step(z, r).0, now), now - WINDOW) == Trim(all[r.member := r.now], now - WINDOW)
  {
    TrimAgain(all, r.now - WINDOW, now - WINDOW, r.member, r.now);
  }

  lemma {:induction false} SetMirrorsLog(requests: seq<Request>, now: nat)
    requires ClocksAndMembersOk(requests) && UpToNow(requests, now)
    ensures Trim(Visible(After(requests), now), now - WINDOW) == Trim(Untrimmed(requests), now - WINDOW)
  {
    if requests != [] {
      var n := |requests| - 1;
      var before, r := requests[..n], requests[n];
      if r.redisUp {
        SetMirrorsLog(before, r.now);
        UntrimmedUpTo(before, r.now);
        StepMirrors(After(before), Untrimmed(before), r, now);
      } else {
        SetMirrorsLog(before, now);
        assert After(requests) == After(before);
      }
    }
  }

  lemma {:induction false} CountedAreLogged(requests: seq<Request>, from: int)
    requires ClocksAndMembersOk(requests)
    ensures Trim(Untrimmed(requests), from).Keys == LoggedAfter(requests, from)
  {
    forall m | m in Trim(Untrimmed(requests), from) ensures m in LoggedAfter(requests, from) {
      var i := UntrimmedFrom(requests, m);
      assert Logged(requests, i, from);
    }
    forall i: nat | i < |requests| && Logged(requests, i, from) ensures requests[i].member in Trim(Untrimmed(requests), from) {
      UntrimmedHas(requests, i);
    }
  }

  /** The trimmed set answers like a count over the whole request log. */
  lemma {:induction false} AnswersLikeFullLog(requests: seq<Request>, now: nat)
    requires ClocksAndMembersOk(requests) && UpToNow(requests, now)
    ensures CountFor(After(requests), now) == |LoggedAfter(requests, now - WINDOW)|
  {
    SetMirrorsLog(requests, now);
    CountedAreLogged(requests, now - WINDOW);
    var counted := Trim(Visible(After(requests), now), now - WINDOW);
    assert |counted| == |counted.Keys|;
  }

  // ---------------------------------------------------------------- the guarantee

  /** Requests admitted within (from, from + window] by limiters whose maximum is at most `max`. */
  predicate AdmittedAt(requests: seq<Request>, i: nat, from: int, max: nat) {
    i < |requests| && from < requests[i].now <= from + WINDOW && requests[i].max <= max && VerdictOn(requests, i) == Admitted
  }

  function AdmittedIn(requests: seq<Request>, from: int, max: nat): set<nat> {
    set i | 0 <= i < |requests| && AdmittedAt(requests, i, from, max) :: requests[i].member
  }

  lemma {:induction false} LastWhere(p: nat -> bool, n: nat, m: nat) returns (k: nat)
    requires m < n && p(m)
    ensures k < n && p(k) && forall i :: k < i < n ==> !p(i)
  {
    k := n - 1;
    if !p(k) {
      k := LastWhere(p, n - 1, m);
    }
  }

  lemma {:induction false} LastAdmitted(requests: seq<Request>, from: int, max: nat, m: nat) returns (k: nat)
    requires m < |requests| && AdmittedAt(requests, m, from, max)
    ensures k < |requests| && AdmittedAt(requests, k, from, max)
    ensures forall i :: k < i < |requests| ==> !AdmittedAt(requests, i, from, max)
  {
    var admitted := (i: nat) => AdmittedAt(requests, i, from, max);
    k := LastWhere(admitted, |requests|, m);
    forall i | k < i < |requests| ensures !AdmittedAt(requests, i, from, max) {
      assert !admitted(i);
    }
  }

  /** The verdict in terms of the log: a request is admitted if and only if fewer requests than its maximum
      were logged in the 60 seconds before it, and let through unseen if and only if Redis is down. */
  lemma {:induction false} VerdictIff(requests: seq<Request>, k: nat)
    requires ClocksAndMembersOk(requests) && k < |requests|
    ensures VerdictOn(requests, k) == FailedOpen <==> !requests[k].redisUp
    ensures VerdictOn(requests, k) == Admitted <==>
              requests[k].redisUp && |LoggedAfter(requests[..k], requests[k].now - 60_000)| < requests[k].max
  {
    AnswersLikeFullLog(requests[..k], requests[k].now);
  }

  /** All admitted requests of the window before the last one were logged when that one was counted. */
  lemma {:induction false} AdmittedWereLogged(requests: seq<Request>, from: int, max: nat, k: nat)
    requires ClocksAndMembersOk(requests) && AdmittedAt(requests, k, from, max)
    requires forall i :: k < i < |requests| ==> !AdmittedAt(requests, i, from, max)
    ensures AdmittedIn(requests, from, max) <= LoggedAfter(requests[..k], requests[k].now - WINDOW) + {requests[k].member}
  {
    var earlier := requests[..k];
    forall j: nat | j < |requests| && AdmittedAt(requests, j, from, max)
      ensures requests[j].member in LoggedAfter(earlier, requests[k].now - WINDOW) + {requests[k].member}
    {
      if j < k {
        assert earlier[j] == requests[j] && Logged(earlier, j, requests[k].now - WINDOW);
      }
    }
  }

  /** In every window of 60 seconds, closed at its end, the limiters with a maximum of at most M admit at
      most M requests together, even though limiters with other maxima count in the same set. */
  lemma {:induction false} WindowBound(requests: seq<Request>, from: int, max: nat)
    requires ClocksAndMembersOk(requests)
    ensures |AdmittedIn(requests, from, max)| <= max
  {
    if m :| 0 <= m < |requests| && AdmittedAt(requests, m, from, max) {
      var k := LastAdmitted(requests, from, max, m);
      VerdictIff(requests, k);
      AdmittedWereLogged(requests, from, max, k);
      var counted := LoggedAfter(requests[..k], requests[k].now - WINDOW);
      SubsetSize(AdmittedIn(requests, from, max), counted + {requests[k].member});
    } else {
      assert AdmittedIn(requests, from, max) == {};
    }
  }

  // ---------------------------------------------------------------- the middleware

  class Limiter {
    var scores: map<nat, nat>
    var expiresAt: int

    constructor ()
      ensures Key() == NoKey
    {
      scores, expiresAt := map[], 0;
    }

    function Key(): SortedSet
      reads this
    {
      SortedSet(scores, expiresAt)
    }

    method ZRemRangeByScore(windowStart: int)
      modifies this
      ensures scores == Trim(old(scores), windowStart) && expiresAt == old(expiresAt)
    {
      var todo := scores.Keys;
      var before := scores;
      while todo != {}
        invariant todo <= before.Keys && expiresAt == old(expiresAt)
        invariant scores == map m | m in before && (m in todo || before[m] > windowStart) :: before[m]
        decreases |todo|
      {
        var m :| m in todo;
        todo := todo - {m};
        if before[m] <= windowStart {
          scores := scores - {m};
        }
      }
    }

    /** The pipeline: trim, count, add, renew the expiry; then compare the count with the maximum. */
    method Handle(r: Request) returns (verdict: Verdict)
      modifies this
      ensures (Key(), verdict) == Step(old(Key()), r)
    {
      if !r.redisUp {
        return FailedOpen;
      }
      if r.now >= expiresAt {
        scores := map[];
      }
      ZRemRangeByScore(r.now - WINDOW);
      var requestCount := |scores|;
      scores := scores[r.member := r.now];
      expiresAt := r.now + 2 * WINDOW;
      verdict := if requestCount >= r.max then Rejected else Admitted;
    }
  }
}
