/** What the sliding-window limiter computes for one key, as a function of the times
    at which it was asked, and what that guarantees. */
module LimiterTheory {
  import opened Basics

  /** The hits after `cutoff`, in order. */
  function Recent(hits: seq<Time>, cutoff: Time): (r: seq<Time>)
    ensures |r| <= |hits|
  {
    if hits == [] then []
    else
      var init, last := hits[..|hits| - 1], hits[|hits| - 1];
      if cutoff < last then Recent(init, cutoff) + [last] else Recent(init, cutoff)
  }

  /** The others, in order. */
  function Stale(hits: seq<Time>, cutoff: Time): seq<Time> {
    if hits == [] then []
    else
      var init, last := hits[..|hits| - 1], hits[|hits| - 1];
      if cutoff < last then Stale(init, cutoff) else Stale(init, cutoff) + [last]
  }

  lemma RecentAppend(hits: seq<Time>, t: Time, cutoff: Time)
    ensures Recent(hits + [t], cutoff) == if cutoff < t then Recent(hits, cutoff) + [t] else Recent(hits, cutoff)
  {
    assert (hits + [t])[..|hits|] == hits;
  }

  lemma {:induction false} RecentOfRecent(hits: seq<Time>, a: Time, b: Time)
    requires a <= b
    ensures Recent(Recent(hits, a), b) == Recent(hits, b)
  {
    if hits != [] {
      var init, last := hits[..|hits| - 1], hits[|hits| - 1];
      RecentOfRecent(init, a, b);
      if a < last {
        RecentAppend(Recent(init, a), last, b);
      } else {
        assert Recent(hits, a) == Recent(init, a);
      }
    }
  }

  // ---------- one key ----------

  /** `hits` is what the limiter keeps; `admitted` and `dropped` are everything it ever
      let in and everything it has thrown away again. */
  datatype Ledger = Ledger(hits: seq<Time>, admitted: seq<Time>, dropped: seq<Time>)

  const EMPTY_LEDGER: Ledger := Ledger([], [], [])

  predicate Admits(hits: seq<Time>, now: Time, limit: nat, window: Time) {
    |Recent(hits, now - window)| < limit
  }

  function Ask(l: Ledger, now: Time, limit: nat, window: Time): Ledger {
    var recent := Recent(l.hits, now - window);
    var dropped := l.dropped + Stale(l.hits, now - window);
    if Admits(l.hits, now, limit, window) then Ledger(recent + [now], l.admitted + [now], dropped)
    else Ledger(recent, l.admitted, dropped)
  }

  /** The ledger after being asked at each of the times in turn. */
  function LedgerOf(times: seq<Time>, limit: nat, window: Time): Ledger {
    if times == [] then EMPTY_LEDGER
    else Ask(LedgerOf(times[..|times| - 1], limit, window), times[|times| - 1], limit, window)
  }

  predicate UpTo(hits: seq<Time>, t: Time) { forall i :: 0 <= i < |hits| ==> hits[i] <= t }

  predicate NonDecreasing(times: seq<Time>) {
    forall i, j :: 0 <= i < j < |times| ==> times[i] <= times[j]
  }

  // ---------- any order of times ----------

  lemma {:induction false} SplitHits(hits: seq<Time>, cutoff: Time)
    ensures multiset(Recent(hits, cutoff)) + multiset(Stale(hits, cutoff)) == multiset(hits)
  {
    if hits != [] {
      var init, last := hits[..|hits| - 1], hits[|hits| - 1];
      SplitHits(init, cutoff);
      assert hits == init + [last];
    }
  }

  lemma AskConserves(l: Ledger, now: Time, limit: nat, window: Time)
    requires multiset(l.hits) + multiset(l.dropped) == multiset(l.admitted)
    ensures var m := Ask(l, now, limit, window); multiset(m.hits) + multiset(m.dropped) == multiset(m.admitted)
  {
    hide Recent, Stale, Admits;
    SplitHits(l.hits, now - window);
  }

  /** Every admitted hit is either still kept or was dropped: none is invented, lost or
      counted twice. */
  lemma {:induction false} HitsConserved(times: seq<Time>, limit: nat, window: Time)
    ensures var l := LedgerOf(times, limit, window);
      multiset(l.hits) + multiset(l.dropped) == multiset(l.admitted)
  {
    if times != [] {
      hide Ask;
      var init, now := times[..|times| - 1], times[|times| - 1];
      HitsConserved(init, limit, window);
      AskConserves(LedgerOf(init, limit, window), now, limit, window);
    }
  }

  lemma {:induction false} RecentConcat(a: seq<Time>, b: seq<Time>, cutoff: Time)
    ensures Recent(a + b, cutoff) == Recent(a, cutoff) + Recent(b, cutoff)
  {
    if b == [] {
      assert a + b == a;
    } else {
      hide Recent;
      var init, last := b[..|b| - 1], b[|b| - 1];
      RecentConcat(a, init, cutoff);
      assert a + b == (a + init) + [last] && b == init + [last];
      RecentAppend(a + init, last, cutoff);
      RecentAppend(init, last, cutoff);
    }
  }

  lemma {:induction false} SplitCount(hits: seq<Time>, cutoff: Time, c: Time)
    ensures |Recent(Recent(hits, cutoff), c)| + |Recent(Stale(hits, cutoff), c)| == |Recent(hits, c)|
  {
    if hits != [] {
      var init, last := hits[..|hits| - 1], hits[|hits| - 1];
      SplitCount(init, cutoff, c);
      if cutoff < last {
        RecentAppend(Recent(init, cutoff), last, c);
      } else {
        RecentAppend(Stale(init, cutoff), last, c);
      }
    }
  }

  predicate Tallies(l: Ledger, c: Time) {
    |Recent(l.admitted, c)| == |Recent(l.hits, c)| + |Recent(l.dropped, c)|
  }

  lemma AskTallies(l: Ledger, now: Time, limit: nat, window: Time, c: Time)
    requires Tallies(l, c)
    ensures Tallies(Ask(l, now, limit, window), c)
  {
    hide Stale, Admits, Recent;
    SplitCount(l.hits, now - window, c);
    RecentConcat(l.dropped, Stale(l.hits, now - window), c);
    RecentAppend(l.admitted, now, c);
    RecentAppend(Recent(l.hits, now - window), now, c);
  }

  lemma {:induction false} CountsAgree(times: seq<Time>, limit: nat, window: Time, c: Time)
    ensures Tallies(LedgerOf(times, limit, window), c)
  {
    if times != [] {
      hide Ask, Tallies;
      CountsAgree(times[..|times| - 1], limit, window, c);
      AskTallies(LedgerOf(times[..|times| - 1], limit, window), times[|times| - 1], limit, window, c);
    }
  }

  /** Exactly when the limiter's count is the ideal one, for times in any order: when
      nothing newer than the cutoff has been dropped. */
  lemma CountIsIdeal(times: seq<Time>, now: Time, limit: nat, window: Time)
    ensures var l := LedgerOf(times, limit, window);
      (|Recent(l.hits, now - window)| == |Recent(l.admitted, now - window)|)
      <==> UpTo(l.dropped, now - window)
  {
    hide LedgerOf;
    CountsAgree(times, limit, window, now - window);
    RecentEmpty(LedgerOf(times, limit, window).dropped, now - window);
  }

  lemma {:induction false} RecentEmpty(hits: seq<Time>, cutoff: Time)
    ensures |Recent(hits, cutoff)| == 0 <==> UpTo(hits, cutoff)
  {
    if hits != [] {
      var init, last := hits[..|hits| - 1], hits[|hits| - 1];
      RecentEmpty(init, cutoff);
      assert forall i :: 0 <= i < |init| ==> init[i] == hits[i];
    }
  }

  // ---------- times that do not go backwards ----------

  /** The ledger as it is when last asked at `now`, the latest time so far: what is kept
      is what was admitted within the last window. */
  ghost predicate InWindow(l: Ledger, now: Time, window: Time) {
    && l.hits == Recent(l.admitted, now - window)
    && UpTo(l.dropped, now - window)
    && UpTo(l.admitted, now)
    && NonDecreasing(l.admitted)
  }

  lemma {:induction false} StaleIsOld(hits: seq<Time>, cutoff: Time)
    ensures UpTo(Stale(hits, cutoff), cutoff)
  {
    if hits != [] {
      StaleIsOld(hits[..|hits| - 1], cutoff);
    }
  }

  lemma AskKeepsWindow(l: Ledger, last: Time, now: Time, limit: nat, window: Time)
    requires InWindow(l, last, window) && last <= now && window > 0
    ensures InWindow(Ask(l, now, limit, window), now, window)
  {
    hide Stale, Admits, Recent;
    RecentOfRecent(l.admitted, last - window, now - window);
    RecentAppend(l.admitted, now, now - window);
    StaleIsOld(l.hits, now - window);
  }

  /** With non-decreasing times the hits kept are exactly the admitted ones inside the
      last window, in order, and nothing still inside a later window was dropped. */
  lemma {:induction false} KeepsLastWindow(times: seq<Time>, limit: nat, window: Time)
    requires times != [] && NonDecreasing(times) && window > 0
    ensures InWindow(LedgerOf(times, limit, window), times[|times| - 1], window)
  {
    hide Ask, InWindow;
    var init, now := times[..|times| - 1], times[|times| - 1];
    if init == [] {
      EmptyInWindow(limit, window);
      AskKeepsWindow(EMPTY_LEDGER, now, now, limit, window);
    } else {
      KeepsLastWindow(init, limit, window);
      AskKeepsWindow(LedgerOf(init, limit, window), init[|init| - 1], now, limit, window);
    }
  }

  lemma EmptyInWindow(limit: nat, window: Time)
    ensures forall now :: InWindow(EMPTY_LEDGER, now, window)
  {
  }

  /** The specification met: a call is rejected exactly when `limit` admitted hits lie in
      the window that ends with it. */
  lemma DecidesByWindow(times: seq<Time>, now: Time, limit: nat, window: Time)
    requires NonDecreasing(times) && (times != [] ==> times[|times| - 1] <= now) && window > 0
    ensures var l := LedgerOf(times, limit, window);
      Admits(l.hits, now, limit, window) <==> |Recent(l.admitted, now - window)| < limit
  {
    hide LedgerOf, Recent;
    if times == [] {
      EmptyLedger(limit, window);
    } else {
      KeepsLastWindow(times, limit, window);
      RecentOfRecent(LedgerOf(times, limit, window).admitted, times[|times| - 1] - window, now - window);
    }
  }

  // ---------- the bound ----------

  /** The admitted hits in the window `(t - window, t]`. */
  function Within(hits: seq<Time>, t: Time, window: Time): seq<Time> {
    if hits == [] then []
    else
      var init, last := hits[..|hits| - 1], hits[|hits| - 1];
      if t - window < last <= t then Within(init, t, window) + [last] else Within(init, t, window)
  }

  /** No window of the given length, wherever it lies, holds more than `limit` hits. */
  ghost predicate Bounded(hits: seq<Time>, limit: nat, window: Time) {
    forall t :: |Within(hits, t, window)| <= limit
  }

  /** No window holds both instants. */
  predicate Apart(a: Time, b: Time, window: Time) { a <= b - window || b <= a - window }

  /** A reading that a later one has left a window behind is never come near again. */
  predicate StaysAhead(times: seq<Time>, window: Time) {
    forall i, j, k :: 0 <= i < j < k < |times| && times[i] <= times[j] - window ==> Apart(times[i], times[k], window)
  }

  lemma InOrderStaysAhead(times: seq<Time>, window: Time)
    requires NonDecreasing(times)
    ensures StaysAhead(times, window)
  {
    forall i, j, k | 0 <= i < j < k < |times| && times[i] <= times[j] - window
      ensures Apart(times[i], times[k], window)
    {
      assert times[j] <= times[k];
    }
  }

  lemma {:induction false} WithinCount(hits: seq<Time>, t: Time, window: Time)
    requires window > 0
    ensures |Within(hits, t, window)| == |Recent(hits, t - window)| - |Recent(hits, t)|
  {
    if hits != [] {
      WithinCount(hits[..|hits| - 1], t, window);
    }
  }

  lemma {:induction false} NoneWithin(hits: seq<Time>, t: Time, window: Time)
    requires forall h | h in hits :: !(t - window < h <= t)
    ensures Within(hits, t, window) == []
  {
    if hits != [] {
      var init, last := hits[..|hits| - 1], hits[|hits| - 1];
      assert forall h | h in init :: h in hits;
      assert last in hits;
      NoneWithin(init, t, window);
    }
  }

  lemma {:induction false} FewerRecent(hits: seq<Time>, a: Time, b: Time)
    requires a <= b
    ensures |Recent(hits, b)| <= |Recent(hits, a)|
  {
    if hits != [] {
      FewerRecent(hits[..|hits| - 1], a, b);
    }
  }

  /** A hit is only admitted into a window that has room: whatever the window holds is
      still kept, unless something dropped was near `now`. */
  lemma AskWithin(l: Ledger, now: Time, t: Time, limit: nat, window: Time)
    requires window > 0 && Tallies(l, t) && Tallies(l, t - window)
    requires |Within(l.admitted, t, window)| <= limit
    requires Admits(l.hits, now, limit, window) ==> forall d | d in l.dropped :: Apart(d, now, window)
    ensures |Within(Ask(l, now, limit, window).admitted, t, window)| <= limit
  {
    hide Recent, Stale, Within;
    WithinAppend(l.admitted, now, t, window);
    if Admits(l.hits, now, limit, window) && t - window < now <= t {
      WithinCount(l.admitted, t, window);
      WithinCount(l.hits, t, window);
      WithinCount(l.dropped, t, window);
      NoneWithin(l.dropped, t, window);
      FewerRecent(l.hits, now - window, t - window);
    }
  }

  /** A call at `d` that a later call has left a window behind. */
  ghost predicate Expired(times: seq<Time>, d: Time, window: Time) {
    exists i, j :: 0 <= i < j < |times| && times[i] == d && d <= times[j] - window
  }

  lemma {:induction false} SplitMembers(hits: seq<Time>, cutoff: Time)
    ensures forall h | h in Recent(hits, cutoff) :: h in hits
    ensures forall h | h in Stale(hits, cutoff) :: h in hits && h <= cutoff
  {
    if hits != [] {
      SplitMembers(hits[..|hits| - 1], cutoff);
      assert hits == hits[..|hits| - 1] + [hits[|hits| - 1]];
    }
  }

  lemma ExpiredLater(times: seq<Time>, now: Time, d: Time, window: Time)
    requires Expired(times, d, window) || (d in times && d <= now - window)
    ensures Expired(times + [now], d, window)
  {
    var all := times + [now];
    if Expired(times, d, window) {
      var i, j :| 0 <= i < j < |times| && times[i] == d && d <= times[j] - window;
      assert all[i] == d && all[j] == times[j];
    } else {
      var i :| 0 <= i < |times| && times[i] == d;
      assert all[i] == d && all[|times|] == now;
    }
  }

  lemma {:induction false} DroppedExpired(times: seq<Time>, limit: nat, window: Time)
    ensures forall h | h in LedgerOf(times, limit, window).hits :: h in times
    ensures forall d | d in LedgerOf(times, limit, window).dropped :: Expired(times, d, window)
  {
    if times != [] {
      hide Recent, Stale, Admits, Expired;
      var init, now := times[..|times| - 1], times[|times| - 1];
      var l := LedgerOf(init, limit, window);
      assert times == init + [now];
      DroppedExpired(init, limit, window);
      SplitMembers(l.hits, now - window);
      forall d | d in LedgerOf(times, limit, window).dropped
        ensures Expired(times, d, window)
      {
        ExpiredLater(init, now, d, window);
      }
    }
  }

  lemma DroppedApart(times: seq<Time>, now: Time, d: Time, window: Time)
    requires StaysAhead(times + [now], window) && Expired(times, d, window)
    ensures Apart(d, now, window)
  {
    var i, j :| 0 <= i < j < |times| && times[i] == d && d <= times[j] - window;
    var all := times + [now];
    assert all[i] == d && all[j] == times[j] && all[|times|] == now;
  }

  // ---------- one hit per window ----------

  /** What is kept lies a window after everything dropped. */
  ghost predicate OneKept(l: Ledger, window: Time) {
    |l.hits| <= 1 && forall d | d in l.dropped :: l.hits != [] && d <= l.hits[0] - window
  }

  lemma SplitOne(h: Time, cutoff: Time)
    ensures Recent([h], cutoff) == (if cutoff < h then [h] else [])
    ensures Stale([h], cutoff) == (if cutoff < h then [] else [h])
  {
    NothingRecent(cutoff);
    assert [h][..0] == [];
  }

  lemma AskOneKept(l: Ledger, now: Time, window: Time)
    requires OneKept(l, window) && window > 0
    ensures OneKept(Ask(l, now, 1, window), window)
    ensures Admits(l.hits, now, 1, window) ==> forall d | d in l.dropped :: Apart(d, now, window)
  {
    hide Recent, Stale;
    NothingRecent(now - window);
    if l.hits != [] {
      assert l.hits == [l.hits[0]];
      SplitOne(l.hits[0], now - window);
    }
  }

  lemma {:induction false} AlwaysOneKept(times: seq<Time>, window: Time)
    requires window > 0
    ensures OneKept(LedgerOf(times, 1, window), window)
  {
    if times != [] {
      hide Ask, OneKept;
      AlwaysOneKept(times[..|times| - 1], window);
      AskOneKept(LedgerOf(times[..|times| - 1], 1, window), times[|times| - 1], window);
    } else {
      assert OneKept(EMPTY_LEDGER, window);
    }
  }

  /** What a window holds, by counting. */
  lemma {:induction false} WithinCounts(hits: seq<Time>, t: Time, window: Time)
    ensures |Within(hits, t, window)| == |set i | 0 <= i < |hits| && t - window < hits[i] <= t|
  {
    if hits != [] {
      var init, k := hits[..|hits| - 1], |hits| - 1;
      WithinCounts(init, t, window);
      var before := set i | 0 <= i < |init| && t - window < init[i] <= t;
      var all := set i | 0 <= i < |hits| && t - window < hits[i] <= t;
      assert all == if t - window < hits[k] <= t then before + {k} else before;
    }
  }

  /** A call is rejected exactly when `limit` of the calls admitted so far lie in the window
      that ends with it. */
  lemma RejectsWhenFull(times: seq<Time>, now: Time, limit: nat, window: Time)
    requires NonDecreasing(times) && (times != [] ==> times[|times| - 1] <= now) && window > 0
    ensures var admitted := LedgerOf(times, limit, window).admitted;
      var inWindow := set i | 0 <= i < |admitted| && now - window < admitted[i] <= now;
      LedgerOf(times + [now], limit, window).admitted == if |inWindow| < limit then admitted + [now] else admitted
  {
    var l := LedgerOf(times, limit, window);
    DecidesByWindow(times, now, limit, window);
    LedgerAppend(times, now, limit, window);
    WithinCounts(l.admitted, now, window);
    WithinCount(l.admitted, now, window);
    AdmittedUpTo(times, now, limit, window);
    RecentEmpty(l.admitted, now);
  }

  lemma AdmittedUpTo(times: seq<Time>, now: Time, limit: nat, window: Time)
    requires NonDecreasing(times) && (times != [] ==> times[|times| - 1] <= now) && window > 0
    ensures UpTo(LedgerOf(times, limit, window).admitted, now)
  {
    if times != [] {
      KeepsLastWindow(times, limit, window);
    } else {
      EmptyLedger(limit, window);
    }
  }

  // ---------- when the bound holds ----------

  /** The bound the limiter is for. The times need not be in order: it is enough that no
      call comes near one that a call in between has left a window behind; with a limit
      of one any times will do. */
  lemma {:induction false} WindowBound(times: seq<Time>, t: Time, limit: nat, window: Time)
    requires window > 0 && (limit == 1 || StaysAhead(times, window))
    ensures |Within(LedgerOf(times, limit, window).admitted, t, window)| <= limit
  {
    hide Ask, Within, Tallies, Expired, OneKept, Admits, Apart;
    if times == [] {
      EmptyLedger(limit, window);
      EmptyWithin(t, window);
    } else {
      var init, now := times[..|times| - 1], times[|times| - 1];
      var l := LedgerOf(init, limit, window);
      assert times == init + [now];
      WindowBound(init, t, limit, window);
      CountsAgree(init, limit, window, t);
      CountsAgree(init, limit, window, t - window);
      if limit == 1 {
        AlwaysOneKept(init, window);
        AskOneKept(l, now, window);
      } else {
        DroppedExpired(init, limit, window);
        forall d | d in l.dropped
          ensures Apart(d, now, window)
        {
          DroppedApart(init, now, d, window);
        }
      }
      AskWithin(l, now, t, limit, window);
    }
  }

  /** `at` says which reading each call was made at; a reading may serve any number of
      calls, but none comes after a call at a later reading. */
  predicate MadeAt(calls: seq<Time>, readings: seq<Time>, at: seq<nat>) {
    && |at| == |calls|
    && (forall i :: 0 <= i < |calls| ==> at[i] < |readings| && calls[i] == readings[at[i]])
    && (forall i, j :: 0 <= i < j < |calls| ==> at[i] <= at[j])
  }

  /** The calls are made at successive readings, any number of them at each. */
  ghost predicate Follows(calls: seq<Time>, readings: seq<Time>) {
    exists at :: MadeAt(calls, readings, at)
  }

  lemma FollowersStayAhead(calls: seq<Time>, readings: seq<Time>, window: Time)
    requires StaysAhead(readings, window) && Follows(calls, readings) && window > 0
    ensures StaysAhead(calls, window)
  {
    var at :| MadeAt(calls, readings, at);
    forall i, j, k | 0 <= i < j < k < |calls| && calls[i] <= calls[j] - window
      ensures Apart(calls[i], calls[k], window)
    {
      assert at[i] <= at[j] <= at[k];
      assert readings[at[i]] == calls[i] && readings[at[j]] == calls[j] && readings[at[k]] == calls[k];
    }
  }

  function Repeat(t: Time, n: nat): seq<Time> { seq(n, _ => t) }

  lemma {:induction false} AllRecent(hits: seq<Time>, cutoff: Time)
    requires forall h | h in hits :: cutoff < h
    ensures Recent(hits, cutoff) == hits && Stale(hits, cutoff) == []
  {
    if hits != [] {
      var init, last := hits[..|hits| - 1], hits[|hits| - 1];
      assert forall h | h in init :: h in hits;
      assert last in hits;
      AllRecent(init, cutoff);
    }
  }

  lemma {:induction false} AllStale(hits: seq<Time>, cutoff: Time)
    requires forall h | h in hits :: h <= cutoff
    ensures Recent(hits, cutoff) == [] && Stale(hits, cutoff) == hits
  {
    if hits != [] {
      var init, last := hits[..|hits| - 1], hits[|hits| - 1];
      assert forall h | h in init :: h in hits;
      assert last in hits;
      AllStale(init, cutoff);
    }
  }

  lemma {:induction false} BurstAdmitted(t: Time, n: nat, limit: nat, window: Time)
    requires n <= limit && window > 0
    ensures LedgerOf(Repeat(t, n), limit, window) == Ledger(Repeat(t, n), Repeat(t, n), [])
  {
    if n > 0 {
      hide LedgerOf, Recent, Stale;
      BurstAdmitted(t, n - 1, limit, window);
      AllRecent(Repeat(t, n - 1), t - window);
      LedgerAppend(Repeat(t, n - 1), t, limit, window);
      assert Repeat(t, n) == Repeat(t, n - 1) + [t];
    } else {
      EmptyLedger(limit, window);
    }
  }

  lemma {:induction false} BurstWithin(a: Time, n: nat, t: Time, window: Time)
    requires t - window < a <= t
    ensures |Within(Repeat(a, n), t, window)| == n
  {
    if n > 0 {
      hide Within;
      BurstWithin(a, n - 1, t, window);
      assert Repeat(a, n) == Repeat(a, n - 1) + [a];
      WithinAppend(Repeat(a, n - 1), a, t, window);
    } else {
      EmptyWithin(t, window);
    }
  }

  /** A burst at `a`, a call at `b` that drops it, and a call at `c` near `a` again: all
      are admitted, one too many for the window that holds `a` and `c`. */
  lemma BurstAgain(a: Time, b: Time, c: Time, limit: nat, window: Time)
    requires limit > 1 && window > 0 && a <= b - window && !Apart(a, c, window)
    ensures !Bounded(LedgerOf(Repeat(a, limit) + [b] + [c], limit, window).admitted, limit, window)
  {
    hide LedgerOf, Recent, Stale, Within;
    var burst := Repeat(a, limit);
    BurstAdmitted(a, limit, limit, window);
    AllStale(burst, b - window);
    LedgerAppend(burst, b, limit, window);
    AllRecent([b], c - window);
    LedgerAppend(burst + [b], c, limit, window);
    var t := if a < c then c else a;
    BurstWithin(a, limit, t, window);
    WithinAppend(burst, b, t, window);
    WithinAppend(burst + [b], c, t, window);
    assert [] + [b] == [b];
    assert |Within(burst + [b] + [c], t, window)| > limit;
  }

  lemma BurstFollows(readings: seq<Time>, i: nat, j: nat, k: nat, n: nat)
    requires i < j < k < |readings|
    ensures Follows(Repeat(readings[i], n) + [readings[j]] + [readings[k]], readings)
  {
    var at := seq(n, _ => i) + [j] + [k];
    assert MadeAt(Repeat(readings[i], n) + [readings[j]] + [readings[k]], readings, at);
  }

  /** For which clock readings the bound holds however many calls are made at each: with
      a limit of one for all, otherwise exactly for those that stay ahead. */
  lemma BoundExactly(readings: seq<Time>, limit: nat, window: Time)
    requires limit > 0 && window > 0
    ensures (forall calls | Follows(calls, readings) :: Bounded(LedgerOf(calls, limit, window).admitted, limit, window))
      <==> limit == 1 || StaysAhead(readings, window)
  {
    hide LedgerOf, Within, Follows;
    if limit == 1 || StaysAhead(readings, window) {
      forall calls | Follows(calls, readings)
        ensures Bounded(LedgerOf(calls, limit, window).admitted, limit, window)
      {
        if limit != 1 {
          FollowersStayAhead(calls, readings, window);
        }
        forall t
          ensures |Within(LedgerOf(calls, limit, window).admitted, t, window)| <= limit
        {
          WindowBound(calls, t, limit, window);
        }
      }
    } else {
      var i, j, k :| 0 <= i < j < k < |readings| && readings[i] <= readings[j] - window
        && !Apart(readings[i], readings[k], window);
      BurstFollows(readings, i, j, k, limit);
      BurstAgain(readings[i], readings[j], readings[k], limit, window);
    }
  }

  /** For one given sequence of calls a step back may do no harm: 0, 20 and 5 do not stay
      ahead, yet with two hits per window of ten they keep the bound. */
  lemma StepBackMayBeHarmless()
    ensures !StaysAhead([0, 20, 5], 10)
    ensures Bounded(LedgerOf([0, 20, 5], 2, 10).admitted, 2, 10)
  {
    hide LedgerOf, Recent, Stale, Within;
    var times := [0, 20, 5];
    assert times[0] == 0 && times[1] == 20 && times[2] == 5;
    EmptyLedger(2, 10);
    NothingRecent(-10);
    AllStale([0], 10);
    AllRecent([20], -5);
    LedgerAppend([], 0, 2, 10);
    LedgerAppend([] + [0], 20, 2, 10);
    LedgerAppend([] + [0] + [20], 5, 2, 10);
    assert times == [] + [0] + [20] + [5];
    forall t
      ensures |Within(times, t, 10)| <= 2
    {
      EmptyWithin(t, 10);
      WithinAppend([], 0, t, 10);
      WithinAppend([] + [0], 20, t, 10);
      WithinAppend([] + [0] + [20], 5, t, 10);
    }
    assert LedgerOf([] + [0], 2, 10) == Ledger([0], [0], []);
    assert LedgerOf([] + [0] + [20], 2, 10) == Ledger([20], [0, 20], [0]);
    assert LedgerOf(times, 2, 10).admitted == times;
  }

  lemma EmptyLedger(limit: nat, window: Time)
    ensures LedgerOf([], limit, window) == EMPTY_LEDGER
  {
  }

  lemma LedgerAppend(times: seq<Time>, t: Time, limit: nat, window: Time)
    ensures LedgerOf(times + [t], limit, window) == Ask(LedgerOf(times, limit, window), t, limit, window)
  {
    assert (times + [t])[..|times|] == times;
  }

  lemma SmallRecent()
    ensures Recent([0], -9) == [0] && Stale([0], -9) == []
    ensures Recent([0, 1], 10) == [] && Stale([0, 1], 10) == [0, 1]
    ensures Recent([20], -5) == [20]
  {
    assert [0, 1][..1] == [0];
    assert Stale([0], 10) == [0];
  }

  lemma WithinAppend(hits: seq<Time>, h: Time, t: Time, window: Time)
    ensures Within(hits + [h], t, window) ==
      if t - window < h <= t then Within(hits, t, window) + [h] else Within(hits, t, window)
  {
    assert (hits + [h])[..|hits|] == hits;
  }

  /** The bound needs times that stay ahead: with two hits per window of ten,
      asking at 0, 1, 20 and then 5 lets in all four, three of them between -5 and 5. */
  lemma BackwardTimesBreakBound()
    ensures var l := LedgerOf([0, 1, 20, 5], 2, 10);
      l.admitted == [0, 1, 20, 5] && |Within(l.admitted, 5, 10)| == 3
  {
    hide LedgerOf, Recent, Stale, Within;
    BackwardTimes();
    assert [0, 1, 20, 5] == [] + [0] + [1] + [20] + [5];
    EmptyWithin(5, 10);
    WithinAppend([], 0, 5, 10);
    WithinAppend([] + [0], 1, 5, 10);
    WithinAppend([] + [0] + [1], 20, 5, 10);
    WithinAppend([] + [0] + [1] + [20], 5, 5, 10);
  }

  lemma EmptyWithin(t: Time, window: Time)
    ensures Within([], t, window) == []
  {
  }

  lemma BackwardTimes()
    ensures LedgerOf([0, 1, 20, 5], 2, 10).admitted == [0, 1, 20, 5]
  {
    hide LedgerOf, Recent, Stale;
    EmptyLedger(2, 10);
    NothingRecent(-10);
    SmallRecent();
    LedgerAppend([], 0, 2, 10);
    LedgerAppend([] + [0], 1, 2, 10);
    LedgerAppend([] + [0] + [1], 20, 2, 10);
    LedgerAppend([] + [0] + [1] + [20], 5, 2, 10);
    assert [0, 1, 20, 5] == [] + [0] + [1] + [20] + [5];
    assert LedgerOf([] + [0], 2, 10) == Ledger([0], [0], []);
    assert LedgerOf([] + [0] + [1], 2, 10) == Ledger([0, 1], [0, 1], []);
    assert LedgerOf([] + [0] + [1] + [20], 2, 10) == Ledger([20], [0, 1, 20], [0, 1]);
  }

  lemma NothingRecent(cutoff: Time)
    ensures Recent([], cutoff) == [] && Stale([], cutoff) == []
  {
  }

  // ---------- rejected attempts ----------

  predicate SameFrom(a: Ledger, b: Ledger, cutoff: Time) {
    a.admitted == b.admitted && Recent(a.hits, cutoff) == Recent(b.hits, cutoff)
  }

  lemma AskSame(a: Ledger, b: Ledger, cutoff: Time, now: Time, limit: nat, window: Time)
    requires SameFrom(a, b, cutoff) && cutoff <= now - window
    ensures Admits(a.hits, now, limit, window) <==> Admits(b.hits, now, limit, window)
    ensures SameFrom(Ask(a, now, limit, window), Ask(b, now, limit, window), now - window)
  {
    hide Stale, Recent;
    RecentOfRecent(a.hits, cutoff, now - window);
    RecentOfRecent(b.hits, cutoff, now - window);
  }

  lemma AskInVain(l: Ledger, now: Time, limit: nat, window: Time)
    requires !Admits(l.hits, now, limit, window)
    ensures SameFrom(Ask(l, now, limit, window), l, now - window)
  {
    RecentOfRecent(l.hits, now - window, now - window);
  }

  /** The ledger after being asked at further times. */
  function AskAll(l: Ledger, times: seq<Time>, limit: nat, window: Time): Ledger {
    if times == [] then l else Ask(AskAll(l, times[..|times| - 1], limit, window), times[|times| - 1], limit, window)
  }

  lemma {:induction false} LedgerInTwoParts(before: seq<Time>, after: seq<Time>, limit: nat, window: Time)
    ensures LedgerOf(before + after, limit, window) == AskAll(LedgerOf(before, limit, window), after, limit, window)
  {
    if after == [] {
      assert before + after == before;
    } else {
      hide Ask;
      assert (before + after)[..|before + after| - 1] == before + after[..|after| - 1];
      LedgerInTwoParts(before, after[..|after| - 1], limit, window);
    }
  }

  /** The last of the times, if there is one, else `now`. */
  function Latest(now: Time, times: seq<Time>): Time { if times == [] then now else times[|times| - 1] }

  lemma OrderedPrefix(now: Time, times: seq<Time>)
    requires times != [] && NonDecreasing([now] + times)
    ensures NonDecreasing([now] + times[..|times| - 1])
    ensures Latest(now, times[..|times| - 1]) <= times[|times| - 1] == Latest(now, times)
  {
    var all := [now] + times;
    assert [now] + times[..|times| - 1] == all[..|times|];
    assert all[|times| - 1] <= all[|times|];
  }

  lemma AskAllLast(l: Ledger, times: seq<Time>, limit: nat, window: Time)
    requires times != []
    ensures AskAll(l, times, limit, window) ==
      Ask(AskAll(l, times[..|times| - 1], limit, window), times[|times| - 1], limit, window)
  {
  }

  lemma {:induction false} StaySame(a: Ledger, b: Ledger, now: Time, times: seq<Time>, limit: nat, window: Time)
    requires SameFrom(a, b, now - window) && NonDecreasing([now] + times)
    ensures SameFrom(AskAll(a, times, limit, window), AskAll(b, times, limit, window), Latest(now, times) - window)
    decreases |times|
  {
    if times != [] {
      hide Ask, AskAll, SameFrom, NonDecreasing, Latest, Recent, Admits;
      var init, last := times[..|times| - 1], times[|times| - 1];
      OrderedPrefix(now, times);
      StaySame(a, b, now, init, limit, window);
      AskAllLast(a, times, limit, window);
      AskAllLast(b, times, limit, window);
      AskSame(AskAll(a, init, limit, window), AskAll(b, init, limit, window),
        Latest(now, init) - window, last, limit, window);
    }
  }

  /** Asking in vain delays nothing: leave a rejected attempt out, and every later attempt
      is decided as before. */
  lemma RejectedLeavesNoTrace(before: seq<Time>, now: Time, after: seq<Time>, next: Time, limit: nat, window: Time)
    requires NonDecreasing([now] + after + [next])
    requires !Admits(LedgerOf(before, limit, window).hits, now, limit, window)
    ensures var with := LedgerOf(before + [now] + after, limit, window);
      var without := LedgerOf(before + after, limit, window);
      && with.admitted == without.admitted
      && (Admits(with.hits, next, limit, window) <==> Admits(without.hits, next, limit, window))
  {
    hide LedgerOf, AskAll;
    var l := LedgerOf(before, limit, window);
    LedgerInTwoParts(before, [now], limit, window);
    assert AskAll(l, [now], limit, window) == Ask(l, now, limit, window) by {
      OneMore(l, now, limit, window);
    }
    LedgerInTwoParts(before + [now], after, limit, window);
    LedgerInTwoParts(before, after, limit, window);
    AskInVain(l, now, limit, window);
    var all := [now] + after + [next];
    assert [now] + after == all[..|after| + 1] && all[|after|] <= all[|after| + 1];
    StaySame(Ask(l, now, limit, window), l, now, after, limit, window);
    AskSame(AskAll(Ask(l, now, limit, window), after, limit, window), AskAll(l, after, limit, window),
      Latest(now, after) - window, next, limit, window);
  }

  lemma OneMore(l: Ledger, now: Time, limit: nat, window: Time)
    ensures AskAll(l, [now], limit, window) == Ask(l, now, limit, window)
  {
    assert [now][..0] == [];
  }

  // ---------- many keys ----------

  /** The times at which a key was asked for, among the calls for all keys. */
  function TimesOf(calls: seq<(string, Time)>, key: string): seq<Time> {
    if calls == [] then []
    else
      var last := calls[|calls| - 1];
      TimesOf(calls[..|calls| - 1], key) + (if last.0 == key then [last.1] else [])
  }

  lemma TimesOfAppend(calls: seq<(string, Time)>, call: (string, Time), key: string)
    ensures TimesOf(calls + [call], key) == TimesOf(calls, key) + (if call.0 == key then [call.1] else [])
  {
    assert (calls + [call])[..|calls|] == calls;
  }
}
