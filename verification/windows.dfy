/**
  What the limiter guarantees over any sequence of calls, taken in the order in which they got the mutex. With readings
  at most d behind an earlier one, ten is the limit for every closed window of WINDOW - 2 * d, and of WINDOW - d as long
  as the map never outgrows its limit; and for none longer.
 */
module Windows {
  import opened RateLimit

  /** The table after the calls. */
  function After(calls: seq<Call>): Table {
    if calls == [] then map[] else Next(After(calls[..|calls| - 1]), calls[|calls| - 1])
  }

  /** The readings of the calls of key that were let through. */
  function LetThrough(calls: seq<Call>, key: string): seq<int> {
    if calls == [] then []
    else
      var front := calls[..|calls| - 1];
      var c := calls[|calls| - 1];
      if c.key == key && Passes(After(front), c) then LetThrough(front, key) + [c.now] else LetThrough(front, key)
  }

  function InWindow(times: seq<int>, lo: int, hi: int): nat {
    if times == [] then 0
    else InWindow(times[..|times| - 1], lo, hi) + if lo <= times[|times| - 1] <= hi then 1 else 0
  }

  /** No reading is more than d behind an earlier one; 0 is a clock that never runs back, read under the mutex. */
  ghost predicate Lag(calls: seq<Call>, d: int) {
    forall i, j :: 0 <= i < j < |calls| ==> calls[i].now - d <= calls[j].now
  }

  /** The map never grew beyond its limit. */
  ghost predicate NeverEvicts(calls: seq<Call>) {
    calls == [] || (|After(calls[..|calls| - 1])| <= EVICT_ABOVE && NeverEvicts(calls[..|calls| - 1]))
  }

  // ----- forgetting -------------------------------------------------------------------

  lemma {:induction false} RecentTwice(times: seq<int>, cutoff: int, later: int)
    requires cutoff <= later
    ensures Recent(Recent(times, cutoff), later) == Recent(times, later)
  {
    if times != [] {
      var n := |times| - 1;
      RecentTwice(times[..n], cutoff, later);
      var before := Recent(times[..n], cutoff);
      if times[n] >= cutoff {
        assert (before + [times[n]])[..|before|] == before;
      }
    }
  }

  lemma {:induction false} RecentOfOld(times: seq<int>, cutoff: int)
    requires forall i :: 0 <= i < |times| ==> times[i] < cutoff
    ensures Recent(times, cutoff) == []
  {
    if times != [] {
      RecentOfOld(times[..|times| - 1], cutoff);
    }
  }

  lemma RecentPush(times: seq<int>, t: int, cutoff: int)
    ensures Recent(times + [t], cutoff) == Recent(times, cutoff) + if t >= cutoff then [t] else []
  {
    assert (times + [t])[..|times|] == times;
  }

  lemma {:induction false} RecentIsPart(times: seq<int>, cutoff: int)
    ensures forall t :: t in Recent(times, cutoff) ==> t in times && t >= cutoff
    ensures |Recent(times, cutoff)| <= |times|
  {
    if times != [] {
      RecentIsPart(times[..|times| - 1], cutoff);
    }
  }

  /** Stamps stored in the order of the calls: none is more than d behind an earlier one. */
  ghost predicate Slack(times: seq<int>, d: int) {
    forall i, j :: 0 <= i < j < |times| ==> times[i] - d <= times[j]
  }

  lemma {:induction false} RecentKeepsSlack(times: seq<int>, cutoff: int, d: int)
    requires Slack(times, d)
    ensures Slack(Recent(times, cutoff), d)
  {
    if times != [] {
      var n := |times| - 1;
      RecentKeepsSlack(times[..n], cutoff, d);
      RecentIsPart(times[..n], cutoff);
      var before := Recent(times[..n], cutoff);
      forall i | 0 <= i < |before| ensures before[i] - d <= times[n] {
        assert before[i] in before;
        assert before[i] in times[..n];
        var k :| 0 <= k < n && times[k] == before[i];
      }
    }
  }

  ghost predicate HasReading(calls: seq<Call>, t: int) {
    exists i :: 0 <= i < |calls| && calls[i].now == t
  }

  /** One call's effect on what is stored under key. */
  lemma StampsNext(m: Table, c: Call, key: string)
    ensures c.key != key ==> Stamps(Next(m, c), key) == Stamps(Swept(m, c.now), key)
    ensures c.key == key && !Passes(m, c) ==> Stamps(Next(m, c), key) == Kept(m, c)
    ensures c.key == key && Passes(m, c) ==> Stamps(Next(m, c), key) == Kept(m, c) + [c.now]
    ensures Stamps(Swept(m, c.now), key) == [] || Stamps(Swept(m, c.now), key) == Stamps(m, key)
  {
  }

  lemma FrontLags(calls: seq<Call>, c: Call, d: int)
    requires Lag(calls + [c], d)
    ensures Lag(calls, d) && forall t :: HasReading(calls, t) ==> t - d <= c.now
  {
    var all := calls + [c];
    forall i, j | 0 <= i < j < |calls| ensures calls[i].now - d <= calls[j].now {
      assert all[i].now - d <= all[j].now;
    }
    forall t | HasReading(calls, t) ensures t - d <= c.now {
      var i :| 0 <= i < |calls| && calls[i].now == t;
      assert all[i].now - d <= all[|calls|].now;
    }
  }

  lemma ReadsMore(calls: seq<Call>, c: Call)
    ensures HasReading(calls + [c], c.now) && forall t :: HasReading(calls, t) ==> HasReading(calls + [c], t)
  {
    var all := calls + [c];
    assert all[|calls|].now == c.now;
    forall t | HasReading(calls, t) ensures HasReading(all, t) {
      var i :| 0 <= i < |calls| && calls[i].now == t;
      assert all[i].now == t;
    }
  }

  /** What is stored are readings of the calls, in their order. */
  lemma {:induction false} StoredInOrder(calls: seq<Call>, d: int, key: string)
    requires Lag(calls, d)
    ensures Slack(Stamps(After(calls), key), d)
    ensures forall t :: t in Stamps(After(calls), key) ==> HasReading(calls, t)
    decreases |calls|
  {
    if calls != [] {
      var n := |calls| - 1;
      var c := calls[n];
      assert calls == calls[..n] + [c];
      FrontLags(calls[..n], c, d);
      ReadsMore(calls[..n], c);
      StoredInOrder(calls[..n], d, key);
      StoredNext(After(calls[..n]), c, d, key);
    }
  }

  lemma StoredNext(m: Table, c: Call, d: int, key: string)
    requires Slack(Stamps(m, key), d) && forall u :: u in Stamps(m, key) ==> u - d <= c.now
    ensures Slack(Stamps(Next(m, c), key), d)
    ensures forall u :: u in Stamps(Next(m, c), key) ==> u in Stamps(m, key) || u == c.now
  {
    StampsNext(m, c, key);
    if c.key == key {
      PushInOrder(Stamps(Swept(m, c.now), key), c.now - WINDOW, c.now, d);
    }
  }

  lemma PushInOrder(times: seq<int>, cutoff: int, t: int, d: int)
    requires Slack(times, d) && forall u :: u in times ==> u - d <= t
    ensures Slack(Recent(times, cutoff), d) && Slack(Recent(times, cutoff) + [t], d)
    ensures forall u :: u in Recent(times, cutoff) ==> u in times
  {
    RecentKeepsSlack(times, cutoff, d);
    RecentIsPart(times, cutoff);
    var kept := Recent(times, cutoff);
    forall i | 0 <= i < |kept| ensures kept[i] - d <= t {
      assert kept[i] in kept;
    }
  }

  /** Eviction goes by the last stamp: everything else under the key is at most d newer. */
  lemma SweepForgets(calls: seq<Call>, d: int, key: string, now: int, lo: int)
    requires Lag(calls, d) && d >= 0
    requires now - WINDOW + d <= lo
    ensures Recent(Stamps(Swept(After(calls), now), key), lo) == Recent(Stamps(After(calls), key), lo)
  {
    var times := Stamps(After(calls), key);
    StoredInOrder(calls, d, key);
    if Stale(times, now - WINDOW) {
      forall i | 0 <= i < |times| ensures times[i] < lo {
        assert i < |times| - 1 ==> times[i] - d <= times[|times| - 1];
      }
      RecentOfOld(times, lo);
    }
  }

  /** How much newer than its cutoff eviction may forget. */
  ghost predicate Slip(calls: seq<Call>, d: int, e: int) {
    e == d || (e == 0 && NeverEvicts(calls))
  }

  /** Stamps no older than every cutoff so far are all still there. */
  lemma {:induction false} Remembered(calls: seq<Call>, d: int, e: int, key: string, lo: int)
    requires Lag(calls, d) && d >= 0 && Slip(calls, d, e)
    requires forall t :: HasReading(calls, t) ==> t - WINDOW + e <= lo
    ensures Recent(Stamps(After(calls), key), lo) == Recent(LetThrough(calls, key), lo)
    decreases |calls|
  {
    if calls != [] {
      var n := |calls| - 1;
      var c := calls[n];
      assert calls == calls[..n] + [c];
      FrontLags(calls[..n], c, d);
      ReadsMore(calls[..n], c);
      Remembered(calls[..n], d, e, key, lo);
      AfterSweep(calls[..n], d, e, key, c.now, lo);
      PushBoth(After(calls[..n]), c, key, LetThrough(calls[..n], key), lo);
    }
  }

  /** A call adds the same to both. */
  lemma PushBoth(m: Table, c: Call, key: string, times: seq<int>, lo: int)
    requires c.now - WINDOW <= lo && Recent(Stamps(Swept(m, c.now), key), lo) == Recent(times, lo)
    ensures c.key == key && Passes(m, c) ==> Recent(Stamps(Next(m, c), key), lo) == Recent(times + [c.now], lo)
    ensures !(c.key == key && Passes(m, c)) ==> Recent(Stamps(Next(m, c), key), lo) == Recent(times, lo)
  {
    StampsNext(m, c, key);
    if c.key == key {
      var kept := Kept(m, c);
      RecentTwice(Stamps(Swept(m, c.now), key), c.now - WINDOW, lo);
      if Passes(m, c) {
        RecentPush(kept, c.now, lo);
        RecentPush(times, c.now, lo);
      }
    }
  }

  lemma AfterSweep(calls: seq<Call>, d: int, e: int, key: string, now: int, lo: int)
    requires Lag(calls, d) && d >= 0 && now - WINDOW + e <= lo
    requires e == d || (e == 0 && |After(calls)| <= EVICT_ABOVE)
    ensures Recent(Stamps(Swept(After(calls), now), key), lo) == Recent(Stamps(After(calls), key), lo)
  {
    if e == d {
      SweepForgets(calls, d, key, now, lo);
    }
  }

  // ----- the guarantee ------------------------------------------------------------------

  lemma {:induction false} InWindowAtMostRecent(times: seq<int>, lo: int, hi: int)
    ensures InWindow(times, lo, hi) <= |Recent(times, lo)|
  {
    if times != [] {
      InWindowAtMostRecent(times[..|times| - 1], lo, hi);
    }
  }

  /** The call that is let through into the window finds all earlier ones in it still stored. */
  lemma LastOne(calls: seq<Call>, d: int, e: int, c: Call, lo: int, hi: int)
    requires Lag(calls + [c], d) && d >= 0 && Slip(calls, d, e) && (e == d || |After(calls)| <= EVICT_ABOVE) && 0 <= e
    requires lo <= c.now <= hi && hi - lo + d + e <= WINDOW && Passes(After(calls), c)
    ensures InWindow(LetThrough(calls, c.key), lo, hi) < MAX_IN_WINDOW
  {
    FrontLags(calls, c, d);
    Remembered(calls, d, e, c.key, lo);
    AfterSweep(calls, d, e, c.key, c.now, lo);
    var times := Stamps(Swept(After(calls), c.now), c.key);
    RecentTwice(times, c.now - WINDOW, lo);
    RecentIsPart(Recent(times, c.now - WINDOW), lo);
    InWindowAtMostRecent(LetThrough(calls, c.key), lo, hi);
  }

  lemma WindowPush(times: seq<int>, t: int, lo: int, hi: int)
    ensures InWindow(times + [t], lo, hi) == InWindow(times, lo, hi) + if lo <= t <= hi then 1 else 0
  {
    assert (times + [t])[..|times|] == times;
  }

  lemma {:induction false} AtMostTen(calls: seq<Call>, d: int, e: int, key: string, lo: int, hi: int)
    requires Lag(calls, d) && d >= 0 && 0 <= e && Slip(calls, d, e) && hi - lo + d + e <= WINDOW
    ensures InWindow(LetThrough(calls, key), lo, hi) <= MAX_IN_WINDOW
    decreases |calls|
  {
    if calls != [] {
      var n := |calls| - 1;
      var c := calls[n];
      assert calls == calls[..n] + [c];
      FrontLags(calls[..n], c, d);
      AtMostTen(calls[..n], d, e, key, lo, hi);
      if c.key == key && Passes(After(calls[..n]), c) {
        WindowPush(LetThrough(calls[..n], key), c.now, lo, hi);
        if lo <= c.now <= hi {
          LastOne(calls[..n], d, e, c, lo, hi);
        }
      }
    }
  }

  /** Whatever the readings, what the limiter forgets only ever lets more through. */
  lemma {:induction false} ForgetsOnly(calls: seq<Call>, key: string, lo: int)
    ensures |Recent(Stamps(After(calls), key), lo)| <= |Recent(LetThrough(calls, key), lo)|
  {
    if calls != [] {
      var n := |calls| - 1;
      var c := calls[n];
      ForgetsOnly(calls[..n], key, lo);
      ForgetsNext(After(calls[..n]), c, key, lo, LetThrough(calls[..n], key));
    }
  }

  lemma ForgetsNext(m: Table, c: Call, key: string, lo: int, past: seq<int>)
    requires |Recent(Stamps(m, key), lo)| <= |Recent(past, lo)|
    ensures |Recent(Stamps(Next(m, c), key), lo)| <= |Recent(if c.key == key && Passes(m, c) then past + [c.now] else past, lo)|
  {
    StampsNext(m, c, key);
    if c.key == key {
      RecentAgain(Stamps(Swept(m, c.now), key), c.now - WINDOW, lo);
      RecentPush(Kept(m, c), c.now, lo);
      RecentPush(past, c.now, lo);
    }
  }

  lemma {:induction false} RecentAgain(times: seq<int>, a: int, b: int)
    ensures |Recent(Recent(times, a), b)| <= |Recent(times, b)|
  {
    if times != [] {
      var n := |times| - 1;
      RecentAgain(times[..n], a, b);
      if times[n] >= a {
        RecentPush(Recent(times[..n], a), times[n], b);
      }
    }
  }

  /** A hit with fewer than ten hits let through in the minute before it always passes, whatever the readings. */
  lemma NeverStricter(calls: seq<Call>, c: Call)
    requires |Recent(LetThrough(calls, c.key), c.now - WINDOW)| < MAX_IN_WINDOW
    ensures Passes(After(calls), c)
  {
    ForgetsOnly(calls, c.key, c.now - WINDOW);
    KeptAtMost(After(calls), c);
  }

  lemma KeptAtMost(m: Table, c: Call)
    ensures |Kept(m, c)| <= |Recent(Stamps(m, c.key), c.now - WINDOW)|
  {
    StampsNext(m, c, c.key);
  }

  /** With readings that never run back no other hit passes: allow answers as if it remembered everything. */
  lemma AscendingIsExact(calls: seq<Call>, c: Call)
    requires Lag(calls + [c], 0)
    ensures Passes(After(calls), c) <==> |Recent(LetThrough(calls, c.key), c.now - WINDOW)| < MAX_IN_WINDOW
  {
    FrontLags(calls, c, 0);
    Remembered(calls, 0, 0, c.key, c.now - WINDOW);
    AfterSweep(calls, 0, 0, c.key, c.now, c.now - WINDOW);
  }

  // ----- and no more ---------------------------------------------------------------------

  lemma Pushed(calls: seq<Call>, c: Call, key: string)
    ensures After(calls + [c]) == Next(After(calls), c)
    ensures c.key == key && Passes(After(calls), c) ==> LetThrough(calls + [c], key) == LetThrough(calls, key) + [c.now]
    ensures !(c.key == key && Passes(After(calls), c)) ==> LetThrough(calls + [c], key) == LetThrough(calls, key)
  {
    assert (calls + [c])[..|calls|] == calls;
  }

  lemma PushedLag(calls: seq<Call>, c: Call, d: int, low: int)
    requires Lag(calls, d) && (forall i :: 0 <= i < |calls| ==> calls[i].now <= low) && low - d <= c.now
    ensures Lag(calls + [c], d)
  {
  }

  /** calls, then n more of key, all at now. */
  function Plus(calls: seq<Call>, key: string, now: int, n: nat): seq<Call> {
    if n == 0 then calls else Plus(calls, key, now, n - 1) + [Call(key, now)]
  }

  function Repeated(t: int, n: nat): seq<int> {
    if n == 0 then [] else Repeated(t, n - 1) + [t]
  }

  lemma {:induction false} RecentRepeated(t: int, n: nat, cutoff: int)
    requires t >= cutoff
    ensures Recent(Repeated(t, n), cutoff) == Repeated(t, n) && |Repeated(t, n)| == n
  {
    if n > 0 {
      RecentRepeated(t, n - 1, cutoff);
      RecentPush(Repeated(t, n - 1), t, cutoff);
    }
  }

  lemma {:induction false} RepeatedInWindow(t: int, n: nat, lo: int, hi: int)
    requires lo <= t <= hi
    ensures InWindow(Repeated(t, n), lo, hi) == n
  {
    if n > 0 {
      RepeatedInWindow(t, n - 1, lo, hi);
      WindowPush(Repeated(t, n - 1), t, lo, hi);
    }
  }

  /** Nothing in the table is stale. */
  ghost predicate AllFresh(m: Table, now: int) {
    forall k :: k in m ==> !Stale(m[k], now - WINDOW)
  }

  lemma FreshStays(m: Table, now: int)
    requires AllFresh(m, now)
    ensures Swept(m, now) == m
  {
  }

  lemma BurstStep(m: Table, key: string, now: int, n: nat)
    requires AllFresh(m, now) && n < MAX_IN_WINDOW && Stamps(m, key) == Repeated(now, n)
    ensures var c := Call(key, now);
            Passes(m, c) && Next(m, c) == m[key := Repeated(now, n + 1)] && AllFresh(Next(m, c), now)
  {
    FreshStays(m, now);
    RecentRepeated(now, n, now - WINDOW);
    assert Repeated(now, n + 1) == Repeated(now, n) + [now];
  }

  /** The table and the hits let through, so far. */
  ghost predicate Is(calls: seq<Call>, key: string, m: Table, times: seq<int>) {
    After(calls) == m && LetThrough(calls, key) == times
  }

  lemma IsNext(calls: seq<Call>, key: string, m: Table, times: seq<int>, c: Call)
    requires Is(calls, key, m, times)
    ensures c.key == key && Passes(m, c) ==> Is(calls + [c], key, Next(m, c), times + [c.now])
    ensures c.key != key ==> Is(calls + [c], key, Next(m, c), times)
  {
    Pushed(calls, c, key);
  }

  function Filled(m: Table, key: string, now: int, n: nat): Table {
    if n == 0 then m else m[key := Repeated(now, n)]
  }

  lemma FilledStep(m: Table, key: string, now: int, n: nat)
    requires key !in m && AllFresh(m, now) && n < MAX_IN_WINDOW
    ensures var c := Call(key, now);
            Passes(Filled(m, key, now, n), c) && Next(Filled(m, key, now, n), c) == Filled(m, key, now, n + 1)
  {
    var before := Filled(m, key, now, n);
    AllSame(now, n);
    assert AllFresh(before, now);
    BurstStep(before, key, now, n);
    assert before[key := Repeated(now, n + 1)] == m[key := Repeated(now, n + 1)];
  }

  lemma BurstOne(calls: seq<Call>, m: Table, key: string, now: int, n: nat)
    requires Is(calls, key, Filled(m, key, now, n), Repeated(now, n)) && key !in m && AllFresh(m, now) && n < MAX_IN_WINDOW
    ensures Is(calls + [Call(key, now)], key, Filled(m, key, now, n + 1), Repeated(now, n + 1))
  {
    FilledStep(m, key, now, n);
    IsNext(calls, key, Filled(m, key, now, n), Repeated(now, n), Call(key, now));
  }

  /** Up to ten hits of a new key at one reading, in a table with nothing stale: all are let through. */
  lemma {:induction false} Burst(calls: seq<Call>, m: Table, key: string, now: int, n: nat)
    requires Is(calls, key, m, []) && key !in m && AllFresh(m, now) && n <= MAX_IN_WINDOW
    ensures Is(Plus(calls, key, now, n), key, Filled(m, key, now, n), Repeated(now, n))
  {
    if n > 0 {
      var before := Plus(calls, key, now, n - 1);
      Burst(calls, m, key, now, n - 1);
      BurstOne(before, m, key, now, n - 1);
      assert Plus(calls, key, now, n) == before + [Call(key, now)];
    }
  }

  lemma {:induction false} FewKeys(calls: seq<Call>)
    ensures |After(calls)| <= |calls|
    ensures |calls| <= EVICT_ABOVE + 1 ==> NeverEvicts(calls)
  {
    if calls != [] {
      var n := |calls| - 1;
      FewKeys(calls[..n]);
      KeysGrow(After(calls[..n]), calls[n]);
    }
  }

  lemma KeysGrow(m: Table, c: Call)
    ensures |Next(m, c)| <= |m| + 1
  {
    var swept := Swept(m, c.now);
    SubsetSize(swept.Keys, m.Keys);
    assert Next(m, c).Keys == swept.Keys + {c.key};
  }

  lemma SubsetSize(a: set<string>, b: set<string>)
    requires a <= b
    ensures |a| <= |b|
  {
    assert b == a + (b - a);
  }

  lemma {:induction false} PlusLags(calls: seq<Call>, key: string, now: int, n: nat, d: nat, low: int)
    requires Lag(calls, d) && (forall i :: 0 <= i < |calls| ==> calls[i].now <= low) && low - d <= now
    ensures var all := Plus(calls, key, now, n);
            |all| == |calls| + n && Lag(all, d) && forall i :: 0 <= i < |all| ==> all[i].now <= Max(low, now)
  {
    if n > 0 {
      PlusLags(calls, key, now, n - 1, d, low);
      var all := Plus(calls, key, now, n - 1);
      forall i | 0 <= i < |all| ensures all[i].now - d <= now {
      }
    }
  }

  function Max(a: int, b: int): int {
    if a < b then b else a
  }

  /** Ten hits at 0, one a minute and a millisecond later, which forgets them, and one that read its clock before but got the mutex last. */
  function Eleven(last: int): seq<Call> {
    Plus([], "ip", 0, 10) + [Call("ip", WINDOW + 1)] + [Call("ip", last)]
  }

  lemma ElevenPass(last: int)
    ensures LetThrough(Eleven(last), "ip") == Repeated(0, 10) + [WINDOW + 1] + [last]
  {
    TenThenOne();
    var m := map["ip" := [WINDOW + 1]];
    OneMore(m, Call("ip", last), WINDOW + 1);
    IsNext(Plus([], "ip", 0, 10) + [Call("ip", WINDOW + 1)], "ip", m, Repeated(0, 10) + [WINDOW + 1], Call("ip", last));
  }

  lemma ElevenLag(d: nat, last: int)
    requires WINDOW + 1 - d <= last
    ensures Lag(Eleven(last), d) && |Eleven(last)| == 12
  {
    PlusLags([], "ip", 0, 10, d, 0);
    var ten := Plus([], "ip", 0, 10);
    PushedLag(ten, Call("ip", WINDOW + 1), d, 0);
    PushedLag(ten + [Call("ip", WINDOW + 1)], Call("ip", last), d, WINDOW + 1);
  }

  lemma ElevenInWindow(last: int, length: nat)
    requires 0 <= last <= length
    ensures InWindow(Repeated(0, 10) + [WINDOW + 1] + [last], 0, length) > MAX_IN_WINDOW
  {
    RepeatedInWindow(0, 10, 0, length);
    WindowPush(Repeated(0, 10), WINDOW + 1, 0, length);
    WindowPush(Repeated(0, 10) + [WINDOW + 1], last, 0, length);
  }

  /** With readings up to d behind, more than ten can pass in every window longer than WINDOW - d, without any eviction. */
  lemma LateReaderPasses(d: nat, length: nat) returns (calls: seq<Call>, lo: int)
    requires length > WINDOW - d
    ensures Lag(calls, d) && NeverEvicts(calls)
    ensures InWindow(LetThrough(calls, "ip"), lo, lo + length) > MAX_IN_WINDOW
  {
    lo := 0;
    var last := Max(0, WINDOW + 1 - d);
    calls := Eleven(last);
    ElevenLag(d, last);
    FewKeys(calls);
    ElevenPass(last);
    ElevenInWindow(last, length);
  }

  lemma TenThenOne()
    ensures Is(Plus([], "ip", 0, 10) + [Call("ip", WINDOW + 1)], "ip", map["ip" := [WINDOW + 1]], Repeated(0, 10) + [WINDOW + 1])
  {
    Burst([], map[], "ip", 0, 10);
    AllSame(0, 10);
    var m := map["ip" := Repeated(0, 10)];
    assert Filled(map[], "ip", 0, 10) == m;
    ForgetAll(m, "ip", Repeated(0, 10), WINDOW + 1);
    IsNext(Plus([], "ip", 0, 10), "ip", m, Repeated(0, 10), Call("ip", WINDOW + 1));
  }

  lemma OneMore(m: Table, c: Call, t: int)
    requires m == map[c.key := [t]]
    ensures Passes(m, c)
  {
    RecentIsPart(Stamps(Swept(m, c.now), c.key), c.now - WINDOW);
  }

  /** A hit under the only key, when its stamps have all left the window. */
  lemma ForgetAll(m: Table, key: string, times: seq<int>, now: int)
    requires m == map[key := times] && forall i :: 0 <= i < |times| ==> times[i] < now - WINDOW
    ensures Passes(m, Call(key, now)) && Next(m, Call(key, now)) == map[key := [now]]
  {
    assert m.Keys == {key} && |m| == 1;
    RecentOfOld(times, now - WINDOW);
    assert Kept(m, Call(key, now)) == [];
    assert [] + [now] == [now];
  }

  lemma {:induction false} AllSame(t: int, n: nat)
    ensures |Repeated(t, n)| == n && forall i :: 0 <= i < n ==> Repeated(t, n)[i] == t
  {
    if n > 0 {
      AllSame(t, n - 1);
    }
  }

  // ----- eviction goes by the wrong stamp ----------------------------------------------------

  function Name(n: nat): string {
    if n == 0 then "" else Name(n - 1) + "x"
  }

  lemma {:induction false} NameLength(n: nat)
    ensures |Name(n)| == n && (n > 0 ==> Name(n)[n - 1] == 'x')
  {
    if n > 0 {
      NameLength(n - 1);
    }
  }

  /** n different clients, one hit each. */
  function Crowd(n: nat): seq<Call> {
    if n == 0 then [] else Crowd(n - 1) + [Call(Name(n), 0)]
  }

  function CrowdTable(n: nat): Table {
    if n == 0 then map[] else CrowdTable(n - 1)[Name(n) := [0]]
  }

  lemma {:induction false} CrowdKeys(n: nat)
    ensures |CrowdTable(n)| == n && "ip" !in CrowdTable(n)
    ensures forall k :: k in CrowdTable(n) ==> |k| <= n && CrowdTable(n)[k] == [0]
  {
    if n > 0 {
      CrowdKeys(n - 1);
      CrowdGrows(CrowdTable(n - 1), n);
    }
  }

  lemma CrowdGrows(m: Table, n: nat)
    requires n > 0 && |m| == n - 1 && "ip" !in m && forall k :: k in m ==> |k| <= n - 1 && m[k] == [0]
    ensures var more := m[Name(n) := [0]];
            |more| == n && "ip" !in more && forall k :: k in more ==> |k| <= n && more[k] == [0]
  {
    NameLength(n);
    assert m[Name(n) := [0]].Keys == m.Keys + {Name(n)};
  }

  lemma NewHit(m: Table, c: Call)
    requires AllFresh(m, c.now) && c.key !in m
    ensures Passes(m, c) && Next(m, c) == m[c.key := [c.now]]
  {
    FreshStays(m, c.now);
    assert Kept(m, c) == [];
    assert [] + [c.now] == [c.now];
  }

  lemma {:induction false} CrowdPasses(n: nat)
    ensures Is(Crowd(n), "ip", CrowdTable(n), [])
  {
    if n > 0 {
      CrowdPasses(n - 1);
      CrowdKeys(n - 1);
      CrowdStep(Crowd(n - 1), CrowdTable(n - 1), n);
    }
  }

  lemma CrowdStep(calls: seq<Call>, m: Table, n: nat)
    requires n > 0 && Is(calls, "ip", m, []) && forall k :: k in m ==> |k| <= n - 1 && m[k] == [0]
    ensures Is(calls + [Call(Name(n), 0)], "ip", m[Name(n) := [0]], [])
  {
    NameLength(n);
    NewHit(m, Call(Name(n), 0));
    IsNext(calls, "ip", m, [], Call(Name(n), 0));
  }

  lemma {:induction false} CrowdLags(n: nat)
    ensures |Crowd(n)| == n && Lag(Crowd(n), 0) && forall i :: 0 <= i < n ==> Crowd(n)[i].now == 0
  {
    if n > 0 {
      CrowdLags(n - 1);
    }
  }

  const MANY: nat := EVICT_ABOVE + 1

  /** Nine hits at d, one that read 0, and somebody else's a minute later, which evicts all ten by the 0. */
  function Evicting(d: nat): seq<Call> {
    Plus(Crowd(MANY), "ip", d, 9) + [Call("ip", 0)] + [Call("else", WINDOW + 1)]
  }

  lemma TenWithOldLast(d: nat)
    requires d <= WINDOW
    ensures Is(Plus(Crowd(MANY), "ip", d, 9) + [Call("ip", 0)], "ip",
               CrowdTable(MANY)["ip" := Repeated(d, 9) + [0]], Repeated(d, 9) + [0])
  {
    var m := CrowdTable(MANY);
    CrowdPasses(MANY);
    CrowdKeys(MANY);
    Burst(Crowd(MANY), m, "ip", d, 9);
    AllSame(d, 9);
    var filled := m["ip" := Repeated(d, 9)];
    assert Filled(m, "ip", d, 9) == filled;
    LastOfTen(m, filled, d);
    IsNext(Plus(Crowd(MANY), "ip", d, 9), "ip", filled, Repeated(d, 9), Call("ip", 0));
  }

  lemma LastOfTen(m: Table, filled: Table, d: nat)
    requires AllFresh(m, 0) && filled == m["ip" := Repeated(d, 9)]
    ensures Passes(filled, Call("ip", 0)) && Next(filled, Call("ip", 0)) == m["ip" := Repeated(d, 9) + [0]]
  {
    AllSame(d, 9);
    FreshStays(filled, 0);
    RecentRepeated(d, 9, 0 - WINDOW);
    assert Kept(filled, Call("ip", 0)) == Repeated(d, 9);
  }

  lemma EvictsAll(m: Table, now: int)
    requires |m| > EVICT_ABOVE && forall k :: k in m ==> Stale(m[k], now - WINDOW)
    ensures Next(m, Call("else", now)) == map["else" := [now]]
  {
    assert Swept(m, now) == map[];
    assert Kept(m, Call("else", now)) == [];
    assert [] + [now] == [now];
  }

  lemma EvictingLeaves(d: nat)
    requires d <= WINDOW
    ensures Is(Evicting(d), "ip", map["else" := [WINDOW + 1]], Repeated(d, 9) + [0])
  {
    TenWithOldLast(d);
    CrowdKeys(MANY);
    CrowdIsStale(CrowdTable(MANY), CrowdTable(MANY)["ip" := Repeated(d, 9) + [0]], Repeated(d, 9) + [0]);
    ElseEvicts(Plus(Crowd(MANY), "ip", d, 9) + [Call("ip", 0)], CrowdTable(MANY)["ip" := Repeated(d, 9) + [0]], Repeated(d, 9) + [0]);
  }

  lemma CrowdIsStale(m: Table, full: Table, times: seq<int>)
    requires |m| == MANY && "ip" !in m && forall k :: k in m ==> m[k] == [0]
    requires full == m["ip" := times] && Stale(times, 1)
    ensures |full| > EVICT_ABOVE && forall k :: k in full ==> Stale(full[k], 1)
  {
    assert full.Keys == m.Keys + {"ip"};
  }

  lemma ElseEvicts(calls: seq<Call>, m: Table, times: seq<int>)
    requires Is(calls, "ip", m, times) && |m| > EVICT_ABOVE && forall k :: k in m ==> Stale(m[k], 1)
    ensures Is(calls + [Call("else", WINDOW + 1)], "ip", map["else" := [WINDOW + 1]], times)
  {
    EvictsAll(m, WINDOW + 1);
    IsNext(calls, "ip", m, times, Call("else", WINDOW + 1));
  }

  lemma TwoMorePass(d: nat, last: int)
    requires d <= WINDOW && 0 <= last <= WINDOW + 1
    ensures LetThrough(Evicting(d) + [Call("ip", last)] + [Call("ip", last)], "ip") == Repeated(d, 9) + [0] + [last] + [last]
  {
    EvictingLeaves(d);
    var m := map["else" := [WINDOW + 1]];
    var c := Call("ip", last);
    NewHit(m, c);
    var n := m["ip" := [last]];
    IsNext(Evicting(d), "ip", m, Repeated(d, 9) + [0], c);
    RecentIsPart([last], last - WINDOW);
    FreshStays(n, last);
    assert Stamps(n, "ip") == [last];
    IsNext(Evicting(d) + [c], "ip", n, Repeated(d, 9) + [0] + [last], c);
  }

  lemma EvictingLags(d: nat, last: int)
    requires d <= WINDOW && WINDOW + 1 - d <= last <= WINDOW + 1
    ensures Lag(Evicting(d) + [Call("ip", last)] + [Call("ip", last)], d)
  {
    CrowdLags(MANY);
    PlusLags(Crowd(MANY), "ip", d, 9, d, 0);
    var a := Plus(Crowd(MANY), "ip", d, 9);
    PushedLag(a, Call("ip", 0), d, d);
    PushedLag(a + [Call("ip", 0)], Call("else", WINDOW + 1), d, d);
    PushedLag(Evicting(d), Call("ip", last), d, WINDOW + 1);
    PushedLag(Evicting(d) + [Call("ip", last)], Call("ip", last), d, WINDOW + 1);
  }

  lemma TwelveInWindow(d: nat, last: int, length: nat)
    requires d <= last <= d + length
    ensures InWindow(Repeated(d, 9) + [0] + [last] + [last], d, d + length) > MAX_IN_WINDOW
  {
    RepeatedInWindow(d, 9, d, d + length);
    WindowPush(Repeated(d, 9), 0, d, d + length);
    WindowPush(Repeated(d, 9) + [0], last, d, d + length);
    WindowPush(Repeated(d, 9) + [0] + [last], last, d, d + length);
  }

  lemma LagMore(calls: seq<Call>, d: int, more: int)
    requires Lag(calls, d) && d <= more
    ensures Lag(calls, more)
  {
  }

  /** With eviction, more than ten can pass in every window longer than WINDOW - 2 * d. */
  lemma EvictionForgetsMore(d: nat, length: nat) returns (calls: seq<Call>, lo: int)
    requires length > WINDOW - 2 * d
    ensures Lag(calls, d) && InWindow(LetThrough(calls, "ip"), lo, lo + length) > MAX_IN_WINDOW
  {
    var behind := if d <= WINDOW / 2 then d else WINDOW / 2 + 1;
    var last := Max(behind, WINDOW + 1 - behind);
    lo := behind;
    calls := Evicting(behind) + [Call("ip", last)] + [Call("ip", last)];
    TwoMorePass(behind, last);
    EvictingLags(behind, last);
    LagMore(calls, behind, d);
    TwelveInWindow(behind, last, length);
  }

  ghost predicate TenIn(calls: seq<Call>, key: string, lo: int, length: nat) {
    InWindow(LetThrough(calls, key), lo, lo + length) <= MAX_IN_WINDOW
  }

  /** The guarantee in full: ten per key in every closed window of that length, whatever the calls, if and only if it is no longer. */
  lemma WindowIsExact(d: nat, length: nat)
    ensures length <= WINDOW - 2 * d <==> forall calls, key, lo :: Lag(calls, d) ==> TenIn(calls, key, lo, length)
  {
    if length <= WINDOW - 2 * d {
      forall calls, key, lo | Lag(calls, d) ensures TenIn(calls, key, lo, length) {
        AtMostTen(calls, d, d, key, lo, lo + length);
      }
    } else {
      var calls, lo := EvictionForgetsMore(d, length);
      assert !TenIn(calls, "ip", lo, length);
    }
  }

  /** The same while the map stays within its limit, where only the lag itself counts. */
  lemma WindowIsExactWithoutEviction(d: nat, length: nat)
    ensures length <= WINDOW - d <==> forall calls, key, lo :: Lag(calls, d) && NeverEvicts(calls) ==> TenIn(calls, key, lo, length)
  {
    if length <= WINDOW - d {
      forall calls, key, lo | Lag(calls, d) && NeverEvicts(calls) ensures TenIn(calls, key, lo, length) {
        AtMostTen(calls, d, 0, key, lo, lo + length);
      }
    } else {
      var calls, lo := LateReaderPasses(d, length);
      assert !TenIn(calls, "ip", lo, length);
    }
  }

  /** The smallest case: two overlapping hits of one client, a millisecond apart, and eleven within [0, 60000]. */
  lemma ElevenInAMinute()
    ensures Eleven(WINDOW) == Plus([], "ip", 0, 10) + [Call("ip", 60_001)] + [Call("ip", 60_000)]
    ensures Lag(Eleven(WINDOW), 1) && InWindow(LetThrough(Eleven(WINDOW), "ip"), 0, WINDOW) == 11
  {
    ElevenLag(1, WINDOW);
    ElevenPass(WINDOW);
    RepeatedInWindow(0, 10, 0, WINDOW);
    WindowPush(Repeated(0, 10), WINDOW + 1, 0, WINDOW);
    WindowPush(Repeated(0, 10) + [WINDOW + 1], WINDOW, 0, WINDOW);
  }

  /** And the smallest one that eviction adds: readings one millisecond behind, and eleven within 59999 of one another. */
  lemma ElevenInLess() returns (calls: seq<Call>, lo: int)
    ensures Lag(calls, 1) && InWindow(LetThrough(calls, "ip"), lo, lo + WINDOW - 1) > MAX_IN_WINDOW
  {
    calls, lo := EvictionForgetsMore(1, WINDOW - 1);
  }
}
