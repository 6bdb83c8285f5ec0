/**
  The sliding-window limiter of ratelimit.go: one slice of time stamps per key, compacted in place on every call, with
  whole keys evicted once the map is large. The clock is read before the mutex is taken, so calls arrive in an order of
  their own: nothing here assumes that the readings ascend.
 */
module RateLimit {

  const WINDOW: int := 60_000
  const MAX_IN_WINDOW: nat := 10
  const EVICT_ABOVE: nat := 10_000

  /** One call of allow, with the clock reading it came with. */
  datatype Call = Call(key: string, now: int)

  type Table = map<string, seq<int>>

  // ----- one call, on values -----------------------------------------------------

  function Recent(times: seq<int>, cutoff: int): seq<int> {
    if times == [] then []
    else
      var t := times[|times| - 1];
      var before := Recent(times[..|times| - 1], cutoff);
      if t >= cutoff then before + [t] else before
  }

  function Stamps(m: Table, key: string): seq<int> {
    if key in m then m[key] else []
  }

  /** The last stamp decides: it is the one stored last, not always the newest. */
  predicate Stale(times: seq<int>, cutoff: int) {
    times == [] || times[|times| - 1] < cutoff
  }

  function Swept(m: Table, now: int): Table {
    if |m| > EVICT_ABOVE then map k | k in m && !Stale(m[k], now - WINDOW) :: m[k] else m
  }

  function Kept(m: Table, c: Call): seq<int> {
    Recent(Stamps(Swept(m, c.now), c.key), c.now - WINDOW)
  }

  predicate Passes(m: Table, c: Call) {
    |Kept(m, c)| < MAX_IN_WINDOW
  }

  function Next(m: Table, c: Call): Table {
    Swept(m, c.now)[c.key := Kept(m, c) + if Passes(m, c) then [c.now] else []]
  }

  // ----- the implementation ----------------------------------------------------

  /** A Go slice of time stamps: the first len cells of a backing array. */
  datatype Slice = Slice(buf: array<int>, len: nat)

  /** The in-place filter: the kept time stamps move to the front of the same array. */
  method Compact(buf: array<int>, len: nat, cutoff: int) returns (kept: nat)
    requires len <= buf.Length
    modifies buf
    ensures kept <= len
    ensures buf[..kept] == Recent(old(buf[..len]), cutoff)
  {
    kept := 0;
    for i := 0 to len
      invariant kept <= i
      invariant buf[..kept] == Recent(old(buf[..i]), cutoff)
      invariant forall j :: i <= j < len ==> buf[j] == old(buf[j])
    {
      assert old(buf[..i + 1])[..i] == old(buf[..i]);
      if buf[i] >= cutoff {
        buf[kept] := buf[i];
        kept := kept + 1;
      }
    }
  }

  /** Go's append on one element: in place while the array has room, else in a larger copy. */
  method Append(s: Slice, t: int) returns (r: Slice)
    requires s.len <= s.buf.Length
    modifies s.buf
    ensures r.len == s.len + 1 <= r.buf.Length
    ensures r.buf == s.buf || fresh(r.buf)
    ensures r.buf[..r.len] == old(s.buf[..s.len]) + [t]
  {
    if s.len < s.buf.Length {
      s.buf[s.len] := t;
      r := Slice(s.buf, s.len + 1);
    } else {
      var larger := new int[2 * s.buf.Length + 1];
      for i := 0 to s.len
        invariant forall j :: 0 <= j < i ==> larger[j] == s.buf[j]
        invariant s.buf[..] == old(s.buf[..])
      {
        larger[i] := s.buf[i];
      }
      larger[s.len] := t;
      r := Slice(larger, s.len + 1);
    }
  }

  ghost predicate Holds(s: Slice, times: seq<int>)
    reads s.buf
  {
    s.len <= s.buf.Length && s.buf[..s.len] == times
  }

  class RateLimiter {
    var hits: map<string, Slice>

    ghost function Buffers(): set<object>
      reads this
    {
      set k | k in hits :: hits[k].buf
    }

    ghost predicate Valid()
      reads this
    {
      && (forall k :: k in hits ==> hits[k].len <= hits[k].buf.Length)
      && (forall k, l :: k in hits && l in hits && k != l ==> hits[k].buf != hits[l].buf)
    }

    ghost function Stored(key: string): seq<int>
      requires Valid()
      reads this, if key in hits then {hits[key].buf} else {}
    {
      if key in hits then hits[key].buf[..hits[key].len] else []
    }

    /** The slices as values. */
    ghost function Contents(): Table
      requires Valid()
      reads this, Buffers()
    {
      map k | k in hits :: Stored(k)
    }

    constructor ()
      ensures Valid() && Contents() == map[]
    {
      hits := map[];
    }

    /** The loop over the map: whatever is stale goes. */
    method DropStale(now: int, ghost before: Table)
      requires before.Keys == hits.Keys && forall k :: k in hits ==> Holds(hits[k], before[k])
      modifies this`hits
      ensures forall k :: k in hits <==> k in before && !Stale(before[k], now - WINDOW)
      ensures hits.Keys <= old(hits).Keys && forall k :: k in hits ==> hits[k] == old(hits)[k]
    {
      var all := hits;
      var todo := hits.Keys;
      while todo != {}
        invariant todo <= hits.Keys <= all.Keys
        invariant forall k :: k in hits ==> hits[k] == all[k]
        invariant forall k :: k in all && k !in todo ==> (k in hits <==> !Stale(before[k], now - WINDOW))
        decreases todo
      {
        var k :| k in todo;
        todo := todo - {k};
        var s := all[k];
        assert Holds(s, before[k]);
        if s.len == 0 || s.buf[s.len - 1] < now - WINDOW {
          hits := hits - {k};
        }
      }
    }

    /** Above 10000 keys, drops every key whose last time stamp has left the window. */
    method Evict(now: int)
      requires Valid()
      modifies this`hits
      ensures Valid() && Contents() == Swept(old(Contents()), now)
      ensures hits.Keys <= old(hits).Keys && forall k :: k in hits ==> hits[k] == old(hits)[k]
    {
      ghost var before := Contents();
      assert before.Keys == hits.Keys;
      if |hits| > EVICT_ABOVE {
        assert forall k :: k in hits ==> before[k] == Stored(k) && Holds(hits[k], before[k]);
        DropStale(now, before);
        Same(before, now);
      }
    }

    /** What is left are the keys that are not stale. */
    lemma Same(before: Table, now: int)
      requires Valid() && hits.Keys <= before.Keys && |before| > EVICT_ABOVE
      requires forall k :: k in hits ==> Stored(k) == before[k]
      requires forall k :: k in before ==> (k in hits <==> !Stale(before[k], now - WINDOW))
      ensures Contents() == Swept(before, now)
    {
    }

    /** The slice under key, compacted to what the window still shows. */
    method Prune(key: string, now: int) returns (kept: Slice)
      requires Valid()
      modifies if key in hits then {hits[key].buf} else {}
      ensures kept.len <= kept.buf.Length
      ensures fresh(kept.buf) || (key in hits && kept.buf == hits[key].buf)
      ensures kept.buf[..kept.len] == Recent(old(Stored(key)), now - WINDOW)
    {
      if key in hits {
        var s := hits[key];
        var n := Compact(s.buf, s.len, now - WINDOW);
        kept := Slice(s.buf, n);
      } else {
        var none := new int[0];
        kept := Slice(none, 0);
      }
    }

    /** Puts slice under key; the others stay what they were. */
    method Store(key: string, slice: Slice, ghost before: Table)
      requires Valid() && slice.len <= slice.buf.Length && before.Keys == hits.Keys
      requires forall k :: k in hits && k != key ==> hits[k].buf != slice.buf && Stored(k) == before[k]
      modifies this`hits
      ensures Valid() && Contents() == before[key := slice.buf[..slice.len]]
    {
      hits := hits[key := slice];
    }

    /** The part of allow after eviction. */
    method Decide(key: string, now: int) returns (ok: bool)
      requires Valid()
      modifies this`hits, if key in hits then {hits[key].buf} else {}
      ensures Valid()
      ensures var kept := Recent(Stamps(old(Contents()), key), now - WINDOW);
              && ok == (|kept| < MAX_IN_WINDOW)
              && Contents() == old(Contents())[key := kept + if ok then [now] else []]
    {
      ghost var before := Contents();
      var slice := Prune(key, now);
      ok := slice.len < MAX_IN_WINDOW;
      if ok {
        slice := Append(slice, now);
      }
      assert slice.buf[..slice.len] == Recent(Stamps(before, key), now - WINDOW) + if ok then [now] else [];
      Store(key, slice, before);
    }

    /** allow, whatever the reading. */
    method Allow(key: string, now: int) returns (ok: bool)
      requires Valid()
      modifies this, Buffers()
      ensures Valid()
      ensures ok == Passes(old(Contents()), Call(key, now)) && Contents() == Next(old(Contents()), Call(key, now))
    {
      Evict(now);
      ok := Decide(key, now);
    }
  }
}
