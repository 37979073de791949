/** internal/broker/rate_limiter.go: one slice of hits per key, compacted in place. */
module RateLimiter {
  import opened Basics
  import opened LimiterTheory

  /** A Go slice that starts at its backing array. */
  datatype Slice = Slice(buf: array<Time>, len: nat)

  ghost predicate ValidSlice(s: Slice) { s.len <= s.buf.Length }

  ghost function Elements(s: Slice): seq<Time>
    requires ValidSlice(s)
    reads s.buf
  {
    s.buf[..s.len]
  }

  /** Go's `append`: in place while there is capacity, else into a larger array. */
  method Append(s: Slice, t: Time) returns (r: Slice)
    requires ValidSlice(s)
    modifies s.buf
    ensures ValidSlice(r) && Elements(r) == old(Elements(s)) + [t]
    ensures r.buf == s.buf || fresh(r.buf)
  {
    if s.len < s.buf.Length {
      s.buf[s.len] := t;
      r := Slice(s.buf, s.len + 1);
    } else {
      var grown := new Time[2 * s.len + 1];
      for i := 0 to s.len
        invariant grown[..i] == old(s.buf[..i]) && s.buf[..] == old(s.buf[..])
      {
        grown[i] := s.buf[i];
      }
      grown[s.len] := t;
      r := Slice(grown, s.len + 1);
    }
  }

  /** Moves the hits after `cutoff` to the front of the array they are read from: the
      write index never overtakes the read index. */
  method Compact(s: Slice, cutoff: Time) returns (recent: Slice)
    requires ValidSlice(s)
    modifies s.buf
    ensures recent.buf == s.buf && ValidSlice(recent)
    ensures Elements(recent) == Recent(old(Elements(s)), cutoff)
  {
    var w := 0;
    ghost var hits := Elements(s);
    NothingRecent(cutoff);
    hide Recent;
    for r := 0 to s.len
      invariant w <= r
      invariant s.buf[..w] == Recent(hits[..r], cutoff)
      invariant forall k :: r <= k < s.len ==> s.buf[k] == hits[k]
    {
      var hit := s.buf[r];
      assert hits[..r + 1] == hits[..r] + [hit];
      RecentAppend(hits[..r], hit, cutoff);
      if hit > cutoff {
        s.buf[w] := hit;
        w := w + 1;
      }
    }
    assert hits[..s.len] == hits;
    recent := Slice(s.buf, w);
  }

  class ConnectLimiter {
    const limit: nat
    const window: Time
    var hits: map<string, Slice>
    /** Every call of `Allow` so far. */
    ghost var calls: seq<(string, Time)>

    ghost function Ledgers(key: string): Ledger
      reads this
    {
      LedgerOf(TimesOf(calls, key), limit, window)
    }

    ghost predicate Holds(key: string)
      requires key in hits
      reads this, hits[key].buf
    {
      ValidSlice(hits[key]) && Elements(hits[key]) == Ledgers(key).hits
    }

    /** Each key has a backing array of its own, holding what its ledger says. */
    ghost predicate Valid()
      reads this, Buffers()
    {
      && limit > 0 && window > 0
      && (forall key | key in hits :: Holds(key))
      && (forall key | key !in hits :: TimesOf(calls, key) == [])
      && (forall a, b | a in hits && b in hits && a != b :: hits[a].buf != hits[b].buf)
    }

    ghost function Buffers(): set<array<Time>>
      reads this
    {
      set key | key in hits :: hits[key].buf
    }

    constructor (limit: int, window: Time)
      ensures Valid() && hits == map[] && calls == []
      ensures this.limit == if limit <= 0 then 120 else limit
      ensures this.window == if window <= 0 then MINUTE else window
    {
      this.limit := if limit <= 0 then 120 else limit;
      this.window := if window <= 0 then MINUTE else window;
      this.hits, this.calls := map[], [];
    }

    /** Decides as the ledger of the key does and keeps what it keeps; the other keys are
        as before. */
    method Allow(key: string, now: Time) returns (ok: bool)
      requires Valid()
      modifies this, Buffers()
      ensures Valid() && calls == old(calls) + [(key, now)] && fresh(Buffers() - old(Buffers()))
      ensures ok <==> Admits(old(Ledgers(key)).hits, now, limit, window)
      ensures Ledgers(key) == Ask(old(Ledgers(key)), now, limit, window)
      ensures forall other | other != key :: Ledgers(other) == old(Ledgers(other))
      ensures key in hits && hits == old(hits)[key := hits[key]]
    {
      hide Ask, LedgerOf, TimesOf, Recent, Admits;
      ghost var before := Ledgers(key);
      var s: Slice;
      if key in hits {
        s := hits[key];
        assert Holds(key);
      } else {
        var empty := new Time[0];
        s := Slice(empty, 0);
        NoCalls(key);
      }
      var recent;
      ok, recent := Decide(s, now, before);
      Store(key, recent, now);
    }

    /** Keeps the slice of a key once it has been brought up to date. */
    method Store(key: string, recent: Slice, now: Time)
      requires limit > 0 && window > 0
      requires forall k | k in hits && k != key :: Holds(k) && hits[k].buf != recent.buf
      requires forall k | k !in hits :: TimesOf(calls, k) == []
      requires forall a, b | a in hits && b in hits && a != b :: hits[a].buf != hits[b].buf
      requires ValidSlice(recent) && Elements(recent) == Ask(Ledgers(key), now, limit, window).hits
      modifies this
      ensures Valid() && calls == old(calls) + [(key, now)] && hits == old(hits)[key := recent]
      ensures Ledgers(key) == Ask(old(Ledgers(key)), now, limit, window)
      ensures forall other | other != key :: Ledgers(other) == old(Ledgers(other))
    {
      hide Ask, LedgerOf, TimesOf;
      hits := hits[key := recent];
      calls := calls + [(key, now)];
      forall k
        ensures Ledgers(k) == if k == key then Ask(old(Ledgers(key)), now, limit, window) else old(Ledgers(k))
        ensures k !in hits ==> TimesOf(calls, k) == []
      {
        LedgersAfter(old(calls), key, now, k);
      }
      forall k | k in hits
        ensures Holds(k)
      {
        assert k != key ==> old(Holds(k));
      }
    }

    lemma NoCalls(key: string)
      requires TimesOf(calls, key) == []
      ensures Ledgers(key) == EMPTY_LEDGER
    {
    }

    /** Only the ledger of the key asked for moves. */
    lemma LedgersAfter(earlier: seq<(string, Time)>, key: string, now: Time, k: string)
      ensures var times := TimesOf(earlier, k);
              var times' := TimesOf(earlier + [(key, now)], k);
        if k == key then LedgerOf(times', limit, window) == Ask(LedgerOf(times, limit, window), now, limit, window)
        else times' == times
    {
      TimesOfAppend(earlier, (key, now), k);
      if k == key {
        var times := TimesOf(earlier, k);
        assert (times + [now])[..|times|] == times;
      }
    }

    /** However calls for different keys are interleaved: if the times of one key stay
        ahead, no window holds more than `limit` of its admitted hits. */
    lemma Bound(key: string, t: Time)
      requires Valid() && (limit == 1 || StaysAhead(TimesOf(calls, key), window))
      ensures |Within(Ledgers(key).admitted, t, window)| <= limit
    {
      WindowBound(TimesOf(calls, key), t, limit, window);
    }

    /** The body of `Allow` for one slice. */
    method Decide(s: Slice, now: Time, ghost l: Ledger) returns (ok: bool, recent: Slice)
      requires ValidSlice(s) && Elements(s) == l.hits && limit > 0
      modifies s.buf
      ensures ValidSlice(recent) && (recent.buf == s.buf || fresh(recent.buf))
      ensures ok <==> Admits(l.hits, now, limit, window)
      ensures Elements(recent) == Ask(l, now, limit, window).hits
    {
      var cutoff := now - window;
      recent := Compact(s, cutoff);
      if recent.len >= limit {
        return false, recent;
      }
      recent := Append(recent, now);
      ok := true;
    }
  }
}
