/** agent-computer/src/browser-eviction.ts: which browsers to close, and when. */
module BrowserEvictions {

  /** An entry of the map of running browsers; `page` is what its Bot is handed. */
  datatype Running = Running(botId: string, usedAt: int, page: nat)

  predicate DistinctBots(entries: seq<Running>) {
    forall i, j :: 0 <= i < j < |entries| ==> entries[i].botId != entries[j].botId
  }

  /** A stable sort by `usedAt`: an entry goes before those that came after it and were not used earlier. */
  function InsertByUse(x: Running, s: seq<Running>): (r: seq<Running>)
    ensures |r| == |s| + 1
  {
    if s == [] || x.usedAt <= s[0].usedAt then [x] + s else [s[0]] + InsertByUse(x, s[1..])
  }

  function ByUse(s: seq<Running>): (r: seq<Running>)
    ensures |r| == |s|
  {
    if s == [] then [] else InsertByUse(s[0], ByUse(s[1..]))
  }

  /** How many are over the cap, as `slice` truncates it; the cap is any positive number. */
  function Excess(count: nat, max: real): (n: nat)
    requires max > 0.0
    ensures n <= count
  {
    if count as real <= max then 0 else (count as real - max).Floor
  }

  function BotIds(s: seq<Running>): (ids: seq<string>)
    ensures |ids| == |s|
  {
    seq(|s|, i requires 0 <= i < |s| => s[i].botId)
  }

  function ChooseEvictions(running: seq<Running>, max: real): (ids: seq<string>)
    requires max > 0.0
    ensures |ids| == Excess(|running|, max)
  {
    BotIds(ByUse(running)[..Excess(|running|, max)])
  }

  function ChooseIdle(running: seq<Running>, idleTimeoutMs: int, now: int): seq<string> {
    if idleTimeoutMs <= 0 || running == [] then []
    else (if running[0].usedAt <= now - idleTimeoutMs then [running[0].botId] else [])
         + ChooseIdle(running[1..], idleTimeoutMs, now)
  }

  /** The smallest whole number of browsers that reaches the cap. */
  function Ceiling(max: real): int { -((-max).Floor) }

  // ---- the order of eviction ----

  /** Where an entry stands in insertion order. */
  function Place(s: seq<Running>, x: Running): (i: nat)
    ensures i <= |s|
    ensures i < |s| ==> s[i] == x
    ensures forall j :: 0 <= j < i ==> s[j] != x
  {
    if s == [] || s[0] == x then 0 else 1 + Place(s[1..], x)
  }

  /** Quiet for longer, or as long and there first. */
  predicate GoesFirst(s: seq<Running>, a: Running, b: Running) {
    a.usedAt < b.usedAt || (a.usedAt == b.usedAt && Place(s, a) < Place(s, b))
  }

  lemma {:induction false} InsertByUseMembers(x: Running, s: seq<Running>)
    ensures multiset(InsertByUse(x, s)) == multiset(s) + multiset{x}
    decreases |s|
  {
    if s != [] && s[0].usedAt < x.usedAt {
      InsertByUseMembers(x, s[1..]);
      assert s == [s[0]] + s[1..];
    }
  }

  lemma {:induction false} ByUseMembers(s: seq<Running>)
    ensures multiset(ByUse(s)) == multiset(s)
    ensures forall x :: x in ByUse(s) <==> x in s
    decreases |s|
  {
    if s != [] {
      ByUseMembers(s[1..]);
      InsertByUseMembers(s[0], ByUse(s[1..]));
      assert s == [s[0]] + s[1..];
    }
    SameMembers(ByUse(s), s);
  }

  lemma SameMembers(a: seq<Running>, b: seq<Running>)
    requires multiset(a) == multiset(b)
    ensures forall x :: x in a <==> x in b
  {
    forall x
      ensures x in a <==> x in b
    {
      assert x in multiset(a) <==> x in multiset(b);
    }
  }

  /** Every two entries of the sorted list stand in eviction order. */
  ghost predicate Ordered(s: seq<Running>, sorted: seq<Running>) {
    forall i, j :: 0 <= i < j < |sorted| ==> GoesFirst(s, sorted[i], sorted[j])
  }

  lemma {:induction false} InsertByUseOrdered(s: seq<Running>, x: Running, sorted: seq<Running>)
    requires Ordered(s, sorted) && Place(s, x) == 0
    requires forall y :: y in sorted ==> Place(s, y) > 0
    ensures Ordered(s, InsertByUse(x, sorted))
    decreases |sorted|
  {
    if sorted != [] {
      if x.usedAt <= sorted[0].usedAt {
        forall j | 0 <= j < |sorted|
          ensures GoesFirst(s, x, sorted[j])
        {
          assert sorted[j] in sorted;
          assert j == 0 || GoesFirst(s, sorted[0], sorted[j]);
        }
      } else {
        var rest := InsertByUse(x, sorted[1..]);
        InsertByUseOrdered(s, x, sorted[1..]);
        InsertByUseMembers(x, sorted[1..]);
        forall j | 0 <= j < |rest|
          ensures GoesFirst(s, sorted[0], rest[j])
        {
          assert rest[j] in multiset(rest);
          if rest[j] != x {
            assert rest[j] in sorted[1..];
            var i :| 0 <= i < |sorted[1..]| && sorted[1..][i] == rest[j];
            assert sorted[i + 1] == rest[j];
          }
        }
      }
    }
  }

  lemma {:induction false} ByUseOrdered(s: seq<Running>)
    requires DistinctBots(s)
    ensures Ordered(s, ByUse(s))
    decreases |s|
  {
    if s != [] {
      ByUseOrdered(s[1..]);
      ByUseMembers(s[1..]);
      var sorted := ByUse(s[1..]);
      forall y | y in sorted
        ensures y != s[0] && Place(s, y) == 1 + Place(s[1..], y)
      {
        assert y in s[1..];
        var i :| 0 <= i < |s[1..]| && s[1..][i] == y;
        assert s[i + 1] == y;
      }
      forall i, j | 0 <= i < j < |sorted|
        ensures GoesFirst(s, sorted[i], sorted[j])
      {
        assert GoesFirst(s[1..], sorted[i], sorted[j]);
        assert sorted[i] in sorted && sorted[j] in sorted;
      }
      InsertByUseOrdered(s, s[0], sorted);
    }
  }

  /**
   The victims are exactly as many as are over the cap, and each of them was used less recently than
   every entry that stays, or as recently and inserted earlier.
   */
  lemma EvictsLeastRecentlyUsed(running: seq<Running>, max: real, stays: Running, goes: Running)
    requires max > 0.0 && DistinctBots(running) && stays in running && goes in running
    requires goes.botId in ChooseEvictions(running, max) && stays.botId !in ChooseEvictions(running, max)
    ensures GoesFirst(running, goes, stays)
  {
    ByUseOrdered(running);
    ByUseMembers(running);
    var sorted, n := ByUse(running), Excess(|running|, max);
    var ids := ChooseEvictions(running, max);
    assert goes in sorted && stays in sorted;
    var i :| 0 <= i < |ids| && ids[i] == goes.botId;
    assert sorted[i] == goes by {
      assert sorted[i].botId == goes.botId;
      assert sorted[i] in running;
    }
    forall k | 0 <= k < n
      ensures sorted[k].botId in ids
    {
      assert ids[k] == sorted[k].botId;
    }
    var j :| 0 <= j < |sorted| && sorted[j] == stays;
  }

  // ---- the count ----

  /** What stays after the evictions: everything while under the cap, and the ceiling of the cap otherwise. */
  lemma KeptIsCeiling(count: nat, max: real)
    requires max > 0.0
    ensures count - Excess(count, max) == if count as real <= max then count else Ceiling(max)
    ensures Ceiling(max) >= 1
  {
    if count as real > max {
      var c := Ceiling(max);
      assert c as real - 1.0 < max <= c as real;
      var e := (count as real - max).Floor;
      assert e as real <= count as real - max < e as real + 1.0;
    }
  }

  /** Evicting brings the count within the cap exactly when it was there already or the cap is a whole number. */
  lemma CapIsMetExactlyWhen(count: nat, max: real)
    requires max > 0.0
    ensures (count - Excess(count, max)) as real <= max <==> count as real <= max || max.Floor as real == max
  {
    KeptIsCeiling(count, max);
    CeilingOfWhole(max);
  }

  /** The least whole number above and the greatest below meet exactly on a whole number. */
  lemma WholeBetween(c: int, f: int, max: real)
    requires c as real - 1.0 < max <= c as real
    requires f as real <= max < f as real + 1.0
    ensures c as real <= max <==> f as real == max
  {
    assert (f - c) as real < 1.0 && (c - f) as real < 2.0;
    assert c == f || c == f + 1;
  }

  lemma CeilingOfWhole(max: real)
    ensures Ceiling(max) as real <= max <==> max.Floor as real == max
  {
    var c, f := Ceiling(max), max.Floor;
    assert c as real - 1.0 < max <= c as real;
    assert f as real <= max < f as real + 1.0;
    WholeBetween(c, f, max);
  }

  /** A sweep chooses exactly the entries untouched for the timeout, and nothing when it is switched off. */
  lemma {:induction false} IdleAreChosen(running: seq<Running>, idleTimeoutMs: int, now: int, id: string)
    ensures id in ChooseIdle(running, idleTimeoutMs, now) <==>
            idleTimeoutMs > 0 && exists i :: 0 <= i < |running| && running[i].botId == id && now - running[i].usedAt >= idleTimeoutMs
    decreases |running|
  {
    if idleTimeoutMs > 0 && running != [] {
      IdleAreChosen(running[1..], idleTimeoutMs, now, id);
      assert forall i | 0 < i < |running| :: running[i] == running[1..][i - 1];
    }
  }
}
