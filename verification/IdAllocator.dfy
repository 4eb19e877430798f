/**
The bounded, wrapping allocator of durable IDs over `1..=max`, and the hint it
leaves for the next allocation. Zero is both "no ID" and "range exhausted".
*/
module IdAllocator {
  import opened Primitives

  const MAX_DURABLE_SESSION_ID: u64 := 0x7FFF_FFFF_FFFF_FFFF

  predicate InRange(id: nat, max: nat) {
    1 <= id <= max
  }

  // ---- ordered sets ---------------------------------------------------------

  predicate IsLeast(m: u64, s: set<u64>) {
    m in s && forall x :: x in s ==> m <= x
  }

  lemma {:induction false} LeastExists(s: set<u64>)
    requires s != {}
    ensures exists m: u64 :: IsLeast(m, s)
  {
    var x :| x in s;
    var rest := s - {x};
    if rest == {} {
      assert forall y :: y in s ==> y == x || y in rest;
      assert IsLeast(x, s);
    } else {
      LeastExists(rest);
      var m: u64 :| IsLeast(m, rest);
      assert forall y :: y in s ==> y == x || y in rest;
      assert IsLeast(if m <= x then m else x, s);
    }
  }

  function Least(s: set<u64>): (m: u64)
    requires s != {}
    ensures IsLeast(m, s)
  {
    LeastExists(s);
    var m: u64 :| IsLeast(m, s);
    m
  }

  /** The elements of an ordered set, smallest first. */
  function Ascending(s: set<u64>): seq<u64>
    decreases |s|
  {
    if s == {} then [] else [Least(s)] + Ascending(s - {Least(s)})
  }

  predicate Increasing(r: seq<u64>) {
    forall i, j :: 0 <= i < j < |r| ==> r[i] < r[j]
  }

  lemma {:induction false} AscendingMembers(s: set<u64>)
    ensures forall x :: x in Ascending(s) <==> x in s
    ensures |Ascending(s)| == |s|
    decreases |s|
  {
    if s != {} {
      AscendingMembers(s - {Least(s)});
    }
  }

  lemma {:induction false} AscendingIncreases(s: set<u64>)
    ensures Increasing(Ascending(s))
    decreases |s|
  {
    if s != {} {
      var tail := Ascending(s - {Least(s)});
      AscendingIncreases(s - {Least(s)});
      AscendingMembers(s - {Least(s)});
      assert forall i :: 0 <= i < |tail| ==> tail[i] in tail;
      assert Ascending(s) == [Least(s)] + tail;
    }
  }

  // ---- finding a free ID ----------------------------------------------------

  /** The first free ID at or after `start`, up to `end`. */
  function FirstFree(used: set<u64>, start: u64, end: u64): (r: Option<u64>)
    ensures r.None? ==> forall id: u64 :: start <= id <= end ==> id in used
    ensures r.Some? ==> start <= r.value <= end && r.value !in used
    ensures r.Some? ==> forall id: u64 :: start <= id < r.value ==> id in used
    decreases end - start
  {
    if start > end then None
    else if start !in used then Some(start)
    else if start == end then None
    else FirstFree(used, start + 1, end)
  }

  lemma {:induction false} FirstFreeIs(used: set<u64>, start: u64, end: u64, r: u64)
    requires start <= r <= end && r !in used
    requires forall id: u64 :: start <= id < r ==> id in used
    ensures FirstFree(used, start, end) == Some(r)
    decreases end - start
  {
    if start < r { FirstFreeIs(used, start + 1, end, r); }
  }

  /** One pass over the used IDs of the range, in order. No candidate leaves the range. */
  method FirstAvailableInRange(used: set<u64>, start: u64, end: u64) returns (r: Option<u64>)
    requires start <= end
    ensures r == FirstFree(used, start, end)
  {
    var range := set id | id in used && start <= id <= end;
    var ids := Ascending(range);
    AscendingMembers(range);
    AscendingIncreases(range);
    assert forall i :: 0 <= i < |ids| ==> ids[i] in range;
    r := FirstGap(ids, start, end);
    if r.Some? {
      assert r.value !in range;
      forall id: u64 | start <= id < r.value ensures id in used { assert id in ids; }
      FirstFreeIs(used, start, end, r.value);
    } else {
      forall id: u64 | start <= id <= end ensures id in used { assert id in ids; }
    }
  }

  /** The first value of `start..=end` missing from an increasing list of values of that range. */
  method FirstGap(ids: seq<u64>, start: u64, end: u64) returns (r: Option<u64>)
    requires start <= end && Increasing(ids)
    requires forall i :: 0 <= i < |ids| ==> start <= ids[i] <= end
    ensures r.None? ==> forall id: u64 :: start <= id <= end ==> id in ids
    ensures r.Some? ==> start <= r.value <= end && r.value !in ids
    ensures r.Some? ==> forall id: u64 :: start <= id < r.value ==> id in ids
  {
    var candidate := start;
    for k := 0 to |ids|
      invariant start <= candidate <= end
      invariant forall i :: 0 <= i < k ==> ids[i] < candidate
      invariant forall i :: k <= i < |ids| ==> candidate <= ids[i]
      invariant forall id: u64 :: start <= id < candidate ==> id in ids
    {
      var id := ids[k];
      if id > candidate { return Some(candidate); }
      if id == candidate {
        if candidate == end { return None; }
        candidate := candidate + 1;
      }
    }
    return Some(candidate);
  }

  function Successor(id: u64, max: u64): u64
    requires id <= max
  {
    if id == max then 1 else id + 1
  }

  function StartAt(hint: u64, max: u64): u64 {
    if InRange(hint, max) then hint else 1
  }

  function FindAvailableId(used: set<u64>, hint: u64, max: u64): Option<u64> {
    if max == 0 then None
    else
      var start := StartAt(hint, max);
      var upper := FirstFree(used, start, max);
      if upper.Some? then upper
      else if start > 1 then FirstFree(used, 1, start - 1) else None
  }

  /** How far `id` lies ahead of `start` going round `1..=max`. */
  function CyclicDistance(start: nat, id: nat, max: nat): int {
    if start <= id then id - start else id - start + max
  }

  /** The allocator returns the first free ID in cyclic order, and fails exactly when none is free. */
  lemma FirstFreeInCyclicOrder(used: set<u64>, hint: u64, max: u64)
    ensures var found := FindAvailableId(used, hint, max);
            && (found.None? <==> IdRange(max) <= used)
            && (found.Some? ==>
                  && InRange(found.value, max) && found.value !in used
                  && forall id: u64 :: InRange(id, max) && id !in used ==>
                       CyclicDistance(StartAt(hint, max), found.value, max)
                       <= CyclicDistance(StartAt(hint, max), id, max))
  {
    var found := FindAvailableId(used, hint, max);
    if found.None? {
      forall id | id in IdRange(max) ensures id in used {
        var known: u64 := id;
        var start := StartAt(hint, max);
        assert start <= known <= max || 1 <= known <= start - 1;
      }
    } else {
      assert found.value in IdRange(max);
    }
  }

  /** An ID of the range is free whenever fewer than `max` are used. */
  lemma FreeIdExists(used: set<u64>, hint: u64, max: u64)
    requires |used| < max
    ensures FindAvailableId(used, hint, max).Some?
  {
    FirstFreeInCyclicOrder(used, hint, max);
    if IdRange(max) <= used {
      SubsetSize(IdRange(max), used);
    }
  }

  /** An allocated ID and the hint that follows it. */
  datatype Taken = Taken(id: u64, next: u64)

  function TakeAvailableId(used: set<u64>, hint: u64, max: u64): Option<Taken> {
    var found := FindAvailableId(used, hint, max);
    if found.None? then None
    else
      var id := found.value;
      FirstFreeInCyclicOrder(used, hint, max);
      var next := FindAvailableId(used + {id}, Successor(id, max), max);
      Some(Taken(id, if next.Some? then next.value else 0))
  }

  /** The allocation as the source performs it: two searches and an insertion. */
  method TakeAvailable(used: set<u64>, hint: u64, max: u64) returns (after: set<u64>, taken: Option<Taken>)
    ensures taken == TakeAvailableId(used, hint, max)
    ensures after == if taken.Some? then used + {taken.value.id} else used
  {
    after := used;
    var found := FindAvailable(used, hint, max);
    if found.None? { return after, None; }
    var id := found.value;
    FirstFreeInCyclicOrder(used, hint, max);
    after := used + {id};
    var next := FindAvailable(after, Successor(id, max), max);
    taken := Some(Taken(id, if next.Some? then next.value else 0));
  }

  method FindAvailable(used: set<u64>, hint: u64, max: u64) returns (r: Option<u64>)
    ensures r == FindAvailableId(used, hint, max)
  {
    if max == 0 { return None; }
    var start := if InRange(hint, max) then hint else 1;
    r := FirstAvailableInRange(used, start, max);
    if r.None? && start > 1 {
      r := FirstAvailableInRange(used, 1, start - 1);
    }
  }

  /** A taken ID is fresh; the hint names a free ID, or is zero exactly when the range is now full. */
  lemma TakenIdIsFresh(used: set<u64>, hint: u64, max: u64)
    ensures var taken := TakeAvailableId(used, hint, max);
            && (taken.None? <==> IdRange(max) <= used)
            && (taken.Some? ==>
                  var after := used + {taken.value.id};
                  && InRange(taken.value.id, max) && taken.value.id !in used
                  && (taken.value.next == 0 <==> IdRange(max) <= after)
                  && (taken.value.next != 0 ==> InRange(taken.value.next, max) && taken.value.next !in after))
  {
    FirstFreeInCyclicOrder(used, hint, max);
    var found := FindAvailableId(used, hint, max);
    if found.Some? {
      FirstFreeInCyclicOrder(used + {found.value}, Successor(found.value, max), max);
    }
  }

  // ---- the hint -------------------------------------------------------------

  /** The largest used ID of `1..=max`, or zero. */
  function Highest(used: set<u64>, max: u64): (h: u64)
    ensures h <= max && (h != 0 ==> h in used)
    ensures forall id: u64 :: InRange(id, max) && id in used ==> id <= h
  {
    if max == 0 then 0 else if max in used then max else Highest(used, max - 1)
  }

  function NormalizedHint(current: u64, used: set<u64>, max: u64): u64 {
    var highest := Highest(used, max);
    var start :=
      if highest < max && (!InRange(current, max) || current <= highest) then highest + 1
      else if InRange(current, max) then current
      else 1;
    var found := FindAvailableId(used, start, max);
    if found.Some? then found.value else 0
  }

  /**
  What a caller can check of a hint that normalization leaves alone: it is a free
  ID above every used one while the top of the range is free; once the top is
  used it is any free ID, or zero when there is none.
  */
  predicate StableHint(hint: u64, used: set<u64>, max: u64) {
    if Highest(used, max) < max then Highest(used, max) < hint <= max
    else if hint == 0 then IdRange(max) <= used
    else InRange(hint, max) && hint !in used
  }

  lemma FreeStartIsFound(used: set<u64>, start: u64, max: u64)
    requires InRange(start, max) && start !in used
    ensures FindAvailableId(used, start, max) == Some(start)
  {
  }

  lemma StableHintIffFixed(hint: u64, used: set<u64>, max: u64)
    ensures StableHint(hint, used, max) <==> NormalizedHint(hint, used, max) == hint
  {
    var highest := Highest(used, max);
    FirstFreeInCyclicOrder(used, hint, max);
    FirstFreeInCyclicOrder(used, 1, max);
    if highest < max {
      assert highest + 1 !in used;
      FreeStartIsFound(used, highest + 1, max);
    }
    if InRange(hint, max) && hint !in used {
      FreeStartIsFound(used, hint, max);
    }
  }

  /** Normalizing a hint settles it. */
  lemma NormalizedHintIsStable(current: u64, used: set<u64>, max: u64)
    ensures StableHint(NormalizedHint(current, used, max), used, max)
  {
    var highest := Highest(used, max);
    FirstFreeInCyclicOrder(used, current, max);
    FirstFreeInCyclicOrder(used, 1, max);
    if highest < max {
      assert highest + 1 !in used;
      FreeStartIsFound(used, highest + 1, max);
      if current > highest && current <= max {
        FreeStartIsFound(used, current, max);
      }
    }
  }

  /** Allocating from a settled hint leaves a settled hint. */
  lemma TakeKeepsHintStable(hint: u64, used: set<u64>, max: u64)
    requires StableHint(hint, used, max)
    requires TakeAvailableId(used, hint, max).Some?
    ensures var taken := TakeAvailableId(used, hint, max).value;
            taken.id == hint && StableHint(taken.next, used + {taken.id}, max)
  {
    TakenIdIsFresh(used, hint, max);
    FreeStartIsFound(used, hint, max);
    var taken := TakeAvailableId(used, hint, max).value;
    var after := used + {hint};
    if Highest(used, max) < max {
      HighestAfterTaking(used, hint, max);
      if hint < max {
        FreeStartIsFound(after, hint + 1, max);
      }
    } else {
      assert max == 0 || Highest(after, max) == max;
    }
  }

  lemma HighestAfterTaking(used: set<u64>, id: u64, max: u64)
    requires Highest(used, max) < id <= max
    ensures Highest(used + {id}, max) == id
  {
    assert id in used + {id};
    assert Highest(used + {id}, max) >= id;
  }

  /**
  Freeing IDs keeps a settled hint settled exactly when none was freed, or the
  range was not full and, if the top of the range was freed, the hint is above
  what is left.
  */
  lemma FreeingMovesHintExactlyWhen(hint: u64, used: set<u64>, freed: set<u64>, max: u64)
    requires StableHint(hint, used, max) && freed <= used && forall id :: id in freed ==> InRange(id, max)
    ensures StableHint(hint, used - freed, max)
            <==> freed == {} || (hint != 0 && (max in freed ==> hint > Highest(used - freed, max)))
  {
    var after := used - freed;
    if freed == {} {
      assert after == used;
    } else {
      var id :| id in freed;
      assert id in IdRange(max) && id !in after;
      assert forall i: u64 :: InRange(i, max) && i in after ==> i <= Highest(used, max);
      assert Highest(after, max) <= Highest(used, max);
      if max !in freed && Highest(used, max) == max {
        assert max in after && Highest(after, max) == max;
      }
    }
  }

  /** In the range chats and terminals use, deleting the top ID can move the hint. */
  lemma FreeingTheTopMovesHint(max: u64)
    requires max > 6
    ensures var used: set<u64> := {5, max};
            StableHint(1, used, max) && !StableHint(1, used - {max}, max) && NormalizedHint(1, used - {max}, max) == 6
  {
    var used: set<u64> := {5, max};
    var after := used - {max};
    assert after == {5};
    assert Highest(used, max) == max by {
      assert max in used;
    }
    assert Highest(after, max) == 5 by {
      assert (5 as u64) in after;
    }
    FreeStartIsFound(after, 6, max);
  }
}
