/**
Renumbering the IDs of a decoded state: the first holder of a valid ID keeps
it, and every other item takes a fresh one (`normalize_existing_ids`).
*/
module IdRepair {
  import opened Primitives
  import opened IdAllocator

  /** The valid IDs of a list. */
  function ValidIds(ids: seq<u64>, max: u64): set<u64> {
    set id | id in ids && InRange(id, max)
  }

  /** What the loop carries: IDs taken, IDs already settled on an item, and the next hint. */
  datatype Repairing = Repairing(used: set<u64>, seen: set<u64>, next: u64)

  predicate Settled(st: Repairing, id: u64, max: u64) {
    InRange(id, max) && id !in st.seen
  }

  /** One item: a settled ID is left alone, any other is replaced by a free one. */
  function RepairItem(st: Repairing, id: u64, max: u64): Option<(Repairing, u64)> {
    if Settled(st, id, max) then Some((st.(seen := st.seen + {id}), id))
    else
      var taken := TakeAvailableId(st.used, st.next, max);
      if taken.None? then None
      else
        var minted := taken.value.id;
        Some((Repairing(st.used + {minted}, st.seen + {minted}, taken.value.next), minted))
  }

  function RepairFrom(st: Repairing, ids: seq<u64>, max: u64): Option<seq<u64>>
    decreases |ids|
  {
    if ids == [] then Some([])
    else
      var item := RepairItem(st, ids[0], max);
      if item.None? then None else Prepend([item.value.1], RepairFrom(item.value.0, ids[1..], max))
  }

  /** The repaired IDs, position by position, or nothing when they do not fit the range. */
  function Repaired(ids: seq<u64>, max: u64): Option<seq<u64>> {
    RepairFrom(Repairing(ValidIds(ids, max), {}, 1), ids, max)
  }

  lemma PrependOne(out: seq<u64>, id: u64, rest: Option<seq<u64>>)
    ensures Prepend(out, Prepend([id], rest)) == Prepend(out + [id], rest)
  {
    if rest.Some? { assert out + ([id] + rest.value) == out + [id] + rest.value; }
  }

  lemma PrependNothing(rest: Option<seq<u64>>)
    ensures Prepend([], rest) == rest
  {
    if rest.Some? { assert [] + rest.value == rest.value; }
  }

  /** The loop body: `None` when the range is exhausted. */
  method RepairStep(st: Repairing, id: u64, max: u64) returns (r: Option<(Repairing, u64)>, changed: bool)
    ensures r == RepairItem(st, id, max)
    ensures changed <==> !Settled(st, id, max)
  {
    if InRange(id, max) && id !in st.seen {
      return Some((st.(seen := st.seen + {id}), id)), false;
    }
    var used, taken := TakeAvailable(st.used, st.next, max);
    if taken.None? { return None, true; }
    var minted := taken.value.id;
    return Some((Repairing(used, st.seen + {minted}, taken.value.next), minted)), true;
  }

  /** A replaced ID differs from the one it replaces. */
  lemma ReplacementDiffers(st: Repairing, id: u64, max: u64)
    requires RepairItem(st, id, max).Some? && (InRange(id, max) ==> id in st.used)
    ensures st.used <= RepairItem(st, id, max).value.0.used
    ensures RepairItem(st, id, max).value.1 == id <==> Settled(st, id, max)
  {
    TakenIdIsFresh(st.used, st.next, max);
  }

  lemma RepairFromAt(st: Repairing, ids: seq<u64>, i: nat, max: u64)
    requires i < |ids|
    ensures var item := RepairItem(st, ids[i], max);
            RepairFrom(st, ids[i..], max)
            == if item.None? then None
               else Prepend([item.value.1], RepairFrom(item.value.0, ids[i + 1..], max))
  {
    assert ids[i..][1..] == ids[i + 1..];
  }

  lemma GrowPrefix(out: seq<u64>, id: u64, ids: seq<u64>, i: nat)
    requires |out| == i < |ids|
    ensures out + [id] == ids[..i + 1] <==> out == ids[..i] && id == ids[i]
  {
    assert ids[..i + 1] == ids[..i] + [ids[i]];
    assert (out + [id])[..i] == out;
    assert ids[..i + 1][..i] == ids[..i];
  }

  /** The loop over the items, in order. */
  method RepairIds(ids: seq<u64>, max: u64) returns (repaired: Option<seq<u64>>, changed: bool)
    ensures repaired == Repaired(ids, max)
    ensures repaired.Some? ==> (changed <==> repaired.value != ids)
  {
    var st := Repairing(ValidIds(ids, max), {}, 1);
    var out: seq<u64> := [];
    changed := false;
    PrependNothing(Repaired(ids, max));
    assert ids[0..] == ids;
    for i := 0 to |ids|
      invariant |out| == i && ValidIds(ids, max) <= st.used
      invariant changed <==> out != ids[..i]
      invariant Repaired(ids, max) == Prepend(out, RepairFrom(st, ids[i..], max))
    {
      RepairFromAt(st, ids, i, max);
      var item, replaced := RepairStep(st, ids[i], max);
      if item.None? { return None, changed; }
      assert InRange(ids[i], max) ==> ids[i] in ValidIds(ids, max);
      ReplacementDiffers(st, ids[i], max);
      GrowPrefix(out, item.value.1, ids, i);
      PrependOne(out, item.value.1, RepairFrom(item.value.0, ids[i + 1..], max));
      st := item.value.0;
      out := out + [item.value.1];
      changed := changed || replaced;
    }
    assert ids[..|ids|] == ids && out + [] == out;
    return Some(out), changed;
  }

  // ---- what the repair keeps ------------------------------------------------

  ghost predicate Consistent(st: Repairing, ids: seq<u64>, max: u64) {
    && st.seen <= IdRange(max)
    && st.used == st.seen + ValidIds(ids, max)
  }

  lemma ValidIdsTail(ids: seq<u64>, max: u64)
    requires ids != []
    ensures ValidIds(ids, max)
            == ValidIds(ids[1..], max) + (if InRange(ids[0], max) then {ids[0]} else {})
  {
    assert ids == [ids[0]] + ids[1..];
  }

  lemma {:induction false} ValidIdsSize(ids: seq<u64>, max: u64)
    ensures |ValidIds(ids, max)| <= |ids|
  {
    ElementsBound(ids);
    SubsetSize(ValidIds(ids, max), Elements(ids));
  }

  /** One item settled: the state stays consistent for the rest, and one more ID is seen. */
  lemma SettleOne(st: Repairing, ids: seq<u64>, max: u64)
    requires Consistent(st, ids, max) && ids != []
    ensures InRange(ids[0], max) && ids[0] !in st.seen ==>
              Consistent(st.(seen := st.seen + {ids[0]}), ids[1..], max)
    ensures !(InRange(ids[0], max) && ids[0] !in st.seen) ==>
              st.used == st.seen + ValidIds(ids[1..], max)
  {
    ValidIdsTail(ids, max);
  }

  /** Running out of IDs means there are more items than IDs. */
  lemma ExhaustedMeansTooMany(st: Repairing, ids: seq<u64>, max: u64)
    requires ids != [] && st.used == st.seen + ValidIds(ids[1..], max)
    requires IdRange(max) <= st.used
    ensures |st.seen| + |ids| > max
  {
    SubsetSize(IdRange(max), st.used);
    ValidIdsSize(ids[1..], max);
  }

  /** Repair fails exactly when the items outnumber the IDs left for them. */
  lemma {:induction false} RepairFitsIff(st: Repairing, ids: seq<u64>, max: u64)
    requires Consistent(st, ids, max)
    ensures RepairFrom(st, ids, max).Some? <==> |st.seen| + |ids| <= max
    decreases |ids|
  {
    if ids == [] {
      SubsetSize(st.seen, IdRange(max));
    } else {
      SettleOne(st, ids, max);
      if InRange(ids[0], max) && ids[0] !in st.seen {
        RepairFitsIff(st.(seen := st.seen + {ids[0]}), ids[1..], max);
      } else {
        TakenIdIsFresh(st.used, st.next, max);
        var taken := TakeAvailableId(st.used, st.next, max);
        if taken.None? {
          ExhaustedMeansTooMany(st, ids, max);
        } else {
          var id := taken.value.id;
          RepairFitsIff(Repairing(st.used + {id}, st.seen + {id}, taken.value.next), ids[1..], max);
        }
      }
    }
  }

  /** Position `i` keeps its ID: it is valid and no earlier position holds it. */
  predicate Keeps(ids: seq<u64>, max: u64, i: nat)
    requires i < |ids|
  {
    InRange(ids[i], max) && ids[i] !in ids[..i]
  }

  ghost predicate RepairedWell(seen: set<u64>, used: set<u64>, ids: seq<u64>, r: seq<u64>, max: u64) {
    && |r| == |ids| && Distinct(r)
    && (forall i :: 0 <= i < |r| ==> InRange(r[i], max) && r[i] !in seen)
    && (forall i :: 0 <= i < |r| && Keeps(ids, max, i) && ids[i] !in seen ==> r[i] == ids[i])
    && (forall i :: 0 <= i < |r| && !(Keeps(ids, max, i) && ids[i] !in seen) ==> r[i] !in used)
  }

  lemma {:induction false} RepairFromWell(st: Repairing, ids: seq<u64>, max: u64)
    requires Consistent(st, ids, max)
    requires RepairFrom(st, ids, max).Some?
    ensures RepairedWell(st.seen, st.used, ids, RepairFrom(st, ids, max).value, max)
    decreases |ids|
  {
    if ids != [] {
      SettleOne(st, ids, max);
      var r := RepairFrom(st, ids, max).value;
      var id, rest := r[0], r[1..];
      var seen := st.seen + {id};
      if InRange(ids[0], max) && ids[0] !in st.seen {
        RepairFromWell(st.(seen := seen), ids[1..], max);
        WellCons(st.seen, st.used, st.used, ids, id, rest, max);
      } else {
        TakenIdIsFresh(st.used, st.next, max);
        var taken := TakeAvailableId(st.used, st.next, max);
        RepairFromWell(Repairing(st.used + {id}, seen, taken.value.next), ids[1..], max);
        WellCons(st.seen, st.used, st.used + {id}, ids, id, rest, max);
      }
      assert r == [id] + rest;
    }
  }

  lemma KeepsShift(ids: seq<u64>, seen: set<u64>, id: u64, max: u64, i: nat)
    requires 0 < i < |ids|
    requires id == ids[0] || !(InRange(ids[0], max) && ids[0] !in seen)
    requires id == ids[0] || id !in ids || !InRange(id, max)
    ensures (Keeps(ids, max, i) && ids[i] !in seen)
            <==> (Keeps(ids[1..], max, i - 1) && ids[1..][i - 1] !in seen + {id})
  {
    assert ids[..i] == [ids[0]] + ids[1..][..i - 1];
    assert ids[i] in ids;
  }

  lemma WellCons(seen: set<u64>, used: set<u64>, usedAfter: set<u64>, ids: seq<u64>, id: u64,
                 rest: seq<u64>, max: u64)
    requires ids != [] && used <= usedAfter && InRange(id, max) && id !in seen
    requires ValidIds(ids, max) <= used
    requires RepairedWell(seen + {id}, usedAfter, ids[1..], rest, max)
    requires if InRange(ids[0], max) && ids[0] !in seen then id == ids[0] else id !in used
    ensures RepairedWell(seen, used, ids, [id] + rest, max)
  {
    var r := [id] + rest;
    forall i | 0 <= i < |r|
      ensures InRange(r[i], max) && r[i] !in seen
      ensures Keeps(ids, max, i) && ids[i] !in seen ==> r[i] == ids[i]
      ensures !(Keeps(ids, max, i) && ids[i] !in seen) ==> r[i] !in used
    {
      if i == 0 {
        assert ids[..0] == [];
      } else {
        assert r[i] == rest[i - 1] && ids[i] == ids[1..][i - 1];
        KeepsShift(ids, seen, id, max, i);
      }
    }
  }

  /**
  Repair of any list of IDs: it fails only when the items outnumber the range;
  otherwise the result is all valid and distinct, the first holder of a valid ID
  keeps it, and a renumbered item takes an ID held nowhere in the original list.
  */
  lemma RepairKeepsFirstHolders(ids: seq<u64>, max: u64)
    ensures Repaired(ids, max).Some? <==> |ids| <= max
    ensures Repaired(ids, max).Some? ==>
              var r := Repaired(ids, max).value;
              && |r| == |ids| && Distinct(r)
              && (forall i :: 0 <= i < |r| ==> InRange(r[i], max))
              && (forall i :: 0 <= i < |r| && Keeps(ids, max, i) ==> r[i] == ids[i])
              && (forall i :: 0 <= i < |r| && !Keeps(ids, max, i) ==> r[i] !in ids)
  {
    var st := Repairing(ValidIds(ids, max), {}, 1);
    RepairFitsIff(st, ids, max);
    if Repaired(ids, max).Some? {
      RepairFromWell(st, ids, max);
    }
  }

  /** A list of distinct valid IDs is left as it is, and repairing twice is repairing once. */
  lemma RepairSettles(ids: seq<u64>, max: u64)
    ensures Distinct(ids) && (forall i :: 0 <= i < |ids| ==> InRange(ids[i], max)) && |ids| <= max
            ==> Repaired(ids, max) == Some(ids)
    ensures Repaired(ids, max).Some? ==> Repaired(Repaired(ids, max).value, max) == Repaired(ids, max)
  {
    RepairKeepsFirstHolders(ids, max);
    if Distinct(ids) && (forall i :: 0 <= i < |ids| ==> InRange(ids[i], max)) && |ids| <= max {
      SettledKeepsAll(ids, max);
    }
    if Repaired(ids, max).Some? {
      SettledKeepsAll(Repaired(ids, max).value, max);
    }
  }

  lemma SettledKeepsAll(ids: seq<u64>, max: u64)
    requires Distinct(ids) && (forall i :: 0 <= i < |ids| ==> InRange(ids[i], max)) && |ids| <= max
    ensures Repaired(ids, max) == Some(ids)
  {
    RepairKeepsFirstHolders(ids, max);
    var r := Repaired(ids, max).value;
    assert forall i :: 0 <= i < |ids| ==> Keeps(ids, max, i);
    assert r == ids;
  }
}
