/** Machine integers, optional values and the finite-set facts shared by every component. */
module Primitives {

  const U16_MAX := 0xFFFF
  const U32_MAX := 0xFFFF_FFFF
  const U64_MAX := 0xFFFF_FFFF_FFFF_FFFF

  // Assigning to one of these is a proof obligation, so an arithmetic overflow
  // of the original is a verification error here.
  type byte = n: int | 0 <= n < 256
  type u16 = n: int | 0 <= n <= U16_MAX
  type u32 = n: int | 0 <= n <= U32_MAX
  type u64 = n: int | 0 <= n <= U64_MAX

  datatype Option<+T> = None | Some(value: T)

  datatype Result<+T, +E> = Ok(value: T) | Err(error: E)

  function Min(a: int, b: int): int {
    if a <= b then a else b
  }

  /** The first `n` elements, or all of them. */
  function AtMost<T>(n: nat, s: seq<T>): seq<T> {
    if |s| <= n then s else s[..n]
  }

  /** `front` before the rest, when there is a rest. */
  function Prepend<T>(front: seq<T>, rest: Option<seq<T>>): Option<seq<T>> {
    if rest.None? then None else Some(front + rest.value)
  }

  /** The concatenation of a sequence of sequences. */
  function Concat<T>(parts: seq<seq<T>>): seq<T> {
    if parts == [] then [] else parts[0] + Concat(parts[1..])
  }

  lemma {:induction false} ConcatAppend<T>(a: seq<seq<T>>, b: seq<seq<T>>)
    ensures Concat(a + b) == Concat(a) + Concat(b)
  {
    if a == [] {
      assert a + b == b;
    } else {
      assert (a + b)[1..] == a[1..] + b;
      ConcatAppend(a[1..], b);
    }
  }

  /** No value occurs twice. */
  predicate Distinct<T(==)>(s: seq<T>) {
    forall i, j :: 0 <= i < j < |s| ==> s[i] != s[j]
  }

  function Elements<T>(s: seq<T>): set<T> {
    set x | x in s
  }

  lemma NoElements<T>()
    ensures Elements<T>([]) == {}
  {
    var none: seq<T> := [];
    assert forall x :: x !in none;
  }

  lemma {:induction false} ElementsBound<T>(s: seq<T>)
    ensures |Elements(s)| <= |s|
    ensures Distinct(s) <==> |Elements(s)| == |s|
  {
    if s != [] {
      var init, last := s[..|s| - 1], s[|s| - 1];
      ElementsBound(init);
      assert s == init + [last];
      assert Elements(s) == Elements(init) + {last};
      if last in init {
        assert Elements(s) == Elements(init);
        var i :| 0 <= i < |init| && init[i] == last;
        assert s[i] == s[|s| - 1];
      } else {
        assert |Elements(s)| == |Elements(init)| + 1;
        assert Distinct(init) ==> Distinct(s);
        assert Distinct(s) ==> Distinct(init);
      }
    }
  }

  /** The IDs `1..=max`. */
  function IdRange(max: nat): (ids: set<nat>)
    ensures forall id :: id in ids <==> 1 <= id <= max
    ensures |ids| == max
  {
    if max == 0 then {} else IdRange(max - 1) + {max}
  }

  lemma SubsetSize<T>(small: set<T>, big: set<T>)
    requires small <= big
    ensures |small| <= |big|
    ensures |small| == |big| ==> small == big
  {
    assert big == small + (big - small);
    assert |big| == |small| + |big - small|;
  }
}
