/**
Opaque 16-byte identities drawn from an entropy source, and the reconciliation
of token tables against the sessions that are actually present.
*/
module SessionIdentities {
  import opened Primitives
  import opened IdAllocator

  const IDENTITY_BYTES := 16
  const MAX_ATTEMPTS := 64

  function Zeros(): seq<byte> {
    seq(IDENTITY_BYTES, _ => 0)
  }

  type Entropy = b: seq<byte> | |b| == IDENTITY_BYTES witness Zeros()

  /** A namespace, session token or agent generation: sixteen bytes, not all zero. */
  predicate IsIdentity(b: seq<byte>) {
    |b| == IDENTITY_BYTES && b != Zeros()
  }

  lemma OnesAreAnIdentity()
    ensures IsIdentity(seq(IDENTITY_BYTES, _ => 1))
  {
    assert seq(IDENTITY_BYTES, _ => 1)[0] != Zeros()[0];
  }

  type Identity = b: seq<byte> | IsIdentity(b)
    ghost witness (OnesAreAnIdentity(); seq(IDENTITY_BYTES, _ => 1))

  datatype Draw = Drawn(bytes: Entropy) | DrawFailed

  /** An entropy source is an arbitrary stream of draws, any of which may fail. */
  class IdentitySource {
    const draws: nat -> Draw
    var position: nat

    constructor (draws: nat -> Draw)
      ensures this.draws == draws && position == 0
    {
      this.draws, position := draws, 0;
    }

    method FillBytes() returns (d: Draw)
      modifies this
      ensures d == draws(old(position)) && position == old(position) + 1
    {
      d := draws(position);
      position := position + 1;
    }
  }

  // ---- generating an identity -----------------------------------------------

  predicate Acceptable(d: Draw, taken: set<Identity>) {
    d.Drawn? && IsIdentity(d.bytes) && d.bytes !in taken
  }

  /** The outcome of drawing an identity, and where it leaves the source. */
  datatype Minted = Minted(identity: Option<Identity>, position: nat)

  function Mint(draws: nat -> Draw, position: nat, taken: set<Identity>, attempts: nat): Minted
    decreases attempts
  {
    if attempts == 0 then Minted(None, position)
    else
      var d := draws(position);
      if d.DrawFailed? then Minted(None, position + 1)
      else if Acceptable(d, taken) then Minted(Some(d.bytes), position + 1)
      else Mint(draws, position + 1, taken, attempts - 1)
  }

  method GenerateIdentity(source: IdentitySource, taken: set<Identity>) returns (r: Option<Identity>)
    modifies source
    ensures Minted(r, source.position) == Mint(source.draws, old(source.position), taken, MAX_ATTEMPTS)
  {
    for i := 0 to MAX_ATTEMPTS
      invariant Mint(source.draws, old(source.position), taken, MAX_ATTEMPTS)
                == Mint(source.draws, source.position, taken, MAX_ATTEMPTS - i)
    {
      var d := source.FillBytes();
      if d.DrawFailed? { return None; }
      if IsIdentity(d.bytes) && d.bytes !in taken { return Some(d.bytes); }
    }
    return None;
  }

  predicate Rejected(d: Draw, taken: set<Identity>) {
    d.Drawn? && !Acceptable(d, taken)
  }

  /** The draw at `at` is the identity, and every draw before it was well-formed but unusable. */
  ghost predicate FirstAcceptable(
    draws: nat -> Draw, position: nat, taken: set<Identity>, at: nat, identity: Identity)
  {
    && draws(at) == Drawn(identity) && Acceptable(draws(at), taken)
    && forall p: nat :: position <= p < at ==> Rejected(draws(p), taken)
  }

  /**
  An identity is minted exactly when it is the first acceptable draw, within the
  attempts allowed and with no failed draw before it.
  */
  lemma {:induction false} MintIsFirstAcceptable(
    draws: nat -> Draw, position: nat, taken: set<Identity>, attempts: nat, identity: Identity)
    ensures Mint(draws, position, taken, attempts).identity == Some(identity)
            <==> exists at: nat :: position <= at < position + attempts
                                   && FirstAcceptable(draws, position, taken, at, identity)
    ensures position <= Mint(draws, position, taken, attempts).position <= position + attempts
    decreases attempts
  {
    if attempts > 0 {
      MintIsFirstAcceptable(draws, position + 1, taken, attempts - 1, identity);
      var d := draws(position);
      if Rejected(d, taken) {
        assert Mint(draws, position, taken, attempts) == Mint(draws, position + 1, taken, attempts - 1);
        if Mint(draws, position, taken, attempts).identity == Some(identity) {
          var at: nat :| position + 1 <= at < position + attempts
                         && FirstAcceptable(draws, position + 1, taken, at, identity);
          assert FirstAcceptable(draws, position, taken, at, identity);
        }
        if at: nat :| position <= at < position + attempts && FirstAcceptable(draws, position, taken, at, identity) {
          assert at != position && FirstAcceptable(draws, position + 1, taken, at, identity);
        }
      } else {
        assert FirstAcceptable(draws, position, taken, position, identity)
               <==> Acceptable(d, taken) && d == Drawn(identity);
      }
    }
  }

  lemma {:induction false} MintIsNew(draws: nat -> Draw, position: nat, taken: set<Identity>, attempts: nat)
    ensures var m := Mint(draws, position, taken, attempts);
            m.identity.Some? ==> m.identity.value !in taken
    decreases attempts
  {
    if attempts > 0 { MintIsNew(draws, position + 1, taken, attempts - 1); }
  }

  // ---- tables ---------------------------------------------------------------

  type Table = map<u64, Identity>

  predicate Injective(t: Table) {
    forall a, b :: a in t && b in t && a != b ==> t[a] != t[b]
  }

  datatype Retained = Retained(table: Table, seen: set<Identity>)

  /** `retain` over the keys in order: live sessions only, and each token once. */
  function RetainFrom(keys: seq<u64>, table: Table, live: set<u64>, seen: set<Identity>): Retained
    requires forall k :: k in keys ==> k in table
    decreases |keys|
  {
    if keys == [] then Retained(map[], seen)
    else
      var k := keys[0];
      if k in live && table[k] !in seen then
        var rest := RetainFrom(keys[1..], table, live, seen + {table[k]});
        Retained(rest.table[k := table[k]], rest.seen)
      else RetainFrom(keys[1..], table, live, seen)
  }

  function Retain(table: Table, live: set<u64>, seen: set<Identity>): Retained {
    AscendingMembers(table.Keys);
    RetainFrom(Ascending(table.Keys), table, live, seen)
  }

  function Under(kept: Table, rest: Retained): Retained {
    Retained(kept + rest.table, rest.seen)
  }

  lemma UnderOne(kept: Table, k: u64, v: Identity, rest: Retained)
    requires k !in rest.table
    ensures Under(kept, Retained(rest.table[k := v], rest.seen)) == Under(kept[k := v], rest)
  {
    assert kept + rest.table[k := v] == kept[k := v] + rest.table;
  }

  lemma RetainFromAt(keys: seq<u64>, table: Table, live: set<u64>, seen: set<Identity>, i: nat)
    requires i < |keys| && Increasing(keys) && forall k :: k in keys ==> k in table
    ensures var k := keys[i];
            RetainFrom(keys[i..], table, live, seen)
            == if k in live && table[k] !in seen then
                 var rest := RetainFrom(keys[i + 1..], table, live, seen + {table[k]});
                 Retained(rest.table[k := table[k]], rest.seen)
               else RetainFrom(keys[i + 1..], table, live, seen)
    ensures keys[i] !in RetainFrom(keys[i + 1..], table, live, seen + {table[keys[i]]}).table
  {
    assert keys[i..][1..] == keys[i + 1..];
    RetainKeys(keys[i + 1..], table, live, seen + {table[keys[i]]});
  }

  method RetainLive(table: Table, live: set<u64>, seen: set<Identity>)
    returns (kept: Table, after: set<Identity>)
    ensures Retained(kept, after) == Retain(table, live, seen)
  {
    AscendingMembers(table.Keys);
    AscendingIncreases(table.Keys);
    kept, after := RetainOver(Ascending(table.Keys), table, live, seen);
  }

  method RetainOver(keys: seq<u64>, table: Table, live: set<u64>, seen: set<Identity>)
    returns (kept: Table, after: set<Identity>)
    requires Increasing(keys) && forall k :: k in keys ==> k in table
    ensures Retained(kept, after) == RetainFrom(keys, table, live, seen)
  {
    kept, after := map[], seen;
    ghost var goal := RetainFrom(keys, table, live, seen);
    assert keys[0..] == keys;
    assert Under(map[], goal) == goal by { assert map[] + goal.table == goal.table; }
    for i := 0 to |keys|
      invariant Under(kept, RetainFrom(keys[i..], table, live, after)) == goal
    {
      var k := keys[i];
      RetainFromAt(keys, table, live, after, i);
      if k in live && table[k] !in after {
        UnderOne(kept, k, table[k], RetainFrom(keys[i + 1..], table, live, after + {table[k]}));
        kept, after := kept[k := table[k]], after + {table[k]};
      }
    }
    assert kept + map[] == kept;
  }

  lemma {:induction false} RetainKeys(keys: seq<u64>, table: Table, live: set<u64>, seen: set<Identity>)
    requires forall k :: k in keys ==> k in table
    ensures var r := RetainFrom(keys, table, live, seen);
            forall k :: k in r.table ==> k in keys && k in live && r.table[k] == table[k]
    decreases |keys|
  {
    if keys != [] {
      var k := keys[0];
      RetainKeys(keys[1..], table, live, seen + {table[k]});
      RetainKeys(keys[1..], table, live, seen);
    }
  }

  /** Kept entries carry distinct tokens, all new to `seen`; `seen` grows by exactly those. */
  lemma {:induction false} RetainTokens(keys: seq<u64>, table: Table, live: set<u64>, seen: set<Identity>)
    requires forall k :: k in keys ==> k in table
    requires Increasing(keys)
    ensures var r := RetainFrom(keys, table, live, seen);
            && Injective(r.table)
            && (forall k :: k in r.table ==> r.table[k] !in seen)
            && r.seen == seen + r.table.Values
    decreases |keys|
  {
    if keys == [] {
      var none: Table := map[];
      assert seen == seen + none.Values;
    } else {
      var k := keys[0];
      if k in live && table[k] !in seen {
        var rest := RetainFrom(keys[1..], table, live, seen + {table[k]});
        RetainTokens(keys[1..], table, live, seen + {table[k]});
        RetainKeys(keys[1..], table, live, seen + {table[k]});
        assert k !in rest.table;
        assert rest.table[k := table[k]].Values == rest.table.Values + {table[k]} by {
          ValuesOfInsert(rest.table, k, table[k]);
        }
      } else {
        RetainTokens(keys[1..], table, live, seen);
      }
    }
  }

  lemma ValuesOfInsert(t: Table, k: u64, v: Identity)
    requires k !in t
    ensures t[k := v].Values == t.Values + {v}
  {
    var after := t[k := v];
    forall x | x in t.Values ensures x in after.Values {
      var i :| i in t && t[i] == x;
      assert after[i] == x;
    }
    assert after[k] == v;
  }

  /** Only a dead session or a token kept for an earlier one is dropped. */
  lemma {:induction false} RetainDropsOnly(
    keys: seq<u64>, table: Table, live: set<u64>, seen: set<Identity>, k: u64)
    requires forall x :: x in keys ==> x in table
    requires k in keys && k in live
    ensures var r := RetainFrom(keys, table, live, seen);
            k in r.table || table[k] in r.seen
    ensures seen <= RetainFrom(keys, table, live, seen).seen
    decreases |keys|
  {
    var head := keys[0];
    RetainGrows(keys[1..], table, live, seen);
    RetainGrows(keys[1..], table, live, seen + {table[head]});
    if k in keys[1..] {
      RetainDropsOnly(keys[1..], table, live, seen, k);
      RetainDropsOnly(keys[1..], table, live, seen + {table[head]}, k);
    } else {
      assert keys == [head] + keys[1..];
    }
  }

  lemma {:induction false} RetainGrows(keys: seq<u64>, table: Table, live: set<u64>, seen: set<Identity>)
    requires forall k :: k in keys ==> k in table
    ensures seen <= RetainFrom(keys, table, live, seen).seen
    decreases |keys|
  {
    if keys != [] {
      RetainGrows(keys[1..], table, live, seen);
      RetainGrows(keys[1..], table, live, seen + {table[keys[0]]});
    }
  }

  /** A table of live sessions with distinct, unseen tokens is kept verbatim. */
  lemma {:induction false} RetainVerbatim(keys: seq<u64>, table: Table, live: set<u64>, seen: set<Identity>)
    requires forall k :: k in keys ==> k in table && k in live && table[k] !in seen
    requires Injective(table) && Increasing(keys)
    ensures RetainFrom(keys, table, live, seen).table == map k | k in keys :: table[k]
    decreases |keys|
  {
    if keys == [] {
    } else {
      var k := keys[0];
      assert forall x :: x in keys[1..] ==> x in keys && x != k;
      RetainVerbatim(keys[1..], table, live, seen + {table[k]});
      assert forall x :: x in keys <==> x == k || x in keys[1..];
    }
  }

  lemma RetainAll(table: Table, live: set<u64>, seen: set<Identity>)
    requires table.Keys <= live && Injective(table)
    requires forall k :: k in table ==> table[k] !in seen
    ensures Retain(table, live, seen).table == table
    ensures Retain(table, live, seen).seen == seen + table.Values
  {
    AscendingMembers(table.Keys);
    AscendingIncreases(table.Keys);
    RetainVerbatim(Ascending(table.Keys), table, live, seen);
    RetainTokens(Ascending(table.Keys), table, live, seen);
  }

  lemma RetainIsClean(table: Table, live: set<u64>, seen: set<Identity>)
    ensures var r := Retain(table, live, seen);
            && r.table.Keys <= live && r.table.Keys <= table.Keys
            && (forall k :: k in r.table ==> r.table[k] == table[k] && r.table[k] !in seen)
            && Injective(r.table) && r.seen == seen + r.table.Values
  {
    AscendingMembers(table.Keys);
    AscendingIncreases(table.Keys);
    RetainKeys(Ascending(table.Keys), table, live, seen);
    RetainTokens(Ascending(table.Keys), table, live, seen);
  }

  /** `k` is a live session, its token new to `seen` and held by no live session before it. */
  predicate Survives(table: Table, live: set<u64>, seen: set<Identity>, k: u64) {
    && k in table && k in live && table[k] !in seen
    && forall j :: j in table && j in live && j < k ==> table[j] != table[k]
  }

  /** The tokens of the entries that survive. */
  function SurvivingTokens(table: Table, live: set<u64>): set<Identity> {
    set k | k in table && Survives(table, live, {}, k) :: table[k]
  }

  /** What is kept of a table, from these keys on: a live session whose token no live one before it holds. */
  lemma {:induction false} RetainsFirstHolders(keys: seq<u64>, table: Table, live: set<u64>, seen: set<Identity>,
                                               k: u64)
    requires Increasing(keys) && forall x :: x in keys ==> x in table
    ensures k in RetainFrom(keys, table, live, seen).table
            <==> k in keys && k in live && table[k] !in seen
                 && forall j :: j in keys && j in live && j < k ==> table[j] != table[k]
    decreases |keys|
  {
    if keys != [] {
      var head, rest := keys[0], keys[1..];
      assert forall x :: x in keys <==> x == head || x in rest;
      assert forall x :: x in rest ==> head < x;
      if head in live && table[head] !in seen {
        RetainsFirstHolders(rest, table, live, seen + {table[head]}, k);
        RetainKeys(rest, table, live, seen + {table[head]});
      } else {
        RetainsFirstHolders(rest, table, live, seen, k);
      }
    }
  }

  /** The cut of a table keeps exactly the entries that survive. */
  lemma RetainKeepsSurvivors(table: Table, live: set<u64>, seen: set<Identity>)
    ensures forall k :: k in Retain(table, live, seen).table <==> Survives(table, live, seen, k)
  {
    AscendingMembers(table.Keys);
    AscendingIncreases(table.Keys);
    forall k ensures k in Retain(table, live, seen).table <==> Survives(table, live, seen, k) {
      RetainsFirstHolders(Ascending(table.Keys), table, live, seen, k);
    }
  }

  lemma RetainedTokensAreSurviving(table: Table, live: set<u64>)
    ensures Retain(table, live, {}).table.Values == SurvivingTokens(table, live)
  {
    var r := Retain(table, live, {}).table;
    RetainKeepsSurvivors(table, live, {});
    RetainIsClean(table, live, {});
    forall v | v in r.Values ensures v in SurvivingTokens(table, live) {
      var k :| k in r && r[k] == v;
      assert Survives(table, live, {}, k);
    }
    forall v | v in SurvivingTokens(table, live) ensures v in r.Values {
      var k :| k in table && Survives(table, live, {}, k) && table[k] == v;
      assert r[k] == v;
    }
  }

  /** A table of live sessions with distinct tokens survives whole. */
  lemma AllSurvive(table: Table, live: set<u64>, seen: set<Identity>, k: u64)
    requires table.Keys <= live && Injective(table) && k in table && table[k] !in seen
    ensures Survives(table, live, seen, k)
  {
  }

  // ---- minting the missing tokens -------------------------------------------

  datatype Filled = Filled(table: Option<Table>, position: nat)

  /** A token for every listed session that has none, avoiding `others` and the table itself. */
  function FillFrom(
    ids: seq<u64>, table: Table, others: set<Identity>, draws: nat -> Draw, position: nat): Filled
    decreases |ids|
  {
    if ids == [] then Filled(Some(table), position)
    else if ids[0] in table then FillFrom(ids[1..], table, others, draws, position)
    else
      var m := Mint(draws, position, table.Values + others, MAX_ATTEMPTS);
      if m.identity.None? then Filled(None, m.position)
      else FillFrom(ids[1..], table[ids[0] := m.identity.value], others, draws, m.position)
  }

  method FillMissing(ids: seq<u64>, table: Table, others: set<Identity>, source: IdentitySource)
    returns (r: Option<Table>, changed: bool)
    modifies source
    ensures Filled(r, source.position) == FillFrom(ids, table, others, source.draws, old(source.position))
    ensures r.Some? ==> (changed <==> r.value != table)
  {
    var filled := table;
    changed := false;
    assert ids[0..] == ids;
    for i := 0 to |ids|
      invariant FillFrom(ids, table, others, source.draws, old(source.position))
                == FillFrom(ids[i..], filled, others, source.draws, source.position)
      invariant forall k :: k in table ==> k in filled && filled[k] == table[k]
      invariant changed <==> filled != table
    {
      assert ids[i..][1..] == ids[i + 1..] && ids[i..][0] == ids[i];
      if ids[i] in filled { continue; }
      var minted := GenerateIdentity(source, filled.Values + others);
      if minted.None? { return None, changed; }
      filled := filled[ids[i] := minted.value];
      assert ids[i] in filled && ids[i] !in table;
      changed := true;
    }
    return Some(filled), changed;
  }

  /** A table whose tokens are all distinct and none of which is among `others`. */
  predicate Apart(table: Table, others: set<Identity>) {
    Injective(table) && forall k :: k in table ==> table[k] !in others
  }

  lemma AddNewToken(table: Table, others: set<Identity>, id: u64, token: Identity)
    requires Apart(table, others) && id !in table && token !in table.Values + others
    ensures Apart(table[id := token], others)
  {
    assert forall k :: k in table ==> table[k] in table.Values;
  }

  lemma ElementsHead(ids: seq<u64>)
    requires ids != []
    ensures Elements(ids) == {ids[0]} + Elements(ids[1..])
  {
    assert ids == [ids[0]] + ids[1..];
  }

  /** Filling keeps what is there, covers every listed session, and keeps all tokens apart. */
  lemma {:induction false} FillCovers(
    ids: seq<u64>, table: Table, others: set<Identity>, draws: nat -> Draw, position: nat)
    requires Apart(table, others)
    ensures var f := FillFrom(ids, table, others, draws, position);
            f.table.Some? ==>
              && f.table.value.Keys == table.Keys + Elements(ids)
              && (forall k :: k in table ==> f.table.value[k] == table[k])
              && Apart(f.table.value, others)
    decreases |ids|
  {
    if ids != [] {
      ElementsHead(ids);
      if ids[0] in table {
        FillCovers(ids[1..], table, others, draws, position);
      } else {
        var m := Mint(draws, position, table.Values + others, MAX_ATTEMPTS);
        MintIsNew(draws, position, table.Values + others, MAX_ATTEMPTS);
        if m.identity.Some? {
          AddNewToken(table, others, ids[0], m.identity.value);
          FillCovers(ids[1..], table[ids[0] := m.identity.value], others, draws, m.position);
        }
      }
    }
  }

  /** A table that covers every listed session is kept, and nothing is drawn. */
  lemma {:induction false} FillNothing(
    ids: seq<u64>, table: Table, others: set<Identity>, draws: nat -> Draw, position: nat)
    requires forall id :: id in ids ==> id in table
    ensures FillFrom(ids, table, others, draws, position) == Filled(Some(table), position)
    decreases |ids|
  {
    if ids != [] {
      assert ids[0] in ids;
      FillNothing(ids[1..], table, others, draws, position);
    }
  }
}
