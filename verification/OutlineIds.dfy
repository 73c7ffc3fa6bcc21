/** Which id every item of an outline gets, repeated and missing ids included, and where references to old
    ids are sent (src/core/outline.py: ensure_outline_ids). */
module OutlineIds {
  import opened Text
  import opened Outline

  /** Item k keeps its id: ids are not renewed, it has one, and no earlier item has the same. */
  ghost predicate Keeps(flat: seq<Option<string>>, renew: bool, k: nat)
    requires k < |flat|
  {
    !renew && flat[k].Some? && forall j :: 0 <= j < k ==> flat[j] != flat[k]
  }

  /** How many of the first n items do not keep theirs. */
  ghost function Renewed(flat: seq<Option<string>>, renew: bool, n: nat): nat
    requires n <= |flat|
  {
    if n == 0 then 0 else Renewed(flat, renew, n - 1) + if Keeps(flat, renew, n - 1) then 0 else 1
  }

  /** Item k is the first that loses the id it has. */
  ghost predicate LosesFirst(flat: seq<Option<string>>, renew: bool, id: string, k: nat) {
    k < |flat| && flat[k] == Some(id) && !Keeps(flat, renew, k)
    && forall j :: 0 <= j < k && flat[j] == Some(id) ==> Keeps(flat, renew, j)
  }

  /** Some item loses the id. */
  ghost predicate IsLost(flat: seq<Option<string>>, renew: bool, id: string) {
    exists k: nat :: LosesFirst(flat, renew, id, k)
  }

  /** Every item keeps its id or gets the next new one. */
  ghost predicate AreGiven(flat: seq<Option<string>>, renew: bool, supply: Supply, ids: seq<string>) {
    |ids| == |flat| && forall k :: 0 <= k < |flat| ==>
      ids[k] == if Keeps(flat, renew, k) then flat[k].value else supply(Renewed(flat, renew, k))
  }

  /** Lost ids, and no others, lead to what the first loser got. */
  ghost predicate AreRemapped(flat: seq<Option<string>>, renew: bool, remap: map<string, string>, ids: seq<string>) {
    && |ids| == |flat|
    && (forall id :: id in remap <==> IsLost(flat, renew, id))
    && (forall id, k: nat :: LosesFirst(flat, renew, id, k) ==> id in remap && remap[id] == ids[k])
  }

  ghost predicate IdsAre(flat: seq<Option<string>>, renew: bool, supply: Supply, c: Claims, ids: seq<string>) {
    && AreGiven(flat, renew, supply, ids) && AreRemapped(flat, renew, c.remap, ids)
    && c.drawn == Renewed(flat, renew, |flat|) && (forall id :: id in c.seen <==> id in ids)
  }

  lemma KeepsInit(flat: seq<Option<string>>, last: Option<string>, renew: bool, k: nat)
    requires k < |flat|
    ensures Keeps(flat + [last], renew, k) == Keeps(flat, renew, k)
  {
    var all := flat + [last];
    assert forall j :: 0 <= j <= k ==> all[j] == flat[j];
  }

  lemma {:induction false} RenewedInit(flat: seq<Option<string>>, last: Option<string>, renew: bool, n: nat)
    requires n <= |flat|
    ensures Renewed(flat + [last], renew, n) == Renewed(flat, renew, n)
  {
    if n > 0 {
      KeepsInit(flat, last, renew, n - 1);
      RenewedInit(flat, last, renew, n - 1);
    }
  }

  lemma LosesInit(flat: seq<Option<string>>, last: Option<string>, renew: bool, id: string, k: nat)
    requires k < |flat|
    ensures LosesFirst(flat + [last], renew, id, k) <==> LosesFirst(flat, renew, id, k)
  {
    hide Keeps;
    var all := flat + [last];
    assert forall j :: 0 <= j <= k ==> all[j] == flat[j];
    forall j | 0 <= j <= k ensures Keeps(all, renew, j) == Keeps(flat, renew, j) { KeepsInit(flat, last, renew, j); }
  }

  lemma LosesLast(flat: seq<Option<string>>, last: Option<string>, renew: bool, id: string)
    ensures LosesFirst(flat + [last], renew, id, |flat|) <==>
      last == Some(id) && !Keeps(flat + [last], renew, |flat|) && !IsLost(flat, renew, id)
  {
    var all, n := flat + [last], |flat|;
    forall k: nat | k < n ensures Keeps(all, renew, k) == Keeps(flat, renew, k) && all[k] == flat[k] {
      KeepsInit(flat, last, renew, k);
    }
    hide Keeps;
    if exists j :: 0 <= j < n && flat[j] == Some(id) && !Keeps(flat, renew, j) {
      var j :| 0 <= j < n && flat[j] == Some(id) && !Keeps(flat, renew, j);
      var m := FirstLoser(flat, renew, id, j);
    }
  }

  lemma FirstLoser(flat: seq<Option<string>>, renew: bool, id: string, j: nat) returns (m: nat)
    requires j < |flat| && flat[j] == Some(id) && !Keeps(flat, renew, j)
    ensures LosesFirst(flat, renew, id, m)
    decreases j
  {
    hide Keeps;
    if k: nat :| k < j && flat[k] == Some(id) && !Keeps(flat, renew, k) {
      m := FirstLoser(flat, renew, id, k);
    } else {
      m := j;
    }
  }

  /** The last item keeps its id exactly when the id has not been given out yet. */
  lemma KeepsLast(flat: seq<Option<string>>, last: Option<string>, renew: bool, supply: Supply, c: Claims,
      ids: seq<string>)
    requires FreshSupply(flat + [last], supply)
    requires AreGiven(flat, renew, supply, ids) && forall id :: id in c.seen <==> id in ids
    ensures Keeps(flat + [last], renew, |flat|) <==> !renew && last.Some? && last.value !in c.seen
  {
    var all, n := flat + [last], |flat|;
    assert all[n] == last && forall j :: 0 <= j < n ==> all[j] == flat[j];
    if !renew && last.Some? {
      assert forall i: nat :: supply(i) != all[n].value;
      if last.value in ids { GivenWasStored(flat, renew, supply, ids, last.value); }
      forall j | 0 <= j < n && flat[j] == last ensures last.value in ids {
        SomeoneKeeps(flat, renew, supply, ids, j);
      }
    }
  }

  lemma GivenWasStored(flat: seq<Option<string>>, renew: bool, supply: Supply, ids: seq<string>, id: string)
    requires AreGiven(flat, renew, supply, ids) && id in ids && forall i: nat :: supply(i) != id
    ensures exists k :: 0 <= k < |flat| && flat[k] == Some(id)
  {
    var k :| 0 <= k < |ids| && ids[k] == id;
    assert Keeps(flat, renew, k);
    assert flat[k] == Some(id);
  }

  /** Without renewal an id that is stored is given out. */
  lemma SomeoneKeeps(flat: seq<Option<string>>, renew: bool, supply: Supply, ids: seq<string>, j: nat)
    requires AreGiven(flat, renew, supply, ids) && !renew && j < |flat| && flat[j].Some?
    ensures flat[j].value in ids
    decreases j
  {
    if i: nat :| i < j && flat[i] == flat[j] {
      SomeoneKeeps(flat, renew, supply, ids, i);
    } else {
      assert Keeps(flat, renew, j);
      assert ids[j] == flat[j].value;
    }
  }

  lemma NothingIsGiven(renew: bool, supply: Supply)
    ensures IdsAre([], renew, supply, ClaimAll([], renew, supply).0, ClaimAll([], renew, supply).1)
  {
  }

  /** Every item keeps its id or gets the next new uuid; an old id is remapped exactly when an item lost it,
      and then to the new id of the first such item. */
  lemma {:induction false} EveryIdIs(flat: seq<Option<string>>, renew: bool, supply: Supply)
    requires FreshSupply(flat, supply)
    ensures IdsAre(flat, renew, supply, ClaimAll(flat, renew, supply).0, ClaimAll(flat, renew, supply).1)
    decreases |flat|
  {
    hide FreshSupply, IdsAre, ClaimAll, Claim;
    if flat == [] {
      NothingIsGiven(renew, supply);
    } else {
      var init, last := flat[..|flat| - 1], flat[|flat| - 1];
      assert flat == init + [last];
      FreshPrefix(init, last, supply);
      EveryIdIs(init, renew, supply);
      ClaimNext(init, last, renew, supply);
      NextIdIs(init, last, renew, supply, ClaimAll(init, renew, supply).0, ClaimAll(init, renew, supply).1);
    }
  }

  lemma NextIdIs(flat: seq<Option<string>>, last: Option<string>, renew: bool, supply: Supply, c: Claims,
      ids: seq<string>)
    requires FreshSupply(flat + [last], supply) && IdsAre(flat, renew, supply, c, ids)
    ensures var (c', cid) := Claim(c, last, renew, supply);
      IdsAre(flat + [last], renew, supply, c', ids + [cid])
  {
    hide FreshSupply, AreGiven, AreRemapped, Keeps, Renewed;
    KeepsLast(flat, last, renew, supply, c, ids);
    var all, r := flat + [last], Claim(c, last, renew, supply);
    RenewedInit(flat, last, renew, |flat|);
    RenewedNext(all, renew, |flat|);
    GivenNext(flat, last, renew, supply, ids, r.1);
    if Keeps(all, renew, |flat|) || last.None? {
      RemapStays(flat, last, renew, c.remap, ids, r.1);
    } else {
      RemapGrows(flat, last.value, renew, c.remap, ids, r.1);
    }
  }

  lemma RenewedNext(flat: seq<Option<string>>, renew: bool, n: nat)
    requires n < |flat|
    ensures Renewed(flat, renew, n + 1) == Renewed(flat, renew, n) + if Keeps(flat, renew, n) then 0 else 1
  {
  }

  lemma GivenNext(flat: seq<Option<string>>, last: Option<string>, renew: bool, supply: Supply, ids: seq<string>,
      cid: string)
    requires AreGiven(flat, renew, supply, ids)
    requires Keeps(flat + [last], renew, |flat|) ==> last == Some(cid)
    requires !Keeps(flat + [last], renew, |flat|) ==> cid == supply(Renewed(flat, renew, |flat|))
    ensures AreGiven(flat + [last], renew, supply, ids + [cid])
  {
    hide Keeps, Renewed;
    var all, n := flat + [last], |flat|;
    RenewedInit(flat, last, renew, n);
    forall k: nat | k < |all| ensures Keeps(all, renew, k) ==> all[k].Some? { KeeperHasId(all, renew, k); }
    forall k: nat | k < n
      ensures ids[k] == if Keeps(all, renew, k) then all[k].value else supply(Renewed(all, renew, k))
    {
      KeepsInit(flat, last, renew, k);
      RenewedInit(flat, last, renew, k);
      KeeperHasId(flat, renew, k);
    }
  }

  lemma KeeperHasId(flat: seq<Option<string>>, renew: bool, k: nat)
    requires k < |flat|
    ensures Keeps(flat, renew, k) ==> flat[k].Some?
  {
  }

  lemma LostNext(flat: seq<Option<string>>, last: Option<string>, renew: bool, id: string)
    ensures IsLost(flat + [last], renew, id) <==>
      IsLost(flat, renew, id) || (last == Some(id) && !Keeps(flat + [last], renew, |flat|))
    ensures forall k: nat :: k < |flat| ==>
        (LosesFirst(flat + [last], renew, id, k) <==> LosesFirst(flat, renew, id, k))
    ensures LosesFirst(flat + [last], renew, id, |flat|) <==>
      last == Some(id) && !Keeps(flat + [last], renew, |flat|) && !IsLost(flat, renew, id)
  {
    hide LosesFirst, Keeps;
    LosesLast(flat, last, renew, id);
    LosesInside(flat, renew);
    LosesInside(flat + [last], renew);
    forall k: nat | k < |flat| ensures LosesFirst(flat + [last], renew, id, k) <==> LosesFirst(flat, renew, id, k) {
      LosesInit(flat, last, renew, id, k);
    }
  }

  lemma RemapStays(flat: seq<Option<string>>, last: Option<string>, renew: bool, remap: map<string, string>,
                   ids: seq<string>, cid: string)
    requires AreRemapped(flat, renew, remap, ids) && (Keeps(flat + [last], renew, |flat|) || last.None?)
    ensures AreRemapped(flat + [last], renew, remap, ids + [cid])
  {
    hide LosesFirst, Keeps, IsLost;
    LosesInside(flat + [last], renew);
    forall id ensures IsLost(flat + [last], renew, id) <==> IsLost(flat, renew, id) { LostNext(flat, last, renew, id); }
    forall id, k: nat | LosesFirst(flat + [last], renew, id, k) ensures id in remap && remap[id] == (ids + [cid])[k] {
      LostNext(flat, last, renew, id);
    }
  }

  lemma RemapGrows(flat: seq<Option<string>>, prior: string, renew: bool, remap: map<string, string>,
                   ids: seq<string>, cid: string)
    requires AreRemapped(flat, renew, remap, ids) && !Keeps(flat + [Some(prior)], renew, |flat|)
    ensures AreRemapped(flat + [Some(prior)], renew, if prior in remap then remap else remap[prior := cid], ids + [cid])
  {
    hide LosesFirst, Keeps, IsLost;
    var last, remap' := Some(prior), if prior in remap then remap else remap[prior := cid];
    LosesInside(flat + [last], renew);
    forall id ensures id in remap' <==> IsLost(flat + [last], renew, id) { LostNext(flat, last, renew, id); }
    forall id, k: nat | LosesFirst(flat + [last], renew, id, k) ensures id in remap' && remap'[id] == (ids + [cid])[k] {
      LostNext(flat, last, renew, id);
    }
  }

  lemma LosesInside(flat: seq<Option<string>>, renew: bool)
    ensures forall id, k: nat :: LosesFirst(flat, renew, id, k) ==> k < |flat|
  {
  }
}
