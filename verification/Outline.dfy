/** Stable identities of an outline (src/core/outline.py): every chapter and section gets an id, and
    builds_on references are stored as id tokens. */
module Outline {
  import opened Text

  /** id is what _valid_id reads from the stored item: a canonical uuid, or nothing. */
  datatype Section = Section(id: Option<string>, buildsOn: seq<string>)
  datatype Chapter = Chapter(id: Option<string>, sections: seq<Section>)
  type Doc = seq<Chapter>

  // ---------- ensure_outline_ids ----------

  /** The ids of a document in document order: each chapter, then its sections. */
  function SectionIds(sections: seq<Section>): (r: seq<Option<string>>)
    ensures |r| == |sections| && forall k :: 0 <= k < |r| ==> r[k] == sections[k].id
  {
    seq(|sections|, k requires 0 <= k < |sections| => sections[k].id)
  }

  function Flat(doc: Doc): seq<Option<string>> {
    if doc == [] then []
    else
      var ch := doc[|doc| - 1];
      Flat(doc[..|doc| - 1]) + [ch.id] + SectionIds(ch.sections)
  }

  /** The document with its ids replaced, in document order. */
  function WithIds(doc: Doc, ids: seq<string>): Doc
    requires |ids| == |Flat(doc)|
  {
    if doc == [] then []
    else
      var init, ch := doc[..|doc| - 1], doc[|doc| - 1];
      var k := |Flat(init)|;
      WithIds(init, ids[..k]) + [Chapter(Some(ids[k]), WithSectionIds(ch.sections, ids[k + 1..]))]
  }

  function WithSectionIds(sections: seq<Section>, ids: seq<string>): (r: seq<Section>)
    requires |ids| == |sections|
    ensures |r| == |sections| && forall k :: 0 <= k < |r| ==> r[k] == sections[k].(id := Some(ids[k]))
  {
    seq(|sections|, k requires 0 <= k < |sections| => sections[k].(id := Some(ids[k])))
  }

  /** What _claim closes over: the ids given out, the remapping, and how many new uuids were drawn. */
  datatype Claims = Claims(seen: set<string>, remap: map<string, string>, drawn: nat)

  /** The uuids uuid4() will return, in order. */
  type Supply = nat -> string

  function Claim(c: Claims, prior: Option<string>, renew: bool, supply: Supply): (Claims, string) {
    if renew || prior.None? || prior.value in c.seen then
      var cid := supply(c.drawn);
      var remap := if prior.Some? && prior.value !in c.remap then c.remap[prior.value := cid] else c.remap;
      (Claims(c.seen + {cid}, remap, c.drawn + 1), cid)
    else (c.(seen := c.seen + {prior.value}), prior.value)
  }

  const NOTHING := Claims({}, map[], 0)

  function ClaimAll(flat: seq<Option<string>>, renew: bool, supply: Supply): (r: (Claims, seq<string>))
    ensures |r.1| == |flat|
  {
    if flat == [] then (NOTHING, [])
    else
      var (c, ids) := ClaimAll(flat[..|flat| - 1], renew, supply);
      var (c', cid) := Claim(c, flat[|flat| - 1], renew, supply);
      (c', ids + [cid])
  }

  function Identified(doc: Doc, renew: bool, supply: Supply): Doc {
    WithIds(doc, ClaimAll(Flat(doc), renew, supply).1)
  }

  function Remap(doc: Doc, renew: bool, supply: Supply): map<string, string> {
    ClaimAll(Flat(doc), renew, supply).0.remap
  }

  lemma ClaimNext(flat: seq<Option<string>>, item: Option<string>, renew: bool, supply: Supply)
    ensures var (c, ids) := ClaimAll(flat, renew, supply);
      var (c', cid) := Claim(c, item, renew, supply);
      ClaimAll(flat + [item], renew, supply) == (c', ids + [cid])
  {
    assert (flat + [item])[..|flat|] == flat;
    hide Claim;
  }

  lemma WithIdsNext(doc: Doc, ch: Chapter, ids: seq<string>, chapterId: string, secIds: seq<string>)
    requires |ids| == |Flat(doc)| && |secIds| == |ch.sections|
    ensures Flat(doc + [ch]) == Flat(doc) + [ch.id] + SectionIds(ch.sections)
    ensures WithIds(doc + [ch], ids + [chapterId] + secIds)
        == WithIds(doc, ids) + [Chapter(Some(chapterId), WithSectionIds(ch.sections, secIds))]
  {
    var all := ids + [chapterId] + secIds;
    assert (doc + [ch])[..|doc|] == doc;
    assert all[..|ids|] == ids && all[|ids|] == chapterId && all[|ids| + 1..] == secIds;
  }

  /** The inner loop of ensure_outline_ids. */
  method ClaimSections(c0: Claims, sections: seq<Section>, renew: bool, supply: Supply,
      ghost flat: seq<Option<string>>, ghost ids: seq<string>)
    returns (c: Claims, out: seq<Section>, ghost secIds: seq<string>)
    requires (c0, ids) == ClaimAll(flat, renew, supply)
    ensures |secIds| == |sections| && out == WithSectionIds(sections, secIds)
    ensures (c, ids + secIds) == ClaimAll(flat + SectionIds(sections), renew, supply)
  {
    hide Claim, ClaimAll;
    c, out, secIds := c0, [], [];
    assert flat + SectionIds(sections)[..0] == flat && ids + secIds == ids;
    for si := 0 to |sections|
      invariant (c, ids + secIds) == ClaimAll(flat + SectionIds(sections)[..si], renew, supply)
      invariant |secIds| == si && out == WithSectionIds(sections[..si], secIds)
    {
      var sec := sections[si];
      ClaimNext(flat + SectionIds(sections)[..si], sec.id, renew, supply);
      assert flat + SectionIds(sections)[..si + 1] == flat + SectionIds(sections)[..si] + [sec.id];
      var (c', secId) := Claim(c, sec.id, renew, supply);
      assert ids + (secIds + [secId]) == ids + secIds + [secId];
      c, secIds, out := c', secIds + [secId], out + [sec.(id := Some(secId))];
    }
    assert SectionIds(sections)[..|sections|] == SectionIds(sections) && sections[..|sections|] == sections;
  }

  /** The chapters done so far, with the ids given out for them. */
  ghost predicate Given(done: Doc, c: Claims, ids: seq<string>, out: Doc, renew: bool, supply: Supply) {
    (c, ids) == ClaimAll(Flat(done), renew, supply) && |ids| == |Flat(done)| && out == WithIds(done, ids)
  }

  /** One pass of the outer loop of ensure_outline_ids. */
  method ClaimChapter(c0: Claims, chapter: Chapter, renew: bool, supply: Supply, ghost done: Doc,
      ghost ids0: seq<string>, ghost out: Doc)
    returns (c: Claims, item: Chapter, ghost ids: seq<string>)
    requires Given(done, c0, ids0, out, renew, supply)
    ensures Given(done + [chapter], c, ids, out + [item], renew, supply)
  {
    hide Claim, ClaimAll, Flat, WithIds;
    ghost var flat := Flat(done);
    ClaimNext(flat, chapter.id, renew, supply);
    var (c1, chapterId) := Claim(c0, chapter.id, renew, supply);
    ghost var secIds;
    var sections;
    c, sections, secIds := ClaimSections(c1, chapter.sections, renew, supply, flat + [chapter.id], ids0 + [chapterId]);
    WithIdsNext(done, chapter, ids0, chapterId, secIds);
    item, ids := Chapter(Some(chapterId), sections), ids0 + [chapterId] + secIds;
  }

  /** ensure_outline_ids */
  method EnsureOutlineIds(doc: Doc, renew: bool, supply: Supply) returns (out: Doc, remap: map<string, string>)
    ensures out == Identified(doc, renew, supply) && remap == Remap(doc, renew, supply)
  {
    var c := NOTHING;
    ghost var ids: seq<string> := [];
    out := [];
    for ci := 0 to |doc|
      invariant Given(doc[..ci], c, ids, out, renew, supply)
    {
      hide Given;
      var item;
      c, item, ids := ClaimChapter(c, doc[ci], renew, supply, doc[..ci], ids, out);
      out := out + [item];
      assert doc[..ci + 1] == doc[..ci] + [doc[ci]];
    }
    assert doc[..|doc|] == doc;
    remap := c.remap;
  }

  // ---------- Ids are unique and stable ----------

  /** uuid4 never repeats itself, and never returns an id that the document already has. */
  ghost predicate FreshSupply(flat: seq<Option<string>>, supply: Supply) {
    && (forall i: nat, j: nat :: i < j ==> supply(i) != supply(j))
    && (forall i: nat, k :: 0 <= k < |flat| && flat[k].Some? ==> supply(i) != flat[k].value)
  }

  /** The id is one of the uuids drawn so far, or was in the document. */
  ghost predicate ComesFrom(id: string, flat: seq<Option<string>>, drawn: nat, supply: Supply) {
    (exists i: nat :: i < drawn && supply(i) == id) || Some(id) in flat
  }

  ghost predicate GivenOut(flat: seq<Option<string>>, c: Claims, ids: seq<string>, supply: Supply) {
    && Distinct(ids) && (forall id :: id in c.seen <==> id in ids)
    && forall id :: id in ids ==> ComesFrom(id, flat, c.drawn, supply)
  }

  lemma DrawnIsNew(flat: seq<Option<string>>, c: Claims, ids: seq<string>, supply: Supply)
    requires FreshSupply(flat, supply) && forall id :: id in ids ==> ComesFrom(id, flat, c.drawn, supply)
    ensures supply(c.drawn) !in ids
  {
    forall id | id in ids ensures id != supply(c.drawn) { assert ComesFrom(id, flat, c.drawn, supply); }
  }

  lemma ClaimIsNew(init: seq<Option<string>>, last: Option<string>, c: Claims, ids: seq<string>, renew: bool,
      supply: Supply)
    requires FreshSupply(init, supply) && GivenOut(init, c, ids, supply)
    ensures var (c', cid) := Claim(c, last, renew, supply);
      cid !in ids && c'.seen == c.seen + {cid} && c.drawn <= c'.drawn && ComesFrom(cid, init + [last], c'.drawn, supply)
  {
    hide Distinct;
    assert (init + [last])[|init|] == last;
    DrawnIsNew(init, c, ids, supply);
  }

  lemma FreshPrefix(init: seq<Option<string>>, last: Option<string>, supply: Supply)
    requires FreshSupply(init + [last], supply)
    ensures FreshSupply(init, supply)
  {
    forall i: nat, k | 0 <= k < |init| && init[k].Some? ensures supply(i) != init[k].value {
      assert (init + [last])[k] == init[k];
    }
  }

  lemma DistinctSnoc(ids: seq<string>, id: string)
    requires Distinct(ids) && id !in ids
    ensures Distinct(ids + [id])
  {
  }

  /** Ids given out are distinct, whatever ids the document had. */
  lemma {:induction false} ClaimsAreDistinct(flat: seq<Option<string>>, renew: bool, supply: Supply)
    requires FreshSupply(flat, supply)
    ensures GivenOut(flat, ClaimAll(flat, renew, supply).0, ClaimAll(flat, renew, supply).1, supply)
    decreases |flat|
  {
    hide ClaimAll, Claim, FreshSupply, Distinct;
    if flat == [] {
      NothingClaimed(renew, supply);
    } else {
      var init, last := flat[..|flat| - 1], flat[|flat| - 1];
      assert flat == init + [last];
      FreshPrefix(init, last, supply);
      ClaimsAreDistinct(init, renew, supply);
      var (c, ids) := ClaimAll(init, renew, supply);
      ClaimNext(init, last, renew, supply);
      ClaimIsNew(init, last, c, ids, renew, supply);
      DistinctSnoc(ids, Claim(c, last, renew, supply).1);
      assert forall id :: Some(id) in init ==> Some(id) in flat;
    }
  }

  lemma NothingClaimed(renew: bool, supply: Supply)
    ensures GivenOut([], ClaimAll([], renew, supply).0, ClaimAll([], renew, supply).1, supply)
  {
  }

  function Moved(remap: map<string, string>, id: string): string {
    if id in remap then remap[id] else id
  }

  ghost predicate DistinctItems(flat: seq<Option<string>>) {
    forall i, j :: 0 <= i < j < |flat| && flat[i].Some? ==> flat[i] != flat[j]
  }

  /** An id that occurs once has not been given out before its item is reached. */
  lemma NotClaimedYet(init: seq<Option<string>>, last: Option<string>, renew: bool, supply: Supply)
    requires FreshSupply(init + [last], supply) && last !in init && last.Some?
    ensures last.value !in ClaimAll(init, renew, supply).0.seen
  {
    hide ClaimAll, Distinct;
    assert (init + [last])[|init|] == last;
    FreshPrefix(init, last, supply);
    ClaimsAreDistinct(init, renew, supply);
    var (c, ids) := ClaimAll(init, renew, supply);
    forall id | id in ids ensures id != last.value { assert ComesFrom(id, init, c.drawn, supply); }
  }

  ghost predicate Follows(flat: seq<Option<string>>, c: Claims, ids: seq<string>, renew: bool)
    requires |flat| == |ids|
  {
    && (forall k :: 0 <= k < |flat| && flat[k].Some? ==>
        Moved(c.remap, flat[k].value) == ids[k] && (!renew ==> ids[k] == flat[k].value))
    && (forall id :: id in c.remap ==> Some(id) in flat && renew)
  }

  lemma FollowsNext(init: seq<Option<string>>, last: Option<string>, c: Claims, ids: seq<string>, renew: bool,
      supply: Supply)
    requires |init| == |ids| && Follows(init, c, ids, renew)
    requires last.Some? ==> last !in init && last.value !in c.seen
    ensures var (c', cid) := Claim(c, last, renew, supply); Follows(init + [last], c', ids + [cid], renew)
  {
    var flat := init + [last];
    assert forall k :: 0 <= k < |init| ==> flat[k] == init[k] && init[k] in init;
    assert forall id :: Some(id) in init ==> Some(id) in flat;
    assert last in flat;
  }

  /** When the document's ids are distinct, following the remapping leads from every old id to the
      id its item has now: unchanged in the preserving mode, renewed in the fresh mode. */
  lemma {:induction false} RemapFollowsItems(flat: seq<Option<string>>, renew: bool, supply: Supply)
    requires FreshSupply(flat, supply) && DistinctItems(flat)
    ensures Follows(flat, ClaimAll(flat, renew, supply).0, ClaimAll(flat, renew, supply).1, renew)
    decreases |flat|
  {
    hide ClaimAll, Claim, FreshSupply, Follows;
    if flat == [] {
      NothingFollows(renew, supply);
    } else {
      var init, last := flat[..|flat| - 1], flat[|flat| - 1];
      assert flat == init + [last];
      FreshPrefix(init, last, supply);
      RemapFollowsItems(init, renew, supply);
      if last.Some? {
        assert last !in init;
        NotClaimedYet(init, last, renew, supply);
      }
      var (c, ids) := ClaimAll(init, renew, supply);
      ClaimNext(init, last, renew, supply);
      FollowsNext(init, last, c, ids, renew, supply);
    }
  }

  lemma NothingFollows(renew: bool, supply: Supply)
    ensures Follows([], ClaimAll([], renew, supply).0, ClaimAll([], renew, supply).1, renew)
  {
  }

  // ---------- Positions ----------

  /** Where the items of chapter ci begin in document order. */
  function Offset(doc: Doc, ci: nat): nat
    requires ci <= |doc|
  {
    |Flat(doc[..ci])|
  }

  lemma OffsetNext(doc: Doc, ci: nat)
    requires ci < |doc|
    ensures Offset(doc, ci + 1) == Offset(doc, ci) + 1 + |doc[ci].sections|
  {
    assert doc[..ci + 1][..ci] == doc[..ci];
  }

  lemma {:induction false} OffsetsRise(doc: Doc, ci: nat, cj: nat)
    requires ci < cj <= |doc|
    ensures Offset(doc, ci) + 1 + |doc[ci].sections| <= Offset(doc, cj)
    decreases cj
  {
    OffsetNext(doc, cj - 1);
    if ci < cj - 1 { OffsetsRise(doc, ci, cj - 1); }
  }

  /** Chapter ci and its sections stand at off, off + 1, ... in document order, and out has the ids
      found there. */
  ghost predicate ItemsStandAt(doc: Doc, flat: seq<Option<string>>, ids: seq<string>, out: Doc, ci: nat, off: nat) {
    && ci < |doc| && ci < |out| && |flat| == |ids| && off + |doc[ci].sections| < |ids|
    && flat[off] == doc[ci].id && out[ci].id == Some(ids[off])
    && |out[ci].sections| == |doc[ci].sections|
    && forall si :: 0 <= si < |doc[ci].sections| ==>
         flat[off + 1 + si] == doc[ci].sections[si].id
             && out[ci].sections[si] == doc[ci].sections[si].(id := Some(ids[off + 1 + si]))
  }

  lemma ItemsStandInExtension(doc: Doc, flat: seq<Option<string>>, ids: seq<string>, out: Doc, ci: nat, off: nat,
                              doc': Doc, flat': seq<Option<string>>, ids': seq<string>, out': Doc)
    requires ItemsStandAt(doc, flat, ids, out, ci, off)
    requires doc <= doc' && flat <= flat' && ids <= ids' && out <= out' && |flat'| == |ids'|
    ensures ItemsStandAt(doc', flat', ids', out', ci, off)
  {
  }

  lemma LastItemsStand(doc: Doc, ch: Chapter, ids: seq<string>, chapterId: string, secIds: seq<string>)
    requires |ids| == |Flat(doc)| && |secIds| == |ch.sections| && |WithIds(doc, ids)| == |doc|
    ensures ItemsStandAt(doc + [ch], Flat(doc) + [ch.id] + SectionIds(ch.sections), ids + [chapterId] + secIds,
                         WithIds(doc, ids) + [Chapter(Some(chapterId), WithSectionIds(ch.sections, secIds))],
                         |doc|, |ids|)
  {
    hide Flat, WithIds;
    LastItems(doc, ch, Flat(doc), ids, WithIds(doc, ids), chapterId, secIds);
  }

  lemma LastItems(doc: Doc, ch: Chapter, flat: seq<Option<string>>, ids: seq<string>, out: Doc,
                  chapterId: string, secIds: seq<string>)
    requires |ids| == |flat| && |secIds| == |ch.sections| && |out| == |doc|
    ensures ItemsStandAt(doc + [ch], flat + [ch.id] + SectionIds(ch.sections), ids + [chapterId] + secIds,
                         out + [Chapter(Some(chapterId), WithSectionIds(ch.sections, secIds))], |doc|, |ids|)
  {
    var flat', ids', k := flat + [ch.id] + SectionIds(ch.sections), ids + [chapterId] + secIds, |ids|;
    forall si | 0 <= si < |secIds| ensures flat'[k + 1 + si] == ch.sections[si].id && ids'[k + 1 + si] == secIds[si] {
      assert flat'[k + 1 + si] == SectionIds(ch.sections)[si];
    }
  }

  /** The item of chapter ci, and of its si-th section, in document order. */
  lemma {:induction false} ItemsAt(doc: Doc, ids: seq<string>, ci: nat)
    requires ci < |doc| && |ids| == |Flat(doc)|
    ensures ItemsStandAt(doc, Flat(doc), ids, WithIds(doc, ids), ci, Offset(doc, ci))
    decreases |doc|
  {
    var n := |doc| - 1;
    var init, last, k := doc[..n], doc[n], |Flat(doc[..n])|;
    var ids0, secIds := ids[..k], ids[k + 1..];
    assert doc == init + [last] && ids == ids0 + [ids[k]] + secIds;
    LengthOfWithIds(init, ids0);
    WithIdsNext(init, last, ids0, ids[k], secIds);
    if ci < n {
      assert init[..ci] == doc[..ci];
      ItemsAt(init, ids0, ci);
      hide ItemsStandAt, WithSectionIds, SectionIds;
      ItemsStandInExtension(init, Flat(init), ids0, WithIds(init, ids0), ci, Offset(doc, ci), doc, Flat(doc), ids,
          WithIds(doc, ids));
    } else {
      hide ItemsStandAt;
      LastItemsStand(init, last, ids0, ids[k], secIds);
    }
  }

  lemma {:induction false} LengthOfWithIds(doc: Doc, ids: seq<string>)
    requires |ids| == |Flat(doc)|
    ensures |WithIds(doc, ids)| == |doc|
  {
    if doc != [] { LengthOfWithIds(doc[..|doc| - 1], ids[..|Flat(doc[..|doc| - 1])|]); }
  }

  /** The positions of a document hold what they should after ids were given out. */
  ghost predicate HasSection(doc: Doc, id: string, ci: nat, si: nat) {
    ci < |doc| && si < |doc[ci].sections| && doc[ci].sections[si].id == Some(id)
  }

  ghost predicate HasChapter(doc: Doc, id: string, ci: nat) {
    ci < |doc| && doc[ci].id == Some(id)
  }

  ghost predicate UniqueIds(doc: Doc) {
    && (forall id, ci, si, cj, sj :: HasSection(doc, id, ci, si) && HasSection(doc, id, cj, sj) ==>
        ci == cj && si == sj)
    && (forall id, ci, cj :: HasChapter(doc, id, ci) && HasChapter(doc, id, cj) ==> ci == cj)
  }

  ghost predicate AllIdentified(doc: Doc) {
    forall ci :: 0 <= ci < |doc| ==> doc[ci].id.Some? && forall si :: 0 <= si < |doc[ci].sections| ==>
        doc[ci].sections[si].id.Some?
  }

  /** Distinct ids put into a document stay distinct. */
  lemma DistinctIdsStayDistinct(doc: Doc, ids: seq<string>)
    requires |ids| == |Flat(doc)| && Distinct(ids)
    ensures UniqueIds(WithIds(doc, ids)) && AllIdentified(WithIds(doc, ids))
  {
    hide Flat, WithIds;
    var out := WithIds(doc, ids);
    LengthOfWithIds(doc, ids);
    forall id, ci, si, cj, sj | HasSection(out, id, ci, si) && HasSection(out, id, cj, sj)
        ensures ci == cj && si == sj {
      ItemsAt(doc, ids, ci);
      ItemsAt(doc, ids, cj);
      if ci < cj { OffsetsRise(doc, ci, cj); } else if cj < ci { OffsetsRise(doc, cj, ci); }
    }
    forall id, ci, cj | HasChapter(out, id, ci) && HasChapter(out, id, cj) ensures ci == cj {
      ItemsAt(doc, ids, ci);
      ItemsAt(doc, ids, cj);
      if ci < cj { OffsetsRise(doc, ci, cj); } else if cj < ci { OffsetsRise(doc, cj, ci); }
    }
    forall ci: nat | ci < |out|
        ensures out[ci].id.Some? && forall si :: 0 <= si < |out[ci].sections| ==> out[ci].sections[si].id.Some? {
      ItemsAt(doc, ids, ci);
    }
  }

  /** Whatever the stored ids were, every item ends up with an id of its own. */
  lemma EveryItemHasItsOwnId(doc: Doc, renew: bool, supply: Supply)
    requires FreshSupply(Flat(doc), supply)
    ensures UniqueIds(Identified(doc, renew, supply)) && AllIdentified(Identified(doc, renew, supply))
  {
    hide FreshSupply, ClaimAll, Distinct, UniqueIds, AllIdentified, Flat, WithIds;
    ClaimsAreDistinct(Flat(doc), renew, supply);
    DistinctIdsStayDistinct(doc, ClaimAll(Flat(doc), renew, supply).1);
  }
}
