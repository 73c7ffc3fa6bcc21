/** What normalisation does to the dependency edges of an outline: the builds_on lists of the new
    outline name the same positions as those of the old one (src/core/outline.py). */
module OutlineEdges {
  import opened Text
  import opened BuildsOn
  import opened Tokens
  import opened Outline
  import opened OutlineRefs

  // ---------- One reference ----------

  lemma ItemMoves(doc: Doc, renew: bool, supply: Supply, id: string, ci: nat, si: nat)
    requires FreshSupply(Flat(doc), supply) && DistinctItems(Flat(doc))
    ensures HasSection(doc, id, ci, si) ==>
        HasSection(Identified(doc, renew, supply), Moved(Remap(doc, renew, supply), id), ci, si)
    ensures HasChapter(doc, id, ci) ==>
        HasChapter(Identified(doc, renew, supply), Moved(Remap(doc, renew, supply), id), ci)
  {
    var (c, ids) := ClaimAll(Flat(doc), renew, supply);
    RemapFollowsItems(Flat(doc), renew, supply);
    LengthOfWithIds(doc, ids);
    if ci < |doc| {
      ItemsAt(doc, ids, ci);
    }
    hide ClaimAll, Flat, WithIds, FreshSupply, DistinctItems;
  }

  lemma PositionsAreKept(doc: Doc, renew: bool, supply: Supply, ci: nat)
    requires ci < |doc|
    ensures var given := Identified(doc, renew, supply);
      && |given| == |doc| && |given[ci].sections| == |doc[ci].sections| && given[ci].id.Some?
      && forall si :: 0 <= si < |doc[ci].sections| ==> given[ci].sections[si].id.Some?
  {
    var ids := ClaimAll(Flat(doc), renew, supply).1;
    LengthOfWithIds(doc, ids);
    ItemsAt(doc, ids, ci);
    hide ClaimAll, Flat, WithIds;
  }

  /** A reference to another item normalises to a token that denotes, in the new outline, the item at
      the same position. */
  lemma ReferenceKeepsItsTarget(doc: Doc, renew: bool, supply: Supply, m: Maps, raw: string, selfId: string, t: Target)
    requires FreshSupply(Flat(doc), supply) && DistinctItems(Flat(doc))
    requires Uuids(Identified(doc, renew, supply)) && IsMaps(Identified(doc, renew, supply), m)
    requires Denotes(doc, raw, t)
    requires t.SectionAt? ==> !HasSection(Identified(doc, renew, supply), selfId, t.ci, t.si)
    ensures var r := NormalizeRef(raw, selfId, m, Remap(doc, renew, supply));
      r.Token? && Denotes(Identified(doc, renew, supply), r.token, t)
  {
    var given, remap := Identified(doc, renew, supply), Remap(doc, renew, supply);
    if ParseIdToken(raw).Some? {
      var parsed := ParseIdToken(raw).value;
      Tokens.ParsedIsCanonical(raw);
      ItemMoves(doc, renew, supply, parsed.id, t.ci, if t.SectionAt? then t.si else 0);
      TokenEdge(given, m, raw, parsed, selfId, remap, t);
    } else {
      PositionsAreKept(doc, renew, supply, t.ci);
      NumberEdge(given, m, raw, ParseRef(raw).value, selfId, remap, t);
    }
    hide *;
  }

  lemma TokenEdge(doc: Doc, m: Maps, raw: string, parsed: Tokens.Token, selfId: string, remap: map<string, string>,
      t: Target)
    requires IsMaps(doc, m) && Uuids(doc) && ParseIdToken(raw) == Some(parsed) && Tokens.Canonical(parsed)
    requires match t
      case ChapterAt(ci) => parsed.ChapterToken? && HasChapter(doc, Moved(remap, parsed.id), ci)
      case SectionAt(ci, si, metric) =>
        parsed.SectionToken? && HasSection(doc, Moved(remap, parsed.id), ci, si) && metric == parsed.metric
        && Moved(remap, parsed.id) != selfId
    ensures var r := NormalizeRef(raw, selfId, m, remap); r.Token? && Denotes(doc, r.token, t)
  {
    var id := Moved(remap, parsed.id);
    var moved := if t.ChapterAt? then ChapterToken(id) else SectionToken(id, parsed.metric);
    if t.SectionAt? { assert Seen(|doc|, 0, t.ci, t.si); }
    assert Tokens.Canonical(moved);
    TokenRoundTrip(moved);
    hide ParseIdToken, ParseRef, Format, IsUuid, HasSection, HasChapter, Labelled, Numbered;
  }

  lemma NumberEdge(doc: Doc, m: Maps, raw: string, ref: Ref, selfId: string, remap: map<string, string>, t: Target)
    requires ParseIdToken(raw).None? && ParseRef(raw) == Some(ref)
    requires IsMaps(doc, m) && Uuids(doc) && t.ci < |doc| && ref.chapter == t.ci + 1
    requires t.ChapterAt? ==> ref.section.None? && doc[t.ci].id.Some?
    requires t.SectionAt? ==> ref.section == Some(t.si + 1) && ref.metric == t.metric && t.si < |doc[t.ci].sections|
                              && doc[t.ci].sections[t.si].id.Some? && !HasSection(doc, selfId, t.ci, t.si)
    ensures var r := NormalizeRef(raw, selfId, m, remap); r.Token? && Denotes(doc, r.token, t)
  {
    hide *;
    var t' := if t.ChapterAt? then ChapterToken(doc[t.ci].id.value)
        else SectionToken(doc[t.ci].sections[t.si].id.value, t.metric);
    HasItemAt(doc, m, t);
    BuildsOn.ParsedIsCanonical(raw);
    CanonicalParts(ref);
    IdsAreUuids(doc);
    CanonicalToken(t');
    TokenRoundTrip(t');
    NumberNormalized(raw, ref, selfId, m, remap);
    DenotedByToken(doc, Format(t'), t', t);
  }

  lemma HasItemAt(doc: Doc, m: Maps, t: Target)
    requires IsMaps(doc, m) && t.ci < |doc|
    ensures t.ChapterAt? && doc[t.ci].id.Some? ==>
              var id := doc[t.ci].id.value;
                  HasChapter(doc, id, t.ci) && t.ci + 1 in m.chByNum && m.chByNum[t.ci + 1] == id
    ensures t.SectionAt? && t.si < |doc[t.ci].sections| && doc[t.ci].sections[t.si].id.Some? ==>
              var id := doc[t.ci].sections[t.si].id.value;
              HasSection(doc, id, t.ci, t.si) && (t.ci + 1, t.si + 1) in m.secByPos
                  && m.secByPos[(t.ci + 1, t.si + 1)] == id
    ensures forall id :: t.SectionAt? && !HasSection(doc, id, t.ci, t.si) && t.si < |doc[t.ci].sections| ==>
        doc[t.ci].sections[t.si].id != Some(id)
  {
    hide Labelled, Numbered;
    if t.SectionAt? { assert Seen(|doc|, 0, t.ci, t.si); }
  }

  lemma CanonicalToken(t: Tokens.Token)
    requires IsUuid(t.id) && (t.SectionToken? ==> IsMetric(t.metric))
    ensures Tokens.Canonical(t)
  {
    hide IsUuid, IsMetric;
  }

  lemma DenotedByToken(doc: Doc, token: string, parsed: Tokens.Token, t: Target)
    requires ParseIdToken(token) == Some(parsed)
    requires match t
      case ChapterAt(ci) => parsed.ChapterToken? && HasChapter(doc, parsed.id, ci)
      case SectionAt(ci, si, metric) =>
        parsed.SectionToken? && HasSection(doc, parsed.id, ci, si) && metric == parsed.metric
    ensures Denotes(doc, token, t)
  {
    hide ParseIdToken, ParseRef, HasSection, HasChapter;
  }

  // ---------- Back from a token to its reference ----------

  /** uuid4 never returns an id that a reference of the outline mentions. */
  ghost predicate FreshForReferences(doc: Doc, supply: Supply) {
    forall ci, si, raw, i: nat ::
      0 <= ci < |doc| && 0 <= si < |doc[ci].sections| && raw in doc[ci].sections[si].buildsOn
          && ParseIdToken(raw).Some? ==>
        supply(i) != ParseIdToken(raw).value.id
  }

  /** A stored id that the new outline holds at some place was there in the old one. */
  lemma MovedIsOld(flat: seq<Option<string>>, renew: bool, supply: Supply, id: string, k: nat)
    requires FreshSupply(flat, supply) && DistinctItems(flat) && forall i: nat :: supply(i) != id
    requires k < |flat| && ClaimAll(flat, renew, supply).1[k] == Moved(ClaimAll(flat, renew, supply).0.remap, id)
    ensures flat[k] == Some(id)
  {
    hide ClaimAll, FreshSupply;
    var (c, ids) := ClaimAll(flat, renew, supply);
    RemapFollowsItems(flat, renew, supply);
    ClaimsAreDistinct(flat, renew, supply);
    assert id !in c.remap ==> ComesFrom(ids[k], flat, c.drawn, supply);
    assert Some(id) in flat;
    var j :| 0 <= j < |flat| && flat[j] == Some(id);
    assert ids[j] == ids[k];
  }

  lemma ItemsStand(doc: Doc, renew: bool, supply: Supply, ci: nat)
    requires ci < |doc|
    ensures ItemsStandAt(doc, Flat(doc), ClaimAll(Flat(doc), renew, supply).1, Identified(doc, renew, supply), ci,
        Offset(doc, ci))
    ensures |Identified(doc, renew, supply)| == |doc|
  {
    hide ItemsStandAt, ClaimAll, Flat, WithIds, Offset;
    var ids := ClaimAll(Flat(doc), renew, supply).1;
    LengthOfWithIds(doc, ids);
    ItemsAt(doc, ids, ci);
  }

  lemma IdentifiedLength(doc: Doc, renew: bool, supply: Supply)
    ensures |Identified(doc, renew, supply)| == |doc|
        && Remap(doc, renew, supply) == ClaimAll(Flat(doc), renew, supply).0.remap
  {
    hide ClaimAll, Flat, WithIds;
    LengthOfWithIds(doc, ClaimAll(Flat(doc), renew, supply).1);
  }

  lemma SectionCameFrom(doc: Doc, renew: bool, supply: Supply, id: string, ci: nat, si: nat)
    requires FreshSupply(Flat(doc), supply) && DistinctItems(Flat(doc)) && forall i: nat :: supply(i) != id
    requires HasSection(Identified(doc, renew, supply), Moved(Remap(doc, renew, supply), id), ci, si)
    ensures HasSection(doc, id, ci, si)
  {
    hide ClaimAll, Flat, FreshSupply, DistinctItems, Identified, Remap, Moved, Offset;
    IdentifiedLength(doc, renew, supply);
    ItemsStand(doc, renew, supply, ci);
    MovedIsOld(Flat(doc), renew, supply, id, Offset(doc, ci) + 1 + si);
  }

  lemma ChapterCameFrom(doc: Doc, renew: bool, supply: Supply, id: string, ci: nat)
    requires FreshSupply(Flat(doc), supply) && DistinctItems(Flat(doc)) && forall i: nat :: supply(i) != id
    requires HasChapter(Identified(doc, renew, supply), Moved(Remap(doc, renew, supply), id), ci)
    ensures HasChapter(doc, id, ci)
  {
    hide ClaimAll, Flat, FreshSupply, DistinctItems, Identified, Remap, Moved, Offset;
    IdentifiedLength(doc, renew, supply);
    ItemsStand(doc, renew, supply, ci);
    MovedIsOld(Flat(doc), renew, supply, id, Offset(doc, ci));
  }

  lemma ChapterTokenDenotes(doc: Doc, id: string, ci: nat)
    requires Uuids(doc) && HasChapter(doc, id, ci)
    ensures Denotes(doc, Format(ChapterToken(id)), ChapterAt(ci)) && ParseIdToken(Format(ChapterToken(id))).Some?
  {
    hide *;
    IdsAreUuids(doc);
    CanonicalToken(ChapterToken(id));
    TokenRoundTrip(ChapterToken(id));
    DenotedByToken(doc, Format(ChapterToken(id)), ChapterToken(id), ChapterAt(ci));
  }

  lemma SectionTokenDenotes(doc: Doc, id: string, metric: Option<string>, ci: nat, si: nat)
    requires Uuids(doc) && HasSection(doc, id, ci, si) && IsMetric(metric)
    ensures Denotes(doc, Format(SectionToken(id, metric)), Target.SectionAt(ci, si, metric))
    ensures ParseIdToken(Format(SectionToken(id, metric))).Some?
  {
    hide *;
    IdsAreUuids(doc);
    CanonicalToken(SectionToken(id, metric));
    TokenRoundTrip(SectionToken(id, metric));
    DenotedByToken(doc, Format(SectionToken(id, metric)), SectionToken(id, metric), Target.SectionAt(ci, si, metric));
  }

  lemma ParsedMetric(raw: string)
    requires ParseIdToken(raw).Some? && ParseIdToken(raw).value.SectionToken?
    ensures IsMetric(ParseIdToken(raw).value.metric)
  {
    Tokens.ParsedIsCanonical(raw);
    hide ParseIdToken, IsMetric;
  }

  /** What a token normalises to. */
  lemma TokenNormalizes(m: Maps, raw: string, parsed: Tokens.Token, selfId: string, remap: map<string, string>)
    requires ParseIdToken(raw) == Some(parsed) && NormalizeRef(raw, selfId, m, remap).Token?
    ensures var id := Moved(remap, parsed.id);
      if parsed.ChapterToken?
          then id in m.numByCh && NormalizeRef(raw, selfId, m, remap).token == Format(ChapterToken(id))
      else id in m.labelBySec && NormalizeRef(raw, selfId, m, remap).token == Format(SectionToken(id, parsed.metric))
  {
    hide ParseIdToken, ParseRef, Format;
  }

  lemma RecordedSection(doc: Doc, m: Maps, id: string) returns (ci: nat, si: nat)
    requires IsMaps(doc, m) && id in m.labelBySec
    ensures HasSection(doc, id, ci, si)
  {
    hide HasSection, SectionLabel, ChaptersMapped;
    assert Labelled(doc, m, id);
    ci, si :| HasSection(doc, id, ci, si);
  }

  lemma RecordedChapter(doc: Doc, m: Maps, id: string) returns (ci: nat)
    requires IsMaps(doc, m) && id in m.numByCh
    ensures HasChapter(doc, id, ci)
  {
    hide HasChapter, NatToString, SectionsMapped;
    assert Numbered(doc, m, id);
    ci :| HasChapter(doc, id, ci);
  }

  lemma TokenDenotes(doc: Doc, raw: string, parsed: Tokens.Token, t: Target)
    requires ParseIdToken(raw) == Some(parsed)
    ensures Denotes(doc, raw, t) <==>
      match t
      case ChapterAt(ci) => parsed.ChapterToken? && HasChapter(doc, parsed.id, ci)
      case SectionAt(ci, si, metric) =>
        parsed.SectionToken? && HasSection(doc, parsed.id, ci, si) && metric == parsed.metric
  {
    hide ParseIdToken, ParseRef, HasSection, HasChapter;
  }

  lemma NumberDenotes(doc: Doc, raw: string, ref: Ref, t: Target)
    requires ParseIdToken(raw).None? && ParseRef(raw) == Some(ref)
    ensures Denotes(doc, raw, t) <==>
      match t
      case ChapterAt(ci) => ref.section.None? && ci < |doc| && ref.chapter == ci + 1
      case SectionAt(ci, si, metric) =>
        ref.section == Some(si + 1) && ci < |doc| && si < |doc[ci].sections| && ref.chapter == ci + 1
        && metric == ref.metric
  {
    hide ParseIdToken, ParseRef;
  }

  lemma NormalizedIsReadable(m: Maps, raw: string, selfId: string, remap: map<string, string>)
    requires NormalizeRef(raw, selfId, m, remap).Token?
    ensures ParseIdToken(raw).Some? || ParseRef(raw).Some?
  {
    hide ParseIdToken, ParseRef, Format;
  }

  lemma PlacesAreKept(doc: Doc, renew: bool, supply: Supply)
    ensures |Identified(doc, renew, supply)| == |doc|
    ensures forall ci :: 0 <= ci < |doc| ==> |Identified(doc, renew, supply)[ci].sections| == |doc[ci].sections|
    ensures forall id, ci: nat, si: nat :: HasSection(Identified(doc, renew, supply), id, ci, si) ==>
        ci < |doc| && si < |doc[ci].sections|
    ensures forall id, ci: nat :: HasChapter(Identified(doc, renew, supply), id, ci) ==> ci < |doc|
  {
    hide Identified;
    IdentifiedLength(doc, renew, supply);
    forall ci: nat | ci < |doc| ensures |Identified(doc, renew, supply)[ci].sections| == |doc[ci].sections| {
      PositionsAreKept(doc, renew, supply, ci);
    }
  }

  /** A token in the new outline denotes what its reference denoted in the old one. */
  lemma TokenHasOrigin(doc: Doc, renew: bool, supply: Supply, m: Maps, raw: string, selfId: string) returns (t: Target)
    requires FreshSupply(Flat(doc), supply) && DistinctItems(Flat(doc))
    requires Uuids(Identified(doc, renew, supply)) && IsMaps(Identified(doc, renew, supply), m)
    requires ParseIdToken(raw).Some? ==> forall i: nat :: supply(i) != ParseIdToken(raw).value.id
    requires NormalizeRef(raw, selfId, m, Remap(doc, renew, supply)).Token?
    ensures Denotes(doc, raw, t)
    ensures Denotes(Identified(doc, renew, supply), NormalizeRef(raw, selfId, m, Remap(doc, renew, supply)).token, t)
    ensures ParseIdToken(NormalizeRef(raw, selfId, m, Remap(doc, renew, supply)).token).Some?
  {
    hide *;
    var given, remap := Identified(doc, renew, supply), Remap(doc, renew, supply);
    NormalizedIsReadable(m, raw, selfId, remap);
    if ParseIdToken(raw).Some? {
      var parsed := ParseIdToken(raw).value;
      var id := Moved(remap, parsed.id);
      TokenNormalizes(m, raw, parsed, selfId, remap);
      if parsed.ChapterToken? {
        var ci := RecordedChapter(given, m, id);
        ChapterCameFrom(doc, renew, supply, parsed.id, ci);
        ChapterTokenDenotes(given, id, ci);
        t := ChapterAt(ci);
      } else {
        var ci, si := RecordedSection(given, m, id);
        SectionCameFrom(doc, renew, supply, parsed.id, ci, si);
        ParsedMetric(raw);
        SectionTokenDenotes(given, id, parsed.metric, ci, si);
        t := Target.SectionAt(ci, si, parsed.metric);
      }
      TokenDenotes(doc, raw, parsed, t);
    } else {
      var ref := ParseRef(raw).value;
      NumberNormalizes(given, m, raw, ref, selfId, remap);
      PlacesAreKept(doc, renew, supply);
      BuildsOn.ParsedIsCanonical(raw);
      CanonicalParts(ref);
      if ref.section.None? {
        t := ChapterAt(ref.chapter - 1);
        ChapterTokenDenotes(given, m.chByNum[ref.chapter], ref.chapter - 1);
      } else {
        var p := (ref.chapter, ref.section.value);
        t := Target.SectionAt(p.0 - 1, p.1 - 1, ref.metric);
        SectionTokenDenotes(given, m.secByPos[p], ref.metric, p.0 - 1, p.1 - 1);
      }
      NumberDenotes(doc, raw, ref, t);
    }
  }

  lemma SectionSelf(given: Doc, m: Maps, raw: string, selfId: string, remap: map<string, string>, t: Target)
    requires IsMaps(given, m) && t.SectionAt? && HasSection(given, selfId, t.ci, t.si)
    requires if ParseIdToken(raw).Some?
      then ParseIdToken(raw).value.SectionToken? && Moved(remap, ParseIdToken(raw).value.id) == selfId
      else
        ParseRef(raw).Some? && ParseRef(raw).value.section == Some(t.si + 1)
        && ParseRef(raw).value.chapter == t.ci + 1
    ensures NormalizeRef(raw, selfId, m, remap) == Problem(SelfReference)
  {
    hide ParseIdToken, ParseRef, Format, SectionLabel, Labelled, ChaptersMapped;
    assert Seen(|given|, 0, t.ci, t.si);
  }

  /** A reference to the section itself is a problem. */
  lemma SelfReferenceIsProblem(doc: Doc, renew: bool, supply: Supply, m: Maps, raw: string, selfId: string, t: Target)
    requires FreshSupply(Flat(doc), supply) && DistinctItems(Flat(doc)) && IsMaps(Identified(doc, renew, supply), m)
    requires t.SectionAt? && Denotes(doc, raw, t) && HasSection(Identified(doc, renew, supply), selfId, t.ci, t.si)
    ensures NormalizeRef(raw, selfId, m, Remap(doc, renew, supply)) == Problem(SelfReference)
  {
    var given, remap := Identified(doc, renew, supply), Remap(doc, renew, supply);
    if ParseIdToken(raw).Some? {
      ItemMoves(doc, renew, supply, ParseIdToken(raw).value.id, t.ci, t.si);
    }
    hide Flat, FreshSupply, DistinctItems, IsMaps, Identified, Remap, NormalizeRef, ParseIdToken, ParseRef;
    SectionSelf(given, m, raw, selfId, remap, t);
  }

  // ---------- The list of one section ----------

  /** Some reference of the list denotes the target. */
  ghost predicate Names(doc: Doc, raws: seq<string>, t: Target) {
    exists k :: 0 <= k < |raws| && Denotes(doc, raws[k], t)
  }

  ghost predicate ComesFromList(token: string, raws: seq<string>, from: nat, selfId: string, m: Maps,
      remap: map<string, string>) {
    exists j :: from <= j < |raws| && NormalizeRef(raws[j], selfId, m, remap) == Token(token)
  }

  /** The loop adds only normalised references; and all of them when it meets no problem. */
  lemma {:induction false} LoopTokens(raws: seq<string>, k: nat, out: seq<string>, problems: seq<Problem>,
                                      selfId: string, m: Maps, remap: map<string, string>)
    requires k <= |raws|
    ensures var (o, p) := NormalizeFrom(raws, k, out, problems, selfId, m, remap);
      && |p| >= |problems|
      && (forall t :: t in o ==> t in out || ComesFromList(t, raws, k, selfId, m, remap))
      && (forall t :: t in out ==> t in o)
      && (|p| == |problems| ==> forall j :: k <= j < |raws| ==>
            NormalizeRef(raws[j], selfId, m, remap).Token? && NormalizeRef(raws[j], selfId, m, remap).token in o)
    decreases |raws| - k
  {
    hide NormalizeRef;
    if k < |raws| {
      var r := NormalizeRef(raws[k], selfId, m, remap);
      match r
      case Problem(p) =>
        LoopTokens(raws, k + 1, out, problems + [p], selfId, m, remap);
      case Token(t) =>
        assert ComesFromList(t, raws, k, selfId, m, remap);
        if t in out {
          LoopTokens(raws, k + 1, out, problems, selfId, m, remap);
        } else if |out| < MAX_REFS_PER_SECTION {
          LoopTokens(raws, k + 1, out + [t], problems, selfId, m, remap);
        }
    }
  }

  /** The list of section (ci, si), after ids were given out and after references were rewritten. */
  lemma SectionList(doc: Doc, renew: bool, supply: Supply, m: Maps, ci: nat, si: nat) returns (selfId: string)
    requires ci < |doc| && si < |doc[ci].sections|
    ensures var given, remap := Identified(doc, renew, supply), Remap(doc, renew, supply);
      && ci < |given| && si < |given[ci].sections| && HasSection(given, selfId, ci, si)
      && RewriteSection(given[ci].sections[si], m, remap)
         == (var r := NormalizeFrom(doc[ci].sections[si].buildsOn, 0, [], [], selfId, m, remap);
             (given[ci].sections[si].(buildsOn := r.0), r.1))
  {
    hide Flat, ClaimAll, WithIds, Identified, Remap, NormalizeFrom, Offset;
    IdentifiedLength(doc, renew, supply);
    ItemsStand(doc, renew, supply, ci);
    var sec := Identified(doc, renew, supply)[ci].sections[si];
    selfId := sec.id.value;
    NothingNormalized(selfId, m, Remap(doc, renew, supply));
    assert sec.(buildsOn := sec.buildsOn) == sec;
  }

  lemma NothingNormalized(selfId: string, m: Maps, remap: map<string, string>)
    ensures NormalizeFrom([], 0, [], [], selfId, m, remap) == ([], [])
  {
  }

  /** A token denotes one target at most. */
  lemma OneTarget(doc: Doc, token: string, t: Target, u: Target)
    requires UniqueIds(doc) && ParseIdToken(token).Some? && Denotes(doc, token, t) && Denotes(doc, token, u)
    ensures t == u
  {
    hide HasSection, HasChapter;
    TokenDenotes(doc, token, ParseIdToken(token).value, t);
    TokenDenotes(doc, token, ParseIdToken(token).value, u);
    hide Denotes;
  }

  lemma RewrittenDenotes(given: Doc, m: Maps, remap: map<string, string>, raw: string, t: Target)
    ensures Denotes(Rewrite(given, m, remap), raw, t) <==> Denotes(given, raw, t)
  {
    hide NormalizeFrom, ParseIdToken, ParseRef, HasSection, HasChapter;
    RewriteKeepsIds(given, m, remap);
  }

  /** What the main results below suppose: distinct stored ids, new uuids that occur nowhere in the
      outline, and the maps of the outline with its new ids. */
  ghost predicate Renamed(doc: Doc, renew: bool, supply: Supply, m: Maps) {
    && FreshSupply(Flat(doc), supply) && FreshForReferences(doc, supply) && DistinctItems(Flat(doc))
    && Uuids(Identified(doc, renew, supply)) && IsMaps(Identified(doc, renew, supply), m)
  }

  lemma RenamedParts(doc: Doc, renew: bool, supply: Supply, m: Maps)
    requires Renamed(doc, renew, supply, m)
    ensures FreshSupply(Flat(doc), supply) && FreshForReferences(doc, supply) && DistinctItems(Flat(doc))
    ensures Uuids(Identified(doc, renew, supply)) && IsMaps(Identified(doc, renew, supply), m)
    ensures UniqueIds(Identified(doc, renew, supply))
  {
    hide *;
    RenamedIs(doc, renew, supply, m);
    EveryItemHasItsOwnId(doc, renew, supply);
  }

  lemma RenamedIs(doc: Doc, renew: bool, supply: Supply, m: Maps)
    requires Renamed(doc, renew, supply, m)
    ensures FreshSupply(Flat(doc), supply) && FreshForReferences(doc, supply) && DistinctItems(Flat(doc))
    ensures Uuids(Identified(doc, renew, supply)) && IsMaps(Identified(doc, renew, supply), m)
  {
  }

  lemma FreshReference(doc: Doc, supply: Supply, ci: nat, si: nat, k: nat)
    requires FreshForReferences(doc, supply) && ci < |doc| && si < |doc[ci].sections|
        && k < |doc[ci].sections[si].buildsOn|
    ensures var raw := doc[ci].sections[si].buildsOn[k];
      ParseIdToken(raw).Some? ==> forall i: nat :: supply(i) != ParseIdToken(raw).value.id
  {
    hide ParseIdToken;
    assert doc[ci].sections[si].buildsOn[k] in doc[ci].sections[si].buildsOn;
  }

  /** The list of a section in the normalised outline. */
  lemma RewrittenList(doc: Doc, renew: bool, supply: Supply, m: Maps, ci: nat, si: nat) returns (selfId: string)
    requires ci < |doc| && si < |doc[ci].sections|
    ensures var given, remap := Identified(doc, renew, supply), Remap(doc, renew, supply);
      var out, r := Rewrite(given, m, remap), NormalizeFrom(doc[ci].sections[si].buildsOn, 0, [], [], selfId, m, remap);
      && HasSection(given, selfId, ci, si)
      && ci < |out| && si < |out[ci].sections| && out[ci].sections[si].buildsOn == r.0
      && ci < |given| && si < |given[ci].sections| && RewriteSection(given[ci].sections[si], m, remap).1 == r.1
  {
    hide RewriteSection, NormalizeFrom, Identified, Remap;
    selfId := SectionList(doc, renew, supply, m, ci, si);
  }

  /** Every token of a section's new list denotes what some reference of its old list denoted. */
  lemma EveryTokenHasOrigin(doc: Doc, renew: bool, supply: Supply, m: Maps, ci: nat, si: nat, k: nat)
      returns (t: Target)
    requires Renamed(doc, renew, supply, m) && ci < |doc| && si < |doc[ci].sections|
    requires var out := Rewrite(Identified(doc, renew, supply), m, Remap(doc, renew, supply));
      ci < |out| && si < |out[ci].sections| && k < |out[ci].sections[si].buildsOn|
    ensures var out := Rewrite(Identified(doc, renew, supply), m, Remap(doc, renew, supply));
      && Denotes(out, out[ci].sections[si].buildsOn[k], t) && Names(doc, doc[ci].sections[si].buildsOn, t)
      && ParseIdToken(out[ci].sections[si].buildsOn[k]).Some?
  {
    hide Renamed, Rewrite, Identified, Remap, NormalizeFrom, NormalizeRef, Denotes, ParseIdToken, FreshSupply,
      FreshForReferences, DistinctItems, UniqueIds, Uuids, IsMaps, Flat;
    var given, remap := Identified(doc, renew, supply), Remap(doc, renew, supply);
    var out, raws := Rewrite(given, m, remap), doc[ci].sections[si].buildsOn;
    RenamedParts(doc, renew, supply, m);
    var selfId := RewrittenList(doc, renew, supply, m, ci, si);
    LoopTokens(raws, 0, [], [], selfId, m, remap);
    var token := out[ci].sections[si].buildsOn[k];
    assert token in out[ci].sections[si].buildsOn;
    assert ComesFromList(token, raws, 0, selfId, m, remap);
    var j :| 0 <= j < |raws| && NormalizeRef(raws[j], selfId, m, remap) == Token(token);
    FreshReference(doc, supply, ci, si, j);
    t := TokenHasOrigin(doc, renew, supply, m, raws[j], selfId);
    RewrittenDenotes(given, m, remap, token, t);
  }

  /** Normalisation invents no edge: whatever a section's new list names, its old list named, problems
      or not, and with renewed ids too. */
  lemma NoEdgeIsInvented(doc: Doc, renew: bool, supply: Supply, m: Maps, ci: nat, si: nat, t: Target)
    requires Renamed(doc, renew, supply, m) && ci < |doc| && si < |doc[ci].sections|
    ensures var out := Rewrite(Identified(doc, renew, supply), m, Remap(doc, renew, supply));
      && ci < |out| && si < |out[ci].sections|
      && (Names(out, out[ci].sections[si].buildsOn, t) ==> Names(doc, doc[ci].sections[si].buildsOn, t))
  {
    hide Renamed, Rewrite, Identified, Remap, NormalizeFrom, Denotes, ParseIdToken, UniqueIds, RewriteSection,
      HasSection;
    var given, remap := Identified(doc, renew, supply), Remap(doc, renew, supply);
    var out := Rewrite(given, m, remap);
    RenamedParts(doc, renew, supply, m);
    var _ := RewrittenList(doc, renew, supply, m, ci, si);
    var tokens := out[ci].sections[si].buildsOn;
    if Names(out, tokens, t) {
      var k :| 0 <= k < |tokens| && Denotes(out, tokens[k], t);
      var u := EveryTokenHasOrigin(doc, renew, supply, m, ci, si, k);
      RewrittenDenotes(given, m, remap, tokens[k], t);
      RewrittenDenotes(given, m, remap, tokens[k], u);
      OneTarget(given, tokens[k], t, u);
    }
  }

  lemma NotTheSectionItself(doc: Doc, renew: bool, supply: Supply, m: Maps, raw: string, selfId: string, t: Target)
    requires FreshSupply(Flat(doc), supply) && DistinctItems(Flat(doc)) && IsMaps(Identified(doc, renew, supply), m)
    requires Denotes(doc, raw, t) && NormalizeRef(raw, selfId, m, Remap(doc, renew, supply)).Token?
    ensures t.SectionAt? ==> !HasSection(Identified(doc, renew, supply), selfId, t.ci, t.si)
  {
    hide *;
    if t.SectionAt? && HasSection(Identified(doc, renew, supply), selfId, t.ci, t.si) {
      SelfReferenceIsProblem(doc, renew, supply, m, raw, selfId, t);
    }
  }

  /** A reference that normalises keeps its target in the rewritten outline. */
  lemma NormalizedKeepsTarget(doc: Doc, renew: bool, supply: Supply, m: Maps, raw: string, selfId: string, t: Target)
    requires Renamed(doc, renew, supply, m) && Denotes(doc, raw, t)
    requires NormalizeRef(raw, selfId, m, Remap(doc, renew, supply)).Token?
    ensures var given, remap := Identified(doc, renew, supply), Remap(doc, renew, supply);
      Denotes(Rewrite(given, m, remap), NormalizeRef(raw, selfId, m, remap).token, t)
  {
    hide *;
    var given, remap := Identified(doc, renew, supply), Remap(doc, renew, supply);
    RenamedParts(doc, renew, supply, m);
    NotTheSectionItself(doc, renew, supply, m, raw, selfId, t);
    ReferenceKeepsItsTarget(doc, renew, supply, m, raw, selfId, t);
    RewrittenDenotes(given, m, remap, NormalizeRef(raw, selfId, m, remap).token, t);
  }

  lemma NamedBy(doc: Doc, tokens: seq<string>, token: string, t: Target)
    requires token in tokens && Denotes(doc, token, t)
    ensures Names(doc, tokens, t)
  {
    hide Denotes;
    var l :| 0 <= l < |tokens| && tokens[l] == token;
  }

  /** And when it finds no problem with the section, it loses none. */
  lemma NoEdgeIsLost(doc: Doc, renew: bool, supply: Supply, m: Maps, ci: nat, si: nat, t: Target)
    requires Renamed(doc, renew, supply, m) && ci < |doc| && si < |doc[ci].sections|
    ensures var given, remap := Identified(doc, renew, supply), Remap(doc, renew, supply);
      var out := Rewrite(given, m, remap);
      && ci < |out| && si < |out[ci].sections| && ci < |given| && si < |given[ci].sections|
      && (RewriteSection(given[ci].sections[si], m, remap).1 == [] && Names(doc, doc[ci].sections[si].buildsOn, t) ==>
            Names(out, out[ci].sections[si].buildsOn, t))
  {
    hide Renamed, Rewrite, Identified, Remap, NormalizeFrom, NormalizeRef, Denotes, RewriteSection, HasSection;
    var given, remap := Identified(doc, renew, supply), Remap(doc, renew, supply);
    var out, raws := Rewrite(given, m, remap), doc[ci].sections[si].buildsOn;
    var selfId := RewrittenList(doc, renew, supply, m, ci, si);
    LoopTokens(raws, 0, [], [], selfId, m, remap);
    if RewriteSection(given[ci].sections[si], m, remap).1 == [] && Names(doc, raws, t) {
      var k :| 0 <= k < |raws| && Denotes(doc, raws[k], t);
      NormalizedKeepsTarget(doc, renew, supply, m, raws[k], selfId, t);
      NamedBy(out, out[ci].sections[si].buildsOn, NormalizeRef(raws[k], selfId, m, remap).token, t);
    }
  }

  lemma {:induction false} SectionProblemsAre(sections: seq<Section>, m: Maps, remap: map<string, string>, si: nat)
    requires SectionProblems(sections, m, remap) == [] && si < |sections|
    ensures RewriteSection(sections[si], m, remap).1 == []
    decreases |sections|
  {
    hide RewriteSection;
    var n := |sections| - 1;
    if si < n { SectionProblemsAre(sections[..n], m, remap, si); }
  }

  lemma {:induction false} ProblemsAre(doc: Doc, m: Maps, remap: map<string, string>, ci: nat)
    requires Problems(doc, m, remap) == [] && ci < |doc|
    ensures SectionProblems(doc[ci].sections, m, remap) == []
    decreases |doc|
  {
    hide SectionProblems;
    var n := |doc| - 1;
    if ci < n { ProblemsAre(doc[..n], m, remap, ci); }
  }

  /** The main result: normalisation keeps every dependency edge position for position, also when it
      renews all ids.  An outline normalised without a problem names, in the list of every section,
      exactly the positions that section named before. */
  lemma EdgesKeepTheirTargets(doc: Doc, renew: bool, supply: Supply, m: Maps, ci: nat, si: nat, t: Target)
    requires Renamed(doc, renew, supply, m) && ci < |doc| && si < |doc[ci].sections|
    requires Problems(Identified(doc, renew, supply), m, Remap(doc, renew, supply)) == []
    ensures var out := Rewrite(Identified(doc, renew, supply), m, Remap(doc, renew, supply));
      && ci < |out| && si < |out[ci].sections|
      && (Names(out, out[ci].sections[si].buildsOn, t) <==> Names(doc, doc[ci].sections[si].buildsOn, t))
  {
    hide *;
    var given, remap := Identified(doc, renew, supply), Remap(doc, renew, supply);
    NoEdgeIsInvented(doc, renew, supply, m, ci, si, t);
    NoEdgeIsLost(doc, renew, supply, m, ci, si, t);
    ProblemsAre(given, m, remap, ci);
    SectionProblemsAre(given[ci].sections, m, remap, si);
  }
}
