/** builds_on references of a stored outline: normalisation to id tokens, and back to the labels of
    the current positions (src/core/outline.py: position_maps, normalize_outline, token_to_label). */
module OutlineRefs {
  import opened Text
  import opened BuildsOn
  import opened Tokens
  import opened Outline

  // ---------- position_maps ----------

  /** label_by_sec, num_by_ch, sec_by_pos, ch_by_num; positions count from 1. */
  datatype Maps = Maps(labelBySec: map<string, string>, numByCh: map<string, string>,
                       secByPos: map<(nat, nat), string>, chByNum: map<nat, string>)

  function SectionLabel(ci: nat, si: nat): string {
    NatToString(ci + 1) + "." + NatToString(si + 1)
  }

  /** Chapters before ci, and of chapter ci the sections before si. */
  predicate Seen(ci: nat, si: nat, cj: nat, sj: nat) {
    cj < ci || (cj == ci && sj < si)
  }

  ghost predicate Labelled(doc: Doc, m: Maps, id: string) {
    id in m.labelBySec
    && exists cj: nat, sj: nat :: HasSection(doc, id, cj, sj) && m.labelBySec[id] == SectionLabel(cj, sj)
  }

  ghost predicate Numbered(doc: Doc, m: Maps, id: string) {
    id in m.numByCh && exists cj: nat :: HasChapter(doc, id, cj) && m.numByCh[id] == NatToString(cj + 1)
  }

  ghost predicate SeenMapped(doc: Doc, m: Maps, ci: nat, si: nat) {
    forall id, cj: nat, sj: nat :: HasSection(doc, id, cj, sj) && Seen(ci, si, cj, sj) ==>
      id in m.labelBySec && (cj + 1, sj + 1) in m.secByPos && m.secByPos[(cj + 1, sj + 1)] == id
  }

  ghost predicate AllLabelled(doc: Doc, m: Maps) {
    forall id :: id in m.labelBySec ==> Labelled(doc, m, id)
  }

  ghost predicate AllPlaced(doc: Doc, m: Maps) {
    forall p: (nat, nat) :: p in m.secByPos ==> p.0 > 0 && p.1 > 0 && HasSection(doc, m.secByPos[p], p.0 - 1, p.1 - 1)
  }

  ghost predicate SectionsMapped(doc: Doc, m: Maps, ci: nat, si: nat) {
    SeenMapped(doc, m, ci, si) && AllLabelled(doc, m) && AllPlaced(doc, m)
  }

  ghost predicate ChaptersSeen(doc: Doc, m: Maps, ci: nat) {
    forall id, cj: nat :: HasChapter(doc, id, cj) && cj < ci ==>
      id in m.numByCh && cj + 1 in m.chByNum && m.chByNum[cj + 1] == id
  }

  ghost predicate AllNumbered(doc: Doc, m: Maps) {
    forall id :: id in m.numByCh ==> Numbered(doc, m, id)
  }

  ghost predicate ChaptersPlaced(doc: Doc, m: Maps) {
    forall n: nat :: n in m.chByNum ==> n > 0 && HasChapter(doc, m.chByNum[n], n - 1)
  }

  ghost predicate ChaptersMapped(doc: Doc, m: Maps, ci: nat) {
    ChaptersSeen(doc, m, ci) && AllNumbered(doc, m) && ChaptersPlaced(doc, m)
  }

  /** The maps of a document; of items with equal ids one position is recorded. */
  ghost predicate IsMaps(doc: Doc, m: Maps) {
    SectionsMapped(doc, m, |doc|, 0) && ChaptersMapped(doc, m, |doc|)
  }

  /** The maps after the section at (ci, si), with the given id, was met. */
  function WithSection(m: Maps, id: string, ci: nat, si: nat): (r: Maps)
    ensures r.numByCh == m.numByCh && r.chByNum == m.chByNum
  {
    m.(labelBySec := m.labelBySec[id := SectionLabel(ci, si)], secByPos := m.secByPos[(ci + 1, si + 1) := id])
  }

  lemma MapSeen(doc: Doc, m: Maps, ci: nat, si: nat, here: string)
    requires SeenMapped(doc, m, ci, si) && HasSection(doc, here, ci, si)
    ensures SeenMapped(doc, WithSection(m, here, ci, si), ci, si + 1)
  {
    hide SectionLabel;
    var m' := WithSection(m, here, ci, si);
    forall id, cj: nat, sj: nat | HasSection(doc, id, cj, sj) && Seen(ci, si + 1, cj, sj)
      ensures id in m'.labelBySec && (cj + 1, sj + 1) in m'.secByPos && m'.secByPos[(cj + 1, sj + 1)] == id
    {
      if cj == ci && sj == si { assert id == here; }
    }
  }

  lemma MapLabelled(doc: Doc, m: Maps, ci: nat, si: nat, here: string)
    requires AllLabelled(doc, m) && HasSection(doc, here, ci, si)
    ensures AllLabelled(doc, WithSection(m, here, ci, si))
  {
    hide SectionLabel, HasSection;
    var m' := WithSection(m, here, ci, si);
    forall id | id in m'.labelBySec ensures Labelled(doc, m', id) {
      if here != id { assert Labelled(doc, m, id); }
    }
  }

  lemma MapPlaced(doc: Doc, m: Maps, ci: nat, si: nat, here: string)
    requires AllPlaced(doc, m) && HasSection(doc, here, ci, si)
    ensures AllPlaced(doc, WithSection(m, here, ci, si))
  {
    hide SectionLabel, HasSection;
  }

  lemma SeenNothing(doc: Doc, m: Maps, ci: nat, si: nat)
    requires ci < |doc| && si < |doc[ci].sections| && doc[ci].sections[si].id.None? && SeenMapped(doc, m, ci, si)
    ensures SeenMapped(doc, m, ci, si + 1)
  {
    forall id, cj: nat, sj: nat | HasSection(doc, id, cj, sj) && Seen(ci, si + 1, cj, sj) ensures Seen(ci, si, cj, sj) {
    }
  }

  lemma MapSection(doc: Doc, m: Maps, ci: nat, si: nat, m': Maps)
    requires ci < |doc| && si < |doc[ci].sections| && SectionsMapped(doc, m, ci, si)
    requires var id := doc[ci].sections[si].id; m' == if id.None? then m else WithSection(m, id.value, ci, si)
    ensures SectionsMapped(doc, m', ci, si + 1)
  {
    hide WithSection, SeenMapped, AllLabelled, AllPlaced;
    var here := doc[ci].sections[si].id;
    if here.None? {
      SeenNothing(doc, m, ci, si);
    } else {
      MapSeen(doc, m, ci, si, here.value);
      MapLabelled(doc, m, ci, si, here.value);
      MapPlaced(doc, m, ci, si, here.value);
    }
  }

  /** The maps after the chapter at ci, with the given id, was met. */
  function WithChapter(m: Maps, id: string, ci: nat): (r: Maps)
    ensures r.labelBySec == m.labelBySec && r.secByPos == m.secByPos
  {
    m.(numByCh := m.numByCh[id := NatToString(ci + 1)], chByNum := m.chByNum[ci + 1 := id])
  }

  lemma MapChapterSeen(doc: Doc, m: Maps, ci: nat, here: string)
    requires ChaptersSeen(doc, m, ci) && HasChapter(doc, here, ci)
    ensures ChaptersSeen(doc, WithChapter(m, here, ci), ci + 1)
  {
    hide NatToString;
    var m' := WithChapter(m, here, ci);
    forall id, cj: nat | HasChapter(doc, id, cj) && cj < ci + 1
      ensures id in m'.numByCh && cj + 1 in m'.chByNum && m'.chByNum[cj + 1] == id
    {
      if cj == ci { assert id == here; }
    }
  }

  lemma MapChapterNumbered(doc: Doc, m: Maps, ci: nat, here: string)
    requires AllNumbered(doc, m) && HasChapter(doc, here, ci)
    ensures AllNumbered(doc, WithChapter(m, here, ci))
  {
    hide NatToString, HasChapter;
    var m' := WithChapter(m, here, ci);
    forall id | id in m'.numByCh ensures Numbered(doc, m', id) {
      if here != id { assert Numbered(doc, m, id); }
    }
  }

  lemma MapChapterPlaced(doc: Doc, m: Maps, ci: nat, here: string)
    requires ChaptersPlaced(doc, m) && HasChapter(doc, here, ci)
    ensures ChaptersPlaced(doc, WithChapter(m, here, ci))
  {
    hide NatToString, HasChapter;
    var m' := WithChapter(m, here, ci);
    forall n: nat | n in m'.chByNum ensures n > 0 && HasChapter(doc, m'.chByNum[n], n - 1) {
      assert n in m.chByNum || n == ci + 1;
    }
  }

  lemma MapChapter(doc: Doc, m: Maps, ci: nat, m': Maps)
    requires ci < |doc| && ChaptersMapped(doc, m, ci)
    requires var id := doc[ci].id; m' == if id.None? then m else WithChapter(m, id.value, ci)
    ensures ChaptersMapped(doc, m', ci + 1)
  {
    hide WithChapter, AllNumbered, ChaptersPlaced;
    var here := doc[ci].id;
    if here.Some? {
      hide ChaptersSeen;
      MapChapterSeen(doc, m, ci, here.value);
      MapChapterNumbered(doc, m, ci, here.value);
      MapChapterPlaced(doc, m, ci, here.value);
    }
  }

  lemma SameSectionMaps(doc: Doc, m: Maps, m': Maps, ci: nat, si: nat)
    requires SectionsMapped(doc, m, ci, si) && m'.labelBySec == m.labelBySec && m'.secByPos == m.secByPos
    ensures SectionsMapped(doc, m', ci, si)
  {
    hide SectionLabel;
    forall id | id in m'.labelBySec ensures Labelled(doc, m', id) { assert Labelled(doc, m, id); }
  }

  lemma SameChapterMaps(doc: Doc, m: Maps, m': Maps, ci: nat)
    requires ChaptersMapped(doc, m, ci) && m'.numByCh == m.numByCh && m'.chByNum == m.chByNum
    ensures ChaptersMapped(doc, m', ci)
  {
    hide NatToString;
    forall id | id in m'.numByCh ensures Numbered(doc, m', id) { assert Numbered(doc, m, id); }
  }

  /** position_maps */
  method PositionMaps(doc: Doc) returns (m: Maps)
    ensures IsMaps(doc, m)
  {
    m := Maps(map[], map[], map[], map[]);
    EmptyMaps(doc);
    hide *;
    for ci := 0 to |doc|
      invariant SectionsMapped(doc, m, ci, 0) && ChaptersMapped(doc, m, ci)
    {
      var m0 := m;
      if doc[ci].id.Some? {
        m := WithChapter(m, doc[ci].id.value, ci);
      }
      MapChapter(doc, m0, ci, m);
      SameSectionMaps(doc, m0, m, ci, 0);
      for si := 0 to |doc[ci].sections|
        invariant SectionsMapped(doc, m, ci, si) && ChaptersMapped(doc, m, ci + 1)
      {
        var m1, id := m, doc[ci].sections[si].id;
        if id.Some? {
          m := WithSection(m, id.value, ci, si);
        }
        MapSection(doc, m1, ci, si, m);
        SameChapterMaps(doc, m1, m, ci + 1);
      }
      NextChapterMapped(doc, m, ci);
    }
    MapsAreDone(doc, m);
  }

  lemma EmptyMaps(doc: Doc)
    ensures SectionsMapped(doc, Maps(map[], map[], map[], map[]), 0, 0)
        && ChaptersMapped(doc, Maps(map[], map[], map[], map[]), 0)
  {
  }

  lemma MapsAreDone(doc: Doc, m: Maps)
    requires SectionsMapped(doc, m, |doc|, 0) && ChaptersMapped(doc, m, |doc|)
    ensures IsMaps(doc, m)
  {
  }

  lemma NextChapterMapped(doc: Doc, m: Maps, ci: nat)
    requires ci < |doc| && SectionsMapped(doc, m, ci, |doc[ci].sections|)
    ensures SectionsMapped(doc, m, ci + 1, 0)
  {
    hide SectionLabel;
  }

  // ---------- Unique ids: the maps are determined ----------

  lemma SectionAt(doc: Doc, m: Maps, id: string, ci: nat, si: nat)
    requires IsMaps(doc, m) && UniqueIds(doc) && HasSection(doc, id, ci, si)
    ensures id in m.labelBySec && m.labelBySec[id] == SectionLabel(ci, si)
    ensures (ci + 1, si + 1) in m.secByPos && m.secByPos[(ci + 1, si + 1)] == id
  {
    hide SectionLabel, ChaptersMapped;
    assert Seen(|doc|, 0, ci, si);
    assert Labelled(doc, m, id);
  }

  lemma ChapterAt(doc: Doc, m: Maps, id: string, ci: nat)
    requires IsMaps(doc, m) && UniqueIds(doc) && HasChapter(doc, id, ci)
    ensures id in m.numByCh && m.numByCh[id] == NatToString(ci + 1)
    ensures ci + 1 in m.chByNum && m.chByNum[ci + 1] == id
  {
    hide NatToString, SectionsMapped;
    assert Numbered(doc, m, id);
  }

  // ---------- _normalize_ref and token_to_label ----------

  datatype Problem =
    | Unreadable(raw: string) | NoSuchChapter(raw: string) | NoSuchSection(raw: string) | SelfReference | TooManyRefs

  datatype Normalized = Token(token: string) | Problem(problem: Problem)

  /** _normalize_ref */
  function NormalizeRef(raw: string, selfId: string, m: Maps, remap: map<string, string>): Normalized {
    var parsed := ParseIdToken(raw);
    if parsed.Some? then
      var id := Moved(remap, parsed.value.id);
      if parsed.value.ChapterToken? then
        if id !in m.numByCh then Problem(NoSuchChapter(raw)) else Token(Format(ChapterToken(id)))
      else if id !in m.labelBySec then Problem(NoSuchSection(raw))
      else if id == selfId then Problem(SelfReference)
      else Token(Format(SectionToken(id, parsed.value.metric)))
    else
      var ref := ParseRef(raw);
      if ref.None? then Problem(Unreadable(raw))
      else if ref.value.section.None? then
        if ref.value.chapter !in m.chByNum then Problem(NoSuchChapter(ref.value.Label()))
        else Token(Format(ChapterToken(m.chByNum[ref.value.chapter])))
      else
        var p := (ref.value.chapter, ref.value.section.value);
        if p !in m.secByPos then Problem(NoSuchSection(ref.value.Label()))
        else if m.secByPos[p] == selfId then Problem(SelfReference)
        else Token(Format(SectionToken(m.secByPos[p], ref.value.metric)))
  }

  /** token_to_label */
  function TokenToLabel(raw: string, m: Maps): Option<string> {
    var parsed := ParseIdToken(raw);
    if parsed.None? then (if ParseRef(raw).Some? then Some(raw) else None)
    else if parsed.value.ChapterToken? then
      if parsed.value.id in m.numByCh then Some(m.numByCh[parsed.value.id] + ".*") else None
    else if parsed.value.id !in m.labelBySec then None
    else Some(m.labelBySec[parsed.value.id] + MetricTail(parsed.value.metric))
  }

  /** What a reference denotes: a chapter, or a section with an optional metric. */
  datatype Target = ChapterAt(ci: nat) | SectionAt(ci: nat, si: nat, metric: Option<string>)

  function LabelOf(t: Target): string {
    match t
    case ChapterAt(ci) => Ref(ci + 1, None, None).Label()
    case SectionAt(ci, si, metric) => Ref(ci + 1, Some(si + 1), metric).Label()
  }

  /** The reference, a number or a token, denotes the target in this document. */
  ghost predicate Denotes(doc: Doc, raw: string, t: Target) {
    var parsed, ref := ParseIdToken(raw), ParseRef(raw);
    if parsed.Some? then
      match t
      case ChapterAt(ci) => parsed.value.ChapterToken? && HasChapter(doc, parsed.value.id, ci)
      case SectionAt(ci, si, metric) =>
        parsed.value.SectionToken? && HasSection(doc, parsed.value.id, ci, si) && metric == parsed.value.metric
    else
      ref.Some? &&
      match t
      case ChapterAt(ci) => ref.value.section.None? && ci < |doc| && ref.value.chapter == ci + 1
      case SectionAt(ci, si, metric) =>
        ref.value.section == Some(si + 1) && ci < |doc| && si < |doc[ci].sections| && ref.value.chapter == ci + 1
        && metric == ref.value.metric
  }

  ghost predicate Uuids(doc: Doc) {
    && (forall id, ci: nat, si: nat :: HasSection(doc, id, ci, si) ==> IsUuid(id))
    && (forall id, ci: nat :: HasChapter(doc, id, ci) ==> IsUuid(id))
  }

  lemma LabelOfSection(ci: nat, si: nat, metric: Option<string>)
    ensures SectionLabel(ci, si) + MetricTail(metric) == LabelOf(Target.SectionAt(ci, si, metric))
    ensures LabelOf(Target.SectionAt(ci, si, metric)) == Ref(ci + 1, Some(si + 1), metric).Label()
  {
    hide NatToString;
  }

  lemma LabelOfChapter(ci: nat)
    ensures NatToString(ci + 1) + ".*" == LabelOf(Target.ChapterAt(ci))
    ensures LabelOf(Target.ChapterAt(ci)) == Ref(ci + 1, None, None).Label()
  {
    hide NatToString;
  }

  lemma LabelsAreNumbers(ref: Ref)
    requires BuildsOn.Canonical(ref)
    ensures ParseIdToken(ref.Label()).None? && ParseRef(ref.Label()) == Some(ref)
  {
    ParseOfLabel(ref);
    NumbersAreNotTokens(ref.Label());
  }

  lemma TokenShown(token: string, t: Tokens.Token, m: Maps)
    requires ParseIdToken(token) == Some(t)
    ensures t.SectionToken? && t.id in m.labelBySec ==>
        TokenToLabel(token, m) == Some(m.labelBySec[t.id] + MetricTail(t.metric))
    ensures t.ChapterToken? && t.id in m.numByCh ==> TokenToLabel(token, m) == Some(m.numByCh[t.id] + ".*")
  {
    hide ParseIdToken, ParseRef, MetricTail;
  }

  lemma NumberNormalized(text: string, ref: Ref, selfId: string, m: Maps, remap: map<string, string>)
    requires ParseIdToken(text).None? && ParseRef(text) == Some(ref)
    ensures ref.section.None? && ref.chapter in m.chByNum ==>
      NormalizeRef(text, selfId, m, remap) == Token(Format(ChapterToken(m.chByNum[ref.chapter])))
    ensures (&& ref.section.Some? && (ref.chapter, ref.section.value) in m.secByPos
             && m.secByPos[(ref.chapter, ref.section.value)] != selfId) ==>
      NormalizeRef(text, selfId, m, remap)
          == Token(Format(SectionToken(m.secByPos[(ref.chapter, ref.section.value)], ref.metric)))
  {
    hide ParseIdToken, ParseRef, Format, Ref.Label;
  }

  /** A stored section token is shown as the label of the position its section has now, wherever the
      section has moved; and that label, read as a number, leads back to the section. */
  lemma SectionTokensFollowTheirSection(doc: Doc, m: Maps, id: string, metric: Option<string>, ci: nat, si: nat,
      other: string)
    requires IsMaps(doc, m) && UniqueIds(doc) && HasSection(doc, id, ci, si) && IsUuid(id) && IsMetric(metric)
    ensures TokenToLabel(Format(SectionToken(id, metric)), m) == Some(LabelOf(Target.SectionAt(ci, si, metric)))
    ensures other != id ==>
      NormalizeRef(LabelOf(Target.SectionAt(ci, si, metric)), other, m, map[])
          == Token(Format(SectionToken(id, metric)))
  {
    var t, ref := SectionToken(id, metric), Ref(ci + 1, Some(si + 1), metric);
    assert Tokens.Canonical(t) && BuildsOn.Canonical(ref);
    hide *;
    SectionAt(doc, m, id, ci, si);
    TokenRoundTrip(t);
    TokenShown(Format(t), t, m);
    LabelOfSection(ci, si, metric);
    LabelsAreNumbers(ref);
    NumberNormalized(ref.Label(), ref, other, m, map[]);
  }

  lemma ChapterTokensFollowTheirChapter(doc: Doc, m: Maps, id: string, ci: nat, other: string)
    requires IsMaps(doc, m) && UniqueIds(doc) && HasChapter(doc, id, ci) && IsUuid(id)
    ensures TokenToLabel(Format(ChapterToken(id)), m) == Some(LabelOf(Target.ChapterAt(ci)))
    ensures NormalizeRef(LabelOf(Target.ChapterAt(ci)), other, m, map[]) == Token(Format(ChapterToken(id)))
  {
    var t, ref := ChapterToken(id), Ref(ci + 1, None, None);
    assert Tokens.Canonical(t) && BuildsOn.Canonical(ref);
    hide *;
    ChapterAt(doc, m, id, ci);
    TokenRoundTrip(t);
    TokenShown(Format(t), t, m);
    LabelOfChapter(ci);
    LabelsAreNumbers(ref);
    NumberNormalized(ref.Label(), ref, other, m, map[]);
  }

  /** What a number normalises to, when it does. */
  lemma NumberNormalizes(doc: Doc, m: Maps, raw: string, ref: Ref, selfId: string, remap: map<string, string>)
    requires IsMaps(doc, m) && ParseIdToken(raw).None? && ParseRef(raw) == Some(ref)
        && NormalizeRef(raw, selfId, m, remap).Token?
    ensures ref.section.None? ==> (
      && ref.chapter > 0 && ref.chapter in m.chByNum && HasChapter(doc, m.chByNum[ref.chapter], ref.chapter - 1)
      && NormalizeRef(raw, selfId, m, remap).token == Format(ChapterToken(m.chByNum[ref.chapter])))
    ensures ref.section.Some? ==>
              var p := (ref.chapter, ref.section.value);
              && p.0 > 0 && p.1 > 0 && p in m.secByPos && HasSection(doc, m.secByPos[p], p.0 - 1, p.1 - 1)
              && NormalizeRef(raw, selfId, m, remap).token == Format(SectionToken(m.secByPos[p], ref.metric))
  {
    hide ParseIdToken, ParseRef, Format, Ref.Label, HasSection, HasChapter, Labelled, Numbered;
  }

  lemma CanonicalParts(ref: Ref)
    requires BuildsOn.Canonical(ref)
    ensures IsMetric(ref.metric) && (ref.section.None? ==> ref == Ref(ref.chapter, None, None))
  {
  }

  lemma IdsAreUuids(doc: Doc)
    requires Uuids(doc)
    ensures forall id, ci: nat, si: nat :: HasSection(doc, id, ci, si) ==> IsUuid(id)
    ensures forall id, ci: nat :: HasChapter(doc, id, ci) ==> IsUuid(id)
  {
    hide IsUuid, HasSection, HasChapter;
  }

  /** A reference by number that normalises to a token is shown as the label it was written as. */
  lemma NumberRoundTrip(doc: Doc, m: Maps, raw: string, selfId: string, remap: map<string, string>)
    requires IsMaps(doc, m) && UniqueIds(doc) && Uuids(doc) && ParseRef(raw).Some?
    requires NormalizeRef(raw, selfId, m, remap).Token?
    ensures TokenToLabel(NormalizeRef(raw, selfId, m, remap).token, m) == Some(ParseRef(raw).value.Label())
  {
    hide *;
    var ref := ParseRef(raw).value;
    NumbersAreNotTokens(raw);
    BuildsOn.ParsedIsCanonical(raw);
    CanonicalParts(ref);
    NumberNormalizes(doc, m, raw, ref, selfId, remap);
    IdsAreUuids(doc);
    if ref.section.None? {
      ChapterTokensFollowTheirChapter(doc, m, m.chByNum[ref.chapter], ref.chapter - 1, selfId);
      LabelOfChapter(ref.chapter - 1);
    } else {
      var p := (ref.chapter, ref.section.value);
      SectionTokensFollowTheirSection(doc, m, m.secByPos[p], ref.metric, p.0 - 1, p.1 - 1, selfId);
      LabelOfSection(p.0 - 1, p.1 - 1, ref.metric);
    }
  }

  // ---------- normalize_outline ----------

  /** The loop over one section's references: duplicates are skipped, and the third one stops it. */
  function NormalizeFrom(raws: seq<string>, k: nat, out: seq<string>, problems: seq<Problem>,
                         selfId: string, m: Maps, remap: map<string, string>): (seq<string>, seq<Problem>)
    requires k <= |raws|
    decreases |raws| - k
  {
    if k == |raws| then (out, problems)
    else
      match NormalizeRef(raws[k], selfId, m, remap)
      case Problem(p) => NormalizeFrom(raws, k + 1, out, problems + [p], selfId, m, remap)
      case Token(t) =>
        if t in out then NormalizeFrom(raws, k + 1, out, problems, selfId, m, remap)
        else if |out| >= MAX_REFS_PER_SECTION then (out, problems + [TooManyRefs])
        else NormalizeFrom(raws, k + 1, out + [t], problems, selfId, m, remap)
  }

  function RewriteSection(sec: Section, m: Maps, remap: map<string, string>): (Section, seq<Problem>) {
    if sec.buildsOn == [] || sec.id.None? then (sec, [])
    else
      var (out, problems) := NormalizeFrom(sec.buildsOn, 0, [], [], sec.id.value, m, remap);
      (sec.(buildsOn := out), problems)
  }

  function RewriteSections(sections: seq<Section>, m: Maps, remap: map<string, string>): (r: seq<Section>)
    ensures |r| == |sections| && forall k :: 0 <= k < |r| ==> r[k] == RewriteSection(sections[k], m, remap).0
  {
    seq(|sections|, k requires 0 <= k < |sections| => RewriteSection(sections[k], m, remap).0)
  }

  function Rewrite(doc: Doc, m: Maps, remap: map<string, string>): (r: Doc)
    ensures |r| == |doc| && forall k :: 0 <= k < |r| ==>
        r[k] == doc[k].(sections := RewriteSections(doc[k].sections, m, remap))
  {
    seq(|doc|, k requires 0 <= k < |doc| => doc[k].(sections := RewriteSections(doc[k].sections, m, remap)))
  }

  function SectionProblems(sections: seq<Section>, m: Maps, remap: map<string, string>): seq<Problem> {
    if sections == [] then []
    else SectionProblems(sections[..|sections| - 1], m, remap) + RewriteSection(sections[|sections| - 1], m, remap).1
  }

  function Problems(doc: Doc, m: Maps, remap: map<string, string>): seq<Problem> {
    if doc == [] then []
    else Problems(doc[..|doc| - 1], m, remap) + SectionProblems(doc[|doc| - 1].sections, m, remap)
  }

  /** The reference loop of normalize_outline. */
  method NormalizeRefs(raws: seq<string>, selfId: string, m: Maps, remap: map<string, string>)
      returns (out: seq<string>, problems: seq<Problem>)
    ensures (out, problems) == NormalizeFrom(raws, 0, [], [], selfId, m, remap)
  {
    hide NormalizeRef;
    out, problems := [], [];
    var k := 0;
    while k < |raws|
      invariant 0 <= k <= |raws|
      invariant NormalizeFrom(raws, k, out, problems, selfId, m, remap)
          == NormalizeFrom(raws, 0, [], [], selfId, m, remap)
    {
      var r := NormalizeRef(raws[k], selfId, m, remap);
      if r.Problem? {
        problems := problems + [r.problem];
      } else if r.token in out {
      } else if |out| >= MAX_REFS_PER_SECTION {
        problems := problems + [TooManyRefs];
        return;
      } else {
        out := out + [r.token];
      }
      k := k + 1;
    }
  }

  lemma NoSections(m: Maps, remap: map<string, string>)
    ensures RewriteSections([], m, remap) == [] && SectionProblems([], m, remap) == []
  {
  }

  lemma OneMoreSection(given: seq<Section>, si: nat, m: Maps, remap: map<string, string>)
    requires si < |given|
    ensures var (section, problems) := RewriteSection(given[si], m, remap);
      && RewriteSections(given[..si + 1], m, remap) == RewriteSections(given[..si], m, remap) + [section]
      && SectionProblems(given[..si + 1], m, remap) == SectionProblems(given[..si], m, remap) + problems
  {
    hide RewriteSection;
    assert given[..si + 1][..si] == given[..si];
  }

  /** The loop over one chapter's sections. */
  method NormalizeSections(given: seq<Section>, m: Maps, remap: map<string, string>)
      returns (sections: seq<Section>, problems: seq<Problem>)
    ensures sections == RewriteSections(given, m, remap) && problems == SectionProblems(given, m, remap)
  {
    hide NormalizeFrom, RewriteSections, SectionProblems;
    sections, problems := [], [];
    NoSections(m, remap);
    for si := 0 to |given|
      invariant sections == RewriteSections(given[..si], m, remap) && problems == SectionProblems(given[..si], m, remap)
    {
      var sec := given[si];
      OneMoreSection(given, si, m, remap);
      if sec.buildsOn == [] || sec.id.None? {
        sections := sections + [sec];
        assert problems + [] == problems;
      } else {
        var refs, more := NormalizeRefs(sec.buildsOn, sec.id.value, m, remap);
        sections, problems := sections + [sec.(buildsOn := refs)], problems + more;
      }
    }
    assert given[..|given|] == given;
  }

  /** The normalised outline and its problems, for some position maps of the identified document. */
  ghost predicate IsNormalization(doc: Doc, renew: bool, supply: Supply, out: Doc, problems: seq<Problem>) {
    exists m: Maps ::
      IsMaps(Identified(doc, renew, supply), m)
      && out == Rewrite(Identified(doc, renew, supply), m, Remap(doc, renew, supply))
      && problems == Problems(Identified(doc, renew, supply), m, Remap(doc, renew, supply))
  }

  /** normalize_outline */
  method NormalizeOutline(doc: Doc, renew: bool, supply: Supply)
      returns (out: Doc, problems: seq<Problem>, ghost m: Maps)
    ensures IsMaps(Identified(doc, renew, supply), m)
    ensures out == Rewrite(Identified(doc, renew, supply), m, Remap(doc, renew, supply))
    ensures problems == Problems(Identified(doc, renew, supply), m, Remap(doc, renew, supply))
    ensures IsNormalization(doc, renew, supply, out, problems)
  {
    hide Identified, Remap, IsMaps, SectionProblems, RewriteSections;
    var normalized, remap := EnsureOutlineIds(doc, renew, supply);
    var maps := PositionMaps(normalized);
    m := maps;
    out, problems := [], [];
    for ci := 0 to |normalized|
      invariant out == Rewrite(normalized[..ci], maps, remap) && problems == Problems(normalized[..ci], maps, remap)
    {
      var sections, found := NormalizeSections(normalized[ci].sections, maps, remap);
      assert normalized[..ci + 1][..ci] == normalized[..ci];
      out, problems := out + [normalized[ci].(sections := sections)], problems + found;
    }
    assert normalized[..|normalized|] == normalized;
  }

  // ---------- Normalisation is idempotent ----------

  /** A token in the maps is a fixed point of normalisation. */
  ghost predicate Stable(token: string, selfId: string, m: Maps) {
    NormalizeRef(token, selfId, m, map[]) == Token(token)
  }

  lemma FormattedIsStable(t: Tokens.Token, selfId: string, m: Maps)
    requires Tokens.Canonical(t)
    requires if t.ChapterToken? then t.id in m.numByCh else t.id in m.labelBySec && t.id != selfId
    ensures Stable(Format(t), selfId, m)
  {
    TokenRoundTrip(t);
    hide ParseIdToken, ParseRef, Format;
  }

  /** What a normalised reference is made of. */
  lemma NormalizedIsCanonical(raw: string, selfId: string, m: Maps, remap: map<string, string>)
      returns (t: Tokens.Token)
    requires NormalizeRef(raw, selfId, m, remap).Token?
    ensures NormalizeRef(raw, selfId, m, remap).token == Format(t)
    ensures t.SectionToken? ==>
        IsMetric(t.metric) && t.id != selfId && (t.id in m.labelBySec || t.id in m.secByPos.Values)
    ensures t.ChapterToken? ==> t.id in m.numByCh || t.id in m.chByNum.Values
  {
    hide ParseRef, ParseIdToken, Format, Ref.Label;
    if ParseIdToken(raw).Some? {
      var parsed := ParseIdToken(raw).value;
      Tokens.ParsedIsCanonical(raw);
      t := if parsed.ChapterToken? then ChapterToken(Moved(remap, parsed.id))
          else SectionToken(Moved(remap, parsed.id), parsed.metric);
    } else {
      var ref := ParseRef(raw).value;
      BuildsOn.ParsedIsCanonical(raw);
      if ref.section.None? {
        t := ChapterToken(m.chByNum[ref.chapter]);
      } else {
        t := SectionToken(m.secByPos[(ref.chapter, ref.section.value)], ref.metric);
        assert (ref.chapter, ref.section.value) in m.secByPos;
      }
    }
  }

  lemma RecordedSectionIds(doc: Doc, m: Maps, m': Maps, id: string)
    requires IsMaps(doc, m) && IsMaps(doc, m') && Uuids(doc)
    ensures id in m.labelBySec || id in m.secByPos.Values ==> id in m'.labelBySec && IsUuid(id)
  {
    hide IsUuid, SectionLabel, NatToString, HasSection, ChaptersMapped;
    if id in m.secByPos.Values {
      var p :| p in m.secByPos && m.secByPos[p] == id;
      InDocument(doc, id, p.0 - 1, p.1 - 1);
    } else if id in m.labelBySec {
      assert Labelled(doc, m, id);
      var ci: nat, si: nat :| HasSection(doc, id, ci, si);
      InDocument(doc, id, ci, si);
    }
  }

  lemma InDocument(doc: Doc, id: string, ci: nat, si: nat)
    requires HasSection(doc, id, ci, si)
    ensures Seen(|doc|, 0, ci, si)
  {
  }

  lemma RecordedChapterIds(doc: Doc, m: Maps, m': Maps, id: string)
    requires IsMaps(doc, m) && IsMaps(doc, m') && Uuids(doc)
    ensures id in m.numByCh || id in m.chByNum.Values ==> id in m'.numByCh && IsUuid(id)
  {
    hide IsUuid, SectionLabel, NatToString, SectionsMapped;
    if id in m.chByNum.Values {
      var n :| n in m.chByNum && m.chByNum[n] == id;
      assert HasChapter(doc, id, n - 1);
    } else if id in m.numByCh {
      assert Numbered(doc, m, id);
    }
  }

  /** Ids recorded by position are recorded by id too, and are the document's uuids. */
  lemma RecordedIds(doc: Doc, m: Maps, m': Maps, id: string)
    requires IsMaps(doc, m) && IsMaps(doc, m') && Uuids(doc)
    ensures id in m.labelBySec || id in m.secByPos.Values ==> id in m'.labelBySec && IsUuid(id)
    ensures id in m.numByCh || id in m.chByNum.Values ==> id in m'.numByCh && IsUuid(id)
  {
    hide *;
    RecordedSectionIds(doc, m, m', id);
    RecordedChapterIds(doc, m, m', id);
  }

  lemma NormalizedIsStable(doc: Doc, m: Maps, m': Maps, raw: string, selfId: string, remap: map<string, string>)
    requires IsMaps(doc, m) && IsMaps(doc, m') && Uuids(doc) && NormalizeRef(raw, selfId, m, remap).Token?
    ensures Stable(NormalizeRef(raw, selfId, m, remap).token, selfId, m')
  {
    hide IsMaps, Uuids, NormalizeRef, Format, IsUuid, IsMetric, Stable;
    var t := NormalizedIsCanonical(raw, selfId, m, remap);
    RecordedIds(doc, m, m', t.id);
    assert Tokens.Canonical(t);
    FormattedIsStable(t, selfId, m');
  }

  /** What the reference loop keeps about its output. */
  ghost predicate Clean(out: seq<string>, selfId: string, m: Maps) {
    && |out| <= MAX_REFS_PER_SECTION
    && (forall i :: 0 <= i < |out| ==> Stable(out[i], selfId, m))
    && (forall i, j :: 0 <= i < j < |out| ==> out[i] != out[j])
  }

  lemma {:induction false} LoopOutputIsClean(doc: Doc, m: Maps, m': Maps, raws: seq<string>, k: nat, out: seq<string>,
      problems: seq<Problem>,
                                             selfId: string, remap: map<string, string>)
    requires IsMaps(doc, m) && IsMaps(doc, m') && Uuids(doc) && k <= |raws| && Clean(out, selfId, m')
    ensures Clean(NormalizeFrom(raws, k, out, problems, selfId, m, remap).0, selfId, m')
    decreases |raws| - k
  {
    hide IsMaps, Uuids, NormalizeRef, Stable;
    if k < |raws| {
      match NormalizeRef(raws[k], selfId, m, remap)
      case Problem(p) => LoopOutputIsClean(doc, m, m', raws, k + 1, out, problems + [p], selfId, remap);
      case Token(t) =>
        NormalizedIsStable(doc, m, m', raws[k], selfId, remap);
        if t in out {
          LoopOutputIsClean(doc, m, m', raws, k + 1, out, problems, selfId, remap);
        } else if |out| < MAX_REFS_PER_SECTION {
          LoopOutputIsClean(doc, m, m', raws, k + 1, out + [t], problems, selfId, remap);
        }
    }
  }

  lemma {:induction false} CleanIsFixed(raws: seq<string>, k: nat, selfId: string, m: Maps)
    requires k <= |raws| && Clean(raws, selfId, m)
    ensures NormalizeFrom(raws, k, raws[..k], [], selfId, m, map[]) == (raws, [])
    decreases |raws| - k
  {
    hide NormalizeRef;
    if k < |raws| {
      assert raws[k] !in raws[..k] && raws[..k] + [raws[k]] == raws[..k + 1];
      assert Stable(raws[k], selfId, m);
      CleanIsFixed(raws, k + 1, selfId, m);
    } else {
      assert raws[..k] == raws;
    }
  }

  lemma RewrittenSectionIsFixed(doc: Doc, m: Maps, m': Maps, sec: Section, remap: map<string, string>)
    requires IsMaps(doc, m) && IsMaps(doc, m') && Uuids(doc)
    ensures RewriteSection(RewriteSection(sec, m, remap).0, m', map[]) == (RewriteSection(sec, m, remap).0, [])
  {
    hide IsMaps, Uuids, NormalizeFrom;
    if sec.buildsOn != [] && sec.id.Some? {
      var out := NormalizeFrom(sec.buildsOn, 0, [], [], sec.id.value, m, remap).0;
      LoopOutputIsClean(doc, m, m', sec.buildsOn, 0, [], [], sec.id.value, remap);
      CleanIsFixed(out, 0, sec.id.value, m');
      assert out[..0] == [];
    }
  }

  lemma {:induction false} NoSectionProblems(sections: seq<Section>, m: Maps)
    requires forall k :: 0 <= k < |sections| ==> RewriteSection(sections[k], m, map[]).1 == []
    ensures SectionProblems(sections, m, map[]) == []
  {
    hide RewriteSection;
    if sections != [] { NoSectionProblems(sections[..|sections| - 1], m); }
  }

  lemma {:induction false} NoProblems(doc: Doc, m: Maps)
    requires forall ci :: 0 <= ci < |doc| ==> SectionProblems(doc[ci].sections, m, map[]) == []
    ensures Problems(doc, m, map[]) == []
  {
    hide SectionProblems;
    if doc != [] { NoProblems(doc[..|doc| - 1], m); }
  }

  lemma RewrittenDocIsFixed(doc: Doc, m: Maps, m': Maps, remap: map<string, string>)
    requires IsMaps(doc, m) && IsMaps(doc, m') && Uuids(doc)
    ensures Rewrite(Rewrite(doc, m, remap), m', map[]) == Rewrite(doc, m, remap)
    ensures Problems(Rewrite(doc, m, remap), m', map[]) == []
  {
    hide IsMaps, Uuids, RewriteSection;
    var out := Rewrite(doc, m, remap);
    forall ci | 0 <= ci < |out|
      ensures RewriteSections(out[ci].sections, m', map[]) == out[ci].sections
      ensures SectionProblems(out[ci].sections, m', map[]) == []
    {
      forall si | 0 <= si < |out[ci].sections|
        ensures RewriteSection(out[ci].sections[si], m', map[]) == (out[ci].sections[si], [])
      {
        RewrittenSectionIsFixed(doc, m, m', doc[ci].sections[si], remap);
      }
      NoSectionProblems(out[ci].sections, m');
    }
    NoProblems(out, m');
  }

  /** Rewriting references leaves the ids where they are. */
  lemma RewriteKeepsIds(doc: Doc, m: Maps, remap: map<string, string>)
    ensures forall id, ci: nat, si: nat ::
        HasSection(Rewrite(doc, m, remap), id, ci, si) <==> HasSection(doc, id, ci, si)
    ensures forall id, ci: nat :: HasChapter(Rewrite(doc, m, remap), id, ci) <==> HasChapter(doc, id, ci)
  {
    hide NormalizeFrom;
  }

  lemma {:induction false} RewriteKeepsFlat(doc: Doc, m: Maps, remap: map<string, string>)
    ensures Flat(Rewrite(doc, m, remap)) == Flat(doc)
  {
    hide NormalizeFrom;
    if doc != [] {
      var init := doc[..|doc| - 1];
      var out := Rewrite(doc, m, remap);
      RewriteKeepsFlat(init, m, remap);
      assert out[..|out| - 1] == Rewrite(init, m, remap);
      assert SectionIds(out[|out| - 1].sections) == SectionIds(doc[|doc| - 1].sections);
    }
  }

  lemma SameItemsSameMaps(doc: Doc, doc': Doc, m: Maps)
    requires IsMaps(doc', m) && |doc| == |doc'|
    requires forall id, ci: nat, si: nat :: HasSection(doc', id, ci, si) <==> HasSection(doc, id, ci, si)
    requires forall id, ci: nat :: HasChapter(doc', id, ci) <==> HasChapter(doc, id, ci)
    ensures IsMaps(doc, m)
  {
    hide HasSection, HasChapter, SectionLabel, NatToString;
    forall id | id in m.labelBySec ensures Labelled(doc, m, id) { assert Labelled(doc', m, id); }
    forall id | id in m.numByCh ensures Numbered(doc, m, id) { assert Numbered(doc', m, id); }
  }

  lemma {:induction false} FlatOfWithIds(doc: Doc, ids: seq<string>)
    requires |ids| == |Flat(doc)|
    ensures HasIds(Flat(WithIds(doc, ids)), ids)
  {
    if doc != [] {
      hide Flat, WithIds, HasIds;
      var n := |doc| - 1;
      FlatLast(doc);
      var k := |Flat(doc[..n])|;
      FlatOfWithIds(doc[..n], ids[..k]);
      WithIdsLast(doc, ids);
      var init, ch := WithIds(doc[..n], ids[..k]), Chapter(Some(ids[k]), WithSectionIds(doc[n].sections, ids[k + 1..]));
      FlatSnoc(init, ch);
      HasIdsLength(Flat(init), ids[..k]);
      HasIdsSnoc(Flat(init), ch, ids);
    }
  }

  lemma HasIdsLength(flat: seq<Option<string>>, ids: seq<string>)
    requires HasIds(flat, ids)
    ensures |flat| == |ids|
  {
  }

  lemma FlatLast(doc: Doc)
    requires doc != []
    ensures |Flat(doc)| == |Flat(doc[..|doc| - 1])| + 1 + |doc[|doc| - 1].sections|
  {
  }

  lemma WithIdsLast(doc: Doc, ids: seq<string>)
    requires doc != [] && |ids| == |Flat(doc)| == |Flat(doc[..|doc| - 1])| + 1 + |doc[|doc| - 1].sections|
    ensures var n := |doc| - 1;
      var k := |Flat(doc[..n])|;
      WithIds(doc, ids)
      == WithIds(doc[..n], ids[..k]) + [Chapter(Some(ids[k]), WithSectionIds(doc[n].sections, ids[k + 1..]))]
  {
    hide Flat;
  }

  lemma FlatSnoc(doc: Doc, ch: Chapter)
    ensures Flat(doc + [ch]) == Flat(doc) + [ch.id] + SectionIds(ch.sections)
  {
    assert (doc + [ch])[..|doc|] == doc;
  }

  lemma HasIdsSnoc(flat: seq<Option<string>>, ch: Chapter, ids: seq<string>)
    requires |flat| < |ids| && HasIds(flat, ids[..|flat|]) && ch.id == Some(ids[|flat|])
    requires |ch.sections| == |ids| - |flat| - 1
    requires forall i :: 0 <= i < |ch.sections| ==> ch.sections[i].id == Some(ids[|flat| + 1..][i])
    ensures HasIds(flat + [ch.id] + SectionIds(ch.sections), ids)
  {
    var all, k := flat + [ch.id] + SectionIds(ch.sections), |flat|;
    forall i | 0 <= i < |ids| ensures all[i] == Some(ids[i]) {
      if i < k {
        assert all[i] == flat[i] && ids[..k][i] == ids[i];
      } else if i > k {
        assert all[i] == SectionIds(ch.sections)[i - k - 1] && ids[k + 1..][i - k - 1] == ids[i];
      }
    }
  }

  /** The items are the given ids, in document order. */
  ghost predicate HasIds(flat: seq<Option<string>>, ids: seq<string>) {
    |flat| == |ids| && forall k :: 0 <= k < |ids| ==> flat[k] == Some(ids[k])
  }

  lemma {:induction false} WithOwnIds(doc: Doc, ids: seq<string>)
    requires HasIds(Flat(doc), ids)
    ensures WithIds(doc, ids) == doc
  {
    if doc != [] {
      var n := |doc| - 1;
      var k, last := |Flat(doc[..n])|, doc[n];
      assert Flat(doc) == Flat(doc[..n]) + [last.id] + SectionIds(last.sections);
      WithOwnIds(doc[..n], ids[..k]);
      OwnSectionIds(Flat(doc[..n]), last, ids);
      assert doc == doc[..n] + [last];
    }
  }

  lemma SameSectionIds(sections: seq<Section>, ids: seq<string>)
    requires |ids| == |sections| && forall si :: 0 <= si < |sections| ==> sections[si].id == Some(ids[si])
    ensures WithSectionIds(sections, ids) == sections
  {
  }

  lemma OwnSectionIds(flat: seq<Option<string>>, last: Chapter, ids: seq<string>)
    requires HasIds(flat + [last.id] + SectionIds(last.sections), ids)
    ensures last.id == Some(ids[|flat|]) && WithSectionIds(last.sections, ids[|flat| + 1..]) == last.sections
  {
    hide WithSectionIds;
    var k, all := |flat|, flat + [last.id] + SectionIds(last.sections);
    assert all[k] == last.id;
    var own := ids[k + 1..];
    forall si | 0 <= si < |last.sections| ensures last.sections[si].id == Some(own[si]) {
      assert all[k + 1 + si] == SectionIds(last.sections)[si];
    }
    SameSectionIds(last.sections, own);
  }

  /** A document whose items have distinct ids already is left alone by ensure_outline_ids. */
  lemma IdentifiedIsFixed(doc: Doc, ids: seq<string>, supply: Supply)
    requires HasIds(Flat(doc), ids) && Distinct(ids)
    ensures Identified(doc, false, supply) == doc && Remap(doc, false, supply) == map[]
  {
    WithOwnIds(doc, ids);
    OwnIdsAreKept(Flat(doc), ids, supply);
    hide *;
  }

  lemma {:induction false} OwnIdsAreKept(flat: seq<Option<string>>, ids: seq<string>, supply: Supply)
    requires HasIds(flat, ids) && Distinct(ids)
    ensures ClaimAll(flat, false, supply).1 == ids && ClaimAll(flat, false, supply).0.remap == map[]
    ensures forall id :: id in ClaimAll(flat, false, supply).0.seen <==> id in ids
    decreases |ids|
  {
    if ids != [] {
      var n := |ids| - 1;
      OwnIdsAreKept(flat[..n], ids[..n], supply);
      assert flat == flat[..n] + [flat[n]];
      assert ids == ids[..n] + [ids[n]] && ids[n] !in ids[..n];
    }
  }

  /** Normalising a normalised outline again, ids kept, changes nothing and finds no problem, whatever
      references the original held, whether the first pass kept the ids or renewed them, and even when
      ids were missing or repeated. */
  lemma NormalizationIsIdempotent(doc: Doc, renew: bool, supply: Supply, m: Maps, supply': Supply, m': Maps)
    requires FreshSupply(Flat(doc), supply) && Uuids(Identified(doc, renew, supply))
        && IsMaps(Identified(doc, renew, supply), m)
    requires IsMaps(Identified(Rewrite(Identified(doc, renew, supply), m, Remap(doc, renew, supply)), false, supply'),
        m')
    ensures var out := Rewrite(Identified(doc, renew, supply), m, Remap(doc, renew, supply));
      && Identified(out, false, supply') == out && Remap(out, false, supply') == map[]
      && Rewrite(out, m', map[]) == out && Problems(out, m', map[]) == []
  {
    var given, remap, ids := Identified(doc, renew, supply), Remap(doc, renew, supply),
        ClaimAll(Flat(doc), renew, supply).1;
    ClaimsAreDistinct(Flat(doc), renew, supply);
    FlatOfWithIds(doc, ids);
    assert given == WithIds(doc, ids);
    hide *;
    var out := Rewrite(given, m, remap);
    RewriteKeepsFlat(given, m, remap);
    IdentifiedIsFixed(out, ids, supply');
    RewriteKeepsIds(given, m, remap);
    SameItemsSameMaps(given, out, m');
    RewrittenDocIsFixed(given, m, m', remap);
  }
}
