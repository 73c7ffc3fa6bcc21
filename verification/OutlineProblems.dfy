/** What normalisation does with one reference and with one list of references, said of the document
    (src/core/outline.py: _normalize_ref and the loop of normalize_outline). */
module OutlineProblems {
  import opened Text
  import opened BuildsOn
  import opened Tokens
  import opened Outline
  import opened OutlineRefs
  import opened FirstOccurrences

  // ---------- One reference ----------

  ghost predicate HasChapterId(doc: Doc, id: string) {
    exists ci: nat :: HasChapter(doc, id, ci)
  }

  ghost predicate HasSectionId(doc: Doc, id: string) {
    exists ci: nat, si: nat :: HasSection(doc, id, ci, si)
  }

  /** A chapter token stays a token of its chapter, moved to the new id, or names no chapter. */
  lemma ChapterTokenNormalizes(doc: Doc, m: Maps, raw: string, id: string, selfId: string, remap: map<string, string>)
    requires IsMaps(doc, m) && ParseIdToken(raw) == Some(ChapterToken(id))
    ensures var now := if id in remap then remap[id] else id;
      NormalizeRef(raw, selfId, m, remap)
      == if HasChapterId(doc, now) then Token("c:" + now) else Problem(NoSuchChapter(raw))
  {
    hide ParseIdToken, SectionsMapped;
    NumberedIff(doc, m, Moved(remap, id));
  }

  lemma NumberedIff(doc: Doc, m: Maps, id: string)
    requires IsMaps(doc, m)
    ensures id in m.numByCh <==> HasChapterId(doc, id)
  {
    hide SectionsMapped, NatToString;
    if id in m.numByCh { assert Numbered(doc, m, id); }
    if ci: nat :| HasChapter(doc, id, ci) { assert ci < |doc|; }
  }

  lemma LabelledIff(doc: Doc, m: Maps, id: string)
    requires IsMaps(doc, m)
    ensures id in m.labelBySec <==> HasSectionId(doc, id)
  {
    hide ChaptersMapped, SectionLabel;
    if id in m.labelBySec { assert Labelled(doc, m, id); }
    if ci: nat, si: nat :| HasSection(doc, id, ci, si) { assert Seen(|doc|, 0, ci, si); }
  }

  /** A section token stays a token of its section with its metric, unless there is no such section, or it is
      the section that holds the reference. */
  lemma SectionTokenNormalizes(doc: Doc, m: Maps, raw: string, id: string, metric: Option<string>, selfId: string,
                               remap: map<string, string>)
    requires IsMaps(doc, m) && ParseIdToken(raw) == Some(SectionToken(id, metric))
    ensures var now := if id in remap then remap[id] else id;
      NormalizeRef(raw, selfId, m, remap)
      == if !HasSectionId(doc, now) then Problem(NoSuchSection(raw))
         else if now == selfId then Problem(SelfReference)
         else Token("s:" + now + if metric.None? then "" else "(" + metric.value + ")")
  {
    hide ParseIdToken, ChaptersMapped;
    LabelledIff(doc, m, Moved(remap, id));
  }

  lemma NumberByMaps(m: Maps, raw: string, ref: Ref, selfId: string, remap: map<string, string>)
    requires ParseIdToken(raw).None? && ParseRef(raw) == Some(ref)
    ensures ref.section.None? ==>
      NormalizeRef(raw, selfId, m, remap) ==
      if ref.chapter in m.chByNum then Token("c:" + m.chByNum[ref.chapter]) else Problem(NoSuchChapter(ref.Label()))
    ensures ref.section.Some? ==>
      NormalizeRef(raw, selfId, m, remap) ==
      var p := (ref.chapter, ref.section.value);
      if p !in m.secByPos then Problem(NoSuchSection(ref.Label()))
      else if m.secByPos[p] == selfId then Problem(SelfReference)
      else Token("s:" + m.secByPos[p] + if ref.metric.None? then "" else "(" + ref.metric.value + ")")
  {
    hide ParseIdToken, ParseRef, Ref.Label;
  }

  /** A number is read by position: as the chapter that stands there now. */
  lemma ChapterNumberNormalizes(doc: Doc, m: Maps, raw: string, ref: Ref, selfId: string, remap: map<string, string>)
    requires IsMaps(doc, m) && ParseRef(raw) == Some(ref) && ref.section.None?
    ensures NormalizeRef(raw, selfId, m, remap)
      == if 1 <= ref.chapter <= |doc| && doc[ref.chapter - 1].id.Some? then Token("c:" + doc[ref.chapter - 1].id.value)
         else Problem(NoSuchChapter(ref.Label()))
  {
    hide *;
    NumbersAreNotTokens(raw);
    NumberByMaps(m, raw, ref, selfId, remap);
    ChapterPlaceIff(doc, m, ref.chapter);
  }

  /** Or as the section that stands there, unless it is the one that holds the reference. */
  lemma SectionNumberNormalizes(doc: Doc, m: Maps, raw: string, ref: Ref, selfId: string, remap: map<string, string>)
    requires IsMaps(doc, m) && ParseRef(raw) == Some(ref) && ref.section.Some?
    ensures var ci, si := ref.chapter - 1, ref.section.value - 1;
      NormalizeRef(raw, selfId, m, remap)
      == if !(0 <= ci < |doc| && 0 <= si < |doc[ci].sections| && doc[ci].sections[si].id.Some?) then
           Problem(NoSuchSection(ref.Label()))
         else if doc[ci].sections[si].id.value == selfId then Problem(SelfReference)
         else Token("s:" + doc[ci].sections[si].id.value
                    + if ref.metric.None? then "" else "(" + ref.metric.value + ")")
  {
    hide *;
    NumbersAreNotTokens(raw);
    NumberByMaps(m, raw, ref, selfId, remap);
    SectionPlaceIff(doc, m, ref.chapter, ref.section.value);
  }

  lemma ChapterPlaceIff(doc: Doc, m: Maps, n: nat)
    requires IsMaps(doc, m)
    ensures n in m.chByNum <==> 1 <= n <= |doc| && doc[n - 1].id.Some?
    ensures n in m.chByNum ==> doc[n - 1].id == Some(m.chByNum[n])
  {
    hide SectionsMapped, NatToString, Numbered;
    if 1 <= n <= |doc| && doc[n - 1].id.Some? { assert HasChapter(doc, doc[n - 1].id.value, n - 1); }
    if n in m.chByNum { assert HasChapter(doc, m.chByNum[n], n - 1); }
  }

  lemma SectionPlaceIff(doc: Doc, m: Maps, c: nat, s: nat)
    requires IsMaps(doc, m)
    ensures (c, s) in m.secByPos <==>
      1 <= c <= |doc| && 1 <= s <= |doc[c - 1].sections| && doc[c - 1].sections[s - 1].id.Some?
    ensures (c, s) in m.secByPos ==> doc[c - 1].sections[s - 1].id == Some(m.secByPos[(c, s)])
  {
    hide ChaptersMapped, SectionLabel, Labelled;
    if 1 <= c <= |doc| && 1 <= s <= |doc[c - 1].sections| && doc[c - 1].sections[s - 1].id.Some? {
      assert HasSection(doc, doc[c - 1].sections[s - 1].id.value, c - 1, s - 1) && Seen(|doc|, 0, c - 1, s - 1);
    }
    if (c, s) in m.secByPos { assert HasSection(doc, m.secByPos[(c, s)], c - 1, s - 1); }
  }

  /** Text that is neither is told as unreadable. */
  lemma UnreadableIff(m: Maps, raw: string, selfId: string, remap: map<string, string>)
    ensures NormalizeRef(raw, selfId, m, remap) == Problem(Unreadable(raw)) <==>
      ParseIdToken(raw).None? && ParseRef(raw).None?
  {
    hide ParseIdToken, ParseRef, Format, Ref.Label;
  }

  /** What a stored reference is shown as: a number as itself, a token as the present number of what it names,
      and nothing when that is gone or the text cannot be read. */
  lemma ShownIff(doc: Doc, m: Maps, raw: string)
    requires IsMaps(doc, m)
    ensures ParseRef(raw).Some? ==> TokenToLabel(raw, m) == Some(raw)
    ensures ParseRef(raw).None? && ParseIdToken(raw).None? ==> TokenToLabel(raw, m) == None
    ensures ParseIdToken(raw).Some? ==>
      (TokenToLabel(raw, m).Some? <==>
         var t := ParseIdToken(raw).value; if t.ChapterToken? then HasChapterId(doc, t.id) else HasSectionId(doc, t.id))
  {
    hide ParseIdToken, ParseRef, IsMaps;
    if ParseRef(raw).Some? { NumbersAreNotTokens(raw); }
    if ParseIdToken(raw).Some? {
      NumberedIff(doc, m, ParseIdToken(raw).value.id);
      LabelledIff(doc, m, ParseIdToken(raw).value.id);
    }
  }

  // ---------- One list ----------

  /** The tokens of the references that normalise, in order. */
  function TokensOf(raws: seq<string>, selfId: string, m: Maps, remap: map<string, string>): seq<string> {
    if raws == [] then []
    else
      var n := |raws| - 1;
      TokensOf(raws[..n], selfId, m, remap)
      + match NormalizeRef(raws[n], selfId, m, remap) case Token(t) => [t] case Problem(_) => []
  }

  function ProblemsOf(raws: seq<string>, selfId: string, m: Maps, remap: map<string, string>): seq<Problem> {
    if raws == [] then []
    else
      var n := |raws| - 1;
      ProblemsOf(raws[..n], selfId, m, remap)
      + match NormalizeRef(raws[n], selfId, m, remap) case Token(_) => [] case Problem(p) => [p]
  }

  function Distinct(raws: seq<string>, selfId: string, m: Maps, remap: map<string, string>): seq<string> {
    Firsts(TokensOf(raws, selfId, m, remap))
  }

  lemma OneMoreReference(raws: seq<string>, k: nat, selfId: string, m: Maps, remap: map<string, string>)
    requires k < |raws|
    ensures TokensOf(raws[..k + 1], selfId, m, remap) == TokensOf(raws[..k], selfId, m, remap)
      + match NormalizeRef(raws[k], selfId, m, remap) case Token(t) => [t] case Problem(_) => []
    ensures ProblemsOf(raws[..k + 1], selfId, m, remap) == ProblemsOf(raws[..k], selfId, m, remap)
      + match NormalizeRef(raws[k], selfId, m, remap) case Token(_) => [] case Problem(p) => [p]
  {
    hide NormalizeRef;
    assert raws[..k + 1][..k] == raws[..k];
  }

  /** Reference k brings the third distinct token. */
  ghost predicate IsThird(raws: seq<string>, k: nat, selfId: string, m: Maps, remap: map<string, string>) {
    && k < |raws| && |Distinct(raws[..k], selfId, m, remap)| == 2
    && |Distinct(raws[..k + 1], selfId, m, remap)| == 3
  }

  /** A list of at most two distinct tokens is normalised to those, and all its problems are told; otherwise
      the reference that would be the third ends the loop, and is told last. */
  ghost predicate IsNormalList(raws: seq<string>, out: seq<string>, problems: seq<Problem>,
                               selfId: string, m: Maps, remap: map<string, string>) {
    if |Distinct(raws, selfId, m, remap)| <= 2 then
      out == Distinct(raws, selfId, m, remap) && problems == ProblemsOf(raws, selfId, m, remap)
    else exists k: nat :: IsThird(raws, k, selfId, m, remap)
                          && out == Distinct(raws[..k], selfId, m, remap)
                          && problems == ProblemsOf(raws[..k], selfId, m, remap) + [TooManyRefs]
  }

  lemma DistinctNext(raws: seq<string>, k: nat, selfId: string, m: Maps, remap: map<string, string>)
    requires k < |raws|
    ensures var before, r := Distinct(raws[..k], selfId, m, remap), NormalizeRef(raws[k], selfId, m, remap);
      Distinct(raws[..k + 1], selfId, m, remap)
      == if r.Token? && r.token !in before then before + [r.token] else before
  {
    hide NormalizeRef, Firsts, TokensOf;
    OneMoreReference(raws, k, selfId, m, remap);
    var tokens, r := TokensOf(raws[..k], selfId, m, remap), NormalizeRef(raws[k], selfId, m, remap);
    if r.Token? {
      FirstsNext(tokens, r.token);
      FirstsHas(tokens, r.token);
    } else {
      assert tokens + [] == tokens;
    }
  }

  lemma {:induction false} DistinctGrows(raws: seq<string>, k: nat, selfId: string, m: Maps, remap: map<string, string>)
    requires k <= |raws|
    ensures |Distinct(raws[..k], selfId, m, remap)| <= |Distinct(raws, selfId, m, remap)|
    decreases |raws| - k
  {
    hide Distinct;
    if k == |raws| {
      assert raws[..k] == raws;
    } else {
      DistinctNext(raws, k, selfId, m, remap);
      DistinctGrows(raws, k + 1, selfId, m, remap);
    }
  }

  lemma LoopStep(raws: seq<string>, k: nat, out: seq<string>, problems: seq<Problem>,
                 selfId: string, m: Maps, remap: map<string, string>)
    requires k <= |raws|
    ensures NormalizeFrom(raws, k, out, problems, selfId, m, remap) ==
      if k == |raws| then (out, problems)
      else
        match NormalizeRef(raws[k], selfId, m, remap)
        case Problem(p) => NormalizeFrom(raws, k + 1, out, problems + [p], selfId, m, remap)
        case Token(t) =>
          if t in out then NormalizeFrom(raws, k + 1, out, problems, selfId, m, remap)
          else if |out| >= 2 then (out, problems + [TooManyRefs])
          else NormalizeFrom(raws, k + 1, out + [t], problems, selfId, m, remap)
  {
    hide NormalizeRef;
  }

  lemma {:induction false} LoopIs(raws: seq<string>, k: nat, selfId: string, m: Maps, remap: map<string, string>)
    requires k <= |raws| && |Distinct(raws[..k], selfId, m, remap)| <= 2
    ensures var (out, problems) := NormalizeFrom(raws, k, Distinct(raws[..k], selfId, m, remap),
                                                 ProblemsOf(raws[..k], selfId, m, remap), selfId, m, remap);
      IsNormalList(raws, out, problems, selfId, m, remap)
    decreases |raws| - k
  {
    hide Distinct, ProblemsOf, NormalizeFrom, NormalizeRef, TokensOf;
    LoopStep(raws, k, Distinct(raws[..k], selfId, m, remap), ProblemsOf(raws[..k], selfId, m, remap), selfId, m, remap);
    if k == |raws| {
      assert raws[..k] == raws;
    } else {
      DistinctNext(raws, k, selfId, m, remap);
      OneMoreReference(raws, k, selfId, m, remap);
      var before, told := Distinct(raws[..k], selfId, m, remap), ProblemsOf(raws[..k], selfId, m, remap);
      assert told + [] == told;
      var r := NormalizeRef(raws[k], selfId, m, remap);
      if r.Token? && r.token !in before && |before| >= 2 {
        assert IsThird(raws, k, selfId, m, remap);
        DistinctGrows(raws, k + 1, selfId, m, remap);
      } else {
        LoopIs(raws, k + 1, selfId, m, remap);
      }
    }
  }

  /** What normalisation makes of the list of a section. */
  lemma NormalListIs(raws: seq<string>, selfId: string, m: Maps, remap: map<string, string>)
    ensures var (out, problems) := NormalizeFrom(raws, 0, [], [], selfId, m, remap);
      IsNormalList(raws, out, problems, selfId, m, remap)
  {
    assert raws[..0] == [];
    assert Distinct([], selfId, m, remap) == [] && ProblemsOf([], selfId, m, remap) == [];
    hide *;
    LoopIs(raws, 0, selfId, m, remap);
  }
}
