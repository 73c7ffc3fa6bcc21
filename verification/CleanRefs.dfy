/** clean_refs (src/core/builds_on.py): which references of a plan are kept, and why others are not. */
module CleanRefs {
  import opened Text
  import opened BuildsOn
  import opened FirstOccurrences

  /** The section being cleaned, the sections and chapters that exist, and who wrote the list. */
  datatype Context = Context(selfLabel: string, labels: set<string>, chapters: set<nat>, allowMetric: bool)

  datatype Warning =
    | Unreadable(raw: string) | NoSuchChapter(text: string) | SelfReference(text: string) | NoSuchSection(text: string)
    | Truncated(count: nat)

  datatype Judged = Usable(text: string) | Refused(why: Warning)

  function Demoted(ctx: Context, r: Ref): Ref {
    if ctx.allowMetric then r else r.(metric := None)
  }

  /** "chapter.section", without the metric */
  function Base(chapter: nat, section: nat): string {
    Ref(chapter, Some(section), None).Label()
  }

  function JudgeRef(ctx: Context, r: Ref): Judged {
    if r.section.None? then if r.chapter in ctx.chapters then Usable(r.Label()) else Refused(NoSuchChapter(r.Label()))
    else if Base(r.chapter, r.section.value) == ctx.selfLabel then Refused(SelfReference(r.Label()))
    else if Base(r.chapter, r.section.value) !in ctx.labels then Refused(NoSuchSection(r.Label()))
    else Usable(r.Label())
  }

  /** One reference by itself: the label it is kept as, or the warning it is refused with. */
  function Judge(ctx: Context, raw: string): Judged {
    var r := ParseRef(raw);
    if r.None? then Refused(Unreadable(raw)) else JudgeRef(ctx, Demoted(ctx, r.value))
  }

  datatype Cleaned = Cleaned(refs: seq<string>, warnings: seq<Warning>, truncated: nat)

  function Step(ctx: Context, c: Cleaned, raw: string): Cleaned {
    match Judge(ctx, raw)
    case Refused(why) => c.(warnings := c.warnings + [why])
    case Usable(text) =>
      if text in c.refs then c
      else if |c.refs| >= MAX_REFS_PER_SECTION then c.(truncated := c.truncated + 1)
      else c.(refs := c.refs + [text])
  }

  const NOTHING := Cleaned([], [], 0)

  function CleanAll(ctx: Context, raw: seq<string>): Cleaned {
    if raw == [] then NOTHING else Step(ctx, CleanAll(ctx, raw[..|raw| - 1]), raw[|raw| - 1])
  }

  function Warnings(c: Cleaned): seq<Warning> {
    c.warnings + if c.truncated > 0 then [Truncated(c.truncated)] else []
  }

  /** clean_refs */
  method Clean(ctx: Context, raw: seq<string>) returns (refs: seq<string>, warnings: seq<Warning>)
    ensures refs == CleanAll(ctx, raw).refs && warnings == Warnings(CleanAll(ctx, raw))
  {
    hide Judge;
    refs, warnings := [], [];
    var seen, truncated := {}, 0;
    for i := 0 to |raw|
      invariant Cleaned(refs, warnings, truncated) == CleanAll(ctx, raw[..i])
      invariant forall text :: text in seen <==> text in refs
    {
      assert raw[..i + 1][..i] == raw[..i];
      match Judge(ctx, raw[i])
      case Refused(why) =>
        warnings := warnings + [why];
      case Usable(text) =>
        if text !in seen {
          if |refs| >= MAX_REFS_PER_SECTION {
            truncated := truncated + 1;
          } else {
            seen := seen + {text};
            refs := refs + [text];
          }
        }
    }
    assert raw[..|raw|] == raw;
    if truncated > 0 {
      warnings := warnings + [Truncated(truncated)];
    }
  }

  /** A kept label is judged usable again, as itself. */
  lemma JudgedAgain(ctx: Context, raw: string)
    ensures Judge(ctx, raw).Usable? ==> Judge(ctx, Judge(ctx, raw).text) == Judge(ctx, raw)
  {
    hide ParseRef, Base, Canonical;
    if ParseRef(raw).Some? {
      var r := Demoted(ctx, ParseRef(raw).value);
      ParsedIsCanonical(raw);
      DemotedIsCanonical(ctx, ParseRef(raw).value);
      ParseOfLabel(r);
    }
  }

  lemma DemotedIsCanonical(ctx: Context, r: Ref)
    requires Canonical(r)
    ensures Canonical(Demoted(ctx, r)) && Demoted(ctx, Demoted(ctx, r)) == Demoted(ctx, r)
  {
  }

  ghost predicate IsClean(ctx: Context, refs: seq<string>) {
    && |refs| <= MAX_REFS_PER_SECTION
    && (forall i :: 0 <= i < |refs| ==> Judge(ctx, refs[i]) == Usable(refs[i]))
    && (forall i, j :: 0 <= i < j < |refs| ==> refs[i] != refs[j])
  }

  /** What is kept is usable, distinct and at most two. */
  lemma {:induction false} KeptAreUsable(ctx: Context, raw: seq<string>)
    ensures IsClean(ctx, CleanAll(ctx, raw).refs)
    decreases |raw|
  {
    hide Judge;
    if raw != [] {
      KeptAreUsable(ctx, raw[..|raw| - 1]);
      JudgedAgain(ctx, raw[|raw| - 1]);
    }
  }

  lemma CleanNext(ctx: Context, init: seq<string>, raw: string)
    ensures CleanAll(ctx, init + [raw]) == Step(ctx, CleanAll(ctx, init), raw)
  {
    hide Step;
    assert (init + [raw])[..|init|] == init;
  }

  lemma NothingCleaned(ctx: Context)
    ensures CleanAll(ctx, []) == NOTHING
  {
  }

  lemma {:induction false} CleanStays(ctx: Context, refs: seq<string>)
    requires IsClean(ctx, refs)
    ensures CleanAll(ctx, refs) == Cleaned(refs, [], 0)
    decreases |refs|
  {
    hide Judge, CleanAll;
    if refs == [] {
      NothingCleaned(ctx);
    } else {
      var init, last := refs[..|refs| - 1], refs[|refs| - 1];
      assert refs == init + [last];
      CleanStays(ctx, init);
      CleanNext(ctx, init, last);
    }
  }

  /** Cleaning a cleaned list changes nothing and warns of nothing. */
  lemma CleaningIsIdempotent(ctx: Context, raw: seq<string>)
    ensures CleanAll(ctx, CleanAll(ctx, raw).refs) == Cleaned(CleanAll(ctx, raw).refs, [], 0)
  {
    KeptAreUsable(ctx, raw);
    CleanStays(ctx, CleanAll(ctx, raw).refs);
  }

  /** Every usable reference is kept, or the list was cut and says so. */
  lemma {:induction false} UsableAreKept(ctx: Context, raw: seq<string>)
    ensures var c := CleanAll(ctx, raw);
      c.truncated == 0 <==> forall k :: 0 <= k < |raw| && Judge(ctx, raw[k]).Usable? ==>
          Judge(ctx, raw[k]).text in c.refs
    decreases |raw|
  {
    hide Judge;
    if raw != [] {
      var n := |raw| - 1;
      var init, c := raw[..n], CleanAll(ctx, raw);
      UsableAreKept(ctx, init);
      var d := CleanAll(ctx, init);
      assert forall k :: 0 <= k < n ==> init[k] == raw[k];
      assert forall text :: text in d.refs ==> text in c.refs;
      if d.truncated > 0 {
        var k :| 0 <= k < n && Judge(ctx, init[k]).Usable? && Judge(ctx, init[k]).text !in d.refs;
        FullStays(ctx, init);
        assert Judge(ctx, raw[k]).text !in c.refs;
      }
    }
  }

  lemma {:induction false} FullStays(ctx: Context, raw: seq<string>)
    ensures CleanAll(ctx, raw).truncated > 0 ==> |CleanAll(ctx, raw).refs| >= MAX_REFS_PER_SECTION
    decreases |raw|
  {
    hide Judge;
    if raw != [] { FullStays(ctx, raw[..|raw| - 1]); }
  }

  // ---------- What is kept, said of the references ----------

  /** The section or chapter the reference names exists, and is not the section itself. */
  ghost predicate Exists(ctx: Context, r: Ref) {
    if r.section.None? then r.chapter in ctx.chapters
    else
      var name := NatToString(r.chapter) + "." + NatToString(r.section.value);
      name in ctx.labels && name != ctx.selfLabel
  }

  /** A reference is usable exactly when it can be read and names an existing section other than this one,
      or an existing chapter; it is kept under its label, without the metric for a planner. */
  lemma UsableIff(ctx: Context, raw: string, text: string)
    ensures Judge(ctx, raw) == Usable(text) <==>
      ParseRef(raw).Some? && var r := ParseRef(raw).value;
        && Exists(ctx, r) && text == (if ctx.allowMetric then r else Ref(r.chapter, r.section, None)).Label()
  {
    hide ParseRef, NatToString;
    if ParseRef(raw).Some? && ParseRef(raw).value.section.Some? { BaseIs(ParseRef(raw).value); }
  }

  lemma BaseIs(r: Ref)
    requires r.section.Some?
    ensures Base(r.chapter, r.section.value) == NatToString(r.chapter) + "." + NatToString(r.section.value)
  {
    hide NatToString;
  }

  /** Why a reference is refused. */
  lemma RefusedIff(ctx: Context, raw: string, why: Warning)
    ensures Judge(ctx, raw) == Refused(why) <==>
      if ParseRef(raw).None? then why == Unreadable(raw)
      else
        var r := ParseRef(raw).value;
        var text := (if ctx.allowMetric then r else Ref(r.chapter, r.section, None)).Label();
        if r.section.None? then r.chapter !in ctx.chapters && why == NoSuchChapter(text)
        else
          var base := NatToString(r.chapter) + "." + NatToString(r.section.value);
          if base == ctx.selfLabel then why == SelfReference(text)
          else base !in ctx.labels && why == NoSuchSection(text)
  {
    hide ParseRef, NatToString;
    if ParseRef(raw).Some? && ParseRef(raw).value.section.Some? { BaseIs(ParseRef(raw).value); }
  }

  /** The labels of the usable references, in order. */
  function UsableLabels(ctx: Context, raw: seq<string>): seq<string> {
    if raw == [] then []
    else UsableLabels(ctx, raw[..|raw| - 1])
         + match Judge(ctx, raw[|raw| - 1]) case Usable(text) => [text] case Refused(_) => []
  }

  function Refusals(ctx: Context, raw: seq<string>): seq<Warning> {
    if raw == [] then []
    else Refusals(ctx, raw[..|raw| - 1])
         + match Judge(ctx, raw[|raw| - 1]) case Usable(_) => [] case Refused(why) => [why]
  }

  function Outside(labels: seq<string>, refs: seq<string>): nat {
    if labels == [] then 0
    else Outside(labels[..|labels| - 1], refs) + if labels[|labels| - 1] in refs then 0 else 1
  }

  lemma {:induction false} NothingOutside(labels: seq<string>, refs: seq<string>)
    requires forall text :: text in labels ==> text in refs
    ensures Outside(labels, refs) == 0
  {
    if labels != [] {
      var init, last := labels[..|labels| - 1], labels[|labels| - 1];
      assert labels == init + [last] && last in labels;
      NothingOutside(init, refs);
    }
  }

  lemma LabelsNext(ctx: Context, init: seq<string>, raw: string)
    ensures UsableLabels(ctx, init + [raw])
         == UsableLabels(ctx, init) + match Judge(ctx, raw) case Usable(text) => [text] case Refused(_) => []
    ensures Refusals(ctx, init + [raw])
         == Refusals(ctx, init) + match Judge(ctx, raw) case Usable(_) => [] case Refused(why) => [why]
  {
    hide Judge;
    assert (init + [raw])[..|init|] == init;
  }

  lemma OneMoreLabel(labels: seq<string>, text: string)
    ensures forall refs :: Outside(labels + [text], refs) == Outside(labels, refs) + if text in refs then 0 else 1
  {
    assert (labels + [text])[..|labels|] == labels;
  }

  /** The list is cleaned to the first two distinct usable labels; every refusal is told, in order, and the
      number of usable references that were cut off. */
  lemma {:induction false} CleanedIs(ctx: Context, raw: seq<string>)
    ensures var c, labels := CleanAll(ctx, raw), UsableLabels(ctx, raw);
      && c.refs == FirstTwo(Firsts(labels)) && c.warnings == Refusals(ctx, raw)
      && c.truncated == Outside(labels, c.refs)
    decreases |raw|
  {
    hide Judge, CleanAll, UsableLabels, Refusals, Firsts, Outside;
    if raw == [] {
      CleanedNothing(ctx);
    } else {
      var init, last := raw[..|raw| - 1], raw[|raw| - 1];
      assert raw == init + [last];
      CleanedIs(ctx, init);
      CleanNext(ctx, init, last);
      LabelsNext(ctx, init, last);
      var labels := UsableLabels(ctx, init);
      match Judge(ctx, last)
      case Refused(why) => assert labels + [] == labels;
      case Usable(text) => OneMoreKept(labels, text, CleanAll(ctx, init));
    }
  }

  lemma CleanedNothing(ctx: Context)
    ensures CleanAll(ctx, []) == Cleaned([], [], 0) && UsableLabels(ctx, []) == [] && Refusals(ctx, []) == []
    ensures Firsts([]) == [] && forall refs :: Outside([], refs) == 0
  {
  }

  lemma OneMoreKept(labels: seq<string>, text: string, c: Cleaned)
    requires c.refs == FirstTwo(Firsts(labels)) && c.truncated == Outside(labels, c.refs)
    ensures var refs := FirstTwo(Firsts(labels + [text]));
      && refs == (if text in c.refs || |c.refs| >= 2 then c.refs else c.refs + [text])
      && Outside(labels + [text], refs) == c.truncated + if text in refs then 0 else 1
  {
    hide Firsts, Outside;
    OneMoreLabel(labels, text);
    FirstsNext(labels, text);
    FirstsHas(labels, text);
    if text !in c.refs && |c.refs| < 2 {
      forall t | t in labels ensures t in c.refs && t in c.refs + [text] { FirstsHas(labels, t); }
      NothingOutside(labels, c.refs);
      NothingOutside(labels, c.refs + [text]);
    }
  }
}
