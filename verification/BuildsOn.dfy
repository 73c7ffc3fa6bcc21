/** The "builds on" notation of src/core/builds_on.py: how a reference is read, printed and cleaned. */
module BuildsOn {
  import opened Text

  const MAX_REFS_PER_SECTION := 2

  /** One reference.  section == None names the whole chapter ("4.*"). */
  datatype Ref = Ref(chapter: nat, section: Option<nat>, metric: Option<string>) {
    function Label(): string {
      var sec := if section.None? then "*" else NatToString(section.value);
      var base := NatToString(chapter) + "." + sec;
      if metric.Some? then base + "(" + metric.value + ")" else base
    }
  }

  predicate NoParens(s: string) {
    '(' !in s && ')' !in s
  }

  /** What the optional "(metric)" tail of a reference denotes; None when it is malformed. */
  function ParseMetricTail(tail: string): Option<Option<string>> {
    if tail == "" then Some(None)
    else if |tail| >= 3 && tail[0] == '(' && tail[|tail| - 1] == ')' && NoParens(tail[1..|tail| - 1]) then
      var metric := Strip(tail[1..|tail| - 1]);
      Some(if metric == "" then None else Some(metric))
    else None
  }

  function MetricTail(metric: Option<string>): string {
    if metric.None? then "" else "(" + metric.value + ")"
  }

  predicate IsMetric(metric: Option<string>) {
    metric.Some? ==> metric.value != "" && Trimmed(metric.value) && NoParens(metric.value)
  }

  lemma MetricTailRoundTrip(metric: Option<string>)
    requires IsMetric(metric)
    ensures ParseMetricTail(MetricTail(metric)) == Some(metric)
  {
    if metric.Some? {
      var tail := MetricTail(metric);
      assert tail[1..|tail| - 1] == metric.value;
      StripTrimmed(metric.value);
    }
  }

  lemma ParsedMetricIsMetric(tail: string)
    requires ParseMetricTail(tail).Some?
    ensures IsMetric(ParseMetricTail(tail).value)
  {
  }

  /** What follows "<chapter>." in a reference. */
  function ParseSectionPart(chapter: nat, rest: string): Option<Ref> {
    var m := DigitRun(rest);
    if m == 0 && (rest == "" || rest[0] != '*') then None
    else
      var metric := ParseMetricTail(if m == 0 then rest[1..] else rest[m..]);
      if metric.None? then None
      else if m == 0 then Some(Ref(chapter, None, None))
      else Some(Ref(chapter, Some(StringToNat(rest[..m])), metric.value))
  }

  function ParseRef(raw: string): Option<Ref> {
    var s := Strip(raw);
    var n := DigitRun(s);
    if n == 0 || n == |s| || s[n] != '.' then None
    else ParseSectionPart(StringToNat(s[..n]), s[n + 1..])
  }

  /** The references the parser can produce. */
  predicate Canonical(r: Ref) {
    IsMetric(r.metric) && (r.section.None? ==> r.metric.None?)
  }

  lemma SectionPartIsCanonical(chapter: nat, rest: string)
    requires ParseSectionPart(chapter, rest).Some?
    ensures Canonical(ParseSectionPart(chapter, rest).value)
  {
    hide ParseMetricTail, IsMetric, DigitRun, StringToNat;
    var m := DigitRun(rest);
    var tail := if m == 0 then rest[1..] else rest[m..];
    ParsedMetricIsMetric(tail);
    NoMetric();
  }

  lemma NoMetric()
    ensures IsMetric(None)
  {
  }

  lemma ParsedIsCanonical(raw: string)
    requires ParseRef(raw).Some?
    ensures Canonical(ParseRef(raw).value)
  {
    hide ParseSectionPart, Canonical, Strip, DigitRun, StringToNat;
    var s := Strip(raw);
    var n := DigitRun(s);
    SectionPartIsCanonical(StringToNat(s[..n]), s[n + 1..]);
  }

  function SectionPart(section: Option<nat>): string {
    if section.None? then "*" else NatToString(section.value)
  }

  lemma SectionPartRoundTrip(r: Ref)
    requires Canonical(r)
    ensures ParseSectionPart(r.chapter, SectionPart(r.section) + MetricTail(r.metric)) == Some(r)
  {
    var sec, tail := SectionPart(r.section), MetricTail(r.metric);
    var rest := sec + tail;
    MetricTailRoundTrip(r.metric);
    if r.section.None? {
      assert rest == "*";
      DigitRunIs(rest, 0);
      assert rest[1..] == "";
    } else {
      assert rest[..|sec|] == sec && rest[|sec|..] == tail;
      DigitRunIs(rest, |sec|);
      NumeralRoundTrip(r.section.value);
    }
  }

  lemma ParseTrimmed(raw: string)
    requires Trimmed(raw)
    ensures ParseRef(raw) ==
      var n := DigitRun(raw);
      if n == 0 || n == |raw| || raw[n] != '.' then None else ParseSectionPart(StringToNat(raw[..n]), raw[n + 1..])
  {
    hide *;
    StripTrimmed(raw);
    ParseStripped(raw);
  }

  lemma ParseStripped(raw: string)
    requires Strip(raw) == raw
    ensures ParseRef(raw) ==
      var n := DigitRun(raw);
      if n == 0 || n == |raw| || raw[n] != '.' then None else ParseSectionPart(StringToNat(raw[..n]), raw[n + 1..])
  {
    hide Strip, ParseSectionPart, StringToNat, DigitRun;
  }

  lemma ParseSplitsAtDot(ch: string, after: string)
    requires ch != "" && AllDigits(ch) && Trimmed(ch + "." + after)
    ensures ParseRef(ch + "." + after) == ParseSectionPart(StringToNat(ch), after)
  {
    hide ParseRef, ParseSectionPart, StringToNat, DigitRun, Trimmed;
    var s := ch + "." + after;
    ParseTrimmed(s);
    assert s[..|ch|] == ch && s[|ch|] == '.' && s[|ch| + 1..] == after;
    DigitRunIs(s, |ch|);
  }

  lemma LabelShape(r: Ref)
    ensures r.Label() == NatToString(r.chapter) + "." + (SectionPart(r.section) + MetricTail(r.metric))
  {
  }

  /** Reading a label back gives the reference it was printed from. */
  lemma ParseOfLabel(r: Ref)
    requires Canonical(r)
    ensures ParseRef(r.Label()) == Some(r)
  {
    LabelShape(r);
    LabelTrimmed(NatToString(r.chapter), SectionPart(r.section), MetricTail(r.metric));
    ParseSplitsAtDot(NatToString(r.chapter), SectionPart(r.section) + MetricTail(r.metric));
    NumeralRoundTrip(r.chapter);
    SectionPartRoundTrip(r);
  }

  lemma LabelTrimmed(ch: string, sec: string, tail: string)
    requires ch != "" && AllDigits(ch) && sec != "" && (AllDigits(sec) || sec == "*")
    requires tail == "" || tail[|tail| - 1] == ')'
    ensures Trimmed(ch + "." + (sec + tail))
  {
    var s := ch + "." + (sec + tail);
    assert s[0] == ch[0];
    if tail == "" { assert s[|s| - 1] == sec[|sec| - 1]; } else { assert s[|s| - 1] == tail[|tail| - 1]; }
  }

  /** Whatever is read is read back unchanged from its own label. */
  lemma LabelIsNormalForm(raw: string)
    requires ParseRef(raw).Some?
    ensures ParseRef(ParseRef(raw).value.Label()) == ParseRef(raw)
  {
    ParsedIsCanonical(raw);
    ParseOfLabel(ParseRef(raw).value);
  }

  lemma LabelsInjective(r: Ref, q: Ref)
    requires Canonical(r) && Canonical(q) && r.Label() == q.Label()
    ensures r == q
  {
    ParseOfLabel(r);
    ParseOfLabel(q);
  }

  // ---------- Which texts are references ----------

  /** "chapter.section(metric)": digits, a dot, digits or a star, and perhaps a text in parentheses. */
  ghost predicate HasRefForm(s: string, ch: string, sec: string, tail: string) {
    && s == ch + "." + (sec + tail)
    && ch != "" && AllDigits(ch) && (sec == "*" || (sec != "" && AllDigits(sec)))
    && (tail == "" || (|tail| >= 3 && tail[0] == '(' && tail[|tail| - 1] == ')'
                       && forall i :: 0 < i < |tail| - 1 ==> tail[i] != '(' && tail[i] != ')'))
  }

  /** What a text of that form refers to: a chapter reference has no metric, and a blank metric is none. */
  ghost predicate Means(r: Ref, ch: string, sec: string, tail: string)
    requires AllDigits(ch) && (sec == "*" || AllDigits(sec)) && (tail == "" || |tail| >= 3)
  {
    && r.chapter == StringToNat(ch)
    && r.section == (if sec == "*" then None else Some(StringToNat(sec)))
    && r.metric == if sec == "*" || tail == "" || Strip(tail[1..|tail| - 1]) == "" then None
                   else Some(Strip(tail[1..|tail| - 1]))
  }

  ghost predicate Refers(raw: string, r: Ref) {
    exists ch: string, sec: string, tail: string ::
      HasRefForm(Strip(raw), ch, sec, tail) && Means(r, ch, sec, tail)
  }

  lemma TailIff(tail: string)
    ensures ParseMetricTail(tail).Some? <==>
      tail == "" || (|tail| >= 3 && tail[0] == '(' && tail[|tail| - 1] == ')'
                     && forall i :: 0 < i < |tail| - 1 ==> tail[i] != '(' && tail[i] != ')')
    ensures ParseMetricTail(tail).Some? ==>
      ParseMetricTail(tail).value == if tail == "" || Strip(tail[1..|tail| - 1]) == "" then None
                                     else Some(Strip(tail[1..|tail| - 1]))
  {
    hide Strip;
    if |tail| >= 3 {
      var inner := tail[1..|tail| - 1];
      assert forall i :: 0 < i < |tail| - 1 ==> tail[i] == inner[i - 1];
      assert forall i :: 0 <= i < |inner| ==> inner[i] == tail[i + 1];
    }
  }

  lemma SectionFormIsRead(chapter: nat, sec: string, tail: string)
    requires sec == "*" || (sec != "" && AllDigits(sec))
    requires tail == "" || tail[0] == '('
    requires ParseMetricTail(tail).Some?
    ensures ParseSectionPart(chapter, sec + tail)
         == Some(Ref(chapter, if sec == "*" then None else Some(StringToNat(sec)),
                     if sec == "*" then None else ParseMetricTail(tail).value))
  {
    hide ParseMetricTail, StringToNat, DigitRun;
    var rest := sec + tail;
    if sec == "*" {
      assert rest[0] == '*' && rest[1..] == tail && rest[..0] == "";
      DigitRunIs(rest, 0);
    } else {
      assert rest[..|sec|] == sec && rest[|sec|..] == tail;
      assert tail != "" ==> rest[|sec|] == '(';
      DigitRunIs(rest, |sec|);
    }
  }

  lemma FormIsRead(raw: string, r: Ref, ch: string, sec: string, tail: string)
    requires HasRefForm(Strip(raw), ch, sec, tail) && Means(r, ch, sec, tail)
    ensures ParseRef(raw) == Some(r)
  {
    hide ParseMetricTail, ParseSectionPart, StringToNat, DigitRun, Strip;
    var s, rest := Strip(raw), sec + tail;
    assert s[..|ch|] == ch && s[|ch|] == '.' && s[|ch| + 1..] == rest;
    DigitRunIs(s, |ch|);
    TailIff(tail);
    SectionFormIsRead(StringToNat(ch), sec, tail);
  }

  lemma SectionHasForm(chapter: nat, rest: string) returns (sec: string, tail: string)
    requires ParseSectionPart(chapter, rest).Some?
    ensures rest == sec + tail && (sec == "*" || (sec != "" && AllDigits(sec))) && ParseMetricTail(tail).Some?
    ensures ParseSectionPart(chapter, rest).value
         == Ref(chapter, if sec == "*" then None else Some(StringToNat(sec)),
                if sec == "*" then None else ParseMetricTail(tail).value)
  {
    hide ParseMetricTail, StringToNat, DigitRun;
    var m := DigitRun(rest);
    sec, tail := if m == 0 then "*" else rest[..m], if m == 0 then rest[1..] else rest[m..];
    if m > 0 { assert sec[0] == rest[0] && IsDigit(sec[0]) && !IsDigit('*'); }
  }

  lemma ReadHasForm(raw: string)
    requires ParseRef(raw).Some?
    ensures Refers(raw, ParseRef(raw).value)
  {
    hide ParseMetricTail, ParseSectionPart, StringToNat, DigitRun, Strip;
    var s := Strip(raw);
    var n := DigitRun(s);
    var ch, rest := s[..n], s[n + 1..];
    var sec, tail := SectionHasForm(StringToNat(ch), rest);
    TailIff(tail);
    assert s == ch + "." + rest;
    FormAndMeaning(raw, ch, sec, tail, ParseRef(raw).value);
  }

  lemma FormAndMeaning(raw: string, ch: string, sec: string, tail: string, r: Ref)
    requires HasRefForm(Strip(raw), ch, sec, tail) && Means(r, ch, sec, tail)
    ensures Refers(raw, r)
  {
  }

  /** A text is read as a reference exactly when it has that form, white space around it aside. */
  lemma ParseRefIff(raw: string, r: Ref)
    ensures ParseRef(raw) == Some(r) <==> Refers(raw, r)
  {
    hide ParseRef, HasRefForm, Means, Strip;
    if ParseRef(raw) == Some(r) { ReadHasForm(raw); }
    if Refers(raw, r) {
      FormHasParts();
      var ch: string, sec: string, tail: string :| HasRefForm(Strip(raw), ch, sec, tail) && Means(r, ch, sec, tail);
      FormIsRead(raw, r, ch, sec, tail);
    }
  }

  lemma FormHasParts()
    ensures forall s: string, ch: string, sec: string, tail: string :: HasRefForm(s, ch, sec, tail) ==>
      AllDigits(ch) && (sec == "*" || AllDigits(sec)) && (tail == "" || |tail| >= 3)
  {
  }
}
