/** The stable-id notation of builds_on references in a stored outline (src/core/outline.py):
    "s:<uuid>", "s:<uuid>(metric)" and "c:<uuid>". */
module Tokens {
  import opened Text
  import opened BuildsOn

  const UUID_LENGTH := 36

  predicate IsHex(c: char) {
    IsDigit(c) || 'a' <= c <= 'f' || 'A' <= c <= 'F'
  }

  predicate IsDash(k: nat) {
    k == 8 || k == 13 || k == 18 || k == 23
  }

  /** The 8-4-4-4-12 form, in either case. */
  predicate LooksLikeUuid(s: string) {
    |s| == UUID_LENGTH && forall k :: 0 <= k < UUID_LENGTH ==> if IsDash(k) then s[k] == '-' else IsHex(s[k])
  }

  function LowerHex(c: char): char {
    if 'A' <= c <= 'F' then c - 'A' + 'a' else c
  }

  function LowerId(s: string): (r: string)
    ensures |r| == |s| && forall k :: 0 <= k < |s| ==> r[k] == LowerHex(s[k])
  {
    seq(|s|, k requires 0 <= k < |s| => LowerHex(s[k]))
  }

  /** The canonical form str(UUID(..)) returns. */
  predicate IsUuid(s: string) {
    LooksLikeUuid(s) && LowerId(s) == s
  }

  datatype Token = SectionToken(id: string, metric: Option<string>) | ChapterToken(id: string)

  /** format_section_token and format_chapter_token */
  function Format(t: Token): string {
    match t
    case SectionToken(id, metric) => "s:" + id + MetricTail(metric)
    case ChapterToken(id) => "c:" + id
  }

  /** parse_id_token */
  function ParseIdToken(raw: string): Option<Token> {
    var s := Strip(raw);
    if |s| < 2 + UUID_LENGTH || s[1] != ':' || !LooksLikeUuid(s[2..2 + UUID_LENGTH]) then None
    else
      var id, tail := LowerId(s[2..2 + UUID_LENGTH]), s[2 + UUID_LENGTH..];
      if s[0] == 's' then
        var metric := ParseMetricTail(tail);
        if metric.Some? then Some(SectionToken(id, metric.value)) else None
      else if s[0] == 'c' && (tail == "" || tail == ".*") then Some(ChapterToken(id))
      else None
  }

  predicate Canonical(t: Token) {
    IsUuid(t.id) && (t.SectionToken? ==> IsMetric(t.metric))
  }

  lemma LowerIsUuid(s: string)
    requires LooksLikeUuid(s)
    ensures IsUuid(LowerId(s))
  {
    var r := LowerId(s);
    assert forall k :: 0 <= k < UUID_LENGTH && !IsDash(k) ==> IsHex(r[k]) && LowerHex(r[k]) == r[k];
    assert LowerId(r) == r;
  }

  lemma ParsedIsCanonical(raw: string)
    requires ParseIdToken(raw).Some?
    ensures Canonical(ParseIdToken(raw).value)
  {
    var s := Strip(raw);
    LowerIsUuid(s[2..2 + UUID_LENGTH]);
    hide ParseMetricTail, LowerId, LooksLikeUuid, IsUuid;
    if s[0] == 's' { ParsedMetricIsMetric(s[2 + UUID_LENGTH..]); }
  }

  lemma {:induction false} WholeTokenTrimmed(kind: char, id: string, tail: string)
    requires !IsSpace(kind) && IsUuid(id) && (tail == "" || tail[|tail| - 1] == ')')
    ensures Trimmed([kind, ':'] + id + tail)
  {
    var s := [kind, ':'] + id + tail;
    if tail == "" {
      assert s[|s| - 1] == id[UUID_LENGTH - 1] && !IsDash(UUID_LENGTH - 1);
    } else {
      assert s[|s| - 1] == tail[|tail| - 1];
    }
  }

  /** A printed token is read back as itself. */
  lemma TokenRoundTrip(t: Token)
    requires Canonical(t)
    ensures ParseIdToken(Format(t)) == Some(t)
  {
    assert |t.id| == UUID_LENGTH;
    hide Strip, ParseMetricTail, MetricTail, LooksLikeUuid, Trimmed;
    var kind, tail := if t.SectionToken? then 's' else 'c', if t.SectionToken? then MetricTail(t.metric) else "";
    var s := [kind, ':'] + t.id + tail;
    assert Format(t) == s;
    WholeTokenTrimmed(kind, t.id, tail);
    StripTrimmed(s);
    assert s[2..2 + UUID_LENGTH] == t.id && s[2 + UUID_LENGTH..] == tail;
    if t.SectionToken? { MetricTailRoundTrip(t.metric); }
  }

  lemma TokensInjective(t: Token, u: Token)
    requires Canonical(t) && Canonical(u) && Format(t) == Format(u)
    ensures t == u
  {
    TokenRoundTrip(t);
    TokenRoundTrip(u);
    hide ParseIdToken;
  }

  /** No notation is read both as a number and as a token. */
  lemma NumbersAreNotTokens(raw: string)
    requires ParseRef(raw).Some?
    ensures ParseIdToken(raw).None?
  {
    var s := Strip(raw);
    assert IsDigit(s[0]) by { assert s[..DigitRun(s)][0] == s[0]; }
    hide ParseSectionPart, LooksLikeUuid, Strip;
  }

  // ---------- Which texts are tokens ----------

  /** 36 characters: hexadecimal digits, with hyphens behind the first 8, 4, 4 and 4 of them. */
  ghost predicate IsUuidText(u: string) {
    |u| == 36 && forall k :: 0 <= k < 36 ==>
      if k in [8, 13, 18, 23] then u[k] == '-' else '0' <= u[k] <= '9' || 'a' <= u[k] <= 'f' || 'A' <= u[k] <= 'F'
  }

  /** The same uuid in small letters. */
  ghost predicate IsLowered(id: string, u: string) {
    |id| == |u| && forall k :: 0 <= k < |u| ==> id[k] == if 'A' <= u[k] <= 'F' then (u[k] as int + 32) as char else u[k]
  }

  /** "s:" and a uuid with perhaps a metric in parentheses, or "c:" and a uuid with perhaps ".*" behind. */
  ghost predicate HasTokenForm(s: string, t: Token, u: string, tail: string) {
    match t
    case SectionToken(_, metric) => s == "s:" + u + tail && ParseMetricTail(tail) == Some(metric)
    case ChapterToken(_) => s == "c:" + u + tail && (tail == "" || tail == ".*")
  }

  ghost predicate Writes(s: string, t: Token) {
    exists u: string, tail: string :: IsUuidText(u) && IsLowered(t.id, u) && HasTokenForm(s, t, u, tail)
  }

  lemma UuidTextIff(u: string)
    ensures IsUuidText(u) <==> LooksLikeUuid(u)
    ensures forall id :: IsLowered(id, u) <==> id == LowerId(u)
  {
    forall id | IsLowered(id, u) ensures id == LowerId(u) {
      forall k | 0 <= k < |u| ensures id[k] == LowerId(u)[k] {}
    }
  }

  lemma WrittenIsRead(raw: string, t: Token, u: string, tail: string)
    requires LooksLikeUuid(u) && t.id == LowerId(u) && HasTokenForm(Strip(raw), t, u, tail)
    ensures ParseIdToken(raw) == Some(t)
  {
    hide ParseMetricTail, LowerId, Strip;
    assert |u| == UUID_LENGTH;
    hide LooksLikeUuid;
    var s := Strip(raw);
    assert s[2..2 + UUID_LENGTH] == u && s[2 + UUID_LENGTH..] == tail;
  }

  lemma ReadIsWritten(raw: string) returns (u: string, tail: string)
    requires ParseIdToken(raw).Some?
    ensures LooksLikeUuid(u) && ParseIdToken(raw).value.id == LowerId(u)
    ensures HasTokenForm(Strip(raw), ParseIdToken(raw).value, u, tail)
  {
    hide ParseMetricTail, LowerId, Strip, LooksLikeUuid;
    var s := Strip(raw);
    u, tail := s[2..2 + UUID_LENGTH], s[2 + UUID_LENGTH..];
    assert s == [s[0], ':'] + u + tail;
  }

  /** A text is read as a token exactly when it is one, white space around it aside. */
  lemma ParseIdTokenIff(raw: string, t: Token)
    ensures ParseIdToken(raw) == Some(t) <==> Writes(Strip(raw), t)
  {
    hide ParseIdToken, LooksLikeUuid, LowerId, IsUuidText, IsLowered, HasTokenForm, Strip;
    if ParseIdToken(raw) == Some(t) {
      var u, tail := ReadIsWritten(raw);
      UuidTextIff(u);
    }
    if Writes(Strip(raw), t) {
      var u: string, tail: string :|
        IsUuidText(u) && IsLowered(t.id, u) && HasTokenForm(Strip(raw), t, u, tail);
      UuidTextIff(u);
      WrittenIsRead(raw, t, u, tail);
    }
  }
}
