/** Strings as the source uses them: character classes, trimming, decimal numerals, splitting and
    joining, and the ordering of strings.  Only ASCII white space and digits are classified. */
module Text {

  datatype Option<+T> = None | Some(value: T)

  predicate IsSpace(c: char) {
    c == ' ' || '\t' <= c <= '\r' || '\U{1C}' <= c <= '\U{1F}'
  }

  /** The white space of str.strip() among the ASCII characters. */
  lemma SpaceIff(c: char)
    ensures IsSpace(c) <==> c as int in {9, 10, 11, 12, 13, 28, 29, 30, 31, 32}
  {
  }

  predicate IsDigit(c: char) {
    '0' <= c <= '9'
  }

  predicate AllDigits(s: string) {
    forall i :: 0 <= i < |s| ==> IsDigit(s[i])
  }

  // ---------- Leading runs ----------

  function RunFrom<T>(s: seq<T>, keep: T -> bool, i: nat): (n: nat)
    requires i <= |s|
    ensures i <= n <= |s| && (n < |s| ==> !keep(s[n])) && forall k :: i <= k < n ==> keep(s[k])
    decreases |s| - i
  {
    if i == |s| || !keep(s[i]) then i else RunFrom(s, keep, i + 1)
  }

  /** Length of the longest prefix whose elements satisfy keep. */
  function Run<T>(s: seq<T>, keep: T -> bool): (n: nat)
    ensures n <= |s| && (n < |s| ==> !keep(s[n])) && forall k :: 0 <= k < n ==> keep(s[k])
  {
    RunFrom(s, keep, 0)
  }

  function LowerChar(c: char): char {
    if 'A' <= c <= 'Z' then c - 'A' + 'a' else c
  }

  /** No text occurs twice. */
  predicate Distinct(texts: seq<string>) {
    forall i, j :: 0 <= i < j < |texts| ==> texts[i] != texts[j]
  }

  // ---------- Trimming ----------

  lemma SpaceIsSpace()
    ensures IsSpace(' ')
  {
  }

  function LStrip(s: string): (r: string)
    ensures |r| <= |s| && r == s[|s| - |r|..]
    ensures r != "" ==> !IsSpace(r[0])
    ensures forall i :: 0 <= i < |s| - |r| ==> IsSpace(s[i])
  {
    s[SpaceEnd(s, 0)..]
  }

  /** Where the white space that begins at i ends. */
  function SpaceEnd(s: string, i: nat): (n: nat)
    requires i <= |s|
    ensures i <= n <= |s| && (n < |s| ==> !IsSpace(s[n])) && forall k :: i <= k < n ==> IsSpace(s[k])
    decreases |s| - i
  {
    if i < |s| && IsSpace(s[i]) then SpaceEnd(s, i + 1) else i
  }

  function RStrip(s: string): (r: string)
    ensures |r| <= |s| && r == s[..|r|]
    ensures r != "" ==> !IsSpace(r[|r| - 1])
    ensures forall i :: |r| <= i < |s| ==> IsSpace(s[i])
  {
    if s != "" && IsSpace(s[|s| - 1]) then RStrip(s[..|s| - 1]) else s
  }

  function Strip(s: string): (r: string)
    ensures r != "" ==> !IsSpace(r[0]) && !IsSpace(r[|r| - 1])
    ensures |r| <= |s|
    ensures forall c :: c in r ==> c in s
  {
    RStrip(LStrip(s))
  }

  predicate Trimmed(s: string) {
    s != "" ==> !IsSpace(s[0]) && !IsSpace(s[|s| - 1])
  }

  lemma StripTrimmed(s: string)
    requires Trimmed(s)
    ensures Strip(s) == s && LStrip(s) == s && RStrip(s) == s
  {
  }

  /** A string is a margin of white space, its trimmed core, and another margin. */
  lemma StripSplits(s: string) returns (i: nat, j: nat)
    ensures i <= j <= |s| && Strip(s) == s[i..j]
    ensures forall k :: 0 <= k < i || j <= k < |s| ==> IsSpace(s[k])
    ensures i < j ==> !IsSpace(s[i]) && !IsSpace(s[j - 1])
  {
    var l := LStrip(s);
    i := |s| - |l|;
    j := i + |RStrip(l)|;
    forall k | j <= k < |s| ensures IsSpace(s[k]) { assert s[k] == l[k - i]; }
  }

  /** The core is determined by its two visible ends. */
  lemma StripIs(s: string, i: nat, j: nat)
    requires i <= j <= |s|
    requires forall k :: 0 <= k < i || j <= k < |s| ==> IsSpace(s[k])
    requires i < j ==> !IsSpace(s[i]) && !IsSpace(s[j - 1])
    ensures Strip(s) == s[i..j]
  {
    var a, b := StripSplits(s);
  }

  /** White space outside does not change the core. */
  lemma StripPadded(l: char, s: string, r: char)
    requires IsSpace(l) && IsSpace(r)
    ensures Strip([l] + s) == Strip(s) && Strip(s + [r]) == Strip(s)
  {
    hide *;
    var i, j := StripSplits(s);
    var t, u := [l] + s, s + [r];
    assert t[i + 1..j + 1] == s[i..j] && u[i..j] == s[i..j];
    assert forall k :: 0 < k < |t| ==> t[k] == s[k - 1];
    StripIs(t, i + 1, j + 1);
    assert forall k :: 0 <= k < |s| ==> u[k] == s[k];
    StripIs(u, i, j);
  }

  // ---------- Decimal numerals ----------

  function DigitChar(d: nat): (c: char)
    requires d < 10
    ensures IsDigit(c) && DigitValue(c) == d
  {
    '0' + d as char
  }

  function DigitValue(c: char): (d: nat)
    requires IsDigit(c)
    ensures d < 10
  {
    (c - '0') as nat
  }

  /** str(n) */
  function NatToString(n: nat): (s: string)
    ensures s != "" && AllDigits(s)
  {
    if n < 10 then [DigitChar(n)] else NatToString(n / 10) + [DigitChar(n % 10)]
  }

  /** int(s) for a string of digits */
  function StringToNat(s: string): nat
    requires AllDigits(s)
  {
    if s == "" then 0 else 10 * StringToNat(s[..|s| - 1]) + DigitValue(s[|s| - 1])
  }

  lemma {:induction false} NumeralRoundTrip(n: nat)
    ensures StringToNat(NatToString(n)) == n
  {
    var s := NatToString(n);
    if n < 10 {
      assert s[..0] == "" && s[0] == DigitChar(n);
    } else {
      NumeralRoundTrip(n / 10);
      assert s[..|s| - 1] == NatToString(n / 10);
    }
  }

  lemma NumeralsInjective(m: nat, n: nat)
    requires NatToString(m) == NatToString(n)
    ensures m == n
  {
    NumeralRoundTrip(m);
    NumeralRoundTrip(n);
  }

  /** Length of the longest prefix of digits. */
  function DigitRun(s: string): (n: nat)
    ensures n <= |s| && AllDigits(s[..n])
    ensures n < |s| ==> !IsDigit(s[n])
  {
    if s != "" && IsDigit(s[0]) then
      assert forall i :: 1 <= i < |s| ==> s[i] == s[1..][i - 1];
      1 + DigitRun(s[1..])
    else 0
  }

  lemma DigitRunIs(s: string, n: nat)
    requires n <= |s| && AllDigits(s[..n]) && (n < |s| ==> !IsDigit(s[n]))
    ensures DigitRun(s) == n
  {
    assert forall k :: 0 <= k < n ==> s[..n][k] == s[k];
    assert forall k :: 0 <= k < DigitRun(s) ==> s[..DigitRun(s)][k] == s[k];
  }

  // ---------- Splitting and joining ----------

  /** s.split(c) for a one-character separator */
  function Split(s: string, c: char): (parts: seq<string>)
    ensures parts != []
    ensures forall p :: p in parts ==> c !in p
  {
    if s == "" then [""]
    else
      var rest := Split(s[1..], c);
      if s[0] == c then [""] + rest else [[s[0]] + rest[0]] + rest[1..]
  }

  /** sep.join(parts) */
  function Join(parts: seq<string>, sep: string): string {
    if parts == [] then ""
    else if |parts| == 1 then parts[0]
    else parts[0] + sep + Join(parts[1..], sep)
  }

  lemma {:induction false} SplitOne(s: string, c: char)
    requires c !in s
    ensures Split(s, c) == [s]
  {
    if s != "" {
      assert s[0] in s;
      SplitOne(s[1..], c);
      assert [s[0]] + s[1..] == s;
    }
  }

  lemma {:induction false} SplitPrefix(a: string, c: char, t: string)
    requires c !in a
    ensures Split(a + [c] + t, c) == [a] + Split(t, c)
  {
    var s := a + [c] + t;
    if a == "" {
      assert s[1..] == t;
    } else {
      assert a[0] in a;
      SplitPrefix(a[1..], c, t);
      assert s[1..] == a[1..] + [c] + t;
      assert [a[0]] + a[1..] == a;
    }
  }

  lemma {:induction false} SplitJoin(parts: seq<string>, c: char)
    requires parts != [] && forall i :: 0 <= i < |parts| ==> c !in parts[i]
    ensures Split(Join(parts, [c]), c) == parts
  {
    if |parts| == 1 {
      SplitOne(parts[0], c);
    } else {
      var rest := parts[1..];
      forall i | 0 <= i < |rest| ensures c !in rest[i] { assert rest[i] == parts[i + 1]; }
      SplitJoin(rest, c);
      SplitPrefix(parts[0], c, Join(rest, [c]));
      assert parts == [parts[0]] + rest;
    }
  }

  lemma SplitCons(s: string, c: char)
    requires s != ""
    ensures var rest := Split(s[1..], c);
      Split(s, c) == if s[0] == c then [""] + rest else [[s[0]] + rest[0]] + rest[1..]
  {
  }

  lemma JoinCons(p: string, rest: seq<string>, sep: string)
    ensures Join([p] + rest, sep) == if rest == [] then p else p + sep + Join(rest, sep)
  {
    assert ([p] + rest)[1..] == rest;
  }

  lemma {:induction false} JoinSnoc(parts: seq<string>, last: string, sep: string)
    requires parts != []
    ensures Join(parts + [last], sep) == Join(parts, sep) + sep + last
  {
    hide Join;
    var p, tail := parts[0], parts[1..];
    assert parts == [p] + tail && parts + [last] == [p] + (tail + [last]);
    JoinCons(p, tail + [last], sep);
    JoinCons(p, tail, sep);
    if tail == [] {
      assert tail + [last] == [last] + [];
      JoinCons(last, [], sep);
    } else {
      JoinSnoc(tail, last, sep);
    }
  }

  lemma JoinGrows(c: char, p: string, rest: seq<string>, sep: string)
    ensures Join([[c] + p] + rest, sep) == [c] + Join([p] + rest, sep)
  {
    hide Join;
    JoinCons([c] + p, rest, sep);
    JoinCons(p, rest, sep);
    if rest != [] {
      assert [c] + p + sep + Join(rest, sep) == [c] + (p + sep + Join(rest, sep));
    }
  }

  lemma {:induction false} JoinSplit(s: string, c: char)
    ensures Join(Split(s, c), [c]) == s
  {
    if s == "" {
      assert Join([""], [c]) == "";
    } else {
      hide *;
      JoinSplit(s[1..], c);
      SplitCons(s, c);
      var rest := Split(s[1..], c);
      assert s == [s[0]] + s[1..];
      if s[0] == c {
        JoinCons("", rest, [c]);
        assert "" + [c] + Join(rest, [c]) == [c] + s[1..];
      } else {
        assert rest == [rest[0]] + rest[1..];
        JoinGrows(s[0], rest[0], rest[1..], [c]);
      }
    }
  }

  /** Only text that ends with the separator has an empty last part. */
  lemma {:induction false} LastPart(s: string, c: char)
    ensures var parts := Split(s, c); parts[|parts| - 1] == "" ==> s == "" || s[|s| - 1] == c
  {
    if s != "" {
      hide Split;
      LastPart(s[1..], c);
      SplitCons(s, c);
    }
  }

  /** s.splitlines(), for text whose only line breaks are newlines */
  function SplitLines(s: string): (lines: seq<string>)
    ensures forall l :: l in lines ==> '\n' !in l
  {
    var parts := Split(s, '\n');
    if parts[|parts| - 1] == "" then parts[..|parts| - 1] else parts
  }

  // ---------- Ordering of strings ----------

  /** a <= b for strings: lexicographic by character */
  predicate LexLe(a: string, b: string) {
    a == "" || (b != "" && (a[0] < b[0] || (a[0] == b[0] && LexLe(a[1..], b[1..]))))
  }

  lemma {:induction false} LexLeTotal(a: string, b: string)
    ensures LexLe(a, b) || LexLe(b, a)
    ensures LexLe(a, b) && LexLe(b, a) ==> a == b
  {
    if a != "" && b != "" {
      LexLeTotal(a[1..], b[1..]);
      if a[0] == b[0] && a[1..] == b[1..] {
        assert a == [a[0]] + a[1..] == b;
      }
    }
  }

  function LexMin(a: string, b: string): string {
    if LexLe(a, b) then a else b
  }

  function LexMax(a: string, b: string): string {
    if LexLe(a, b) then b else a
  }

  /** The pair (min, max) forgets only the order of the two strings. */
  lemma UnorderedPair(a: string, b: string, c: string, d: string)
    ensures (LexMin(a, b) == LexMin(c, d) && LexMax(a, b) == LexMax(c, d))
       <==> ((a == c && b == d) || (a == d && b == c))
  {
    LexLeTotal(a, b);
    LexLeTotal(c, d);
  }
}
