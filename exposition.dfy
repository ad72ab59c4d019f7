/** The Prometheus text exposition lines the exporter writes, and the regular
    expression `name\{[^}]+\}\s+(\d+)` it reads an earlier total back with. */
module Exposition {
  import opened Wrappers
  import opened Text

  /** One call of the exporter's `add_metric`, with the sample value already
      rendered as text. */
  datatype Metric = Metric(name: string, value: string, help: string, kind: string)

  /** The label set `device="d",volume_id="v"` (the text between the braces):
      a dict with the two keys in insertion order, each rendered as `k="v"`,
      joined with ','. */
  function LabelText(device: string, volumeId: string): (t: string)
    ensures |t| == |device| + |volumeId| + 22
    ensures HasPrefix(t, "device=\"")
    ensures '{' !in device && '{' !in volumeId ==> '{' !in t
    ensures '}' !in device && '}' !in volumeId ==> '}' !in t
  {
    "device=\"" + device + "\",volume_id=\"" + volumeId + "\""
  }

  /** The sample line `name{labels} value`. */
  function SampleLine(labels: string, m: Metric): string
  {
    m.name + "{" + labels + "}" + " " + m.value
  }

  /** The four lines `add_metric` appends: HELP, TYPE, the sample, a blank line. */
  function MetricLines(labels: string, m: Metric): seq<string>
  {
    ["# HELP " + m.name + " " + m.help, "# TYPE " + m.name + " " + m.kind, SampleLine(labels, m), ""]
  }

  /** The lines of several metrics, in call order. */
  function Lines(labels: string, ms: seq<Metric>): (ls: seq<string>)
    ensures |ls| == 4 * |ms|
  {
    if ms == [] then [] else MetricLines(labels, ms[0]) + Lines(labels, ms[1..])
  }

  /** Metric k owns lines 4k .. 4k+3. */
  lemma {:induction false} LinesSlices(labels: string, ms: seq<Metric>)
    ensures forall k :: 0 <= k < |ms| ==> Lines(labels, ms)[4 * k..4 * k + 4] == MetricLines(labels, ms[k])
  {
    if ms != [] {
      var tail := Lines(labels, ms[1..]);
      LinesSlices(labels, ms[1..]);
      assert forall k :: 1 <= k < |ms| ==>
        (MetricLines(labels, ms[0]) + tail)[4 * k..4 * k + 4] == tail[4 * (k - 1)..4 * (k - 1) + 4];
    }
  }

  /** Python's `'\n'.join(lines)`. */
  function JoinLines(ls: seq<string>): string
  {
    if ls == [] then ""
    else if |ls| == 1 then ls[0]
    else ls[0] + "\n" + JoinLines(ls[1..])
  }

  predicate NotNewline(c: char)
  {
    c != '\n'
  }

  /** Python's `s.split('\n')`. */
  function SplitLines(s: string): (ls: seq<string>)
    ensures |ls| > 0
    decreases |s|
  {
    var n := Span(s, NotNewline);
    if n == |s| then [s] else [s[..n]] + SplitLines(s[n + 1..])
  }

  /** Joining lines that hold no line break and splitting the result again
      gives the lines back. */
  lemma {:induction false} SplitJoinLines(ls: seq<string>)
    requires ls != []
    requires forall k :: 0 <= k < |ls| ==> '\n' !in ls[k]
    ensures SplitLines(JoinLines(ls)) == ls
  {
    if |ls| == 1 {
      SpanAll(ls[0], NotNewline);
    } else {
      var rest := JoinLines(ls[1..]);
      assert JoinLines(ls) == ls[0] + "\n" + rest;
      SplitAtBreak(ls[0], rest);
      SplitJoinLines(ls[1..]);
      assert ls == [ls[0]] + ls[1..];
    }
  }

  /** A line, a line break and the rest: `split` cuts at that break. */
  lemma SplitAtBreak(a: string, r: string)
    requires '\n' !in a
    ensures SplitLines(a + "\n" + r) == [a] + SplitLines(r)
  {
    var s := a + "\n" + r;
    assert s == a + ("\n" + r);
    SpanStops(a, "\n" + r, NotNewline);
    assert s[..|a|] == a && s[|a| + 1..] == r;
  }

  /** Joining two non-empty runs of lines puts one line break between them. */
  lemma {:induction false} JoinAppend(a: seq<string>, b: seq<string>)
    requires a != [] && b != []
    ensures JoinLines(a + b) == JoinLines(a) + "\n" + JoinLines(b)
  {
    if |a| == 1 {
      assert (a + b)[1..] == b;
    } else {
      assert (a + b)[1..] == a[1..] + b;
      JoinAppend(a[1..], b);
    }
  }

  // ------------------------------------------------------------- reading back

  predicate NotCloseBrace(c: char)
  {
    c != '}'
  }

  /** The pattern `name\{[^}]+\}\s+(\d+)` anchored at the start of `s`, and
      the integer its group holds. */
  function MatchAt(s: string, name: string): (r: Option<nat>)
    ensures r.Some? ==> HasPrefix(s, name + "{")
  {
    if HasPrefix(s, name + "{") then MatchBraced(s[|name| + 1..]) else None
  }

  /** `[^}]+\}\s+(\d+)`: the class can only stop just before the first '}'. */
  function MatchBraced(t: string): Option<nat>
  {
    var inner := Span(t, NotCloseBrace);
    if inner == 0 || inner == |t| then None else MatchValue(t[inner + 1..])
  }

  /** `\s+(\d+)`: `\s` and `\d` share no character, so `\s+` takes all the
      white space and `\d+` all the digits after it. */
  function MatchValue(u: string): Option<nat>
  {
    var ws := Span(u, PySpace);
    var digits := Span(u[ws..], IsDigit);
    if ws == 0 || digits == 0 then None else Some(ParseDecimal(u[ws..ws + digits]))
  }

  /** Python's `re.search`: the match at the leftmost position where there is one. */
  function Search(s: string, name: string): (r: Option<nat>)
    decreases |s|
  {
    if MatchAt(s, name).Some? || s == [] then MatchAt(s, name) else Search(s[1..], name)
  }

  /** Positions where the pattern does not match are passed over. */
  lemma {:induction false} SearchSkip(s: string, name: string, k: nat)
    requires k <= |s|
    requires forall q :: 0 <= q < k ==> MatchAt(s[q..], name).None?
    ensures Search(s, name) == Search(s[k..], name)
  {
    if k > 0 {
      assert s[0..] == s;
      forall q | 0 <= q < k - 1
        ensures MatchAt(s[1..][q..], name).None?
      {
        assert s[1..][q..] == s[q + 1..];
      }
      SearchSkip(s[1..], name, k - 1);
      assert s[1..][k - 1..] == s[k..];
    }
  }

  /** Search returns the match at the leftmost position where the pattern
      matches. */
  lemma SearchFirst(s: string, name: string, p: nat)
    requires p <= |s| && MatchAt(s[p..], name).Some?
    requires forall q :: 0 <= q < p ==> MatchAt(s[q..], name).None?
    ensures Search(s, name) == MatchAt(s[p..], name)
  {
    SearchSkip(s, name, p);
  }

  /** Search finds nothing exactly when the pattern matches at no position. */
  lemma {:induction false} SearchNone(s: string, name: string)
    ensures Search(s, name).None? <==> forall p :: 0 <= p <= |s| ==> MatchAt(s[p..], name).None?
    decreases |s|
  {
    assert s[0..] == s;
    if s != [] && MatchAt(s, name).None? {
      SearchNone(s[1..], name);
      forall p | 1 <= p <= |s|
        ensures s[p..] == s[1..][p - 1..]
      {
      }
    } else if s == [] {
      assert forall p :: 0 <= p <= |s| ==> s[p..] == s;
    }
  }

  /** `name{` occurs in `s` at position `p`. */
  predicate OpensAt(s: string, name: string, p: nat)
  {
    p + |name| < |s| && s[p..p + |name|] == name && s[p + |name|] == '{'
  }

  /** The pattern can only match where `name{` occurs. */
  lemma PrefixOpens(s: string, name: string, p: nat)
    requires p <= |s| && HasPrefix(s[p..], name + "{")
    ensures OpensAt(s, name, p)
  {
    var t := s[p..];
    assert t[..|name| + 1] == name + "{";
    assert t[..|name|] == name && t[|name|] == '{';
    assert s[p..p + |name|] == t[..|name|];
  }

  /** `\s+(\d+)` on a single space, the decimal digits of `v` and a tail
      that does not start with a digit gives `v`. */
  lemma MatchValueOf(v: nat, tail: string)
    requires tail == [] || !IsDigit(tail[0])
    ensures MatchValue(" " + Decimal(v) + tail) == Some(v)
  {
    MatchDigits(Decimal(v), tail);
    ParseDecimalOfDecimal(v);
  }

  lemma MatchDigits(d: string, tail: string)
    requires d != [] && forall i :: 0 <= i < |d| ==> IsDigit(d[i])
    requires tail == [] || !IsDigit(tail[0])
    ensures MatchValue(" " + d + tail) == Some(ParseDecimal(d))
  {
    var x := d + tail;
    assert " " + d + tail == " " + x;
    LeadingSpace(x);
    DigitRun(d, tail);
    assert (" " + x)[1..] == x;
    assert x[..|d|] == d;
  }

  lemma LeadingSpace(x: string)
    requires x != [] && IsDigit(x[0])
    ensures Span(" " + x, PySpace) == 1
  {
    SpanStops(" ", x, PySpace);
  }

  lemma DigitRun(d: string, tail: string)
    requires forall i :: 0 <= i < |d| ==> IsDigit(d[i])
    requires tail == [] || !IsDigit(tail[0])
    ensures Span(d + tail, IsDigit) == |d|
  {
    if tail == [] {
      assert d + tail == d;
      SpanAll(d, IsDigit);
    } else {
      SpanStops(d, tail, IsDigit);
    }
  }

  /** `[^}]+\}` consumes exactly the labels when they are not empty and hold
      no '}'. */
  lemma MatchBracedOf(labels: string, u: string)
    requires labels != [] && '}' !in labels
    ensures MatchBraced(labels + "}" + u) == MatchValue(u)
  {
    var t := labels + "}" + u;
    assert t == labels + ("}" + u);
    SpanStops(labels, "}" + u, NotCloseBrace);
    assert t[|labels| + 1..] == u;
  }

  /** A sample line as `add_metric` writes it is matched at its start, and
      the group gives back the value, provided the labels are not empty and
      hold no '}' and the line is not followed by a digit. */
  lemma MatchSample(name: string, labels: string, v: nat, tail: string)
    requires labels != [] && '}' !in labels
    requires tail == [] || !IsDigit(tail[0])
    ensures MatchAt(name + "{" + labels + "}" + " " + Decimal(v) + tail, name) == Some(v)
  {
    var u := " " + Decimal(v) + tail;
    var s := name + "{" + labels + "}" + " " + Decimal(v) + tail;
    assert s == (name + "{") + (labels + "}" + u);
    assert s[..|name| + 1] == name + "{";
    assert s[|name| + 1..] == labels + "}" + u;
    MatchBracedOf(labels, u);
    MatchValueOf(v, tail);
  }

  /** When `s` starts with `w`, a text that ends with `name` and holds no
      '{', followed by a '{', the pattern matches first (if at all) where
      that `name` begins. */
  lemma SearchFirstOpening(s: string, w: string, name: string, k: nat)
    requires |w| < |s| && s[..|w|] == w && '{' !in w
    requires EndsWith(w, name) && k == |w| - |name|
    ensures Search(s, name) == Search(s[k..], name)
  {
    forall q | 0 <= q < k
      ensures MatchAt(s[q..], name).None?
    {
      assert s[q + |name|] == s[..|w|][q + |name|];
      if MatchAt(s[q..], name).Some? {
        PrefixOpens(s, name, q);
      }
    }
    SearchSkip(s, name, k);
  }

  /** The same for the second '{' of a text that starts `w`, '{', `r`, when
      `r` ends with `name`, neither `w` nor `r` holds a '{', and `w` does not
      end with `name` (which would open a match at the first '{'). */
  lemma SearchSecondOpening(s: string, w: string, r: string, name: string, k: nat)
    requires |w| + 1 + |r| <= |s| && s[..|w|] == w && s[|w| + 1..|w| + 1 + |r|] == r
    requires '{' !in w && '{' !in r
    requires EndsWith(r, name) && !EndsWith(w, name)
    requires k == |w| + 1 + |r| - |name|
    ensures Search(s, name) == Search(s[k..], name)
  {
    forall q: nat | q < k
      ensures MatchAt(s[q..], name).None?
    {
      SecondOpeningAt(s, w, r, name, q);
    }
    SearchSkip(s, name, k);
  }

  lemma SecondOpeningAt(s: string, w: string, r: string, name: string, q: nat)
    requires |w| + 1 + |r| <= |s| && s[..|w|] == w && s[|w| + 1..|w| + 1 + |r|] == r
    requires '{' !in w && '{' !in r && !EndsWith(w, name)
    requires q + |name| < |w| + 1 + |r|
    ensures MatchAt(s[q..], name).None?
  {
    if MatchAt(s[q..], name).Some? {
      PrefixOpens(s, name, q);
    }
    if q + |name| < |w| {
      assert s[q + |name|] == s[..|w|][q + |name|];
    } else if q + |name| == |w| {
      assert s[q..q + |name|] == s[..|w|][|w| - |name|..];
    } else {
      assert s[q + |name|] == s[|w| + 1..|w| + 1 + |r|][q + |name| - |w| - 1];
    }
  }

  // ------------------------------------------------- the rendered text read back

  /** The HELP and TYPE lines of a metric, each with its line break. */
  function Preamble(m: Metric): string
  {
    "# HELP " + m.name + " " + m.help + "\n" + "# TYPE " + m.name + " " + m.kind + "\n"
  }

  /** The lines after the second metric's block. */
  function After(labels: string, rest: seq<Metric>): string
  {
    if rest == [] then "" else "\n" + JoinLines(Lines(labels, rest))
  }

  lemma JoinMetricLines(labels: string, m: Metric)
    ensures JoinLines(MetricLines(labels, m)) == Preamble(m) + SampleLine(labels, m) + "\n"
  {
    var ls := MetricLines(labels, m);
    assert ls[1..][1..][1..] == [""];
    assert JoinLines(ls[1..][1..]) == ls[2] + "\n";
  }

  /** The text of a rendering whose first two metrics are `m1` and `m2`. */
  lemma FirstTwoShape(labels: string, m1: Metric, m2: Metric, rest: seq<Metric>)
    ensures JoinLines(Lines(labels, [m1, m2] + rest))
         == Preamble(m1) + SampleLine(labels, m1) + "\n" + "\n"
            + Preamble(m2) + SampleLine(labels, m2) + "\n" + After(labels, rest)
  {
    var l1, l2, lr := MetricLines(labels, m1), MetricLines(labels, m2), Lines(labels, rest);
    assert Lines(labels, [m1, m2] + rest) == l1 + (l2 + lr) by {
      var ms := [m1, m2] + rest;
      assert ms[1..] == [m2] + rest && ms[1..][1..] == rest;
    }
    JoinAppend(l1, l2 + lr);
    JoinThenAfter(l2, lr);
    JoinMetricLines(labels, m1);
    JoinMetricLines(labels, m2);
    Regroup(Preamble(m1) + SampleLine(labels, m1) + "\n" + "\n", Preamble(m2), SampleLine(labels, m2), "\n",
            After(labels, rest));
  }

  lemma JoinThenAfter(l: seq<string>, lr: seq<string>)
    requires l != []
    ensures JoinLines(l + lr) == JoinLines(l) + (if lr == [] then "" else "\n" + JoinLines(lr))
  {
    if lr == [] {
      assert l + lr == l;
    } else {
      JoinAppend(l, lr);
    }
  }

  lemma Regroup(z: string, p: string, q: string, n: string, a: string)
    ensures z + (p + q + n + a) == z + p + q + n + a
  {
  }

  /** Searching a rendering for either of its first two metric names gives
      that metric's value back, provided no name, help text, type or label
      holds a '{', the labels hold no '}', and the first metric's HELP and
      TYPE lines followed by its name do not end with the second name. */
  lemma ReadBackFirstTwo(labels: string, m1: Metric, m2: Metric, v1: nat, v2: nat, rest: seq<Metric>)
    requires m1.value == Decimal(v1) && m2.value == Decimal(v2)
    requires labels != [] && '{' !in labels && '}' !in labels
    requires '{' !in m1.name && '{' !in m1.help && '{' !in m1.kind
    requires '{' !in m2.name && '{' !in m2.help && '{' !in m2.kind
    requires !EndsWith(Preamble(m1) + m1.name, m2.name)
    ensures Search(JoinLines(Lines(labels, [m1, m2] + rest)), m1.name) == Some(v1)
    ensures Search(JoinLines(Lines(labels, [m1, m2] + rest)), m2.name) == Some(v2)
  {
    FirstTwoShape(labels, m1, m2, rest);
    var s := JoinLines(Lines(labels, [m1, m2] + rest));
    var p1, p2 := Preamble(m1), Preamble(m2);
    var d1, d2 := Decimal(v1), Decimal(v2);
    var a := After(labels, rest);
    assert '{' !in d1 by { assert forall i :: 0 <= i < |d1| ==> IsDigit(d1[i]); }
    RegroupFirst(p1, m1.name, labels, d1, p2, m2.name, d2, a);
    OpeningFirst(s, p1, m1.name, labels, v1, "\n" + "\n" + p2 + (m2.name + "{" + labels + "}" + " " + d2) + "\n" + a);
    RegroupSecond(p1, m1.name, labels, d1, p2, m2.name, d2, a);
    OpeningSecond(s, p1 + m1.name, labels + "}" + " " + d1 + "\n" + "\n" + p2, m2.name, labels, v2, "\n" + a);
  }

  predicate EndsWith(s: string, suffix: string)
  {
    |suffix| <= |s| && s[|s| - |suffix|..] == suffix
  }

  /** The rendering of two metrics cut where the first sample line begins. */
  lemma RegroupFirst(p1: string, n1: string, l: string, d1: string, p2: string, n2: string, d2: string, a: string)
    ensures p1 + (n1 + "{" + l + "}" + " " + d1) + "\n" + "\n" + p2 + (n2 + "{" + l + "}" + " " + d2) + "\n" + a
         == p1 + (n1 + "{" + l + "}" + " " + d1 + ("\n" + "\n" + p2 + (n2 + "{" + l + "}" + " " + d2) + "\n" + a))
  {
  }

  /** The rendering of two metrics cut where the second sample line begins. */
  lemma RegroupSecond(p1: string, n1: string, l: string, d1: string, p2: string, n2: string, d2: string, a: string)
    ensures p1 + (n1 + "{" + l + "}" + " " + d1) + "\n" + "\n" + p2 + (n2 + "{" + l + "}" + " " + d2) + "\n" + a
         == ((p1 + n1) + "{" + (l + "}" + " " + d1 + "\n" + "\n" + p2)) + (n2 + "{" + l + "}" + " " + d2 + ("\n" + a))
  {
  }

  /** Search stops at a position it reaches where the pattern matches. */
  lemma SearchReaches(s: string, name: string, k: nat, v: nat)
    requires k <= |s| && Search(s, name) == Search(s[k..], name)
    requires MatchAt(s[k..], name) == Some(v)
    ensures Search(s, name) == Some(v)
  {
  }

  lemma OpeningFirst(s: string, p: string, name: string, labels: string, v: nat, tail: string)
    requires s == p + (name + "{" + labels + "}" + " " + Decimal(v) + tail)
    requires '{' !in p && '{' !in name && tail != [] && tail[0] == '\n'
    requires labels != [] && '}' !in labels
    ensures Search(s, name) == Some(v)
  {
    var line := name + "{" + labels + "}" + " " + Decimal(v) + tail;
    var w := p + name;
    assert s[|p|..] == line;
    assert s[..|w|] == w by {
      assert line[..|name|] == name;
    }
    SearchFirstOpening(s, w, name, |p|);
    MatchSample(name, labels, v, tail);
    SearchReaches(s, name, |p|, v);
  }

  lemma OpeningSecond(s: string, w: string, r0: string, name: string, labels: string, v: nat, more: string)
    requires s == (w + "{" + r0) + (name + "{" + labels + "}" + " " + Decimal(v) + more)
    requires '{' !in w && '{' !in r0 && '{' !in name && !EndsWith(w, name)
    requires labels != [] && '}' !in labels
    requires more != [] && more[0] == '\n'
    ensures Search(s, name) == Some(v)
  {
    var q := w + "{" + r0;
    var line := name + "{" + labels + "}" + " " + Decimal(v) + more;
    var r := r0 + name;
    assert s[|q|..] == line;
    assert s[..|w|] == w by {
      assert s[..|q|] == q;
    }
    assert s[|w| + 1..|w| + 1 + |r|] == r by {
      assert s[|w| + 1..|q|] == r0;
      assert s[|q|..|q| + |name|] == line[..|name|] == name;
    }
    SearchSecondOpening(s, w, r, name, |q|);
    MatchSample(name, labels, v, more);
    SearchReaches(s, name, |q|, v);
  }
}
