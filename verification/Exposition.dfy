/** The Prometheus text exposition format 0.0.4: the dashboard's parser, and the lines the backend prints. */
module Exposition {
  import opened Wrappers

  // ---------------------------------------------------------------- characters and strings

  /** The white space of `trim()` and `\s`. */
  predicate IsSpace(c: char) {
    c == ' ' || c == '\t' || c == '\n' || c == '\r' || c == '\U{000B}' || c == '\U{000C}' ||
    c == '\U{00A0}' || c == '\U{1680}' || '\U{2000}' <= c <= '\U{200A}' || c == '\U{2028}' || c == '\U{2029}' ||
    c == '\U{202F}' || c == '\U{205F}' || c == '\U{3000}' || c == '\U{FEFF}'
  }

  predicate IsDigit(c: char) { '0' <= c <= '9' }

  predicate IsNameStart(c: char) { 'a' <= c <= 'z' || 'A' <= c <= 'Z' || c == '_' || c == ':' }

  predicate IsNameChar(c: char) { IsNameStart(c) || IsDigit(c) }

  predicate IsValueChar(c: char) { IsDigit(c) || c == '.' || c == 'e' || c == 'E' || c == '+' }

  function TrimLeft(s: string): string {
    if s != [] && IsSpace(s[0]) then TrimLeft(s[1..]) else s
  }

  function TrimRight(s: string): string {
    if s != [] && IsSpace(s[|s| - 1]) then TrimRight(s[..|s| - 1]) else s
  }

  function Trim(s: string): string { TrimRight(TrimLeft(s)) }

  /** `s.split(d)` for a one-character separator. */
  function Split(s: string, d: char): (parts: seq<string>)
    ensures parts != []
  {
    if s == [] then [[]]
    else
      var rest := Split(s[1..], d);
      if s[0] == d then [[]] + rest else [[s[0]] + rest[0]] + rest[1..]
  }

  /** Length of the longest prefix made of characters of one class. */
  function Span(s: string, p: char -> bool): (n: nat)
    ensures n <= |s|
  {
    if s != [] && p(s[0]) then 1 + Span(s[1..], p) else 0
  }

  /** `s.indexOf(c)`, or the length of `s` when there is none. */
  function IndexOf(s: string, c: char): (i: nat)
    ensures i <= |s|
  {
    Span(s, x => x != c)
  }

  // ---------------------------------------------------------------- numbers

  datatype JsNumber = Num(value: real) | NaN

  predicate AllDigits(s: string) { forall i :: 0 <= i < |s| ==> IsDigit(s[i]) }

  function DigitsValue(s: string): nat
    requires AllDigits(s)
  {
    if s == [] then 0 else DigitsValue(s[..|s| - 1]) * 10 + (s[|s| - 1] as int - '0' as int)
  }

  function Pow10(n: nat): (p: nat)
    ensures p > 0
  {
    if n == 0 then 1 else 10 * Pow10(n - 1)
  }

  /** Digits with at most one dot, and at least one digit. */
  function Mantissa(s: string): JsNumber {
    var i := IndexOf(s, '.');
    var whole, fraction := s[..i], if i < |s| then s[i + 1..] else [];
    if !AllDigits(whole) || !AllDigits(fraction) || (whole == [] && fraction == []) then NaN
    else Num(DigitsValue(whole) as real + DigitsValue(fraction) as real / Pow10(|fraction|) as real)
  }

  function Unsigned(s: string): JsNumber {
    var i := Span(s, x => x != 'e' && x != 'E');
    if i == |s| then Mantissa(s)
    else
      var e := if i + 1 < |s| && s[i + 1] == '+' then s[i + 2..] else s[i + 1..];
      match Mantissa(s[..i])
      case NaN => NaN
      case Num(m) => if e == [] || !AllDigits(e) then NaN else Num(m * Pow10(DigitsValue(e)) as real)
  }

  /** `Number(text)` on the texts the line pattern lets through. */
  function NumberOf(text: string): JsNumber {
    if text == "NaN" then NaN
    else if text != [] && text[0] == '-' then
      match Unsigned(text[1..])
      case NaN => NaN
      case Num(v) => Num(-v)
    else Unsigned(if text != [] && text[0] == '+' then text[1..] else text)
  }

  /** `-?[0-9.eE+]+|NaN` */
  predicate IsValueText(s: string) {
    s == "NaN" || IsNumeral(if s != [] && s[0] == '-' then s[1..] else s)
  }

  predicate IsNumeral(s: string) { s != [] && forall i :: 0 <= i < |s| ==> IsValueChar(s[i]) }

  // ---------------------------------------------------------------- the parser

  datatype Sample = Sample(name: string, labels: map<string, string>, value: JsNumber)

  /** The three groups of the line pattern; `braces` is empty when there is no label group. */
  datatype Match = Match(name: string, braces: string, text: string)

  /** `^([a-zA-Z_:][a-zA-Z0-9_:]*)(\{[^}]*\})?\s+(-?[0-9.eE+]+|NaN)$`. Each group is followed by a
      character outside its class, so the greedy match is the only one. */
  function MatchLine(line: string): Option<Match> {
    var n := Span(line, IsNameChar);
    if n == 0 || !IsNameStart(line[0]) then None else MatchLabels(line[..n], line[n..])
  }

  function MatchLabels(name: string, rest: string): Option<Match> {
    if rest == [] || rest[0] != '{' then MatchValue(name, "", rest)
    else
      var close := IndexOf(rest, '}');
      if close == |rest| then None else MatchValue(name, rest[..close + 1], rest[close + 1..])
  }

  function MatchValue(name: string, braces: string, tail: string): Option<Match> {
    var m := Span(tail, IsSpace);
    if m == 0 || !IsValueText(tail[m..]) then None else Some(Match(name, braces, tail[m..]))
  }

  /** `replace(/^"|"$/g, "")` */
  function Unquote(s: string): string {
    var t := if s != [] && s[0] == '"' then s[1..] else s;
    if t != [] && t[|t| - 1] == '"' then t[..|t| - 1] else t
  }

  function AddPair(labels: map<string, string>, pair: string): map<string, string> {
    var eq := IndexOf(pair, '=');
    if eq == |pair| then labels else labels[Trim(pair[..eq]) := Unquote(Trim(pair[eq + 1..]))]
  }

  function AddPairs(labels: map<string, string>, pairs: seq<string>): map<string, string>
    decreases pairs
  {
    if pairs == [] then labels else AddPairs(AddPair(labels, pairs[0]), pairs[1..])
  }

  function LabelsOf(braces: string): map<string, string> {
    if |braces| < 2 then map[] else AddPairs(map[], Split(braces[1..|braces| - 1], ','))
  }

  function ParseLine(raw: string): seq<Sample> {
    var line := Trim(raw);
    if line == [] || line[0] == '#' then []
    else
      match MatchLine(line)
      case None => []
      case Some(m) => [Sample(m.name, LabelsOf(m.braces), NumberOf(m.text))]
  }

  function ParseLines(lines: seq<string>): seq<Sample> {
    if lines == [] then [] else ParseLine(lines[0]) + ParseLines(lines[1..])
  }

  function Parsed(text: string): seq<Sample> { ParseLines(Split(text, '\n')) }

  /** The source's loops over lines and label pairs. */
  method ParseExposition(text: string) returns (out: seq<Sample>)
    ensures out == Parsed(text)
  {
    hide ParseLine;
    hide Split;
    out := [];
    var lines := Split(text, '\n');
    for i := 0 to |lines|
      invariant out + ParseLines(lines[i..]) == ParseLines(lines)
    {
      assert lines[i..][1..] == lines[i + 1..];
      var samples := ParseOne(lines[i]);
      out := out + samples;
    }
  }

  /** One turn of the loop over lines. */
  method ParseOne(raw: string) returns (samples: seq<Sample>)
    ensures samples == ParseLine(raw)
  {
    hide MatchLine;
    hide NumberOf;
    hide LabelsOf;
    hide Trim;
    var line := Trim(raw);
    if line == [] || line[0] == '#' { return []; }
    var m := MatchLine(line);
    if m.None? { return []; }
    var labels := ParseLabels(m.value.braces);
    return [Sample(m.value.name, labels, NumberOf(m.value.text))];
  }

  method ParseLabels(braces: string) returns (labels: map<string, string>)
    ensures labels == LabelsOf(braces)
  {
    hide Trim;
    hide Unquote;
    hide Split;
    hide IndexOf;
    labels := map[];
    if |braces| >= 2 {
      var pairs := Split(braces[1..|braces| - 1], ',');
      for i := 0 to |pairs|
        invariant AddPairs(labels, pairs[i..]) == AddPairs(map[], pairs)
      {
        assert pairs[i..][1..] == pairs[i + 1..];
        var eq := IndexOf(pairs[i], '=');
        if eq < |pairs[i]| {
          labels := labels[Trim(pairs[i][..eq]) := Unquote(Trim(pairs[i][eq + 1..]))];
        }
      }
    }
  }

  predicate HasLabels(s: Sample, labels: map<string, string>) {
    forall k | k in labels :: k in s.labels && s.labels[k] == labels[k]
  }

  /** The first sample with the name and all the labels. */
  function Pick(samples: seq<Sample>, name: string, labels: map<string, string>): Option<JsNumber> {
    if samples == [] then None
    else if samples[0].name == name && HasLabels(samples[0], labels) then Some(samples[0].value)
    else Pick(samples[1..], name, labels)
  }

  // ---------------------------------------------------------------- the printed lines

  datatype Label = Label(key: string, value: string)

  datatype Line = Comment(body: string) | Measure(name: string, labels: seq<Label>, text: string)

  function RenderLabel(l: Label): string { l.key + "=\"" + l.value + "\"" }

  function RenderLabels(labels: seq<Label>): string
    requires labels != []
  {
    if |labels| == 1 then RenderLabel(labels[0])
    else RenderLabel(labels[0]) + "," + RenderLabels(labels[1..])
  }

  function Braces(labels: seq<Label>): string {
    if labels == [] then "" else "{" + RenderLabels(labels) + "}"
  }

  function RenderLine(line: Line): string {
    match line
    case Comment(body) => body
    case Measure(name, labels, text) => name + Braces(labels) + " " + text
  }

  function Render(doc: seq<Line>): string {
    if doc == [] then "" else RenderLine(doc[0]) + "\n" + Render(doc[1..])
  }

  // ---------------------------------------------------------------- what may be printed

  predicate Lacks(s: string, c: char) { forall i :: 0 <= i < |s| ==> s[i] != c }

  predicate IsName(s: string) {
    s != [] && IsNameStart(s[0]) && forall i :: 0 <= i < |s| ==> IsNameChar(s[i])
  }

  /** Keys without separators or outer white space; values without comma, brace or newline. Quotes and
      equals signs inside values do no harm. */
  predicate IsLabel(l: Label) {
    && Trim(l.key) == l.key && Lacks(l.key, '=') && Lacks(l.key, ',') && Lacks(l.key, '}') && Lacks(l.key, '\n')
    && Lacks(l.value, ',') && Lacks(l.value, '}') && Lacks(l.value, '\n')
  }

  predicate IsLine(line: Line) {
    match line
    case Comment(body) => body != [] && body[0] == '#' && Lacks(body, '\n')
    case Measure(name, labels, text) =>
      IsName(name) && (forall i :: 0 <= i < |labels| ==> IsLabel(labels[i])) && IsValueText(text)
  }

  function LabelMap(m: map<string, string>, labels: seq<Label>): map<string, string>
    decreases labels
  {
    if labels == [] then m else LabelMap(m[labels[0].key := labels[0].value], labels[1..])
  }

  function SampleOf(line: Line): seq<Sample> {
    match line
    case Comment(_) => []
    case Measure(name, labels, text) => [Sample(name, LabelMap(map[], labels), NumberOf(text))]
  }

  function SamplesOf(doc: seq<Line>): seq<Sample> {
    if doc == [] then [] else SampleOf(doc[0]) + SamplesOf(doc[1..])
  }

  // ---------------------------------------------------------------- the round trip

  lemma {:induction false} SplitWhole(a: string, d: char)
    requires Lacks(a, d)
    ensures Split(a, d) == [a]
  {
    if a != [] {
      SplitWhole(a[1..], d);
      assert [a[0]] + a[1..] == a;
    }
  }

  lemma {:induction false} SplitFirst(a: string, d: char, b: string)
    requires Lacks(a, d)
    ensures Split(a + [d] + b, d) == [a] + Split(b, d)
  {
    var s := a + [d] + b;
    if a == [] {
      assert s[1..] == b;
    } else {
      SplitFirst(a[1..], d, b);
      assert s[1..] == a[1..] + [d] + b;
      assert [a[0]] + a[1..] == a;
      assert ([a[1..]] + Split(b, d))[1..] == Split(b, d);
    }
  }

  lemma {:induction false} SplitAdds(a: string, b: string, d: char)
    ensures |Split(a + b, d)| == |Split(a, d)| + |Split(b, d)| - 1
  {
    if a == [] {
      assert a + b == b;
    } else {
      assert (a + b)[1..] == a[1..] + b;
      SplitAdds(a[1..], b, d);
    }
  }

  lemma {:induction false} SplitOnce(a: string, d: char)
    ensures |Split(a, d)| == 1 <==> Lacks(a, d)
  {
    if a != [] {
      SplitOnce(a[1..], d);
      assert Lacks(a, d) <==> a[0] != d && Lacks(a[1..], d) by {
        if a[0] != d && Lacks(a[1..], d) { assert forall i :: 0 < i < |a| ==> a[i] == a[1..][i - 1]; }
      }
    }
  }

  lemma {:induction false} SpanStops(a: string, b: string, p: char -> bool)
    requires forall i :: 0 <= i < |a| ==> p(a[i])
    requires b == [] || !p(b[0])
    ensures Span(a + b, p) == |a|
    decreases a
  {
    if a == [] {
      assert a + b == b;
    } else {
      assert (a + b)[1..] == a[1..] + b;
      SpanStops(a[1..], b, p);
    }
  }

  lemma TrimIsIdle(s: string)
    requires s != [] ==> !IsSpace(s[0]) && !IsSpace(s[|s| - 1])
    ensures Trim(s) == s
  {
    hide IsSpace;
    assert TrimLeft(s) == s;
  }

  lemma {:induction false} TrimKeepsStart(s: string)
    requires s != [] && !IsSpace(s[0])
    ensures Trim(s) != [] && Trim(s)[0] == s[0]
    decreases |s|
  {
    if IsSpace(s[|s| - 1]) {
      TrimKeepsStart(s[..|s| - 1]);
    }
  }

  /** The first equals sign of a rendered label ends its key. */
  lemma KeyEnds(key: string, quoted: string)
    requires Lacks(key, '=')
    ensures var pair := key + ("=" + quoted);
      IndexOf(pair, '=') == |key| && pair[..|key|] == key && pair[|key| + 1..] == quoted && |key| < |pair|
  {
    SpanStops(key, "=" + quoted, x => x != '=');
  }

  lemma QuotesComeOff(value: string)
    ensures var quoted := "\"" + value + "\""; Trim(quoted) == quoted && Unquote(quoted) == value
  {
    hide IsSpace;
    hide Trim;
    var quoted := "\"" + value + "\"";
    QuoteIsNoSpace();
    TrimIsIdle(quoted);
    assert quoted[1..] == value + "\"";
  }

  /** One rendered label parses back to its key and value. */
  lemma LabelRoundTrips(l: Label, m: map<string, string>)
    requires IsLabel(l)
    ensures AddPair(m, RenderLabel(l)) == m[l.key := l.value]
  {
    hide Trim;
    hide Unquote;
    hide IndexOf;
    var quoted := "\"" + l.value + "\"";
    assert RenderLabel(l) == l.key + ("=" + quoted);
    KeyEnds(l.key, quoted);
    QuotesComeOff(l.value);
  }

  lemma QuoteIsNoSpace()
    ensures !IsSpace('"') && !IsSpace('#') && !IsSpace('{')
  {
  }

  lemma {:induction false} RenderedLabelsLack(labels: seq<Label>, c: char)
    requires labels != [] && forall i :: 0 <= i < |labels| ==> IsLabel(labels[i])
    requires c == '}' || c == '\n'
    ensures Lacks(RenderLabels(labels), c)
  {
    hide Trim;
    assert IsLabel(labels[0]);
    assert Lacks(RenderLabel(labels[0]), c);
    if |labels| > 1 {
      RenderedLabelsLack(labels[1..], c);
    }
    hide RenderLabel;
  }

  lemma RenderedLabelLacksComma(l: Label)
    requires IsLabel(l)
    ensures Lacks(RenderLabel(l), ',')
  {
    hide Trim;
  }

  lemma {:induction false} LabelsRoundTrip(labels: seq<Label>, m: map<string, string>)
    requires labels != [] && forall i :: 0 <= i < |labels| ==> IsLabel(labels[i])
    ensures AddPairs(m, Split(RenderLabels(labels), ',')) == LabelMap(m, labels)
  {
    hide IsLabel;
    hide AddPair;
    assert IsLabel(labels[0]);
    var first := RenderLabel(labels[0]);
    RenderedLabelLacksComma(labels[0]);
    LabelRoundTrips(labels[0], m);
    hide RenderLabel;
    if |labels| == 1 {
      SplitWhole(first, ',');
      assert AddPairs(AddPair(m, first), []) == AddPair(m, first);
      assert labels[1..] == [];
      assert LabelMap(m, labels) == m[labels[0].key := labels[0].value];
    } else {
      SplitFirst(first, ',', RenderLabels(labels[1..]));
      LabelsRoundTrip(labels[1..], m[labels[0].key := labels[0].value]);
      assert ([first] + Split(RenderLabels(labels[1..]), ','))[1..] == Split(RenderLabels(labels[1..]), ',');
    }
  }

  lemma BracesRoundTrip(labels: seq<Label>)
    requires forall i :: 0 <= i < |labels| ==> IsLabel(labels[i])
    ensures LabelsOf(Braces(labels)) == LabelMap(map[], labels)
  {
    hide IsLabel;
    if labels != [] {
      LabelsRoundTrip(labels, map[]);
      var b := Braces(labels);
      assert b[1..|b| - 1] == RenderLabels(labels);
    }
    hide RenderLabels;
    hide AddPairs;
  }

  lemma ClassesAreDisjoint(c: char)
    ensures IsNameChar(c) ==> !IsSpace(c) && c != '{' && c != '#' && c != '\n'
    ensures IsValueChar(c) || c == '-' || c == 'N' ==> !IsSpace(c) && c != '\n'
  {
  }

  lemma ValueTextIsSolid(text: string)
    requires IsValueText(text)
    ensures text != [] && Lacks(text, '\n') && !IsSpace(text[0]) && !IsSpace(text[|text| - 1])
  {
    if text != "NaN" {
      forall i | 0 <= i < |text| ensures text[i] != '\n' && !IsSpace(text[i]) {
        ClassesAreDisjoint(text[i]);
        assert i > 0 && text[0] == '-' ==> text[i] == text[1..][i - 1];
      }
    }
  }

  lemma {:induction false} NameIsSolid(s: string, n: nat)
    requires IsName(s) && n <= |s|
    ensures Lacks(s[..n], '\n') && forall i :: 0 <= i < n ==> !IsSpace(s[i])
    ensures s[0] != '#' && s[0] != '{'
  {
    forall i | 0 <= i < |s| ensures s[i] != '\n' && !IsSpace(s[i]) && s[i] != '{' && s[i] != '#' {
      ClassesAreDisjoint(s[i]);
    }
  }

  lemma ValueMatches(name: string, braces: string, text: string)
    requires IsValueText(text)
    ensures MatchValue(name, braces, " " + text) == Some(Match(name, braces, text))
  {
    ValueTextIsSolid(text);
    hide IsValueText;
    SpanStops(" ", text, IsSpace);
    assert (" " + text)[1..] == text;
  }

  lemma LabelsMatch(name: string, labels: seq<Label>, text: string)
    requires IsValueText(text) && forall i :: 0 <= i < |labels| ==> IsLabel(labels[i])
    ensures MatchLabels(name, Braces(labels) + " " + text) == Some(Match(name, Braces(labels), text))
  {
    hide IsLabel;
    hide IsValueText;
    hide RenderLabels;
    ValueMatches(name, Braces(labels), text);
    hide MatchValue;
    var rest := Braces(labels) + " " + text;
    if labels == [] {
      assert rest == " " + text;
    } else {
      var body := RenderLabels(labels);
      RenderedLabelsLack(labels, '}');
      assert rest == ("{" + body) + ("} " + text);
      SpanStops("{" + body, "} " + text, x => x != '}');
      assert rest[..|body| + 2] == Braces(labels);
      assert rest[|body| + 2..] == " " + text;
    }
  }

  lemma RestStops(labels: seq<Label>, text: string)
    ensures !IsNameChar((Braces(labels) + " " + text)[0])
  {
  }

  lemma NameSpans(name: string, rest: string)
    requires IsName(name) && rest != [] && !IsNameChar(rest[0])
    ensures var line := name + rest;
      Span(line, IsNameChar) == |name| && line[..|name|] == name && line[|name|..] == rest
  {
    hide IsNameStart;
    hide IsDigit;
    SpanStops(name, rest, IsNameChar);
  }

  /** The three parts of a printed measure match the line pattern. */
  lemma MeasureMatches(name: string, labels: seq<Label>, text: string)
    requires IsName(name) && IsValueText(text) && forall i :: 0 <= i < |labels| ==> IsLabel(labels[i])
    ensures MatchLine(name + Braces(labels) + " " + text) == Some(Match(name, Braces(labels), text))
  {
    hide IsLabel;
    hide IsValueText;
    hide Braces;
    hide MatchLabels;
    hide IsNameStart;
    hide IsNameChar;
    hide Span;
    var rest := Braces(labels) + " " + text;
    LabelsMatch(name, labels, text);
    RestStops(labels, text);
    NameSpans(name, rest);
    LineOfParts(name, Braces(labels), text);
    NameStarts(name, rest);
  }

  lemma LineOfParts(name: string, braces: string, text: string)
    ensures name + braces + " " + text == name + (braces + " " + text)
  {
  }

  lemma NameStarts(name: string, rest: string)
    requires IsName(name)
    ensures IsNameStart((name + rest)[0]) && |name| > 0
  {
    hide IsNameStart;
  }

  lemma CommentRoundTrips(body: string)
    requires body != [] && body[0] == '#'
    ensures ParseLine(body) == []
  {
    QuoteIsNoSpace();
    hide IsSpace;
    TrimKeepsStart(body);
  }

  lemma MeasureIsTrimmed(name: string, labels: seq<Label>, text: string)
    requires IsLine(Measure(name, labels, text))
    ensures var raw := name + Braces(labels) + " " + text;
      Lacks(raw, '\n') && Trim(raw) == raw && raw[0] != '#'
  {
    hide IsLabel;
    hide IsSpace;
    hide Trim;
    NameIsSolid(name, |name|);
    ValueTextIsSolid(text);
    hide IsValueText;
    hide IsName;
    if labels != [] { RenderedLabelsLack(labels, '\n'); }
    hide RenderLabels;
    var raw := name + Braces(labels) + " " + text;
    assert name[..|name|] == name;
    assert Lacks(Braces(labels), '\n');
    assert raw[0] == name[0] && raw[|raw| - 1] == text[|text| - 1];
    TrimIsIdle(raw);
  }

  lemma MeasureRoundTrips(name: string, labels: seq<Label>, text: string)
    requires IsLine(Measure(name, labels, text))
    ensures ParseLine(name + Braces(labels) + " " + text) == [Sample(name, LabelMap(map[], labels), NumberOf(text))]
  {
    MeasureIsTrimmed(name, labels, text);
    MeasureMatches(name, labels, text);
    BracesRoundTrip(labels);
    hide Trim;
    hide Braces;
    hide LabelsOf;
    hide MatchLine;
    hide LabelMap;
    hide NumberOf;
  }

  /** A printed line has no newline and parses to its own sample. */
  lemma LineRoundTrips(line: Line)
    requires IsLine(line)
    ensures Lacks(RenderLine(line), '\n')
    ensures ParseLine(RenderLine(line)) == SampleOf(line)
  {
    hide ParseLine;
    match line
    case Comment(body) =>
      CommentRoundTrips(body);
    case Measure(name, labels, text) =>
      MeasureIsTrimmed(name, labels, text);
      MeasureRoundTrips(name, labels, text);
      hide Trim;
      hide Braces;
      hide LabelMap;
      hide NumberOf;
  }

  /** Parsing what was printed gives back every sample, in order, with its labels and its value. */
  lemma {:induction false} RoundTrip(doc: seq<Line>)
    requires forall i :: 0 <= i < |doc| ==> IsLine(doc[i])
    ensures Parsed(Render(doc)) == SamplesOf(doc)
  {
    hide IsLine;
    hide ParseLine;
    hide RenderLine;
    hide SampleOf;
    if doc == [] {
      EmptyLine();
      assert Split("", '\n')[1..] == [];
    } else {
      var line, rest := RenderLine(doc[0]), Render(doc[1..]);
      LineRoundTrips(doc[0]);
      RoundTrip(doc[1..]);
      SplitFirst(line, '\n', rest);
      assert line + "\n" + rest == line + ['\n'] + rest;
      assert ([line] + Split(rest, '\n'))[1..] == Split(rest, '\n');
    }
  }

  lemma EmptyLine()
    ensures ParseLine("") == []
  {
  }

  // ---------------------------------------------------------------- the condition on label values is exact

  predicate IsKey(k: string) {
    Trim(k) == k && Lacks(k, '=') && Lacks(k, ',') && Lacks(k, '}') && Lacks(k, '\n')
  }

  /** What no parsed label value contains. */
  predicate IsPlain(v: string) { Lacks(v, ',') && Lacks(v, '}') && Lacks(v, '\n') }

  lemma {:induction false} SplitParts(s: string, d: char)
    ensures forall i :: 0 <= i < |Split(s, d)| ==>
      Lacks(Split(s, d)[i], d) && forall c :: Lacks(s, c) ==> Lacks(Split(s, d)[i], c)
  {
    if s != [] {
      var rest := Split(s[1..], d);
      SplitParts(s[1..], d);
      forall i | 0 <= i < |Split(s, d)|
        ensures Lacks(Split(s, d)[i], d) && forall c :: Lacks(s, c) ==> Lacks(Split(s, d)[i], c)
      {
        forall c | Lacks(s, c) ensures Lacks(Split(s, d)[i], c) {
          assert Lacks(s[1..], c);
          if s[0] != d && i == 0 {
            assert Split(s, d)[0] == [s[0]] + rest[0];
          }
        }
        if s[0] != d && i == 0 {
          assert Split(s, d)[0] == [s[0]] + rest[0];
        }
      }
    }
  }

  lemma {:induction false} TrimIsSlice(s: string)
    ensures forall c :: Lacks(s, c) ==> Lacks(Trim(s), c)
  {
    LeftIsSlice(s);
    RightIsSlice(TrimLeft(s));
  }

  lemma {:induction false} LeftIsSlice(s: string)
    ensures forall c :: Lacks(s, c) ==> Lacks(TrimLeft(s), c)
  {
    hide IsSpace;
    if s != [] { LeftIsSlice(s[1..]); }
  }

  lemma {:induction false} RightIsSlice(s: string)
    ensures forall c :: Lacks(s, c) ==> Lacks(TrimRight(s), c)
    decreases |s|
  {
    hide IsSpace;
    if s != [] { RightIsSlice(s[..|s| - 1]); }
  }

  lemma {:induction false} SpanMatches(s: string, p: char -> bool)
    ensures forall i :: 0 <= i < Span(s, p) ==> p(s[i])
    ensures Span(s, p) < |s| ==> !p(s[Span(s, p)])
  {
    if s != [] && p(s[0]) {
      SpanMatches(s[1..], p);
    }
  }

  ghost predicate AllPlain(labels: map<string, string>) { forall k :: k in labels ==> IsPlain(labels[k]) }

  lemma {:induction false} PairsArePlain(labels: map<string, string>, pairs: seq<string>)
    requires AllPlain(labels) && forall i :: 0 <= i < |pairs| ==> IsPlain(pairs[i])
    ensures AllPlain(AddPairs(labels, pairs))
    decreases pairs
  {
    if pairs != [] {
      var pair := pairs[0];
      var eq := IndexOf(pair, '=');
      if eq < |pair| {
        TrimIsSlice(pair[eq + 1..]);
        assert IsPlain(Trim(pair[eq + 1..]));
        assert IsPlain(Unquote(Trim(pair[eq + 1..])));
      }
      hide Unquote;
      hide Trim;
      hide IndexOf;
      hide IsPlain;
      PairsArePlain(AddPair(labels, pair), pairs[1..]);
    }
  }

  lemma LabelsArePlain(braces: string)
    requires Lacks(braces, '\n') && (|braces| >= 2 ==> Lacks(braces[1..|braces| - 1], '}'))
    ensures AllPlain(LabelsOf(braces))
  {
    if |braces| >= 2 {
      var body := braces[1..|braces| - 1];
      SplitParts(body, ',');
      PairsArePlain(map[], Split(body, ','));
    }
    hide AddPairs;
    hide Split;
  }

  lemma MatchedBraces(line: string)
    requires Lacks(line, '\n') && MatchLine(line).Some?
    ensures var b := MatchLine(line).value.braces;
      Lacks(b, '\n') && (|b| >= 2 ==> Lacks(b[1..|b| - 1], '}'))
  {
    hide IsValueText;
    hide IsNameStart;
    hide IsDigit;
    hide IsSpace;
    var rest := line[Span(line, IsNameChar)..];
    SpanMatches(rest, x => x != '}');
    hide Span;
  }

  lemma LineLabelsArePlain(raw: string)
    requires Lacks(raw, '\n')
    ensures forall i :: 0 <= i < |ParseLine(raw)| ==> AllPlain(ParseLine(raw)[i].labels)
  {
    TrimIsSlice(raw);
    var line := Trim(raw);
    hide Trim;
    if MatchLine(line).Some? {
      MatchedBraces(line);
      LabelsArePlain(MatchLine(line).value.braces);
    }
    hide MatchLine;
    hide LabelsOf;
    hide AllPlain;
    hide NumberOf;
  }

  /** Whatever the text, a parsed label value has no comma, closing brace or newline. */
  lemma {:induction false} ParsedLabelsArePlain(lines: seq<string>)
    requires forall i :: 0 <= i < |lines| ==> Lacks(lines[i], '\n')
    ensures forall i :: 0 <= i < |ParseLines(lines)| ==> AllPlain(ParseLines(lines)[i].labels)
  {
    hide ParseLine;
    hide AllPlain;
    if lines != [] {
      LineLabelsArePlain(lines[0]);
      ParsedLabelsArePlain(lines[1..]);
    }
  }

  /** A measure with one label comes back exactly when its value has none of the three. */
  lemma LabelRoundTripIff(name: string, key: string, value: string, text: string)
    requires IsName(name) && IsKey(key) && IsValueText(text)
    ensures var doc := [Measure(name, [Label(key, value)], text)];
      Parsed(Render(doc)) == SamplesOf(doc) <==> IsPlain(value)
  {
    var doc := [Measure(name, [Label(key, value)], text)];
    if IsPlain(value) {
      RoundTrip(doc);
    } else {
      SplitParts(Render(doc), '\n');
      ParsedLabelsArePlain(Split(Render(doc), '\n'));
      assert LabelMap(map[], [Label(key, value)]) == map[key := value];
      assert SamplesOf(doc) == [Sample(name, map[key := value], NumberOf(text))];
      hide Render;
      hide ParseLines;
      hide IsPlain;
      assert key in SamplesOf(doc)[0].labels && SamplesOf(doc)[0].labels[key] == value;
      assert !AllPlain(SamplesOf(doc)[0].labels);
    }
  }
}
