/** The backend's counters and their text rendering, read back by the dashboard's parser. */
module Metrics {
  import opened Wrappers
  import opened Exposition

  const U64: nat := 0x1_0000_0000_0000_0000

  // ---------------------------------------------------------------- printed numbers

  function DigitChar(d: nat): char
    requires d < 10
  {
    ('0' as int + d) as char
  }

  /** `{}` of an unsigned integer. */
  function PrintNat(n: nat): (s: string)
    ensures s != [] && AllDigits(s)
  {
    if n < 10 then [DigitChar(n)] else PrintNat(n / 10) + [DigitChar(n % 10)]
  }

  /** A non-negative decimal as `{}` prints an f64: no exponent, no dot for a whole number. */
  datatype Decimal = Decimal(whole: nat, fraction: string)

  predicate IsDecimal(d: Decimal) { AllDigits(d.fraction) }

  function PrintDecimal(d: Decimal): string {
    if d.fraction == [] then PrintNat(d.whole) else PrintNat(d.whole) + "." + d.fraction
  }

  function ValueOf(d: Decimal): real
    requires IsDecimal(d)
  {
    d.whole as real + DigitsValue(d.fraction) as real / Pow10(|d.fraction|) as real
  }

  /** Three fractional digits without trailing zeros. */
  function Fraction(a: nat, b: nat, c: nat): (s: string)
    requires a < 10 && b < 10 && c < 10
    ensures AllDigits(s)
  {
    if c != 0 then [DigitChar(a), DigitChar(b), DigitChar(c)]
    else if b != 0 then [DigitChar(a), DigitChar(b)]
    else if a != 0 then [DigitChar(a)]
    else []
  }

  /** `ms as f64 / 1000.0` */
  function Seconds(ms: nat): (d: Decimal)
    ensures IsDecimal(d)
  {
    Decimal(ms / 1000, Fraction(ms / 100 % 10, ms / 10 % 10, ms % 10))
  }

  lemma {:induction false} PrintedNatReads(n: nat)
    ensures DigitsValue(PrintNat(n)) == n
  {
    if n >= 10 {
      PrintedNatReads(n / 10);
      var s := PrintNat(n);
      assert s[..|s| - 1] == PrintNat(n / 10);
    } else {
      assert PrintNat(n)[..0] == [];
    }
  }

  lemma DigitsAreNumeral(s: string)
    requires AllDigits(s)
    ensures forall i :: 0 <= i < |s| ==> IsValueChar(s[i]) && s[i] != '.' && s[i] != 'e' && s[i] != 'E' && s[i] != '-' && s[i] != '+' && s[i] != 'N'
  {
  }

  lemma DecimalIsValueText(d: Decimal)
    requires IsDecimal(d)
    ensures IsValueText(PrintDecimal(d))
    ensures forall i :: 0 <= i < |PrintDecimal(d)| ==> PrintDecimal(d)[i] != 'e' && PrintDecimal(d)[i] != 'E'
    ensures PrintDecimal(d)[0] != '-' && PrintDecimal(d)[0] != '+' && PrintDecimal(d)[0] != 'N'
  {
    DigitsAreNumeral(PrintNat(d.whole));
    DigitsAreNumeral(d.fraction);
    hide PrintNat;
    hide AllDigits;
    hide IsDigit;
    assert PrintDecimal(d)[0] == PrintNat(d.whole)[0];
  }

  lemma DecimalMantissa(d: Decimal)
    requires IsDecimal(d)
    ensures Mantissa(PrintDecimal(d)) == Num(ValueOf(d))
  {
    var s, w := PrintDecimal(d), PrintNat(d.whole);
    PrintedNatReads(d.whole);
    DigitsAreNumeral(w);
    hide DigitsValue;
    hide PrintNat;
    hide Pow10;
    if d.fraction == [] {
      assert w + "" == w;
      SpanStops(w, "", x => x != '.');
    } else {
      assert s == w + ("." + d.fraction);
      SpanStops(w, "." + d.fraction, x => x != '.');
      assert s[|w| + 1..] == d.fraction;
    }
  }

  /** What is printed for a decimal is a value of the line pattern and reads back exactly. */
  lemma DecimalRoundTrips(d: Decimal)
    requires IsDecimal(d)
    ensures IsValueText(PrintDecimal(d)) && NumberOf(PrintDecimal(d)) == Num(ValueOf(d))
  {
    var s := PrintDecimal(d);
    DecimalIsValueText(d);
    DecimalMantissa(d);
    hide PrintDecimal;
    hide Mantissa;
    hide ValueOf;
    hide IsNumeral;
    assert s + "" == s;
    SpanStops(s, "", x => x != 'e' && x != 'E');
  }

  lemma NatRoundTrips(n: nat)
    ensures IsValueText(PrintNat(n)) && NumberOf(PrintNat(n)) == Num(n as real)
  {
    ValueOfWhole(n);
    hide ValueOf;
    hide NumberOf;
    hide IsValueText;
    hide PrintNat;
    DecimalRoundTrips(Decimal(n, ""));
  }

  lemma ValueOfWhole(n: nat)
    ensures ValueOf(Decimal(n, "")) == n as real
  {
    assert DigitsValue("") == 0 && Pow10(0) == 1;
  }

  lemma DigitAppended(s: string, d: nat)
    requires AllDigits(s) && d < 10
    ensures AllDigits(s + [DigitChar(d)]) && DigitsValue(s + [DigitChar(d)]) == DigitsValue(s) * 10 + d
  {
    assert (s + [DigitChar(d)])[..|s|] == s;
  }

  lemma DigitsOfThree(a: nat, b: nat, c: nat)
    requires a < 10 && b < 10 && c < 10
    ensures DigitsValue([DigitChar(a), DigitChar(b), DigitChar(c)]) == a * 100 + b * 10 + c
    ensures DigitsValue([DigitChar(a), DigitChar(b)]) == a * 10 + b
    ensures DigitsValue([DigitChar(a)]) == a && DigitsValue([]) == 0
  {
    DigitAppended("", a);
    DigitAppended([DigitChar(a)], b);
    DigitAppended([DigitChar(a), DigitChar(b)], c);
    assert "" + [DigitChar(a)] == [DigitChar(a)];
    assert [DigitChar(a)] + [DigitChar(b)] == [DigitChar(a), DigitChar(b)];
    assert [DigitChar(a), DigitChar(b)] + [DigitChar(c)] == [DigitChar(a), DigitChar(b), DigitChar(c)];
  }

  lemma ScaledFraction(whole: nat, f: nat, k: nat)
    requires k <= 3
    ensures whole as real + f as real / Pow10(k) as real == (whole * 1000 + f * Pow10(3 - k)) as real / 1000.0
  {
    assert Pow10(0) == 1 && Pow10(1) == 10 && Pow10(2) == 100 && Pow10(3) == 1000;
    var p := Pow10(k) as real;
    if k == 0 { assert p == 1.0; } else if k == 1 { assert p == 10.0; }
    else if k == 2 { assert p == 100.0; } else { assert p == 1000.0; }
  }

  lemma FractionValue(w: nat, a: nat, b: nat, c: nat)
    requires a < 10 && b < 10 && c < 10
    ensures ValueOf(Decimal(w, Fraction(a, b, c))) == (w * 1000 + a * 100 + b * 10 + c) as real / 1000.0
  {
    DigitsOfThree(a, b, c);
    var f := Fraction(a, b, c);
    ScaledFraction(w, DigitsValue(f), |f|);
    assert Pow10(0) == 1 && Pow10(1) == 10 && Pow10(2) == 100 && Pow10(3) == 1000;
    hide DigitsValue;
    hide Pow10;
  }

  /** The printed seconds are exactly the milliseconds over a thousand. */
  lemma SecondsAreExact(ms: nat)
    ensures ValueOf(Seconds(ms)) == ms as real / 1000.0
  {
    hide ValueOf;
    hide Fraction;
    FractionValue(ms / 1000, ms / 100 % 10, ms / 10 % 10, ms % 10);
    DigitsOf(ms);
  }

  lemma DigitsOf(ms: nat)
    ensures ms == ms / 1000 * 1000 + ms / 100 % 10 * 100 + ms / 10 % 10 * 10 + ms % 10
  {
    var q, r := ms / 10, ms / 100;
    assert q / 10 == r && r / 10 == ms / 1000;
  }

  // ---------------------------------------------------------------- the counters

  /** A snapshot of the atomic counters. */
  datatype Counters = Counters(
    pollsOk: nat, pollsErr: nat, pricesWritten: nat, discoveryOk: nat, discoveryErr: nat,
    trackedCoins: nat, lastPollMs: nat, httpRequests: nat)

  /** The seven metric families. */
  datatype Family = Uptime | Polls | Written | Discovery | Coins | LastPoll | Http

  function NameOf(f: Family): string {
    match f
    case Uptime => "cw_uptime_seconds"
    case Polls => "cw_polls_total"
    case Written => "cw_prices_written_total"
    case Discovery => "cw_discovery_total"
    case Coins => "cw_tracked_coins"
    case LastPoll => "cw_last_poll_duration_seconds"
    case Http => "cw_http_requests_total"
  }

  function HelpOf(f: Family): string {
    match f
    case Uptime => "Process uptime in seconds."
    case Polls => "Provider poll cycles by result."
    case Written => "Price rows persisted."
    case Discovery => "Coin discovery refreshes by result."
    case Coins => "Coins currently tracked."
    case LastPoll => "Duration of the most recent poll."
    case Http => "Total HTTP requests handled."
  }

  function KindOf(f: Family): string {
    if f.Uptime? || f.Coins? || f.LastPoll? then "gauge" else "counter"
  }

  predicate IsByResult(f: Family) { f.Polls? || f.Discovery? }

  /** The printed value, or the printed successes. */
  function TextOf(f: Family, c: Counters, uptime: Decimal): string {
    match f
    case Uptime => PrintDecimal(uptime)
    case Polls => PrintNat(c.pollsOk)
    case Written => PrintNat(c.pricesWritten)
    case Discovery => PrintNat(c.discoveryOk)
    case Coins => PrintNat(c.trackedCoins)
    case LastPoll => PrintDecimal(Seconds(c.lastPollMs))
    case Http => PrintNat(c.httpRequests)
  }

  /** The printed failures of a family by result. */
  function ErrorTextOf(f: Family, c: Counters): string {
    if f.Discovery? then PrintNat(c.discoveryErr) else PrintNat(c.pollsErr)
  }

  /** The two comment lines of a family. */
  function Help(name: string, text: string): string { "# HELP " + name + " " + text }

  function Type(name: string, kind: string): string { "# TYPE " + name + " " + kind }

  /** The comment lines and the sample lines of a family: one sample, or one per result. */
  function LinesOf(f: Family, text: string, errorText: string): seq<Line> {
    var name := NameOf(f);
    [Comment(Help(name, HelpOf(f))), Comment(Type(name, KindOf(f)))] +
    if IsByResult(f) then [Measure(name, [Label("result", "ok")], text), Measure(name, [Label("result", "error")], errorText)]
    else [Measure(name, [], text)]
  }

  function FamilyLines(f: Family, c: Counters, uptime: Decimal): seq<Line> {
    LinesOf(f, TextOf(f, c, uptime), ErrorTextOf(f, c))
  }

  /** The document that `render` prints. */
  function Document(c: Counters, uptime: Decimal): seq<Line> {
    FamilyLines(Uptime, c, uptime) + FamilyLines(Polls, c, uptime) + FamilyLines(Written, c, uptime) +
    FamilyLines(Discovery, c, uptime) + FamilyLines(Coins, c, uptime) + FamilyLines(LastPoll, c, uptime) +
    FamilyLines(Http, c, uptime)
  }

  class AppMetrics {
    var pollsOk: nat
    var pollsErr: nat
    var pricesWritten: nat
    var discoveryOk: nat
    var discoveryErr: nat
    var trackedCoins: nat
    var lastPollMs: nat
    var httpRequests: nat

    function Snapshot(): Counters
      reads this
    {
      Counters(pollsOk, pollsErr, pricesWritten, discoveryOk, discoveryErr, trackedCoins, lastPollMs, httpRequests)
    }

    constructor ()
      ensures Snapshot() == Counters(0, 0, 0, 0, 0, 0, 0, 0)
    {
      pollsOk, pollsErr, pricesWritten, discoveryOk := 0, 0, 0, 0;
      discoveryErr, trackedCoins, lastPollMs, httpRequests := 0, 0, 0, 0;
    }

    method RecordPollOk(written: nat, durMs: nat)
      modifies this
      ensures Snapshot() == old(Snapshot()).(
        pollsOk := (old(pollsOk) + 1) % U64,
        pricesWritten := (old(pricesWritten) + written) % U64,
        lastPollMs := durMs)
    {
      pollsOk := (pollsOk + 1) % U64;
      pricesWritten := (pricesWritten + written) % U64;
      lastPollMs := durMs;
    }

    method RecordPollErr()
      modifies this
      ensures Snapshot() == old(Snapshot()).(pollsErr := (old(pollsErr) + 1) % U64)
    {
      pollsErr := (pollsErr + 1) % U64;
    }

    method RecordDiscoveryOk(coins: nat)
      modifies this
      ensures Snapshot() == old(Snapshot()).(discoveryOk := (old(discoveryOk) + 1) % U64, trackedCoins := coins)
    {
      discoveryOk := (discoveryOk + 1) % U64;
      trackedCoins := coins;
    }

    method RecordDiscoveryErr()
      modifies this
      ensures Snapshot() == old(Snapshot()).(discoveryErr := (old(discoveryErr) + 1) % U64)
    {
      discoveryErr := (discoveryErr + 1) % U64;
    }

    method IncrHttp()
      modifies this
      ensures Snapshot() == old(Snapshot()).(httpRequests := (old(httpRequests) + 1) % U64)
    {
      httpRequests := (httpRequests + 1) % U64;
    }

    /** `render`: every family in turn. */
    method RenderText(uptime: Decimal) returns (out: string)
      ensures out == Render(Document(Snapshot(), uptime))
    {
      hide Render;
      hide FamilyLines;
      ghost var c := Snapshot();
      RenderNothing();
      ghost var doc := FamilyLines(Uptime, c, uptime);
      assert [] + doc == doc;
      out := WriteFamily(Uptime, "", [], uptime);
      out := WriteFamily(Polls, out, doc, uptime);
      doc := doc + FamilyLines(Polls, c, uptime);
      out := WriteFamily(Written, out, doc, uptime);
      doc := doc + FamilyLines(Written, c, uptime);
      out := WriteFamily(Discovery, out, doc, uptime);
      doc := doc + FamilyLines(Discovery, c, uptime);
      out := WriteFamily(Coins, out, doc, uptime);
      doc := doc + FamilyLines(Coins, c, uptime);
      out := WriteFamily(LastPoll, out, doc, uptime);
      doc := doc + FamilyLines(LastPoll, c, uptime);
      out := WriteFamily(Http, out, doc, uptime);
    }

    /** The lines of one family, one `writeln!` each. */
    method WriteFamily(f: Family, out: string, ghost doc: seq<Line>, uptime: Decimal) returns (next: string)
      requires out == Render(doc)
      ensures next == Render(doc + FamilyLines(f, Snapshot(), uptime))
    {
      hide PrintNat;
      hide PrintDecimal;
      hide TextOf;
      hide ErrorTextOf;
      hide Render;
      hide RenderLine;
      hide NameOf;
      hide HelpOf;
      var name, text, errorText := NameOf(f), TextOf(f, Snapshot(), uptime), ErrorTextOf(f, Snapshot());
      next := out + Help(name, HelpOf(f)) + "\n";
      ghost var d := CommentWritten(doc, Help(name, HelpOf(f)));
      next := next + Type(name, KindOf(f)) + "\n";
      d := CommentWritten(d, Type(name, KindOf(f)));
      if IsByResult(f) {
        next := next + name + "{result=\"ok\"} " + text + "\n";
        d := ResultWritten(d, name, "ok", "{result=\"ok\"} ", text);
        next := next + name + "{result=\"error\"} " + errorText + "\n";
        d := ResultWritten(d, name, "error", "{result=\"error\"} ", errorText);
      } else {
        next := next + name + " " + text + "\n";
        d := PlainWritten(d, name, text);
      }
      assert d == doc + FamilyLines(f, Snapshot(), uptime);
    }
  }

  lemma RenderNothing()
    ensures Render([]) == ""
  {
  }

  lemma {:induction false} RenderAppends(doc: seq<Line>, line: Line)
    ensures Render(doc + [line]) == Render(doc) + RenderLine(line) + "\n"
  {
    hide RenderLine;
    if doc == [] {
      assert [] + [line] == [line];
      assert [line][1..] == [];
    } else {
      RenderAppends(doc[1..], line);
      assert (doc + [line])[1..] == doc[1..] + [line];
    }
  }

  lemma CommentWritten(doc: seq<Line>, body: string) returns (next: seq<Line>)
    ensures next == doc + [Comment(body)]
    ensures Render(next) == Render(doc) + body + "\n"
  {
    next := doc + [Comment(body)];
    RenderAppends(doc, Comment(body));
    hide Render;
  }

  lemma PlainWritten(doc: seq<Line>, name: string, text: string) returns (next: seq<Line>)
    ensures next == doc + [Measure(name, [], text)]
    ensures Render(next) == Render(doc) + name + " " + text + "\n"
  {
    var line := Measure(name, [], text);
    next := doc + [line];
    RenderAppends(doc, line);
    assert RenderLine(line) == name + " " + text;
    hide Render;
    hide RenderLine;
    assert Render(doc) + (name + " " + text) == Render(doc) + name + " " + text;
  }

  lemma ResultWritten(doc: seq<Line>, name: string, result: string, part: string, text: string) returns (next: seq<Line>)
    requires part == "{result=\"" + result + "\"} "
    ensures next == doc + [Measure(name, [Label("result", result)], text)]
    ensures Render(next) == Render(doc) + name + part + text + "\n"
  {
    var line := Measure(name, [Label("result", result)], text);
    next := doc + [line];
    RenderAppends(doc, line);
    assert RenderLine(line) == name + part + text by {
      hide Render;
      assert RenderLabels([Label("result", result)]) == "result=\"" + result + "\"";
      hide RenderLabels;
    }
    hide Render;
    hide RenderLine;
    assert Render(doc) + (name + part + text) == Render(doc) + name + part + text;
  }

  // ---------------------------------------------------------------- printed and read back

  const OkLabels := map["result" := "ok"]
  const ErrorLabels := map["result" := "error"]

  /** What the dashboard should see of the counters. */
  function Samples(c: Counters, uptime: Decimal): seq<Sample>
    requires IsDecimal(uptime)
  {
    [ Sample(NameOf(Uptime), map[], Num(ValueOf(uptime))),
      Sample(NameOf(Polls), OkLabels, Num(c.pollsOk as real)),
      Sample(NameOf(Polls), ErrorLabels, Num(c.pollsErr as real)),
      Sample(NameOf(Written), map[], Num(c.pricesWritten as real)),
      Sample(NameOf(Discovery), OkLabels, Num(c.discoveryOk as real)),
      Sample(NameOf(Discovery), ErrorLabels, Num(c.discoveryErr as real)),
      Sample(NameOf(Coins), map[], Num(c.trackedCoins as real)),
      Sample(NameOf(LastPoll), map[], Num(c.lastPollMs as real / 1000.0)),
      Sample(NameOf(Http), map[], Num(c.httpRequests as real)) ]
  }

  /** A document whose lines are all printable in the format, with the samples it holds. */
  ghost predicate Holds(doc: seq<Line>, samples: seq<Sample>) {
    (forall i :: 0 <= i < |doc| ==> IsLine(doc[i])) && SamplesOf(doc) == samples
  }

  lemma {:induction false} SamplesConcat(a: seq<Line>, b: seq<Line>)
    ensures SamplesOf(a + b) == SamplesOf(a) + SamplesOf(b)
  {
    hide SampleOf;
    if a == [] {
      assert a + b == b;
      assert [] + SamplesOf(b) == SamplesOf(b);
    } else {
      SamplesConcat(a[1..], b);
      assert (a + b)[1..] == a[1..] + b;
      var x, y, z := SampleOf(a[0]), SamplesOf(a[1..]), SamplesOf(b);
      assert x + (y + z) == x + y + z;
    }
  }

  lemma HoldsConcat(a: seq<Line>, sa: seq<Sample>, b: seq<Line>, sb: seq<Sample>)
    requires Holds(a, sa) && Holds(b, sb)
    ensures Holds(a + b, sa + sb)
  {
    hide IsLine;
    hide SamplesOf;
    SamplesConcat(a, b);
  }

  lemma CommentLines(name: string, text: string)
    requires IsName(name) && forall c :: c in text ==> ' ' <= c <= 'z'
    ensures IsLine(Comment(Help(name, text))) && IsLine(Comment(Type(name, text)))
  {
    NameIsSolid(name, |name|);
    assert name[..|name|] == name;
    forall i | 0 <= i < |text| ensures text[i] != '\n' { assert text[i] in text; }
    hide IsName;
  }

  lemma PrintableName(s: string)
    requires s != [] && s[0] == 'c' && forall c :: c in s ==> 'a' <= c <= 'z' || c == '_'
    ensures IsName(s)
  {
    forall i | 0 <= i < |s| ensures IsNameChar(s[i]) { assert s[i] in s; }
  }

  lemma NameIsPrintable(f: Family)
    ensures IsName(NameOf(f))
  {
    hide IsName;
    PrintableName(NameOf(f));
  }

  lemma PollHelps(f: Family)
    requires f.Polls? || f.Written?
    ensures forall c :: c in HelpOf(f) ==> ' ' <= c <= 'z'
  {
  }

  lemma DiscoveryHelp()
    ensures forall c :: c in HelpOf(Discovery) ==> ' ' <= c <= 'z'
  {
  }

  lemma HttpHelp()
    ensures forall c :: c in HelpOf(Http) ==> ' ' <= c <= 'z'
  {
  }

  lemma GaugeHelps(f: Family)
    requires f.Uptime? || f.Coins? || f.LastPoll?
    ensures forall c :: c in HelpOf(f) ==> ' ' <= c <= 'z'
  {
  }

  lemma HelpIsPrintable(f: Family)
    ensures forall c :: c in HelpOf(f) ==> ' ' <= c <= 'z'
  {
    hide HelpOf;
    if f.Uptime? || f.Coins? || f.LastPoll? { GaugeHelps(f); }
    if f.Polls? || f.Written? { PollHelps(f); }
    DiscoveryHelp();
    HttpHelp();
  }

  lemma KindIsPrintable(f: Family)
    ensures forall c :: c in KindOf(f) ==> ' ' <= c <= 'z'
  {
  }

  lemma CommentsArePrintable(f: Family)
    ensures IsLine(Comment(Help(NameOf(f), HelpOf(f)))) && IsLine(Comment(Type(NameOf(f), KindOf(f))))
  {
    hide NameOf;
    hide HelpOf;
    hide KindOf;
    hide Help;
    hide Type;
    hide IsName;
    hide IsLine;
    NameIsPrintable(f);
    HelpIsPrintable(f);
    KindIsPrintable(f);
    CommentLines(NameOf(f), HelpOf(f));
    CommentLines(NameOf(f), KindOf(f));
  }

  /** The samples of a family. */
  function FamilySamples(f: Family, text: string, errorText: string): seq<Sample> {
    if IsByResult(f)
    then [Sample(NameOf(f), OkLabels, NumberOf(text)), Sample(NameOf(f), ErrorLabels, NumberOf(errorText))]
    else [Sample(NameOf(f), map[], NumberOf(text))]
  }

  lemma ResultLabelHolds(result: string)
    requires forall c :: c in result ==> 'a' <= c <= 'z'
    ensures IsLabel(Label("result", result))
    ensures LabelMap(map[], [Label("result", result)]) == map["result" := result]
  {
    forall i | 0 <= i < |result| ensures result[i] != ',' && result[i] != '}' && result[i] != '\n' { assert result[i] in result; }
    var key := "result";
    assert forall c :: c in key ==> 'a' <= c <= 'z';
    forall i | 0 <= i < |key| ensures key[i] != ',' && key[i] != '}' && key[i] != '\n' && key[i] != '=' { assert key[i] in key; }
    TrimIsIdle(key);
    hide Trim;
    assert [Label(key, result)][1..] == [];
  }

  lemma PlainHolds(help: string, kind: string, name: string, text: string)
    requires IsLine(Comment(help)) && IsLine(Comment(kind)) && IsName(name) && IsValueText(text)
    ensures Holds([Comment(help), Comment(kind), Measure(name, [], text)], [Sample(name, map[], NumberOf(text))])
  {
    hide IsValueText;
    hide IsName;
    hide NumberOf;
    var a, b, c := Comment(help), Comment(kind), Measure(name, [], text);
    assert [a, b, c][1..] == [b, c] && [b, c][1..] == [c] && [c][1..] == [];
    var s := Sample(name, map[], NumberOf(text));
    assert SampleOf(a) == [] && SampleOf(b) == [] && SampleOf(c) == [s];
    assert IsLine(c);
    hide SampleOf;
    hide IsLine;
    assert SamplesOf([c]) == [s] + [];
    assert SamplesOf([b, c]) == [] + [s];
    assert SamplesOf([a, b, c]) == [] + ([] + [s]);
  }

  lemma ResultHolds(name: string, result: string, text: string)
    requires IsName(name) && IsValueText(text) && forall c :: c in result ==> 'a' <= c <= 'z'
    ensures Holds([Measure(name, [Label("result", result)], text)], [Sample(name, map["result" := result], NumberOf(text))])
  {
    ResultLabelHolds(result);
    hide IsLabel;
    hide LabelMap;
    hide IsValueText;
    hide IsName;
    hide NumberOf;
    var c := Measure(name, [Label("result", result)], text);
    var s := Sample(name, map["result" := result], NumberOf(text));
    assert IsLine(c) && SampleOf(c) == [s];
    hide IsLine;
    hide SampleOf;
    assert [c][1..] == [];
    assert SamplesOf([c]) == [s] + [];
  }

  lemma CommentsHold(help: string, kind: string)
    requires IsLine(Comment(help)) && IsLine(Comment(kind))
    ensures Holds([Comment(help), Comment(kind)], [])
  {
    var a, b := Comment(help), Comment(kind);
    hide IsLine;
    assert SampleOf(a) == [] && SampleOf(b) == [];
    hide SampleOf;
    assert [a, b][1..] == [b] && [b][1..] == [];
    assert SamplesOf([b]) == [] + [];
    assert SamplesOf([a, b]) == [] + ([] + []);
  }

  /** The lines of a family are printable, and hold its samples. */
  lemma FamilyHolds(f: Family, text: string, errorText: string)
    requires IsValueText(text) && IsValueText(errorText)
    ensures Holds(LinesOf(f, text, errorText), FamilySamples(f, text, errorText))
  {
    CommentsArePrintable(f);
    NameIsPrintable(f);
    hide IsValueText;
    hide IsName;
    hide IsLine;
    hide NameOf;
    hide HelpOf;
    hide KindOf;
    hide Help;
    hide Type;
    hide NumberOf;
    hide Holds;
    var name := NameOf(f);
    var help, kind := Help(name, HelpOf(f)), Type(name, KindOf(f));
    if IsByResult(f) {
      var comments := [Comment(help), Comment(kind)];
      var ok, error := [Measure(name, [Label("result", "ok")], text)], [Measure(name, [Label("result", "error")], errorText)];
      var s, t := [Sample(name, OkLabels, NumberOf(text))], [Sample(name, ErrorLabels, NumberOf(errorText))];
      CommentsHold(help, kind);
      ResultHolds(name, "ok", text);
      ResultHolds(name, "error", errorText);
      HoldsConcat(ok, s, error, t);
      HoldsConcat(comments, [], ok + error, s + t);
      assert comments + (ok + error) == LinesOf(f, text, errorText);
      assert [] + (s + t) == FamilySamples(f, text, errorText);
    } else {
      PlainHolds(help, kind, name, text);
      assert [Comment(help), Comment(kind)] + [Measure(name, [], text)]
          == [Comment(help), Comment(kind), Measure(name, [], text)];
    }
  }

  /** The number that a family's text prints. */
  function ValueIn(f: Family, c: Counters, uptime: Decimal): real
    requires IsDecimal(uptime)
  {
    match f
    case Uptime => ValueOf(uptime)
    case Polls => c.pollsOk as real
    case Written => c.pricesWritten as real
    case Discovery => c.discoveryOk as real
    case Coins => c.trackedCoins as real
    case LastPoll => c.lastPollMs as real / 1000.0
    case Http => c.httpRequests as real
  }

  lemma TextsReadBack(f: Family, c: Counters, uptime: Decimal)
    requires IsDecimal(uptime)
    ensures IsValueText(TextOf(f, c, uptime)) && NumberOf(TextOf(f, c, uptime)) == Num(ValueIn(f, c, uptime))
    ensures IsValueText(ErrorTextOf(f, c))
    ensures NumberOf(ErrorTextOf(f, c)) == Num((if f.Discovery? then c.discoveryErr else c.pollsErr) as real)
  {
    hide IsValueText;
    hide NumberOf;
    hide PrintNat;
    hide PrintDecimal;
    hide ValueOf;
    hide Seconds;
    NatRoundTrips(c.pollsErr);
    NatRoundTrips(c.discoveryErr);
    match f
    case Uptime => DecimalRoundTrips(uptime);
    case Polls => NatRoundTrips(c.pollsOk);
    case Written => NatRoundTrips(c.pricesWritten);
    case Discovery => NatRoundTrips(c.discoveryOk);
    case Coins => NatRoundTrips(c.trackedCoins);
    case LastPoll => DecimalRoundTrips(Seconds(c.lastPollMs)); SecondsAreExact(c.lastPollMs);
    case Http => NatRoundTrips(c.httpRequests);
  }

  /** Family by family, the printed lines hold the counters. */
  lemma FamilyLinesHold(f: Family, c: Counters, uptime: Decimal)
    requires IsDecimal(uptime)
    ensures var error := (if f.Discovery? then c.discoveryErr else c.pollsErr) as real;
      Holds(FamilyLines(f, c, uptime),
        if IsByResult(f)
        then [Sample(NameOf(f), OkLabels, Num(ValueIn(f, c, uptime))), Sample(NameOf(f), ErrorLabels, Num(error))]
        else [Sample(NameOf(f), map[], Num(ValueIn(f, c, uptime)))])
  {
    TextsReadBack(f, c, uptime);
    FamilyHolds(f, TextOf(f, c, uptime), ErrorTextOf(f, c));
    hide IsValueText;
    hide NumberOf;
    hide TextOf;
    hide ErrorTextOf;
    hide LinesOf;
    hide NameOf;
    hide ValueIn;
    hide Holds;
  }

  lemma FirstFourHold(c: Counters, uptime: Decimal)
    requires IsDecimal(uptime)
    ensures Holds(FamilyLines(Uptime, c, uptime) + FamilyLines(Polls, c, uptime) + FamilyLines(Written, c, uptime) +
                  FamilyLines(Discovery, c, uptime), Samples(c, uptime)[..6])
  {
    hide Holds;
    hide ValueOf;
    hide FamilyLines;
    hide NameOf;
    FamilyLinesHold(Uptime, c, uptime);
    FamilyLinesHold(Polls, c, uptime);
    FamilyLinesHold(Written, c, uptime);
    FamilyLinesHold(Discovery, c, uptime);
    var s := Samples(c, uptime);
    var u, p, w, d := FamilyLines(Uptime, c, uptime), FamilyLines(Polls, c, uptime), FamilyLines(Written, c, uptime),
                      FamilyLines(Discovery, c, uptime);
    HoldsConcat(u, [s[0]], p, [s[1], s[2]]);
    HoldsConcat(u + p, [s[0]] + [s[1], s[2]], w, [s[3]]);
    HoldsConcat(u + p + w, [s[0]] + [s[1], s[2]] + [s[3]], d, [s[4], s[5]]);
    assert [s[0]] + [s[1], s[2]] + [s[3]] + [s[4], s[5]] == s[..6];
  }

  lemma DocumentHolds(c: Counters, uptime: Decimal)
    requires IsDecimal(uptime)
    ensures Holds(Document(c, uptime), Samples(c, uptime))
  {
    hide Holds;
    hide ValueOf;
    hide FamilyLines;
    hide NameOf;
    FirstFourHold(c, uptime);
    FamilyLinesHold(Coins, c, uptime);
    FamilyLinesHold(LastPoll, c, uptime);
    FamilyLinesHold(Http, c, uptime);
    var s := Samples(c, uptime);
    var doc := FamilyLines(Uptime, c, uptime) + FamilyLines(Polls, c, uptime) + FamilyLines(Written, c, uptime) +
               FamilyLines(Discovery, c, uptime);
    var k, l, h := FamilyLines(Coins, c, uptime), FamilyLines(LastPoll, c, uptime), FamilyLines(Http, c, uptime);
    HoldsConcat(doc, s[..6], k, [s[6]]);
    HoldsConcat(doc + k, s[..6] + [s[6]], l, [s[7]]);
    HoldsConcat(doc + k + l, s[..6] + [s[6]] + [s[7]], h, [s[8]]);
    assert s[..6] + [s[6]] + [s[7]] + [s[8]] == s;
  }

  lemma NamesAre()
    ensures NameOf(Uptime) == "cw_uptime_seconds"
    ensures NameOf(Polls) == "cw_polls_total"
    ensures NameOf(Written) == "cw_prices_written_total"
    ensures NameOf(Discovery) == "cw_discovery_total"
    ensures NameOf(Coins) == "cw_tracked_coins"
    ensures NameOf(LastPoll) == "cw_last_poll_duration_seconds"
    ensures NameOf(Http) == "cw_http_requests_total"
  {
  }

  /** The nine samples under given names. */
  function SamplesUnder(uptimeName: string, polls: string, written: string, discovery: string, coins: string,
                        lastPoll: string, http: string, c: Counters, uptime: Decimal): seq<Sample>
    requires IsDecimal(uptime)
  {
    [ Sample(uptimeName, map[], Num(ValueOf(uptime))),
      Sample(polls, map["result" := "ok"], Num(c.pollsOk as real)),
      Sample(polls, map["result" := "error"], Num(c.pollsErr as real)),
      Sample(written, map[], Num(c.pricesWritten as real)),
      Sample(discovery, map["result" := "ok"], Num(c.discoveryOk as real)),
      Sample(discovery, map["result" := "error"], Num(c.discoveryErr as real)),
      Sample(coins, map[], Num(c.trackedCoins as real)),
      Sample(lastPoll, map[], Num(c.lastPollMs as real / 1000.0)),
      Sample(http, map[], Num(c.httpRequests as real)) ]
  }

  /** The dashboard reads back exactly the nine samples, in order, with the printed values. */
  lemma MetricsRoundTrip(c: Counters, uptime: Decimal)
    requires IsDecimal(uptime)
    ensures Parsed(Render(Document(c, uptime))) ==
      SamplesUnder("cw_uptime_seconds", "cw_polls_total", "cw_prices_written_total", "cw_discovery_total",
                   "cw_tracked_coins", "cw_last_poll_duration_seconds", "cw_http_requests_total", c, uptime)
  {
    NamesAre();
    ParsesToSamples(c, uptime);
    SamplesAre(c, uptime);
    hide NameOf;
    hide Parsed;
    hide Document;
    hide Render;
    hide Samples;
    hide SamplesUnder;
  }

  lemma SamplesAre(c: Counters, uptime: Decimal)
    requires IsDecimal(uptime)
    ensures Samples(c, uptime) ==
      SamplesUnder(NameOf(Uptime), NameOf(Polls), NameOf(Written), NameOf(Discovery), NameOf(Coins), NameOf(LastPoll),
                   NameOf(Http), c, uptime)
  {
    hide NameOf;
    hide ValueOf;
  }

  lemma ParsesToSamples(c: Counters, uptime: Decimal)
    requires IsDecimal(uptime)
    ensures Parsed(Render(Document(c, uptime))) == Samples(c, uptime)
  {
    DocumentHolds(c, uptime);
    hide Document;
    hide Samples;
    hide IsLine;
    RoundTrip(Document(c, uptime));
    hide Parsed;
    hide Render;
    hide SamplesOf;
  }

  lemma {:induction false} PickAt(samples: seq<Sample>, k: nat, name: string, labels: map<string, string>)
    requires k < |samples| && samples[k].name == name && HasLabels(samples[k], labels)
    requires forall j :: 0 <= j < k ==> samples[j].name != name || !HasLabels(samples[j], labels)
    ensures Pick(samples, name, labels) == Some(samples[k].value)
  {
    hide HasLabels;
    if k > 0 {
      PickAt(samples[1..], k - 1, name, labels);
    }
  }

  lemma LabelsDiffer()
    ensures forall s: Sample :: s.labels == OkLabels ==> HasLabels(s, OkLabels) && !HasLabels(s, ErrorLabels)
    ensures forall s: Sample :: s.labels == ErrorLabels ==> HasLabels(s, ErrorLabels)
    ensures forall s: Sample :: HasLabels(s, map[])
  {
    assert "ok" != "error";
    assert "result" in ErrorLabels && ErrorLabels["result"] == "error";
    assert "result" in OkLabels && OkLabels["result"] == "ok";
  }

  lemma NamesDiffer(f: Family, g: Family)
    requires NameOf(f) == NameOf(g)
    ensures f == g
  {
    assert |NameOf(f)| == |NameOf(g)|;
  }

  /** The family of each sample. */
  function FamilyAt(k: nat): Family {
    match k
    case 0 => Uptime
    case 1 => Polls
    case 2 => Polls
    case 3 => Written
    case 4 => Discovery
    case 5 => Discovery
    case 6 => Coins
    case 7 => LastPoll
    case _ => Http
  }

  lemma SampleNames(c: Counters, uptime: Decimal, k: nat)
    requires IsDecimal(uptime) && k < 9
    ensures var s := Samples(c, uptime);
      && |s| == 9 && s[k].name == NameOf(FamilyAt(k))
      && s[k].labels == if k == 1 || k == 4 then OkLabels else if k == 2 || k == 5 then ErrorLabels else map[]
  {
    hide NameOf;
    hide ValueOf;
  }

  /** Picking by the name and labels of any sample finds that sample. */
  lemma EachIsPicked(c: Counters, uptime: Decimal, k: nat)
    requires IsDecimal(uptime) && k < 9
    ensures var s := Samples(c, uptime); |s| == 9 && Pick(s, s[k].name, s[k].labels) == Some(s[k].value)
  {
    hide Samples;
    hide NameOf;
    hide HasLabels;
    hide Pick;
    LabelsDiffer();
    SampleNames(c, uptime, k);
    var s := Samples(c, uptime);
    forall j | 0 <= j < k ensures s[j].name != s[k].name || !HasLabels(s[j], s[k].labels) {
      SampleNames(c, uptime, j);
      if s[j].name == s[k].name { NamesDiffer(FamilyAt(j), FamilyAt(k)); }
    }
    PickAt(s, k, s[k].name, s[k].labels);
  }

  lemma PickNth(c: Counters, uptime: Decimal, k: nat, sample: Sample)
    requires IsDecimal(uptime) && k < 9 && Samples(c, uptime)[k] == sample
    ensures Pick(Samples(c, uptime), sample.name, sample.labels) == Some(sample.value)
  {
    hide Samples;
    hide Pick;
    hide HasLabels;
    EachIsPicked(c, uptime, k);
  }

  lemma PicksFromSamples(c: Counters, uptime: Decimal)
    requires IsDecimal(uptime)
    ensures var s := Samples(c, uptime);
      && Pick(s, NameOf(Uptime), map[]) == Some(Num(ValueOf(uptime)))
      && Pick(s, NameOf(Polls), OkLabels) == Some(Num(c.pollsOk as real))
      && Pick(s, NameOf(Polls), ErrorLabels) == Some(Num(c.pollsErr as real))
      && Pick(s, NameOf(Written), map[]) == Some(Num(c.pricesWritten as real))
      && Pick(s, NameOf(Discovery), OkLabels) == Some(Num(c.discoveryOk as real))
      && Pick(s, NameOf(Discovery), ErrorLabels) == Some(Num(c.discoveryErr as real))
      && Pick(s, NameOf(Coins), map[]) == Some(Num(c.trackedCoins as real))
      && Pick(s, NameOf(LastPoll), map[]) == Some(Num(c.lastPollMs as real / 1000.0))
      && Pick(s, NameOf(Http), map[]) == Some(Num(c.httpRequests as real))
  {
    hide Pick;
    hide ValueOf;
    hide NameOf;
    PickNth(c, uptime, 0, Sample(NameOf(Uptime), map[], Num(ValueOf(uptime))));
    PickNth(c, uptime, 1, Sample(NameOf(Polls), OkLabels, Num(c.pollsOk as real)));
    PickNth(c, uptime, 2, Sample(NameOf(Polls), ErrorLabels, Num(c.pollsErr as real)));
    PickNth(c, uptime, 3, Sample(NameOf(Written), map[], Num(c.pricesWritten as real)));
    PickNth(c, uptime, 4, Sample(NameOf(Discovery), OkLabels, Num(c.discoveryOk as real)));
    PickNth(c, uptime, 5, Sample(NameOf(Discovery), ErrorLabels, Num(c.discoveryErr as real)));
    PickNth(c, uptime, 6, Sample(NameOf(Coins), map[], Num(c.trackedCoins as real)));
    PickNth(c, uptime, 7, Sample(NameOf(LastPoll), map[], Num(c.lastPollMs as real / 1000.0)));
    PickNth(c, uptime, 8, Sample(NameOf(Http), map[], Num(c.httpRequests as real)));
  }

  /** Each `pick` by name and label returns its own counter. */
  lemma PicksFindTheirCounters(c: Counters, uptime: Decimal)
    requires IsDecimal(uptime)
    ensures var s := Parsed(Render(Document(c, uptime)));
      && Pick(s, "cw_uptime_seconds", map[]) == Some(Num(ValueOf(uptime)))
      && Pick(s, "cw_polls_total", map["result" := "ok"]) == Some(Num(c.pollsOk as real))
      && Pick(s, "cw_polls_total", map["result" := "error"]) == Some(Num(c.pollsErr as real))
      && Pick(s, "cw_prices_written_total", map[]) == Some(Num(c.pricesWritten as real))
      && Pick(s, "cw_discovery_total", map["result" := "ok"]) == Some(Num(c.discoveryOk as real))
      && Pick(s, "cw_discovery_total", map["result" := "error"]) == Some(Num(c.discoveryErr as real))
      && Pick(s, "cw_tracked_coins", map[]) == Some(Num(c.trackedCoins as real))
      && Pick(s, "cw_last_poll_duration_seconds", map[]) == Some(Num(c.lastPollMs as real / 1000.0))
      && Pick(s, "cw_http_requests_total", map[]) == Some(Num(c.httpRequests as real))
  {
    NamesAre();
    hide Parsed;
    hide Document;
    hide Render;
    hide Pick;
    hide ValueOf;
    hide NameOf;
    hide Samples;
    ParsesToSamples(c, uptime);
    PicksFromSamples(c, uptime);
  }
}
