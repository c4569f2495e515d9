/** The text of the metrics endpoint, word for word, and its numbers, digit for digit. */
module MetricsText {
  import opened Exposition
  import opened Metrics

  /** The comment lines of a family. */
  ghost function HeadText(name: string, help: string, kind: string): string {
    ("# HELP " + name + " " + help + "\n") + ("# TYPE " + name + " " + kind + "\n")
  }

  /** A family with one sample, as the text format wants it. */
  ghost function PlainText(name: string, help: string, kind: string, value: string): string {
    HeadText(name, help, kind) + (name + " " + value + "\n")
  }

  /** A family with one sample for each result. */
  ghost function ResultText(name: string, help: string, kind: string, ok: string, error: string): string {
    HeadText(name, help, kind) +
    (name + "{result=\"ok\"} " + ok + "\n") +
    (name + "{result=\"error\"} " + error + "\n")
  }

  /** What a scrape should see of a family. */
  ghost function FamilyText(f: Family, c: Counters, uptime: Decimal): string {
    match f
    case Uptime => PlainText("cw_uptime_seconds", "Process uptime in seconds.", "gauge", PrintDecimal(uptime))
    case Polls => ResultText("cw_polls_total", "Provider poll cycles by result.", "counter", PrintNat(c.pollsOk), PrintNat(c.pollsErr))
    case Written => PlainText("cw_prices_written_total", "Price rows persisted.", "counter", PrintNat(c.pricesWritten))
    case Discovery => ResultText("cw_discovery_total", "Coin discovery refreshes by result.", "counter",
        PrintNat(c.discoveryOk), PrintNat(c.discoveryErr))
    case Coins => PlainText("cw_tracked_coins", "Coins currently tracked.", "gauge", PrintNat(c.trackedCoins))
    case LastPoll => PlainText("cw_last_poll_duration_seconds", "Duration of the most recent poll.", "gauge",
        PrintDecimal(Seconds(c.lastPollMs)))
    case Http => PlainText("cw_http_requests_total", "Total HTTP requests handled.", "counter", PrintNat(c.httpRequests))
  }

  /** And of the whole endpoint, family after family. */
  ghost function ExpectedText(c: Counters, uptime: Decimal): string {
    FamilyText(Uptime, c, uptime) + FamilyText(Polls, c, uptime) + FamilyText(Written, c, uptime) +
    FamilyText(Discovery, c, uptime) + FamilyText(Coins, c, uptime) + FamilyText(LastPoll, c, uptime) +
    FamilyText(Http, c, uptime)
  }

  lemma {:induction false} RenderConcat(a: seq<Line>, b: seq<Line>)
    ensures Render(a + b) == Render(a) + Render(b)
  {
    hide RenderLine;
    if a == [] {
      assert a + b == b;
    } else {
      assert (a + b)[1..] == a[1..] + b;
      RenderConcat(a[1..], b);
    }
  }

  lemma RenderOne(line: Line)
    ensures Render([line]) == RenderLine(line) + "\n"
  {
    hide RenderLine;
    assert [line][1..] == [];
  }

  lemma HeadRendered(name: string, help: string, kind: string)
    ensures Render([Comment(Help(name, help)), Comment(Type(name, kind))]) == HeadText(name, help, kind)
  {
    var a, b := Comment(Help(name, help)), Comment(Type(name, kind));
    RenderOne(a);
    RenderOne(b);
    hide Render;
    RenderConcat([a], [b]);
    assert [a] + [b] == [a, b];
  }

  lemma MeasureRendered(name: string, value: string)
    ensures Render([Measure(name, [], value)]) == name + " " + value + "\n"
  {
    RenderNothing();
    hide Render;
    assert "" + name == name;
    var lines := PlainWritten([], name, value);
    assert lines == [Measure(name, [], value)];
  }

  lemma ResultRendered(name: string, result: string, part: string, value: string)
    requires part == "{result=\"" + result + "\"} "
    ensures Render([Measure(name, [Label("result", result)], value)]) == name + part + value + "\n"
  {
    RenderNothing();
    hide Render;
    assert "" + name == name;
    var lines := ResultWritten([], name, result, part, value);
    assert lines == [Measure(name, [Label("result", result)], value)];
  }

  lemma PlainFamily(f: Family, c: Counters, uptime: Decimal)
    requires !IsByResult(f)
    ensures Render(FamilyLines(f, c, uptime)) == PlainText(NameOf(f), HelpOf(f), KindOf(f), TextOf(f, c, uptime))
  {
    var name, help, kind, text := NameOf(f), HelpOf(f), KindOf(f), TextOf(f, c, uptime);
    var head, lines := [Comment(Help(name, help)), Comment(Type(name, kind))], FamilyLines(f, c, uptime);
    assert lines == head + [Measure(name, [], text)] by {
      hide NameOf, HelpOf, KindOf, TextOf, ErrorTextOf, Help, Type;
    }
    HeadRendered(name, help, kind);
    MeasureRendered(name, text);
    RenderConcat(head, [Measure(name, [], text)]);
  }

  lemma ResultRows(name: string, help: string, kind: string, ok: string, error: string)
    ensures Render([Comment(Help(name, help)), Comment(Type(name, kind))] +
                   [Measure(name, [Label("result", "ok")], ok), Measure(name, [Label("result", "error")], error)]) ==
      ResultText(name, help, kind, ok, error)
  {
    var head := [Comment(Help(name, help)), Comment(Type(name, kind))];
    var a, b := Measure(name, [Label("result", "ok")], ok), Measure(name, [Label("result", "error")], error);
    HeadRendered(name, help, kind);
    ResultRendered(name, "ok", "{result=\"ok\"} ", ok);
    ResultRendered(name, "error", "{result=\"error\"} ", error);
    hide Help;
    hide Type;
    hide HeadText;
    ThreeParts(head, a, b);
    hide Render;
  }

  lemma ThreeParts(head: seq<Line>, a: Line, b: Line)
    ensures Render(head + [a, b]) == Render(head) + Render([a]) + Render([b])
  {
    hide Render;
    RenderConcat(head, [a]);
    RenderConcat(head + [a], [b]);
    assert head + [a] + [b] == head + [a, b];
  }

  lemma ResultFamily(f: Family, c: Counters, uptime: Decimal)
    requires IsByResult(f)
    ensures Render(FamilyLines(f, c, uptime)) ==
      ResultText(NameOf(f), HelpOf(f), KindOf(f), TextOf(f, c, uptime), ErrorTextOf(f, c))
  {
    hide NameOf;
    hide HelpOf;
    hide KindOf;
    hide TextOf;
    hide ErrorTextOf;
    hide ResultText;
    hide Help;
    hide Type;
    hide Render;
    ResultRows(NameOf(f), HelpOf(f), KindOf(f), TextOf(f, c, uptime), ErrorTextOf(f, c));
  }

  lemma FamilyIsExpected(f: Family, c: Counters, uptime: Decimal)
    ensures Render(FamilyLines(f, c, uptime)) == FamilyText(f, c, uptime)
  {
    if IsByResult(f) { ResultFamily(f, c, uptime); } else { PlainFamily(f, c, uptime); }
    hide Render;
    hide FamilyLines;
    hide PlainText;
    hide ResultText;
    hide PrintNat;
    hide PrintDecimal;
  }

  /** The rendered document is that text. */
  lemma DocumentIsExpected(c: Counters, uptime: Decimal)
    ensures Render(Document(c, uptime)) == ExpectedText(c, uptime)
  {
    hide Render;
    hide FamilyLines;
    hide FamilyText;
    hide PrintNat;
    hide PrintDecimal;
    FamilyIsExpected(Uptime, c, uptime);
    var d := FamilyLines(Uptime, c, uptime);
    d := FamilyFollows(d, Polls, c, uptime);
    d := FamilyFollows(d, Written, c, uptime);
    d := FamilyFollows(d, Discovery, c, uptime);
    d := FamilyFollows(d, Coins, c, uptime);
    d := FamilyFollows(d, LastPoll, c, uptime);
    d := FamilyFollows(d, Http, c, uptime);
  }

  lemma FamilyFollows(d: seq<Line>, f: Family, c: Counters, uptime: Decimal) returns (next: seq<Line>)
    ensures next == d + FamilyLines(f, c, uptime)
    ensures Render(next) == Render(d) + FamilyText(f, c, uptime)
  {
    next := d + FamilyLines(f, c, uptime);
    FamilyIsExpected(f, c, uptime);
    RenderConcat(d, FamilyLines(f, c, uptime));
  }

  // ---------------------------------------------------------------- digits

  /** A printed counter has no leading zero, so its value leaves it no other text. */
  lemma {:induction false} NatIsShortest(n: nat)
    ensures PrintNat(n)[0] == '0' ==> n == 0 && PrintNat(n) == "0"
  {
    if n >= 10 { NatIsShortest(n / 10); }
  }

  /** Nor have printed seconds a trailing one, or a dot without digits behind it. */
  lemma SecondsAreShortest(ms: nat)
    ensures var d := Seconds(ms);
      && d.whole == ms / 1000 && |d.fraction| <= 3
      && (d.fraction != "" ==> d.fraction[|d.fraction| - 1] != '0')
      && PrintDecimal(d) == PrintNat(ms / 1000) + if d.fraction == "" then "" else "." + d.fraction
  {
    hide PrintNat;
    assert PrintNat(ms / 1000) + "" == PrintNat(ms / 1000);
  }
}
