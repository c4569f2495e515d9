/** The language of the exposition parser, stated without the parser: which lines it takes, into which parts, which
    label pairs, which numbers. Its answers are then exactly those of the language, for every text. */
module ExpositionGrammar {
  import opened Wrappers
  import opened Exposition

  // ---------------------------------------------------------------- lines

  ghost predicate IsBlank(s: string) { forall i :: 0 <= i < |s| ==> IsSpace(s[i]) }

  ghost predicate IsLetter(c: char) { 'a' <= c <= 'z' || 'A' <= c <= 'Z' || c == '_' || c == ':' }

  /** Letters, underscores, colons and digits, the first no digit. */
  ghost predicate IsNameText(s: string) {
    s != "" && IsLetter(s[0]) && forall i :: 0 <= i < |s| ==> IsLetter(s[i]) || '0' <= s[i] <= '9'
  }

  /** Nothing, or anything but a closing brace within braces. */
  ghost predicate IsBracesText(s: string) {
    s == "" ||
    (|s| >= 2 && s[0] == '{' && s[|s| - 1] == '}' && forall i :: 0 <= i < |s| - 1 ==> s[i] != '}')
  }

  ghost predicate IsNumberChar(c: char) { '0' <= c <= '9' || c == '.' || c == 'e' || c == 'E' || c == '+' }

  /** "NaN", or digits, dots, exponent letters and plus signs, perhaps after a minus. */
  ghost predicate IsNumberText(s: string) {
    s == "NaN" ||
    (s != "" && (s[0] == '-' ==> |s| > 1) && (s[0] == '-' || IsNumberChar(s[0])) &&
     forall i :: 0 < i < |s| ==> IsNumberChar(s[i]))
  }

  /** A sample line: a name, perhaps braces, white space, a number. */
  ghost predicate IsSampleLine(line: string, m: Match, blank: string) {
    && line == m.name + (m.braces + (blank + m.text))
    && IsNameText(m.name) && IsBracesText(m.braces) && blank != "" && IsBlank(blank) && IsNumberText(m.text)
  }

  /** The white space and line terminators of ECMA-262, sections 12.2 and 12.3, by code point. */
  lemma SpaceIsEcma(c: char)
    ensures IsSpace(c) <==>
      c as int in {9, 10, 11, 12, 13, 32, 160, 5760, 8232, 8233, 8239, 8287, 12288, 65279} || 8192 <= c as int <= 8202
  {
  }

  lemma SameClasses(name: string, text: string)
    ensures IsNameText(name) <==> IsName(name)
    ensures IsNumberText(text) <==> IsValueText(text)
  {
    if text != "" && text != "NaN" {
      if text[0] == '-' {
        assert forall i :: 0 < i < |text| ==> text[i] == text[1..][i - 1];
      }
    }
  }

  /** A sample line is matched, by its own parts. */
  lemma SampleLineMatches(line: string, m: Match, blank: string)
    requires IsSampleLine(line, m, blank)
    ensures MatchLine(line) == Some(m)
  {
    var tail := blank + m.text;
    var rest := m.braces + tail;
    SameClasses(m.name, m.text);
    ValueTextIsSolid(m.text);
    BlankSpans(blank, m.text);
    hide IsValueText;
    hide IsNameText;
    assert MatchValue(m.name, m.braces, tail) == Some(m);
    assert MatchLabels(m.name, rest) == Some(m) by { BracesMatch(m, tail); }
    hide MatchLabels;
    hide MatchValue;
    assert rest != [] && !IsNameChar(rest[0]) by { RestIsNoName(m.braces, blank, m.text); }
    NameSpans(m.name, rest);
    assert IsNameStart(line[0]);
    hide IsNameChar;
    hide IsNameStart;
  }

  lemma BlankSpans(blank: string, text: string)
    requires blank != "" && IsBlank(blank) && text != [] && !IsSpace(text[0])
    ensures Span(blank + text, IsSpace) == |blank| && (blank + text)[|blank|..] == text
  {
    hide IsSpace;
    SpanStops(blank, text, IsSpace);
  }

  lemma RestIsNoName(braces: string, blank: string, text: string)
    requires IsBracesText(braces) && blank != "" && IsBlank(blank)
    ensures var rest := braces + (blank + text); rest != [] && !IsNameChar(rest[0])
  {
    ClassesAreDisjoint(blank[0]);
    hide IsSpace;
  }

  lemma BracesMatch(m: Match, tail: string)
    requires IsBracesText(m.braces) && tail != [] && tail[0] != '{' && MatchValue(m.name, m.braces, tail) == Some(m)
    ensures MatchLabels(m.name, m.braces + tail) == Some(m)
  {
    hide MatchValue;
    var rest := m.braces + tail;
    if m.braces == "" {
      assert rest == tail;
    } else {
      var n := |m.braces| - 1;
      var body := m.braces[..n];
      assert rest == body + ("}" + tail);
      SpanStops(body, "}" + tail, x => x != '}');
      assert rest[..n + 1] == m.braces && rest[n + 1..] == tail;
    }
  }

  lemma MatchedValue(name: string, braces: string, tail: string) returns (blank: string)
    requires MatchValue(name, braces, tail).Some?
    ensures var m := MatchValue(name, braces, tail).value;
      && m.name == name && m.braces == braces && tail == blank + m.text
      && blank != "" && IsBlank(blank) && IsNumberText(m.text)
  {
    var b := Span(tail, IsSpace);
    SpanMatches(tail, IsSpace);
    blank := tail[..b];
    SameClasses("", tail[b..]);
    hide IsValueText;
    hide IsNumberText;
    hide IsSpace;
  }

  lemma MatchedLabels(name: string, rest: string) returns (blank: string)
    requires MatchLabels(name, rest).Some?
    ensures var m := MatchLabels(name, rest).value;
      && m.name == name && rest == m.braces + (blank + m.text) && IsBracesText(m.braces)
      && blank != "" && IsBlank(blank) && IsNumberText(m.text)
  {
    hide MatchValue;
    hide IsNumberText;
    hide IsBlank;
    if rest == [] || rest[0] != '{' {
      blank := MatchedValue(name, "", rest);
    } else {
      var close := IndexOf(rest, '}');
      SpanMatches(rest, x => x != '}');
      assert rest == rest[..close + 1] + rest[close + 1..];
      blank := MatchedValue(name, rest[..close + 1], rest[close + 1..]);
    }
  }

  lemma MatchedName(line: string)
    requires Span(line, IsNameChar) > 0 && IsNameStart(line[0])
    ensures IsNameText(line[..Span(line, IsNameChar)])
  {
    SpanMatches(line, IsNameChar);
  }

  /** What is matched is a sample line of the parts found. */
  lemma MatchIsSampleLine(line: string) returns (blank: string)
    requires MatchLine(line).Some?
    ensures IsSampleLine(line, MatchLine(line).value, blank)
  {
    hide IsNameStart;
    hide IsNameText;
    hide MatchLabels;
    hide IsNumberText;
    hide IsBracesText;
    hide IsBlank;
    hide Span;
    var n := Span(line, IsNameChar);
    MatchedName(line);
    blank := MatchedLabels(line[..n], line[n..]);
    assert line == line[..n] + line[n..];
  }

  /** Raw text, perhaps with white space around it, that holds a sample line. */
  ghost predicate HoldsLine(raw: string, before: string, line: string, after: string, m: Match, blank: string) {
    raw == before + (line + after) && IsBlank(before) && IsBlank(after) && IsSampleLine(line, m, blank)
  }

  /** A text that holds a sample line parses to one sample, of its name, its labels and its number. */
  lemma HeldLineParses(raw: string, before: string, line: string, after: string, m: Match, blank: string)
    requires HoldsLine(raw, before, line, after, m, blank)
    ensures ParseLine(raw) == [Sample(m.name, LabelsOf(m.braces), NumberOf(m.text))]
  {
    SampleLineMatches(line, m, blank);
    SampleLineIsSolid(line, m, blank);
    TrimStrips(before, line, after);
    hide MatchLine;
    hide IsSampleLine;
    hide Trim;
    hide LabelsOf;
    hide NumberOf;
    hide IsBlank;
    hide IsSpace;
  }

  lemma SampleLineIsSolid(line: string, m: Match, blank: string)
    requires IsSampleLine(line, m, blank)
    ensures line != [] && !IsSpace(line[0]) && !IsSpace(line[|line| - 1]) && line[0] != '#'
  {
    SameClasses(m.name, m.text);
    ValueTextIsSolid(m.text);
    NameIsSolid(m.name, |m.name|);
    assert line[|line| - 1] == m.text[|m.text| - 1];
    hide IsSpace;
    hide IsValueText;
    hide IsName;
  }

  /** Whatever parses to a sample holds a sample line; every other text parses to nothing. */
  lemma ParsedLineIsHeld(raw: string) returns (before: string, line: string, after: string, m: Match, blank: string)
    requires ParseLine(raw) != []
    ensures HoldsLine(raw, before, line, after, m, blank)
  {
    line := Trim(raw);
    before, after := TrimParts(raw);
    hide Trim;
    m := MatchLine(line).value;
    blank := MatchIsSampleLine(line);
    hide MatchLine;
    hide IsSampleLine;
  }

  lemma {:induction false} LeftParts(s: string) returns (before: string)
    ensures s == before + TrimLeft(s) && IsBlank(before)
    ensures TrimLeft(s) != [] ==> !IsSpace(TrimLeft(s)[0])
  {
    hide IsSpace;
    before := "";
    if s != [] && IsSpace(s[0]) {
      before := LeftParts(s[1..]);
      assert s == [s[0]] + s[1..];
      before := [s[0]] + before;
    }
  }

  lemma {:induction false} RightParts(s: string) returns (after: string)
    ensures s == TrimRight(s) + after && IsBlank(after)
    decreases |s|
  {
    hide IsSpace;
    after := "";
    if s != [] && IsSpace(s[|s| - 1]) {
      var n := |s| - 1;
      after := RightParts(s[..n]);
      assert s == s[..n] + [s[n]];
      after := after + [s[n]];
    } else {
      assert s + "" == s;
    }
  }

  lemma TrimParts(s: string) returns (before: string, after: string)
    ensures s == before + (Trim(s) + after) && IsBlank(before) && IsBlank(after)
  {
    before := LeftParts(s);
    after := RightParts(TrimLeft(s));
  }

  lemma {:induction false} LeftStrips(before: string, s: string)
    requires IsBlank(before) && (s != [] ==> !IsSpace(s[0]))
    ensures TrimLeft(before + s) == s
  {
    hide IsSpace;
    if before == "" {
      assert before + s == s;
    } else {
      assert (before + s)[1..] == before[1..] + s;
      LeftStrips(before[1..], s);
    }
  }

  lemma {:induction false} RightStrips(s: string, after: string)
    requires IsBlank(after) && (s != [] ==> !IsSpace(s[|s| - 1]))
    ensures TrimRight(s + after) == s
    decreases |after|
  {
    hide IsSpace;
    if after == "" {
      assert s + after == s;
    } else {
      var n := |after| - 1;
      assert (s + after)[..|s + after| - 1] == s + after[..n];
      RightStrips(s, after[..n]);
    }
  }

  /** Trimming takes off all white space at both ends and nothing else. */
  lemma TrimStrips(before: string, s: string, after: string)
    requires IsBlank(before) && IsBlank(after) && (s != [] ==> !IsSpace(s[0]) && !IsSpace(s[|s| - 1]))
    ensures Trim(before + (s + after)) == s
  {
    hide IsSpace;
    if s == [] {
      assert before + (s + after) == before + after == (before + after) + "";
      LeftStrips(before + after, "");
    } else {
      LeftStrips(before, s + after);
      RightStrips(s, after);
    }
  }

  // ---------------------------------------------------------------- label pairs

  /** A pair with an equals sign sets the key before the first one to the value after it, white space around both taken
      off, and one quote at each end of the value; a pair without one sets nothing. */
  lemma PairParses(m: map<string, string>, a: string, key: string, b: string, c: string, value: string, d: string)
    requires IsBlank(a) && IsBlank(b) && IsBlank(c) && IsBlank(d) && Lacks(key, '=')
    requires key != [] ==> !IsSpace(key[0]) && !IsSpace(key[|key| - 1])
    requires value != [] ==> !IsSpace(value[0]) && !IsSpace(value[|value| - 1])
    ensures AddPair(m, (a + (key + b)) + ("=" + (c + (value + d)))) == m[key := Unquote(value)]
  {
    hide Trim;
    hide Unquote;
    hide IndexOf;
    var left, right := a + (key + b), c + (value + d);
    assert Lacks(left, '=') by { BlankLacks(a); BlankLacks(b); }
    KeyEnds(left, right);
    TrimStrips(a, key, b);
    TrimStrips(c, value, d);
    hide IsSpace;
  }

  lemma BlankLacks(s: string)
    requires IsBlank(s)
    ensures Lacks(s, '=')
  {
  }

  lemma PairWithoutEquals(m: map<string, string>, pair: string)
    requires Lacks(pair, '=')
    ensures AddPair(m, pair) == m
  {
    SpanStops(pair, "", x => x != '=');
    assert pair + "" == pair;
  }

  /** One quote comes off each end that has one. */
  lemma Unquoted(v: string)
    ensures Unquote("\"" + v + "\"") == v
    ensures v == "" || v[|v| - 1] != '"' ==> Unquote("\"" + v) == v
    ensures v == "" || v[0] != '"' ==> Unquote(v + "\"") == v
    ensures v == "" || (v[0] != '"' && v[|v| - 1] != '"') ==> Unquote(v) == v
  {
    assert ("\"" + v + "\"")[1..] == v + "\"";
    assert ("\"" + v)[1..] == v;
    if v == "" { assert v + "\"" == "\""; }
  }

  /** The pairs within the braces are those between its commas, and a later one overwrites an earlier. */
  lemma PairsOfBraces(inner: string, pairs: seq<string>, pair: string, m: map<string, string>)
    ensures LabelsOf("") == map[] && LabelsOf("{" + inner + "}") == AddPairs(map[], Split(inner, ','))
    ensures AddPairs(m, []) == m && AddPairs(m, pairs + [pair]) == AddPair(AddPairs(m, pairs), pair)
  {
    hide Split;
    hide AddPair;
    var braces := "{" + inner + "}";
    assert braces[1..|braces| - 1] == inner;
    PairsAppend(pairs, pair, m);
  }

  lemma {:induction false} PairsAppend(pairs: seq<string>, pair: string, m: map<string, string>)
    ensures AddPairs(m, pairs + [pair]) == AddPair(AddPairs(m, pairs), pair)
    decreases pairs
  {
    hide AddPair;
    if pairs == [] {
      assert pairs + [pair] == [pair] && [pair][1..] == [];
    } else {
      assert (pairs + [pair])[1..] == pairs[1..] + [pair];
      PairsAppend(pairs[1..], pair, AddPair(m, pairs[0]));
    }
  }

  // ---------------------------------------------------------------- numbers

  /** A decimal literal: a sign, digits, perhaps a dot and more digits, perhaps an exponent. */
  datatype Literal = Literal(sign: string, whole: string, dot: string, fraction: string, mark: string, exponent: string)

  ghost predicate IsLiteral(n: Literal) {
    && IsSign(n.sign)
    && AllDigits(n.whole) && AllDigits(n.fraction) && AllDigits(n.exponent)
    && (n.dot == "." || (n.dot == "" && n.fraction == ""))
    && (n.whole != "" || n.fraction != "")
    && (if n.exponent == "" then n.mark == "" else IsMark(n.mark))
  }

  ghost predicate IsSign(s: string) { s == "" || s == "+" || s == "-" }

  ghost predicate IsMark(s: string) { s == "e" || s == "E" || s == "e+" || s == "E+" }

  ghost function MantissaValue(n: Literal): real
    requires AllDigits(n.whole) && AllDigits(n.fraction)
  {
    DigitsValue(n.whole) as real + DigitsValue(n.fraction) as real / Pow10(|n.fraction|) as real
  }

  ghost function Powered(m: real, exponent: string): real
    requires AllDigits(exponent)
  {
    if exponent == "" then m else m * Pow10(DigitsValue(exponent)) as real
  }

  ghost function MantissaText(n: Literal): string { n.whole + (n.dot + n.fraction) }

  ghost function LiteralText(n: Literal): string { n.sign + (MantissaText(n) + (n.mark + n.exponent)) }

  ghost function LiteralValue(n: Literal): real
    requires IsLiteral(n)
  {
    var v := Powered(MantissaValue(n), n.exponent);
    if n.sign == "-" then -v else v
  }

  lemma MantissaReads(n: Literal)
    requires IsLiteral(n)
    ensures Mantissa(MantissaText(n)) == Num(MantissaValue(n))
    ensures forall i :: 0 <= i < |MantissaText(n)| ==> MantissaText(n)[i] == '.' || IsDigit(MantissaText(n)[i])
    ensures MantissaText(n) != ""
  {
    hide DigitsValue;
    hide Pow10;
    var s := MantissaText(n);
    SpanStops(n.whole, n.dot + n.fraction, x => x != '.');
    assert s[..|n.whole|] == n.whole;
    if n.dot == "." {
      assert s[|n.whole| + 1..] == n.fraction;
    } else {
      assert s == n.whole;
    }
  }

  lemma ExponentReads(s: string, m: real, mark: string, exponent: string)
    requires Mantissa(s) == Num(m) && forall i :: 0 <= i < |s| ==> s[i] != 'e' && s[i] != 'E'
    requires IsMark(mark) && exponent != "" && AllDigits(exponent)
    ensures Unsigned(s + (mark + exponent)) == Num(Powered(m, exponent))
  {
    hide DigitsValue;
    hide Pow10;
    hide Mantissa;
    var text := s + (mark + exponent);
    SpanStops(s, mark + exponent, x => x != 'e' && x != 'E');
    assert text[..|s|] == s;
    assert |mark| == 2 ==> text[|s| + 1] == '+' && text[|s| + 2..] == exponent;
    assert |mark| == 1 ==> text[|s| + 1..] == exponent && exponent[0] != '+';
  }

  lemma PlainReads(s: string)
    requires forall i :: 0 <= i < |s| ==> s[i] != 'e' && s[i] != 'E'
    ensures Unsigned(s + ("" + "")) == Mantissa(s)
  {
    SpanStops(s, "", x => x != 'e' && x != 'E');
    assert s + ("" + "") == s == s + "";
  }

  lemma UnsignedReads(n: Literal)
    requires IsLiteral(n)
    ensures var text := MantissaText(n) + (n.mark + n.exponent);
      && text != "" && text[0] != '-' && text[0] != '+' && text[0] != 'N'
      && Unsigned(text) == Num(Powered(MantissaValue(n), n.exponent))
  {
    MantissaReads(n);
    hide MantissaText;
    hide MantissaValue;
    hide Mantissa;
    hide IsMark;
    hide IsSign;
    if n.exponent == "" {
      PlainReads(MantissaText(n));
    } else {
      ExponentReads(MantissaText(n), MantissaValue(n), n.mark, n.exponent);
    }
    hide Unsigned;
    hide Powered;
  }

  lemma SignedReads(sign: string, text: string, v: real)
    requires text != "" && text[0] != '-' && text[0] != '+' && text[0] != 'N' && Unsigned(text) == Num(v)
    requires IsSign(sign)
    ensures NumberOf(sign + text) == Num(if sign == "-" then -v else v)
  {
    hide Unsigned;
    assert sign != "" ==> (sign + text)[1..] == text && |sign + text| > 1 && (sign + text)[0] == sign[0];
    assert sign == "" ==> sign + text == text;
  }

  /** A decimal literal reads as its value. */
  lemma LiteralReads(n: Literal)
    requires IsLiteral(n)
    ensures NumberOf(LiteralText(n)) == Num(LiteralValue(n))
  {
    hide Unsigned;
    hide NumberOf;
    hide MantissaText;
    hide MantissaValue;
    hide Powered;
    hide IsMark;
    hide IsSign;
    UnsignedReads(n);
    SignedReads(n.sign, MantissaText(n) + (n.mark + n.exponent), Powered(MantissaValue(n), n.exponent));
  }

  lemma DotSplits(s: string) returns (whole: string, dot: string, fraction: string)
    ensures whole == s[..IndexOf(s, '.')] && s == whole + (dot + fraction)
    ensures if IndexOf(s, '.') < |s| then dot == "." && fraction == s[IndexOf(s, '.') + 1..] else dot == fraction == ""
  {
    var i := IndexOf(s, '.');
    SpanMatches(s, x => x != '.');
    whole, dot, fraction := s[..i], if i < |s| then "." else "", if i < |s| then s[i + 1..] else "";
    if i < |s| { assert s == s[..i] + ([s[i]] + s[i + 1..]); }
  }

  lemma MantissaParts(s: string, whole: string, fraction: string)
    requires Mantissa(s).Num? && whole == s[..IndexOf(s, '.')]
    requires fraction == if IndexOf(s, '.') < |s| then s[IndexOf(s, '.') + 1..] else ""
    ensures AllDigits(whole) && AllDigits(fraction) && (whole != "" || fraction != "")
  {
    hide IndexOf;
    hide DigitsValue;
    hide Pow10;
    hide AllDigits;
  }

  lemma NoDigits()
    ensures AllDigits("")
  {
  }

  lemma MantissaNeeds(s: string) returns (n: Literal)
    requires Mantissa(s).Num?
    ensures IsLiteral(n) && n.sign == n.mark == n.exponent == "" && MantissaText(n) == s
  {
    hide Mantissa;
    hide IndexOf;
    hide AllDigits;
    hide IsMark;
    var whole, dot, fraction := DotSplits(s);
    MantissaParts(s, whole, fraction);
    NoDigits();
    n := Literal("", whole, dot, fraction, "", "");
  }

  lemma MarkOf(s: string, i: nat) returns (k: nat)
    requires i < |s| && (s[i] == 'e' || s[i] == 'E')
    ensures i < k <= |s| && IsMark(s[i..k])
    ensures s[k..] == if i + 1 < |s| && s[i + 1] == '+' then s[i + 2..] else s[i + 1..]
    ensures s == s[..i] + (s[i..k] + s[k..])
  {
    k := if i + 1 < |s| && s[i + 1] == '+' then i + 2 else i + 1;
    assert k == i + 2 ==> s[i..k] == [s[i], '+'];
    assert k == i + 1 ==> s[i..k] == [s[i]];
  }

  lemma UnsignedNeeds(s: string) returns (n: Literal)
    requires Unsigned(s).Num?
    ensures IsLiteral(n) && n.sign == "" && MantissaText(n) + (n.mark + n.exponent) == s
  {
    hide Mantissa;
    hide MantissaText;
    hide IsMark;
    var i := Span(s, x => x != 'e' && x != 'E');
    SpanMatches(s, x => x != 'e' && x != 'E');
    assert s[..|s|] == s;
    n := MantissaNeeds(s[..i]);
    if i < |s| {
      var k := MarkOf(s, i);
      n := WithExponent(n, s[i..k], s[k..]);
    } else {
      assert s == s + ("" + "");
    }
  }

  lemma WithExponent(n: Literal, mark: string, exponent: string) returns (m: Literal)
    requires IsLiteral(n) && n.exponent == "" && IsMark(mark) && AllDigits(exponent) && exponent != ""
    ensures m == n.(mark := mark, exponent := exponent) && IsLiteral(m) && MantissaText(m) == MantissaText(n)
  {
    hide IsMark;
    hide IsSign;
    m := n.(mark := mark, exponent := exponent);
  }

  /** Whatever reads as a number is a decimal literal; every other text reads as not a number. */
  lemma NumberNeeds(text: string) returns (n: Literal)
    requires NumberOf(text).Num?
    ensures IsLiteral(n) && LiteralText(n) == text && NumberOf(text) == Num(LiteralValue(n))
  {
    hide Unsigned;
    var signed := text != [] && (text[0] == '-' || text[0] == '+');
    n := UnsignedNeeds(if signed then text[1..] else text);
    if signed {
      n := n.(sign := text[..1]);
      assert text == text[..1] + text[1..];
    } else {
      assert text == "" + text;
    }
    LiteralReads(n);
    hide LiteralValue;
  }

  // ---------------------------------------------------------------- picking

  /** Nothing is picked exactly when no sample has the name and all the labels; else the first that has. */
  lemma {:induction false} PickFirst(samples: seq<Sample>, name: string, labels: map<string, string>, i: nat)
    requires i <= |samples|
    requires forall j :: 0 <= j < i ==>
      samples[j].name != name || exists k :: k in labels && (k !in samples[j].labels || samples[j].labels[k] != labels[k])
    requires i < |samples| ==>
      samples[i].name == name && forall k :: k in labels ==> k in samples[i].labels && samples[i].labels[k] == labels[k]
    ensures Pick(samples, name, labels) == if i < |samples| then Some(samples[i].value) else None
  {
    if i > 0 { PickFirst(samples[1..], name, labels, i - 1); }
  }
}
