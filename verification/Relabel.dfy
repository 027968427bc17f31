/** Metric relabelling, as far as the generated programs use it: anchored patterns over joined
    label values, and the actions replace, keep, drop and labeldrop. An absent label reads as
    the empty string, and setting a label to the empty string removes it. */
module Relabel {
  import opened Options

  type Labels<L> = map<L, string>

  /** The fixed patterns that occur. */
  datatype Pattern =
    | AnyText                                            // (.*)
    | SomeText                                           // (.+)
    | OneOf(words: seq<string>)                          // (a|b|…), an empty word allowed
    | AbsolutePath                                       // (/.*)
    | OptionalPath                                       // |/.*
    | OptionalPort                                       // | and 1 to 65535
    | HostPortThenPort                                   // (.+):[0-9]+;([0-9]+)
    | Pairs(firsts: seq<string>, seconds: seq<string>)   // (a|b);(c|d)

  /** `Groups` stands for $1, and for $1:$2 under HostPortThenPort. */
  datatype Replacement = Groups | Text(text: string)

  datatype Rule<!L> =
    | Replace(sources: seq<L>, separator: string, pattern: Pattern, target: L, replacement: Replacement)
    | Keep(sources: seq<L>, pattern: Pattern)
    | Drop(sources: seq<L>, pattern: Pattern)
    | LabelDrop(names: L -> bool)

  // ---------------------------------------------------------------- text

  predicate OneLine(s: string) {
    '\n' !in s
  }

  predicate IsDigit(c: char) {
    '0' <= c <= '9'
  }

  predicate IsNumber(s: string) {
    s != [] && forall c <- s :: IsDigit(c)
  }

  /** The text before and after the last `c`. */
  function SplitLast(s: string, c: char): (r: Option<(string, string)>)
    ensures r.Some? ==> s == r.value.0 + [c] + r.value.1 && c !in r.value.1
    ensures r.None? ==> c !in s
  {
    if s == [] then None
    else
      var init, last := s[..|s| - 1], s[|s| - 1];
      assert s == init + [last];
      if last == c then Some((init, []))
      else match SplitLast(init, c)
        case None => None
        case Some(parts) => Some((parts.0, parts.1 + [last]))
  }

  lemma {:induction false} SplitLastIs(before: string, c: char, after: string)
    requires c !in after
    ensures SplitLast(before + [c] + after, c) == Some((before, after))
  {
    var s := before + [c] + after;
    if after == [] {
      assert s[..|s| - 1] == before;
    } else {
      var shorter := after[..|after| - 1];
      assert s[..|s| - 1] == before + [c] + shorter;
      assert after == shorter + [after[|after| - 1]];
      SplitLastIs(before, c, shorter);
    }
  }

  // ---------------------------------------------------------------- patterns

  predicate IsHttpPath(s: string) {
    "/" <= s && OneLine(s)
  }

  predicate DigitIn(c: char, low: char, high: char) {
    low <= c <= high
  }

  /** The alternatives of scrapePortPattern, one disjunct each. */
  predicate IsPort(s: string) {
    || (1 <= |s| <= 4 && DigitIn(s[0], '1', '9') && forall i :: 1 <= i < |s| ==> DigitIn(s[i], '0', '9'))
    || (|s| == 5 && DigitIn(s[0], '1', '5') && forall i :: 1 <= i < 5 ==> DigitIn(s[i], '0', '9'))
    || (|s| == 5 && s[0] == '6' && DigitIn(s[1], '0', '4') && forall i :: 2 <= i < 5 ==> DigitIn(s[i], '0', '9'))
    || (|s| == 5 && s[..2] == "65" && DigitIn(s[2], '0', '4') && forall i :: 3 <= i < 5 ==> DigitIn(s[i], '0', '9'))
    || (|s| == 5 && s[..3] == "655" && DigitIn(s[3], '0', '2') && DigitIn(s[4], '0', '9'))
    || (|s| == 5 && s[..4] == "6553" && DigitIn(s[4], '0', '5'))
  }

  function HostPort(s: string): Option<string> {
    match SplitLast(s, ';')
    case None => None
    case Some(outer) =>
      match SplitLast(outer.0, ':')
      case None => None
      case Some(inner) =>
        if inner.0 != [] && OneLine(inner.0) && IsNumber(inner.1) && IsNumber(outer.1)
        then Some(inner.0 + ":" + outer.1) else None
  }

  /** The text the groups produce, or None where the whole value does not match. */
  function Captured(p: Pattern, s: string): Option<string> {
    match p
    case AnyText => if OneLine(s) then Some(s) else None
    case SomeText => if s != [] && OneLine(s) then Some(s) else None
    case OneOf(words) => if s in words then Some(s) else None
    case AbsolutePath => if IsHttpPath(s) then Some(s) else None
    case OptionalPath => if s == [] || IsHttpPath(s) then Some(s) else None
    case OptionalPort => if s == [] || IsPort(s) then Some(s) else None
    case HostPortThenPort => HostPort(s)
    case Pairs(firsts, seconds) => if IsPair(s, firsts, seconds) then Some(s) else None
  }

  predicate IsPair(s: string, firsts: seq<string>, seconds: seq<string>) {
    exists f <- firsts, r <- seconds :: s == f + ";" + r
  }

  predicate Matches(p: Pattern, s: string) {
    Captured(p, s).Some?
  }

  // ---------------------------------------------------------------- rules

  function Value<L(!new)>(labels: Labels<L>, name: L): string {
    if name in labels then labels[name] else ""
  }

  function Joined<L(!new)>(labels: Labels<L>, sources: seq<L>, separator: string): string {
    if sources == [] then ""
    else if |sources| == 1 then Value(labels, sources[0])
    else Joined(labels, sources[..|sources| - 1], separator) + separator + Value(labels, sources[|sources| - 1])
  }

  function Assigned<L(!new)>(labels: Labels<L>, name: L, value: string): (r: Labels<L>)
    ensures Value(r, name) == value
    ensures forall other :: other != name ==> Value(r, other) == Value(labels, other)
  {
    if value == "" then labels - {name} else labels[name := value]
  }

  /** One rule; None when it drops the target. */
  function Step<L(!new)>(rule: Rule<L>, labels: Labels<L>): Option<Labels<L>> {
    match rule
    case Replace(sources, separator, pattern, target, replacement) =>
      (match Captured(pattern, Joined(labels, sources, separator))
       case None => Some(labels)
       case Some(text) => Some(Assigned(labels, target, if replacement.Text? then replacement.text else text)))
    case Keep(sources, pattern) => if Matches(pattern, Joined(labels, sources, ";")) then Some(labels) else None
    case Drop(sources, pattern) => if Matches(pattern, Joined(labels, sources, ";")) then None else Some(labels)
    case LabelDrop(names) => Some(map l | l in labels && !names(l) :: labels[l])
  }

  function Run<L(!new)>(rules: seq<Rule<L>>, labels: Labels<L>): Option<Labels<L>> {
    if rules == [] then Some(labels)
    else match Step(rules[0], labels)
      case None => None
      case Some(next) => Run(rules[1..], next)
  }

  lemma JoinedPair<L(!new)>(labels: Labels<L>, a: L, b: L, separator: string)
    ensures Joined(labels, [a, b], separator) == Value(labels, a) + separator + Value(labels, b)
  {
    assert [a, b][..1] == [a];
  }

  lemma RunOne<L(!new)>(rule: Rule<L>, rest: seq<Rule<L>>, labels: Labels<L>)
    ensures Run([rule] + rest, labels) == match Step(rule, labels) case None => None case Some(next) => Run(rest, next)
  {
    assert ([rule] + rest)[1..] == rest;
  }

  lemma {:induction false} RunAppend<L(!new)>(a: seq<Rule<L>>, b: seq<Rule<L>>, labels: Labels<L>)
    ensures Run(a + b, labels) == match Run(a, labels) case None => None case Some(next) => Run(b, next)
  {
    if a == [] {
      assert a + b == b;
    } else {
      assert (a + b)[1..] == a[1..] + b;
      match Step(a[0], labels)
      case None =>
      case Some(next) => RunAppend(a[1..], b, next);
    }
  }

  // ---------------------------------------------------------------- what the patterns mean

  /** The two splits find the regular expression's match, and it is the only one. */
  lemma HostPortIsTheOnlyMatch(s: string, result: string)
    ensures HostPort(s) == Some(result) <==>
      exists host: string, old_port: string, port: string ::
        s == host + ":" + old_port + ";" + port && host != [] && OneLine(host)
        && IsNumber(old_port) && IsNumber(port) && result == host + ":" + port
  {
    if host: string, old_port: string, port: string :|
        s == host + ":" + old_port + ";" + port && host != [] && OneLine(host)
        && IsNumber(old_port) && IsNumber(port) && result == host + ":" + port {
      HostPortOf(host, old_port, port);
    }
    if HostPort(s) == Some(result) {
      var outer := SplitLast(s, ';').value;
      var inner := SplitLast(outer.0, ':').value;
      assert s == inner.0 + ":" + inner.1 + ";" + outer.1;
    }
  }

  lemma HostPortOf(host: string, old_port: string, port: string)
    requires host != [] && OneLine(host) && IsNumber(old_port) && IsNumber(port)
    ensures HostPort(host + ":" + old_port + ";" + port) == Some(host + ":" + port)
  {
    assert ';' !in port by { assert !IsDigit(';'); }
    assert ':' !in old_port by { assert !IsDigit(':'); }
    SplitLastIs(host + ":" + old_port, ';', port);
    SplitLastIs(host, ':', old_port);
    assert host + ":" + old_port + ";" + port == (host + ":" + old_port) + [';'] + port;
    assert host + ":" + old_port == host + [':'] + old_port;
  }

  function DigitValue(c: char): int {
    c as int - '0' as int
  }

  function Number(s: string): int {
    if s == [] then 0 else 10 * Number(s[..|s| - 1]) + DigitValue(s[|s| - 1])
  }

  lemma NumberOfShort(s: string)
    requires IsNumber(s) && |s| <= 5
    ensures Number(s) == match |s|
                         case 1 => DigitValue(s[0])
                         case 2 => 10 * DigitValue(s[0]) + DigitValue(s[1])
                         case 3 => 100 * DigitValue(s[0]) + 10 * DigitValue(s[1]) + DigitValue(s[2])
                         case 4 => 1000 * DigitValue(s[0]) + 100 * DigitValue(s[1]) + 10 * DigitValue(s[2])
                                   + DigitValue(s[3])
                         case _ => 10000 * DigitValue(s[0]) + 1000 * DigitValue(s[1]) + 100 * DigitValue(s[2])
                                   + 10 * DigitValue(s[3]) + DigitValue(s[4])
  {
    if |s| > 1 {
      NumberOfShort(s[..|s| - 1]);
    }
  }

  lemma {:induction false} LongNumbersAreLarge(s: string)
    requires IsNumber(s) && s[0] != '0' && |s| > 5
    ensures Number(s) > 65535
  {
    assert IsDigit(s[0]) && IsDigit(s[|s| - 1]);
    if |s| == 6 {
      NumberOfShort(s[..5]);
      assert forall i :: 0 <= i < 5 ==> IsDigit(s[..5][i]);
    } else {
      LongNumbersAreLarge(s[..|s| - 1]);
    }
  }

  /** The port pattern is exactly the decimal numbers from 1 to 65535 without leading zeros. */
  lemma PortPatternIsRange(s: string)
    ensures IsPort(s) <==> IsNumber(s) && s[0] != '0' && 1 <= Number(s) <= 65535
  {
    if IsNumber(s) && |s| <= 5 {
      assert forall i :: 0 <= i < |s| ==> IsDigit(s[i]);
      NumberOfShort(s);
      if |s| == 5 {
        FiveDigits(s);
      }
    } else if IsNumber(s) && s[0] != '0' {
      LongNumbersAreLarge(s);
    } else if IsPort(s) {
      assert forall i :: 0 <= i < |s| ==> IsDigit(s[i]);
    }
  }

  lemma FiveDigits(s: string)
    requires IsNumber(s) && |s| == 5
    ensures IsPort(s) <==> s[0] != '0' && Number(s) <= 65535
  {
    var a, b, c, d, e := s[0], s[1], s[2], s[3], s[4];
    assert s == [a, b, c, d, e];
    assert IsDigit(a) && IsDigit(b) && IsDigit(c) && IsDigit(d) && IsDigit(e);
    NumberOfShort(s);
    assert s[..2] == "65" <==> a == '6' && b == '5';
    assert s[..3] == "655" <==> a == '6' && b == '5' && c == '5';
    assert s[..4] == "6553" <==> a == '6' && b == '5' && c == '5' && d == '3';
  }
}
