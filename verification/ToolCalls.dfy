/** Tool-call markup in streamed text: the hold-back of a possible marker and the parsing of
    complete sections. */
module ToolCalls {
  import opened Wrappers

  const OPEN := "<tool_call>"
  const CLOSE := "</tool_call>"

  ghost predicate OccursAt(text: string, pattern: string, i: int) {
    0 <= i <= |text| - |pattern| && text[i..i + |pattern|] == pattern
  }

  ghost predicate Occurs(text: string, pattern: string) {
    exists i: nat :: OccursAt(text, pattern, i)
  }

  /** `str.find(pattern, start)`; `None` stands for -1. */
  function FindFrom(text: string, pattern: string, start: nat): (r: Option<nat>)
    ensures r.Some? ==> start <= r.value <= |text| - |pattern|
    decreases |text| - start
  {
    if start + |pattern| > |text| then None
    else if text[start..start + |pattern|] == pattern then Some(start)
    else FindFrom(text, pattern, start + 1)
  }

  /** It finds the first occurrence from `start` on. */
  lemma {:induction false} FindFromIsFirst(text: string, pattern: string, start: nat)
    ensures var r := FindFrom(text, pattern, start);
      if r.Some? then OccursAt(text, pattern, r.value) && forall i :: start <= i < r.value ==> !OccursAt(text, pattern, i)
      else forall i :: start <= i ==> !OccursAt(text, pattern, i)
    decreases |text| - start
  {
    if start + |pattern| <= |text| && text[start..start + |pattern|] != pattern {
      FindFromIsFirst(text, pattern, start + 1);
    }
  }

  function Find(text: string, pattern: string): (r: Option<nat>)
    ensures r.Some? <==> Occurs(text, pattern)
    ensures r.Some? ==> OccursAt(text, pattern, r.value) && forall i :: OccursAt(text, pattern, i) ==> r.value <= i
  {
    FindFromIsFirst(text, pattern, 0);
    FindFrom(text, pattern, 0)
  }

  /** `text.endswith(OPEN[:n])`. */
  predicate EndsWithMarkerStart(text: string, n: nat) {
    n <= |text| && n <= |OPEN| && text[|text| - n..] == OPEN[..n]
  }

  /** `marker_holdback`: the longest proper start of the marker that ends `text`. */
  function MarkerHoldback(text: string): (h: nat)
    ensures h <= |text| && h < |OPEN| && EndsWithMarkerStart(text, h)
    ensures forall n: nat :: n < |OPEN| && EndsWithMarkerStart(text, n) ==> n <= h
  {
    HoldbackFrom(text, Min(|text|, |OPEN| - 1))
  }

  function HoldbackFrom(text: string, n: nat): (h: nat)
    ensures h <= n && (n <= |text| ==> EndsWithMarkerStart(text, h))
    ensures forall m: nat :: m <= n && EndsWithMarkerStart(text, m) ==> m <= h
  {
    if n == 0 then 0 else if EndsWithMarkerStart(text, n) then n else HoldbackFrom(text, n - 1)
  }

  /** Holding back that much is safe: however the text goes on, a marker that is not there
      yet starts in the part held back or later. */
  lemma HoldbackIsSafe(text: string, more: string, i: nat)
    requires !Occurs(text, OPEN) && OccursAt(text + more, OPEN, i)
    ensures i >= |text| - MarkerHoldback(text)
  {
    if i < |text| {
      var n := |text| - i;
      if n >= |OPEN| {
        assert text[i..i + |OPEN|] == (text + more)[i..i + |OPEN|];
        assert OccursAt(text, OPEN, i);
      } else {
        assert text[i..] == (text + more)[i..i + |OPEN|][..n];
        assert EndsWithMarkerStart(text, n);
      }
    }
  }

  /** And necessary: some continuation has its first marker exactly where the part held
      back starts. */
  lemma HoldbackIsTight(text: string) returns (more: string)
    requires !Occurs(text, OPEN)
    ensures Find(text + more, OPEN) == Some(|text| - MarkerHoldback(text))
  {
    var h := MarkerHoldback(text);
    more := OPEN[h..];
    StartCompleted(text, OPEN, h);
    HoldbackIsSafe(text, more, Find(text + more, OPEN).value);
  }

  lemma StartCompleted(text: string, pattern: string, h: nat)
    requires h <= |text| && h <= |pattern| && text[|text| - h..] == pattern[..h]
    ensures OccursAt(text + pattern[h..], pattern, |text| - h)
  {
    var at: nat := |text| - h;
    assert (text + pattern[h..])[at..at + |pattern|] == text[at..] + pattern[h..];
    assert pattern == pattern[..h] + pattern[h..];
  }

  /** What is released never shrinks when text is added. */
  lemma ReleasedGrows(text: string, more: string)
    ensures |text| - MarkerHoldback(text) <= |text + more| - MarkerHoldback(text + more)
  {
    var n := MarkerHoldback(text + more) - |more|;
    if n > 0 {
      assert text[|text| - n..] == (text + more)[|text| - n..][..n];
      assert EndsWithMarkerStart(text, n);
    }
  }

  /** A first occurrence stays the first one when text is added. */
  lemma FirstOccurrenceStays(text: string, more: string, pattern: string)
    requires Occurs(text, pattern)
    ensures Find(text + more, pattern) == Find(text, pattern)
  {
    var i, j := Find(text, pattern).value, Find(text + more, pattern);
    assert (text + more)[i..i + |pattern|] == text[i..i + |pattern|];
    assert OccursAt(text + more, pattern, i);
    assert text[j.value..j.value + |pattern|] == (text + more)[j.value..j.value + |pattern|];
    assert OccursAt(text, pattern, j.value);
  }

  // ----------------------------------------------------------- parse_tool_calls

  /** What lies between each opening marker and the closing one after it, from `start` on;
      an unclosed section reaches to the end. */
  function SectionsFrom(text: string, start: nat, open: string, close: string): seq<string>
    requires open != []
    decreases |text| - start
  {
    match FindFrom(text, open, start)
    case None => []
    case Some(i) =>
      match FindFrom(text, close, i + |open|)
      case None => [text[i + |open|..]]
      case Some(j) => [text[i + |open|..j]] + SectionsFrom(text, j + |close|, open, close)
  }

  lemma ClosedSection(text: string, start: nat, i: nat, from: nat, j: nat, end: nat, raw: string, open: string, close: string)
    requires open != [] && FindFrom(text, open, start) == Some(i) && FindFrom(text, close, from) == Some(j)
    requires from == i + |open| && raw == text[from..j] && end == j + |close|
    ensures SectionsFrom(text, start, open, close) == [raw] + SectionsFrom(text, end, open, close)
  {
    hide FindFrom;
  }

  lemma LastSection(text: string, start: nat, open: string, close: string)
    requires open != []
    ensures match FindFrom(text, open, start)
      case None => SectionsFrom(text, start, open, close) == []
      case Some(i) => FindFrom(text, close, i + |open|) == None ==>
        SectionsFrom(text, start, open, close) == [text[i + |open|..]] + []
  {
    hide FindFrom;
  }

  function Sections(text: string): seq<string> {
    SectionsFrom(text, 0, OPEN, CLOSE)
  }

  /** The payloads that parse; `json` is the strip, JSON and `name` check of `_parse_one`. */
  function Parsed<T>(raws: seq<string>, json: imap<string, T>): seq<T> {
    if raws == [] then []
    else if raws[0] in json then [json[raws[0]]] + Parsed(raws[1..], json)
    else Parsed(raws[1..], json)
  }

  lemma ParsedFirst<T>(raw: string, rest: seq<string>, json: imap<string, T>, before: seq<T>)
    ensures before + Parsed([raw] + rest, json) ==
      (if raw in json then before + [json[raw]] else before) + Parsed(rest, json)
    ensures before + Parsed([], json) == before
  {
    assert ([raw] + rest)[1..] == rest;
  }

  method ParseToolCalls<T>(text: string, json: imap<string, T>) returns (calls: seq<T>)
    ensures calls == Parsed(Sections(text), json)
  {
    calls := ParseSections(text, OPEN, CLOSE, json);
  }

  method ParseSections<T>(text: string, open: string, close: string, json: imap<string, T>) returns (calls: seq<T>)
    requires open != []
    ensures calls == Parsed(SectionsFrom(text, 0, open, close), json)
  {
    hide FindFrom, SectionsFrom, Parsed;
    calls := [];
    var marker, from := FindFrom(text, open, 0), 0;
    ghost var all := Parsed(SectionsFrom(text, 0, open, close), json);
    while marker.Some?
      invariant marker == FindFrom(text, open, from)
      invariant all == calls + Parsed(SectionsFrom(text, from, open, close), json)
      decreases |text| - from, marker.Some?
    {
      var start := marker.value + |open|;
      var end := FindFrom(text, close, start);
      if end.None? {
        LastSection(text, from, open, close);
        ParsedFirst(text[start..], [], json, calls);
        if text[start..] in json {
          calls := calls + [json[text[start..]]];
        }
        return;
      }
      var raw, next := text[start..end.value], end.value + |close|;
      ClosedSection(text, from, marker.value, start, end.value, next, raw, open, close);
      ParsedFirst(raw, SectionsFrom(text, next, open, close), json, calls);
      if raw in json {
        calls := calls + [json[raw]];
      }
      from := next;
      marker := FindFrom(text, open, from);
    }
    LastSection(text, from, open, close);
    ParsedFirst("", [], json, calls);
  }

  /** Text with sections, each followed by more text. */
  function Render(parts: seq<(string, string)>, open: string, close: string): string {
    if parts == [] then "" else open + parts[0].0 + close + parts[0].1 + Render(parts[1..], open, close)
  }

  function Payloads(parts: seq<(string, string)>): seq<string> {
    if parts == [] then [] else [parts[0].0] + Payloads(parts[1..])
  }

  /** The next `pattern` after `s` starts right behind it. */
  ghost predicate EndsBefore(s: string, pattern: string) {
    forall i: nat :: OccursAt(s + pattern, pattern, i) ==> i >= |s|
  }

  ghost predicate Clean(parts: seq<(string, string)>, open: string, close: string) {
    forall i :: 0 <= i < |parts| ==> CleanPart(parts[i].0, parts[i].1, open, close)
  }

  ghost predicate CleanPart(payload: string, after: string, open: string, close: string) {
    EndsBefore(payload, close) && EndsBefore(after, open) && !Occurs(after, open)
  }

  lemma FindBehind(text: string, pre: string, s: string, pattern: string, rest: string)
    requires EndsBefore(s, pattern) && text == pre + s + pattern + rest
    ensures FindFrom(text, pattern, |pre|) == Some(|pre| + |s|)
  {
    var at: nat := |pre| + |s|;
    assert text[at..at + |pattern|] == pattern;
    assert OccursAt(text, pattern, at);
    FindFromIsFirst(text, pattern, |pre|);
    var i := FindFrom(text, pattern, |pre|).value;
    assert (s + pattern)[i - |pre|..i - |pre| + |pattern|] == text[i..i + |pattern|];
    assert OccursAt(s + pattern, pattern, i - |pre|);
  }

  lemma NoneBehind(pre: string, s: string, pattern: string)
    requires !Occurs(s, pattern)
    ensures FindFrom(pre + s, pattern, |pre|) == None
  {
    var r := FindFrom(pre + s, pattern, |pre|);
    FindFromIsFirst(pre + s, pattern, |pre|);
    if r.Some? {
      assert s[r.value - |pre|..r.value - |pre| + |pattern|] == (pre + s)[r.value..r.value + |pattern|];
      assert OccursAt(s, pattern, r.value - |pre|);
    }
  }

  /** One section is found where it was rendered, and the scan goes on behind it. */
  lemma FirstSection(text: string, done: string, pre: string, before: string, payload: string, tail: string, open: string, close: string)
    requires open != [] && EndsBefore(pre, open) && EndsBefore(payload, close)
    requires before == done + pre + open && text == before + payload + close + tail
    ensures SectionsFrom(text, |done|, open, close) ==
      [payload] + SectionsFrom(text, |before + payload + close|, open, close)
  {
    var i, from, j: nat := |done| + |pre|, |before|, |before| + |payload|;
    FindOpen(text, done, pre, open, before, payload + close + tail) by {
      Regroup4(before, payload, close, tail);
    }
    FindBehind(text, before, payload, close, tail);
    PayloadSlice(text, before, payload, close, tail);
    ClosedSection(text, |done|, i, from, j, |before + payload + close|, payload, open, close);
  }

  lemma FindOpen(text: string, done: string, pre: string, open: string, before: string, rest: string)
    requires EndsBefore(pre, open) && before == done + pre + open && text == before + rest
    ensures FindFrom(text, open, |done|) == Some(|done| + |pre|)
  {
    FindBehind(text, done, pre, open, rest);
  }

  lemma PayloadSlice(text: string, before: string, payload: string, close: string, tail: string)
    requires text == before + payload + close + tail
    ensures text[|before|..|before| + |payload|] == payload
  {
  }

  lemma Regroup4(a: string, b: string, c: string, d: string)
    ensures a + b + c + d == a + (b + c + d)
    ensures a + (b + c + d) == (a + b + c) + d
  {
  }

  lemma RenderedText(a: string, open: string, payload: string, close: string, after: string, rest: string)
    ensures a + (open + payload + close + after + rest) == (a + open) + payload + close + (after + rest)
    ensures a + (open + payload + close + after + rest) == ((a + open) + payload + close) + after + rest
  {
    Regroup4(open + payload, close, after, rest);
    Regroup4(a, open, payload, close + after + rest);
    Regroup4(a + open, payload, close, after + rest);
    Regroup4((a + open) + payload + close, after, rest, "");
  }

  /** A section that is never closed. */
  function Unclosed(last: Option<string>, open: string): string {
    if last.None? then "" else open + last.value
  }

  lemma LastUnclosed(text: string, done: string, pre: string, last: Option<string>, open: string, close: string)
    requires open != [] && EndsBefore(pre, open) && !Occurs(pre, open) && (last.Some? ==> !Occurs(last.value, close))
    requires text == done + pre + Unclosed(last, open)
    ensures SectionsFrom(text, |done|, open, close) == if last.None? then [] else [last.value]
  {
    hide FindFrom, SectionsFrom, EndsBefore;
    if last.None? {
      LastSection(text, |done|, open, close);
      assert text == done + pre;
      NoneBehind(done, pre, open);
    } else {
      var before := done + pre + open;
      Regroup4(done + pre, open, last.value, "");
      assert text == before + last.value;
      OpenToTheEnd(text, done, pre, before, last.value, open, close);
    }
  }

  lemma OpenToTheEnd(text: string, done: string, pre: string, before: string, payload: string, open: string, close: string)
    requires open != [] && EndsBefore(pre, open) && !Occurs(payload, close)
    requires before == done + pre + open && text == before + payload
    ensures SectionsFrom(text, |done|, open, close) == [payload]
  {
    hide FindFrom, SectionsFrom, EndsBefore;
    FindOpen(text, done, pre, open, before, payload);
    NoneBehind(before, payload, close);
    LastSection(text, |done|, open, close);
    assert text[|before|..] == payload;
  }

  /** Round trip: parsing rendered sections gives back their payloads, in order, whatever
      clean text stands before, between and after them; a last one may be unclosed. */
  lemma {:induction false} SectionsOfRendered(text: string, done: string, pre: string, parts: seq<(string, string)>,
                                              last: Option<string>, open: string, close: string)
    requires open != [] && EndsBefore(pre, open) && !Occurs(pre, open) && Clean(parts, open, close)
    requires last.Some? ==> !Occurs(last.value, close)
    requires text == done + pre + (Render(parts, open, close) + Unclosed(last, open))
    ensures SectionsFrom(text, |done|, open, close) == Payloads(parts) + (if last.None? then [] else [last.value])
    decreases |parts|
  {
    hide Unclosed, SectionsFrom, EndsBefore, Occurs;
    if parts == [] {
      assert text == done + pre + Unclosed(last, open);
      LastUnclosed(text, done, pre, last, open, close);
    } else {
      var payload, after, rest := parts[0].0, parts[0].1, Render(parts[1..], open, close) + Unclosed(last, open);
      assert CleanPart(parts[0].0, parts[0].1, open, close);
      var before := done + pre + open;
      Regroup4(open + payload + close + after, Render(parts[1..], open, close), Unclosed(last, open), "");
      RenderedText(done + pre, open, payload, close, after, rest);
      FirstSection(text, done, pre, before, payload, after + rest, open, close);
      SectionsOfRendered(text, before + payload + close, after, parts[1..], last, open, close);
    }
  }

  lemma ParsingRendered<T>(pre: string, parts: seq<(string, string)>, last: Option<string>, json: imap<string, T>)
    requires EndsBefore(pre, OPEN) && !Occurs(pre, OPEN) && Clean(parts, OPEN, CLOSE)
    requires last.Some? ==> !Occurs(last.value, CLOSE)
    ensures Parsed(Sections(pre + (Render(parts, OPEN, CLOSE) + Unclosed(last, OPEN))), json) ==
      Parsed(Payloads(parts), json) + (if last.Some? && last.value in json then [json[last.value]] else [])
  {
    var text := pre + (Render(parts, OPEN, CLOSE) + Unclosed(last, OPEN));
    assert text == "" + pre + (Render(parts, OPEN, CLOSE) + Unclosed(last, OPEN));
    SectionsOfRendered(text, "", pre, parts, last, OPEN, CLOSE);
    var raws := Payloads(parts);
    if last.Some? {
      ParsedEach(raws, last.value, [], json);
      assert raws + [last.value] + [] == raws + [last.value];
    } else {
      assert raws + [] == raws;
    }
  }

  /** Each payload gives its call or nothing, whatever stands before and after it. */
  lemma {:induction false} ParsedEach<T>(a: seq<string>, raw: string, b: seq<string>, json: imap<string, T>)
    ensures Parsed(a + [raw] + b, json) == Parsed(a, json) + (if raw in json then [json[raw]] else []) + Parsed(b, json)
    ensures Parsed([], json) == []
  {
    if a == [] {
      assert a + [raw] + b == [raw] + b;
      ParsedFirst(raw, b, json, []);
    } else {
      ParsedEach(a[1..], raw, b, json);
      assert a + [raw] + b == [a[0]] + (a[1..] + [raw] + b);
    }
  }
}
