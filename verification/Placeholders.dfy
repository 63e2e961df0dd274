/**
 Placeholder interpolation of stream output URLs (src/pipeline/TaskManager.cpp:36-72):
 `{task_id}` and `{source_id}` are replaced, any other or unterminated brace throws.
 */
module Placeholders {
  import opened Geometry

  // ---------------------------------------------------------------- templates

  datatype Hole = TaskId | SourceId

  /** The two placeholder names; kept as a parameter below, since only their difference matters. */
  datatype Names = Names(task: string, source: string)

  const NAMES := Names("task_id", "source_id")

  ghost predicate Usable(nm: Names) {
    nm.task != nm.source && '}' !in nm.task && '}' !in nm.source
  }

  function Name(nm: Names, h: Hole): string { match h case TaskId => nm.task case SourceId => nm.source }

  function Value(h: Hole, taskId: string, sourceId: string): string {
    match h case TaskId => taskId case SourceId => sourceId
  }

  function HoleOf(nm: Names, token: string): Option<Hole> {
    if token == nm.task then Some(TaskId) else if token == nm.source then Some(SourceId) else None
  }

  /** Alternating text and holes, ending in text. */
  datatype Template = End(text: string) | Part(text: string, hole: Hole, tail: Template)

  ghost predicate BraceFree(t: Template) {
    '{' !in t.text && (t.Part? ==> BraceFree(t.tail))
  }

  ghost function Braced(text: string, token: string, rest: string): string { text + ("{" + token + "}" + rest) }

  ghost function Written(nm: Names, t: Template): string {
    match t
    case End(text) => text
    case Part(text, hole, tail) => Braced(text, Name(nm, hole), Written(nm, tail))
  }

  function Rendered(t: Template, taskId: string, sourceId: string): string {
    match t
    case End(text) => text
    case Part(text, hole, tail) => text + Value(hole, taskId, sourceId) + Rendered(tail, taskId, sourceId)
  }

  // ---------------------------------------------------------------- scanning

  /** `std::string_view::find`: the first `c` at or after `i`, or the length. */
  function FindFrom(s: string, c: char, i: nat): (r: nat)
    requires i <= |s|
    ensures i <= r <= |s|
    decreases |s| - i
  {
    if i == |s| || s[i] == c then i else FindFrom(s, c, i + 1)
  }

  /** What the scan meets from a position on. */
  datatype Step = Plain | Broken | Found(open: nat, hole: Hole, close: nat)

  function Next(nm: Names, raw: string, pos: nat): (r: Step)
    requires pos <= |raw|
    ensures r.Found? ==> pos <= r.open < r.close < |raw|
  {
    var open := FindFrom(raw, '{', pos);
    if open == |raw| then Plain else
    var close := FindFrom(raw, '}', open + 1);
    if close == |raw| then Broken else
    match HoleOf(nm, raw[open + 1..close])
    case None => Broken
    case Some(h) => Found(open, h, close)
  }

  /** The template from a position on; `None` is the thrown runtime_error. */
  function Parse(nm: Names, raw: string, pos: nat): Option<Template>
    requires pos <= |raw|
    decreases |raw| - pos
  {
    match Next(nm, raw, pos)
    case Plain => Some(End(raw[pos..]))
    case Broken => None
    case Found(open, hole, close) =>
      Continued(raw[pos..open], hole, Parse(nm, raw, close + 1))
  }

  predicate Supported(raw: string) { Parse(NAMES, raw, 0).Some? }

  function Interpolated(raw: string, taskId: string, sourceId: string): Option<string> {
    match Parse(NAMES, raw, 0) case Some(t) => Some(Rendered(t, taskId, sourceId)) case None => None
  }

  /** The scan with the text produced so far. */
  function ScanFrom(nm: Names, raw: string, pos: nat, out: string, taskId: string, sourceId: string): Option<string>
    requires pos <= |raw|
    decreases |raw| - pos
  {
    match Next(nm, raw, pos)
    case Plain => Some(out + raw[pos..])
    case Broken => None
    case Found(open, hole, close) =>
      ScanFrom(nm, raw, close + 1, out + raw[pos..open] + Value(hole, taskId, sourceId), taskId, sourceId)
  }

  lemma {:induction false} ScanRenders(nm: Names, raw: string, pos: nat, out: string, taskId: string, sourceId: string)
    requires pos <= |raw|
    ensures ScanFrom(nm, raw, pos, out, taskId, sourceId) == RenderedAfter(Parse(nm, raw, pos), out, taskId, sourceId)
    decreases |raw| - pos
  {
    match Next(nm, raw, pos)
    case Plain =>
    case Broken =>
    case Found(open, hole, close) =>
      var text := raw[pos..open];
      var tail := Parse(nm, raw, close + 1);
      ScanRenders(nm, raw, close + 1, out + text + Value(hole, taskId, sourceId), taskId, sourceId);
      assert Parse(nm, raw, pos) == Continued(text, hole, tail);
      RenderContinued(text, hole, tail, out, taskId, sourceId);
  }

  ghost function RenderedAfter(t: Option<Template>, out: string, taskId: string, sourceId: string): Option<string> {
    match t case Some(t) => Some(out + Rendered(t, taskId, sourceId)) case None => None
  }

  function Continued(text: string, hole: Hole, tail: Option<Template>): Option<Template> {
    match tail case Some(t) => Some(Part(text, hole, t)) case None => None
  }

  lemma RenderContinued(text: string, hole: Hole, tail: Option<Template>, out: string, taskId: string, sourceId: string)
    ensures RenderedAfter(Continued(text, hole, tail), out, taskId, sourceId) ==
      RenderedAfter(tail, out + text + Value(hole, taskId, sourceId), taskId, sourceId)
  {
    if tail.Some? {
      Regroup(out, text, Value(hole, taskId, sourceId), Rendered(tail.value, taskId, sourceId));
    }
  }

  /** The scanning loop. */
  method Interpolate(raw: string, taskId: string, sourceId: string) returns (r: Option<string>)
    ensures r == Interpolated(raw, taskId, sourceId)
  {
    ScanRenders(NAMES, raw, 0, "", taskId, sourceId);
    StartEmpty(raw, taskId, sourceId);
    r := Scan(NAMES, raw, taskId, sourceId);
  }

  lemma StartEmpty(raw: string, taskId: string, sourceId: string)
    ensures Supported(raw) ==>
      "" + Rendered(Parse(NAMES, raw, 0).value, taskId, sourceId)
      == Rendered(Parse(NAMES, raw, 0).value, taskId, sourceId)
  {
  }

  method Scan(nm: Names, raw: string, taskId: string, sourceId: string) returns (r: Option<string>)
    ensures r == ScanFrom(nm, raw, 0, "", taskId, sourceId)
  {
    var out := "";
    var pos := 0;
    while pos < |raw|
      invariant 0 <= pos <= |raw|
      invariant ScanFrom(nm, raw, 0, "", taskId, sourceId) == ScanFrom(nm, raw, pos, out, taskId, sourceId)
    {
      var open := FindFrom(raw, '{', pos);
      if open == |raw| {
        return Some(out + raw[pos..]);
      }
      var close := FindFrom(raw, '}', open + 1);
      if close == |raw| {
        return None;
      }
      var hole := HoleOf(nm, raw[open + 1..close]);
      if hole.None? {
        return None;
      }
      out := out + raw[pos..open] + Value(hole.value, taskId, sourceId);
      pos := close + 1;
    }
    assert out + raw[pos..] == out;
    r := Some(out);
  }

  lemma Regroup(a: string, b: string, c: string, d: string)
    ensures a + (b + c + d) == a + b + c + d
  {
  }

  // ---------------------------------------------------------------- exactly the templates

  lemma {:induction false} FindIs(s: string, c: char, i: nat, r: nat)
    requires i <= r <= |s| && (r < |s| ==> s[r] == c)
    requires forall k :: i <= k < r ==> s[k] != c
    ensures FindFrom(s, c, i) == r
    decreases r - i
  {
    if i < r {
      FindIs(s, c, i + 1, r);
    }
  }

  lemma {:induction false} FindSkips(s: string, c: char, i: nat)
    requires i <= |s|
    ensures c !in s[i..FindFrom(s, c, i)]
    ensures FindFrom(s, c, i) < |s| ==> s[FindFrom(s, c, i)] == c
    decreases |s| - i
  {
    var r := FindFrom(s, c, i);
    if i < r {
      FindSkips(s, c, i + 1);
      assert s[i..r] == [s[i]] + s[i + 1..r];
    }
  }

  lemma NamesUsable()
    ensures Usable(NAMES)
  {
    assert NAMES.task[0] == 't' && NAMES.source[0] == 's';
  }

  lemma HoleOfName(nm: Names, h: Hole)
    requires Usable(nm)
    ensures HoleOf(nm, Name(nm, h)) == Some(h) && '}' !in Name(nm, h)
  {
  }

  lemma NextOfBraced(nm: Names, raw: string, a: string, text: string, h: Hole, rest: string)
    requires Usable(nm) && '{' !in text && raw == a + Braced(text, Name(nm, h), rest)
    ensures var open := |a| + |text|; var close := open + 1 + |Name(nm, h)|;
      && Next(nm, raw, |a|) == Found(open, h, close)
      && raw[|a|..open] == text
  {
    var open := |a| + |text|;
    var close := open + 1 + |Name(nm, h)|;
    BracedParts(a, text, Name(nm, h), rest);
    HoleOfName(nm, h);
    FindWithin(raw, '{', |a|, open);
    FindWithin(raw, '}', open + 1, close);
  }

  lemma FindWithin(s: string, c: char, i: nat, r: nat)
    requires i <= r < |s| && s[r] == c && c !in s[i..r]
    ensures FindFrom(s, c, i) == r
  {
    forall k | i <= k < r ensures s[k] != c {
      assert s[k] == s[i..r][k - i];
    }
    FindIs(s, c, i, r);
  }

  lemma BracedParts(a: string, text: string, name: string, rest: string)
    ensures var raw, open := a + Braced(text, name, rest), |a| + |text|;
      var close := open + 1 + |name|;
      && |raw| == close + 1 + |rest| && raw[open] == '{' && raw[close] == '}'
      && raw[|a|..open] == text && raw[open + 1..close] == name && raw[close + 1..] == rest
  {
  }

  lemma ParseEnd(nm: Names, a: string, text: string)
    requires '{' !in text
    ensures Parse(nm, a + text, |a|) == Some(End(text))
  {
    var raw := a + text;
    forall k | |a| <= k < |raw| ensures raw[k] != '{' {
      assert raw[k] == text[k - |a|];
    }
    FindIs(raw, '{', |a|, |raw|);
    assert raw[|a|..] == text;
  }

  /** Every brace-free template, written out anywhere, is recovered from there. */
  lemma {:induction false} ParseWritten(nm: Names, a: string, t: Template)
    requires Usable(nm) && BraceFree(t)
    ensures Parse(nm, a + Written(nm, t), |a|) == Some(t)
    decreases t
  {
    match t
    case End(text) => ParseEnd(nm, a, text);
    case Part(text, hole, tail) =>
      var rest := Written(nm, tail);
      ParseWritten(nm, Front(a, text, Name(nm, hole)), tail);
      ParseAfterFront(nm, a, text, Name(nm, hole), rest, tail);
      var raw, open := a + Braced(text, Name(nm, hole), rest), |a| + |text|;
      NextOfBraced(nm, raw, a, text, hole, rest);
      ParseFound(nm, raw, |a|, open, hole, open + 1 + |Name(nm, hole)|, text, tail);
  }

  /** All up to and including the closing brace. */
  ghost function Front(a: string, text: string, token: string): string { a + (text + ("{" + token + "}")) }

  lemma Across(a: string, b: string, c: string, d: string)
    ensures a + (b + c) + d == a + (b + (c + d))
  {
  }

  lemma FrontThenRest(a: string, text: string, token: string, rest: string)
    ensures Front(a, text, token) + rest == a + Braced(text, token, rest)
    ensures |Front(a, text, token)| == |a| + |text| + |token| + 2
  {
    Across(a, text, "{" + token + "}", rest);
  }

  lemma ParseAfterFront(nm: Names, a: string, text: string, token: string, rest: string, tail: Template)
    requires Parse(nm, Front(a, text, token) + rest, |Front(a, text, token)|) == Some(tail)
    ensures |a| + |text| + |token| + 2 <= |a + Braced(text, token, rest)|
    ensures Parse(nm, a + Braced(text, token, rest), |a| + |text| + |token| + 2) == Some(tail)
  {
    FrontThenRest(a, text, token, rest);
  }

  lemma ParseFound(nm: Names, raw: string, pos: nat, open: nat, hole: Hole, close: nat, text: string, tail: Template)
    requires pos <= |raw| && Next(nm, raw, pos) == Found(open, hole, close)
    requires raw[pos..open] == text && Parse(nm, raw, close + 1) == Some(tail)
    ensures Parse(nm, raw, pos) == Some(Part(text, hole, tail))
  {
  }

  lemma Rejoin(raw: string, pos: nat, open: nat, close: nat)
    requires pos <= open < close < |raw| && raw[open] == '{' && raw[close] == '}'
    ensures raw[pos..] == Braced(raw[pos..open], raw[open + 1..close], raw[close + 1..])
  {
    var token, rest := raw[open + 1..close], raw[close + 1..];
    assert raw[close..] == "}" + rest;
    assert raw[open + 1..] == token + raw[close..];
    assert raw[open..] == "{" + raw[open + 1..];
    assert raw[pos..] == raw[pos..open] + raw[open..];
    Grouped("{", token, "}", rest);
  }

  lemma Grouped(a: string, b: string, c: string, d: string)
    ensures a + (b + (c + d)) == a + b + c + d
  {
  }

  /** Nothing else is accepted. */
  lemma {:induction false} ParsedIsWritten(nm: Names, raw: string, pos: nat)
    requires pos <= |raw| && Parse(nm, raw, pos).Some?
    ensures ReadFrom(nm, Parse(nm, raw, pos).value, raw[pos..])
    decreases |raw| - pos
  {
    match Next(nm, raw, pos)
    case Plain => PlainIsFree(nm, raw, pos);
    case Found(open, hole, close) =>
      ParsedIsWritten(nm, raw, close + 1);
      FoundIsWritten(nm, raw, pos, open, hole, close, Parse(nm, raw, close + 1).value);
  }

  ghost predicate ReadFrom(nm: Names, t: Template, text: string) {
    BraceFree(t) && Written(nm, t) == text
  }

  lemma FoundIsWritten(nm: Names, raw: string, pos: nat, open: nat, hole: Hole, close: nat, tail: Template)
    requires pos <= |raw| && Next(nm, raw, pos) == Found(open, hole, close)
    requires ReadFrom(nm, tail, raw[close + 1..])
    ensures ReadFrom(nm, Part(raw[pos..open], hole, tail), raw[pos..])
  {
    FoundIsBraced(nm, raw, pos);
    WrittenPart(nm, raw[pos..open], hole, tail, raw[close + 1..]);
    assert BraceFree(Part(raw[pos..open], hole, tail));
  }

  lemma WrittenPart(nm: Names, text: string, hole: Hole, tail: Template, rest: string)
    requires Written(nm, tail) == rest
    ensures Written(nm, Part(text, hole, tail)) == Braced(text, Name(nm, hole), rest)
  {
  }

  lemma PlainIsFree(nm: Names, raw: string, pos: nat)
    requires pos <= |raw| && Next(nm, raw, pos).Plain?
    ensures '{' !in raw[pos..]
  {
    FindSkips(raw, '{', pos);
  }

  lemma FoundIsBraced(nm: Names, raw: string, pos: nat)
    requires pos <= |raw| && Next(nm, raw, pos).Found?
    ensures var s := Next(nm, raw, pos);
      && '{' !in raw[pos..s.open]
      && raw[pos..] == Braced(raw[pos..s.open], Name(nm, s.hole), raw[s.close + 1..])
  {
    FindSkips(raw, '{', pos);
    var s := Next(nm, raw, pos);
    FindSkips(raw, '}', s.open + 1);
    assert Name(nm, s.hole) == raw[s.open + 1..s.close];
    Rejoin(raw, pos, s.open, s.close);
  }

  /** A URL is accepted exactly when it is some brace-free template written out, and
      then each hole carries the task's own value. */
  lemma InterpolationExact(raw: string, taskId: string, sourceId: string)
    ensures Interpolated(raw, taskId, sourceId).Some? <==> exists t :: BraceFree(t) && Written(NAMES, t) == raw
    ensures forall t :: BraceFree(t) && Written(NAMES, t) == raw ==>
      Interpolated(raw, taskId, sourceId) == Some(Rendered(t, taskId, sourceId))
  {
    NamesUsable();
    forall t | BraceFree(t) && Written(NAMES, t) == raw
      ensures Parse(NAMES, raw, 0) == Some(t)
    {
      ParseWritten(NAMES, "", t);
      assert "" + Written(NAMES, t) == raw;
    }
    if Supported(raw) {
      ParsedIsWritten(NAMES, raw, 0);
      assert raw[0..] == raw;
      var t := Parse(NAMES, raw, 0).value;
      assert BraceFree(t) && Written(NAMES, t) == raw;
    }
  }

  // ---------------------------------------------------------------- in plain text

  /** What comes before a text does not matter to its scan. */
  lemma SuffixParses(nm: Names, front: string, rest: string)
    requires Usable(nm)
    ensures Parse(nm, front + rest, |front|) == Parse(nm, rest, 0)
  {
    var raw := front + rest;
    assert raw[|front|..] == rest && rest[0..] == rest && "" + rest == rest;
    if Parse(nm, raw, |front|).Some? {
      ParsedIsWritten(nm, raw, |front|);
      ParseWritten(nm, "", Parse(nm, raw, |front|).value);
    } else if Parse(nm, rest, 0).Some? {
      ParsedIsWritten(nm, rest, 0);
      ParseWritten(nm, front, Parse(nm, rest, 0).value);
    }
  }

  lemma ParseGoesOn(nm: Names, raw: string, pos: nat, open: nat, hole: Hole, close: nat)
    requires pos <= |raw| && Next(nm, raw, pos) == Found(open, hole, close)
    ensures Parse(nm, raw, pos) == Continued(raw[pos..open], hole, Parse(nm, raw, close + 1))
  {
  }

  ghost function After(before: string, rest: Option<string>): Option<string> {
    match rest case Some(r) => Some(before + r) case None => None
  }

  /** The scan of `raw`, whose first placeholder ends just before `close + 1`. */
  lemma HoleParses(nm: Names, raw: string, a: string, h: Hole, close: nat, rest: string)
    requires Next(nm, raw, 0) == Found(|a|, h, close) && raw[0..|a|] == a
    requires Parse(nm, raw, close + 1) == Parse(nm, rest, 0)
    ensures Parse(nm, raw, 0) == Continued(a, h, Parse(nm, rest, 0))
  {
    ParseGoesOn(nm, raw, 0, |a|, h, close);
  }

  lemma HoleFront(nm: Names, a: string, h: Hole, rest: string)
    requires Usable(nm) && '{' !in a
    ensures var front := Front("", a, Name(nm, h));
      && front + rest == Braced(a, Name(nm, h), rest) && |front| > |a| && (front + rest)[0..|a|] == a
      && Next(nm, front + rest, 0) == Found(|a|, h, |front| - 1)
  {
    var raw, name := Braced(a, Name(nm, h), rest), Name(nm, h);
    assert "" + raw == raw;
    NextOfBraced(nm, raw, "", a, h, rest);
    FrontThenRest("", a, name, rest);
    assert raw[0..|a|] == a;
  }

  lemma HoleRenders(a: string, h: Hole, rest: string, taskId: string, sourceId: string)
    requires '{' !in a
    ensures Interpolated(Braced(a, Name(NAMES, h), rest), taskId, sourceId) ==
      After(a + Value(h, taskId, sourceId), Interpolated(rest, taskId, sourceId))
  {
    NamesUsable();
    HoleFront(NAMES, a, h, rest);
    var front := Front("", a, Name(NAMES, h));
    SuffixParses(NAMES, front, rest);
    HoleParses(NAMES, front + rest, a, h, |front| - 1, rest);
  }

  /** Text without an opening brace stays as it is. */
  lemma PlainText(a: string, taskId: string, sourceId: string)
    requires '{' !in a
    ensures Interpolated(a, taskId, sourceId) == Some(a)
  {
    ParseEnd(NAMES, "", a);
    assert "" + a == a;
  }

  /** `{task_id}` becomes the id of the task. */
  lemma PutsTaskId(a: string, rest: string, taskId: string, sourceId: string)
    requires '{' !in a
    ensures Interpolated(a + "{task_id}" + rest, taskId, sourceId) ==
      After(a + taskId, Interpolated(rest, taskId, sourceId))
  {
    HoleRenders(a, TaskId, rest, taskId, sourceId);
    assert Braced(a, "task_id", rest) == a + "{task_id}" + rest;
  }

  /** `{source_id}` becomes the id of its source. */
  lemma PutsSourceId(a: string, rest: string, taskId: string, sourceId: string)
    requires '{' !in a
    ensures Interpolated(a + "{source_id}" + rest, taskId, sourceId) ==
      After(a + sourceId, Interpolated(rest, taskId, sourceId))
  {
    HoleRenders(a, SourceId, rest, taskId, sourceId);
    assert Braced(a, "source_id", rest) == a + "{source_id}" + rest;
  }

  /** Any other name in braces throws. */
  lemma OtherNameThrows(a: string, name: string, rest: string, taskId: string, sourceId: string)
    requires '{' !in a && '}' !in name && name != "task_id" && name != "source_id"
    ensures Interpolated(a + ("{" + name + "}" + rest), taskId, sourceId) == None
  {
    var raw := "" + Braced(a, name, rest);
    BracedParts("", a, name, rest);
    FindWithin(raw, '{', 0, |a|);
    FindWithin(raw, '}', |a| + 1, |a| + 1 + |name|);
    assert raw == Braced(a, name, rest);
  }

  /** So does a brace that is not closed. */
  lemma UnclosedThrows(a: string, rest: string, taskId: string, sourceId: string)
    requires '{' !in a && '}' !in rest
    ensures Interpolated(a + ("{" + rest), taskId, sourceId) == None
  {
    var raw := a + ("{" + rest);
    assert raw[..|a|] == a && raw[|a|] == '{' && raw[|a| + 1..] == rest;
    FindWithin(raw, '{', 0, |a|);
    FindIs(raw, '}', |a| + 1, |raw|) by {
      forall k | |a| + 1 <= k < |raw| ensures raw[k] != '}' { assert raw[k] == rest[k - |a| - 1]; }
    }
  }
}
