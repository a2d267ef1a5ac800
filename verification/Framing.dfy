/** Cuts a byte stream into server-sent events (a subset of section 9.2 of the WHATWG HTML Standard). */
module Framing {
  import opened Basics

  function FindSubslice(haystack: string, needle: string): Option<nat> {
    if |haystack| < |needle| then None
    else if haystack[..|needle|] == needle then Some(0)
    else if haystack == "" then None
    else match FindSubslice(haystack[1..], needle) case Some(i) => Some(i + 1) case None => None
  }

  predicate OccursAt(haystack: string, needle: string, i: nat) {
    i + |needle| <= |haystack| && forall t :: 0 <= t < |needle| ==> haystack[i + t] == needle[t]
  }

  lemma {:induction false} FindsFirstOccurrence(haystack: string, needle: string)
    requires needle != ""
    ensures match FindSubslice(haystack, needle)
            case Some(i) => OccursAt(haystack, needle, i) && forall j: nat :: j < i ==> !OccursAt(haystack, needle, j)
            case None => forall j: nat :: !OccursAt(haystack, needle, j)
  {
    if |haystack| >= |needle| && haystack[..|needle|] != needle {
      var rest := haystack[1..];
      FindsFirstOccurrence(rest, needle);
      forall j: nat | j > 0 ensures OccursAt(haystack, needle, j) <==> OccursAt(rest, needle, j - 1) {
        OccursInTail(haystack, needle, j);
      }
      assert !OccursAt(haystack, needle, 0);
    }
  }

  lemma OccursInTail(haystack: string, needle: string, j: nat)
    requires 0 < j && haystack != ""
    ensures OccursAt(haystack, needle, j) <==> OccursAt(haystack[1..], needle, j - 1)
  {
    var tail := haystack[1..];
    assert forall i :: 0 <= i < |tail| ==> tail[i] == haystack[i + 1];
  }

  function NextEventEnd(bytes: string): Option<nat> {
    match (FindSubslice(bytes, "\n\n"), FindSubslice(bytes, "\r\n\r\n"))
    case (Some(lf), Some(crlf)) => Some(if lf + 2 <= crlf + 4 then lf + 2 else crlf + 4)
    case (Some(lf), None) => Some(lf + 2)
    case (None, Some(crlf)) => Some(crlf + 4)
    case (None, None) => None
  }

  /** The first `k` bytes end in one of the two separators. */
  ghost predicate EndsEvent(bytes: string, k: nat) {
    || (2 <= k <= |bytes| && bytes[k - 2] == '\n' && bytes[k - 1] == '\n')
    || (4 <= k <= |bytes| && bytes[k - 4] == '\r' && bytes[k - 3] == '\n'
        && bytes[k - 2] == '\r' && bytes[k - 1] == '\n')
  }

  lemma SeparatorsByByte(bytes: string, j: nat)
    ensures EndsEvent(bytes, j) <==>
            (j >= 2 && OccursAt(bytes, "\n\n", j - 2)) || (j >= 4 && OccursAt(bytes, "\r\n\r\n", j - 4))
  {
    var lf, crlf := "\n\n", "\r\n\r\n";
    if 2 <= j <= |bytes| {
      assert OccursAt(bytes, lf, j - 2) <==> bytes[j - 2 + 0] == lf[0] && bytes[j - 2 + 1] == lf[1];
    }
    if 4 <= j <= |bytes| {
      assert OccursAt(bytes, crlf, j - 4) <==>
             bytes[j - 4 + 0] == crlf[0] && bytes[j - 4 + 1] == crlf[1]
             && bytes[j - 4 + 2] == crlf[2] && bytes[j - 4 + 3] == crlf[3];
    }
  }

  /** The first end of either separator, if there is one. */
  lemma NextEventEndIsFirst(bytes: string)
    ensures match NextEventEnd(bytes)
            case Some(k) => EndsEvent(bytes, k) && forall j: nat :: j < k ==> !EndsEvent(bytes, j)
            case None => forall j: nat :: !EndsEvent(bytes, j)
  {
    hide FindSubslice, OccursAt;
    FindsFirstOccurrence(bytes, "\n\n");
    FindsFirstOccurrence(bytes, "\r\n\r\n");
    forall j: nat
      ensures EndsEvent(bytes, j) <==>
              (j >= 2 && OccursAt(bytes, "\n\n", j - 2)) || (j >= 4 && OccursAt(bytes, "\r\n\r\n", j - 4))
    {
      SeparatorsByByte(bytes, j);
    }
  }

  /** The boundary is the least prefix that ends in a separator. */
  lemma NextEventEndIsLeast(bytes: string, k: nat)
    ensures NextEventEnd(bytes) == Some(k) <==> EndsEvent(bytes, k) && forall j: nat :: j < k ==> !EndsEvent(bytes, j)
    ensures NextEventEnd(bytes) == None <==> forall j: nat :: !EndsEvent(bytes, j)
  {
    hide NextEventEnd;
    NextEventEndIsFirst(bytes);
  }

  /** A boundary once found never moves when more bytes arrive, and none appears inside a prefix without one. */
  lemma NextEventEndIsStable(bytes: string, more: string)
    ensures NextEventEnd(bytes).Some? ==> NextEventEnd(bytes + more) == NextEventEnd(bytes)
    ensures NextEventEnd(bytes).None? && NextEventEnd(bytes + more).Some? ==>
              NextEventEnd(bytes + more).value > |bytes|
  {
    forall j: nat | j <= |bytes| ensures EndsEvent(bytes + more, j) <==> EndsEvent(bytes, j) {}
    hide NextEventEnd;
    if NextEventEnd(bytes).Some? {
      var k := NextEventEnd(bytes).value;
      NextEventEndIsLeast(bytes, k);
      NextEventEndIsLeast(bytes + more, k);
    } else if NextEventEnd(bytes + more).Some? {
      var k := NextEventEnd(bytes + more).value;
      NextEventEndIsLeast(bytes, k);
      NextEventEndIsLeast(bytes + more, k);
    }
  }

  lemma BoundaryInRange(bytes: string)
    ensures NextEventEnd(bytes).Some? ==> 2 <= NextEventEnd(bytes).value <= |bytes|
  {
    hide NextEventEnd;
    if NextEventEnd(bytes).Some? {
      NextEventEndIsLeast(bytes, NextEventEnd(bytes).value);
    }
  }

  /** One complete event: its only boundary is its end. */
  ghost predicate IsEvent(bytes: string) {
    NextEventEnd(bytes) == Some(|bytes|)
  }

  lemma FirstEvent(bytes: string)
    requires NextEventEnd(bytes).Some?
    ensures 2 <= NextEventEnd(bytes).value <= |bytes|
    ensures IsEvent(bytes[..NextEventEnd(bytes).value])
  {
    hide NextEventEnd;
    var k := NextEventEnd(bytes).value;
    NextEventEndIsLeast(bytes, k);
    var event := bytes[..k];
    forall j: nat | j <= k ensures EndsEvent(event, j) <==> EndsEvent(bytes, j) {}
    NextEventEndIsLeast(event, k);
  }

  function Concat(parts: seq<string>): string {
    if parts == [] then "" else parts[0] + Concat(parts[1..])
  }

  lemma {:induction false} ConcatSplits(a: seq<string>, b: seq<string>)
    ensures Concat(a + b) == Concat(a) + Concat(b)
  {
    if a == [] {
      assert a + b == b;
    } else {
      var all := a + b;
      assert all[0] == a[0] && all[1..] == a[1..] + b;
      ConcatSplits(a[1..], b);
      Regroup(a[0], Concat(a[1..]), Concat(b));
    }
  }

  /** The whole-input reading of a byte string: its complete events and the unfinished rest. */
  ghost function Cut(bytes: string): (seq<string>, string)
    decreases |bytes|
  {
    match NextEventEnd(bytes)
    case None => ([], bytes)
    case Some(k) =>
      BoundaryInRange(bytes);
      var (events, rest) := Cut(bytes[k..]);
      ([bytes[..k]] + events, rest)
  }

  lemma Regroup(a: string, b: string, c: string)
    ensures (a + b) + c == a + (b + c)
  {}

  lemma CutUnfolds(bytes: string, k: nat)
    requires NextEventEnd(bytes) == Some(k)
    ensures 2 <= k <= |bytes|
    ensures Cut(bytes) == ([bytes[..k]] + Cut(bytes[k..]).0, Cut(bytes[k..]).1)
    ensures Concat(Cut(bytes).0) == bytes[..k] + Concat(Cut(bytes[k..]).0)
  {
    hide NextEventEnd;
    BoundaryInRange(bytes);
    var events := Cut(bytes[k..]).0;
    assert ([bytes[..k]] + events)[1..] == events;
  }

  /** Cutting loses nothing and stops only when no boundary is left. */
  lemma {:induction false} CutIsLossless(bytes: string)
    ensures Concat(Cut(bytes).0) + Cut(bytes).1 == bytes
    ensures NextEventEnd(Cut(bytes).1) == None
    decreases |bytes|
  {
    hide NextEventEnd;
    if NextEventEnd(bytes).Some? {
      var k := NextEventEnd(bytes).value;
      CutUnfolds(bytes, k);
      CutIsLossless(bytes[k..]);
      Regroup(bytes[..k], Concat(Cut(bytes[k..]).0), Cut(bytes[k..]).1);
    }
  }

  lemma {:induction false} CutYieldsEvents(bytes: string)
    ensures forall i :: 0 <= i < |Cut(bytes).0| ==> IsEvent(Cut(bytes).0[i])
    decreases |bytes|
  {
    hide NextEventEnd;
    if NextEventEnd(bytes).Some? {
      var k := NextEventEnd(bytes).value;
      CutUnfolds(bytes, k);
      FirstEvent(bytes);
      CutYieldsEvents(bytes[k..]);
    }
  }

  /** There is only one way to cut: any list of events followed by a rest without a boundary is cut back into itself. */
  lemma {:induction false} CutIsUnique(events: seq<string>, rest: string)
    requires forall i :: 0 <= i < |events| ==> IsEvent(events[i])
    requires NextEventEnd(rest) == None
    ensures Cut(Concat(events) + rest) == (events, rest)
  {
    hide NextEventEnd;
    if events == [] {
      assert Concat(events) + rest == rest;
    } else {
      var first, tail := events[0], Concat(events[1..]) + rest;
      var bytes := first + tail;
      assert Concat(events) + rest == bytes;
      assert IsEvent(first);
      NextEventEndIsStable(first, tail);
      CutUnfolds(bytes, |first|);
      assert bytes[..|first|] == first && bytes[|first|..] == tail;
      CutIsUnique(events[1..], rest);
      assert [first] + events[1..] == events;
    }
  }

  predicate EndsWith(s: string, suffix: string) {
    |s| >= |suffix| && s[|s| - |suffix|..] == suffix
  }

  function SplitSeparator(event: string): (string, string)
    requires |event| >= 2
  {
    var width := if EndsWith(event, "\r\n\r\n") then 4 else 2;
    (event[..|event| - width], event[|event| - width..])
  }

  /** The `data:` prefix with its optional space, and the data; None unless the body is exactly one data line. */
  function SingleDataLine(body: string): Option<(string, string)> {
    if '\n' in body || '\r' in body then None
    else if !("data:" <= body) then None
    else if "data: " <= body then Some((body[..6], body[6..]))
    else Some((body[..5], body[5..]))
  }

  predicate IsDataPrefix(prefix: string) {
    prefix == "data:" || prefix == "data: "
  }

  predicate IsSeparator(text: string) {
    text == "\n\n" || text == "\r\n\r\n"
  }

  /** Splitting an event loses nothing, and the separator is one of the two recognized ones. */
  lemma SplitRecombines(event: string)
    requires IsEvent(event)
    ensures |event| >= 2
    ensures SplitSeparator(event).0 + SplitSeparator(event).1 == event
    ensures IsSeparator(SplitSeparator(event).1)
  {
    hide NextEventEnd;
    NextEventEndIsLeast(event, |event|);
    SeparatorsByByte(event, |event|);
    assert |event| >= 4 && OccursAt(event, "\r\n\r\n", |event| - 4) ==> EndsWith(event, "\r\n\r\n");
    assert OccursAt(event, "\n\n", |event| - 2) ==> EndsWith(event, "\n\n");
  }

  /** A data line is its prefix and its data; a space stays in the data only after another one. */
  lemma DataLineRecombines(body: string)
    ensures SingleDataLine(body).Some? <==> "data:" <= body && '\n' !in body && '\r' !in body
    ensures SingleDataLine(body).Some? ==>
              var (prefix, data) := SingleDataLine(body).value;
              && prefix + data == body
              && IsDataPrefix(prefix)
              && (prefix == "data:" ==> data == "" || data[0] != ' ')
  {
    assert "data:" <= body && |body| > 5 && body[5] == ' ' ==> "data: " <= body;
  }

  /** Some data line: what follows the prefix carries no line break. */
  lemma PrefixedDataIsOneLine(prefix: string, data: string)
    requires IsDataPrefix(prefix) && '\n' !in data && '\r' !in data
    requires prefix == "data:" ==> data == "" || data[0] != ' '
    ensures SingleDataLine(prefix + data) == Some((prefix, data))
  {
    var body := prefix + data;
    assert body[..|prefix|] == prefix && body[|prefix|..] == data;
  }

  /** A one-line frame followed by a separator is exactly one event. */
  lemma OneLineFrameIsEvent(line: string, separator: string)
    requires '\n' !in line && '\r' !in line && IsSeparator(separator)
    ensures IsEvent(line + separator)
    ensures SplitSeparator(line + separator) == (line, separator)
  {
    hide NextEventEnd;
    var event := line + separator;
    assert event[|line|..] == separator && event[..|line|] == line;
    forall i | 0 <= i < |line| ensures event[i] != '\n' && event[i] != '\r' {
      assert event[i] in line;
    }
    NextEventEndIsLeast(event, |event|);
    assert EndsWith(event, "\r\n\r\n") ==> event[|event| - 2] == event[|event| - 4..][2];
  }
}
