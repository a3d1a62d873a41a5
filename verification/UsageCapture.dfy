// Finding the usage report in a response while it is copied to the client: lines are put together from
// chunks, and the first bytes are kept (usageCaptureReadCloser, internal/codexonly/usage_proxy.go).

module UsageCapture {
  import opened Wrappers
  import opened Bytes

  type Line = seq<Byte>

  const NEWLINE: Byte := 10
  const MAX_LINE_BYTES := 1048576

  /** "data:", "[DONE]" and "\"usage\"". */
  const DATA: Line := [0x64, 0x61, 0x74, 0x61, 0x3A]
  const DONE: Line := [0x5B, 0x44, 0x4F, 0x4E, 0x45, 0x5D]
  const USAGE: Line := [0x22, 0x75, 0x73, 0x61, 0x67, 0x65, 0x22]

  // ----- one line -----

  predicate Contains(line: Line, part: Line) {
    exists i :: 0 <= i <= |line| - |part| && PartAt(line, part, i)
  }

  predicate PartAt(line: Line, part: Line, i: nat)
    requires i + |part| <= |line|
  {
    forall k :: 0 <= k < |part| ==> line[i + k] == part[k]
  }

  /** The JSON in a line that may hold a usage report: an SSE data line, or a bare object or array. */
  function Candidate(line: Line): Option<Line> {
    var text := TrimSpace(line);
    var json := if DATA <= text then TrimSpace(text[|DATA|..]) else text;
    if |text| == 0 || (!(DATA <= text) && text[0] != 0x7B && text[0] != 0x5B) then None
    else if json == DONE || !Contains(json, USAGE) then None
    else Some(json)
  }

  /** What a line reports; extractUsageCounters is `extract`. Lines over the limit are not looked at. */
  function Reported<Counters>(line: Line, extract: Line -> Option<Counters>): Option<Counters> {
    if |line| > MAX_LINE_BYTES || Candidate(line).None? then None else extract(Candidate(line).value)
  }

  function Reports<Counters>(extract: Line -> Option<Counters>): Line -> Option<Counters> {
    line => Reported(line, extract)
  }

  function Latest<Counters>(before: Option<Counters>, line: Line, report: Line -> Option<Counters>): Option<Counters> {
    if report(line).Some? then report(line) else before
  }

  // ----- lines as upstream writes them -----

  predicate IsBlanks(s: Line) {
    forall i :: 0 <= i < |s| ==> s[i] == 0x20 || s[i] == 0x09
  }

  predicate IsAscii(s: Line) {
    forall i :: 0 <= i < |s| ==> s[i] < 0x80
  }

  /** Text without white space at its ends. */
  predicate IsTrimmed(s: Line) {
    |s| > 0 && TrimFront(s) == s && TrimBack(s) == s
  }

  lemma {:induction false} FrontBlanksGo(blanks: Line, s: Line)
    requires IsBlanks(blanks)
    ensures TrimFront(blanks + s) == TrimFront(s)
  {
    if |blanks| == 0 {
      assert blanks + s == s;
    } else {
      assert (blanks + s)[1..] == blanks[1..] + s;
      FrontBlanksGo(blanks[1..], s);
    }
  }

  lemma {:induction false} BackBlanksGo(s: Line, blanks: Line)
    requires IsBlanks(blanks)
    ensures TrimBack(s + blanks) == TrimBack(s)
  {
    var n := |blanks|;
    if n == 0 {
      assert s + blanks == s;
    } else {
      var all := s + blanks;
      assert all[..|all| - 1] == s + blanks[..n - 1];
      BackBlanksGo(s, blanks[..n - 1]);
    }
  }

  /** ASCII text in front cannot complete the encoding of a space at the back. */
  lemma FrontKeepsBack(front: Line, s: Line)
    requires IsAscii(front) && IsTrimmed(s)
    ensures TrimBack(front + s) == front + s
  {
    var all := front + s;
    assert forall i :: |front| <= i < |all| ==> all[i] == s[i - |front|];
    assert forall i :: 0 <= i < |front| ==> all[i] == front[i] < 0x80;
  }

  /** The JSON holds the field name "usage", quotes included. */
  predicate MentionsUsage(json: Line) {
    exists i :: 0 <= i <= |json| - 7 && MentionAt(json, i)
  }

  predicate MentionAt(json: Line, i: nat)
    requires i + 7 <= |json|
  {
    json[i..i + 7] == [0x22, 0x75, 0x73, 0x61, 0x67, 0x65, 0x22]
  }

  lemma MentionIsFound(json: Line)
    ensures MentionsUsage(json) <==> Contains(json, USAGE)
  {
    if MentionsUsage(json) {
      var i :| 0 <= i <= |json| - 7 && MentionAt(json, i);
      assert PartAt(json, USAGE, i);
    }
    if Contains(json, USAGE) {
      var i :| 0 <= i <= |json| - |USAGE| && PartAt(json, USAGE, i);
      assert MentionAt(json, i);
    }
  }

  /** "data:" and "[DONE]" as they are sent. */
  function DataPrefix(): Line {
    [0x64, 0x61, 0x74, 0x61, 0x3A]
  }

  function DoneMark(): Line {
    [0x5B, 0x44, 0x4F, 0x4E, 0x45, 0x5D]
  }

  lemma DataIsTrimmed(before: Line, between: Line, json: Line, after: Line)
    requires IsBlanks(before) && IsBlanks(between) && IsBlanks(after) && IsTrimmed(json)
    ensures TrimSpace(before + (DataPrefix() + between + json + after)) == DataPrefix() + between + json
    ensures TrimSpace(between + json) == json
  {
    var text := DataPrefix() + between + json;
    assert text + after == DataPrefix() + between + json + after;
    FrontBlanksGo(before, text + after);
    assert TrimFront(text + after) == text + after by {
      assert (text + after)[0] == 0x64;
    }
    BackBlanksGo(text, after);
    FrontKeepsBack(DataPrefix() + between, json);
    FrontBlanksGo(between, json);
  }

  /**
   * A data line reports what is extracted from its JSON, if that mentions usage, with any blanks around
   * it; the mark that ends a stream reports nothing.
   */
  lemma DataLineReports<Counters>(
    before: Line, between: Line, json: Line, after: Line, extract: Line -> Option<Counters>)
    requires IsBlanks(before) && IsBlanks(between) && IsBlanks(after) && IsTrimmed(json)
    requires |before + (DataPrefix() + between + json + after)| <= MAX_LINE_BYTES
    ensures Reported(before + (DataPrefix() + between + json + after), extract) ==
      if MentionsUsage(json) && json != DoneMark() then extract(json) else None
  {
    var text := DataPrefix() + between + json;
    DataIsTrimmed(before, between, json, after);
    assert text[..5] == DataPrefix() && DATA <= text && text[|DATA|..] == between + json;
    MentionIsFound(json);
  }

  /** A bare object or array reports as well; a line that is neither, nor data, does not. */
  lemma BareLineReports<Counters>(before: Line, json: Line, after: Line, extract: Line -> Option<Counters>)
    requires IsBlanks(before) && IsBlanks(after) && IsTrimmed(json) && !(DataPrefix() <= json)
    requires |before + (json + after)| <= MAX_LINE_BYTES
    ensures Reported(before + (json + after), extract) ==
      if (json[0] == 0x7B || json[0] == 0x5B) && MentionsUsage(json) && json != DoneMark() then extract(json) else None
  {
    FrontBlanksGo(before, json + after);
    TrimmedFrontStays(json, after);
    BackBlanksGo(json, after);
    MentionIsFound(json);
  }

  lemma TrimmedFrontStays(s: Line, blanks: Line)
    requires IsTrimmed(s) && IsBlanks(blanks)
    ensures TrimFront(s + blanks) == s + blanks
  {
    var all := s + blanks;
    assert forall i :: 0 <= i < |s| ==> all[i] == s[i];
  }

  /** A line of more than a mebibyte reports nothing, whatever is in it. */
  lemma LongLineReportsNothing<Counters>(line: Line, extract: Line -> Option<Counters>)
    requires |line| > 1024 * 1024
    ensures Reported(line, extract).None?
  {
  }

  // ----- the whole payload -----

  /** Lines with a newline between each two of them. */
  function Join(lines: seq<Line>): seq<Byte>
    requires |lines| > 0
    decreases |lines|
  {
    var n := |lines| - 1;
    if n == 0 then lines[0] else Join(lines[..n]) + [NEWLINE] + lines[n]
  }

  /** `lines` are the newline-separated lines of `s`; the last one has no newline. */
  ghost predicate AreLines(lines: seq<Line>, s: seq<Byte>) {
    |lines| > 0 && Join(lines) == s && forall i :: 0 <= i < |lines| ==> NEWLINE !in lines[i]
  }

  /** The last report in a list of lines: a left fold. */
  function LastReport<Counters>(lines: seq<Line>, report: Line -> Option<Counters>): Option<Counters> {
    if |lines| == 0 then None
    else Latest(LastReport(lines[..|lines| - 1], report), lines[|lines| - 1], report)
  }

  /** `found` is what the last line that reports anything reports. */
  ghost predicate IsLastReport<Counters(!new)>(
    found: Option<Counters>, lines: seq<Line>, report: Line -> Option<Counters>)
  {
    if found.None? then NoneFrom(lines, 0, report)
    else exists i :: 0 <= i < |lines| && IsReport(found, lines, i, report) && NoneFrom(lines, i + 1, report)
  }

  predicate IsReport<Counters(==)>(
    found: Option<Counters>, lines: seq<Line>, i: nat, report: Line -> Option<Counters>)
    requires i < |lines|
  {
    report(lines[i]) == found
  }

  ghost predicate NoneFrom<Counters>(lines: seq<Line>, from: nat, report: Line -> Option<Counters>) {
    forall j :: from <= j < |lines| ==> IsReport(None, lines, j, report)
  }

  lemma NoneFromGrows<Counters>(lines: seq<Line>, from: nat, report: Line -> Option<Counters>)
    requires |lines| > 0 && from < |lines| && NoneFrom(lines[..|lines| - 1], from, report)
    requires IsReport(None, lines, |lines| - 1, report)
    ensures NoneFrom(lines, from, report)
  {
    forall j | from <= j < |lines|
      ensures IsReport(None, lines, j, report)
    {
      assert j < |lines| - 1 ==> IsReport(None, lines[..|lines| - 1], j, report);
    }
  }

  /** Later reports replace earlier ones. */
  lemma {:induction false} LastReportIsLast<Counters(!new)>(lines: seq<Line>, report: Line -> Option<Counters>)
    ensures IsLastReport(LastReport(lines, report), lines, report)
  {
    if |lines| > 0 {
      var n := |lines| - 1;
      var init := lines[..n];
      var before := LastReport(init, report);
      LastReportIsLast(init, report);
      if report(lines[n]).Some? {
        assert IsReport(report(lines[n]), lines, n, report) && NoneFrom(lines, n + 1, report);
      } else if before.None? {
        NoneFromGrows(lines, 0, report);
      } else {
        var i :| 0 <= i < n && IsReport(before, init, i, report) && NoneFrom(init, i + 1, report);
        assert IsReport(before, lines, i, report);
        NoneFromGrows(lines, i + 1, report);
      }
    }
  }

  // ----- the payload as it grows -----

  /** The line that is not finished yet. */
  function Partial(s: seq<Byte>): Line {
    if |s| == 0 then s
    else if s[|s| - 1] == NEWLINE then []
    else Partial(s[..|s| - 1]) + [s[|s| - 1]]
  }

  /** The last report in the finished lines. */
  function Found<Counters>(s: seq<Byte>, report: Line -> Option<Counters>): Option<Counters> {
    if |s| == 0 then None
    else
      var n := |s| - 1;
      if s[n] == NEWLINE then Latest(Found(s[..n], report), Partial(s[..n]), report)
      else Found(s[..n], report)
  }

  lemma {:induction false} PartialAppend(s: seq<Byte>, part: seq<Byte>)
    requires NEWLINE !in part
    ensures Partial(s + part) == Partial(s) + part
    decreases |part|
  {
    if |part| == 0 {
      assert s + part == s && Partial(s) + part == Partial(s);
    } else {
      var n := |part| - 1;
      assert (s + part)[..|s + part| - 1] == s + part[..n];
      PartialAppend(s, part[..n]);
      assert Partial(s) + part == (Partial(s) + part[..n]) + [part[n]];
    }
  }

  lemma {:induction false} FoundAppend<Counters>(s: seq<Byte>, part: seq<Byte>, report: Line -> Option<Counters>)
    requires NEWLINE !in part
    ensures Found(s + part, report) == Found(s, report)
    decreases |part|
  {
    if |part| == 0 {
      assert s + part == s;
    } else {
      var n := |part| - 1;
      assert (s + part)[..|s + part| - 1] == s + part[..n];
      FoundAppend(s, part[..n], report);
    }
  }

  lemma NewlineEndsLine<Counters>(s: seq<Byte>, report: Line -> Option<Counters>)
    ensures Found(s + [NEWLINE], report) == Latest(Found(s, report), Partial(s), report)
    ensures |Partial(s + [NEWLINE])| == 0
  {
    assert (s + [NEWLINE])[..|s|] == s;
  }

  /** Every payload has lines. */
  lemma {:induction false} LinesExist(s: seq<Byte>) returns (lines: seq<Line>)
    ensures AreLines(lines, s)
    decreases |s|
  {
    if |s| == 0 {
      lines := [s];
    } else {
      var n := |s| - 1;
      var before := LinesExist(s[..n]);
      if s[n] == NEWLINE {
        lines := before + [[]];
        assert lines[..|before|] == before;
        assert Join(lines) == s[..n] + [NEWLINE] + [];
      } else {
        var last := |before| - 1;
        lines := before[..last] + [before[last] + [s[n]]];
        assert lines[..last] == before[..last];
        assert Join(lines) == s[..n] + [s[n]];
      }
    }
  }

  /** Reading byte by byte finds what the fold over the lines finds. */
  lemma {:induction false} LinesAreFound<Counters>(lines: seq<Line>, s: seq<Byte>, report: Line -> Option<Counters>)
    requires AreLines(lines, s)
    ensures Partial(s) == lines[|lines| - 1]
    ensures Found(s, report) == LastReport(lines[..|lines| - 1], report)
    decreases |lines|
  {
    var n := |lines| - 1;
    var last := lines[n];
    var start := s[..0];
    if n == 0 {
      assert s == start + last;
    } else {
      var before := Join(lines[..n]);
      LinesAreFound(lines[..n], before, report);
      NewlineEndsLine(before, report);
      start := before + [NEWLINE];
      assert lines[..n][..n - 1] == lines[..n - 1] && lines[..n][n - 1] == lines[n - 1];
    }
    PartialAppend(start, last);
    FoundAppend(start, last, report);
    assert Partial(start) + last == last;
  }

  /** The last report in a payload that has come to its end. */
  function Heard<Counters>(s: seq<Byte>, report: Line -> Option<Counters>): Option<Counters> {
    Latest(Found(s, report), Partial(s), report)
  }

  lemma LinesAreHeard<Counters>(lines: seq<Line>, s: seq<Byte>, report: Line -> Option<Counters>)
    requires AreLines(lines, s)
    ensures Heard(s, report) == LastReport(lines, report)
  {
    LinesAreFound(lines, s, report);
  }

  // ----- the capture -----

  /** The first bytes of a payload that are kept. */
  function Kept(s: seq<Byte>, limit: int): seq<Byte> {
    if limit <= 0 then s[..0] else if |s| <= limit then s else s[..limit]
  }

  /** The payload is longer than what is kept of it. */
  predicate IsCut(s: seq<Byte>, limit: int) {
    |s| > (if limit > 0 then limit else 0)
  }

  datatype Report<Counters> = Report(payload: seq<Byte>, truncated: bool, usage: Option<Counters>)

  method IndexByte(chunk: seq<Byte>, b: Byte) returns (at: Option<nat>)
    ensures match at
      case None => b !in chunk
      case Some(i) => i < |chunk| && chunk[i] == b && b !in chunk[..i]
  {
    for i := 0 to |chunk|
      invariant b !in chunk[..i]
    {
      if chunk[i] == b {
        return Some(i);
      }
      assert chunk[..i + 1] == chunk[..i] + [chunk[i]];
    }
    assert chunk[..|chunk|] == chunk;
    return None;
  }

  class UsageCaptureReader<Counters(0)> {
    const limit: int
    const extract: Line -> Option<Counters>
    var buf: seq<Byte>
    var truncated: bool
    var lineBuf: Line
    var lineSkip: bool
    var counters: Counters
    var hasUsage: bool
    var reported: Option<Report<Counters>>

    constructor (limit: int, extract: Line -> Option<Counters>)
      ensures this.limit == limit && this.extract == extract
      ensures Captured([]) && reported.None?
    {
      this.limit, this.extract := limit, extract;
      buf, truncated, lineBuf, lineSkip, hasUsage, reported := [], false, [], false, false, None;
      counters := *;
    }

    ghost predicate HasLine(partial: Line)
      reads this
    {
      lineSkip == (|partial| > MAX_LINE_BYTES) && (if lineSkip then |lineBuf| == 0 else lineBuf == partial)
    }

    ghost predicate HasFound(found: Option<Counters>)
      reads this
    {
      hasUsage == found.Some? && (hasUsage ==> counters == found.value)
    }

    /** The payload so far is `s`. */
    ghost predicate Captured(s: seq<Byte>)
      reads this
    {
      && buf == Kept(s, limit) && truncated == IsCut(s, limit)
      && HasLine(Partial(s)) && HasFound(Found(s, Reports(extract)))
    }

    method Capture(chunk: seq<Byte>, ghost s: seq<Byte>)
      requires Captured(s)
      modifies this`buf, this`truncated, this`lineBuf, this`lineSkip, this`counters, this`hasUsage
      ensures Captured(s + chunk)
    {
      if |chunk| == 0 {
        assert s + chunk == s;
        return;
      }
      CaptureUsageLines(chunk, s);
      KeepFront(chunk, s);
    }

    method KeepFront(chunk: seq<Byte>, ghost s: seq<Byte>)
      requires buf == Kept(s, limit) && truncated == IsCut(s, limit) && |chunk| > 0
      modifies this`buf, this`truncated
      ensures buf == Kept(s + chunk, limit) && truncated == IsCut(s + chunk, limit)
    {
      if limit <= 0 || |buf| >= limit {
        assert limit > 0 ==> (s + chunk)[..limit] == s[..limit];
        truncated := true;
        return;
      }
      var remaining := limit - |buf|;
      if |chunk| > remaining {
        assert (s + chunk)[..limit] == s + chunk[..remaining];
        buf := buf + chunk[..remaining];
        truncated := true;
        return;
      }
      buf := buf + chunk;
    }

    method CaptureUsageLines(chunk: seq<Byte>, ghost s: seq<Byte>)
      requires HasLine(Partial(s)) && HasFound(Found(s, Reports(extract)))
      modifies this`lineBuf, this`lineSkip, this`counters, this`hasUsage
      ensures HasLine(Partial(s + chunk)) && HasFound(Found(s + chunk, Reports(extract)))
    {
      var rest := chunk;
      ghost var seen := s;
      while |rest| > 0
        invariant seen + rest == s + chunk
        invariant HasLine(Partial(seen)) && HasFound(Found(seen, Reports(extract)))
        decreases |rest|
      {
        var newline := IndexByte(rest, NEWLINE);
        if newline.None? {
          CapturePart(rest, seen);
          return;
        }
        var part := rest[..newline.value];
        CapturePart(part, seen);
        NewlineEndsLine(seen + part, Reports(extract));
        FlushUsageLine(Partial(seen + part), Found(seen + part, Reports(extract)));
        seen := seen + part + [NEWLINE];
        rest := rest[newline.value + 1..];
        assert seen + rest == s + chunk;
      }
      assert seen == s + chunk;
    }

    /** A part of a chunk up to its next newline, or to its end. */
    method CapturePart(part: Line, ghost seen: seq<Byte>)
      requires HasLine(Partial(seen)) && HasFound(Found(seen, Reports(extract))) && NEWLINE !in part
      modifies this`lineBuf, this`lineSkip
      ensures HasLine(Partial(seen + part)) && HasFound(Found(seen + part, Reports(extract)))
    {
      PartialAppend(seen, part);
      FoundAppend(seen, part, Reports(extract));
      AppendUsageLine(part, Partial(seen));
    }

    method AppendUsageLine(part: Line, ghost partial: Line)
      requires HasLine(partial)
      modifies this`lineBuf, this`lineSkip
      ensures HasLine(partial + part)
    {
      if lineSkip {
        return;
      }
      if |lineBuf| + |part| > MAX_LINE_BYTES {
        lineBuf, lineSkip := [], true;
        return;
      }
      lineBuf := lineBuf + part;
    }

    method FlushUsageLine(ghost partial: Line, ghost found: Option<Counters>)
      requires HasLine(partial) && HasFound(found)
      modifies this`lineBuf, this`lineSkip, this`counters, this`hasUsage
      ensures HasLine([]) && HasFound(Latest(found, partial, Reports(extract)))
    {
      if lineSkip {
        lineBuf, lineSkip := [], false;
        return;
      }
      var line := TrimSpace(lineBuf);
      lineBuf := [];
      if |line| == 0 {
        return;
      }
      if DATA <= line {
        line := TrimSpace(line[|DATA|..]);
      } else if line[0] != 0x7B && line[0] != 0x5B {
        return;
      }
      if line == DONE {
        return;
      }
      if !Contains(line, USAGE) {
        return;
      }
      var usage := extract(line);
      if usage.Some? {
        counters, hasUsage := usage.value, true;
      }
    }

    /** At EOF or when the client closes the body, whichever comes first; later calls do nothing. */
    method FinishOnce(ghost s: seq<Byte>)
      requires reported.None? ==> Captured(s)
      modifies this
      ensures old(reported).Some? ==> reported == old(reported)
      ensures old(reported).None? ==>
        reported == Some(Report(Kept(s, limit), IsCut(s, limit), Heard(s, Reports(extract))))
    {
      if reported.Some? {
        return;
      }
      FlushUsageLine(Partial(s), Found(s, Reports(extract)));
      reported := Some(Report(buf, truncated, if hasUsage then Some(counters) else None));
    }
  }

  /**
   * However a payload comes in chunks, and whichever way it is cut into its lines: the report has its
   * first bytes, says whether there were more, and has what the fold over all lines finds.
   */
  method CaptureChunks<Counters(0)>(chunks: seq<seq<Byte>>, limit: int, extract: Line -> Option<Counters>)
    returns (report: Report<Counters>)
    ensures report.payload == Kept(Joined(chunks), limit) && report.truncated == IsCut(Joined(chunks), limit)
    ensures report.payload <= Joined(chunks) && (report.truncated <==> |report.payload| < |Joined(chunks)|)
    ensures report.truncated ==> |report.payload| == if limit > 0 then limit else 0
    ensures !report.truncated && limit > 0 ==> |report.payload| <= limit
    ensures forall lines :: AreLines(lines, Joined(chunks)) ==> report.usage == LastReport(lines, Reports(extract))
  {
    var capture := new UsageCaptureReader(limit, extract);
    for i := 0 to |chunks|
      invariant capture.Captured(Joined(chunks[..i])) && capture.reported.None?
      invariant capture.limit == limit && capture.extract == extract && fresh(capture)
    {
      assert chunks[..i + 1][..i] == chunks[..i];
      capture.Capture(chunks[i], Joined(chunks[..i]));
    }
    assert chunks[..|chunks|] == chunks;
    ghost var s := Joined(chunks);
    capture.FinishOnce(s);
    report := capture.reported.value;
    forall lines | AreLines(lines, s)
      ensures report.usage == LastReport(lines, Reports(extract))
    {
      LinesAreHeard(lines, s, Reports(extract));
    }
  }
}
