/**
 `JsonlTranscriptSource` (`transcript_source.py`): an incremental reader of an append-only file
 of JSON lines. Decoding, JSON and the agent adapter together are one function `parse` from a
 raw line to an optional record.
 */
module Transcripts {
  import opened Options

  newtype byte = x: int | 0 <= x < 256

  type Bytes = seq<byte>

  type Path = string

  const NL: byte := 10

  /** What `bytes.strip` removes. */
  predicate IsSpace(b: byte) { b == 32 || 9 <= b <= 13 }

  predicate Blank(line: Bytes) { forall b | b in line :: IsSpace(b) }

  // ---- the reference: parsing a whole file once

  /** `split(b"\n")`. */
  function Lines(s: Bytes): seq<Bytes>
    decreases |s|
  {
    var i := FirstNewline(s);
    if i == |s| then [s] else [s[..i]] + Lines(s[i + 1..])
  }

  function FirstNewline(s: Bytes): (i: nat)
    ensures i <= |s| && NL !in s[..i] && (i < |s| ==> s[i] == NL)
  {
    if |s| == 0 || s[0] == NL then 0
    else
      var i := 1 + FirstNewline(s[1..]);
      assert s[..i] == [s[0]] + s[1..][..i - 1];
      i
  }

  /** The records of some lines: blank lines and lines without a record are skipped. */
  function Collect<R>(parse: Bytes -> Option<R>, lines: seq<Bytes>): seq<R> {
    if |lines| == 0 then []
    else
      var front := Collect(parse, lines[..|lines| - 1]);
      var raw := lines[|lines| - 1];
      if Blank(raw) || parse(raw).None? then front else front + [parse(raw).value]
  }

  function RecordsOf<R>(parse: Bytes -> Option<R>, s: Bytes): seq<R> { Collect(parse, Lines(s)) }

  /** The length of the part of `s` up to and including its last newline. */
  function CompleteLength(s: Bytes): (n: nat)
    ensures n <= |s| && (n > 0 ==> s[n - 1] == NL) && forall k | n <= k < |s| :: s[k] != NL
  {
    if |s| == 0 then 0 else if s[|s| - 1] == NL then |s| else CompleteLength(s[..|s| - 1])
  }

  predicate LineBoundary(s: Bytes) { s == [] || s[|s| - 1] == NL }

  lemma {:induction false} FirstNewlineIs(s: Bytes, i: nat)
    requires i <= |s| && NL !in s[..i] && (i < |s| ==> s[i] == NL)
    ensures FirstNewline(s) == i
  {
    var j := FirstNewline(s);
    assert forall k | 0 <= k < i :: s[k] == s[..i][k];
    assert forall k | 0 <= k < j :: s[k] == s[..j][k];
  }

  lemma LinesFirst(s: Bytes, i: nat)
    requires i < |s| && NL !in s[..i] && s[i] == NL
    ensures Lines(s) == [s[..i]] + Lines(s[i + 1..])
  {
    FirstNewlineIs(s, i);
  }

  /** A newline separates the lines before it from the lines after it. */
  lemma {:induction false} LinesAtNewline(a: Bytes, b: Bytes)
    ensures Lines(a + [NL] + b) == Lines(a) + Lines(b)
    decreases |a|
  {
    var i := FirstNewline(a);
    if i == |a| {
      assert a[..i] == a;
      OneLineFirst(a, b);
      OnlyLine(a);
    } else {
      var line, rest := a[..i], a[i + 1..];
      assert a == line + [NL] + rest;
      assert a + [NL] + b == line + [NL] + (rest + [NL] + b);
      OneLineFirst(line, rest);
      OneLineFirst(line, rest + [NL] + b);
      LinesAtNewline(rest, b);
      Associates([line], Lines(rest), Lines(b));
    }
  }

  lemma OneLineFirst(line: Bytes, rest: Bytes)
    requires NL !in line
    ensures Lines(line + [NL] + rest) == [line] + Lines(rest)
  {
    var s := line + [NL] + rest;
    assert s[..|line|] == line && s[|line| + 1..] == rest;
    LinesFirst(s, |line|);
  }

  lemma OnlyLine(line: Bytes)
    requires NL !in line
    ensures Lines(line) == [line]
  {
    assert line[..|line|] == line;
    FirstNewlineIs(line, |line|);
  }

  lemma Associates<T>(a: seq<T>, b: seq<T>, c: seq<T>)
    ensures a + (b + c) == a + b + c
  {
  }

  lemma {:induction false} CollectAppend<R>(parse: Bytes -> Option<R>, a: seq<Bytes>, b: seq<Bytes>)
    ensures Collect(parse, a + b) == Collect(parse, a) + Collect(parse, b)
  {
    if |b| == 0 {
      assert a + b == a;
    } else {
      var n := |b| - 1;
      assert (a + b)[..|a + b| - 1] == a + b[..n];
      CollectAppend(parse, a, b[..n]);
    }
  }

  lemma EmptyRecords<R>(parse: Bytes -> Option<R>)
    ensures RecordsOf(parse, []) == []
  {
    assert Lines([]) == [[]];
    assert Collect(parse, [[]][..0]) == [];
  }

  /** Cutting a file at a line boundary cuts its records there: none lost, none twice, in order. */
  lemma RecordsAtBoundary<R>(parse: Bytes -> Option<R>, a: Bytes, b: Bytes)
    requires LineBoundary(a)
    ensures RecordsOf(parse, a + b) == RecordsOf(parse, a) + RecordsOf(parse, b)
  {
    EmptyRecords(parse);
    if a == [] {
      assert a + b == b;
    } else {
      var c := a[..|a| - 1];
      assert a == c + [NL] + [] && a + b == c + [NL] + b;
      LinesAtNewline(c, []);
      LinesAtNewline(c, b);
      CollectAppend(parse, Lines(c), Lines([]));
      CollectAppend(parse, Lines(c), Lines(b));
    }
  }

  // ---- the reader

  /** What the path provider did this time. */
  datatype Provided = Raised | Gave(path: Option<Path>)

  datatype Cursor = Cursor(path: Option<Path>, offset: nat)

  /** `_resolve_path`: a new path starts from its beginning. */
  function Resolve(c: Cursor, provided: Provided): Cursor {
    if provided.Gave? && provided.path.Some? && provided.path != c.path then Cursor(provided.path, 0) else c
  }

  function Rest(c: Cursor, files: map<Path, Bytes>): Bytes
    requires c.path.Some? && c.path.value in files
  {
    var content := files[c.path.value];
    if c.offset <= |content| then content[c.offset..] else []
  }

  /** The complete lines that a poll consumes; nothing when there is no file or no adapter. */
  function Complete(c: Cursor, files: map<Path, Bytes>, adapter: bool): Bytes {
    if c.path.None? || !adapter || c.path.value !in files then []
    else var rest := Rest(c, files); rest[..CompleteLength(rest)]
  }

  class JsonlTranscriptSource<R> {
    var cursor: Cursor
    const adapter: bool
    const parse: Bytes -> Option<R>

    constructor (adapter: bool, parse: Bytes -> Option<R>)
      ensures cursor == Cursor(None, 0) && this.adapter == adapter && this.parse == parse
    {
      cursor, this.adapter, this.parse := Cursor(None, 0), adapter, parse;
    }

    /** `seek_to_end`: a file that cannot be measured leaves the offset at zero. */
    method SeekToEnd(provided: Provided, files: map<Path, Bytes>)
      modifies this
      ensures var c := Resolve(old(cursor), provided);
              cursor == if c.path.None? then c
                        else Cursor(c.path, if c.path.value in files then |files[c.path.value]| else 0)
    {
      cursor := Resolve(cursor, provided);
      if cursor.path.Some? {
        cursor := Cursor(cursor.path, if cursor.path.value in files then |files[cursor.path.value]| else 0);
      }
    }

    /** `poll_once`: returns the records of exactly the complete lines after the cursor, and
        moves the cursor past them. */
    method PollOnce(provided: Provided, files: map<Path, Bytes>) returns (records: seq<R>)
      modifies this
      ensures var c := Resolve(old(cursor), provided);
              && records == RecordsOf(parse, Complete(c, files, adapter))
              && cursor == Cursor(c.path, c.offset + |Complete(c, files, adapter)|)
    {
      cursor := Resolve(cursor, provided);
      records := [];
      EmptyRecords(parse);
      if cursor.path.None? || !adapter || cursor.path.value !in files {
        return;
      }
      var chunk := Rest(cursor, files);
      var n := CompleteLength(chunk);
      if n == 0 {
        return;
      }
      var complete := chunk[..n];
      cursor := Cursor(cursor.path, cursor.offset + |complete|);
      var lines := Lines(complete);
      for k := 0 to |lines|
        invariant records == Collect(parse, lines[..k])
      {
        var raw := lines[k];
        assert lines[..k + 1][..k] == lines[..k];
        if !Blank(raw) {
          var r := parse(raw);
          if r.Some? {
            records := records + [r.value];
          }
        }
      }
      assert lines[..|lines|] == lines;
    }
  }

  /** A path that is new is read from its beginning, wherever the old one was left; the same path goes on
      where it was, and so it does when the provider raises or has none. */
  lemma NewPathFromStart(c: Cursor, provided: Provided, files: map<Path, Bytes>)
    ensures provided.Gave? && provided.path.Some? && provided.path != c.path && provided.path.value in files ==>
            var content := files[provided.path.value];
            Complete(Resolve(c, provided), files, true) == content[..CompleteLength(content)]
    ensures provided.Raised? || provided.path.None? || provided.path == c.path ==> Resolve(c, provided) == c
  {
    if provided.Gave? && provided.path.Some? && provided.path != c.path && provided.path.value in files {
      var content := files[provided.path.value];
      assert content[0..] == content;
    }
  }

  // ---- whole runs on one append-only file

  /** The writer appends some bytes, cut anywhere, or the reader polls. */
  datatype Event = Append(bytes: Bytes) | Poll(provided: Provided)

  datatype Run<R> = Run(cursor: Cursor, content: Bytes, records: seq<R>)

  predicate SameFile(e: Event, path: Path) {
    e.Append? || e.provided.Raised? || e.provided.path.None? || e.provided.path == Some(path)
  }

  /** One event, on the file at `path`. */
  function Step<R>(parse: Bytes -> Option<R>, path: Path, r: Run<R>, e: Event): Run<R> {
    match e
    case Append(bytes) => r.(content := r.content + bytes)
    case Poll(provided) =>
      var c := Resolve(r.cursor, provided);
      var complete := Complete(c, map[path := r.content], true);
      Run(Cursor(c.path, c.offset + |complete|), r.content, r.records + RecordsOf(parse, complete))
  }

  function Steps<R>(parse: Bytes -> Option<R>, path: Path, r: Run<R>, es: seq<Event>): Run<R> {
    if |es| == 0 then r else Step(parse, path, Steps(parse, path, r, es[..|es| - 1]), es[|es| - 1])
  }

  function Appended(es: seq<Event>): Bytes {
    if |es| == 0 then []
    else Appended(es[..|es| - 1]) + (if es[|es| - 1].Append? then es[|es| - 1].bytes else [])
  }

  /** Reading started at `start`; so far exactly the bytes up to the cursor have been parsed. */
  ghost predicate ReadUpTo<R>(parse: Bytes -> Option<R>, path: Path, r: Run<R>, start: nat) {
    && r.cursor.path == Some(path) && start <= r.cursor.offset <= |r.content|
    && LineBoundary(r.content[start..r.cursor.offset])
    && r.records == RecordsOf(parse, r.content[start..r.cursor.offset])
  }

  /** A poll takes up the complete lines after the offset and leaves no newline behind them. */
  lemma PollAdvances(content: Bytes, start: nat, offset: nat)
    requires start <= offset <= |content|
    ensures var n := CompleteLength(content[offset..]);
            && content[start..offset + n] == content[start..offset] + content[offset..][..n]
            && CompleteLength(content[offset + n..]) == 0
  {
    var n := CompleteLength(content[offset..]);
    var rest, left := content[offset..], content[offset + n..];
    assert forall k | 0 <= k < |left| :: left[k] == rest[n + k];
  }

  /** What a poll does to a run on its own file. */
  function Polled<R>(parse: Bytes -> Option<R>, path: Path, r: Run<R>): Run<R>
    requires r.cursor.offset <= |r.content|
  {
    var rest := r.content[r.cursor.offset..];
    var n := CompleteLength(rest);
    Run(Cursor(Some(path), r.cursor.offset + n), r.content, r.records + RecordsOf(parse, rest[..n]))
  }

  lemma PollStep<R>(parse: Bytes -> Option<R>, path: Path, r: Run<R>, e: Event)
    requires e.Poll? && SameFile(e, path) && r.cursor.path == Some(path) && r.cursor.offset <= |r.content|
    ensures Step(parse, path, r, e) == Polled(parse, path, r)
  {
  }

  lemma StepKeepsReadUpTo<R>(parse: Bytes -> Option<R>, path: Path, r: Run<R>, e: Event, start: nat)
    requires ReadUpTo(parse, path, r, start) && SameFile(e, path)
    ensures ReadUpTo(parse, path, Step(parse, path, r, e), start)
    ensures e.Poll? ==> CompleteLength(r.content[Step(parse, path, r, e).cursor.offset..]) == 0
  {
    if e.Append? {
      AppendKeeps(parse, path, r, e.bytes, start);
    } else {
      PollStep(parse, path, r, e);
      PolledKeeps(parse, path, r, start);
    }
  }

  lemma AppendKeeps<R>(parse: Bytes -> Option<R>, path: Path, r: Run<R>, bytes: Bytes, start: nat)
    requires ReadUpTo(parse, path, r, start)
    ensures ReadUpTo(parse, path, r.(content := r.content + bytes), start)
  {
    assert (r.content + bytes)[start..r.cursor.offset] == r.content[start..r.cursor.offset];
  }

  lemma PolledKeeps<R>(parse: Bytes -> Option<R>, path: Path, r: Run<R>, start: nat)
    requires ReadUpTo(parse, path, r, start)
    ensures ReadUpTo(parse, path, Polled(parse, path, r), start)
    ensures CompleteLength(r.content[Polled(parse, path, r).cursor.offset..]) == 0
  {
    PollKeeps(parse, r.content, start, r.cursor.offset);
  }

  lemma PollKeeps<R>(parse: Bytes -> Option<R>, content: Bytes, start: nat, offset: nat)
    requires start <= offset <= |content| && LineBoundary(content[start..offset])
    ensures var rest := content[offset..]; var n := CompleteLength(rest);
            && LineBoundary(content[start..offset + n]) && CompleteLength(content[offset + n..]) == 0
            && RecordsOf(parse, content[start..offset + n]) ==
               RecordsOf(parse, content[start..offset]) + RecordsOf(parse, rest[..n])
  {
    PollAdvances(content, start, offset);
    RecordsAtBoundary(parse, content[start..offset], content[offset..][..CompleteLength(content[offset..])]);
  }

  /** Whatever the interleaving and wherever the writer was cut, the concatenation of everything
      polled is the parse, done once, of the bytes between start and cursor; and after a poll no
      complete line is left behind the cursor. */
  lemma {:induction false} PolledIsParsedOnce<R>(parse: Bytes -> Option<R>, path: Path, r: Run<R>, es: seq<Event>,
                                                 start: nat)
    requires ReadUpTo(parse, path, r, start) && forall e | e in es :: SameFile(e, path)
    ensures ReadUpTo(parse, path, Steps(parse, path, r, es), start)
    ensures Steps(parse, path, r, es).content == r.content + Appended(es)
    ensures |es| > 0 && es[|es| - 1].Poll? ==>
              var q := Steps(parse, path, r, es); CompleteLength(q.content[q.cursor.offset..]) == 0
  {
    if |es| == 0 {
      assert r.content + [] == r.content;
    } else {
      var n := |es| - 1;
      var q := Steps(parse, path, r, es[..n]);
      PolledIsParsedOnce(parse, path, r, es[..n], start);
      assert es[n] in es;
      StepKeepsReadUpTo(parse, path, q, es[n], start);
      StepContent(parse, path, q, es[n], r.content, Appended(es[..n]));
    }
  }

  lemma StepContent<R>(parse: Bytes -> Option<R>, path: Path, q: Run<R>, e: Event, a: Bytes, b: Bytes)
    requires q.content == a + b
    ensures Step(parse, path, q, e).content == a + (b + if e.Append? then e.bytes else [])
  {
  }

  lemma CompleteLengthSplit(s: Bytes, n: nat)
    requires n <= |s| && LineBoundary(s[..n]) && CompleteLength(s[n..]) == 0
    ensures CompleteLength(s) == n
  {
    assert forall k | 0 <= k < |s| - n :: s[n..][k] == s[n + k];
    assert n > 0 ==> s[..n][n - 1] == s[n - 1];
  }

  /** A run that ends with a poll has delivered exactly the complete lines written since start,
      whatever the cuts and however often it polled. */
  lemma PolledIndependentOfCuts<R>(parse: Bytes -> Option<R>, path: Path, r: Run<R>, es: seq<Event>, start: nat)
    requires ReadUpTo(parse, path, r, start) && forall e | e in es :: SameFile(e, path)
    requires |es| > 0 && es[|es| - 1].Poll?
    ensures var all := (r.content + Appended(es))[start..];
            Steps(parse, path, r, es).records == RecordsOf(parse, all[..CompleteLength(all)])
  {
    PolledIsParsedOnce(parse, path, r, es, start);
    var q := Steps(parse, path, r, es);
    var all := (r.content + Appended(es))[start..];
    var n := q.cursor.offset - start;
    assert all[..n] == q.content[start..q.cursor.offset] && all[n..] == q.content[q.cursor.offset..];
    CompleteLengthSplit(all, n);
  }

  // ---- seek_to_end

  /** After `seek_to_end` the reader is at the end of the file and has polled nothing. */
  function Sought<R>(path: Path, content: Bytes): Run<R> { Run(Cursor(Some(path), |content|), content, []) }

  /** Seeking at a line boundary: history and what is polled afterwards make up the whole file. */
  lemma SeekAtBoundary<R>(parse: Bytes -> Option<R>, path: Path, content: Bytes, es: seq<Event>)
    requires LineBoundary(content) && forall e | e in es :: SameFile(e, path)
    requires |es| > 0 && es[|es| - 1].Poll?
    ensures var whole := content + Appended(es);
            RecordsOf(parse, whole[..CompleteLength(whole)]) ==
            RecordsOf(parse, content) + Steps(parse, path, Sought(path, content), es).records
  {
    var r := Sought<R>(path, content);
    EmptyRecords(parse);
    assert content[|content|..|content|] == [];
    PolledIndependentOfCuts(parse, path, r, es, |content|);
    var tail := Appended(es);
    var n := CompleteLength(tail);
    assert (content + tail)[|content|..] == tail;
    CompleteAfterBoundary(content, tail);
    RecordsAtBoundary(parse, content, tail[..n]);
  }

  lemma CompleteAfterBoundary(content: Bytes, tail: Bytes)
    requires LineBoundary(content)
    ensures var whole := content + tail; whole[..CompleteLength(whole)] == content + tail[..CompleteLength(tail)]
  {
    JoinComplete(content, tail, CompleteLength(tail));
    TakeFromJoin(content, tail, CompleteLength(tail));
  }

  predicate LastNewlineAt(s: Bytes, n: nat) {
    n <= |s| && (n > 0 ==> s[n - 1] == NL) && forall k | n <= k < |s| :: s[k] != NL
  }

  lemma JoinComplete(content: Bytes, tail: Bytes, n: nat)
    requires LineBoundary(content) && LastNewlineAt(tail, n)
    ensures CompleteLength(content + tail) == |content| + n
  {
    var whole := content + tail;
    assert forall k | |content| <= k < |whole| :: whole[k] == tail[k - |content|];
    CompleteLengthIs(whole, |content| + n);
  }

  lemma TakeFromJoin(a: Bytes, b: Bytes, n: nat)
    requires n <= |b|
    ensures (a + b)[..|a| + n] == a + b[..n]
  {
  }

  lemma CompleteLengthIs(s: Bytes, n: nat)
    requires LastNewlineAt(s, n)
    ensures CompleteLength(s) == n
  {
  }

  /** The whole file, read as history up to the last complete line and then from the seek point. */
  ghost predicate SeekLosesNothing(parse: Bytes -> Option<Bytes>, h: Bytes, u: Bytes, v: Bytes, rest: Bytes) {
    RecordsOf(parse, h + (u + v + [NL]) + rest) == RecordsOf(parse, h) + RecordsOf(parse, v + [NL] + rest)
  }

  /** Sought after the part `u` of a line that turns out to be `u + v`: history and what the run
      polls make up all complete lines of the file. */
  ghost predicate RunLosesNothing(parse: Bytes -> Option<Bytes>, path: Path, h: Bytes, u: Bytes, es: seq<Event>) {
    var whole := h + u + Appended(es);
    RecordsOf(parse, whole[..CompleteLength(whole)])
    == RecordsOf(parse, h) + Steps(parse, path, Sought(path, h + u), es).records
  }

  /** For every parser nothing is lost or mangled if and only if the seek point is the start of a
      line, or the line it is in is blank. */
  lemma SeekSafeIff(path: Path, h: Bytes, u: Bytes, v: Bytes, rest: Bytes, es: seq<Event>)
    requires LineBoundary(h) && NL !in u && NL !in v && Appended(es) == v + [NL] + rest
    requires |es| > 0 && es[|es| - 1].Poll? && forall e | e in es :: SameFile(e, path)
    ensures (forall parse: Bytes -> Option<Bytes> :: RunLosesNothing(parse, path, h, u, es)) <==>
            u == [] || Blank(u + v)
  {
    var done := rest[..CompleteLength(rest)];
    forall parse: Bytes -> Option<Bytes>
      ensures RunLosesNothing(parse, path, h, u, es) <==> SeekLosesNothing(parse, h, u, v, done)
    {
      RunIsSeek(parse, path, h, u, v, rest, es);
    }
    LinesSafeIff(h, u, v, done);
    if !(u == [] || Blank(u + v)) {
      var parse: Bytes -> Option<Bytes> :| !SeekLosesNothing(parse, h, u, v, done);
      assert !RunLosesNothing(parse, path, h, u, es);
    }
  }

  lemma RunIsSeek(parse: Bytes -> Option<Bytes>, path: Path, h: Bytes, u: Bytes, v: Bytes, rest: Bytes, es: seq<Event>)
    requires LineBoundary(h) && NL !in u && NL !in v && Appended(es) == v + [NL] + rest
    requires |es| > 0 && es[|es| - 1].Poll? && forall e | e in es :: SameFile(e, path)
    ensures RunLosesNothing(parse, path, h, u, es) <==> SeekLosesNothing(parse, h, u, v, rest[..CompleteLength(rest)])
  {
    SoughtRecords(parse, path, h + u, v, rest, es);
    WholeComplete(h, u, v, rest);
    assert h + u + Appended(es) == h + u + (v + [NL] + rest);
  }

  lemma SoughtRecords(parse: Bytes -> Option<Bytes>, path: Path, content: Bytes, v: Bytes, rest: Bytes, es: seq<Event>)
    requires NL !in v && Appended(es) == v + [NL] + rest
    requires |es| > 0 && es[|es| - 1].Poll? && forall e | e in es :: SameFile(e, path)
    ensures Steps(parse, path, Sought(path, content), es).records
         == RecordsOf(parse, v + [NL] + rest[..CompleteLength(rest)])
  {
    EmptyRecords(parse);
    assert content[|content|..|content|] == [];
    PolledIndependentOfCuts(parse, path, Sought(path, content), es, |content|);
    DropJoined(content, Appended(es));
    CompleteAfterBoundary(v + [NL], rest);
  }

  lemma DropJoined(a: Bytes, b: Bytes)
    ensures (a + b)[|a|..] == b
  {
  }

  lemma WholeComplete(h: Bytes, u: Bytes, v: Bytes, rest: Bytes)
    ensures var whole := h + u + (v + [NL] + rest);
            whole[..CompleteLength(whole)] == h + (u + v + [NL]) + rest[..CompleteLength(rest)]
  {
    CompleteAfterBoundary(h + (u + v + [NL]), rest);
    assert h + u + (v + [NL] + rest) == h + (u + v + [NL]) + rest;
  }

  lemma LinesSafeIff(h: Bytes, u: Bytes, v: Bytes, rest: Bytes)
    requires LineBoundary(h) && NL !in u && NL !in v
    ensures (forall parse: Bytes -> Option<Bytes> :: SeekLosesNothing(parse, h, u, v, rest)) <==>
            u == [] || Blank(u + v)
  {
    forall parse: Bytes -> Option<Bytes>
      ensures SeekLosesNothing(parse, h, u, v, rest) <==> OneLine(parse, u + v) == OneLine(parse, v)
    {
      CutLine(parse, h, u, v, rest);
    }
    if u == [] {
      assert u + v == v;
    } else if Blank(u + v) {
      assert forall b | b in v :: b in u + v;
    } else {
      var raw: Bytes -> Option<Bytes> := (line: Bytes) => Some(line);
      assert OneLine(raw, u + v) == [u + v];
      assert |u + v| != |v|;
      assert !SeekLosesNothing(raw, h, u, v, rest);
    }
  }

  function OneLine<R>(parse: Bytes -> Option<R>, line: Bytes): seq<R> {
    if Blank(line) || parse(line).None? then [] else [parse(line).value]
  }

  lemma OneLineRecords<R>(parse: Bytes -> Option<R>, line: Bytes)
    requires NL !in line
    ensures RecordsOf(parse, line + [NL]) == OneLine(parse, line)
  {
    assert line + [NL] == line + [NL] + [];
    LinesAtNewline(line, []);
    FirstNewlineIs(line, |line|);
    assert line[..|line|] == line;
    assert Lines(line) == [line] && Lines([]) == [[]];
    CollectAppend(parse, [line], [[]]);
    var none: seq<Bytes> := [[]];
    assert [line][..0] == [] && none[..0] == [];
  }

  lemma CutLine<R>(parse: Bytes -> Option<R>, h: Bytes, u: Bytes, v: Bytes, rest: Bytes)
    requires LineBoundary(h) && NL !in u && NL !in v
    ensures RecordsOf(parse, h + (u + v + [NL]) + rest) == RecordsOf(parse, h) + RecordsOf(parse, v + [NL] + rest)
            <==> OneLine(parse, u + v) == OneLine(parse, v)
  {
    OneLineRecords(parse, u + v);
    OneLineRecords(parse, v);
    assert h + (u + v + [NL]) + rest == h + ((u + v + [NL]) + rest);
    RecordsAtBoundary(parse, h, (u + v + [NL]) + rest);
    RecordsAtBoundary(parse, u + v + [NL], rest);
    RecordsAtBoundary(parse, v + [NL], rest);
    CancelEnds(RecordsOf(parse, h), OneLine(parse, u + v), OneLine(parse, v), RecordsOf(parse, rest));
  }

  lemma CancelEnds<R>(a: seq<R>, x: seq<R>, y: seq<R>, b: seq<R>)
    ensures a + (x + b) == a + (y + b) <==> x == y
  {
    if a + (x + b) == a + (y + b) {
      assert |x| == |y|;
      forall i | 0 <= i < |x| ensures x[i] == y[i] {
        assert (a + (x + b))[|a| + i] == x[i] && (a + (y + b))[|a| + i] == y[i];
      }
    }
  }
}
