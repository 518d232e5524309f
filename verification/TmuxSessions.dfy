/**
 `TmuxAgentSession` (`tmux_session.py`): the turn protocol over a tmux pane and a completion
 probe. The outside is a world of numbered frames: what a capture, a liveness check, the probe,
 a submission and the clock would give at that moment. A session consumes frames in order, one
 per poll. A text is the sequence of its lines. Runs are observed up to a horizon, since a turn
 without a time limit may wait for ever.
 */
module TmuxSessions {
  import opened Options

  type Text = seq<string>

  /** How a finished turn is graded by the probe. */
  datatype Grade = Fine | Refused | Failed

  datatype Verdict = Verdict(done: bool, text: Option<Text>, marker: Option<string>, grade: Grade)

  /** One moment of the outside: a missing capture is one that failed, a missing reading a probe
      that raised or had nothing to say, and `submits` whether feeding the prompt would work. */
  datatype Frame = Frame(visible: Option<Text>, scrollback: Option<Text>, alive: bool,
                         reading: Option<Verdict>, submits: bool, now: real)

  type World = nat -> Frame

  datatype Driver = Driver(ready: Text -> bool, hasProbe: bool, done: Text -> bool, needsInput: Option<Text -> bool>,
                           readAnswer: Option<(Text, Text) -> Text>, extract: Text -> Text)

  // ---- polling

  /** The predicates polled, in order: "ok" first. */
  datatype Watch = Watch(ok: (Text, Option<Verdict>) -> bool, needs: Option<Text -> bool>)

  datatype End = Hit(ok: bool) | Expired | Vanished | Pending

  function Or(pane: Option<Text>): Text { if pane.Some? then pane.value else [] }

  /** The last pane captured before frame `to`, starting with `last` at frame `from`. */
  function LastPane(w: World, last: Option<Text>, from: nat, to: nat): Option<Text>
    requires from <= to
  {
    if to == from then last
    else if w(to - 1).visible.Some? then w(to - 1).visible
    else LastPane(w, last, from, to - 1)
  }

  lemma FirstPane(w: World, last: Option<Text>, from: nat)
    ensures LastPane(w, last, from, from + 1) == if w(from).visible.Some? then w(from).visible else last
    ensures PaneAt(w, last, from, from) == Or(LastPane(w, last, from, from + 1))
  {
    assert LastPane(w, last, from, from) == last;
  }

  /** The capture failed and the liveness check after it failed too. */
  predicate Gone(f: Frame) { f.visible.None? && !f.alive }

  /** The pane a poll looks at: the capture, or the last good one when the capture failed. */
  function PaneAt(w: World, last: Option<Text>, from: nat, t: nat): Text
    requires from <= t
  {
    Or(LastPane(w, last, from, t + 1))
  }

  predicate NeedsAt(watch: Watch, pane: Text) { watch.needs.Some? && watch.needs.value(pane) }

  predicate Matches(watch: Watch, pane: Text, f: Frame) { watch.ok(pane, f.reading) || NeedsAt(watch, pane) }

  predicate Past(deadline: Option<real>, now: real) { deadline.Some? && now >= deadline.value }

  /** Polling goes on after this frame. */
  predicate Quiet(watch: Watch, w: World, deadline: Option<real>, last: Option<Text>, from: nat, t: nat)
    requires from <= t
  {
    !Gone(w(t)) && !Matches(watch, PaneAt(w, last, from, t), w(t)) && !Past(deadline, w(t).now)
  }

  /** The wait that started at `from` ends this way at frame `to`: every frame before was quiet. */
  ghost predicate EndsAt(watch: Watch, w: World, deadline: Option<real>, last: Option<Text>, from: nat, to: nat,
                         end: End) {
    && from <= to
    && (forall t | from <= t < to :: Quiet(watch, w, deadline, last, from, t))
    && var pane := PaneAt(w, last, from, to);
       match end
       case Vanished => Gone(w(to))
       case Hit(ok) => !Gone(w(to)) && Matches(watch, pane, w(to)) && ok == watch.ok(pane, w(to).reading)
       case Expired => !Gone(w(to)) && !Matches(watch, pane, w(to)) && Past(deadline, w(to).now)
       case Pending => true
  }

  /** How a wait ends is decided by the frames alone: one place, one way. */
  lemma EndUnique(watch: Watch, w: World, deadline: Option<real>, last: Option<Text>, from: nat,
                  to: nat, end: End, to': nat, end': End)
    requires EndsAt(watch, w, deadline, last, from, to, end) && EndsAt(watch, w, deadline, last, from, to', end')
    requires !end.Pending? && !end'.Pending?
    ensures to == to' && end == end'
  {
    var here, there := Quiet(watch, w, deadline, last, from, to), Quiet(watch, w, deadline, last, from, to');
  }

  function Deadline(timeout: Option<real>, clock: real): Option<real> {
    if timeout.None? || timeout.value <= 0.0 then None else Some(clock + timeout.value)
  }

  /** Each sleep advances the clock by at least `step`, starting from `clock`. */
  ghost predicate Ticks(w: World, clock: real, from: nat, step: real) {
    step > 0.0 && w(from).now >= clock && forall t: nat | t >= from :: w(t + 1).now >= w(t).now + step
  }

  lemma {:induction false} ClockAt(w: World, clock: real, from: nat, step: real, n: nat)
    requires Ticks(w, clock, from, step)
    ensures w(from + n).now >= clock + n as real * step
  {
    if n > 0 {
      ClockAt(w, clock, from, step, n - 1);
      assert w(from + n - 1 + 1).now >= w(from + n - 1).now + step;
      assert n as real * step == (n - 1) as real * step + step;
    }
  }

  /** With a positive timeout and a clock that advances with each sleep, the number of polls is
      bounded: all but the last two fit in the timeout, and a long enough run is never pending. */
  lemma WaitBounded(watch: Watch, w: World, timeout: real, clock: real, last: Option<Text>,
                    from: nat, to: nat, end: End, step: real)
    requires EndsAt(watch, w, Deadline(Some(timeout), clock), last, from, to, end)
    requires timeout > 0.0 && Ticks(w, clock, from, step)
    ensures to > from ==> (to - from - 1) as real * step < timeout
  {
    if to > from {
      assert Quiet(watch, w, Deadline(Some(timeout), clock), last, from, to - 1);
      ClockAt(w, clock, from, step, to - 1 - from);
    }
  }

  /** A wait never gives up early: not before the timeout has passed, and never without one. */
  lemma NotBeforeTimeout(watch: Watch, w: World, timeout: Option<real>, clock: real, last: Option<Text>,
                         from: nat, to: nat)
    requires EndsAt(watch, w, Deadline(timeout, clock), last, from, to, Expired)
    ensures timeout.Some? && timeout.value > 0.0 && w(to).now - clock >= timeout.value
    ensures forall t | from <= t < to :: w(t).now - clock < timeout.value
  {
    forall t | from <= t < to ensures w(t).now - clock < timeout.value {
      assert Quiet(watch, w, Deadline(timeout, clock), last, from, t);
    }
  }

  // ---- deltas of the scrollback

  predicate Blank(line: string) { forall c | c in line :: c in " \t\n\r" }

  /** Index of the last line equal to `anchor`. */
  method LastIndex(lines: Text, anchor: string) returns (found: Option<nat>)
    ensures found.None? <==> anchor !in lines
    ensures found.Some? ==> found.value < |lines| && lines[found.value] == anchor && anchor !in lines[found.value + 1..]
  {
    var i := |lines|;
    while i > 0
      invariant 0 <= i <= |lines| && anchor !in lines[i..]
    {
      i := i - 1;
      if lines[i] == anchor {
        return Some(i);
      }
      assert lines[i..] == [lines[i]] + lines[i + 1..];
    }
    assert lines[0..] == lines;
    return None;
  }

  /** A line of the old screen that is worth cutting at: not blank, present, and not only as the
      very last line. */
  predicate Anchors(before: string, after: Text) {
    !Blank(before) && before in after && after[|after| - 1] != before
  }

  /** `delta` is everything after the last occurrence of the anchor, and is not empty. */
  ghost predicate CutAfter<T>(anchor: T, after: seq<T>, delta: seq<T>) {
    && 0 < |delta| < |after| && anchor !in delta
    && after[|after| - |delta| - 1] == anchor && after[|after| - |delta|..] == delta
  }

  ghost predicate Lowest(before: Text, k: nat, after: Text) {
    k < |before| && Anchors(before[k], after) && forall j | k < j < |before| :: !Anchors(before[j], after)
  }

  /** What follows the last occurrence of the lowest usable line of the old screen, or everything
      when no line is usable. */
  ghost predicate IsDelta(before: Text, after: Text, delta: Text) {
    && ((forall k | 0 <= k < |before| :: !Anchors(before[k], after)) ==> delta == after)
    && (forall k: nat | Lowest(before, k, after) :: CutAfter(before[k], after, delta))
  }

  /** `_compute_delta`. */
  method ComputeDelta(before: Text, after: Text) returns (delta: Text)
    ensures IsDelta(before, after, delta)
  {
    var i := |before|;
    while i > 0
      invariant 0 <= i <= |before|
      invariant forall k | i <= k < |before| :: !Anchors(before[k], after)
    {
      i := i - 1;
      if !Blank(before[i]) {
        var found := LastIndex(after, before[i]);
        if found.Some? && found.value + 1 < |after| {
          delta := after[found.value + 1..];
          assert delta[|delta| - 1] == after[|after| - 1];
          return;
        }
      }
    }
    return after;
  }

  /** When the screen only grew, keeping its lines except a redrawn prompt, the delta is exactly
      what was added. */
  lemma GrownScreen(kept: Text, anchor: string, prompt: string, added: Text, delta: Text)
    requires !Blank(anchor) && added != [] && anchor !in added
    requires prompt !in kept + [anchor] + added[..|added| - 1]
    requires IsDelta(kept + [anchor, prompt], kept + [anchor] + added, delta)
    ensures delta == added
  {
    KeptAnchor(kept, anchor, prompt, added);
    CutUnique(kept, anchor, added, delta);
  }

  lemma KeptAnchor(kept: Text, anchor: string, prompt: string, added: Text)
    requires !Blank(anchor) && added != [] && anchor !in added
    requires prompt !in kept + [anchor] + added[..|added| - 1]
    ensures Lowest(kept + [anchor, prompt], |kept|, kept + [anchor] + added)
  {
    var before, after := kept + [anchor, prompt], kept + [anchor] + added;
    assert after[|kept|] == anchor && after[|after| - 1] == added[|added| - 1];
    assert before[|kept|] == anchor && before[|kept| + 1] == prompt;
    OnlyAtEnd(kept + [anchor], added, prompt);
  }

  /** What occurs nowhere before the last place occurs, if at all, there. */
  lemma OnlyAtEnd<T>(a: seq<T>, b: seq<T>, x: T)
    requires b != [] && x !in a + b[..|b| - 1]
    ensures x in a + b ==> (a + b)[|a + b| - 1] == x
  {
    assert a + b == a + b[..|b| - 1] + [b[|b| - 1]];
  }

  /** There is only one place to cut after the last occurrence of the anchor. */
  lemma CutUnique<T>(kept: seq<T>, anchor: T, added: seq<T>, delta: seq<T>)
    requires anchor !in added && CutAfter(anchor, kept + [anchor] + added, delta)
    ensures delta == added
  {
    var after := kept + [anchor] + added;
    assert after[|kept|] == anchor && after[|kept| + 1..] == added;
    assert |delta| <= |added| by {
      assert forall k | 0 <= k < |delta| :: delta[k] == after[|after| - |delta| + k];
    }
  }

  // ---- sending text in pieces

  const CHUNK: nat := 1000

  function Flat(chunks: seq<string>): string {
    if |chunks| == 0 then "" else Flat(chunks[..|chunks| - 1]) + chunks[|chunks| - 1]
  }

  /** `send_text`: the pieces sent, in order, are the text; only the last is shorter than a full
      chunk, and an empty text is still sent once. */
  method SendText(text: string) returns (sent: seq<string>)
    ensures Flat(sent) == text && |sent| >= 1
    ensures forall k | 0 <= k < |sent| - 1 :: |sent[k]| == CHUNK
    ensures |sent[|sent| - 1]| <= CHUNK && (text != "" ==> sent[|sent| - 1] != "")
  {
    if text == "" {
      assert Flat([""][..0]) == "";
      return [""];
    }
    sent := [];
    var i := 0;
    while i < |text|
      invariant i == CHUNK * |sent| || i >= |text|
      invariant Flat(sent) == if i <= |text| then text[..i] else text
      invariant forall k | 0 <= k < |sent| - 1 :: |sent[k]| == CHUNK
      invariant |sent| > 0 ==> 0 < |sent[|sent| - 1]| <= CHUNK
      invariant i < |text| && |sent| > 0 ==> |sent[|sent| - 1]| == CHUNK
      invariant i > 0 ==> |sent| > 0
      decreases |text| - i
    {
      var chunk := if i + CHUNK <= |text| then text[i..i + CHUNK] else text[i..];
      assert (sent + [chunk])[..|sent|] == sent;
      assert text[..i] + chunk == if i + CHUNK <= |text| then text[..i + CHUNK] else text;
      sent := sent + [chunk];
      i := i + CHUNK;
    }
    assert text[..|text|] == text;
  }

  // ---- turns

  datatype Status = Ok | Timeout | NeedsInput | Error

  datatype TurnResult = TurnResult(text: Text, rawDelta: Text, status: Status)

  /** A turn returns a result, raises (the submission failed on a live session), or is still
      being waited for at the horizon. */
  datatype TurnEnd = Done(result: TurnResult) | Raised | Waiting

  /** The turn's own answer, according to the probe: finished, and not the marker read before
      the prompt was submitted. */
  predicate ByProbe(d: Driver, baseline: Option<string>, reading: Option<Verdict>) {
    d.hasProbe && reading.Some? && reading.value.done && reading.value.marker != baseline
  }

  /** The probe decides when it answers; otherwise the pane does. */
  predicate OkAt(d: Driver, baseline: Option<string>, pane: Text, reading: Option<Verdict>) {
    if d.hasProbe && reading.Some? then ByProbe(d, baseline, reading) else d.done(pane)
  }

  /** A probe that answers decides alone, and refuses the answer it gave before the prompt; without one,
      or when it does not answer, the pane does. */
  lemma WhoDecides(d: Driver, baseline: Option<string>, pane: Text, reading: Option<Verdict>)
    ensures !d.hasProbe || reading.None? ==> (OkAt(d, baseline, pane, reading) <==> d.done(pane))
    ensures d.hasProbe && reading.Some? ==>
            (OkAt(d, baseline, pane, reading) <==> reading.value.done && reading.value.marker != baseline)
  {
  }

  function Baseline(d: Driver, f: Frame): Option<string> {
    if d.hasProbe && f.reading.Some? then f.reading.value.marker else None
  }

  function TurnWatch(d: Driver, baseline: Option<string>): Watch {
    Watch((pane, reading) => OkAt(d, baseline, pane, reading), d.needsInput)
  }

  function StatusOf(end: End, verdict: Option<Verdict>): Status
    requires end.Hit? || end.Expired?
  {
    if end.Expired? then Timeout
    else if !end.ok then NeedsInput
    else if verdict.None? || verdict.value.grade.Fine? then Ok
    else if verdict.value.grade.Refused? then NeedsInput
    else Error
  }

  function Note(lastPane: Text): Text {
    ["tmux session disappeared mid-turn"]
    + if lastPane == [] || lastPane == [""] then []
      else ["--- last pane ---"] + lastPane[if |lastPane| > 20 then |lastPane| - 20 else 0..]
  }

  /** The note on a lost session ends with the last twenty lines of the last pane, or all of them. */
  lemma NoteShowsLast(pane: Text) returns (head: Text, older: Text)
    ensures pane != [] && pane != [""] ==>
            exists shown :: Note(pane) == head + shown && pane == older + shown && (|shown| == 20 || older == [])
                            && |shown| <= 20
    ensures |head| <= 2 && (pane == [] || pane == [""] ==> Note(pane) == head)
  {
    older := pane[..if |pane| > 20 then |pane| - 20 else 0];
    var shown := pane[|older|..];
    head := Note(pane)[..if pane == [] || pane == [""] then 1 else 2];
    if pane != [] && pane != [""] {
      assert Note(pane) == head + shown && pane == older + shown;
    }
  }

  // What a turn that began at frame `start`, and whose polling ended at `stop`, comes to.

  predicate Submitted(f: Frame) { !Gone(f) && f.submits }

  function Answer(d: Driver, w: World, start: nat, end: End, stop: nat): Option<Verdict> {
    if end == Hit(true) && ByProbe(d, Baseline(d, w(start)), w(stop).reading) then w(stop).reading else None
  }

  predicate HasText(answer: Option<Verdict>) { answer.Some? && answer.value.text.Some? }

  function FinalScreen(d: Driver, f: Frame): Option<Text> { if d.readAnswer.Some? then f.visible else f.scrollback }

  function ScreenOr(d: Driver, f: Frame, last: Option<Text>): Text {
    if FinalScreen(d, f).Some? then FinalScreen(d, f).value else Or(last)
  }

  /** The session was found dead: a capture or the submission failed, and so did the liveness
      check after it. */
  predicate Lost(d: Driver, w: World, start: nat, end: End, stop: nat) {
    || Gone(w(start)) || (!w(start).submits && !w(start).alive) || end.Vanished?
    || (!end.Pending? && !HasText(Answer(d, w, start, end, stop))
        && FinalScreen(d, w(stop + 1)).None? && !w(stop + 1).alive)
  }

  ghost predicate Polled(d: Driver, w: World, timeout: Option<real>, last: Option<Text>, start: nat, end: End,
                         stop: nat) {
    EndsAt(TurnWatch(d, Baseline(d, w(start))), w, Deadline(timeout, w(start).now),
           LastPane(w, last, start, start + 1), start + 1, stop, end)
  }

  /** Where the text of a turn that was not lost comes from: the verdict, the driver's reading of
      the visible pane, or the delta of the scrollback. */
  ghost predicate TextFrom(d: Driver, answer: Option<Verdict>, snapshot: Text, screen: Text, prompt: Text,
                           r: TurnResult) {
    if HasText(answer) then r.text == r.rawDelta == answer.value.text.value
    else if d.readAnswer.Some? then r.rawDelta == screen && r.text == d.readAnswer.value(screen, prompt)
    else IsDelta(snapshot, screen, r.rawDelta) && r.text == d.extract(r.rawDelta)
  }

  /** What one turn reports, in terms of the frames it saw. */
  ghost predicate Reports(d: Driver, w: World, timeout: Option<real>, last: Option<Text>, start: nat,
                          end: End, stop: nat, prompt: Text, r: TurnEnd) {
    && (if Submitted(w(start)) then Polled(d, w, timeout, last, start, end, stop) else end == Pending && stop == start)
    && (r.Raised? <==> !Gone(w(start)) && !w(start).submits && w(start).alive)
    && (r.Waiting? <==> Submitted(w(start)) && end.Pending?)
    && (r.Done? && Lost(d, w, start, end, stop) ==>
        r.result.status == Error && r.result.text == Note(r.result.rawDelta))
    && (r.Done? && !Lost(d, w, start, end, stop) ==>
          && !end.Pending? && !end.Vanished?
          && r.result.status == StatusOf(end, Answer(d, w, start, end, stop))
          && TextFrom(d, Answer(d, w, start, end, stop), PaneAt(w, last, start, start),
                      ScreenOr(d, w(stop + 1), LastPane(w, LastPane(w, last, start, start + 1), start + 1, stop + 1)),
                      prompt, r.result))
  }

  /** How to read the status of a turn. A timeout means that no polled frame matched; "ok" and
      "needs input" that the first matching frame ended the turn, "ok" being preferred and the
      probe being able to degrade it; an error that the session was found dead by a failed
      liveness check, or that the probe said so. */
  lemma StatusMeans(d: Driver, w: World, timeout: Option<real>, last: Option<Text>, start: nat,
                    end: End, stop: nat, prompt: Text, r: TurnEnd)
    requires Reports(d, w, timeout, last, start, end, stop, prompt, r) && r.Done?
    ensures r.result.status != Error ==>
              && start < stop
              && forall t | start < t < stop :: !Matches(WatchFrom(d, w, start), PolledPane(w, last, start, t), w(t))
    ensures r.result.status == Timeout ==>
              !Matches(WatchFrom(d, w, start), PolledPane(w, last, start, stop), w(stop))
              && Past(Deadline(timeout, w(start).now), w(stop).now)
    ensures r.result.status == Ok ==> WatchFrom(d, w, start).ok(PolledPane(w, last, start, stop), w(stop).reading)
    ensures r.result.status == NeedsInput ==>
              || (!WatchFrom(d, w, start).ok(PolledPane(w, last, start, stop), w(stop).reading)
                  && NeedsAt(WatchFrom(d, w, start), PolledPane(w, last, start, stop)))
              || (ByProbe(d, Baseline(d, w(start)), w(stop).reading) && w(stop).reading.value.grade == Refused)
    ensures r.result.status == Error ==>
              || !w(start).alive || !w(stop).alive || !w(stop + 1).alive
              || (ByProbe(d, Baseline(d, w(start)), w(stop).reading) && w(stop).reading.value.grade == Failed)
  {
    var watch, deadline := WatchFrom(d, w, start), Deadline(timeout, w(start).now);
    var seen := LastPane(w, last, start, start + 1);
    assert forall t | start < t < stop && Quiet(watch, w, deadline, seen, start + 1, t) ::
        !Matches(watch, PaneAt(w, seen, start + 1, t), w(t));
  }

  /** What a turn that began at `start` polls for, and the pane its poll at `t` looks at. */
  function WatchFrom(d: Driver, w: World, start: nat): Watch { TurnWatch(d, Baseline(d, w(start))) }

  function PolledPane(w: World, last: Option<Text>, start: nat, t: nat): Text {
    if t <= start then [] else PaneAt(w, LastPane(w, last, start, start + 1), start + 1, t)
  }

  /** A turn as it happened: when it began, the frame that ended its polling and the verdict it
      answered with, if the probe ended it. */
  datatype TurnRecord = TurnRecord(start: nat, stop: nat, verdict: Option<Verdict>)

  ghost predicate Happened(d: Driver, w: World, r: TurnRecord) {
    && r.start <= r.stop
    && (r.verdict.Some? ==>
          r.start < r.stop && w(r.stop).reading == r.verdict && ByProbe(d, Baseline(d, w(r.start)), r.verdict))
  }

  ghost predicate History(d: Driver, w: World, h: seq<TurnRecord>, tick: nat) {
    && (forall i | 0 <= i < |h| :: Happened(d, w, h[i]) && h[i].stop < tick)
    && (forall i, j | 0 <= i < j < |h| :: h[i].stop < h[j].start)
  }

  lemma HistoryGrows(d: Driver, w: World, h: seq<TurnRecord>, tick: nat, r: TurnRecord, later: nat)
    requires History(d, w, h, tick) && Happened(d, w, r) && tick <= r.start && r.stop < later
    ensures History(d, w, h + [r], later)
  {
  }

  /** The record a turn leaves behind. */
  function RecordOf(d: Driver, w: World, start: nat, end: End, stop: nat): TurnRecord {
    TurnRecord(start, stop, if Lost(d, w, start, end, stop) then None else Answer(d, w, start, end, stop))
  }

  lemma RecordHappened(d: Driver, w: World, timeout: Option<real>, last: Option<Text>, start: nat,
                       end: End, stop: nat, prompt: Text, r: TurnEnd)
    requires Reports(d, w, timeout, last, start, end, stop, prompt, r)
    ensures Happened(d, w, RecordOf(d, w, start, end, stop))
  {
  }

  /** A marker once finished is not read again after another one was. */
  ghost predicate MarkersNotReused(w: World) {
    forall i: nat, j: nat, k: nat | i < j < k ::
      (w(i).reading.Some? && w(j).reading.Some? && w(k).reading.Some?
       && w(i).reading.value.done && w(k).reading.value.done
       && w(i).reading.value.marker == w(k).reading.value.marker)
      ==> w(j).reading.value.marker == w(k).reading.value.marker
  }

  /** Whatever happened in between, no finished answer is returned for two turns, provided the
      probe answered the reading before the later one. */
  lemma NoVerdictTwice(d: Driver, w: World, h: seq<TurnRecord>, tick: nat, i: nat, j: nat)
    requires History(d, w, h, tick) && MarkersNotReused(w)
    requires i < j < |h| && h[i].verdict.Some? && h[j].verdict.Some?
    requires w(h[j].start).reading.Some?
    ensures h[i].verdict.value.marker != h[j].verdict.value.marker
  {
    assert h[i].stop < h[j].start < h[j].stop;
    assert Happened(d, w, h[i]) && Happened(d, w, h[j]);
  }

  /** Without that reading the protection is gone: whenever the baseline went unread and the old
      verdict is still the one read at the first poll, the turn ends there with the old verdict. */
  lemma UnreadBaselineRepeats(d: Driver, w: World, deadline: Option<real>, last: Option<Text>, start: nat,
                              stale: Verdict)
    requires d.hasProbe && w(start).reading.None?
    requires w(start + 1).reading == Some(stale) && stale.done && stale.marker.Some? && !Gone(w(start + 1))
    ensures EndsAt(TurnWatch(d, Baseline(d, w(start))), w, deadline, last, start + 1, start + 1, Hit(true))
    ensures ByProbe(d, Baseline(d, w(start)), w(start + 1).reading)
  {
  }

  /** Exactly then: when the first poll of a later turn still reads a finished, marked verdict that
      an earlier turn returned, the turn ends there by the probe, and answers with it once more, if
      and only if its baseline went unread. */
  lemma RepeatsIffUnread(d: Driver, w: World, h: seq<TurnRecord>, tick: nat, i: nat, start: nat,
                         deadline: Option<real>, last: Option<Text>)
    requires History(d, w, h, tick) && MarkersNotReused(w) && i < |h| && tick <= start
    requires h[i].verdict.Some? && h[i].verdict.value.marker.Some?
    requires w(start + 1).reading == h[i].verdict && !Gone(w(start + 1))
    ensures ByProbe(d, Baseline(d, w(start)), w(start + 1).reading) <==> w(start).reading.None?
    ensures EndsAt(TurnWatch(d, Baseline(d, w(start))), w, deadline, last, start + 1, start + 1, Hit(true)) <==>
            w(start).reading.None?
    ensures Answer(d, w, start, Hit(true), start + 1) == h[i].verdict <==> w(start).reading.None?
  {
    assert Happened(d, w, h[i]) && h[i].stop < start < start + 1;
    if w(start).reading.Some? {
      SameMarker(w, h[i].stop, start, start + 1);
    } else {
      UnreadBaselineRepeats(d, w, deadline, last, start, h[i].verdict.value);
    }
  }

  lemma SameMarker(w: World, i: nat, j: nat, k: nat)
    requires MarkersNotReused(w) && i < j < k
    requires w(i).reading.Some? && w(j).reading.Some? && w(i).reading == w(k).reading && w(i).reading.value.done
    ensures w(j).reading.value.marker == w(k).reading.value.marker
  {
  }

  // ---- starting up

  function Meaningful(pane: Text): Text {
    if pane == [] then []
    else Meaningful(pane[..|pane| - 1]) + if Blank(pane[|pane| - 1]) then [] else [pane[|pane| - 1]]
  }

  /** `_pane_tail`: the last twenty lines with content. */
  function PaneTail(pane: Text): Text {
    var lines := Meaningful(pane);
    lines[if |lines| > 20 then |lines| - 20 else 0..]
  }

  /** A screen with any content at all leaves a tail, and the tail ends with its last line of
      content, however many blank lines follow it. */
  lemma {:induction false} TailShowsContent(pane: Text, k: nat)
    requires k < |pane| && !Blank(pane[k]) && forall j | k < j < |pane| :: Blank(pane[j])
    ensures PaneTail(pane) != [] && PaneTail(pane)[|PaneTail(pane)| - 1] == pane[k]
  {
    if k < |pane| - 1 {
      TailShowsContent(pane[..|pane| - 1], k);
    }
  }

  /** The tail is the last twenty lines with content, or all of them. */
  lemma TailIsLast(pane: Text) returns (older: Text)
    ensures Meaningful(pane) == older + PaneTail(pane)
    ensures |PaneTail(pane)| == 20 || (|PaneTail(pane)| < 20 && older == [])
  {
    older := Meaningful(pane)[..|Meaningful(pane)| - |PaneTail(pane)|];
  }

  datatype OpenEnd = Opened | StartupFailed(tail: Text) | Launching

  function ReadyWatch(d: Driver): Watch { Watch((pane, reading) => d.ready(pane), None) }

  datatype Life = Starting | Ready | Busy | Idle | Dead

  class TmuxAgentSession {
    const d: Driver
    var status: Life
    var lastPane: Option<Text>
    ghost var tick: nat
    ghost var history: seq<TurnRecord>

    ghost predicate Valid(w: World)
      reads this
    {
      History(d, w, history, tick)
    }

    constructor (d: Driver, ghost tick: nat)
      ensures this.d == d && status == Starting && lastPane == None && this.tick == tick && history == []
    {
      this.d := d;
      status := Starting;
      lastPane := None;
      this.tick := tick;
      history := [];
    }

    /** `_capture_resilient`: a failed capture counts as death only after a failed liveness
        check; otherwise the last good pane stands in. Only the visible pane is remembered. */
    method CaptureResilient(f: Frame, full: bool) returns (pane: Option<Text>)
      modifies this`lastPane
      ensures pane.None? <==> (if full then f.scrollback else f.visible).None? && !f.alive
      ensures lastPane == if !full && f.visible.Some? then f.visible else old(lastPane)
      ensures pane.Some? && (if full then f.scrollback else f.visible).Some? ==>
                pane == if full then f.scrollback else f.visible
      ensures pane.Some? && (if full then f.scrollback else f.visible).None? ==> pane.value == Or(old(lastPane))
    {
      var captured := if full then f.scrollback else f.visible;
      if captured.None? {
        return if f.alive then Some(Or(lastPane)) else None;
      }
      if !full {
        lastPane := captured;
      }
      return captured;
    }

    /** `_wait_for_any`, observed up to the horizon: it ends at the first frame that is not quiet,
        with "ok" preferred, and is still pending only when the horizon was reached quietly. */
    method WaitForAny(watch: Watch, w: World, deadline: Option<real>, from: nat, horizon: nat)
      returns (end: End, to: nat)
      requires from <= horizon
      modifies this`lastPane
      ensures to <= horizon && (end.Pending? <==> to == horizon)
      ensures EndsAt(watch, w, deadline, old(lastPane), from, to, end)
      ensures lastPane == LastPane(w, old(lastPane), from, if end.Pending? then to else to + 1)
    {
      to := from;
      while to < horizon
        invariant from <= to <= horizon
        invariant forall t | from <= t < to :: Quiet(watch, w, deadline, old(lastPane), from, t)
        invariant lastPane == LastPane(w, old(lastPane), from, to)
      {
        var pane := CaptureResilient(w(to), false);
        if pane.None? {
          return Vanished, to;
        }
        if watch.ok(pane.value, w(to).reading) {
          return Hit(true), to;
        }
        if watch.needs.Some? && watch.needs.value(pane.value) {
          return Hit(false), to;
        }
        if deadline.Some? && w(to).now >= deadline.value {
          return Expired, to;
        }
        assert Quiet(watch, w, deadline, old(lastPane), from, to);
        to := to + 1;
      }
      return Pending, to;
    }

    /** `open`, after the launch command was fed at frame `now`: the session becomes ready only at
        the first frame that shows the ready signal; otherwise, on a timeout or a death, the shell
        is killed and the failure is raised with the last screen there was. */
    method Open(timeout: Option<real>, w: World, now: nat, horizon: nat)
      returns (r: OpenEnd, killed: bool, ghost end: End, ghost stop: nat)
      requires now <= horizon
      modifies this`status, this`lastPane
      ensures EndsAt(ReadyWatch(d), w, Deadline(timeout, w(now).now), old(lastPane), now, stop, end)
      ensures stop <= horizon && (r.Launching? <==> end.Pending?) && (end.Pending? <==> stop == horizon)
      ensures r.Opened? <==> end.Hit? && d.ready(PaneAt(w, old(lastPane), now, stop))
      ensures status == match r { case Opened => Ready case StartupFailed(_) => Dead case Launching => old(status) }
      ensures killed == r.StartupFailed?
      ensures r.StartupFailed? && end.Vanished? ==> r.tail != []
      ensures r.StartupFailed? && end.Expired? ==> r.tail == PaneTail(Or(w(stop + 1).visible))
    {
      killed := false;
      var ended, to := WaitForAny(ReadyWatch(d), w, Deadline(timeout, w(now).now), now, horizon);
      end, stop := ended, to;
      if ended.Pending? {
        r := Launching;
      } else if ended.Hit? {
        status := Ready;
        r := Opened;
      } else {
        var tail := if ended.Vanished? then PaneTail(Or(lastPane)) else PaneTail(Or(w(to + 1).visible));
        if ended.Vanished? && tail == [] {
          tail := ["(the session vanished before it was ready and left no screen)"];
        }
        killed := true;
        status := Dead;
        r := StartupFailed(tail);
      }
    }

    /** The handling of a vanished session in `send`. */
    method Vanish(ghost start: nat, ghost stop: nat) returns (r: TurnEnd)
      modifies this
      ensures status == Dead && lastPane == old(lastPane) && tick == stop + 2
      ensures history == old(history) + [TurnRecord(start, stop, None)]
      ensures r == Done(TurnResult(Note(Or(lastPane)), Or(lastPane), Error))
    {
      status := Dead;
      tick := stop + 2;
      history := history + [TurnRecord(start, stop, None)];
      r := Done(TurnResult(Note(Or(lastPane)), Or(lastPane), Error));
    }

    /** The end of `_send_turn`: after a match or a timeout, find the text and grade the turn. */
    method Conclude(prompt: Text, snapshot: Text, w: World, start: nat, end: End, stop: nat) returns (r: TurnEnd)
      requires end.Hit? || end.Expired?
      requires Submitted(w(start))
      modifies this
      ensures r.Done? && tick == stop + 2
      ensures Lost(d, w, start, end, stop) ==>
                r.result.status == Error && r.result.text == Note(r.result.rawDelta)
                && r.result.rawDelta == Or(lastPane)
      ensures !Lost(d, w, start, end, stop) ==>
                && r.result.status == StatusOf(end, Answer(d, w, start, end, stop))
                && TextFrom(d, Answer(d, w, start, end, stop), snapshot, ScreenOr(d, w(stop + 1), old(lastPane)),
                            prompt, r.result)
      ensures status == if Lost(d, w, start, end, stop) then Dead else Idle
      ensures history == old(history) + [RecordOf(d, w, start, end, stop)]
    {
      var verdict := Answer(d, w, start, end, stop);
      var text, rawDelta := [], [];
      if verdict.Some? && verdict.value.text.Some? {
        text, rawDelta := verdict.value.text.value, verdict.value.text.value;
      } else if d.readAnswer.Some? {
        var pane := CaptureResilient(w(stop + 1), false);
        if pane.None? {
          r := Vanish(start, stop);
          return;
        }
        text, rawDelta := d.readAnswer.value(pane.value, prompt), pane.value;
      } else {
        var scrollback := CaptureResilient(w(stop + 1), true);
        if scrollback.None? {
          r := Vanish(start, stop);
          return;
        }
        rawDelta := ComputeDelta(snapshot, scrollback.value);
        text := d.extract(rawDelta);
      }
      status := Idle;
      tick := stop + 2;
      history := history + [TurnRecord(start, stop, verdict)];
      r := Done(TurnResult(text, rawDelta, StatusOf(end, verdict)));
    }

    /** `_send_turn`: snapshot, baseline reading and submission at frame `now`, polls from the next
        frame on, and the final capture after the last poll. */
    method SendTurn(prompt: Text, timeout: Option<real>, w: World, now: nat, horizon: nat)
      returns (r: TurnEnd, ghost end: End, ghost stop: nat)
      requires now < horizon
      modifies this
      ensures Reports(d, w, timeout, old(lastPane), now, end, stop, prompt, r)
      ensures r.Done? ==> status == if Lost(d, w, now, end, stop) then Dead else Idle
      ensures !r.Done? ==> status == old(status)
      ensures r.Done? && Lost(d, w, now, end, stop) ==> r.result.rawDelta == Or(lastPane)
      ensures history == old(history) + if r.Done? then [RecordOf(d, w, now, end, stop)] else []
      ensures tick == if r.Done? then stop + 2 else if r.Raised? then now + 1 else horizon
    {
      end, stop := Pending, now;
      var snapshot := CaptureResilient(w(now), false);
      if snapshot.None? {
        r := Vanish(now, now);
        return;
      }
      if !w(now).submits {
        if w(now).alive {
          tick := now + 1;
          r := Raised;
        } else {
          r := Vanish(now, now);
        }
        return;
      }
      FirstPane(w, old(lastPane), now);
      assert lastPane == LastPane(w, old(lastPane), now, now + 1)
             && snapshot.value == PaneAt(w, old(lastPane), now, now);
      var ended, to := WaitForAny(TurnWatch(d, Baseline(d, w(now))), w, Deadline(timeout, w(now).now), now + 1,
                                  horizon);
      assert Polled(d, w, timeout, old(lastPane), now, ended, to);
      end, stop := ended, to;
      if ended.Pending? {
        tick := to;
        r := Waiting;
      } else if ended.Vanished? {
        r := Vanish(now, to);
      } else {
        r := Conclude(prompt, snapshot.value, w, now, ended, to);
      }
    }

    /** `send`: one turn; the protocol's history stays valid through any number of them. */
    method Send(prompt: Text, timeout: Option<real>, w: World, now: nat, horizon: nat)
      returns (r: TurnEnd, ghost end: End, ghost stop: nat)
      requires Valid(w) && now == tick < horizon
      modifies this
      ensures Valid(w) && tick > now
      ensures Reports(d, w, timeout, old(lastPane), now, end, stop, prompt, r)
      ensures status == if !r.Done? then Busy else if Lost(d, w, now, end, stop) then Dead else Idle
      ensures history == old(history) + if r.Done? then [RecordOf(d, w, now, end, stop)] else []
    {
      status := Busy;
      r, end, stop := SendTurn(prompt, timeout, w, now, horizon);
      RecordHappened(d, w, timeout, old(lastPane), now, end, stop, prompt, r);
      if r.Done? {
        HistoryGrows(d, w, old(history), now, RecordOf(d, w, now, end, stop), tick);
      }
    }
  }
}
