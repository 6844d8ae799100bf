/**
 A stream that closes its upstream and accounts for the request exactly once, under reads,
 cancellation, upstream failure, closes that overlap and closes that raise.

 Events are the stretches of code between two suspensions. A run is a sequence of events each of
 which was enabled.
 */
module ClosingStream {
  import opened Wrappers
  import opened Text
  import opened SseLines

  datatype Status = Succeeded | Failed | Aborted

  datatype Category = StreamIncomplete | ClientDisconnected

  datatype Report = Report(status: Status, usage: Usage, category: Option<Category>)

  /**
   What the stream takes from a line: the terminator, reported usage, and the bytes to deliver. Nothing is
   delivered if an exception leaves the read: one from parsing also loses the rest, one from encoding does not.
   */
  datatype Reading = Reading(done: bool, usage: Option<Usage>, output: Option<string>)

  function ReadLine(codec: Codec, model: string, line: string): Reading {
    if BreaksOff(codec, line) then Reading(false, None, None)
    else Reading(IsDoneLine(line), ExtractSseUsage(codec, line), Rewrite(codec, line, model))
  }

  /** The stream itself, or a generator around it whose body runs only once it has been read from. */
  datatype Wrapping = Bare | Unstarted | Started | Abandoned

  /** Where the one call that closes is suspended. */
  datatype Closing = NotClosing | ClosingLines | ClosingUpstream | Settled

  datatype Config = Config(read: string -> Reading, linesCloseable: bool)

  function StreamConfig(codec: Codec, model: string, linesCloseable: bool): Config {
    Config(line => ReadLine(codec, model, line), linesCloseable)
  }

  datatype State = State(
    wrapping: Wrapping,
    readers: nat,
    closed: bool, sawDone: bool, ended: bool, failed: bool, usage: Usage, finalized: bool,
    closing: Closing,
    upstreamCloses: nat,
    delivered: seq<string>,
    reports: seq<Report>)

  function Initial(wrapping: Wrapping): State {
    State(wrapping, 0, false, false, false, false, NO_USAGE, false, NotClosing, 0, [], [])
  }

  /** `Line`, `End`, `Cancel` and `Fail` resume a waiting read; the last two resume the closing call, raising or not. */
  datatype Event =
    | Read | Line(text: string) | End | Cancel | Fail | Close
    | LinesClosed | UpstreamClosed

  /** A generator refuses to be read or closed while a read of it is suspended. */
  predicate Enabled(s: State, e: Event) {
    match e
    case Read => s.wrapping.Started? ==> s.readers == 0
    case Close => s.wrapping.Started? ==> s.readers == 0
    case Line(_) => s.readers > 0
    case End => s.readers > 0
    case Cancel => s.readers > 0
    case Fail => s.readers > 0
    case LinesClosed => s.closing.ClosingLines?
    case UpstreamClosed => s.closing.ClosingUpstream?
  }

  function Output(c: Config, text: string): seq<string> {
    match c.read(text).output
    case Some(output) => [output]
    case None => []
  }

  function BeginClose(c: Config, s: State): State {
    if s.closed then s
    else if c.linesCloseable then s.(closed := true, closing := ClosingLines)
    else s.(closed := true, closing := ClosingUpstream, upstreamCloses := s.upstreamCloses + 1)
  }

  function FinishOnce(s: State): State {
    if s.finalized then s
    else
      var report :=
        if s.sawDone then Report(Succeeded, s.usage, None)
        else if s.failed || s.ended then Report(Failed, s.usage, Some(StreamIncomplete))
        else Report(Aborted, s.usage, Some(ClientDisconnected));
      s.(finalized := true, reports := s.reports + [report])
  }

  function Step(c: Config, s: State, e: Event): State {
    match e
    case Read =>
      if s.closed || s.wrapping.Abandoned? then s
      else s.(readers := s.readers + 1, wrapping := if s.wrapping.Unstarted? then Started else s.wrapping)
    case Line(text) =>
      if s.readers == 0 then s
      else s.(readers := s.readers - 1,
              usage := match c.read(text).usage case Some(u) => u case None => s.usage,
              sawDone := s.sawDone || c.read(text).done,
              delivered := s.delivered + Output(c, text))
    case End => if s.readers == 0 then s else BeginClose(c, s.(readers := s.readers - 1, ended := true))
    case Cancel => if s.readers == 0 then s else BeginClose(c, s.(readers := s.readers - 1))
    case Fail => if s.readers == 0 then s else BeginClose(c, s.(readers := s.readers - 1, failed := true))
    case Close =>
      if s.wrapping.Unstarted? then s.(wrapping := Abandoned)
      else if s.wrapping.Abandoned? then s
      else BeginClose(c, s)
    case LinesClosed =>
      if s.closing.ClosingLines? then s.(closing := ClosingUpstream, upstreamCloses := s.upstreamCloses + 1) else s
    case UpstreamClosed =>
      if s.closing.ClosingUpstream? then FinishOnce(s.(closing := Settled)) else s
  }

  function Play(c: Config, s: State, es: seq<Event>): State
    decreases |es|
  {
    if es == [] then s else Step(c, Play(c, s, es[..|es| - 1]), es[|es| - 1])
  }

  ghost predicate IsRun(c: Config, s: State, es: seq<Event>) {
    forall i :: 0 <= i < |es| ==> Enabled(Play(c, s, es[..i]), es[i])
  }

  lemma RunPrefix(c: Config, s: State, es: seq<Event>, n: nat)
    requires IsRun(c, s, es) && n <= |es|
    ensures IsRun(c, s, es[..n])
  {
    hide Enabled, Play;
    forall i | 0 <= i < n ensures Enabled(Play(c, s, es[..n][..i]), es[..n][i]) {
      assert es[..n][..i] == es[..i];
    }
  }

  lemma PlayEnds(c: Config, s: State, es: seq<Event>)
    requires es != []
    ensures Play(c, s, es) == Step(c, Play(c, s, es[..|es| - 1]), es[|es| - 1])
  {
    hide Step;
  }

  lemma RunEnables(c: Config, s: State, es: seq<Event>, n: nat)
    requires IsRun(c, s, es) && n < |es|
    ensures Enabled(Play(c, s, es[..n]), es[n])
  {
    hide Step, Enabled, Play;
  }

  lemma LastSplits(es: seq<Event>)
    requires es != []
    ensures es == es[..|es| - 1] + [es[|es| - 1]]
  {
  }

  lemma RunEnds(c: Config, s: State, es: seq<Event>)
    requires IsRun(c, s, es) && es != []
    ensures IsRun(c, s, es[..|es| - 1]) && Enabled(Play(c, s, es[..|es| - 1]), es[|es| - 1])
    ensures Play(c, s, es) == Step(c, Play(c, s, es[..|es| - 1]), es[|es| - 1])
    ensures es == es[..|es| - 1] + [es[|es| - 1]]
  {
    hide Step, Enabled, Play, IsRun;
    LastSplits(es);
    RunEnables(c, s, es, |es| - 1);
    RunPrefix(c, s, es, |es| - 1);
    PlayEnds(c, s, es);
  }

  /* What the trace says, without the state */

  predicate SawDone(c: Config, es: seq<Event>) {
    exists i :: 0 <= i < |es| && es[i].Line? && c.read(es[i].text).done
  }

  predicate SawEnd(es: seq<Event>) {
    End in es || Fail in es
  }

  function LastUsage(c: Config, es: seq<Event>): Usage {
    if es == [] then NO_USAGE
    else match es[|es| - 1]
      case Line(text) => (match c.read(text).usage case Some(u) => u case None => LastUsage(c, es[..|es| - 1]))
      case _ => LastUsage(c, es[..|es| - 1])
  }

  function Lines(es: seq<Event>): seq<string> {
    if es == [] then []
    else match es[|es| - 1]
      case Line(text) => Lines(es[..|es| - 1]) + [text]
      case _ => Lines(es[..|es| - 1])
  }

  /** What reading these lines delivers. */
  function Outputs(c: Config, lines: seq<string>): seq<string> {
    if lines == [] then [] else Outputs(c, lines[..|lines| - 1]) + Output(c, lines[|lines| - 1])
  }

  /** Succeeded if the terminator was read, otherwise failed if the upstream ended or broke, otherwise aborted. */
  function Verdict(c: Config, es: seq<Event>): Report {
    if SawDone(c, es) then Report(Succeeded, LastUsage(c, es), None)
    else if SawEnd(es) then Report(Failed, LastUsage(c, es), Some(StreamIncomplete))
    else Report(Aborted, LastUsage(c, es), Some(ClientDisconnected))
  }

  ghost predicate Sound(c: Config, w: Wrapping, s: State, es: seq<Event>) {
    && (s.sawDone <==> SawDone(c, es)) && (s.ended || s.failed <==> SawEnd(es))
    && s.usage == LastUsage(c, es)
    && (s.closed <==> !s.closing.NotClosing?)
    && (s.finalized <==> s.closing.Settled?)
    && s.upstreamCloses == (if s.closing.NotClosing? || s.closing.ClosingLines? then 0 else 1)
    && |s.reports| == (if s.closing.Settled? then 1 else 0)
    && (s.wrapping.Unstarted? || s.wrapping.Abandoned? ==> s.readers == 0 && !s.closed)
    && (s.wrapping.Bare? <==> w.Bare?)
    && s.delivered == Outputs(c, Lines(es))
  }

  lemma TraceExtends(c: Config, es: seq<Event>, e: Event)
    ensures SawDone(c, es + [e]) <==> SawDone(c, es) || (e.Line? && c.read(e.text).done)
    ensures SawEnd(es + [e]) <==> SawEnd(es) || e.End? || e.Fail?
    ensures LastUsage(c, es + [e])
         == if e.Line? && c.read(e.text).usage.Some? then c.read(e.text).usage.value else LastUsage(c, es)
    ensures Lines(es + [e]) == Lines(es) + if e.Line? then [e.text] else []
  {
    var all := es + [e];
    assert all[..|all| - 1] == es && all[|all| - 1] == e;
    assert forall i :: 0 <= i < |es| ==> all[i] == es[i];
    if SawDone(c, es) {
      var i :| 0 <= i < |es| && es[i].Line? && c.read(es[i].text).done;
      assert all[i].Line? && c.read(all[i].text).done;
    }
    if e.Line? && c.read(e.text).done {
      assert all[|es|].Line? && c.read(all[|es|].text).done;
    }
  }

  lemma OutputsExtend(c: Config, lines: seq<string>, text: string)
    ensures Outputs(c, lines + [text]) == Outputs(c, lines) + Output(c, text)
  {
    assert (lines + [text])[..|lines|] == lines;
  }

  lemma StepKeepsSound(c: Config, w: Wrapping, s: State, es: seq<Event>, e: Event)
    requires Sound(c, w, s, es) && Enabled(s, e)
    ensures Sound(c, w, Step(c, s, e), es + [e])
  {
    hide SawDone, SawEnd, LastUsage, Lines, Outputs;
    TraceExtends(c, es, e);
    if e.Line? {
      OutputsExtend(c, Lines(es), e.text);
    } else {
      assert Lines(es) + [] == Lines(es);
    }
    match e
    case Read =>
    case Line(_) =>
    case End =>
    case Cancel =>
    case Fail =>
    case Close =>
    case LinesClosed =>
    case UpstreamClosed =>
  }

  lemma InitialIsSound(c: Config, w: Wrapping)
    requires w.Bare? || w.Unstarted?
    ensures Sound(c, w, Initial(w), [])
  {
  }

  lemma {:induction false} RunsAreSound(c: Config, w: Wrapping, es: seq<Event>)
    requires IsRun(c, Initial(w), es) && (w.Bare? || w.Unstarted?)
    ensures Sound(c, w, Play(c, Initial(w), es), es)
  {
    hide Sound, Step, Enabled, IsRun;
    if es == [] {
      InitialIsSound(c, w);
    } else {
      var front, e := es[..|es| - 1], es[|es| - 1];
      RunEnds(c, Initial(w), es);
      RunsAreSound(c, w, front);
      StepKeepsSound(c, w, Play(c, Initial(w), front), front, e);
    }
  }

  /* Closing and accounting happen once */

  /**
   Over every run the upstream is closed at most once and usage reported at most once; both have
   happened exactly when the closing call is over, and no report comes before that.
   */
  lemma ClosesOnce(c: Config, w: Wrapping, es: seq<Event>)
    requires IsRun(c, Initial(w), es) && (w.Bare? || w.Unstarted?)
    ensures var s := Play(c, Initial(w), es);
            && s.upstreamCloses <= 1 && |s.reports| <= 1
            && (s.closing.Settled? <==> |s.reports| == 1)
            && (s.closing.Settled? ==> s.upstreamCloses == 1)
            && (s.closed ==> !s.closing.NotClosing?)
  {
    RunsAreSound(c, w, es);
  }

  predicate IsClosing(e: Event) {
    e.Close? || e.End? || e.Cancel? || e.Fail?
  }

  predicate SomeClose(es: seq<Event>) {
    exists i :: 0 <= i < |es| && IsClosing(es[i])
  }

  predicate ClosedUnread(es: seq<Event>) {
    exists i :: 0 <= i < |es| && es[i].Close? && Read !in es[..i]
  }

  lemma ClosingExtends(es: seq<Event>, e: Event)
    ensures SomeClose(es + [e]) <==> SomeClose(es) || IsClosing(e)
    ensures ClosedUnread(es + [e]) <==> ClosedUnread(es) || (e.Close? && Read !in es)
  {
    var all := es + [e];
    assert forall i :: 0 <= i < |es| ==> all[i] == es[i] && all[..i] == es[..i];
    assert all[|es|] == e && all[..|es|] == es;
    if SomeClose(es) {
      var i :| 0 <= i < |es| && IsClosing(es[i]);
      assert IsClosing(all[i]);
    }
    if ClosedUnread(es) {
      var i :| 0 <= i < |es| && es[i].Close? && Read !in es[..i];
      assert all[i].Close? && Read !in all[..i];
    }
    if ClosedUnread(all) {
      var i :| 0 <= i < |all| && all[i].Close? && Read !in all[..i];
      assert i < |es| ==> es[i].Close? && Read !in es[..i];
    }
  }

  /** A call that closes takes effect, except on a generator that has not been read from. */
  ghost predicate ClosingNoted(w: Wrapping, s: State, es: seq<Event>) {
    && (s.closed || s.wrapping.Abandoned? <==> SomeClose(es))
    && (s.wrapping.Abandoned? <==> w.Unstarted? && ClosedUnread(es))
    && (s.wrapping.Unstarted? <==> w.Unstarted? && Read !in es && !ClosedUnread(es))
    && (s.wrapping.Bare? <==> w.Bare?)
    && (s.wrapping.Unstarted? || s.wrapping.Abandoned? ==> s.readers == 0 && !s.closed)
  }

  lemma StepNotesClosing(c: Config, w: Wrapping, s: State, es: seq<Event>, e: Event)
    requires ClosingNoted(w, s, es) && Enabled(s, e)
    ensures ClosingNoted(w, Step(c, s, e), es + [e])
  {
    ClosingExtends(es, e);
    match e
    case Read =>
    case Line(_) =>
    case End =>
    case Cancel =>
    case Fail =>
    case Close =>
    case LinesClosed =>
    case UpstreamClosed =>
  }

  lemma NothingNotedAtFirst(c: Config, w: Wrapping)
    requires w.Bare? || w.Unstarted?
    ensures ClosingNoted(w, Initial(w), [])
  {
  }

  lemma {:induction false} ClosedOrAbandoned(c: Config, w: Wrapping, es: seq<Event>)
    requires IsRun(c, Initial(w), es) && (w.Bare? || w.Unstarted?)
    ensures ClosingNoted(w, Play(c, Initial(w), es), es)
  {
    hide ClosingNoted, Step, Enabled, IsRun;
    if es == [] {
      NothingNotedAtFirst(c, w);
    } else {
      var front, e := es[..|es| - 1], es[|es| - 1];
      RunEnds(c, Initial(w), es);
      ClosedOrAbandoned(c, w, front);
      StepNotesClosing(c, w, Play(c, Initial(w), front), front, e);
    }
  }

  /**
   Once some call closes the stream and the closing call has run to its end, the upstream has been
   closed and the usage reported, unless the stream is a generator closed before it was first read.
   */
  lemma AccountedUnlessAbandoned(c: Config, w: Wrapping, es: seq<Event>)
    requires IsRun(c, Initial(w), es) && (w.Bare? || w.Unstarted?)
    requires SomeClose(es)
    requires var closing := Play(c, Initial(w), es).closing; closing.NotClosing? || closing.Settled?
    ensures Play(c, Initial(w), es).upstreamCloses == 1 && |Play(c, Initial(w), es).reports| == 1
       <==> !(w.Unstarted? && ClosedUnread(es))
  {
    RunsAreSound(c, w, es);
    ClosedOrAbandoned(c, w, es);
  }

  /** A generator closed before its first read is such a stream: the upstream stays open and nothing is reported. */
  lemma UnreadGeneratorIsNotAccounted(c: Config)
    ensures IsRun(c, Initial(Unstarted), [Close])
    ensures var s := Play(c, Initial(Unstarted), [Close]); s.upstreamCloses == 0 && s.reports == [] && s.closing.NotClosing?
  {
    assert [Close][..0] == [];
  }

  ghost predicate Shut(s: State) {
    s.closed || s.wrapping.Abandoned?
  }

  lemma StepDeliversNothingNew(c: Config, s: State, e: Event)
    requires Shut(s)
    ensures var t := Step(c, s, e);
            && Shut(t) && |t.delivered| + t.readers <= |s.delivered| + s.readers && s.delivered <= t.delivered
  {
    match e
    case Read =>
    case Line(_) =>
    case End =>
    case Cancel =>
    case Fail =>
    case Close =>
    case LinesClosed =>
    case UpstreamClosed =>
  }

  /** After closing, only reads that were already waiting can still deliver a line. */
  lemma {:induction false} NothingNewAfterClosing(c: Config, s: State, es: seq<Event>)
    requires Shut(s)
    ensures var t := Play(c, s, es);
            && Shut(t) && |t.delivered| + t.readers <= |s.delivered| + s.readers && s.delivered <= t.delivered
  {
    if es != [] {
      NothingNewAfterClosing(c, s, es[..|es| - 1]);
      StepDeliversNothingNew(c, Play(c, s, es[..|es| - 1]), es[|es| - 1]);
    }
  }

  lemma StepReports(c: Config, w: Wrapping, s: State, es: seq<Event>, e: Event)
    requires Sound(c, w, s, es) && Enabled(s, e)
    ensures e.UpstreamClosed? ==> Step(c, s, e).reports == [Verdict(c, es)]
    ensures |s.reports| == 1 ==> Step(c, s, e).reports == s.reports
  {
    match e
    case UpstreamClosed => assert s.reports == [];
    case _ =>
  }

  /** The one report is the verdict on everything that happened before the closing call ended. */
  lemma {:induction false} ReportIsVerdict(c: Config, w: Wrapping, es: seq<Event>, n: nat)
    requires IsRun(c, Initial(w), es) && (w.Bare? || w.Unstarted?)
    requires n < |es| && es[n].UpstreamClosed?
    ensures Play(c, Initial(w), es).reports == [Verdict(c, es[..n])]
    ensures ReadsRecordable(c) ==> Recordable(Verdict(c, es[..n]).usage)
    decreases |es|
  {
    hide Sound, Step, Enabled, Verdict, IsRun, Play, ReadsRecordable, Recordable;
    var front, e := es[..|es| - 1], es[|es| - 1];
    RunEnds(c, Initial(w), es);
    RunsAreSound(c, w, front);
    StepReports(c, w, Play(c, Initial(w), front), front, e);
    if ReadsRecordable(c) {
      VerdictUsage(c, es[..n]);
      LastUsageIsRecordable(c, es[..n]);
    }
    if n < |front| {
      assert front[n] == es[n] && front[..n] == es[..n];
      ReportIsVerdict(c, w, front, n);
    }
  }

  lemma VerdictUsage(c: Config, es: seq<Event>)
    ensures Verdict(c, es).usage == LastUsage(c, es)
  {
  }

  lemma {:induction false} LastUsageIsRecordable(c: Config, es: seq<Event>)
    requires ReadsRecordable(c)
    ensures Recordable(LastUsage(c, es))
  {
    if es != [] {
      LastUsageIsRecordable(c, es[..|es| - 1]);
    }
  }

  ghost predicate ReadsRecordable(c: Config) {
    forall text :: c.read(text).usage.Some? ==> Recordable(c.read(text).usage.value)
  }

  lemma StreamReadsRecordable(codec: Codec, model: string, linesCloseable: bool)
    ensures ReadsRecordable(StreamConfig(codec, model, linesCloseable))
  {
    var c := StreamConfig(codec, model, linesCloseable);
    forall text | c.read(text).usage.Some? ensures Recordable(c.read(text).usage.value) {
      ExtractedIsRecordable(Lookup(Payload(codec, text).value, "usage"));
    }
  }

  /** What has been delivered is the rewriting, line by line and in order, of the lines read from the upstream. */
  lemma DeliveredIsRewritten(c: Config, w: Wrapping, es: seq<Event>)
    requires IsRun(c, Initial(w), es) && (w.Bare? || w.Unstarted?)
    ensures Play(c, Initial(w), es).delivered == Outputs(c, Lines(es))
  {
    RunsAreSound(c, w, es);
  }

  /** One output for one line, unless parsing or encoding a line raises. */
  lemma {:induction false} OutputsAreOneForOne(c: Config, lines: seq<string>)
    requires forall i :: 0 <= i < |lines| ==> c.read(lines[i]).output.Some?
    ensures |Outputs(c, lines)| == |lines|
    ensures forall i :: 0 <= i < |lines| ==> c.read(lines[i]).output == Some(Outputs(c, lines)[i])
  {
    if lines != [] {
      OutputsAreOneForOne(c, lines[..|lines| - 1]);
    }
  }

  /* The stream of one request, in terms of its lines */

  /** Some line read so far ends the stream. */
  ghost predicate ReadEnd(codec: Codec, es: seq<Event>) {
    exists i :: 0 <= i < |es| && es[i].Line? && MarksEnd(codec, es[i].text)
  }

  lemma ReadEndIsDone(codec: Codec, model: string, linesCloseable: bool, es: seq<Event>)
    ensures SawDone(StreamConfig(codec, model, linesCloseable), es) <==> ReadEnd(codec, es)
  {
    var c := StreamConfig(codec, model, linesCloseable);
    forall i | 0 <= i < |es| && es[i].Line? ensures c.read(es[i].text).done <==> MarksEnd(codec, es[i].text) {
      DoneIsReadIff(codec, es[i].text);
    }
  }

  /** The usage that this line of the stream reports: none if parsing it raises. */
  function UsageOn(codec: Codec, e: Event): Option<Usage> {
    if e.Line? && !BreaksOff(codec, e.text) then ExtractSseUsage(codec, e.text) else None
  }

  /** The last usage reported counts, and none at all if there is no such line. */
  ghost predicate IsLastUsage(codec: Codec, es: seq<Event>, usage: Usage) {
    if forall i :: 0 <= i < |es| ==> UsageOn(codec, es[i]).None? then usage == NO_USAGE
    else exists i :: 0 <= i < |es| && UsageOn(codec, es[i]) == Some(usage)
                     && forall j :: i < j < |es| ==> UsageOn(codec, es[j]).None?
  }

  lemma {:induction false} LastUsageIsLast(codec: Codec, model: string, linesCloseable: bool, es: seq<Event>)
    ensures IsLastUsage(codec, es, LastUsage(StreamConfig(codec, model, linesCloseable), es))
  {
    hide ExtractSseUsage, BreaksOff, Rewrite, IsDoneLine;
    if es != [] {
      var c, front, last := StreamConfig(codec, model, linesCloseable), es[..|es| - 1], es[|es| - 1];
      LastUsageIsLast(codec, model, linesCloseable, front);
      assert forall i :: 0 <= i < |front| ==> es[i] == front[i];
      if UsageOn(codec, last).Some? {
        assert UsageOn(codec, es[|es| - 1]) == Some(LastUsage(c, es));
      } else {
        assert LastUsage(c, es) == LastUsage(c, front);
        if !(forall i :: 0 <= i < |front| ==> UsageOn(codec, front[i]).None?) {
          var i :| 0 <= i < |front| && UsageOn(codec, front[i]) == Some(LastUsage(c, front))
                   && forall j :: i < j < |front| ==> UsageOn(codec, front[j]).None?;
          assert UsageOn(codec, es[i]) == Some(LastUsage(c, es));
        }
      }
    }
  }

  /**
   The one report of a request: succeeded exactly if a line that ends the stream was read, otherwise failed
   exactly if the upstream ended or broke; and the last usage that the upstream reported.
   */
  lemma StreamReport(codec: Codec, model: string, linesCloseable: bool, w: Wrapping, es: seq<Event>, n: nat)
    requires IsRun(StreamConfig(codec, model, linesCloseable), Initial(w), es) && (w.Bare? || w.Unstarted?)
    requires n < |es| && es[n].UpstreamClosed?
    ensures var reports := Play(StreamConfig(codec, model, linesCloseable), Initial(w), es).reports;
            && |reports| == 1
            && (reports[0].status.Succeeded? <==> ReadEnd(codec, es[..n]))
            && (reports[0].status.Failed? <==> !ReadEnd(codec, es[..n]) && (End in es[..n] || Fail in es[..n]))
            && reports[0].category == (match reports[0].status
                                       case Succeeded => None
                                       case Failed => Some(StreamIncomplete)
                                       case Aborted => Some(ClientDisconnected))
            && IsLastUsage(codec, es[..n], reports[0].usage) && Recordable(reports[0].usage)
  {
    hide Play, IsRun, IsLastUsage, ReadEnd, SawDone, LastUsage, ReadsRecordable, Recordable;
    var c := StreamConfig(codec, model, linesCloseable);
    ReportIsVerdict(c, w, es, n);
    ReadEndIsDone(codec, model, linesCloseable, es[..n]);
    LastUsageIsLast(codec, model, linesCloseable, es[..n]);
    StreamReadsRecordable(codec, model, linesCloseable);
  }

  /** A reader that takes these lines one after the other. */
  function Fetch(lines: seq<string>): seq<Event> {
    if lines == [] then [] else Fetch(lines[..|lines| - 1]) + [Read, Line(lines[|lines| - 1])]
  }

  /** The end of a request, and the closing that follows it. */
  function Ending(c: Config, e: Event): seq<Event> {
    (if e.Close? then [Close] else [Read, e]) + (if c.linesCloseable then [LinesClosed] else []) + [UpstreamClosed]
  }

  lemma RunExtends(c: Config, s: State, es: seq<Event>, e: Event)
    requires IsRun(c, s, es) && Enabled(Play(c, s, es), e)
    ensures IsRun(c, s, es + [e]) && Play(c, s, es + [e]) == Step(c, Play(c, s, es), e)
    ensures Lines(es + [e]) == if e.Line? then Lines(es) + [e.text] else Lines(es)
    ensures SawEnd(es + [e]) <==> SawEnd(es) || e.End? || e.Fail?
  {
    hide Enabled, Step, Lines, SawEnd, SawDone, LastUsage;
    TraceExtends(c, es, e);
    assert Lines(es) + [] == Lines(es);
    var all := es + [e];
    assert all[..|all| - 1] == es;
    forall i | 0 <= i < |all| ensures Enabled(Play(c, s, all[..i]), all[i]) {
      assert i < |es| ==> all[..i] == es[..i] && all[i] == es[i];
    }
  }

  /** Between two lines nothing is waiting and nothing closes. */
  predicate IsReading(s: State, w: Wrapping, lines: seq<string>) {
    && s.readers == 0 && !s.closed && s.closing.NotClosing? && !s.finalized
    && s.wrapping == if w.Bare? then Bare else if lines == [] then Unstarted else Started
  }

  lemma NothingFetched(c: Config, w: Wrapping)
    ensures IsRun(c, Initial(w), []) && Play(c, Initial(w), []) == Initial(w) && Lines([]) == [] && !SawEnd([])
  {
  }

  lemma {:induction false} FetchIsRun(c: Config, w: Wrapping, lines: seq<string>)
    requires w.Bare? || w.Unstarted?
    ensures IsRun(c, Initial(w), Fetch(lines)) && IsReading(Play(c, Initial(w), Fetch(lines)), w, lines)
    ensures Lines(Fetch(lines)) == lines && !SawEnd(Fetch(lines))
  {
    hide IsRun, Play, Lines, SawEnd;
    if lines == [] {
      NothingFetched(c, w);
    } else {
      var front, last := lines[..|lines| - 1], lines[|lines| - 1];
      FetchIsRun(c, w, front);
      var es := Fetch(front);
      RunExtends(c, Initial(w), es, Read);
      RunExtends(c, Initial(w), es + [Read], Line(last));
      assert Fetch(lines) == es + [Read] + [Line(last)];
      assert front + [last] == lines;
    }
  }

  /**
   However a request ends, reading its lines one after the other is a run that the stream allows, every line read
   is delivered as rewritten, the upstream is closed and one report made.
   */
  lemma WholeRequest(c: Config, w: Wrapping, lines: seq<string>, e: Event)
    requires (w.Bare? || w.Unstarted?) && IsClosing(e) && (e.Close? && w.Unstarted? ==> lines != [])
    ensures var es := Fetch(lines) + Ending(c, e);
            && IsRun(c, Initial(w), es) && Lines(es) == lines
            && Play(c, Initial(w), es).delivered == Outputs(c, lines)
            && Play(c, Initial(w), es).upstreamCloses == 1 && |Play(c, Initial(w), es).reports| == 1
            && Play(c, Initial(w), es).readers == 0
            && es[|es| - 1].UpstreamClosed? && (SawEnd(es) <==> e.End? || e.Fail?)
  {
    hide Step, Enabled, Outputs, Lines, SawEnd;
    var es := RequestCloses(c, w, lines, e);
    DeliveredIsRewritten(c, w, es);
    ClosesOnce(c, w, es);
  }

  lemma ReadingEnds(c: Config, w: Wrapping, lines: seq<string>, e: Event) returns (es: seq<Event>)
    requires (w.Bare? || w.Unstarted?) && IsClosing(e) && (e.Close? && w.Unstarted? ==> lines != [])
    ensures es == Fetch(lines) + (if e.Close? then [Close] else [Read, e])
    ensures IsRun(c, Initial(w), es) && Lines(es) == lines && (SawEnd(es) <==> e.End? || e.Fail?)
    ensures Play(c, Initial(w), es).closing == if c.linesCloseable then ClosingLines else ClosingUpstream
    ensures Play(c, Initial(w), es).readers == 0
  {
    hide IsRun, Play, Lines, SawEnd, Fetch;
    es := Fetch(lines);
    FetchIsRun(c, w, lines);
    if !e.Close? {
      RunExtends(c, Initial(w), es, Read);
      es := es + [Read];
    }
    RunExtends(c, Initial(w), es, e);
    es := es + [e];
    assert !e.Close? ==> es == Fetch(lines) + [Read, e];
  }

  lemma RequestCloses(c: Config, w: Wrapping, lines: seq<string>, e: Event) returns (es: seq<Event>)
    requires (w.Bare? || w.Unstarted?) && IsClosing(e) && (e.Close? && w.Unstarted? ==> lines != [])
    ensures es == Fetch(lines) + Ending(c, e) && IsRun(c, Initial(w), es) && Lines(es) == lines
    ensures Play(c, Initial(w), es).closing.Settled? && Play(c, Initial(w), es).readers == 0
    ensures es[|es| - 1].UpstreamClosed? && (SawEnd(es) <==> e.End? || e.Fail?)
  {
    hide IsRun, Play, Lines, SawEnd, Fetch;
    es := ReadingEnds(c, w, lines, e);
    if c.linesCloseable {
      RunExtends(c, Initial(w), es, LinesClosed);
      es := es + [LinesClosed];
    }
    RunExtends(c, Initial(w), es, UpstreamClosed);
    es := es + [UpstreamClosed];
    assert es == Fetch(lines) + Ending(c, e);
  }

  lemma {:induction false} EndIsAmongLines(codec: Codec, es: seq<Event>)
    ensures ReadEnd(codec, es) <==> exists line :: line in Lines(es) && MarksEnd(codec, line)
  {
    hide MarksEnd;
    if es != [] {
      var front, last := es[..|es| - 1], es[|es| - 1];
      EndIsAmongLines(codec, front);
      assert ReadEnd(codec, es) <==> ReadEnd(codec, front) || (last.Line? && MarksEnd(codec, last.text)) by {
        assert forall i :: 0 <= i < |front| ==> es[i] == front[i];
        assert es[|es| - 1] == last;
      }
      assert forall line :: line in Lines(es) <==> line in Lines(front) || (last.Line? && last.text == line);
    }
  }

  /**
   A request whose lines mark the end has succeeded however it is closed; one that ends without is failed, one
   given up aborted.
   */
  lemma RequestIsReported(codec: Codec, model: string, linesCloseable: bool, w: Wrapping, lines: seq<string>, e: Event)
    requires (w.Bare? || w.Unstarted?) && IsClosing(e) && (e.Close? && w.Unstarted? ==> lines != [])
    ensures var c := StreamConfig(codec, model, linesCloseable);
            var reports := Play(c, Initial(w), Fetch(lines) + Ending(c, e)).reports;
            && |reports| == 1
            && reports[0].status == (if exists line :: line in lines && MarksEnd(codec, line) then Succeeded
                                     else if e.End? || e.Fail? then Failed else Aborted)
  {
    hide Play, IsRun, IsLastUsage, Recordable, Fetch, MarksEnd;
    var c := StreamConfig(codec, model, linesCloseable);
    var es := Fetch(lines) + Ending(c, e);
    WholeRequest(c, w, lines, e);
    var n := |es| - 1;
    StreamReport(codec, model, linesCloseable, w, es, n);
    EndIsAmongLines(codec, es[..n]);
    assert es[..n] + [UpstreamClosed] == es;
    TraceExtends(c, es[..n], UpstreamClosed);
    assert Lines(es[..n]) + [] == Lines(es[..n]);
  }

  predicate ReadsAlone(s: State) {
    !s.wrapping.Bare? && s.readers <= 1 && (s.wrapping.Unstarted? ==> s.readers == 0)
  }

  lemma StepReadsAlone(c: Config, s: State, e: Event)
    requires ReadsAlone(s) && Enabled(s, e)
    ensures ReadsAlone(Step(c, s, e))
  {
  }

  /** A generator has at most one suspended read, however it is used; the bare stream allows several. */
  lemma {:induction false} GeneratorReadsAlone(c: Config, es: seq<Event>)
    requires IsRun(c, Initial(Unstarted), es)
    ensures ReadsAlone(Play(c, Initial(Unstarted), es)) && Play(c, Initial(Unstarted), es).readers <= 1
  {
    hide IsRun, Step, Enabled;
    if es != [] {
      RunEnds(c, Initial(Unstarted), es);
      GeneratorReadsAlone(c, es[..|es| - 1]);
      StepReadsAlone(c, Play(c, Initial(Unstarted), es[..|es| - 1]), es[|es| - 1]);
    }
  }

  /** Reads and a close of the bare stream may overlap. */
  lemma BareReadsOverlap(c: Config, line: string)
    ensures IsRun(c, Initial(Bare), [Read, Read, Close, Line(line)])
    ensures Play(c, Initial(Bare), [Read, Read, Close, Line(line)]).delivered == Output(c, line)
  {
    var s, none: seq<Event> := Initial(Bare), [];
    RunExtends(c, s, none, Read);
    RunExtends(c, s, none + [Read], Read);
    RunExtends(c, s, none + [Read] + [Read], Close);
    RunExtends(c, s, none + [Read] + [Read] + [Close], Line(line));
    assert none + [Read] + [Read] + [Close] + [Line(line)] == [Read, Read, Close, Line(line)];
  }

  /**
   The stream object. Each method is the code between two suspensions; `waiting` counts the reads
   suspended on the upstream, and `closing` says where the closing call is suspended.
   */
  class ClosingSSEStream {
    const config: Config
    var closed: bool
    var sawDone: bool
    var ended: bool
    var failed: bool
    var usage: Usage
    var finalized: bool
    var waiting: nat
    var closing: Closing
    var upstreamCloses: nat
    var delivered: seq<string>
    var reports: seq<Report>

    ghost function Contents(): State
      reads this
    {
      State(Bare, waiting, closed, sawDone, ended, failed, usage, finalized, closing, upstreamCloses, delivered, reports)
    }

    constructor (config: Config)
      ensures Contents() == Initial(Bare) && this.config == config
    {
      this.config := config;
      closed, sawDone, ended, failed, usage, finalized := false, false, false, false, NO_USAGE, false;
      waiting, closing, upstreamCloses, delivered, reports := 0, NotClosing, 0, [], [];
    }

    /** Begins a read; a stream already closed answers at once that there is no more. */
    method BeginRead() returns (stop: bool)
      modifies this
      ensures Contents() == Step(config, old(Contents()), Read) && stop == old(closed)
    {
      stop := closed;
      if !closed {
        waiting := waiting + 1;
      }
    }

    method ReceiveLine(line: string) returns (output: Option<string>)
      requires Enabled(Contents(), Line(line))
      modifies this
      ensures Contents() == Step(config, old(Contents()), Line(line)) && output == config.read(line).output
    {
      waiting := waiting - 1;
      var reading := config.read(line);
      if reading.usage.Some? {
        usage := reading.usage.value;
      }
      if reading.done {
        sawDone := true;
      }
      output := reading.output;
      if output.Some? {
        delivered := delivered + [output.value];
      }
    }

    method ReachEnd()
      requires Enabled(Contents(), End)
      modifies this
      ensures Contents() == Step(config, old(Contents()), End)
    {
      waiting, ended := waiting - 1, true;
      StartClose();
    }

    method BeCancelled()
      requires Enabled(Contents(), Cancel)
      modifies this
      ensures Contents() == Step(config, old(Contents()), Cancel)
    {
      waiting := waiting - 1;
      StartClose();
    }

    method BreakOff()
      requires Enabled(Contents(), Fail)
      modifies this
      ensures Contents() == Step(config, old(Contents()), Fail)
    {
      waiting, failed := waiting - 1, true;
      StartClose();
    }

    /** The close call up to its first suspension; every later call finds the stream closed. */
    method StartClose()
      modifies this
      ensures Contents() == Step(config, old(Contents()), Close) == BeginClose(config, old(Contents()))
    {
      if closed {
        return;
      }
      closed := true;
      if config.linesCloseable {
        closing := ClosingLines;
      } else {
        closing, upstreamCloses := ClosingUpstream, upstreamCloses + 1;
      }
    }

    /** Closing the lines is over, whether or not it raised: the upstream is closed next. */
    method CloseUpstream()
      requires Enabled(Contents(), LinesClosed)
      modifies this
      ensures Contents() == Step(config, old(Contents()), LinesClosed)
    {
      closing, upstreamCloses := ClosingUpstream, upstreamCloses + 1;
    }

    /** Closing the upstream is over, whether or not it raised: the usage is reported. */
    method EndClose()
      requires Enabled(Contents(), UpstreamClosed)
      modifies this
      ensures Contents() == Step(config, old(Contents()), UpstreamClosed)
    {
      closing := Settled;
      ReportOnce();
    }

    method ReportOnce()
      modifies this
      ensures Contents() == FinishOnce(old(Contents()))
    {
      if finalized {
        return;
      }
      finalized := true;
      var status, category := Aborted, Some(ClientDisconnected);
      if sawDone {
        status, category := Succeeded, None;
      } else if failed || ended {
        status, category := Failed, Some(StreamIncomplete);
      }
      reports := reports + [Report(status, usage, category)];
    }
  }
}
