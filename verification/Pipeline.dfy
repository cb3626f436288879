/** The fetcher and the analyzer as two processes that share a channel of capacity one, a channel
    that is closed when the analyzer is done, and a success flag; the main process waits for their
    results and goes on to send only when there is something to send. */
module Pipeline {
  import opened Analyzers
  import opened Fetchers
  import opened Models
  import opened SendDecisions

  // What the cloud controller answers: some non-empty pages, then an empty one or a failure.
  datatype Script = Script(pages: seq<Page>, batches: seq<Batch>, endsWell: bool)

  ghost predicate ValidScript(c: Script) {
    && |c.batches| == |c.pages|
    && (forall i :: 0 <= i < |c.pages| ==> c.pages[i] != map[] && IsBatchOf(c.pages[i], c.batches[i]))
  }

  datatype Fetcher =
    | Requesting(page: nat)      // about to request a page
    | Offering(page: nat)        // in the select: the analyzer is done, or the channel has room
    | Fetched(ok: bool)          // has its result, has not set the flag yet
    | Reporting(ok: bool)        // about to report its error, or the lack of one
    | ClosingError
    | ClosingApps
    | FetcherStopped

  datatype Analyzer =
    | Preparing                  // freshness, apps and queues are still to be read
    | Receiving
    | Checking                   // the channel is drained and closed, the flag is to be read
    | Saving(write: nat)         // crash counts, starts, stops
    | Leaving(ok: bool)          // about to close the done channel
    | ReportingError(ok: bool)
    | ReportingOutput(ok: bool)
    | ClosingOutput(ok: bool)
    | ClosingErrors(ok: bool)
    | AnalyzerStopped(ok: bool)

  datatype MainProcess = Waiting | Returned | Sending

  // A channel of capacity one that carries a single verdict.
  datatype Slot = Slot(content: Option<bool>, closed: bool)

  datatype State = State(
    fetcher: Fetcher,
    analyzer: Analyzer,
    main: MainProcess,
    apps: seq<Batch>,
    appsClosed: bool,
    doneClosed: bool,
    success: bool,
    sent: nat,
    numResults: nat,
    received: seq<Batch>,
    saved: nat,
    fetchError: Slot,
    analyzeError: Slot,
    output: Slot)

  const EMPTY := Slot(None, false)

  const INITIAL := State(Requesting(0), Preparing, Waiting, [], false, false, false, 0, 0, [], 0, EMPTY, EMPTY, EMPTY)

  // ---------- the steps ----------

  ghost predicate FetcherStep(c: Script, s: State, s': State) {
    match s.fetcher
    case Requesting(k) =>
      if k < |c.pages| then s' == s.(fetcher := Offering(k))
      else s' == s.(fetcher := Fetched(c.endsWell))
    case Offering(k) =>
      || (s.doneClosed && s' == s.(fetcher := Fetched(false)))
      || (s.apps == [] && k < |c.batches| && k < |c.pages| &&
          s' == s.(fetcher := Requesting(k + 1), apps := [c.batches[k]], sent := s.sent + 1,
                   numResults := s.numResults + |c.pages[k]|))
    case Fetched(ok) => s' == s.(fetcher := Reporting(ok), success := s.success || ok)
    case Reporting(ok) => s' == s.(fetcher := ClosingError, fetchError := s.fetchError.(content := Some(ok)))
    case ClosingError => s' == s.(fetcher := ClosingApps, fetchError := s.fetchError.(closed := true))
    case ClosingApps => s' == s.(fetcher := FetcherStopped, appsClosed := true)
    case FetcherStopped => false
  }

  ghost predicate AnalyzerStep(s: State, s': State) {
    match s.analyzer
    case Preparing =>
      s' == s.(analyzer := Receiving) || s' == s.(analyzer := Leaving(false))
    case Receiving =>
      if s.apps != [] then s' == s.(apps := s.apps[1..], received := s.received + [s.apps[0]])
      else s.appsClosed && s' == s.(analyzer := Checking)
    case Checking =>
      s' == s.(analyzer := if s.success then Saving(0) else Leaving(false))
    case Saving(w) =>
      || s' == s.(analyzer := Leaving(false))
      || s' == s.(analyzer := if w < 2 then Saving(w + 1) else Leaving(true), saved := s.saved + 1)
    case Leaving(ok) => s' == s.(analyzer := ReportingError(ok), doneClosed := true)
    case ReportingError(ok) =>
      s' == s.(analyzer := ReportingOutput(ok), analyzeError := s.analyzeError.(content := Some(ok)))
    case ReportingOutput(ok) =>
      s' == s.(analyzer := ClosingOutput(ok), output := s.output.(content := Some(ok)))
    case ClosingOutput(ok) => s' == s.(analyzer := ClosingErrors(ok), output := s.output.(closed := true))
    case ClosingErrors(ok) => s' == s.(analyzer := AnalyzerStopped(ok), analyzeError := s.analyzeError.(closed := true))
    case AnalyzerStopped(_) => false
  }

  // The select of the main process. Receiving from a closed, empty channel changes nothing and is
  // not counted as a step.
  ghost predicate MainStep(s: State, s': State) {
    s.main.Waiting? &&
    (|| (s.fetchError.content.Some? &&
         s' == s.(fetchError := s.fetchError.(content := None),
                  main := if s.fetchError.content.value then Waiting else Returned))
     || (s.analyzeError.content.Some? &&
         s' == s.(analyzeError := s.analyzeError.(content := None),
                  main := if s.analyzeError.content.value then Waiting else Returned))
     || (s.output.content.Some? &&
         s' == s.(output := s.output.(content := None),
                  main := if s.output.content.value then Sending else Waiting)))
  }

  ghost predicate Next(c: Script, s: State, s': State) {
    FetcherStep(c, s, s') || AnalyzerStep(s, s') || MainStep(s, s')
  }

  ghost predicate Final(s: State) {
    s.fetcher.FetcherStopped? && s.analyzer.AnalyzerStopped? && !s.main.Waiting?
  }

  // No process can take a step.
  ghost predicate Stuck(c: Script, s: State) { forall s' :: !Next(c, s, s') }

  // ---------- the invariant ----------

  ghost function Total(pages: seq<Page>): nat {
    if pages == [] then 0 else Total(pages[..|pages| - 1]) + |pages[|pages| - 1]|
  }

  // The fetcher has handed over every page and met the empty one.
  ghost predicate Complete(c: Script, s: State) {
    s.sent == |c.batches| && c.endsWell && s.numResults == Total(c.pages)
  }

  // What the fetcher has done, and that nothing of it has been lost between the two processes.
  ghost predicate Delivery(c: Script, sent: nat, numResults: nat, received: seq<Batch>, apps: seq<Batch>) {
    && sent <= |c.batches| == |c.pages| && numResults == Total(c.pages[..sent])
    && received + apps == c.batches[..sent] && |apps| <= 1
  }

  ghost predicate FetcherInv(c: Script, s: State) {
    && Delivery(c, s.sent, s.numResults, s.received, s.apps)
    && (s.fetcher.Requesting? ==> s.fetcher.page == s.sent <= |c.pages|)
    && (s.fetcher.Offering? ==> s.fetcher.page == s.sent < |c.pages|)
    && (s.fetcher.Fetched? && s.fetcher.ok ==> Complete(c, s))
    && (s.fetcher.Reporting? && s.fetcher.ok ==> Complete(c, s))
    && (s.success ==> Complete(c, s) && !s.fetcher.Requesting? && !s.fetcher.Offering? && !s.fetcher.Fetched?)
    && (s.appsClosed <==> s.fetcher.FetcherStopped?)
  }

  // The check has been passed.
  predicate Passed(a: Analyzer) {
    || a.Saving?
    || ((a.Leaving? || a.ReportingError? || AfterError(a)) && a.ok)
  }

  ghost predicate AnalyzerInv(c: Script, s: State) {
    && (s.doneClosed <==> s.analyzer.ReportingError? || AfterError(s.analyzer))
    && (s.analyzer.Checking? || s.analyzer.Saving? ==> s.appsClosed && s.apps == [])
    && (Passed(s.analyzer) || s.saved > 0 ==> s.received == c.batches && c.endsWell)
    && (s.analyzer.Preparing? || s.analyzer.Receiving? || s.analyzer.Checking? ==> s.saved == 0)
    && (s.analyzer.Saving? ==> s.saved == s.analyzer.write <= 2)
    && (Passed(s.analyzer) && !s.analyzer.Saving? ==> s.saved == 3)
  }

  // Until the main process has acted on it, the analyzer's verdict is on its way to it: a failure as
  // an error, a success as output.
  ghost predicate ErrorInv(s: State) {
    && (s.analyzeError.content.Some? ==> AfterError(s.analyzer) && s.analyzeError.content.value == Passed(s.analyzer))
    && (s.main.Waiting? && !Passed(s.analyzer) && AfterError(s.analyzer) ==> s.analyzeError.content.Some?)
  }

  ghost predicate OutputInv(s: State) {
    && (s.main.Sending? ==> Passed(s.analyzer) && AfterOutput(s.analyzer))
    && (s.output.content.Some? ==> AfterOutput(s.analyzer) && s.output.content.value == Passed(s.analyzer))
    && (s.main.Waiting? && Passed(s.analyzer) && AfterOutput(s.analyzer) ==> s.output.content.Some?)
  }

  ghost predicate MainInv(s: State) { ErrorInv(s) && OutputInv(s) }

  predicate AfterError(a: Analyzer) {
    a.ReportingOutput? || a.ClosingOutput? || a.ClosingErrors? || a.AnalyzerStopped?
  }

  predicate AfterOutput(a: Analyzer) { a.ClosingOutput? || a.ClosingErrors? || a.AnalyzerStopped? }

  ghost predicate Inv(c: Script, s: State) {
    FetcherInv(c, s) && AnalyzerInv(c, s) && MainInv(s)
  }

  lemma InitialInv(c: Script)
    requires ValidScript(c)
    ensures Inv(c, INITIAL)
  {
  }

  lemma DeliverOne(c: Script, k: nat, numResults: nat, received: seq<Batch>)
    requires Delivery(c, k, numResults, received, []) && k < |c.pages|
    ensures Delivery(c, k + 1, numResults + |c.pages[k]|, received, [c.batches[k]])
  {
    assert c.batches[..k + 1] == c.batches[..k] + [c.batches[k]];
    assert c.pages[..k + 1][..k] == c.pages[..k];
    assert received + [] == received;
  }

  lemma ReceiveOne(c: Script, sent: nat, numResults: nat, received: seq<Batch>, apps: seq<Batch>)
    requires Delivery(c, sent, numResults, received, apps) && apps != []
    ensures Delivery(c, sent, numResults, received + [apps[0]], apps[1..])
  {
    assert received + apps == (received + [apps[0]]) + apps[1..];
  }

  lemma DeliveredAll(c: Script, numResults: nat, received: seq<Batch>, apps: seq<Batch>)
    requires Delivery(c, |c.batches|, numResults, received, apps)
    ensures numResults == Total(c.pages)
    ensures apps == [] ==> received == c.batches
  {
    assert c.pages[..|c.pages|] == c.pages;
    assert c.batches[..|c.batches|] == c.batches;
    assert received + [] == received;
  }

  lemma FetcherKeepsFetcherInv(c: Script, s: State, s': State)
    requires FetcherInv(c, s) && FetcherStep(c, s, s')
    ensures FetcherInv(c, s')
  {
    assert s.sent <= |c.batches| == |c.pages|;
    hide Delivery, Total;
    if s.fetcher.Offering? && s'.fetcher.Requesting? {
      DeliverOne(c, s.sent, s.numResults, s.received);
    }
    if s.sent == |c.batches| {
      DeliveredAll(c, s.numResults, s.received, s.apps);
    }
  }

  lemma FetcherKeepsRest(c: Script, s: State, s': State)
    requires FetcherInv(c, s) && AnalyzerInv(c, s) && MainInv(s) && FetcherStep(c, s, s')
    ensures AnalyzerInv(c, s') && MainInv(s')
  {
    hide Delivery, Total;
  }

  lemma FetcherKeepsInv(c: Script, s: State, s': State)
    requires ValidScript(c) && Inv(c, s) && FetcherStep(c, s, s')
    ensures Inv(c, s')
  {
    hide FetcherInv, AnalyzerInv, MainInv, FetcherStep;
    FetcherKeepsFetcherInv(c, s, s');
    FetcherKeepsRest(c, s, s');
  }

  lemma AnalyzerKeepsFetcherInv(c: Script, s: State, s': State)
    requires FetcherInv(c, s) && AnalyzerStep(s, s')
    ensures FetcherInv(c, s')
  {
    hide Delivery, Total;
    if s.analyzer.Receiving? && s.apps != [] {
      ReceiveOne(c, s.sent, s.numResults, s.received, s.apps);
    }
  }

  lemma AnalyzerKeepsAnalyzerInv(c: Script, s: State, s': State)
    requires FetcherInv(c, s) && AnalyzerInv(c, s) && AnalyzerStep(s, s')
    ensures AnalyzerInv(c, s')
  {
    hide Delivery, Total;
    if s.analyzer.Checking? && s.success {
      DeliveredAll(c, s.numResults, s.received, s.apps);
    }
  }

  // What a step of the analyzer does to its verdict and to the channels that carry it.
  lemma AnalyzerReportsError(s: State, s': State)
    requires AnalyzerStep(s, s')
    ensures s'.main == s.main
    ensures if s.analyzer.ReportingError? then
              AfterError(s'.analyzer) && s'.analyzeError.content == Some(Passed(s'.analyzer))
            else
              && s'.analyzeError.content == s.analyzeError.content
              && (AfterError(s'.analyzer) <==> AfterError(s.analyzer))
    ensures AfterError(s.analyzer) ==> Passed(s'.analyzer) == Passed(s.analyzer)
  {
  }

  lemma AnalyzerReportsOutput(s: State, s': State)
    requires AnalyzerStep(s, s')
    ensures s'.main == s.main
    ensures if s.analyzer.ReportingOutput? then
              AfterOutput(s'.analyzer) && s'.output.content == Some(Passed(s'.analyzer))
            else
              && s'.output.content == s.output.content
              && (AfterOutput(s'.analyzer) <==> AfterOutput(s.analyzer))
    ensures AfterOutput(s.analyzer) ==> Passed(s'.analyzer) == Passed(s.analyzer)
  {
  }

  lemma AnalyzerKeepsErrorInv(s: State, s': State)
    requires ErrorInv(s) && AnalyzerStep(s, s')
    ensures ErrorInv(s')
  {
    hide AnalyzerStep, AfterError, Passed;
    AnalyzerReportsError(s, s');
  }

  lemma AnalyzerKeepsOutputInv(s: State, s': State)
    requires OutputInv(s) && AnalyzerStep(s, s')
    ensures OutputInv(s')
  {
    hide AnalyzerStep, AfterOutput, Passed;
    AnalyzerReportsOutput(s, s');
  }

  lemma AnalyzerKeepsInv(c: Script, s: State, s': State)
    requires ValidScript(c) && Inv(c, s) && AnalyzerStep(s, s')
    ensures Inv(c, s')
  {
    hide FetcherInv, AnalyzerInv, ErrorInv, OutputInv, AnalyzerStep;
    AnalyzerKeepsFetcherInv(c, s, s');
    AnalyzerKeepsAnalyzerInv(c, s, s');
    AnalyzerKeepsErrorInv(s, s');
    AnalyzerKeepsOutputInv(s, s');
  }

  lemma MainKeepsInv(c: Script, s: State, s': State)
    requires Inv(c, s) && MainStep(s, s')
    ensures Inv(c, s')
  {
    hide Total;
  }

  lemma StepKeepsInv(c: Script, s: State, s': State)
    requires ValidScript(c) && Inv(c, s) && Next(c, s, s')
    ensures Inv(c, s')
  {
    hide Inv, FetcherStep, AnalyzerStep, MainStep;
    if FetcherStep(c, s, s') {
      FetcherKeepsInv(c, s, s');
    } else if AnalyzerStep(s, s') {
      AnalyzerKeepsInv(c, s, s');
    } else {
      MainKeepsInv(c, s, s');
    }
  }

  // ---------- progress ----------

  function FetcherRank(c: Script, f: Fetcher): int {
    match f
    case Requesting(k) => 4 * (|c.pages| - k) + 12
    case Offering(k) => 4 * (|c.pages| - k) + 11
    case Fetched(_) => 8
    case Reporting(_) => 6
    case ClosingError => 2
    case ClosingApps => 1
    case FetcherStopped => 0
  }

  function AnalyzerRank(a: Analyzer): int {
    match a
    case Preparing => 20
    case Receiving => 19
    case Checking => 18
    case Saving(w) => 17 - w
    case Leaving(_) => 10
    case ReportingError(_) => 8
    case ReportingOutput(_) => 5
    case ClosingOutput(_) => 2
    case ClosingErrors(_) => 1
    case AnalyzerStopped(_) => 0
  }

  function Pending(slot: Slot): int { if slot.content.Some? then 1 else 0 }

  function Measure(c: Script, s: State): int {
    FetcherRank(c, s.fetcher) + AnalyzerRank(s.analyzer) + 2 * |s.apps| +
    Pending(s.fetchError) + Pending(s.analyzeError) + Pending(s.output)
  }

  lemma MeasureIsNatural(c: Script, s: State)
    requires FetcherInv(c, s) && AnalyzerInv(c, s)
    ensures 0 <= Measure(c, s)
  {
    hide Total;
  }

  lemma FetcherStepDecreases(c: Script, s: State, s': State)
    requires FetcherInv(c, s) && FetcherStep(c, s, s')
    ensures Measure(c, s') < Measure(c, s)
  {
    hide Total, Delivery, Complete;
  }

  lemma AnalyzerStepDecreases(c: Script, s: State, s': State)
    requires AnalyzerInv(c, s) && AnalyzerStep(s, s')
    ensures Measure(c, s') < Measure(c, s)
  {
  }

  lemma MainStepDecreases(c: Script, s: State, s': State)
    requires MainStep(s, s')
    ensures Measure(c, s') < Measure(c, s)
  {
  }

  lemma StepDecreases(c: Script, s: State, s': State)
    requires ValidScript(c) && Inv(c, s) && Next(c, s, s')
    ensures 0 <= Measure(c, s') < Measure(c, s)
  {
    hide FetcherInv, AnalyzerInv, MainInv, FetcherStep, AnalyzerStep, MainStep, Measure;
    StepKeepsInv(c, s, s');
    MeasureIsNatural(c, s');
    if FetcherStep(c, s, s') {
      FetcherStepDecreases(c, s, s');
    } else if AnalyzerStep(s, s') {
      AnalyzerStepDecreases(c, s, s');
    } else {
      MainStepDecreases(c, s, s');
    }
  }

  lemma FetcherMoves(c: Script, s: State) returns (s': State)
    requires ValidScript(c) && Inv(c, s)
    requires !s.fetcher.FetcherStopped? && !(s.fetcher.Offering? && s.apps != [])
    ensures FetcherStep(c, s, s')
  {
    match s.fetcher
    case Requesting(k) => s' := s.(fetcher := if k < |c.pages| then Offering(k) else Fetched(c.endsWell));
    case Offering(k) =>
      s' := s.(fetcher := Requesting(k + 1), apps := [c.batches[k]], sent := s.sent + 1,
               numResults := s.numResults + |c.pages[k]|);
    case Fetched(ok) => s' := s.(fetcher := Reporting(ok), success := s.success || ok);
    case Reporting(ok) => s' := s.(fetcher := ClosingError, fetchError := s.fetchError.(content := Some(ok)));
    case ClosingError => s' := s.(fetcher := ClosingApps, fetchError := s.fetchError.(closed := true));
    case ClosingApps => s' := s.(fetcher := FetcherStopped, appsClosed := true);
  }

  lemma AnalyzerMoves(c: Script, s: State) returns (s': State)
    requires Inv(c, s) && !s.analyzer.AnalyzerStopped?
    requires s.analyzer.Receiving? && s.apps == [] ==> s.appsClosed
    ensures AnalyzerStep(s, s')
  {
    match s.analyzer
    case Preparing => s' := s.(analyzer := Receiving);
    case Receiving =>
      s' := if s.apps != [] then s.(apps := s.apps[1..], received := s.received + [s.apps[0]])
            else s.(analyzer := Checking);
    case Checking => s' := s.(analyzer := if s.success then Saving(0) else Leaving(false));
    case Saving(w) => s' := s.(analyzer := Leaving(false));
    case Leaving(ok) => s' := s.(analyzer := ReportingError(ok), doneClosed := true);
    case ReportingError(ok) =>
      s' := s.(analyzer := ReportingOutput(ok), analyzeError := s.analyzeError.(content := Some(ok)));
    case ReportingOutput(ok) => s' := s.(analyzer := ClosingOutput(ok), output := s.output.(content := Some(ok)));
    case ClosingOutput(ok) => s' := s.(analyzer := ClosingErrors(ok), output := s.output.(closed := true));
    case ClosingErrors(ok) =>
      s' := s.(analyzer := AnalyzerStopped(ok), analyzeError := s.analyzeError.(closed := true));
  }

  /** No state short of the end is stuck: some process can take a step. */
  lemma NeverStuck(c: Script, s: State) returns (s': State)
    requires ValidScript(c) && Inv(c, s) && !Final(s)
    ensures Next(c, s, s')
  {
    hide Total, IsBatchOf;
    if !s.fetcher.FetcherStopped? && !(s.fetcher.Offering? && s.apps != []) {
      s' := FetcherMoves(c, s);
    } else if !s.analyzer.AnalyzerStopped? {
      s' := AnalyzerMoves(c, s);
    } else if s.fetcher.Offering? {
      s' := s.(fetcher := Fetched(false));
    } else if s.output.content.Some? {
      s' := s.(output := s.output.(content := None), main := if s.output.content.value then Sending else Waiting);
    } else {
      s' := s.(analyzeError := s.analyzeError.(content := None),
               main := if s.analyzeError.content.value then Waiting else Returned);
    }
  }

  // ---------- whole runs ----------

  // An interleaving of the three processes from the start.
  ghost predicate IsRun(c: Script, run: seq<State>) {
    run != [] && run[0] == INITIAL && forall i :: 0 < i < |run| ==> Next(c, run[i - 1], run[i])
  }

  lemma {:induction false} RunKeepsInv(c: Script, run: seq<State>, i: nat)
    requires ValidScript(c) && IsRun(c, run) && i < |run|
    ensures Inv(c, run[i])
    ensures 0 <= Measure(c, run[i]) <= Measure(c, INITIAL) - i
    decreases i
  {
    hide Inv, Next, Measure, ValidScript;
    if i == 0 {
      InitialInv(c);
      InitialMeasure(c);
    } else {
      RunKeepsInv(c, run, i - 1);
      StepKeepsInv(c, run[i - 1], run[i]);
      StepDecreases(c, run[i - 1], run[i]);
    }
  }

  lemma InitialMeasure(c: Script)
    ensures 0 <= Measure(c, INITIAL) == 4 * |c.pages| + 32
  {
  }

  /** Every interleaving ends: it has at most 4n+32 steps for n pages, and one that cannot be
      continued has all three processes at rest. */
  lemma EveryRunEnds(c: Script, run: seq<State>)
    requires ValidScript(c) && IsRun(c, run)
    ensures |run| <= 4 * |c.pages| + 33
    ensures Stuck(c, run[|run| - 1]) ==> Final(run[|run| - 1])
  {
    hide Inv, Next, Measure, ValidScript;
    RunKeepsInv(c, run, |run| - 1);
    InitialMeasure(c);
    if !Final(run[|run| - 1]) {
      var s' := NeverStuck(c, run[|run| - 1]);
    }
  }

  /** In every state of every interleaving, an analyzer that has passed the success check, has saved
      anything, or whose output is being sent, has received all the batches of a complete fetch. After
      a fetch that failed nothing is ever saved or sent. */
  lemma CheckedAnalyzerHasEverything(c: Script, run: seq<State>, i: nat)
    requires ValidScript(c) && IsRun(c, run) && i < |run|
    requires Passed(run[i].analyzer) || run[i].saved > 0 || run[i].main.Sending?
    ensures c.endsWell && run[i].received == c.batches
    ensures forall k :: k in DesiredKeys(run[i].received) <==> WantedSomewhere(c.pages, k)
    ensures run[i].main.Sending? ==> run[i].saved == 3
  {
    hide Total, WantedSomewhere;
    RunKeepsInv(c, run, i);
    BatchesNameTheWanted(c.pages, c.batches);
  }

  /** What that means for the round: an app the cloud controller wants started is never treated as one
      to be removed, and a running app that it does not want is analyzed as not desired. */
  lemma NoWantedAppIsRemoved(c: Script, run: seq<State>, i: nat, r: Round, actual: map<AppKey, AppSnapshot>,
                             p: Progress,
                             starts: seq<PendingStart>, stops: seq<PendingStop>)
    requires ValidScript(c) && IsRun(c, run) && i < |run| && Passed(run[i].analyzer)
    requires r.conf.Valid() && ActualApps(actual)
    requires CompleteRound(r, actual, run[i].received, p, starts, stops)
    ensures forall k :: WantedSomewhere(c.pages, k) ==>
              k in p.apps && IsWantedAs(p.apps[k].desired, k)
    ensures forall k :: k in actual && !WantedSomewhere(c.pages, k) ==> k in p.apps && p.apps[k].desired == NOT_DESIRED
  {
    hide Tallied, Gathered, WantedSomewhere, IsRun, IsWantedAs, Inv, CompleteRound, DesiredSnapshots, LastBatchCounts,
         HandedOn;
    CheckedAnalyzerHasEverything(c, run, i);
    CompleteRoundApps(r, actual, c.batches, p, starts, stops);
    forall k | WantedSomewhere(c.pages, k)
      ensures k in p.apps && IsWantedAs(p.apps[k].desired, k)
    {
      WantedIsAnalyzedAsDesired(c, actual, p.apps, k);
    }
  }

  lemma CompleteRoundApps(r: Round, actual: map<AppKey, AppSnapshot>, batches: seq<Batch>, p: Progress,
                          starts: seq<PendingStart>, stops: seq<PendingStop>)
    requires r.conf.Valid() && ActualApps(actual)
    requires CompleteRound(r, actual, batches, p, starts, stops)
    ensures forall k :: k in actual && k !in DesiredKeys(batches) ==> k in p.apps && p.apps[k].desired == NOT_DESIRED
    ensures LastBatchCounts(actual, batches, p.apps)
  {
    hide Tallied, Gathered, Lists, OneOwner, WithDesired, DesiredSnapshots, LastBatchCounts, HandedOn;
  }

  lemma WantedIsAnalyzedAsDesired(c: Script, actual: map<AppKey, AppSnapshot>, apps: map<AppKey, AppSnapshot>,
                                  k: AppKey)
    requires ValidScript(c) && k in DesiredKeys(c.batches)
    requires LastBatchCounts(actual, c.batches, apps)
    ensures k in apps && IsWantedAs(apps[k].desired, k)
  {
    hide IsWantedAs, Total, NotAfter, WithDesired;
    var j := LastNaming(c.batches, k);
    var d := c.batches[j][k];
    assert IsWantedAs(d, k) by {
      assert IsBatchOf(c.pages[j], c.batches[j]);
    }
    assert apps[k] == WithDesired(actual, d);
    DesiredIsKept(actual, d);
  }

  lemma DesiredIsKept(actual: map<AppKey, AppSnapshot>, d: DesiredAppState)
    ensures WithDesired(actual, d).desired == d
  {
  }
}
