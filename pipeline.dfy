/**
 * `main`: an empty input directory stops the program; otherwise the naming
 * convention is detected, the files are grouped by sample, and each sample
 * in turn is dispatched on the number of its files: two files run the
 * single-lane stages, an even number above two the multi-lane stages, an
 * odd number above two is passed over, and a single file raises an error
 * naming the sample, which ends the run.
 */
module Pipeline {
  import opened Wrappers
  import opened Text
  import opened Naming
  import opened Grouping
  import opened Stages

  /** What `main` does with a sample, by the number of its files. */
  datatype Mode = SingleLane | MultiLane | Skipped | Unpaired

  /** The dispatch on `len(files)`. */
  function ModeFor(count: nat): (m: Mode)
    ensures m == SingleLane <==> count == 2
    ensures m == MultiLane <==> count > 2 && count % 2 == 0
    ensures m == Skipped <==> count > 2 && count % 2 == 1
    ensures m == Unpaired <==> count < 2
  {
    if count == 2 then SingleLane
    else if count > 2 then (if count % 2 == 0 then MultiLane else Skipped)
    else Unpaired
  }

  /** The stages run for one sample, and the log file (in the log directory) they write to. */
  datatype SampleRun = SampleRun(name: string, log: string, steps: seq<Step>)

  /** How a run of `main` ends early. */
  datatype PipelineError =
    | EmptyInput                                 // "Empty input directory", exit status 1
    | UnknownFileFormat                          // raised by `get_file_extension`
    | UnpairedReads(sample: string)              // "Number of files for '<sample>' does not match paired reads"
    | StageFailed(sample: string, fault: StageFault)

  /** The samples whose stages ran, in order, and the error that ended the run, if any. */
  datatype Outcome = Outcome(runs: seq<SampleRun>, error: Option<PipelineError>)

  /**
   * One iteration of the dispatch loop: the run of sample `name` on its
   * files, nothing for a skipped sample, or the error that stops `main`.
   */
  function RunSample(name: string, files: seq<string>, c: Convention, opts: Options): (r: Result<Option<SampleRun>, PipelineError>)
    ensures r == Success(None) <==> ModeFor(|files|) == Skipped
    ensures r == Failure(UnpairedReads(name)) <==> ModeFor(|files|) == Unpaired
    ensures r.Success? && r.value.Some? ==> r.value.value.name == name && r.value.value.log == name + ".log"
    ensures r.Failure? ==> r.error.UnpairedReads? || r.error.StageFailed?
  {
    match ModeFor(|files|)
    case SingleLane =>
      (match OneLinePlan(files, c, opts)
       case Success(s) => Success(Some(SampleRun(name, name + ".log", s)))
       case Failure(f) => Failure(StageFailed(name, f)))
    case MultiLane =>
      (match MultiLinePlan(files, c, opts)
       case Success(s) => Success(Some(SampleRun(name, name + ".log", s)))
       case Failure(f) => Failure(StageFailed(name, f)))
    case Skipped => Success(None)
    case Unpaired => Failure(UnpairedReads(name))
  }

  /** The dispatch of one sample of `listing`, grouped with convention `c`. */
  function Dispatch(listing: seq<string>, c: Convention, opts: Options): string -> Result<Option<SampleRun>, PipelineError> {
    name => RunSample(name, GroupOf(listing, SampleKey(c), name), c, opts)
  }

  /**
   * The dispatch loop over the samples in `order`: runs accumulate in
   * order, and the first error ends the loop.
   */
  function RunAll(order: seq<string>, run: string -> Result<Option<SampleRun>, PipelineError>): Outcome {
    if order == [] then Outcome([], None)
    else
      var prev := RunAll(order[..|order| - 1], run);
      if prev.error.Some? then prev
      else
        match run(order[|order| - 1])
        case Failure(e) => Outcome(prev.runs, Some(e))
        case Success(None) => prev
        case Success(Some(r)) => Outcome(prev.runs + [r], None)
  }

  /** What `main` does with the input directory's listing. */
  function Main(listing: seq<string>, opts: Options): Outcome {
    if listing == [] then Outcome([], Some(EmptyInput))
    else
      match DetectedSuffix(listing)
      case None => Outcome([], Some(UnknownFileFormat))
      case Some(m) =>
        var c := Convention(m, Mate2Of(m));
        RunAll(Samples(listing, SampleKey(c)), Dispatch(listing, c, opts))
  }

  /** One more sample of the loop. */
  lemma RunAllStep(order: seq<string>, i: nat, run: string -> Result<Option<SampleRun>, PipelineError>)
    requires i < |order|
    ensures var prev := RunAll(order[..i], run);
      RunAll(order[..i + 1], run) ==
        if prev.error.Some? then prev
        else match run(order[i])
          case Failure(e) => Outcome(prev.runs, Some(e))
          case Success(None) => prev
          case Success(Some(r)) => Outcome(prev.runs + [r], None)
  {
    assert order[..i + 1][..i] == order[..i];
  }

  /** Once a sample has raised, the samples after it change nothing: the run ends with that error. */
  lemma {:induction false} ErrorEndsRun(order: seq<string>, i: nat, run: string -> Result<Option<SampleRun>, PipelineError>)
    requires i <= |order| && RunAll(order[..i], run).error.Some?
    ensures RunAll(order, run) == RunAll(order[..i], run)
    decreases |order| - i
  {
    if i < |order| {
      RunAllStep(order, i, run);
      ErrorEndsRun(order, i + 1, run);
    } else {
      assert order[..i] == order;
    }
  }

  /**
   * `main`: stop on an empty listing, detect the convention, group the
   * files by sample, then dispatch each sample in first-appearance order.
   */
  method ProcessReads(listing: seq<string>, opts: Options) returns (out: Outcome)
    ensures out == Main(listing, opts)
  {
    if |listing| == 0 {
      return Outcome([], Some(EmptyInput));
    }
    var detected := GetFileExtension(listing);
    if detected.Failure? {
      return Outcome([], Some(UnknownFileFormat));
    }
    var c := detected.value;
    var groups, order := GroupFiles(listing, c);
    out := DispatchAll(listing, c, groups, order, opts);
  }

  /** The dispatch loop of `main` over the grouped samples. */
  method DispatchAll(listing: seq<string>, c: Convention, groups: map<string, seq<string>>, order: seq<string>, opts: Options)
    returns (out: Outcome)
    requires forall n :: n in order ==> n in groups && groups[n] == GroupOf(listing, SampleKey(c), n)
    ensures out == RunAll(order, Dispatch(listing, c, opts))
  {
    var runs: seq<SampleRun> := [];
    for i := 0 to |order|
      invariant Outcome(runs, None) == RunAll(order[..i], Dispatch(listing, c, opts))
    {
      var name := order[i];
      RunAllStep(order, i, Dispatch(listing, c, opts));
      var r := DispatchSample(name, groups[name], c, opts);
      match r
      case Failure(e) =>
        ErrorEndsRun(order, i + 1, Dispatch(listing, c, opts));
        return Outcome(runs, Some(e));
      case Success(None) =>
      case Success(Some(run)) =>
        runs := runs + [run];
    }
    assert order[..|order|] == order;
    out := Outcome(runs, None);
  }

  /**
   * The body of the dispatch loop for one sample: its log file is named
   * after it, and the number of its files selects the stages.
   */
  method DispatchSample(name: string, files: seq<string>, c: Convention, opts: Options)
    returns (r: Result<Option<SampleRun>, PipelineError>)
    ensures r == RunSample(name, files, c, opts)
  {
    var logpath := name + ".log";
    if |files| == 2 {
      var steps := ProcessOneLineFiles(files, c, opts);
      if steps.Failure? {
        return Failure(StageFailed(name, steps.error));
      }
      r := Success(Some(SampleRun(name, logpath, steps.value)));
    } else if |files| > 2 {
      if |files| % 2 == 0 {
        var steps := ProcessMultiLineFiles(files, c, opts);
        if steps.Failure? {
          return Failure(StageFailed(name, steps.error));
        }
        r := Success(Some(SampleRun(name, logpath, steps.value)));
      } else {
        r := Success(None);
      }
    } else {
      r := Failure(UnpairedReads(name));
    }
  }

  // ---------------------------------------------------------------------
  // Properties of the dispatch
  // ---------------------------------------------------------------------

  /**
   * The loop ends without error exactly when no sample raises; otherwise
   * its error is the one raised by the first sample that raises.
   */
  lemma {:induction false} RunAllStops(order: seq<string>, run: string -> Result<Option<SampleRun>, PipelineError>)
    ensures RunAll(order, run).error.None? <==> forall i :: 0 <= i < |order| ==> run(order[i]).Success?
    ensures RunAll(order, run).error.Some? ==>
      exists i :: 0 <= i < |order| && run(order[i]).Failure? && RunAll(order, run).error == Some(run(order[i]).error)
        && forall j :: 0 <= j < i ==> run(order[j]).Success?
  {
    if order != [] {
      var init := order[..|order| - 1];
      RunAllStops(init, run);
      assert forall i :: 0 <= i < |init| ==> init[i] == order[i];
    }
  }

  /** The loop only ever ends with an error raised by a sample. */
  lemma {:induction false} RunAllErrors(order: seq<string>, run: string -> Result<Option<SampleRun>, PipelineError>)
    requires forall n :: run(n).Failure? ==> run(n).error.UnpairedReads? || run(n).error.StageFailed?
    ensures RunAll(order, run).error.Some? ==>
      RunAll(order, run).error.value.UnpairedReads? || RunAll(order, run).error.value.StageFailed?
  {
    if order != [] {
      RunAllErrors(order[..|order| - 1], run);
    }
  }

  /** The positions in `order` of the samples whose stages ran. */
  ghost function RunIndices(order: seq<string>, run: string -> Result<Option<SampleRun>, PipelineError>): seq<nat> {
    if order == [] then []
    else
      var prev := RunIndices(order[..|order| - 1], run);
      if RunAll(order[..|order| - 1], run).error.Some? then prev
      else
        match run(order[|order| - 1])
        case Success(Some(_)) => prev + [|order| - 1]
        case _ => prev
  }

  /**
   * The runs are those of samples of `order`, in order and each sample
   * position at most once; when the loop ends without error, every sample
   * that has stages to run has its run among them.
   */
  lemma {:induction false} RunsFollowOrder(order: seq<string>, run: string -> Result<Option<SampleRun>, PipelineError>)
    ensures var idx := RunIndices(order, run);
      var runs := RunAll(order, run).runs;
      && |idx| == |runs|
      && (forall k :: 0 <= k < |idx| ==> idx[k] < |order| && run(order[idx[k]]) == Success(Some(runs[k])))
      && (forall k, l :: 0 <= k < l < |idx| ==> idx[k] < idx[l])
    ensures RunAll(order, run).error.None? ==>
      forall i :: 0 <= i < |order| && run(order[i]).Success? && run(order[i]).value.Some? ==>
        run(order[i]).value.value in RunAll(order, run).runs
  {
    if order != [] {
      var init := order[..|order| - 1];
      RunsFollowOrder(init, run);
      assert forall i :: 0 <= i < |init| ==> init[i] == order[i];
      var idx := RunIndices(init, run);
      assert forall k :: 0 <= k < |idx| ==> idx[k] < |init|;
      if RunAll(init, run).error.None? {
        RunAllStops(init, run);
      }
    }
  }

  /**
   * An empty listing ends `main` with the empty-input error, and a listing
   * with no mate-1 file of any known convention with the format error; no
   * other input ends with either.
   */
  lemma MainErrors(listing: seq<string>, opts: Options)
    ensures Main(listing, opts).error == Some(EmptyInput) <==> listing == []
    ensures Main(listing, opts).error == Some(UnknownFileFormat) <==>
      listing != [] && forall f, k :: f in listing && 0 <= k < |Mate1Suffixes| ==> !EndsWith(f, Mate1Suffixes[k])
  {
    DetectedSuffixSound(listing);
    if listing != [] && DetectedSuffix(listing).Some? {
      var m := DetectedSuffix(listing).value;
      var c := Convention(m, Mate2Of(m));
      var order := Samples(listing, SampleKey(c));
      var run := Dispatch(listing, c, opts);
      forall n ensures run(n).Failure? ==> run(n).error.UnpairedReads? || run(n).error.StageFailed? {
        assert run(n) == RunSample(n, GroupOf(listing, SampleKey(c), n), c, opts);
      }
      RunAllErrors(order, run);
    }
  }

  /**
   * Each sample's stages run at most once, with a log file named after
   * the sample, on the sample's whole group of files, and only when the
   * number of those files is two or an even number above two.
   */
  lemma MainRuns(listing: seq<string>, opts: Options)
    requires DetectedSuffix(listing).Some?
    ensures var c := Convention(DetectedSuffix(listing).value, Mate2Of(DetectedSuffix(listing).value));
      var runs := Main(listing, opts).runs;
      && (forall k, l :: 0 <= k < l < |runs| ==> runs[k].name != runs[l].name)
      && (forall k :: 0 <= k < |runs| ==>
            && runs[k].name in Samples(listing, SampleKey(c))
            && runs[k].log == runs[k].name + ".log"
            && RunSample(runs[k].name, GroupOf(listing, SampleKey(c), runs[k].name), c, opts) == Success(Some(runs[k]))
            && ModeFor(|GroupOf(listing, SampleKey(c), runs[k].name)|) in {SingleLane, MultiLane})
  {
    var m := DetectedSuffix(listing).value;
    var c := Convention(m, Mate2Of(m));
    var order := Samples(listing, SampleKey(c));
    var run := Dispatch(listing, c, opts);
    var runs := Main(listing, opts).runs;
    assert listing != [];
    assert runs == RunAll(order, run).runs;
    RunsFollowOrder(order, run);
    SamplesDistinct(listing, SampleKey(c));
    var idx := RunIndices(order, run);
    forall k | 0 <= k < |runs|
      ensures runs[k].name == order[idx[k]]
      ensures RunSample(runs[k].name, GroupOf(listing, SampleKey(c), runs[k].name), c, opts) == Success(Some(runs[k]))
    {
      assert run(order[idx[k]]) == RunSample(order[idx[k]], GroupOf(listing, SampleKey(c), order[idx[k]]), c, opts);
    }
  }

  /**
   * When `main` ends without error, every grouped sample with two files or
   * an even number above two has run.
   */
  lemma MainRunsComplete(listing: seq<string>, opts: Options)
    requires DetectedSuffix(listing).Some?
    ensures var c := Convention(DetectedSuffix(listing).value, Mate2Of(DetectedSuffix(listing).value));
      var runs := Main(listing, opts).runs;
      Main(listing, opts).error.None? ==>
        forall n :: n in Samples(listing, SampleKey(c)) && ModeFor(|GroupOf(listing, SampleKey(c), n)|) in {SingleLane, MultiLane} ==>
          exists k :: 0 <= k < |runs| && runs[k].name == n
  {
    var m := DetectedSuffix(listing).value;
    var c := Convention(m, Mate2Of(m));
    var order := Samples(listing, SampleKey(c));
    var run := Dispatch(listing, c, opts);
    var runs := Main(listing, opts).runs;
    assert listing != [];
    assert Main(listing, opts) == RunAll(order, run);
    if RunAll(order, run).error.None? {
      RunsFollowOrder(order, run);
      RunAllStops(order, run);
      forall n | n in order && ModeFor(|GroupOf(listing, SampleKey(c), n)|) in {SingleLane, MultiLane}
        ensures exists k :: 0 <= k < |runs| && runs[k].name == n
      {
        var i :| 0 <= i < |order| && order[i] == n;
        var r := RunSample(n, GroupOf(listing, SampleKey(c), n), c, opts);
        assert run(order[i]) == r;
        assert r.value.value in runs && r.value.value.name == n;
      }
    }
  }
}
