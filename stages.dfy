/**
 * The processing stages run for one sample, as the list of steps they
 * emit: each external command with its argument vector and the mode in
 * which the sample's log file is opened for it ("w" truncates, "a"
 * appends), and each file move. Nothing is executed: the plan is the
 * model of what `process_oneline_files` and `process_multiline_files` do.
 */
module Stages {
  import opened Wrappers
  import opened Text
  import opened Naming
  import opened Grouping

  /**
   * Where a path argument lives: `os.path.join` of one of these and a file
   * name. `InputDir` is the input directory, `OutputSub(sub)` a
   * sub-directory of the output directory, and `WorkingDir` the current
   * directory, where the M-bias plots are written before they are moved.
   */
  datatype Dir = InputDir | OutputSub(sub: string) | WorkingDir

  const QcDir: Dir := OutputSub("FastQC")
  const TrimDir: Dir := OutputSub("trim-galore")
  const AlignDir: Dir := OutputSub("aligning")
  const ExtractDir: Dir := OutputSub("methyl_extraction")

  /** One command-line argument: literal text, a number rendered with `str`, a directory, or a file in a directory. */
  datatype Arg = Word(s: string) | Number(n: int) | Folder(dir: Dir) | Path(dir: Dir, name: string)

  /** How the sample's log file is opened for a command: `"w"` or `"a"`. */
  datatype LogMode = Truncate | Append

  /** A command run with its output sent to the sample log, or a `shutil.move`. */
  datatype Step = Run(argv: seq<Arg>, log: LogMode) | Move(src: Arg, dst: Arg)

  /** The command-line options the stages read: `--threads`, `-q` and `--ref`. */
  datatype Options = Options(threads: int, quality: int, reference: string)

  /** Why a stage function raises before running anything. */
  datatype StageFault =
    | MateMissing   // `os.path.join(input_dir, None)`: no mate-1 or no mate-2 file (TypeError)
    | NoLanes       // `aligning_dir` never bound: no mate-1 file at all (UnboundLocalError)

  /** Python's `list.insert(i, x)` for an index inside the list. */
  function InsertAt<T>(s: seq<T>, i: nat, x: T): (r: seq<T>)
    requires i <= |s|
    ensures |r| == |s| + 1 && r[i] == x
    ensures r[..i] == s[..i] && r[i + 1..] == s[i..]
  {
    s[..i] + [x] + s[i..]
  }

  /** The deduplicated BAM file of a sample or lane. */
  function DedupBam(base: string): Arg {
    Path(AlignDir, base + ".sorted.deduplicated.bam")
  }

  // ---------------------------------------------------------------------
  // The steps, in the order the source runs them
  // ---------------------------------------------------------------------

  /** FastQC on the two read files; `--noextract` goes in at index 1 for gzipped input. The log is truncated. */
  function QcStep(r1: string, r2: string, mate1: string, opts: Options): (r: Step)
    ensures r.Run? && r.log == Truncate && |r.argv| == if EndsWith(mate1, ".gz") then 8 else 7
    ensures r.argv[1] == Word("--noextract") <==> EndsWith(mate1, ".gz")
    ensures r.argv[|r.argv| - 2..] == [Path(InputDir, r1), Path(InputDir, r2)]
  {
    var argv := [Word("fastqc"), Word("-o"), Folder(QcDir), Word("-t"), Number(opts.threads),
                 Path(InputDir, r1), Path(InputDir, r2)];
    Run(if EndsWith(mate1, ".gz") then InsertAt(argv, 1, Word("--noextract")) else argv, Truncate)
  }

  function TrimStep(r1: string, r2: string, opts: Options): Step {
    Run([Word("trim_galore"), Word("-q"), Number(opts.quality), Word("--fastqc"), Word("-o"), Folder(TrimDir),
         Word("-j"), Number(opts.threads), Word("--paired"), Word("--gzip"),
         Path(InputDir, r1), Path(InputDir, r2)], Append)
  }

  function AlignStep(base: string, opts: Options): Step {
    Run([Word("bsmapz"), Word("-a"), Path(TrimDir, base + "_1_val_1.fq.gz"),
         Word("-b"), Path(TrimDir, base + "_2_val_2.fq.gz"), Word("-d"), Word(opts.reference),
         Word("-o"), Path(AlignDir, base + ".bam"), Word("-p"), Number(opts.threads)], Append)
  }

  function FixmateStep(base: string): Step {
    Run([Word("samtools"), Word("fixmate"), Word("-m"),
         Path(AlignDir, base + ".bam"), Path(AlignDir, base + ".fixmate.bam")], Append)
  }

  function SortStep(base: string, opts: Options): Step {
    Run([Word("samtools"), Word("sort"), Word("-@"), Number(opts.threads),
         Word("-o"), Path(AlignDir, base + ".sorted.bam"), Path(AlignDir, base + ".fixmate.bam")], Append)
  }

  function MarkdupStep(base: string): Step {
    Run([Word("samtools"), Word("markdup"), Path(AlignDir, base + ".sorted.bam"), DedupBam(base)], Append)
  }

  /** QC, trimming, alignment, mate fixing, sorting and duplicate marking of one read pair. */
  function LaneSteps(base: string, r1: string, r2: string, mate1: string, opts: Options): (r: seq<Step>)
    ensures |r| == 6
    ensures forall i :: 0 <= i < 6 ==> r[i].Run? && (r[i].log == Truncate <==> i == 0)
    ensures |r[5].argv| == 4 && r[5].argv[3] == DedupBam(base)
  {
    [QcStep(r1, r2, mate1, opts), TrimStep(r1, r2, opts), AlignStep(base, opts),
     FixmateStep(base), SortStep(base, opts), MarkdupStep(base)]
  }

  /** `samtools merge` of the per-lane BAM files into the sample's BAM file. */
  function MergeStep(name: string, bams: seq<Arg>, opts: Options): (r: Step)
    ensures r.Run? && r.log == Append && |r.argv| == 5 + |bams|
    ensures r.argv[4] == DedupBam(name) && r.argv[5..] == bams
  {
    Run([Word("samtools"), Word("merge"), Word("-@"), Number(opts.threads), DedupBam(name)] + bams, Append)
  }

  /** Statistics, methylation extraction and M-bias plotting of the sample's BAM file, with the moves of their outputs. */
  function SampleTail(name: string, opts: Options): (r: seq<Step>)
    ensures |r| == 6
    ensures forall i :: 0 <= i < 6 && r[i].Run? ==> r[i].log == Append && DedupBam(name) in r[i].argv
    ensures forall i :: 0 <= i < 6 && r[i].Move? ==>
      r[i].src.Path? && r[i].dst == Path(ExtractDir, r[i].src.name)
  {
    var bedGraph := name + ".sorted.deduplicated_CpG.meth.bedGraph";
    [Run([Word("samtools"), Word("flagstat"), DedupBam(name)], Append),
     Run([Word("MethylDackel"), Word("extract"), Word("--fraction"), Word("--minDepth"), Word("10"),
          Word(opts.reference), DedupBam(name)], Append),
     Move(Path(AlignDir, bedGraph), Path(ExtractDir, bedGraph)),
     Run([Word("MethylDackel"), Word("mbias"), Word(opts.reference), DedupBam(name), Word(name)], Append),
     Move(Path(WorkingDir, name + "_OB.svg"), Path(ExtractDir, name + "_OB.svg")),
     Move(Path(WorkingDir, name + "_OT.svg"), Path(ExtractDir, name + "_OT.svg"))]
  }

  // ---------------------------------------------------------------------
  // process_oneline_files
  // ---------------------------------------------------------------------

  /** The mate-1 read file as rebuilt from the last file of `files` ending with the mate-1 suffix. */
  function Mate1Input(files: seq<string>, c: Convention): Option<string> {
    if files == [] then None
    else
      var f := files[|files| - 1];
      if EndsWith(f, c.mate1) then Some(Rebuild(ParseFilename(f, c.mate1), c.mate1))
      else Mate1Input(files[..|files| - 1], c)
  }

  /** The mate-2 read file as rebuilt from the last file ending with the mate-2 suffix but not the mate-1 suffix. */
  function Mate2Input(files: seq<string>, c: Convention): Option<string> {
    if files == [] then None
    else
      var f := files[|files| - 1];
      if !EndsWith(f, c.mate1) && EndsWith(f, c.mate2) then Some(Rebuild(ParseFilename(f, c.mate2), c.mate2))
      else Mate2Input(files[..|files| - 1], c)
  }

  /** The sample name of the last mate file of `files`. */
  function LastSample(files: seq<string>, c: Convention): Option<string> {
    if files == [] then None
    else if SampleOf(files[|files| - 1], c).Some? then SampleOf(files[|files| - 1], c)
    else LastSample(files[..|files| - 1], c)
  }

  /** What `process_oneline_files` does with `files`: the steps it runs, or the fault it raises. */
  function OneLinePlan(files: seq<string>, c: Convention, opts: Options): Result<seq<Step>, StageFault> {
    var r1 := Mate1Input(files, c);
    var r2 := Mate2Input(files, c);
    var name := LastSample(files, c);
    if r1.None? || r2.None? || name.None? then Failure(MateMissing)
    else Success(LaneSteps(name.value, r1.value, r2.value, c.mate1, opts) + SampleTail(name.value, opts))
  }

  /**
   * `process_oneline_files`: the loop over the files sets the read-file
   * names and the sample name (the last assignment wins), then the stages
   * run for that single read pair.
   */
  method ProcessOneLineFiles(files: seq<string>, c: Convention, opts: Options) returns (r: Result<seq<Step>, StageFault>)
    ensures r == OneLinePlan(files, c, opts)
  {
    var r1, r2, name := FindMates(files, c);
    if r1.None? || r2.None? || name.None? {
      return Failure(MateMissing);
    }
    r := Success(LaneSteps(name.value, r1.value, r2.value, c.mate1, opts) + SampleTail(name.value, opts));
  }

  /** The loop of `process_oneline_files`: the read-file names and the sample name, the last assignment winning. */
  method FindMates(files: seq<string>, c: Convention) returns (r1: Option<string>, r2: Option<string>, name: Option<string>)
    ensures r1 == Mate1Input(files, c)
    ensures r2 == Mate2Input(files, c)
    ensures name == LastSample(files, c)
  {
    r1, r2, name := None, None, None;
    for i := 0 to |files|
      invariant r1 == Mate1Input(files[..i], c)
      invariant r2 == Mate2Input(files[..i], c)
      invariant name == LastSample(files[..i], c)
    {
      assert files[..i + 1][..i] == files[..i] && files[..i + 1][i] == files[i];
      r1, r2, name := MateFile(files[i], c, r1, r2, name);
    }
    assert files[..|files|] == files;
  }

  /**
   * The body of that loop for one file: a mate-1 file sets the mate-1 read
   * file and the name, else a mate-2 file sets the mate-2 read file and the
   * name; the read file is rebuilt from the parse, with the lane if any.
   */
  method MateFile(file: string, c: Convention, r1: Option<string>, r2: Option<string>, name: Option<string>)
    returns (r1': Option<string>, r2': Option<string>, name': Option<string>)
    ensures r1' == if EndsWith(file, c.mate1) then Some(Rebuild(ParseFilename(file, c.mate1), c.mate1)) else r1
    ensures r2' == if !EndsWith(file, c.mate1) && EndsWith(file, c.mate2) then Some(Rebuild(ParseFilename(file, c.mate2), c.mate2)) else r2
    ensures name' == if SampleOf(file, c).Some? then SampleOf(file, c) else name
  {
    r1', r2', name' := r1, r2, name;
    if EndsWith(file, c.mate1) {
      var p := ParseFilename(file, c.mate1);
      assert SampleOf(file, c) == Some(p.sample);
      name' := Some(p.sample);
      if p.lane.Some? {
        r1' := Some(p.sample + p.lane.value + c.mate1);
        assert r1' == Some(Rebuild(p, c.mate1));
      } else {
        r1' := Some(p.sample + c.mate1);
        assert Stem(p) == p.sample;
      }
    } else if EndsWith(file, c.mate2) {
      var p := ParseFilename(file, c.mate2);
      assert SampleOf(file, c) == Some(p.sample);
      name' := Some(p.sample);
      if p.lane.Some? {
        r2' := Some(p.sample + p.lane.value + c.mate2);
        assert r2' == Some(Rebuild(p, c.mate2));
      } else {
        r2' := Some(p.sample + c.mate2);
        assert Stem(p) == p.sample;
      }
    }
  }

  // ---------------------------------------------------------------------
  // process_multiline_files
  // ---------------------------------------------------------------------

  /** How a lane is rendered inside an f-string: the token, or `None` when there is none. */
  function LaneLabel(lane: Option<string>): string {
    if lane.Some? then lane.value else "None"
  }

  /** The lanes of the mate-1 files of `files`, in order. */
  function Mate1Lanes(files: seq<string>, c: Convention): seq<Option<string>> {
    if files == [] then []
    else
      var f := files[|files| - 1];
      Mate1Lanes(files[..|files| - 1], c) + (if EndsWith(f, c.mate1) then [ParseFilename(f, c.mate1).lane] else [])
  }

  /** The sample name of the last mate-1 file of `files`. */
  function Mate1Sample(files: seq<string>, c: Convention): Option<string> {
    if files == [] then None
    else
      var f := files[|files| - 1];
      if EndsWith(f, c.mate1) then Some(ParseFilename(f, c.mate1).sample)
      else Mate1Sample(files[..|files| - 1], c)
  }

  /** The stage blocks of the lanes, one after another, in lane order. */
  function Blocks(lanes: seq<Option<string>>, block: Option<string> -> seq<Step>): seq<Step> {
    if lanes == [] then []
    else Blocks(lanes[..|lanes| - 1], block) + block(lanes[|lanes| - 1])
  }

  /** The lane stages of one lane of sample `name`, on the read files `name + lane + suffix`. */
  function LaneBlock(name: string, c: Convention, opts: Options): Option<string> -> seq<Step> {
    lane => var base := name + LaneLabel(lane); LaneSteps(base, base + c.mate1, base + c.mate2, c.mate1, opts)
  }

  /** One more lane adds its block of lane stages and its BAM file. */
  lemma BlocksStep(lanes: seq<Option<string>>, j: nat, name: string, c: Convention, opts: Options)
    requires j < |lanes|
    ensures var base := name + LaneLabel(lanes[j]);
      && Blocks(lanes[..j + 1], LaneBlock(name, c, opts))
         == Blocks(lanes[..j], LaneBlock(name, c, opts)) + LaneSteps(base, base + c.mate1, base + c.mate2, c.mate1, opts)
      && LaneBams(name, lanes[..j + 1]) == LaneBams(name, lanes[..j]) + [DedupBam(base)]
  {
    assert lanes[..j + 1][..j] == lanes[..j];
  }

  /** The per-lane BAM files handed to the merge, in lane order. */
  function LaneBams(name: string, lanes: seq<Option<string>>): (bams: seq<Arg>)
    ensures |bams| == |lanes|
    ensures forall j :: 0 <= j < |lanes| ==> bams[j] == DedupBam(name + LaneLabel(lanes[j]))
  {
    if lanes == [] then []
    else LaneBams(name, lanes[..|lanes| - 1]) + [DedupBam(name + LaneLabel(lanes[|lanes| - 1]))]
  }

  /** The steps run for sample `name` with the given lanes: every lane's stages, the merge, then the sample stages. */
  function LanesPlan(name: string, lanes: seq<Option<string>>, c: Convention, opts: Options): seq<Step> {
    Blocks(lanes, LaneBlock(name, c, opts)) + [MergeStep(name, LaneBams(name, lanes), opts)] + SampleTail(name, opts)
  }

  /** What `process_multiline_files` does with `files`: the steps it runs, or the fault it raises. */
  function MultiLinePlan(files: seq<string>, c: Convention, opts: Options): Result<seq<Step>, StageFault> {
    var lanes := Mate1Lanes(files, c);
    var name := Mate1Sample(files, c);
    if lanes == [] || name.None? then Failure(NoLanes)
    else Success(LanesPlan(name.value, lanes, c, opts))
  }

  /**
   * `process_multiline_files`: collect the sample name and the lane of
   * every mate-1 file, run the per-lane stages for each lane in turn while
   * collecting the lane BAM files, merge them, and run the sample stages
   * on the merged file.
   */
  method ProcessMultiLineFiles(files: seq<string>, c: Convention, opts: Options) returns (r: Result<seq<Step>, StageFault>)
    ensures r == MultiLinePlan(files, c, opts)
  {
    var name, lines := CollectLanes(files, c);
    if lines == [] || name.None? {
      return Failure(NoLanes);
    }
    var steps: seq<Step> := [];
    var bams: seq<Arg> := [];
    for j := 0 to |lines|
      invariant steps == Blocks(lines[..j], LaneBlock(name.value, c, opts))
      invariant bams == LaneBams(name.value, lines[..j])
    {
      BlocksStep(lines, j, name.value, c, opts);
      var base := name.value + LaneLabel(lines[j]);
      steps := steps + LaneSteps(base, base + c.mate1, base + c.mate2, c.mate1, opts);
      bams := bams + [DedupBam(base)];
    }
    assert lines[..|lines|] == lines;
    steps := steps + [MergeStep(name.value, bams, opts)];
    steps := steps + SampleTail(name.value, opts);
    r := Success(steps);
  }

  /** The first loop of `process_multiline_files`: the sample name and the lane of each mate-1 file. */
  method CollectLanes(files: seq<string>, c: Convention) returns (name: Option<string>, lines: seq<Option<string>>)
    ensures name == Mate1Sample(files, c)
    ensures lines == Mate1Lanes(files, c)
  {
    name := None;
    lines := [];
    for i := 0 to |files|
      invariant lines == Mate1Lanes(files[..i], c)
      invariant name == Mate1Sample(files[..i], c)
    {
      var file := files[i];
      assert files[..i + 1][..i] == files[..i];
      if EndsWith(file, c.mate1) {
        var p := ParseFilename(file, c.mate1);
        name := Some(p.sample);
        lines := lines + [p.lane];
      }
    }
    assert files[..|files|] == files;
  }

  // ---------------------------------------------------------------------
  // Properties of the plans
  // ---------------------------------------------------------------------

  /** Position `6 * n + k` of a run of six-step blocks is step `k` of block `n`. */
  lemma BlockIndex(n: nat, k: nat)
    requires k < 6
    ensures (6 * n + k) % 6 == k && (6 * n + k) / 6 == n
  {
  }

  /** Six steps per lane. */
  lemma {:induction false} BlocksLength(lanes: seq<Option<string>>, block: Option<string> -> seq<Step>)
    requires forall l :: |block(l)| == 6
    ensures |Blocks(lanes, block)| == 6 * |lanes|
  {
    if lanes != [] {
      BlocksLength(lanes[..|lanes| - 1], block);
    }
  }

  /** Step `i` of the blocks is step `i % 6` of the block of lane `i / 6`. */
  lemma {:induction false} BlocksIndex(lanes: seq<Option<string>>, block: Option<string> -> seq<Step>)
    requires forall l :: |block(l)| == 6
    ensures |Blocks(lanes, block)| == 6 * |lanes|
    ensures forall i :: 0 <= i < 6 * |lanes| ==> Blocks(lanes, block)[i] == block(lanes[i / 6])[i % 6]
  {
    if lanes != [] {
      var n := |lanes| - 1;
      var init := lanes[..n];
      BlocksIndex(init, block);
      forall i | 0 <= i < 6 * |lanes|
        ensures Blocks(lanes, block)[i] == block(lanes[i / 6])[i % 6]
      {
        if i < 6 * n {
          assert i / 6 < n;
          assert init[i / 6] == lanes[i / 6];
        } else {
          BlockIndex(n, i - 6 * n);
        }
      }
    }
  }

  /** Within the lane stages, only the first step of each lane's block truncates the log. */
  lemma LaneLogAt(name: string, lanes: seq<Option<string>>, c: Convention, opts: Options, i: nat)
    requires i < 6 * |lanes|
    ensures |Blocks(lanes, LaneBlock(name, c, opts))| == 6 * |lanes|
    ensures var step := Blocks(lanes, LaneBlock(name, c, opts))[i];
      step.Run? && (step.log == Truncate <==> i % 6 == 0)
  {
    var block := LaneBlock(name, c, opts);
    BlocksIndex(lanes, block);
    assert Blocks(lanes, block)[i] == block(lanes[i / 6])[i % 6];
  }

  /**
   * With several lanes the log is truncated once per lane, by that lane's
   * QC step, and appended to by every other command.
   */
  lemma MultiLineLogModes(name: string, lanes: seq<Option<string>>, c: Convention, opts: Options)
    ensures var s := LanesPlan(name, lanes, c, opts);
      forall i :: 0 <= i < |s| && s[i].Run? ==> (s[i].log == Truncate <==> i < 6 * |lanes| && i % 6 == 0)
  {
    var s := LanesPlan(name, lanes, c, opts);
    AfterLanesAppend(name, lanes, c, opts);
    forall i | 0 <= i < 6 * |lanes|
      ensures s[i].Run? && (s[i].log == Truncate <==> i % 6 == 0)
    {
      LaneLogAt(name, lanes, c, opts, i);
    }
  }

  /** The merge and the sample stages all append to the log. */
  lemma AfterLanesAppend(name: string, lanes: seq<Option<string>>, c: Convention, opts: Options)
    ensures var s := LanesPlan(name, lanes, c, opts);
      && |s| == 6 * |lanes| + 7
      && forall i :: 6 * |lanes| <= i < |s| && s[i].Run? ==> s[i].log == Append
  {
    var s := LanesPlan(name, lanes, c, opts);
    var tail := SampleTail(name, opts);
    BlocksLength(lanes, LaneBlock(name, c, opts));
    forall i | 6 * |lanes| < i < |s|
      ensures s[i] == tail[i - 6 * |lanes| - 1]
    {
    }
  }

  /**
   * The merge comes right after the lane stages; it takes exactly the
   * lanes' deduplicated BAM files, in lane order, and writes the sample's
   * BAM file.
   */
  lemma MergeTakesLaneBams(name: string, lanes: seq<Option<string>>, c: Convention, opts: Options)
    ensures |LanesPlan(name, lanes, c, opts)| == 6 * |lanes| + 7
    ensures var merge := LanesPlan(name, lanes, c, opts)[6 * |lanes|];
      && merge.Run? && |merge.argv| == 5 + |lanes|
      && merge.argv[4] == Path(AlignDir, name + ".sorted.deduplicated.bam")
      && forall j :: 0 <= j < |lanes| ==>
           merge.argv[5 + j] == Path(AlignDir, name + LaneLabel(lanes[j]) + ".sorted.deduplicated.bam")
  {
    var s := LanesPlan(name, lanes, c, opts);
    BlocksLength(lanes, LaneBlock(name, c, opts));
    var merge := s[6 * |lanes|];
    assert merge == MergeStep(name, LaneBams(name, lanes), opts);
    forall j | 0 <= j < |lanes|
      ensures merge.argv[5 + j] == LaneBams(name, lanes)[j]
    {
      assert merge.argv[5..][j] == LaneBams(name, lanes)[j];
    }
  }

  /** The sixth step of lane `j`'s block is that lane's duplicate marking. */
  lemma MarkdupOfLane(name: string, lanes: seq<Option<string>>, c: Convention, opts: Options, j: nat)
    requires j < |lanes|
    ensures |Blocks(lanes, LaneBlock(name, c, opts))| == 6 * |lanes|
    ensures Blocks(lanes, LaneBlock(name, c, opts))[6 * j + 5] == MarkdupStep(name + LaneLabel(lanes[j]))
  {
    var block := LaneBlock(name, c, opts);
    BlocksLength(lanes, block);
    BlockIndex(j, 5);
    assert Blocks(lanes, block)[6 * j + 5] == block(lanes[j])[5];
  }

  /**
   * Each lane's stages end with its duplicate marking, which writes the
   * BAM file the merge takes for that lane.
   */
  lemma LaneEndsWithMarkdup(name: string, lanes: seq<Option<string>>, c: Convention, opts: Options)
    ensures |LanesPlan(name, lanes, c, opts)| == 6 * |lanes| + 7
    ensures forall j :: 0 <= j < |lanes| ==>
      LanesPlan(name, lanes, c, opts)[6 * j + 5] == MarkdupStep(name + LaneLabel(lanes[j]))
  {
    BlocksLength(lanes, LaneBlock(name, c, opts));
    forall j | 0 <= j < |lanes|
      ensures LanesPlan(name, lanes, c, opts)[6 * j + 5] == MarkdupStep(name + LaneLabel(lanes[j]))
    {
      MarkdupOfLane(name, lanes, c, opts, j);
    }
  }

  /** Statistics, extraction and M-bias all read the merged BAM file. */
  lemma MergeFeedsSampleStages(name: string, lanes: seq<Option<string>>, c: Convention, opts: Options)
    ensures var s := LanesPlan(name, lanes, c, opts);
      && |s| == 6 * |lanes| + 7
      && forall i :: 6 * |lanes| < i < |s| && s[i].Run? ==> Path(AlignDir, name + ".sorted.deduplicated.bam") in s[i].argv
  {
    var s := LanesPlan(name, lanes, c, opts);
    var tail := SampleTail(name, opts);
    BlocksLength(lanes, LaneBlock(name, c, opts));
    forall i | 6 * |lanes| < i < |s|
      ensures s[i] == tail[i - 6 * |lanes| - 1]
    {
    }
  }

  /** In the single-lane plan only the QC step truncates the log. */
  lemma OneLineLogModes(files: seq<string>, c: Convention, opts: Options)
    requires OneLinePlan(files, c, opts).Success?
    ensures var s := OneLinePlan(files, c, opts).value;
      && |s| == 12 && s[0].Run? && s[0].log == Truncate
      && forall i :: 1 <= i < |s| && s[i].Run? ==> s[i].log == Append
  {
    var s := OneLinePlan(files, c, opts).value;
    forall i | 6 <= i < 12 ensures s[i] == SampleTail(LastSample(files, c).value, opts)[i - 6] { }
  }

  /** No mate-1 input exactly when no file ends with the mate-1 suffix. */
  lemma {:induction false} Mate1InputNone(files: seq<string>, c: Convention)
    ensures Mate1Input(files, c).None? <==> forall f :: f in files ==> !EndsWith(f, c.mate1)
  {
    if files != [] {
      var init, last := files[..|files| - 1], files[|files| - 1];
      Mate1InputNone(init, c);
      assert files == init + [last];
      assert forall f :: f in files <==> f in init || f == last;
    }
  }

  /** No mate-2 input exactly when every file ending with the mate-2 suffix ends with the mate-1 suffix too. */
  lemma {:induction false} Mate2InputNone(files: seq<string>, c: Convention)
    ensures Mate2Input(files, c).None? <==> forall f :: f in files ==> EndsWith(f, c.mate1) || !EndsWith(f, c.mate2)
  {
    if files != [] {
      var init, last := files[..|files| - 1], files[|files| - 1];
      Mate2InputNone(init, c);
      assert files == init + [last];
      assert forall f :: f in files <==> f in init || f == last;
    }
  }

  /** A sample name is found exactly when some file is a mate file. */
  lemma {:induction false} LastSampleNone(files: seq<string>, c: Convention)
    ensures LastSample(files, c).None? <==> forall f :: f in files ==> SampleOf(f, c).None?
  {
    if files != [] {
      var init, last := files[..|files| - 1], files[|files| - 1];
      LastSampleNone(init, c);
      assert files == init + [last];
      assert forall f :: f in files <==> f in init || f == last;
    }
  }

  /**
   * `process_oneline_files` raises exactly when the group lacks a mate-1
   * file or lacks a mate-2 file.
   */
  lemma OneLineFaults(files: seq<string>, c: Convention, opts: Options)
    ensures OneLinePlan(files, c, opts).Failure? <==>
      (forall f :: f in files ==> !EndsWith(f, c.mate1)) ||
      (forall f :: f in files ==> EndsWith(f, c.mate1) || !EndsWith(f, c.mate2))
  {
    Mate1InputNone(files, c);
    Mate2InputNone(files, c);
    LastSampleNone(files, c);
  }

  /** The lanes and the sample name of the mate-1 files are found together, exactly when there is a mate-1 file. */
  lemma {:induction false} Mate1LanesEmpty(files: seq<string>, c: Convention)
    ensures Mate1Lanes(files, c) == [] <==> forall f :: f in files ==> !EndsWith(f, c.mate1)
    ensures Mate1Sample(files, c).None? <==> Mate1Lanes(files, c) == []
  {
    if files != [] {
      var init, last := files[..|files| - 1], files[|files| - 1];
      Mate1LanesEmpty(init, c);
      assert files == init + [last];
      assert forall f :: f in files <==> f in init || f == last;
    }
  }

  /** `process_multiline_files` raises exactly when the group has no mate-1 file. */
  lemma MultiLineFaults(files: seq<string>, c: Convention, opts: Options)
    ensures MultiLinePlan(files, c, opts).Failure? <==> forall f :: f in files ==> !EndsWith(f, c.mate1)
  {
    Mate1LanesEmpty(files, c);
  }

  /** The loop of `process_oneline_files` on a mate-1 file and a mate-2 file of one sample, in either order. */
  lemma FindsPair(f1: string, f2: string, c: Convention, p: ParsedName, swapped: bool)
    requires EndsWith(f1, c.mate1) && ParseFilename(f1, c.mate1) == p && Rebuild(p, c.mate1) == f1
    requires !EndsWith(f2, c.mate1) && EndsWith(f2, c.mate2) && ParseFilename(f2, c.mate2) == p && Rebuild(p, c.mate2) == f2
    ensures var files := if swapped then [f2, f1] else [f1, f2];
      Mate1Input(files, c) == Some(f1) && Mate2Input(files, c) == Some(f2) && LastSample(files, c) == Some(p.sample)
  {
    if swapped {
      FindsPairSwapped(f1, f2, c, p);
    } else {
      FindsPairInOrder(f1, f2, c, p);
    }
  }

  /** `FindsPair` for the mate-1 file listed first. */
  lemma FindsPairInOrder(f1: string, f2: string, c: Convention, p: ParsedName)
    requires EndsWith(f1, c.mate1) && ParseFilename(f1, c.mate1) == p && Rebuild(p, c.mate1) == f1
    requires !EndsWith(f2, c.mate1) && EndsWith(f2, c.mate2) && ParseFilename(f2, c.mate2) == p && Rebuild(p, c.mate2) == f2
    ensures Mate1Input([f1, f2], c) == Some(f1) && Mate2Input([f1, f2], c) == Some(f2) && LastSample([f1, f2], c) == Some(p.sample)
  {
    assert [f1, f2][..1] == [f1] && [f1][..0] == [];
    assert Mate1Input([f1], c) == Some(f1);
  }

  /** `FindsPair` for the mate-2 file listed first. */
  lemma FindsPairSwapped(f1: string, f2: string, c: Convention, p: ParsedName)
    requires EndsWith(f1, c.mate1) && ParseFilename(f1, c.mate1) == p && Rebuild(p, c.mate1) == f1
    requires !EndsWith(f2, c.mate1) && EndsWith(f2, c.mate2) && ParseFilename(f2, c.mate2) == p && Rebuild(p, c.mate2) == f2
    ensures Mate1Input([f2, f1], c) == Some(f1) && Mate2Input([f2, f1], c) == Some(f2) && LastSample([f2, f1], c) == Some(p.sample)
  {
    assert [f2, f1][..1] == [f2] && [f2][..0] == [];
    assert Mate2Input([f2], c) == Some(f2);
  }

  /**
   * For a sample's two listed read files, in either order, the loop of
   * `process_oneline_files` picks exactly those two files and the sample's
   * name.
   */
  lemma OneLineFindsListedFiles(p: ParsedName, k: nat, swapped: bool)
    requires k < |Mate1Suffixes|
    requires !HasLane(p.sample) && (p.lane.Some? ==> IsLaneToken(p.lane.value))
    requires forall i: nat :: i < |Stem(p)| ==> !OccursAt(Stem(p) + Mate1Suffixes[k], Mate1Suffixes[k], i)
    requires forall i: nat :: i < |Stem(p)| ==> !OccursAt(Stem(p) + Mate2Suffixes[k], Mate2Suffixes[k], i)
    ensures var c := Convention(Mate1Suffixes[k], Mate2Of(Mate1Suffixes[k]));
      var f1 := Rebuild(p, c.mate1);
      var f2 := Rebuild(p, c.mate2);
      var files := if swapped then [f2, f1] else [f1, f2];
      Mate1Input(files, c) == Some(f1) && Mate2Input(files, c) == Some(f2) && LastSample(files, c) == Some(p.sample)
  {
    var c := Convention(Mate1Suffixes[k], Mate2Of(Mate1Suffixes[k]));
    MatesGroupTogether(p, k);
    FindsPair(Rebuild(p, c.mate1), Rebuild(p, c.mate2), c, p, swapped);
  }

  /**
   * For a sample's two listed read files, in either order, the single-lane
   * stages read exactly those two files and name every artifact after the
   * sample.
   */
  lemma OneLineReadsListedFiles(p: ParsedName, k: nat, swapped: bool, opts: Options)
    requires k < |Mate1Suffixes|
    requires !HasLane(p.sample) && (p.lane.Some? ==> IsLaneToken(p.lane.value))
    requires forall i: nat :: i < |Stem(p)| ==> !OccursAt(Stem(p) + Mate1Suffixes[k], Mate1Suffixes[k], i)
    requires forall i: nat :: i < |Stem(p)| ==> !OccursAt(Stem(p) + Mate2Suffixes[k], Mate2Suffixes[k], i)
    ensures var c := Convention(Mate1Suffixes[k], Mate2Of(Mate1Suffixes[k]));
      var f1 := Rebuild(p, c.mate1);
      var f2 := Rebuild(p, c.mate2);
      OneLinePlan(if swapped then [f2, f1] else [f1, f2], c, opts)
        == Success(LaneSteps(p.sample, f1, f2, c.mate1, opts) + SampleTail(p.sample, opts))
  {
    OneLineFindsListedFiles(p, k, swapped);
  }
}
