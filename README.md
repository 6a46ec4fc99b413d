# Methylotl read processing, modelled in Dafny

Methylotl's `process_reads.py` drives a bisulfite-sequencing pipeline. It
takes a directory of paired-end FASTQ files and runs the steps below.

1. It works out which naming convention the directory uses. The
   convention is a mate-1 suffix such as `_R1_001.fastq.gz`, and the mate-2
   suffix is the same string with its first `1` turned into `2`.
2. It groups the files by sample name. The name is what is left of a
   filename once the suffix is removed and any sequencing-lane token
   (`L001`–`L004`) and everything after it are cut off.
3. It dispatches each sample on the number of its files:
   - two files run the single-lane stages;
   - an even number above two runs the multi-lane stages;
   - an odd number above two is passed over silently;
   - a single file raises an error naming the sample.

The stages are FastQC, Trim Galore, bsmapz alignment, `samtools`
fixmate/sort/markdup, a `samtools merge` of the lanes (multi-lane only),
flagstat, MethylDackel extraction and M-bias plotting. Their output goes
to the sample's log file.

The model does not run anything. A stage function becomes the list of
steps it would perform (`Stages.Step`). Each step is one of:

- a command with its argument vector, and the mode in which the sample log
  is opened for it: `Truncate` for `"w"`, `Append` for `"a"`;
- a file move.

A Python exception that aborts a stage before any command runs (a `None`
read-file name, an unbound variable) becomes a failure value.

Modules:

- `Wrappers`: the `Option` and `Result` types.
- `Text`: Python's `str.endswith`, `str.replace(pat, "")`,
  `str.replace(a, b, 1)` and `str.split(sep)[0]`, over `seq<char>`.
- `Naming`: convention detection (`get_file_extension`) and filename
  parsing (`process_filename`).
- `Grouping`: the grouping loop of `main`, modelling a dict as a map plus
  its key insertion order.
- `Stages`: the steps of `process_oneline_files` and
  `process_multiline_files`.
- `Pipeline`: `main`, that is the empty-directory check, detection,
  grouping and the dispatch loop.

Behaviours of the code that the model reproduces as written:

- **Detection settles on the first suffix, then only `_1.fastq` can
  override it.** Detection keeps scanning after a suffix has been chosen.
  For every later file, only the first table entry, `_1.fastq`, is tested
  before the inner loop breaks. So the suffix chosen is the earliest table
  entry that the first recognised file ends with, unless some file ends
  with `_1.fastq` (`Naming.DetectedSuffix`).
- **A missing lane prints as `None` in the multi-lane stages.** There,
  the read-file name of a mate-1 file without a lane token is built from
  the text `None`. The single-lane stages use the empty string instead
  (`Stages.LaneLabel`).
- **Each lane's QC wipes the log.** In the multi-lane stages every lane's
  QC step opens the log with `"w"`, so the log keeps only the output from
  the last lane's QC onward (`Stages.MultiLineLogModes`).
- **An odd group above two files is skipped, not rejected.** The error
  message at process_reads.py:403 ("does not match paired reads")
  suggests that unpaired counts were meant to be rejected, but the code
  raises only for fewer than two files and passes over an odd group above
  two without a message. The model follows the code (`Pipeline.ModeFor`).
- **Assignments in the single-lane loop take the last match.** Read-file
  and sample names come from the last matching file of the group. A file
  ending with both suffixes counts as mate-1 (`Stages.Mate1Input`,
  `Stages.Mate2Input`).

## Model

| member | source | states |
|---|---|---|
| Text.RemoveAll | process_reads.py:56 | `replace(suffix, "")` never lengthens the name and leaves it unchanged when the suffix is empty or longer than the name |
| Text.RemoveAllTrailing | process_reads.py:56 | removing a suffix from `s + suffix`, where the suffix starts nowhere inside `s`, gives back exactly `s` |
| Text.BeforeFirst | process_reads.py:61 | `split(line)[0]` is a prefix of the name that contains no occurrence of the separator, and is followed by one unless it is the whole name |
| Naming.GetFileExtension | process_reads.py:20-44 | the nested scan returns the detected suffix and its mate-2 partner, or the "Wrong file format" error exactly when detection finds nothing |
| Naming.DetectedSuffixAppend | process_reads.py:32-39 | one more file moves the detected suffix by one scan step: the first recognised file sets it, later files can only switch it to `_1.fastq` |
| Naming.DetectedSuffixSound | process_reads.py:32-44 | detection fails if and only if no file ends in a table suffix; otherwise the suffix it picks is in the table and ends some file |
| Naming.EarliestSuffixFrom | process_reads.py:33-35 | the index found is the first table entry from `from` on that the name ends with, and none before it matches |
| Naming.FirstRecognized | process_reads.py:32-35 | the index is the first file of the listing that ends in a table suffix, and no earlier file does |
| Naming.MatePartners | process_reads.py:23-36 | turning the first `1` of each mate-1 suffix into `2` yields the mate-2 table, entry by entry |
| Naming.MateExclusion | process_reads.py:23-36 | no mate-1 suffix and mate-2 suffix can both end the same filename |
| Naming.Mate1Exclusion | process_reads.py:23-30 | no two mate-1 suffixes of the table can both end the same filename: none is a suffix of another |
| Naming.SoleSuffix | process_reads.py:32-36 | a filename ending with one table suffix ends with no other, so that suffix is the one the scan picks for it |
| Naming.Mate2NotRecognized | process_reads.py:32-36 | a file ending in a mate-2 suffix ends in no mate-1 suffix |
| Naming.OnlyMate2Rejected | process_reads.py:32-44 | a listing of mate-2 files only is rejected with the format error |
| Naming.FamilyDetected | process_reads.py:20-44 | a listing whose files all end with one family's mate-1 or mate-2 suffix is detected as that family, with its mate-2 partner, once it holds a mate-1 file, and is rejected otherwise |
| Naming.GzPairDetected | process_reads.py:20-44 | the pair `s_1.fastq.gz`, `s_2.fastq.gz` is detected as (`_1.fastq.gz`, `_2.fastq.gz`) |
| Naming.LaneTokens | process_reads.py:57 | the pattern `L00[1-4]` matches exactly the tokens `L001`–`L004` |
| Naming.FindLane | process_reads.py:57-59 | `re.search` finds the leftmost position where the lane pattern matches, or reports that it matches nowhere |
| Naming.ParseFilename | process_reads.py:47-65 | `process_filename`: the sample name, then the lane token if one is found, starts the filename with its suffix removed; the sample holds no lane token; the lane is absent exactly when the stripped name holds none, and then the sample is that whole name |
| Naming.FirstLaneSplitSpec | process_reads.py:56-65 | with no lane the sample is the whole remainder; otherwise the lane is a lane token and the sample is the part before the leftmost lane, containing no lane |
| Naming.LaneBeforeFirst | process_reads.py:60-61 | splitting at the leftmost lane keeps exactly the text before it, which contains no lane |
| Naming.ParseRoundTrip | process_reads.py:47-65 | parsing `sample + lane + suffix` gives back the sample and lane, for a lane-free sample where the suffix does not occur earlier |
| Naming.LaneFollowsSample | process_reads.py:57-61 | the lane written right after a lane-free sample is the one the search finds, and the split gives back the sample |
| Grouping.MatesGroupTogether | process_reads.py:383-392 | for a detected convention, the mate-1 and mate-2 files of one sample and lane both group under that sample, through different branches |
| Grouping.GroupFiles | process_reads.py:380-392 | the dict's keys are the sample names in first-appearance order, and each holds the sample's mate files in listing order |
| Grouping.GroupFile | process_reads.py:383-392 | one pass of the loop body, mate-1 branch before mate-2 branch, extends the grouping of the files before it to include the file |
| Grouping.GroupMembers | process_reads.py:383-392 | a group holds only files of the listing whose sample is that group's |
| Grouping.GroupPartition | process_reads.py:383-392 | every mate file lands in its own sample's group as often as it is listed and in no other group; other files land nowhere |
| Grouping.SamplesMeans | process_reads.py:386-391 | a sample name becomes a key exactly when its group is non-empty |
| Grouping.SamplesDistinct | process_reads.py:386-391 | no sample name is a key twice |
| Grouping.GroupOfConcat | process_reads.py:382-392 | grouping a concatenated listing concatenates the groups, so listing order is kept |
| Grouping.GroupedAdd | process_reads.py:384-392 | adding a mate file appends it to its sample's list, first creating the list (and recording the key) when the sample is new |
| Stages.QcStep | process_reads.py:102-113 | the QC command truncates the log, reads the two input files as its last arguments, and has `--noextract` at index 1 exactly when the mate-1 suffix ends in `.gz` |
| Stages.LaneSteps | process_reads.py:102-174 | a read pair runs six commands; only the first, the QC, truncates the log; the last writes the `.sorted.deduplicated.bam` file |
| Stages.MergeStep | process_reads.py:322-327 | the merge appends to the log, writes the sample's BAM file, and takes the given lane files, in order, as its remaining arguments |
| Stages.SampleTail | process_reads.py:176-209 | every sample-level command appends to the log and reads the sample's deduplicated BAM file; every move keeps the file name and targets `methyl_extraction` |
| Stages.LaneBams | process_reads.py:318-319 | one merge input per lane, in lane order, each the lane's deduplicated BAM file |
| Stages.ProcessOneLineFiles | process_reads.py:68-209 | the single-lane stages give the planned steps, or the fault raised when no mate-1 or no mate-2 file is present |
| Stages.FindMates | process_reads.py:80-96 | the loop sets the mate-1 and mate-2 read files and the sample name from the last matching files |
| Stages.MateFile | process_reads.py:84-96 | one pass of that loop: a mate-1 file sets the mate-1 read file and the name, else a file with the mate-2 suffix sets the mate-2 read file and the name, each read file rebuilt from the parse with the lane only when one was found |
| Stages.ProcessMultiLineFiles | process_reads.py:212-362 | the multi-lane stages give every lane's six commands, the merge and the sample stages, or the fault raised when there is no mate-1 file |
| Stages.CollectLanes | process_reads.py:226-233 | the loop collects the lanes of the mate-1 files in order, and the sample name of the last one |
| Stages.OneLineLogModes | process_reads.py:112-206 | the single-lane plan has twelve steps, and only its first command truncates the log |
| Stages.MultiLineLogModes | process_reads.py:254-359 | in the multi-lane plan a command truncates the log exactly when it is a lane's QC step, the first of each lane's block of six |
| Stages.AfterLanesAppend | process_reads.py:322-359 | the merge and the sample-level commands all append to the log |
| Stages.MergeTakesLaneBams | process_reads.py:318-327 | the merge follows the lane blocks, writes `name.sorted.deduplicated.bam`, and takes exactly the lanes' `name+lane.sorted.deduplicated.bam` files in lane order |
| Stages.LaneEndsWithMarkdup | process_reads.py:310-319 | each lane's block ends with that lane's duplicate marking, which writes the file the merge takes for that lane |
| Stages.MergeFeedsSampleStages | process_reads.py:322-359 | statistics, extraction and M-bias all read the merged BAM file |
| Stages.BlocksIndex | process_reads.py:236-319 | step `i` of the lane stages is step `i mod 6` of lane `i div 6` |
| Stages.OneLineFaults | process_reads.py:80-107 | the single-lane stages raise exactly when the group lacks a mate-1 file or lacks a file that is mate-2 only |
| Stages.MultiLineFaults | process_reads.py:226-324 | the multi-lane stages raise exactly when the group has no mate-1 file |
| Stages.Mate1InputNone | process_reads.py:84-90 | no mate-1 read file is set exactly when no file ends with the mate-1 suffix |
| Stages.Mate2InputNone | process_reads.py:84-96 | no mate-2 read file is set exactly when every file ending with the mate-2 suffix also ends with the mate-1 suffix |
| Stages.OneLineFindsListedFiles | process_reads.py:84-96 | for a sample's two listed files, in either order, the loop picks exactly those two files and the sample's name |
| Stages.OneLineReadsListedFiles | process_reads.py:84-209 | for a sample's two listed files, in either order, the single-lane stages read exactly those files and name every artifact after the sample |
| Pipeline.ModeFor | process_reads.py:394-403 | two files mean single-lane, an even number above two multi-lane, an odd number above two skipped, fewer than two unpaired |
| Pipeline.RunSample | process_reads.py:394-403 | a sample is skipped exactly for an odd count above two and raises the unpaired error exactly below two; a run is named after the sample with log `name.log`; only unpaired and stage errors arise |
| Pipeline.DispatchSample | process_reads.py:394-403 | the loop body computes the sample's dispatch |
| Pipeline.DispatchAll | process_reads.py:394-403 | the loop over the samples gives the runs in order, up to the first error |
| Pipeline.ProcessReads | process_reads.py:365-403 | `main` ends with the empty-input error, the format error, or the dispatch loop over the grouped samples |
| Pipeline.ErrorEndsRun | process_reads.py:402-403 | once a sample raises, the samples after it change nothing |
| Pipeline.RunAllStops | process_reads.py:394-403 | the loop ends without error if and only if no sample raises; otherwise the error is that of the first sample that raises |
| Pipeline.RunAllErrors | process_reads.py:394-403 | the loop only ends with an error raised by a sample |
| Pipeline.RunsFollowOrder | process_reads.py:394-403 | the runs belong to samples in key order, each position at most once; without an error, every sample that has stages to run has run |
| Pipeline.MainErrors | process_reads.py:376-381 | `main` ends with the empty-input error exactly for an empty listing, and with the format error exactly for a non-empty listing without any mate-1 file |
| Pipeline.MainRuns | process_reads.py:380-403 | each sample runs at most once, as one of the grouped samples, with log `name.log`, on its whole group of files, and only when that group has two files or an even number above two |
| Pipeline.MainRunsComplete | process_reads.py:394-403 | when `main` ends without error, every grouped sample with two files or an even number above two has run |

## Left out

- Side effects: every `print`, the `os.makedirs` calls, opening the log
  and output directories, running the tools with `subprocess.run`
  (exit statuses included) and performing the moves. A plan lists the
  commands and moves. It does not claim that they succeed.
- `os.path.join` is kept as a pair (directory, file name). The input
  and output directories are `InputDir` and `OutputSub(...)`;
  `WorkingDir` is the current directory the M-bias plots are moved from.
  The log directory is dropped, and the log file is named by its file
  name only.
- `os.listdir` is called three times (the emptiness check, detection and
  grouping). The model takes one listing and assumes it does not change
  in between.
- The command-line parser and the `__main__` block. The options the
  stages read are a parameter (`Stages.Options`). The `int` options are
  kept as integers, which is what `str()` renders.
- `sys.exit(1)` becomes the `EmptyInput` outcome. A Python exception
  becomes an error value, which ends the dispatch loop just as the
  exception ends `main`. Exceptions raised by the tools or the file system
  are not modelled.
- Regular expressions in general. Only the one pattern used,
  `L00[1-4]`, is modelled, as a leftmost scan (`Naming.FindLane`).
- `Methylotl.py` and `index_genome.py` are not part of this model.
