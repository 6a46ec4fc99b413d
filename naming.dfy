/**
 * Naming conventions of paired-end read files: which mate-1 suffix a
 * directory listing uses (`get_file_extension`) and how a filename splits
 * into a sample name and an optional sequencing-lane token
 * (`process_filename`).
 */
module Naming {
  import opened Wrappers
  import opened Text

  /** The recognised mate-1 suffixes, in the order they are tried. */
  const Mate1Suffixes: seq<string> := [
    "_1.fastq", "_1.fastq.gz",
    "_1.fq.gz", "_1.fq",
    "_R1.fq.gz", "_R1.fq",
    "_R1.fastq.gz", "_R1.fastq",
    "_R1_001.fq.gz", "_R1_001.fq",
    "_R1_001.fastq.gz", "_R1_001.fastq"
  ]

  /** The mate-2 suffix paired with a mate-1 suffix: its first `1` becomes `2`. */
  function Mate2Of(mate1: string): string {
    ReplaceFirst(mate1, '1', '2')
  }

  /** The mate-2 suffixes, entry by entry those of `Mate1Suffixes`. */
  const Mate2Suffixes: seq<string> := [
    "_2.fastq", "_2.fastq.gz",
    "_2.fq.gz", "_2.fq",
    "_R2.fq.gz", "_R2.fq",
    "_R2.fastq.gz", "_R2.fastq",
    "_R2_001.fq.gz", "_R2_001.fq",
    "_R2_001.fastq.gz", "_R2_001.fastq"
  ]

  /** The naming convention of one input directory: (mate-1 suffix, mate-2 suffix). */
  datatype Convention = Convention(mate1: string, mate2: string)

  /** `ValueError("Wrong file format")`: no file carries a recognised mate-1 suffix. */
  datatype DetectionError = WrongFileFormat

  // ---------------------------------------------------------------------
  // Suffix detection (get_file_extension)
  // ---------------------------------------------------------------------

  /**
   * The index of the first table entry, from `from` on, that `f` ends with;
   * `|Mate1Suffixes|` when there is none.
   */
  function EarliestSuffixFrom(f: string, from: nat): (k: nat)
    requires from <= |Mate1Suffixes|
    ensures from <= k <= |Mate1Suffixes|
    ensures k < |Mate1Suffixes| ==> EndsWith(f, Mate1Suffixes[k])
    ensures forall j :: from <= j < k ==> !EndsWith(f, Mate1Suffixes[j])
    decreases |Mate1Suffixes| - from
  {
    if from == |Mate1Suffixes| then from
    else if EndsWith(f, Mate1Suffixes[from]) then from
    else EarliestSuffixFrom(f, from + 1)
  }

  /** `f` ends with some recognised mate-1 suffix. */
  predicate Recognized(f: string) {
    EarliestSuffixFrom(f, 0) < |Mate1Suffixes|
  }

  /** `Recognized` means: some table entry ends the name. */
  lemma RecognizedMeans(f: string)
    ensures Recognized(f) <==> exists k :: 0 <= k < |Mate1Suffixes| && EndsWith(f, Mate1Suffixes[k])
  {
  }

  /** The earliest table suffix that a recognised file ends with. */
  function EarliestSuffix(f: string): (s: string)
    requires Recognized(f)
    ensures s in Mate1Suffixes && EndsWith(f, s)
  {
    Mate1Suffixes[EarliestSuffixFrom(f, 0)]
  }

  /** The index of the first recognised file of a listing; `|listing|` when there is none. */
  function FirstRecognized(listing: seq<string>): (i: nat)
    ensures i <= |listing|
    ensures i < |listing| ==> Recognized(listing[i])
    ensures forall j :: 0 <= j < i ==> !Recognized(listing[j])
  {
    if listing == [] then 0
    else if Recognized(listing[0]) then 0
    else 1 + FirstRecognized(listing[1..])
  }

  /** Some file of the listing ends with `suffix`. */
  predicate AnyEndsWith(listing: seq<string>, suffix: string) {
    listing != [] && (EndsWith(listing[|listing| - 1], suffix) || AnyEndsWith(listing[..|listing| - 1], suffix))
  }

  lemma {:induction false} AnyEndsWithMeans(listing: seq<string>, suffix: string)
    ensures AnyEndsWith(listing, suffix) <==> exists f :: f in listing && EndsWith(f, suffix)
  {
    if listing != [] {
      var init := listing[..|listing| - 1];
      AnyEndsWithMeans(init, suffix);
      assert listing == init + [listing[|listing| - 1]];
    }
  }

  /**
   * The mate-1 suffix that the scan of a listing settles on. The first
   * recognised file contributes its earliest table suffix; after that only
   * the first table entry, `_1.fastq`, is ever tested again, so any file
   * ending in `_1.fastq` overrides it.
   */
  function DetectedSuffix(listing: seq<string>): Option<string> {
    var i := FirstRecognized(listing);
    if i == |listing| then None
    else if AnyEndsWith(listing, Mate1Suffixes[0]) then Some(Mate1Suffixes[0])
    else Some(EarliestSuffix(listing[i]))
  }

  /** What one more file does to the scan (see `DetectedSuffix`). */
  function ScanStep(chosen: Option<string>, f: string): Option<string> {
    if chosen.None? then (if Recognized(f) then Some(EarliestSuffix(f)) else None)
    else if EndsWith(f, Mate1Suffixes[0]) then Some(Mate1Suffixes[0])
    else chosen
  }

  /** Appending a file to the listing moves `DetectedSuffix` by exactly one `ScanStep`. */
  lemma DetectedSuffixAppend(xs: seq<string>, f: string)
    ensures DetectedSuffix(xs + [f]) == ScanStep(DetectedSuffix(xs), f)
  {
    var ys := xs + [f];
    assert ys[..|ys| - 1] == xs;
    assert forall j :: 0 <= j < |xs| ==> ys[j] == xs[j];
    var i := FirstRecognized(xs);
    if i < |xs| {
      assert FirstRecognized(ys) == i;
    } else if Recognized(f) {
      assert FirstRecognized(ys) == |xs|;
      if !EndsWith(f, Mate1Suffixes[0]) {
        AnyEndsWithMeans(xs, Mate1Suffixes[0]);
        RecognizedMeans(f);
        forall g | g in xs ensures !EndsWith(g, Mate1Suffixes[0]) {
          RecognizedMeans(g);
        }
      }
    } else {
      assert FirstRecognized(ys) == |ys|;
    }
  }

  /** One more file of the listing moves `DetectedSuffix` by one `ScanStep`. */
  lemma DetectedSuffixNext(listing: seq<string>, i: nat)
    requires i < |listing|
    ensures DetectedSuffix(listing[..i + 1]) == ScanStep(DetectedSuffix(listing[..i]), listing[i])
  {
    assert listing[..i + 1] == listing[..i] + [listing[i]];
    DetectedSuffixAppend(listing[..i], listing[i]);
  }

  /** The first table entry that `f` ends with is its earliest suffix. */
  lemma EarliestSuffixAt(f: string, k: nat)
    requires k < |Mate1Suffixes| && EndsWith(f, Mate1Suffixes[k])
    requires EarliestSuffixFrom(f, k) == EarliestSuffixFrom(f, 0)
    ensures Recognized(f) && EarliestSuffix(f) == Mate1Suffixes[k]
  {
  }

  /**
   * `get_file_extension`: scan every file against every table suffix in
   * order, stopping the inner scan as soon as a suffix has been chosen.
   */
  method GetFileExtension(listing: seq<string>) returns (r: Result<Convention, DetectionError>)
    ensures DetectedSuffix(listing).None? ==> r == Failure(WrongFileFormat)
    ensures DetectedSuffix(listing).Some? ==>
      r == Success(Convention(DetectedSuffix(listing).value, Mate2Of(DetectedSuffix(listing).value)))
  {
    var output1: Option<string> := None;
    var output2: Option<string> := None;
    for i := 0 to |listing|
      invariant output1 == DetectedSuffix(listing[..i])
      invariant output1.None? <==> output2.None?
      invariant output1.Some? ==> output2.value == Mate2Of(output1.value)
    {
      var filename := listing[i];
      ghost var before := output1;
      for k := 0 to |Mate1Suffixes|
        invariant output1.None? <==> output2.None?
        invariant output1.Some? ==> output2.value == Mate2Of(output1.value)
        invariant before.Some? ==> k == 0 && output1 == before
        invariant before.None? ==> output1.None? && EarliestSuffixFrom(filename, k) == EarliestSuffixFrom(filename, 0)
      {
        var extension := Mate1Suffixes[k];
        if EndsWith(filename, extension) {
          output1 := Some(extension);
          output2 := Some(Mate2Of(extension));
        }
        if output1.Some? && output2.Some? {
          if before.None? {
            EarliestSuffixAt(filename, k);
          }
          break;
        }
      }
      assert output1 == ScanStep(before, filename);
      DetectedSuffixNext(listing, i);
    }
    assert listing[..|listing|] == listing;
    if output1.Some? && output2.Some? {
      r := Success(Convention(output1.value, output2.value));
    } else {
      r := Failure(WrongFileFormat);
    }
  }

  /**
   * Detection is sound and complete: it fails exactly when no file ends in a
   * table suffix, and otherwise picks a table suffix that some file ends with.
   */
  lemma DetectedSuffixSound(listing: seq<string>)
    ensures DetectedSuffix(listing).None? <==>
      forall f, k :: f in listing && 0 <= k < |Mate1Suffixes| ==> !EndsWith(f, Mate1Suffixes[k])
    ensures DetectedSuffix(listing).Some? ==>
      DetectedSuffix(listing).value in Mate1Suffixes &&
      exists f :: f in listing && EndsWith(f, DetectedSuffix(listing).value)
  {
    var i := FirstRecognized(listing);
    if i < |listing| {
      var g := listing[i];
      var k := EarliestSuffixFrom(g, 0);
      assert g in listing && EndsWith(g, Mate1Suffixes[k]);
      AnyEndsWithMeans(listing, Mate1Suffixes[0]);
      if AnyEndsWith(listing, Mate1Suffixes[0]) {
        assert DetectedSuffix(listing) == Some(Mate1Suffixes[0]);
      } else {
        assert DetectedSuffix(listing) == Some(Mate1Suffixes[k]);
      }
    } else {
      forall f, k | f in listing && 0 <= k < |Mate1Suffixes|
        ensures !EndsWith(f, Mate1Suffixes[k])
      {
        RecognizedMeans(f);
      }
    }
  }

  /** Neither of `v`, `w` is a suffix of the other, so no filename ends with both. */
  predicate Exclusive(v: string, w: string) {
    !EndsWith(v, w) && !EndsWith(w, v)
  }

  /** A suffix whose first `1` is preceded by `pre` gets its `2` in the same place. */
  lemma Mate2OfSplit(pre: string, rest: string)
    requires '1' !in pre
    ensures Mate2Of(pre + "1" + rest) == pre + "2" + rest
  {
    ReplaceFirstSplit(pre, '1', '2', rest);
  }

  /** Two strings that differ `d` places from their ends cannot end one filename together. */
  lemma DifferFromEnd(v: string, w: string, d: nat)
    requires d < |v| && d < |w| && v[|v| - 1 - d] != w[|w| - 1 - d]
    ensures Exclusive(v, w)
  {
    if |w| <= |v| {
      assert v[|v| - |w|..][|w| - 1 - d] == v[|v| - 1 - d];
    }
    if |v| <= |w| {
      assert w[|w| - |v|..][|v| - 1 - d] == w[|w| - 1 - d];
    }
  }

  // Two lemmas per row of the mate-1 table: the row's mate-2 partner, and
  // that its suffix cannot end the same filename as any mate-2 suffix (each
  // pair is told apart by the character where they first differ, counted
  // from the end). Kept apart so that each proof stays small.
  lemma MatePartner0()
    ensures Mate2Of("_1.fastq") == "_2.fastq"
  {
    Mate2OfSplit("_", ".fastq");
    assert "_" + "1" + ".fastq" == "_1.fastq";
    assert "_" + "2" + ".fastq" == "_2.fastq";
  }

  lemma MateRow0()
    ensures forall j :: 0 <= j < |Mate2Suffixes| ==> Exclusive(Mate1Suffixes[0], Mate2Suffixes[j])
  {
    forall j | 0 <= j < |Mate2Suffixes| ensures Exclusive(Mate1Suffixes[0], Mate2Suffixes[j]) {
      if j == 0 { DifferFromEnd(Mate1Suffixes[0], Mate2Suffixes[0], 6); }
      else if j == 1 { DifferFromEnd(Mate1Suffixes[0], Mate2Suffixes[1], 0); }
      else if j == 2 { DifferFromEnd(Mate1Suffixes[0], Mate2Suffixes[2], 0); }
      else if j == 3 { DifferFromEnd(Mate1Suffixes[0], Mate2Suffixes[3], 1); }
      else if j == 4 { DifferFromEnd(Mate1Suffixes[0], Mate2Suffixes[4], 0); }
      else if j == 5 { DifferFromEnd(Mate1Suffixes[0], Mate2Suffixes[5], 1); }
      else if j == 6 { DifferFromEnd(Mate1Suffixes[0], Mate2Suffixes[6], 0); }
      else if j == 7 { DifferFromEnd(Mate1Suffixes[0], Mate2Suffixes[7], 6); }
      else if j == 8 { DifferFromEnd(Mate1Suffixes[0], Mate2Suffixes[8], 0); }
      else if j == 9 { DifferFromEnd(Mate1Suffixes[0], Mate2Suffixes[9], 1); }
      else if j == 10 { DifferFromEnd(Mate1Suffixes[0], Mate2Suffixes[10], 0); }
      else { DifferFromEnd(Mate1Suffixes[0], Mate2Suffixes[11], 7); }
    }
  }

  lemma MatePartner1()
    ensures Mate2Of("_1.fastq.gz") == "_2.fastq.gz"
  {
    Mate2OfSplit("_", ".fastq.gz");
    assert "_" + "1" + ".fastq.gz" == "_1.fastq.gz";
    assert "_" + "2" + ".fastq.gz" == "_2.fastq.gz";
  }

  lemma MateRow1()
    ensures forall j :: 0 <= j < |Mate2Suffixes| ==> Exclusive(Mate1Suffixes[1], Mate2Suffixes[j])
  {
    forall j | 0 <= j < |Mate2Suffixes| ensures Exclusive(Mate1Suffixes[1], Mate2Suffixes[j]) {
      if j == 0 { DifferFromEnd(Mate1Suffixes[1], Mate2Suffixes[0], 0); }
      else if j == 1 { DifferFromEnd(Mate1Suffixes[1], Mate2Suffixes[1], 9); }
      else if j == 2 { DifferFromEnd(Mate1Suffixes[1], Mate2Suffixes[2], 4); }
      else if j == 3 { DifferFromEnd(Mate1Suffixes[1], Mate2Suffixes[3], 0); }
      else if j == 4 { DifferFromEnd(Mate1Suffixes[1], Mate2Suffixes[4], 4); }
      else if j == 5 { DifferFromEnd(Mate1Suffixes[1], Mate2Suffixes[5], 0); }
      else if j == 6 { DifferFromEnd(Mate1Suffixes[1], Mate2Suffixes[6], 9); }
      else if j == 7 { DifferFromEnd(Mate1Suffixes[1], Mate2Suffixes[7], 0); }
      else if j == 8 { DifferFromEnd(Mate1Suffixes[1], Mate2Suffixes[8], 4); }
      else if j == 9 { DifferFromEnd(Mate1Suffixes[1], Mate2Suffixes[9], 0); }
      else if j == 10 { DifferFromEnd(Mate1Suffixes[1], Mate2Suffixes[10], 10); }
      else { DifferFromEnd(Mate1Suffixes[1], Mate2Suffixes[11], 0); }
    }
  }

  lemma MatePartner2()
    ensures Mate2Of("_1.fq.gz") == "_2.fq.gz"
  {
    Mate2OfSplit("_", ".fq.gz");
    assert "_" + "1" + ".fq.gz" == "_1.fq.gz";
    assert "_" + "2" + ".fq.gz" == "_2.fq.gz";
  }

  lemma MateRow2()
    ensures forall j :: 0 <= j < |Mate2Suffixes| ==> Exclusive(Mate1Suffixes[2], Mate2Suffixes[j])
  {
    forall j | 0 <= j < |Mate2Suffixes| ensures Exclusive(Mate1Suffixes[2], Mate2Suffixes[j]) {
      if j == 0 { DifferFromEnd(Mate1Suffixes[2], Mate2Suffixes[0], 0); }
      else if j == 1 { DifferFromEnd(Mate1Suffixes[2], Mate2Suffixes[1], 4); }
      else if j == 2 { DifferFromEnd(Mate1Suffixes[2], Mate2Suffixes[2], 6); }
      else if j == 3 { DifferFromEnd(Mate1Suffixes[2], Mate2Suffixes[3], 0); }
      else if j == 4 { DifferFromEnd(Mate1Suffixes[2], Mate2Suffixes[4], 6); }
      else if j == 5 { DifferFromEnd(Mate1Suffixes[2], Mate2Suffixes[5], 0); }
      else if j == 6 { DifferFromEnd(Mate1Suffixes[2], Mate2Suffixes[6], 4); }
      else if j == 7 { DifferFromEnd(Mate1Suffixes[2], Mate2Suffixes[7], 0); }
      else if j == 8 { DifferFromEnd(Mate1Suffixes[2], Mate2Suffixes[8], 7); }
      else if j == 9 { DifferFromEnd(Mate1Suffixes[2], Mate2Suffixes[9], 0); }
      else if j == 10 { DifferFromEnd(Mate1Suffixes[2], Mate2Suffixes[10], 4); }
      else { DifferFromEnd(Mate1Suffixes[2], Mate2Suffixes[11], 0); }
    }
  }

  lemma MatePartner3()
    ensures Mate2Of("_1.fq") == "_2.fq"
  {
    Mate2OfSplit("_", ".fq");
    assert "_" + "1" + ".fq" == "_1.fq";
    assert "_" + "2" + ".fq" == "_2.fq";
  }

  lemma MateRow3()
    ensures forall j :: 0 <= j < |Mate2Suffixes| ==> Exclusive(Mate1Suffixes[3], Mate2Suffixes[j])
  {
    forall j | 0 <= j < |Mate2Suffixes| ensures Exclusive(Mate1Suffixes[3], Mate2Suffixes[j]) {
      if j == 0 { DifferFromEnd(Mate1Suffixes[3], Mate2Suffixes[0], 1); }
      else if j == 1 { DifferFromEnd(Mate1Suffixes[3], Mate2Suffixes[1], 0); }
      else if j == 2 { DifferFromEnd(Mate1Suffixes[3], Mate2Suffixes[2], 0); }
      else if j == 3 { DifferFromEnd(Mate1Suffixes[3], Mate2Suffixes[3], 3); }
      else if j == 4 { DifferFromEnd(Mate1Suffixes[3], Mate2Suffixes[4], 0); }
      else if j == 5 { DifferFromEnd(Mate1Suffixes[3], Mate2Suffixes[5], 3); }
      else if j == 6 { DifferFromEnd(Mate1Suffixes[3], Mate2Suffixes[6], 0); }
      else if j == 7 { DifferFromEnd(Mate1Suffixes[3], Mate2Suffixes[7], 1); }
      else if j == 8 { DifferFromEnd(Mate1Suffixes[3], Mate2Suffixes[8], 0); }
      else if j == 9 { DifferFromEnd(Mate1Suffixes[3], Mate2Suffixes[9], 4); }
      else if j == 10 { DifferFromEnd(Mate1Suffixes[3], Mate2Suffixes[10], 0); }
      else { DifferFromEnd(Mate1Suffixes[3], Mate2Suffixes[11], 1); }
    }
  }

  lemma MatePartner4()
    ensures Mate2Of("_R1.fq.gz") == "_R2.fq.gz"
  {
    Mate2OfSplit("_R", ".fq.gz");
    assert "_R" + "1" + ".fq.gz" == "_R1.fq.gz";
    assert "_R" + "2" + ".fq.gz" == "_R2.fq.gz";
  }

  lemma MateRow4()
    ensures forall j :: 0 <= j < |Mate2Suffixes| ==> Exclusive(Mate1Suffixes[4], Mate2Suffixes[j])
  {
    forall j | 0 <= j < |Mate2Suffixes| ensures Exclusive(Mate1Suffixes[4], Mate2Suffixes[j]) {
      if j == 0 { DifferFromEnd(Mate1Suffixes[4], Mate2Suffixes[0], 0); }
      else if j == 1 { DifferFromEnd(Mate1Suffixes[4], Mate2Suffixes[1], 4); }
      else if j == 2 { DifferFromEnd(Mate1Suffixes[4], Mate2Suffixes[2], 6); }
      else if j == 3 { DifferFromEnd(Mate1Suffixes[4], Mate2Suffixes[3], 0); }
      else if j == 4 { DifferFromEnd(Mate1Suffixes[4], Mate2Suffixes[4], 6); }
      else if j == 5 { DifferFromEnd(Mate1Suffixes[4], Mate2Suffixes[5], 0); }
      else if j == 6 { DifferFromEnd(Mate1Suffixes[4], Mate2Suffixes[6], 4); }
      else if j == 7 { DifferFromEnd(Mate1Suffixes[4], Mate2Suffixes[7], 0); }
      else if j == 8 { DifferFromEnd(Mate1Suffixes[4], Mate2Suffixes[8], 7); }
      else if j == 9 { DifferFromEnd(Mate1Suffixes[4], Mate2Suffixes[9], 0); }
      else if j == 10 { DifferFromEnd(Mate1Suffixes[4], Mate2Suffixes[10], 4); }
      else { DifferFromEnd(Mate1Suffixes[4], Mate2Suffixes[11], 0); }
    }
  }

  lemma MatePartner5()
    ensures Mate2Of("_R1.fq") == "_R2.fq"
  {
    Mate2OfSplit("_R", ".fq");
    assert "_R" + "1" + ".fq" == "_R1.fq";
    assert "_R" + "2" + ".fq" == "_R2.fq";
  }

  lemma MateRow5()
    ensures forall j :: 0 <= j < |Mate2Suffixes| ==> Exclusive(Mate1Suffixes[5], Mate2Suffixes[j])
  {
    forall j | 0 <= j < |Mate2Suffixes| ensures Exclusive(Mate1Suffixes[5], Mate2Suffixes[j]) {
      if j == 0 { DifferFromEnd(Mate1Suffixes[5], Mate2Suffixes[0], 1); }
      else if j == 1 { DifferFromEnd(Mate1Suffixes[5], Mate2Suffixes[1], 0); }
      else if j == 2 { DifferFromEnd(Mate1Suffixes[5], Mate2Suffixes[2], 0); }
      else if j == 3 { DifferFromEnd(Mate1Suffixes[5], Mate2Suffixes[3], 3); }
      else if j == 4 { DifferFromEnd(Mate1Suffixes[5], Mate2Suffixes[4], 0); }
      else if j == 5 { DifferFromEnd(Mate1Suffixes[5], Mate2Suffixes[5], 3); }
      else if j == 6 { DifferFromEnd(Mate1Suffixes[5], Mate2Suffixes[6], 0); }
      else if j == 7 { DifferFromEnd(Mate1Suffixes[5], Mate2Suffixes[7], 1); }
      else if j == 8 { DifferFromEnd(Mate1Suffixes[5], Mate2Suffixes[8], 0); }
      else if j == 9 { DifferFromEnd(Mate1Suffixes[5], Mate2Suffixes[9], 4); }
      else if j == 10 { DifferFromEnd(Mate1Suffixes[5], Mate2Suffixes[10], 0); }
      else { DifferFromEnd(Mate1Suffixes[5], Mate2Suffixes[11], 1); }
    }
  }

  lemma MatePartner6()
    ensures Mate2Of("_R1.fastq.gz") == "_R2.fastq.gz"
  {
    Mate2OfSplit("_R", ".fastq.gz");
    assert "_R" + "1" + ".fastq.gz" == "_R1.fastq.gz";
    assert "_R" + "2" + ".fastq.gz" == "_R2.fastq.gz";
  }

  lemma MateRow6()
    ensures forall j :: 0 <= j < |Mate2Suffixes| ==> Exclusive(Mate1Suffixes[6], Mate2Suffixes[j])
  {
    forall j | 0 <= j < |Mate2Suffixes| ensures Exclusive(Mate1Suffixes[6], Mate2Suffixes[j]) {
      if j == 0 { DifferFromEnd(Mate1Suffixes[6], Mate2Suffixes[0], 0); }
      else if j == 1 { DifferFromEnd(Mate1Suffixes[6], Mate2Suffixes[1], 9); }
      else if j == 2 { DifferFromEnd(Mate1Suffixes[6], Mate2Suffixes[2], 4); }
      else if j == 3 { DifferFromEnd(Mate1Suffixes[6], Mate2Suffixes[3], 0); }
      else if j == 4 { DifferFromEnd(Mate1Suffixes[6], Mate2Suffixes[4], 4); }
      else if j == 5 { DifferFromEnd(Mate1Suffixes[6], Mate2Suffixes[5], 0); }
      else if j == 6 { DifferFromEnd(Mate1Suffixes[6], Mate2Suffixes[6], 9); }
      else if j == 7 { DifferFromEnd(Mate1Suffixes[6], Mate2Suffixes[7], 0); }
      else if j == 8 { DifferFromEnd(Mate1Suffixes[6], Mate2Suffixes[8], 4); }
      else if j == 9 { DifferFromEnd(Mate1Suffixes[6], Mate2Suffixes[9], 0); }
      else if j == 10 { DifferFromEnd(Mate1Suffixes[6], Mate2Suffixes[10], 10); }
      else { DifferFromEnd(Mate1Suffixes[6], Mate2Suffixes[11], 0); }
    }
  }

  lemma MatePartner7()
    ensures Mate2Of("_R1.fastq") == "_R2.fastq"
  {
    Mate2OfSplit("_R", ".fastq");
    assert "_R" + "1" + ".fastq" == "_R1.fastq";
    assert "_R" + "2" + ".fastq" == "_R2.fastq";
  }

  lemma MateRow7()
    ensures forall j :: 0 <= j < |Mate2Suffixes| ==> Exclusive(Mate1Suffixes[7], Mate2Suffixes[j])
  {
    forall j | 0 <= j < |Mate2Suffixes| ensures Exclusive(Mate1Suffixes[7], Mate2Suffixes[j]) {
      if j == 0 { DifferFromEnd(Mate1Suffixes[7], Mate2Suffixes[0], 6); }
      else if j == 1 { DifferFromEnd(Mate1Suffixes[7], Mate2Suffixes[1], 0); }
      else if j == 2 { DifferFromEnd(Mate1Suffixes[7], Mate2Suffixes[2], 0); }
      else if j == 3 { DifferFromEnd(Mate1Suffixes[7], Mate2Suffixes[3], 1); }
      else if j == 4 { DifferFromEnd(Mate1Suffixes[7], Mate2Suffixes[4], 0); }
      else if j == 5 { DifferFromEnd(Mate1Suffixes[7], Mate2Suffixes[5], 1); }
      else if j == 6 { DifferFromEnd(Mate1Suffixes[7], Mate2Suffixes[6], 0); }
      else if j == 7 { DifferFromEnd(Mate1Suffixes[7], Mate2Suffixes[7], 6); }
      else if j == 8 { DifferFromEnd(Mate1Suffixes[7], Mate2Suffixes[8], 0); }
      else if j == 9 { DifferFromEnd(Mate1Suffixes[7], Mate2Suffixes[9], 1); }
      else if j == 10 { DifferFromEnd(Mate1Suffixes[7], Mate2Suffixes[10], 0); }
      else { DifferFromEnd(Mate1Suffixes[7], Mate2Suffixes[11], 7); }
    }
  }

  lemma MatePartner8()
    ensures Mate2Of("_R1_001.fq.gz") == "_R2_001.fq.gz"
  {
    Mate2OfSplit("_R", "_001.fq.gz");
    assert "_R" + "1" + "_001.fq.gz" == "_R1_001.fq.gz";
    assert "_R" + "2" + "_001.fq.gz" == "_R2_001.fq.gz";
  }

  lemma MateRow8()
    ensures forall j :: 0 <= j < |Mate2Suffixes| ==> Exclusive(Mate1Suffixes[8], Mate2Suffixes[j])
  {
    forall j | 0 <= j < |Mate2Suffixes| ensures Exclusive(Mate1Suffixes[8], Mate2Suffixes[j]) {
      if j == 0 { DifferFromEnd(Mate1Suffixes[8], Mate2Suffixes[0], 0); }
      else if j == 1 { DifferFromEnd(Mate1Suffixes[8], Mate2Suffixes[1], 4); }
      else if j == 2 { DifferFromEnd(Mate1Suffixes[8], Mate2Suffixes[2], 6); }
      else if j == 3 { DifferFromEnd(Mate1Suffixes[8], Mate2Suffixes[3], 0); }
      else if j == 4 { DifferFromEnd(Mate1Suffixes[8], Mate2Suffixes[4], 6); }
      else if j == 5 { DifferFromEnd(Mate1Suffixes[8], Mate2Suffixes[5], 0); }
      else if j == 6 { DifferFromEnd(Mate1Suffixes[8], Mate2Suffixes[6], 4); }
      else if j == 7 { DifferFromEnd(Mate1Suffixes[8], Mate2Suffixes[7], 0); }
      else if j == 8 { DifferFromEnd(Mate1Suffixes[8], Mate2Suffixes[8], 10); }
      else if j == 9 { DifferFromEnd(Mate1Suffixes[8], Mate2Suffixes[9], 0); }
      else if j == 10 { DifferFromEnd(Mate1Suffixes[8], Mate2Suffixes[10], 4); }
      else { DifferFromEnd(Mate1Suffixes[8], Mate2Suffixes[11], 0); }
    }
  }

  lemma MatePartner9()
    ensures Mate2Of("_R1_001.fq") == "_R2_001.fq"
  {
    Mate2OfSplit("_R", "_001.fq");
    assert "_R" + "1" + "_001.fq" == "_R1_001.fq";
    assert "_R" + "2" + "_001.fq" == "_R2_001.fq";
  }

  lemma MateRow9()
    ensures forall j :: 0 <= j < |Mate2Suffixes| ==> Exclusive(Mate1Suffixes[9], Mate2Suffixes[j])
  {
    forall j | 0 <= j < |Mate2Suffixes| ensures Exclusive(Mate1Suffixes[9], Mate2Suffixes[j]) {
      if j == 0 { DifferFromEnd(Mate1Suffixes[9], Mate2Suffixes[0], 1); }
      else if j == 1 { DifferFromEnd(Mate1Suffixes[9], Mate2Suffixes[1], 0); }
      else if j == 2 { DifferFromEnd(Mate1Suffixes[9], Mate2Suffixes[2], 0); }
      else if j == 3 { DifferFromEnd(Mate1Suffixes[9], Mate2Suffixes[3], 3); }
      else if j == 4 { DifferFromEnd(Mate1Suffixes[9], Mate2Suffixes[4], 0); }
      else if j == 5 { DifferFromEnd(Mate1Suffixes[9], Mate2Suffixes[5], 3); }
      else if j == 6 { DifferFromEnd(Mate1Suffixes[9], Mate2Suffixes[6], 0); }
      else if j == 7 { DifferFromEnd(Mate1Suffixes[9], Mate2Suffixes[7], 1); }
      else if j == 8 { DifferFromEnd(Mate1Suffixes[9], Mate2Suffixes[8], 0); }
      else if j == 9 { DifferFromEnd(Mate1Suffixes[9], Mate2Suffixes[9], 7); }
      else if j == 10 { DifferFromEnd(Mate1Suffixes[9], Mate2Suffixes[10], 0); }
      else { DifferFromEnd(Mate1Suffixes[9], Mate2Suffixes[11], 1); }
    }
  }

  lemma MatePartner10()
    ensures Mate2Of("_R1_001.fastq.gz") == "_R2_001.fastq.gz"
  {
    Mate2OfSplit("_R", "_001.fastq.gz");
    assert "_R" + "1" + "_001.fastq.gz" == "_R1_001.fastq.gz";
    assert "_R" + "2" + "_001.fastq.gz" == "_R2_001.fastq.gz";
  }

  lemma MateRow10()
    ensures forall j :: 0 <= j < |Mate2Suffixes| ==> Exclusive(Mate1Suffixes[10], Mate2Suffixes[j])
  {
    forall j | 0 <= j < |Mate2Suffixes| ensures Exclusive(Mate1Suffixes[10], Mate2Suffixes[j]) {
      if j == 0 { DifferFromEnd(Mate1Suffixes[10], Mate2Suffixes[0], 0); }
      else if j == 1 { DifferFromEnd(Mate1Suffixes[10], Mate2Suffixes[1], 9); }
      else if j == 2 { DifferFromEnd(Mate1Suffixes[10], Mate2Suffixes[2], 4); }
      else if j == 3 { DifferFromEnd(Mate1Suffixes[10], Mate2Suffixes[3], 0); }
      else if j == 4 { DifferFromEnd(Mate1Suffixes[10], Mate2Suffixes[4], 4); }
      else if j == 5 { DifferFromEnd(Mate1Suffixes[10], Mate2Suffixes[5], 0); }
      else if j == 6 { DifferFromEnd(Mate1Suffixes[10], Mate2Suffixes[6], 9); }
      else if j == 7 { DifferFromEnd(Mate1Suffixes[10], Mate2Suffixes[7], 0); }
      else if j == 8 { DifferFromEnd(Mate1Suffixes[10], Mate2Suffixes[8], 4); }
      else if j == 9 { DifferFromEnd(Mate1Suffixes[10], Mate2Suffixes[9], 0); }
      else if j == 10 { DifferFromEnd(Mate1Suffixes[10], Mate2Suffixes[10], 13); }
      else { DifferFromEnd(Mate1Suffixes[10], Mate2Suffixes[11], 0); }
    }
  }

  lemma MatePartner11()
    ensures Mate2Of("_R1_001.fastq") == "_R2_001.fastq"
  {
    Mate2OfSplit("_R", "_001.fastq");
    assert "_R" + "1" + "_001.fastq" == "_R1_001.fastq";
    assert "_R" + "2" + "_001.fastq" == "_R2_001.fastq";
  }

  lemma MateRow11()
    ensures forall j :: 0 <= j < |Mate2Suffixes| ==> Exclusive(Mate1Suffixes[11], Mate2Suffixes[j])
  {
    forall j | 0 <= j < |Mate2Suffixes| ensures Exclusive(Mate1Suffixes[11], Mate2Suffixes[j]) {
      if j == 0 { DifferFromEnd(Mate1Suffixes[11], Mate2Suffixes[0], 6); }
      else if j == 1 { DifferFromEnd(Mate1Suffixes[11], Mate2Suffixes[1], 0); }
      else if j == 2 { DifferFromEnd(Mate1Suffixes[11], Mate2Suffixes[2], 0); }
      else if j == 3 { DifferFromEnd(Mate1Suffixes[11], Mate2Suffixes[3], 1); }
      else if j == 4 { DifferFromEnd(Mate1Suffixes[11], Mate2Suffixes[4], 0); }
      else if j == 5 { DifferFromEnd(Mate1Suffixes[11], Mate2Suffixes[5], 1); }
      else if j == 6 { DifferFromEnd(Mate1Suffixes[11], Mate2Suffixes[6], 0); }
      else if j == 7 { DifferFromEnd(Mate1Suffixes[11], Mate2Suffixes[7], 6); }
      else if j == 8 { DifferFromEnd(Mate1Suffixes[11], Mate2Suffixes[8], 0); }
      else if j == 9 { DifferFromEnd(Mate1Suffixes[11], Mate2Suffixes[9], 1); }
      else if j == 10 { DifferFromEnd(Mate1Suffixes[11], Mate2Suffixes[10], 0); }
      else { DifferFromEnd(Mate1Suffixes[11], Mate2Suffixes[11], 10); }
    }
  }

  /** The mate-2 table is the mate-1 table with each entry's first `1` turned into `2`. */
  lemma MatePartners()
    ensures forall i :: 0 <= i < |Mate1Suffixes| ==> Mate2Of(Mate1Suffixes[i]) == Mate2Suffixes[i]
  {
    forall i | 0 <= i < |Mate1Suffixes|
      ensures Mate2Of(Mate1Suffixes[i]) == Mate2Suffixes[i]
    {
      if i == 0 { MatePartner0(); }
      else if i == 1 { MatePartner1(); }
      else if i == 2 { MatePartner2(); }
      else if i == 3 { MatePartner3(); }
      else if i == 4 { MatePartner4(); }
      else if i == 5 { MatePartner5(); }
      else if i == 6 { MatePartner6(); }
      else if i == 7 { MatePartner7(); }
      else if i == 8 { MatePartner8(); }
      else if i == 9 { MatePartner9(); }
      else if i == 10 { MatePartner10(); }
      else { MatePartner11(); }
    }
  }

  /** No mate-1 suffix can end the same filename as a mate-2 suffix. */
  lemma MateExclusion()
    ensures forall i, j :: 0 <= i < |Mate1Suffixes| && 0 <= j < |Mate2Suffixes| ==>
      Exclusive(Mate1Suffixes[i], Mate2Suffixes[j])
  {
    forall i | 0 <= i < |Mate1Suffixes|
      ensures forall j :: 0 <= j < |Mate2Suffixes| ==> Exclusive(Mate1Suffixes[i], Mate2Suffixes[j])
    {
      if i == 0 { MateRow0(); }
      else if i == 1 { MateRow1(); }
      else if i == 2 { MateRow2(); }
      else if i == 3 { MateRow3(); }
      else if i == 4 { MateRow4(); }
      else if i == 5 { MateRow5(); }
      else if i == 6 { MateRow6(); }
      else if i == 7 { MateRow7(); }
      else if i == 8 { MateRow8(); }
      else if i == 9 { MateRow9(); }
      else if i == 10 { MateRow10(); }
      else { MateRow11(); }
    }
  }

  /** A filename that ends in a mate-2 suffix ends in no mate-1 suffix. */
  lemma Mate2NotRecognized(f: string, j: nat)
    requires j < |Mate2Suffixes| && EndsWith(f, Mate2Suffixes[j])
    ensures !Recognized(f)
  {
    MateExclusion();
    forall i | 0 <= i < |Mate1Suffixes|
      ensures !EndsWith(f, Mate1Suffixes[i])
    {
      EndsWithBoth(f, Mate1Suffixes[i], Mate2Suffixes[j]);
    }
    RecognizedMeans(f);
  }

  /** A listing made only of mate-2 files is rejected as being in the wrong format. */
  lemma OnlyMate2Rejected(listing: seq<string>)
    requires forall f :: f in listing ==> exists j :: 0 <= j < |Mate2Suffixes| && EndsWith(f, Mate2Suffixes[j])
    ensures DetectedSuffix(listing) == None
  {
    forall f, k | f in listing && 0 <= k < |Mate1Suffixes|
      ensures !EndsWith(f, Mate1Suffixes[k])
    {
      var j :| 0 <= j < |Mate2Suffixes| && EndsWith(f, Mate2Suffixes[j]);
      Mate2NotRecognized(f, j);
      RecognizedMeans(f);
    }
    DetectedSuffixSound(listing);
  }

  // One lemma per row of the mate-1 table: its suffix cannot end the same
  // filename as any other mate-1 suffix, told apart as above.
  lemma Mate1Row0()
    ensures forall j :: 0 <= j < |Mate1Suffixes| && j != 0 ==> Exclusive(Mate1Suffixes[0], Mate1Suffixes[j])
  {
    forall j | 0 <= j < |Mate1Suffixes| && j != 0 ensures Exclusive(Mate1Suffixes[0], Mate1Suffixes[j]) {
      if j == 1 { DifferFromEnd(Mate1Suffixes[0], Mate1Suffixes[1], 0); }
      else if j == 2 { DifferFromEnd(Mate1Suffixes[0], Mate1Suffixes[2], 0); }
      else if j == 3 { DifferFromEnd(Mate1Suffixes[0], Mate1Suffixes[3], 1); }
      else if j == 4 { DifferFromEnd(Mate1Suffixes[0], Mate1Suffixes[4], 0); }
      else if j == 5 { DifferFromEnd(Mate1Suffixes[0], Mate1Suffixes[5], 1); }
      else if j == 6 { DifferFromEnd(Mate1Suffixes[0], Mate1Suffixes[6], 0); }
      else if j == 7 { DifferFromEnd(Mate1Suffixes[0], Mate1Suffixes[7], 7); }
      else if j == 8 { DifferFromEnd(Mate1Suffixes[0], Mate1Suffixes[8], 0); }
      else if j == 9 { DifferFromEnd(Mate1Suffixes[0], Mate1Suffixes[9], 1); }
      else if j == 10 { DifferFromEnd(Mate1Suffixes[0], Mate1Suffixes[10], 0); }
      else { DifferFromEnd(Mate1Suffixes[0], Mate1Suffixes[11], 7); }
    }
  }

  lemma Mate1Row1()
    ensures forall j :: 0 <= j < |Mate1Suffixes| && j != 1 ==> Exclusive(Mate1Suffixes[1], Mate1Suffixes[j])
  {
    forall j | 0 <= j < |Mate1Suffixes| && j != 1 ensures Exclusive(Mate1Suffixes[1], Mate1Suffixes[j]) {
      if j == 0 { DifferFromEnd(Mate1Suffixes[1], Mate1Suffixes[0], 0); }
      else if j == 2 { DifferFromEnd(Mate1Suffixes[1], Mate1Suffixes[2], 4); }
      else if j == 3 { DifferFromEnd(Mate1Suffixes[1], Mate1Suffixes[3], 0); }
      else if j == 4 { DifferFromEnd(Mate1Suffixes[1], Mate1Suffixes[4], 4); }
      else if j == 5 { DifferFromEnd(Mate1Suffixes[1], Mate1Suffixes[5], 0); }
      else if j == 6 { DifferFromEnd(Mate1Suffixes[1], Mate1Suffixes[6], 10); }
      else if j == 7 { DifferFromEnd(Mate1Suffixes[1], Mate1Suffixes[7], 0); }
      else if j == 8 { DifferFromEnd(Mate1Suffixes[1], Mate1Suffixes[8], 4); }
      else if j == 9 { DifferFromEnd(Mate1Suffixes[1], Mate1Suffixes[9], 0); }
      else if j == 10 { DifferFromEnd(Mate1Suffixes[1], Mate1Suffixes[10], 10); }
      else { DifferFromEnd(Mate1Suffixes[1], Mate1Suffixes[11], 0); }
    }
  }

  lemma Mate1Row2()
    ensures forall j :: 0 <= j < |Mate1Suffixes| && j != 2 ==> Exclusive(Mate1Suffixes[2], Mate1Suffixes[j])
  {
    forall j | 0 <= j < |Mate1Suffixes| && j != 2 ensures Exclusive(Mate1Suffixes[2], Mate1Suffixes[j]) {
      if j == 0 { DifferFromEnd(Mate1Suffixes[2], Mate1Suffixes[0], 0); }
      else if j == 1 { DifferFromEnd(Mate1Suffixes[2], Mate1Suffixes[1], 4); }
      else if j == 3 { DifferFromEnd(Mate1Suffixes[2], Mate1Suffixes[3], 0); }
      else if j == 4 { DifferFromEnd(Mate1Suffixes[2], Mate1Suffixes[4], 7); }
      else if j == 5 { DifferFromEnd(Mate1Suffixes[2], Mate1Suffixes[5], 0); }
      else if j == 6 { DifferFromEnd(Mate1Suffixes[2], Mate1Suffixes[6], 4); }
      else if j == 7 { DifferFromEnd(Mate1Suffixes[2], Mate1Suffixes[7], 0); }
      else if j == 8 { DifferFromEnd(Mate1Suffixes[2], Mate1Suffixes[8], 7); }
      else if j == 9 { DifferFromEnd(Mate1Suffixes[2], Mate1Suffixes[9], 0); }
      else if j == 10 { DifferFromEnd(Mate1Suffixes[2], Mate1Suffixes[10], 4); }
      else { DifferFromEnd(Mate1Suffixes[2], Mate1Suffixes[11], 0); }
    }
  }

  lemma Mate1Row3()
    ensures forall j :: 0 <= j < |Mate1Suffixes| && j != 3 ==> Exclusive(Mate1Suffixes[3], Mate1Suffixes[j])
  {
    forall j | 0 <= j < |Mate1Suffixes| && j != 3 ensures Exclusive(Mate1Suffixes[3], Mate1Suffixes[j]) {
      if j == 0 { DifferFromEnd(Mate1Suffixes[3], Mate1Suffixes[0], 1); }
      else if j == 1 { DifferFromEnd(Mate1Suffixes[3], Mate1Suffixes[1], 0); }
      else if j == 2 { DifferFromEnd(Mate1Suffixes[3], Mate1Suffixes[2], 0); }
      else if j == 4 { DifferFromEnd(Mate1Suffixes[3], Mate1Suffixes[4], 0); }
      else if j == 5 { DifferFromEnd(Mate1Suffixes[3], Mate1Suffixes[5], 4); }
      else if j == 6 { DifferFromEnd(Mate1Suffixes[3], Mate1Suffixes[6], 0); }
      else if j == 7 { DifferFromEnd(Mate1Suffixes[3], Mate1Suffixes[7], 1); }
      else if j == 8 { DifferFromEnd(Mate1Suffixes[3], Mate1Suffixes[8], 0); }
      else if j == 9 { DifferFromEnd(Mate1Suffixes[3], Mate1Suffixes[9], 4); }
      else if j == 10 { DifferFromEnd(Mate1Suffixes[3], Mate1Suffixes[10], 0); }
      else { DifferFromEnd(Mate1Suffixes[3], Mate1Suffixes[11], 1); }
    }
  }

  lemma Mate1Row4()
    ensures forall j :: 0 <= j < |Mate1Suffixes| && j != 4 ==> Exclusive(Mate1Suffixes[4], Mate1Suffixes[j])
  {
    forall j | 0 <= j < |Mate1Suffixes| && j != 4 ensures Exclusive(Mate1Suffixes[4], Mate1Suffixes[j]) {
      if j == 0 { DifferFromEnd(Mate1Suffixes[4], Mate1Suffixes[0], 0); }
      else if j == 1 { DifferFromEnd(Mate1Suffixes[4], Mate1Suffixes[1], 4); }
      else if j == 2 { DifferFromEnd(Mate1Suffixes[4], Mate1Suffixes[2], 7); }
      else if j == 3 { DifferFromEnd(Mate1Suffixes[4], Mate1Suffixes[3], 0); }
      else if j == 5 { DifferFromEnd(Mate1Suffixes[4], Mate1Suffixes[5], 0); }
      else if j == 6 { DifferFromEnd(Mate1Suffixes[4], Mate1Suffixes[6], 4); }
      else if j == 7 { DifferFromEnd(Mate1Suffixes[4], Mate1Suffixes[7], 0); }
      else if j == 8 { DifferFromEnd(Mate1Suffixes[4], Mate1Suffixes[8], 7); }
      else if j == 9 { DifferFromEnd(Mate1Suffixes[4], Mate1Suffixes[9], 0); }
      else if j == 10 { DifferFromEnd(Mate1Suffixes[4], Mate1Suffixes[10], 4); }
      else { DifferFromEnd(Mate1Suffixes[4], Mate1Suffixes[11], 0); }
    }
  }

  lemma Mate1Row5()
    ensures forall j :: 0 <= j < |Mate1Suffixes| && j != 5 ==> Exclusive(Mate1Suffixes[5], Mate1Suffixes[j])
  {
    forall j | 0 <= j < |Mate1Suffixes| && j != 5 ensures Exclusive(Mate1Suffixes[5], Mate1Suffixes[j]) {
      if j == 0 { DifferFromEnd(Mate1Suffixes[5], Mate1Suffixes[0], 1); }
      else if j == 1 { DifferFromEnd(Mate1Suffixes[5], Mate1Suffixes[1], 0); }
      else if j == 2 { DifferFromEnd(Mate1Suffixes[5], Mate1Suffixes[2], 0); }
      else if j == 3 { DifferFromEnd(Mate1Suffixes[5], Mate1Suffixes[3], 4); }
      else if j == 4 { DifferFromEnd(Mate1Suffixes[5], Mate1Suffixes[4], 0); }
      else if j == 6 { DifferFromEnd(Mate1Suffixes[5], Mate1Suffixes[6], 0); }
      else if j == 7 { DifferFromEnd(Mate1Suffixes[5], Mate1Suffixes[7], 1); }
      else if j == 8 { DifferFromEnd(Mate1Suffixes[5], Mate1Suffixes[8], 0); }
      else if j == 9 { DifferFromEnd(Mate1Suffixes[5], Mate1Suffixes[9], 4); }
      else if j == 10 { DifferFromEnd(Mate1Suffixes[5], Mate1Suffixes[10], 0); }
      else { DifferFromEnd(Mate1Suffixes[5], Mate1Suffixes[11], 1); }
    }
  }

  lemma Mate1Row6()
    ensures forall j :: 0 <= j < |Mate1Suffixes| && j != 6 ==> Exclusive(Mate1Suffixes[6], Mate1Suffixes[j])
  {
    forall j | 0 <= j < |Mate1Suffixes| && j != 6 ensures Exclusive(Mate1Suffixes[6], Mate1Suffixes[j]) {
      if j == 0 { DifferFromEnd(Mate1Suffixes[6], Mate1Suffixes[0], 0); }
      else if j == 1 { DifferFromEnd(Mate1Suffixes[6], Mate1Suffixes[1], 10); }
      else if j == 2 { DifferFromEnd(Mate1Suffixes[6], Mate1Suffixes[2], 4); }
      else if j == 3 { DifferFromEnd(Mate1Suffixes[6], Mate1Suffixes[3], 0); }
      else if j == 4 { DifferFromEnd(Mate1Suffixes[6], Mate1Suffixes[4], 4); }
      else if j == 5 { DifferFromEnd(Mate1Suffixes[6], Mate1Suffixes[5], 0); }
      else if j == 7 { DifferFromEnd(Mate1Suffixes[6], Mate1Suffixes[7], 0); }
      else if j == 8 { DifferFromEnd(Mate1Suffixes[6], Mate1Suffixes[8], 4); }
      else if j == 9 { DifferFromEnd(Mate1Suffixes[6], Mate1Suffixes[9], 0); }
      else if j == 10 { DifferFromEnd(Mate1Suffixes[6], Mate1Suffixes[10], 10); }
      else { DifferFromEnd(Mate1Suffixes[6], Mate1Suffixes[11], 0); }
    }
  }

  lemma Mate1Row7()
    ensures forall j :: 0 <= j < |Mate1Suffixes| && j != 7 ==> Exclusive(Mate1Suffixes[7], Mate1Suffixes[j])
  {
    forall j | 0 <= j < |Mate1Suffixes| && j != 7 ensures Exclusive(Mate1Suffixes[7], Mate1Suffixes[j]) {
      if j == 0 { DifferFromEnd(Mate1Suffixes[7], Mate1Suffixes[0], 7); }
      else if j == 1 { DifferFromEnd(Mate1Suffixes[7], Mate1Suffixes[1], 0); }
      else if j == 2 { DifferFromEnd(Mate1Suffixes[7], Mate1Suffixes[2], 0); }
      else if j == 3 { DifferFromEnd(Mate1Suffixes[7], Mate1Suffixes[3], 1); }
      else if j == 4 { DifferFromEnd(Mate1Suffixes[7], Mate1Suffixes[4], 0); }
      else if j == 5 { DifferFromEnd(Mate1Suffixes[7], Mate1Suffixes[5], 1); }
      else if j == 6 { DifferFromEnd(Mate1Suffixes[7], Mate1Suffixes[6], 0); }
      else if j == 8 { DifferFromEnd(Mate1Suffixes[7], Mate1Suffixes[8], 0); }
      else if j == 9 { DifferFromEnd(Mate1Suffixes[7], Mate1Suffixes[9], 1); }
      else if j == 10 { DifferFromEnd(Mate1Suffixes[7], Mate1Suffixes[10], 0); }
      else { DifferFromEnd(Mate1Suffixes[7], Mate1Suffixes[11], 7); }
    }
  }

  lemma Mate1Row8()
    ensures forall j :: 0 <= j < |Mate1Suffixes| && j != 8 ==> Exclusive(Mate1Suffixes[8], Mate1Suffixes[j])
  {
    forall j | 0 <= j < |Mate1Suffixes| && j != 8 ensures Exclusive(Mate1Suffixes[8], Mate1Suffixes[j]) {
      if j == 0 { DifferFromEnd(Mate1Suffixes[8], Mate1Suffixes[0], 0); }
      else if j == 1 { DifferFromEnd(Mate1Suffixes[8], Mate1Suffixes[1], 4); }
      else if j == 2 { DifferFromEnd(Mate1Suffixes[8], Mate1Suffixes[2], 7); }
      else if j == 3 { DifferFromEnd(Mate1Suffixes[8], Mate1Suffixes[3], 0); }
      else if j == 4 { DifferFromEnd(Mate1Suffixes[8], Mate1Suffixes[4], 7); }
      else if j == 5 { DifferFromEnd(Mate1Suffixes[8], Mate1Suffixes[5], 0); }
      else if j == 6 { DifferFromEnd(Mate1Suffixes[8], Mate1Suffixes[6], 4); }
      else if j == 7 { DifferFromEnd(Mate1Suffixes[8], Mate1Suffixes[7], 0); }
      else if j == 9 { DifferFromEnd(Mate1Suffixes[8], Mate1Suffixes[9], 0); }
      else if j == 10 { DifferFromEnd(Mate1Suffixes[8], Mate1Suffixes[10], 4); }
      else { DifferFromEnd(Mate1Suffixes[8], Mate1Suffixes[11], 0); }
    }
  }

  lemma Mate1Row9()
    ensures forall j :: 0 <= j < |Mate1Suffixes| && j != 9 ==> Exclusive(Mate1Suffixes[9], Mate1Suffixes[j])
  {
    forall j | 0 <= j < |Mate1Suffixes| && j != 9 ensures Exclusive(Mate1Suffixes[9], Mate1Suffixes[j]) {
      if j == 0 { DifferFromEnd(Mate1Suffixes[9], Mate1Suffixes[0], 1); }
      else if j == 1 { DifferFromEnd(Mate1Suffixes[9], Mate1Suffixes[1], 0); }
      else if j == 2 { DifferFromEnd(Mate1Suffixes[9], Mate1Suffixes[2], 0); }
      else if j == 3 { DifferFromEnd(Mate1Suffixes[9], Mate1Suffixes[3], 4); }
      else if j == 4 { DifferFromEnd(Mate1Suffixes[9], Mate1Suffixes[4], 0); }
      else if j == 5 { DifferFromEnd(Mate1Suffixes[9], Mate1Suffixes[5], 4); }
      else if j == 6 { DifferFromEnd(Mate1Suffixes[9], Mate1Suffixes[6], 0); }
      else if j == 7 { DifferFromEnd(Mate1Suffixes[9], Mate1Suffixes[7], 1); }
      else if j == 8 { DifferFromEnd(Mate1Suffixes[9], Mate1Suffixes[8], 0); }
      else if j == 10 { DifferFromEnd(Mate1Suffixes[9], Mate1Suffixes[10], 0); }
      else { DifferFromEnd(Mate1Suffixes[9], Mate1Suffixes[11], 1); }
    }
  }

  lemma Mate1Row10()
    ensures forall j :: 0 <= j < |Mate1Suffixes| && j != 10 ==> Exclusive(Mate1Suffixes[10], Mate1Suffixes[j])
  {
    forall j | 0 <= j < |Mate1Suffixes| && j != 10 ensures Exclusive(Mate1Suffixes[10], Mate1Suffixes[j]) {
      if j == 0 { DifferFromEnd(Mate1Suffixes[10], Mate1Suffixes[0], 0); }
      else if j == 1 { DifferFromEnd(Mate1Suffixes[10], Mate1Suffixes[1], 10); }
      else if j == 2 { DifferFromEnd(Mate1Suffixes[10], Mate1Suffixes[2], 4); }
      else if j == 3 { DifferFromEnd(Mate1Suffixes[10], Mate1Suffixes[3], 0); }
      else if j == 4 { DifferFromEnd(Mate1Suffixes[10], Mate1Suffixes[4], 4); }
      else if j == 5 { DifferFromEnd(Mate1Suffixes[10], Mate1Suffixes[5], 0); }
      else if j == 6 { DifferFromEnd(Mate1Suffixes[10], Mate1Suffixes[6], 10); }
      else if j == 7 { DifferFromEnd(Mate1Suffixes[10], Mate1Suffixes[7], 0); }
      else if j == 8 { DifferFromEnd(Mate1Suffixes[10], Mate1Suffixes[8], 4); }
      else if j == 9 { DifferFromEnd(Mate1Suffixes[10], Mate1Suffixes[9], 0); }
      else { DifferFromEnd(Mate1Suffixes[10], Mate1Suffixes[11], 0); }
    }
  }

  lemma Mate1Row11()
    ensures forall j :: 0 <= j < |Mate1Suffixes| && j != 11 ==> Exclusive(Mate1Suffixes[11], Mate1Suffixes[j])
  {
    forall j | 0 <= j < |Mate1Suffixes| && j != 11 ensures Exclusive(Mate1Suffixes[11], Mate1Suffixes[j]) {
      if j == 0 { DifferFromEnd(Mate1Suffixes[11], Mate1Suffixes[0], 7); }
      else if j == 1 { DifferFromEnd(Mate1Suffixes[11], Mate1Suffixes[1], 0); }
      else if j == 2 { DifferFromEnd(Mate1Suffixes[11], Mate1Suffixes[2], 0); }
      else if j == 3 { DifferFromEnd(Mate1Suffixes[11], Mate1Suffixes[3], 1); }
      else if j == 4 { DifferFromEnd(Mate1Suffixes[11], Mate1Suffixes[4], 0); }
      else if j == 5 { DifferFromEnd(Mate1Suffixes[11], Mate1Suffixes[5], 1); }
      else if j == 6 { DifferFromEnd(Mate1Suffixes[11], Mate1Suffixes[6], 0); }
      else if j == 7 { DifferFromEnd(Mate1Suffixes[11], Mate1Suffixes[7], 7); }
      else if j == 8 { DifferFromEnd(Mate1Suffixes[11], Mate1Suffixes[8], 0); }
      else if j == 9 { DifferFromEnd(Mate1Suffixes[11], Mate1Suffixes[9], 1); }
      else { DifferFromEnd(Mate1Suffixes[11], Mate1Suffixes[10], 0); }
    }
  }

  /** No two mate-1 suffixes can end the same filename: none is a suffix of another. */
  lemma Mate1Exclusion()
    ensures forall i, j :: 0 <= i < |Mate1Suffixes| && 0 <= j < |Mate1Suffixes| && i != j ==>
      Exclusive(Mate1Suffixes[i], Mate1Suffixes[j])
  {
    forall i | 0 <= i < |Mate1Suffixes|
      ensures forall j :: 0 <= j < |Mate1Suffixes| && j != i ==> Exclusive(Mate1Suffixes[i], Mate1Suffixes[j])
    {
      if i == 0 { Mate1Row0(); }
      else if i == 1 { Mate1Row1(); }
      else if i == 2 { Mate1Row2(); }
      else if i == 3 { Mate1Row3(); }
      else if i == 4 { Mate1Row4(); }
      else if i == 5 { Mate1Row5(); }
      else if i == 6 { Mate1Row6(); }
      else if i == 7 { Mate1Row7(); }
      else if i == 8 { Mate1Row8(); }
      else if i == 9 { Mate1Row9(); }
      else if i == 10 { Mate1Row10(); }
      else { Mate1Row11(); }
    }
  }

  /** A filename ending with table suffix `k` ends with no other table suffix, so `k` is its earliest. */
  lemma SoleSuffix(f: string, k: nat)
    requires k < |Mate1Suffixes| && EndsWith(f, Mate1Suffixes[k])
    ensures forall j :: 0 <= j < |Mate1Suffixes| && j != k ==> !EndsWith(f, Mate1Suffixes[j])
    ensures Recognized(f) && EarliestSuffix(f) == Mate1Suffixes[k]
  {
    Mate1Exclusion();
    forall j | 0 <= j < |Mate1Suffixes| && j != k
      ensures !EndsWith(f, Mate1Suffixes[j])
    {
      EndsWithBoth(f, Mate1Suffixes[j], Mate1Suffixes[k]);
    }
    RecognizedMeans(f);
  }

  /**
   * A listing whose files all belong to suffix family `k` (each ends with
   * the family's mate-1 or mate-2 suffix) is detected as that family, with
   * its mate-2 partner, as soon as it holds a mate-1 file; without one it
   * is rejected.
   */
  lemma FamilyDetected(listing: seq<string>, k: nat)
    requires k < |Mate1Suffixes|
    requires forall f :: f in listing ==> EndsWith(f, Mate1Suffixes[k]) || EndsWith(f, Mate2Suffixes[k])
    ensures (exists f :: f in listing && EndsWith(f, Mate1Suffixes[k])) ==> DetectedSuffix(listing) == Some(Mate1Suffixes[k])
    ensures (forall f :: f in listing ==> !EndsWith(f, Mate1Suffixes[k])) ==> DetectedSuffix(listing) == None
    ensures Mate2Of(Mate1Suffixes[k]) == Mate2Suffixes[k]
  {
    MatePartners();
    forall f | f in listing && !EndsWith(f, Mate1Suffixes[k])
      ensures !Recognized(f)
    {
      Mate2NotRecognized(f, k);
    }
    var i := FirstRecognized(listing);
    if g :| g in listing && EndsWith(g, Mate1Suffixes[k]) {
      SoleSuffix(g, k);
      assert i < |listing|;
      SoleSuffix(listing[i], k);
      if k != 0 {
        AnyEndsWithMeans(listing, Mate1Suffixes[0]);
        forall f | f in listing
          ensures !EndsWith(f, Mate1Suffixes[0])
        {
          RecognizedMeans(f);
          if EndsWith(f, Mate1Suffixes[k]) {
            SoleSuffix(f, k);
          }
        }
      }
    } else {
      assert i == |listing|;
    }
  }

  /** A pair `s_1.fastq.gz`, `s_2.fastq.gz` is detected as `("_1.fastq.gz", "_2.fastq.gz")`. */
  lemma GzPairDetected(s: string)
    ensures DetectedSuffix([s + "_1.fastq.gz", s + "_2.fastq.gz"]) == Some("_1.fastq.gz")
    ensures Mate2Of("_1.fastq.gz") == "_2.fastq.gz"
  {
    var listing := [s + "_1.fastq.gz", s + "_2.fastq.gz"];
    EndsWithAppended(s, "_1.fastq.gz");
    EndsWithAppended(s, "_2.fastq.gz");
    assert Mate1Suffixes[1] == "_1.fastq.gz" && Mate2Suffixes[1] == "_2.fastq.gz";
    FamilyDetected(listing, 1);
  }

  // ---------------------------------------------------------------------
  // Sample name and lane (process_filename)
  // ---------------------------------------------------------------------

  /** The lane pattern `L00[1-4]` matches `s` at index `i`. */
  predicate LaneAt(s: string, i: nat) {
    i + 4 <= |s| && s[i] == 'L' && s[i + 1] == '0' && s[i + 2] == '0' && '1' <= s[i + 3] <= '4'
  }

  /** `s` contains a lane token somewhere. */
  predicate HasLane(s: string) {
    exists i: nat :: i < |s| && LaneAt(s, i)
  }

  /** `t` is one whole lane token. */
  predicate IsLaneToken(t: string) {
    |t| == 4 && LaneAt(t, 0)
  }

  /** The lane tokens are exactly `L001` to `L004`. */
  lemma LaneTokens(t: string)
    ensures IsLaneToken(t) <==> t in {"L001", "L002", "L003", "L004"}
  {
    if IsLaneToken(t) {
      assert t == [t[0], t[1], t[2], t[3]];
    }
  }

  /**
   * `re.search(r'(L00[1-4])', s)` started at `from`: the leftmost index at
   * which the lane pattern matches, if any.
   */
  function FindLane(s: string, from: nat): (r: Option<nat>)
    requires from <= |s|
    ensures r.None? ==> forall i: nat :: from <= i ==> !LaneAt(s, i)
    ensures r.Some? ==> from <= r.value && LaneAt(s, r.value)
    ensures r.Some? ==> forall i: nat :: from <= i < r.value ==> !LaneAt(s, i)
    decreases |s| - from
  {
    if from + 4 > |s| then None
    else if LaneAt(s, from) then Some(from)
    else FindLane(s, from + 1)
  }

  /** What `process_filename` returns: the sample name and, if found, the lane token. */
  datatype ParsedName = ParsedName(sample: string, lane: Option<string>)

  /**
   * `process_filename`: drop every occurrence of the suffix, then split
   * what is left at its leftmost lane token (`FirstLaneSplit`). The sample
   * name, followed by the lane token when there is one, starts the name
   * left once the suffix is gone; the sample holds no lane token, and with
   * no lane it is that whole name.
   */
  function ParseFilename(filename: string, suffix: string): (p: ParsedName)
    ensures Stem(p) <= RemoveAll(filename, suffix)
    ensures !HasLane(p.sample)
    ensures p.lane.Some? ==> IsLaneToken(p.lane.value)
    ensures p.lane.None? <==> !HasLane(RemoveAll(filename, suffix))
    ensures p.lane.None? ==> p.sample == RemoveAll(filename, suffix)
  {
    var rest := RemoveAll(filename, suffix);
    FirstLaneSplitSpec(rest);
    FirstLaneSplit(rest)
  }

  /**
   * The lane search and split of `process_filename`, on the name with its
   * suffix already removed: `re.search` for the lane pattern, then
   * `split(line)[0]`.
   */
  function FirstLaneSplit(rest: string): ParsedName {
    match FindLane(rest, 0)
    case None => ParsedName(rest, None)
    case Some(i) => ParsedName(BeforeFirst(rest, rest[i..i + 4]), Some(rest[i..i + 4]))
  }

  /**
   * With no lane token the whole name is the sample and there is no lane;
   * otherwise the lane is the leftmost token, the sample is exactly what
   * precedes it, and the sample contains no token itself.
   */
  lemma FirstLaneSplitSpec(rest: string)
    ensures var p := FirstLaneSplit(rest);
      && (p.lane.None? <==> !HasLane(rest))
      && (p.lane.None? ==> p.sample == rest)
      && (p.lane.Some? ==>
        && IsLaneToken(p.lane.value)
        && |p.sample| + 4 <= |rest|
        && rest[..|p.sample|] == p.sample
        && rest[|p.sample|..|p.sample| + 4] == p.lane.value
        && (forall i: nat :: i < |p.sample| ==> !LaneAt(rest, i))
        && !HasLane(p.sample))
  {
    match FindLane(rest, 0)
    case None =>
    case Some(i) => LaneBeforeFirst(rest, i);
  }

  /** Splitting at the leftmost lane token keeps exactly what precedes it, which holds no token. */
  lemma LaneBeforeFirst(rest: string, i: nat)
    requires LaneAt(rest, i) && forall j: nat :: j < i ==> !LaneAt(rest, j)
    ensures BeforeFirst(rest, rest[i..i + 4]) == rest[..i]
    ensures !HasLane(rest[..i])
  {
    var lane := rest[i..i + 4];
    var r := BeforeFirst(rest, lane);
    assert OccursAt(rest, lane, i);
    assert |r| <= i < |rest|;
    assert OccursAt(rest, lane, |r|);
    assert LaneAt(rest, |r|);
    forall j: nat | j < i
      ensures !LaneAt(rest[..i], j)
    {
      assert LaneAt(rest[..i], j) ==> LaneAt(rest, j);
    }
  }

  /** The part of a filename before its suffix: sample name, then the lane token if any. */
  function Stem(p: ParsedName): string {
    p.sample + (if p.lane.Some? then p.lane.value else "")
  }

  /**
   * The filename `process_oneline_files` rebuilds from a parse
   * (`f"{name}{line}{platform_output}"`, or without the lane when there is none).
   */
  function Rebuild(p: ParsedName, suffix: string): string {
    Stem(p) + suffix
  }

  /**
   * A filename built as sample name, optional lane token and suffix, where
   * the sample name holds no lane token and the suffix occurs only at the
   * end, parses back into that sample name and lane, and rebuilding gives
   * the filename back.
   */
  lemma ParseRoundTrip(p: ParsedName, suffix: string)
    requires suffix != [] && !HasLane(p.sample)
    requires p.lane.Some? ==> IsLaneToken(p.lane.value)
    requires forall i: nat :: i < |Stem(p)| ==> !OccursAt(Stem(p) + suffix, suffix, i)
    ensures ParseFilename(Rebuild(p, suffix), suffix) == p
  {
    RemoveAllTrailing(Stem(p), suffix);
    assert RemoveAll(Rebuild(p, suffix), suffix) == Stem(p);
    if p.lane.Some? {
      LaneFollowsSample(p);
    } else {
      assert Stem(p) == p.sample;
    }
  }

  /** A lane token placed after a token-free sample name is the leftmost token of the stem. */
  lemma LaneFollowsSample(p: ParsedName)
    requires !HasLane(p.sample) && p.lane.Some? && IsLaneToken(p.lane.value)
    ensures FirstLaneSplit(Stem(p)) == p
  {
    var rest := Stem(p);
    var n := |p.sample|;
    NoLaneStraddles(p);
    assert FindLane(rest, 0) == Some(n);
    assert rest[n..n + 4] == p.lane.value;
    LaneBeforeFirst(rest, n);
    assert rest[..n] == p.sample;
  }

  /**
   * No lane token starts inside a token-free sample name followed by a lane
   * token: one lying wholly inside would be the sample's own, and one
   * reaching past it would need the token's leading `L` to be a `0` or a digit.
   */
  lemma NoLaneStraddles(p: ParsedName)
    requires !HasLane(p.sample) && p.lane.Some? && IsLaneToken(p.lane.value)
    ensures LaneAt(Stem(p), |p.sample|) && Stem(p)[|p.sample|..|p.sample| + 4] == p.lane.value
    ensures forall j: nat :: j < |p.sample| ==> !LaneAt(Stem(p), j)
  {
    var rest := Stem(p);
    var n := |p.sample|;
    assert rest[n..n + 4] == p.lane.value;
    assert rest[n] == 'L';
    forall j: nat | j < n
      ensures !LaneAt(rest, j)
    {
      if j + 4 <= n {
        assert LaneAt(rest, j) ==> LaneAt(p.sample, j);
      }
    }
  }
}
