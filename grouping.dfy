/**
 * How `main` groups the input listing by sample: every mate-1 or mate-2
 * file goes to the list of its sample name, other files are ignored, and
 * samples keep the order in which they first appear (a Python dict
 * iterates in insertion order).
 */
module Grouping {
  import opened Wrappers
  import opened Text
  import opened Naming

  /**
   * The sample a file is grouped under: parsed with the mate-1 suffix when
   * it ends with it, otherwise with the mate-2 suffix when it ends with
   * that; `None` for any other file.
   */
  function SampleOf(f: string, c: Convention): Option<string> {
    if EndsWith(f, c.mate1) then Some(ParseFilename(f, c.mate1).sample)
    else if EndsWith(f, c.mate2) then Some(ParseFilename(f, c.mate2).sample)
    else None
  }

  /** `SampleOf` for one naming convention, as the key the grouping below is written over. */
  function SampleKey(c: Convention): string -> Option<string> {
    f => SampleOf(f, c)
  }

  /**
   * With a detected convention, the mate-1 and mate-2 files of one sample
   * and lane are both grouped under that sample: the mate-2 file cannot
   * also end with the mate-1 suffix, and both parse back to the sample.
   */
  lemma MatesGroupTogether(p: ParsedName, k: nat)
    requires k < |Mate1Suffixes|
    requires !HasLane(p.sample) && (p.lane.Some? ==> IsLaneToken(p.lane.value))
    requires forall i: nat :: i < |Stem(p)| ==> !OccursAt(Stem(p) + Mate1Suffixes[k], Mate1Suffixes[k], i)
    requires forall i: nat :: i < |Stem(p)| ==> !OccursAt(Stem(p) + Mate2Suffixes[k], Mate2Suffixes[k], i)
    ensures var c := Convention(Mate1Suffixes[k], Mate2Of(Mate1Suffixes[k]));
      && SampleOf(Rebuild(p, c.mate1), c) == Some(p.sample)
      && SampleOf(Rebuild(p, c.mate2), c) == Some(p.sample)
      && EndsWith(Rebuild(p, c.mate1), c.mate1)
      && !EndsWith(Rebuild(p, c.mate2), c.mate1) && EndsWith(Rebuild(p, c.mate2), c.mate2)
      && ParseFilename(Rebuild(p, c.mate1), c.mate1) == p
      && ParseFilename(Rebuild(p, c.mate2), c.mate2) == p
  {
    var c := Convention(Mate1Suffixes[k], Mate2Of(Mate1Suffixes[k]));
    MatePartners();
    MateExclusion();
    assert c.mate2 == Mate2Suffixes[k];
    ParseRoundTrip(p, c.mate1);
    ParseRoundTrip(p, c.mate2);
    EndsWithAppended(Stem(p), c.mate1);
    EndsWithAppended(Stem(p), c.mate2);
    EndsWithBoth(Rebuild(p, c.mate2), c.mate1, c.mate2);
  }

  // The grouping is stated for any key function, so that its proofs never
  // need to look inside `SampleOf`.

  /** The files of `xs` grouped under sample `n`, in listing order. */
  function GroupOf(xs: seq<string>, key: string -> Option<string>, n: string): seq<string> {
    if xs == [] then []
    else
      var last := xs[|xs| - 1];
      GroupOf(xs[..|xs| - 1], key, n) + (if key(last) == Some(n) then [last] else [])
  }

  /** The sample names of `xs`, each once, in order of first appearance. */
  function Samples(xs: seq<string>, key: string -> Option<string>): seq<string> {
    if xs == [] then []
    else
      var init := Samples(xs[..|xs| - 1], key);
      var s := key(xs[|xs| - 1]);
      if s.Some? && s.value !in init then init + [s.value] else init
  }

  /** A group holds only files of the listing whose key is that group's sample. */
  lemma {:induction false} GroupMembers(xs: seq<string>, key: string -> Option<string>, n: string)
    ensures forall f :: f in GroupOf(xs, key, n) ==> f in xs && key(f) == Some(n)
  {
    if xs != [] {
      GroupMembers(xs[..|xs| - 1], key, n);
    }
  }

  /** A sample name is listed exactly when its group is not empty. */
  lemma {:induction false} SamplesMeans(xs: seq<string>, key: string -> Option<string>, n: string)
    ensures n in Samples(xs, key) <==> GroupOf(xs, key, n) != []
  {
    if xs != [] {
      SamplesMeans(xs[..|xs| - 1], key, n);
    }
  }

  /** No sample name is listed twice. */
  lemma {:induction false} SamplesDistinct(xs: seq<string>, key: string -> Option<string>)
    ensures forall i, j :: 0 <= i < j < |Samples(xs, key)| ==> Samples(xs, key)[i] != Samples(xs, key)[j]
  {
    if xs != [] {
      SamplesDistinct(xs[..|xs| - 1], key);
    }
  }

  /** Grouping one more file extends only the group of that file's sample. */
  lemma GroupOfAppend(xs: seq<string>, f: string, key: string -> Option<string>, n: string)
    ensures GroupOf(xs + [f], key, n) == GroupOf(xs, key, n) + (if key(f) == Some(n) then [f] else [])
  {
    assert (xs + [f])[..|xs + [f]| - 1] == xs;
  }

  /** Grouping distributes over concatenation, so each group keeps listing order. */
  lemma {:induction false} GroupOfConcat(xs: seq<string>, ys: seq<string>, key: string -> Option<string>, n: string)
    ensures GroupOf(xs + ys, key, n) == GroupOf(xs, key, n) + GroupOf(ys, key, n)
    decreases |ys|
  {
    if ys == [] {
      assert xs + ys == xs;
    } else {
      var init := ys[..|ys| - 1];
      var last := ys[|ys| - 1];
      var tail := if key(last) == Some(n) then [last] else [];
      assert ys == init + [last];
      assert xs + ys == (xs + init) + [last];
      GroupOfConcat(xs, init, key, n);
      GroupOfAppend(xs + init, last, key, n);
      GroupOfAppend(init, last, key, n);
      assert GroupOf(xs + ys, key, n) == (GroupOf(xs, key, n) + GroupOf(init, key, n)) + tail;
      assert GroupOf(ys, key, n) == GroupOf(init, key, n) + tail;
    }
  }

  /**
   * The groups partition the mate files: a file occurs in the group of its
   * own sample as often as in the listing, and in no other group; a file
   * that is neither mate-1 nor mate-2 occurs in no group.
   */
  lemma {:induction false} GroupPartition(xs: seq<string>, key: string -> Option<string>, n: string, f: string)
    ensures multiset(GroupOf(xs, key, n))[f] == if key(f) == Some(n) then multiset(xs)[f] else 0
  {
    if xs != [] {
      var init := xs[..|xs| - 1];
      GroupPartition(init, key, n, f);
      assert xs == init + [xs[|xs| - 1]];
    }
  }

  /** `groups` and `order` hold the grouping of `xs`: keys in first-appearance order, each with its group. */
  ghost predicate Grouped(xs: seq<string>, key: string -> Option<string>, groups: map<string, seq<string>>, order: seq<string>) {
    && order == Samples(xs, key)
    && (forall n :: n in groups <==> n in order)
    && (forall n :: n in groups ==> groups[n] == GroupOf(xs, key, n))
  }

  /** A file that is neither mate changes nothing. */
  lemma GroupedSkip(xs: seq<string>, f: string, key: string -> Option<string>, groups: map<string, seq<string>>, order: seq<string>)
    requires Grouped(xs, key, groups, order) && key(f).None?
    ensures Grouped(xs + [f], key, groups, order)
  {
    assert (xs + [f])[..|xs + [f]| - 1] == xs;
    forall n | n in groups
      ensures groups[n] == GroupOf(xs + [f], key, n)
    {
      GroupOfAppend(xs, f, key, n);
    }
  }

  /**
   * A mate file is appended to its sample's list, which is first created
   * empty (and its key recorded) when the sample is new.
   */
  lemma GroupedAdd(xs: seq<string>, f: string, key: string -> Option<string>, groups: map<string, seq<string>>, order: seq<string>)
    requires Grouped(xs, key, groups, order) && key(f).Some?
    ensures var n := key(f).value;
      Grouped(xs + [f], key,
        groups[n := (if n in groups then groups[n] else []) + [f]],
        if n in groups then order else order + [n])
  {
    var n := key(f).value;
    var groups' := groups[n := (if n in groups then groups[n] else []) + [f]];
    assert (xs + [f])[..|xs + [f]| - 1] == xs;
    SamplesMeans(xs, key, n);
    forall m | m in groups'
      ensures groups'[m] == GroupOf(xs + [f], key, m)
    {
      GroupOfAppend(xs, f, key, m);
    }
  }

  /**
   * The grouping loop of `main`: for each file of the listing, a mate-1
   * file is parsed with the mate-1 suffix, else a mate-2 file with the
   * mate-2 suffix, and appended to the list of its sample, which is
   * created empty the first time the sample is seen.
   */
  method GroupFiles(listing: seq<string>, c: Convention) returns (groups: map<string, seq<string>>, order: seq<string>)
    ensures order == Samples(listing, SampleKey(c))
    ensures forall n :: n in groups <==> n in order
    ensures forall n :: n in groups ==> groups[n] == GroupOf(listing, SampleKey(c), n)
  {
    groups := map[];
    order := [];
    for i := 0 to |listing|
      invariant Grouped(listing[..i], SampleKey(c), groups, order)
    {
      assert listing[..i + 1] == listing[..i] + [listing[i]];
      groups, order := GroupFile(listing[..i], groups, order, listing[i], c);
    }
    assert listing[..|listing|] == listing;
  }

  /** The body of the grouping loop for one file `infile`, after the files `xs`. */
  method GroupFile(ghost xs: seq<string>, groups: map<string, seq<string>>, order: seq<string>, infile: string, c: Convention)
    returns (groups': map<string, seq<string>>, order': seq<string>)
    requires Grouped(xs, SampleKey(c), groups, order)
    ensures Grouped(xs + [infile], SampleKey(c), groups', order')
  {
    groups', order' := groups, order;
    if EndsWith(infile, c.mate1) {
      var name := ParseFilename(infile, c.mate1).sample;
      GroupedAdd(xs, infile, SampleKey(c), groups, order);
      if name !in groups' {
        groups' := groups'[name := []];
        order' := order' + [name];
      }
      groups' := groups'[name := groups'[name] + [infile]];
    } else if EndsWith(infile, c.mate2) {
      var name := ParseFilename(infile, c.mate2).sample;
      GroupedAdd(xs, infile, SampleKey(c), groups, order);
      if name !in groups' {
        groups' := groups'[name := []];
        order' := order' + [name];
      }
      groups' := groups'[name := groups'[name] + [infile]];
    } else {
      GroupedSkip(xs, infile, SampleKey(c), groups, order);
    }
  }
}
