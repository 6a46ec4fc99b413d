/**
 * The few Python string operations the pipeline's filename logic relies on,
 * stated over `seq<char>`: `str.endswith`, `str.replace(old, new)` with an
 * empty `new`, `str.replace(old, new, 1)` on single characters, and
 * `str.split(sep)[0]`.
 */
module Text {

  /** Python's `s.endswith(suffix)`. */
  predicate EndsWith(s: string, suffix: string) {
    |suffix| <= |s| && s[|s| - |suffix|..] == suffix
  }

  /** `pat` occurs in `s` starting at index `i`. */
  predicate OccursAt(s: string, pat: string, i: nat) {
    i + |pat| <= |s| && s[i..i + |pat|] == pat
  }

  /** Dropping the first character shifts every occurrence one place left. */
  lemma OccursAtTail(s: string, pat: string, i: nat)
    requires |s| > 0
    ensures OccursAt(s[1..], pat, i) <==> OccursAt(s, pat, i + 1)
  {
    if i + 1 + |pat| <= |s| {
      assert s[1..][i..i + |pat|] == s[i + 1..i + 1 + |pat|];
    }
  }

  /** When one string ends with two suffixes, the shorter is a suffix of the longer. */
  lemma EndsWithBoth(s: string, a: string, b: string)
    ensures EndsWith(s, a) && EndsWith(s, b) ==> EndsWith(a, b) || EndsWith(b, a)
  {
    if EndsWith(s, a) && EndsWith(s, b) {
      if |a| <= |b| {
        assert b[|b| - |a|..] == s[|s| - |b|..][|b| - |a|..];
      } else {
        assert a[|a| - |b|..] == s[|s| - |a|..][|a| - |b|..];
      }
    }
  }

  /** A string ends with what is appended to it. */
  lemma EndsWithAppended(s: string, t: string)
    ensures EndsWith(s + t, t)
  {
    assert (s + t)[|s + t| - |t|..] == t;
  }

  /**
   * Python's `s.replace(pat, "")`: scanning left to right, each occurrence
   * of `pat` is removed and the scan resumes after it, so occurrences never
   * overlap. An empty `pat` leaves `s` unchanged.
   */
  function RemoveAll(s: string, pat: string): (r: string)
    ensures |r| <= |s|
    ensures pat == [] || |s| < |pat| ==> r == s
    decreases |s|
  {
    if pat == [] || |s| < |pat| then s
    else if s[..|pat|] == pat then RemoveAll(s[|pat|..], pat)
    else [s[0]] + RemoveAll(s[1..], pat)
  }

  /** When `pat` does not start `s`, its first character is kept. */
  lemma RemoveAllKeepsFirst(s: string, pat: string)
    requires pat != [] && |pat| <= |s| && !OccursAt(s, pat, 0)
    ensures RemoveAll(s, pat) == [s[0]] + RemoveAll(s[1..], pat)
  {
    assert s[0..|pat|] == s[..|pat|];
  }

  /** Occurrences that do not start in the first `k` places of `s` do not start in the first `k - 1` of `s[1..]`. */
  lemma NoOccurrenceTail(s: string, pat: string, k: nat)
    requires 0 < k <= |s|
    requires forall i: nat :: i < k ==> !OccursAt(s, pat, i)
    ensures forall i: nat :: i < k - 1 ==> !OccursAt(s[1..], pat, i)
  {
    forall i: nat | i < k - 1
      ensures !OccursAt(s[1..], pat, i)
    {
      OccursAtTail(s, pat, i);
    }
  }

  /** Removing `pat` from `s + pat` gives back `s` when `pat` starts nowhere inside `s`. */
  lemma {:induction false} RemoveAllTrailing(s: string, pat: string)
    requires pat != []
    requires forall i: nat :: i < |s| ==> !OccursAt(s + pat, pat, i)
    ensures RemoveAll(s + pat, pat) == s
  {
    if s == [] {
      assert [] + pat == pat && pat[..|pat|] == pat && pat[|pat|..] == [];
    } else {
      var t := s + pat;
      RemoveAllKeepsFirst(t, pat);
      NoOccurrenceTail(t, pat, |s|);
      assert t[1..] == s[1..] + pat;
      RemoveAllTrailing(s[1..], pat);
      assert [s[0]] + s[1..] == s;
    }
  }

  /** Python's `s.replace(a, b, 1)` for single characters: only the first `a` becomes `b`. */
  function ReplaceFirst(s: string, a: char, b: char): string {
    if s == [] then []
    else if s[0] == a then [b] + s[1..]
    else [s[0]] + ReplaceFirst(s[1..], a, b)
  }

  /** Everything before the first `a` is kept, that `a` becomes `b`, and the rest is kept. */
  lemma {:induction false} ReplaceFirstSplit(pre: string, a: char, b: char, rest: string)
    requires a !in pre
    ensures ReplaceFirst(pre + [a] + rest, a, b) == pre + [b] + rest
  {
    if pre != [] {
      ReplaceFirstSplit(pre[1..], a, b, rest);
      assert (pre + [a] + rest)[1..] == pre[1..] + [a] + rest;
    }
  }

  /**
   * Python's `s.split(sep)[0]`: the part of `s` before the first occurrence
   * of `sep`, or all of `s` when `sep` does not occur. (Python rejects an
   * empty separator.)
   */
  function BeforeFirst(s: string, sep: string): (r: string)
    requires sep != []
    ensures |r| <= |s| && r == s[..|r|]
    ensures forall i: nat :: i < |r| ==> !OccursAt(s, sep, i)
    ensures |r| == |s| || OccursAt(s, sep, |r|)
    decreases |s|
  {
    if |s| < |sep| then s
    else if s[..|sep|] == sep then []
    else
      var rest := BeforeFirst(s[1..], sep);
      assert forall j: nat :: 1 <= j <= |rest| ==> !OccursAt(s, sep, j) by {
        forall j: nat | 1 <= j <= |rest| ensures !OccursAt(s, sep, j) { OccursAtTail(s, sep, j - 1); }
      }
      assert |rest| < |s| - 1 ==> OccursAt(s, sep, |rest| + 1) by {
        OccursAtTail(s, sep, |rest|);
      }
      assert !OccursAt(s, sep, 0) by { assert s[0..|sep|] == s[..|sep|]; }
      [s[0]] + rest
  }
}
