/** `compressCodeBlocks`, the last pass over the assembled text: it drops a
    white-space line that sits between two lines indented by four spaces, and
    writes every line it keeps with a `"\n"` in front. */
module CodeBlocks {
  import opened Strings

  const CodeIndent := "    "

  /** The condition under which the loop appends line `i`.  The neighbours
      are read only when `i` is neither the first nor the last line, so
      `lines[i + 1]` is always in range. */
  predicate Keep(lines: seq<string>, i: int)
    requires 0 <= i < |lines|
  {
    || Strip(lines[i]) != ""
    || i == |lines| - 1
    || i == 0
    || !(StartsWith(lines[i - 1], CodeIndent) && StartsWith(lines[i + 1], CodeIndent))
  }

  /** The indices of the lines kept among the first `k`, in increasing order. */
  function KeptIndices(lines: seq<string>, k: int): seq<int>
    requires 0 <= k <= |lines|
  {
    if k == 0 then [] else KeptIndices(lines, k - 1) + (if Keep(lines, k - 1) then [k - 1] else [])
  }

  /** The kept indices are increasing and below `k`. */
  lemma {:induction false} KeptIndicesSorted(lines: seq<string>, k: int)
    requires 0 <= k <= |lines|
    ensures forall j :: 0 <= j < |KeptIndices(lines, k)| ==> 0 <= KeptIndices(lines, k)[j] < k
    ensures forall a, b :: 0 <= a < b < |KeptIndices(lines, k)| ==> KeptIndices(lines, k)[a] < KeptIndices(lines, k)[b]
  {
    if k > 0 {
      KeptIndicesSorted(lines, k - 1);
      var prev := KeptIndices(lines, k - 1);
      if Keep(lines, k - 1) {
        assert KeptIndices(lines, k) == prev + [k - 1];
      } else {
        assert KeptIndices(lines, k) == prev;
      }
    }
  }

  /** Among the first `k` indices, the kept ones are exactly those `Keep`
      accepts. */
  lemma {:induction false} KeptIndicesExact(lines: seq<string>, k: int)
    requires 0 <= k <= |lines|
    ensures forall i :: 0 <= i < k ==> (i in KeptIndices(lines, k) <==> Keep(lines, i))
  {
    if k > 0 {
      KeptIndicesExact(lines, k - 1);
      KeptIndicesSorted(lines, k - 1);
      var prev := KeptIndices(lines, k - 1);
      var idx := KeptIndices(lines, k);
      var keep := Keep(lines, k - 1);
      assert forall j :: 0 <= j < |prev| ==> prev[j] < k - 1;
      assert k - 1 !in prev;
      if keep {
        assert idx == prev + [k - 1];
      } else {
        assert idx == prev;
      }
    }
  }

  /** The lines kept among the first `k`, in their original order. */
  function KeptLines(lines: seq<string>, k: int): (kept: seq<string>)
    requires 0 <= k <= |lines|
    ensures |kept| <= k
  {
    if k == 0 then [] else KeptLines(lines, k - 1) + (if Keep(lines, k - 1) then [lines[k - 1]] else [])
  }

  /** The kept lines are the lines at the kept indices. */
  lemma {:induction false} KeptLinesAtIndices(lines: seq<string>, k: int)
    requires 0 <= k <= |lines|
    ensures |KeptLines(lines, k)| == |KeptIndices(lines, k)| <= k
    ensures forall j :: 0 <= j < |KeptLines(lines, k)| ==>
      0 <= KeptIndices(lines, k)[j] < |lines| && KeptLines(lines, k)[j] == lines[KeptIndices(lines, k)[j]]
  {
    if k > 0 {
      KeptLinesAtIndices(lines, k - 1);
      var kl, ki := KeptLines(lines, k - 1), KeptIndices(lines, k - 1);
      if Keep(lines, k - 1) {
        assert KeptLines(lines, k) == kl + [lines[k - 1]];
        assert KeptIndices(lines, k) == ki + [k - 1];
      } else {
        assert KeptLines(lines, k) == kl;
        assert KeptIndices(lines, k) == ki;
      }
    }
  }

  /** The buffer entries: each kept line with a newline in front. */
  function Newlined(ls: seq<string>): (r: seq<string>)
    ensures |r| == |ls|
    ensures forall j :: 0 <= j < |ls| ==> r[j] == "\n" + ls[j]
  {
    seq(|ls|, j requires 0 <= j < |ls| => "\n" + ls[j])
  }

  /** `compressCodeBlocks(text)`. */
  function Compress(text: string): string {
    var lines := Split(text, '\n');
    Concat(Newlined(KeptLines(lines, |lines|)))
  }

  /** A line is dropped only when it is white space, neither the first nor
      the last line, and both its neighbours start with four spaces; the first
      line, the last line and every line with text are kept. */
  lemma {:induction false} DroppedOnlyInsideCode(lines: seq<string>, i: int)
    requires 0 <= i < |lines|
    ensures i !in KeptIndices(lines, |lines|) <==>
      && Blank(lines[i])
      && 0 < i < |lines| - 1
      && StartsWith(lines[i - 1], CodeIndent) && StartsWith(lines[i + 1], CodeIndent)
  {
    KeptIndicesExact(lines, |lines|);
    StripEmptyIffBlank(lines[i]);
  }

  lemma {:induction false} JoinSnoc(ls: seq<string>, x: string, sep: string)
    requires |ls| >= 1
    ensures JoinWith(ls + [x], sep) == JoinWith(ls, sep) + sep + x
  {
    if |ls| > 1 {
      JoinSnoc(ls[1..], x, sep);
      assert (ls + [x])[1..] == ls[1..] + [x];
    }
  }

  /** The output is a newline followed by the kept lines joined by newlines. */
  lemma {:induction false} ConcatNewlined(ls: seq<string>)
    requires |ls| >= 1
    ensures Concat(Newlined(ls)) == "\n" + JoinWith(ls, "\n")
  {
    var n := |ls|;
    assert Newlined(ls)[..n - 1] == Newlined(ls[..n - 1]);
    if n > 1 {
      ConcatNewlined(ls[..n - 1]);
      JoinSnoc(ls[..n - 1], ls[n - 1], "\n");
      assert ls[..n - 1] + [ls[n - 1]] == ls;
    }
  }

  /** Once line 0 is kept the buffer is never empty. */
  lemma {:induction false} FirstLineKept(lines: seq<string>)
    requires |lines| >= 1
    ensures |KeptLines(lines, |lines|)| >= 1
  {
    KeptIndicesExact(lines, |lines|);
    KeptLinesAtIndices(lines, |lines|);
    assert 0 in KeptIndices(lines, |lines|);
  }

  /** Every line passes the test. */
  predicate NoneDropped(lines: seq<string>) {
    forall i :: 0 <= i < |lines| ==> Keep(lines, i)
  }

  /** When no line is dropped the pass only puts a newline in front. */
  lemma {:induction false} NothingDropped(text: string)
    requires NoneDropped(Split(text, '\n'))
    ensures Compress(text) == "\n" + text
  {
    var lines := Split(text, '\n');
    AllKept(lines, |lines|);
    assert lines[..|lines|] == lines;
    ConcatNewlined(lines);
    JoinSplit(text, '\n');
  }

  lemma {:induction false} AllKept(lines: seq<string>, k: int)
    requires 0 <= k <= |lines|
    requires NoneDropped(lines)
    ensures KeptLines(lines, k) == lines[..k]
  {
    if k > 0 {
      AllKept(lines, k - 1);
      assert Keep(lines, k - 1);
      assert KeptLines(lines, k) == KeptLines(lines, k - 1) + [lines[k - 1]];
      assert lines[..k - 1] + [lines[k - 1]] == lines[..k];
    }
  }

  /** The number of `'\n'` characters a string starts with. */
  function LeadingNewlines(s: string): nat {
    if s != [] && s[0] == '\n' then 1 + LeadingNewlines(s[1..]) else 0
  }

  /** The number of empty strings at the front of `ls`, the last element
      never counted. */
  function EmptyRun(ls: seq<string>): (p: nat)
    ensures p <= |ls| && (|ls| >= 1 ==> p < |ls|)
    ensures forall i :: 0 <= i < p ==> ls[i] == ""
    ensures |ls| >= 1 ==> p == |ls| - 1 || ls[p] != ""
  {
    if |ls| <= 1 || ls[0] != "" then 0 else 1 + EmptyRun(ls[1..])
  }

  lemma {:induction false} EmptyRunAt(ls: seq<string>, p: int)
    requires 0 <= p < |ls|
    requires forall i :: 0 <= i < p ==> ls[i] == ""
    requires p == |ls| - 1 || ls[p] != ""
    ensures EmptyRun(ls) == p
  {
    if p > 0 {
      EmptyRunAt(ls[1..], p - 1);
    }
  }

  /** Joining newline-free lines: the leading newlines are the empty lines in
      front. */
  lemma {:induction false} LeadingNewlinesOfJoin(ls: seq<string>)
    requires |ls| >= 1
    requires forall i :: 0 <= i < |ls| ==> '\n' !in ls[i]
    ensures LeadingNewlines(JoinWith(ls, "\n")) == EmptyRun(ls)
  {
    if |ls| == 1 {
      assert JoinWith(ls, "\n") == ls[0];
      if ls[0] != "" {
        assert ls[0][0] in ls[0];
      }
    } else {
      var rest := JoinWith(ls[1..], "\n");
      assert JoinWith(ls, "\n") == ls[0] + "\n" + rest;
      if ls[0] == "" {
        assert ("" + "\n" + rest)[1..] == rest;
        LeadingNewlinesOfJoin(ls[1..]);
      } else {
        assert ls[0][0] in ls[0];
      }
    }
  }

  /** The run of empty lines at the front, and the line after it, are all kept. */
  lemma {:induction false} FrontKept(lines: seq<string>, k: int)
    requires |lines| >= 1 && 0 <= k <= EmptyRun(lines) + 1
    ensures KeptLines(lines, k) == lines[..k]
  {
    if k > 0 {
      FrontKept(lines, k - 1);
      assert k - 1 == 0 || lines[k - 2] == "";
      assert Keep(lines, k - 1);
      assert KeptLines(lines, k) == KeptLines(lines, k - 1) + [lines[k - 1]];
      assert lines[..k - 1] + [lines[k - 1]] == lines[..k];
    }
  }

  lemma {:induction false} KeptLinesGrow(lines: seq<string>, a: int, b: int)
    requires 0 <= a <= b <= |lines|
    ensures |KeptLines(lines, a)| <= |KeptLines(lines, b)|
    ensures KeptLines(lines, b)[..|KeptLines(lines, a)|] == KeptLines(lines, a)
  {
    if a < b {
      KeptLinesGrow(lines, a, b - 1);
      var mid := KeptLines(lines, b - 1);
      if Keep(lines, b - 1) {
        assert KeptLines(lines, b) == mid + [lines[b - 1]];
      } else {
        assert KeptLines(lines, b) == mid;
      }
    }
  }

  /** The kept lines start with the same run of empty lines as the input. */
  lemma {:induction false} SameEmptyRun(lines: seq<string>)
    requires |lines| >= 1
    ensures EmptyRun(KeptLines(lines, |lines|)) == EmptyRun(lines)
  {
    var n := |lines|;
    var p := EmptyRun(lines);
    var kept := KeptLines(lines, n);
    var front := KeptLines(lines, p + 1);
    FrontKept(lines, p + 1);
    KeptLinesGrow(lines, p + 1, n);
    assert |front| == p + 1;
    assert kept[..p + 1] == front;
    assert kept[..p + 1] == lines[..p + 1];
    assert forall i :: 0 <= i < p ==> kept[i] == lines[..p + 1][i];
    assert kept[p] == lines[..p + 1][p];
    EmptyRunAt(kept, p);
  }

  /** The kept lines hold no newline, like the lines they come from. */
  lemma {:induction false} KeptLinesHaveNoNewline(text: string)
    ensures var lines := Split(text, '\n');
      forall j :: 0 <= j < |KeptLines(lines, |lines|)| ==> '\n' !in KeptLines(lines, |lines|)[j]
  {
    var lines := Split(text, '\n');
    KeptLinesAtIndices(lines, |lines|);
  }

  /** Each pass adds exactly one newline in front of the text. */
  lemma {:induction false} LeadingNewlinesGrow(text: string)
    ensures LeadingNewlines(Compress(text)) == LeadingNewlines(text) + 1
  {
    var lines := Split(text, '\n');
    var kept := KeptLines(lines, |lines|);
    JoinSplit(text, '\n');
    LeadingNewlinesOfJoin(lines);
    SameEmptyRun(lines);
    FirstLineKept(lines);
    KeptLinesHaveNoNewline(text);
    LeadingNewlinesOfJoin(kept);
    ConcatNewlined(kept);
    assert ("\n" + JoinWith(kept, "\n"))[1..] == JoinWith(kept, "\n");
  }

  /** The pass is never idempotent: running it again always changes the text. */
  lemma {:induction false} NeverIdempotent(text: string)
    ensures Compress(Compress(text)) != Compress(text)
  {
    LeadingNewlinesGrow(text);
    LeadingNewlinesGrow(Compress(text));
  }
}
