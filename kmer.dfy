/** The k-mer featurizer and the classifier's decision rule of src/ML.py:
    class kmer_featurization, predict and predict_on_one_batch_and_write.

    A k-mer over the letters A, T, C, G is numbered by reading its letters
    as base-4 digits (A = 0, T = 1, C = 2, G = 3), most significant first.
    The feature of a sequence is the vector of length 4^k whose entry j is
    the number of windows seq[i:i+k] numbered j, or that number divided by
    the number of windows. The logistic-regression model is a parameter:
    score maps a feature vector to the probability of the coding class. */
module KmerModel {
  import opened Util
  import opened OrfScanner

  /** self.letters */
  const Letters: string := "ATCG"

  /** c is one of self.letters. */
  predicate IsLetter(c: char)
  {
    c == 'A' || c == 'T' || c == 'C' || c == 'G'
  }

  /** Every letter of s is one of self.letters. */
  predicate AllLetters(s: string)
  {
    forall i :: 0 <= i < |s| ==> IsLetter(s[i])
  }

  /** self.letters.index(c); None where list.index raises ValueError. */
  function LetterIndex(c: char): (r: Option<nat>)
    ensures r.Some? <==> IsLetter(c)
    ensures r.Some? ==> r.value < 4 && Letters[r.value] == c
  {
    if c == 'A' then Some(0)
    else if c == 'T' then Some(1)
    else if c == 'C' then Some(2)
    else if c == 'G' then Some(3)
    else None
  }

  function Pow4(n: nat): (r: nat)
    ensures r >= 1
  {
    if n == 0 then 1 else 4 * Pow4(n - 1)
  }

  /** self.multiplyBy = 4 ** np.arange(k - 1, -1, -1): the weight of each digit position. */
  function Weights(k: nat): (w: seq<nat>)
    ensures |w| == k && forall t :: 0 <= t < k ==> w[t] == Pow4(k - 1 - t)
  {
    seq(k, t requires 0 <= t < k => Pow4(k - 1 - t))
  }

  /** The letter indices of kmer, or None where a letter is not A, T, C or G. */
  function KmerDigits(kmer: string): (r: Option<seq<nat>>)
    ensures r.Some? <==> AllLetters(kmer)
    ensures r.Some? ==> |r.value| == |kmer|
    ensures r.Some? ==> forall i :: 0 <= i < |kmer| ==> r.value[i] < 4 && Letters[r.value[i]] == kmer[i]
  {
    if kmer == [] then Some([])
    else
      var init := kmer[..|kmer| - 1];
      assert forall i :: 0 <= i < |init| ==> init[i] == kmer[i];
      match (KmerDigits(init), LetterIndex(kmer[|kmer| - 1]))
      case (Some(d), Some(x)) => Some(d + [x])
      case (None, _) =>
        assert exists i :: 0 <= i < |init| && !IsLetter(init[i]);
        None
      case (_, None) => None
  }

  /** The number written by the base-4 digits d, most significant first. */
  function DigitsValue(d: seq<nat>): nat
  {
    if d == [] then 0 else 4 * DigitsValue(d[..|d| - 1]) + d[|d| - 1]
  }

  lemma {:induction false} DigitsValueBound(d: seq<nat>)
    requires forall i :: 0 <= i < |d| ==> d[i] < 4
    ensures DigitsValue(d) < Pow4(|d|)
  {
    if d != [] {
      DigitsValueBound(d[..|d| - 1]);
    }
  }

  /** The numbering of a k-mer, its position in the feature vector; None
      where a letter is not A, T, C or G. The numbers of k-mers of length k
      lie below 4^k. */
  function KmerNumber(kmer: string): (r: Option<nat>)
    ensures r.Some? <==> AllLetters(kmer)
    ensures r.Some? ==> r.value < Pow4(|kmer|)
  {
    match KmerDigits(kmer)
    case None => None
    case Some(d) =>
      DigitsValueBound(d);
      Some(DigitsValue(d))
  }

  /** The k-mer of length k numbered v. */
  function KmerOf(v: nat, k: nat): (kmer: string)
    ensures |kmer| == k
  {
    if k == 0 then [] else KmerOf(v / 4, k - 1) + [Letters[v % 4]]
  }

  lemma DivMod4(a: nat, x: nat)
    requires x < 4
    ensures (4 * a + x) / 4 == a && (4 * a + x) % 4 == x
  {
  }

  lemma Div4Pow(v: nat, k: nat)
    requires 0 < k && v < Pow4(k)
    ensures v / 4 < Pow4(k - 1) && v % 4 < 4 && 4 * (v / 4) + v % 4 == v
  {
  }

  /** Every number below 4^k numbers a k-mer: KmerOf is a right inverse of KmerNumber. */
  lemma {:induction false} KmerOfNumber(v: nat, k: nat)
    requires v < Pow4(k)
    ensures KmerNumber(KmerOf(v, k)) == Some(v)
  {
    if k > 0 {
      var q, x := v / 4, v % 4;
      Div4Pow(v, k);
      var init := KmerOf(q, k - 1);
      var kmer := KmerOf(v, k);
      KmerOfNumber(q, k - 1);
      assert kmer[..|kmer| - 1] == init;
      var d := KmerDigits(init).value;
      assert LetterIndex(Letters[x]) == Some(x);
      assert KmerDigits(kmer) == Some(d + [x]);
      assert (d + [x])[..|d|] == d;
    }
  }

  /** The numbering determines the k-mer: KmerOf is a left inverse of KmerNumber. */
  lemma {:induction false} NumberOfKmer(kmer: string)
    requires KmerNumber(kmer).Some?
    ensures KmerOf(KmerNumber(kmer).value, |kmer|) == kmer
  {
    if kmer != [] {
      var init := kmer[..|kmer| - 1];
      assert forall i :: 0 <= i < |init| ==> init[i] == kmer[i];
      var d := KmerDigits(init).value;
      var x := LetterIndex(kmer[|kmer| - 1]).value;
      assert KmerDigits(kmer) == Some(d + [x]);
      assert (d + [x])[..|d|] == d;
      var v := 4 * DigitsValue(d) + x;
      assert KmerNumber(kmer) == Some(v);
      DivMod4(DigitsValue(d), x);
      NumberOfKmer(init);
    }
  }

  /** Two k-mers of the same length with the same numbering are equal. */
  lemma KmerNumberInjective(a: string, b: string)
    requires |a| == |b| && KmerNumber(a).Some? && KmerNumber(a) == KmerNumber(b)
    ensures a == b
  {
    NumberOfKmer(a);
    NumberOfKmer(b);
  }

  /** (a * b).sum() for two arrays of the same length. */
  function Dot(a: seq<nat>, b: seq<nat>): nat
    requires |a| == |b|
  {
    if a == [] then 0 else Dot(a[..|a| - 1], b[..|b| - 1]) + a[|a| - 1] * b[|b| - 1]
  }

  lemma MulStep(a: nat, x: nat, p: nat)
    ensures a * (4 * p) + x * p == (4 * a + x) * p
  {
  }

  /** Weighting the first m digits by 4^(k-1), 4^(k-2), ... gives their base-4
      value scaled by the weight of the remaining k - m positions. */
  lemma {:induction false} DotWeights(d: seq<nat>, k: nat, m: nat)
    requires |d| == k && m <= k
    ensures Dot(d[..m], Weights(k)[..m]) == DigitsValue(d[..m]) * Pow4(k - m)
  {
    if m > 0 {
      var w := Weights(k);
      DotWeights(d, k, m - 1);
      var a := DigitsValue(d[..m - 1]);
      var x := d[m - 1];
      var p := Pow4(k - m);
      var q := Pow4(k - (m - 1));
      assert d[..m][..m - 1] == d[..m - 1];
      assert w[..m][..m - 1] == w[..m - 1];
      assert Dot(d[..m], w[..m]) == a * q + x * p;
      assert DigitsValue(d[..m]) == 4 * a + x;
      assert q == 4 * p;
      MulStep(a, x, p);
    }
  }

  // ---------------------------------------------------------------------
  // Feature vectors

  /** number_of_kmers = len(seq) - k + 1, and no window when that is not positive. */
  function NumWindows(s: string, k: nat): nat
  {
    if |s| + 1 >= k then |s| + 1 - k else 0
  }

  /** The window seq[i:i+k]. */
  function Window(s: string, k: nat, i: nat): string
    requires i + k <= |s|
  {
    s[i..i + k]
  }

  function Zeros(n: nat): (z: seq<real>)
    ensures |z| == n && forall j :: 0 <= j < n ==> z[j] == 0.0
  {
    seq(n, j requires 0 <= j < n => 0.0)
  }

  /** The count vector after the first m windows of s, or None where one of
      them holds a letter other than A, T, C, G. */
  function KmerCounts(s: string, k: nat, m: nat): (r: Option<seq<real>>)
    requires m <= NumWindows(s, k)
    ensures r.Some? ==> |r.value| == Pow4(k)
  {
    if m == 0 then Some(Zeros(Pow4(k)))
    else
      match KmerCounts(s, k, m - 1)
      case None => None
      case Some(c) =>
        match KmerNumber(Window(s, k, m - 1))
        case None => None
        case Some(j) => Some(c[j := c[j] + 1.0])
  }

  lemma KmerCountsStep(s: string, k: nat, m: nat, c: seq<real>, j: nat)
    requires m < NumWindows(s, k) && KmerCounts(s, k, m) == Some(c)
    requires KmerNumber(Window(s, k, m)) == Some(j)
    ensures KmerCounts(s, k, m + 1) == Some(c[j := c[j] + 1.0])
  {
  }

  /** Reference count: how many of the first m windows of s are numbered j. */
  function WindowCount(s: string, k: nat, j: nat, m: nat): nat
    requires m <= NumWindows(s, k)
  {
    if m == 0 then 0
    else WindowCount(s, k, j, m - 1) + (if KmerNumber(Window(s, k, m - 1)) == Some(j) then 1 else 0)
  }

  function Sum(c: seq<real>): real
  {
    if c == [] then 0.0 else Sum(c[..|c| - 1]) + c[|c| - 1]
  }

  /** The counts exist exactly when every window is made of the four letters. */
  lemma KmerCountsDefined(s: string, k: nat, m: nat)
    requires m <= NumWindows(s, k)
    ensures KmerCounts(s, k, m).Some? <==> forall i :: 0 <= i < m ==> AllLetters(Window(s, k, i))
  {
    if KmerCounts(s, k, m).Some? {
      KmerCountsLetters(s, k, m);
    } else if forall i :: 0 <= i < m ==> AllLetters(Window(s, k, i)) {
      LettersKmerCounts(s, k, m);
    }
  }

  lemma {:induction false} KmerCountsLetters(s: string, k: nat, m: nat)
    requires m <= NumWindows(s, k) && KmerCounts(s, k, m).Some?
    ensures forall i :: 0 <= i < m ==> AllLetters(Window(s, k, i))
  {
    if m > 0 {
      var c, j0 := KmerCountsLast(s, k, m);
      KmerCountsLetters(s, k, m - 1);
    }
  }

  lemma {:induction false} LettersKmerCounts(s: string, k: nat, m: nat)
    requires m <= NumWindows(s, k)
    requires forall i :: 0 <= i < m ==> AllLetters(Window(s, k, i))
    ensures KmerCounts(s, k, m).Some?
  {
    if m > 0 {
      LettersKmerCounts(s, k, m - 1);
      assert AllLetters(Window(s, k, m - 1));
    }
  }

  /** Counts that exist after m > 0 windows are those after m - 1 windows,
      c, with one added at the number j0 of window m - 1. */
  lemma KmerCountsLast(s: string, k: nat, m: nat) returns (c: seq<real>, j0: nat)
    requires 0 < m <= NumWindows(s, k) && KmerCounts(s, k, m).Some?
    ensures KmerCounts(s, k, m - 1) == Some(c) && KmerNumber(Window(s, k, m - 1)) == Some(j0)
    ensures j0 < |c| && KmerCounts(s, k, m) == Some(c[j0 := c[j0] + 1.0])
  {
    c := KmerCounts(s, k, m - 1).value;
    j0 := KmerNumber(Window(s, k, m - 1)).value;
  }

  /** Counting one more window numbered j0 adds one to entry j0 alone. */
  lemma CountEntryStep(c: seq<real>, j0: nat, j: nat, prev: nat)
    requires j0 < |c| && j < |c| && c[j] == prev as real
    ensures c[j0 := c[j0] + 1.0][j] == (prev + if j0 == j then 1 else 0) as real
  {
  }

  /** Entry j of the counts is the number of windows numbered j. */
  lemma {:induction false} KmerCountsCount(s: string, k: nat, m: nat, j: nat)
    requires m <= NumWindows(s, k) && KmerCounts(s, k, m).Some? && j < Pow4(k)
    ensures KmerCounts(s, k, m).value[j] == WindowCount(s, k, j, m) as real
  {
    if m > 0 {
      var c, j0 := KmerCountsLast(s, k, m);
      KmerCountsCount(s, k, m - 1, j);
      CountEntryStep(c, j0, j, WindowCount(s, k, j, m - 1));
    }
  }

  lemma {:induction false} SumUpdate(c: seq<real>, j: nat, x: real)
    requires j < |c|
    ensures Sum(c[j := x]) == Sum(c) - c[j] + x
  {
    var n := |c| - 1;
    if j < n {
      assert c[j := x][..n] == c[..n][j := x];
      SumUpdate(c[..n], j, x);
    } else {
      assert c[j := x][..n] == c[..n];
    }
  }

  lemma {:induction false} SumZeros(n: nat)
    ensures Sum(Zeros(n)) == 0.0
  {
    if n > 0 {
      assert Zeros(n)[..n - 1] == Zeros(n - 1);
      SumZeros(n - 1);
    }
  }

  /** The counts add up to the number of windows read. */
  lemma {:induction false} KmerCountsSum(s: string, k: nat, m: nat)
    requires m <= NumWindows(s, k) && KmerCounts(s, k, m).Some?
    ensures Sum(KmerCounts(s, k, m).value) == m as real
  {
    if m == 0 {
      SumZeros(Pow4(k));
    } else {
      KmerCountsSum(s, k, m - 1);
      var c := KmerCounts(s, k, m - 1).value;
      var j := KmerNumber(Window(s, k, m - 1)).value;
      SumUpdate(c, j, c[j] + 1.0);
    }
  }

  /** Once a window cannot be numbered, no longer prefix has counts. */
  lemma {:induction false} KmerCountsNoneStays(s: string, k: nat, m: nat, m': nat)
    requires m <= m' <= NumWindows(s, k) && KmerCounts(s, k, m).None?
    ensures KmerCounts(s, k, m').None?
    decreases m' - m
  {
    if m < m' {
      KmerCountsNoneStays(s, k, m + 1, m');
    }
  }

  /** A sequence of at least k letters has a count vector exactly when all its
      letters are A, T, C or G: every letter lies in some window. */
  lemma KmerCountsDefinedLetters(s: string, k: nat)
    requires 1 <= k <= |s|
    ensures KmerCounts(s, k, NumWindows(s, k)).Some? <==> AllLetters(s)
  {
    var w := NumWindows(s, k);
    KmerCountsDefined(s, k, w);
    if KmerCounts(s, k, w).Some? {
      LettersFromWindows(s, k);
    }
    if AllLetters(s) {
      WindowsFromLetters(s, k);
    }
  }

  lemma LettersFromWindows(s: string, k: nat)
    requires 1 <= k <= |s|
    requires forall i :: 0 <= i < NumWindows(s, k) ==> AllLetters(Window(s, k, i))
    ensures AllLetters(s)
  {
    var w := NumWindows(s, k);
    forall p | 0 <= p < |s|
      ensures IsLetter(s[p])
    {
      var i := if p < w then p else w - 1;
      assert AllLetters(Window(s, k, i));
      assert Window(s, k, i)[p - i] == s[p];
    }
  }

  lemma WindowsFromLetters(s: string, k: nat)
    requires 1 <= k <= |s| && AllLetters(s)
    ensures forall i :: 0 <= i < NumWindows(s, k) ==> AllLetters(Window(s, k, i))
  {
    forall i | 0 <= i < NumWindows(s, k)
      ensures AllLetters(Window(s, k, i))
    {
      forall q | 0 <= q < k
        ensures IsLetter(Window(s, k, i)[q])
      {
        assert Window(s, k, i)[q] == s[i + q];
      }
    }
  }

  /** kmer_feature / number_of_kmers */
  function Divide(c: seq<real>, d: real): (r: seq<real>)
    requires d != 0.0
    ensures |r| == |c| && forall j :: 0 <= j < |c| ==> r[j] == c[j] / d
  {
    seq(|c|, j requires 0 <= j < |c| => c[j] / d)
  }

  lemma {:induction false} SumDivide(c: seq<real>, d: real)
    requires d != 0.0
    ensures Sum(Divide(c, d)) == Sum(c) / d
  {
    if c != [] {
      var n := |c| - 1;
      assert Divide(c, d)[..n] == Divide(c[..n], d);
      SumDivide(c[..n], d);
    }
  }

  /** obtain_kmer_feature_for_one_sequence(seq, write_number_of_occurrences):
      the counts, or in frequency mode the counts divided by the number of
      windows; None where numbering a window raises. */
  function KmerFeature(s: string, k: nat, writeNumberOfOccurrences: bool): Option<seq<real>>
    requires !writeNumberOfOccurrences ==> |s| >= k
  {
    match KmerCounts(s, k, NumWindows(s, k))
    case None => None
    case Some(c) => if writeNumberOfOccurrences then Some(c) else Some(Divide(c, NumWindows(s, k) as real))
  }

  /** The feature vector is the counts over all windows, divided by the
      number of windows in frequency mode. */
  lemma KmerFeatureOfCounts(s: string, k: nat, write: bool, counts: seq<real>)
    requires !write ==> |s| >= k
    requires KmerCounts(s, k, NumWindows(s, k)) == Some(counts)
    ensures KmerFeature(s, k, write) == Some(if write then counts else Divide(counts, (|s| - k + 1) as real))
  {
  }

  lemma DivideSelf(x: real)
    requires x != 0.0
    ensures x / x == 1.0
  {
  }

  /** In frequency mode the feature is a distribution over the 4^k k-mers:
      entry j is the share of windows numbered j, and the entries add up to 1. */
  lemma FrequencyFeature(s: string, k: nat)
    requires |s| >= k && KmerFeature(s, k, false).Some?
    ensures var f := KmerFeature(s, k, false).value;
      && |f| == Pow4(k) && Sum(f) == 1.0
      && forall j :: 0 <= j < Pow4(k) ==>
           f[j] == WindowCount(s, k, j, NumWindows(s, k)) as real / NumWindows(s, k) as real
  {
    var w := NumWindows(s, k);
    var c := KmerCounts(s, k, w).value;
    var f := KmerFeature(s, k, false).value;
    assert f == Divide(c, w as real);
    KmerCountsSum(s, k, w);
    forall j | 0 <= j < Pow4(k)
      ensures f[j] == WindowCount(s, k, j, w) as real / w as real
    {
      KmerCountsCount(s, k, w, j);
    }
    SumDivide(c, w as real);
    assert Sum(f) == Sum(c) / (w as real);
    assert Sum(c) == w as real;
    DivideSelf(w as real);
  }

  /** Feature vectors of a list of sequences, each upper-cased first; None
      where one of them raises. */
  function ListFeatures(seqs: seq<string>, k: nat, writeNumberOfOccurrences: bool): (r: Option<seq<seq<real>>>)
    requires !writeNumberOfOccurrences ==> forall i :: 0 <= i < |seqs| ==> |seqs[i]| >= k
    ensures r.Some? ==> |r.value| == |seqs|
  {
    if seqs == [] then Some([])
    else
      match ListFeatures(seqs[..|seqs| - 1], k, writeNumberOfOccurrences)
      case None => None
      case Some(fs) =>
        match KmerFeature(Upper(seqs[|seqs| - 1]), k, writeNumberOfOccurrences)
        case None => None
        case Some(f) => Some(fs + [f])
  }

  /** Every sequence of the list has a feature vector. */
  predicate FeaturesDefined(seqs: seq<string>, k: nat, write: bool)
    requires LongSequences(seqs, k, write)
  {
    forall i :: 0 <= i < |seqs| ==> KmerFeature(Upper(seqs[i]), k, write).Some?
  }

  /** features holds the feature vector of each sequence, in order. */
  predicate FeaturesOf(seqs: seq<string>, features: seq<seq<real>>, k: nat, write: bool)
    requires LongSequences(seqs, k, write)
  {
    && FeaturesDefined(seqs, k, write) && |features| == |seqs|
    && forall i :: 0 <= i < |seqs| ==> features[i] == KmerFeature(Upper(seqs[i]), k, write).value
  }

  /** Sequences of at least k letters, as frequency mode needs. */
  predicate LongSequences(seqs: seq<string>, k: nat, write: bool)
  {
    !write ==> forall i :: 0 <= i < |seqs| ==> |seqs[i]| >= k
  }

  lemma FeaturesDefinedAppend(a: seq<string>, b: seq<string>, k: nat, write: bool)
    requires LongSequences(a, k, write) && LongSequences(b, k, write)
    ensures LongSequences(a + b, k, write)
    ensures FeaturesDefined(a + b, k, write) <==> FeaturesDefined(a, k, write) && FeaturesDefined(b, k, write)
  {
    var ab := a + b;
    assert forall i :: 0 <= i < |a| ==> ab[i] == a[i];
    assert forall i :: 0 <= i < |b| ==> ab[|a| + i] == b[i];
    if FeaturesDefined(a, k, write) && FeaturesDefined(b, k, write) {
      forall i | 0 <= i < |ab|
        ensures KmerFeature(Upper(ab[i]), k, write).Some?
      {
        if i >= |a| {
          assert ab[i] == b[i - |a|];
        }
      }
    }
  }

  lemma FeaturesOfAppend(a: seq<string>, b: seq<string>, fa: seq<seq<real>>, fb: seq<seq<real>>, k: nat, write: bool)
    requires LongSequences(a, k, write) && LongSequences(b, k, write)
    requires FeaturesOf(a, fa, k, write) && FeaturesOf(b, fb, k, write)
    ensures LongSequences(a + b, k, write) && FeaturesOf(a + b, fa + fb, k, write)
  {
    FeaturesDefinedAppend(a, b, k, write);
    var ab := a + b;
    forall i | 0 <= i < |ab|
      ensures (fa + fb)[i] == KmerFeature(Upper(ab[i]), k, write).value
    {
      if i < |a| {
        assert ab[i] == a[i] && (fa + fb)[i] == fa[i];
      } else {
        assert ab[i] == b[i - |a|] && (fa + fb)[i] == fb[i - |a|];
      }
    }
  }


  /** The list is featurized sequence by sequence: it has features exactly
      when every sequence has one, and then entry i is that of sequence i. */
  lemma {:induction false} ListFeaturesSpec(seqs: seq<string>, k: nat, write: bool)
    requires LongSequences(seqs, k, write)
    ensures ListFeatures(seqs, k, write).Some? <==> FeaturesDefined(seqs, k, write)
    ensures ListFeatures(seqs, k, write).Some? ==> FeaturesOf(seqs, ListFeatures(seqs, k, write).value, k, write)
  {
    if seqs != [] {
      var init, last := seqs[..|seqs| - 1], seqs[|seqs| - 1];
      assert seqs == init + [last];
      ListFeaturesSpec(init, k, write);
      var f := KmerFeature(Upper(last), k, write);
      FeaturesDefinedAppend(init, [last], k, write);
      if ListFeatures(init, k, write).Some? && f.Some? {
        FeaturesOfAppend(init, [last], ListFeatures(init, k, write).value, [f.value], k, write);
      }
    }
  }


  // ---------------------------------------------------------------------
  // The classifier's decision rule

  function Abs(x: real): real
  {
    if x < 0.0 then -x else x
  }

  /** predict's three outputs: the labels, the scores and the probability of
      the assigned class. */
  datatype Prediction = Prediction(yPred: seq<int>, yPredScore: seq<real>, yProb: seq<real>)

  /** predict(logr, X, threshold) given the scores logr.predict_proba(X)[:, 1]:
      label 1 exactly when the score is above the threshold, and the
      probability of the label chosen is the score for label 1 and one minus
      the score for label 0. */
  function Predict(scores: seq<real>, threshold: real): (p: Prediction)
    ensures |p.yPred| == |p.yPredScore| == |p.yProb| == |scores| && p.yPredScore == scores
    ensures forall i :: 0 <= i < |scores| ==> p.yPred[i] in {0, 1} && (p.yPred[i] == 1 <==> scores[i] > threshold)
    ensures forall i :: 0 <= i < |scores| && 0.0 <= scores[i] <= 1.0 ==>
      p.yProb[i] == (if p.yPred[i] == 1 then scores[i] else 1.0 - scores[i])
  {
    var yPred := seq(|scores|, i requires 0 <= i < |scores| => if scores[i] > threshold then 1 else 0);
    var yProb := seq(|scores|, i requires 0 <= i < |scores| => Abs(1.0 - yPred[i] as real - scores[i]));
    Prediction(yPred, scores, yProb)
  }

  /** The probability reported is a probability, and it is above the
      threshold for a coding call and at least one minus the threshold for a
      noncoding call. */
  lemma PredictConfidence(scores: seq<real>, threshold: real, i: nat)
    requires i < |scores| && 0.0 <= scores[i] <= 1.0
    ensures var p := Predict(scores, threshold);
      && 0.0 <= p.yProb[i] <= 1.0
      && (p.yPred[i] == 1 ==> p.yProb[i] > threshold)
      && (p.yPred[i] == 0 ==> p.yProb[i] >= 1.0 - threshold)
  {
  }

  // ---------------------------------------------------------------------
  // One batch of sORFs, classified and written

  /** The k used for the classifier's features. */
  const FeatureK: nat := 4

  /** class_dic */
  function ClassName(y: int): string
  {
    if y == 1 then "coding" else "noncoding"
  }

  /** One data line of the output: the sORF's five columns, its classification
      and the probability of that classification. */
  datatype Row = Row(sorf: SOrf, classification: string, probability: real)

  /** The lines of the output CSV: the header, then data rows. */
  datatype Line = Header | Data(row: Row)

  function DataLines(rows: seq<Row>): (r: seq<Line>)
    ensures |r| == |rows| && forall i :: 0 <= i < |rows| ==> r[i] == Data(rows[i])
  {
    seq(|rows|, i requires 0 <= i < |rows| => Data(rows[i]))
  }

  /** The output file, as the sequence of its lines. */
  class CsvFile {
    var lines: seq<Line>

    constructor ()
      ensures lines == []
    {
      lines := [];
    }

    /** DataFrame(columns=...).to_csv(output_fname, index=False): the file
        now holds the header alone. */
    method WriteHeader()
      modifies this
      ensures lines == [Header]
    {
      lines := [Header];
    }

    /** df.to_csv(output_fname, header=False, index=False, mode='a') */
    method AppendRows(rows: seq<Row>)
      modifies this
      ensures lines == old(lines) + DataLines(rows)
    {
      lines := lines + DataLines(rows);
    }
  }

  /** Every sORF has at least k letters, so frequency features are defined. */
  predicate LongEnough(sorfs: seq<SOrf>)
  {
    forall i :: 0 <= i < |sorfs| ==> |sorfs[i].sequence| >= FeatureK
  }

  function Sequences(sorfs: seq<SOrf>): (r: seq<string>)
    ensures |r| == |sorfs| && forall i :: 0 <= i < |sorfs| ==> r[i] == sorfs[i].sequence
  {
    seq(|sorfs|, i requires 0 <= i < |sorfs| => sorfs[i].sequence)
  }

  /** The rows predict_on_one_batch_and_write appends for a batch, or None
      where featurizing the batch raises. */
  function LabelBatch(sorfs: seq<SOrf>, score: seq<real> -> real, threshold: real): (r: Option<seq<Row>>)
    requires LongEnough(sorfs)
  {
    match ListFeatures(Sequences(sorfs), FeatureK, false)
    case None => None
    case Some(x) =>
      var p := Predict(seq(|x|, i requires 0 <= i < |x| => score(x[i])), threshold);
      Some(seq(|sorfs|, i requires 0 <= i < |sorfs| => Row(sorfs[i], ClassName(p.yPred[i]), p.yProb[i])))
  }

  /** Reference definition, one sORF at a time: its row, or None where its
      sequence holds a letter other than A, T, C, G (after upper-casing). */
  function RowOf(sorf: SOrf, score: seq<real> -> real, threshold: real): Option<Row>
    requires |sorf.sequence| >= FeatureK
  {
    match KmerFeature(Upper(sorf.sequence), FeatureK, false)
    case None => None
    case Some(f) =>
      var y := score(f);
      Some(Row(sorf, if y > threshold then "coding" else "noncoding", if y > threshold then y else 1.0 - y))
  }

  /** Every sORF of the batch has a row. */
  predicate RowsDefined(sorfs: seq<SOrf>, score: seq<real> -> real, threshold: real)
    requires LongEnough(sorfs)
  {
    forall i :: 0 <= i < |sorfs| ==> RowOf(sorfs[i], score, threshold).Some?
  }

  /** rows holds the row of each sORF of the batch, in order. */
  predicate RowsOf(sorfs: seq<SOrf>, rows: seq<Row>, score: seq<real> -> real, threshold: real)
    requires LongEnough(sorfs)
  {
    && RowsDefined(sorfs, score, threshold) && |rows| == |sorfs|
    && forall i :: 0 <= i < |sorfs| ==> rows[i] == RowOf(sorfs[i], score, threshold).value
  }

  /** A batch is labelled row by row: it has rows exactly when every sORF
      has one, and then row i is the row of sORF i. */
  lemma LabelBatchRows(sorfs: seq<SOrf>, score: seq<real> -> real, threshold: real)
    requires LongEnough(sorfs)
    requires forall x :: 0.0 <= score(x) <= 1.0
    ensures LabelBatch(sorfs, score, threshold).Some? <==> RowsDefined(sorfs, score, threshold)
    ensures LabelBatch(sorfs, score, threshold).Some? ==>
      RowsOf(sorfs, LabelBatch(sorfs, score, threshold).value, score, threshold)
  {
    var seqs := Sequences(sorfs);
    ListFeaturesSpec(seqs, FeatureK, false);
    if ListFeatures(seqs, FeatureK, false).Some? {
      var x := ListFeatures(seqs, FeatureK, false).value;
      var scores := seq(|x|, i requires 0 <= i < |x| => score(x[i]));
      var p := Predict(scores, threshold);
      forall i | 0 <= i < |sorfs|
        ensures LabelBatch(sorfs, score, threshold).value[i] == RowOf(sorfs[i], score, threshold).value
      {
        assert x[i] == KmerFeature(Upper(sorfs[i].sequence), FeatureK, false).value;
        assert 0.0 <= scores[i] <= 1.0;
      }
    }
  }

  /** An sORF has a row exactly when its upper-cased sequence is made of
      A, T, C and G alone. */
  lemma RowOfDefined(sorf: SOrf, score: seq<real> -> real, threshold: real)
    requires |sorf.sequence| >= FeatureK
    ensures RowOf(sorf, score, threshold).Some? <==> AllLetters(Upper(sorf.sequence))
  {
    KmerCountsDefinedLetters(Upper(sorf.sequence), FeatureK);
  }

  /** A batch fails exactly when one of its sORFs holds, after upper-casing,
      a letter other than A, T, C or G. */
  lemma LabelBatchFails(sorfs: seq<SOrf>, score: seq<real> -> real, threshold: real)
    requires LongEnough(sorfs)
    requires forall x :: 0.0 <= score(x) <= 1.0
    ensures LabelBatch(sorfs, score, threshold).None? <==>
      exists i :: 0 <= i < |sorfs| && !AllLetters(Upper(sorfs[i].sequence))
  {
    LabelBatchRows(sorfs, score, threshold);
    forall i | 0 <= i < |sorfs|
      ensures RowOf(sorfs[i], score, threshold).Some? <==> AllLetters(Upper(sorfs[i].sequence))
    {
      RowOfDefined(sorfs[i], score, threshold);
    }
  }

  lemma RowsDefinedAppend(a: seq<SOrf>, b: seq<SOrf>, score: seq<real> -> real, threshold: real)
    requires LongEnough(a) && LongEnough(b)
    ensures LongEnough(a + b)
    ensures RowsDefined(a + b, score, threshold) <==> RowsDefined(a, score, threshold) && RowsDefined(b, score, threshold)
  {
    var ab := a + b;
    assert forall i :: 0 <= i < |a| ==> ab[i] == a[i];
    assert forall i :: 0 <= i < |b| ==> ab[|a| + i] == b[i];
    if RowsDefined(a, score, threshold) && RowsDefined(b, score, threshold) {
      forall i | 0 <= i < |ab|
        ensures RowOf(ab[i], score, threshold).Some?
      {
        if i >= |a| {
          assert ab[i] == b[i - |a|];
        }
      }
    }
  }

  lemma RowsOfAppend(a: seq<SOrf>, b: seq<SOrf>, ra: seq<Row>, rb: seq<Row>, score: seq<real> -> real, threshold: real)
    requires LongEnough(a) && LongEnough(b)
    requires RowsOf(a, ra, score, threshold) && RowsOf(b, rb, score, threshold)
    ensures LongEnough(a + b) && RowsOf(a + b, ra + rb, score, threshold)
  {
    RowsDefinedAppend(a, b, score, threshold);
    var ab := a + b;
    forall i | 0 <= i < |ab|
      ensures (ra + rb)[i] == RowOf(ab[i], score, threshold).value
    {
      if i < |a| {
        assert ab[i] == a[i] && (ra + rb)[i] == ra[i];
      } else {
        assert ab[i] == b[i - |a|] && (ra + rb)[i] == rb[i - |a|];
      }
    }
  }

  lemma RowsOfUnique(s: seq<SOrf>, r1: seq<Row>, r2: seq<Row>, score: seq<real> -> real, threshold: real)
    requires LongEnough(s) && RowsOf(s, r1, score, threshold) && RowsOf(s, r2, score, threshold)
    ensures r1 == r2
  {
  }

  /** The rows of a batch computed one sORF at a time; None where some sORF
      has no row. */
  function SOrfRows(sorfs: seq<SOrf>, score: seq<real> -> real, threshold: real): Option<seq<Row>>
    requires LongEnough(sorfs)
  {
    if sorfs == [] then Some([])
    else
      match SOrfRows(sorfs[..|sorfs| - 1], score, threshold)
      case None => None
      case Some(rs) =>
        match RowOf(sorfs[|sorfs| - 1], score, threshold)
        case None => None
        case Some(x) => Some(rs + [x])
  }

  lemma {:induction false} SOrfRowsSpec(sorfs: seq<SOrf>, score: seq<real> -> real, threshold: real)
    requires LongEnough(sorfs)
    ensures SOrfRows(sorfs, score, threshold).Some? <==> RowsDefined(sorfs, score, threshold)
    ensures SOrfRows(sorfs, score, threshold).Some? ==> RowsOf(sorfs, SOrfRows(sorfs, score, threshold).value, score, threshold)
  {
    if sorfs != [] {
      var init, last := sorfs[..|sorfs| - 1], sorfs[|sorfs| - 1];
      assert sorfs == init + [last];
      SOrfRowsSpec(init, score, threshold);
      RowsDefinedAppend(init, [last], score, threshold);
      if SOrfRows(init, score, threshold).Some? && RowOf(last, score, threshold).Some? {
        var x := RowOf(last, score, threshold).value;
        RowsOfAppend(init, [last], SOrfRows(init, score, threshold).value, [x], score, threshold);
      }
    }
  }


  /** The batched computation of predict_on_one_batch_and_write gives the
      rows computed one sORF at a time. */
  lemma LabelBatchIsSOrfRows(sorfs: seq<SOrf>, score: seq<real> -> real, threshold: real)
    requires LongEnough(sorfs)
    requires forall x :: 0.0 <= score(x) <= 1.0
    ensures LabelBatch(sorfs, score, threshold) == SOrfRows(sorfs, score, threshold)
  {
    LabelBatchRows(sorfs, score, threshold);
    SOrfRowsSpec(sorfs, score, threshold);
    if LabelBatch(sorfs, score, threshold).Some? {
      RowsOfUnique(sorfs, LabelBatch(sorfs, score, threshold).value, SOrfRows(sorfs, score, threshold).value, score, threshold);
    }
  }

  /** Batching does not change the rows: the rows of a + b are the rows of a
      followed by the rows of b, and a + b fails exactly when a or b does. */
  lemma SOrfRowsAppend(a: seq<SOrf>, b: seq<SOrf>, score: seq<real> -> real, threshold: real)
    requires LongEnough(a) && LongEnough(b)
    ensures LongEnough(a + b)
    ensures SOrfRows(a + b, score, threshold).Some? <==>
      SOrfRows(a, score, threshold).Some? && SOrfRows(b, score, threshold).Some?
    ensures SOrfRows(a + b, score, threshold).Some? ==>
      SOrfRows(a + b, score, threshold).value == SOrfRows(a, score, threshold).value + SOrfRows(b, score, threshold).value
  {
    RowsDefinedAppend(a, b, score, threshold);
    SOrfRowsSpec(a, score, threshold);
    SOrfRowsSpec(b, score, threshold);
    SOrfRowsSpec(a + b, score, threshold);
    if SOrfRows(a + b, score, threshold).Some? {
      var ra := SOrfRows(a, score, threshold).value;
      var rb := SOrfRows(b, score, threshold).value;
      RowsOfAppend(a, b, ra, rb, score, threshold);
      RowsOfUnique(a + b, SOrfRows(a + b, score, threshold).value, ra + rb, score, threshold);
    }
  }

  class KmerFeaturization {
    const k: nat
    const letters: string
    const multiplyBy: seq<nat>
    const n: nat

    /** The fields as __init__ sets them. */
    predicate Valid()
    {
      letters == Letters && multiplyBy == Weights(k) && n == Pow4(k)
    }

    /** kmer_featurization.__init__(k) */
    constructor (k: nat)
      ensures this.k == k && Valid()
    {
      this.k := k;
      letters := Letters;
      multiplyBy := Weights(k);
      n := Pow4(k);
    }

    /** kmer_numbering_for_one_kmer(kmer): the k-mer's position in the
        feature vector, None where letters.index raises. */
    method KmerNumberingForOneKmer(kmer: string) returns (numbering: Option<nat>)
      requires Valid() && |kmer| == k
      ensures numbering == KmerNumber(kmer)
    {
      var digits: seq<nat> := [];
      for t := 0 to |kmer|
        invariant KmerDigits(kmer[..t]) == Some(digits)
      {
        var index := LetterIndex(kmer[t]);
        assert kmer[..t + 1][..t] == kmer[..t];
        if index.None? {
          assert !IsLetter(kmer[t]);
          return None;
        }
        digits := digits + [index.value];
      }
      assert kmer[..|kmer|] == kmer;
      DotWeights(digits, k, k);
      assert digits[..k] == digits && multiplyBy[..k] == multiplyBy;
      numbering := Some(Dot(digits, multiplyBy));
    }

    /** feature[this_numbering] += 1 for window i of s. */
    method CountWindow(s: string, i: nat, j: nat, feature: array<real>)
      requires i < NumWindows(s, k) && KmerCounts(s, k, i) == Some(feature[..])
      requires KmerNumber(Window(s, k, i)) == Some(j)
      modifies feature
      ensures KmerCounts(s, k, i + 1) == Some(feature[..])
    {
      ghost var counts := feature[..];
      KmerCountsStep(s, k, i, counts, j);
      ghost var next := counts[j := counts[j] + 1.0];
      feature[j] := feature[j] + 1.0;
      assert feature[..] == next by {
        assert forall t :: 0 <= t < feature.Length ==> feature[t] == next[t];
      }
    }

    /** obtain_kmer_feature_for_one_sequence(seq, write_number_of_occurrences):
        count each window's numbering in a zeroed vector of length 4^k, then
        in frequency mode divide by the number of windows. */
    method ObtainKmerFeatureForOneSequence(s: string, writeNumberOfOccurrences: bool)
      returns (kmerFeature: Option<seq<real>>)
      requires Valid() && k >= 1
      requires !writeNumberOfOccurrences ==> |s| >= k
      ensures kmerFeature == KmerFeature(s, k, writeNumberOfOccurrences)
    {
      var numberOfKmers := |s| - k + 1;
      var feature, ok := CountKmers(s);
      if !ok {
        return None;
      }
      KmerFeatureOfCounts(s, k, writeNumberOfOccurrences, feature[..]);
      if writeNumberOfOccurrences {
        kmerFeature := Some(feature[..]);
      } else {
        kmerFeature := Some(Divide(feature[..], numberOfKmers as real));
      }
    }

    /** The counting loop of obtain_kmer_feature_for_one_sequence: a zeroed
        vector of length 4^k, incremented at the numbering of each window;
        ok is false where a window is not a k-mer. */
    method CountKmers(s: string) returns (feature: array<real>, ok: bool)
      requires Valid() && k >= 1
      ensures ok == KmerCounts(s, k, NumWindows(s, k)).Some?
      ensures ok ==> KmerCounts(s, k, NumWindows(s, k)) == Some(feature[..])
    {
      var numberOfKmers := |s| - k + 1;
      feature := new real[n](_ => 0.0);
      assert feature[..] == Zeros(Pow4(k));
      var i := 0;
      while i < numberOfKmers
        invariant 0 <= i <= NumWindows(s, k)
        invariant KmerCounts(s, k, i) == Some(feature[..])
      {
        var thisKmer := s[i..i + k];
        assert thisKmer == Window(s, k, i);
        var thisNumbering := KmerNumberingForOneKmer(thisKmer);
        if thisNumbering.None? {
          KmerCountsNoneStays(s, k, i + 1, NumWindows(s, k));
          return feature, false;
        }
        CountWindow(s, i, thisNumbering.value, feature);
        i := i + 1;
      }
      assert i == NumWindows(s, k);
      ok := true;
    }

    /** obtain_kmer_feature_for_a_list_of_sequences(seqs, write_number_of_occurrences):
        the feature of each upper-cased sequence, in order. */
    method ObtainKmerFeatureForAListOfSequences(seqs: seq<string>, writeNumberOfOccurrences: bool)
      returns (kmerFeatures: Option<seq<seq<real>>>)
      requires Valid() && k >= 1
      requires !writeNumberOfOccurrences ==> forall i :: 0 <= i < |seqs| ==> |seqs[i]| >= k
      ensures kmerFeatures == ListFeatures(seqs, k, writeNumberOfOccurrences)
    {
      var features: seq<seq<real>> := [];
      for m := 0 to |seqs|
        invariant ListFeatures(seqs[..m], k, writeNumberOfOccurrences) == Some(features)
      {
        var thisKmerFeature := ObtainKmerFeatureForOneSequence(Upper(seqs[m]), writeNumberOfOccurrences);
        ListFeaturesStep(seqs, k, writeNumberOfOccurrences, m, features);
        if thisKmerFeature.None? {
          ListFeaturesNoneStays(seqs, k, writeNumberOfOccurrences, m + 1);
          return None;
        }
        features := features + [thisKmerFeature.value];
      }
      assert seqs[..|seqs|] == seqs;
      kmerFeatures := Some(features);
    }
  }

  lemma ListFeaturesStep(seqs: seq<string>, k: nat, write: bool, m: nat, features: seq<seq<real>>)
    requires m < |seqs|
    requires !write ==> forall i :: 0 <= i < |seqs| ==> |seqs[i]| >= k
    requires ListFeatures(seqs[..m], k, write) == Some(features)
    ensures KmerFeature(Upper(seqs[m]), k, write).None? ==> ListFeatures(seqs[..m + 1], k, write).None?
    ensures KmerFeature(Upper(seqs[m]), k, write).Some? ==>
      ListFeatures(seqs[..m + 1], k, write) == Some(features + [KmerFeature(Upper(seqs[m]), k, write).value])
  {
    assert seqs[..m + 1][..m] == seqs[..m];
  }

  /** Once a sequence's feature raises, the whole list does. */
  lemma {:induction false} ListFeaturesNoneStays(seqs: seq<string>, k: nat, write: bool, m: nat)
    requires m <= |seqs|
    requires !write ==> forall i :: 0 <= i < |seqs| ==> |seqs[i]| >= k
    requires ListFeatures(seqs[..m], k, write).None?
    ensures ListFeatures(seqs, k, write).None?
    decreases |seqs| - m
  {
    if m < |seqs| {
      assert seqs[..m + 1][..m] == seqs[..m];
      ListFeaturesNoneStays(seqs, k, write, m + 1);
    } else {
      assert seqs[..m] == seqs;
    }
  }

  /** predict_on_one_batch_and_write(sORFs, logr, threshold, output_fname):
      featurize the batch's sequences with k = 4 in frequency mode, classify
      them, and append one row per sORF to the file; false where the
      featurizing raises, leaving the file as it was. */
  method PredictOnOneBatchAndWrite(sorfs: seq<SOrf>, score: seq<real> -> real, threshold: real, out: CsvFile)
    returns (ok: bool)
    requires LongEnough(sorfs)
    modifies out
    ensures ok == LabelBatch(sorfs, score, threshold).Some?
    ensures ok ==> out.lines == old(out.lines) + DataLines(LabelBatch(sorfs, score, threshold).value)
    ensures !ok ==> out.lines == old(out.lines)
  {
    var seqs := Sequences(sorfs);
    var obj := new KmerFeaturization(FeatureK);
    var kmerFeatures := obj.ObtainKmerFeatureForAListOfSequences(seqs, false);
    if kmerFeatures.None? {
      return false;
    }
    var x := kmerFeatures.value;
    var p := Predict(seq(|x|, i requires 0 <= i < |x| => score(x[i])), threshold);
    var rows := seq(|sorfs|, i requires 0 <= i < |sorfs| => Row(sorfs[i], ClassName(p.yPred[i]), p.yProb[i]));
    out.AppendRows(rows);
    ok := true;
  }
}
