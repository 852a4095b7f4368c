/** The reading-frame ORF scanner of src/ORF.py (classes ORF and ORFs) and
    the sORF filter and namer (collect_and_name_sORFs_from_an_ORFs_object).

    Positions are 0-based; a codon is read with Python's clipped slice, so a
    read near the end of the sequence may be shorter than three letters. The
    candidate start and stop codons are parameters; the properties are stated
    for codon lists whose codons all have three letters, as the defaults do. */
module OrfScanner {
  import opened Util

  /** Python's s[i:j] for non-negative i and j: both bounds are clipped to
      |s| and the slice is empty when j <= i. */
  function Slice(s: string, i: nat, j: nat): (r: string)
    ensures i <= j <= |s| ==> r == s[i..j]
    ensures |r| <= (if i <= j then j - i else 0)
  {
    if j <= i || i >= |s| then [] else s[i .. if j <= |s| then j else |s|]
  }

  /** S[j:j+3] in codons: the codon read at position j is a candidate. */
  function CodonAt(s: string, j: nat): string
  {
    Slice(s, j, j + 3)
  }

  /** A full three-letter codon at position j of s is one of codons. */
  predicate CodonIn(s: string, j: nat, codons: set<string>)
  {
    j + 3 <= |s| && s[j..j + 3] in codons
  }

  /** Every candidate codon has three letters. */
  predicate Codons3(codons: set<string>)
  {
    forall c :: c in codons ==> |c| == 3
  }

  /** For three-letter candidate codons, Python's test on the clipped read
      S[j:j+3] is the same as a match of a full codon: a read clipped by the
      end of the sequence is shorter than any candidate. */
  lemma ClippedMatch(s: string, codons: set<string>, j: nat)
    requires Codons3(codons)
    ensures CodonAt(s, j) in codons <==> CodonIn(s, j, codons)
  {
    if CodonAt(s, j) in codons {
      assert |CodonAt(s, j)| == 3;
    }
  }

  /** Reading at x in dna[i:] is reading at i + x in dna. */
  lemma CodonShift(dna: string, i: nat, x: nat, codons: set<string>)
    requires i <= |dna|
    ensures CodonIn(Slice(dna, i, |dna|), x, codons) <==> CodonIn(dna, i + x, codons)
  {
    var s := Slice(dna, i, |dna|);
    assert s == dna[i..];
    if x + 3 <= |s| {
      assert s[x..x + 3] == dna[i + x..i + x + 3];
    }
  }

  // ---------------------------------------------------------------------
  // The ORF record

  /** ORF.__init__: the record keeps the sequence and its two sites, and
      derives the start codon seq[:3], the stop codon seq[-3:] and the length. */
  datatype Orf = Orf(sequence: string, startCodon: string, stopCodon: string,
                     length: nat, startCodonSite: nat, stopCodonSite: nat)

  function NewOrf(s: string, startSite: nat, stopSite: nat): (o: Orf)
    ensures o.sequence == s && o.length == |s|
    ensures o.startCodonSite == startSite && o.stopCodonSite == stopSite
    ensures |s| >= 3 ==> o.startCodon == s[..3] && o.stopCodon == s[|s| - 3..]
    ensures |s| < 3 ==> o.startCodon == s && o.stopCodon == s
  {
    Orf(s, Slice(s, 0, 3), if |s| >= 3 then s[|s| - 3..] else s, |s|, startSite, stopSite)
  }

  // ---------------------------------------------------------------------
  // Specification of the scanner

  /** The positions from, from + 3, from + 6, ... below bound whose codon is
      one of codons, in increasing order. */
  function CodonSites(s: string, codons: set<string>, from: nat, bound: int): seq<nat>
    decreases bound - from
  {
    if from >= bound then []
    else (if CodonIn(s, from, codons) then [from] else []) + CodonSites(s, codons, from + 3, bound)
  }

  /** Scanning one more codon extends the recorded sites by that codon's
      position exactly when it matches. */
  lemma CodonSitesStep(s: string, codons: set<string>, acc: seq<nat>, from: nat, bound: int)
    requires from < bound
    ensures acc + CodonSites(s, codons, from, bound)
      == (if CodonIn(s, from, codons) then acc + [from] else acc) + CodonSites(s, codons, from + 3, bound)
  {
    var rest := CodonSites(s, codons, from + 3, bound);
    if CodonIn(s, from, codons) {
      AppendAssoc(acc, [from], rest);
    } else {
      assert CodonSites(s, codons, from, bound) == rest;
    }
  }

  /** x is recorded exactly when it is an aligned position in from .. bound
      whose codon is one of codons. */
  lemma {:induction false} CodonSitesMem(s: string, codons: set<string>, from: nat, bound: int)
    ensures forall x :: x in CodonSites(s, codons, from, bound) <==>
      from <= x < bound && (x - from) % 3 == 0 && CodonIn(s, x, codons)
    decreases bound - from
  {
    if from < bound {
      CodonSitesMem(s, codons, from + 3, bound);
      var rest := CodonSites(s, codons, from + 3, bound);
      var head: seq<nat> := if CodonIn(s, from, codons) then [from] else [];
      assert CodonSites(s, codons, from, bound) == head + rest;
      forall x ensures x in head + rest <==>
        from <= x < bound && (x - from) % 3 == 0 && CodonIn(s, x, codons)
      {
        if x < from + 3 {
          assert x !in rest;
        } else {
          assert (x - from) % 3 == (x - (from + 3)) % 3;
        }
      }
    }
  }

  /** The recorded positions increase. */
  lemma {:induction false} CodonSitesIncreasing(s: string, codons: set<string>, from: nat, bound: int)
    ensures Increasing(CodonSites(s, codons, from, bound))
    ensures forall x :: x in CodonSites(s, codons, from, bound) ==> from <= x
    decreases bound - from
  {
    if from < bound {
      CodonSitesIncreasing(s, codons, from + 3, bound);
      var rest := CodonSites(s, codons, from + 3, bound);
      var head: seq<nat> := if CodonIn(s, from, codons) then [from] else [];
      assert CodonSites(s, codons, from, bound) == head + rest;
      forall a, b | 0 <= a < b < |head + rest|
        ensures (head + rest)[a] < (head + rest)[b]
      {
        if a < |head| {
          assert (head + rest)[b] == rest[b - |head|] && rest[b - |head|] in rest;
        } else {
          assert (head + rest)[a] == rest[a - |head|] && (head + rest)[b] == rest[b - |head|];
        }
      }
    }
  }

  /** The codon-aligned stop sites of S (first loop of
      __break_sequence_into_fragments_by_stopCodon__). */
  function StopSites(s: string, stops: set<string>): seq<nat>
  {
    CodonSites(s, stops, 0, |s|)
  }

  /** The exclusive end of a fragment is just after a stop codon, so at least 3. */
  type FragmentEnd = n: nat | 3 <= n witness 3

  /** A fragment region: start is 0-based, end is exclusive. */
  datatype Region = Region(start: nat, end: FragmentEnd)

  /** The fragments cut at the stop sites, the first starting at start. */
  function FragmentsFrom(start: nat, sites: seq<nat>): (r: seq<Region>)
    ensures |r| == |sites|
    decreases |sites|
  {
    if sites == [] then [] else [Region(start, sites[0] + 3)] + FragmentsFrom(sites[0] + 3, sites[1..])
  }

  lemma {:induction false} FragmentAt(start: nat, sites: seq<nat>, n: nat)
    requires n < |sites|
    ensures FragmentsFrom(start, sites)[n] == Region(if n == 0 then start else sites[n - 1] + 3, sites[n] + 3)
    decreases n
  {
    if n > 0 {
      FragmentAt(sites[0] + 3, sites[1..], n - 1);
    }
  }

  /** The result of __break_sequence_into_fragments_by_stopCodon__(S). */
  function Fragments(s: string, stops: set<string>): seq<Region>
  {
    FragmentsFrom(0, StopSites(s, stops))
  }

  /** The result of __find_the_starting_sites_of_all_startCodons__(region, S). */
  function StartSites(s: string, starts: set<string>, region: Region): seq<nat>
  {
    CodonSites(s, starts, region.start, region.end - 3)
  }

  /** The record for the span b .. e + 3 of dna: DNA_sequence[b:e+3] with
      start site b and stop site e. */
  function OrfAt(dna: string, b: nat, e: nat): Orf
  {
    NewOrf(Slice(dna, b, e + 3), b, e)
  }

  /** The ORFs emitted for the start sites of one fragment of dna[i:], all
      sharing the stop site stop, in the order of the sites. */
  function OrfsAtSites(dna: string, i: nat, stop: nat, sites: seq<nat>): (r: seq<Orf>)
    ensures |r| == |sites|
  {
    seq(|sites|, m requires 0 <= m < |sites| => OrfAt(dna, i + sites[m], stop))
  }

  lemma OrfsAtSitesStep(dna: string, i: nat, stop: nat, sites: seq<nat>, m: nat)
    requires m < |sites|
    ensures OrfsAtSites(dna, i, stop, sites)[..m + 1]
      == OrfsAtSites(dna, i, stop, sites)[..m] + [OrfAt(dna, i + sites[m], stop)]
  {
    var os := OrfsAtSites(dna, i, stop, sites);
    assert os[..m + 1] == os[..m] + [os[m]];
  }

  /** The ORFs of one fragment of S = dna[i:]: one per start site of the
      fragment, with the coordinates shifted back by the frame offset i. */
  function RegionOrfs(dna: string, s: string, starts: set<string>, i: nat, region: Region): seq<Orf>
  {
    OrfsAtSites(dna, i, i + region.end - 3, StartSites(s, starts, region))
  }

  /** The ORFs of the fragments of S = dna[i:], fragment after fragment. */
  function RegionsOrfs(dna: string, s: string, starts: set<string>, i: nat, regions: seq<Region>): seq<Orf>
    decreases |regions|
  {
    if regions == [] then []
    else RegionsOrfs(dna, s, starts, i, regions[..|regions| - 1]) + RegionOrfs(dna, s, starts, i, regions[|regions| - 1])
  }

  /** The ORFs of frame i. */
  function FrameOrfs(dna: string, starts: set<string>, stops: set<string>, i: nat): seq<Orf>
  {
    var s := Slice(dna, i, |dna|);
    RegionsOrfs(dna, s, starts, i, Fragments(s, stops))
  }

  /** The ORFs of frames 0 .. i - 1, frame after frame. */
  function FramesBefore(dna: string, starts: set<string>, stops: set<string>, i: nat): seq<Orf>
    decreases i
  {
    if i == 0 then [] else FramesBefore(dna, starts, stops, i - 1) + FrameOrfs(dna, starts, stops, i - 1)
  }

  /** ORFs(dna).all_ORFs: frame 0, then frame 1, then frame 2. */
  function ScanOrfs(dna: string, starts: set<string>, stops: set<string>): seq<Orf>
  {
    FramesBefore(dna, starts, stops, 3)
  }

  // ---------------------------------------------------------------------
  // Reference definition of an ORF, independent of the scanner

  /** b .. e + 3 is an open reading frame of s: a start codon at b, a stop
      codon at e in the same frame, and no stop codon in that frame between. */
  predicate IsOrfSpan(s: string, starts: set<string>, stops: set<string>, b: nat, e: nat)
  {
    && b < e && (e - b) % 3 == 0 && e + 3 <= |s|
    && CodonIn(s, b, starts) && CodonIn(s, e, stops)
    && NoStopFrom(s, stops, b, e)
  }

  /** No codon in the frame of b, from b up to (not including) e, is a stop codon. */
  predicate NoStopFrom(s: string, stops: set<string>, b: nat, e: nat)
  {
    forall x :: b <= x < e && (x - b) % 3 == 0 ==> !CodonIn(s, x, stops)
  }

  /** What every emitted ORF satisfies. */
  predicate ValidOrf(dna: string, starts: set<string>, stops: set<string>, o: Orf)
  {
    && o.startCodonSite < o.stopCodonSite && o.stopCodonSite + 3 <= |dna|
    && o.sequence == dna[o.startCodonSite .. o.stopCodonSite + 3]
    && o.length == |o.sequence| && o.length % 3 == 0 && o.length >= 6
    && o.startCodon == o.sequence[..3] && o.startCodon in starts
    && o.stopCodon == o.sequence[o.length - 3..] && o.stopCodon in stops
    && forall x :: 0 <= x < o.length - 3 && x % 3 == 0 ==> !CodonIn(o.sequence, x, stops)
  }

  /** The record of an ORF span holds the ORF invariants. */
  lemma OrfAtValid(dna: string, starts: set<string>, stops: set<string>, b: nat, e: nat)
    requires IsOrfSpan(dna, starts, stops, b, e)
    ensures ValidOrf(dna, starts, stops, OrfAt(dna, b, e))
  {
    var o := OrfAt(dna, b, e);
    var w := dna[b..e + 3];
    assert o.sequence == w && o.length == |w| == e + 3 - b;
    assert o.startCodon == w[..3] == dna[b..b + 3];
    assert o.stopCodon == w[|w| - 3..] == dna[e..e + 3];
    NoStopInWindow(dna, stops, b, e);
  }

  /** Read inside the window dna[b..e + 3], no codon in frame before the
      last one is a stop codon. */
  lemma NoStopInWindow(dna: string, stops: set<string>, b: nat, e: nat)
    requires b < e && e + 3 <= |dna| && NoStopFrom(dna, stops, b, e)
    ensures forall x :: 0 <= x < e - b && x % 3 == 0 ==> !CodonIn(dna[b..e + 3], x, stops)
  {
    var w := dna[b..e + 3];
    assert |w| == e + 3 - b;
    forall x | 0 <= x < e - b && x % 3 == 0
      ensures !CodonIn(w, x, stops)
    {
      var c, d := w[x..x + 3], dna[b + x..b + x + 3];
      assert forall y :: 0 <= y < 3 ==> c[y] == d[y];
      assert c == d;
      assert b <= b + x < e && (b + x - b) % 3 == 0;
      assert !CodonIn(dna, b + x, stops);
    }
  }


  // ---------------------------------------------------------------------
  // Properties of the fragments

  /** Where fragment n of S lies: it starts at 0 or just after stop site n - 1,
      ends just after stop site n, and is codon-aligned. */
  lemma FragmentBounds(s: string, stops: set<string>, n: nat)
    requires n < |Fragments(s, stops)|
    ensures var p := StopSites(s, stops); var r := Fragments(s, stops);
      && |r| == |p|
      && r[n].start == (if n == 0 then 0 else p[n - 1] + 3)
      && r[n].end == p[n] + 3
      && r[n].start < r[n].end <= |s|
      && r[n].start % 3 == 0 && r[n].end % 3 == 0
      && CodonIn(s, r[n].end - 3, stops)
  {
    var p := StopSites(s, stops);
    CodonSitesMem(s, stops, 0, |s|);
    FragmentAt(0, p, n);
    assert p[n] in p;
    if n > 0 {
      CodonSitesIncreasing(s, stops, 0, |s|);
      assert p[n - 1] in p;
    }
  }

  /** Fragment n of S holds no aligned stop codon before its last codon. */
  lemma FragmentNoStop(s: string, stops: set<string>, n: nat)
    requires n < |Fragments(s, stops)|
    ensures var r := Fragments(s, stops);
      forall x :: r[n].start <= x < r[n].end - 3 && x % 3 == 0 ==> !CodonIn(s, x, stops)
  {
    var p := StopSites(s, stops);
    var r := Fragments(s, stops);
    FragmentBounds(s, stops, n);
    CodonSitesMem(s, stops, 0, |s|);
    CodonSitesIncreasing(s, stops, 0, |s|);
    forall x | r[n].start <= x < r[n].end - 3 && x % 3 == 0
      ensures !CodonIn(s, x, stops)
    {
      forall j | 0 <= j < |p|
        ensures p[j] != x
      {
        if j < n {
          assert p[j] <= p[n - 1];
        } else {
          assert p[n] <= p[j];
        }
      }
    }
  }

  /** The fragments partition S up to its last stop codon: there is one per
      aligned stop codon, the first starts at 0, each next one starts where
      the previous one ended, and fragment n ends just after stop site n. */
  lemma FragmentsPartition(s: string, stops: set<string>)
    ensures var p := StopSites(s, stops); var r := Fragments(s, stops);
      && |r| == |p|
      && (|r| > 0 ==> r[0].start == 0)
      && (forall a, b :: 0 <= a && b == a + 1 && b < |r| ==> r[b].start == r[a].end)
      && (forall n :: 0 <= n < |r| ==> r[n].end == p[n] + 3)
  {
    var p := StopSites(s, stops);
    var r := Fragments(s, stops);
    forall n | 0 <= n < |r|
      ensures r[n].end == p[n] + 3
    {
      FragmentAt(0, p, n);
    }
    forall a, b | 0 <= a && b == a + 1 && b < |r|
      ensures r[b].start == r[a].end
    {
      FragmentAt(0, p, a);
      FragmentAt(0, p, b);
    }
    if |r| > 0 {
      FragmentAt(0, p, 0);
    }
  }

  /** Every fragment lies inside S, its length is a multiple of 3, its last
      codon is a stop codon, and it holds no other aligned stop codon. */
  lemma FragmentsShape(s: string, stops: set<string>)
    ensures var r := Fragments(s, stops);
      && (forall n :: 0 <= n < |r| ==>
            && r[n].start < r[n].end <= |s| && (r[n].end - r[n].start) % 3 == 0
            && CodonIn(s, r[n].end - 3, stops))
      && (forall n, x :: 0 <= n < |r| && r[n].start <= x < r[n].end - 3 && x % 3 == 0 ==>
            !CodonIn(s, x, stops))
  {
    var r := Fragments(s, stops);
    forall n | 0 <= n < |r|
      ensures && r[n].start < r[n].end <= |s| && (r[n].end - r[n].start) % 3 == 0
              && CodonIn(s, r[n].end - 3, stops)
      ensures forall x :: r[n].start <= x < r[n].end - 3 && x % 3 == 0 ==> !CodonIn(s, x, stops)
    {
      FragmentBounds(s, stops, n);
      FragmentNoStop(s, stops, n);
    }
  }

  /** If S = dna[i:] has no codon-aligned stop codon, frame i emits no ORF:
      material after the last stop codon of a frame never yields an ORF. */
  lemma NoStopNoOrf(dna: string, starts: set<string>, stops: set<string>, i: nat)
    requires StopSites(Slice(dna, i, |dna|), stops) == []
    ensures Fragments(Slice(dna, i, |dna|), stops) == []
    ensures FrameOrfs(dna, starts, stops, i) == []
  {
  }

  // ---------------------------------------------------------------------
  // Start sites

  /** A start site k of fragment n of S opens an ORF span of S that ends at
      the fragment's stop codon. */
  lemma StartSiteIsSpan(s: string, starts: set<string>, stops: set<string>, n: nat, k: nat)
    requires n < |Fragments(s, stops)|
    requires k in StartSites(s, starts, Fragments(s, stops)[n])
    ensures k % 3 == 0 && IsOrfSpan(s, starts, stops, k, Fragments(s, stops)[n].end - 3)
  {
    var r := Fragments(s, stops);
    FragmentBounds(s, stops, n);
    FragmentNoStop(s, stops, n);
    var e := r[n].end - 3;
    CodonSitesMem(s, starts, r[n].start, e);
    assert (e - k) % 3 == 0;
    forall x | k <= x < e && (x - k) % 3 == 0
      ensures !CodonIn(s, x, stops)
    {
      assert x % 3 == 0;
    }
  }

  /** The stop site before fragment n lies before any ORF span ending at stop site n. */
  lemma PreviousStopBeforeStart(s: string, starts: set<string>, stops: set<string>, n: nat, k: nat)
    requires 0 < n < |StopSites(s, stops)|
    requires k % 3 == 0 && IsOrfSpan(s, starts, stops, k, StopSites(s, stops)[n])
    ensures StopSites(s, stops)[n - 1] + 3 <= k
  {
    var p := StopSites(s, stops);
    CodonSitesMem(s, stops, 0, |s|);
    CodonSitesIncreasing(s, stops, 0, |s|);
    var q := p[n - 1];
    assert q in p;
    assert q < p[n] && q % 3 == 0;
    assert CodonIn(s, q, stops);
  }

  /** An ORF span of S at an aligned start ending at fragment n's stop codon
      is recorded as a start site of fragment n. */
  lemma SpanIsStartSite(s: string, starts: set<string>, stops: set<string>, n: nat, k: nat)
    requires n < |Fragments(s, stops)|
    requires k % 3 == 0 && IsOrfSpan(s, starts, stops, k, Fragments(s, stops)[n].end - 3)
    ensures k in StartSites(s, starts, Fragments(s, stops)[n])
  {
    var r := Fragments(s, stops);
    FragmentBounds(s, stops, n);
    if n > 0 {
      PreviousStopBeforeStart(s, starts, stops, n, k);
    }
    assert r[n].start <= k;
    assert (k - r[n].start) % 3 == 0;
    CodonSitesMem(s, starts, r[n].start, r[n].end - 3);
  }

  /** k is recorded as a start site of fragment n exactly when k is aligned
      and k .. end of fragment n is an ORF span of S. */
  lemma StartSitesInFragment(s: string, starts: set<string>, stops: set<string>, n: nat, k: nat)
    requires n < |Fragments(s, stops)|
    ensures k in StartSites(s, starts, Fragments(s, stops)[n]) <==>
      k % 3 == 0 && IsOrfSpan(s, starts, stops, k, Fragments(s, stops)[n].end - 3)
  {
    if k in StartSites(s, starts, Fragments(s, stops)[n]) {
      StartSiteIsSpan(s, starts, stops, n, k);
    }
    if k % 3 == 0 && IsOrfSpan(s, starts, stops, k, Fragments(s, stops)[n].end - 3) {
      SpanIsStartSite(s, starts, stops, n, k);
    }
  }

  /** The stop codon of an ORF span at an aligned start is one of the stop sites. */
  lemma StopSiteIndex(s: string, starts: set<string>, stops: set<string>, k: nat, e: nat) returns (n: nat)
    requires k % 3 == 0 && IsOrfSpan(s, starts, stops, k, e)
    ensures n < |StopSites(s, stops)| && StopSites(s, stops)[n] == e
  {
    CodonSitesMem(s, stops, 0, |s|);
    assert e % 3 == 0;
    assert e in StopSites(s, stops);
    n :| 0 <= n < |StopSites(s, stops)| && StopSites(s, stops)[n] == e;
  }

  /** An ORF span of S at an aligned start is recorded: its stop is the end of
      some fragment n, and its start is start site m of that fragment. */
  lemma SpanInFragment(s: string, starts: set<string>, stops: set<string>, k: nat, e: nat)
    returns (n: nat, m: nat)
    requires k % 3 == 0 && IsOrfSpan(s, starts, stops, k, e)
    ensures n < |Fragments(s, stops)| && Fragments(s, stops)[n].end == e + 3
    ensures m < |StartSites(s, starts, Fragments(s, stops)[n])|
    ensures StartSites(s, starts, Fragments(s, stops)[n])[m] == k
  {
    n := StopSiteIndex(s, starts, stops, k, e);
    assert Fragments(s, stops)[n].end == e + 3 by {
      FragmentAt(0, StopSites(s, stops), n);
    }
    var sites := StartSites(s, starts, Fragments(s, stops)[n]);
    assert k in sites by {
      SpanIsStartSite(s, starts, stops, n, k);
    }
    m :| 0 <= m < |sites| && sites[m] == k;
  }

  // ---------------------------------------------------------------------
  // From the suffix dna[i:] back to dna

  /** An ORF span of dna[i:] at an aligned start is an ORF span of dna in frame i. */
  lemma SpanFromSuffix(dna: string, starts: set<string>, stops: set<string>, i: nat, k: nat, e: nat)
    requires i < 3 && i <= |dna|
    requires k % 3 == 0 && IsOrfSpan(Slice(dna, i, |dna|), starts, stops, k, e)
    ensures (i + k) % 3 == i && IsOrfSpan(dna, starts, stops, i + k, i + e)
  {
    CodonShift(dna, i, k, starts);
    CodonShift(dna, i, e, stops);
    forall x | i + k <= x < i + e && (x - (i + k)) % 3 == 0
      ensures !CodonIn(dna, x, stops)
    {
      CodonShift(dna, i, x - i, stops);
    }
  }

  /** An ORF span of dna in frame i is an ORF span of dna[i:] at an aligned start. */
  lemma SpanToSuffix(dna: string, starts: set<string>, stops: set<string>, i: nat, b: nat, e: nat)
    requires i < 3 && b % 3 == i && IsOrfSpan(dna, starts, stops, b, e)
    ensures i <= b && (b - i) % 3 == 0
    ensures IsOrfSpan(Slice(dna, i, |dna|), starts, stops, b - i, e - i)
  {
    var s := Slice(dna, i, |dna|);
    CodonShift(dna, i, b - i, starts);
    CodonShift(dna, i, e - i, stops);
    forall x | b - i <= x < e - i && (x - (b - i)) % 3 == 0
      ensures !CodonIn(s, x, stops)
    {
      CodonShift(dna, i, x, stops);
    }
  }

  /** A start site of fragment n of dna[i:] opens an ORF span of dna in
      frame i, and o, the ORF emitted for it, records that span. */
  lemma FragmentStartSpan(dna: string, starts: set<string>, stops: set<string>, i: nat, n: nat, k: nat, stop: nat, o: Orf)
    returns (b: nat, e: nat)
    requires i < 3
    requires n < |Fragments(Slice(dna, i, |dna|), stops)|
    requires k in StartSites(Slice(dna, i, |dna|), starts, Fragments(Slice(dna, i, |dna|), stops)[n])
    requires stop + 3 == i + Fragments(Slice(dna, i, |dna|), stops)[n].end
    requires o == OrfAt(dna, i + k, stop)
    ensures b % 3 == i && IsOrfSpan(dna, starts, stops, b, e) && o == OrfAt(dna, b, e)
  {
    var s := Slice(dna, i, |dna|);
    var r := Fragments(s, stops);
    FragmentBounds(s, stops, n);
    var last: nat := stop - i;
    assert last == r[n].end - 3;
    StartSiteIsSpan(s, starts, stops, n, k);
    SpanFromSuffix(dna, starts, stops, i, k, last);
    b, e := i + k, stop;
  }

  // ---------------------------------------------------------------------
  // What the scanner emits

  /** An ORF of the fragments comes from one of them. */
  lemma {:induction false} InRegionsOrfs(dna: string, s: string, starts: set<string>, i: nat, regions: seq<Region>, o: Orf)
    returns (n: nat)
    requires o in RegionsOrfs(dna, s, starts, i, regions)
    ensures n < |regions| && o in RegionOrfs(dna, s, starts, i, regions[n])
    decreases |regions|
  {
    var init := regions[..|regions| - 1];
    if o in RegionsOrfs(dna, s, starts, i, init) {
      n := InRegionsOrfs(dna, s, starts, i, init, o);
    } else {
      n := |regions| - 1;
    }
  }

  /** An ORF of a fragment comes from one of its start sites. */
  lemma InRegionOrfs(dna: string, s: string, starts: set<string>, i: nat, region: Region, o: Orf)
    returns (k: nat, stop: nat)
    requires o in RegionOrfs(dna, s, starts, i, region)
    ensures k in StartSites(s, starts, region)
    ensures stop + 3 == i + region.end && o == OrfAt(dna, i + k, stop)
  {
    stop := i + region.end - 3;
    k := InOrfsAtSites(dna, i, stop, StartSites(s, starts, region), o);
  }

  lemma InOrfsAtSites(dna: string, i: nat, stop: nat, sites: seq<nat>, o: Orf) returns (k: nat)
    requires o in OrfsAtSites(dna, i, stop, sites)
    ensures k in sites && o == OrfAt(dna, i + k, stop)
  {
    var os := OrfsAtSites(dna, i, stop, sites);
    var m :| 0 <= m < |os| && os[m] == o;
    k := sites[m];
    assert os[m] == OrfAt(dna, i + k, stop);
  }

  /** Every ORF of every fragment is emitted. */
  lemma {:induction false} RegionOrfsInRegions(dna: string, s: string, starts: set<string>, i: nat, regions: seq<Region>, n: nat, o: Orf)
    requires n < |regions| && o in RegionOrfs(dna, s, starts, i, regions[n])
    ensures o in RegionsOrfs(dna, s, starts, i, regions)
    decreases |regions|
  {
    var init := regions[..|regions| - 1];
    if n < |init| {
      RegionOrfsInRegions(dna, s, starts, i, init, n, o);
    }
  }

  /** An ORF of the fragments comes from a start site k of one fragment n,
      and its stop site is the last codon of that fragment. */
  lemma InRegionsSite(dna: string, s: string, starts: set<string>, i: nat, regions: seq<Region>, o: Orf)
    returns (n: nat, k: nat, stop: nat)
    requires o in RegionsOrfs(dna, s, starts, i, regions)
    ensures n < |regions| && k in StartSites(s, starts, regions[n])
    ensures stop + 3 == i + regions[n].end && o == OrfAt(dna, i + k, stop)
  {
    n := InRegionsOrfs(dna, s, starts, i, regions, o);
    k, stop := InRegionOrfs(dna, s, starts, i, regions[n], o);
  }

  /** Every ORF of frame i is the record of an ORF span of dna starting in frame i. */
  lemma FrameOrfSound(dna: string, starts: set<string>, stops: set<string>, i: nat, o: Orf)
    returns (b: nat, e: nat)
    requires i < 3
    requires o in FrameOrfs(dna, starts, stops, i)
    ensures b % 3 == i && IsOrfSpan(dna, starts, stops, b, e) && o == OrfAt(dna, b, e)
  {
    var s := Slice(dna, i, |dna|);
    var n, k, stop := InRegionsSite(dna, s, starts, i, Fragments(s, stops), o);
    b, e := FragmentStartSpan(dna, starts, stops, i, n, k, stop, o);
  }

  /** Every ORF span of dna starting in frame i is emitted by frame i. */
  lemma FrameOrfComplete(dna: string, starts: set<string>, stops: set<string>, i: nat, b: nat, e: nat)
    requires i < 3
    requires b % 3 == i && IsOrfSpan(dna, starts, stops, b, e)
    ensures OrfAt(dna, b, e) in FrameOrfs(dna, starts, stops, i)
  {
    var s := Slice(dna, i, |dna|);
    SpanToSuffix(dna, starts, stops, i, b, e);
    var n, m := SpanInFragment(s, starts, stops, b - i, e - i);
    var r := Fragments(s, stops);
    SiteOrfInRegion(dna, s, starts, i, r[n], m, b, e);
    RegionOrfsInRegions(dna, s, starts, i, r, n, OrfAt(dna, b, e));
  }

  /** The ORF of start site m of a fragment is among the ORFs of that fragment. */
  lemma SiteOrfInRegion(dna: string, s: string, starts: set<string>, i: nat, region: Region, m: nat, b: nat, e: nat)
    requires m < |StartSites(s, starts, region)|
    requires b == i + StartSites(s, starts, region)[m] && e + 3 == i + region.end
    ensures OrfAt(dna, b, e) in RegionOrfs(dna, s, starts, i, region)
  {
    var os := OrfsAtSites(dna, i, e, StartSites(s, starts, region));
    assert os[m] == OrfAt(dna, b, e);
  }

  /** Frame i emits exactly the ORF spans of dna whose start lies in frame i. */
  lemma FrameOrfsSpec(dna: string, starts: set<string>, stops: set<string>, i: nat)
    requires i < 3
    ensures forall o :: o in FrameOrfs(dna, starts, stops, i) <==>
      exists b: nat, e: nat :: b % 3 == i && IsOrfSpan(dna, starts, stops, b, e) && o == OrfAt(dna, b, e)
  {
    forall o | o in FrameOrfs(dna, starts, stops, i)
      ensures exists b: nat, e: nat :: b % 3 == i && IsOrfSpan(dna, starts, stops, b, e) && o == OrfAt(dna, b, e)
    {
      var b, e := FrameOrfSound(dna, starts, stops, i, o);
    }
    forall o | exists b: nat, e: nat :: b % 3 == i && IsOrfSpan(dna, starts, stops, b, e) && o == OrfAt(dna, b, e)
      ensures o in FrameOrfs(dna, starts, stops, i)
    {
      var b: nat, e: nat :| b % 3 == i && IsOrfSpan(dna, starts, stops, b, e) && o == OrfAt(dna, b, e);
      FrameOrfComplete(dna, starts, stops, i, b, e);
    }
  }

  /** all_ORFs is frame 0, then frame 1, then frame 2. */
  lemma ScanOrfsFrames(dna: string, starts: set<string>, stops: set<string>)
    ensures ScanOrfs(dna, starts, stops)
      == FrameOrfs(dna, starts, stops, 0) + FrameOrfs(dna, starts, stops, 1) + FrameOrfs(dna, starts, stops, 2)
  {
    assert FramesBefore(dna, starts, stops, 1) == FrameOrfs(dna, starts, stops, 0);
  }

  /** An ORF of frames 0 .. n - 1 comes from one of those frames. */
  lemma {:induction false} FramesBeforeFrame(dna: string, starts: set<string>, stops: set<string>, n: nat, o: Orf)
    returns (i: nat)
    requires o in FramesBefore(dna, starts, stops, n)
    ensures i < n && o in FrameOrfs(dna, starts, stops, i)
  {
    if o in FramesBefore(dna, starts, stops, n - 1) {
      i := FramesBeforeFrame(dna, starts, stops, n - 1, o);
    } else {
      i := n - 1;
    }
  }

  /** Every ORF of a frame i < n is among the ORFs of frames 0 .. n - 1. */
  lemma {:induction false} FrameInFramesBefore(dna: string, starts: set<string>, stops: set<string>, n: nat, i: nat, o: Orf)
    requires i < n && o in FrameOrfs(dna, starts, stops, i)
    ensures o in FramesBefore(dna, starts, stops, n)
  {
    if i < n - 1 {
      FrameInFramesBefore(dna, starts, stops, n - 1, i, o);
    }
  }

  /** Every emitted ORF is the record of an ORF span of dna. */
  lemma ScanOrfSound(dna: string, starts: set<string>, stops: set<string>, o: Orf) returns (b: nat, e: nat)
    requires o in ScanOrfs(dna, starts, stops)
    ensures IsOrfSpan(dna, starts, stops, b, e) && o == OrfAt(dna, b, e)
  {
    var i := FramesBeforeFrame(dna, starts, stops, 3, o);
    b, e := FrameOrfSound(dna, starts, stops, i, o);
  }

  /** Every ORF span of dna is emitted. */
  lemma ScanOrfComplete(dna: string, starts: set<string>, stops: set<string>, b: nat, e: nat)
    requires IsOrfSpan(dna, starts, stops, b, e)
    ensures OrfAt(dna, b, e) in ScanOrfs(dna, starts, stops)
  {
    FrameOrfComplete(dna, starts, stops, b % 3, b, e);
    FrameInFramesBefore(dna, starts, stops, 3, b % 3, OrfAt(dna, b, e));
  }

  /** The ORFs of dna that the scanner emits are exactly its ORF spans. */
  lemma ScanOrfsSpec(dna: string, starts: set<string>, stops: set<string>)
    ensures forall o :: o in ScanOrfs(dna, starts, stops) <==>
      exists b: nat, e: nat :: IsOrfSpan(dna, starts, stops, b, e) && o == OrfAt(dna, b, e)
  {
    forall o | o in ScanOrfs(dna, starts, stops)
      ensures exists b: nat, e: nat :: IsOrfSpan(dna, starts, stops, b, e) && o == OrfAt(dna, b, e)
    {
      var b, e := ScanOrfSound(dna, starts, stops, o);
    }
    forall b: nat, e: nat | IsOrfSpan(dna, starts, stops, b, e)
      ensures OrfAt(dna, b, e) in ScanOrfs(dna, starts, stops)
    {
      ScanOrfComplete(dna, starts, stops, b, e);
    }
  }

  /** Every emitted ORF holds the ORF invariants. */
  lemma ScanOrfsValid(dna: string, starts: set<string>, stops: set<string>)
    ensures forall o :: o in ScanOrfs(dna, starts, stops) ==> ValidOrf(dna, starts, stops, o)
  {
    forall o | o in ScanOrfs(dna, starts, stops)
      ensures ValidOrf(dna, starts, stops, o)
    {
      var b, e := ScanOrfSound(dna, starts, stops, o);
      OrfAtValid(dna, starts, stops, b, e);
    }
  }

  // ---------------------------------------------------------------------
  // Order of the emitted ORFs

  /** Order within a frame: by stop site (fragment order), then by start site. */
  predicate BeforeInFrame(o1: Orf, o2: Orf)
  {
    o1.stopCodonSite < o2.stopCodonSite
    || (o1.stopCodonSite == o2.stopCodonSite && o1.startCodonSite < o2.startCodonSite)
  }

  /** Order of all_ORFs: by frame, then as within a frame. */
  predicate Before(o1: Orf, o2: Orf)
  {
    o1.startCodonSite % 3 < o2.startCodonSite % 3
    || (o1.startCodonSite % 3 == o2.startCodonSite % 3 && BeforeInFrame(o1, o2))
  }

  /** The ORFs of one fragment share its stop site and have increasing start sites. */
  lemma RegionOrfsOrder(dna: string, s: string, starts: set<string>, i: nat, region: Region)
    ensures var os := RegionOrfs(dna, s, starts, i, region);
      && (forall o :: o in os ==> o.stopCodonSite == i + region.end - 3)
      && (forall a, b :: 0 <= a < b < |os| ==> BeforeInFrame(os[a], os[b]))
  {
    var sites := StartSites(s, starts, region);
    CodonSitesIncreasing(s, starts, region.start, region.end - 3);
    var os := RegionOrfs(dna, s, starts, i, region);
    forall a, b | 0 <= a < b < |os|
      ensures BeforeInFrame(os[a], os[b])
    {
      assert sites[a] < sites[b];
    }
  }

  /** The ORFs of fragments with increasing ends are sorted in frame order,
      and none stops after the last fragment. */
  lemma {:induction false} RegionsOrfsSorted(dna: string, s: string, starts: set<string>, i: nat, regions: seq<Region>)
    requires forall a, b :: 0 <= a < b < |regions| ==> regions[a].end < regions[b].end
    ensures var os := RegionsOrfs(dna, s, starts, i, regions);
      && (forall a, b :: 0 <= a < b < |os| ==> BeforeInFrame(os[a], os[b]))
      && (regions != [] ==> forall o :: o in os ==> o.stopCodonSite <= i + regions[|regions| - 1].end - 3)
    decreases |regions|
  {
    if regions != [] {
      var init := regions[..|regions| - 1];
      var last := regions[|regions| - 1];
      RegionsOrfsSorted(dna, s, starts, i, init);
      RegionOrfsOrder(dna, s, starts, i, last);
      var p := RegionsOrfs(dna, s, starts, i, init);
      var q := RegionOrfs(dna, s, starts, i, last);
      assert init != [] ==> init[|init| - 1].end < last.end;
      AppendSorted(p, q, BeforeInFrame);
    }
  }

  /** Frame i is sorted by fragment, then by start site, and every ORF of it
      starts in frame i. */
  lemma FrameOrfsSorted(dna: string, starts: set<string>, stops: set<string>, i: nat)
    requires i < 3
    ensures var f := FrameOrfs(dna, starts, stops, i);
      && (forall a, b :: 0 <= a < b < |f| ==> BeforeInFrame(f[a], f[b]))
      && (forall o :: o in f ==> o.startCodonSite % 3 == i)
  {
    var s := Slice(dna, i, |dna|);
    var p := StopSites(s, stops);
    var r := Fragments(s, stops);
    forall a, b | 0 <= a < b < |r|
      ensures r[a].end < r[b].end
    {
      CodonSitesIncreasing(s, stops, 0, |s|);
      FragmentAt(0, p, a);
      FragmentAt(0, p, b);
    }
    RegionsOrfsSorted(dna, s, starts, i, r);
    forall o | o in FrameOrfs(dna, starts, stops, i)
      ensures o.startCodonSite % 3 == i
    {
      var b, e := FrameOrfSound(dna, starts, stops, i, o);
    }
  }

  /** all_ORFs is strictly ordered: frame 0, then 1, then 2; within a frame by
      fragment, then by increasing start site. */
  lemma ScanOrfsSorted(dna: string, starts: set<string>, stops: set<string>)
    ensures var f := ScanOrfs(dna, starts, stops);
      forall a, b :: 0 <= a < b < |f| ==> Before(f[a], f[b])
  {
    FramesBeforeSorted(dna, starts, stops, 3);
  }

  /** Frames 0 .. n - 1 are ordered, and their ORFs start in those frames. */
  lemma {:induction false} FramesBeforeSorted(dna: string, starts: set<string>, stops: set<string>, n: nat)
    requires n <= 3
    ensures var f := FramesBefore(dna, starts, stops, n);
      && (forall a, b :: 0 <= a < b < |f| ==> Before(f[a], f[b]))
      && (forall o :: o in f ==> o.startCodonSite % 3 < n)
  {
    if n > 0 {
      var prev := FramesBefore(dna, starts, stops, n - 1);
      var f := FrameOrfs(dna, starts, stops, n - 1);
      FramesBeforeSorted(dna, starts, stops, n - 1);
      FrameOrfsSorted(dna, starts, stops, n - 1);
      forall a, b | 0 <= a < b < |f|
        ensures Before(f[a], f[b])
      {
        assert f[a] in f && f[b] in f;
      }
      forall x, y | x in prev && y in f
        ensures Before(x, y)
      {
      }
      AppendSorted(prev, f, Before);
    }
  }


  // ---------------------------------------------------------------------
  // The scanner as the source runs it

  /** One more fragment adds its ORFs at the end. */
  lemma RegionsOrfsStep(dna: string, s: string, starts: set<string>, i: nat, regions: seq<Region>, n: nat)
    requires n < |regions|
    ensures RegionsOrfs(dna, s, starts, i, regions[..n + 1])
      == RegionsOrfs(dna, s, starts, i, regions[..n]) + RegionOrfs(dna, s, starts, i, regions[n])
  {
    assert regions[..n + 1][..n] == regions[..n];
  }

  class Orfs {
    const dna: string
    const candidateStartCodons: set<string>
    const candidateStopCodons: set<string>
    var allOrfs: seq<Orf>

    /** ORFs.__init__: for each frame, cut dna[i:] into fragments and emit one
        ORF per start site of each fragment. */
    constructor (dnaSequence: string, startCodons: set<string>, stopCodons: set<string>)
      requires Codons3(startCodons) && Codons3(stopCodons)
      ensures dna == dnaSequence
      ensures candidateStartCodons == startCodons && candidateStopCodons == stopCodons
      ensures allOrfs == ScanOrfs(dnaSequence, startCodons, stopCodons)
    {
      dna := dnaSequence;
      candidateStartCodons := startCodons;
      candidateStopCodons := stopCodons;
      allOrfs := [];
      new;
      for i := 0 to 3
        invariant allOrfs == FramesBefore(dna, startCodons, stopCodons, i)
      {
        AppendFrameOrfs(i);
      }
    }

    /** One turn of the outer loop of ORFs.__init__: cut dna[i:] into
        fragments and, for each fragment, append one ORF per start site. */
    method AppendFrameOrfs(i: nat)
      requires Codons3(candidateStartCodons) && Codons3(candidateStopCodons)
      modifies this`allOrfs
      ensures allOrfs == old(allOrfs) + FrameOrfs(dna, candidateStartCodons, candidateStopCodons, i)
    {
      var s := Slice(dna, i, |dna|);
      var fragmentRegions := BreakSequenceIntoFragmentsByStopCodon(s);
      if |fragmentRegions| > 0 {
        for n := 0 to |fragmentRegions|
          invariant allOrfs == old(allOrfs) + RegionsOrfs(dna, s, candidateStartCodons, i, fragmentRegions[..n])
        {
          var region := fragmentRegions[n];
          AppendRegionOrfs(i, s, region);
          RegionsOrfsStep(dna, s, candidateStartCodons, i, fragmentRegions, n);
          AppendAssoc(old(allOrfs), RegionsOrfs(dna, s, candidateStartCodons, i, fragmentRegions[..n]),
                      RegionOrfs(dna, s, candidateStartCodons, i, region));
        }
      }
      assert fragmentRegions[..|fragmentRegions|] == fragmentRegions;
    }

    /** One fragment of the frame loop: its start sites, then its ORFs. */
    method AppendRegionOrfs(i: nat, s: string, region: Region)
      requires Codons3(candidateStartCodons)
      modifies this`allOrfs
      ensures allOrfs == old(allOrfs) + RegionOrfs(dna, s, candidateStartCodons, i, region)
    {
      var startSites := FindStartingSitesOfAllStartCodons(region, s);
      if |startSites| > 0 {
        AppendFragmentOrfs(i, region, startSites);
      } else {
        assert allOrfs == old(allOrfs) + OrfsAtSites(dna, i, i + region.end - 3, startSites);
      }
    }

    /** The innermost loop of ORFs.__init__: for each start site of a fragment
        of dna[i:], append the ORF DNA_sequence[start:stop+3] with the
        coordinates shifted back by the frame offset i. */
    method AppendFragmentOrfs(i: nat, region: Region, startSites: seq<nat>)
      modifies this`allOrfs
      ensures allOrfs == old(allOrfs) + OrfsAtSites(dna, i, i + region.end - 3, startSites)
    {
      ghost var stop: nat := i + region.end - 3;
      ghost var orfs := OrfsAtSites(dna, i, stop, startSites);
      for m := 0 to |startSites|
        invariant allOrfs == old(allOrfs) + orfs[..m]
      {
        var startCodonSite := i + startSites[m];
        var stopCodonSite := i + region.end - 3;
        var orfSequence := Slice(dna, startCodonSite, stopCodonSite + 3);
        OrfsAtSitesStep(dna, i, stop, startSites, m);
        AppendAssoc(old(allOrfs), orfs[..m], [OrfAt(dna, startCodonSite, stop)]);
        allOrfs := allOrfs + [NewOrf(orfSequence, startCodonSite, stopCodonSite)];
      }
      assert orfs[..|startSites|] == orfs;
    }

    /** The first loop of __break_sequence_into_fragments_by_stopCodon__(S):
        the codon-aligned positions of S that read a stop codon, in order. */
    method FindStopCodonStartingSites(s: string) returns (stopCodonStartingSites: seq<nat>)
      requires Codons3(candidateStopCodons)
      ensures stopCodonStartingSites == StopSites(s, candidateStopCodons)
    {
      stopCodonStartingSites := [];
      var j := 0;
      while j < |s|
        invariant stopCodonStartingSites + CodonSites(s, candidateStopCodons, j, |s|) == StopSites(s, candidateStopCodons)
      {
        CodonSitesStep(s, candidateStopCodons, stopCodonStartingSites, j, |s|);
        ClippedMatch(s, candidateStopCodons, j);
        if CodonAt(s, j) in candidateStopCodons {
          stopCodonStartingSites := stopCodonStartingSites + [j];
        }
        j := j + 3;
      }
      assert CodonSites(s, candidateStopCodons, j, |s|) == [];
    }

    /** __break_sequence_into_fragments_by_stopCodon__(S): fragment m runs
        from just after stop site m - 1 (or from 0) to just after stop site m. */
    method BreakSequenceIntoFragmentsByStopCodon(s: string) returns (fragmentRegions: seq<Region>)
      requires Codons3(candidateStopCodons)
      ensures fragmentRegions == Fragments(s, candidateStopCodons)
    {
      var stopCodonStartingSites := FindStopCodonStartingSites(s);
      fragmentRegions := [];
      if |stopCodonStartingSites| > 0 {
        var start: nat := 0;
        assert stopCodonStartingSites[0..] == stopCodonStartingSites;
        for m := 0 to |stopCodonStartingSites|
          invariant fragmentRegions + FragmentsFrom(start, stopCodonStartingSites[m..]) == Fragments(s, candidateStopCodons)
        {
          var elt := stopCodonStartingSites[m];
          assert stopCodonStartingSites[m..][1..] == stopCodonStartingSites[m + 1..];
          fragmentRegions := fragmentRegions + [Region(start, elt + 3)];
          start := elt + 3;
        }
      }
    }

    /** __find_the_starting_sites_of_all_startCodons__(region, S). */
    method FindStartingSitesOfAllStartCodons(region: Region, s: string) returns (startSites: seq<nat>)
      requires Codons3(candidateStartCodons)
      ensures startSites == StartSites(s, candidateStartCodons, region)
    {
      startSites := [];
      var k := region.start;
      while k < region.end - 3
        invariant startSites + CodonSites(s, candidateStartCodons, k, region.end - 3) == StartSites(s, candidateStartCodons, region)
        decreases region.end - 3 - k
      {
        CodonSitesStep(s, candidateStartCodons, startSites, k, region.end - 3);
        ClippedMatch(s, candidateStartCodons, k);
        if CodonAt(s, k) in candidateStartCodons {
          startSites := startSites + [k];
        }
        k := k + 3;
      }
    }
  }

  // ---------------------------------------------------------------------
  // sORFs: the short ORFs of one transcript, named in scan order

  /** The longest ORF kept as an sORF, in nucleotides (100 codons and the stop codon). */
  const MaxSOrfLength: nat := 303

  /** One sORF row: its ID, its sequence, the transcript's ID, and its first
      and last nucleotide as 1-based inclusive positions in the transcript. */
  datatype SOrf = SOrf(id: string, sequence: string, transcriptId: string, startAt: nat, endAt: nat)

  function DigitChar(d: nat): (c: char)
    requires d < 10
    ensures '0' <= c <= '9' && c as int - '0' as int == d
  {
    ('0' as int + d) as char
  }

  /** str(n) for a natural number n: its decimal digits, most significant first. */
  function DecimalString(n: nat): (r: string)
    ensures |r| >= 1 && forall i :: 0 <= i < |r| ==> '0' <= r[i] <= '9'
    decreases n
  {
    (if n < 10 then [] else DecimalString(n / 10)) + [DigitChar(n % 10)]
  }

  /** The number a string of decimal digits denotes. */
  function DecimalValue(s: string): nat
    requires forall i :: 0 <= i < |s| ==> '0' <= s[i] <= '9'
  {
    if s == [] then 0 else DecimalValue(s[..|s| - 1]) * 10 + (s[|s| - 1] as int - '0' as int)
  }

  /** str(n) reads back as n, so distinct counts give distinct strings. */
  lemma {:induction false} DecimalRoundTrip(n: nat)
    ensures DecimalValue(DecimalString(n)) == n
    decreases n
  {
    var r := DecimalString(n);
    var init := if n < 10 then [] else DecimalString(n / 10);
    assert r[..|r| - 1] == init;
    if n >= 10 {
      DecimalRoundTrip(n / 10);
    }
    Div10(n);
  }

  lemma Div10(n: nat)
    ensures n / 10 * 10 + n % 10 == n && (n < 10 ==> n / 10 == 0)
  {
  }

  /** The ID of the count-th sORF of a transcript. */
  function OrfId(transcriptId: string, count: nat): string
  {
    transcriptId + "_ORF" + DecimalString(count)
  }

  /** Within a transcript, different counts give different IDs. */
  lemma OrfIdInjective(transcriptId: string, a: nat, b: nat)
    requires OrfId(transcriptId, a) == OrfId(transcriptId, b)
    ensures a == b
  {
    var p := transcriptId + "_ORF";
    assert DecimalString(a) == OrfId(transcriptId, a)[|p|..];
    assert DecimalString(b) == OrfId(transcriptId, b)[|p|..];
    DecimalRoundTrip(a);
    DecimalRoundTrip(b);
  }

  /** The row of an ORF named as the count-th sORF of the transcript. */
  function ToSOrf(o: Orf, transcriptId: string, count: nat): SOrf
  {
    SOrf(OrfId(transcriptId, count), o.sequence, transcriptId, o.startCodonSite + 1, o.stopCodonSite + 3)
  }

  /** The sORF rows of a list of ORFs: every ORF of length at most 303 in
      order, the n-th of them named with count n. */
  function NamedSOrfs(orfs: seq<Orf>, transcriptId: string): (r: seq<SOrf>)
    ensures |r| <= |orfs|
  {
    if orfs == [] then []
    else
      var prev := NamedSOrfs(orfs[..|orfs| - 1], transcriptId);
      var o := orfs[|orfs| - 1];
      if o.length <= MaxSOrfLength then prev + [ToSOrf(o, transcriptId, |prev| + 1)] else prev
  }

  /** The positions in orfs of the ORFs of length at most 303, in order. */
  function KeptPositions(orfs: seq<Orf>): seq<nat>
  {
    if orfs == [] then []
    else KeptPositions(orfs[..|orfs| - 1]) + (if orfs[|orfs| - 1].length <= MaxSOrfLength then [|orfs| - 1] else [])
  }

  lemma {:induction false} KeptPositionsRows(orfs: seq<Orf>, transcriptId: string)
    ensures var r := NamedSOrfs(orfs, transcriptId); var idx := KeptPositions(orfs);
      && |idx| == |r|
      && forall n :: 0 <= n < |idx| ==>
           idx[n] < |orfs| && orfs[idx[n]].length <= MaxSOrfLength && r[n] == ToSOrf(orfs[idx[n]], transcriptId, n + 1)
  {
    if orfs != [] {
      var init := orfs[..|orfs| - 1];
      KeptPositionsRows(init, transcriptId);
      var prev := NamedSOrfs(init, transcriptId);
      var pidx := KeptPositions(init);
      var o := orfs[|orfs| - 1];
      if o.length <= MaxSOrfLength {
        var r := prev + [ToSOrf(o, transcriptId, |prev| + 1)];
        var idx := pidx + [|orfs| - 1];
        assert NamedSOrfs(orfs, transcriptId) == r && KeptPositions(orfs) == idx;
        forall n | 0 <= n < |idx|
          ensures idx[n] < |orfs| && orfs[idx[n]].length <= MaxSOrfLength && r[n] == ToSOrf(orfs[idx[n]], transcriptId, n + 1)
        {
          if n < |pidx| {
            assert idx[n] == pidx[n] && r[n] == prev[n] && orfs[pidx[n]] == init[pidx[n]];
          }
        }
      } else {
        assert NamedSOrfs(orfs, transcriptId) == prev && KeptPositions(orfs) == pidx;
        forall n | 0 <= n < |pidx|
          ensures orfs[pidx[n]] == init[pidx[n]]
        {
        }
      }
    }
  }

  lemma {:induction false} KeptPositionsIncreasing(orfs: seq<Orf>)
    ensures var idx := KeptPositions(orfs);
      Increasing(idx) && forall n :: 0 <= n < |idx| ==> idx[n] < |orfs|
  {
    if orfs != [] {
      KeptPositionsIncreasing(orfs[..|orfs| - 1]);
    }
  }

  lemma {:induction false} KeptPositionsComplete(orfs: seq<Orf>)
    ensures forall p :: 0 <= p < |orfs| && orfs[p].length <= MaxSOrfLength ==> p in KeptPositions(orfs)
  {
    if orfs != [] {
      var init := orfs[..|orfs| - 1];
      KeptPositionsComplete(init);
      assert forall p :: 0 <= p < |init| ==> init[p] == orfs[p];
    }
  }

  /** The sORF rows are exactly the ORFs of length at most 303, in their
      order: idx lists their positions in orfs, and row n is the ORF at
      idx[n] named with count n + 1. */
  lemma NamedSOrfsSpec(orfs: seq<Orf>, transcriptId: string) returns (idx: seq<nat>)
    ensures var r := NamedSOrfs(orfs, transcriptId);
      && |idx| == |r| && Increasing(idx)
      && (forall n :: 0 <= n < |idx| ==> idx[n] < |orfs| && orfs[idx[n]].length <= MaxSOrfLength)
      && (forall n :: 0 <= n < |idx| ==> r[n] == ToSOrf(orfs[idx[n]], transcriptId, n + 1))
      && (forall p :: 0 <= p < |orfs| && orfs[p].length <= MaxSOrfLength ==> p in idx)
  {
    idx := KeptPositions(orfs);
    KeptPositionsRows(orfs, transcriptId);
    KeptPositionsIncreasing(orfs);
    KeptPositionsComplete(orfs);
  }

  /** Every sORF of a transcript has its own ID. */
  lemma NamedSOrfsDistinctIds(orfs: seq<Orf>, transcriptId: string)
    ensures var r := NamedSOrfs(orfs, transcriptId);
      forall a, b :: 0 <= a < b < |r| ==> r[a].id != r[b].id
  {
    var r := NamedSOrfs(orfs, transcriptId);
    var idx := NamedSOrfsSpec(orfs, transcriptId);
    forall a, b | 0 <= a < b < |r|
      ensures r[a].id != r[b].id
    {
      if r[a].id == r[b].id {
        OrfIdInjective(transcriptId, a + 1, b + 1);
      }
    }
  }

  /** What every sORF of a transcript satisfies: it is dna[startAt - 1 .. endAt],
      at most 303 and at least 6 nucleotides, a whole number of codons,
      opening with a start codon and closing with its first in-frame stop codon. */
  predicate ValidSOrf(dna: string, starts: set<string>, stops: set<string>, transcriptId: string, r: SOrf)
  {
    && r.transcriptId == transcriptId
    && 1 <= r.startAt && r.startAt + 5 <= r.endAt <= |dna|
    && r.sequence == dna[r.startAt - 1 .. r.endAt]
    && |r.sequence| <= MaxSOrfLength && |r.sequence| % 3 == 0
    && IsOrfSpan(dna, starts, stops, r.startAt - 1, r.endAt - 3)
  }

  /** Every sORF of a scanned transcript is one of its ORF spans of at most
      303 nucleotides. */
  lemma ScanSOrfsValid(dna: string, starts: set<string>, stops: set<string>, transcriptId: string)
    ensures forall x :: x in NamedSOrfs(ScanOrfs(dna, starts, stops), transcriptId) ==>
      ValidSOrf(dna, starts, stops, transcriptId, x)
  {
    var orfs := ScanOrfs(dna, starts, stops);
    forall o | o in orfs
      ensures IsSpanOrf(dna, starts, stops, o)
    {
      var b, e := ScanOrfSound(dna, starts, stops, o);
    }
    NamedSOrfsValid(dna, starts, stops, transcriptId, orfs);
  }

  /** o is the ORF of some ORF span of dna. */
  ghost predicate IsSpanOrf(dna: string, starts: set<string>, stops: set<string>, o: Orf)
  {
    exists b: nat, e: nat :: IsOrfSpan(dna, starts, stops, b, e) && o == OrfAt(dna, b, e)
  }

  lemma NamedSOrfsValid(dna: string, starts: set<string>, stops: set<string>, transcriptId: string, orfs: seq<Orf>)
    requires forall o :: o in orfs ==> IsSpanOrf(dna, starts, stops, o)
    ensures forall x :: x in NamedSOrfs(orfs, transcriptId) ==> ValidSOrf(dna, starts, stops, transcriptId, x)
  {
    forall x | x in NamedSOrfs(orfs, transcriptId)
      ensures ValidSOrf(dna, starts, stops, transcriptId, x)
    {
      var p, n := NamedSOrfOrigin(orfs, transcriptId, x);
      SpanOrfValid(dna, starts, stops, transcriptId, orfs[p], n);
    }
  }

  /** Every sORF row is named after a kept ORF of the list. */
  lemma NamedSOrfOrigin(orfs: seq<Orf>, transcriptId: string, x: SOrf) returns (p: nat, n: nat)
    requires x in NamedSOrfs(orfs, transcriptId)
    ensures p < |orfs| && orfs[p].length <= MaxSOrfLength && x == ToSOrf(orfs[p], transcriptId, n)
  {
    var r := NamedSOrfs(orfs, transcriptId);
    var idx := NamedSOrfsSpec(orfs, transcriptId);
    var m :| 0 <= m < |r| && r[m] == x;
    p, n := idx[m], m + 1;
  }

  /** The row of a kept ORF that records an ORF span is valid. */
  lemma SpanOrfValid(dna: string, starts: set<string>, stops: set<string>, transcriptId: string, o: Orf, count: nat)
    requires IsSpanOrf(dna, starts, stops, o) && o.length <= MaxSOrfLength
    ensures ValidSOrf(dna, starts, stops, transcriptId, ToSOrf(o, transcriptId, count))
  {
    var b: nat, e: nat :| IsOrfSpan(dna, starts, stops, b, e) && o == OrfAt(dna, b, e);
    ToSOrfValid(dna, starts, stops, transcriptId, b, e, count);
  }


  /** The row of an ORF span of at most 303 nucleotides is a valid sORF. */
  lemma ToSOrfValid(dna: string, starts: set<string>, stops: set<string>, transcriptId: string, b: nat, e: nat, count: nat)
    requires IsOrfSpan(dna, starts, stops, b, e) && e + 3 - b <= MaxSOrfLength
    ensures ValidSOrf(dna, starts, stops, transcriptId, ToSOrf(OrfAt(dna, b, e), transcriptId, count))
  {
    assert OrfAt(dna, b, e).sequence == dna[b..e + 3];
  }

  /** Every ORF span of a transcript of at most 303 nucleotides is one of its sORFs. */
  lemma ScanSOrfsComplete(dna: string, starts: set<string>, stops: set<string>, transcriptId: string, b: nat, e: nat)
    requires IsOrfSpan(dna, starts, stops, b, e) && e + 3 - b <= MaxSOrfLength
    ensures var r := NamedSOrfs(ScanOrfs(dna, starts, stops), transcriptId);
      exists n :: 0 <= n < |r| && r[n].startAt == b + 1 && r[n].endAt == e + 3 && r[n].sequence == dna[b..e + 3]
  {
    var orfs := ScanOrfs(dna, starts, stops);
    var r := NamedSOrfs(orfs, transcriptId);
    var idx := NamedSOrfsSpec(orfs, transcriptId);
    ScanOrfComplete(dna, starts, stops, b, e);
    var o := OrfAt(dna, b, e);
    var p :| 0 <= p < |orfs| && orfs[p] == o;
    assert p in idx;
    var n :| 0 <= n < |idx| && idx[n] == p;
    assert r[n] == ToSOrf(o, transcriptId, n + 1);
  }

  /** collect_and_name_sORFs_from_an_ORFs_object: keep every ORF of at most
      303 nucleotides, in order, and name the count-th one
      transcript_seq_ID + "_ORF" + str(count). */
  method CollectAndNameSOrfs(orfs: Orfs, transcriptId: string) returns (sorfs: seq<SOrf>)
    ensures sorfs == NamedSOrfs(orfs.allOrfs, transcriptId)
  {
    sorfs := [];
    var count := 0;
    for m := 0 to |orfs.allOrfs|
      invariant sorfs == NamedSOrfs(orfs.allOrfs[..m], transcriptId)
      invariant count == |sorfs|
    {
      var orf := orfs.allOrfs[m];
      assert orfs.allOrfs[..m + 1][..m] == orfs.allOrfs[..m];
      if orf.length <= MaxSOrfLength {
        count := count + 1;
        var orfId := transcriptId + "_ORF" + DecimalString(count);
        sorfs := sorfs + [SOrf(orfId, orf.sequence, transcriptId, orf.startCodonSite + 1, orf.stopCodonSite + 3)];
      }
    }
    assert orfs.allOrfs[..|orfs.allOrfs|] == orfs.allOrfs;
  }
}
