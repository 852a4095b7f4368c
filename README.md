# MiPepid in Dafny

MiPepid finds small open reading frames (sORFs) in DNA transcripts and
classifies each one as coding or noncoding with a logistic-regression model
over 4-mer frequencies. This project models three files of MiPepid and proves
properties about them:

- `orf.dfy` (module `OrfScanner`) models `src/ORF.py`.
  - The `ORF` record becomes the datatype `Orf`, built by `NewOrf`.
  - The `ORFs` scanner becomes the class `Orfs`. Its constructor runs the
    three-frame loop over `allOrfs`. Its private methods find the
    codon-aligned stop sites, cut the frame into fragments that each end at a
    stop codon, and find the start sites inside a fragment.
  - `collect_and_name_sORFs_from_an_ORFs_object` becomes the method
    `CollectAndNameSOrfs`. It keeps the ORFs of at most 303 nucleotides and
    names them `<transcript>_ORF<count>`.
  - The functional specification is `ScanOrfs`, with `NamedSOrfs` for the
    sORF list. It is linked to an independent definition of an ORF,
    `IsOrfSpan`: an in-frame start codon, the first in-frame stop codon after
    it, and no in-frame stop codon between them. `ScanOrfsSpec` proves the
    scanner emits exactly the ORFs of those spans. `ScanOrfsSorted` proves the
    order in which it emits them.
- `kmer.dfy` (module `KmerModel`) models `src/ML.py`.
  - The class `KmerFeaturization` is `kmer_featurization`: the base-4
    numbering of a k-mer, the count or frequency vector of a sequence, and
    the features of a list of sequences.
  - `Predict` is `predict`, given the model's scores.
  - `PredictOnOneBatchAndWrite` classifies one batch of sORFs and appends the
    rows to a `CsvFile`.
  - Among the properties proved:
    - the numbering is a bijection between k-mers and `0 .. 4^k - 1`;
    - entry j of a feature is the number, or the share, of windows numbered j;
    - frequencies sum to 1;
    - a batch fails exactly when one of its sORFs holds, after upper-casing,
      a letter other than A, T, C or G (`LabelBatchFails`).
- `pipeline.dfy` (module `BatchPipeline`) models the `MiPepid` driver of
  `src/mipepid.py`.
  - It writes the header, scans each record, and buffers the sORFs.
  - Whenever more than 1000 sORFs are buffered, it classifies and appends
    them; at the end it writes what is left.
  - The main theorem: the file then holds the header followed by the rows of
    all sORFs of all records in order, exactly as if they had been
    classified one by one. Batching never changes the output (`SOrfRowsFlatten`).
  - The batches handed to the classifier are exactly those of the flush rule
    (`SourceBatches`). When one fails, the run stops there and the file holds
    the rows of the batches before it.
- `util.dfy` (module `Util`) holds sequence helpers and an upper-casing that
  agrees with Python's `str.upper` on ASCII characters.

Where code raises an exception, the model returns `None` or `ok == false`.
Raising cases include a letter outside `ATCG` passed to `letters.index`.

## Model

| member | source | states |
|---|---|---|
| Util.Upper | src/ML.py:26 | upper-casing keeps the length and maps each letter a-z to A-Z and every other character to itself |
| Util.FlatMapAppend | src/mipepid.py:21-26 | the sORFs of two lists of records are those of the first followed by those of the second |
| OrfScanner.Slice | src/ORF.py:23 | Python's clipped slice: the ordinary slice when the bounds are in range, and never longer than j - i |
| OrfScanner.CodonAt | src/ORF.py:46 | the three letters read at j with Python's clipped slice S[j:j+3], shorter near the end of S; ClippedMatch relates it to whole codons |
| OrfScanner.ClippedMatch | src/ORF.py:46 | for three-letter codons, testing the clipped slice S[j:j+3] for membership is the same as having a whole codon of the list at j |
| OrfScanner.CodonShift | src/ORF.py:23-31 | a codon at x in the frame string S = dna[i:] is the codon at i + x of the transcript |
| OrfScanner.NewOrf | src/ORF.py:1-10 | the record keeps the sequence and both sites, its length is the sequence's length, and its start and stop codons are the first and last three letters |
| OrfScanner.CodonSitesMem | src/ORF.py:44-47 | x is a recorded site exactly when it lies in range, is a multiple of 3 from the first position and holds a codon of the list |
| OrfScanner.CodonSitesIncreasing | src/ORF.py:44-47 | the recorded sites are strictly increasing and not before the first position |
| OrfScanner.CodonSitesStep | src/ORF.py:45-47 | one loop step appends the site when a codon of the list is there and then moves three letters on |
| OrfScanner.StopSites | src/ORF.py:44-47 | the stop-site list built by the first loop of the fragment breaker; CodonSitesMem and CodonSitesIncreasing characterise it |
| OrfScanner.FragmentsFrom | src/ORF.py:51-56 | there is one fragment per stop site |
| OrfScanner.FragmentAt | src/ORF.py:52-56 | fragment n starts at 0 or just after the previous stop codon and ends just after stop codon n |
| OrfScanner.Fragments | src/ORF.py:36-58 | the fragment regions returned for S, cut at its stop sites; FragmentsPartition and FragmentsShape characterise them |
| OrfScanner.StartSites | src/ORF.py:60-68 | the aligned start sites of a fragment, its stop codon excluded; StartSitesInFragment characterises them |
| OrfScanner.FragmentBounds | src/ORF.py:36-58 | each fragment lies inside S, starts and ends on codon boundaries and ends with a stop codon |
| OrfScanner.FragmentNoStop | src/ORF.py:36-58 | a fragment contains no in-frame stop codon before its last codon |
| OrfScanner.FragmentsPartition | src/ORF.py:49-57 | the fragments tile S from position 0 without gaps, fragment n ending at stop site n + 3 |
| OrfScanner.FragmentsShape | src/ORF.py:36-42 | every fragment ends with a stop codon, is a whole number of codons, and has no other in-frame stop codon |
| OrfScanner.NoStopNoOrf | src/ORF.py:26 | a frame without a stop codon has no fragments and yields no ORF |
| OrfScanner.OrfAt | src/ORF.py:31-33 | the ORF record built for start site b and stop site e: DNA_sequence[b:e+3] with those two sites; OrfAtValid states its invariants |
| OrfScanner.OrfsAtSites | src/ORF.py:30-34 | one ORF is built per start site |
| OrfScanner.OrfsAtSitesStep | src/ORF.py:30-34 | the ORFs for the first m + 1 sites are those for the first m followed by the ORF of site m |
| OrfScanner.OrfAtValid | src/ORF.py:31-33 | the record of an ORF span is the transcript's slice: start codon first, stop codon last, whole codons, at least 6 letters, no in-frame stop codon before the end |
| OrfScanner.NoStopInWindow | src/ORF.py:31-32 | inside the ORF's own sequence, no in-frame codon before the last one is a stop codon |
| OrfScanner.StartSitesInFragment | src/ORF.py:60-68 | k is a start site of fragment n exactly when k is aligned and k .. end of the fragment is an ORF span of S |
| OrfScanner.StartSiteIsSpan | src/ORF.py:60-68 | every start site found in a fragment begins an ORF span ending at the fragment's stop codon |
| OrfScanner.SpanIsStartSite | src/ORF.py:60-68 | every aligned ORF span ending at a fragment's stop codon starts at a start site found in that fragment |
| OrfScanner.PreviousStopBeforeStart | src/ORF.py:51-56 | the start codon of an ORF span lies after the previous stop codon, so inside its fragment |
| OrfScanner.StopSiteIndex | src/ORF.py:44-47 | the stop codon of an aligned ORF span is one of the recorded stop sites |
| OrfScanner.SpanInFragment | src/ORF.py:49-68 | every aligned ORF span of S is found: its stop codon ends some fragment and its start is among that fragment's start sites |
| OrfScanner.SpanFromSuffix | src/ORF.py:23-31 | an ORF span of S = dna[i:] shifted by i is an ORF span of the transcript in frame i |
| OrfScanner.SpanToSuffix | src/ORF.py:23-31 | an ORF span of the transcript in frame i shifted back by i is an aligned ORF span of dna[i:] |
| OrfScanner.FragmentStartSpan | src/ORF.py:27-33 | the ORF emitted for a start site of a fragment of frame i is the record of an ORF span of the transcript in frame i |
| OrfScanner.InRegionsOrfs | src/ORF.py:27-34 | every ORF of a frame comes from one of its fragments |
| OrfScanner.InRegionOrfs | src/ORF.py:28-34 | every ORF of a fragment is built from one of its start sites and the fragment's stop site |
| OrfScanner.InOrfsAtSites | src/ORF.py:30-34 | every ORF built from a list of sites is the ORF of one of those sites |
| OrfScanner.RegionOrfsInRegions | src/ORF.py:27-34 | the ORFs of each fragment are among the ORFs of the frame |
| OrfScanner.InRegionsSite | src/ORF.py:27-34 | every ORF of a frame is the ORF of a start site of one fragment, ending at that fragment's stop codon |
| OrfScanner.SiteOrfInRegion | src/ORF.py:30-34 | the ORF of each start site of a fragment is emitted for that fragment |
| OrfScanner.FrameOrfSound | src/ORF.py:22-34 | every ORF emitted for frame i is the record of an ORF span of the transcript whose start is in frame i |
| OrfScanner.FrameOrfComplete | src/ORF.py:22-34 | every ORF span of the transcript whose start is in frame i is emitted for frame i |
| OrfScanner.FrameOrfsSpec | src/ORF.py:22-34 | frame i yields exactly the records of the ORF spans starting in frame i |
| OrfScanner.ScanOrfsFrames | src/ORF.py:22 | all_ORFs is the ORFs of frame 0, then frame 1, then frame 2 |
| OrfScanner.FramesBeforeFrame | src/ORF.py:22 | an ORF of the first n frames belongs to one of them |
| OrfScanner.FrameInFramesBefore | src/ORF.py:22 | the ORFs of each of the first n frames are among the ORFs of those frames |
| OrfScanner.ScanOrfs | src/ORF.py:14-34 | all_ORFs of ORFs(dna, starts, stops), frame after frame, fragment after fragment, start site after start site; ScanOrfsSpec and ScanOrfsSorted characterise it |
| OrfScanner.ScanOrfSound | src/ORF.py:14-34 | every ORF in all_ORFs is the record of an ORF span of the transcript |
| OrfScanner.ScanOrfComplete | src/ORF.py:14-34 | the record of every ORF span of the transcript is in all_ORFs |
| OrfScanner.ScanOrfsSpec | src/ORF.py:14-34 | all_ORFs holds exactly the records of the transcript's ORF spans |
| OrfScanner.ScanOrfsValid | src/ORF.py:14-34 | every ORF in all_ORFs satisfies the ORF invariants against the transcript |
| OrfScanner.RegionOrfsOrder | src/ORF.py:30-34 | the ORFs of a fragment share its stop site and have strictly increasing start sites |
| OrfScanner.RegionsOrfsSorted | src/ORF.py:27-34 | within a frame, ORFs are ordered by stop site and then by start site |
| OrfScanner.RegionsOrfsStep | src/ORF.py:27-34 | the ORFs of the first n + 1 fragments are those of the first n followed by those of fragment n |
| OrfScanner.FrameOrfsSorted | src/ORF.py:22-34 | the ORFs of frame i are sorted by stop site, then start site, and all start in frame i |
| OrfScanner.FramesBeforeSorted | src/ORF.py:22-34 | the ORFs of the first n frames come frame by frame, each frame sorted by stop site then start site |
| OrfScanner.ScanOrfsSorted | src/ORF.py:14-34 | all_ORFs is ordered by frame, then by stop site, then by start site |
| OrfScanner.Orfs.constructor | src/ORF.py:14-34 | after ORFs(dna, starts, stops) the object keeps its three arguments and all_ORFs is the full scan of the transcript |
| OrfScanner.Orfs.AppendFrameOrfs | src/ORF.py:23-34 | one pass of the frame loop appends exactly the ORFs of frame i to all_ORFs |
| OrfScanner.Orfs.AppendRegionOrfs | src/ORF.py:28-34 | one pass of the fragment loop appends exactly the ORFs of that fragment |
| OrfScanner.Orfs.AppendFragmentOrfs | src/ORF.py:30-34 | the start-site loop appends one ORF per site, in order, each ending at the fragment's stop codon |
| OrfScanner.Orfs.FindStopCodonStartingSites | src/ORF.py:44-47 | the loop collects the codon-aligned stop sites of S |
| OrfScanner.Orfs.BreakSequenceIntoFragmentsByStopCodon | src/ORF.py:36-58 | the method returns the fragments cut at the stop sites of S |
| OrfScanner.Orfs.FindStartingSitesOfAllStartCodons | src/ORF.py:60-68 | the method returns the aligned start sites of the fragment, excluding its stop codon |
| OrfScanner.DigitChar | src/ORF.py:76 | each digit is printed as its decimal character |
| OrfScanner.DecimalString | src/ORF.py:76 | str(count) is a non-empty string of decimal digits |
| OrfScanner.DecimalRoundTrip | src/ORF.py:76 | str(count) reads back as count |
| OrfScanner.OrfId | src/ORF.py:76 | the ID transcript + '_ORF' + str(count); OrfIdInjective shows distinct counts give distinct IDs |
| OrfScanner.ToSOrf | src/ORF.py:77 | the row of an ORF: its ID, sequence, the transcript ID, start site + 1 and stop site + 3; SpanOrfValid states what the positions mean |
| OrfScanner.OrfIdInjective | src/ORF.py:75-76 | within one transcript, two equal sORF IDs come from equal counts |
| OrfScanner.NamedSOrfs | src/ORF.py:70-79 | the collector never returns more rows than ORFs |
| OrfScanner.KeptPositionsRows | src/ORF.py:73-78 | row n is ORF number n of those of length at most 303, named with count n + 1 |
| OrfScanner.KeptPositionsIncreasing | src/ORF.py:73-74 | the kept ORFs are taken in their order in all_ORFs |
| OrfScanner.KeptPositionsComplete | src/ORF.py:73-74 | every ORF of length at most 303 is kept |
| OrfScanner.NamedSOrfsSpec | src/ORF.py:70-79 | the rows are exactly the ORFs of length at most 303, in order, the n-th named with count n and given 1-based start and end positions |
| OrfScanner.NamedSOrfsDistinctIds | src/ORF.py:75-76 | the sORFs of a transcript have pairwise distinct IDs |
| OrfScanner.NamedSOrfOrigin | src/ORF.py:73-78 | every row is the named record of an ORF of length at most 303 |
| OrfScanner.SpanOrfValid | src/ORF.py:77 | the row of a short ORF span holds the transcript's nucleotides from start_at to end_at, 1-based and inclusive |
| OrfScanner.ToSOrfValid | src/ORF.py:77 | the row of an ORF span of at most 303 nucleotides satisfies the sORF invariants |
| OrfScanner.NamedSOrfsValid | src/ORF.py:70-79 | when every ORF is the record of an ORF span, every row satisfies the sORF invariants |
| OrfScanner.ScanSOrfsValid | src/ORF.py:70-79 | every sORF of a scanned transcript is an ORF span of at most 303 nucleotides, placed by its 1-based positions |
| OrfScanner.ScanSOrfsComplete | src/ORF.py:70-79 | every ORF span of at most 303 nucleotides appears among the transcript's sORFs with its positions and sequence |
| OrfScanner.CollectAndNameSOrfs | src/ORF.py:70-79 | the loop returns the named rows of the ORFs of length at most 303, in order |
| KmerModel.LetterIndex | src/ML.py:63 | letters.index(c) succeeds exactly for A, T, C and G and returns c's position in the letter list |
| KmerModel.Pow4 | src/ML.py:14 | 4^k is positive |
| KmerModel.Weights | src/ML.py:13 | multiplyBy holds 4^(k-1), ..., 4^0 |
| KmerModel.KmerDigits | src/ML.py:61-63 | the digits exist exactly when every letter is A, T, C or G, with one digit per letter naming it |
| KmerModel.DigitsValueBound | src/ML.py:67 | k base-4 digits give a number below 4^k |
| KmerModel.Dot | src/ML.py:67 | (digits * multiplyBy).sum(); DotWeights shows it is the base-4 value of the digits |
| KmerModel.DotWeights | src/ML.py:67 | the digits times multiplyBy, summed, is the base-4 value of the digits |
| KmerModel.KmerNumber | src/ML.py:57-69 | the numbering exists exactly when every letter is A, T, C or G, and then lies below 4^length |
| KmerModel.KmerOf | src/ML.py:57-69 | the k-mer numbered v has length k |
| KmerModel.KmerOfNumber | src/ML.py:57-69 | each number below 4^k is the numbering of the k-mer KmerOf gives it |
| KmerModel.NumberOfKmer | src/ML.py:57-69 | each k-mer is recovered from its numbering |
| KmerModel.KmerNumberInjective | src/ML.py:57-69 | two k-mers of the same length with the same numbering are equal |
| KmerModel.Zeros | src/ML.py:45 | np.zeros(n) has n entries, all zero |
| KmerModel.NumWindows | src/ML.py:43 | number_of_kmers = len(seq) - k + 1, with no window when that is not positive, as range() gives none |
| KmerModel.Window | src/ML.py:48 | the window seq[i:i+k] |
| KmerModel.KmerCounts | src/ML.py:45-50 | the count vector has 4^k entries |
| KmerModel.KmerCountsStep | src/ML.py:48-50 | one window step adds 1 at the window's numbering |
| KmerModel.KmerCountsDefined | src/ML.py:47-50 | counting succeeds exactly when every window is made of A, T, C and G |
| KmerModel.KmerCountsLetters | src/ML.py:47-50 | when counting succeeds, every window is made of A, T, C and G |
| KmerModel.LettersKmerCounts | src/ML.py:47-50 | when every window is made of A, T, C and G, counting succeeds |
| KmerModel.KmerCountsNoneStays | src/ML.py:47-50 | once a window raises, the whole count raises |
| KmerModel.KmerCountsLast | src/ML.py:47-50 | counts after m windows are those after m - 1 windows with one added at the last window's number |
| KmerModel.KmerCountsCount | src/ML.py:47-50 | entry j of the counts is the number of windows numbered j |
| KmerModel.SumZeros | src/ML.py:45 | the zero vector sums to 0 |
| KmerModel.KmerCountsSum | src/ML.py:47-50 | the counts add up to the number of windows |
| KmerModel.KmerCountsDefinedLetters | src/ML.py:43-50 | for 1 <= k <= len(seq), a sequence has counts exactly when all its letters are A, T, C or G |
| KmerModel.LettersFromWindows | src/ML.py:47-49 | when every window is made of A, T, C and G, so is the sequence |
| KmerModel.WindowsFromLetters | src/ML.py:47-49 | when the sequence is made of A, T, C and G, so is every window |
| KmerModel.Divide | src/ML.py:53 | division of the vector by a number divides each entry |
| KmerModel.SumDivide | src/ML.py:53 | dividing each entry divides the sum |
| KmerModel.KmerFeatureOfCounts | src/ML.py:43-55 | the feature is the counts, or in frequency mode the counts divided by len(seq) - k + 1 |
| KmerModel.FrequencyFeature | src/ML.py:33-55 | in frequency mode entry j is the share of windows numbered j, and the entries sum to 1 |
| KmerModel.KmerFeature | src/ML.py:33-55 | the feature of one sequence: the counts, or the counts divided by the number of windows, None where numbering raises; KmerFeatureOfCounts and FrequencyFeature characterise it |
| KmerModel.ListFeatures | src/ML.py:16-31 | the list has one feature vector per sequence |
| KmerModel.FeaturesDefinedAppend | src/ML.py:24-27 | two lists concatenated have features exactly when both have |
| KmerModel.FeaturesOfAppend | src/ML.py:24-27 | the features of two lists concatenated are the features of each, concatenated |
| KmerModel.ListFeaturesSpec | src/ML.py:16-31 | the list has features exactly when every upper-cased sequence has one, and then row i is the feature of sequence i |
| KmerModel.ListFeaturesStep | src/ML.py:24-27 | one loop step appends the feature of the next upper-cased sequence, or fails when that sequence raises |
| KmerModel.ListFeaturesNoneStays | src/ML.py:24-27 | once a sequence raises, the whole list raises |
| KmerModel.Predict | src/ML.py:71-75 | label 1 exactly when the score exceeds the threshold; the scores are returned unchanged; the probability is the score for label 1 and one minus it for label 0 |
| KmerModel.PredictConfidence | src/ML.py:73-74 | the reported probability is in [0, 1], above the threshold for a coding call and at least one minus the threshold for a noncoding call |
| KmerModel.DataLines | src/ML.py:98 | one data line per row, in order |
| KmerModel.ClassName | src/ML.py:85-88 | class_dic: 1 is 'coding', 0 is 'noncoding' |
| KmerModel.CsvFile.constructor | src/mipepid.py:10-12 | a new output file holds no lines |
| KmerModel.CsvFile.WriteHeader | src/mipepid.py:10-12 | writing the empty frame with its columns leaves the header line alone |
| KmerModel.CsvFile.AppendRows | src/ML.py:98 | appending in mode 'a' without a header adds one line per row after the old lines |
| KmerModel.Sequences | src/ML.py:91-92 | the sequence column holds each sORF's sequence, in order |
| KmerModel.LabelBatch | src/ML.py:84-98 | the rows predict_on_one_batch_and_write appends for a batch, None where featurizing raises; LabelBatchRows characterises it |
| KmerModel.RowOf | src/ML.py:94-97 | the row of one sORF: its columns, 'coding' when its score exceeds the threshold and 'noncoding' otherwise, and the probability of that class |
| KmerModel.LabelBatchRows | src/ML.py:84-98 | a batch is labelled exactly when every sORF has a row, and then row i is sORF i's own row |
| KmerModel.RowOfDefined | src/ML.py:84-98 | one sORF has a row exactly when its upper-cased sequence holds only A, T, C and G |
| KmerModel.LabelBatchFails | src/ML.py:84-98 | a batch fails exactly when some sORF's upper-cased sequence holds a letter other than A, T, C or G |
| KmerModel.RowsDefinedAppend | src/ML.py:84-98 | two batches concatenated have rows exactly when both have |
| KmerModel.RowsOfAppend | src/ML.py:84-98 | the rows of two batches concatenated are the rows of each, concatenated |
| KmerModel.RowsOfUnique | src/ML.py:84-98 | a batch has at most one list of rows |
| KmerModel.SOrfRowsSpec | src/ML.py:84-98 | the one-by-one rows exist exactly when every sORF has a row, and then row i is sORF i's row |
| KmerModel.LabelBatchIsSOrfRows | src/ML.py:84-98 | labelling a whole batch gives the same rows as labelling its sORFs one by one |
| KmerModel.SOrfRowsAppend | src/ML.py:84-98 | rows of a concatenation exist exactly when both parts have rows, and are the parts' rows concatenated |
| KmerModel.KmerFeaturization.constructor | src/ML.py:7-14 | kmer_featurization(k) stores k, the letters A, T, C, G, the weights 4^(k-1) .. 1 and n = 4^k |
| KmerModel.KmerFeaturization.KmerNumberingForOneKmer | src/ML.py:57-69 | the digit loop and weighted sum give the k-mer's base-4 numbering, or None where a letter is not in the list |
| KmerModel.KmerFeaturization.CountWindow | src/ML.py:48-50 | incrementing the array at a window's numbering advances the counts by that window |
| KmerModel.KmerFeaturization.CountKmers | src/ML.py:43-50 | the loop fills the array with the count of each k-mer over all windows, failing exactly when some window holds another letter |
| KmerModel.KmerFeaturization.ObtainKmerFeatureForOneSequence | src/ML.py:33-55 | the method returns the counts, or the frequencies in frequency mode, as KmerFeature defines them |
| KmerModel.KmerFeaturization.ObtainKmerFeatureForAListOfSequences | src/ML.py:16-31 | the method returns the feature of each upper-cased sequence, in order, or None when one raises |
| KmerModel.PredictOnOneBatchAndWrite | src/ML.py:84-98 | on success it appends the batch's rows to the file; when featurizing raises it reports failure and leaves the file unchanged |
| BatchPipeline.RecordSOrfsLongEnough | src/mipepid.py:22-25 | every sORF of a record has at least 4 letters, so its frequency feature is defined |
| BatchPipeline.RecordSOrfs | src/mipepid.py:22-25 | the sORFs of one record: the named short ORFs of its upper-cased sequence, with the default codons |
| BatchPipeline.AllSOrfs | src/mipepid.py:19-26 | the sORFs of the records, record after record, as all_sORFs accumulates them; AllSOrfsSplit and AllSOrfsStep characterise it |
| BatchPipeline.AllSOrfsLongEnough | src/mipepid.py:19-26 | every buffered sORF has at least 4 letters |
| BatchPipeline.LongEnoughAppend | src/mipepid.py:26 | adding a record's sORFs to the buffer keeps every sORF at least 4 letters long |
| BatchPipeline.LongEnoughFlatten | src/mipepid.py:28-35 | the batches written together keep every sORF at least 4 letters long |
| BatchPipeline.AllSOrfsSplit | src/mipepid.py:21-26 | the sORFs of the records are those of the first m followed by those of the rest |
| BatchPipeline.AllSOrfsStep | src/mipepid.py:21-26 | one loop pass adds the next record's sORFs after the earlier ones |
| BatchPipeline.SOrfRowsFlatten | src/mipepid.py:28-35 | classifying batch after batch gives the rows of the whole sequence of sORFs, and fails exactly when that does |
| BatchPipeline.DataLinesAppend | src/ML.py:98 | the lines of two row lists are the lines of each, concatenated |
| BatchPipeline.StartBuffered | src/mipepid.py:19 | before the first record, nothing is written and the buffer is empty |
| BatchPipeline.ScanRecord | src/mipepid.py:22-26 | scanning a record yields exactly that record's sORFs, each at least 4 letters long |
| BatchPipeline.BufferedAppend | src/mipepid.py:26-29 | the written batches followed by the grown buffer are the sORFs of the records seen so far |
| BatchPipeline.BufferedWritten | src/mipepid.py:29-31 | after a full buffer is written and emptied, the loop invariant holds again |
| BatchPipeline.BufferRecord | src/mipepid.py:21-32 | the record's sORFs join the buffer; a buffer of at most 1000 sORFs is kept and nothing is written; a larger one is written as one batch and emptied, or the pass fails, exactly when that batch has no rows; the file holds the header and the rows of the written batches, and the batches and buffer are the sORFs so far; on failure the file and the written batches are unchanged and the whole run has no rows; the pass is one BatchStep of the reference batching |
| BatchPipeline.WriteBatch | src/mipepid.py:30 | writing one more batch extends the file to the rows of all batches, or leaves it unchanged when the batch fails |
| BatchPipeline.Flush | src/mipepid.py:34-35 | a non-empty last buffer is written as one more batch, an empty one writes nothing; the file then holds the header and the rows of all sORFs, and the call fails exactly when those rows do not exist, which is when the last buffer is non-empty and has no rows; on failure the file still holds the header and the rows of the earlier batches |
| BatchPipeline.FailureSpreads | src/mipepid.py:28-35 | a batch that fails makes the rows of all the records fail |
| BatchPipeline.WrittenPrefix | src/mipepid.py:21-31 | the sORFs written before a record are the start of the sORFs of all the records |
| BatchPipeline.MiPepid | src/mipepid.py:8-36 | the run succeeds exactly when every sORF of every record can be classified, and then the file is the header and those rows in order and the batches written are exactly SourceBatches; on failure the batches written are the first of SourceBatches and the next one has no rows; in every case the file is the header followed by the rows of the batches written, which are the start of all the sORFs; every batch but the last has more than 1000 sORFs (after a failure, every written batch has) |
| BatchPipeline.BatchStep | src/mipepid.py:26-31 | one record's turn: its sORFs join the buffer, which is cut off as a batch when it holds more than 1000; BatchingStep and BatchingBuffered characterise it |
| BatchPipeline.Batching | src/mipepid.py:19-32 | the batches cut and the buffer left after the given records; BatchingBuffered characterises it |
| BatchPipeline.SourceBatches | src/mipepid.py:19-35 | the batches the driver classifies: those cut in the loop, then the non-empty remainder; SourceBatchesSpec characterises it |
| BatchPipeline.BatchingStep | src/mipepid.py:21-31 | the batching after one more record is one BatchStep with that record's sORFs |
| BatchPipeline.BatchingBuffered | src/mipepid.py:19-32 | after any records, the cut batches each hold more than 1000 sORFs, the buffer at most 1000, and together they are the records' sORFs in order |
| BatchPipeline.SourceBatchesSpec | src/mipepid.py:19-35 | the batches cover all the records' sORFs in order, none is empty, and every one but the last holds more than 1000 |
| BatchPipeline.BatchingGrows | src/mipepid.py:28-31 | one more record only adds batches after those already cut |
| BatchPipeline.BatchingPrefix | src/mipepid.py:21-31 | the batches cut after the first m records are the first batches cut after all of them |
| BatchPipeline.WrittenInSource | src/mipepid.py:28-35 | the batches cut in the loop are the first of the batches classified |
| BatchPipeline.CutInSource | src/mipepid.py:28-31 | a batch cut after record r is the next of the batches classified, after the ones cut before it |

## Left out

- Util.Upper: only ASCII characters are upper-cased, and every other character is kept. Python's `str.upper` also maps non-ASCII characters by Unicode rules: for example `'ß'` becomes `'SS'`, which changes the length and so the reading frames. The input is taken to be ASCII nucleotide letters.
- FASTA parsing (`SeqIO.parse`) is not modelled. The records are a parameter holding each record's ID and sequence.
- The pickled model and `load_model` are not modelled. `logr.predict_proba(X)[:, 1]` becomes a score function on a feature vector, and the threshold is a parameter.
- pandas DataFrame construction and CSV text formatting are not modelled. The output file is a sequence of lines: a header, then rows holding an sORF, its class name and its probability.
- The `print` progress messages and the command-line entry point of `src/mipepid.py` are not modelled.
- Floating point is modelled as exact real arithmetic. The vectors are `seq<real>`, and the counting loop uses an `array<real>`.
- `numpy` broadcasting and `int64` overflow are not modelled. For k = 4 the numbering stays below 256.
- OrfScanner.Orfs.constructor: requires every candidate codon to have three letters, as the default codon lists do. Longer or shorter codons in a custom list are not modelled.
- OrfScanner.Orfs.FindStopCodonStartingSites: requires three-letter stop codons, for the same reason.
- OrfScanner.Orfs.BreakSequenceIntoFragmentsByStopCodon: requires three-letter stop codons, for the same reason.
- OrfScanner.Orfs.FindStartingSitesOfAllStartCodons: requires three-letter start codons, for the same reason.
- OrfScanner.Orfs.AppendFrameOrfs: requires three-letter codons, for the same reason.
- OrfScanner.Orfs.AppendRegionOrfs: requires three-letter start codons, for the same reason.
- The loops of `ORFs.__init__` are split into the helper methods `AppendFrameOrfs`, `AppendRegionOrfs` and `AppendFragmentOrfs`. Together they run the same three nested loops in the same order.
- KmerModel.KmerFeaturization.ObtainKmerFeatureForOneSequence: requires k >= 1. With k = 0, numpy builds a float index and indexing raises.
- KmerModel.KmerFeaturization.ObtainKmerFeatureForOneSequence: requires len(seq) >= k in frequency mode. Shorter sequences would divide by zero or by a negative number of windows (NaN or -0.0 in numpy). Every sORF has at least 6 letters, so MiPepid never does this.
- KmerModel.KmerFeaturization.ObtainKmerFeatureForAListOfSequences: has the same two requirements, for each sequence.
- KmerModel.KmerFeaturization.KmerNumberingForOneKmer: requires the k-mer to have exactly k letters, which every window has. Other lengths meet numpy broadcasting, which is not modelled.
- KmerModel.PredictOnOneBatchAndWrite: requires every sORF to have at least 4 letters, which every scanned sORF has (`RecordSOrfsLongEnough`).
- KmerModel.Predict: the probability is stated only for scores in [0, 1], which `predict_proba` guarantees.
- BatchPipeline.MiPepid: requires the score function to return probabilities in [0, 1], as `predict_proba` does.
- A batch whose featurizing raises is modelled as `ok == false`, and the run stops there. The file keeps what earlier batches wrote. In Python the exception propagates out of `MiPepid`.
- `MiPepid`'s loop is split into `ScanRecord`, `BufferRecord` and `Flush`. The loop is verified against `SOrfRows`, the rows computed one sORF at a time. `LabelBatchIsSOrfRows` shows this equals labelling a whole batch.
