/** The driver of src/mipepid.py: scan every FASTA record for sORFs, buffer
    them, and classify and append them to the output CSV in batches.

    The FASTA parser, the pickled model and the file system are not
    modelled: the records are a parameter, the model is the score function
    and the threshold, and the output file is a CsvFile holding its lines. */
module BatchPipeline {
  import opened Util
  import opened OrfScanner
  import opened KmerModel

  /** One FASTA record: rec.id and str(rec.seq). */
  datatype Record = Record(id: string, sequence: string)

  /** The candidate codons ORFs uses when none are given. */
  const DefaultStartCodons: set<string> := {"ATG"}
  const DefaultStopCodons: set<string> := {"TAA", "TAG", "TGA"}

  /** A batch is classified and written once the buffer holds more than
      this many sORFs. */
  const BatchSize: nat := 1000

  /** The sORFs of one record: those of its upper-cased sequence, named after its ID. */
  function RecordSOrfs(rec: Record): seq<SOrf>
  {
    NamedSOrfs(ScanOrfs(Upper(rec.sequence), DefaultStartCodons, DefaultStopCodons), rec.id)
  }

  /** The sORFs of the records, record after record. */
  function AllSOrfs(records: seq<Record>): seq<SOrf>
  {
    FlatMap(RecordSOrfs, records)
  }

  /** Every sORF is at least two codons long, so each can be featurized. */
  lemma RecordSOrfsLongEnough(rec: Record)
    ensures LongEnough(RecordSOrfs(rec))
  {
    var dna := Upper(rec.sequence);
    ScanSOrfsValid(dna, DefaultStartCodons, DefaultStopCodons, rec.id);
    var r := RecordSOrfs(rec);
    forall i | 0 <= i < |r|
      ensures |r[i].sequence| >= FeatureK
    {
      assert r[i] in r;
    }
  }

  lemma {:induction false} AllSOrfsLongEnough(records: seq<Record>)
    ensures LongEnough(AllSOrfs(records))
  {
    if records != [] {
      var init := records[..|records| - 1];
      AllSOrfsLongEnough(init);
      RecordSOrfsLongEnough(records[|records| - 1]);
      LongEnoughAppend(AllSOrfs(init), RecordSOrfs(records[|records| - 1]));
    }
  }

  lemma LongEnoughAppend(a: seq<SOrf>, b: seq<SOrf>)
    requires LongEnough(a) && LongEnough(b)
    ensures LongEnough(a + b)
  {
    assert forall i :: 0 <= i < |a| + |b| ==> (a + b)[i] == if i < |a| then a[i] else b[i - |a|];
  }

  /** The sORFs of records split at m are those of the first m records
      followed by those of the rest. */
  lemma AllSOrfsSplit(records: seq<Record>, m: nat)
    requires m <= |records|
    ensures AllSOrfs(records) == AllSOrfs(records[..m]) + AllSOrfs(records[m..])
  {
    assert records == records[..m] + records[m..];
    FlatMapAppend(RecordSOrfs, records[..m], records[m..]);
  }

  lemma AllSOrfsStep(records: seq<Record>, m: nat)
    requires m < |records|
    ensures AllSOrfs(records[..m + 1]) == AllSOrfs(records[..m]) + RecordSOrfs(records[m])
  {
    assert records[..m + 1][..m] == records[..m];
  }

  lemma {:induction false} LongEnoughFlatten(batches: seq<seq<SOrf>>)
    requires forall t :: 0 <= t < |batches| ==> LongEnough(batches[t])
    ensures LongEnough(Flatten(batches))
  {
    if batches != [] {
      LongEnoughFlatten(batches[..|batches| - 1]);
      LongEnoughAppend(Flatten(batches[..|batches| - 1]), batches[|batches| - 1]);
    }
  }

  /** The rows written when the batches are classified one after another:
      None as soon as one batch fails. */
  function BatchRows(batches: seq<seq<SOrf>>, score: seq<real> -> real, threshold: real): Option<seq<Row>>
    requires forall t :: 0 <= t < |batches| ==> LongEnough(batches[t])
  {
    if batches == [] then Some([])
    else
      match BatchRows(batches[..|batches| - 1], score, threshold)
      case None => None
      case Some(rs) =>
        match SOrfRows(batches[|batches| - 1], score, threshold)
        case None => None
        case Some(last) => Some(rs + last)
  }

  /** Batching invariance: however the sORFs are cut into batches, writing
      the batches one after another gives the rows of the whole sequence,
      and fails exactly when the whole sequence does. */
  lemma {:induction false} SOrfRowsFlatten(batches: seq<seq<SOrf>>, score: seq<real> -> real, threshold: real)
    requires forall t :: 0 <= t < |batches| ==> LongEnough(batches[t])
    ensures LongEnough(Flatten(batches))
    ensures SOrfRows(Flatten(batches), score, threshold) == BatchRows(batches, score, threshold)
  {
    LongEnoughFlatten(batches);
    if batches != [] {
      var init := batches[..|batches| - 1];
      var last := batches[|batches| - 1];
      SOrfRowsFlatten(init, score, threshold);
      SOrfRowsAppend(Flatten(init), last, score, threshold);
    }
  }

  lemma DataLinesAppend(a: seq<Row>, b: seq<Row>)
    ensures DataLines(a + b) == DataLines(a) + DataLines(b)
  {
  }

  /** What the loop of MiPepid keeps after r records: the batches written
      so far, each more than BatchSize sORFs, followed by the buffer, are
      the sORFs of those records. */
  predicate Buffered(records: seq<Record>, r: nat, batches: seq<seq<SOrf>>, buffer: seq<SOrf>)
    requires r <= |records|
  {
    && |buffer| <= BatchSize && LongEnough(buffer)
    && (forall t :: 0 <= t < |batches| ==> |batches[t]| > BatchSize && LongEnough(batches[t]))
    && Flatten(batches) + buffer == AllSOrfs(records[..r])
  }

  /** The output holds the header followed by the rows of the batches
      written so far, all of which were classified. */
  predicate Written(batches: seq<seq<SOrf>>, score: seq<real> -> real, threshold: real, lines: seq<Line>)
  {
    && LongEnough(Flatten(batches))
    && SOrfRows(Flatten(batches), score, threshold).Some?
    && lines == [Header] + DataLines(SOrfRows(Flatten(batches), score, threshold).value)
  }

  // ---------------------------------------------------------------------
  // The batches the driver cuts

  /** Where the loop of MiPepid stands: the batches written so far and the
      buffer all_sORFs. */
  datatype Progress = Progress(written: seq<seq<SOrf>>, buffer: seq<SOrf>)

  /** One record's turn: its sORFs join the buffer, and a buffer of more
      than BatchSize sORFs is written as one batch and emptied. */
  function BatchStep(p: Progress, more: seq<SOrf>): Progress
  {
    var grown := p.buffer + more;
    if |grown| > BatchSize then Progress(p.written + [grown], []) else Progress(p.written, grown)
  }

  /** Where the loop stands after the given records, when no batch fails. */
  function Batching(records: seq<Record>): Progress
  {
    if records == [] then Progress([], [])
    else BatchStep(Batching(records[..|records| - 1]), RecordSOrfs(records[|records| - 1]))
  }

  /** The batches MiPepid hands to the classifier when none fails: those cut
      in the loop, then what is left in the buffer, when anything is. */
  function SourceBatches(records: seq<Record>): seq<seq<SOrf>>
  {
    var p := Batching(records);
    if |p.buffer| > 0 then p.written + [p.buffer] else p.written
  }

  /** The batch has no rows: classifying it raises. */
  predicate BatchFails(batch: seq<SOrf>, score: seq<real> -> real, threshold: real)
  {
    LongEnough(batch) && SOrfRows(batch, score, threshold).None?
  }

  lemma BatchingStep(records: seq<Record>, r: nat)
    requires r < |records|
    ensures Batching(records[..r + 1]) == BatchStep(Batching(records[..r]), RecordSOrfs(records[r]))
  {
    assert records[..r + 1][..r] == records[..r];
  }

  /** After the given records the loop holds what Buffered describes. */
  lemma {:induction false} BatchingBuffered(records: seq<Record>)
    ensures Buffered(records, |records|, Batching(records).written, Batching(records).buffer)
  {
    if records == [] {
      assert records[..0] == [];
    } else {
      var n := |records| - 1;
      var init := records[..n];
      BatchingBuffered(init);
      assert init[..n] == records[..n];
      var p := Batching(init);
      var more := RecordSOrfs(records[n]);
      RecordSOrfsLongEnough(records[n]);
      AllSOrfsStep(records, n);
      BufferedAppend(records, n, p.written, p.buffer, more);
      assert records[..n + 1] == records;
      if |p.buffer + more| > BatchSize {
        BufferedWritten(records, n + 1, p.written, p.buffer + more);
      }
    }
  }

  /** The batches cover the sORFs of the records in order; none is empty,
      and every one but the last holds more than BatchSize sORFs. */
  lemma SourceBatchesSpec(records: seq<Record>)
    ensures Flatten(SourceBatches(records)) == AllSOrfs(records)
    ensures forall t :: 0 <= t < |SourceBatches(records)| ==> |SourceBatches(records)[t]| > 0
    ensures forall t :: 0 <= t < |SourceBatches(records)| - 1 ==> |SourceBatches(records)[t]| > BatchSize
  {
    var p := Batching(records);
    BatchingBuffered(records);
    assert records[..|records|] == records;
    var s := SourceBatches(records);
    if |p.buffer| > 0 {
      FlattenAppend(p.written, p.buffer);
      forall t | 0 <= t < |s|
        ensures |s[t]| > 0
      {
        if t < |p.written| {
          assert s[t] == p.written[t];
        }
      }
    } else {
      assert Flatten(p.written) + p.buffer == Flatten(p.written);
    }
  }

  /** One more record only adds batches after those already written. */
  lemma BatchingGrows(records: seq<Record>, r: nat)
    requires r < |records|
    ensures Batching(records[..r]).written <= Batching(records[..r + 1]).written
  {
    BatchingStep(records, r);
    var p := Batching(records[..r]);
    var grown := p.buffer + RecordSOrfs(records[r]);
    if |grown| > BatchSize {
      PrefixAppend(p.written, [grown]);
    }
  }

  /** The batches written after the first m records are the first batches
      written after all of them. */
  lemma {:induction false} BatchingPrefix(records: seq<Record>, m: nat)
    requires m <= |records|
    ensures Batching(records[..m]).written <= Batching(records).written
    decreases |records| - m
  {
    if m == |records| {
      assert records[..m] == records;
    } else {
      BatchingPrefix(records, m + 1);
      BatchingGrows(records, m);
      var a := Batching(records[..m]).written;
      var b := Batching(records[..m + 1]).written;
      var c := Batching(records).written;
      assert a <= b && b <= c;
    }
  }

  /** The batches cut in the loop are the first of the source's batches. */
  lemma WrittenInSource(records: seq<Record>)
    ensures Batching(records).written <= SourceBatches(records)
  {
    var p := Batching(records);
    if |p.buffer| > 0 {
      PrefixAppend(p.written, [p.buffer]);
    }
  }

  /** A batch cut in the loop after record r is the next of the source's
      batches after those written before it. */
  lemma CutInSource(records: seq<Record>, r: nat, batches: seq<seq<SOrf>>, batch: seq<SOrf>)
    requires r < |records|
    requires Batching(records[..r + 1]).written == batches + [batch]
    ensures |batches| < |SourceBatches(records)|
    ensures SourceBatches(records)[..|batches|] == batches && SourceBatches(records)[|batches|] == batch
  {
    BatchingPrefix(records, r + 1);
    WrittenInSource(records);
    PrefixTrans(batches + [batch], Batching(records).written, SourceBatches(records));
    PrefixNext(batches, batch, SourceBatches(records));
  }

  /** MiPepid(input_fname, output_fname): write the header, then for each
      record add its sORFs to the buffer and, whenever the buffer holds more
      than 1000 sORFs, classify and append them and empty the buffer; at the
      end classify and append what is left. ok is false where classifying a
      batch raises, which ends the run and leaves the file as the earlier
      batches wrote it. batches records the batches written, in order. */
  method MiPepid(records: seq<Record>, score: seq<real> -> real, threshold: real, out: CsvFile)
    returns (ok: bool, ghost batches: seq<seq<SOrf>>)
    requires forall x :: 0.0 <= score(x) <= 1.0
    modifies out
    ensures LongEnough(AllSOrfs(records))
    ensures |out.lines| >= 1 && out.lines[0] == Header
    ensures ok == SOrfRows(AllSOrfs(records), score, threshold).Some?
    ensures ok ==> out.lines == [Header] + DataLines(SOrfRows(AllSOrfs(records), score, threshold).value)
    ensures ok ==> Flatten(batches) == AllSOrfs(records)
    ensures Flatten(batches) <= AllSOrfs(records)
    ensures LongEnough(Flatten(batches)) && SOrfRows(Flatten(batches), score, threshold).Some?
    ensures out.lines == [Header] + DataLines(SOrfRows(Flatten(batches), score, threshold).value)
    ensures forall t :: 0 <= t < |batches| ==> |batches[t]| > 0
    ensures forall t :: 0 <= t < |batches| - 1 ==> |batches[t]| > BatchSize
    ensures !ok ==> forall t :: 0 <= t < |batches| ==> |batches[t]| > BatchSize
    ensures ok ==> batches == SourceBatches(records)
    ensures !ok ==> |batches| < |SourceBatches(records)| && SourceBatches(records)[..|batches|] == batches
    ensures !ok ==> BatchFails(SourceBatches(records)[|batches|], score, threshold)
  {
    out.WriteHeader();
    var allSOrfs: seq<SOrf> := [];
    batches := [];
    StartBuffered(records);
    assert Written(batches, score, threshold, out.lines) by {
      assert SOrfRows([], score, threshold) == Some([]);
    }
    for r := 0 to |records|
      invariant Buffered(records, r, batches, allSOrfs)
      invariant Written(batches, score, threshold, out.lines)
      invariant Batching(records[..r]) == Progress(batches, allSOrfs)
    {
      BatchingStep(records, r);
      ghost var before := batches;
      ghost var grown := allSOrfs + RecordSOrfs(records[r]);
      ok, batches, allSOrfs := BufferRecord(records, r, batches, allSOrfs, score, threshold, out);
      if !ok {
        CutInSource(records, r, before, grown);
        return;
      }
    }
    assert records[..|records|] == records;
    ghost var written := batches;
    ghost var left := allSOrfs;
    ok, batches := Flush(batches, allSOrfs, score, threshold, out);
    PrefixAppend(Flatten(batches), allSOrfs);
    if !ok {
      assert SourceBatches(records) == written + [left];
    }
  }

  lemma StartBuffered(records: seq<Record>)
    ensures Buffered(records, 0, [], [])
  {
    assert records[..0] == [];
  }

  /** One turn of the loop of MiPepid: scan record r into the buffer, and
      write the buffer as a batch once it holds more than BatchSize sORFs. */
  method BufferRecord(records: seq<Record>, r: nat, ghost batches: seq<seq<SOrf>>, buffer: seq<SOrf>,
                      score: seq<real> -> real, threshold: real, out: CsvFile)
    returns (ok: bool, ghost batches': seq<seq<SOrf>>, buffer': seq<SOrf>)
    requires r < |records|
    requires forall x :: 0.0 <= score(x) <= 1.0
    requires Buffered(records, r, batches, buffer)
    requires Written(batches, score, threshold, out.lines)
    modifies out
    ensures ok ==> Buffered(records, r + 1, batches', buffer')
    ensures Written(batches', score, threshold, out.lines)
    ensures !ok ==> batches' == batches && out.lines == old(out.lines)
    ensures !ok ==> Flatten(batches') <= AllSOrfs(records)
    ensures !ok ==> LongEnough(AllSOrfs(records))
    ensures !ok ==> SOrfRows(AllSOrfs(records), score, threshold).None?
    ensures LongEnough(buffer + RecordSOrfs(records[r]))
    ensures |buffer + RecordSOrfs(records[r])| <= BatchSize ==>
      ok && batches' == batches && buffer' == buffer + RecordSOrfs(records[r]) && out.lines == old(out.lines)
    ensures ok && |buffer + RecordSOrfs(records[r])| > BatchSize ==>
      batches' == batches + [buffer + RecordSOrfs(records[r])] && buffer' == []
    ensures !ok ==> |buffer + RecordSOrfs(records[r])| > BatchSize
    ensures !ok ==> BatchFails(buffer + RecordSOrfs(records[r]), score, threshold)
    ensures ok ==> Progress(batches', buffer') == BatchStep(Progress(batches, buffer), RecordSOrfs(records[r]))
    ensures !ok ==>
      BatchStep(Progress(batches, buffer), RecordSOrfs(records[r])).written == batches + [buffer + RecordSOrfs(records[r])]
  {
    var thisSOrfs := ScanRecord(records, r);
    buffer' := buffer + thisSOrfs;
    batches' := batches;
    ok := true;
    BufferedAppend(records, r, batches, buffer, thisSOrfs);
    if |buffer'| > BatchSize {
      ok := WriteBatch(batches, buffer', score, threshold, out);
      if !ok {
        FailureSpreads(records, r + 1, Flatten(batches), buffer', score, threshold);
        WrittenPrefix(records, r, Flatten(batches), buffer);
        return;
      }
      BufferedWritten(records, r + 1, batches, buffer');
      batches' := batches + [buffer'];
      buffer' := [];
    }
  }

  /** Adding the sORFs of record r to the buffer keeps what the loop keeps,
      while the buffer is not over BatchSize. */
  lemma BufferedAppend(records: seq<Record>, r: nat, batches: seq<seq<SOrf>>, buffer: seq<SOrf>, more: seq<SOrf>)
    requires r < |records|
    requires Buffered(records, r, batches, buffer)
    requires AllSOrfs(records[..r + 1]) == AllSOrfs(records[..r]) + more && LongEnough(more)
    ensures LongEnough(buffer + more)
    ensures |buffer + more| <= BatchSize ==> Buffered(records, r + 1, batches, buffer + more)
    ensures Flatten(batches) + (buffer + more) == AllSOrfs(records[..r + 1])
  {
    LongEnoughAppend(buffer, more);
    AppendAssoc(Flatten(batches), buffer, more);
  }

  /** Writing the buffer as a batch leaves an empty buffer. */
  lemma BufferedWritten(records: seq<Record>, r: nat, batches: seq<seq<SOrf>>, buffer: seq<SOrf>)
    requires r <= |records|
    requires |buffer| > BatchSize && LongEnough(buffer)
    requires forall t :: 0 <= t < |batches| ==> |batches[t]| > BatchSize && LongEnough(batches[t])
    requires Flatten(batches) + buffer == AllSOrfs(records[..r])
    ensures Buffered(records, r, batches + [buffer], [])
  {
    FlattenAppend(batches, buffer);
    var written := batches + [buffer];
    forall t | 0 <= t < |written|
      ensures |written[t]| > BatchSize && LongEnough(written[t])
    {
      if t < |batches| {
        assert written[t] == batches[t];
      }
    }
    assert Flatten(written) + [] == Flatten(written);
  }

  /** The end of MiPepid: write what is left in the buffer as a last batch,
      so that the batches written are the sORFs written before followed by
      the buffer. */
  method Flush(ghost batches: seq<seq<SOrf>>, buffer: seq<SOrf>,
               score: seq<real> -> real, threshold: real, out: CsvFile)
    returns (ok: bool, ghost batches': seq<seq<SOrf>>)
    requires forall x :: 0.0 <= score(x) <= 1.0
    requires LongEnough(buffer)
    requires forall t :: 0 <= t < |batches| ==> |batches[t]| > BatchSize && LongEnough(batches[t])
    requires Written(batches, score, threshold, out.lines)
    modifies out
    ensures LongEnough(Flatten(batches) + buffer)
    ensures |out.lines| >= 1 && out.lines[0] == Header
    ensures ok == SOrfRows(Flatten(batches) + buffer, score, threshold).Some?
    ensures ok ==> out.lines == [Header] + DataLines(SOrfRows(Flatten(batches) + buffer, score, threshold).value)
    ensures ok ==> Flatten(batches') == Flatten(batches) + buffer
    ensures !ok ==> batches' == batches && out.lines == old(out.lines)
    ensures ok ==> batches' == if |buffer| > 0 then batches + [buffer] else batches
    ensures !ok ==> |buffer| > 0 && BatchFails(buffer, score, threshold)
    ensures Written(batches', score, threshold, out.lines)
    ensures forall t :: 0 <= t < |batches'| ==> |batches'[t]| > 0
    ensures forall t :: 0 <= t < |batches'| - 1 ==> |batches'[t]| > BatchSize
  {
    batches' := batches;
    if |buffer| > 0 {
      ok := WriteBatch(batches, buffer, score, threshold, out);
      FlattenAppend(batches, buffer);
      if !ok {
        SOrfRowsAppend(Flatten(batches), buffer, score, threshold);
        return;
      }
      batches' := batches + [buffer];
    } else {
      assert Flatten(batches) + buffer == Flatten(batches);
      ok := true;
    }
  }

  /** The sORFs of record r, found with an ORFs object on its upper-cased
      sequence and named after its ID: appended to the sORFs of the records
      before it, they give the sORFs of the records up to r. */
  method ScanRecord(records: seq<Record>, r: nat) returns (sorfs: seq<SOrf>)
    requires r < |records|
    ensures sorfs == RecordSOrfs(records[r])
    ensures AllSOrfs(records[..r + 1]) == AllSOrfs(records[..r]) + sorfs
    ensures LongEnough(sorfs)
  {
    var rec := records[r];
    var dnaSeq := Upper(rec.sequence);
    var objOrfs := new Orfs(dnaSeq, DefaultStartCodons, DefaultStopCodons);
    sorfs := CollectAndNameSOrfs(objOrfs, rec.id);
    RecordSOrfsLongEnough(rec);
    AllSOrfsStep(records, r);
  }

  /** One call of predict_on_one_batch_and_write on the buffer, with what
      it means for the whole of what has been written. */
  method WriteBatch(ghost batches: seq<seq<SOrf>>, batch: seq<SOrf>, score: seq<real> -> real, threshold: real, out: CsvFile)
    returns (ok: bool)
    requires forall x :: 0.0 <= score(x) <= 1.0
    requires forall t :: 0 <= t < |batches| ==> LongEnough(batches[t])
    requires LongEnough(batch) && LongEnough(Flatten(batches))
    requires SOrfRows(Flatten(batches), score, threshold).Some?
    requires out.lines == [Header] + DataLines(SOrfRows(Flatten(batches), score, threshold).value)
    modifies out
    ensures ok == SOrfRows(batch, score, threshold).Some?
    ensures LongEnough(Flatten(batches + [batch]))
    ensures ok ==> SOrfRows(Flatten(batches + [batch]), score, threshold).Some?
    ensures ok ==> out.lines == [Header] + DataLines(SOrfRows(Flatten(batches + [batch]), score, threshold).value)
    ensures !ok ==> out.lines == old(out.lines)
  {
    ghost var done := SOrfRows(Flatten(batches), score, threshold).value;
    ok := PredictOnOneBatchAndWrite(batch, score, threshold, out);
    LabelBatchIsSOrfRows(batch, score, threshold);
    FlattenAppend(batches, batch);
    SOrfRowsAppend(Flatten(batches), batch, score, threshold);
    if ok {
      ghost var rows := SOrfRows(batch, score, threshold).value;
      assert out.lines == ([Header] + DataLines(done)) + DataLines(rows);
      DataLinesAppend(done, rows);
      AppendAssoc([Header], DataLines(done), DataLines(rows));
      assert SOrfRows(Flatten(batches + [batch]), score, threshold).value == done + rows;
    }
  }

  /** The sORFs written before record r are the start of the sORFs of all
      the records. */
  lemma WrittenPrefix(records: seq<Record>, r: nat, done: seq<SOrf>, rest: seq<SOrf>)
    requires r <= |records|
    requires done + rest == AllSOrfs(records[..r])
    ensures done <= AllSOrfs(records)
  {
    AllSOrfsSplit(records, r);
    AppendAssoc(done, rest, AllSOrfs(records[r..]));
    PrefixAppend(done, rest + AllSOrfs(records[r..]));
  }

  /** A batch that fails makes the sORFs of all the records fail. */
  lemma FailureSpreads(records: seq<Record>, m: nat, done: seq<SOrf>, batch: seq<SOrf>, score: seq<real> -> real, threshold: real)
    requires m <= |records|
    requires LongEnough(done) && LongEnough(batch)
    requires done + batch == AllSOrfs(records[..m])
    requires SOrfRows(batch, score, threshold).None?
    ensures LongEnough(AllSOrfs(records))
    ensures SOrfRows(AllSOrfs(records), score, threshold).None?
  {
    AllSOrfsLongEnough(records);
    AllSOrfsLongEnough(records[m..]);
    SOrfRowsAppend(done, batch, score, threshold);
    AllSOrfsSplit(records, m);
    LongEnoughAppend(done, batch);
    SOrfRowsAppend(done + batch, AllSOrfs(records[m..]), score, threshold);
  }
}
