/** Reading back what a batch wrote: every pointer it returned leads to its own payload, and
    no byte outside its runs changed.
 */
module BatchRead {
  import T = Trie
  import C = CodeLog
  import opened Regions
  import opened Packer
  import opened RegionScan
  import opened PackerTiles
  import F = FlatFile

  /** The bytes of the file; what was never written reads as zero. */
  function ReadBytes(file: File, off: nat, n: nat): (b: Bytes)
    ensures |b| == n && forall i :: 0 <= i < n ==> b[i] == ByteAt(file, off + i)
  {
    seq<Byte>(n, i requires 0 <= i => ByteAt(file, off + i))
  }

  function ByteAt(file: File, x: nat): Byte {
    if x in file then file[x] else 0
  }

  /** The payload behind a pointer, past the record header. */
  function ReadPayload(file: File, p: Ptr): Bytes {
    ReadBytes(file, p.unit * ADDR_UNIT + RECORD_HDR, p.len)
  }

  lemma {:induction false} Elsewhere(file: File, runs: seq<Packed>, x: nat)
    requires F.RunsOk(runs) && forall k :: 0 <= k < |runs| ==> !F.Over(runs[k], x)
    ensures ByteAt(WriteRuns(file, runs), x) == ByteAt(file, x)
    decreases |runs|
  {
    if runs != [] {
      hide Image, TotalUnits;
      var next := Put(file, runs[0].base * ADDR_UNIT, Image(runs[0]));
      assert forall k :: 0 <= k < |runs[1..]| ==> runs[1..][k] == runs[k + 1];
      assert !F.Over(runs[0], x);
      Elsewhere(next, runs[1..], x);
    }
  }

  lemma PutThere(file: File, off: nat, buf: Bytes, i: nat)
    requires i < |buf|
    ensures ByteAt(Put(file, off, buf), off + i) == buf[i]
  {
    assert Within(off + i, off, |buf|);
  }

  /** A record of the first run is there once the run is written, and stays. */
  lemma FirstRunReads(file: File, runs: seq<Packed>, k: nat)
    requires runs != [] && F.RunsOk(runs) && Disjoint(runs) && k < |runs[0].recs|
    ensures ReadPayload(WriteRuns(file, runs), PtrsFrom(runs[0].base, runs[0].recs)[k]) == runs[0].recs[k]
  {
    hide TotalUnits, Image, Frame, RecUnits, Put, PtrsFrom;
    var r := runs[0];
    var u, rec, off := TotalUnits(r.recs[..k]), r.recs[k], r.base * ADDR_UNIT;
    assert RunOk(r);
    PtrIs(r.base, r.recs, k);
    FrameInImage(r, k);
    FrameParts(rec);
    var image, p := Image(r), PtrsFrom(r.base, r.recs)[k];
    var got := ReadPayload(WriteRuns(file, runs), p);
    SliceOf(image, u * ADDR_UNIT, Frame(rec), 4, 4 + |rec|);
    forall i | 0 <= i < |rec| ensures got[i] == rec[i] {
      var at := u * ADDR_UNIT + 4 + i;
      PutThere(file, off, image, at);
      LaterRunsMiss(runs, off + at);
      Elsewhere(Put(file, off, image), runs[1..], off + at);
      assert image[u * ADDR_UNIT + 4..u * ADDR_UNIT + 4 + |rec|][i] == image[at];
    }
  }

  lemma LaterRunsMiss(runs: seq<Packed>, x: nat)
    requires runs != [] && Disjoint(runs) && F.Over(runs[0], x)
    ensures forall k :: 0 <= k < |runs[1..]| ==> !F.Over(runs[1..][k], x)
  {
    forall k | 0 <= k < |runs[1..]| ensures !F.Over(runs[1..][k], x) {
      assert RunsApart(runs[0], runs[k + 1]);
    }
  }

  lemma {:induction false} RunsRead(file: File, runs: seq<Packed>, i: nat)
    requires F.RunsOk(runs) && Disjoint(runs) && i < |RecsOf(runs)| == |PtrsOf(runs)|
    ensures ReadPayload(WriteRuns(file, runs), PtrsOf(runs)[i]) == RecsOf(runs)[i]
    decreases |runs|
  {
    var r := runs[0];
    if i < |r.recs| {
      FirstRunReads(file, runs, i);
    } else {
      var next := Put(file, r.base * ADDR_UNIT, Image(r));
      RestOk(runs);
      PtrsOfApart(runs[1..]);
      RunsRead(next, runs[1..], i - |r.recs|);
    }
  }

  lemma RestOk(runs: seq<Packed>)
    requires runs != [] && F.RunsOk(runs) && Disjoint(runs)
    ensures F.RunsOk(runs[1..]) && Disjoint(runs[1..])
  {
    hide TotalUnits;
  }

  /** A batch reads back: the pointer of every payload leads to that payload, whatever else
      the batch wrote; and a byte outside its runs is what it was. */
  lemma BatchReadsBack(file: File, a: Alloc, ps: seq<Bytes>, direct: bool, i: nat, x: nat)
    requires Ok(a) && AllFit(ps)
    ensures var runs := Plan(a, ps, direct).runs;
      && F.RunsOk(runs) && |PtrsOf(runs)| == |ps|
      && (i < |ps| ==> ReadPayload(WriteRuns(file, runs), PtrsOf(runs)[i]) == ps[i])
      && ((forall k :: 0 <= k < |runs| ==> !F.Over(runs[k], x)) ==> ByteAt(WriteRuns(file, runs), x) == ByteAt(file, x))
  {
    hide ListsOk, PinsOk, HeadOk, TotalUnits, Plan, Disjoint, WriteRuns, PtrsOf, RecsOf, ReadPayload;
    var runs := Plan(a, ps, direct).runs;
    PlanIsDisjoint(a, ps, direct);
    BatchPointers(a, ps, direct);
    PlanRecs(a, ps, direct);
    if i < |ps| {
      RunsRead(file, runs, i);
    }
    if forall k :: 0 <= k < |runs| ==> !F.Over(runs[k], x) {
      Elsewhere(file, runs, x);
    }
  }
}
