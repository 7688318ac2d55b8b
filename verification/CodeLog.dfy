/** The bytecode store: an append log of records `hash, length, code`, with an index that
    is rebuilt by scanning the log on open.  A crash may cut the log at any byte; opening
    keeps the completely written records and truncates the torn tail.
 */
module CodeLog {
  import opened Trie

  const HEADER: nat := 36
  const U32: nat := 0x1_0000_0000

  type Keccak = Bytes -> Bytes

  ghost predicate HashOk(k: Keccak) {
    forall c :: |k(c)| == 32
  }

  // ---------------------------------------------------------------------- format

  /** The low 32 bits, least significant byte first. */
  function Le32(n: nat): (b: Bytes)
    ensures |b| == 4 && FromLe32(b) == n % U32
  {
    var n1 := n / 256;
    var n2 := n1 / 256;
    var n3 := n2 / 256;
    FourDigits(n, n1, n2, n3, n3 / 256, n % 256, n1 % 256, n2 % 256, n3 % 256);
    [n % 256, n1 % 256, n2 % 256, n3 % 256]
  }

  lemma FourDigits(n: nat, n1: nat, n2: nat, n3: nat, n4: nat, d0: Byte, d1: Byte, d2: Byte, d3: Byte)
    requires n == 256 * n1 + d0 && n1 == 256 * n2 + d1 && n2 == 256 * n3 + d2 && n3 == 256 * n4 + d3
    ensures n % U32 == (d0 as int) + 256 * (d1 as int) + 65536 * (d2 as int) + 16777216 * (d3 as int)
  {
    var s := (d0 as int) + 256 * (d1 as int) + 65536 * (d2 as int) + 16777216 * (d3 as int);
    assert n == U32 * n4 + s && 0 <= s < U32;
  }

  function FromLe32(b: Bytes): (n: nat)
    requires |b| == 4
    ensures n < U32
  {
    (b[0] as int) + 256 * (b[1] as int) + 65536 * (b[2] as int) + 16777216 * (b[3] as int)
  }

  function Record(k: Keccak, code: Bytes): Bytes {
    k(code) + Le32(|code|) + code
  }

  /** The record byte by byte: 32 bytes of hash, the length in four bytes with the lowest first,
      the code. */
  lemma RecordFormat(k: Keccak, code: Bytes)
    requires HashOk(k)
    ensures var b := Record(k, code);
      && |b| == HEADER + |code| && b[..32] == k(code) && b[36..] == code
      && (b[32] as int) + 256 * (b[33] as int) + 65536 * (b[34] as int) + 16777216 * (b[35] as int) == |code| % U32
  {
    var b, n := Record(k, code), Le32(|code|);
    assert b == k(code) + (n + code);
    assert b[32..36] == n;
    assert b[32] == n[0] && b[33] == n[1] && b[34] == n[2] && b[35] == n[3];
  }

  /** The log after these codes were appended in order. */
  function Log(k: Keccak, codes: seq<Bytes>): Bytes {
    if codes == [] then [] else Log(k, codes[..|codes| - 1]) + Record(k, codes[|codes| - 1])
  }

  datatype Extent = Extent(off: nat, len: nat)

  /** Where each hash's code lies in the log. */
  function IndexOf(k: Keccak, codes: seq<Bytes>): map<Bytes, Extent> {
    if codes == [] then map[]
    else
      var init, last := codes[..|codes| - 1], codes[|codes| - 1];
      IndexOf(k, init)[k(last) := Extent(|Log(k, init)| + HEADER, |last|)]
  }

  /** A log written by puts: no empty code, no hash twice, every length fits its field. */
  ghost predicate Kept(k: Keccak, codes: seq<Bytes>) {
    && (forall i :: 0 <= i < |codes| ==> 0 < |codes[i]| < U32)
    && (forall i, j :: 0 <= i < j < |codes| ==> k(codes[i]) != k(codes[j]))
  }

  lemma {:induction false} IndexKeys(k: Keccak, codes: seq<Bytes>, h: Bytes)
    ensures h in IndexOf(k, codes) <==> exists i :: 0 <= i < |codes| && k(codes[i]) == h
  {
    hide Log;
    if codes != [] {
      var init, last := codes[..|codes| - 1], codes[|codes| - 1];
      IndexKeys(k, init, h);
      assert forall i :: 0 <= i < |init| ==> init[i] == codes[i];
      if h in IndexOf(k, init) {
        var i :| 0 <= i < |init| && k(init[i]) == h;
        assert k(codes[i]) == h;
      }
      if k(last) == h {
        assert k(codes[|codes| - 1]) == h;
      }
    }
  }

  lemma {:induction false} LogPrefix(k: Keccak, codes: seq<Bytes>, m: nat)
    requires m <= |codes|
    ensures Log(k, codes[..m]) <= Log(k, codes)
    decreases |codes|
  {
    if m == |codes| {
      assert codes[..m] == codes;
    } else {
      LogPrefix(k, codes[..|codes| - 1], m);
      assert codes[..|codes| - 1][..m] == codes[..m];
    }
  }

  lemma LogStep(k: Keccak, codes: seq<Bytes>, m: nat)
    requires m < |codes|
    ensures Log(k, codes[..m + 1]) == Log(k, codes[..m]) + Record(k, codes[m])
    ensures IndexOf(k, codes[..m + 1]) == IndexOf(k, codes[..m])[k(codes[m]) := Extent(|Log(k, codes[..m])| + HEADER, |codes[m]|)]
  {
    assert codes[..m + 1][..m] == codes[..m];
  }

  /** The index leads to exactly the code of each hash. */
  lemma {:induction false} IndexReads(k: Keccak, codes: seq<Bytes>, i: nat)
    requires HashOk(k) && Kept(k, codes) && i < |codes|
    ensures k(codes[i]) in IndexOf(k, codes)
    ensures var x := IndexOf(k, codes)[k(codes[i])]; x.off + x.len <= |Log(k, codes)| && Log(k, codes)[x.off..x.off + x.len] == codes[i]
    decreases |codes|
  {
    hide Log, IndexOf, Record;
    var init, last := codes[..|codes| - 1], codes[|codes| - 1];
    LogStep(k, codes, |codes| - 1);
    assert codes[..|codes|] == codes;
    if i < |init| {
      assert init[i] == codes[i];
      IndexReads(k, init, i);
      assert k(last) != k(codes[i]);
      var x := IndexOf(k, init)[k(codes[i])];
      assert Log(k, codes)[x.off..x.off + x.len] == Log(k, init)[x.off..x.off + x.len];
    } else {
      RecordEnds(k, Log(k, init), last);
    }
  }

  lemma RecordEnds(k: Keccak, log: Bytes, code: Bytes)
    requires HashOk(k)
    ensures var at, all := |log| + HEADER, log + Record(k, code);
      |all| == at + |code| && all[at..at + |code|] == code
  {
    assert log + Record(k, code) == (log + k(code) + Le32(|code|)) + code;
  }

  // -------------------------------------------------------------------- recovery

  lemma NoLog(k: Keccak)
    ensures |Log(k, [])| == 0
  {
  }

  lemma WholeSlices(codes: seq<Bytes>)
    ensures codes[..|codes|] == codes && codes[..0] == []
    ensures codes != [] ==> forall m: nat :: m < |codes| ==> codes[..|codes| - 1][..m] == codes[..m]
  {
  }

  /** How many of the codes lie completely before the cut. */
  ghost function Complete(k: Keccak, codes: seq<Bytes>, cut: nat): (m: nat)
    ensures m <= |codes| && |Log(k, codes[..m])| <= cut
    ensures m < |codes| ==> cut < |Log(k, codes[..m + 1])|
    decreases |codes|
  {
    NoLog(k);
    WholeSlices(codes);
    if codes == [] then 0
    else if |Log(k, codes)| <= cut then |codes|
    else Complete(k, codes[..|codes| - 1], cut)
  }

  lemma {:induction false} LogGrows(k: Keccak, codes: seq<Bytes>, i: nat, j: nat)
    requires i <= j <= |codes|
    ensures |Log(k, codes[..i])| <= |Log(k, codes[..j])|
    decreases j
  {
    if i < j {
      LogGrows(k, codes, i, j - 1);
      LogStep(k, codes, j - 1);
    }
  }

  /** Exactly the completely written codes are counted. */
  lemma CompleteIsExact(k: Keccak, codes: seq<Bytes>, cut: nat, i: nat)
    requires i < |codes|
    ensures i < Complete(k, codes, cut) <==> |Log(k, codes[..i + 1])| <= cut
  {
    hide Log;
    var m := Complete(k, codes, cut);
    if i < m {
      LogGrows(k, codes, i + 1, m);
    } else {
      LogGrows(k, codes, m + 1, i + 1);
    }
  }

  // ------------------------------------------------------------------------ scan

  datatype ReadOutcome = Full | Eof | Torn

  lemma Joins(file: Bytes, a: nat, b: nat, c: nat)
    requires a <= b <= c <= |file|
    ensures file[a..b] + file[b..c] == file[a..c]
  {
  }

  /** Fill a buffer of `want` bytes from `pos` on, in whatever chunks the file yields. */
  method ReadExactOrEof(file: Bytes, pos: nat, want: nat) returns (r: ReadOutcome, buf: Bytes)
    requires pos <= |file| && 0 < want
    ensures r.Eof? <==> pos == |file|
    ensures r.Full? <==> pos + want <= |file|
    ensures r.Full? ==> buf == file[pos..pos + want]
  {
    buf := [];
    while |buf| < want
      invariant |buf| <= want && pos + |buf| <= |file| && buf == file[pos..pos + |buf|]
      decreases want - |buf|
    {
      if pos + |buf| == |file| {
        return if |buf| == 0 then Eof else Torn, buf;
      }
      var most := if want <= |file| - pos then want - |buf| else |file| - pos - |buf|;
      var n: nat :| 0 < n <= most by { assert 0 < 1 <= most; }
      Joins(file, pos, pos + |buf|, pos + |buf| + n);
      buf := buf + file[pos + |buf|..pos + |buf| + n];
    }
    r := Full;
  }

  /** Reading one record of a cut log: it is there completely, or the log ends before its
      end, in its header or in its code. */
  lemma CutRecord(k: Keccak, codes: seq<Bytes>, cut: nat, m: nat)
    requires HashOk(k) && Kept(k, codes) && m <= Complete(k, codes, cut) && cut <= |Log(k, codes)|
    ensures var disk, at := Log(k, codes)[..cut], |Log(k, codes[..m])|;
      && at <= |disk| && disk[..at] == Log(k, codes[..m])
      && (m < Complete(k, codes, cut) ==>
        && at + HEADER + |codes[m]| <= |disk|
        && disk[at..at + 32] == k(codes[m]) && disk[at + 32..at + HEADER] == Le32(|codes[m]|))
      && (m == Complete(k, codes, cut) && at + HEADER <= |disk| ==>
        && m < |codes| && |disk| < at + HEADER + |codes[m]| && disk[at + 32..at + HEADER] == Le32(|codes[m]|))
  {
    hide Log, IndexOf, Record;
    var disk, at := Log(k, codes)[..cut], |Log(k, codes[..m])|;
    LogPrefix(k, codes, m);
    LogGrows(k, codes, m, Complete(k, codes, cut));
    assert disk[..at] == Log(k, codes)[..at];
    if m < |codes| {
      LogStep(k, codes, m);
      LogPrefix(k, codes, m + 1);
      RecordParts(k, codes[m]);
      if m < Complete(k, codes, cut) {
        LogGrows(k, codes, m + 1, Complete(k, codes, cut));
      }
      if at + HEADER <= |disk| {
        SliceOfRecord(Log(k, codes), cut, Log(k, codes[..m]), Record(k, codes[m]));
      }
    } else {
      assert codes[..m] == codes;
    }
  }

  lemma RecordParts(k: Keccak, code: Bytes)
    requires HashOk(k)
    ensures var r := Record(k, code); |r| == HEADER + |code| && r[..32] == k(code) && r[32..HEADER] == Le32(|code|)
  {
  }

  lemma SliceOfRecord(log: Bytes, cut: nat, before: Bytes, rec: Bytes)
    requires cut <= |log| && before + rec <= log && HEADER <= |rec| && |before| + HEADER <= cut
    ensures log[..cut][|before|..|before| + 32] == rec[..32]
    ensures log[..cut][|before| + 32..|before| + HEADER] == rec[32..HEADER]
  {
    assert forall i :: 0 <= i < HEADER ==> log[..cut][|before| + i] == rec[i];
  }

  /** The end of the record at `at`, if all of it is in the file. */
  function NextEnd(disk: Bytes, at: nat): (r: Option<nat>)
    ensures r.Some? ==> at + HEADER <= r.value <= |disk|
  {
    if at + HEADER <= |disk| && at + HEADER + FromLe32(disk[at + 32..at + HEADER]) <= |disk|
    then Some(at + HEADER + FromLe32(disk[at + 32..at + HEADER]))
    else None
  }

  /** Where the scan stops: at the first record that is not completely there. */
  function ScanEnd(disk: Bytes, at: nat): (end: nat)
    requires at <= |disk|
    ensures at <= end <= |disk|
    decreases |disk| - at
  {
    var next := NextEnd(disk, at);
    if next.None? then at else ScanEnd(disk, next.value)
  }

  function ScanIndex(disk: Bytes, at: nat, index: map<Bytes, Extent>): map<Bytes, Extent>
    requires at <= |disk|
    decreases |disk| - at
  {
    var next := NextEnd(disk, at);
    if next.None? then index
    else ScanIndex(disk, next.value, index[disk[at..at + 32] := Extent(at + HEADER, next.value - at - HEADER)])
  }

  /** Rebuild the index by walking the log; `torn` says the tail past `end` must go. */
  method Scan(disk: Bytes) returns (end: nat, index: map<Bytes, Extent>, torn: bool)
    ensures end == ScanEnd(disk, 0) && index == ScanIndex(disk, 0, map[]) && torn == (end < |disk|)
  {
    end, index, torn := 0, map[], false;
    while true
      invariant end <= |disk| && !torn
      invariant ScanEnd(disk, end) == ScanEnd(disk, 0) && ScanIndex(disk, end, index) == ScanIndex(disk, 0, map[])
      decreases |disk| - end
    {
      var outcome, header := ReadExactOrEof(disk, end, HEADER);
      if !outcome.Full? {
        torn := outcome.Torn?;
        return;
      }
      assert header[..32] == disk[end..end + 32] && header[32..] == disk[end + 32..end + HEADER];
      var len := FromLe32(header[32..]);
      if end + HEADER + len > |disk| {
        torn := true;
        return;
      }
      index := index[header[..32] := Extent(end + HEADER, len)];
      end := end + HEADER + len;
    }
  }

  /** Scanning a cut log from a record boundary finds exactly the completely written
      records. */
  lemma {:induction false} ScanOfCut(k: Keccak, codes: seq<Bytes>, cut: nat, m: nat)
    requires HashOk(k) && Kept(k, codes) && cut <= |Log(k, codes)| && m <= Complete(k, codes, cut)
    ensures var disk, at, all := Log(k, codes)[..cut], |Log(k, codes[..m])|, codes[..Complete(k, codes, cut)];
      && at <= |disk|
      && ScanEnd(disk, at) == |Log(k, all)| && disk[..ScanEnd(disk, at)] == Log(k, all)
      && ScanIndex(disk, at, IndexOf(k, codes[..m])) == IndexOf(k, all)
    decreases Complete(k, codes, cut) - m
  {
    hide Log, IndexOf, Le32, ScanEnd, ScanIndex, NextEnd, Kept, Record;
    CutRecord(k, codes, cut, m);
    NextOfCut(k, codes, cut, m);
    ScanUnfolds(Log(k, codes)[..cut], |Log(k, codes[..m])|, IndexOf(k, codes[..m]));
    if m < Complete(k, codes, cut) {
      LogStep(k, codes, m);
      RecordParts(k, codes[m]);
      ScanOfCut(k, codes, cut, m + 1);
    }
  }

  lemma ScanUnfolds(disk: Bytes, at: nat, index: map<Bytes, Extent>)
    requires at <= |disk|
    ensures var next := NextEnd(disk, at);
      if next.None? then ScanEnd(disk, at) == at && ScanIndex(disk, at, index) == index
      else
        && ScanEnd(disk, at) == ScanEnd(disk, next.value)
        && ScanIndex(disk, at, index) == ScanIndex(disk, next.value, index[disk[at..at + 32] := Extent(at + HEADER, next.value - at - HEADER)])
  {
    hide NextEnd;
  }

  lemma NextOfCut(k: Keccak, codes: seq<Bytes>, cut: nat, m: nat)
    requires HashOk(k) && Kept(k, codes) && cut <= |Log(k, codes)| && m <= Complete(k, codes, cut)
    ensures var disk, at := Log(k, codes)[..cut], |Log(k, codes[..m])|;
      NextEnd(disk, at) == if m < Complete(k, codes, cut) then Some(at + HEADER + |codes[m]|) else None
  {
    hide Log, Le32, Record;
    CutRecord(k, codes, cut, m);
  }

  /** The store over its log file. */
  class CodeStore {
    const keccak: Keccak
    var file: Bytes
    var index: map<Bytes, Extent>
    var end: nat

    /** The store's whole state is that of a log holding exactly these codes. */
    ghost predicate Holds(codes: seq<Bytes>)
      reads this
    {
      HashOk(keccak) && Kept(keccak, codes) && file == Log(keccak, codes) && end == |file| && index == IndexOf(keccak, codes)
    }

    ghost predicate Opened(disk: Bytes)
      reads this
    {
      end == ScanEnd(disk, 0) && file == disk[..end] && index == ScanIndex(disk, 0, map[])
    }

    /** Open over whatever the file holds, or over an emptied file. */
    constructor (keccak: Keccak, disk: Bytes, truncate: bool)
      ensures this.keccak == keccak && Opened(if truncate then [] else disk)
    {
      var from := if truncate then [] else disk;
      var stop, found, torn := Scan(from);
      this.keccak, file, index, end := keccak, if torn then from[..stop] else from, found, stop;
    }

    /** Append a code unless it is empty or its hash is known. */
    method Put(code: Bytes, ghost codes: seq<Bytes>) returns (hash: Bytes)
      requires Holds(codes)
      modifies this
      ensures hash == keccak(code)
      ensures |code| < U32 || After(keccak, codes, code) == codes ==> Holds(After(keccak, codes, code))
      ensures code == [] || hash in old(index) ==> file == old(file) && index == old(index) && end == old(end)
      ensures code != [] && hash !in old(index) ==>
        var x := Extent(|old(file)| + HEADER, |code| % U32);
        && file == old(file) + Record(keccak, code) && end == |file| && index == old(index)[hash := x]
        && (ReadsAs(file, x, code) <==> |code| < U32)
    {
      hide Log, IndexOf, Record;
      hash := keccak(code);
      IndexKeys(keccak, codes, hash);
      if code != [] && hash !in index {
        var rec := hash + Le32(|code|) + code;
        RecordIs(keccak, code);
        AppendOne(keccak, codes, code);
        RecordParts(keccak, code);
        RecordEnds(keccak, file, code);
        index := index[hash := Extent(end + HEADER, |code| % U32)];
        file := file + rec;
        end := end + HEADER + |code|;
      }
    }

    /** The code of a hash: the empty one for the empty hash, else what was stored. */
    method Get(hash: Bytes, ghost codes: seq<Bytes>) returns (r: Option<Bytes>)
      requires Holds(codes)
      ensures hash == keccak([]) ==> r == Some([])
      ensures hash != keccak([]) && r.Some? ==> r.value in codes && keccak(r.value) == hash
      ensures hash != keccak([]) && r.None? ==> forall c :: c in codes ==> keccak(c) != hash
      ensures r.None? <==> hash != keccak([]) && !Known(keccak, codes, hash)
    {
      hide Log, IndexOf;
      IndexKeys(keccak, codes, hash);
      if hash == keccak([]) {
        return Some([]);
      }
      if hash !in index {
        return None;
      }
      ghost var i :| 0 <= i < |codes| && keccak(codes[i]) == hash;
      IndexReads(keccak, codes, i);
      r := Some(file[index[hash].off..index[hash].off + index[hash].len]);
    }
  }

  ghost predicate Known(k: Keccak, codes: seq<Bytes>, hash: Bytes) {
    exists i :: 0 <= i < |codes| && k(codes[i]) == hash
  }

  /** What one more put leaves: every code held before in its place, one with the hash of the
      code put in, and that code itself at the end if its hash was new. */
  lemma AfterIsExact(k: Keccak, codes: seq<Bytes>, code: Bytes)
    ensures var all := After(k, codes, code);
      && codes <= all && (code != [] ==> Known(k, all, k(code)))
      && (code != [] && !Known(k, codes, k(code)) ==> |all| == |codes| + 1 && all[|codes|] == code)
      && (code == [] || Known(k, codes, k(code)) ==> |all| == |codes|)
      && forall h :: Known(k, all, h) <==> Known(k, codes, h) || (code != [] && h == k(code))
  {
    var all := After(k, codes, code);
    if all != codes {
      assert all[|codes|] == code;
      assert forall i :: 0 <= i < |codes| ==> all[i] == codes[i];
      forall h ensures Known(k, all, h) <==> Known(k, codes, h) || h == k(code) {
        if Known(k, codes, h) {
          var i :| 0 <= i < |codes| && k(codes[i]) == h;
          assert k(all[i]) == h;
        }
      }
    }
  }

  /** A code put in comes back: always one of its hash, and that code itself unless another
      with its hash was there before. */
  method PutThenGet(s: CodeStore, code: Bytes, ghost codes: seq<Bytes>) returns (back: Option<Bytes>)
    requires s.Holds(codes) && |code| < U32
    modifies s
    ensures s.Holds(After(s.keccak, codes, code))
    ensures back.Some? && s.keccak(back.value) == s.keccak(code)
    ensures code == [] || (!Known(s.keccak, codes, s.keccak(code)) && s.keccak(code) != s.keccak([])) ==> back == Some(code)
  {
    hide Log, IndexOf, Record, After;
    AfterIsExact(s.keccak, codes, code);
    ghost var all := After(s.keccak, codes, code);
    var hash := s.Put(code, codes);
    back := s.Get(hash, all);
    if back.Some? && code != [] && !Known(s.keccak, codes, hash) && hash != s.keccak([]) {
      OnlyNewHasIt(s.keccak, codes, code, back.value);
    }
  }

  lemma OnlyNewHasIt(k: Keccak, codes: seq<Bytes>, code: Bytes, c: Bytes)
    requires !Known(k, codes, k(code)) && code != [] && c in After(k, codes, code) && k(c) == k(code)
    ensures c == code
  {
    AfterIsExact(k, codes, code);
    hide After;
    var all := After(k, codes, code);
    var i :| 0 <= i < |all| && all[i] == c;
    assert forall j :: 0 <= j < |codes| ==> all[j] == codes[j] && k(codes[j]) != k(code);
  }

  /** The codes a log holds after one more put. */
  function After(k: Keccak, codes: seq<Bytes>, code: Bytes): seq<Bytes> {
    if code == [] || (exists i :: 0 <= i < |codes| && k(codes[i]) == k(code)) then codes else codes + [code]
  }

  predicate ReadsAs(file: Bytes, x: Extent, code: Bytes) {
    x.off + x.len <= |file| && file[x.off..x.off + x.len] == code
  }

  lemma RecordIs(k: Keccak, code: Bytes)
    ensures Record(k, code) == k(code) + Le32(|code|) + code
  {
  }

  lemma AppendOne(k: Keccak, codes: seq<Bytes>, code: Bytes)
    ensures Log(k, codes + [code]) == Log(k, codes) + Record(k, code)
    ensures IndexOf(k, codes + [code]) == IndexOf(k, codes)[k(code) := Extent(|Log(k, codes)| + HEADER, |code|)]
  {
    hide Log, IndexOf, Record;
    var all := codes + [code];
    assert all[..|codes|] == codes && all[..|codes| + 1] == all;
    LogStep(k, all, |codes|);
  }

  lemma NoCodes(k: Keccak)
    ensures Log(k, []) == [] && IndexOf(k, []) == map[]
  {
  }

  /** Opening a log that a crash cut at any byte gives, state for state, the store that
      holds exactly the completely written codes: the torn tail leaves no trace. */
  lemma ReopenRecovers(s: CodeStore, disk: Bytes, codes: seq<Bytes>, cut: nat)
    requires HashOk(s.keccak) && Kept(s.keccak, codes) && cut <= |Log(s.keccak, codes)|
    requires disk == Log(s.keccak, codes)[..cut] && s.Opened(disk)
    ensures s.Holds(codes[..Complete(s.keccak, codes, cut)])
  {
    hide Log, IndexOf, ScanEnd, ScanIndex;
    NoCodes(s.keccak);
    assert codes[..0] == [];
    ScanOfCut(s.keccak, codes, cut, 0);
  }

  // --------------------------------------------------------------------- histories

  datatype LogEvent = Stored(code: Bytes) | Crashed(cut: nat)

  /** The codes held after a history of puts and crashes, each crash cutting the log. */
  ghost function Survivors(k: Keccak, events: seq<LogEvent>): seq<Bytes> {
    if events == [] then []
    else
      var before := Survivors(k, events[..|events| - 1]);
      match events[|events| - 1]
      case Stored(code) => After(k, before, code)
      case Crashed(cut) => before[..Complete(k, before, cut)]
  }

  /** Every history keeps the log well formed, so each next put, get or reopen applies. */
  lemma {:induction false} SurvivorsKept(k: Keccak, events: seq<LogEvent>)
    requires forall i :: 0 <= i < |events| && events[i].Stored? ==> |events[i].code| < U32
    ensures Kept(k, Survivors(k, events))
  {
    hide Log, Complete;
    if events != [] {
      SurvivorsKept(k, events[..|events| - 1]);
    }
  }

  /** Nothing is held that was not stored. */
  lemma {:induction false} SurvivorsWereStored(k: Keccak, events: seq<LogEvent>, c: Bytes)
    requires c in Survivors(k, events)
    ensures c != [] && Stored(c) in events
  {
    hide Log, Complete;
    if events != [] {
      var init := events[..|events| - 1];
      var before := Survivors(k, init);
      assert events == init + [events[|events| - 1]];
      if c in before {
        SurvivorsWereStored(k, init, c);
      }
    }
  }

  /** The record of a code with this hash ends at or before the cut. */
  ghost predicate EndsBy(k: Keccak, codes: seq<Bytes>, cut: nat, hash: Bytes) {
    exists i :: 0 <= i < |codes| && k(codes[i]) == hash && EndOf(k, codes, i) <= cut
  }

  /** Where record `i` of the log ends. */
  ghost function EndOf(k: Keccak, codes: seq<Bytes>, i: nat): nat
    requires i < |codes|
  {
    |Log(k, codes[..i + 1])|
  }

  /** The event takes no code with this hash away. */
  ghost predicate Spares(k: Keccak, events: seq<LogEvent>, j: nat, hash: Bytes)
    requires j < |events|
  {
    events[j].Crashed? ==> EndsBy(k, Survivors(k, events[..j]), events[j].cut, hash)
  }

  /** A code with this hash was put in at `i`, and no later crash cut it off. */
  ghost predicate Lasts(k: Keccak, events: seq<LogEvent>, i: nat, hash: Bytes)
    requires i < |events|
  {
    && events[i].Stored? && events[i].code != [] && k(events[i].code) == hash
    && forall j :: i < j < |events| ==> Spares(k, events, j, hash)
  }

  lemma CutKeeps(k: Keccak, codes: seq<Bytes>, cut: nat, hash: Bytes)
    requires HashOk(k)
    ensures Known(k, codes[..Complete(k, codes, cut)], hash) <==> EndsBy(k, codes, cut, hash)
  {
    hide Log, Complete;
    var n := Complete(k, codes, cut);
    forall i: nat | i < |codes| ensures i < n <==> EndOf(k, codes, i) <= cut {
      CompleteIsExact(k, codes, cut, i);
    }
    if EndsBy(k, codes, cut, hash) {
      var i :| 0 <= i < |codes| && k(codes[i]) == hash && EndOf(k, codes, i) <= cut;
      assert codes[..n][i] == codes[i];
    }
  }

  /** After every history, a code with a given hash is held if and only if one was put in
      and every later crash left its record whole. */
  lemma {:induction false} SurvivesIff(k: Keccak, events: seq<LogEvent>, hash: Bytes)
    requires HashOk(k)
    ensures Known(k, Survivors(k, events), hash) <==> exists i :: 0 <= i < |events| && Lasts(k, events, i, hash)
    decreases |events|
  {
    hide Log, Complete, After, EndsBy, Known;
    if events == [] {
      NothingKnown(k, hash);
    } else {
      var n := |events| - 1;
      var init := events[..n];
      SurvivesIff(k, init, hash);
      forall i: nat | i < n ensures Lasts(k, events, i, hash) <==> Lasts(k, init, i, hash) && Spares(k, events, n, hash) {
        LastsOn(k, events, i, hash);
      }
      var before := Survivors(k, init);
      if events[n].Stored? {
        AfterIsExact(k, before, events[n].code);
        assert Spares(k, events, n, hash);
        assert Lasts(k, events, n, hash) <==> events[n].code != [] && k(events[n].code) == hash;
      } else {
        CutKeeps(k, before, events[n].cut, hash);
        if Spares(k, events, n, hash) {
          assert EndsBy(k, before, events[n].cut, hash);
          CutWasKnown(k, before, events[n].cut, hash);
        }
      }
    }
  }

  lemma NothingKnown(k: Keccak, hash: Bytes)
    ensures !Known(k, [], hash)
  {
  }

  lemma CutWasKnown(k: Keccak, codes: seq<Bytes>, cut: nat, hash: Bytes)
    requires EndsBy(k, codes, cut, hash)
    ensures Known(k, codes, hash)
  {
  }

  lemma LastsOn(k: Keccak, events: seq<LogEvent>, i: nat, hash: Bytes)
    requires i < |events| - 1
    ensures var n := |events| - 1; Lasts(k, events, i, hash) <==> Lasts(k, events[..n], i, hash) && Spares(k, events, n, hash)
  {
    hide EndsBy, Survivors;
    var n := |events| - 1;
    var init := events[..n];
    forall j: nat | j < n ensures Spares(k, events, j, hash) <==> Spares(k, init, j, hash) {
      assert events[..j] == init[..j];
    }
  }
}
