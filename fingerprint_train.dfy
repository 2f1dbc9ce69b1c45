/**
 * Training side of the audio fingerprint index (backend/fingerprint_train.py):
 * peak-pair hashing, insertion of a song's hashes into the inverted index
 * from hash to (song, time) postings, and the main script's selection of
 * audio files.  Spectrogram peak picking is not modelled: a song arrives as
 * its list of integer (frequency bin, time frame) peaks.  SHA-1 of the key
 * string "f1|f2|dt", truncated to twenty hex digits, is the parameter `sha`,
 * an arbitrary function of the key triple.
 */
module FingerprintTrain {
  import opened Wrappers
  import opened StableSort

  /** Number of later peaks each anchor peak is paired with. */
  const FanValue := 10
  /** Largest time delta, in frames, between the peaks of a pair. */
  const DtMax := 200

  datatype Peak = Peak(freq: int, time: int)

  /** The triple that is hashed for a pair of peaks. */
  datatype Key = Key(f1: int, f2: int, dt: int)

  type HashValue = string

  /** An emitted hash with the time of its anchor peak. */
  datatype Landmark = Landmark(hash: HashValue, time: int)

  /** A pair of peak positions: the anchor and its partner. */
  datatype Link = Link(anchor: nat, partner: nat)

  /** One entry of a posting list: the song and the anchor time in it. */
  datatype Posting = Posting(song: string, time: int)

  type Index = map<HashValue, seq<Posting>>

  /** The sort key of `peaks.sort(key=lambda x: x[1])`. */
  predicate ByTime(a: Peak, b: Peak)
  {
    a.time <= b.time
  }

  lemma ByTimeTotal()
    ensures TotalPreorder(ByTime)
  {
  }

  /**
   * After the sort the peaks are a permutation of the input in non-decreasing
   * time order, and peaks of equal time keep their input order.
   */
  lemma PeakSortSpec(peaks: seq<Peak>)
    ensures multiset(SortBy(peaks, ByTime)) == multiset(peaks)
    ensures forall i, j :: 0 <= i < j < |peaks| ==> SortBy(peaks, ByTime)[i].time <= SortBy(peaks, ByTime)[j].time
    ensures forall x :: Ties(SortBy(peaks, ByTime), x, ByTime) == Ties(peaks, x, ByTime)
  {
    ByTimeTotal();
    SortPermutes(peaks, ByTime);
    SortSorted(peaks, ByTime);
    forall x ensures Ties(SortBy(peaks, ByTime), x, ByTime) == Ties(peaks, x, ByTime) {
      SortStable(peaks, x, ByTime);
    }
  }

  // ---------------------------------------------------------------------
  // Peak-pair hashing

  /**
   * The pairs that may be hashed: the partner follows the anchor by at most
   * `fanValue` positions and by a time delta in (0, DtMax].
   */
  predicate Linked(p: seq<Peak>, l: Link, fanValue: nat)
  {
    && l.anchor < l.partner < |p|
    && l.partner - l.anchor <= fanValue
    && 0 < p[l.partner].time - p[l.anchor].time <= DtMax
  }

  /** Every pair names two positions of `p`, the anchor first. */
  predicate InRange(p: seq<Peak>, links: seq<Link>)
  {
    forall l :: l in links ==> l.anchor < l.partner < |p|
  }

  /** The pairs of anchor `i` with the partners at offsets 1..m, in offset order. */
  function AnchorLinks(p: seq<Peak>, i: nat, m: nat): (r: seq<Link>)
    ensures InRange(p, r)
  {
    if m == 0 then []
    else
      AnchorLinks(p, i, m - 1)
      + (if i + m < |p| && 0 < p[i + m].time - p[i].time <= DtMax then [Link(i, i + m)] else [])
  }

  /** The pairs of the anchors 0..n-1, in the order the nested loops visit them. */
  function LinksUpTo(p: seq<Peak>, n: nat, fanValue: nat): (r: seq<Link>)
    ensures InRange(p, r)
  {
    if n == 0 then [] else LinksUpTo(p, n - 1, fanValue) + AnchorLinks(p, n - 1, fanValue)
  }

  function Links(p: seq<Peak>, fanValue: nat): (r: seq<Link>)
    ensures InRange(p, r)
  {
    LinksUpTo(p, |p|, fanValue)
  }

  function LandmarkOf(p: seq<Peak>, l: Link, sha: Key -> HashValue): Landmark
    requires l.anchor < l.partner < |p|
  {
    var a, b := p[l.anchor], p[l.partner];
    Landmark(sha(Key(a.freq, b.freq, b.time - a.time)), a.time)
  }

  function Emit(p: seq<Peak>, links: seq<Link>, sha: Key -> HashValue): (r: seq<Landmark>)
    requires InRange(p, links)
  {
    seq(|links|, k requires 0 <= k < |links| => assert links[k] in links; LandmarkOf(p, links[k], sha))
  }

  /** The hashes emitted for an already time-sorted peak list. */
  function Landmarks(p: seq<Peak>, fanValue: nat, sha: Key -> HashValue): seq<Landmark>
  {
    Emit(p, Links(p, fanValue), sha)
  }

  /** What `generate_hashes` returns for the peak list `peaks`. */
  function GeneratedLandmarks(peaks: seq<Peak>, fanValue: nat, sha: Key -> HashValue): seq<Landmark>
  {
    Landmarks(SortBy(peaks, ByTime), fanValue, sha)
  }

  /** `peaks.sort(key=lambda x: x[1])`: Python's stable in-place sort by time. */
  method SortPeaksByTime(peaks: array<Peak>)
    modifies peaks
    ensures peaks[..] == SortBy(old(peaks[..]), ByTime)
  {
    var sorted := SortBy(peaks[..], ByTime);
    forall k | 0 <= k < peaks.Length {
      peaks[k] := sorted[k];
    }
    assert peaks[..] == sorted;
  }

  /**
   * `generate_hashes`: sorts the caller's peaks by time in place and emits,
   * for every anchor, one hash per partner within the fan-out whose time
   * delta lies in (0, DtMax].
   */
  method GenerateHashes(peaks: array<Peak>, fanValue: nat, sha: Key -> HashValue)
    returns (hashes: seq<Landmark>)
    modifies peaks
    ensures peaks[..] == SortBy(old(peaks[..]), ByTime)
    ensures hashes == Landmarks(peaks[..], fanValue, sha)
  {
    SortPeaksByTime(peaks);
    hashes := PairHashes(peaks[..], fanValue, sha);
  }

  /** The nested loops of `generate_hashes` over the sorted peaks `p`. */
  method PairHashes(p: seq<Peak>, fanValue: nat, sha: Key -> HashValue) returns (hashes: seq<Landmark>)
    ensures hashes == Landmarks(p, fanValue, sha)
  {
    hashes := [];
    for i := 0 to |p|
      invariant hashes == Emit(p, LinksUpTo(p, i, fanValue), sha)
    {
      var f1, t1 := p[i].freq, p[i].time;
      ghost var done := LinksUpTo(p, i, fanValue);
      assert done + AnchorLinks(p, i, 0) == done;
      for j := 1 to fanValue + 1
        invariant hashes == Emit(p, done + AnchorLinks(p, i, j - 1), sha)
      {
        if i + j < |p| {
          var f2, t2 := p[i + j].freq, p[i + j].time;
          var dt := t2 - t1;
          if dt <= 0 || dt > DtMax {
            AnchorSkip(p, i, j);
            continue;
          }
          var h := sha(Key(f1, f2, dt));
          AnchorStep(p, done, i, j, sha);
          hashes := hashes + [Landmark(h, t1)];
        } else {
          AnchorSkip(p, i, j);
        }
      }
    }
    assert LinksUpTo(p, |p|, fanValue) == Links(p, fanValue);
  }

  lemma EmitSnoc(p: seq<Peak>, links: seq<Link>, l: Link, sha: Key -> HashValue)
    requires InRange(p, links) && l.anchor < l.partner < |p|
    ensures InRange(p, links + [l])
    ensures Emit(p, links + [l], sha) == Emit(p, links, sha) + [LandmarkOf(p, l, sha)]
  {
    assert (links + [l])[..|links|] == links;
  }

  /** One step of the inner loop: the pair (i, i + j) is skipped. */
  lemma AnchorSkip(p: seq<Peak>, i: nat, j: nat)
    requires 1 <= j && !(i + j < |p| && 0 < p[i + j].time - p[i].time <= DtMax)
    ensures AnchorLinks(p, i, j) == AnchorLinks(p, i, j - 1)
  {
  }

  /** One step of the inner loop: the pair (i, i + j) is hashed. */
  lemma AnchorStep(p: seq<Peak>, done: seq<Link>, i: nat, j: nat, sha: Key -> HashValue)
    requires InRange(p, done)
    requires 1 <= j && i + j < |p| && 0 < p[i + j].time - p[i].time <= DtMax
    ensures InRange(p, done + AnchorLinks(p, i, j - 1)) && InRange(p, done + AnchorLinks(p, i, j))
    ensures Emit(p, done + AnchorLinks(p, i, j), sha)
         == Emit(p, done + AnchorLinks(p, i, j - 1), sha)
            + [Landmark(sha(Key(p[i].freq, p[i + j].freq, p[i + j].time - p[i].time)), p[i].time)]
  {
    var before := done + AnchorLinks(p, i, j - 1);
    assert InRange(p, before);
    assert done + AnchorLinks(p, i, j) == before + [Link(i, i + j)];
    EmitSnoc(p, before, Link(i, i + j), sha);
  }

  lemma {:induction false} AnchorLinksExact(p: seq<Peak>, i: nat, m: nat, l: Link)
    ensures l in AnchorLinks(p, i, m) <==>
              l.anchor == i && Linked(p, l, m)
  {
    if m > 0 {
      AnchorLinksExact(p, i, m - 1, l);
    }
  }

  lemma {:induction false} LinksUpToExact(p: seq<Peak>, n: nat, fanValue: nat, l: Link)
    ensures l in LinksUpTo(p, n, fanValue) <==> l.anchor < n && Linked(p, l, fanValue)
  {
    if n > 0 {
      var a, b := LinksUpTo(p, n - 1, fanValue), AnchorLinks(p, n - 1, fanValue);
      assert l in a <==> l.anchor < n - 1 && Linked(p, l, fanValue) by { LinksUpToExact(p, n - 1, fanValue, l); }
      assert l in b <==> l.anchor == n - 1 && Linked(p, l, fanValue) by { AnchorLinksExact(p, n - 1, fanValue, l); }
      assert LinksUpTo(p, n, fanValue) == a + b;
    }
  }

  /**
   * Exactly the pairs of positions i < k with k - i <= fanValue and a time
   * delta in (0, DtMax] are hashed, and the i-th emitted hash is the hash of
   * the i-th such pair's key stored with the anchor's time.
   */
  lemma LandmarksExact(p: seq<Peak>, fanValue: nat, sha: Key -> HashValue)
    ensures forall l :: l in Links(p, fanValue) <==> Linked(p, l, fanValue)
    ensures |Landmarks(p, fanValue, sha)| == |Links(p, fanValue)|
    ensures forall k :: 0 <= k < |Links(p, fanValue)| ==>
              var l := Links(p, fanValue)[k];
              Landmarks(p, fanValue, sha)[k]
                == Landmark(sha(Key(p[l.anchor].freq, p[l.partner].freq, p[l.partner].time - p[l.anchor].time)),
                            p[l.anchor].time)
  {
    forall l ensures l in Links(p, fanValue) <==> Linked(p, l, fanValue) {
      LinksUpToExact(p, |p|, fanValue, l);
    }
  }

  ghost predicate Precedes(a: Link, b: Link)
  {
    a.anchor < b.anchor || (a.anchor == b.anchor && a.partner < b.partner)
  }

  ghost predicate Ascending(links: seq<Link>)
  {
    forall a, b :: 0 <= a < b < |links| ==> Precedes(links[a], links[b])
  }

  lemma {:induction false} AnchorLinksAscending(p: seq<Peak>, i: nat, m: nat)
    ensures Ascending(AnchorLinks(p, i, m))
    ensures forall l :: l in AnchorLinks(p, i, m) ==> l.anchor == i && l.partner <= i + m
  {
    if m > 0 {
      AnchorLinksAscending(p, i, m - 1);
      var a := AnchorLinks(p, i, m - 1);
      var b := if i + m < |p| && 0 < p[i + m].time - p[i].time <= DtMax then [Link(i, i + m)] else [];
      assert AnchorLinks(p, i, m) == a + b;
      forall x, y | 0 <= x < y < |a + b| ensures Precedes((a + b)[x], (a + b)[y]) {
        if y >= |a| {
          assert (a + b)[x] == a[x] && a[x] in a;
        }
      }
    }
  }

  /** Pairs are emitted anchor by anchor and partner by partner, never twice. */
  lemma {:induction false} LinksAscending(p: seq<Peak>, n: nat, fanValue: nat)
    ensures Ascending(LinksUpTo(p, n, fanValue))
    ensures forall l :: l in LinksUpTo(p, n, fanValue) ==> l.anchor < n
  {
    if n > 0 {
      LinksAscending(p, n - 1, fanValue);
      AnchorLinksAscending(p, n - 1, fanValue);
      var a, b := LinksUpTo(p, n - 1, fanValue), AnchorLinks(p, n - 1, fanValue);
      assert LinksUpTo(p, n, fanValue) == a + b;
      forall x, y | 0 <= x < y < |a + b| ensures Precedes((a + b)[x], (a + b)[y]) {
        if y < |a| {
          assert (a + b)[x] == a[x] && (a + b)[y] == a[y];
        } else if x >= |a| {
          assert (a + b)[x] == b[x - |a|] && (a + b)[y] == b[y - |a|];
        } else {
          assert (a + b)[x] == a[x] && (a + b)[y] == b[y - |a|];
          assert a[x] in a && b[y - |a|] in b;
        }
      }
    }
  }

  lemma {:induction false} AnchorLinksCount(p: seq<Peak>, i: nat, m: nat)
    ensures |AnchorLinks(p, i, m)| <= m
  {
    if m > 0 {
      AnchorLinksCount(p, i, m - 1);
    }
  }

  lemma MulStep(n: nat, f: nat)
    requires n > 0
    ensures (n - 1) * f + f == n * f
  {
  }

  lemma {:induction false} LinksUpToCount(p: seq<Peak>, n: nat, fanValue: nat)
    ensures |LinksUpTo(p, n, fanValue)| <= n * fanValue
  {
    if n > 0 {
      var a, b := LinksUpTo(p, n - 1, fanValue), AnchorLinks(p, n - 1, fanValue);
      assert |a| <= (n - 1) * fanValue by { LinksUpToCount(p, n - 1, fanValue); }
      assert |b| <= fanValue by { AnchorLinksCount(p, n - 1, fanValue); }
      assert |LinksUpTo(p, n, fanValue)| == |a| + |b|;
      MulStep(n, fanValue);
    }
  }

  /** At most `fanValue` hashes per peak are emitted. */
  lemma LandmarkCount(peaks: seq<Peak>, fanValue: nat, sha: Key -> HashValue)
    ensures |GeneratedLandmarks(peaks, fanValue, sha)| <= |peaks| * fanValue
  {
    LinksUpToCount(SortBy(peaks, ByTime), |peaks|, fanValue);
  }

  // ---------------------------------------------------------------------
  // Hashes depend only on relative time

  function ShiftPeak(x: Peak, c: int): Peak
  {
    Peak(x.freq, x.time + c)
  }

  function Shift(p: seq<Peak>, c: int): (r: seq<Peak>)
  {
    seq(|p|, k requires 0 <= k < |p| => ShiftPeak(p[k], c))
  }

  function ShiftTimes(ls: seq<Landmark>, c: int): (r: seq<Landmark>)
  {
    seq(|ls|, k requires 0 <= k < |ls| => Landmark(ls[k].hash, ls[k].time + c))
  }

  lemma {:induction false} InsertShift(s: seq<Peak>, x: Peak, c: int)
    ensures Insert(Shift(s, c), ShiftPeak(x, c), ByTime) == Shift(Insert(s, x, ByTime), c)
  {
    if s != [] {
      InsertShift(s[1..], x, c);
      assert Shift(s, c)[1..] == Shift(s[1..], c);
      if ByTime(s[0], x) {
        assert Shift([s[0]] + Insert(s[1..], x, ByTime), c)
            == [ShiftPeak(s[0], c)] + Shift(Insert(s[1..], x, ByTime), c);
      } else {
        assert Shift([x] + s, c) == [ShiftPeak(x, c)] + Shift(s, c);
      }
    }
  }

  lemma {:induction false} SortShift(s: seq<Peak>, c: int)
    ensures SortBy(Shift(s, c), ByTime) == Shift(SortBy(s, ByTime), c)
  {
    if s != [] {
      var init := s[..|s| - 1];
      SortShift(init, c);
      assert Shift(s, c)[..|s| - 1] == Shift(init, c);
      InsertShift(SortBy(init, ByTime), s[|s| - 1], c);
    }
  }

  lemma {:induction false} AnchorLinksShift(p: seq<Peak>, i: nat, m: nat, c: int)
    ensures AnchorLinks(Shift(p, c), i, m) == AnchorLinks(p, i, m)
  {
    if m > 0 {
      AnchorLinksShift(p, i, m - 1, c);
    }
  }

  lemma {:induction false} LinksShift(p: seq<Peak>, n: nat, fanValue: nat, c: int)
    ensures LinksUpTo(Shift(p, c), n, fanValue) == LinksUpTo(p, n, fanValue)
  {
    if n > 0 {
      var q := Shift(p, c);
      var a, b := LinksUpTo(q, n - 1, fanValue), AnchorLinks(q, n - 1, fanValue);
      assert a == LinksUpTo(p, n - 1, fanValue) by { LinksShift(p, n - 1, fanValue, c); }
      assert b == AnchorLinks(p, n - 1, fanValue) by { AnchorLinksShift(p, n - 1, fanValue, c); }
      assert LinksUpTo(q, n, fanValue) == a + b;
    }
  }

  lemma EmitShiftAt(p: seq<Peak>, links: seq<Link>, sha: Key -> HashValue, c: int, k: nat)
    requires InRange(p, links) && k < |links|
    ensures InRange(Shift(p, c), links)
    ensures Emit(Shift(p, c), links, sha)[k]
         == Landmark(Emit(p, links, sha)[k].hash, Emit(p, links, sha)[k].time + c)
  {
    var q := Shift(p, c);
    var l := links[k];
    assert q[l.anchor] == ShiftPeak(p[l.anchor], c) && q[l.partner] == ShiftPeak(p[l.partner], c);
  }

  lemma LandmarksShift(p: seq<Peak>, fanValue: nat, sha: Key -> HashValue, c: int)
    ensures Landmarks(Shift(p, c), fanValue, sha) == ShiftTimes(Landmarks(p, fanValue, sha), c)
  {
    LinksShift(p, |p|, fanValue, c);
    var links := Links(p, fanValue);
    var lhs := Emit(Shift(p, c), links, sha);
    var rhs := ShiftTimes(Emit(p, links, sha), c);
    forall k | 0 <= k < |links| ensures lhs[k] == rhs[k] {
      EmitShiftAt(p, links, sha, c, k);
    }
    assert lhs == rhs;
  }

  /**
   * Shifting every peak time by `c` gives the same hash sequence with every
   * stored time shifted by `c`.
   */
  lemma TimeShiftInvariance(peaks: seq<Peak>, fanValue: nat, sha: Key -> HashValue, c: int)
    ensures GeneratedLandmarks(Shift(peaks, c), fanValue, sha)
         == ShiftTimes(GeneratedLandmarks(peaks, fanValue, sha), c)
  {
    SortShift(peaks, c);
    LandmarksShift(SortBy(peaks, ByTime), fanValue, sha, c);
  }

  // ---------------------------------------------------------------------
  // Index insertion

  function Lookup(db: Index, h: HashValue): seq<Posting>
  {
    if h in db then db[h] else []
  }

  /** The index after appending the postings of `hs` one by one. */
  function AddPostings(db: Index, songId: string, hs: seq<Landmark>): Index
  {
    if hs == [] then db
    else
      var prev := AddPostings(db, songId, hs[..|hs| - 1]);
      var x := hs[|hs| - 1];
      prev[x.hash := Lookup(prev, x.hash) + [Posting(songId, x.time)]]
  }

  /** The postings `(songId, t)` of the hashes in `hs` equal to `h`, in order. */
  function PostingsFor(songId: string, hs: seq<Landmark>, h: HashValue): seq<Posting>
  {
    if hs == [] then []
    else
      PostingsFor(songId, hs[..|hs| - 1], h)
      + (if hs[|hs| - 1].hash == h then [Posting(songId, hs[|hs| - 1].time)] else [])
  }

  lemma {:induction false} AddPostingsAt(db: Index, songId: string, hs: seq<Landmark>, h: HashValue)
    ensures Lookup(AddPostings(db, songId, hs), h) == Lookup(db, h) + PostingsFor(songId, hs, h)
  {
    if hs != [] {
      AddPostingsAt(db, songId, hs[..|hs| - 1], h);
    }
  }

  lemma {:induction false} AddPostingsKeys(db: Index, songId: string, hs: seq<Landmark>, h: HashValue)
    ensures h in AddPostings(db, songId, hs) <==> h in db || exists k :: 0 <= k < |hs| && hs[k].hash == h
  {
    if hs != [] {
      var init := hs[..|hs| - 1];
      AddPostingsKeys(db, songId, init, h);
      if h != hs[|hs| - 1].hash && h !in db {
        if k :| 0 <= k < |hs| && hs[k].hash == h {
          assert init[k].hash == h;
        }
        if k :| 0 <= k < |init| && init[k].hash == h {
          assert hs[k].hash == h;
        }
      }
    }
  }

  /**
   * Inserting appends to every posting list exactly the song's postings under
   * that hash, in emission order; the old list stays a prefix, and the keys
   * are the old keys plus the emitted hashes.
   */
  lemma AddPostingsSpec(db: Index, songId: string, hs: seq<Landmark>)
    ensures forall h :: Lookup(AddPostings(db, songId, hs), h) == Lookup(db, h) + PostingsFor(songId, hs, h)
    ensures forall h :: h in AddPostings(db, songId, hs) <==>
              h in db || exists k :: 0 <= k < |hs| && hs[k].hash == h
  {
    forall h ensures Lookup(AddPostings(db, songId, hs), h) == Lookup(db, h) + PostingsFor(songId, hs, h) {
      AddPostingsAt(db, songId, hs, h);
    }
    forall h ensures h in AddPostings(db, songId, hs) <==> h in db || exists k :: 0 <= k < |hs| && hs[k].hash == h {
      AddPostingsKeys(db, songId, hs, h);
    }
  }

  /** An index without empty posting lists keeps that property under insertion. */
  lemma AddPostingsKeepsBucketsNonEmpty(db: Index, songId: string, hs: seq<Landmark>)
    requires forall h :: h in db ==> db[h] != []
    ensures forall h :: h in AddPostings(db, songId, hs) ==> AddPostings(db, songId, hs)[h] != []
  {
    AddPostingsSpec(db, songId, hs);
    forall h | h in AddPostings(db, songId, hs) ensures AddPostings(db, songId, hs)[h] != [] {
      assert Lookup(AddPostings(db, songId, hs), h) == AddPostings(db, songId, hs)[h];
      if h !in db {
        var k :| 0 <= k < |hs| && hs[k].hash == h;
        PostingsForHas(songId, hs, k);
      }
    }
  }

  lemma {:induction false} PostingsForHas(songId: string, hs: seq<Landmark>, k: nat)
    requires k < |hs|
    ensures PostingsFor(songId, hs, hs[k].hash) != []
  {
    if k < |hs| - 1 {
      PostingsForHas(songId, hs[..|hs| - 1], k);
    }
  }

  /** The database object that `fingerprint_file` appends to. */
  class FingerprintDb {
    var index: Index

    constructor (index: Index)
      ensures this.index == index
    {
      this.index := index;
    }

    /** The insertion loop of `fingerprint_file`: `db.setdefault(h, []).append((song_id, t))`. */
    method AddAll(songId: string, hashes: seq<Landmark>)
      modifies this
      ensures index == AddPostings(old(index), songId, hashes)
    {
      ghost var start := index;
      for k := 0 to |hashes|
        invariant index == AddPostings(start, songId, hashes[..k])
      {
        var h, t := hashes[k].hash, hashes[k].time;
        assert hashes[..k + 1][..k] == hashes[..k];
        index := index[h := (if h in index then index[h] else []) + [Posting(songId, t)]];
      }
      assert hashes[..|hashes|] == hashes;
    }
  }

  /** The index after `fingerprint_file`; `None` is an audio file that fails to load. */
  function Fingerprinted(db: Index, songId: string, analysis: Option<seq<Peak>>, sha: Key -> HashValue): Index
  {
    match analysis
    case None => db
    case Some(peaks) => AddPostings(db, songId, GeneratedLandmarks(peaks, FanValue, sha))
  }

  function HashCount(analysis: Option<seq<Peak>>, sha: Key -> HashValue): nat
  {
    match analysis
    case None => 0
    case Some(peaks) => |GeneratedLandmarks(peaks, FanValue, sha)|
  }

  /**
   * `fingerprint_file`: hashes the song's peaks and appends `(songId, t)` to
   * the posting list of every hash; returns the number of hashes, or 0 and
   * leaves the index alone when the audio cannot be loaded.
   */
  method FingerprintFile(analysis: Option<seq<Peak>>, songId: string, db: FingerprintDb, sha: Key -> HashValue)
    returns (count: nat)
    modifies db
    ensures db.index == Fingerprinted(old(db.index), songId, analysis, sha)
    ensures count == HashCount(analysis, sha)
  {
    if analysis.None? {
      return 0;
    }
    var peaks := new Peak[|analysis.value|](k requires 0 <= k < |analysis.value| => analysis.value[k]);
    assert peaks[..] == analysis.value;
    var hashes := GenerateHashes(peaks, FanValue, sha);
    db.AddAll(songId, hashes);
    count := |hashes|;
  }

  // ---------------------------------------------------------------------
  // The main script: which files are fingerprinted

  /** Python's string order: code point by code point, a proper prefix first. */
  predicate LexLe(a: string, b: string)
  {
    if a == [] then true
    else if b == [] then false
    else if a[0] != b[0] then a[0] < b[0]
    else LexLe(a[1..], b[1..])
  }

  lemma {:induction false} LexTotal(a: string, b: string)
    ensures LexLe(a, b) || LexLe(b, a)
  {
    if a != [] && b != [] && a[0] == b[0] {
      LexTotal(a[1..], b[1..]);
    }
  }

  lemma {:induction false} LexTransitive(a: string, b: string, c: string)
    requires LexLe(a, b) && LexLe(b, c)
    ensures LexLe(a, c)
  {
    if a != [] && b != [] && c != [] && a[0] == b[0] && b[0] == c[0] {
      LexTransitive(a[1..], b[1..], c[1..]);
    }
  }

  lemma LexTotalPreorder()
    ensures TotalPreorder(LexLe)
  {
    forall a, b ensures LexLe(a, b) || LexLe(b, a) {
      LexTotal(a, b);
    }
    forall a, b, c | LexLe(a, b) && LexLe(b, c) ensures LexLe(a, c) {
      LexTransitive(a, b, c);
    }
  }

  /** ASCII lower-casing of one character. */
  function LowerChar(ch: char): char
  {
    if 'A' <= ch <= 'Z' then (ch as int + 32) as char else ch
  }

  function Lower(s: string): (r: string)
    ensures |r| == |s|
  {
    seq(|s|, k requires 0 <= k < |s| => LowerChar(s[k]))
  }

  predicate EndsWith(s: string, suffix: string)
  {
    |suffix| <= |s| && s[|s| - |suffix|..] == suffix
  }

  predicate IsAudioName(name: string)
  {
    EndsWith(Lower(name), ".mp3") || EndsWith(Lower(name), ".wav")
  }

  function AudioNames(names: seq<string>): seq<string>
  {
    if names == [] then []
    else
      AudioNames(names[..|names| - 1])
      + (if IsAudioName(names[|names| - 1]) then [names[|names| - 1]] else [])
  }

  /** The index after fingerprinting `names` in order. */
  function IndexAll(db: Index, names: seq<string>, analyse: string -> Option<seq<Peak>>, sha: Key -> HashValue): Index
  {
    if names == [] then db
    else
      var last := names[|names| - 1];
      Fingerprinted(IndexAll(db, names[..|names| - 1], analyse, sha), last, analyse(last), sha)
  }

  /**
   * The main script: walks the sorted directory listing, skips every name
   * that does not end in ".mp3" or ".wav" ignoring case, and fingerprints the
   * rest in that order into a new index.  `analyse` gives each file's peaks.
   */
  method BuildIndex(listing: seq<string>, analyse: string -> Option<seq<Peak>>, sha: Key -> HashValue)
    returns (db: FingerprintDb, songList: seq<string>)
    ensures fresh(db)
    ensures songList == AudioNames(SortBy(listing, LexLe))
    ensures db.index == IndexAll(map[], songList, analyse, sha)
  {
    var names := SortBy(listing, LexLe);
    db := new FingerprintDb(map[]);
    songList := [];
    for k := 0 to |names|
      invariant songList == AudioNames(names[..k])
      invariant db.index == IndexAll(map[], songList, analyse, sha)
    {
      var fname := names[k];
      assert names[..k + 1][..k] == names[..k];
      if !IsAudioName(fname) {
        continue;
      }
      var songId := fname;
      songList := songList + [songId];
      var _ := FingerprintFile(analyse(fname), songId, db, sha);
    }
    assert names[..|names|] == names;
  }

  lemma {:induction false} AudioNamesExact(names: seq<string>)
    ensures forall x :: multiset(AudioNames(names))[x] == if IsAudioName(x) then multiset(names)[x] else 0
  {
    if names != [] {
      AudioNamesExact(names[..|names| - 1]);
      assert names == names[..|names| - 1] + [names[|names| - 1]];
    }
  }

  lemma {:induction false} AudioNamesSorted(names: seq<string>)
    requires Sorted(names, LexLe)
    ensures Sorted(AudioNames(names), LexLe)
  {
    if names != [] {
      var init, last := names[..|names| - 1], names[|names| - 1];
      AudioNamesSorted(init);
      AudioNamesExact(init);
      var a := AudioNames(init);
      forall x | 0 <= x < |a| ensures LexLe(a[x], last) {
        assert a[x] in multiset(a);
        assert a[x] in multiset(init);
        var i :| 0 <= i < |init| && init[i] == a[x];
        assert names[i] == a[x];
      }
    }
  }

  /**
   * The main script's song list holds exactly the listed names that end in
   * ".mp3" or ".wav" ignoring case, each as often as listed, in sorted order.
   */
  lemma SongListExact(listing: seq<string>)
    ensures forall x :: x in AudioNames(SortBy(listing, LexLe)) <==> x in listing && IsAudioName(x)
    ensures forall x :: multiset(AudioNames(SortBy(listing, LexLe)))[x]
                        == if IsAudioName(x) then multiset(listing)[x] else 0
    ensures Sorted(AudioNames(SortBy(listing, LexLe)), LexLe)
  {
    var names := SortBy(listing, LexLe);
    SortPermutes(listing, LexLe);
    LexTotalPreorder();
    SortSorted(listing, LexLe);
    AudioNamesExact(names);
    AudioNamesSorted(names);
    forall x ensures x in AudioNames(names) <==> x in listing && IsAudioName(x) {
      assert x in AudioNames(names) <==> x in multiset(AudioNames(names));
      assert x in listing <==> x in multiset(listing);
    }
  }
}
