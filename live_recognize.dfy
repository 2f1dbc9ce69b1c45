/**
 * Recognition side of the fingerprint index (backend/live_recognize.py):
 * the query's peaks are hashed as in training but with a wider fan-out;
 * every query hash found in the index votes, for each posting (song, t),
 * for the time offset t - q_t of that song; each song is scored by the
 * multiplicity of its most common offset, and the best-scored song wins.
 */
module LiveRecognize {
  import opened Wrappers
  import opened StableSort
  import opened FingerprintTrain

  /** The query side pairs each anchor with up to 20 later peaks. */
  const QueryFanValue := 20

  /** One vote: a song and the offset `song_t - q_t` it votes for. */
  datatype Hit = Hit(song: string, offset: int)

  /** `Counter(offsets).most_common(1)[0]`: an offset and its multiplicity. */
  datatype Mode = Mode(offset: int, count: nat)

  /** The returned dict `{"song", "votes", "offset"}`, also one entry of `results`. */
  datatype Match = Match(song: string, votes: nat, offset: int)

  // ---------------------------------------------------------------------
  // Vote collection

  /** The votes of one posting list for a query hash at time `qt`. */
  function PostingHits(ps: seq<Posting>, qt: int): seq<Hit>
  {
    seq(|ps|, k requires 0 <= k < |ps| => Hit(ps[k].song, ps[k].time - qt))
  }

  /** All votes, in the order the nested loops cast them. */
  function Hits(qs: seq<Landmark>, db: Index): seq<Hit>
  {
    if qs == [] then []
    else
      var q := qs[|qs| - 1];
      Hits(qs[..|qs| - 1], db) + (if q.hash in db then PostingHits(db[q.hash], q.time) else [])
  }

  /** The offsets voted for `song`, in order: `votes[song]`. */
  function OffsetsOf(hits: seq<Hit>, song: string): seq<int>
  {
    if hits == [] then []
    else
      OffsetsOf(hits[..|hits| - 1], song)
      + (if hits[|hits| - 1].song == song then [hits[|hits| - 1].offset] else [])
  }

  /** The songs that received votes, in the order of their first vote (the key order of `votes`). */
  function SongOrder(hits: seq<Hit>): seq<string>
  {
    if hits == [] then []
    else
      var prev := SongOrder(hits[..|hits| - 1]);
      if hits[|hits| - 1].song in prev then prev else prev + [hits[|hits| - 1].song]
  }

  lemma TallyStep(hits: seq<Hit>, x: Hit, s: string)
    ensures SongOrder(hits + [x]) == if x.song in SongOrder(hits) then SongOrder(hits) else SongOrder(hits) + [x.song]
    ensures OffsetsOf(hits + [x], s) == OffsetsOf(hits, s) + (if x.song == s then [x.offset] else [])
  {
    assert (hits + [x])[..|hits|] == hits;
  }

  /** `order` and `votes` are the key order and contents of the `votes` dict after `hits`. */
  ghost predicate Tallied(hits: seq<Hit>, order: seq<string>, votes: map<string, seq<int>>)
  {
    && order == SongOrder(hits)
    && (forall s :: s in votes <==> s in order)
    && (forall s :: s in votes ==> votes[s] == OffsetsOf(hits, s))
  }

  /** `votes[song_id].append(offset)` on a `defaultdict(list)`. */
  function CastVote(votes: map<string, seq<int>>, x: Hit): map<string, seq<int>>
  {
    votes[x.song := (if x.song in votes then votes[x.song] else []) + [x.offset]]
  }

  lemma TallyAdd(hits: seq<Hit>, order: seq<string>, votes: map<string, seq<int>>, x: Hit)
    requires Tallied(hits, order, votes)
    ensures Tallied(hits + [x], if x.song in votes then order else order + [x.song], CastVote(votes, x))
  {
    TallyStep(hits, x, x.song);
    var order', votes' := if x.song in votes then order else order + [x.song], CastVote(votes, x);
    forall s ensures s in votes' <==> s in order' {
      assert s in order' <==> s in order || s == x.song;
    }
    forall s | s in votes' ensures votes'[s] == OffsetsOf(hits + [x], s) {
      TallyStep(hits, x, s);
      if s != x.song {
        assert votes'[s] == votes[s];
      } else if x.song !in votes {
        assert OffsetsOf(hits, s) == [] by { SongOrderExact(hits); }
      }
    }
  }

  /** The `votes` dict after casting the votes `hits` in order. */
  function VotesOf(hits: seq<Hit>): map<string, seq<int>>
  {
    if hits == [] then map[] else CastVote(VotesOf(hits[..|hits| - 1]), hits[|hits| - 1])
  }

  /** The dict so built has the key order `SongOrder(hits)` and holds each song's offsets. */
  lemma {:induction false} VotesOfTallied(hits: seq<Hit>)
    ensures Tallied(hits, SongOrder(hits), VotesOf(hits))
  {
    if hits != [] {
      var init, x := hits[..|hits| - 1], hits[|hits| - 1];
      VotesOfTallied(init);
      TallyAdd(init, SongOrder(init), VotesOf(init), x);
      assert init + [x] == hits;
    }
  }

  lemma PostingHitsSnoc(ps: seq<Posting>, m: nat, qt: int)
    requires m < |ps|
    ensures PostingHits(ps[..m + 1], qt) == PostingHits(ps[..m], qt) + [Hit(ps[m].song, ps[m].time - qt)]
  {
  }

  /** A song is listed exactly when it has a vote; then its offset list is not empty. */
  lemma {:induction false} SongOrderExact(hits: seq<Hit>)
    ensures forall s :: s in SongOrder(hits) <==> OffsetsOf(hits, s) != []
    ensures SongOrder(hits) == [] <==> hits == []
  {
    if hits != [] {
      SongOrderExact(hits[..|hits| - 1]);
    }
  }

  /** The songs are listed once each, as the keys of a dict are. */
  lemma {:induction false} SongOrderDistinct(hits: seq<Hit>)
    ensures forall i, j :: 0 <= i < j < |SongOrder(hits)| ==> SongOrder(hits)[i] != SongOrder(hits)[j]
  {
    if hits != [] {
      SongOrderDistinct(hits[..|hits| - 1]);
    }
  }

  // ---------------------------------------------------------------------
  // The most common offset

  function BestFrom(s: seq<int>, i: nat, best: nat): (r: nat)
    requires best < i <= |s|
    requires forall j :: 0 <= j < i ==> multiset(s)[s[j]] <= multiset(s)[s[best]]
    requires forall j :: 0 <= j < best ==> multiset(s)[s[j]] < multiset(s)[s[best]]
    ensures r < |s|
    ensures forall j :: 0 <= j < |s| ==> multiset(s)[s[j]] <= multiset(s)[s[r]]
    ensures forall j :: 0 <= j < r ==> multiset(s)[s[j]] < multiset(s)[s[r]]
    decreases |s| - i
  {
    if i == |s| then best
    else if multiset(s)[s[i]] > multiset(s)[s[best]] then BestFrom(s, i + 1, i)
    else BestFrom(s, i + 1, best)
  }

  /**
   * `Counter(offsets).most_common(1)[0]`: an offset of the highest
   * multiplicity, the one that occurs first among those so tied.
   */
  function MostCommon(s: seq<int>): (r: Mode)
    requires |s| > 0
    ensures r.offset in s && r.count == multiset(s)[r.offset]
    ensures forall x :: multiset(s)[x] <= r.count
    ensures exists k :: 0 <= k < |s| && s[k] == r.offset
                        && forall j :: 0 <= j < k ==> multiset(s)[s[j]] < r.count
  {
    var b := BestFrom(s, 1, 0);
    assert forall x :: multiset(s)[x] <= multiset(s)[s[b]] by {
      forall x ensures multiset(s)[x] <= multiset(s)[s[b]] {
        if x in multiset(s) {
          assert x in s;
          var j :| 0 <= j < |s| && s[j] == x;
        }
      }
    }
    Mode(s[b], multiset(s)[s[b]])
  }

  // ---------------------------------------------------------------------
  // Choosing the song

  /**
   * The `results` entry of one voted song. Only songs with votes are
   * scored; the entry of a song without any is never used.
   */
  function Score(hits: seq<Hit>, song: string): Match
  {
    var offsets := OffsetsOf(hits, song);
    if offsets == [] then Match(song, 0, 0)
    else
      var m := MostCommon(offsets);
      Match(song, m.count, m.offset)
  }

  function Results(hits: seq<Hit>, order: seq<string>): (r: seq<Match>)
    ensures |r| == |order|
  {
    seq(|order|, k requires 0 <= k < |order| => Score(hits, order[k]))
  }

  lemma ResultsSnoc(hits: seq<Hit>, order: seq<string>, k: nat)
    requires k < |order|
    ensures Results(hits, order[..k + 1]) == Results(hits, order[..k]) + [Score(hits, order[k])]
  {
  }

  /** The sort key of `results.sort(key=lambda x: x[1], reverse=True)`. */
  predicate ByVotes(a: Match, b: Match)
  {
    a.votes >= b.votes
  }

  lemma ByVotesTotal()
    ensures TotalPreorder(ByVotes)
  {
  }

  /** What `recognize_audio` returns for the query hashes `qs`. */
  function Recognize(qs: seq<Landmark>, db: Index): Option<Match>
  {
    if qs == [] then None
    else
      var hits := Hits(qs, db);
      if hits == [] then None
      else
        var results := Results(hits, SongOrder(hits));
        Some(SortBy(results, ByVotes)[0])
  }

  lemma HitsSnoc(qs: seq<Landmark>, k: nat, db: Index)
    requires k < |qs|
    ensures Hits(qs[..k + 1], db)
            == Hits(qs[..k], db) + (if qs[k].hash in db then PostingHits(db[qs[k].hash], qs[k].time) else [])
  {
    assert qs[..k + 1][..k] == qs[..k];
  }

  /** The dict is empty exactly when nothing was voted. */
  lemma VotesEmpty(hits: seq<Hit>)
    ensures |VotesOf(hits)| == 0 <==> hits == []
  {
    VotesOfTallied(hits);
    SongOrderExact(hits);
    if hits != [] {
      assert SongOrder(hits)[0] in VotesOf(hits);
    }
  }

  /** Each listed song has a non-empty entry: its offsets. */
  lemma VoteOf(hits: seq<Hit>, s: string)
    requires s in SongOrder(hits)
    ensures s in VotesOf(hits) && VotesOf(hits)[s] == OffsetsOf(hits, s) != []
  {
    VotesOfTallied(hits);
    SongOrderExact(hits);
  }

  /** One vote of the inner loop keeps the loop invariants. */
  lemma VoteStep(before: seq<Hit>, ps: seq<Posting>, m: nat, qt: int, hits: seq<Hit>)
    requires m < |ps| && hits == before + PostingHits(ps[..m], qt)
    ensures var x := Hit(ps[m].song, ps[m].time - qt);
            && hits + [x] == before + PostingHits(ps[..m + 1], qt)
            && VotesOf(hits + [x]) == CastVote(VotesOf(hits), x)
            && SongOrder(hits + [x]) == if x.song in VotesOf(hits) then SongOrder(hits) else SongOrder(hits) + [x.song]
  {
    var x := Hit(ps[m].song, ps[m].time - qt);
    PostingHitsSnoc(ps, m, qt);
    assert before + PostingHits(ps[..m + 1], qt) == before + PostingHits(ps[..m], qt) + [x];
    TallyStep(hits, x, x.song);
    VotesOfTallied(hits);
    assert (hits + [x])[..|hits|] == hits;
  }

  /**
   * The inner loop of `recognize_audio`: one vote `song_t - q_t` per
   * posting of a query hash, appended to `votes[song_id]`.
   */
  method CastVotes(postings: seq<Posting>, qt: int, order0: seq<string>, votes0: map<string, seq<int>>,
                   ghost hits0: seq<Hit>)
    returns (order: seq<string>, votes: map<string, seq<int>>, ghost hits: seq<Hit>)
    requires order0 == SongOrder(hits0) && votes0 == VotesOf(hits0)
    ensures hits == hits0 + PostingHits(postings, qt)
    ensures order == SongOrder(hits) && votes == VotesOf(hits)
    ensures order == SongOrder(hits0 + PostingHits(postings, qt))
    ensures votes == VotesOf(hits0 + PostingHits(postings, qt))
  {
    order, votes, hits := order0, votes0, hits0;
    for m := 0 to |postings|
      invariant hits == hits0 + PostingHits(postings[..m], qt)
      invariant order == SongOrder(hits) && votes == VotesOf(hits)
    {
      var songId, songT := postings[m].song, postings[m].time;
      var offset := songT - qt;
      VoteStep(hits0, postings, m, qt, hits);
      assert Hit(songId, offset) == Hit(postings[m].song, postings[m].time - qt);
      if songId !in votes {
        order := order + [songId];
      }
      votes := CastVote(votes, Hit(songId, offset));
      hits := hits + [Hit(songId, offset)];
    }
    assert postings[..|postings|] == postings;
  }

  /**
   * The outer loop of `recognize_audio` over the query hashes found in `db`:
   * `order` is the key order of the `votes` dict, `votes[song]` the song's offsets.
   */
  method CollectVotes(qHashes: seq<Landmark>, db: Index)
    returns (order: seq<string>, votes: map<string, seq<int>>, ghost hits: seq<Hit>)
    ensures hits == Hits(qHashes, db)
    ensures order == SongOrder(Hits(qHashes, db)) && votes == VotesOf(Hits(qHashes, db))
  {
    order, votes, hits := [], map[], [];
    for k := 0 to |qHashes|
      invariant hits == Hits(qHashes[..k], db)
      invariant order == SongOrder(hits) && votes == VotesOf(hits)
    {
      var h, qt := qHashes[k].hash, qHashes[k].time;
      HitsSnoc(qHashes, k, db);
      if h in db {
        order, votes, hits := CastVotes(db[h], qt, order, votes, hits);
      }
    }
    assert qHashes[..|qHashes|] == qHashes;
  }

  /**
   * The voting part of `recognize_audio`: `None` without query hashes or
   * without votes, otherwise the first of the scored songs sorted by votes.
   */
  method MatchHashes(qHashes: seq<Landmark>, db: Index) returns (r: Option<Match>)
    ensures r == Recognize(qHashes, db)
  {
    if |qHashes| == 0 {
      return None;
    }
    var order, votes, hits := CollectVotes(qHashes, db);
    VotesEmpty(hits);
    if |votes| == 0 {
      return None;
    }
    var results: seq<Match> := [];
    for k := 0 to |order|
      invariant results == Results(hits, order[..k])
    {
      VoteOf(hits, order[k]);
      var best := MostCommon(votes[order[k]]);
      ResultsSnoc(hits, order, k);
      results := results + [Match(order[k], best.count, best.offset)];
    }
    assert order[..|order|] == order;
    results := SortBy(results, ByVotes);
    r := Some(results[0]);
  }

  /**
   * `recognize_audio` from the query's peaks on: hashes them with fan-out 20
   * and votes.
   */
  method RecognizeAudio(peaks: seq<Peak>, db: Index, sha: Key -> HashValue) returns (r: Option<Match>)
    ensures r == Recognize(GeneratedLandmarks(peaks, QueryFanValue, sha), db)
  {
    var buffer := new Peak[|peaks|](k requires 0 <= k < |peaks| => peaks[k]);
    assert buffer[..] == peaks;
    var qHashes := GenerateHashes(buffer, QueryFanValue, sha);
    r := MatchHashes(qHashes, db);
  }

  // ---------------------------------------------------------------------
  // Properties of recognition

  /** The query hashes pair anchors with partners 1..20 positions later and 0 < dt <= 200. */
  lemma QueryPairing(p: seq<Peak>)
    ensures forall l :: l in Links(p, QueryFanValue) <==>
              l.anchor < l.partner < |p| && l.partner - l.anchor <= 20
              && 0 < p[l.partner].time - p[l.anchor].time <= 200
  {
    forall l ensures l in Links(p, QueryFanValue) <==> Linked(p, l, QueryFanValue) {
      LinksUpToExact(p, |p|, QueryFanValue, l);
    }
  }

  lemma {:induction false} HitsEmpty(qs: seq<Landmark>, db: Index)
    ensures Hits(qs, db) == [] <==> forall k :: 0 <= k < |qs| ==> Lookup(db, qs[k].hash) == []
  {
    if qs != [] {
      var init := qs[..|qs| - 1];
      HitsEmpty(init, db);
      var q := qs[|qs| - 1];
      assert Hits(qs, db) == Hits(init, db) + PostingHits(Lookup(db, q.hash), q.time);
      forall k | 0 <= k < |init| ensures init[k] == qs[k] {}
      assert (forall k :: 0 <= k < |qs| ==> Lookup(db, qs[k].hash) == [])
             <==> (forall k :: 0 <= k < |init| ==> Lookup(db, init[k].hash) == []) && Lookup(db, q.hash) == [];
    }
  }

  /**
   * Recognition returns `None` exactly when no query hash has a posting: in
   * particular without query hashes, and when no query hash is a key.
   */
  lemma NoMatchIff(qs: seq<Landmark>, db: Index)
    ensures Recognize(qs, db) == None <==> forall k :: 0 <= k < |qs| ==> Lookup(db, qs[k].hash) == []
    ensures (forall k :: 0 <= k < |qs| ==> qs[k].hash !in db) ==> Recognize(qs, db) == None
  {
    HitsEmpty(qs, db);
  }

  lemma {:induction false} OffsetsAppend(a: seq<Hit>, b: seq<Hit>, s: string)
    ensures OffsetsOf(a + b, s) == OffsetsOf(a, s) + OffsetsOf(b, s)
  {
    if b == [] {
      assert a + b == a;
    } else {
      var c, b', x := a + b, b[..|b| - 1], b[|b| - 1];
      OffsetsAppend(a, b', s);
      assert c[..|c| - 1] == a + b' && c[|c| - 1] == x;
      assert OffsetsOf(c, s) == OffsetsOf(a + b', s) + (if x.song == s then [x.offset] else []);
    }
  }

  /** An offset voted for `song` is `song_t - q_t` for some query hash and posting of `song`. */
  predicate VotedBy(qs: seq<Landmark>, db: Index, song: string, o: int, k: int, m: int)
  {
    0 <= k < |qs| && 0 <= m < |Lookup(db, qs[k].hash)|
    && Lookup(db, qs[k].hash)[m].song == song && o == Lookup(db, qs[k].hash)[m].time - qs[k].time
  }

  lemma {:induction false} PostingOffsets(ps: seq<Posting>, qt: int, song: string, o: int)
    ensures o in OffsetsOf(PostingHits(ps, qt), song) <==>
              exists m :: 0 <= m < |ps| && ps[m].song == song && o == ps[m].time - qt
  {
    if ps != [] {
      var init := ps[..|ps| - 1];
      PostingOffsets(init, qt, song, o);
      assert PostingHits(ps, qt)[..|ps| - 1] == PostingHits(init, qt);
      if m :| 0 <= m < |init| && init[m].song == song && o == init[m].time - qt {
        assert ps[m] == init[m];
      }
      if m :| 0 <= m < |ps| && ps[m].song == song && o == ps[m].time - qt {
        if m < |init| { assert ps[m] == init[m]; }
      }
    }
  }

  /** The offsets of `song` after one more query hash are the earlier ones then those of its postings. */
  lemma HitsSnocOffsets(qs: seq<Landmark>, db: Index, song: string)
    requires qs != []
    ensures OffsetsOf(Hits(qs, db), song)
            == OffsetsOf(Hits(qs[..|qs| - 1], db), song)
               + OffsetsOf(PostingHits(Lookup(db, qs[|qs| - 1].hash), qs[|qs| - 1].time), song)
  {
    var q := qs[|qs| - 1];
    var tail := if q.hash in db then PostingHits(db[q.hash], q.time) else [];
    OffsetsAppend(Hits(qs[..|qs| - 1], db), tail, song);
    assert tail == PostingHits(Lookup(db, q.hash), q.time);
  }

  /** Every offset recorded for a song comes from a query hash and one of that song's postings. */
  lemma {:induction false} OffsetsSound(qs: seq<Landmark>, db: Index, song: string, o: int)
    requires o in OffsetsOf(Hits(qs, db), song)
    ensures exists k, m :: VotedBy(qs, db, song, o, k, m)
  {
    var init, q := qs[..|qs| - 1], qs[|qs| - 1];
    HitsSnocOffsets(qs, db, song);
    if o in OffsetsOf(Hits(init, db), song) {
      OffsetsSound(init, db, song, o);
      var k, m :| VotedBy(init, db, song, o, k, m);
      assert init[k] == qs[k];
      assert VotedBy(qs, db, song, o, k, m);
    } else {
      PostingOffsets(Lookup(db, q.hash), q.time, song, o);
      var m :| 0 <= m < |Lookup(db, q.hash)| && Lookup(db, q.hash)[m].song == song
               && o == Lookup(db, q.hash)[m].time - q.time;
      assert VotedBy(qs, db, song, o, |qs| - 1, m);
    }
  }

  /** Every query hash at `qt` matching a posting `(song, t)` records the offset `t - qt` for the song. */
  lemma {:induction false} OffsetsComplete(qs: seq<Landmark>, db: Index, song: string, o: int, k: int, m: int)
    requires VotedBy(qs, db, song, o, k, m)
    ensures o in OffsetsOf(Hits(qs, db), song)
  {
    var init, q := qs[..|qs| - 1], qs[|qs| - 1];
    HitsSnocOffsets(qs, db, song);
    if k < |init| {
      assert init[k] == qs[k];
      assert VotedBy(init, db, song, o, k, m);
      OffsetsComplete(init, db, song, o, k, m);
    } else {
      assert qs[k] == q;
      PostingOffsets(Lookup(db, q.hash), q.time, song, o);
    }
  }

  /** The offsets recorded for a song are exactly those of its matches. */
  lemma OffsetsExact(qs: seq<Landmark>, db: Index, song: string, o: int)
    ensures o in OffsetsOf(Hits(qs, db), song) <==> exists k, m :: VotedBy(qs, db, song, o, k, m)
  {
    if o in OffsetsOf(Hits(qs, db), song) {
      OffsetsSound(qs, db, song, o);
    }
    if k, m :| VotedBy(qs, db, song, o, k, m) {
      OffsetsComplete(qs, db, song, o, k, m);
    }
  }

  /** The number of postings of `song` in `ps`. */
  function SongPostings(ps: seq<Posting>, song: string): nat
  {
    if ps == [] then 0
    else SongPostings(ps[..|ps| - 1], song) + (if ps[|ps| - 1].song == song then 1 else 0)
  }

  /** The number of (query hash, posting of `song`) matches. */
  function MatchCount(qs: seq<Landmark>, db: Index, song: string): nat
  {
    if qs == [] then 0
    else MatchCount(qs[..|qs| - 1], db, song) + SongPostings(Lookup(db, qs[|qs| - 1].hash), song)
  }

  lemma {:induction false} PostingOffsetCount(ps: seq<Posting>, qt: int, song: string)
    ensures |OffsetsOf(PostingHits(ps, qt), song)| == SongPostings(ps, song)
  {
    if ps != [] {
      PostingOffsetCount(ps[..|ps| - 1], qt, song);
      assert PostingHits(ps, qt)[..|ps| - 1] == PostingHits(ps[..|ps| - 1], qt);
    }
  }

  /** A song gets one offset per match of a query hash with one of its postings. */
  lemma {:induction false} OffsetCount(qs: seq<Landmark>, db: Index, song: string)
    ensures |OffsetsOf(Hits(qs, db), song)| == MatchCount(qs, db, song)
  {
    if qs != [] {
      var init, q := qs[..|qs| - 1], qs[|qs| - 1];
      OffsetCount(init, db, song);
      HitsSnocOffsets(qs, db, song);
      PostingOffsetCount(Lookup(db, q.hash), q.time, song);
    }
  }

  /** The score of a voted song bounds the multiplicity of each of its offsets, and is attained. */
  lemma ScoreBound(hits: seq<Hit>, song: string)
    requires OffsetsOf(hits, song) != []
    ensures Score(hits, song).song == song && Score(hits, song).votes >= 1
    ensures Score(hits, song).votes == multiset(OffsetsOf(hits, song))[Score(hits, song).offset]
    ensures forall o :: multiset(OffsetsOf(hits, song))[o] <= Score(hits, song).votes
  {
  }

  /**
   * The head of a list of results sorted by votes is one of them, `results[k]`:
   * no result has more votes and every earlier one has fewer.
   */
  lemma VotesHead(results: seq<Match>) returns (k: nat)
    requires results != []
    ensures k < |results| && SortBy(results, ByVotes)[0] == results[k]
    ensures forall j :: 0 <= j < |results| ==> results[j].votes <= results[k].votes
    ensures forall j :: 0 <= j < k ==> results[j].votes < results[k].votes
  {
    ByVotesTotal();
    SortHead(results, ByVotes);
    var h := SortBy(results, ByVotes)[0];
    k :| 0 <= k < |results| && results[k] == h && forall j :: 0 <= j < k ==> !ByVotes(results[j], h);
    forall j | 0 <= j < |results| ensures results[j].votes <= h.votes {
      assert ByVotes(h, results[j]);
    }
  }

  /** `order` lists, once each, exactly the songs that received votes in `hits`. */
  ghost predicate Listing(hits: seq<Hit>, order: seq<string>)
  {
    && (forall s :: s in order <==> OffsetsOf(hits, s) != [])
    && (forall i, j :: 0 <= i < j < |order| ==> order[i] != order[j])
  }

  lemma SongOrderListing(hits: seq<Hit>)
    ensures Listing(hits, SongOrder(hits))
    ensures SongOrder(hits) == [] <==> hits == []
  {
    SongOrderExact(hits);
    SongOrderDistinct(hits);
  }

  /** The head of the sorted results is the score of the first best-scored song of `order`. */
  lemma WinnerAmong(hits: seq<Hit>, order: seq<string>, m: Match) returns (k: nat)
    requires order != [] && m == SortBy(Results(hits, order), ByVotes)[0]
    ensures k < |order| && m == Score(hits, order[k])
    ensures forall j :: 0 <= j < |order| ==> Score(hits, order[j]).votes <= m.votes
    ensures forall j :: 0 <= j < k ==> Score(hits, order[j]).votes < m.votes
  {
    var results := Results(hits, order);
    k := VotesHead(results);
    assert m == Score(hits, order[k]);
    forall j | 0 <= j < |order| ensures Score(hits, order[j]).votes <= m.votes {
      assert results[j] == Score(hits, order[j]);
    }
    forall j | 0 <= j < k ensures Score(hits, order[j]).votes < m.votes {
      assert results[j] == Score(hits, order[j]);
    }
  }

  /** When every listed song scores at most `v`, no offset of any song has more than `v` votes. */
  lemma NoneHigher(hits: seq<Hit>, order: seq<string>, v: nat)
    requires Listing(hits, order)
    requires forall j :: 0 <= j < |order| ==> Score(hits, order[j]).votes <= v
    ensures forall s, o :: multiset(OffsetsOf(hits, s))[o] <= v
  {
    forall s, o ensures multiset(OffsetsOf(hits, s))[o] <= v {
      if s in order {
        var j :| 0 <= j < |order| && order[j] == s;
        ScoreBound(hits, s);
      }
    }
  }

  /**
   * When the songs listed before `order[k]` score less than `v`, none of
   * their offsets has `v` votes or more.
   */
  lemma BelowScore(hits: seq<Hit>, order: seq<string>, k: nat, v: nat)
    requires Listing(hits, order) && k < |order|
    requires forall j :: 0 <= j < k ==> Score(hits, order[j]).votes < v
    ensures forall j, k', o :: 0 <= j < k' < |order| && order[k'] == order[k] ==>
              multiset(OffsetsOf(hits, order[j]))[o] < v
  {
    forall j, k', o | 0 <= j < k' < |order| && order[k'] == order[k]
      ensures multiset(OffsetsOf(hits, order[j]))[o] < v
    {
      assert k' == k;
      assert order[j] in order;
      ScoreBound(hits, order[j]);
    }
  }

  /** The properties of the returned result, for the songs listed in `order`. */
  lemma WinnerFor(hits: seq<Hit>, order: seq<string>, m: Match)
    requires Listing(hits, order)
    requires order != [] && m == SortBy(Results(hits, order), ByVotes)[0]
    ensures OffsetsOf(hits, m.song) != [] && m.votes >= 1 && m.song in order
    ensures m.votes == multiset(OffsetsOf(hits, m.song))[m.offset]
    ensures forall o :: multiset(OffsetsOf(hits, m.song))[o] <= m.votes
    ensures forall s, o :: multiset(OffsetsOf(hits, s))[o] <= m.votes
    ensures forall j, k, o :: 0 <= j < k < |order| && order[k] == m.song ==>
              multiset(OffsetsOf(hits, order[j]))[o] < m.votes
  {
    var k := WinnerAmong(hits, order, m);
    assert order[k] in order;
    ScoreBound(hits, order[k]);
    NoneHigher(hits, order, m.votes);
    BelowScore(hits, order, k, m.votes);
  }

  /**
   * The returned song received votes; its `votes` is the highest multiplicity
   * of any one of its offsets and `offset` has that multiplicity; no song has
   * an offset with more votes; and every song that received its first vote
   * earlier scored strictly fewer votes.
   */
  lemma Winner(qs: seq<Landmark>, db: Index, m: Match)
    requires Recognize(qs, db) == Some(m)
    ensures OffsetsOf(Hits(qs, db), m.song) != [] && m.votes >= 1 && m.song in SongOrder(Hits(qs, db))
    ensures m.votes == multiset(OffsetsOf(Hits(qs, db), m.song))[m.offset]
    ensures forall o :: multiset(OffsetsOf(Hits(qs, db), m.song))[o] <= m.votes
    ensures forall s, o :: multiset(OffsetsOf(Hits(qs, db), s))[o] <= m.votes
    ensures forall j, k, o :: 0 <= j < k < |SongOrder(Hits(qs, db))| && SongOrder(Hits(qs, db))[k] == m.song ==>
              multiset(OffsetsOf(Hits(qs, db), SongOrder(Hits(qs, db))[j]))[o] < m.votes
  {
    SongOrderListing(Hits(qs, db));
    WinnerFor(Hits(qs, db), SongOrder(Hits(qs, db)), m);
  }
}
