/**
 * The admin service (backend/audio_trainer_service.py): training a song
 * adds its fingerprints to the index and its name to the song list,
 * deleting a song removes every trace of it, listing returns the song
 * list; every admin route (train, delete, songs) first checks the admin
 * key. The pickled `{"db": ..., "songs": ...}` store that each route loads
 * and saves is the state of a `TrainerService` object.
 */
module AudioTrainerService {
  import opened Wrappers
  import opened FingerprintTrain

  /** `ADMIN_KEY`. */
  const AdminKey := "secret123"

  /** The JSON replies of the routes; `Refused` is a non-200 `JSONResponse`. */
  datatype Reply =
    | Trained(song: string, hashes: nat)
    | Deleted(song: string)
    | SongList(songs: seq<string>)
    | Refused(status: nat, error: string)

  const Unauthorized := Refused(403, "Unauthorized")
  const NotFound := Refused(404, "Song not found")

  // ---------------------------------------------------------------------
  // The song list

  predicate NoDuplicates(xs: seq<string>)
  {
    forall i, j :: 0 <= i < j < |xs| ==> xs[i] != xs[j]
  }

  /** The song list after training `name`: appended only if absent. */
  function TrainedSongs(songs: seq<string>, name: string): seq<string>
  {
    if name in songs then songs else songs + [name]
  }

  /**
   * Training lists the name, adds no other name, never duplicates a name,
   * and keeps the list when the name is already there; training twice is
   * training once.
   */
  lemma TrainedSongsSpec(songs: seq<string>, name: string)
    ensures name in TrainedSongs(songs, name)
    ensures forall x :: x in TrainedSongs(songs, name) <==> x in songs || x == name
    ensures songs <= TrainedSongs(songs, name)
    ensures name in songs ==> TrainedSongs(songs, name) == songs
    ensures NoDuplicates(songs) ==> NoDuplicates(TrainedSongs(songs, name))
    ensures TrainedSongs(TrainedSongs(songs, name), name) == TrainedSongs(songs, name)
  {
  }

  /** `songs.remove(name)`: the first occurrence goes. */
  function RemoveFirst(xs: seq<string>, x: string): seq<string>
  {
    if xs == [] then []
    else if xs[0] == x then xs[1..]
    else [xs[0]] + RemoveFirst(xs[1..], x)
  }

  /** Where `remove` cuts: the first position of `x`. */
  lemma {:induction false} RemoveFirstIndex(xs: seq<string>, x: string) returns (i: nat)
    requires x in xs
    ensures i < |xs| && xs[i] == x && x !in xs[..i]
    ensures RemoveFirst(xs, x) == xs[..i] + xs[i + 1..]
  {
    if xs[0] == x {
      i := 0;
    } else {
      var rest := xs[1..];
      assert x in rest;
      var j := RemoveFirstIndex(rest, x);
      i := j + 1;
      assert xs[..i] == [xs[0]] + rest[..j];
      assert xs[i + 1..] == rest[j + 1..];
    }
  }

  lemma {:induction false} RemoveFirstAbsent(xs: seq<string>, x: string)
    requires x !in xs
    ensures RemoveFirst(xs, x) == xs
  {
    if xs != [] {
      assert x !in xs[1..];
      RemoveFirstAbsent(xs[1..], x);
      assert xs == [xs[0]] + xs[1..];
    }
  }

  /** Removing takes one copy of `x` away and keeps the other names; a name not present leaves the list. */
  lemma {:induction false} RemoveFirstSpec(xs: seq<string>, x: string)
    ensures x !in xs ==> RemoveFirst(xs, x) == xs
    ensures multiset(RemoveFirst(xs, x)) == multiset(xs) - multiset{x}
  {
    if x !in xs {
      RemoveFirstAbsent(xs, x);
      assert x !in multiset(xs);
    } else if xs[0] == x {
      assert xs == [x] + xs[1..];
    } else {
      var rest := xs[1..];
      assert xs == [xs[0]] + rest;
      RemoveFirstSpec(rest, x);
      assert x in multiset(rest);
    }
  }

  /** In a list without duplicates, removing a name removes it entirely and keeps the list free of duplicates. */
  lemma RemoveFirstDistinct(xs: seq<string>, x: string)
    requires NoDuplicates(xs)
    ensures x !in RemoveFirst(xs, x)
    ensures forall y :: y in RemoveFirst(xs, x) <==> y in xs && y != x
    ensures NoDuplicates(RemoveFirst(xs, x))
  {
    if x !in xs {
      RemoveFirstAbsent(xs, x);
    } else {
      var i := RemoveFirstIndex(xs, x);
      var r := RemoveFirst(xs, x);
      assert |r| == |xs| - 1;
      assert forall a :: 0 <= a < |r| ==> r[a] == if a < i then xs[a] else xs[a + 1];
      forall y ensures y in r <==> y in xs && y != x {
        if y in xs && y != x {
          var a :| 0 <= a < |xs| && xs[a] == y;
          assert r[if a < i then a else a - 1] == y;
        }
      }
    }
  }

  // ---------------------------------------------------------------------
  // Purging a song from the index

  /** `[entry for entry in ps if entry[0] != song]`. */
  function Without(ps: seq<Posting>, song: string): seq<Posting>
  {
    if ps == [] then []
    else
      Without(ps[..|ps| - 1], song)
      + (if ps[|ps| - 1].song != song then [ps[|ps| - 1]] else [])
  }

  lemma {:induction false} WithoutCount(ps: seq<Posting>, song: string, p: Posting)
    ensures multiset(Without(ps, song))[p] == if p.song == song then 0 else multiset(ps)[p]
  {
    if ps != [] {
      var init := ps[..|ps| - 1];
      WithoutCount(init, song, p);
      assert ps == init + [ps[|ps| - 1]];
    }
  }

  lemma {:induction false} WithoutKeeps(ps: seq<Posting>, song: string)
    requires forall k :: 0 <= k < |ps| ==> ps[k].song != song
    ensures Without(ps, song) == ps
  {
    if ps != [] {
      var init := ps[..|ps| - 1];
      assert forall k :: 0 <= k < |init| ==> init[k] == ps[k];
      WithoutKeeps(init, song);
      assert ps == init + [ps[|ps| - 1]];
    }
  }

  /**
   * The filter keeps every entry of another song, with its multiplicity,
   * and no entry of `song`; it distributes over concatenation, so the kept
   * entries stay in their order.
   */
  lemma WithoutSpec(ps: seq<Posting>, song: string)
    ensures forall p :: multiset(Without(ps, song))[p] == if p.song == song then 0 else multiset(ps)[p]
    ensures forall p :: p in Without(ps, song) <==> p in ps && p.song != song
    ensures (forall k :: 0 <= k < |ps| ==> ps[k].song != song) ==> Without(ps, song) == ps
  {
    forall p ensures multiset(Without(ps, song))[p] == if p.song == song then 0 else multiset(ps)[p] {
      WithoutCount(ps, song, p);
    }
    forall p ensures p in Without(ps, song) <==> p in ps && p.song != song {
      WithoutCount(ps, song, p);
      assert p in Without(ps, song) <==> p in multiset(Without(ps, song));
      assert p in ps <==> p in multiset(ps);
    }
    if forall k :: 0 <= k < |ps| ==> ps[k].song != song {
      WithoutKeeps(ps, song);
    }
  }

  lemma {:induction false} WithoutAppend(a: seq<Posting>, b: seq<Posting>, song: string)
    ensures Without(a + b, song) == Without(a, song) + Without(b, song)
  {
    if b == [] {
      assert a + b == a;
    } else {
      WithoutAppend(a, b[..|b| - 1], song);
      assert (a + b)[..|a + b| - 1] == a + b[..|b| - 1];
    }
  }

  /** The index after `delete_song`'s loop: each list filtered, emptied keys dropped. */
  function Purge(db: Index, song: string): Index
  {
    map h | h in db && Without(db[h], song) != [] :: Without(db[h], song)
  }

  lemma PurgeAt(db: Index, song: string, h: HashValue)
    ensures h in Purge(db, song) <==> h in db && exists p :: p in db[h] && p.song != song
    ensures h in Purge(db, song) ==> Purge(db, song)[h] == Without(db[h], song) != []
    ensures h in Purge(db, song) ==> forall p :: p in Purge(db, song)[h] <==> p in db[h] && p.song != song
  {
    if h in db {
      WithoutSpec(db[h], song);
      if p :| p in db[h] && p.song != song {
        assert p in Without(db[h], song);
      }
    }
  }

  /**
   * After purging no list holds an entry of the song and no key maps to an
   * empty list; a key survives exactly when it had an entry of another
   * song, and then keeps exactly those entries, in their order.
   */
  lemma PurgeSpec(db: Index, song: string)
    ensures forall h, p :: h in Purge(db, song) && p in Purge(db, song)[h] ==> p.song != song
    ensures forall h :: h in Purge(db, song) ==> Purge(db, song)[h] != []
    ensures forall h :: h in Purge(db, song) <==> h in db && exists p :: p in db[h] && p.song != song
    ensures forall h :: h in Purge(db, song) ==> Purge(db, song)[h] == Without(db[h], song)
    ensures forall h, p :: h in Purge(db, song) && p in Purge(db, song)[h] ==> p in db[h]
  {
    forall h {
      PurgeAt(db, song, h);
    }
  }

  /** The index once the keys `done` have been processed. */
  function PurgeOn(db: Index, song: string, done: set<HashValue>): Index
  {
    map h | h in db && (h in done ==> Without(db[h], song) != []) ::
      if h in done then Without(db[h], song) else db[h]
  }

  lemma PurgeOnStep(db: Index, song: string, done: set<HashValue>, h: HashValue)
    requires h in db && h !in done
    ensures h in PurgeOn(db, song, done) && PurgeOn(db, song, done)[h] == db[h]
    ensures var cur := PurgeOn(db, song, done);
            var kept := Without(cur[h], song);
            (if kept == [] then cur[h := kept] - {h} else cur[h := kept]) == PurgeOn(db, song, done + {h})
  {
  }

  lemma PurgeOnAll(db: Index, song: string)
    ensures PurgeOn(db, song, db.Keys) == Purge(db, song)
    ensures PurgeOn(db, song, {}) == db
  {
  }

  // ---------------------------------------------------------------------
  // The consistency of the store

  /** Every posting of the index belongs to a listed song. */
  ghost predicate Listed(db: Index, songs: seq<string>)
  {
    forall h, p :: h in db && p in db[h] ==> p.song in songs
  }

  /** The store's invariant: no duplicate name, no empty list, no posting of an unlisted song. */
  ghost predicate Consistent(db: Index, songs: seq<string>)
  {
    && NoDuplicates(songs)
    && (forall h :: h in db ==> db[h] != [])
    && Listed(db, songs)
  }

  lemma {:induction false} PostingsForSong(songId: string, hs: seq<Landmark>, h: HashValue)
    ensures forall p :: p in PostingsFor(songId, hs, h) ==> p.song == songId
  {
    if hs != [] {
      PostingsForSong(songId, hs[..|hs| - 1], h);
    }
  }

  /** Training keeps the store consistent. */
  lemma TrainConsistent(db: Index, songs: seq<string>, name: string, analysis: Option<seq<Peak>>, sha: Key -> HashValue)
    requires Consistent(db, songs)
    ensures Consistent(Fingerprinted(db, name, analysis, sha), TrainedSongs(songs, name))
  {
    var songs' := TrainedSongs(songs, name);
    TrainedSongsSpec(songs, name);
    if analysis.Some? {
      var hs := GeneratedLandmarks(analysis.value, FanValue, sha);
      var db' := AddPostings(db, name, hs);
      AddPostingsKeepsBucketsNonEmpty(db, name, hs);
      AddPostingsSpec(db, name, hs);
      forall h, p: Posting | h in db' && p in db'[h] ensures p.song in songs' {
        assert db'[h] == Lookup(db, h) + PostingsFor(name, hs, h);
        PostingsForSong(name, hs, h);
      }
    }
  }

  /** Deleting a listed song keeps the store consistent and leaves no posting of it. */
  lemma DeleteConsistent(db: Index, songs: seq<string>, name: string)
    requires Consistent(db, songs) && name in songs
    ensures Consistent(Purge(db, name), RemoveFirst(songs, name))
    ensures name !in RemoveFirst(songs, name)
  {
    PurgeSpec(db, name);
    RemoveFirstDistinct(songs, name);
  }

  /**
   * Retraining a song appends its postings a second time: each list gets
   * the song's postings under that hash twice over.
   */
  lemma RetrainDuplicates(db: Index, name: string, peaks: seq<Peak>, sha: Key -> HashValue, h: HashValue)
    ensures var postings := PostingsFor(name, GeneratedLandmarks(peaks, FanValue, sha), h);
            Lookup(Fingerprinted(Fingerprinted(db, name, Some(peaks), sha), name, Some(peaks), sha), h)
            == Lookup(db, h) + postings + postings
  {
    var hs := GeneratedLandmarks(peaks, FanValue, sha);
    AddPostingsAt(db, name, hs, h);
    AddPostingsAt(AddPostings(db, name, hs), name, hs, h);
  }

  // ---------------------------------------------------------------------
  // The service

  class TrainerService {
    /** The stored `db` and `songs`. */
    var db: Index
    var songs: seq<string>

    ghost predicate Valid()
      reads this
    {
      Consistent(db, songs)
    }

    /** `load_db` without a store: an empty index and song list. */
    constructor ()
      ensures db == map[] && songs == [] && Valid()
    {
      db := map[];
      songs := [];
    }

    /**
     * `load_db` of an existing store: whatever index and song list the file
     * holds, consistent or not.
     */
    constructor Load(db: Index, songs: seq<string>)
      ensures this.db == db && this.songs == songs
      ensures Valid() <==> Consistent(db, songs)
    {
      this.db := db;
      this.songs := songs;
    }

    /**
     * `train_song`: with the admin key, fingerprints the upload into the
     * index (`analysis` is `None` for audio that fails to load) and lists
     * the filename if absent; with another key, 403 and no change.
     */
    method Train(filename: string, adminKey: string, analysis: Option<seq<Peak>>, sha: Key -> HashValue)
      returns (reply: Reply)
      modifies this
      ensures adminKey != AdminKey ==> reply == Unauthorized && db == old(db) && songs == old(songs)
      ensures adminKey == AdminKey ==>
                && db == Fingerprinted(old(db), filename, analysis, sha)
                && songs == TrainedSongs(old(songs), filename)
                && reply == Trained(filename, HashCount(analysis, sha))
      ensures old(Valid()) ==> Valid()
    {
      if adminKey != AdminKey {
        return Unauthorized;
      }
      if Valid() {
        TrainConsistent(db, songs, filename, analysis, sha);
      }
      var store := new FingerprintDb(db);
      var count := FingerprintFile(analysis, filename, store, sha);
      if filename !in songs {
        songs := songs + [filename];
      }
      db := store.index;
      reply := Trained(filename, count);
    }

    /**
     * `delete_song`: 403 without the admin key, 404 for an unlisted name
     * (no change either way); otherwise filters every posting list, drops
     * the keys left empty and removes the name from the song list.
     */
    method Delete(songName: string, adminKey: string) returns (reply: Reply)
      modifies this
      ensures adminKey != AdminKey ==> reply == Unauthorized && db == old(db) && songs == old(songs)
      ensures adminKey == AdminKey && songName !in old(songs) ==>
                reply == NotFound && db == old(db) && songs == old(songs)
      ensures adminKey == AdminKey && songName in old(songs) ==>
                && db == Purge(old(db), songName)
                && songs == RemoveFirst(old(songs), songName)
                && reply == Deleted(songName)
      ensures old(Valid()) ==> Valid()
    {
      if adminKey != AdminKey {
        return Unauthorized;
      }
      if songName !in songs {
        return NotFound;
      }
      ghost var start := db;
      if Valid() {
        DeleteConsistent(db, songs, songName);
      }
      PurgeOnAll(start, songName);
      var keys := db.Keys;
      while keys != {}
        invariant keys <= start.Keys
        invariant songs == old(songs)
        invariant db == PurgeOn(start, songName, start.Keys - keys)
        decreases |keys|
      {
        var h :| h in keys;
        PurgeOnStep(start, songName, start.Keys - keys, h);
        assert (start.Keys - keys) + {h} == start.Keys - (keys - {h});
        var kept := Without(db[h], songName);
        db := db[h := kept];
        if kept == [] {
          db := db - {h};
        }
        keys := keys - {h};
      }
      assert start.Keys - keys == start.Keys;
      songs := RemoveFirst(songs, songName);
      reply := Deleted(songName);
    }

    /** `list_songs`: the stored song list, or 403 without the admin key. */
    method ListSongs(adminKey: string) returns (reply: Reply)
      ensures adminKey == AdminKey ==> reply == SongList(songs)
      ensures adminKey != AdminKey ==> reply == Unauthorized
    {
      if adminKey != AdminKey {
        return Unauthorized;
      }
      reply := SongList(songs);
    }
  }
}
