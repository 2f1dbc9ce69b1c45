# Audio fingerprint index, trainer service and player helpers

A Dafny model of the core of a song-recognition application. The backend
recognises songs with a peak-pair audio fingerprint index:

- **Training** (backend/fingerprint_train.py). A song's spectrogram peaks are
  sorted by time. Each anchor peak is paired with up to ten later peaks. Every
  pair whose time delta lies in (0, 200] frames emits the hash of
  `f1|f2|dt`, stored with the anchor's time. Each hash is appended to an
  inverted index that maps a hash to (song, time) postings. The main script
  fingerprints every `.mp3` or `.wav` file of the song directory in sorted
  order.
- **Recognition** (backend/live_recognize.py). The query's peaks are hashed
  the same way with up to twenty partners per anchor. Every query hash found
  in the index votes, per posting, for the offset `song_t - q_t` of that
  posting's song. Each song is scored by the multiplicity of its most common
  offset. The song with the most votes is returned.
- **Admin service** (backend/audio_trainer_service.py). It trains a song
  (fingerprints it and lists its name once), deletes one (filters every
  posting list, drops keys left empty, unlists the name) and lists the songs.
  Every admin route (train, delete, songs) first checks the admin key.

The frontend player (frontend/src/components/MusicPlayer.js) contributes:

- the extension stripping of the recognised file name;
- the `m:ss` time format;
- the play/pause toggle and the seek handler. These keep the component state
  and the audio element in step until the track ends. The element then
  pauses itself, but the component has no `ended` listener, so `isPlaying`
  stays true. The next click only resets `isPlaying`, and the click after
  that restarts the track at 0.

Modules follow the source files:

- `StableSort` is Python's stable `list.sort`/`sorted` as a function. It is a
  stable insertion sort under a "may stand before" relation, with its
  permutation, order and stability proved.
- `FingerprintTrain` covers hashing, index insertion and the main script.
- `LiveRecognize` covers offset voting.
- `AudioTrainerService` is a `TrainerService` class whose `db` and `songs`
  fields stand for the pickled store. The store may start empty or hold
  any stored index and song list. `Train`, `Delete` and `ListSongs` are
  proved from any state, and each keeps the store consistent when it was.
- `MusicPlayer` holds the pure string helpers and the `Player` and
  `AudioElement` classes.
- `Wrappers` holds `Option`.

Where the source mutates state, the model is imperative:

- `GenerateHashes` sorts a caller's `array` in place and fills the hash list
  in the source's nested loops with their `continue`.
- `FingerprintFile` appends to the index of a `FingerprintDb` object.
- `CollectVotes`/`CastVotes` fill the `votes` dict in the nested loops.
- `MatchHashes` builds `results` and takes the head of the sorted list.
- `TrainerService.Delete` rewrites and removes keys in a loop.

Each method is proved against a function of its inputs (`Landmarks`,
`AddPostings`, `VotesOf`, `Recognize`, `Purge`, `RemoveFirst`). The
properties the source promises are then lemmas about those functions.

Boundaries of the model:

- The spectrogram peak picking is not modelled. A song or a query arrives as
  its list of integer (frequency bin, frame) peaks. `analysis = None` stands
  for an audio file that fails to load, which takes the `except` path of
  `fingerprint_file`, returning 0 and leaving the index unchanged.
- SHA-1 of the key string, truncated to twenty hex digits, is the function
  parameter `sha` of the key triple.
- The main script's directory listing and each file's peaks are parameters
  of `BuildIndex`.

## Model

| member | source | states |
|---|---|---|
| StableSort.SortBy | backend/fingerprint_train.py:52 | Python's stable sort as a function: a stable insertion sort under a "may stand before" relation, of the input's length; its meaning is given by `SortPermutes`, `SortSorted` and `SortStable` |
| StableSort.SortPermutes | backend/fingerprint_train.py:52 | the sorted list is a permutation of the input (equal multisets) |
| StableSort.SortSorted | backend/fingerprint_train.py:52 | under a total preorder the sorted list is ordered: every earlier element may stand before every later one |
| StableSort.SortStable | backend/live_recognize.py:98 | the sort is stable: the elements comparing equal to any `x` keep their input order |
| StableSort.SortHead | backend/live_recognize.py:98-99 | the head of the sorted list is an input element that may stand before every element, and no earlier input element may stand before it |
| FingerprintTrain.Landmarks | backend/fingerprint_train.py:53-65 | the hashes of already sorted peaks: `sha(f1, f2, dt)` with the anchor's time, for every admissible pair in loop order; characterised by `LandmarksExact` and `LinksAscending` |
| FingerprintTrain.GeneratedLandmarks | backend/fingerprint_train.py:52-65 | what `generate_hashes(peaks)` returns: `Landmarks` of the peaks after the stable sort by time |
| FingerprintTrain.ByTime | backend/fingerprint_train.py:52 | the sort key `lambda x: x[1]`: a peak may stand before another when its time is no later |
| FingerprintTrain.PeakSortSpec | backend/fingerprint_train.py:52 | `peaks.sort(key=time)` leaves a permutation of the peaks in non-decreasing time order, peaks of equal time in their input order |
| FingerprintTrain.SortPeaksByTime | backend/fingerprint_train.py:52 | the caller's array afterwards holds the stable time-sort of its old contents |
| FingerprintTrain.GenerateHashes | backend/fingerprint_train.py:47-65 | sorts the caller's peaks in place and returns exactly `Landmarks` of the sorted peaks |
| FingerprintTrain.PairHashes | backend/fingerprint_train.py:53-65 | the nested loops with their `continue` return the hash of every admissible pair in loop order with the anchor's time |
| FingerprintTrain.Linked | backend/fingerprint_train.py:56-61 | the pairs that get hashed: the partner is 1..fan_value positions after the anchor and in range, with 0 < dt <= 200 |
| FingerprintTrain.AnchorLinks | backend/fingerprint_train.py:56-61 | the inner `j` loop for anchor `i`: the pairs with partners `i+1..i+m` that pass both tests, in `j` order; characterised by `AnchorLinksExact` |
| FingerprintTrain.LinksUpTo | backend/fingerprint_train.py:54-61 | the outer `i` loop over the first `n` anchors: their pairs in the order the nested loops visit them; characterised by `LinksUpToExact` and `LinksUpToCount` |
| FingerprintTrain.Links | backend/fingerprint_train.py:54-61 | the pairs of all anchors in loop order; characterised by `LandmarksExact` and `LinksAscending` |
| FingerprintTrain.LandmarkOf | backend/fingerprint_train.py:58-64 | the entry of one pair: `sha(f1, f2, dt)` of the key `f1\|f2\|dt`, with the anchor's time `t1` |
| FingerprintTrain.Emit | backend/fingerprint_train.py:64 | the `hashes.append((h, t1))` sequence: one `LandmarkOf` entry per pair, in pair order |
| FingerprintTrain.AnchorLinksExact | backend/fingerprint_train.py:56-61 | anchor `i` is paired with exactly the partners `i+1..i+m` in range whose time delta lies in (0, 200] |
| FingerprintTrain.LinksUpToExact | backend/fingerprint_train.py:54-61 | the pairs of the first `n` anchors are exactly the admissible pairs with anchor below `n` |
| FingerprintTrain.LandmarksExact | backend/fingerprint_train.py:54-64 | a pair is hashed iff its partner is 1..fan_value positions after the anchor with 0 < dt <= 200; hash k is `sha(f1, f2, dt)` of pair k with the anchor's time |
| FingerprintTrain.LinksAscending | backend/fingerprint_train.py:54-58 | pairs are emitted in strictly increasing (anchor, partner) order, so none twice |
| FingerprintTrain.LinksUpToCount | backend/fingerprint_train.py:54-57 | the first `n` anchors yield at most `n * fan_value` pairs |
| FingerprintTrain.LandmarkCount | backend/fingerprint_train.py:54-57 | `len(generate_hashes(peaks)) <= len(peaks) * fan_value` |
| FingerprintTrain.SortShift | backend/fingerprint_train.py:52 | sorting commutes with shifting every peak time by a constant |
| FingerprintTrain.LinksShift | backend/fingerprint_train.py:59-61 | shifting all times by a constant selects the same pairs |
| FingerprintTrain.LandmarksShift | backend/fingerprint_train.py:59-64 | on sorted peaks a time shift gives the same hashes with every stored time shifted |
| FingerprintTrain.TimeShiftInvariance | backend/fingerprint_train.py:52-64 | `generate_hashes` of time-shifted peaks is the same hash sequence with every stored time shifted by the constant |
| FingerprintTrain.AddPostings | backend/fingerprint_train.py:81-82 | the index after `db.setdefault(h, []).append((song_id, t))` for each hash in order; characterised by `AddPostingsAt` and `AddPostingsKeys` |
| FingerprintTrain.AddPostingsAt | backend/fingerprint_train.py:81-82 | after insertion each list is the old list followed by the song's postings under that hash, in emission order |
| FingerprintTrain.AddPostingsKeys | backend/fingerprint_train.py:81-82 | a key is present after insertion iff it was present or is an emitted hash |
| FingerprintTrain.AddPostingsSpec | backend/fingerprint_train.py:81-82 | both facts for every hash: old entries stay a prefix, untouched keys keep their lists, the keys are the old ones plus the emitted ones |
| FingerprintTrain.AddPostingsKeepsBucketsNonEmpty | backend/fingerprint_train.py:81-82 | insertion never creates an empty posting list |
| FingerprintTrain.FingerprintDb.constructor | backend/fingerprint_train.py:94 | the `db` dict object that `fingerprint_file` appends to, holding the given index (`{}` in the main script) |
| FingerprintTrain.FingerprintDb.AddAll | backend/fingerprint_train.py:81-82 | the `setdefault(h, []).append((song_id, t))` loop leaves the index equal to `AddPostings` of the old index |
| FingerprintTrain.Fingerprinted | backend/fingerprint_train.py:68-89 | the index after `fingerprint_file`: unchanged when the audio fails to load, otherwise `AddPostings` of the song's generated hashes |
| FingerprintTrain.HashCount | backend/fingerprint_train.py:68-89 | the value `fingerprint_file` returns: 0 when the audio fails to load, otherwise the number of generated hashes |
| FingerprintTrain.FingerprintFile | backend/fingerprint_train.py:68-89 | the index becomes the old index plus the song's postings (unchanged when the audio fails to load); the result is the number of hashes (0 on failure) |
| FingerprintTrain.LexLe | backend/fingerprint_train.py:98 | Python's `str` order used by `sorted`: code point by code point, a proper prefix first |
| FingerprintTrain.LexTotalPreorder | backend/fingerprint_train.py:98 | Python's string order is total and transitive |
| FingerprintTrain.Lower | backend/fingerprint_train.py:99 | `fname.lower()` on ASCII letters, of the same length as the name |
| FingerprintTrain.EndsWith | backend/fingerprint_train.py:99 | `str.endswith` of one suffix: the last characters of the name are the suffix |
| FingerprintTrain.IsAudioName | backend/fingerprint_train.py:99 | `fname.lower().endswith((".mp3", ".wav"))` |
| FingerprintTrain.AudioNames | backend/fingerprint_train.py:98-103 | the names of the listing the main script keeps, in listing order; characterised by `AudioNamesExact` |
| FingerprintTrain.IndexAll | backend/fingerprint_train.py:98-104 | the index after `fingerprint_file` of each name in order, starting from the given index |
| FingerprintTrain.BuildIndex | backend/fingerprint_train.py:93-104 | the main script's song list is the audio names of the sorted listing, and its index is the result of fingerprinting them in that order from an empty index |
| FingerprintTrain.AudioNamesExact | backend/fingerprint_train.py:99-103 | the filter keeps each name ending in `.mp3`/`.wav` ignoring case as often as listed, and no other name |
| FingerprintTrain.AudioNamesSorted | backend/fingerprint_train.py:98-103 | filtering a sorted listing leaves it sorted |
| FingerprintTrain.SongListExact | backend/fingerprint_train.py:98-103 | the song list holds exactly the listed audio names, with their multiplicities, in sorted order |
| LiveRecognize.PostingHits | backend/live_recognize.py:85-86 | the votes of one posting list `db[h]` for a query hash at `q_t`: one (song_id, `song_t - q_t`) per posting, in order |
| LiveRecognize.Hits | backend/live_recognize.py:83-87 | the votes the query casts, in loop order: for each query hash in `db`, one (song, `song_t - q_t`) per posting; characterised by `OffsetsExact` and `OffsetCount` |
| LiveRecognize.CastVote | backend/live_recognize.py:87 | `votes[song_id].append(offset)` on a `defaultdict(list)`; characterised by `TallyAdd` |
| LiveRecognize.OffsetsOf | backend/live_recognize.py:82-87 | `votes[song]`: the offsets voted for the song, in the order cast; characterised by `OffsetsExact` and `OffsetCount` |
| LiveRecognize.SongOrder | backend/live_recognize.py:82-87 | the key order of `votes`: the voted songs in the order of their first vote; characterised by `SongOrderExact` and `SongOrderDistinct` |
| LiveRecognize.VotesOf | backend/live_recognize.py:82-87 | the `votes` dict after casting the votes in order, one `CastVote` each; characterised by `VotesOfTallied` |
| LiveRecognize.TallyAdd | backend/live_recognize.py:86-87 | one `votes[song_id].append(offset)` keeps the dict's keys (in first-vote order) and each song's offsets in step with the votes cast |
| LiveRecognize.VotesOfTallied | backend/live_recognize.py:82-87 | the dict after casting the votes has key order `SongOrder` and maps each song to its offsets, in order |
| LiveRecognize.VotesEmpty | backend/live_recognize.py:89-91 | the dict is empty exactly when no vote was cast |
| LiveRecognize.VoteOf | backend/live_recognize.py:94 | each key of the dict maps to the song's own, non-empty offset list |
| LiveRecognize.SongOrderExact | backend/live_recognize.py:82-87 | a song is a key iff it has an offset; there are keys iff there are votes |
| LiveRecognize.SongOrderDistinct | backend/live_recognize.py:82-87 | each song is a key once |
| LiveRecognize.SongOrderListing | backend/live_recognize.py:94 | `votes.items()` lists, once each, exactly the songs with votes |
| LiveRecognize.CastVotes | backend/live_recognize.py:85-87 | the inner loop appends one vote per posting: the key order and dict become `SongOrder` and `VotesOf` of the earlier votes followed by this list's votes |
| LiveRecognize.CollectVotes | backend/live_recognize.py:82-87 | the nested loops return the key order `SongOrder(Hits(q_hashes, db))` and the dict `VotesOf(Hits(q_hashes, db))` of all the votes the query casts |
| LiveRecognize.BestFrom | backend/live_recognize.py:95 | the scan of `most_common(1)` from position `i` on: a position whose value has the highest multiplicity, the first such, given that `best` is so among the first `i` |
| LiveRecognize.MostCommon | backend/live_recognize.py:95 | `most_common(1)[0]` is an offset of the list with the highest multiplicity, the first so tied, with that multiplicity as count |
| LiveRecognize.Score | backend/live_recognize.py:94-96 | a song's results entry: its most common offset and that offset's count; characterised by `ScoreBound` |
| LiveRecognize.ScoreBound | backend/live_recognize.py:94-96 | a voted song's `votes` is at least 1, is the multiplicity of its `offset`, and bounds the multiplicity of every offset |
| LiveRecognize.Results | backend/live_recognize.py:93-96 | the `results` list: one `Score` entry per key of `votes`, in key order |
| LiveRecognize.ByVotes | backend/live_recognize.py:98 | the sort `key=lambda x: x[1], reverse=True`: an entry may stand before another when it has at least as many votes |
| LiveRecognize.ByVotesTotal | backend/live_recognize.py:98 | the sort key "more or equal votes first" is a total preorder |
| LiveRecognize.Recognize | backend/live_recognize.py:78-100 | the result for the query hashes: `None` without hashes or votes, otherwise the head of the results sorted by votes; characterised by `Winner` and `NoMatchIff` |
| LiveRecognize.MatchHashes | backend/live_recognize.py:78-100 | the voting part returns `Recognize` of the query hashes: `None` without hashes or votes, otherwise the head of the results sorted by votes |
| LiveRecognize.RecognizeAudio | backend/live_recognize.py:76-100 | hashing the query peaks with fan-out 20 and voting returns `Recognize` of those hashes |
| LiveRecognize.QueryPairing | backend/live_recognize.py:56-66 | the query pairs each anchor with exactly the partners 1..20 positions later whose time delta lies in (0, 200] |
| LiveRecognize.HitsEmpty | backend/live_recognize.py:83-85 | no vote is cast iff no query hash has a posting |
| LiveRecognize.NoMatchIff | backend/live_recognize.py:78-91 | the result is `None` iff no query hash has a posting, in particular with no query hashes or with no hash a key of `db` |
| LiveRecognize.PostingOffsets | backend/live_recognize.py:85-87 | one posting list votes for offset `o` for a song iff one of the song's postings has time `o + q_t` |
| LiveRecognize.OffsetsSound | backend/live_recognize.py:83-87 | every offset recorded for a song is `song_t - q_t` of some query hash in `db` and a posting of that song |
| LiveRecognize.OffsetsComplete | backend/live_recognize.py:83-87 | every such (query hash, posting) match records its offset |
| LiveRecognize.OffsetsExact | backend/live_recognize.py:83-87 | both directions: an offset is recorded iff it comes from a match |
| LiveRecognize.PostingOffsetCount | backend/live_recognize.py:85-87 | one posting list votes once per posting of the song |
| LiveRecognize.OffsetCount | backend/live_recognize.py:83-87 | a song's offset count equals its number of (query hash, posting) matches |
| LiveRecognize.VotesHead | backend/live_recognize.py:98-99 | the head of the results sorted by votes is some `results[k]` with the most votes, and every earlier entry has fewer |
| LiveRecognize.WinnerAmong | backend/live_recognize.py:93-99 | the head is the score of a listed song: no listed song scores more, and every song listed earlier scores less |
| LiveRecognize.WinnerFor | backend/live_recognize.py:93-100 | `WinnerAmong` stated per offset: the returned song's count of its best offset bounds every other offset count, and earlier-listed songs have only smaller counts |
| LiveRecognize.Winner | backend/live_recognize.py:78-100 | a returned song was voted for; its `votes` is the multiplicity of its `offset` and the highest of its offsets; no song has an offset with more votes; songs first voted for earlier have strictly fewer |
| AudioTrainerService.TrainedSongs | backend/audio_trainer_service.py:57-58 | the song list after training: appended with the name unless it is already listed; characterised by `TrainedSongsSpec` |
| AudioTrainerService.TrainedSongsSpec | backend/audio_trainer_service.py:57-58 | training lists the name, adds no other, keeps the list when present, never duplicates, and is idempotent |
| AudioTrainerService.RemoveFirst | backend/audio_trainer_service.py:85 | `songs.remove(x)`: the list without its first `x`; characterised by `RemoveFirstIndex` and `RemoveFirstSpec` |
| AudioTrainerService.RemoveFirstIndex | backend/audio_trainer_service.py:85 | `songs.remove(x)` cuts out the first occurrence of `x` and keeps the rest in order |
| AudioTrainerService.RemoveFirstSpec | backend/audio_trainer_service.py:85 | removal takes away exactly one copy of `x` (nothing when absent) |
| AudioTrainerService.RemoveFirstDistinct | backend/audio_trainer_service.py:85 | in a list without duplicates the name is gone, the others stay, and no duplicate appears |
| AudioTrainerService.Without | backend/audio_trainer_service.py:82 | `[entry for entry in db[h] if entry[0] != song_name]`; characterised by `WithoutSpec` and `WithoutAppend` |
| AudioTrainerService.WithoutSpec | backend/audio_trainer_service.py:82 | the filter keeps every entry of another song with its multiplicity and none of the song; a list without the song is unchanged |
| AudioTrainerService.WithoutAppend | backend/audio_trainer_service.py:82 | the filter distributes over concatenation, so kept entries keep their order |
| AudioTrainerService.Purge | backend/audio_trainer_service.py:81-84 | the index after the deletion loop: every list filtered, keys left empty dropped; characterised by `PurgeAt` and `PurgeSpec` |
| AudioTrainerService.PurgeAt | backend/audio_trainer_service.py:81-84 | a key survives iff it had an entry of another song; it then holds the filtered list, non-empty, with exactly those entries |
| AudioTrainerService.PurgeSpec | backend/audio_trainer_service.py:81-84 | after deletion no list holds the song, no list is empty, the surviving keys are those with other songs' entries, and they keep them in order |
| AudioTrainerService.PurgeOn | backend/audio_trainer_service.py:81-84 | the index partway through the deletion loop: the keys in `done` filtered and dropped when empty, the others untouched |
| AudioTrainerService.PurgeOnStep | backend/audio_trainer_service.py:81-84 | one iteration (filter `db[h]`, `del` it when empty) moves one key from pending to done |
| AudioTrainerService.PurgeOnAll | backend/audio_trainer_service.py:81-84 | with no key processed the index is unchanged, with all processed it is `Purge` |
| AudioTrainerService.TrainConsistent | backend/audio_trainer_service.py:56-58 | training keeps the store consistent: no duplicate name, no empty list, every posting's song listed |
| AudioTrainerService.DeleteConsistent | backend/audio_trainer_service.py:80-85 | deleting a listed song keeps the store consistent and unlists the song |
| AudioTrainerService.RetrainDuplicates | backend/audio_trainer_service.py:56-58 | training the same song twice appends its postings twice to every list |
| AudioTrainerService.TrainerService.constructor | backend/audio_trainer_service.py:28-33 | a store that does not exist loads as an empty index and song list |
| AudioTrainerService.TrainerService.Load | backend/audio_trainer_service.py:28-32 | `load_db` of an existing store: the service holds the stored index and song list, and is consistent exactly when they are |
| AudioTrainerService.TrainerService.Train | backend/audio_trainer_service.py:44-69 | wrong key: 403 and no change; right key: the index gains the song's postings, the name is listed if absent, the reply carries the hash count; consistency is kept |
| AudioTrainerService.TrainerService.Delete | backend/audio_trainer_service.py:71-98 | wrong key: 403; unlisted name: 404; both with no change; otherwise the index becomes `Purge` of it and the first occurrence of the name is removed; consistency is kept |
| AudioTrainerService.TrainerService.ListSongs | backend/audio_trainer_service.py:123-128 | right key: the stored song list unchanged; wrong key: 403 |
| MusicPlayer.ExtensionAt | frontend/src/components/MusicPlayer.js:17 | the regular expression `\.[^/.]+$` matches at `i`: a dot, then one or more characters to the end, none of them `/` or `.` |
| MusicPlayer.ScanBack | frontend/src/components/MusicPlayer.js:17 | the backward scan finds a match of `\.[^/.]+$` when it returns one and proves there is none otherwise |
| MusicPlayer.ExtensionStart | frontend/src/components/MusicPlayer.js:17 | there is a match start iff the pattern matches somewhere |
| MusicPlayer.ExtensionUnique | frontend/src/components/MusicPlayer.js:17 | the pattern matches at one position at most |
| MusicPlayer.StripExtension | frontend/src/components/MusicPlayer.js:17 | `replace(/\.[^/.]+$/, "")`: the name cut at the match start, or unchanged; characterised by `StripExtensionSpec` |
| MusicPlayer.StripExtensionSpec | frontend/src/components/MusicPlayer.js:17 | the query is a prefix of the name, differs from it exactly when the pattern matches, and then is the name cut at the match |
| MusicPlayer.StripExtensionUnchanged | frontend/src/components/MusicPlayer.js:17 | names without a dot, ending in a dot, or whose last dot is followed by `/` are unchanged |
| MusicPlayer.StripOneExtension | frontend/src/components/MusicPlayer.js:17 | at most one extension is removed: a dot followed by characters that are neither `.` nor `/` |
| MusicPlayer.StripExample | frontend/src/components/MusicPlayer.js:17 | `a.b.mp3` becomes `a.b`, `song.mp3` becomes `song`, `dir.d/song` is unchanged |
| MusicPlayer.DecimalString | frontend/src/components/MusicPlayer.js:73 | `String(n)` of a whole number `n >= 0`: its decimal digits; characterised by `DecimalRoundTrip` |
| MusicPlayer.PadTwo | frontend/src/components/MusicPlayer.js:73 | `padStart(2, '0')`: zeros prefixed up to length two, longer strings unchanged |
| MusicPlayer.DecimalRoundTrip | frontend/src/components/MusicPlayer.js:71-73 | a whole number prints as non-empty digits without a leading zero that denote it |
| MusicPlayer.FormatTime | frontend/src/components/MusicPlayer.js:70-74 | `formatTime` for whole seconds: minutes, a colon, seconds padded to two digits; characterised by `FormatTimeSpec` |
| MusicPlayer.FormatTimeSpec | frontend/src/components/MusicPlayer.js:70-74 | `formatTime(t)` is minutes `t div 60`, a colon, and two digits for `t mod 60`, so `m*60 + ss == t` |
| MusicPlayer.FormatTimeInjective | frontend/src/components/MusicPlayer.js:70-74 | different whole-second times show differently |
| MusicPlayer.AudioElement.constructor | frontend/src/components/MusicPlayer.js:96-100 | a freshly rendered `<audio>` element is paused at position 0 and not ended |
| MusicPlayer.AudioElement.Play | frontend/src/components/MusicPlayer.js:56 | `play()` unpauses the element; it keeps the position, except that on an ended track it restarts at 0 |
| MusicPlayer.AudioElement.Pause | frontend/src/components/MusicPlayer.js:54 | `pause()` pauses the element and keeps its position and its ended state |
| MusicPlayer.AudioElement.Seek | frontend/src/components/MusicPlayer.js:66 | assigning `currentTime` moves the position, keeps the paused state and leaves the end of the track |
| MusicPlayer.AudioElement.End | frontend/src/components/MusicPlayer.js:31-41 | a playing element that reaches the end of a track of length `duration` stands at `duration`, is ended and pauses itself; the component registers no listener for this |
| MusicPlayer.Player.constructor | frontend/src/components/MusicPlayer.js:7-10 | the component starts not playing at time 0, in step with a paused element |
| MusicPlayer.Player.TogglePlay | frontend/src/components/MusicPlayer.js:51-60 | with an element: pauses it if playing, else plays it (from 0 when it had ended), and flips `isPlaying`; without one: no change; state and element that were in step stay in step |
| MusicPlayer.Player.HandleSeek | frontend/src/components/MusicPlayer.js:62-68 | the chosen time becomes the `currentTime` state and, with an element, the element's position, which is then not ended; nothing else changes |
| MusicPlayer.Player.TimeUpdate | frontend/src/components/MusicPlayer.js:43-45 | `handleTimeUpdate` copies the element's position into the `currentTime` state and changes nothing else |
| MusicPlayer.Player.TrackEnds | frontend/src/components/MusicPlayer.js:31-45 | when the playing track ends, the last `timeupdate` shows the end position, but `isPlaying` is unchanged, since no `ended` listener is registered: a playing component is then out of step with its paused element |
| MusicPlayer.EndedTrackRestarts | frontend/src/components/MusicPlayer.js:31-68 | play, seek to 30 s, the 180 s track ends (the state shows 180), two clicks: the component is playing again in step with its element, which restarted at 0, and the restart's `timeupdate` shows 0 |

## Left out

- Spectrogram analysis (`librosa.load`, `stft`, `amplitude_to_db`, `stft_peaks` with its percentile threshold and maximum filter) is floating-point numerics in foreign libraries. Peaks are an input.
- SHA-1 and its truncation to twenty hex digits are foreign code. `sha` is an arbitrary function of the key triple, so hash collisions are not excluded, and nothing forces them.
- The pickle `load_db`/`save_db`, the song-file write, `os.remove` and `os.listdir` are file I/O. The store is the state of `TrainerService`, and the listing is a parameter.
- The HTTP framework (FastAPI routes, CORS, `UploadFile`) is out of scope. Routes are methods and replies are a datatype. The `/` route `home` returns a fixed message and is not modelled.
- AudioTrainerService.TrainerService: each route is one atomic step on the store. FastAPI may run requests concurrently (the plain-`def` routes in a thread pool), and each route loads and saves the shared file. Interleaved requests are not modelled, nor are the updates lost when two of them overlap between `load_db` and `save_db`.
- The 500 reply of `train_song` arises only when saving the store raises, which is I/O, so it is not modelled.
- The calls of `live_recognize.reload_db()` are dropped, because that function is not defined in live_recognize.py.
- The accuracy test after the `return` of `delete_song` cannot be reached, and is random and file-based.
- Microphone recording (`load_audio` via sounddevice), backend/audio_api_service.py, backend/evaluate.py, the frontend pages and frontend/src/utils/saavnApi.js are I/O and HTTP glue. The model does not cover them.
- In MusicPlayer.js, the JioSaavn lookup effect, the event-listener wiring, `handleLoadedMetadata` and the JSX are UI glue.
- Playback progress is not modelled. The element's position does not advance while it plays, except for the jump to the end in `MusicPlayer.AudioElement.End`. `MusicPlayer.Player.TimeUpdate` models one `timeupdate` event, but the stream of them fired during playback is not modelled.
- Console output (`print`) is left out.
- LiveRecognize.MostCommon: `int(round(o))` is the identity on the integer offsets, so the model counts the offsets as they are.
- LiveRecognize.Score gives a song without votes a 0-vote entry. No such song is ever scored, because only keys of `votes` are.
- The spectrogram frame and bin indices are 64-bit numpy integers, from `np.where` and `zip`, and so are the stored posting times and the offsets. Frame indices of any audio file lie far inside the 64-bit range, so their differences cannot overflow. That is why the model's unbounded `int` is sound for them.
- MusicPlayer.FormatTime: covers whole seconds `t >= 0` only. `Math.floor` of fractional or negative times is not modelled. JavaScript numbers are doubles: `String(minutes)` switches to exponent notation from 1e21 and loses precision above 2^53, while the model's `nat` has neither limit.
- MusicPlayer.Player.HandleSeek: the seek value arrives as a string and is stored in the state as read. The model takes it as a real number.
- MusicPlayer.AudioElement.Play: the promise returned by `play()`, and its possible rejection, are not modelled.
- MusicPlayer.AudioElement.Seek: a seek to the very end of the track, which leaves the element ended, is not modelled, because the element model has no duration. `loadedmetadata` and `duration` are UI glue.
- FingerprintTrain.Lower: lower-cases ASCII letters only. Python's `str.lower` on other letters is not modelled.
- StableSort.SortBy: models the sorts by their result only. Python's in-place algorithm is not modelled. `SortPeaksByTime` writes the sorted value back into the array.
