/**
 * The helpers of the player component (frontend/src/components/MusicPlayer.js):
 * the search query is the recognised file name without its extension
 * (`replace(/\.[^/.]+$/, "")`), times are shown as `m:ss`, and the play
 * button and the seek bar update the component state and the audio element.
 */
module MusicPlayer {
  import opened Wrappers

  // ---------------------------------------------------------------------
  // Extension stripping

  /**
   * The regular expression `\.[^/.]+$` matches at `i`: a dot, then one or
   * more characters up to the end, none of them `/` or `.`.
   */
  predicate ExtensionAt(s: string, i: int)
  {
    0 <= i < |s| - 1 && s[i] == '.'
    && forall k :: i < k < |s| ==> s[k] != '/' && s[k] != '.'
  }

  /**
   * Scans back from position `j`, everything from `j` on being free of `/`
   * and `.`, for the dot that starts a match.
   */
  function ScanBack(s: string, j: nat): (r: Option<nat>)
    requires j <= |s|
    requires forall k :: j <= k < |s| ==> s[k] != '/' && s[k] != '.'
    ensures r.Some? ==> ExtensionAt(s, r.value)
    ensures r.None? ==> forall i :: j <= i + 1 ==> !ExtensionAt(s, i)
    ensures r.None? ==> forall i :: 0 <= i < j ==> !ExtensionAt(s, i)
    decreases j
  {
    if j == 0 then None
    else if s[j - 1] == '.' then (if j < |s| then Some(j - 1) else None)
    else if s[j - 1] == '/' then None
    else ScanBack(s, j - 1)
  }

  /** Where the match of `\.[^/.]+$` starts, if there is one. */
  function ExtensionStart(s: string): (r: Option<nat>)
    ensures r.Some? <==> exists i :: ExtensionAt(s, i)
    ensures r.Some? ==> ExtensionAt(s, r.value)
  {
    ScanBack(s, |s|)
  }

  /** `s.replace(/\.[^/.]+$/, "")`. */
  function StripExtension(s: string): string
  {
    match ExtensionStart(s)
    case Some(i) => s[..i]
    case None => s
  }

  /** The pattern matches at most once: `$` pins it to the last dot. */
  lemma ExtensionUnique(s: string, i: int, j: int)
    requires ExtensionAt(s, i) && ExtensionAt(s, j)
    ensures i == j
  {
  }

  /**
   * The query is a prefix of the name; it differs from the name exactly
   * when the pattern matches, and then exactly the matched suffix is gone.
   */
  lemma StripExtensionSpec(s: string)
    ensures StripExtension(s) <= s
    ensures StripExtension(s) != s <==> exists i :: ExtensionAt(s, i)
    ensures forall i :: ExtensionAt(s, i) ==> StripExtension(s) == s[..i]
  {
    forall i | ExtensionAt(s, i) ensures StripExtension(s) == s[..i] {
      ExtensionUnique(s, i, ExtensionStart(s).value);
    }
    if ExtensionStart(s).Some? {
      assert |StripExtension(s)| < |s|;
    }
  }

  /**
   * Names without a dot, names ending in a dot, and names whose last dot
   * is followed by a `/` are returned unchanged.
   */
  lemma StripExtensionUnchanged(s: string)
    ensures (forall k :: 0 <= k < |s| ==> s[k] != '.') ==> StripExtension(s) == s
    ensures |s| > 0 && s[|s| - 1] == '.' ==> StripExtension(s) == s
    ensures (exists i, k :: 0 <= i < k < |s| && s[i] == '.' && s[k] == '/'
              && forall m :: i < m < |s| ==> s[m] != '.') ==> StripExtension(s) == s
  {
    StripExtensionSpec(s);
  }

  /**
   * At most one extension goes: what is removed is a single dot followed by
   * characters that are neither `.` nor `/`.
   */
  lemma StripOneExtension(s: string)
    ensures var r := StripExtension(s);
            r == s || (s[|r|] == '.' && forall k :: |r| < k < |s| ==> s[k] != '.' && s[k] != '/')
  {
    StripExtensionSpec(s);
  }

  lemma StripExample()
    ensures StripExtension("a.b.mp3") == "a.b"
    ensures StripExtension("song.mp3") == "song"
    ensures StripExtension("dir.d/song") == "dir.d/song"
  {
    assert ExtensionAt("a.b.mp3", 3);
    assert ExtensionAt("song.mp3", 4);
    StripExtensionUnchanged("dir.d/song");
    assert "dir.d/song"[3] == '.' && "dir.d/song"[5] == '/';
  }

  // ---------------------------------------------------------------------
  // Time formatting

  /** The decimal digit for `d`. */
  function DigitChar(d: nat): char
    requires d < 10
  {
    ('0' as int + d) as char
  }

  predicate IsDigit(c: char)
  {
    '0' <= c <= '9'
  }

  function DigitValue(c: char): nat
    requires IsDigit(c)
  {
    (c as int - '0' as int) as nat
  }

  /** `String(n)` for a whole number `n >= 0`. */
  function DecimalString(n: nat): string
  {
    if n < 10 then [DigitChar(n)] else DecimalString(n / 10) + [DigitChar(n % 10)]
  }

  /** The number a string of digits denotes. */
  function DecimalValue(s: string): nat
    requires forall k :: 0 <= k < |s| ==> IsDigit(s[k])
  {
    if s == [] then 0 else DecimalValue(s[..|s| - 1]) * 10 + DigitValue(s[|s| - 1])
  }

  /**
   * `String(n)` is a non-empty string of digits without a leading zero
   * whose value is `n`.
   */
  lemma {:induction false} DecimalRoundTrip(n: nat)
    ensures |DecimalString(n)| > 0
    ensures forall k :: 0 <= k < |DecimalString(n)| ==> IsDigit(DecimalString(n)[k])
    ensures DecimalValue(DecimalString(n)) == n
    ensures n > 0 ==> DecimalString(n)[0] != '0'
    ensures n < 10 <==> |DecimalString(n)| == 1
  {
    if n >= 10 {
      var s, init, d := DecimalString(n), DecimalString(n / 10), DigitChar(n % 10);
      DecimalRoundTrip(n / 10);
      assert s == init + [d];
      assert s[..|s| - 1] == init && s[|s| - 1] == d;
      assert DecimalValue(s) == DecimalValue(init) * 10 + n % 10;
      assert n / 10 * 10 + n % 10 == n;
    }
  }

  /** `s.padStart(2, '0')`. */
  function PadTwo(s: string): string
  {
    if |s| >= 2 then s else seq(2 - |s|, _ => '0') + s
  }

  /** `formatTime` for whole seconds `t >= 0`. */
  function FormatTime(t: nat): string
  {
    DecimalString(t / 60) + ":" + PadTwo(DecimalString(t % 60))
  }

  /**
   * `formatTime(t)` is `m:ss`: the minutes `m = t div 60` in decimal, a
   * colon, and the seconds `t mod 60` as exactly two digits, so that
   * `m * 60 + ss == t`.
   */
  lemma FormatTimeSpec(t: nat)
    ensures var r := FormatTime(t);
            && |r| >= 4 && r[|r| - 3] == ':'
            && (forall k :: 0 <= k < |r| - 3 ==> IsDigit(r[k]))
            && (forall k :: |r| - 2 <= k < |r| ==> IsDigit(r[k]))
            && DecimalValue(r[..|r| - 3]) == t / 60
            && DecimalValue(r[|r| - 2..]) == t % 60 < 60
            && DecimalValue(r[..|r| - 3]) * 60 + DecimalValue(r[|r| - 2..]) == t
  {
    var m, s := DecimalString(t / 60), DecimalString(t % 60);
    DecimalRoundTrip(t / 60);
    DecimalRoundTrip(t % 60);
    var r := FormatTime(t);
    var ss := PadTwo(s);
    assert |ss| == 2 by {
      assert t % 60 < 100;
      if t % 60 >= 10 { assert |DecimalString((t % 60) / 10)| == 1; }
    }
    assert r == m + ":" + ss;
    assert r[..|r| - 3] == m;
    assert r[|r| - 2..] == ss;
    assert DecimalValue(ss) == t % 60 by {
      if |s| == 1 {
        assert ss == ['0'] + s;
        assert ss[..1] == ['0'];
      } else {
        assert ss == s;
      }
    }
  }

  /** Different times show differently. */
  lemma FormatTimeInjective(t: nat, u: nat)
    requires FormatTime(t) == FormatTime(u)
    ensures t == u
  {
    var r := FormatTime(t);
    FormatTimeSpec(t);
    FormatTimeSpec(u);
    assert t == DecimalValue(r[..|r| - 3]) * 60 + DecimalValue(r[|r| - 2..]);
    assert u == DecimalValue(r[..|r| - 3]) * 60 + DecimalValue(r[|r| - 2..]);
  }

  // ---------------------------------------------------------------------
  // Playback state

  /**
   * The `<audio>` element behind `audioRef.current`: whether it is paused,
   * its playback position, and whether playback has reached the end of the
   * track.
   */
  class AudioElement {
    var paused: bool
    var currentTime: real
    var ended: bool

    constructor ()
      ensures paused && currentTime == 0.0 && !ended
    {
      paused := true;
      currentTime := 0.0;
      ended := false;
    }

    /** `play()`: unpauses; on an ended track it first seeks back to the start. */
    method Play()
      modifies this
      ensures !paused && !ended
      ensures currentTime == if old(ended) then 0.0 else old(currentTime)
    {
      if ended {
        currentTime := 0.0;
        ended := false;
      }
      paused := false;
    }

    /** `pause()`: pauses and never seeks. */
    method Pause()
      modifies this
      ensures paused && currentTime == old(currentTime) && ended == old(ended)
    {
      paused := true;
    }

    /** Setting `currentTime`: moves the position and leaves the end of the track. */
    method Seek(time: real)
      modifies this
      ensures currentTime == time && paused == old(paused) && !ended
    {
      currentTime := time;
      ended := false;
    }

    /**
     * A playing element reaches the end of a track of length `duration`: it
     * stands at the end, and pauses itself there.
     */
    method End(duration: real)
      requires !paused
      modifies this
      ensures paused && ended && currentTime == duration
    {
      currentTime := duration;
      paused := true;
      ended := true;
    }
  }

  /** The component's `isPlaying` and `currentTime` state and its audio reference. */
  class Player {
    var isPlaying: bool
    var currentTime: real
    var audio: AudioElement?

    /** The button shows what the element does: playing exactly when not paused. */
    predicate InSync()
      reads this, audio
    {
      audio != null ==> audio.paused == !isPlaying
    }

    constructor (audio: AudioElement?)
      requires audio != null ==> audio.paused
      ensures isPlaying == false && currentTime == 0.0 && this.audio == audio
      ensures InSync()
    {
      isPlaying := false;
      currentTime := 0.0;
      this.audio := audio;
    }

    /**
     * `togglePlay`: with an audio element, pauses it if playing and plays it
     * otherwise, and flips `isPlaying`; without one, nothing changes. Playing
     * an ended track restarts it at 0.
     */
    method TogglePlay()
      modifies this, audio
      ensures audio == old(audio) && currentTime == old(currentTime)
      ensures audio == null ==> isPlaying == old(isPlaying)
      ensures audio != null ==>
                && isPlaying == !old(isPlaying)
                && audio.paused == old(isPlaying)
                && audio.ended == (old(isPlaying) && old(audio.ended))
                && audio.currentTime == if !old(isPlaying) && old(audio.ended) then 0.0 else old(audio.currentTime)
      ensures old(InSync()) ==> InSync()
    {
      if audio != null {
        if isPlaying {
          audio.Pause();
        } else {
          audio.Play();
        }
        isPlaying := !isPlaying;
      }
    }

    /**
     * `handleSeek`: the chosen time becomes the `currentTime` state and,
     * with an audio element, the element's position.
     */
    method HandleSeek(time: real)
      modifies this, audio
      ensures audio == old(audio) && isPlaying == old(isPlaying)
      ensures currentTime == time
      ensures audio != null ==> audio.currentTime == time && audio.paused == old(audio.paused) && !audio.ended
      ensures old(InSync()) ==> InSync()
    {
      currentTime := time;
      if audio != null {
        audio.Seek(time);
      }
    }

    /** `handleTimeUpdate`: the `timeupdate` listener copies the element's position into the state. */
    method TimeUpdate()
      requires audio != null
      modifies this
      ensures audio == old(audio) && isPlaying == old(isPlaying)
      ensures currentTime == audio.currentTime
    {
      currentTime := audio.currentTime;
    }

    /**
     * The playing track reaches its end. The element fires a last
     * `timeupdate`, whose listener shows the end position. The component has
     * no `ended` listener, so `isPlaying` does not change: a playing
     * component is then out of step with its element, and the next click
     * pauses the paused element.
     */
    method TrackEnds(duration: real)
      requires audio != null && !audio.paused
      modifies this, audio
      ensures audio == old(audio) && isPlaying == old(isPlaying)
      ensures audio.paused && audio.ended && audio.currentTime == duration
      ensures currentTime == duration
      ensures old(isPlaying) ==> !InSync()
    {
      audio.End(duration);
      TimeUpdate();
    }
  }

  /**
   * Play, seek to 30 s, let a 180 s track end, then click twice: the end
   * shows 3:00, the first click only resets `isPlaying`, the second
   * restarts the track, and the `timeupdate` of that restart shows 0.
   */
  method EndedTrackRestarts() returns (p: Player)
    ensures p.audio != null && p.isPlaying && !p.audio.paused && p.InSync()
    ensures p.audio.currentTime == 0.0 && p.currentTime == 0.0
  {
    var element := new AudioElement();
    p := new Player(element);
    p.TogglePlay();
    p.HandleSeek(30.0);
    p.TrackEnds(180.0);
    assert !p.InSync() && p.currentTime == 180.0;
    p.TogglePlay();
    assert !p.isPlaying && p.audio.ended;
    p.TogglePlay();
    p.TimeUpdate();
  }
}
