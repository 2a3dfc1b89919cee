/** The recorder and the player behind the recording screen. The audio
    hardware is abstract: what `AVAudioPlayer`/`AVAudioRecorder` report (whether
    opening succeeded, the duration, whether the device is still playing or
    recording, the sampled power) comes in as parameters, and each timer tick is
    an explicit method call. A `bool` field stands for each timer: whether a
    subscription is live. */
module AudioService {
  import opened Basics

  // ---------------------------------------------------------------------------
  // Meter levels

  const FLOOR_DB := -60.0

  /** `normalize`: decibels to a level in [0, 1], linear between -60 dB and 0 dB. */
  function Normalize(db: real): (level: real)
    ensures 0.0 <= level <= 1.0
    ensures db <= FLOOR_DB ==> level == 0.0
    ensures db >= 0.0 ==> level == 1.0
    ensures FLOOR_DB <= db <= 0.0 ==> level * 60.0 == db + 60.0
  {
    if db <= FLOOR_DB then 0.0
    else
      var clamped := Max(Min(db, 0.0), FLOOR_DB);
      (clamped - FLOOR_DB) / -FLOOR_DB
  }

  /** A louder reading never gives a lower level. */
  lemma NormalizeMonotone(a: real, b: real)
    requires a <= b
    ensures Normalize(a) <= Normalize(b)
  {
    if FLOOR_DB < a && b < 0.0 {
      assert Normalize(a) * 60.0 <= Normalize(b) * 60.0;
    }
  }

  /** The history after `removeFirst(count - max)`: the newest `max` entries. */
  function Trim(h: seq<real>, max: nat): (r: seq<real>)
    ensures |r| == if |h| > max then max else |h|
    ensures r == h[|h| - |r|..]
  {
    if |h| > max then h[|h| - max..] else h
  }

  /** Trimming after each append is the same as trimming once at the end. */
  lemma TrimAppend(h: seq<real>, v: real, max: nat)
    ensures Trim(Trim(h, max) + [v], max) == Trim(h + [v], max)
  {
    var t := Trim(h, max);
    if |h| > max {
      var tail := t + [v];
      assert tail == (h + [v])[|h| - max..];
      if max > 0 {
        assert tail[|tail| - max..] == (h + [v])[|h| + 1 - max..];
      } else {
        assert Trim(tail, max) == [];
      }
    }
  }

  function Levels(powers: seq<real>): (levels: seq<real>)
    ensures |levels| == |powers|
    ensures forall i :: 0 <= i < |powers| ==> levels[i] == Normalize(powers[i])
  {
    if powers == [] then [] else Levels(powers[..|powers| - 1]) + [Normalize(powers[|powers| - 1])]
  }

  /** The history after one recording tick per power reading. */
  function Feed(h: seq<real>, powers: seq<real>, max: nat): seq<real>
  {
    if powers == [] then h
    else Trim(Feed(h, powers[..|powers| - 1], max) + [Normalize(powers[|powers| - 1])], max)
  }

  /** However many ticks run, the history holds the newest `max` levels of the
      old history followed by the new readings, oldest first. */
  lemma {:induction false} FeedIsTrimmedAppend(h: seq<real>, powers: seq<real>, max: nat)
    requires |h| <= max
    ensures Feed(h, powers, max) == Trim(h + Levels(powers), max)
  {
    if powers != [] {
      var init := powers[..|powers| - 1];
      var v := Normalize(powers[|powers| - 1]);
      FeedIsTrimmedAppend(h, init, max);
      TrimAppend(h + Levels(init), v, max);
      assert h + Levels(powers) == h + Levels(init) + [v];
    }
  }

  /** A history of levels in [0, 1] stays so, and never grows past `max`. */
  lemma {:induction false} FeedBounds(h: seq<real>, powers: seq<real>, max: nat)
    requires |h| <= max
    requires forall i :: 0 <= i < |h| ==> 0.0 <= h[i] <= 1.0
    ensures |Feed(h, powers, max)| <= max
    ensures forall i :: 0 <= i < |Feed(h, powers, max)| ==> 0.0 <= Feed(h, powers, max)[i] <= 1.0
  {
    if powers != [] {
      FeedBounds(h, powers[..|powers| - 1], max);
      var prev := Feed(h, powers[..|powers| - 1], max);
      var grown := prev + [Normalize(powers[|powers| - 1])];
      assert forall i :: 0 <= i < |grown| ==> 0.0 <= grown[i] <= 1.0;
    }
  }

  // ---------------------------------------------------------------------------
  // The player

  /** An open `AVAudioPlayer`: its file, its duration, and the play position last
      set by a seek or sampled by a tick. */
  datatype Decoder = Decoder(url: Url, duration: real, currentTime: real)

  class AudioPlayer {
    var isPlaying: bool
    var progress: real
    var player: Option<Decoder>
    /** Whether the progress timer subscription is live. */
    var ticking: bool
    var currentURL: Option<Url>

    /** The timer runs exactly while playing; a player is open exactly when a URL is current. */
    ghost predicate Valid()
      reads this
    {
      (ticking <==> isPlaying)
      && (isPlaying ==> player.Some?)
      && (player.Some? <==> currentURL.Some?)
      && (player.Some? ==> player.value.url == currentURL.value)
    }

    constructor ()
      ensures Valid()
      ensures !isPlaying && progress == 0.0 && player.None? && !ticking && currentURL.None?
    {
      isPlaying := false;
      progress := 0.0;
      player := None;
      ticking := false;
      currentURL := None;
    }

    /** `isPaused`. */
    function IsPaused(): (paused: bool)
      reads this
      // Under the invariant a paused player still holds its file, and its timer is off.
      ensures Valid() && paused ==> currentURL.Some? && !ticking
    {
      player.Some? && !isPlaying && 0.0 < progress < 1.0
    }

    /** `playingURL`. */
    function PlayingURL(): (url: Option<Url>)
      reads this
      // Under the invariant this is the file of the open player, and there is one exactly when it is set.
      ensures Valid() ==> (url.Some? <==> player.Some?)
      ensures Valid() && url.Some? ==> player.value.url == url.value
    {
      currentURL
    }

    /** `play(_:)`. `openedDuration` is the duration of the `AVAudioPlayer` made for the URL,
        or `None` when making it threw. */
    method Play(url: Option<Url>, openedDuration: Option<real>)
      requires Valid()
      modifies this
      ensures Valid()
      ensures url.None? ==>
        isPlaying == old(isPlaying) && progress == old(progress) && player == old(player)
        && ticking == old(ticking) && currentURL == old(currentURL)
      // Playing the current URL again pauses it.
      ensures url.Some? && old(isPlaying) && old(currentURL) == url ==>
        !isPlaying && !ticking && progress == old(progress) && player == old(player)
        && PlayingURL() == url
      // Anything else stops what was playing and opens the URL afresh.
      ensures (url.Some? && !(old(isPlaying) && old(currentURL) == url) && openedDuration.Some?) ==>
        isPlaying && ticking && progress == 0.0
        && player == Some(Decoder(url.value, openedDuration.value, 0.0)) && PlayingURL() == url
      ensures (url.Some? && !(old(isPlaying) && old(currentURL) == url) && openedDuration.None?) ==>
        !isPlaying && !ticking && progress == 0.0 && player.None? && PlayingURL().None?
    {
      if url.None? {
        return;
      }
      if isPlaying && currentURL == url {
        Pause();
        return;
      }
      Stop();
      if openedDuration.Some? {
        player := Some(Decoder(url.value, openedDuration.value, 0.0));
        currentURL := url;
        isPlaying := true;
        StartUpdatingProgress();
      } else {
        isPlaying := false;
      }
    }

    method StartUpdatingProgress()
      modifies this`ticking
      ensures ticking
    {
      StopUpdatingProgress();
      ticking := true;
    }

    method StopUpdatingProgress()
      modifies this`ticking
      ensures !ticking
    {
      ticking := false;
    }

    /** `pause()`: only the playing flag and the timer change. */
    method Pause()
      requires Valid()
      modifies this
      ensures Valid()
      ensures !isPlaying && !ticking
      ensures progress == old(progress) && player == old(player) && currentURL == old(currentURL)
      ensures IsPaused() <==> player.Some? && 0.0 < progress < 1.0
    {
      isPlaying := false;
      StopUpdatingProgress();
    }

    /** `stop()`: back to the initial state. */
    method Stop()
      requires Valid()
      modifies this
      ensures Valid()
      ensures !isPlaying && progress == 0.0 && !ticking && player.None? && currentURL.None?
      ensures !IsPaused()
    {
      isPlaying := false;
      progress := 0.0;
      StopUpdatingProgress();
      player := None;
      currentURL := None;
    }

    /** `seek(to:)`: no effect without a player of positive duration; the fraction is not clamped. */
    method Seek(prog: real)
      requires Valid()
      modifies this
      ensures Valid()
      ensures (old(player).None? || old(player).value.duration <= 0.0) ==>
        progress == old(progress) && player == old(player)
      ensures (old(player).Some? && old(player).value.duration > 0.0) ==>
        progress == prog
        && player == Some(old(player).value.(currentTime := prog * old(player).value.duration))
      ensures isPlaying == old(isPlaying) && ticking == old(ticking) && currentURL == old(currentURL)
    {
      if player.None? || player.value.duration <= 0.0 {
        return;
      }
      player := Some(player.value.(currentTime := prog * player.value.duration));
      progress := prog;
    }

    /** One firing of the progress timer. `hardwarePlaying` and `currentTime` are what the
        `AVAudioPlayer` reports at that moment. */
    method ProgressTick(hardwarePlaying: bool, currentTime: real)
      requires Valid()
      modifies this
      ensures Valid()
      ensures !old(ticking) ==>
        isPlaying == old(isPlaying) && progress == old(progress) && player == old(player)
        && ticking == old(ticking) && currentURL == old(currentURL)
      ensures old(ticking) && hardwarePlaying ==>
        var d := old(player).value.duration;
        isPlaying && ticking
        && progress == (if d > 0.0 then currentTime / d else 0.0)
        && player == Some(old(player).value.(currentTime := currentTime))
      ensures old(ticking) && !hardwarePlaying ==>
        !isPlaying && !ticking && progress == old(progress) && player == old(player)
      ensures currentURL == old(currentURL)
    {
      if !ticking || player.None? {
        return;
      }
      var p := player.value;
      if hardwarePlaying {
        player := Some(p.(currentTime := currentTime));
        progress := if p.duration > 0.0 then currentTime / p.duration else 0.0;
      } else {
        isPlaying := false;
        StopUpdatingProgress();
      }
    }
  }

  // ---------------------------------------------------------------------------
  // The recorder

  const MAX_HISTORY_COUNT := 80

  /** The extension of the recorder's files, and the one the recordings list keeps. */
  const M4A := "m4a"

  /** An `AVAudioRecorder` writing to this file. */
  datatype Encoder = Encoder(url: Url)

  /** Where a recording started at `stamp` goes: `<support>/Recordings/<stamp with ':' as '-'>.m4a`. */
  function RecordingUrl(supportDir: string, stamp: string): (u: Url)
    ensures u.dir == supportDir + "/Recordings"
    ensures |u.name| == |stamp| + 4 && u.name[|stamp|..] == "." + M4A
    ensures forall i :: 0 <= i < |u.name| ==> u.name[i] != ':'
  {
    Url(supportDir + "/Recordings", ReplaceChar(stamp, ':', '-') + "." + M4A)
  }

  /** A file the recorder writes has extension `m4a`, so the recordings list shows it. */
  lemma RecordingUrlIsM4a(supportDir: string, stamp: string)
    requires |stamp| > 0
    ensures PathExtension(RecordingUrl(supportDir, stamp)) == M4A
    ensures BaseName(RecordingUrl(supportDir, stamp)) == ReplaceChar(stamp, ':', '-')
  {
    var dir, base := supportDir + "/Recordings", ReplaceChar(stamp, ':', '-');
    assert |base| == |stamp|;
    M4aHasNoDot();
    SplitDottedName(dir, base, M4A);
    assert RecordingUrl(supportDir, stamp) == Url(dir, base + "." + M4A);
  }

  lemma M4aHasNoDot()
    ensures forall i :: 0 <= i < |M4A| ==> M4A[i] != '.'
  {
    assert M4A == ['m', '4', 'a'];
  }

  class AudioRecorder {
    var isRecording: bool
    var meterLevel: real
    var meterHistory: seq<real>
    const maxHistoryCount: nat
    var recorder: Option<Encoder>
    /** Whether the meter timer subscription is live. */
    var metering: bool
    var fileURL: Option<Url>

    /** Recording, an open encoder and a live meter timer go together; the history
        is bounded and holds levels. */
    ghost predicate Valid()
      reads this
    {
      maxHistoryCount == MAX_HISTORY_COUNT
      && (isRecording <==> recorder.Some?)
      && (metering <==> recorder.Some?)
      && |meterHistory| <= maxHistoryCount
      && (forall i :: 0 <= i < |meterHistory| ==> 0.0 <= meterHistory[i] <= 1.0)
      && 0.0 <= meterLevel <= 1.0
    }

    constructor ()
      ensures Valid()
      ensures !isRecording && meterLevel == 0.0 && meterHistory == [] && recorder.None? && fileURL.None?
    {
      isRecording := false;
      meterLevel := 0.0;
      meterHistory := [];
      maxHistoryCount := MAX_HISTORY_COUNT;
      recorder := None;
      metering := false;
      fileURL := None;
    }

    /** `start()`. `sessionReady` says whether the audio session accepted its category and
        activation, `supportDir` is the application-support directory (`None` when it or
        the Recordings directory could not be made), `stamp` the ISO 8601 time, and
        `encoderOpens` whether `AVAudioRecorder(url:settings:)` succeeded. */
    method Start(sessionReady: bool, supportDir: Option<string>, stamp: string, encoderOpens: bool)
      requires Valid()
      modifies this
      ensures Valid()
      // The file URL is taken before the encoder is made, so it changes even when that fails.
      ensures fileURL == if sessionReady && supportDir.Some? then Some(RecordingUrl(supportDir.value, stamp)) else old(fileURL)
      ensures (sessionReady && supportDir.Some? && encoderOpens) ==>
        isRecording && metering && recorder == Some(Encoder(fileURL.value))
      ensures !(sessionReady && supportDir.Some? && encoderOpens) ==>
        isRecording == old(isRecording) && metering == old(metering) && recorder == old(recorder)
      // A start keeps the meter readings it finds.
      ensures meterLevel == old(meterLevel) && meterHistory == old(meterHistory)
    {
      if !sessionReady || supportDir.None? {
        return;
      }
      var url := RecordingUrl(supportDir.value, stamp);
      fileURL := Some(url);
      if !encoderOpens {
        return;
      }
      recorder := Some(Encoder(url));
      isRecording := true;
      StartMetering();
    }

    method StartMetering()
      modifies this`metering
      ensures metering
    {
      metering := true;
    }

    /** `stopMetering()`: the timer goes and the readings are cleared. */
    method StopMetering()
      modifies this`metering, this`meterLevel, this`meterHistory
      ensures !metering && meterLevel == 0.0 && meterHistory == []
    {
      metering := false;
      meterLevel := 0.0;
      meterHistory := [];
    }

    /** `stop()`: the file URL of the last recording stays. */
    method Stop()
      requires Valid()
      modifies this
      ensures Valid()
      ensures !isRecording && !metering && meterLevel == 0.0 && meterHistory == [] && recorder.None?
      ensures fileURL == old(fileURL)
    {
      StopMetering();
      isRecording := false;
      recorder := None;
    }

    /** One firing of the meter timer. `hardwareRecording` is the encoder's own
        `isRecording` and `power` its average power on channel 0. */
    method MeterTick(hardwareRecording: bool, power: real)
      requires Valid()
      modifies this
      ensures Valid()
      ensures !(metering && recorder.Some? && hardwareRecording) ==>
        meterLevel == old(meterLevel) && meterHistory == old(meterHistory)
      ensures (metering && recorder.Some? && hardwareRecording) ==>
        meterLevel == Normalize(power)
        && meterHistory == Trim(old(meterHistory) + [Normalize(power)], maxHistoryCount)
      ensures isRecording == old(isRecording) && metering == old(metering) && recorder == old(recorder)
      ensures fileURL == old(fileURL)
    {
      if !metering || recorder.None? || !hardwareRecording {
        return;
      }
      meterLevel := Normalize(power);
      meterHistory := meterHistory + [meterLevel];
      if |meterHistory| > maxHistoryCount {
        meterHistory := meterHistory[|meterHistory| - maxHistoryCount..];
      }
    }
  }
}
