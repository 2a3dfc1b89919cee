/** The recording screen: the list of saved recordings, the texts it shows for
    a recording, and the handlers of its buttons, which coordinate the recorder
    and the player. Directory listings, file removal and the duration the asset
    loader reports are inputs; each file removal appears in the effect trace a
    handler returns. */
module RecordingScreen {
  import opened Basics
  import opened AudioService
  import opened LoginScreenModel
  import opened UploadScreen

  // ---------------------------------------------------------------------------
  // Name order

  /** String `<`, character by character. */
  function Less(a: string, b: string): (r: bool)
    ensures r ==> a != b
    // A proper prefix sorts first.
    ensures |a| < |b| && a == b[..|a|] ==> r
  {
    if a == [] then b != []
    else if b == [] then false
    else if a[0] != b[0] then a[0] < b[0]
    else Less(a[1..], b[1..])
  }

  lemma {:induction false} LessIrreflexive(a: string)
    ensures !Less(a, a)
  {
    if a != [] {
      LessIrreflexive(a[1..]);
    }
  }

  lemma {:induction false} LessAsymmetric(a: string, b: string)
    requires Less(a, b)
    ensures !Less(b, a)
  {
    if a != [] && b != [] && a[0] == b[0] {
      LessAsymmetric(a[1..], b[1..]);
    }
  }

  lemma {:induction false} LessTransitive(a: string, b: string, c: string)
    requires Less(a, b) && Less(b, c)
    ensures Less(a, c)
  {
    if a != [] && b != [] && c != [] && a[0] == b[0] && b[0] == c[0] {
      LessTransitive(a[1..], b[1..], c[1..]);
    }
  }

  /** Two different names are always ordered one way or the other. */
  lemma {:induction false} LessTotal(a: string, b: string)
    requires a != b
    ensures Less(a, b) || Less(b, a)
  {
    if a != [] && b != [] && a[0] == b[0] {
      assert a == [a[0]] + a[1..] && b == [b[0]] + b[1..];
      LessTotal(a[1..], b[1..]);
    }
  }

  /** "Not after" is transitive: a ≥ b and b ≥ c give a ≥ c. */
  lemma NotLessTransitive(a: string, b: string, c: string)
    requires !Less(a, b) && !Less(b, c)
    ensures !Less(a, c)
  {
    if a != b && b != c && Less(a, c) {
      LessTotal(a, b);
      LessTotal(b, c);
      LessTransitive(c, b, a);
      LessAsymmetric(a, c);
    }
  }

  // ---------------------------------------------------------------------------
  // The recordings list

  /** Newest name first: no entry is named before (smaller than) a later one. */
  predicate SortedByNameDescending(s: seq<Url>)
  {
    forall i, j :: 0 <= i < j < |s| ==> !Less(s[i].name, s[j].name)
  }

  /** `files.filter { $0.pathExtension == "m4a" }`. */
  function M4aOnly(files: seq<Url>): (r: seq<Url>)
    ensures forall u :: u in r <==> u in files && PathExtension(u) == M4A
    ensures multiset(r) <= multiset(files)
  {
    if files == [] then []
    else
      var rest := M4aOnly(files[1..]);
      assert files == [files[0]] + files[1..];
      if PathExtension(files[0]) == M4A then [files[0]] + rest else rest
  }

  /** In a list sorted newest name first, no later entry is named after the head. */
  lemma SortedHead(s: seq<Url>, y: Url)
    requires SortedByNameDescending(s) && |s| > 0 && y in s[1..]
    ensures !Less(s[0].name, y.name)
  {
    var k :| 0 <= k < |s[1..]| && s[1..][k] == y;
    assert s[k + 1] == y;
  }

  /** Puts `x` before the first entry whose name is not greater than its own. */
  function Insert(x: Url, s: seq<Url>): (r: seq<Url>)
    requires SortedByNameDescending(s)
    ensures multiset(r) == multiset(s) + multiset{x}
    ensures forall y :: y in r <==> y == x || y in s
    ensures SortedByNameDescending(r)
  {
    if s == [] then [x]
    else if !Less(x.name, s[0].name) then
      var r := [x] + s;
      forall j | 1 <= j < |r| ensures !Less(x.name, r[j].name) {
        if j > 1 { NotLessTransitive(x.name, s[0].name, r[j].name); }
      }
      r
    else
      var rest := Insert(x, s[1..]);
      var r := [s[0]] + rest;
      assert s == [s[0]] + s[1..];
      forall j | 0 < j < |r| ensures !Less(s[0].name, r[j].name) {
        assert r[j] in rest;
        if r[j] == x {
          LessAsymmetric(x.name, s[0].name);
        } else {
          SortedHead(s, r[j]);
        }
      }
      r
  }

  /** `sorted { $0.lastPathComponent > $1.lastPathComponent }`, as an insertion sort. */
  function SortByNameDescending(s: seq<Url>): (r: seq<Url>)
    ensures multiset(r) == multiset(s)
    ensures SortedByNameDescending(r)
  {
    if s == [] then []
    else
      assert s == [s[0]] + s[1..];
      Insert(s[0], SortByNameDescending(s[1..]))
  }

  /** `recordingsList()`: the `.m4a` files of the directory listing, newest name first;
      nothing when the directory could not be found or listed (`listing == None`). */
  function RecordingsList(listing: Option<seq<Url>>): (r: seq<Url>)
    ensures listing.None? ==> r == []
    ensures listing.Some? ==> multiset(r) == multiset(M4aOnly(listing.value))
    ensures SortedByNameDescending(r)
    ensures forall u :: u in r <==> listing.Some? && u in listing.value && PathExtension(u) == M4A
  {
    match listing
    case None => []
    case Some(files) =>
      var r := SortByNameDescending(M4aOnly(files));
      assert forall u :: u in r <==> u in multiset(r);
      r
  }

  /** Every file the recorder makes shows up in the list, when it is in the listing. */
  lemma RecordingIsListed(supportDir: string, stamp: string, files: seq<Url>)
    requires |stamp| > 0
    requires RecordingUrl(supportDir, stamp) in files
    ensures RecordingUrl(supportDir, stamp) in RecordingsList(Some(files))
  {
    RecordingUrlIsM4a(supportDir, stamp);
  }

  // ---------------------------------------------------------------------------
  // Texts shown for a recording

  const NO_DURATION := "\U{2014}"

  /** `Int(seconds.rounded())` for a positive number: to the nearest integer, halves up. */
  function RoundedSeconds(x: real): (s: nat)
    requires x > 0.0
    ensures s as real - 0.5 <= x < s as real + 0.5
  {
    (x + 0.5).Floor
  }

  /** `String(format: "%d:%02d", s / 60, s % 60)`. */
  function MinSec(s: nat): (t: string)
    ensures |t| >= 4 && t[|t| - 3] == ':'
  {
    Decimal(s / 60) + ":" + Pad2(s % 60)
  }

  /** Reads "m:ss" text back into seconds. */
  function ParseMinSec(t: string): Option<nat>
  {
    if |t| < 4 || t[|t| - 3] != ':' then None
    else
      var m, ss := t[..|t| - 3], t[|t| - 2..];
      if AllDigits(m) && AllDigits(ss) && DigitsValue(ss) < 60 then Some(DigitsValue(m) * 60 + DigitsValue(ss))
      else None
  }

  /** The minutes and the two-digit seconds give back the second count. */
  lemma MinSecRoundTrip(s: nat)
    ensures ParseMinSec(MinSec(s)) == Some(s)
  {
    var m, ss := Decimal(s / 60), Pad2(s % 60);
    var t := MinSec(s);
    assert t[..|t| - 3] == m;
    assert t[|t| - 2..] == ss;
    DecimalRoundTrip(s / 60);
    Pad2RoundTrip(s % 60);
  }

  lemma MinSecInjective(s: nat, s': nat)
    requires MinSec(s) == MinSec(s')
    ensures s == s'
  {
    MinSecRoundTrip(s);
    MinSecRoundTrip(s');
  }

  /** `audioDurationString(for:)`. `loaded` is the asset's duration in seconds,
      `None` when loading it threw. */
  function AudioDurationString(loaded: Option<Scalar>): (t: string)
    ensures (loaded.None? || loaded.value.NonFinite? || loaded.value.value <= 0.0) ==> t == NO_DURATION
    ensures (loaded.Some? && loaded.value.Finite? && loaded.value.value > 0.0) ==>
      t == MinSec(RoundedSeconds(loaded.value.value))
  {
    match loaded
    case None => NO_DURATION
    case Some(NonFinite) => NO_DURATION
    case Some(Finite(seconds)) => if seconds > 0.0 then MinSec(RoundedSeconds(seconds)) else NO_DURATION
  }

  /** A shown duration reads back as a second count within half a second of the real duration. */
  lemma DurationTextIsNearest(seconds: real)
    requires seconds > 0.0
    ensures var shown := ParseMinSec(AudioDurationString(Some(Finite(seconds))));
      shown.Some? && shown.value as real - 0.5 <= seconds < shown.value as real + 0.5
  {
    MinSecRoundTrip(RoundedSeconds(seconds));
  }

  /** The dash is never mistaken for a duration. */
  lemma NoDurationIsNotTime()
    ensures ParseMinSec(NO_DURATION) == None
  {
  }

  /** `friendlyDate(for:)`. `created` is the formatted creation date, `None` when the
      file's creation date could not be read; then the file's base name is shown
      with its `T`s as spaces. */
  function FriendlyDate(created: Option<string>, url: Url): (t: string)
    ensures created.Some? ==> t == created.value
    ensures created.None? ==> |t| == |BaseName(url)|
    ensures created.None? ==>
      forall i :: 0 <= i < |t| ==> t[i] == if BaseName(url)[i] == 'T' then ' ' else BaseName(url)[i]
  {
    match created
    case Some(text) => text
    case None => ReplaceChar(BaseName(url), 'T', ' ')
  }

  /** For a file the recorder made, the fallback is its time stamp with ':' as '-' and 'T' as a space. */
  lemma FriendlyDateOfRecording(supportDir: string, stamp: string)
    requires |stamp| > 0
    ensures FriendlyDate(None, RecordingUrl(supportDir, stamp)) == ReplaceChar(ReplaceChar(stamp, ':', '-'), 'T', ' ')
  {
    RecordingUrlIsM4a(supportDir, stamp);
  }

  // ---------------------------------------------------------------------------
  // Deleting rows

  /** What the delete handler does, in order: remove a file, stop the player. */
  datatype Effect = RemoveFile(url: Url) | StopPlayer

  /** The URL the player is bound to after deleting `urls` one by one. */
  function BoundAfter(urls: seq<Url>, bound: Option<Url>): Option<Url>
  {
    if urls == [] then bound
    else
      var before := BoundAfter(urls[..|urls| - 1], bound);
      if before == Some(urls[|urls| - 1]) then None else before
  }

  /** Deleting one row: its file is removed, then the player stops if it was bound to it. */
  function DeleteStep(url: Url, bound: Option<Url>): seq<Effect>
  {
    [RemoveFile(url)] + (if bound == Some(url) then [StopPlayer] else [])
  }

  /** The effects of deleting `urls` in order while the player is bound to `bound`. */
  function DeleteEffects(urls: seq<Url>, bound: Option<Url>): seq<Effect>
  {
    if urls == [] then []
    else
      var init := urls[..|urls| - 1];
      DeleteEffects(init, bound) + DeleteStep(urls[|urls| - 1], BoundAfter(init, bound))
  }

  lemma DeleteSnoc(urls: seq<Url>, bound: Option<Url>, i: nat)
    requires i < |urls|
    ensures var before := BoundAfter(urls[..i], bound);
      DeleteEffects(urls[..i + 1], bound) == DeleteEffects(urls[..i], bound) + DeleteStep(urls[i], before)
      && BoundAfter(urls[..i + 1], bound) == if before == Some(urls[i]) then None else before
  {
    assert urls[..i + 1][..i] == urls[..i];
  }

  /** The removals only, in order. */
  function Removed(effects: seq<Effect>): seq<Url>
  {
    if effects == [] then []
    else Removed(effects[..|effects| - 1])
         + (if effects[|effects| - 1].RemoveFile? then [effects[|effects| - 1].url] else [])
  }

  /** How many times the player is stopped. */
  function Stops(effects: seq<Effect>): nat
  {
    if effects == [] then 0
    else Stops(effects[..|effects| - 1]) + (if effects[|effects| - 1] == StopPlayer then 1 else 0)
  }

  lemma {:induction false} CountsAppend(a: seq<Effect>, b: seq<Effect>)
    ensures Removed(a + b) == Removed(a) + Removed(b)
    ensures Stops(a + b) == Stops(a) + Stops(b)
  {
    if b == [] {
      assert a + b == a;
    } else {
      assert (a + b)[..|a + b| - 1] == a + b[..|b| - 1];
      CountsAppend(a, b[..|b| - 1]);
      ConcatAssoc(Removed(a), Removed(b[..|b| - 1]),
                  if b[|b| - 1].RemoveFile? then [b[|b| - 1].url] else []);
    }
  }

  lemma DeleteStepCounts(url: Url, bound: Option<Url>)
    ensures Removed(DeleteStep(url, bound)) == [url]
    ensures Stops(DeleteStep(url, bound)) == if bound == Some(url) then 1 else 0
  {
    var one := [RemoveFile(url)];
    assert one[..0] == [];
    assert Removed(one) == [url] && Stops(one) == 0;
    if bound == Some(url) {
      assert DeleteStep(url, bound)[..1] == one;
    } else {
      assert DeleteStep(url, bound) == one;
    }
  }

  /** Every chosen file is removed, in the order of the rows. */
  lemma {:induction false} DeleteRemovesAll(urls: seq<Url>, bound: Option<Url>)
    ensures Removed(DeleteEffects(urls, bound)) == urls
  {
    if urls != [] {
      var init, last := urls[..|urls| - 1], urls[|urls| - 1];
      DeleteRemovesAll(init, bound);
      CountsAppend(DeleteEffects(init, bound), DeleteStep(last, BoundAfter(init, bound)));
      DeleteStepCounts(last, BoundAfter(init, bound));
      assert urls == init + [last];
    }
  }

  /** Once the player is stopped it is bound to nothing; it stays bound when its file is not deleted. */
  lemma {:induction false} BoundAfterDelete(urls: seq<Url>, bound: Option<Url>)
    ensures BoundAfter(urls, bound) == if bound.Some? && bound.value in urls then None else bound
  {
    if urls != [] {
      var init, last := urls[..|urls| - 1], urls[|urls| - 1];
      BoundAfterDelete(init, bound);
      assert urls == init + [last];
    }
  }

  /** The player is stopped at most once, and only when it was bound to one of the deleted files. */
  lemma {:induction false} DeleteStopsOnce(urls: seq<Url>, bound: Option<Url>)
    ensures Stops(DeleteEffects(urls, bound)) == if bound.Some? && bound.value in urls then 1 else 0
  {
    if urls != [] {
      var init, last := urls[..|urls| - 1], urls[|urls| - 1];
      var before := BoundAfter(init, bound);
      var prev, step := DeleteEffects(init, bound), DeleteStep(last, before);
      assert DeleteEffects(urls, bound) == prev + step;
      CountsAppend(prev, step);
      DeleteStepCounts(last, before);
      DeleteStopsOnce(init, bound);
      BoundAfterDelete(init, bound);
      assert urls == init + [last];
      if bound.Some? && bound.value in init {
        assert Stops(step) == 0;
      } else {
        assert before == bound;
      }
    }
  }

  /** A stop always comes right after the removal of the file the player was bound to. */
  lemma {:induction false} DeleteRemovesBeforeStopping(urls: seq<Url>, bound: Option<Url>, k: nat)
    requires k < |DeleteEffects(urls, bound)| && DeleteEffects(urls, bound)[k] == StopPlayer
    ensures k > 0 && bound.Some? && DeleteEffects(urls, bound)[k - 1] == RemoveFile(bound.value)
  {
    var init, last := urls[..|urls| - 1], urls[|urls| - 1];
    var prefix := DeleteEffects(init, bound);
    var effects := DeleteEffects(urls, bound);
    assert effects == prefix + DeleteStep(last, BoundAfter(init, bound));
    if k < |prefix| {
      assert prefix[k] == StopPlayer;
      DeleteRemovesBeforeStopping(init, bound, k);
      assert effects[k - 1] == prefix[k - 1];
    } else {
      assert k == |prefix| + 1 && BoundAfter(init, bound) == Some(last);
      BoundAfterDelete(init, bound);
    }
  }

  /** The rows at `indices`, in the order of `indices`. */
  function Chosen(rows: seq<Url>, indices: seq<nat>): (r: seq<Url>)
    requires forall k :: 0 <= k < |indices| ==> indices[k] < |rows|
    ensures |r| == |indices|
    ensures forall k :: 0 <= k < |r| ==> r[k] == rows[indices[k]]
  {
    seq(|indices|, k requires 0 <= k < |indices| => rows[indices[k]])
  }

  // ---------------------------------------------------------------------------
  // The screen

  class RecordingScreen {
    const rec: AudioRecorder
    const player: AudioPlayer
    var recordings: seq<Url>
    var micDenied: bool
    var selectedRecording: Option<Url>
    var navigateToUpload: bool

    ghost predicate Valid()
      reads this, rec, player
    {
      rec.Valid() && player.Valid()
    }

    constructor ()
      ensures Valid() && fresh(rec) && fresh(player)
      ensures recordings == [] && !micDenied && selectedRecording.None? && !navigateToUpload
      ensures !rec.isRecording && rec.fileURL.None? && !player.isPlaying && player.PlayingURL().None?
    {
      rec := new AudioRecorder();
      player := new AudioPlayer();
      recordings := [];
      micDenied := false;
      selectedRecording := None;
      navigateToUpload := false;
    }

    /** The `.task` run when the screen appears: the list is loaded. */
    method Appear(listing: Option<seq<Url>>)
      modifies this`recordings
      ensures recordings == RecordingsList(listing)
    {
      recordings := RecordingsList(listing);
    }

    /** The microphone permission callback: a refusal raises the alert. */
    method PermissionAnswered(granted: bool)
      modifies this`micDenied
      ensures micDenied == !granted
    {
      micDenied := !granted;
    }

    /** The `.onChange(of: rec.isRecording)` handler: a recording that starts stops the player,
        one that ends refreshes the list. */
    method OnRecordingChanged(listing: Option<seq<Url>>)
      requires Valid()
      modifies this`recordings, player
      ensures Valid()
      ensures rec.isRecording ==>
        !player.isPlaying && player.PlayingURL().None? && player.progress == 0.0 && recordings == old(recordings)
      ensures !rec.isRecording ==> recordings == RecordingsList(listing) && unchanged(player)
    {
      if rec.isRecording {
        player.Stop();
      } else {
        recordings := RecordingsList(listing);
      }
    }

    /** The Record/Stop button, followed by the change handler when the recording flag changed.
        The start inputs are those of `AudioRecorder.Start`; `listing` is the directory listing
        the list refresh would see. */
    method RecordTapped(
      sessionReady: bool, supportDir: Option<string>, stamp: string, encoderOpens: bool,
      listing: Option<seq<Url>>)
      requires Valid()
      modifies this`recordings, rec, player
      ensures Valid()
      ensures old(rec.isRecording) ==>
        !rec.isRecording && rec.meterLevel == 0.0 && rec.meterHistory == [] && rec.fileURL == old(rec.fileURL)
        && recordings == RecordingsList(listing) && unchanged(player)
      ensures !old(rec.isRecording) ==>
        !player.isPlaying && player.PlayingURL().None? && player.progress == 0.0
        && rec.isRecording == (sessionReady && supportDir.Some? && encoderOpens)
        && rec.fileURL == (if sessionReady && supportDir.Some? then Some(RecordingUrl(supportDir.value, stamp)) else old(rec.fileURL))
        && rec.meterLevel == old(rec.meterLevel) && rec.meterHistory == old(rec.meterHistory)
        && recordings == old(recordings)
    {
      var was := rec.isRecording;
      if rec.isRecording {
        rec.Stop();
      } else {
        player.Stop();
        rec.Start(sessionReady, supportDir, stamp, encoderOpens);
      }
      if rec.isRecording != was {
        OnRecordingChanged(listing);
      }
    }

    /** The Play button, enabled only when not recording and a file has been recorded:
        plays the recorder's file, or pauses it if it is what is playing. */
    method PlayTapped(openedDuration: Option<real>)
      requires Valid()
      requires !rec.isRecording && rec.fileURL.Some?
      modifies player
      ensures Valid()
      ensures old(player.isPlaying) && old(player.PlayingURL()) == rec.fileURL ==>
        !player.isPlaying && player.PlayingURL() == rec.fileURL && player.progress == old(player.progress)
      ensures !(old(player.isPlaying) && old(player.PlayingURL()) == rec.fileURL) ==>
        (player.isPlaying <==> openedDuration.Some?)
        && player.PlayingURL() == (if openedDuration.Some? then rec.fileURL else None)
        && player.progress == 0.0
    {
      player.Play(rec.fileURL, openedDuration);
    }

    /** Tapping a row's name selects it. */
    method RowTapped(url: Url)
      modifies this`selectedRecording
      ensures selectedRecording == Some(url)
    {
      selectedRecording := Some(url);
    }

    /** A row's play/pause button: pause when that file is playing, otherwise play it. */
    method RowPlayTapped(url: Url, openedDuration: Option<real>)
      requires Valid()
      modifies player
      ensures Valid()
      ensures old(player.isPlaying) && old(player.PlayingURL()) == Some(url) ==>
        !player.isPlaying && player.PlayingURL() == Some(url) && player.progress == old(player.progress)
      ensures !(old(player.isPlaying) && old(player.PlayingURL()) == Some(url)) ==>
        (player.isPlaying <==> openedDuration.Some?)
        && player.PlayingURL() == (if openedDuration.Some? then Some(url) else None)
        && player.progress == 0.0
    {
      if player.PlayingURL() == Some(url) && player.isPlaying {
        player.Pause();
      } else {
        player.Play(Some(url), openedDuration);
      }
    }

    /** The `.onDelete` handler for the rows at `indices` (ascending, as an `IndexSet`
        iterates). `listing` is the directory listing after the removals. */
    method Delete(indices: seq<nat>, listing: Option<seq<Url>>) returns (effects: seq<Effect>)
      requires Valid()
      requires forall k :: 0 <= k < |indices| ==> indices[k] < |recordings|
      requires forall k, l :: 0 <= k < l < |indices| ==> indices[k] < indices[l]
      modifies this`recordings, player
      ensures Valid()
      ensures effects == DeleteEffects(Chosen(old(recordings), indices), old(player.PlayingURL()))
      ensures player.PlayingURL() == BoundAfter(Chosen(old(recordings), indices), old(player.PlayingURL()))
      // A player bound to a deleted file is stopped; any other player is left alone.
      ensures var bound := old(player.PlayingURL());
        bound.Some? && bound.value in Chosen(old(recordings), indices) ==> !player.isPlaying && player.progress == 0.0
      ensures var bound := old(player.PlayingURL());
        !(bound.Some? && bound.value in Chosen(old(recordings), indices)) ==> unchanged(player)
      ensures recordings == RecordingsList(listing)
    {
      ghost var chosen := Chosen(recordings, indices);
      ghost var bound := player.PlayingURL();
      effects := [];
      for i := 0 to |indices|
        invariant Valid()
        invariant recordings == old(recordings)
        invariant effects == DeleteEffects(chosen[..i], bound)
        invariant player.PlayingURL() == BoundAfter(chosen[..i], bound)
        invariant player.PlayingURL() == bound ==> unchanged(player)
        invariant player.PlayingURL() != bound ==> !player.isPlaying && player.progress == 0.0
      {
        var url := recordings[indices[i]];
        ghost var done, before := effects, player.PlayingURL();
        DeleteSnoc(chosen, bound, i);
        BoundAfterDelete(chosen[..i], bound);
        effects := effects + [RemoveFile(url)];
        if player.PlayingURL() == Some(url) {
          player.Stop();
          effects := effects + [StopPlayer];
        }
        assert effects == done + DeleteStep(url, before);
      }
      assert chosen[..|indices|] == chosen;
      BoundAfterDelete(chosen, bound);
      recordings := RecordingsList(listing);
    }

    /** "Upload Selected", shown only while a recording is selected, as written: the upload
        screen is opened for `rec.fileURL!`, the recorder's last file. `None` is the trap of
        that force unwrap when nothing has been recorded since the screen was made. */
    method UploadTapped(loginModel: LoginScreenModel) returns (destination: Option<UploadCall>)
      requires selectedRecording.Some?
      modifies this`navigateToUpload
      ensures navigateToUpload
      ensures destination.Some? <==> rec.fileURL.Some?
      ensures destination.Some? ==> destination.value == UploadCall(
        loginModel.currentSessionId, loginModel.currentjobId, loginModel.currentAccessToken, rec.fileURL.value)
      // The selected recording goes up only when it happens to be the recorder's last file.
      ensures (destination.Some? && Some(destination.value.fileURL) == selectedRecording) <==>
        rec.fileURL == selectedRecording
    {
      navigateToUpload := true;
      if rec.fileURL.None? {
        return None;
      }
      destination := Some(UploadCall(loginModel.currentSessionId, loginModel.currentjobId,
                                     loginModel.currentAccessToken, rec.fileURL.value));
    }

    /** What "Upload Selected" is meant to open: an upload of the selected recording. */
    method UploadTappedIntended(loginModel: LoginScreenModel) returns (destination: UploadCall)
      requires selectedRecording.Some?
      modifies this`navigateToUpload
      ensures navigateToUpload
      ensures destination == UploadCall(
        loginModel.currentSessionId, loginModel.currentjobId, loginModel.currentAccessToken, selectedRecording.value)
    {
      navigateToUpload := true;
      destination := UploadCall(loginModel.currentSessionId, loginModel.currentjobId,
                                loginModel.currentAccessToken, selectedRecording.value);
    }
  }

  // ---------------------------------------------------------------------------
  // Two runs of the screen that show what "Upload Selected" opens

  /** A fresh screen, a row selected, then "Upload Selected": nothing has been recorded,
      so `rec.fileURL!` traps. */
  method UploadTrapsBeforeRecording(selected: Url) returns (destination: Option<UploadCall>)
    ensures destination.None?
  {
    var screen := new RecordingScreen();
    var login := new LoginScreenModel();
    screen.RowTapped(selected);
    destination := screen.UploadTapped(login);
  }

  /** Record one file, stop, select a different row, then "Upload Selected": the recorded
      file goes up, not the selected one. */
  method UploadSendsRecorderFile(supportDir: string, stamp: string, selected: Url)
    returns (destination: Option<UploadCall>)
    requires selected != RecordingUrl(supportDir, stamp)
    ensures destination.Some?
    ensures destination.value.fileURL == RecordingUrl(supportDir, stamp) != selected
  {
    var screen := new RecordingScreen();
    var login := new LoginScreenModel();
    screen.RecordTapped(true, Some(supportDir), stamp, true, None);
    screen.RecordTapped(true, Some(supportDir), stamp, true, None);
    screen.RowTapped(selected);
    destination := screen.UploadTapped(login);
  }
}
