/**
 * tasks/media_task.py: the media categories, the choice of files in a
 * category's folder, the resume point kept in media_state.json, the VLC
 * command line, the VLC remote-control commands and the spoken-command
 * dispatch.
 */
module MediaTask {
  import opened Wrappers
  import opened PyStr
  import opened SortedNames

  /** The "type" of a category. */
  datatype MediaType = Music | Video

  /** A row of the category table: spoken name, folder, type. */
  datatype Category = Category(name: string, folder: string, kind: MediaType)

  /** The category table, in its declaration order. */
  const MediaCategories: seq<Category> := [
    Category("music", "music", Music),
    Category("video", "videos", Video),
    Category("devotional", "devotional", Video),
    Category("study music", "study_music", Music),
    Category("study video", "study_video", Video)
  ]

  /** `MEDIA_CATEGORIES.get(name)` */
  function CategoryInfo(name: string): (r: Option<Category>)
    ensures r.Some? <==> exists k :: 0 <= k < |MediaCategories| && MediaCategories[k].name == name
    ensures r.Some? ==> r.value in MediaCategories && r.value.name == name
  {
    FindCategory(name, 0)
  }

  function FindCategory(name: string, from: nat): (r: Option<Category>)
    requires from <= |MediaCategories|
    ensures r.Some? <==> exists k :: from <= k < |MediaCategories| && MediaCategories[k].name == name
    ensures r.Some? ==> r.value in MediaCategories && r.value.name == name
    decreases |MediaCategories| - from
  {
    if from == |MediaCategories| then None
    else if MediaCategories[from].name == name then Some(MediaCategories[from])
    else FindCategory(name, from + 1)
  }

  /** The file name ends, ignoring case, in one of the six media extensions. */
  predicate IsMediaName(f: string) {
    var l := Lower(f);
    EndsWith(l, ".mp3") || EndsWith(l, ".wav") || EndsWith(l, ".m4a")
    || EndsWith(l, ".mp4") || EndsWith(l, ".mkv") || EndsWith(l, ".avi")
  }

  /** The list comprehension of `get_media_files`: the media names, in
      listing order, each as often as it is listed. */
  function FilterMedia(names: seq<string>): (r: seq<string>)
    ensures forall x :: multiset(r)[x] == (if IsMediaName(x) then multiset(names)[x] else 0)
    decreases |names|
  {
    if names == [] then []
    else
      assert names == [names[0]] + names[1..];
      (if IsMediaName(names[0]) then [names[0]] else []) + FilterMedia(names[1..])
  }

  /** `get_media_files` over the folder's listing: exactly the media names,
      each as often as listed, in sorted order. */
  function GetMediaFiles(names: seq<string>): (r: seq<string>)
    ensures Sorted(r)
    ensures forall x :: multiset(r)[x] == (if IsMediaName(x) then multiset(names)[x] else 0)
  {
    SortStrings(FilterMedia(names))
  }

  /** A name is offered exactly when it is listed and has a media extension. */
  lemma MediaFileMembership(names: seq<string>, x: string)
    ensures x in GetMediaFiles(names) <==> x in names && IsMediaName(x)
  {
    var r := GetMediaFiles(names);
    assert x in r <==> multiset(r)[x] > 0;
    assert x in names <==> multiset(names)[x] > 0;
  }

  /** The files depend only on which names are listed, not on their order:
      a reordered listing gives the same list. */
  lemma MediaFilesIgnoreListingOrder(a: seq<string>, b: seq<string>)
    requires multiset(a) == multiset(b)
    ensures GetMediaFiles(a) == GetMediaFiles(b)
  {
    var ra := GetMediaFiles(a);
    var rb := GetMediaFiles(b);
    assert multiset(ra) == multiset(rb) by {
      forall x ensures multiset(ra)[x] == multiset(rb)[x] {
      }
    }
    SortedUnique(ra, rb);
  }

  /** The start of Python's slice `files[i:]` for an int `i` on a list of
      length `n`: a negative `i` counts from the end. */
  function SliceStart(i: int, n: nat): (k: nat)
    ensures k <= n
    ensures 0 <= i <= n ==> k == i
    ensures -(n as int) <= i < 0 ==> k as int == i + n as int
  {
    if i >= 0 then (if i <= n then i else n)
    else if i + n >= 0 then i + n
    else 0
  }

  /** `files[i:] + files[:i]` */
  function Rotation(files: seq<string>, i: int): seq<string> {
    var k := SliceStart(i, |files|);
    files[k..] + files[..k]
  }

  /** The resume playlist holds the same files, starting at the saved one
      and wrapping round to the front. */
  lemma RotationIsPermutation(files: seq<string>, i: int)
    requires i < |files|
    ensures var k := SliceStart(i, |files|);
      var r := Rotation(files, i);
      && |r| == |files|
      && multiset(r) == multiset(files)
      && (forall j :: 0 <= j < |files| - k ==> r[j] == files[k + j])
      && (forall j :: |files| - k <= j < |files| ==> r[j] == files[j - (|files| - k)])
  {
    var k := SliceStart(i, |files|);
    assert files == files[..k] + files[k..];
  }

  /** The saved resume point of a category: the stored `last_index`, 0 when
      there is none. */
  function SavedIndex(lastIndex: map<string, int>, category: string): int {
    if category in lastIndex then lastIndex[category] else 0
  }

  /** The start index of a resumed play: the saved one, 0 when it is past
      the end of the list. */
  function ResumeIndex(lastIndex: map<string, int>, category: string, n: nat): (i: int)
    ensures i < n || n == 0
    ensures 0 <= SavedIndex(lastIndex, category) < n ==> i == SavedIndex(lastIndex, category)
    ensures SavedIndex(lastIndex, category) >= n ==> i == 0
    ensures SavedIndex(lastIndex, category) < 0 ==> i == SavedIndex(lastIndex, category)
  {
    var i := SavedIndex(lastIndex, category);
    if i >= n then 0 else i
  }

  /** The resume point saved after a play that started at `i`. */
  function NextIndex(i: int, n: nat): (r: int)
    requires n > 0
    ensures 0 <= r < n
  {
    (i + 1) % n
  }

  /** The next resume point of a start index within `-n .. n-1`. */
  lemma NextIndexValue(i: int, n: nat)
    requires n > 0 && -(n as int) <= i < n
    ensures NextIndex(i, n) == (if i + 1 == n then 0 else if i + 1 < 0 then i + 1 + n else i + 1)
  {
    var a := i + 1;
    if a == n {
      assert a == 1 * n + 0;
    } else if a < 0 {
      assert a == -1 * n + (a + n);
    } else {
      assert a == 0 * n + a;
    }
  }

  /** Playing a category twice in a row resumes with the file after the
      one the first play started with (for any saved index the code itself
      could have written). */
  lemma ConsecutivePlaysAdvance(lastIndex: map<string, int>, category: string, files: seq<string>)
    requires |files| >= 2
    requires SavedIndex(lastIndex, category) >= -|files|
    ensures var n := |files|;
      var i := ResumeIndex(lastIndex, category, n);
      var next := lastIndex[category := NextIndex(i, n)];
      Rotation(files, ResumeIndex(next, category, n))[0] == Rotation(files, i)[1]
  {
    var n := |files|;
    var i := ResumeIndex(lastIndex, category, n);
    var j := NextIndex(i, n);
    NextIndexValue(i, n);
    assert ResumeIndex(lastIndex[category := j], category, n) == j;
    RotationIsPermutation(files, i);
    RotationIsPermutation(files, j);
  }

  /** The VLC command line before the file names: the remote-control
      interface on localhost:9999, `--random` for a shuffled play, full
      screen for video and no video output for music. */
  function VlcArgs(shuffle: bool, kind: MediaType): (args: seq<string>)
    ensures |args| >= 5 && args[..5] == ["vlc", "--extraintf", "rc", "--rc-host", "localhost:9999"]
    ensures "--random" in args <==> shuffle
    ensures "--fullscreen" in args <==> kind == Video
    ensures "--no-video" in args <==> kind == Music
  {
    ["vlc", "--extraintf", "rc", "--rc-host", "localhost:9999"]
    + (if shuffle then ["--random"] else [])
    + (if kind == Video then ["--fullscreen"] else ["--intf", "dummy", "--no-video"])
  }

  /** How `play_media` ends. */
  datatype PlayOutcome =
    | Unsupported   // the category is not in the table
    | FolderMissing // "<category> folder not found"
    | NoFiles       // "No <category> files found"
    | Launched(args: seq<string>, files: seq<string>) // VLC started on args + files

  /** The files `play_media` would play, or why it stops first. `folders`
      maps each existing folder to its listing. */
  function PlayPlan(category: string, folders: map<string, seq<string>>): PlayOutcome {
    match CategoryInfo(category)
    case None => Unsupported
    case Some(info) =>
      if info.folder !in folders then FolderMissing
      else if GetMediaFiles(folders[info.folder]) == [] then NoFiles
      else Launched(VlcArgs(false, info.kind), GetMediaFiles(folders[info.folder]))
  }

  /** What a play of `category` does, with `before` and `after` the saved
      resume points: it stops, changing nothing, when the category, its
      folder or its files are missing; otherwise VLC gets the files (in any
      order when shuffled, else the resume rotation) and the category's
      resume point moves one past the start; no other category's changes. */
  predicate PlayEffect(before: map<string, int>, after: map<string, int>, outcome: PlayOutcome,
                       category: string, shuffle: bool, folders: map<string, seq<string>>): (b: bool)
    ensures b ==> (outcome.Launched? <==> PlayPlan(category, folders).Launched?)
  {
    match PlayPlan(category, folders)
    case Launched(_, files) =>
      var info := CategoryInfo(category).value;
      var n := |files|;
      var start := if shuffle then 0 else ResumeIndex(before, category, n);
      && outcome.Launched?
      && outcome.args == VlcArgs(shuffle, info.kind)
      && multiset(outcome.files) == multiset(files)
      && (!shuffle ==> outcome.files == Rotation(files, start))
      && after == before[category := NextIndex(start, n)]
    case other => outcome == other && after == before
  }

  /** The saved resume points after a play of `category`: only a play that
      launches VLC moves a point, that category's, into the range of its
      files; every other category's point is kept. */
  function PlayedIndex(before: map<string, int>, category: string, shuffle: bool,
                       folders: map<string, seq<string>>): (after: map<string, int>)
    ensures !PlayPlan(category, folders).Launched? ==> after == before
    ensures PlayPlan(category, folders).Launched? ==>
      category in after && 0 <= after[category] < |PlayPlan(category, folders).files|
    ensures forall c :: c != category ==> (c in after <==> c in before)
    ensures forall c :: c in before && c != category ==> after[c] == before[c]
  {
    match PlayPlan(category, folders)
    case Launched(_, files) =>
      var start := if shuffle then 0 else ResumeIndex(before, category, |files|);
      before[category := NextIndex(start, |files|)]
    case _ => before
  }

  /** A play's effect on the resume points is the deterministic one. */
  lemma PlayEffectIndex(before: map<string, int>, after: map<string, int>, outcome: PlayOutcome,
                        category: string, shuffle: bool, folders: map<string, seq<string>>)
    requires PlayEffect(before, after, outcome, category, shuffle, folders)
    ensures after == PlayedIndex(before, category, shuffle, folders)
  {
    match PlayPlan(category, folders)
    case Launched(_, files) =>
    case _ =>
  }

  /** The VLC remote-control table of `control_vlc`. */
  function ControlVlc(action: string): (r: Option<string>)
    ensures r.Some? <==> action in {"pause", "stop", "next", "volume up", "volume down", "mute", "unmute"}
  {
    if action == "pause" then Some("pause")
    else if action == "stop" then Some("stop")
    else if action == "next" then Some("next")
    else if action == "volume up" then Some("volup 20")
    else if action == "volume down" then Some("voldown 20")
    else if action == "mute" then Some("volume 0")
    else if action == "unmute" then Some("volume 100")
    else None
  }

  /** Each known action sends its own command to VLC. */
  lemma ControlVlcInjective(a: string, b: string)
    requires ControlVlc(a).Some? && ControlVlc(a) == ControlVlc(b)
    ensures a == b
  {
  }

  /** The phrases of a play command for a category. */
  predicate MentionsPlay(c: string, cat: Category) {
    Contains(c, "play random " + cat.name) || Contains(c, "play " + cat.name)
  }

  /** The first loop of `handle_media`: the first category (from index
      `from`) whose play phrase occurs, and whether it is the random one. */
  function PlayScan(c: string, from: nat): (r: Option<(nat, bool)>)
    requires from <= |MediaCategories|
    ensures r.Some? ==> from <= r.value.0 < |MediaCategories|
    decreases |MediaCategories| - from
  {
    if from == |MediaCategories| then None
    else if Contains(c, "play random " + MediaCategories[from].name) then Some((from, true))
    else if Contains(c, "play " + MediaCategories[from].name) then Some((from, false))
    else PlayScan(c, from + 1)
  }

  /** The scan finds the first category whose play phrase occurs, and it is
      a random play exactly when "play random C" occurs; it finds none only
      when no category's play phrase occurs. */
  lemma {:induction false} PlayScanFindsFirst(c: string, from: nat)
    requires from <= |MediaCategories|
    ensures var r := PlayScan(c, from);
      r.None? <==> forall k :: from <= k < |MediaCategories| ==> !MentionsPlay(c, MediaCategories[k])
    ensures var r := PlayScan(c, from);
      r.Some? ==> var (k, shuffle) := r.value;
      && MentionsPlay(c, MediaCategories[k])
      && (forall j :: from <= j < k ==> !MentionsPlay(c, MediaCategories[j]))
      && (shuffle <==> Contains(c, "play random " + MediaCategories[k].name))
    decreases |MediaCategories| - from
  {
    if from < |MediaCategories| && !MentionsPlay(c, MediaCategories[from]) {
      PlayScanFindsFirst(c, from + 1);
    }
  }

  /** The control phrases of one category: pause/resume/continue toggle
      pause, stop stops, skip/next skips. */
  function CategoryControl(c: string, name: string): (r: Option<string>)
    ensures r.Some? ==> r.value == "pause" || r.value == "stop" || r.value == "next"
  {
    if Contains(c, "pause " + name) || Contains(c, "resume " + name) || Contains(c, "continue " + name) then Some("pause")
    else if Contains(c, "stop " + name) then Some("stop")
    else if Contains(c, "skip " + name) || Contains(c, "next " + name) then Some("next")
    else None
  }

  /** A category's control phrases are its name after one of six words,
      and the three toggling words all give "pause". */
  lemma ControlWords(c: string, name: string)
    ensures CategoryControl(c, name).Some?
      <==> exists w :: w in ["pause ", "resume ", "continue ", "stop ", "skip ", "next "] && Contains(c, w + name)
    ensures CategoryControl(c, name) == Some("pause")
      <==> Contains(c, "pause " + name) || Contains(c, "resume " + name) || Contains(c, "continue " + name)
  {
    if Contains(c, "stop " + name) {
      assert "stop " in ["pause ", "resume ", "continue ", "stop ", "skip ", "next "];
    }
  }

  /** The second loop of `handle_media`: the first category (from index
      `from`) with a control phrase, and its action. */
  function ControlScan(c: string, from: nat): (r: Option<(nat, string)>)
    requires from <= |MediaCategories|
    ensures r.Some? ==> from <= r.value.0 < |MediaCategories|
    decreases |MediaCategories| - from
  {
    if from == |MediaCategories| then None
    else
      match CategoryControl(c, MediaCategories[from].name)
      case Some(action) => Some((from, action))
      case None => ControlScan(c, from + 1)
  }

  /** The scan finds the first category with a control phrase, and finds
      none only when no category has one. */
  lemma {:induction false} ControlScanFindsFirst(c: string, from: nat)
    requires from <= |MediaCategories|
    ensures var r := ControlScan(c, from);
      r.None? <==> forall k :: from <= k < |MediaCategories| ==> CategoryControl(c, MediaCategories[k].name).None?
    ensures var r := ControlScan(c, from);
      r.Some? ==> var (k, action) := r.value;
      && CategoryControl(c, MediaCategories[k].name) == Some(action)
      && (forall j :: from <= j < k ==> CategoryControl(c, MediaCategories[j].name).None?)
    decreases |MediaCategories| - from
  {
    if from < |MediaCategories| && CategoryControl(c, MediaCategories[from].name).None? {
      ControlScanFindsFirst(c, from + 1);
    }
  }

  /** What `handle_media` makes of a command. */
  datatype MediaRequest =
    | Play(category: string, shuffle: bool)
    | Control(action: string)
    | NotMedia // handle_media returns False

  /** The dispatch of `handle_media` on the lower-cased, stripped command. */
  function ParseMediaCommand(command: string): (r: MediaRequest)
    ensures r.Play? ==> CategoryInfo(r.category).Some?
  {
    var c := Strip(Lower(command));
    match PlayScan(c, 0)
    case Some((k, shuffle)) =>
      assert CategoryInfo(MediaCategories[k].name).Some?;
      Play(MediaCategories[k].name, shuffle)
    case None =>
      match ControlScan(c, 0)
      case Some((_, action)) => Control(action)
      case None => GenericControl(c)
  }

  /** The generic controls of `handle_media`, tried when no category is
      named. */
  function GenericControl(c: string): (r: MediaRequest)
    ensures !r.Play?
  {
    if Contains(c, "volume up") then Control("volume up")
    else if Contains(c, "volume down") then Control("volume down")
    else if Contains(c, "mute") then Control("mute")
    else if Contains(c, "unmute") then Control("unmute")
    else NotMedia
  }

  /** Play phrases win over control phrases, and the first category of the
      table whose phrase occurs is played. */
  lemma PlayComesFirst(command: string)
    ensures var c := Strip(Lower(command));
      (exists k :: 0 <= k < |MediaCategories| && MentionsPlay(c, MediaCategories[k]))
      <==> ParseMediaCommand(command).Play?
  {
    var c := Strip(Lower(command));
    PlayIffScanned(command);
    PlayScanFindsFirst(c, 0);
    if PlayScan(c, 0).Some? {
      var k := PlayScan(c, 0).value.0;
      assert 0 <= k < |MediaCategories| && MentionsPlay(c, MediaCategories[k]);
    }
  }

  /** The dispatch plays exactly when the play loop finds a category. */
  lemma PlayIffScanned(command: string)
    ensures ParseMediaCommand(command).Play? <==> PlayScan(Strip(Lower(command)), 0).Some?
  {
    var c := Strip(Lower(command));
    if PlayScan(c, 0).None? {
      assert !GenericControl(c).Play?;
    }
  }

  /** A command holding "play music" is a play request: music is the first
      category the loop tries. */
  lemma PlayMusicIsPlay(command: string)
    requires Contains(Strip(Lower(command)), "play music")
    ensures ParseMediaCommand(command).Play?
  {
    var c := Strip(Lower(command));
    MusicScanned(c);
    match PlayScan(c, 0)
    case Some((k, shuffle)) =>
      assert ParseMediaCommand(command) == Play(MediaCategories[k].name, shuffle);
  }

  lemma MusicScanned(c: string)
    requires Contains(c, "play music")
    ensures PlayScan(c, 0).Some?
  {
    assert "play " + MediaCategories[0].name == "play music";
  }

  /** "mute" is looked for before "unmute" and occurs inside it, so an
      "unmute" command never reaches VLC as "volume 100": every control the
      dispatch produces is one of the first six. */
  lemma UnmuteNeverDispatched(command: string)
    ensures ParseMediaCommand(command) != Control("unmute")
    ensures var c := Strip(Lower(command));
      ParseMediaCommand(command).Control? && Contains(c, "unmute")
      && !Contains(c, "volume up") && !Contains(c, "volume down")
      && ControlScan(c, 0).None?
      ==> ParseMediaCommand(command) == Control("mute")
  {
    var c := Strip(Lower(command));
    PlayIffScanned(command);
    if PlayScan(c, 0).None? {
      GenericMuteFirst(c);
      ControlScanActions(c, 0);
      if ControlScan(c, 0).None? {
        assert ParseMediaCommand(command) == GenericControl(c);
      } else {
        assert ParseMediaCommand(command) == Control(ControlScan(c, 0).value.1);
      }
    }
  }

  /** Among the generic controls, "unmute" is never reached: a text
      holding it, without either volume phrase, is a "mute". */
  lemma GenericMuteFirst(c: string)
    ensures GenericControl(c) != Control("unmute")
    ensures Contains(c, "unmute") && !Contains(c, "volume up") && !Contains(c, "volume down")
      ==> GenericControl(c) == Control("mute")
  {
    MuteInsideUnmute(c);
  }

  /** The category controls are "pause", "stop" and "next" only. */
  lemma {:induction false} ControlScanActions(c: string, from: nat)
    requires from <= |MediaCategories|
    ensures ControlScan(c, from).Some? ==> ControlScan(c, from).value.1 in ["pause", "stop", "next"]
    decreases |MediaCategories| - from
  {
    if from < |MediaCategories| && CategoryControl(c, MediaCategories[from].name).None? {
      ControlScanActions(c, from + 1);
    }
  }

  /** Every text holding "unmute" holds "mute". */
  lemma MuteInsideUnmute(c: string)
    ensures Contains(c, "unmute") ==> Contains(c, "mute")
  {
    if Contains(c, "unmute") {
      assert OccursAt("unmute", "mute", 2);
      ContainsTransitive(c, "unmute", "mute");
    }
  }

  /** Every action the dispatch produces is one `control_vlc` knows, so
      `handle_media` returns False only when nothing matched. */
  lemma DispatchedActionsAreKnown(command: string)
    ensures ParseMediaCommand(command).Control? ==> ControlVlc(ParseMediaCommand(command).action).Some?
  {
    var c := Strip(Lower(command));
    var known := {"pause", "stop", "next", "volume up", "volume down", "mute", "unmute"};
    ControlScanActions(c, 0);
    if PlayScan(c, 0).None? {
      match ControlScan(c, 0)
      case Some((_, action)) =>
        assert ParseMediaCommand(command) == Control(action);
        assert action in known;
      case None =>
        assert ParseMediaCommand(command) == GenericControl(c);
        assert GenericControl(c).Control? ==> GenericControl(c).action in known;
    } else {
      var (k, shuffle) := PlayScan(c, 0).value;
      assert ParseMediaCommand(command) == Play(MediaCategories[k].name, shuffle);
    }
  }

  /** media_state.json: the resume point of each category. */
  class MediaState {
    var lastIndex: map<string, int>

    /** The module creates the file holding `{}` when it is missing. */
    constructor ()
      ensures lastIndex == map[]
    {
      lastIndex := map[];
    }

    /** `play_media`: the shuffled order is any arrangement of the files. */
    method PlayMedia(category: string, shuffle: bool, folders: map<string, seq<string>>) returns (outcome: PlayOutcome)
      modifies this
      ensures PlayEffect(old(lastIndex), lastIndex, outcome, category, shuffle, folders)
    {
      var info := CategoryInfo(category);
      if info.None? {
        return Unsupported;
      }
      var folder := info.value.folder;
      if folder !in folders {
        return FolderMissing;
      }
      var mediaFiles := GetMediaFiles(folders[folder]);
      if mediaFiles == [] {
        return NoFiles;
      }
      assert PlayPlan(category, folders) == Launched(VlcArgs(false, info.value.kind), mediaFiles);
      var files := mediaFiles;
      var n := |mediaFiles|;
      var index := 0;
      if shuffle {
        assert multiset(mediaFiles) == multiset(mediaFiles);
        files :| multiset(files) == multiset(mediaFiles);
      } else {
        index := SavedIndex(lastIndex, category);
        if index >= n {
          index := 0;
        }
        assert index == ResumeIndex(lastIndex, category, n);
        files := Rotation(mediaFiles, index);
        RotationIsPermutation(mediaFiles, index);
      }
      ghost var start := if shuffle then 0 else ResumeIndex(lastIndex, category, n);
      assert index == start;
      outcome := Launched(VlcArgs(shuffle, info.value.kind), files);
      lastIndex := lastIndex[category := NextIndex(index, n)];
    }

    /** `handle_media`: whether the command was a media command, the play
        it started and the remote-control command it sent. */
    method HandleMedia(command: string, folders: map<string, seq<string>>)
      returns (handled: bool, played: Option<PlayOutcome>, sent: Option<string>)
      modifies this
      ensures var req := ParseMediaCommand(command);
        && handled == !req.NotMedia?
        && (req.Play? ==>
              played.Some? && sent.None?
              && PlayEffect(old(lastIndex), lastIndex, played.value, req.category, req.shuffle, folders))
        && (req.Control? ==> played.None? && sent == ControlVlc(req.action) && lastIndex == old(lastIndex))
        && (req.NotMedia? ==> played.None? && sent.None? && lastIndex == old(lastIndex))
    {
      var req := ParseMediaCommand(command);
      played, sent := None, None;
      match req {
        case Play(category, shuffle) =>
          var outcome := PlayMedia(category, shuffle, folders);
          played := Some(outcome);
          handled := true;
        case Control(action) =>
          DispatchedActionsAreKnown(command);
          sent := ControlVlc(action);
          handled := sent.Some?;
        case NotMedia =>
          handled := false;
      }
    }
  }
}
