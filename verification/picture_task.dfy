/**
 * tasks/picture_task.py: the picture slideshow. The shared state records
 * whether a slideshow window is open (`root` is set), whether it is paused
 * and whether it was asked to stop; the spoken commands start, pause,
 * continue and stop it, and each display step shows one picture and
 * schedules the next.
 */
module PictureTask {
  import opened PyStr

  /** The glob pattern `*.[jJpP][pPnN][gG]` on a file name: a name not
      starting with a dot whose last four characters are a dot and one
      character from each class. */
  predicate IsImageName(f: string) {
    && |f| >= 4
    && f[0] != '.'
    && f[|f| - 4] == '.'
    && f[|f| - 3] in "jJpP"
    && f[|f| - 2] in "pPnN"
    && f[|f| - 1] in "gG"
  }

  /** The pictures the glob finds, in listing order. */
  function FindImages(listing: seq<string>): (r: seq<string>)
    ensures forall x :: x in r <==> x in listing && IsImageName(x)
    ensures |r| <= |listing|
    decreases |listing|
  {
    if listing == [] then []
    else (if IsImageName(listing[0]) then [listing[0]] else []) + FindImages(listing[1..])
  }

  /** ".png" and ".jpg" pictures are found, ".jpeg" ones are not. */
  lemma ImageExtensions(stem: string)
    requires stem != [] && stem[0] != '.'
    ensures IsImageName(stem + ".png") && IsImageName(stem + ".JPG")
    ensures !IsImageName(stem + ".jpeg")
  {
    var a := stem + ".png";
    assert a[0] == stem[0];
    assert a[|a| - 4..] == ".png";
    var b := stem + ".JPG";
    assert b[0] == stem[0];
    assert b[|b| - 4..] == ".JPG";
    var c := stem + ".jpeg";
    assert c[|c| - 4] == 'j';
  }

  /** The slideshow state together with the pictures of the current show. */
  datatype ShowState = ShowState(running: bool, paused: bool, stopRequested: bool, images: seq<string>)

  /** A running show always has pictures to show. */
  predicate ValidState(s: ShowState) {
    s.running ==> s.images != []
  }

  /** What `handle_pictures` makes of a command. */
  datatype PictureRequest = StartShow | PauseShow | ContinueShow | StopShow | NotPictures

  /** The stop phrases are none of the start, pause or continue phrases. */
  lemma PictureWordsDistinct()
    ensures forall w :: w in ["stop picture", "close pictures"] ==>
      w !in ["play pictures", "show pictures", "start slideshow", "pause picture", "continue picture"]
  {
    assert "stop picture"[1] == 't' && "close pictures"[0] == 'c';
    assert "play pictures"[1] == 'l' && "show pictures"[0] == 's' && "show pictures"[1] == 'h';
    assert "start slideshow"[1] == 't' && "start slideshow"[2] == 'a' && "stop picture"[2] == 'o';
    assert "pause picture"[0] == 'p' && "continue picture"[0] == 'c' && "continue picture"[1] == 'o';
    assert "close pictures"[1] == 'l';
  }

  /** The dispatch of `handle_pictures` on the lower-cased, stripped command. */
  function ParsePictureCommand(command: string): (r: PictureRequest)
    ensures r.NotPictures? <==> (Strip(Lower(command)) !in
      ["play pictures", "show pictures", "start slideshow", "pause picture",
       "continue picture", "stop picture", "close pictures"])
    ensures r.StartShow? <==> Strip(Lower(command)) in ["play pictures", "show pictures", "start slideshow"]
    ensures r.StopShow? <==> Strip(Lower(command)) in ["stop picture", "close pictures"]
  {
    var c := Strip(Lower(command));
    PictureWordsDistinct();
    if c in ["play pictures", "show pictures", "start slideshow"] then StartShow
    else if c == "pause picture" then PauseShow
    else if c == "continue picture" then ContinueShow
    else if c in ["stop picture", "close pictures"] then StopShow
    else NotPictures
  }

  /** The effect of a command on the state; `images` are the pictures the
      glob finds now. */
  function Transition(s: ShowState, req: PictureRequest, images: seq<string>): (t: ShowState)
    ensures ValidState(s) ==> ValidState(t)
  {
    match req
    case StartShow =>
      if images == [] then s else ShowState(true, false, false, images)
    case PauseShow =>
      if s.running && !s.paused then s.(paused := true) else s
    case ContinueShow =>
      if s.running && s.paused then s.(paused := false) else s
    case StopShow =>
      if s.running then s.(stopRequested := true, running := false) else s
    case NotPictures => s
  }

  /** Pause and continue undo each other on a running show, and repeating
      either one changes nothing more. */
  lemma PauseContinueRoundTrip(s: ShowState, images: seq<string>)
    ensures s.running && !s.paused ==>
      Transition(Transition(s, PauseShow, images), ContinueShow, images) == s
    ensures s.running && s.paused ==>
      Transition(Transition(s, ContinueShow, images), PauseShow, images) == s
    ensures Transition(Transition(s, PauseShow, images), PauseShow, images) == Transition(s, PauseShow, images)
    ensures Transition(Transition(s, ContinueShow, images), ContinueShow, images) == Transition(s, ContinueShow, images)
  {
  }

  /** Once stopped, a show stays stopped: pause, continue and stop change
      nothing until a new show starts, and no picture is shown meanwhile. */
  lemma StoppedStaysStopped(s: ShowState, req: PictureRequest, images: seq<string>)
    requires !s.running && s.stopRequested
    requires req != StartShow
    ensures Transition(s, req, images) == s
    ensures forall i :: 0 <= i < |s.images| ==> StepOf(s, i).Halt?
  {
  }

  /** The outcome of one `show_image(index)`. */
  datatype Step = Halt | Recheck(index: nat) | Show(index: nat, next: nat)

  /** `show_image(index)` on a show of `|s.images|` pictures. */
  function StepOf(s: ShowState, index: nat): Step
    requires index < |s.images|
  {
    if s.stopRequested then Halt
    else if s.paused then Recheck(index)
    else Show(index, (index + 1) % |s.images|)
  }

  /** The index the display reaches from `start` after `k` shown pictures. */
  function Advance(start: nat, n: nat, k: nat): nat
    requires n > 0
    decreases k
  {
    if k == 0 then start else (Advance(start, n, k - 1) + 1) % n
  }

  /** After the first step, the display cycles through the pictures in
      order: the k-th picture shown after `start` is `(start + k) mod n`. */
  lemma {:induction false} AdvanceCycles(start: nat, n: nat, k: nat)
    requires n > 0 && start < n
    ensures Advance(start, n, k) == (start + k) % n
    decreases k
  {
    if k > 0 {
      var a := start + k - 1;
      AdvanceCycles(start, n, k - 1);
      ModSuccessor(a, n);
      var prev := Advance(start, n, k - 1);
      assert prev == a % n;
      assert Advance(start, n, k) == (prev + 1) % n;
      assert a + 1 == start + k;
    }
  }

  /** `((a mod n) + 1) mod n == (a + 1) mod n` */
  lemma ModSuccessor(a: nat, n: nat)
    requires n > 0
    ensures ((a % n) + 1) % n == (a + 1) % n
  {
    var q := a / n;
    var r := a % n;
    if r + 1 < n {
      ModUnique(a + 1, n, q, r + 1);
      ModUnique(r + 1, n, 0, r + 1);
    } else {
      ModUnique(a + 1, n, q + 1, 0);
      ModUnique(r + 1, n, 1, 0);
    }
  }

  /** The remainder is the only `r` in `0 .. n-1` with `x == q * n + r`. */
  lemma ModUnique(x: int, n: int, q: int, r: int)
    requires n > 0 && 0 <= r < n && x == q * n + r
    ensures x % n == r
  {
    var q' := x / n;
    var r' := x % n;
    assert (q - q') * n == r' - r;
    if q > q' {
      MulAtLeast(q - q', n);
    } else if q < q' {
      MulAtLeast(q' - q, n);
    }
  }

  lemma MulAtLeast(d: int, n: int)
    requires d >= 1 && n > 0
    ensures d * n >= n
  {
  }

  /** `slideshow_state` and the pictures of the current show. */
  class Slideshow {
    var running: bool
    var paused: bool
    var stopRequested: bool
    var images: seq<string>

    function State(): ShowState
      reads this
    {
      ShowState(running, paused, stopRequested, images)
    }

    /** The initial `slideshow_state`: no window, not paused, no stop asked. */
    constructor ()
      ensures State() == ShowState(false, false, false, [])
    {
      running, paused, stopRequested, images := false, false, false, [];
    }

    /** `play_slideshow` with the folder listing: nothing happens when no
        picture is found; otherwise the show starts afresh. Returns whether
        it started. */
    method PlaySlideshow(listing: seq<string>) returns (started: bool)
      modifies this
      ensures State() == Transition(old(State()), StartShow, FindImages(listing))
      ensures started <==> FindImages(listing) != []
    {
      var imageFiles := FindImages(listing);
      if imageFiles == [] {
        return false;
      }
      images := imageFiles;
      running := true;
      paused := false;
      stopRequested := false;
      started := true;
    }

    /** `pause_slideshow`: returns whether the show was paused. */
    method PauseSlideshow() returns (applied: bool)
      modifies this
      ensures State() == Transition(old(State()), PauseShow, [])
      ensures applied <==> old(running) && !old(paused)
    {
      if running && !paused {
        paused := true;
        applied := true;
      } else {
        applied := false;
      }
    }

    /** `continue_slideshow`: returns whether the show was resumed. */
    method ContinueSlideshow() returns (applied: bool)
      modifies this
      ensures State() == Transition(old(State()), ContinueShow, [])
      ensures applied <==> old(running) && old(paused)
    {
      if running && paused {
        paused := false;
        applied := true;
      } else {
        applied := false;
      }
    }

    /** `stop_slideshow`: returns whether a show was running. */
    method StopSlideshow() returns (applied: bool)
      modifies this
      ensures State() == Transition(old(State()), StopShow, [])
      ensures applied <==> old(running)
    {
      if running {
        stopRequested := true;
        running := false;
        applied := true;
      } else {
        applied := false;
      }
    }

    /** The Escape key binding of an open show window. */
    method ExitFullscreen()
      requires running
      modifies this
      ensures State() == Transition(old(State()), StopShow, [])
    {
      stopRequested := true;
      running := false;
    }

    /** `show_image(index)`: halts once a stop was asked, checks the same
        index again while paused, and otherwise shows the picture and moves
        on to the next one, wrapping round. */
    method ShowImage(index: nat) returns (step: Step)
      requires index < |images|
      ensures step == StepOf(State(), index)
      ensures step.Show? ==> step.next < |images| && step.next == (if index + 1 == |images| then 0 else index + 1)
    {
      if stopRequested {
        return Halt;
      }
      if paused {
        return Recheck(index);
      }
      var nextIndex := (index + 1) % |images|;
      step := Show(index, nextIndex);
    }

    /** `handle_pictures`: returns whether the command was a picture
        command. */
    method HandlePictures(command: string, listing: seq<string>) returns (handled: bool)
      modifies this
      ensures handled == !ParsePictureCommand(command).NotPictures?
      ensures State() == Transition(old(State()), ParsePictureCommand(command), FindImages(listing))
    {
      var req := ParsePictureCommand(command);
      handled := true;
      match req {
        case StartShow =>
          var _ := PlaySlideshow(listing);
        case PauseShow =>
          var _ := PauseSlideshow();
        case ContinueShow =>
          var _ := ContinueSlideshow();
        case StopShow =>
          var _ := StopSlideshow();
        case NotPictures =>
          handled := false;
      }
    }
  }
}
