/**
 * The six command handlers as the routers in main.py and alexa_handler.py
 * see them: each one either accepts a command (returns True) or declines
 * it, and whether it accepts depends on the command text alone. The routers
 * try them in one fixed order and stop at the first that accepts.
 */
module Handlers {
  import opened Wrappers
  import opened PyStr
  import MediaTask
  import TodoTask
  import ReminderTask
  import PictureTask

  datatype Handler = YouTube | Media | System | Todo | Reminder | Pictures

  /** The order in which both routers try the handlers. */
  const HandlerOrder: seq<Handler> := [YouTube, Media, System, Todo, Reminder, Pictures]

  /** `handle_youtube` returns True: the phrase occurs in the lower-cased
      command. */
  predicate YouTubeAccepts(command: string) {
    Contains(Lower(command), "open youtube and play")
  }

  /** `handle_media` returns True: a play or control phrase is found. */
  predicate MediaAccepts(command: string): (b: bool)
    ensures var req := MediaTask.ParseMediaCommand(command);
      b <==> req.Play? || (req.Control? && MediaTask.ControlVlc(req.action).Some?)
  {
    MediaTask.DispatchedActionsAreKnown(command);
    !MediaTask.ParseMediaCommand(command).NotMedia?
  }

  /** `handle_system` returns True: the phrase occurs in the lower-cased
      command. */
  predicate SystemAccepts(command: string) {
    Contains(Lower(command), "close play")
  }

  /** `handle_todo` returns True. */
  predicate TodoAccepts(command: string): (b: bool)
    ensures var c := Strip(command);
      b ==> StartsWith(c, "add task") || StartsWith(c, "remove task") || c == "show task"
    ensures Strip(command) == "show task" ==> b
  {
    !TodoTask.ParseTodoCommand(command).NotATodo?
  }

  /** `handle_reminder` returns True: the lower-cased, stripped command has
      one of its three forms, whatever the day of the week. */
  predicate ReminderAccepts(command: string) {
    var c := Strip(Lower(command));
    StartsWith(c, "remind me to") || c == "show reminders" || StartsWith(c, "remove reminder")
  }

  /** `handle_pictures` returns True. */
  predicate PicturesAccepts(command: string): (b: bool)
    ensures b <==>
      Strip(Lower(command)) in
        ["play pictures", "show pictures", "start slideshow", "pause picture",
         "continue picture", "stop picture", "close pictures"]
  {
    !PictureTask.ParsePictureCommand(command).NotPictures?
  }

  /** The reminder handler's acceptance does not depend on the weekday it
      is given. */
  lemma ReminderAcceptance(command: string, weekday: string)
    ensures ReminderAccepts(command) <==> !ReminderTask.ParseReminderCommand(command, weekday).NotAReminder?
  {
    ReminderTask.DeclinedCommands(command, weekday);
  }

  /** The test handler `h` makes, as a predicate on the command. */
  function Acceptor(h: Handler): string -> bool {
    match h
    case YouTube => YouTubeAccepts
    case Media => MediaAccepts
    case System => SystemAccepts
    case Todo => TodoAccepts
    case Reminder => ReminderAccepts
    case Pictures => PicturesAccepts
  }

  /** Whether handler `h` returns True for the command. */
  predicate Accepts(h: Handler, command: string) {
    Acceptor(h)(command)
  }

  /** The six handlers' answers to one command. */
  function AnswersOf(command: string): Handler -> bool {
    h => Accepts(h, command)
  }

  /** The place of a handler in `HandlerOrder`; no handler is listed twice. */
  function Position(h: Handler): (k: nat)
    ensures k < |HandlerOrder| && HandlerOrder[k] == h
    ensures forall j :: 0 <= j < |HandlerOrder| && HandlerOrder[j] == h ==> j == k
  {
    match h
    case YouTube => 0
    case Media => 1
    case System => 2
    case Todo => 3
    case Reminder => 4
    case Pictures => 5
  }

  /** The chain of `if handle_...(command): ...` tests shared by
      `process_command`, `handle_local_command` and
      `process_local_command`, from the `k`-th handler on, given the
      handlers' answers: the first that accepts takes the command. */
  function ScanFrom(answers: Handler -> bool, k: nat): (r: Option<Handler>)
    requires k <= |HandlerOrder|
    ensures r.Some? ==> k <= Position(r.value) && answers(r.value)
    decreases |HandlerOrder| - k
  {
    if k == |HandlerOrder| then None
    else if answers(HandlerOrder[k]) then Some(HandlerOrder[k])
    else ScanFrom(answers, k + 1)
  }

  /** The chain from the `k`-th handler on, for one command. */
  function RouteFrom(command: string, k: nat): Option<Handler>
    requires k <= |HandlerOrder|
  {
    ScanFrom(AnswersOf(command), k)
  }

  /** The handler that takes the command, if any. */
  function Route(command: string): Option<Handler> {
    RouteFrom(command, 0)
  }

  /** `h` is the handler the first-match rule picks: it accepts, and every
      handler tried before it declines. */
  predicate FirstAccepted(answers: Handler -> bool, h: Handler) {
    answers(h) && forall j :: 0 <= j < Position(h) ==> !answers(HandlerOrder[j])
  }

  /** Every handler declines. */
  predicate NoneAccepted(answers: Handler -> bool) {
    forall h :: !answers(h)
  }

  /** The scan from the `k`-th handler passes over declining handlers
      only. */
  lemma {:induction false} ScanSkips(answers: Handler -> bool, k: nat)
    requires k <= |HandlerOrder|
    ensures ScanFrom(answers, k).Some? ==>
      forall j :: k <= j < Position(ScanFrom(answers, k).value) ==> !answers(HandlerOrder[j])
    decreases |HandlerOrder| - k
  {
    if k < |HandlerOrder| {
      if answers(HandlerOrder[k]) {
        assert Position(ScanFrom(answers, k).value) == k;
      } else {
        ScanSkips(answers, k + 1);
      }
    }
  }

  /** The scan from the `k`-th handler finds nothing exactly when every
      handler from the `k`-th on declines. */
  lemma {:induction false} ScanNone(answers: Handler -> bool, k: nat)
    requires k <= |HandlerOrder|
    ensures ScanFrom(answers, k).None? <==>
      forall j :: k <= j < |HandlerOrder| ==> !answers(HandlerOrder[j])
    decreases |HandlerOrder| - k
  {
    if k < |HandlerOrder| && !answers(HandlerOrder[k]) {
      ScanNone(answers, k + 1);
    }
  }

  /** The chain of tests picks the only handler the first-match rule can
      pick: no handler other than the one it returns is first to accept. */
  lemma FirstMatch(answers: Handler -> bool, h: Handler)
    ensures ScanFrom(answers, 0) == Some(h) <==> FirstAccepted(answers, h)
  {
    ScanSkips(answers, 0);
    ScanNone(answers, 0);
    if FirstAccepted(answers, h) {
      assert answers(HandlerOrder[Position(h)]);
      var g := ScanFrom(answers, 0).value;
      assert answers(HandlerOrder[Position(g)]);
      assert Position(g) == Position(h);
    }
  }

  /** The chain of tests returns nothing exactly when every handler
      declines. */
  lemma NoMatch(answers: Handler -> bool)
    ensures ScanFrom(answers, 0).None? <==> NoneAccepted(answers)
  {
    ScanNone(answers, 0);
    if ScanFrom(answers, 0).None? {
      forall h ensures !answers(h) {
        assert HandlerOrder[Position(h)] == h;
      }
    }
  }

  /** A handler is consulted only when every earlier one declined: once a
      handler accepts, the command goes to it or to one tried before it. */
  lemma MatchNoLaterThan(answers: Handler -> bool, h: Handler)
    requires answers(h)
    ensures ScanFrom(answers, 0).Some? && Position(ScanFrom(answers, 0).value) <= Position(h)
  {
    ScanSkips(answers, 0);
    ScanNone(answers, 0);
    assert answers(HandlerOrder[Position(h)]);
  }

  /** For a command: the handler `Route` names is the first to accept it. */
  lemma RouteIsFirstMatch(command: string, h: Handler)
    ensures Route(command) == Some(h) <==> FirstAccepted(AnswersOf(command), h)
  {
    FirstMatch(AnswersOf(command), h);
  }

  /** For a command: no handler takes it exactly when every one declines. */
  lemma RouteNone(command: string)
    ensures Route(command).None? <==> NoneAccepted(AnswersOf(command))
  {
    NoMatch(AnswersOf(command));
  }

  /** One step of the scan per handler: the handler takes the command when
      it accepts, and passes it on to the next one otherwise. */
  lemma YouTubeTurn(command: string)
    ensures Route(command) == if YouTubeAccepts(command) then Some(YouTube) else RouteFrom(command, 1)
  {
    assert HandlerOrder[0] == YouTube;
    assert Accepts(YouTube, command) == YouTubeAccepts(command);
  }

  lemma MediaTurn(command: string)
    ensures RouteFrom(command, 1) == if MediaAccepts(command) then Some(Media) else RouteFrom(command, 2)
  {
    assert HandlerOrder[1] == Media;
    assert Accepts(Media, command) == MediaAccepts(command);
  }

  lemma SystemTurn(command: string)
    ensures RouteFrom(command, 2) == if SystemAccepts(command) then Some(System) else RouteFrom(command, 3)
  {
    assert HandlerOrder[2] == System;
    assert Accepts(System, command) == SystemAccepts(command);
  }

  lemma TodoTurn(command: string)
    ensures RouteFrom(command, 3) == if TodoAccepts(command) then Some(Todo) else RouteFrom(command, 4)
  {
    assert HandlerOrder[3] == Todo;
    assert Accepts(Todo, command) == TodoAccepts(command);
  }

  lemma ReminderTurn(command: string)
    ensures RouteFrom(command, 4) == if ReminderAccepts(command) then Some(Reminder) else RouteFrom(command, 5)
  {
    assert HandlerOrder[4] == Reminder;
    assert Accepts(Reminder, command) == ReminderAccepts(command);
  }

  lemma PicturesTurn(command: string)
    ensures RouteFrom(command, 5) == if PicturesAccepts(command) then Some(Pictures) else None
  {
    assert HandlerOrder[5] == Pictures;
    assert Accepts(Pictures, command) == PicturesAccepts(command);
  }

  /** The media handler is tried before the system handler, so "close play
      music" starts the music instead of closing VLC: any command holding a
      play phrase of a category never reaches the system handler. */
  lemma CloseMusicGoesToMedia(command: string)
    requires Contains(Strip(Lower(command)), "play music")
    ensures Route(command) == Some(YouTube) || Route(command) == Some(Media)
  {
    MediaTask.PlayMusicIsPlay(command);
    assert MediaAccepts(command);
    YouTubeTurn(command);
    MediaTurn(command);
  }
}
