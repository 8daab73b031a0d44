/**
 * main.py: the voice loop. Each command that `listen` returns is stripped
 * and offered to the six handlers in order; the first that accepts acts on
 * its own store, and a command nobody accepts is answered with "Sorry, I
 * didn't understand that command.". The same chain serves the Alexa local
 * commands of alexa_handler.py.
 */
module MainLoop {
  import opened Wrappers
  import opened PyStr
  import opened Handlers
  import ReminderTask
  import TodoTask
  import MediaTask
  import PictureTask
  import AlexaHandler

  /** The stores the handlers keep, and what one run of the loop sees of
      the world: today's weekday, the media folders and the picture folder. */
  class Assistant {
    const reminders: ReminderTask.ReminderFile
    const todo: TodoTask.TodoFile
    const media: MediaTask.MediaState
    const slides: PictureTask.Slideshow

    /** At start-up every store is empty and no slideshow runs. */
    constructor ()
      ensures reminders.reminders == map[] && todo.tasks == map[] && media.lastIndex == map[]
      ensures slides.State() == PictureTask.ShowState(false, false, false, [])
      ensures fresh(reminders) && fresh(todo) && fresh(media) && fresh(slides)
    {
      reminders := new ReminderTask.ReminderFile();
      todo := new TodoTask.TodoFile();
      media := new MediaTask.MediaState();
      slides := new PictureTask.Slideshow();
    }

    /** `process_command`: the handlers are asked in order and the first
        that accepts acts; `taker` is the one that took the command. Only that
        handler's store can change. */
    method ProcessCommand(command: string, weekday: string, folders: map<string, seq<string>>,
                          pictures: seq<string>)
      returns (handled: bool, taker: Option<Handler>)
      modifies reminders, todo, media, slides
      ensures taker == Route(command) && (handled <==> taker.Some?)
      ensures todo.tasks == if taker == Some(Todo)
        then TodoTask.ApplyTodoRequest(old(todo.tasks), TodoTask.ParseTodoCommand(command))
        else old(todo.tasks)
      ensures reminders.reminders == if taker == Some(Reminder)
        then ReminderTask.ApplyReminderRequest(old(reminders.reminders), ReminderTask.ParseReminderCommand(command, weekday))
        else old(reminders.reminders)
      ensures slides.State() == if taker == Some(Pictures)
        then PictureTask.Transition(old(slides.State()), PictureTask.ParsePictureCommand(command),
                                    PictureTask.FindImages(pictures))
        else old(slides.State())
      ensures media.lastIndex == if taker == Some(Media)
        then MediaHandled(old(media.lastIndex), command, folders)
        else old(media.lastIndex)
      ensures var req := MediaTask.ParseMediaCommand(command);
        taker == Some(Media) && req.Play? ==>
          exists o :: MediaTask.PlayEffect(old(media.lastIndex), media.lastIndex, o, req.category, req.shuffle, folders)
    {
      YouTubeTurn(command);
      if YouTubeAccepts(command) {
        // the search itself drives the browser and is not modelled
        return true, Some(YouTube);
      }
      taker := OfferToMedia(command, weekday, folders, pictures);
      handled := taker.Some?;
    }

    /** The chain from the media handler on, which `process_command` reaches
        once the YouTube handler has declined. */
    method OfferToMedia(command: string, weekday: string, folders: map<string, seq<string>>,
                        pictures: seq<string>)
      returns (taker: Option<Handler>)
      modifies reminders, todo, media, slides
      ensures taker == RouteFrom(command, 1)
      ensures todo.tasks == if taker == Some(Todo)
        then TodoTask.ApplyTodoRequest(old(todo.tasks), TodoTask.ParseTodoCommand(command))
        else old(todo.tasks)
      ensures reminders.reminders == if taker == Some(Reminder)
        then ReminderTask.ApplyReminderRequest(old(reminders.reminders), ReminderTask.ParseReminderCommand(command, weekday))
        else old(reminders.reminders)
      ensures slides.State() == if taker == Some(Pictures)
        then PictureTask.Transition(old(slides.State()), PictureTask.ParsePictureCommand(command),
                                    PictureTask.FindImages(pictures))
        else old(slides.State())
      ensures media.lastIndex == if taker == Some(Media)
        then MediaHandled(old(media.lastIndex), command, folders)
        else old(media.lastIndex)
      ensures var req := MediaTask.ParseMediaCommand(command);
        taker == Some(Media) && req.Play? ==>
          exists o :: MediaTask.PlayEffect(old(media.lastIndex), media.lastIndex, o, req.category, req.shuffle, folders)
    {
      var ok := AskMedia(command, folders);
      MediaTurn(command);
      if ok {
        return Some(Media);
      }
      taker := OfferToSystem(command, weekday, pictures);
    }

    /** The media handler's answer and its effect on the resume points: they
        change only when it starts playing something, and then as the play
        does. */
    method AskMedia(command: string, folders: map<string, seq<string>>) returns (ok: bool)
      modifies media
      ensures ok == MediaAccepts(command)
      ensures media.lastIndex == MediaHandled(old(media.lastIndex), command, folders)
      ensures var req := MediaTask.ParseMediaCommand(command);
        req.Play? ==>
          exists o :: MediaTask.PlayEffect(old(media.lastIndex), media.lastIndex, o, req.category, req.shuffle, folders)
    {
      var played, sent;
      ok, played, sent := media.HandleMedia(command, folders);
      var req := MediaTask.ParseMediaCommand(command);
      if req.Play? {
        assert MediaTask.PlayEffect(old(media.lastIndex), media.lastIndex, played.value, req.category, req.shuffle, folders);
      }
    }

    /** The chain from the system handler on. */
    method OfferToSystem(command: string, weekday: string, pictures: seq<string>)
      returns (taker: Option<Handler>)
      modifies reminders, todo, slides
      ensures taker == RouteFrom(command, 2)
      ensures todo.tasks == if taker == Some(Todo)
        then TodoTask.ApplyTodoRequest(old(todo.tasks), TodoTask.ParseTodoCommand(command))
        else old(todo.tasks)
      ensures reminders.reminders == if taker == Some(Reminder)
        then ReminderTask.ApplyReminderRequest(old(reminders.reminders), ReminderTask.ParseReminderCommand(command, weekday))
        else old(reminders.reminders)
      ensures slides.State() == if taker == Some(Pictures)
        then PictureTask.Transition(old(slides.State()), PictureTask.ParsePictureCommand(command),
                                    PictureTask.FindImages(pictures))
        else old(slides.State())
    {
      SystemTurn(command);
      if SystemAccepts(command) {
        // `pkill vlc` is not modelled
        return Some(System);
      }
      taker := OfferToTodo(command, weekday, pictures);
    }

    /** The chain from the to-do handler on. */
    method OfferToTodo(command: string, weekday: string, pictures: seq<string>)
      returns (taker: Option<Handler>)
      modifies reminders, todo, slides
      ensures taker == RouteFrom(command, 3)
      ensures todo.tasks == if taker == Some(Todo)
        then TodoTask.ApplyTodoRequest(old(todo.tasks), TodoTask.ParseTodoCommand(command))
        else old(todo.tasks)
      ensures reminders.reminders == if taker == Some(Reminder)
        then ReminderTask.ApplyReminderRequest(old(reminders.reminders), ReminderTask.ParseReminderCommand(command, weekday))
        else old(reminders.reminders)
      ensures slides.State() == if taker == Some(Pictures)
        then PictureTask.Transition(old(slides.State()), PictureTask.ParsePictureCommand(command),
                                    PictureTask.FindImages(pictures))
        else old(slides.State())
    {
      var ok := AskTodo(command);
      TodoTurn(command);
      if ok {
        return Some(Todo);
      }
      taker := OfferToReminders(command, weekday, pictures);
    }

    /** The to-do handler's answer and its effect on the task list. */
    method AskTodo(command: string) returns (ok: bool)
      modifies todo
      ensures ok == TodoAccepts(command)
      ensures todo.tasks == if ok
        then TodoTask.ApplyTodoRequest(old(todo.tasks), TodoTask.ParseTodoCommand(command))
        else old(todo.tasks)
    {
      var lines;
      ok, lines := todo.HandleTodo(command);
    }

    /** The reminder handler's answer and its effect on the reminders. */
    method AskReminders(command: string, weekday: string) returns (ok: bool)
      modifies reminders
      ensures ok == ReminderAccepts(command)
      ensures reminders.reminders == if ok
        then ReminderTask.ApplyReminderRequest(old(reminders.reminders), ReminderTask.ParseReminderCommand(command, weekday))
        else old(reminders.reminders)
    {
      var lines;
      ok, lines := reminders.HandleReminder(command, weekday);
      ReminderAcceptance(command, weekday);
    }

    /** The last two handlers of the chain. */
    method OfferToReminders(command: string, weekday: string, pictures: seq<string>)
      returns (taker: Option<Handler>)
      modifies reminders, slides
      ensures taker == RouteFrom(command, 4)
      ensures reminders.reminders == if taker == Some(Reminder)
        then ReminderTask.ApplyReminderRequest(old(reminders.reminders), ReminderTask.ParseReminderCommand(command, weekday))
        else old(reminders.reminders)
      ensures slides.State() == if taker == Some(Pictures)
        then PictureTask.Transition(old(slides.State()), PictureTask.ParsePictureCommand(command),
                                    PictureTask.FindImages(pictures))
        else old(slides.State())
    {
      var ok := AskReminders(command, weekday);
      ReminderTurn(command);
      if ok {
        return Some(Reminder);
      }
      ok := slides.HandlePictures(command, pictures);
      taker := if ok then Some(Pictures) else None;
      PicturesTurn(command);
    }

    /** `handle_local_command` with its effects: the command is lower-cased
        and stripped, run through the chain, and answered with the sentence
        naming the handler that took it. */
    method HandleLocalCommand(command: string, weekday: string, folders: map<string, seq<string>>,
                              pictures: seq<string>)
      returns (reply: string)
      modifies reminders, todo, media, slides
      ensures reply == AlexaHandler.HandleLocalCommand(command)
      ensures var c := Strip(Lower(command));
        && todo.tasks == TodoEffect(old(todo.tasks), c)
        && reminders.reminders == ReminderEffect(old(reminders.reminders), c, weekday)
        && slides.State() == SlidesEffect(old(slides.State()), c, pictures)
        && media.lastIndex == MediaEffect(old(media.lastIndex), c, folders)
    {
      var _, taker := ProcessCommand(Strip(Lower(command)), weekday, folders, pictures);
      reply := AlexaHandler.LocalReply(taker);
    }

    /** The `while True` loop of `main` over the commands `listen` returned,
        in order: the empty ones are skipped, the others are stripped and
        processed. Returns the commands answered with "didn't understand". */
    method RunSession(commands: seq<string>, weekday: string, folders: map<string, seq<string>>,
                      pictures: seq<string>)
      returns (complaints: seq<string>)
      modifies reminders, todo, media, slides
      ensures complaints == Unhandled(commands)
      ensures todo.tasks == TodoAfter(old(todo.tasks), commands)
      ensures reminders.reminders == RemindersAfter(old(reminders.reminders), commands, weekday)
      ensures slides.State() == SlidesAfter(old(slides.State()), commands, pictures)
      ensures media.lastIndex == MediaAfter(old(media.lastIndex), commands, folders)
    {
      complaints := [];
      for i := 0 to |commands|
        invariant complaints == Unhandled(commands[..i])
        invariant todo.tasks == TodoAfter(old(todo.tasks), commands[..i])
        invariant reminders.reminders == RemindersAfter(old(reminders.reminders), commands[..i], weekday)
        invariant slides.State() == SlidesAfter(old(slides.State()), commands[..i], pictures)
        invariant media.lastIndex == MediaAfter(old(media.lastIndex), commands[..i], folders)
      {
        var command := commands[i];
        assert commands[..i + 1][..i] == commands[..i];
        if command != "" {
          var handled, _ := ProcessCommand(Strip(command), weekday, folders, pictures);
          if !handled {
            complaints := complaints + [command];
          }
        }
      }
      assert commands[..|commands|] == commands;
    }
  }

  /** A command the loop complains about: it is not empty, and no handler
      accepts it once stripped. */
  predicate Unanswered(c: string) {
    c != "" && Route(Strip(c)).None?
  }

  /** The elements of `xs` that satisfy `p`, in order. */
  function Keep(xs: seq<string>, p: string -> bool): (r: seq<string>)
    ensures |r| <= |xs|
    decreases |xs|
  {
    if xs == [] then []
    else Keep(xs[..|xs| - 1], p) + (if p(xs[|xs| - 1]) then [xs[|xs| - 1]] else [])
  }

  /** Everything kept is an element that satisfies the predicate. */
  lemma {:induction false} KeptSatisfies(xs: seq<string>, p: string -> bool, x: string)
    requires x in Keep(xs, p)
    ensures x in xs && p(x)
    decreases |xs|
  {
    var front := xs[..|xs| - 1];
    if x in Keep(front, p) {
      KeptSatisfies(front, p, x);
      assert x in xs;
    }
  }

  /** Filtering a concatenation filters each part. */
  lemma {:induction false} KeepSplits(a: seq<string>, b: seq<string>, p: string -> bool)
    ensures Keep(a + b, p) == Keep(a, p) + Keep(b, p)
    decreases |b|
  {
    if b == [] {
      assert a + b == a;
    } else {
      var ab := a + b;
      var b' := b[..|b| - 1];
      assert ab[..|ab| - 1] == a + b';
      assert ab[|ab| - 1] == b[|b| - 1];
      KeepSplits(a, b', p);
    }
  }

  /** A single element is kept exactly when it satisfies the predicate. */
  lemma KeepOne(x: string, p: string -> bool)
    ensures Keep([x], p) == if p(x) then [x] else []
  {
    assert [x][..0] == [];
  }

  /** The commands of a session the assistant complains about, in order. */
  function Unhandled(commands: seq<string>): (r: seq<string>)
    ensures |r| <= |commands|
  {
    Keep(commands, Unanswered)
  }

  /** Only non-empty commands that no handler accepts draw a complaint. */
  lemma ComplaintsAreUnhandled(commands: seq<string>, c: string)
    requires c in Unhandled(commands)
    ensures c in commands && c != "" && Route(Strip(c)).None?
  {
    KeptSatisfies(commands, Unanswered, c);
  }

  /** Each command is answered on its own: the complaints of a session are
      those of its parts. */
  lemma UnhandledSplits(a: seq<string>, b: seq<string>)
    ensures Unhandled(a + b) == Unhandled(a) + Unhandled(b)
  {
    KeepSplits(a, b, Unanswered);
  }

  /** A single command: an empty one is skipped, a non-empty one draws
      exactly one complaint when no handler accepts it, and none otherwise. */
  lemma OneComplaintPerCommand(c: string)
    ensures Unhandled([c]) == if Unanswered(c) then [c] else []
  {
    KeepOne(c, Unanswered);
  }

  /** What a processed command does to the to-do list: the to-do handler
      applies it when it takes it. */
  function TodoEffect(m: map<string, string>, c: string): map<string, string> {
    if Route(c) == Some(Todo) then TodoTask.ApplyTodoRequest(m, TodoTask.ParseTodoCommand(c)) else m
  }

  /** What a processed command does to the reminders. */
  function ReminderEffect(m: map<string, ReminderTask.Reminder>, c: string, weekday: string)
    : map<string, ReminderTask.Reminder>
  {
    if Route(c) == Some(Reminder)
    then ReminderTask.ApplyReminderRequest(m, ReminderTask.ParseReminderCommand(c, weekday))
    else m
  }

  /** What a processed command does to the slideshow. */
  function SlidesEffect(s: PictureTask.ShowState, c: string, pictures: seq<string>): PictureTask.ShowState {
    if Route(c) == Some(Pictures)
    then PictureTask.Transition(s, PictureTask.ParsePictureCommand(c), PictureTask.FindImages(pictures))
    else s
  }

  /** The resume points once the media handler has acted on `c`. */
  function MediaHandled(idx: map<string, int>, c: string, folders: map<string, seq<string>>): map<string, int> {
    var req := MediaTask.ParseMediaCommand(c);
    if req.Play? then MediaTask.PlayedIndex(idx, req.category, req.shuffle, folders) else idx
  }

  /** What a processed command does to the resume points. */
  function MediaEffect(idx: map<string, int>, c: string, folders: map<string, seq<string>>): map<string, int> {
    if Route(c) == Some(Media) then MediaHandled(idx, c, folders) else idx
  }

  /** One command of the loop's effect on the to-do list: an empty one is
      skipped, the others are stripped and processed. */
  function TodoStep(m: map<string, string>, c: string): map<string, string> {
    if c != "" then TodoEffect(m, Strip(c)) else m
  }

  /** The to-do list after the commands: each one that the to-do handler
      takes is applied in turn. */
  function TodoAfter(m: map<string, string>, commands: seq<string>): map<string, string>
    decreases |commands|
  {
    if commands == [] then m
    else TodoStep(TodoAfter(m, commands[..|commands| - 1]), commands[|commands| - 1])
  }

  /** One command's effect on the reminders. */
  function ReminderStep(m: map<string, ReminderTask.Reminder>, c: string, weekday: string)
    : map<string, ReminderTask.Reminder>
  {
    if c != "" then ReminderEffect(m, Strip(c), weekday) else m
  }

  /** The reminders after the commands, the reminder poller aside. */
  function RemindersAfter(m: map<string, ReminderTask.Reminder>, commands: seq<string>, weekday: string)
    : map<string, ReminderTask.Reminder>
    decreases |commands|
  {
    if commands == [] then m
    else ReminderStep(RemindersAfter(m, commands[..|commands| - 1], weekday), commands[|commands| - 1], weekday)
  }

  /** One command's effect on the slideshow. */
  function SlideStep(s: PictureTask.ShowState, c: string, pictures: seq<string>): PictureTask.ShowState {
    if c != "" then SlidesEffect(s, Strip(c), pictures) else s
  }

  /** The slideshow after the commands, its display thread aside. */
  function SlidesAfter(s: PictureTask.ShowState, commands: seq<string>, pictures: seq<string>): PictureTask.ShowState
    decreases |commands|
  {
    if commands == [] then s
    else SlideStep(SlidesAfter(s, commands[..|commands| - 1], pictures), commands[|commands| - 1], pictures)
  }

  /** One command's effect on the resume points. */
  function MediaStep(idx: map<string, int>, c: string, folders: map<string, seq<string>>): map<string, int> {
    if c != "" then MediaEffect(idx, Strip(c), folders) else idx
  }

  /** The resume points after the commands. */
  function MediaAfter(idx: map<string, int>, commands: seq<string>, folders: map<string, seq<string>>)
    : map<string, int>
    decreases |commands|
  {
    if commands == [] then idx
    else MediaStep(MediaAfter(idx, commands[..|commands| - 1], folders), commands[|commands| - 1], folders)
  }

  /** A session without to-do commands leaves the to-do list as it was. */
  lemma {:induction false} TodoUntouchedWithoutTodoCommands(m: map<string, string>, commands: seq<string>)
    requires forall i :: 0 <= i < |commands| ==> Route(Strip(commands[i])) != Some(Todo)
    ensures TodoAfter(m, commands) == m
    decreases |commands|
  {
    if commands != [] {
      TodoUntouchedWithoutTodoCommands(m, commands[..|commands| - 1]);
    }
  }

  /** A session in which the media handler starts nothing leaves every
      resume point as it was. */
  lemma {:induction false} MediaUntouchedWithoutPlays(idx: map<string, int>, commands: seq<string>,
                                                      folders: map<string, seq<string>>)
    requires forall i :: 0 <= i < |commands| ==>
      Route(Strip(commands[i])) != Some(Media) || !MediaTask.ParseMediaCommand(Strip(commands[i])).Play?
    ensures MediaAfter(idx, commands, folders) == idx
    decreases |commands|
  {
    if commands != [] {
      MediaUntouchedWithoutPlays(idx, commands[..|commands| - 1], folders);
    }
  }

  /** One command that plays no `category` keeps that category's point. */
  lemma MediaStepKeeps(idx: map<string, int>, c: string, folders: map<string, seq<string>>, category: string)
    requires var req := MediaTask.ParseMediaCommand(Strip(c));
      Route(Strip(c)) != Some(Media) || !req.Play? || req.category != category
    ensures category in MediaStep(idx, c, folders) <==> category in idx
    ensures category in idx ==> MediaStep(idx, c, folders)[category] == idx[category]
  {
  }

  /** A play by the media handler changes no other category's resume point,
      so a session changes a category's point only through plays of it. */
  lemma {:induction false} MediaOtherCategoriesKept(idx: map<string, int>, commands: seq<string>,
                                                    folders: map<string, seq<string>>, category: string)
    requires forall i :: 0 <= i < |commands| ==>
      var req := MediaTask.ParseMediaCommand(Strip(commands[i]));
      Route(Strip(commands[i])) != Some(Media) || !req.Play? || req.category != category
    ensures category in MediaAfter(idx, commands, folders) <==> category in idx
    ensures category in idx ==> MediaAfter(idx, commands, folders)[category] == idx[category]
    decreases |commands|
  {
    if commands != [] {
      var front := commands[..|commands| - 1];
      MediaOtherCategoriesKept(idx, front, folders, category);
      MediaStepKeeps(MediaAfter(idx, front, folders), commands[|commands| - 1], folders, category);
    }
  }
}
