# jarvis_alexa, modelled in Dafny

jarvis_alexa is a desktop voice assistant. A microphone loop (`main.py`)
waits for the wake phrase "ok jarvis" or "ok bro", records a command and hands
it to six task handlers in a fixed order — YouTube, media, system, to-do,
reminder, pictures — stopping at the first one that accepts it. An Alexa
skill reaches the same handlers through a Flask webhook (`app.py`) exposed
by an ngrok tunnel, and through `alexa_handler.py`; questions that are not
local commands go to a hosted language model.

This project models the parts of that system whose behaviour can be stated:

- **Reminders** (`ReminderTask`). The store is reminders.json, a map from id
  to entry. The model covers:
  - the three commands "remind me to X at T", "show reminders" and
    "remove reminder N";
  - `strptime("%I:%M %p")`, and rendering the time again with `strftime`;
  - one pass of the background poller, which fires the entries whose time
    has come and deletes the one-shot entries among them.
- **To-do list** (`TodoTask`). The store is todo_list.json, a map from id to
  text. The model covers "add task X", "remove task N" and "show task".
- **Media** (`MediaTask`):
  - the keyword dispatch of `handle_media`;
  - the media file filter and sort;
  - the resume point kept per category in media_state.json;
  - the VLC command line;
  - the remote-control table.
- **Picture slideshow** (`PictureTask`). The `slideshow_state` flags
  (running, paused, stop requested) and their guarded transitions, and the
  display step that shows one picture and schedules the next.
- **Routing** (`Handlers`, `MainLoop`, `AlexaHandler`, `App`):
  - the first-match chain over the six handlers;
  - the `main` loop over successive commands;
  - the Alexa request handling, which always answers with a well-formed
    response envelope;
  - the `.env` rewrite;
  - extracting the public URL from the ngrok API answer.
- **Speech** (`SpeechModule`). Finding VLC's sink input in `pactl` output,
  the wake-phrase gate of `listen`, and the rule that VLC is turned down
  before a command is recorded and always turned back up.

Helper modules:

- `PyStr` models the Python string methods the code uses: `lower`, `upper`,
  `strip`, `in`, `startswith`, `replace`, `split`, and `str` of a number.
- `PyJson` models JSON values with Python's subscript, `get`, `in` and
  truthiness, including the exceptions these raise.
- `SortedNames` models `sorted` on strings.
- `Wrappers` holds `Option`.

How the stores and files are represented:

- Each persisted store is a class whose field is a map. Its methods load,
  change and save the store as one update.
- Command parsing is pure: each handler's `Parse…Command` returns a request
  value, and a pure `Apply…Request` function states what the request does
  to the store.
- Folder listings, the clock, the weekday, the output of `pactl` and what
  the recogniser heard are parameters.

## Model

| member | source | states |
|---|---|---|
| Handlers.MediaAccepts | tasks/media_task.py:104-133 | handle_media accepts exactly a play, or a control whose action control_vlc knows |
| Handlers.TodoAccepts | tasks/todo_task.py:79-102 | handle_todo accepts only stripped commands starting with "add task" or "remove task", or equal to "show task", and always accepts "show task" |
| Handlers.PicturesAccepts | tasks/picture_task.py:93-110 | handle_pictures accepts exactly the seven lower-cased, stripped phrases |
| Handlers.ReminderAcceptance | tasks/reminder_task.py:89-91 | the reminder handler accepts exactly the commands of its three forms, whatever the weekday |
| Handlers.ScanFrom | main.py:41-59 | the handler the chain returns from position k on accepts the command and comes no earlier than k |
| Handlers.ScanSkips | main.py:41-58 | the chain passes over declining handlers only |
| Handlers.ScanNone | main.py:41-59 | the chain from position k returns nothing exactly when every handler from k on declines |
| Handlers.FirstMatch | main.py:41-58 | the chain returns h if and only if h accepts and every handler tried before h declines |
| Handlers.NoMatch | main.py:59 | the chain returns nothing if and only if all six handlers decline |
| Handlers.MatchNoLaterThan | alexa_handler.py:19-30 | once a handler accepts, no later handler is consulted: the taker is that handler or one tried before it |
| Handlers.RouteIsFirstMatch | main.py:39-58 | for a command, the routed handler is the first, in the order YouTube, media, system, to-do, reminder, pictures, to accept it |
| Handlers.RouteNone | main.py:59 | a command is routed nowhere exactly when every handler declines it |
| Handlers.YouTubeTurn | main.py:41-43 | the YouTube handler takes the command when "open youtube and play" occurs in it, and otherwise passes it on |
| Handlers.MediaTurn | main.py:44-46 | the media handler takes a command that reaches it when it accepts, and otherwise passes it on |
| Handlers.SystemTurn | main.py:47-49 | the system handler takes a command that reaches it when "close play" occurs in it, and otherwise passes it on |
| Handlers.TodoTurn | main.py:50-52 | the to-do handler takes a command that reaches it when it accepts, and otherwise passes it on |
| Handlers.ReminderTurn | main.py:53-55 | the reminder handler takes a command that reaches it when it accepts, and otherwise passes it on |
| Handlers.PicturesTurn | main.py:56-59 | the pictures handler takes a command that reaches it when it accepts; otherwise no handler takes it |
| Handlers.CloseMusicGoesToMedia | main.py:44-49 | a command containing "play music", such as "close play music", goes to the YouTube or media handler and never reaches the system handler |
| AlexaHandler.HandleLocalCommand | alexa_handler.py:14-32 | the reply is the "could not process" sentence exactly when every handler declines the lower-cased, stripped command |
| AlexaHandler.LocalReplyInjective | alexa_handler.py:19-32 | the seven possible replies are pairwise different, so the reply identifies the outcome |
| AlexaHandler.ReplyNamesFirst | alexa_handler.py:19-30 | whatever the handlers answer, the reply names h exactly when h is the first handler to accept |
| AlexaHandler.LocalReplyNamesHandler | alexa_handler.py:14-30 | the reply to a command names h exactly when h is the first handler to accept the lower-cased, stripped command |
| AlexaHandler.ProcessLocalCommand | alexa_handler.py:52-65 | returns True exactly when some handler accepts the command as given |
| AlexaHandler.BuildAlexaResponse | alexa_handler.py:85-95 | the envelope has version "1.0", PlainText speech equal to the message, and shouldEndSession true |
| AlexaHandler.ResponseRoundTrip | alexa_handler.py:85-95 | every envelope is well formed, the message can be read back from it, and different messages give different envelopes |
| AlexaHandler.RequestReply | alexa_handler.py:37-50 | a KeyError never escapes: a missing key is answered instead |
| AlexaHandler.HandleAlexaRequest | alexa_handler.py:37-50 | raises exactly when computing the reply raises; otherwise returns a well-formed envelope that speaks the reply |
| AlexaHandler.MissingSlotKey | alexa_handler.py:38-41 | a key missing anywhere on request.intent.slots.query.value gives "Sorry, I didn't catch that." |
| AlexaHandler.LocalQueryRouted | alexa_handler.py:43-48 | "local to X" runs X, with every further "local to " removed and then stripped, through the handlers and answers "Command executed." or the apology, depending on whether one took it; without a further "local to " that is the stripped X |
| AlexaHandler.QueryReply | alexa_handler.py:42-49 | a query with the "local to " prefix is answered with one of the two local sentences; any other goes to the model |
| AlexaHandler.StringSlotAnswered | alexa_handler.py:39-50 | a string query is lower-cased; without the "local to " prefix it is answered by the model |
| App.TunnelUrlExtracted | app.py:44-48 | a URL comes out exactly when the first tunnel has a string public_url, and it is that URL plus "/alexa"; none comes out when tunnels is missing or empty |
| App.EnvUpdated | app.py:79-87 | the list of lines written has one line more exactly when no line read set the key |
| App.UpdateEnvVariable | app.py:73-92 | the text written is the lines `for line in f` gives on the file, with "\r\n" and "\r" read as "\n", rewritten and written one after the other; nothing is written when the file cannot be read |
| App.NewlinesDropReturns | app.py:78-79 | the text read from a file opened in text mode holds no "\r" |
| App.NewlinesAfter | app.py:78-79 | text without "\r" is read unchanged, whatever follows it |
| App.NewlinesKeepPlainText | app.py:78-79 | text without "\r" is read unchanged |
| App.NewlinesKeepEnd | app.py:78-79 | text ending in "\n" or "\r" is read as text ending in "\n" |
| App.ReadsLoneReturn | app.py:78-79 | a "\r" alone is read as "\n" |
| App.ReadsReturnNewline | app.py:78-79 | a "\r\n" is read as one "\n" |
| App.CarriageReturnEndsLine | app.py:73-92 | a line ended by "\r" or "\r\n" is a line of its own: the key on the next line is rewritten in place, and the file is written back with "\n" line ends |
| App.ReadLinesLack | app.py:79 | a character absent from the text is absent from every line read |
| App.ConcatLacks | app.py:91 | a character absent from every line is absent from the text written |
| App.EnvUpdatedLacksReturn | app.py:79-91 | when no line read, key or value holds "\r", nor does the text written |
| App.UpdatedLinesReadBack | app.py:79-91 | on translated text that is empty or ends in "\n", the rewritten lines hold no "\r", read back as they are and end in "\n" |
| App.ConcatTwo | app.py:91 | two lines are written one after the other |
| App.ReadsTwoLines | app.py:79 | two lines, each ending in its one "\n", are read back as two lines |
| App.UpdatesSecondLine | app.py:79-87 | of two lines, when only the second sets the key, the second is replaced by the entry |
| App.RewritesSecondLine | app.py:79-91 | a line that does not set the key followed by one that does: the second is rewritten in place |
| App.LineLength | app.py:79 | on text whose line breaks are already translated to "\n", a line read ends at the first "\n", which it keeps, or at the end of the text |
| App.ConcatReadLines | app.py:79-91 | on translated text, writing back the lines read gives the text again |
| App.ReadLinesTerminated | app.py:79 | when the text is empty or ends in "\n", every line read ends in its one "\n" |
| App.ReadConcat | app.py:79-91 | lines that each end in their one "\n", written and read again as translated text, are the same lines |
| App.ConcatEndsInNewline | app.py:91 | such lines, written, end in "\n" |
| App.EnvEntryTerminated | app.py:81 | the entry "KEY=value\n" is one terminated line when key and value hold no "\n" |
| App.EnvUpdatedTerminated | app.py:79-87 | the rewrite of terminated lines is terminated lines |
| App.EnvFileReadsBack | app.py:73-92 | on a .env that is empty or ends in a line break ("\n" or "\r"), the file written holds no "\r", reads back as the rewritten list of lines and ends in "\n" |
| App.EnvFileOverwrites | app.py:73-92 | on such a .env, setting the key twice writes what setting it once to the second value writes |
| App.ReadOneLine | app.py:79 | translated text with a "\n" only at its end, if at all, reads as one line |
| App.AppendToOneLine | app.py:86-91 | a single line that does not set the key is written followed by the entry |
| App.ExtendedLineKey | app.py:80 | a line long enough to hold "KEY=" that does not set the key still does not once text is added after it |
| App.EnvFileAppendsToLast | app.py:86-91 | a .env of one line without a line break that does not set the key gets the entry written onto the end of that line |
| App.EnvFileMerges | app.py:79-91 | that text is read as one line, no longer the line it was, and no line of it sets the key |
| App.EnvFileRepeatAppends | app.py:73-92 | on such a .env a second update appends a second entry, so it differs from a single update with the second value |
| App.EnvUpdateKeepsOtherLines | app.py:78-87 | in the list of lines, those that do not start with "KEY=" keep their text and place; every line that sets the key afterwards is "KEY=value", and there is one |
| App.EnvUpdateOverwrites | app.py:80-82 | on the list of lines, setting the same key twice equals setting it once to the second value |
| App.OtherKeysUntouched | app.py:80 | a line setting another key, such as "KEY_OTHER=…", is never taken for the key, so it is never rewritten |
| App.StartNgrok | app.py:22-71 | a URL is returned exactly when the auth token was registered and the API answer has a usable tunnel; only then is NGROK_PUBLIC_URL written to .env, as the text `update_env_variable` writes |
| App.HandleAlexa | app.py:94-154 | every request, however malformed, is answered with a well-formed envelope that speaks the computed text |
| App.RequestTypeReplies | app.py:134-142 | LaunchRequest gets the greeting, SessionEndedRequest the empty text, any other non-intent type the "didn't understand" text |
| App.MalformedRequests | app.py:144-151 | a missing key on the way to request.type gives the "incomplete request" text; a body that is not an object gives the "internal error" text |
| App.IntentLookup | app.py:109-110 | when a slot value can be reached, so can the intent, and the value sits under it |
| App.LocalIntentAnswered | app.py:114-120 | a LocalToIntent with a string localquery value is answered with handle_local_command's reply |
| App.LocalIntentReply | app.py:114-120 | the intent-level part of the LocalToIntent answer |
| App.QueryIntentAnswered | app.py:124-130 | any other intent with a query value is answered by the model |
| App.MissingSlotReplies | app.py:114-133 | an intent without slots gets the "incomplete request" text; a LocalToIntent whose localquery slot is absent, empty or without a value gets the "didn't get a specific local command" text, and any other intent whose query slot is so gets the "didn't get a specific query" text |
| MainLoop.Assistant.constructor | main.py:1-7 | on a first start-up, with none of the store files present, every store is empty and no slideshow runs |
| MainLoop.Assistant.ProcessCommand | main.py:39-59 | the command goes to the first accepting handler; only that handler's store changes, as its Apply function says, the media handler's resume points as its play does; returns False exactly when no handler accepts |
| MainLoop.Assistant.OfferToMedia | main.py:44-59 | the chain from the media handler on: the taker and each store's new state, the resume points included |
| MainLoop.Assistant.AskMedia | main.py:44 | the media handler's answer; a play moves the resume points as play_media does, with some launch outcome, and any other command leaves them alone |
| MainLoop.Assistant.OfferToSystem | main.py:47-59 | the chain from the system handler on: the taker and each store's new state |
| MainLoop.Assistant.OfferToTodo | main.py:50-59 | the chain from the to-do handler on: the taker and each store's new state |
| MainLoop.Assistant.AskTodo | main.py:50 | the to-do handler's answer, and the list after applying the parsed command when it accepts |
| MainLoop.Assistant.AskReminders | main.py:53 | the reminder handler's answer, and the store after applying the parsed command when it accepts |
| MainLoop.Assistant.OfferToReminders | main.py:53-59 | the last two handlers of the chain: the taker and the new reminder and slideshow states |
| MainLoop.Assistant.HandleLocalCommand | alexa_handler.py:14-32 | the reply is the one handle_local_command gives, and each store becomes what the handler that takes the lower-cased, stripped command makes of it |
| MainLoop.Assistant.RunSession | main.py:63-68 | over a session, the commands answered "didn't understand" are the unhandled ones; the to-do list, the reminders, the slideshow and the resume points are those commands' effects applied in order |
| MainLoop.Unhandled | main.py:66-68 | a session draws at most one complaint per command |
| MainLoop.ComplaintsAreUnhandled | main.py:66-68 | only a non-empty command that no handler accepts once stripped draws a complaint |
| MainLoop.UnhandledSplits | main.py:63-68 | commands are answered independently: the complaints of two sessions in a row are those of each |
| MainLoop.OneComplaintPerCommand | main.py:66-68 | an empty command is skipped; a non-empty one draws exactly one complaint when unhandled and none otherwise |
| MainLoop.TodoUntouchedWithoutTodoCommands | main.py:63-67 | a session without to-do commands leaves the to-do list unchanged |
| MainLoop.MediaUntouchedWithoutPlays | main.py:63-67 | a session in which the media handler starts no play leaves every resume point unchanged |
| MainLoop.MediaOtherCategoriesKept | main.py:63-67 | a session changes a category's resume point only through plays of that category |
| MediaTask.CategoryInfo | tasks/media_task.py:38-39 | a category is found exactly when it is in the table, and the entry found has that name |
| MediaTask.FilterMedia | tasks/media_task.py:31-34 | keeps each name ending case-insensitively in .mp3/.wav/.m4a/.mp4/.mkv/.avi as often as it occurs, and nothing else |
| MediaTask.GetMediaFiles | tasks/media_task.py:30-35 | the media names of the listing, sorted |
| MediaTask.MediaFileMembership | tasks/media_task.py:30-35 | a name is returned exactly when it is listed and has a media extension |
| MediaTask.MediaFilesIgnoreListingOrder | tasks/media_task.py:30-35 | listings that differ only in order give the same file list |
| MediaTask.SliceStart | tasks/media_task.py:65 | Python's slice start for an index in range and for a negative index |
| MediaTask.RotationIsPermutation | tasks/media_task.py:61-65 | the resume playlist files[i:] + files[:i] holds the same files, starting at the saved one and wrapping round |
| MediaTask.ResumeIndex | tasks/media_task.py:62-64 | the start index is the saved last_index when it is below n (a negative one is kept, as Python's slice takes it), and 0 when the saved one is n or more |
| MediaTask.PlayedIndex | tasks/media_task.py:58-80 | only a play that launches VLC moves a resume point, and only its own category's, into the range of its files |
| MediaTask.PlayEffect | tasks/media_task.py:37-82 | a play launches VLC exactly when the category, its folder and its files are there |
| MediaTask.PlayEffectIndex | tasks/media_task.py:58-80 | whatever order the files are played in, a play's effect on the resume points is the one PlayedIndex gives |
| MediaTask.ParseMediaCommand | tasks/media_task.py:104-133 | a play request always names a category of the table |
| MediaTask.NextIndex | tasks/media_task.py:79 | the saved index is always in [0, n) |
| MediaTask.NextIndexValue | tasks/media_task.py:79 | the saved index is (i+1) mod n |
| MediaTask.ConsecutivePlaysAdvance | tasks/media_task.py:62-80 | playing a category twice starts the second play one file after the first |
| MediaTask.VlcArgs | tasks/media_task.py:68-74 | the remote-control prefix comes first; --random exactly when shuffled; --fullscreen exactly for video; --no-video exactly for music |
| MediaTask.ControlVlc | tasks/media_task.py:93-102 | an action is known exactly when it is one of the seven |
| MediaTask.ControlVlcInjective | tasks/media_task.py:94-98 | each known action sends its own command |
| MediaTask.PlayScanFindsFirst | tasks/media_task.py:107-112 | the first category in table order with a play phrase wins; it is a random play exactly when "play random C" occurs; nothing is found only when no category has a play phrase |
| MediaTask.ControlWords | tasks/media_task.py:116-121 | the control phrases are the name after one of six words, and pause/resume/continue all give "pause" |
| MediaTask.ControlScanFindsFirst | tasks/media_task.py:115-121 | the first category in table order with a control phrase gives the action; nothing is found only when no category has one |
| MediaTask.MusicScanned | tasks/media_task.py:107-113 | the play loop finds a category whenever "play music" occurs, music being the first category tried |
| MediaTask.PlayMusicIsPlay | tasks/media_task.py:107-113 | a command containing "play music" is a play request |
| MediaTask.PlayIffScanned | tasks/media_task.py:104-112 | the command is a play request exactly when the play loop finds a category |
| MediaTask.PlayComesFirst | tasks/media_task.py:107-121 | the command is a play exactly when some category's play phrase occurs, whatever control phrases it holds |
| MediaTask.UnmuteNeverDispatched | tasks/media_task.py:124-131 | "unmute" is never dispatched; a command reaching the generic tests with "unmute" in it sends "mute" |
| MediaTask.GenericMuteFirst | tasks/media_task.py:124-131 | the generic controls never produce "unmute"; a text holding "unmute" without a volume phrase is a "mute" |
| MediaTask.ControlScanActions | tasks/media_task.py:115-121 | a category control is always "pause", "stop" or "next" |
| MediaTask.MuteInsideUnmute | tasks/media_task.py:128-131 | every text holding "unmute" holds "mute" |
| MediaTask.DispatchedActionsAreKnown | tasks/media_task.py:124-133 | every dispatched action is one control_vlc knows, so False comes only when nothing matched |
| MediaTask.MediaState.constructor | tasks/media_task.py:18-20 | the saved state starts empty |
| MediaTask.MediaState.PlayMedia | tasks/media_task.py:37-82 | an unknown category, missing folder or empty folder changes nothing; otherwise VLC gets the files (in any order when shuffled, the resume rotation otherwise) and only this category's last_index moves to one past the start |
| MediaTask.MediaState.HandleMedia | tasks/media_task.py:104-133 | returns True exactly for a media command; a play has PlayMedia's effect; a control sends control_vlc's command and leaves the state alone |
| PictureTask.FindImages | tasks/picture_task.py:18 | a listed name is found exactly when it matches the glob *.[jJpP][pPnN][gG] |
| PictureTask.ImageExtensions | tasks/picture_task.py:18 | .png and .JPG pictures match the glob and .jpeg ones do not |
| PictureTask.ParsePictureCommand | tasks/picture_task.py:93-110 | only the seven exact lower-cased, stripped phrases are accepted; which phrases start and which stop the show |
| PictureTask.Transition | tasks/picture_task.py:25-91 | a running show always has pictures |
| PictureTask.PauseContinueRoundTrip | tasks/picture_task.py:69-81 | pause and continue undo each other on a running show, and repeating either changes nothing more |
| PictureTask.StoppedStaysStopped | tasks/picture_task.py:83-91 | a stopped show ignores pause, continue and stop, and shows no picture until a new show starts |
| PictureTask.AdvanceCycles | tasks/picture_task.py:54-55 | the k-th picture shown after `start` is (start + k) mod n |
| PictureTask.Slideshow.constructor | tasks/picture_task.py:11-15 | no window, not paused, no stop requested |
| PictureTask.Slideshow.PlaySlideshow | tasks/picture_task.py:17-29 | with pictures, the show runs with paused and stop cleared; with none, the state is untouched |
| PictureTask.Slideshow.PauseSlideshow | tasks/picture_task.py:69-74 | pauses only a running, unpaused show; otherwise changes nothing |
| PictureTask.Slideshow.ContinueSlideshow | tasks/picture_task.py:76-81 | resumes only a running, paused show; otherwise changes nothing |
| PictureTask.Slideshow.StopSlideshow | tasks/picture_task.py:83-91 | a running show is stopped and its window closed; otherwise nothing changes |
| PictureTask.Slideshow.ExitFullscreen | tasks/picture_task.py:57-60 | Escape has the effect of stop |
| PictureTask.Slideshow.ShowImage | tasks/picture_task.py:35-55 | halts once stop is requested, rechecks the same index while paused, and otherwise schedules (index+1) mod n, within range |
| PictureTask.Slideshow.HandlePictures | tasks/picture_task.py:93-110 | returns True exactly for the seven phrases and applies the matching transition |
| ReminderTask.MatchHour | tasks/reminder_task.py:28 | %I reads an hour from 1 to 12, using one or two characters |
| ReminderTask.MatchMinute | tasks/reminder_task.py:28 | %M reads a minute from 0 to 59, using one or two characters |
| ReminderTask.ParseTime | tasks/reminder_task.py:26-30 | whatever is accepted is a valid 12-hour time that starts with a digit and ends in the AM/PM marker that sets it |
| ReminderTask.FormatTime | tasks/reminder_task.py:118 | the stored time is eight characters: two digits, a colon, two digits, a space, then "PM" for an afternoon time and "AM" otherwise |
| ReminderTask.FormatTimeRoundTrip | tasks/reminder_task.py:118 | parsing a stored time gives back the same time |
| ReminderTask.SpokenTimeAccepted | tasks/reminder_task.py:96-108 | "5:30 PM" (unpadded hour, marker in any case) parses to that time |
| ReminderTask.SplitRecurrence | tasks/reminder_task.py:100-106 | a recurrence is set exactly when "daily" or "weekly" occurs in the time text |
| ReminderTask.RecurrenceNeverRecognised | tasks/reminder_task.py:96-106 | on the upper-cased time text no recurrence is ever found |
| ReminderTask.ParseAddReminder | tasks/reminder_task.py:93-112 | unparsable exactly when the body is not two parts around " at "; an added reminder has a valid time |
| ReminderTask.AddedRemindersAreOneShot | tasks/reminder_task.py:96-122 | every added reminder has no recurrence and no day |
| ReminderTask.AddNeverRecurs | tasks/reminder_task.py:93-122 | the body of "remind me to" never yields a recurrence or a day |
| ReminderTask.ParseReminderCommand | tasks/reminder_task.py:87-183 | an add always carries a valid time, and a removal always names an id starting with "reminder-" |
| ReminderTask.ApplyReminderRequest | tasks/reminder_task.py:114-181 | an add stores the task, the rendered time and the recurrence under "reminder-(n+1)" and keeps every other entry; a removal deletes exactly the named key; nothing else changes the store |
| ReminderTask.DeclinedCommands | tasks/reminder_task.py:89-183 | declined exactly when the lower-cased, stripped command has none of the three forms |
| ReminderTask.RemoveNormalisesId | tasks/reminder_task.py:167-170 | "remove reminder X" names X when it starts with "reminder-", and "reminder-X" otherwise |
| ReminderTask.TrailingRecurrenceRejected | tasks/reminder_task.py:100-112 | a time ending in "daily" or "weekly" is refused as an invalid time |
| ReminderTask.NoMarkerNoTime | tasks/reminder_task.py:26-30 | a text ending in 'Y' is no time |
| ReminderTask.SpokenTimeEndsInY | tasks/reminder_task.py:96 | a time text ending in "daily" or "weekly" is kept whole and ends in 'Y' once upper-cased |
| ReminderTask.AddUsesNextId | tasks/reminder_task.py:114-124 | the new entry is stored under "reminder-(n+1)", with the time rendered again; when that id is taken it is overwritten and the store does not grow; nothing else changes |
| ReminderTask.RemovalThenAddOverwrites | tasks/reminder_task.py:115-116 | after removing reminder-1 of two, the next add overwrites reminder-2 |
| ReminderTask.RemoveTouchesOnlyItsKey | tasks/reminder_task.py:172-181 | removal deletes exactly the named key, if present, and leaves the rest |
| ReminderTask.CheckRemindersPass | tasks/reminder_task.py:64-81 | the pass fires the matching entries, deletes the one-shot ones among them, and saves exactly when something was deleted |
| ReminderTask.ScanReminders | tasks/reminder_task.py:67-76 | the loop collects the fired entries and the one-shot entries to delete |
| ReminderTask.DeleteAll | tasks/reminder_task.py:78-80 | popping the collected ids removes exactly those |
| ReminderTask.PassKeepsRecurringAndUnmatched | tasks/reminder_task.py:67-76 | recurring and non-matching entries survive a pass unchanged; non-matching ones do not fire |
| ReminderTask.PassDeletesFiredOneShots | tasks/reminder_task.py:70-80 | the deleted entries are exactly the fired one-shot ones |
| ReminderTask.WeeklyFiresOnItsDay | tasks/reminder_task.py:72-74 | a matching weekly entry fires exactly on its day, in any case; any other recurrence fires on the time alone |
| ReminderTask.SecondPassSameMinute | tasks/reminder_task.py:58-83 | a second pass in the same minute deletes nothing and fires only the recurring entries again |
| ReminderTask.ReminderFile.constructor | tasks/reminder_task.py:14-16 | the store starts empty |
| ReminderTask.ReminderFile.HandleReminder | tasks/reminder_task.py:87-183 | returns False exactly for commands of none of the three forms; the store becomes the parsed request applied to it; "show reminders" lists one line per entry |
| ReminderTask.ReminderFile.Perform | tasks/reminder_task.py:114-181 | applies a parsed request to the store; invalid and unparsable requests change nothing and still return True |
| ReminderTask.ReminderFile.Poll | tasks/reminder_task.py:64-81 | one poller pass: the entries fired, and the store after the one-shot ones are deleted |
| TodoTask.ParseTodoCommand | tasks/todo_task.py:79-102 | an add always carries a non-empty text, and a removal a non-empty id |
| TodoTask.ApplyTodoRequest | tasks/todo_task.py:22-40 | an add stores the text under "task-(n+1)" and keeps every other task; a removal deletes exactly the named key; nothing else changes the list |
| TodoTask.AddTaskCommand | tasks/todo_task.py:82-86 | "add task X" adds the stripped X and is declined when X is blank |
| TodoTask.RemoveTaskCommand | tasks/todo_task.py:88-96 | an all-digit suffix N targets task-N, any other suffix is used as it is, and an empty one is declined |
| TodoTask.ShowAndDeclined | tasks/todo_task.py:98-102 | only the exact stripped "show task" lists, and commands of none of the forms are declined |
| TodoTask.CaseIsSignificant | tasks/todo_task.py:80 | commands are not lower-cased: one starting with a capital letter is declined |
| TodoTask.TaskIdInjective | tasks/todo_task.py:24-25 | different numbers give different task ids |
| TodoTask.AddNext | tasks/todo_task.py:22-27 | adding to a list holding task-1 … task-n creates task-n+1 with the text, and every earlier task keeps its text |
| TodoTask.AddsFromEmptyIds | tasks/todo_task.py:22-27 | N adds to an empty list give exactly the ids task-1 … task-N |
| TodoTask.AddsFromEmpty | tasks/todo_task.py:22-27 | N adds to an empty list give task-1 … task-N, each holding its text in the order added |
| TodoTask.RemovalThenAddOverwrites | tasks/todo_task.py:24-26 | after removing task-1 of two, the next add overwrites task-2 |
| TodoTask.TodoFile.constructor | tasks/todo_task.py:10-12 | the list starts empty |
| TodoTask.TodoFile.AddTask | tasks/todo_task.py:22-29 | the text is stored under "task-(n+1)" |
| TodoTask.TodoFile.RemoveTaskById | tasks/todo_task.py:31-40 | deletes exactly the key, if present, and reports whether it was |
| TodoTask.TodoFile.ShowTasks | tasks/todo_task.py:42-54 | one "id: text" line per task, and no lines exactly when the list is empty |
| TodoTask.TodoFile.HandleTodo | tasks/todo_task.py:79-102 | returns True exactly for a to-do command; the list becomes the parsed request applied to it; listing changes nothing |
| SpeechModule.FirstVlcBlock | speech_module.py:23-25 | the first block whose lower-cased text holds "vlc"; none only when no block does |
| SpeechModule.GetVlcSinkId | speech_module.py:19-28 | the stripped first line of that block, "0" when there is none or pactl fails |
| SpeechModule.NoSinkInputs | speech_module.py:22-28 | a listing without any sink input gives "0" |
| SpeechModule.PrefixIgnored | speech_module.py:22 | text before the first "Sink Input #" does not change the id |
| SpeechModule.Listen | speech_module.py:51-95 | without the wake phrase: "" and no volume change; with it: the volume is lowered, then restored whatever the recogniser does, and the result is the lower-cased command or "" |
| SortedNames.Insert | tasks/media_task.py:31 | inserting into a sorted list keeps it sorted and adds the element |
| SortedNames.SortStrings | tasks/media_task.py:31 | the result is sorted and a permutation of the input |
| SortedNames.SortedUnique | tasks/media_task.py:31 | two sorted permutations of the same names are equal |
| PyStr.UpperHasNoLowercase | tasks/reminder_task.py:96 | an upper-cased text has no lower-case letter |
| PyStr.FindFirst | speech_module.py:22 | the first occurrence of a separator, none exactly when it does not occur |
| PyStr.ReplaceLeadingPattern | alexa_handler.py:44 | removing every occurrence of a pattern from a text that starts with it equals removing it from what follows |
| PyStr.RemoveLeadingPattern | alexa_handler.py:44 | removing a leading pattern that does not occur again leaves the rest |
| PyStr.StripLeft | tasks/todo_task.py:80 | removes exactly the leading whitespace |
| PyStr.StripRight | tasks/todo_task.py:80 | removes exactly the trailing whitespace |
| PyStr.NatToString | tasks/todo_task.py:25 | the decimal digits of the number |
| PyStr.NatToStringInjective | tasks/todo_task.py:24-25 | different numbers have different decimal texts |
| PyJson.LookupFails | alexa_handler.py:39-41 | a subscript chain raises only KeyError or TypeError: TypeError on a non-object, KeyError on a missing key |
| PyJson.LookupAppend | app.py:106-110 | looking up a path in two steps equals looking it up at once |
| PyJson.KeyErrorIffMissingKey | alexa_handler.py:38-41 | the chain raises KeyError exactly when some object on the path lacks its key |

## Left out

- Audio input and output, and the Google recogniser. `speak`, `play_beep`,
  `playsound` and printed output are left out. What the recogniser heard is
  a parameter of `Listen`.
- Pauses. The `time.sleep` calls and the 30-second cycle of the poller are
  left out: the poller is modelled as one pass.
- Threads and concurrency. The poller can race with a command that loads
  and saves reminders.json at the same time; the model does not capture
  this.
- tkinter windows and PIL image resizing. The picture on screen is not
  modelled, only which index is shown next.
- Clock and calendar. `datetime.now` is replaced by the time and weekday
  given to each operation.
- JSON files. Loading and saving are whole-store updates of a map; file
  creation at import is modelled by the classes' constructors. Disk errors
  and unreadable files are not modelled.
- Media paths. Media files are named without their folder path. All paths
  share the folder prefix, so their sorted order is the same.
- MediaTask.MediaState.PlayMedia: a shuffled play is modelled as an
  arbitrary permutation of the files, not `random.shuffle`'s distribution.
- Malformed saved state. A saved `last_index` that is not an integer is not
  modelled.
- Listing order. The "show task" and "show reminders" listings are sets of
  lines, so the dictionary order in which they are spoken is left out.
- Case folding and whitespace are ASCII only. `lower`, `upper`, `strip`
  and `isdigit` are modelled on ASCII; Unicode letters, digits and spaces
  are not.
- Times are parsed differently from the "H:MM AM/PM" form described for
  the assistant: `strptime` also accepts a one-digit minute and several
  spaces before the marker. The model follows the code.
- The language model. `query_groq_model` and tasks/groq_handler.py call an
  HTTP service; the model passes them as a function `ask`.
- Flask and `jsonify`. A request body that is not JSON is not modelled.
  JSON numbers are integers only.
- The YouTube and system handlers. tasks/youtube_task.py and
  tasks/system_task.py drive a browser and run `pkill`; only their
  acceptance tests are in the router.
- Subprocesses and the VLC socket. Only their arguments and the VLC
  command sent are modelled, for `ngrok`, `vlc` and `pactl`.
- The ngrok process. Starting it, the HTTP request to its local API, and
  JSON decoding errors become the inputs of `StartNgrok`.
- update_alexa_endpoint.py (browser automation of the skill console) and
  reminder_utils.py (a popup and a sound) are not part of this model.
- main.py's start-up: the `os.dup2` of stderr, gnome-session-inhibit and
  `atexit` are left out.
- App.EnvUpdated, App.EnvUpdateKeepsOtherLines, App.EnvUpdateOverwrites:
  these hold of the list of lines. They carry over to the .env file
  (App.EnvFileReadsBack, App.EnvFileOverwrites) only when the file is empty
  or ends in a line break. Otherwise the appended entry is written onto the
  end of the last line, and the key is still unset when the file is read
  again (App.EnvFileMerges, App.EnvFileRepeatAppends).
- App.UpdateEnvVariable: the file is written with "\n" line ends, as
  Python does where the line separator is "\n". Where it is "\r\n" (Windows)
  each "\n" would be written as "\r\n"; that is not modelled.
- App.EnvFileReadsBack, App.EnvFileOverwrites, App.EnvFileMerges,
  App.EnvFileRepeatAppends: keys and values holding "\r" or "\n" are not
  covered, since such a value would be read back as more than one line.
- App.LineLength, App.ReadLines, App.ConcatReadLines, App.ReadConcat,
  App.ReadOneLine: these take text whose line breaks are already
  translated. The translation itself is App.UniversalNewlines, which
  App.FileLines applies before splitting.
- MainLoop.Assistant.constructor: a later start-up loads the stores saved
  by an earlier run. The model starts from the first start-up's empty
  stores; MainLoop.Assistant.RunSession is stated for any stores it
  starts from.
- MainLoop.Assistant.ProcessCommand: the text the handlers speak and the
  lines they list are dropped along the chain. Only the store effects and
  the taker are stated.
- Writing `.env`. A failed write is not modelled; a failed read gives
  "nothing written".
