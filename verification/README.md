# Meeting bot core, modelled in Dafny

`meetingmanagebot.py` is a Telegram bot run by a small group of admins. They
create meetings, build an agenda for each one and collect topic proposals
from everyone who has pressed `/start`. This project models the bot's core in
Dafny:

- the `meetings`, `agendas`, `proposals`, `ADMIN_IDS` and `all_users`
  collections and what every handler does to them;
- the per-user dialog state machine (aiogram `States` plus the data stored
  with `update_data`);
- the date format `dd.mm.yy HH:MM` and `validate_datetime`;
- the reminder offsets armed after a meeting is created or its date is edited;
- the date-sorted, five-per-page meeting list and the six-per-page agenda view.

It then proves properties of the model.

Modules, in dependency order:

- `Base`: `Option`.
- `Text`: `str.strip`, `str.lower`, `str.split(':')` and its inverse `join`,
  the `^\d+$` message filter, `int()` and `str()` on decimal numerals.
- `DateTimes`: the proleptic Gregorian calendar and a second count from
  1 January of year 1. Also `strptime`/`strftime` for `"%d.%m.%y %H:%M"`, and
  `validate_datetime` with the current time passed in.
- `Sorting`: Python's stable `sorted(key=...)`.
- `Pagination`: Python slices and fixed-size pages.
- `Meetings`: the meeting dictionary as a sequence of entries in insertion
  order; creation, `reindex_meetings`, deletion, edits, the chronological list.
- `Agenda`: agenda items; `next_agenda_item_id`, `find_agenda_item`,
  `normalize_orders`, adding, removing, choosing by number, the agenda view.
- `Reminders`: which reminders (offset, delay) are armed.
- `BotState`: the whole bot state, its invariant, and meeting deletion as a
  whole-bot operation.
- `Dialog`: every handler as a pure function of (bot, session, update, now),
  and `Step`, which routes one update.
- `Routes`: how `callback_data` and state select the handler.
- `Flows`: whole conversations, step by step, from the first button to the
  stored result.

The exceptions the model covers are a missing `update_data` key, `int()`
of a non-number, the wrong number of `:`-separated fields, and a meeting
number that is no longer stored. Each is raised before its handler changes
anything. So such a crash is modelled as "nothing changes", with the answer
`Crashed`. A failed Telegram send is not among them: see "Broadcast
delivery" under "## Left out".

The bot invariant, `BotState.Inv`, has three parts:

- the meeting ids are 1..K in insertion order;
- every stored date parses;
- every agenda list has the orders 1..N in list order, and distinct item
  ids.

A stored date is "readable" when it parses. `Dialog.SessionOk` says the
date held in a session is readable.

Some of the code's behaviour is worth stating on its own:

- Agenda item ids can be reused. `next_agenda_item_id` is "largest id
  present + 1", so removing the item with the largest id hands that id out
  again (`Agenda.IdReissuedAfterRemoval`).
- No handler on the admin path checks the sender. `cb_assign`, `cb_assign_do`
  and `cb_assign_apply` check nothing, so anyone who presses the button can
  grant or revoke (`Flows.AssignDialog`).
- The typed agenda type accepts "1" and "2" besides the words
  (`Flows.AnswerWord`). The typed-answer handler has no admin check, unlike
  the type buttons (`Flows.TypedTypeAddsItem`).
- Deletion leaves agendas and proposals under the old numbers.
  `reindex_meetings` renumbers only `meetings`, so an agenda ends up under
  another meeting's number, or under a number no meeting has
  (`BotState.DeleteMeeting`, `BotState.DeletingStrandsAgenda`).

## Model

| member | source | states |
|---|---|---|
| Text.Strip | meetingmanagebot.py:416-420 | `s.strip()` is a contiguous piece of `s`: it neither starts nor ends in white space, and everything cut from either end is white space |
| Text.StripIdempotent | meetingmanagebot.py:434 | stripping an already stripped text changes nothing |
| Text.Lower | meetingmanagebot.py:877 | lower-casing keeps the length and maps each character to its lower-case form on its own, with no regard to its neighbours |
| Text.Split | meetingmanagebot.py:827 | `data.split(":")` gives at least one piece, and no piece contains the separator |
| Text.JoinSplit | meetingmanagebot.py:1019 | joining the pieces of a split with the separator gives back the original data, so everything after the first colon is the later pieces joined |
| Text.SplitJoin | meetingmanagebot.py:772 | pieces without a separator, joined and split again, come back unchanged |
| Text.SplitAfterHead | meetingmanagebot.py:664 | `head:rest` with a colon-free head splits into the head followed by the pieces of `rest` |
| Text.ParseInt | meetingmanagebot.py:474 | `int()` yields a number only for text that is non-empty once stripped |
| Text.ShowNat | meetingmanagebot.py:617 | `str(n)` of a natural number is a non-empty run of digits whose decimal value is `n` |
| Text.ParseShowInt | meetingmanagebot.py:617-624 | a number written into callback data with `str()` reads back through `int()` as the same number |
| Text.ParseNumeral | meetingmanagebot.py:384-386 | a text the `^\d+$` filter admits reads through `int()` as its digits' value: never negative, never an error |
| Text.ShowNatIsNumeral | meetingmanagebot.py:540-542 | a natural number written out passes the `^\d+$` filter, and its digits are the whole text |
| DateTimes.Parse | meetingmanagebot.py:172 | `strptime` with `"%d.%m.%y %H:%M"` succeeds only on a real calendar minute, in years 1969-2068 |
| DateTimes.ParseFormat | meetingmanagebot.py:172 | every minute of 1969-2068 written with `strftime` in the same format is read back unchanged |
| DateTimes.FormatIsRender | meetingmanagebot.py:172 | the bot's own `strftime` output is one of the layouts `strptime` accepts: two digits in every field and a single space |
| DateTimes.ParsedLayout | meetingmanagebot.py:172 | any text `strptime` accepts is the parsed minute written in some layout: day as one digit, two digits or a space and a digit; month, hour and minute as one or two digits; two year digits; dots, a non-empty run of white space, a colon, and nothing after the minute |
| DateTimes.ParseRender | meetingmanagebot.py:172 | every layout of a minute of 1969-2068 is read back as that minute when its day exists in its month, and refused otherwise |
| DateTimes.ParseExactly | meetingmanagebot.py:172 | `strptime` reads a text as a minute exactly when the minute is real, lies in 1969-2068, and the text is that minute in some layout |
| DateTimes.SlashesRejected | meetingmanagebot.py:171-174 | "15/03/25 14:30" is a bad format |
| DateTimes.MissingDayRejected | meetingmanagebot.py:171-174 | "29.02.25 10:00" is refused, since 2025 has no 29 February |
| DateTimes.ShortFieldsAccepted | meetingmanagebot.py:172 | "1.7.25 9:05" is read as 1 July 2025, 09:05 |
| DateTimes.SecondsOrder | meetingmanagebot.py:177 | the second count orders minutes exactly as Python compares datetimes, and is equal exactly for equal minutes |
| DateTimes.FromSeconds | meetingmanagebot.py:175 | the minute containing second `t` is a real calendar minute whose second count is `t` with its seconds dropped |
| DateTimes.Validate | meetingmanagebot.py:166-183 | bad format exactly when parsing fails; in the past exactly when before now; too far exactly when more than 365 days ahead; accepted exactly otherwise, with the parsed value |
| DateTimes.AcceptedIsCanonical | meetingmanagebot.py:177-183 | an accepted minute is not before the current minute, and formatting it and parsing the result gives it back |
| Sorting.Sort | meetingmanagebot.py:194 | `sorted(..., key=...)` returns a permutation of its input in non-decreasing key order |
| Sorting.SortStable | meetingmanagebot.py:194 | elements sharing a key come out in their input order |
| Sorting.CountSort | meetingmanagebot.py:194 | sorting changes no count: any property holds of as many elements after as before |
| Sorting.SortOfSorted | meetingmanagebot.py:262 | a list already in key order is left as it is |
| Pagination.PySlice | meetingmanagebot.py:201 | `s[start:end]` with non-negative bounds is the sub-sequence between the bounds, each clipped to the length |
| Pagination.Paginate | meetingmanagebot.py:197-213 | page `p` of size `n` holds entries `p*n` up to `p*n+n`, at most `n` of them, and is empty exactly when `p*n` is past the end |
| Pagination.PageItems | meetingmanagebot.py:197-201 | entry `i` of page `p` is entry `p*n+i` of the list |
| Pagination.NextPageNonEmpty | meetingmanagebot.py:210-211 | the forward button is offered exactly when the next page is non-empty |
| Pagination.PreviousPageFull | meetingmanagebot.py:208-209 | a non-empty page after the first has a back button, and the page before it is full |
| Pagination.FirstPagesArePrefix | meetingmanagebot.py:197-202 | reading pages 0..k-1 in turn shows the first `k*n` entries, each once and in order |
| Pagination.PagesCoverAll | meetingmanagebot.py:197-202 | enough pages show the whole list exactly |
| Meetings.Find | meetingmanagebot.py:475 | the position of the entry with the id, and none exactly when the id is absent |
| Meetings.Get | meetingmanagebot.py:386-390 | `meetings.get(id)` finds a meeting exactly when the id is a key, and what it finds is the meeting stored under that id |
| Meetings.GetEntry | meetingmanagebot.py:386-390 | with distinct ids, looking up the id of any entry gives that entry's meeting |
| Meetings.MaxId | meetingmanagebot.py:437 | `max(keys, default=0)` is 0 for no meetings; otherwise it is a key, and no key exceeds it |
| Meetings.Create | meetingmanagebot.py:437-442 | the new meeting goes at the end under the id one more than the largest existing id (1 in an empty store), and every earlier entry is unchanged |
| Meetings.CreateKeepsDense | meetingmanagebot.py:437-442 | on ids 1..K, the new meeting gets id K+1 and the ids stay 1..K+1 |
| Meetings.Reindex | meetingmanagebot.py:603-606 | the entries get ids 1..K; the entry with old id `k` moves to the position of its rank among the old ids, with id rank+1 and its fields unchanged |
| Meetings.ReindexKeepsOrder | meetingmanagebot.py:603-606 | renumbering keeps the relative order of the old ids |
| Meetings.ReindexKeepsMeetings | meetingmanagebot.py:603-606 | renumbering keeps every meeting as many times as before |
| Meetings.Delete | meetingmanagebot.py:517-521 | not found exactly when the id is absent; otherwise one entry fewer, with the ids 1..K-1 |
| Meetings.DeleteRemovesOne | meetingmanagebot.py:520-521 | exactly one copy of the deleted meeting is gone, and every other meeting stays |
| Meetings.DeleteShiftsLaterMeetings | meetingmanagebot.py:627-629 | on ids 1..K, meetings before the deleted one keep their entry, and each later one moves down one id with its fields |
| Meetings.Replace | meetingmanagebot.py:558 | `meetings[id] = m` on a present key changes that entry's meeting only, keeping every id and place; an absent key is the error case |
| Meetings.ReplaceKeepsDense | meetingmanagebot.py:588 | an edit keeps the ids 1..K |
| Meetings.SortedMeetings | meetingmanagebot.py:193-195 | the date-sorted list holds exactly the same entries, in non-decreasing date order |
| Meetings.SortedMeetingsTies | meetingmanagebot.py:193-195 | meetings at the same minute keep their dictionary order |
| Meetings.ListAsWritten | meetingmanagebot.py:354-363 | an empty store shows "no meetings"; otherwise page `p` shows every meeting of slice `p*5..p*5+5` of the date-sorted list, row `i` being meeting `p*5+i` numbered `p*5+i+1`; back exactly on pages after the first, forward exactly when meetings remain after the page |
| Meetings.ListNumbersSample | meetingmanagebot.py:356-361 | with meeting 1 on "10.07.25 12:00" and meeting 2 on "05.07.25 12:00", the list as written reads "1." for meeting 2 while the number 1 looks up meeting 1; the id-numbered list reads "2." and "1." |
| Meetings.ListNumbersAreNotIds | meetingmanagebot.py:356-361 | for any two stored dates with meeting 1 later than meeting 2, the first page as written reads "1." for meeting 2 and "2." for meeting 1, while the id-numbered list reads "2." and "1." |
| Meetings.List | meetingmanagebot.py:354-363 | the same page of the date-sorted list, every meeting of the slice shown, each row numbered with its meeting's id; back exactly on pages after the first, forward exactly when meetings remain after the page |
| Agenda.NextItemId | meetingmanagebot.py:252-254 | the next item id is larger than every id in the list: 1 for an empty list, otherwise one more than an id present |
| Agenda.FindItem | meetingmanagebot.py:256-257 | `find_agenda_item` finds the first item with the id, and finds none exactly when no item has it |
| Agenda.AddItem | meetingmanagebot.py:850-864 | the item goes at the end of the meeting's list (created when missing), with a fresh id and order count+1, no assignee and not done; no other meeting's list changes |
| Agenda.AddItemKeepsWellFormed | meetingmanagebot.py:850-864 | adding keeps the orders 1..N and the ids distinct |
| Agenda.Normalize | meetingmanagebot.py:259-264 | after `normalize_orders` the orders are 1..N in list order |
| Agenda.NormalizeKeepsItems | meetingmanagebot.py:259-264 | with distinct ids, every item is still there once, with all other fields unchanged, in the order of its previous `order` |
| Agenda.NormalizeWellFormed | meetingmanagebot.py:259-264 | a list whose orders are already 1..N is left as it is |
| Agenda.RemoveItem | meetingmanagebot.py:770-778 | not found exactly when no item has the id; otherwise the item taken out has that id, the list is one shorter and its orders are 1..N-1; no other meeting's list changes |
| Agenda.RemoveItemShiftsLater | meetingmanagebot.py:775-776 | on a well-formed list, items before the removed one stay as they were, later ones move up one place with order one less, and the list stays well formed |
| Agenda.SelectForDeletion | meetingmanagebot.py:749-762 | no agenda exactly when the session names none in `agendas`; a wrong number exactly when it is outside 1..N; otherwise an item of that agenda |
| Agenda.SelectionMatchesShownOrder | meetingmanagebot.py:737-762 | on a well-formed list, the number typed picks the item shown with that `order` in the deletion prompt |
| Agenda.TypeLabel | meetingmanagebot.py:286-292 | the label is one of the two type tags or nothing, and nothing for a blank type |
| Agenda.KindName | meetingmanagebot.py:846 | whatever the code, the stored type is one the agenda view labels: "(обязательный)" for the code "required", "(дополнительный)" for every other code |
| Agenda.View | meetingmanagebot.py:266-318 | the view is empty exactly when the meeting has no items; otherwise it is a six-item page of the items sorted by `order` |
| Agenda.ViewOfWellFormed | meetingmanagebot.py:275-279 | on a well-formed list, page `p` shows the items in list order from position `6p`, each line numbered with its position |
| Agenda.IdReissuedAfterRemoval | meetingmanagebot.py:252-254 | adding an item to an empty agenda, removing it and asking for the next id gives the removed item's id again |
| Reminders.Arm | meetingmanagebot.py:456-460 | at most two reminders, 24 h and 1 h ahead; each is armed exactly when its delay is positive, and sleeps until that offset before the meeting |
| Reminders.ArmedOffsets | meetingmanagebot.py:456-460 | a meeting an hour or less away gets no reminder, one more than a day away gets both, and anything in between only the 1 h one |
| Reminders.RemindersFor | meetingmanagebot.py:453-467 | a date that does not parse arms nothing; otherwise at most two reminders, each firing its offset before the parsed minute |
| BotState.DeleteMeeting | meetingmanagebot.py:627-629 | refused exactly for a number no meeting has; otherwise exactly that meeting goes as `Meetings.Delete` removes it, leaving ids 1..K-1, while `agendas`, `proposals`, the admins and the users stay as they were |
| BotState.DeleteKeepsAllParse | meetingmanagebot.py:603-606 | after a deletion every stored date still parses |
| BotState.DeleteMeetingKeepsInv | meetingmanagebot.py:627-629 | deletion keeps the bot invariant |
| BotState.DeletingStrandsAgenda | meetingmanagebot.py:603-606 | with meetings 1 and 2 and an agenda for 2, deleting 1 leaves the renamed meeting without its agenda; the agenda stays under 2, which no meeting has until the next one created takes that number |
| Dialog.DashRule | meetingmanagebot.py:434 | the description is empty exactly when the trimmed text is "-" or blank; otherwise it is the trimmed text |
| Dialog.NumeralValueIsInt | meetingmanagebot.py:386 | the number read from a filtered text is what `int()` makes of it |
| Dialog.TypeFromText | meetingmanagebot.py:876-882 | a typed answer is read as "required", as "optional", or as nothing; which spellings give which type is stated by `Flows.AnswerWord` and `Flows.TypedAnswerReadsAsWord` |
| Dialog.ReadTypeTarget | meetingmanagebot.py:827-836 | two fields take the meeting from the session; three fields name it, and an unreadable number raises; any other count is bad data |
| Dialog.CreateDate | meetingmanagebot.py:414-422 | the bot never changes; the session changes only for a date that passes validation, and a stored date is readable |
| Dialog.CreateMeeting | meetingmanagebot.py:432-469 | a created meeting is the collected date and title with the "-" rule applied to the description, added as `Create` adds it; every user is told and the session ends; in every other case nothing changes; users, admins and agendas are untouched and the invariant is kept |
| Dialog.EditDate | meetingmanagebot.py:550-582 | the meeting the session names gets the trimmed date, with its title and description kept, exactly when the date is accepted and the meeting exists; then every user is told, the reminders for the new date are armed and the session ends; otherwise nothing changes; agendas, users and admins are untouched and the invariant is kept |
| Dialog.EditText | meetingmanagebot.py:584-601 | when the session names an existing meeting, it gets the trimmed title, or the description under the "-" rule, and nothing else of it changes; the session ends; otherwise nothing changes; no reminder is armed and no one is told; the invariant is kept |
| Dialog.PickMeeting | meetingmanagebot.py:540-547 | a number no meeting has is answered "not found", with nothing changed; in `editing_select` a stored number is remembered as `edit_id` and the state stays; in `cancelling` it is remembered as `del_meeting_id`; the bot never changes |
| Dialog.PickItem | meetingmanagebot.py:747-767 | the bot never changes; a confirmation names an existing item of an existing agenda |
| Dialog.ApplyAssign | meetingmanagebot.py:1024-1042 | meetings, agendas and users are untouched; when the admins change the session ends; the invariant is kept |
| Dialog.AddToAgenda | meetingmanagebot.py:841-870 | the session ends; the bot changes only when the meeting exists; meetings, users and admins are untouched; the invariant is kept |
| Dialog.CreationText | meetingmanagebot.py:414-469 | text in the creation states keeps the users and admins, the invariant and a readable stored date, and arms at most two reminders |
| Dialog.EditingText | meetingmanagebot.py:550-601 | text in the editing states keeps the users and admins and the invariant, and arms at most two reminders |
| Dialog.AgendaText | meetingmanagebot.py:784-814 | text while collecting an item keeps users, admins and the invariant, and arms nothing |
| Dialog.TypedKind | meetingmanagebot.py:873-923 | an answer naming no type changes neither bot nor session; users, admins and the invariant are kept |
| Dialog.NumeralText | meetingmanagebot.py:1024-1028 | text behind the `^\d+$` filter changes the admins only in `assign_id` with a numeral; the invariant is kept |
| Dialog.OnText | meetingmanagebot.py:80-105 | a text message changes the admins only as `assign_id` allows, keeps the invariant and arms at most two reminders |
| Dialog.ConfirmProposal | meetingmanagebot.py:976-989 | a taken proposal is appended to its meeting's list, signed "Аноним" or with the full name; meetings and agendas are untouched |
| Dialog.OnPlainButton | meetingmanagebot.py:327-412 | colon-free buttons change only the proposals and the session, arm nothing and tell no one |
| Dialog.EditField | meetingmanagebot.py:481-499 | the bot never changes; with three fields naming a stored meeting, `edit_id` and `edit_field` are stored and "date", "title" and "desc" enter `editing_date`, `editing_title` and `editing_desc`, any other field keeping the state; otherwise the session is unchanged |
| Dialog.ConfirmDelete | meetingmanagebot.py:514-525 | the bot changes exactly when the number names a meeting, and is answered "not found" otherwise; the invariant is kept |
| Dialog.AgendaAddFor | meetingmanagebot.py:699-722 | only an admin changes anything; meetings are untouched; the invariant is kept |
| Dialog.AgendaDelFor | meetingmanagebot.py:724-745 | the bot never changes; the session moves on only for an admin, and only to a meeting with items |
| Dialog.ConfirmItemDeletion | meetingmanagebot.py:769-781 | the session and the meetings are untouched; the invariant is kept |
| Dialog.TypeButton | meetingmanagebot.py:817-870 | only an admin changes anything; meetings are untouched; the invariant is kept |
| Dialog.NotifyAgenda | meetingmanagebot.py:674-696 | nothing changes; the agenda is sent exactly when the id is a number, the sender is an admin and the meeting exists; it then goes to every user, and otherwise to nobody |
| Dialog.MeetingButton | meetingmanagebot.py:621-640 | the meeting buttons keep users, admins and the invariant, and arm nothing |
| Dialog.AgendaButton | meetingmanagebot.py:674-870 | the agenda buttons keep users, admins and the invariant, and arm nothing |
| Dialog.OnPrefixedButton | meetingmanagebot.py:471-472 | `head:...` buttons keep users, admins and the invariant, and arm nothing |
| Dialog.Step | meetingmanagebot.py:320-325 | users grow only by `/start`; admins change only through a numeral in `assign_id`; the invariant and a readable stored date are kept; at most two reminders |
| Routes.PrefixedStep | meetingmanagebot.py:664 | a button with a colon reaches the prefixed handlers with its `split(":")` pieces |
| Routes.PlainStep | meetingmanagebot.py:976 | a button without a colon is matched exactly |
| Routes.NumeralStep | meetingmanagebot.py:384 | in a numeric state, text goes to the handler behind the `^\d+$` filter |
| Routes.NumeralHandlers | meetingmanagebot.py:747-756 | a written number reaches the item pick in `agenda_edit_field`, the admin change in `assign_id`, and the meeting pick in the other numeric states |
| Routes.TypedTextStep | meetingmanagebot.py:873-882 | in `agenda_type2` a text is read as a type before anything else |
| Routes.ThreeFields | meetingmanagebot.py:772 | `head:a:c` with colon-free fields splits into exactly those three fields |
| Flows.OnlyAdminsCreate | meetingmanagebot.py:405-412 | "create" opens the dialog for an admin; for anyone else it is refused with nothing changed |
| Flows.DateStep | meetingmanagebot.py:414-422 | a rejected date leaves bot and session as they were and says why; an accepted one is stored trimmed and the title is asked for |
| Flows.TitleStep | meetingmanagebot.py:425-429 | the title is stored trimmed and the description is asked for |
| Flows.DescStep | meetingmanagebot.py:432-469 | the description creates the meeting, tells every user, arms the reminders for its date and ends the session |
| Flows.CreationDialog | meetingmanagebot.py:405-469 | the four-step creation dialog ends with the meeting stored under the next number, with the trimmed date and title and the "-" rule applied to the description |
| Flows.DashRuleIdempotent | meetingmanagebot.py:597 | applying the "-" rule to its own result changes nothing |
| Flows.AnswerWord | meetingmanagebot.py:877-880 | each accepted spelling, "обязательный", "required" and "1" or "доп", "дополнительный", "optional" and "2", is read as its type |
| Flows.TypedAnswerReadsAsWord | meetingmanagebot.py:876-882 | any text is read as the accepted spelling it trims and lower-cases to, so " Required\n" means "required"; text that trims and lower-cases to no accepted spelling names no type |
| Flows.UnknownTypeChangesNothing | meetingmanagebot.py:881-882 | an answer naming no type is answered and changes nothing |
| Flows.TypedTypeAddsItem | meetingmanagebot.py:873-923 | for every session in `agenda_type2`, a typed type adds the collected item at the end of the session's meeting's list, with the next id, and ends the session; a title never collected is "(без заголовка)" and a description never collected is ""; without a stored meeting the session just ends; the sender need not be an admin |
| Flows.QuickAddTypedDialog | meetingmanagebot.py:714-798 | "add item", a title and a typed type put the item at the end of that meeting's list, with the trimmed title, no description and the typed type |
| Flows.TypeButtonStep | meetingmanagebot.py:827-831 | `agenda_type:<code>` adds to the session's meeting for an admin; anyone else is refused with nothing changed |
| Flows.TypeButtonForMeetingStep | meetingmanagebot.py:832-834 | `agenda_type:<mid>:<code>` adds to meeting `mid` for an admin; anyone else is refused with nothing changed |
| Flows.TypeTargets | meetingmanagebot.py:827-839 | with two fields the target is the session's meeting, with three the named one, and the admin check follows the parse |
| Flows.AddForStep | meetingmanagebot.py:699-722 | "add item" on an existing meeting opens its agenda (empty when missing) and starts the short dialog |
| Flows.AddAfterOpen | meetingmanagebot.py:719-720 | opening an agenda with `setdefault` before adding to it makes no difference to the result |
| Flows.QuickAddDialog | meetingmanagebot.py:699-870 | "add item", a title and a type button put the item at the end of that meeting's list, with the trimmed title, no description and the chosen type |
| Flows.EditPickStep | meetingmanagebot.py:540-547 | a stored number typed in `editing_select` is remembered as `edit_id` and the state stays |
| Flows.EditFieldStep | meetingmanagebot.py:481-486 | `edit_field:<field>:<mid>` reaches `cb_edit_field` with its three fields |
| Flows.EditChoice | meetingmanagebot.py:481-547 | a stored number, then the button of "date", "title" or "desc", leave the session in that field's editing state with the meeting and the field stored |
| Flows.EditTextStep | meetingmanagebot.py:584-601 | in `editing_title` or `editing_desc` with a stored meeting, the typed text replaces the title (trimmed) or the description ("-" rule) and the session ends |
| Flows.EditDateStep | meetingmanagebot.py:550-582 | in `editing_date` with a stored meeting, an accepted date replaces the meeting's, every user is told, its reminders are armed and the session ends |
| Flows.EditTextDialog | meetingmanagebot.py:481-601 | number, field button and text: the meeting gets the new title or description |
| Flows.EditDateDialog | meetingmanagebot.py:481-582 | number, date button and an accepted date: the meeting gets the new date, everyone is told and its reminders are armed |
| Flows.QuickTitleStep | meetingmanagebot.py:791-799 | with `quick_add` set, the title is followed straight by the type |
| Flows.DelForStep | meetingmanagebot.py:724-745 | "delete item" on a meeting with items asks for a number |
| Flows.PickNumberStep | meetingmanagebot.py:747-767 | typing the number an item is shown under asks to confirm that item and ends the session |
| Flows.ItemConfirmStep | meetingmanagebot.py:769-781 | the confirmation removes the named item when it is there, and is answered "not found" otherwise; the session and meetings are untouched |
| Flows.ItemDeletionDialog | meetingmanagebot.py:724-781 | deleting by shown number removes that item; items before it stay, and those after it move up one place, renumbered |
| Flows.RemovedByNumber | meetingmanagebot.py:757-776 | removing the item shown under `num` keeps those before it and moves those after it up one place |
| Flows.ProposalDialog | meetingmanagebot.py:944-989 | "propose", a meeting number, a text and a signature button append the proposal to that meeting's list |
| Flows.ProposeStep | meetingmanagebot.py:944-954 | with meetings present, "propose" starts afresh and asks for a number |
| Flows.ProposeNumberStep | meetingmanagebot.py:957-963 | an existing meeting's number is stored and the text is asked for |
| Flows.ProposeTextStep | meetingmanagebot.py:966-974 | the text is stored as sent, untrimmed, and the signature is asked for |
| Flows.ConfirmProposalStep | meetingmanagebot.py:976-989 | the signature button appends the proposal, signed as chosen, and ends the session |
| Flows.AssignDialog | meetingmanagebot.py:1002-1042 | "admins", an action and an id grant for "add" and revoke otherwise; the target is told; no step checks that the sender is an admin |
| Flows.AssignDoStep | meetingmanagebot.py:1016-1022 | everything after the first colon is stored as the action |
| Flows.AssignIdStep | meetingmanagebot.py:1024-1042 | the id typed is added for "add" and removed for any other action, and the session ends |
| Flows.GrantThenRevoke | meetingmanagebot.py:1030-1038 | granting and then revoking an id that was not an admin gives back the bot as it was |
| Flows.DeleteButtons | meetingmanagebot.py:621-640 | both confirmation buttons delete the named meeting and end the session; `meeting_delete_confirm` tells every other user, `meet_del_confirm` nobody; an unknown number changes nothing |
| Flows.DeleteConfirmations | meetingmanagebot.py:514-525 | each confirmation head reaches the deletion with its own set of users to tell |

## Left out

- The Telegram transport, message texts, inline keyboards and the duplicate
  `back_home_kb`: answers are reduced to a `Notice` value.
- Broadcast delivery and per-recipient send failures: a step returns the set
  of users it would message, and every send succeeds. Most broadcasts catch
  a failed send per recipient (meetingmanagebot.py:188-191, 560-564,
  632-636, 689-693). The creation broadcast (meetingmanagebot.py:446-447)
  does not. There, one failed send raises after the meeting is stored
  (438-443): no reminders are armed, `state.clear()` is skipped, and the
  session stays in `creating_desc`, so the user's next text creates a
  second meeting. `Dialog.CreateMeeting` and `Flows.DescStep` always end
  the session.
- Persistence (`save_*`, `load_data`), the `.env` token and logging: they do
  not affect the in-memory state.
- The reminder timers themselves (`asyncio.create_task`, `send_reminder`): a
  step returns the reminders it would arm as (offset, delay) data. Timers
  armed before an edit are not cancelled in the source, so they are not
  tracked either.
- Concurrency between users: every update runs to completion, one at a time.
- `datetime.now()` below one second: the current time is a whole number of
  seconds passed in.
- What is displayed: `menu_agenda`, `menu_view_props`, `meet_edit`,
  `meet_del`, `meet_agenda` and `agenda_manage` change nothing and answer
  `Shown`. `menu_list` and `list_page` only record the page number in the
  session. The text of every listing is left out. A `meet_edit` or
  `meet_del` payload that `int()` rejects raises in the source, and that
  also changes nothing.
- Non-text messages (`m.text` is `None`) and commands other than `/start`.
- Text.ParseInt: its contract states only that a number needs non-empty
  stripped text. Python's `int()` also accepts `_` between digits and
  non-ASCII decimal digits; it is not modelled. Callback data holds only
  numbers the bot wrote with `str()`, and typed text reaches `int()` only
  through the `^\d+$` filter, which never admits `_` (its digits are
  covered by the `Text.ParseNumeral` line below).
- Text.ParseNumeral: reads ASCII digits only. The `^\d+$` filter and `int()`
  also accept other Unicode decimal digits, so typing "٣" picks meeting 3 in
  the source, while the model does not admit that text as a numeral.
- DateTimes.Parse: reads ASCII digits only. The regular expression `strptime`
  builds uses `\d` for some digit positions, so "10.07.٢٥ 12:00" parses in
  the source and is rejected as a bad format in the model.
- Text.Lower: lower-cases Latin and basic Cyrillic capitals only; other
  scripts are unchanged.
- Dialog.Step: requires the meeting ids to be 1..K. The bot starts with no
  meetings, and creation and deletion keep that shape
  (`Meetings.CreateKeepsDense`, `BotState.DeleteMeetingKeepsInv`).
  Dictionaries loaded from disk with other keys are not covered.
- BotState.DeleteMeeting: requires the ids 1..K, for the same reason as
  `Dialog.Step`. On those ids, "the key is present" and "1 <= id <= K" are
  the same test.
- Dialog.ConfirmDelete: requires the ids 1..K, as `BotState.DeleteMeeting`
  does.
- DateTimes.Validate: compares whole seconds, so a minute equal to the
  current second-truncated time counts as not in the past.

## Findings

| source | as written | input that shows it | evidently intended | confidence | as-written member | corrected member |
|---|---|---|---|---|---|---|
| meetingmanagebot.py:356-361 | the meeting list numbers its rows by position in the date-sorted list, starting at `page * 5 + 1`, while the edit and delete prompts under that list (528-547, 608-619) look the number up as a meeting id | meeting 1 on "10.07.25 12:00" and meeting 2 on "05.07.25 12:00": the list shows "1." for meeting 2 and "2." for meeting 1, so typing 1 at the delete prompt deletes the 10 July meeting | number each row with its meeting id, as the details and proposal prompts already do (377-379, 950-952) | not executed; follows from the code as read | Meetings.ListAsWritten (Meetings.ListNumbersAreNotIds, Meetings.ListNumbersSample) | Meetings.List |
