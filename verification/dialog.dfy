/** The conversation.  Every Telegram update from a user is one `Step`: the
    `/start` command, a text message, or the `callback_data` of a pressed
    button.  The user's `FSMContext` is a `Session` — the current state and
    the data stored with `update_data` — and a step returns the new bot
    state, the new session, the reminders it arms, the users it sends a
    broadcast to, and what it answers.

    A handler that raises (a missing context key, `int()` of a non-number, a
    wrong number of `:`-separated fields) does so before it changes
    anything, so a crash leaves bot and session as they were; its answer is
    `Crashed`.  A text no handler accepts is `Ignored`. */
module Dialog {
  import opened Base
  import opened Text
  import opened DateTimes
  import opened Meetings
  import opened Agenda
  import opened Reminders
  import opened BotState

  /** `States`, the ones some handler enters; `Idle` is "no state". */
  datatype Phase =
    | Idle
    | CreatingDate | CreatingTitle | CreatingDesc
    | EditingSelect | EditingDate | EditingTitle | EditingDesc
    | Cancelling
    | AgendaViewSelect
    | AgendaTitle | AgendaDesc | AgendaType
    | AgendaDeleteSelect
    | ProposeSelect | ProposeText | ProposeConfirm
    | AssignAction | AssignId

  /** The keys handlers store with `update_data`; `None` is a missing key. */
  datatype Context = Context(
    page: Option<int>,
    datetime: Option<string>,
    title: Option<string>,
    editId: Option<int>,
    editField: Option<string>,
    delMeetingId: Option<int>,
    agendaMid: Option<int>,
    quickAdd: bool,
    agendaTitle: Option<string>,
    agendaDesc: Option<string>,
    delAgendaMid: Option<int>,
    proposeMid: Option<int>,
    proposeText: Option<string>,
    assignAction: Option<string>)

  const NoData: Context :=
    Context(None, None, None, None, None, None, None, false, None, None, None, None, None, None)

  datatype Session = Session(phase: Phase, ctx: Context)

  /** `state.clear()`. */
  const Cleared: Session := Session(Idle, NoData)

  datatype User = User(id: int, fullName: string)

  datatype Event = Start | Text(text: string) | Button(data: string)

  datatype Notice =
    | Ignored | Welcome | Menu | Shown | Prompt | Denied | Crashed | BadData
    | Unknown | NothingScheduled | NoMeetingChosen | AgendaEmpty | NoAgendaFound | WrongNumber
    | TypeNotUnderstood
    | DateRejected(verdict: Verdict)
    | MeetingCreated(id: int) | MeetingChanged(id: int) | MeetingDeleted(id: int)
    | ConfirmItem(mid: int, itemId: int) | ItemAdded(mid: int, itemId: int) | ItemDeleted(itemId: int)
    | AgendaSent(mid: int) | ProposalTaken(mid: int)
    | AdminGranted(uid: int) | AdminRevoked(uid: int)

  datatype Outcome = Outcome(
    bot: Bot,
    session: Session,
    reminders: seq<Reminder>,
    notified: set<int>,
    notice: Notice)

  /** An answer to the sender only. */
  function Quiet(b: Bot, s: Session, n: Notice): Outcome {
    Outcome(b, s, [], {}, n)
  }

  /** A session's stored date, when there is one, is readable: only an
      accepted date is ever stored. */
  predicate SessionOk(s: Session) {
    s.ctx.datetime.Some? ==> Parse(s.ctx.datetime.value).Some?
  }

  /** What a handler leaves alone unless it is the one that changes it. */
  predicate SameUsers(b: Bot, o: Outcome) {
    o.bot.users == b.users && o.bot.admins == b.admins
  }

  // ---------------------------------------------------------------------
  // Small rules shared by the handlers
  // ---------------------------------------------------------------------

  /** The description rule: a lone "-" (after trimming) means "no
      description"; anything else is kept trimmed. */
  function DashRule(text: string): (r: string)
    ensures r == [] <==> Strip(text) == "-" || Strip(text) == []
    ensures r != [] ==> r == Strip(text)
  {
    if Strip(text) == "-" then [] else Strip(text)
  }

  /** `datetime.now().strftime("%d.%m.%y %H:%M")`. */
  function Stamp(now: nat): string {
    Format(FromSeconds(now))
  }

  /** `int(m.text)` for a text the `^\d+$` filter let through. */
  function NumeralValue(text: string): nat
    requires IsNumeral(text)
  {
    DigitsValue(NumeralDigits(text))
  }

  /** The value read from a numeral is what `int()` makes of it. */
  lemma NumeralValueIsInt(text: string)
    requires IsNumeral(text)
    ensures ParseInt(text) == Some(NumeralValue(text) as int)
  {
    ParseNumeral(text);
  }

  /** `data.split(":", 1)[1]` once `data` is known to hold a colon. */
  function Payload(parts: seq<string>): string
    requires |parts| >= 2
  {
    Join(parts[1..], ':')
  }

  /** The spellings a typed answer may use for each type. */
  const RequiredAnswers: seq<string> := ["обязательный", "required", "1"]
  const OptionalAnswers: seq<string> := ["доп", "дополнительный", "optional", "2"]

  /** The type a typed answer names: the text is trimmed and lower-cased,
      then compared with the accepted spellings. */
  function TypeFromText(text: string): (r: Option<string>)
    ensures r.Some? ==> r.value == "required" || r.value == "optional"
  {
    var t := Lower(Strip(text));
    if t in RequiredAnswers then Some("required")
    else if t in OptionalAnswers then Some("optional")
    else None
  }

  /** Where an `agenda_type:` button points. */
  datatype TypeTarget = Malformed | Unreadable | TypeTarget(mid: Option<int>, code: string)

  /** `agenda_type:<code>` takes the meeting from the session,
      `agenda_type:<mid>:<code>` names it; any other field count is bad
      data, and an unreadable `<mid>` raises. */
  function ReadTypeTarget(parts: seq<string>, sessionMid: Option<int>): (r: TypeTarget)
    ensures r.Malformed? <==> |parts| != 2 && |parts| != 3
    ensures |parts| == 2 ==> r == TypeTarget(sessionMid, parts[1])
    ensures r.Unreadable? <==> |parts| == 3 && ParseInt(parts[1]).None?
    ensures |parts| == 3 && r.TypeTarget? ==> r == TypeTarget(ParseInt(parts[1]), parts[2])
  {
    if |parts| == 2 then TypeTarget(sessionMid, parts[1])
    else if |parts| == 3 then
      match ParseInt(parts[1])
      case None => Unreadable
      case Some(m) => TypeTarget(Some(m), parts[2])
    else Malformed
  }

  // ---------------------------------------------------------------------
  // Invariant helpers, stated as implications so handlers can use them
  // unconditionally
  // ---------------------------------------------------------------------

  lemma CreateKeepsInv(b: Bot, m: Meeting)
    ensures Inv(b) && Parse(m.datetime).Some? ==> Inv(b.(meetings := Create(b.meetings, m)))
  {
    if Inv(b) && Parse(m.datetime).Some? {
      var st := Create(b.meetings, m);
      CreateKeepsDense(b.meetings, m);
      forall i | 0 <= i < |st| ensures Parse(st[i].meeting.datetime).Some? {
        if i < |b.meetings| {
          assert st[i] == st[..|b.meetings|][i];
        }
      }
    }
  }

  lemma ReplaceKeepsInv(b: Bot, id: int, m: Meeting)
    ensures Inv(b) && Parse(m.datetime).Some? && Replace(b.meetings, id, m).Some? ==>
              Inv(b.(meetings := Replace(b.meetings, id, m).value))
  {
    if Inv(b) && Parse(m.datetime).Some? && Replace(b.meetings, id, m).Some? {
      ReplaceKeepsDense(b.meetings, id, m);
    }
  }

  lemma DeleteKeepsInv(b: Bot, id: int)
    requires Dense(b.meetings)
    ensures Inv(b) && DeleteMeeting(b, id).Some? ==> Inv(DeleteMeeting(b, id).value)
  {
    if Inv(b) && DeleteMeeting(b, id).Some? {
      DeleteMeetingKeepsInv(b, id);
    }
  }

  lemma OpenAgendaKeepsInv(b: Bot, mid: int)
    ensures Inv(b) ==> Inv(b.(agendas := if mid in b.agendas then b.agendas else b.agendas[mid := []]))
  {
    if Inv(b) && mid !in b.agendas {
      AgendaUpdateKeepsInv(b, mid, []);
    }
  }

  lemma AddKeepsInv(b: Bot, mid: int, title: string, desc: string, kind: string, author: int, stamp: string)
    ensures Inv(b) ==> Inv(b.(agendas := AddItem(b.agendas, mid, title, desc, kind, author, stamp)))
  {
    if Inv(b) {
      var ag := AddItem(b.agendas, mid, title, desc, kind, author, stamp);
      assert WellFormed(ItemsOf(b.agendas, mid));
      AddItemKeepsWellFormed(b.agendas, mid, title, desc, kind, author, stamp);
      assert ag == b.agendas[mid := ag[mid]];
      AgendaUpdateKeepsInv(b, mid, ag[mid]);
    }
  }

  /** Putting a well-formed list under any number keeps the invariant. */
  lemma AgendaUpdateKeepsInv(b: Bot, mid: int, items: seq<Item>)
    requires Inv(b) && WellFormed(items)
    ensures Inv(b.(agendas := b.agendas[mid := items]))
  {
  }

  lemma RemoveKeepsInv(b: Bot, mid: int, id: int)
    ensures Inv(b) && RemoveItem(b.agendas, mid, id).Removed? ==>
              Inv(b.(agendas := RemoveItem(b.agendas, mid, id).agendas))
  {
    if Inv(b) && RemoveItem(b.agendas, mid, id).Removed? {
      var items := ItemsOf(b.agendas, mid);
      var k :| 0 <= k < |items| && items[k].id == id;
      assert mid in b.agendas;
      RemoveItemShiftsLater(b.agendas, mid, k);
    }
  }

  // ---------------------------------------------------------------------
  // Text messages
  // ---------------------------------------------------------------------

  /** `create_get_date`: the trimmed text must pass validation; otherwise
      the error is the only effect. */
  function CreateDate(b: Bot, s: Session, text: string, now: nat): (o: Outcome)
    ensures o.bot == b && o.reminders == [] && o.notified == {}
    ensures SessionOk(s) ==> SessionOk(o.session)
    ensures o.session != s ==> Validate(Strip(text), now).Accepted?
  {
    var t := Strip(text);
    var v := Validate(t, now);
    if !v.Accepted? then Quiet(b, s, DateRejected(v))
    else Quiet(b, Session(CreatingTitle, s.ctx.(datetime := Some(t))), Prompt)
  }

  /** `create_get_desc`: the meeting gets the next number, every user is
      told, reminders are armed and the session ends. */
  function CreateMeeting(b: Bot, s: Session, text: string, now: nat): (o: Outcome)
    ensures SameUsers(b, o) && o.bot.agendas == b.agendas
    ensures Inv(b) && SessionOk(s) ==> Inv(o.bot)
    ensures o.notice.MeetingCreated? ==>
              && s.ctx.datetime.Some? && s.ctx.title.Some?
              && o.bot.meetings == Create(b.meetings, Meeting(s.ctx.datetime.value, s.ctx.title.value, DashRule(text)))
              && o.notified == b.users && o.session == Cleared
    ensures !o.notice.MeetingCreated? ==> o.bot == b && o.session == s
  {
    var desc := DashRule(text);
    if s.ctx.datetime.None? || s.ctx.title.None? then Quiet(b, s, Crashed)
    else
      var m := Meeting(s.ctx.datetime.value, s.ctx.title.value, desc);
      var st := Create(b.meetings, m);
      CreateKeepsInv(b, m);
      Outcome(b.(meetings := st), Cleared, RemindersFor(m.datetime, now), b.users, MeetingCreated(st[|b.meetings|].id))
  }

  /** `edit_get_date`: validate, then overwrite the date of the meeting the
      session names; every user is told and reminders are armed again. */
  function EditDate(b: Bot, s: Session, text: string, now: nat): (o: Outcome)
    ensures SameUsers(b, o) && o.bot.agendas == b.agendas
    ensures Inv(b) ==> Inv(o.bot)
    ensures o.bot != b ==> Validate(Strip(text), now).Accepted? && o.notified == b.users && o.session == Cleared
    ensures o.notice.MeetingChanged? <==>
              Validate(Strip(text), now).Accepted? && s.ctx.editId.Some? && s.ctx.editId.value in Ids(b.meetings)
    ensures !o.notice.MeetingChanged? ==> o.bot == b && o.reminders == [] && o.notified == {}
    ensures o.notice.MeetingChanged? ==> o.session == Cleared && o.notified == b.users
    ensures o.notice.MeetingChanged? ==>
              var mid := o.notice.id;
              && s.ctx.editId == Some(mid) && Get(b.meetings, mid).Some?
              && o.bot == b.(meetings := Replace(b.meetings, mid, Get(b.meetings, mid).value.(datetime := Strip(text))).value)
              && o.reminders == RemindersFor(Strip(text), now)
  {
    var t := Strip(text);
    var v := Validate(t, now);
    if !v.Accepted? then Quiet(b, s, DateRejected(v))
    else if s.ctx.editId.None? then Quiet(b, s, Crashed)
    else
      var mid := s.ctx.editId.value;
      match Get(b.meetings, mid)
      case None => Quiet(b, s, Crashed)
      case Some(m) =>
        var m' := m.(datetime := t);
        ReplaceKeepsInv(b, mid, m');
        Outcome(b.(meetings := Replace(b.meetings, mid, m').value), Cleared, RemindersFor(t, now), b.users, MeetingChanged(mid))
  }

  /** `edit_get_title` and `edit_get_desc`: overwrite one text field. */
  function EditText(b: Bot, s: Session, text: string, isDesc: bool): (o: Outcome)
    ensures SameUsers(b, o) && o.bot.agendas == b.agendas && o.reminders == [] && o.notified == {}
    ensures Inv(b) ==> Inv(o.bot)
    ensures o.bot == b || o.session == Cleared
    ensures o.notice.MeetingChanged? ==> o.session == Cleared
    ensures o.notice.MeetingChanged? <==> s.ctx.editId.Some? && s.ctx.editId.value in Ids(b.meetings)
    ensures !o.notice.MeetingChanged? ==> o.bot == b
    ensures o.notice.MeetingChanged? ==>
              var mid := o.notice.id;
              var m := Get(b.meetings, mid);
              && s.ctx.editId == Some(mid) && m.Some?
              && o.bot == b.(meetings := Replace(b.meetings, mid,
                                                 if isDesc then m.value.(description := DashRule(text))
                                                 else m.value.(title := Strip(text))).value)
  {
    if s.ctx.editId.None? then Quiet(b, s, Crashed)
    else
      var mid := s.ctx.editId.value;
      match Get(b.meetings, mid)
      case None => Quiet(b, s, Crashed)
      case Some(m) =>
        var m' := if isDesc then m.(description := DashRule(text)) else m.(title := Strip(text));
        ReplaceKeepsInv(b, mid, m');
        Quiet(b.(meetings := Replace(b.meetings, mid, m').value), Cleared, MeetingChanged(mid))
  }

  /** `pick_edit`, `apply_cancel`, `agenda_view_by_number` and
      `pick_propose`: a meeting number, which must exist. */
  function PickMeeting(b: Bot, s: Session, n: int): (o: Outcome)
    ensures o.bot == b && o.reminders == [] && o.notified == {}
    ensures SessionOk(s) ==> SessionOk(o.session)
    ensures n !in Ids(b.meetings) ==> o.session == s && o.notice == Unknown
    ensures n in Ids(b.meetings) && s.phase == EditingSelect ==>
              o.session == s.(ctx := s.ctx.(editId := Some(n))) && o.notice == Prompt
    ensures n in Ids(b.meetings) && s.phase == Cancelling ==>
              o.session == s.(ctx := s.ctx.(delMeetingId := Some(n))) && o.notice == Prompt
  {
    if n !in Ids(b.meetings) then Quiet(b, s, Unknown)
    else match s.phase
      case EditingSelect => Quiet(b, s.(ctx := s.ctx.(editId := Some(n))), Prompt)
      case Cancelling => Quiet(b, s.(ctx := s.ctx.(delMeetingId := Some(n))), Prompt)
      case AgendaViewSelect => Quiet(b, Cleared, Shown)
      case ProposeSelect => Quiet(b, Session(ProposeText, s.ctx.(proposeMid := Some(n))), Prompt)
      case _ => Quiet(b, s, Ignored)
  }

  /** `agenda_delete_item`: the number counts the items in `order`. */
  function PickItem(b: Bot, s: Session, n: int): (o: Outcome)
    ensures o.bot == b && o.reminders == [] && o.notified == {}
    ensures SessionOk(s) ==> SessionOk(o.session)
    ensures o.notice.ConfirmItem? ==> o.notice.mid in b.agendas && o.notice.itemId in ItemIds(b.agendas[o.notice.mid])
  {
    match SelectForDeletion(b.agendas, s.ctx.delAgendaMid, n)
    case NoAgenda => Quiet(b, Cleared, NoAgendaFound)
    case BadNumber => Quiet(b, s, WrongNumber)
    case Selected(mid, id) => Quiet(b, Cleared, ConfirmItem(mid, id))
  }

  /** `cb_assign_apply`: grant or revoke; any action but "add" revokes. */
  function ApplyAssign(b: Bot, s: Session, uid: int): (o: Outcome)
    ensures o.bot.meetings == b.meetings && o.bot.agendas == b.agendas && o.bot.users == b.users
    ensures Inv(b) ==> Inv(o.bot)
    ensures o.bot.admins != b.admins ==> o.session == Cleared
  {
    match s.ctx.assignAction
    case None => Quiet(b, s, Crashed)
    case Some(action) =>
      if action == "add" then Outcome(b.(admins := b.admins + {uid}), Cleared, [], {uid}, AdminGranted(uid))
      else Outcome(b.(admins := b.admins - {uid}), Cleared, [], {uid}, AdminRevoked(uid))
  }

  /** Adding an item to the meeting the session or the button names, with
      the title and description collected so far. */
  function AddToAgenda(b: Bot, ctx: Context, author: int, mid: Option<int>, code: string, now: nat): (o: Outcome)
    ensures SameUsers(b, o) && o.bot.meetings == b.meetings && o.session == Cleared
    ensures Inv(b) ==> Inv(o.bot)
    ensures o.bot != b ==> mid.Some? && mid.value in Ids(b.meetings)
  {
    if mid.None? || mid.value !in Ids(b.meetings) then Quiet(b, Cleared, NoMeetingChosen)
    else
      var m := mid.value;
      var title := if ctx.agendaTitle.Some? then ctx.agendaTitle.value else "(без заголовка)";
      var desc := if ctx.agendaDesc.Some? then ctx.agendaDesc.value else "";
      AddKeepsInv(b, m, title, desc, KindName(code), author, Stamp(now));
      Quiet(b.(agendas := AddItem(b.agendas, m, title, desc, KindName(code), author, Stamp(now))), Cleared,
            ItemAdded(m, NextItemId(ItemsOf(b.agendas, m))))
  }

  /** Text in the three states of `menu_create`. */
  function CreationText(b: Bot, s: Session, text: string, now: nat): (o: Outcome)
    ensures SameUsers(b, o) && |o.reminders| <= 2
    ensures Inv(b) && SessionOk(s) ==> Inv(o.bot) && SessionOk(o.session)
  {
    match s.phase
    case CreatingDate => CreateDate(b, s, text, now)
    case CreatingTitle => Quiet(b, Session(CreatingDesc, s.ctx.(title := Some(Strip(text)))), Prompt)
    case _ => CreateMeeting(b, s, text, now)
  }

  /** Text in the three editing states. */
  function EditingText(b: Bot, s: Session, text: string, now: nat): (o: Outcome)
    ensures SameUsers(b, o) && |o.reminders| <= 2
    ensures Inv(b) && SessionOk(s) ==> Inv(o.bot) && SessionOk(o.session)
  {
    match s.phase
    case EditingDate => EditDate(b, s, text, now)
    case EditingTitle => EditText(b, s, text, false)
    case _ => EditText(b, s, text, true)
  }

  /** Text while an agenda item is being collected. */
  function AgendaText(b: Bot, s: Session, u: User, text: string, now: nat): (o: Outcome)
    ensures SameUsers(b, o) && o.reminders == []
    ensures Inv(b) && SessionOk(s) ==> Inv(o.bot) && SessionOk(o.session)
  {
    match s.phase
    case AgendaTitle =>
      var next := if s.ctx.quickAdd then AgendaType else AgendaDesc;
      Quiet(b, Session(next, s.ctx.(agendaTitle := Some(Strip(text)))), Prompt)
    case AgendaDesc => Quiet(b, Session(AgendaType, s.ctx.(agendaDesc := Some(DashRule(text)))), Prompt)
    case _ => TypedKind(b, s, u, TypeFromText(text), now)
  }

  /** `agenda_type2_text_handler` once the text has been read as a type:
      an unrecognised answer changes nothing. */
  function TypedKind(b: Bot, s: Session, u: User, kind: Option<string>, now: nat): (o: Outcome)
    ensures SameUsers(b, o) && o.reminders == []
    ensures Inv(b) && SessionOk(s) ==> Inv(o.bot) && SessionOk(o.session)
    ensures kind.None? ==> o.bot == b && o.session == s
  {
    match kind
    case None => Quiet(b, s, TypeNotUnderstood)
    case Some(code) => AddToAgenda(b, s.ctx, u.id, s.ctx.agendaMid, code, now)
  }

  /** The states whose handler sits behind the `^\d+$` filter: any other
      text is ignored there. */
  function NumeralText(b: Bot, s: Session, text: string): (o: Outcome)
    ensures SameUsers(b, o) || (s.phase == AssignId && IsNumeral(text) && o.bot.users == b.users)
    ensures o.reminders == []
    ensures Inv(b) && SessionOk(s) ==> Inv(o.bot) && SessionOk(o.session)
  {
    if !IsNumeral(text) then Quiet(b, s, Ignored)
    else if s.phase == AgendaDeleteSelect then PickItem(b, s, NumeralValue(text))
    else if s.phase == AssignId then ApplyAssign(b, s, NumeralValue(text))
    else PickMeeting(b, s, NumeralValue(text))
  }

  /** A text message, routed by the session's state. */
  function OnText(b: Bot, s: Session, u: User, text: string, now: nat): (o: Outcome)
    ensures SameUsers(b, o) || (s.phase == AssignId && IsNumeral(text) && o.bot.users == b.users)
    ensures Inv(b) && SessionOk(s) ==> Inv(o.bot) && SessionOk(o.session)
    ensures |o.reminders| <= 2
  {
    match s.phase
    case CreatingDate | CreatingTitle | CreatingDesc => CreationText(b, s, text, now)
    case EditingDate | EditingTitle | EditingDesc => EditingText(b, s, text, now)
    case AgendaTitle | AgendaDesc | AgendaType => AgendaText(b, s, u, text, now)
    case EditingSelect | Cancelling | AgendaViewSelect | AgendaDeleteSelect | ProposeSelect | AssignId =>
      NumeralText(b, s, text)
    case ProposeText => Quiet(b, Session(ProposeConfirm, s.ctx.(proposeText := Some(text))), Prompt)
    case Idle | ProposeConfirm | AssignAction => Quiet(b, s, Ignored)
  }

  // ---------------------------------------------------------------------
  // Buttons
  // ---------------------------------------------------------------------

  /** `prop_anon` / `prop_named`: file the proposal collected in the
      session under its meeting. */
  function ConfirmProposal(b: Bot, s: Session, u: User, anonymous: bool): (o: Outcome)
    ensures SameUsers(b, o) && o.bot.meetings == b.meetings && o.bot.agendas == b.agendas
    ensures o.notice.ProposalTaken? ==>
              && s.ctx.proposeMid.Some? && s.ctx.proposeText.Some?
              && var mid := s.ctx.proposeMid.value;
              var before := if mid in b.proposals then b.proposals[mid] else [];
              mid in o.bot.proposals && o.bot.proposals[mid] == before + [Proposal(if anonymous then "Аноним" else u.fullName, s.ctx.proposeText.value)]
  {
    if s.ctx.proposeMid.None? || s.ctx.proposeText.None? then Quiet(b, s, Crashed)
    else
      var mid := s.ctx.proposeMid.value;
      var before := if mid in b.proposals then b.proposals[mid] else [];
      var p := Proposal(if anonymous then "Аноним" else u.fullName, s.ctx.proposeText.value);
      Quiet(b.(proposals := b.proposals[mid := before + [p]]), Cleared, ProposalTaken(mid))
  }

  /** The buttons whose `callback_data` has no colon, matched exactly. */
  function OnPlainButton(b: Bot, s: Session, u: User, data: string): (o: Outcome)
    ensures SameUsers(b, o) && o.bot.meetings == b.meetings && o.bot.agendas == b.agendas
    ensures o.reminders == [] && o.notified == {}
    ensures SessionOk(s) ==> SessionOk(o.session)
  {
    if data == "menu_home" then Quiet(b, Cleared, Menu)
    else if data == "menu_list" then Quiet(b, s.(ctx := s.ctx.(page := Some(0))), Shown)
    else if data == "list_details" then
      if b.meetings == [] then Quiet(b, s, NothingScheduled) else Quiet(b, s.(phase := AgendaViewSelect), Prompt)
    else if data == "menu_create" then
      if u.id in b.admins then Quiet(b, s.(phase := CreatingDate), Prompt) else Quiet(b, s, Denied)
    else if data == "list_edit" then Quiet(b, s.(phase := EditingSelect), Prompt)
    else if data == "list_delete" then Quiet(b, s.(phase := Cancelling), Prompt)
    else if data == "menu_agenda" || data == "menu_view_props" then Quiet(b, s, Shown)
    else if data == "list_propose" then
      if b.meetings == [] then Quiet(b, s, NothingScheduled) else Quiet(b, s.(phase := ProposeSelect), Prompt)
    else if data == "menu_propose" then
      if b.meetings == [] then Quiet(b, Cleared, NothingScheduled) else Quiet(b, Session(ProposeSelect, NoData), Prompt)
    else if data == "prop_anon" || data == "prop_named" then ConfirmProposal(b, s, u, data == "prop_anon")
    else if data == "menu_assign" then Quiet(b, s.(phase := AssignAction), Prompt)
    else Quiet(b, s, Ignored)
  }

  /** `cb_edit_field`: `edit_field:<field>:<mid>`; an unknown field stores
      the data but leaves the state as it was. */
  function EditField(b: Bot, s: Session, parts: seq<string>): (o: Outcome)
    ensures o.bot == b && o.reminders == [] && o.notified == {}
    ensures SessionOk(s) ==> SessionOk(o.session)
    ensures o.session != s ==> |parts| == 3 && ParseInt(parts[2]).Some? && ParseInt(parts[2]).value in Ids(b.meetings)
    ensures |parts| == 3 && ParseInt(parts[2]).Some? && ParseInt(parts[2]).value in Ids(b.meetings) ==>
              && o.notice == Prompt
              && o.session.ctx == s.ctx.(editId := ParseInt(parts[2]), editField := Some(parts[1]))
              && (parts[1] == "date" ==> o.session.phase == EditingDate)
              && (parts[1] == "title" ==> o.session.phase == EditingTitle)
              && (parts[1] == "desc" ==> o.session.phase == EditingDesc)
              && (parts[1] !in ["date", "title", "desc"] ==> o.session.phase == s.phase)
  {
    if |parts| != 3 then Quiet(b, s, Crashed)
    else match ParseInt(parts[2])
      case None => Quiet(b, s, Crashed)
      case Some(mid) =>
        if mid !in Ids(b.meetings) then Quiet(b, s, Unknown)
        else
          var field := parts[1];
          var ctx := s.ctx.(editId := Some(mid), editField := Some(field));
          var next :=
            if field == "date" then EditingDate
            else if field == "title" then EditingTitle
            else if field == "desc" then EditingDesc
            else s.phase;
          Quiet(b, Session(next, ctx), Prompt)
  }

  /** `cb_meet_del_confirm` and `cb_meeting_delete_confirm`: delete and
      renumber, leaving agendas and proposals under the old numbers; tell
      `notify`, end the session. */
  function ConfirmDelete(b: Bot, s: Session, mid: int, notify: set<int>): (o: Outcome)
    requires Dense(b.meetings)
    ensures SameUsers(b, o) && o.reminders == []
    ensures Inv(b) ==> Inv(o.bot)
    ensures o.bot == b <==> o.notice == Unknown
    ensures o.notice == Unknown <==> !(1 <= mid <= |b.meetings|)
  {
    match DeleteMeeting(b, mid)
    case None => Quiet(b, s, Unknown)
    case Some(b') =>
      DeleteKeepsInv(b, mid);
      Outcome(b', Cleared, [], notify, MeetingDeleted(mid))
  }

  /** `cb_agenda_add_for`: open (creating when missing) the agenda of a
      meeting and ask for an item title. */
  function AgendaAddFor(b: Bot, s: Session, u: User, payload: string): (o: Outcome)
    ensures SameUsers(b, o) && o.bot.meetings == b.meetings && o.reminders == [] && o.notified == {}
    ensures Inv(b) ==> Inv(o.bot)
    ensures SessionOk(s) ==> SessionOk(o.session)
    ensures o.bot != b ==> u.id in b.admins
  {
    match ParseInt(payload)
    case None => Quiet(b, s, BadData)
    case Some(mid) =>
      if u.id !in b.admins then Quiet(b, s, Denied)
      else if mid !in Ids(b.meetings) then Quiet(b, s, Unknown)
      else
        OpenAgendaKeepsInv(b, mid);
        var ag := if mid in b.agendas then b.agendas else b.agendas[mid := []];
        Quiet(b.(agendas := ag), Session(AgendaTitle, s.ctx.(agendaMid := Some(mid), quickAdd := true)), Prompt)
  }

  /** `cb_agenda_del_for`: ask which item to delete, when there is one. */
  function AgendaDelFor(b: Bot, s: Session, u: User, field: string): (o: Outcome)
    ensures o.bot == b && o.reminders == [] && o.notified == {}
    ensures SessionOk(s) ==> SessionOk(o.session)
    ensures o.session != s ==>
              && u.id in b.admins && o.session.ctx.delAgendaMid.Some?
              && ItemsOf(b.agendas, o.session.ctx.delAgendaMid.value) != []
  {
    match ParseInt(field)
    case None => Quiet(b, s, BadData)
    case Some(mid) =>
      if u.id !in b.admins then Quiet(b, s, Denied)
      else if ItemsOf(b.agendas, mid) == [] then Quiet(b, s, AgendaEmpty)
      else Quiet(b, Session(AgendaDeleteSelect, s.ctx.(delAgendaMid := Some(mid))), Prompt)
  }

  /** `cb_agenda_item_del_confirm`: `agenda_item_del_confirm:<mid>:<id>`. */
  function ConfirmItemDeletion(b: Bot, s: Session, parts: seq<string>): (o: Outcome)
    ensures SameUsers(b, o) && o.bot.meetings == b.meetings && o.session == s
    ensures o.reminders == [] && o.notified == {}
    ensures Inv(b) ==> Inv(o.bot)
  {
    if |parts| != 3 then Quiet(b, s, Crashed)
    else match (ParseInt(parts[1]), ParseInt(parts[2]))
      case (Some(mid), Some(id)) =>
        (match RemoveItem(b.agendas, mid, id)
         case ItemNotFound => Quiet(b, s, Unknown)
         case Removed(ag, it) =>
           RemoveKeepsInv(b, mid, id);
           Quiet(b.(agendas := ag), s, ItemDeleted(it.id)))
      case _ => Quiet(b, s, Crashed)
  }

  /** `agenda_set_type`: read the target, then check the sender, then add. */
  function TypeButton(b: Bot, s: Session, u: User, parts: seq<string>, now: nat): (o: Outcome)
    ensures SameUsers(b, o) && o.bot.meetings == b.meetings && o.reminders == [] && o.notified == {}
    ensures Inv(b) ==> Inv(o.bot)
    ensures SessionOk(s) ==> SessionOk(o.session)
    ensures o.bot != b ==> u.id in b.admins
  {
    match ReadTypeTarget(parts, s.ctx.agendaMid)
    case Malformed => Quiet(b, s, BadData)
    case Unreadable => Quiet(b, s, Crashed)
    case TypeTarget(mid, code) =>
      if u.id !in b.admins then Quiet(b, s, Denied)
      else AddToAgenda(b, s.ctx, u.id, mid, code, now)
  }

  /** `cb_agenda_notify`: send the agenda of a meeting to every user. */
  function NotifyAgenda(b: Bot, s: Session, u: User, field: string): (o: Outcome)
    ensures o.bot == b && o.session == s && o.reminders == []
    ensures o.notice.AgendaSent? <==>
              ParseInt(field).Some? && u.id in b.admins && ParseInt(field).value in Ids(b.meetings)
    ensures o.notice.AgendaSent? ==> ParseInt(field) == Some(o.notice.mid) && o.notified == b.users
    ensures !o.notice.AgendaSent? ==> o.notified == {}
  {
    match ParseInt(field)
    case None => Quiet(b, s, BadData)
    case Some(mid) =>
      if u.id !in b.admins then Quiet(b, s, Denied)
      else if mid !in Ids(b.meetings) then Quiet(b, s, Unknown)
      else Outcome(b, s, [], b.users, AgendaSent(mid))
  }

  /** The prefixed buttons that act on meetings. */
  function MeetingButton(b: Bot, s: Session, u: User, parts: seq<string>): (o: Outcome)
    requires |parts| >= 2 && Dense(b.meetings)
    ensures SameUsers(b, o) && o.reminders == []
    ensures Inv(b) && SessionOk(s) ==> Inv(o.bot) && SessionOk(o.session)
  {
    var head := parts[0];
    if head == "list_page" then
      match ParseInt(parts[1])
      case None => Quiet(b, s, Crashed)
      case Some(p) => Quiet(b, s.(ctx := s.ctx.(page := Some(p))), Shown)
    else if head == "edit_field" then EditField(b, s, parts)
    else if head == "meet_del_confirm" then
      match ParseInt(Payload(parts))
      case None => Quiet(b, s, Crashed)
      case Some(mid) => ConfirmDelete(b, s, mid, {})
    else
      match ParseInt(parts[1])
      case None => Quiet(b, s, Crashed)
      case Some(mid) => ConfirmDelete(b, s, mid, b.users - {u.id})
  }

  /** The prefixed buttons that act on agendas. */
  function AgendaButton(b: Bot, s: Session, u: User, parts: seq<string>, now: nat): (o: Outcome)
    requires |parts| >= 2
    ensures SameUsers(b, o) && o.reminders == []
    ensures Inv(b) && SessionOk(s) ==> Inv(o.bot) && SessionOk(o.session)
  {
    var head := parts[0];
    if head == "agenda_notify" then NotifyAgenda(b, s, u, parts[1])
    else if head == "agenda_add_for" then AgendaAddFor(b, s, u, Payload(parts))
    else if head == "agenda_del_for" then AgendaDelFor(b, s, u, parts[1])
    else if head == "agenda_item_del_confirm" then ConfirmItemDeletion(b, s, parts)
    else TypeButton(b, s, u, parts, now)
  }

  /** The buttons whose `callback_data` starts with `<head>:`. */
  function OnPrefixedButton(b: Bot, s: Session, u: User, parts: seq<string>, now: nat): (o: Outcome)
    requires |parts| >= 2 && Dense(b.meetings)
    ensures SameUsers(b, o) && o.reminders == []
    ensures Inv(b) && SessionOk(s) ==> Inv(o.bot) && SessionOk(o.session)
  {
    var head := parts[0];
    if head in ["list_page", "edit_field", "meet_del_confirm", "meeting_delete_confirm"] then
      MeetingButton(b, s, u, parts)
    else if head in ["agenda_notify", "agenda_add_for", "agenda_del_for", "agenda_item_del_confirm", "agenda_type"] then
      AgendaButton(b, s, u, parts, now)
    else if head == "assign_do" then Quiet(b, Session(AssignId, s.ctx.(assignAction := Some(Payload(parts)))), Prompt)
    else if head in ["meet_edit", "meet_del", "meet_agenda", "agenda_manage"] then Quiet(b, s, Shown)
    else Quiet(b, s, Ignored)
  }

  /** One update from user `u` at time `now` (whole seconds). */
  function Step(b: Bot, s: Session, u: User, ev: Event, now: nat): (o: Outcome)
    requires Dense(b.meetings)
    ensures o.bot.users == (if ev.Start? then b.users + {u.id} else b.users)
    ensures o.bot.admins != b.admins ==> s.phase == AssignId && ev.Text? && IsNumeral(ev.text)
    ensures Inv(b) && SessionOk(s) ==> Inv(o.bot) && SessionOk(o.session)
    ensures |o.reminders| <= 2
  {
    match ev
    case Start => Outcome(b.(users := b.users + {u.id}), s, [], {}, Welcome)
    case Text(text) => OnText(b, s, u, text, now)
    case Button(data) =>
      if ':' !in data then OnPlainButton(b, s, u, data)
      else
        var parts := Split(data, ':');
        assert |parts| >= 2 by { JoinSplit(data, ':'); }
        OnPrefixedButton(b, s, u, parts, now)
  }
}
