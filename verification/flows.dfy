/** What whole conversations do: the creation dialog from button to stored
    meeting, the admin gate, the typed and pressed agenda types, admin
    grants, deletions from the confirmation buttons. */
module Flows {
  import opened Base
  import opened Text
  import opened DateTimes
  import opened Meetings
  import opened Agenda
  import opened Reminders
  import opened BotState
  import opened Dialog
  import opened Routes

  // ---------------------------------------------------------------------
  // Creating a meeting
  // ---------------------------------------------------------------------

  /** "Create meeting" opens the dialog for an admin and is refused, with
      nothing changed, for anyone else. */
  lemma OnlyAdminsCreate(b: Bot, s: Session, u: User, now: nat)
    requires Dense(b.meetings)
    ensures var o := Step(b, s, u, Button("menu_create"), now);
            && (u.id in b.admins ==> o == Quiet(b, s.(phase := CreatingDate), Prompt))
            && (u.id !in b.admins ==> o == Quiet(b, s, Denied))
  {
    PlainFacts();
    PlainStep(b, s, u, "menu_create", now);
    PlainHandlers(b, s, u);
  }

  /** In `creating_date` a rejected date leaves everything as it was and
      says why; an accepted one is stored trimmed and the dialog asks for
      the title.  Nothing else happens either way. */
  lemma DateStep(b: Bot, s: Session, u: User, text: string, now: nat)
    requires Dense(b.meetings) && s.phase == CreatingDate
    ensures var o := Step(b, s, u, Text(text), now);
            var v := Validate(Strip(text), now);
            && (!v.Accepted? ==> o == Quiet(b, s, DateRejected(v)))
            && (v.Accepted? ==> o == Quiet(b, Session(CreatingTitle, s.ctx.(datetime := Some(Strip(text)))), Prompt))
  {
    TextStep(b, s, u, text, now);
  }

  /** The title is stored trimmed and the dialog asks for the description. */
  lemma TitleStep(b: Bot, s: Session, u: User, text: string, now: nat)
    requires Dense(b.meetings) && s.phase == CreatingTitle
    ensures Step(b, s, u, Text(text), now) == Quiet(b, Session(CreatingDesc, s.ctx.(title := Some(Strip(text)))), Prompt)
  {
    TextStep(b, s, u, text, now);
  }

  /** With a date and a title collected, the description completes the
      meeting: it gets the number one past the last, every user is told,
      the reminders for its date are armed and the session ends. */
  lemma DescStep(b: Bot, s: Session, u: User, text: string, now: nat)
    requires Dense(b.meetings) && s.phase == CreatingDesc
    requires s.ctx.datetime.Some? && s.ctx.title.Some?
    ensures var m := Meeting(s.ctx.datetime.value, s.ctx.title.value, DashRule(text));
            && Step(b, s, u, Text(text), now)
               == Outcome(b.(meetings := Create(b.meetings, m)), Cleared, RemindersFor(m.datetime, now), b.users,
                          MeetingCreated(|b.meetings| + 1))
            && Create(b.meetings, m)[|b.meetings|] == Entry(|b.meetings| + 1, m)
  {
    var m := Meeting(s.ctx.datetime.value, s.ctx.title.value, DashRule(text));
    TextStep(b, s, u, text, now);
    CreateKeepsDense(b.meetings, m);
  }

  /** The whole creation dialog: an admin presses "create", then sends an
      acceptable date, a title and a description.  Each step asks for the
      next field; the last one adds the meeting, numbered one past the
      last, with the trimmed date and title and the description after the
      "-" rule, tells every user, arms the reminders for that date and ends
      the session. */
  lemma CreationDialog(b: Bot, u: User, date: string, title: string, desc: string, n1: nat, n2: nat, n3: nat, n4: nat)
    requires Dense(b.meetings) && u.id in b.admins
    requires Validate(Strip(date), n2).Accepted?
    ensures var s1 := Session(CreatingDate, NoData);
            var s2 := Session(CreatingTitle, NoData.(datetime := Some(Strip(date))));
            var s3 := Session(CreatingDesc, s2.ctx.(title := Some(Strip(title))));
            var m := Meeting(Strip(date), Strip(title), DashRule(desc));
            && Step(b, Cleared, u, Button("menu_create"), n1) == Quiet(b, s1, Prompt)
            && Step(b, s1, u, Text(date), n2) == Quiet(b, s2, Prompt)
            && Step(b, s2, u, Text(title), n3) == Quiet(b, s3, Prompt)
            && Step(b, s3, u, Text(desc), n4)
               == Outcome(b.(meetings := Create(b.meetings, m)), Cleared, RemindersFor(Strip(date), n4), b.users,
                          MeetingCreated(|b.meetings| + 1))
  {
    var s1 := Session(CreatingDate, NoData);
    var s2 := Session(CreatingTitle, NoData.(datetime := Some(Strip(date))));
    var s3 := Session(CreatingDesc, s2.ctx.(title := Some(Strip(title))));
    OnlyAdminsCreate(b, Cleared, u, n1);
    DateStep(b, s1, u, date, n2);
    TitleStep(b, s2, u, title, n3);
    DescStep(b, s3, u, desc, n4);
  }

  /** The "-" rule is stable: applying it to its own result changes
      nothing, so a description is stored the same way whichever handler
      reads it. */
  lemma DashRuleIdempotent(text: string)
    ensures DashRule(DashRule(text)) == DashRule(text)
  {
    StripIdempotent(text);
  }

  // ---------------------------------------------------------------------
  // Agenda items
  // ---------------------------------------------------------------------

  /** The words the typed answer accepts, in either language, and the
      digits 1 and 2, are read as the two types. */
  lemma AnswerWord(w: string)
    requires w in RequiredAnswers + OptionalAnswers
    ensures TypeFromText(w) == Some(if w in RequiredAnswers then "required" else "optional")
  {
    PlainWord(w);
  }

  /** Any text that trims and lower-cases to an accepted word, such as
      " Required\n" or "ДОП", is read as that word is; whatever else is
      typed names no type. */
  lemma TypedAnswerReadsAsWord(t: string)
    ensures Lower(Strip(t)) in RequiredAnswers + OptionalAnswers ==>
              TypeFromText(t) == TypeFromText(Lower(Strip(t)))
              && TypeFromText(t) == Some(if Lower(Strip(t)) in RequiredAnswers then "required" else "optional")
    ensures Lower(Strip(t)) !in RequiredAnswers + OptionalAnswers ==> TypeFromText(t).None?
  {
    var w := Lower(Strip(t));
    if w in RequiredAnswers + OptionalAnswers {
      AnswerWord(w);
    }
  }

  /** A typed answer that names no type is answered and changes nothing:
      the dialog stays where it was. */
  lemma UnknownTypeChangesNothing(b: Bot, s: Session, u: User, text: string, now: nat)
    requires Dense(b.meetings) && s.phase == AgendaType && TypeFromText(text).None?
    ensures Step(b, s, u, Text(text), now) == Quiet(b, s, TypeNotUnderstood)
  {
    TypedTextStep(b, s, u, text, now);
  }

  /** A typed type adds the item collected so far to the end of the
      session's meeting's list, with the next id, and ends the session.  A
      title never collected reads "(без заголовка)" and a description never
      collected reads "", as `data.get` supplies them; without a stored
      meeting the session just ends.  Nothing checks that the sender is an
      admin. */
  lemma TypedTypeAddsItem(b: Bot, s: Session, u: User, text: string, code: string, now: nat)
    requires Dense(b.meetings) && s.phase == AgendaType && TypeFromText(text) == Some(code)
    ensures s.ctx.agendaMid.None? || s.ctx.agendaMid.value !in Ids(b.meetings) ==>
              Step(b, s, u, Text(text), now) == Quiet(b, Cleared, NoMeetingChosen)
    ensures s.ctx.agendaMid.Some? && s.ctx.agendaMid.value in Ids(b.meetings) ==>
              var mid := s.ctx.agendaMid.value;
              var title := if s.ctx.agendaTitle.Some? then s.ctx.agendaTitle.value else "(без заголовка)";
              var desc := if s.ctx.agendaDesc.Some? then s.ctx.agendaDesc.value else "";
              Step(b, s, u, Text(text), now)
              == Quiet(b.(agendas := AddItem(b.agendas, mid, title, desc, KindName(code), u.id, Stamp(now))),
                       Cleared, ItemAdded(mid, NextItemId(ItemsOf(b.agendas, mid))))
  {
    TypedTextStep(b, s, u, text, now);
    assert TypedKind(b, s, u, Some(code), now) == AddToAgenda(b, s.ctx, u.id, s.ctx.agendaMid, code, now);
  }

  /** The quick-add dialog answered by typing the type: the item lands
      with the stripped title, an empty description and the typed type. */
  lemma QuickAddTypedDialog(b: Bot, u: User, mid: int, title: string, text: string, code: string,
                            n1: nat, n2: nat, n3: nat)
    requires Dense(b.meetings) && u.id in b.admins && mid in Ids(b.meetings) && TypeFromText(text) == Some(code)
    ensures var b1 := b.(agendas := b.agendas[mid := ItemsOf(b.agendas, mid)]);
            var s1 := Session(AgendaTitle, NoData.(agendaMid := Some(mid), quickAdd := true));
            var s2 := Session(AgendaType, s1.ctx.(agendaTitle := Some(Strip(title))));
            && Step(b, Cleared, u, Button("agenda_add_for" + ":" + ShowInt(mid)), n1) == Quiet(b1, s1, Prompt)
            && Step(b1, s1, u, Text(title), n2) == Quiet(b1, s2, Prompt)
            && Step(b1, s2, u, Text(text), n3)
               == Quiet(b.(agendas := AddItem(b.agendas, mid, Strip(title), "", KindName(code), u.id, Stamp(n3))),
                        Cleared, ItemAdded(mid, NextItemId(ItemsOf(b.agendas, mid))))
  {
    var b1 := b.(agendas := b.agendas[mid := ItemsOf(b.agendas, mid)]);
    var s1 := Session(AgendaTitle, NoData.(agendaMid := Some(mid), quickAdd := true));
    var s2 := Session(AgendaType, s1.ctx.(agendaTitle := Some(Strip(title))));
    AddForStep(b, Cleared, u, mid, n1);
    QuickTitleStep(b1, s1, u, title, n2);
    TypedTypeAddsItem(b1, s2, u, text, code, n3);
    QuickAddLands(b, b1, s2, u, mid, title, code, n3);
  }

  /** `agenda_type:<code>` adds to the meeting the session names, for an
      admin; anyone else is refused with nothing changed. */
  lemma TypeButtonStep(b: Bot, s: Session, u: User, code: string, now: nat)
    requires Dense(b.meetings) && ':' !in code
    ensures Step(b, s, u, Button("agenda_type" + ":" + code), now)
            == if u.id in b.admins then AddToAgenda(b, s.ctx, u.id, s.ctx.agendaMid, code, now)
               else Quiet(b, s, Denied)
  {
    var parts := ["agenda_type", code];
    AgendaHeadFacts();
    TwoFields("agenda_type", code);
    AgendaStep(b, s, u, "agenda_type" + ":" + code, parts, now);
    AgendaHandlers(b, s, u, parts, now);
    TypeTargets(b, s, u, parts, now);
  }

  /** `agenda_type:<mid>:<code>` adds to meeting `mid` whatever the session
      holds. */
  lemma TypeButtonForMeetingStep(b: Bot, s: Session, u: User, mid: int, code: string, now: nat)
    requires Dense(b.meetings) && ':' !in code
    ensures Step(b, s, u, Button("agenda_type" + ":" + ShowInt(mid) + ":" + code), now)
            == if u.id in b.admins then AddToAgenda(b, s.ctx, u.id, Some(mid), code, now)
               else Quiet(b, s, Denied)
  {
    var parts := ["agenda_type", ShowInt(mid), code];
    AgendaHeadFacts();
    NumberField(mid);
    ThreeFields("agenda_type", ShowInt(mid), code);
    AgendaStep(b, s, u, "agenda_type" + ":" + ShowInt(mid) + ":" + code, parts, now);
    AgendaHandlers(b, s, u, parts, now);
    TypeTargets(b, s, u, parts, now);
  }

  /** What a type button adds to, by its number of fields. */
  lemma TypeTargets(b: Bot, s: Session, u: User, parts: seq<string>, now: nat)
    ensures |parts| == 2 ==>
              TypeButton(b, s, u, parts, now)
              == if u.id in b.admins then AddToAgenda(b, s.ctx, u.id, s.ctx.agendaMid, parts[1], now)
                 else Quiet(b, s, Denied)
    ensures |parts| == 3 && ParseInt(parts[1]).Some? ==>
              TypeButton(b, s, u, parts, now)
              == if u.id in b.admins then AddToAgenda(b, s.ctx, u.id, ParseInt(parts[1]), parts[2], now)
                 else Quiet(b, s, Denied)
  {
  }

  /** "Add item" on a meeting opens its agenda (empty when it had none) and
      starts the short dialog that skips the description. */
  lemma AddForStep(b: Bot, s: Session, u: User, mid: int, now: nat)
    requires Dense(b.meetings) && u.id in b.admins && mid in Ids(b.meetings)
    ensures Step(b, s, u, Button("agenda_add_for" + ":" + ShowInt(mid)), now)
            == Quiet(b.(agendas := b.agendas[mid := ItemsOf(b.agendas, mid)]),
                     Session(AgendaTitle, s.ctx.(agendaMid := Some(mid), quickAdd := true)), Prompt)
  {
    var parts := ["agenda_add_for", ShowInt(mid)];
    AgendaHeadFacts();
    NumberField(mid);
    TwoFields("agenda_add_for", ShowInt(mid));
    AgendaStep(b, s, u, "agenda_add_for" + ":" + ShowInt(mid), parts, now);
    AgendaHandlers(b, s, u, parts, now);
    assert Payload(parts) == ShowInt(mid);
    AddForOpens(b, s, u, mid);
  }

  lemma AddForOpens(b: Bot, s: Session, u: User, mid: int)
    requires u.id in b.admins && mid in Ids(b.meetings)
    ensures AgendaAddFor(b, s, u, ShowInt(mid))
            == Quiet(b.(agendas := b.agendas[mid := ItemsOf(b.agendas, mid)]),
                     Session(AgendaTitle, s.ctx.(agendaMid := Some(mid), quickAdd := true)), Prompt)
  {
    NumberField(mid);
    if mid in b.agendas {
      assert b.agendas[mid := ItemsOf(b.agendas, mid)] == b.agendas;
    }
  }

  /** The short dialog: "add item" on meeting `mid`, a title, a type
      button.  The item lands at the end of that meeting's list with the
      trimmed title, no description and the chosen type; nothing else
      changes. */
  lemma QuickAddDialog(b: Bot, u: User, mid: int, title: string, code: string, n1: nat, n2: nat, n3: nat)
    requires Dense(b.meetings) && u.id in b.admins && mid in Ids(b.meetings) && ':' !in code
    ensures var b1 := b.(agendas := b.agendas[mid := ItemsOf(b.agendas, mid)]);
            var s1 := Session(AgendaTitle, NoData.(agendaMid := Some(mid), quickAdd := true));
            var s2 := Session(AgendaType, s1.ctx.(agendaTitle := Some(Strip(title))));
            && Step(b, Cleared, u, Button("agenda_add_for" + ":" + ShowInt(mid)), n1) == Quiet(b1, s1, Prompt)
            && Step(b1, s1, u, Text(title), n2) == Quiet(b1, s2, Prompt)
            && Step(b1, s2, u, Button("agenda_type" + ":" + code), n3)
               == Quiet(b.(agendas := AddItem(b.agendas, mid, Strip(title), "", KindName(code), u.id, Stamp(n3))),
                        Cleared, ItemAdded(mid, NextItemId(ItemsOf(b.agendas, mid))))
  {
    var b1 := b.(agendas := b.agendas[mid := ItemsOf(b.agendas, mid)]);
    var s1 := Session(AgendaTitle, NoData.(agendaMid := Some(mid), quickAdd := true));
    var s2 := Session(AgendaType, s1.ctx.(agendaTitle := Some(Strip(title))));
    AddForStep(b, Cleared, u, mid, n1);
    QuickTitleStep(b1, s1, u, title, n2);
    TypeButtonStep(b1, s2, u, code, n3);
    QuickAddLands(b, b1, s2, u, mid, title, code, n3);
  }

  /** With `quick_add` set the title is followed straight by the type. */
  lemma QuickTitleStep(b: Bot, s: Session, u: User, title: string, now: nat)
    requires Dense(b.meetings) && s.phase == AgendaTitle && s.ctx.quickAdd
    ensures Step(b, s, u, Text(title), now)
            == Quiet(b, Session(AgendaType, s.ctx.(agendaTitle := Some(Strip(title)))), Prompt)
  {
    TextStep(b, s, u, title, now);
  }

  lemma QuickAddLands(b: Bot, b1: Bot, s: Session, u: User, mid: int, title: string, code: string, now: nat)
    requires b1 == b.(agendas := b.agendas[mid := ItemsOf(b.agendas, mid)]) && mid in Ids(b.meetings)
    requires s.ctx.agendaMid == Some(mid) && s.ctx.agendaTitle == Some(Strip(title)) && s.ctx.agendaDesc.None?
    ensures AddToAgenda(b1, s.ctx, u.id, s.ctx.agendaMid, code, now)
            == Quiet(b.(agendas := AddItem(b.agendas, mid, Strip(title), "", KindName(code), u.id, Stamp(now))),
                     Cleared, ItemAdded(mid, NextItemId(ItemsOf(b.agendas, mid))))
  {
    AddAfterOpen(b.agendas, mid, Strip(title), "", KindName(code), u.id, Stamp(now));
  }

  /** Opening an agenda before adding to it makes no difference. */
  lemma AddAfterOpen(ag: Agendas, mid: int, title: string, desc: string, kind: string, author: int, stamp: string)
    ensures ItemsOf(ag[mid := ItemsOf(ag, mid)], mid) == ItemsOf(ag, mid)
    ensures AddItem(ag[mid := ItemsOf(ag, mid)], mid, title, desc, kind, author, stamp)
            == AddItem(ag, mid, title, desc, kind, author, stamp)
  {
    var ag1 := ag[mid := ItemsOf(ag, mid)];
    assert ItemsOf(ag1, mid) == ItemsOf(ag, mid);
    var v := AddItem(ag, mid, title, desc, kind, author, stamp)[mid];
    assert AddItem(ag1, mid, title, desc, kind, author, stamp) == ag1[mid := v];
    assert ag1[mid := v] == ag[mid := v];
  }

  /** "Delete item" on a meeting with items asks for a number. */
  lemma DelForStep(b: Bot, s: Session, u: User, mid: int, now: nat)
    requires Dense(b.meetings) && u.id in b.admins && ItemsOf(b.agendas, mid) != []
    ensures Step(b, s, u, Button("agenda_del_for" + ":" + ShowInt(mid)), now)
            == Quiet(b, Session(AgendaDeleteSelect, s.ctx.(delAgendaMid := Some(mid))), Prompt)
  {
    var parts := ["agenda_del_for", ShowInt(mid)];
    AgendaHeadFacts();
    NumberField(mid);
    TwoFields("agenda_del_for", ShowInt(mid));
    AgendaStep(b, s, u, "agenda_del_for" + ":" + ShowInt(mid), parts, now);
    AgendaHandlers(b, s, u, parts, now);
    DelForAsks(b, s, u, mid);
  }

  lemma DelForAsks(b: Bot, s: Session, u: User, mid: int)
    requires u.id in b.admins && ItemsOf(b.agendas, mid) != []
    ensures AgendaDelFor(b, s, u, ShowInt(mid))
            == Quiet(b, Session(AgendaDeleteSelect, s.ctx.(delAgendaMid := Some(mid))), Prompt)
  {
    NumberField(mid);
  }

  /** Typing the number an item is shown under picks that item. */
  lemma PickNumberStep(b: Bot, s: Session, u: User, mid: int, num: nat, now: nat)
    requires Dense(b.meetings) && s.phase == AgendaDeleteSelect && s.ctx.delAgendaMid == Some(mid)
    requires mid in b.agendas && WellFormed(b.agendas[mid]) && 1 <= num <= |b.agendas[mid]|
    ensures Step(b, s, u, Text(ShowNat(num)), now) == Quiet(b, Cleared, ConfirmItem(mid, b.agendas[mid][num - 1].id))
  {
    NumeralStep(b, s, u, ShowNat(num), now);
    NumeralHandlers(b, s, num);
    SelectionMatchesShownOrder(b.agendas, mid, num);
  }

  /** Confirming removes the item named, when it is there; the session and
      the meetings are untouched. */
  lemma ItemConfirmStep(b: Bot, s: Session, u: User, mid: int, id: int, now: nat)
    requires Dense(b.meetings)
    ensures var r := RemoveItem(b.agendas, mid, id);
            var o := Step(b, s, u, Button("agenda_item_del_confirm" + ":" + ShowInt(mid) + ":" + ShowInt(id)), now);
            && (r.Removed? ==> o == Quiet(b.(agendas := r.agendas), s, ItemDeleted(id)))
            && (r.ItemNotFound? ==> o == Quiet(b, s, Unknown))
  {
    var parts := ["agenda_item_del_confirm", ShowInt(mid), ShowInt(id)];
    ItemDeletionHeadFacts();
    NumberField(mid);
    NumberField(id);
    ThreeFields("agenda_item_del_confirm", ShowInt(mid), ShowInt(id));
    AgendaStep(b, s, u, "agenda_item_del_confirm" + ":" + ShowInt(mid) + ":" + ShowInt(id), parts, now);
    AgendaHandlers(b, s, u, parts, now);
    ItemConfirmRemoves(b, s, mid, id);
  }

  lemma ItemConfirmRemoves(b: Bot, s: Session, mid: int, id: int)
    ensures var r := RemoveItem(b.agendas, mid, id);
            var o := ConfirmItemDeletion(b, s, ["agenda_item_del_confirm", ShowInt(mid), ShowInt(id)]);
            && (r.Removed? ==> o == Quiet(b.(agendas := r.agendas), s, ItemDeleted(id)))
            && (r.ItemNotFound? ==> o == Quiet(b, s, Unknown))
  {
    NumberField(mid);
    NumberField(id);
  }

  /** Deleting an item by the number it is shown under: "delete item", the
      number, the confirmation.  The item shown under that number goes;
      the items before it stay as they were and those after it move up one
      place, renumbered. */
  lemma ItemDeletionDialog(b: Bot, u: User, mid: int, num: nat, n1: nat, n2: nat, n3: nat)
    requires Dense(b.meetings) && u.id in b.admins
    requires mid in b.agendas && WellFormed(b.agendas[mid]) && 1 <= num <= |b.agendas[mid]|
    ensures var items := b.agendas[mid];
            var id := items[num - 1].id;
            var s1 := Session(AgendaDeleteSelect, NoData.(delAgendaMid := Some(mid)));
            var r := RemoveItem(b.agendas, mid, id);
            && Step(b, Cleared, u, Button("agenda_del_for" + ":" + ShowInt(mid)), n1) == Quiet(b, s1, Prompt)
            && Step(b, s1, u, Text(ShowNat(num)), n2) == Quiet(b, Cleared, ConfirmItem(mid, id))
            && r.Removed?
            && Step(b, Cleared, u, Button("agenda_item_del_confirm" + ":" + ShowInt(mid) + ":" + ShowInt(id)), n3)
               == Quiet(b.(agendas := r.agendas), Cleared, ItemDeleted(id))
            && |r.agendas[mid]| == |items| - 1
            && (forall i :: 0 <= i < num - 1 ==> r.agendas[mid][i] == items[i])
            && (forall i :: num - 1 < i < |items| ==> r.agendas[mid][i - 1] == items[i].(order := i))
  {
    var items := b.agendas[mid];
    var id := items[num - 1].id;
    DelForStep(b, Cleared, u, mid, n1);
    PickNumberStep(b, Session(AgendaDeleteSelect, NoData.(delAgendaMid := Some(mid))), u, mid, num, n2);
    RemovedByNumber(b.agendas, mid, num);
    ItemConfirmStep(b, Cleared, u, mid, id, n3);
  }

  /** Removing the item shown under `num`: the one before it stay, the ones
      after move up a place. */
  lemma RemovedByNumber(ag: Agendas, mid: int, num: nat)
    requires mid in ag && WellFormed(ag[mid]) && 1 <= num <= |ag[mid]|
    ensures var items := ag[mid];
            var r := RemoveItem(ag, mid, items[num - 1].id);
            && r.Removed?
            && |r.agendas[mid]| == |items| - 1
            && (forall i :: 0 <= i < num - 1 ==> r.agendas[mid][i] == items[i])
            && (forall i :: num - 1 < i < |items| ==> r.agendas[mid][i - 1] == items[i].(order := i))
  {
    RemoveItemShiftsLater(ag, mid, num - 1);
  }

  // ---------------------------------------------------------------------
  // Proposals
  // ---------------------------------------------------------------------

  /** Proposing: "propose", the meeting's number, the text, then "anonymous"
      or "signed".  The proposal is appended to that meeting's list, signed
      "Аноним" or with the sender's full name. */
  lemma ProposalDialog(b: Bot, u: User, mid: nat, text: string, anonymous: bool, n1: nat, n2: nat, n3: nat, n4: nat)
    requires Dense(b.meetings) && 1 <= mid <= |b.meetings|
    ensures var s1 := Session(ProposeSelect, NoData);
            var s2 := Session(ProposeText, NoData.(proposeMid := Some(mid)));
            var s3 := Session(ProposeConfirm, s2.ctx.(proposeText := Some(text)));
            var before := if mid in b.proposals then b.proposals[mid] else [];
            var author := if anonymous then "Аноним" else u.fullName;
            && Step(b, Cleared, u, Button("menu_propose"), n1) == Quiet(b, s1, Prompt)
            && Step(b, s1, u, Text(ShowNat(mid)), n2) == Quiet(b, s2, Prompt)
            && Step(b, s2, u, Text(text), n3) == Quiet(b, s3, Prompt)
            && Step(b, s3, u, Button(if anonymous then "prop_anon" else "prop_named"), n4)
               == Quiet(b.(proposals := b.proposals[mid := before + [Proposal(author, text)]]), Cleared, ProposalTaken(mid))
  {
    var s1 := Session(ProposeSelect, NoData);
    var s2 := Session(ProposeText, NoData.(proposeMid := Some(mid)));
    var s3 := Session(ProposeConfirm, s2.ctx.(proposeText := Some(text)));
    ProposeStep(b, Cleared, u, n1);
    DenseMember(b.meetings, mid);
    ProposeNumberStep(b, s1, u, mid, n2);
    ProposeTextStep(b, s2, u, text, n3);
    ConfirmProposalStep(b, s3, u, anonymous, n4);
  }

  lemma ProposeStep(b: Bot, s: Session, u: User, now: nat)
    requires Dense(b.meetings) && b.meetings != []
    ensures Step(b, s, u, Button("menu_propose"), now) == Quiet(b, Session(ProposeSelect, NoData), Prompt)
  {
    PlainFacts();
    PlainStep(b, s, u, "menu_propose", now);
    PlainHandlers(b, s, u);
  }

  lemma ProposeNumberStep(b: Bot, s: Session, u: User, mid: nat, now: nat)
    requires Dense(b.meetings) && s.phase == ProposeSelect && mid in Ids(b.meetings)
    ensures Step(b, s, u, Text(ShowNat(mid)), now) == Quiet(b, Session(ProposeText, s.ctx.(proposeMid := Some(mid))), Prompt)
  {
    NumeralStep(b, s, u, ShowNat(mid), now);
    NumeralHandlers(b, s, mid);
    ProposePick(b, s, mid);
  }

  lemma ProposePick(b: Bot, s: Session, mid: nat)
    requires s.phase == ProposeSelect && mid in Ids(b.meetings)
    ensures PickMeeting(b, s, mid) == Quiet(b, Session(ProposeText, s.ctx.(proposeMid := Some(mid))), Prompt)
  {
  }

  lemma ProposeTextStep(b: Bot, s: Session, u: User, text: string, now: nat)
    requires Dense(b.meetings) && s.phase == ProposeText
    ensures Step(b, s, u, Text(text), now) == Quiet(b, Session(ProposeConfirm, s.ctx.(proposeText := Some(text))), Prompt)
  {
    TextStep(b, s, u, text, now);
  }

  lemma ConfirmProposalStep(b: Bot, s: Session, u: User, anonymous: bool, now: nat)
    requires Dense(b.meetings) && s.ctx.proposeMid.Some? && s.ctx.proposeText.Some?
    ensures var mid := s.ctx.proposeMid.value;
            var before := if mid in b.proposals then b.proposals[mid] else [];
            var author := if anonymous then "Аноним" else u.fullName;
            Step(b, s, u, Button(if anonymous then "prop_anon" else "prop_named"), now)
            == Quiet(b.(proposals := b.proposals[mid := before + [Proposal(author, s.ctx.proposeText.value)]]), Cleared, ProposalTaken(mid))
  {
    PlainFacts();
    PlainHandlers(b, s, u);
    if anonymous {
      PlainStep(b, s, u, "prop_anon", now);
    } else {
      PlainStep(b, s, u, "prop_named", now);
    }
  }

  // ---------------------------------------------------------------------
  // Admins
  // ---------------------------------------------------------------------

  /** The admin dialog: "admins", "add" or "remove", a user id.  Any action
      but "add" revokes.  Nothing on the way checks that the sender is an
      admin. */
  lemma AssignDialog(b: Bot, s: Session, u: User, action: string, uid: nat, n1: nat, n2: nat, n3: nat)
    requires Dense(b.meetings)
    ensures var s1 := s.(phase := AssignAction);
            var s2 := Session(AssignId, s1.ctx.(assignAction := Some(action)));
            && Step(b, s, u, Button("menu_assign"), n1) == Quiet(b, s1, Prompt)
            && Step(b, s1, u, Button("assign_do" + ":" + action), n2) == Quiet(b, s2, Prompt)
            && Step(b, s2, u, Text(ShowNat(uid)), n3)
               == if action == "add" then Outcome(b.(admins := b.admins + {uid}), Cleared, [], {uid}, AdminGranted(uid))
                  else Outcome(b.(admins := b.admins - {uid}), Cleared, [], {uid}, AdminRevoked(uid))
  {
    var s1 := s.(phase := AssignAction);
    AssignMenuStep(b, s, u, n1);
    AssignDoStep(b, s1, u, action, n2);
    AssignIdStep(b, Session(AssignId, s1.ctx.(assignAction := Some(action))), u, action, uid, n3);
  }

  lemma AssignMenuStep(b: Bot, s: Session, u: User, now: nat)
    requires Dense(b.meetings)
    ensures Step(b, s, u, Button("menu_assign"), now) == Quiet(b, s.(phase := AssignAction), Prompt)
  {
    PlainFacts();
    PlainStep(b, s, u, "menu_assign", now);
    PlainHandlers(b, s, u);
  }

  /** `assign_do:<action>` stores everything after the first colon. */
  lemma AssignDoStep(b: Bot, s: Session, u: User, action: string, now: nat)
    requires Dense(b.meetings)
    ensures Step(b, s, u, Button("assign_do" + ":" + action), now)
            == Quiet(b, Session(AssignId, s.ctx.(assignAction := Some(action))), Prompt)
  {
    var data := "assign_do" + ":" + action;
    var parts := ["assign_do"] + Split(action, ':');
    PlainFacts();
    ButtonParts("assign_do", action);
    PrefixedStep(b, s, u, data, now);
    RouteAssign(b, s, u, parts, now);
    assert parts[1..] == Split(action, ':');
    JoinSplit(action, ':');
  }

  lemma AssignIdStep(b: Bot, s: Session, u: User, action: string, uid: nat, now: nat)
    requires Dense(b.meetings) && s.phase == AssignId && s.ctx.assignAction == Some(action)
    ensures Step(b, s, u, Text(ShowNat(uid)), now)
            == if action == "add" then Outcome(b.(admins := b.admins + {uid}), Cleared, [], {uid}, AdminGranted(uid))
               else Outcome(b.(admins := b.admins - {uid}), Cleared, [], {uid}, AdminRevoked(uid))
  {
    NumeralStep(b, s, u, ShowNat(uid), now);
    NumeralHandlers(b, s, uid);
  }

  /** Granting and then revoking the same id gives back the admins as they
      were, when that id was not an admin before. */
  lemma GrantThenRevoke(b: Bot, u: User, uid: nat, n1: nat, n2: nat)
    requires Dense(b.meetings) && uid !in b.admins
    ensures var s := Session(AssignId, NoData.(assignAction := Some("add")));
            var o1 := Step(b, s, u, Text(ShowNat(uid)), n1);
            var o2 := Step(o1.bot, s.(ctx := s.ctx.(assignAction := Some("remove"))), u, Text(ShowNat(uid)), n2);
            uid in o1.bot.admins && o2.bot == b
  {
    var s := Session(AssignId, NoData.(assignAction := Some("add")));
    var s' := s.(ctx := s.ctx.(assignAction := Some("remove")));
    AssignIdStep(b, s, u, "add", uid, n1);
    var b1 := b.(admins := b.admins + {uid});
    AssignIdStep(b1, s', u, "remove", uid, n2);
    assert b1.(admins := b1.admins - {uid}) == b;
  }

  // ---------------------------------------------------------------------
  // Deleting a meeting
  // ---------------------------------------------------------------------

  /** Both confirmation buttons delete the meeting they name, renumber
      the rest (agendas and proposals stay under the old numbers) and end
      the session; `meeting_delete_confirm` tells every other user,
      `meet_del_confirm` nobody.  A number no meeting has is answered and
      changes nothing. */
  lemma DeleteButtons(b: Bot, s: Session, u: User, mid: int, now: nat)
    requires Dense(b.meetings)
    ensures 1 <= mid <= |b.meetings| ==>
              && DeleteMeeting(b, mid).Some?
              && Step(b, s, u, Button("meeting_delete_confirm" + ":" + ShowInt(mid)), now)
                 == Outcome(DeleteMeeting(b, mid).value, Cleared, [], b.users - {u.id}, MeetingDeleted(mid))
              && Step(b, s, u, Button("meet_del_confirm" + ":" + ShowInt(mid)), now)
                 == Outcome(DeleteMeeting(b, mid).value, Cleared, [], {}, MeetingDeleted(mid))
    ensures !(1 <= mid <= |b.meetings|) ==>
              && Step(b, s, u, Button("meeting_delete_confirm" + ":" + ShowInt(mid)), now) == Quiet(b, s, Unknown)
              && Step(b, s, u, Button("meet_del_confirm" + ":" + ShowInt(mid)), now) == Quiet(b, s, Unknown)
  {
    MeetingHeadFacts();
    DeleteButton(b, s, u, "meeting_delete_confirm", mid, now);
    DeleteButton(b, s, u, "meet_del_confirm", mid, now);
    DeleteConfirmations(b, s, u, mid);
  }

  lemma DeleteButton(b: Bot, s: Session, u: User, head: string, mid: int, now: nat)
    requires Dense(b.meetings) && head in MeetingHeads && ':' !in head
    ensures Step(b, s, u, Button(head + ":" + ShowInt(mid)), now) == MeetingButton(b, s, u, [head, ShowInt(mid)])
  {
    NumberField(mid);
    TwoFields(head, ShowInt(mid));
    MeetingStep(b, s, u, head + ":" + ShowInt(mid), [head, ShowInt(mid)], now);
  }

  lemma DeleteConfirmations(b: Bot, s: Session, u: User, mid: int)
    requires Dense(b.meetings)
    ensures MeetingButton(b, s, u, ["meeting_delete_confirm", ShowInt(mid)]) == ConfirmDelete(b, s, mid, b.users - {u.id})
    ensures MeetingButton(b, s, u, ["meet_del_confirm", ShowInt(mid)]) == ConfirmDelete(b, s, mid, {})
  {
    NumberField(mid);
    MeetingHandlers(b, s, u, ["meeting_delete_confirm", ShowInt(mid)]);
    MeetingHandlers(b, s, u, ["meet_del_confirm", ShowInt(mid)]);
    assert Payload(["meet_del_confirm", ShowInt(mid)]) == ShowInt(mid);
  }

  // ---------------------------------------------------------------------
  // Editing a meeting
  // ---------------------------------------------------------------------

  /** `pick_edit`: a stored number typed in `editing_select` is remembered
      as the meeting to edit, and the state stays for the field buttons. */
  lemma EditPickStep(b: Bot, s: Session, u: User, mid: nat, now: nat)
    requires Dense(b.meetings) && s.phase == EditingSelect && mid in Ids(b.meetings)
    ensures Step(b, s, u, Text(ShowNat(mid)), now) == Quiet(b, s.(ctx := s.ctx.(editId := Some(mid))), Prompt)
  {
    NumeralStep(b, s, u, ShowNat(mid), now);
    NumeralHandlers(b, s, mid);
  }

  /** `edit_field:<field>:<mid>` reaches `cb_edit_field` with its three
      fields. */
  lemma EditFieldStep(b: Bot, s: Session, u: User, field: string, mid: int, now: nat)
    requires Dense(b.meetings) && ':' !in field
    ensures Step(b, s, u, Button("edit_field" + ":" + field + ":" + ShowInt(mid)), now)
            == EditField(b, s, ["edit_field", field, ShowInt(mid)])
  {
    var parts := ["edit_field", field, ShowInt(mid)];
    MeetingHeadFacts();
    NumberField(mid);
    ThreeFields("edit_field", field, ShowInt(mid));
    MeetingStep(b, s, u, "edit_field" + ":" + field + ":" + ShowInt(mid), parts, now);
    MeetingHandlers(b, s, u, parts);
  }

  /** In `editing_title` or `editing_desc` with a stored meeting, the typed
      text replaces the title (stripped) or the description (under the
      "-" rule), and the session ends. */
  lemma EditTextStep(b: Bot, s: Session, u: User, text: string, now: nat)
    requires Dense(b.meetings) && (s.phase == EditingTitle || s.phase == EditingDesc)
    requires s.ctx.editId.Some? && s.ctx.editId.value in Ids(b.meetings)
    ensures var mid := s.ctx.editId.value;
            var m := Get(b.meetings, mid).value;
            var m' := if s.phase == EditingDesc then m.(description := DashRule(text)) else m.(title := Strip(text));
            Step(b, s, u, Text(text), now)
            == Quiet(b.(meetings := Replace(b.meetings, mid, m').value), Cleared, MeetingChanged(mid))
  {
    TextStep(b, s, u, text, now);
    EditingRoute(b, s, u, text, now);
    assert EditingText(b, s, text, now) == EditText(b, s, text, s.phase == EditingDesc);
    EditTextLands(b, s, text, s.phase == EditingDesc);
  }

  lemma EditTextLands(b: Bot, s: Session, text: string, isDesc: bool)
    requires s.ctx.editId.Some? && s.ctx.editId.value in Ids(b.meetings)
    ensures var mid := s.ctx.editId.value;
            var m := Get(b.meetings, mid).value;
            var m' := if isDesc then m.(description := DashRule(text)) else m.(title := Strip(text));
            EditText(b, s, text, isDesc)
            == Quiet(b.(meetings := Replace(b.meetings, mid, m').value), Cleared, MeetingChanged(mid))
  {
  }

  /** In `editing_date` with a stored meeting, an accepted date replaces the
      meeting's, every user is told, the new date's reminders are armed, and
      the session ends. */
  lemma EditDateStep(b: Bot, s: Session, u: User, text: string, now: nat)
    requires Dense(b.meetings) && s.phase == EditingDate && Validate(Strip(text), now).Accepted?
    requires s.ctx.editId.Some? && s.ctx.editId.value in Ids(b.meetings)
    ensures var mid := s.ctx.editId.value;
            var m := Get(b.meetings, mid).value;
            Step(b, s, u, Text(text), now)
            == Outcome(b.(meetings := Replace(b.meetings, mid, m.(datetime := Strip(text))).value), Cleared,
                       RemindersFor(Strip(text), now), b.users, MeetingChanged(mid))
  {
    TextStep(b, s, u, text, now);
    EditingRoute(b, s, u, text, now);
    EditDateLands(b, s, text, now);
  }

  lemma EditDateLands(b: Bot, s: Session, text: string, now: nat)
    requires Validate(Strip(text), now).Accepted?
    requires s.ctx.editId.Some? && s.ctx.editId.value in Ids(b.meetings)
    ensures var mid := s.ctx.editId.value;
            var m := Get(b.meetings, mid).value;
            EditDate(b, s, text, now)
            == Outcome(b.(meetings := Replace(b.meetings, mid, m.(datetime := Strip(text))).value), Cleared,
                       RemindersFor(Strip(text), now), b.users, MeetingChanged(mid))
  {
  }

  /** Choosing what to edit: a stored number typed in `editing_select`,
      then the button of one of the three fields, leaves the session in
      that field's editing state with the meeting and the field stored. */
  lemma EditChoice(b: Bot, s: Session, u: User, mid: nat, field: string, n1: nat, n2: nat)
    requires Dense(b.meetings) && s.phase == EditingSelect && mid in Ids(b.meetings)
    requires field in ["date", "title", "desc"]
    ensures var s1 := s.(ctx := s.ctx.(editId := Some(mid)));
            var next := if field == "date" then EditingDate else if field == "title" then EditingTitle else EditingDesc;
            && Step(b, s, u, Text(ShowNat(mid)), n1) == Quiet(b, s1, Prompt)
            && Step(b, s1, u, Button("edit_field" + ":" + field + ":" + ShowInt(mid)), n2)
               == Quiet(b, Session(next, s.ctx.(editId := Some(mid), editField := Some(field))), Prompt)
  {
    var s1 := s.(ctx := s.ctx.(editId := Some(mid)));
    EditPickStep(b, s, u, mid, n1);
    EditFieldStep(b, s1, u, field, mid, n2);
    NumberField(mid);
    assert s1.ctx.(editId := Some(mid), editField := Some(field)) == s.ctx.(editId := Some(mid), editField := Some(field));
  }

  /** Editing the title or the description: pick the number, press the
      field's button, type the text. */
  lemma EditTextDialog(b: Bot, s: Session, u: User, mid: nat, field: string, text: string, n1: nat, n2: nat, n3: nat)
    requires Dense(b.meetings) && s.phase == EditingSelect && mid in Ids(b.meetings)
    requires field == "title" || field == "desc"
    ensures var s1 := s.(ctx := s.ctx.(editId := Some(mid)));
            var s2 := Session(if field == "title" then EditingTitle else EditingDesc,
                              s.ctx.(editId := Some(mid), editField := Some(field)));
            var m := Get(b.meetings, mid).value;
            var m' := if field == "desc" then m.(description := DashRule(text)) else m.(title := Strip(text));
            && Step(b, s, u, Text(ShowNat(mid)), n1) == Quiet(b, s1, Prompt)
            && Step(b, s1, u, Button("edit_field" + ":" + field + ":" + ShowInt(mid)), n2) == Quiet(b, s2, Prompt)
            && Step(b, s2, u, Text(text), n3)
               == Quiet(b.(meetings := Replace(b.meetings, mid, m').value), Cleared, MeetingChanged(mid))
  {
    var s2 := Session(if field == "title" then EditingTitle else EditingDesc,
                      s.ctx.(editId := Some(mid), editField := Some(field)));
    EditChoice(b, s, u, mid, field, n1, n2);
    EditTextStep(b, s2, u, text, n3);
  }

  /** Editing the date: pick the number, press the date button, type an
      accepted date. */
  lemma EditDateDialog(b: Bot, s: Session, u: User, mid: nat, text: string, n1: nat, n2: nat, n3: nat)
    requires Dense(b.meetings) && s.phase == EditingSelect && mid in Ids(b.meetings)
    requires Validate(Strip(text), n3).Accepted?
    ensures var s1 := s.(ctx := s.ctx.(editId := Some(mid)));
            var s2 := Session(EditingDate, s.ctx.(editId := Some(mid), editField := Some("date")));
            var m := Get(b.meetings, mid).value;
            && Step(b, s, u, Text(ShowNat(mid)), n1) == Quiet(b, s1, Prompt)
            && Step(b, s1, u, Button("edit_field" + ":" + "date" + ":" + ShowInt(mid)), n2) == Quiet(b, s2, Prompt)
            && Step(b, s2, u, Text(text), n3)
               == Outcome(b.(meetings := Replace(b.meetings, mid, m.(datetime := Strip(text))).value), Cleared,
                          RemindersFor(Strip(text), n3), b.users, MeetingChanged(mid))
  {
    var s2 := Session(EditingDate, s.ctx.(editId := Some(mid), editField := Some("date")));
    EditChoice(b, s, u, mid, "date", n1, n2);
    EditDateStep(b, s2, u, text, n3);
  }
}
