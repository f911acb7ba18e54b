/** How a button's `callback_data` reaches its handler: a colon-free
    string is matched exactly, `head:rest` is split on colons and routed on
    `head`, first to the meeting or agenda group, then to the handler. */
module Routes {
  import opened Base
  import opened Text
  import opened Meetings
  import opened BotState
  import opened Dialog

  const MeetingHeads: seq<string> := ["list_page", "edit_field", "meet_del_confirm", "meeting_delete_confirm"]
  const AgendaHeads: seq<string> :=
    ["agenda_notify", "agenda_add_for", "agenda_del_for", "agenda_item_del_confirm", "agenda_type"]

  /** `head:rest` with a colon-free head is split into the head and the
      pieces of `rest`. */
  lemma ButtonParts(head: string, rest: string)
    requires ':' !in head
    ensures ':' in head + ":" + rest
    ensures Split(head + ":" + rest, ':') == [head] + Split(rest, ':')
  {
    var data := head + ":" + rest;
    assert data[|head|] == ':';
    SplitAfterHead(head, rest, ':');
  }

  /** `head:a` splits into its two fields. */
  lemma TwoFields(head: string, a: string)
    requires ':' !in head && ':' !in a
    ensures ':' in head + ":" + a
    ensures Split(head + ":" + a, ':') == [head, a]
  {
    ButtonParts(head, a);
    SplitWithoutSep(a, ':');
  }

  /** `head:a:c` splits into its three fields. */
  lemma ThreeFields(head: string, a: string, c: string)
    requires ':' !in head && ':' !in a && ':' !in c
    ensures ':' in head + ":" + a + ":" + c
    ensures Split(head + ":" + a + ":" + c, ':') == [head, a, c]
  {
    var rest := a + ":" + c;
    assert head + ":" + a + ":" + c == head + ":" + rest;
    ButtonParts(head, rest);
    SplitAfterHead(a, c, ':');
    assert a + [':'] + c == rest;
    SplitWithoutSep(c, ':');
  }

  /** A number written out has no colon, so it is one field, and it reads
      back as itself. */
  lemma NumberField(n: int)
    ensures ':' !in ShowInt(n)
    ensures ParseInt(ShowInt(n)) == Some(n)
  {
    ShowIntHasNoSpace(n);
    ParseShowInt(n);
  }

  /** A button with a colon goes to the prefixed handlers with its pieces. */
  lemma PrefixedStep(b: Bot, s: Session, u: User, data: string, now: nat)
    requires Dense(b.meetings) && ':' in data
    ensures |Split(data, ':')| >= 2
    ensures Step(b, s, u, Button(data), now) == OnPrefixedButton(b, s, u, Split(data, ':'), now)
  {
    JoinSplit(data, ':');
  }

  /** The two groups of heads share no name. */
  lemma GroupsAreApart(h: string)
    ensures h in AgendaHeads ==> h !in MeetingHeads && h != "assign_do"
    ensures h in MeetingHeads ==> h != "assign_do"
  {
  }

  lemma RouteAgenda(b: Bot, s: Session, u: User, parts: seq<string>, now: nat)
    requires Dense(b.meetings) && |parts| >= 2 && parts[0] in AgendaHeads
    ensures OnPrefixedButton(b, s, u, parts, now) == AgendaButton(b, s, u, parts, now)
  {
    GroupsAreApart(parts[0]);
  }

  lemma RouteMeeting(b: Bot, s: Session, u: User, parts: seq<string>, now: nat)
    requires Dense(b.meetings) && |parts| >= 2 && parts[0] in MeetingHeads
    ensures OnPrefixedButton(b, s, u, parts, now) == MeetingButton(b, s, u, parts)
  {
  }

  lemma RouteAssign(b: Bot, s: Session, u: User, parts: seq<string>, now: nat)
    requires Dense(b.meetings) && |parts| >= 2 && parts[0] == "assign_do"
    ensures OnPrefixedButton(b, s, u, parts, now)
            == Quiet(b, Session(AssignId, s.ctx.(assignAction := Some(Payload(parts)))), Prompt)
  {
    GroupsAreApart(parts[0]);
  }

  /** Within the agenda group, each head reaches its own handler. */
  lemma AgendaHandlers(b: Bot, s: Session, u: User, parts: seq<string>, now: nat)
    requires |parts| >= 2
    ensures parts[0] == "agenda_add_for" ==> AgendaButton(b, s, u, parts, now) == AgendaAddFor(b, s, u, Payload(parts))
    ensures parts[0] == "agenda_del_for" ==> AgendaButton(b, s, u, parts, now) == AgendaDelFor(b, s, u, parts[1])
    ensures parts[0] == "agenda_item_del_confirm" ==> AgendaButton(b, s, u, parts, now) == ConfirmItemDeletion(b, s, parts)
    ensures parts[0] == "agenda_type" ==> AgendaButton(b, s, u, parts, now) == TypeButton(b, s, u, parts, now)
  {
  }

  /** Within the meeting group, the field choice and the two deletion
      confirmations. */
  lemma MeetingHandlers(b: Bot, s: Session, u: User, parts: seq<string>)
    requires Dense(b.meetings) && |parts| >= 2
    ensures parts[0] == "edit_field" ==> MeetingButton(b, s, u, parts) == EditField(b, s, parts)
    ensures parts[0] == "meet_del_confirm" ==>
              MeetingButton(b, s, u, parts)
              == match ParseInt(Payload(parts))
                 case None => Quiet(b, s, Crashed)
                 case Some(mid) => ConfirmDelete(b, s, mid, {})
    ensures parts[0] == "meeting_delete_confirm" ==>
              MeetingButton(b, s, u, parts)
              == match ParseInt(parts[1])
                 case None => Quiet(b, s, Crashed)
                 case Some(mid) => ConfirmDelete(b, s, mid, b.users - {u.id})
  {
  }

  /** A button whose data splits into an agenda head and its fields
      reaches the agenda group. */
  lemma AgendaStep(b: Bot, s: Session, u: User, data: string, parts: seq<string>, now: nat)
    requires Dense(b.meetings) && ':' in data && Split(data, ':') == parts
    requires |parts| >= 2 && parts[0] in AgendaHeads
    ensures Step(b, s, u, Button(data), now) == AgendaButton(b, s, u, parts, now)
  {
    PrefixedStep(b, s, u, data, now);
    RouteAgenda(b, s, u, parts, now);
  }

  /** The same for the meeting group. */
  lemma MeetingStep(b: Bot, s: Session, u: User, data: string, parts: seq<string>, now: nat)
    requires Dense(b.meetings) && ':' in data && Split(data, ':') == parts
    requires |parts| >= 2 && parts[0] in MeetingHeads
    ensures Step(b, s, u, Button(data), now) == MeetingButton(b, s, u, parts)
  {
    PrefixedStep(b, s, u, data, now);
    RouteMeeting(b, s, u, parts, now);
  }

  /** In `agenda_type` a text is read as a type before anything else. */
  lemma TypedTextStep(b: Bot, s: Session, u: User, text: string, now: nat)
    requires Dense(b.meetings) && s.phase == AgendaType
    ensures Step(b, s, u, Text(text), now) == TypedKind(b, s, u, TypeFromText(text), now)
  {
    TextStep(b, s, u, text, now);
    AgendaRoute(b, s, u, text, now);
    TypedRoute(b, s, u, text, now);
  }

  lemma AgendaRoute(b: Bot, s: Session, u: User, text: string, now: nat)
    requires s.phase == AgendaType
    ensures OnText(b, s, u, text, now) == AgendaText(b, s, u, text, now)
  {
  }

  lemma TypedRoute(b: Bot, s: Session, u: User, text: string, now: nat)
    requires s.phase == AgendaType
    ensures AgendaText(b, s, u, text, now) == TypedKind(b, s, u, TypeFromText(text), now)
  {
  }

  /** The literal facts the flows rely on: the names hold no colon, and
      each head sits in its group. */
  lemma AgendaHeadFacts()
    ensures ':' !in "agenda_type" && ':' !in "agenda_add_for" && ':' !in "agenda_del_for"
    ensures "agenda_type" in AgendaHeads && "agenda_add_for" in AgendaHeads && "agenda_del_for" in AgendaHeads
  {
    NoColon("agenda_type");
    NoColon("agenda_add_for");
    NoColon("agenda_del_for");
  }

  lemma ItemDeletionHeadFacts()
    ensures ':' !in "agenda_item_del_confirm" && "agenda_item_del_confirm" in AgendaHeads
  {
    NoColon("agenda_item_del_confirm");
  }

  lemma MeetingHeadFacts()
    ensures ':' !in "meet_del_confirm" && ':' !in "meeting_delete_confirm" && ':' !in "edit_field"
    ensures "meet_del_confirm" in MeetingHeads && "meeting_delete_confirm" in MeetingHeads
    ensures "edit_field" in MeetingHeads
  {
    NoColon("meet_del_confirm");
    NoColon("meeting_delete_confirm");
    NoColon("edit_field");
  }

  lemma PlainFacts()
    ensures ':' !in "assign_do" && ':' !in "menu_create" && ':' !in "menu_propose" && ':' !in "menu_assign"
    ensures ':' !in "prop_anon" && ':' !in "prop_named"
  {
    NoColon("assign_do");
    NoColon("menu_create");
    NoColon("menu_propose");
    NoColon("menu_assign");
    NoColon("prop_anon");
    NoColon("prop_named");
  }

  /** A name of lower-case Latin letters and underscores has no colon. */
  lemma NoColon(w: string)
    requires forall i :: 0 <= i < |w| ==> 'a' <= w[i] <= 'z' || w[i] == '_'
    ensures ':' !in w
  {
  }

  /** A button without a colon is matched exactly. */
  lemma PlainStep(b: Bot, s: Session, u: User, data: string, now: nat)
    requires Dense(b.meetings) && ':' !in data
    ensures Step(b, s, u, Button(data), now) == OnPlainButton(b, s, u, data)
  {
  }

  /** The plain buttons the dialogs start from. */
  lemma PlainHandlers(b: Bot, s: Session, u: User)
    ensures OnPlainButton(b, s, u, "menu_create")
            == if u.id in b.admins then Quiet(b, s.(phase := CreatingDate), Prompt) else Quiet(b, s, Denied)
    ensures OnPlainButton(b, s, u, "menu_propose")
            == if b.meetings == [] then Quiet(b, Cleared, NothingScheduled) else Quiet(b, Session(ProposeSelect, NoData), Prompt)
    ensures OnPlainButton(b, s, u, "menu_assign") == Quiet(b, s.(phase := AssignAction), Prompt)
    ensures OnPlainButton(b, s, u, "prop_anon") == ConfirmProposal(b, s, u, true)
    ensures OnPlainButton(b, s, u, "prop_named") == ConfirmProposal(b, s, u, false)
  {
  }

  /** The states behind the `^\d+$` filter. */
  predicate NumberPhase(p: Phase) {
    p.EditingSelect? || p.Cancelling? || p.AgendaViewSelect? || p.AgendaDeleteSelect? || p.ProposeSelect? || p.AssignId?
  }

  lemma NumeralStep(b: Bot, s: Session, u: User, text: string, now: nat)
    requires Dense(b.meetings) && NumberPhase(s.phase)
    ensures Step(b, s, u, Text(text), now) == NumeralText(b, s, text)
  {
    TextStep(b, s, u, text, now);
    NumeralRoute(b, s, u, text, now);
  }

  /** A text message goes to the text handlers. */
  lemma TextStep(b: Bot, s: Session, u: User, text: string, now: nat)
    requires Dense(b.meetings)
    ensures Step(b, s, u, Text(text), now) == OnText(b, s, u, text, now)
  {
  }

  lemma EditingRoute(b: Bot, s: Session, u: User, text: string, now: nat)
    requires s.phase == EditingDate || s.phase == EditingTitle || s.phase == EditingDesc
    ensures OnText(b, s, u, text, now) == EditingText(b, s, text, now)
  {
  }

  lemma NumeralRoute(b: Bot, s: Session, u: User, text: string, now: nat)
    requires NumberPhase(s.phase)
    ensures OnText(b, s, u, text, now) == NumeralText(b, s, text)
  {
  }

  /** The number typed is read back as the number written. */
  lemma NumeralOfShowNat(n: nat)
    ensures IsNumeral(ShowNat(n)) && NumeralValue(ShowNat(n)) == n
  {
    ShowNatIsNumeral(n);
  }

  /** A written number reaches the handler of the state. */
  lemma NumeralHandlers(b: Bot, s: Session, n: nat)
    ensures s.phase == AgendaDeleteSelect ==> NumeralText(b, s, ShowNat(n)) == PickItem(b, s, n)
    ensures s.phase == AssignId ==> NumeralText(b, s, ShowNat(n)) == ApplyAssign(b, s, n)
    ensures s.phase != AgendaDeleteSelect && s.phase != AssignId ==> NumeralText(b, s, ShowNat(n)) == PickMeeting(b, s, n)
  {
    NumeralOfShowNat(n);
  }
}
