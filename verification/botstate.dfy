/** Everything the bot keeps between updates: the `meetings`, `agendas` and
    `proposals` dictionaries, `ADMIN_IDS` and `all_users`; the invariant the
    handlers keep; and meeting deletion as a whole-bot operation.

    Deleting a meeting renumbers the surviving meetings 1..K, while
    `agendas` and `proposals` stay keyed by the old numbers: an agenda ends
    up under the number of a different meeting, or of none until the next
    meeting created takes that number.  `DeleteMeeting` is that behaviour,
    and `DeletingStrandsAgenda` shows it on two meetings. */
module BotState {
  import opened Base
  import opened DateTimes
  import opened Meetings
  import opened Agenda

  /** One entry of `proposals[mid]`: the signature ("Аноним" or the
      sender's full name) and the text. */
  datatype Proposal = Proposal(author: string, text: string)

  datatype Bot = Bot(
    meetings: Store,
    agendas: Agendas,
    proposals: map<int, seq<Proposal>>,
    admins: set<int>,
    users: set<int>)

  /** `ADMIN_IDS` as the bot starts. */
  const InitialAdmins: set<int> := {642167821}

  /** Every agenda list hangs off an existing meeting. */
  predicate AgendasBelong(b: Bot) {
    forall mid :: mid in b.agendas ==> 1 <= mid <= |b.meetings|
  }

  /** What the handlers keep: meetings numbered 1..K in dictionary order,
      every stored date readable, every agenda list well formed.  Agenda
      lists need not hang off a meeting: deletion leaves them where they
      were. */
  predicate Inv(b: Bot) {
    && Dense(b.meetings)
    && AllParse(b.meetings)
    && forall mid :: mid in b.agendas ==> WellFormed(b.agendas[mid])
  }

  /** `meetings.pop(mid); reindex_meetings()`, with `agendas` and
      `proposals` left as they are.  `None` is the "not found" answer. */
  function DeleteMeeting(b: Bot, id: int): (r: Option<Bot>)
    requires Dense(b.meetings)
    ensures r.None? <==> !(1 <= id <= |b.meetings|)
    ensures r.Some? ==> Dense(r.value.meetings) && |r.value.meetings| == |b.meetings| - 1
    ensures r.Some? ==> r.value.agendas == b.agendas && r.value.proposals == b.proposals
    ensures r.Some? ==> DistinctIds(b.meetings) && Delete(b.meetings, id).Deleted?
                        && r.value == b.(meetings := Delete(b.meetings, id).store)
  {
    DenseIsDistinct(b.meetings);
    match Delete(b.meetings, id)
    case NotFound => None
    case Deleted(st) => Some(b.(meetings := st))
  }

  /** Deleting a meeting leaves every remaining date readable. */
  lemma DeleteKeepsAllParse(st: Store, id: int)
    requires Dense(st) && AllParse(st) && 1 <= id <= |st|
    ensures DistinctIds(st) && Delete(st, id).Deleted? && AllParse(Delete(st, id).store)
  {
    DeleteShiftsLaterMeetings(st, id);
    var r := Delete(st, id).store;
    forall i | 0 <= i < |r|
      ensures Parse(r[i].meeting.datetime).Some?
    {
      if i + 1 < id {
        assert r[i] == st[i];
      } else {
        assert r[i] == Entry(i + 1, st[i + 1].meeting);
      }
    }
  }

  /** Deleting a meeting keeps the invariant. */
  lemma DeleteMeetingKeepsInv(b: Bot, id: int)
    requires Inv(b) && 1 <= id <= |b.meetings|
    ensures DeleteMeeting(b, id).Some? && Inv(DeleteMeeting(b, id).value)
  {
    DeleteKeepsAllParse(b.meetings, id);
  }

  /** Agendas detach on deletion: with meetings 1 and 2 and an agenda for
      meeting 2, deleting meeting 1 renumbers meeting 2 to 1, which now has
      no agenda, while the agenda stays under 2, a number no meeting has
      until the next meeting created receives it (and the agenda with it). */
  lemma DeletingStrandsAgenda(m1: Meeting, m2: Meeting, items: seq<Item>, admins: set<int>, users: set<int>)
    requires items != []
    ensures var b := Bot([Entry(1, m1), Entry(2, m2)], map[2 := items], map[], admins, users);
            var d := DeleteMeeting(b, 1);
            && d.Some?
            && d.value.meetings == [Entry(1, m2)]
            && ItemsOf(d.value.agendas, 1) == []
            && ItemsOf(d.value.agendas, 2) == items
            && !AgendasBelong(d.value)
            && Create(d.value.meetings, m1)[1] == Entry(2, m1)
  {
    DeleteFirstOfTwo(m1, m2);
    CreateKeepsDense([Entry(1, m2)], m1);
  }

  lemma DeleteFirstOfTwo(m1: Meeting, m2: Meeting)
    ensures DistinctIds([Entry(1, m1), Entry(2, m2)])
    ensures Delete([Entry(1, m1), Entry(2, m2)], 1) == Deleted([Entry(1, m2)])
  {
    var st := [Entry(1, m1), Entry(2, m2)];
    DeleteShiftsLaterMeetings(st, 1);
    var r := Delete(st, 1).store;
    assert r[0] == Entry(1, m2);
  }
}
