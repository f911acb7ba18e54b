/** The `meetings` dictionary: creation with the next free id, deletion
    followed by `reindex_meetings`, in-place edits, and the chronological
    list shown page by page.  A Python dict remembers insertion order, so the
    store is the sequence of its entries in that order. */
module Meetings {
  import opened Base
  import opened DateTimes
  import opened Sorting
  import opened Pagination

  datatype Meeting = Meeting(datetime: string, title: string, description: string)

  datatype Entry = Entry(id: int, meeting: Meeting)

  /** `meetings: dict[int, dict]`, entries in insertion order. */
  type Store = seq<Entry>

  /** `MEETINGS_PER_PAGE`. */
  const MeetingsPerPage: nat := 5

  function Ids(st: Store): set<int> {
    set i | 0 <= i < |st| :: st[i].id
  }

  /** Keys of a dict are distinct. */
  predicate DistinctIds(st: Store) {
    forall i, j :: 0 <= i < j < |st| ==> st[i].id != st[j].id
  }

  /** The ids are exactly 1..K, in insertion order. */
  predicate Dense(st: Store) {
    forall i :: 0 <= i < |st| ==> st[i].id == i + 1
  }

  lemma DenseIsDistinct(st: Store)
    requires Dense(st)
    ensures DistinctIds(st)
    ensures forall k :: k in Ids(st) <==> 1 <= k <= |st|
  {
    forall k | 1 <= k <= |st| ensures k in Ids(st) {
      assert st[k - 1].id == k;
    }
  }

  /** The same for one number. */
  lemma DenseMember(st: Store, k: int)
    requires Dense(st)
    ensures k in Ids(st) <==> 1 <= k <= |st|
  {
    if 1 <= k <= |st| {
      assert st[k - 1].id == k;
    }
  }

  /** The position of the entry for `id`, if there is one. */
  function Find(st: Store, id: int): (r: Option<nat>)
    ensures r.Some? ==> r.value < |st| && st[r.value].id == id
    ensures r.None? <==> id !in Ids(st)
  {
    if st == [] then None
    else if st[0].id == id then Some(0)
    else
      var r := Find(st[1..], id);
      assert Ids(st) == {st[0].id} + Ids(st[1..]) by {
        forall k | k in Ids(st) ensures k in {st[0].id} + Ids(st[1..]) {
          var i :| 0 <= i < |st| && st[i].id == k;
          if i > 0 { assert st[1..][i - 1].id == k; }
        }
      }
      if r.None? then None else Some(r.value + 1)
  }

  /** `meetings.get(id)`. */
  function Get(st: Store, id: int): (r: Option<Meeting>)
    ensures r.Some? <==> id in Ids(st)
    ensures r.Some? ==> exists i :: 0 <= i < |st| && st[i] == Entry(id, r.value)
  {
    match Find(st, id)
    case None => None
    case Some(i) => Some(st[i].meeting)
  }

  /** With ids distinct, looking up an entry's id yields that entry's
      meeting, whichever position it holds. */
  lemma GetEntry(st: Store, i: nat)
    requires DistinctIds(st) && i < |st|
    ensures Get(st, st[i].id) == Some(st[i].meeting)
  {
    assert st[i].id in Ids(st);
  }

  /** `max(meetings.keys(), default=0)`. */
  function MaxId(st: Store): (m: int)
    ensures st == [] ==> m == 0
    ensures st != [] ==> m in Ids(st)
    ensures forall i :: 0 <= i < |st| ==> st[i].id <= m
  {
    if st == [] then 0
    else if |st| == 1 then st[0].id
    else
      var m := MaxId(st[1..]);
      assert m in Ids(st) by {
        var i :| 0 <= i < |st[1..]| && st[1..][i].id == m;
        assert st[i + 1].id == m;
      }
      if st[0].id >= m then st[0].id else m
  }

  /** The body of `create_get_desc`: the new meeting gets the next id after
      the largest one (1 in an empty store) and is added at the end; every
      existing entry stays as it was. */
  function Create(st: Store, m: Meeting): (r: Store)
    ensures |r| == |st| + 1 && r[..|st|] == st
    ensures r[|st|].meeting == m
    ensures forall i :: 0 <= i < |st| ==> st[i].id < r[|st|].id
    ensures st == [] ==> r[|st|].id == 1
    ensures st != [] ==> r[|st|].id - 1 in Ids(st)
  {
    st + [Entry(MaxId(st) + 1, m)]
  }

  /** Creating a meeting keeps the ids exactly 1..K, the new one being K+1. */
  lemma CreateKeepsDense(st: Store, m: Meeting)
    requires Dense(st)
    ensures Dense(Create(st, m))
    ensures Create(st, m)[|st|].id == |st| + 1
  {
    var r := Create(st, m);
    if st != [] {
      var k := r[|st|].id - 1;
      var i :| 0 <= i < |st| && st[i].id == k;
      assert st[|st| - 1].id == |st|;
    }
  }

  // ---------------------------------------------------------------------
  // reindex_meetings
  // ---------------------------------------------------------------------

  function IdKey(e: Entry): int {
    e.id
  }

  function IdBelow(k: int): Entry -> bool {
    (e: Entry) => e.id < k
  }

  /** How many entries have an id below `k`: the place of the entry with id
      `k` in ascending id order. */
  function Rank(st: Store, k: int): nat {
    Count(st, IdBelow(k))
  }

  /** Gives the entries of an id-sorted list the ids 1, 2, ... in turn. */
  function Renumber(s: Store): (r: Store)
    ensures |r| == |s|
    ensures Dense(r)
    ensures forall i :: 0 <= i < |s| ==> r[i].meeting == s[i].meeting
  {
    seq(|s|, i requires 0 <= i < |s| => Entry(i + 1, s[i].meeting))
  }

  lemma {:induction false} CountSameIdAtMostOne(st: Store, k: int)
    requires DistinctIds(st)
    ensures Count(st, HasKey(IdKey, k)) <= 1
  {
    if st != [] {
      var p := HasKey(IdKey, k);
      assert DistinctIds(st[1..]) by {
        forall a, b | 0 <= a < b < |st[1..]| ensures st[1..][a].id != st[1..][b].id {
          assert st[1..][a] == st[a + 1] && st[1..][b] == st[b + 1];
        }
      }
      CountSameIdAtMostOne(st[1..], k);
      assert p(st[0]) <==> st[0].id == k by { HasKeyMeans(IdKey, k, st[0]); }
      if st[0].id == k {
        assert forall i :: 0 <= i < |st[1..]| ==> !p(st[1..][i]) by {
          forall i | 0 <= i < |st[1..]| ensures !p(st[1..][i]) {
            assert st[1..][i] == st[i + 1];
            assert st[i + 1].id != st[0].id;
            HasKeyMeans(IdKey, k, st[i + 1]);
          }
        }
        CountNone(st[1..], p);
      }
    }
  }

  /** Sorting entries with distinct ids by id leaves the ids strictly
      increasing. */
  lemma SortedByIdIsStrict(st: Store)
    requires DistinctIds(st)
    ensures forall i, j :: 0 <= i < j < |st| ==> Sort(st, IdKey)[i].id < Sort(st, IdKey)[j].id
  {
    var s := Sort(st, IdKey);
    forall i, j | 0 <= i < j < |s| ensures s[i].id < s[j].id {
      assert IdKey(s[i]) <= IdKey(s[j]);
      if s[i].id == s[j].id {
        var p := HasKey(IdKey, s[i].id);
        CountTwo(s, p, i, j);
        CountSort(st, IdKey, p);
        CountSameIdAtMostOne(st, s[i].id);
      }
    }
  }

  lemma {:induction false} RankInStrictlySorted(s: Store, j: nat)
    requires forall a, b :: 0 <= a < b < |s| ==> s[a].id < s[b].id
    requires j < |s|
    ensures Rank(s, s[j].id) == j
  {
    var t := s[1..];
    assert forall a, b :: 0 <= a < b < |t| ==> t[a].id < t[b].id by {
      forall a, b | 0 <= a < b < |t| ensures t[a].id < t[b].id {
        assert t[a] == s[a + 1] && t[b] == s[b + 1];
      }
    }
    if j == 0 {
      assert forall i :: 0 <= i < |t| ==> !IdBelow(s[0].id)(t[i]) by {
        forall i | 0 <= i < |t| ensures !IdBelow(s[0].id)(t[i]) {
          assert t[i] == s[i + 1];
        }
      }
      CountNone(t, IdBelow(s[0].id));
    } else {
      assert t[j - 1] == s[j];
      RankInStrictlySorted(t, j - 1);
    }
  }

  /** `reindex_meetings`: the entries, taken in ascending id order, get the
      ids 1..K.  The entry that had id `k` now sits at position
      `Rank(st, k)` with id `Rank(st, k) + 1`: its new id is one more than
      the number of entries that had a smaller id, and its fields are
      unchanged. */
  function Reindex(st: Store): (r: Store)
    requires DistinctIds(st)
    ensures |r| == |st| && Dense(r)
    ensures forall i :: 0 <= i < |st| ==>
              Rank(st, st[i].id) < |r| && r[Rank(st, st[i].id)] == Entry(Rank(st, st[i].id) + 1, st[i].meeting)
  {
    ReindexPlacesEveryEntry(st);
    Renumber(Sort(st, IdKey))
  }

  lemma ReindexPlacesEveryEntry(st: Store)
    requires DistinctIds(st)
    ensures forall i :: 0 <= i < |st| ==>
              Rank(st, st[i].id) < |st| && Renumber(Sort(st, IdKey))[Rank(st, st[i].id)] == Entry(Rank(st, st[i].id) + 1, st[i].meeting)
  {
    SortedByIdIsStrict(st);
    forall i | 0 <= i < |st|
      ensures Rank(st, st[i].id) < |st| && Renumber(Sort(st, IdKey))[Rank(st, st[i].id)] == Entry(Rank(st, st[i].id) + 1, st[i].meeting)
    {
      ReindexPlacesEntry(st, i);
    }
  }

  lemma ReindexPlacesEntry(st: Store, i: nat)
    requires DistinctIds(st) && i < |st|
    requires forall a, b :: 0 <= a < b < |st| ==> Sort(st, IdKey)[a].id < Sort(st, IdKey)[b].id
    ensures Rank(st, st[i].id) < |st| && Renumber(Sort(st, IdKey))[Rank(st, st[i].id)] == Entry(Rank(st, st[i].id) + 1, st[i].meeting)
  {
    var s := Sort(st, IdKey);
    var j := PositionInSorted(st, s, i);
    RankInStrictlySorted(s, j);
    CountSort(st, IdKey, IdBelow(st[i].id));
  }

  lemma PositionInSorted(st: Store, s: Store, i: nat) returns (j: nat)
    requires i < |st| && multiset(s) == multiset(st)
    ensures j < |s| && s[j] == st[i]
  {
    assert st[i] in multiset(st);
    j :| 0 <= j < |s| && s[j] == st[i];
  }

  /** Renumbering keeps the old relative order: an entry with a smaller old
      id gets a smaller new id. */
  lemma ReindexKeepsOrder(st: Store, a: nat, b: nat)
    requires DistinctIds(st)
    requires a < |st| && b < |st| && st[a].id < st[b].id
    ensures Rank(st, st[a].id) < Rank(st, st[b].id)
  {
    RankStep(st, st[a].id, st[b].id, a);
  }

  lemma {:induction false} RankStep(st: Store, x: int, y: int, a: nat)
    requires a < |st| && st[a].id == x && x < y
    ensures Count(st, IdBelow(x)) < Count(st, IdBelow(y))
  {
    if a > 0 {
      RankStep(st[1..], x, y, a - 1);
    } else {
      RankMonotone(st[1..], x, y);
    }
  }

  lemma {:induction false} RankMonotone(st: Store, x: int, y: int)
    requires x <= y
    ensures Count(st, IdBelow(x)) <= Count(st, IdBelow(y))
  {
    if st != [] {
      RankMonotone(st[1..], x, y);
    }
  }

  datatype Deleted = NotFound | Deleted(store: Store)

  /** The meeting-delete confirmation: `meetings.pop(id)` followed by
      `reindex_meetings()`, refused when the id is not present.  The
      survivors are renumbered 1..K-1 in their old id order, keeping their
      fields, and exactly one entry holding the deleted meeting is gone. */
  function Delete(st: Store, id: int): (r: Deleted)
    requires DistinctIds(st)
    ensures r.NotFound? <==> id !in Ids(st)
    ensures r.Deleted? ==> |r.store| == |st| - 1 && Dense(r.store)
  {
    match Find(st, id)
    case None => NotFound
    case Some(k) =>
      RemoveAtKeepsDistinct(st, k);
      Deleted(Reindex(RemoveAt(st, k)))
  }

  /** Exactly one entry, the one holding the deleted meeting, is gone. */
  lemma DeleteRemovesOne(st: Store, id: int)
    requires DistinctIds(st) && id in Ids(st)
    ensures Delete(st, id).Deleted?
    ensures multiset(Meetings(Delete(st, id).store)) + multiset{Get(st, id).value} == multiset(Meetings(st))
  {
    var k := Find(st, id).value;
    RemoveAtKeepsDistinct(st, k);
    ReindexKeepsMeetings(RemoveAt(st, k));
    RemoveAtMeetings(st, k);
  }

  lemma RemoveAtKeepsDistinct(st: Store, k: nat)
    requires DistinctIds(st) && k < |st|
    ensures DistinctIds(RemoveAt(st, k))
  {
    var rest := RemoveAt(st, k);
    forall a, b | 0 <= a < b < |rest| ensures rest[a].id != rest[b].id {
      var a' := if a < k then a else a + 1;
      var b' := if b < k then b else b + 1;
      assert rest[a] == st[a'] && rest[b] == st[b'];
    }
  }

  lemma RemoveAtMeetings(st: Store, k: nat)
    requires k < |st|
    ensures multiset(Meetings(RemoveAt(st, k))) + multiset{st[k].meeting} == multiset(Meetings(st))
  {
    assert st == st[..k] + [st[k]] + st[k + 1..];
    MeetingsConcat(st[..k], [st[k]]);
    MeetingsConcat(st[..k] + [st[k]], st[k + 1..]);
    MeetingsConcat(st[..k], st[k + 1..]);
  }

  /** The meetings of a store, in order, without their ids. */
  function Meetings(st: Store): (ms: seq<Meeting>)
    ensures |ms| == |st|
    ensures forall i :: 0 <= i < |st| ==> ms[i] == st[i].meeting
  {
    seq(|st|, i requires 0 <= i < |st| => st[i].meeting)
  }

  lemma MeetingsConcat(a: Store, b: Store)
    ensures Meetings(a + b) == Meetings(a) + Meetings(b)
  {
  }

  lemma ReindexKeepsMeetings(st: Store)
    requires DistinctIds(st)
    ensures multiset(Meetings(Reindex(st))) == multiset(Meetings(st))
  {
    var s := Sort(st, IdKey);
    assert Meetings(Reindex(st)) == Meetings(s);
    MeetingsOfPermutation(st, s);
  }

  lemma {:induction false} MeetingsOfPermutation(a: Store, b: Store)
    requires multiset(a) == multiset(b)
    ensures multiset(Meetings(a)) == multiset(Meetings(b))
    decreases |a|
  {
    if a != [] {
      var x := a[0];
      assert x in multiset(b);
      var j :| 0 <= j < |b| && b[j] == x;
      var b' := b[..j] + b[j + 1..];
      assert b == b[..j] + [x] + b[j + 1..];
      assert a == [x] + a[1..];
      assert multiset(a) == multiset{x} + multiset(a[1..]);
      assert multiset(b) == multiset(b[..j]) + multiset{x} + multiset(b[j + 1..]);
      assert multiset(b') == multiset(b[..j]) + multiset(b[j + 1..]);
      assert multiset(a[1..]) == multiset(a) - multiset{x};
      assert multiset(b') == multiset(b) - multiset{x};
      MeetingsOfPermutation(a[1..], b');
      MeetingsConcat([x], a[1..]);
      MeetingsConcat(b[..j], [x]);
      MeetingsConcat(b[..j] + [x], b[j + 1..]);
      MeetingsConcat(b[..j], b[j + 1..]);
    }
  }

  /** Deleting a meeting from a store with ids 1..K leaves ids 1..K-1, and
      every meeting after the deleted one moves down by one id. */
  lemma DeleteShiftsLaterMeetings(st: Store, id: int)
    requires Dense(st) && 1 <= id <= |st|
    ensures DistinctIds(st)
    ensures Delete(st, id).Deleted?
    ensures forall i :: 0 <= i < |st| && i + 1 < id ==> Delete(st, id).store[i] == st[i]
    ensures forall i :: id <= i < |st| ==> Delete(st, id).store[i - 1] == Entry(i, st[i].meeting)
  {
    DenseIsDistinct(st);
    var k := id - 1;
    FindInDense(st, id);
    RemoveAtKeepsDistinct(st, k);
    var rest := RemoveAt(st, k);
    assert Delete(st, id).store == Reindex(rest);
    forall i | 0 <= i < |rest| ensures Reindex(rest)[i] == Entry(i + 1, rest[i].meeting) {
      RankInRemoved(st, k, i);
    }
  }

  lemma FindInDense(st: Store, id: int)
    requires Dense(st) && 1 <= id <= |st|
    ensures Find(st, id) == Some(id - 1)
  {
    var f := Find(st, id);
    assert st[id - 1].id == id;
    assert f.Some?;
    assert st[f.value].id == id;
  }

  lemma RankInRemoved(st: Store, k: nat, i: nat)
    requires Dense(st) && k < |st| && i < |st| - 1
    ensures DistinctIds(RemoveAt(st, k))
    ensures Reindex(RemoveAt(st, k))[i] == Entry(i + 1, RemoveAt(st, k)[i].meeting)
  {
    DenseIsDistinct(st);
    RemoveAtKeepsDistinct(st, k);
    var rest := RemoveAt(st, k);
    assert forall a, b :: 0 <= a < b < |rest| ==> rest[a].id < rest[b].id by {
      forall a, b | 0 <= a < b < |rest| ensures rest[a].id < rest[b].id {
        var a' := if a < k then a else a + 1;
        var b' := if b < k then b else b + 1;
        assert rest[a] == st[a'] && rest[b] == st[b'];
      }
    }
    RankInStrictlySorted(rest, i);
  }

  // ---------------------------------------------------------------------
  // Edits
  // ---------------------------------------------------------------------

  /** `meetings[id] = m` on an existing key: the entry keeps its id and
      place, and nothing else changes.  A missing key is the `KeyError` the
      edit handlers would raise. */
  function Replace(st: Store, id: int, m: Meeting): (r: Option<Store>)
    ensures r.None? <==> id !in Ids(st)
    ensures r.Some? ==> |r.value| == |st|
    ensures r.Some? ==> forall i :: 0 <= i < |st| ==>
              r.value[i].id == st[i].id
              && r.value[i].meeting == (if st[i].id == id && Find(st, id) == Some(i) then m else st[i].meeting)
  {
    match Find(st, id)
    case None => None
    case Some(k) => Some(st[k := Entry(id, m)])
  }

  lemma ReplaceKeepsDense(st: Store, id: int, m: Meeting)
    requires Dense(st) && Replace(st, id, m).Some?
    ensures Dense(Replace(st, id, m).value)
  {
  }

  // ---------------------------------------------------------------------
  // The chronological list
  // ---------------------------------------------------------------------

  predicate AllParse(st: Store) {
    forall i :: 0 <= i < |st| ==> Parse(st[i].meeting.datetime).Some?
  }

  /** The sort key of `get_sorted_meetings`: the parsed date as seconds. */
  function WhenKey(e: Entry): int {
    match Parse(e.meeting.datetime)
    case Some(dt) => Seconds(dt)
    case None => 0
  }

  function When(e: Entry): DateTime
    requires Parse(e.meeting.datetime).Some?
  {
    Parse(e.meeting.datetime).value
  }

  /** No meeting comes after a later one. */
  predicate Chronological(r: Store) {
    AllParse(r) && forall i, j :: 0 <= i < j < |r| ==> !Before(When(r[j]), When(r[i]))
  }

  /** `get_sorted_meetings`: every entry once, no meeting after a later
      one on the calendar.  Every stored date parses; otherwise Python's
      sort would raise. */
  function SortedMeetings(st: Store): (r: Store)
    requires AllParse(st)
    ensures multiset(r) == multiset(st)
    ensures Chronological(r)
  {
    var r := Sort(st, WhenKey);
    assert forall i :: 0 <= i < |r| ==> r[i] in multiset(st);
    assert AllParse(r) by {
      forall i | 0 <= i < |r| ensures Parse(r[i].meeting.datetime).Some? {
        assert r[i] in multiset(st);
        var k :| 0 <= k < |st| && st[k] == r[i];
      }
    }
    forall i, j | 0 <= i < j < |r| ensures !Before(When(r[j]), When(r[i])) {
      assert WhenKey(r[i]) <= WhenKey(r[j]);
      SecondsOrder(When(r[j]), When(r[i]));
    }
    r
  }

  /** Meetings at the same minute keep their dictionary order. */
  lemma SortedMeetingsTies(st: Store, minute: int)
    requires AllParse(st)
    ensures Filter(SortedMeetings(st), HasKey(WhenKey, minute)) == Filter(st, HasKey(WhenKey, minute))
  {
    SortStable(st, WhenKey, minute);
  }

  datatype Row = Row(number: int, entry: Entry)

  datatype ListView =
    | NoMeetings
    | ListPage(rows: seq<Row>, hasPrev: bool, hasNext: bool)

  /** Rows of the list as `show_meetings_page` numbers them: by position
      in the chronological list, starting at `page * 5 + 1`. */
  function PositionRows(entries: seq<Entry>, first: int): (rows: seq<Row>)
    ensures |rows| == |entries|
    ensures forall i :: 0 <= i < |rows| ==> rows[i] == Row(first + i, entries[i])
  {
    seq(|entries|, i requires 0 <= i < |entries| => Row(first + i, entries[i]))
  }

  /** Rows numbered by meeting id, the number every prompt asks for. */
  function IdRows(entries: seq<Entry>): (rows: seq<Row>)
    ensures |rows| == |entries|
    ensures forall i :: 0 <= i < |rows| ==> rows[i].entry == entries[i] && rows[i].number == entries[i].id
  {
    seq(|entries|, i requires 0 <= i < |entries| => Row(entries[i].id, entries[i]))
  }

  lemma PositionRowsOfPage(s: seq<Entry>, page: int)
    ensures var rows := PositionRows(Paginate(s, page, MeetingsPerPage).items, page * MeetingsPerPage + 1);
            page >= 0 ==> forall i :: 0 <= i < |rows| ==>
              page * MeetingsPerPage + i < |s| && rows[i] == Row(page * MeetingsPerPage + i + 1, s[page * MeetingsPerPage + i])
  {
    if page >= 0 {
      PageItems(s, page, MeetingsPerPage);
    }
  }

  lemma IdRowsOfPage(s: seq<Entry>, page: int)
    ensures var rows := IdRows(Paginate(s, page, MeetingsPerPage).items);
            page >= 0 ==> forall i :: 0 <= i < |rows| ==>
              page * MeetingsPerPage + i < |s| && rows[i].entry == s[page * MeetingsPerPage + i]
              && rows[i].number == rows[i].entry.id
  {
    if page >= 0 {
      PageItems(s, page, MeetingsPerPage);
    }
  }

  /** The list as written: page `page` of the chronological list, rows
      numbered by their position in it, from `page * 5 + 1`. */
  function ListAsWritten(st: Store, page: int): (v: ListView)
    requires AllParse(st)
    ensures v.NoMeetings? <==> st == []
    ensures v.ListPage? ==> |v.rows| == |Paginate(SortedMeetings(st), page, MeetingsPerPage).items| <= MeetingsPerPage
    ensures v.ListPage? ==> (v.hasPrev <==> page > 0)
    ensures v.ListPage? ==> (v.hasNext <==> (page + 1) * MeetingsPerPage < |st|)
    ensures v.ListPage? && page >= 0 ==>
              forall i :: 0 <= i < |v.rows| ==>
                page * MeetingsPerPage + i < |st|
                && v.rows[i] == Row(page * MeetingsPerPage + i + 1, SortedMeetings(st)[page * MeetingsPerPage + i])
  {
    if st == [] then NoMeetings
    else
      var s := SortedMeetings(st);
      var p := Paginate(s, page, MeetingsPerPage);
      PositionRowsOfPage(s, page);
      assert |s| == |st| by { assert |multiset(s)| == |multiset(st)|; }
      ListPage(PositionRows(p.items, page * MeetingsPerPage + 1), p.hasPrev, p.hasNext)
  }

  /** The list with rows numbered by meeting id: page `page` of the
      chronological list, five to a page, each row's number being the id
      that the edit, delete, details and proposal prompts accept.  The
      navigation buttons are those of `list_keyboard`. */
  function List(st: Store, page: int): (v: ListView)
    requires AllParse(st)
    ensures v.NoMeetings? <==> st == []
    ensures v.ListPage? ==> |v.rows| == |Paginate(SortedMeetings(st), page, MeetingsPerPage).items| <= MeetingsPerPage
    ensures v.ListPage? ==> (v.hasPrev <==> page > 0)
    ensures v.ListPage? ==> (v.hasNext <==> (page + 1) * MeetingsPerPage < |st|)
    ensures v.ListPage? && page >= 0 ==>
              forall i :: 0 <= i < |v.rows| ==>
                page * MeetingsPerPage + i < |st|
                && v.rows[i].entry == SortedMeetings(st)[page * MeetingsPerPage + i]
                && v.rows[i].number == v.rows[i].entry.id
  {
    if st == [] then NoMeetings
    else
      var s := SortedMeetings(st);
      var p := Paginate(s, page, MeetingsPerPage);
      IdRowsOfPage(s, page);
      ListPage(IdRows(p.items), p.hasPrev, p.hasNext)
  }

  /** The numbering as written shows the position, and it differs from the
      id whenever the dates are not in id order.  With meeting 1 dated after
      meeting 2 (10 July and 5 July, say), the list reads "1." for meeting 2
      and "2." for meeting 1, so typing 1 at the delete prompt after reading
      the list deletes the 10 July meeting.  Numbered by id, the same rows
      read "2." and "1.". */
  lemma ListNumbersAreNotIds(later: DateTime, earlier: DateTime, title1: string, title2: string)
    requires Valid(later) && 1969 <= later.year <= 2068
    requires Valid(earlier) && 1969 <= earlier.year <= 2068
    requires Before(earlier, later)
    ensures var st := [Entry(1, Meeting(Format(later), title1, "")), Entry(2, Meeting(Format(earlier), title2, ""))];
            && AllParse(st)
            && ListAsWritten(st, 0) == ListPage([Row(1, st[1]), Row(2, st[0])], false, false)
            && List(st, 0) == ListPage([Row(2, st[1]), Row(1, st[0])], false, false)
  {
    ParseFormat(later);
    ParseFormat(earlier);
    DatesListed(Format(later), Format(earlier), later, earlier, title1, title2);
  }

  lemma DatesListed(d1: string, d2: string, later: DateTime, earlier: DateTime, title1: string, title2: string)
    requires Parse(d1) == Some(later) && Parse(d2) == Some(earlier) && Before(earlier, later)
    ensures var st := [Entry(1, Meeting(d1, title1, "")), Entry(2, Meeting(d2, title2, ""))];
            && AllParse(st)
            && ListAsWritten(st, 0) == ListPage([Row(1, st[1]), Row(2, st[0])], false, false)
            && List(st, 0) == ListPage([Row(2, st[1]), Row(1, st[0])], false, false)
  {
    var st := [Entry(1, Meeting(d1, title1, "")), Entry(2, Meeting(d2, title2, ""))];
    assert st[0].meeting.datetime == d1 && st[1].meeting.datetime == d2;
    PairOfDates(st, later, earlier);
  }

  lemma PairOfDates(st: Store, later: DateTime, earlier: DateTime)
    requires |st| == 2 && st[0].id == 1 && st[1].id == 2
    requires Parse(st[0].meeting.datetime) == Some(later) && Parse(st[1].meeting.datetime) == Some(earlier)
    requires Before(earlier, later)
    ensures AllParse(st)
    ensures ListAsWritten(st, 0) == ListPage([Row(1, st[1]), Row(2, st[0])], false, false)
    ensures List(st, 0) == ListPage([Row(2, st[1]), Row(1, st[0])], false, false)
  {
    PairParses(st, later, earlier);
    PairListed(st);
  }

  lemma PairParses(st: Store, later: DateTime, earlier: DateTime)
    requires |st| == 2
    requires Parse(st[0].meeting.datetime) == Some(later) && Parse(st[1].meeting.datetime) == Some(earlier)
    ensures AllParse(st) && When(st[0]) == later && When(st[1]) == earlier
  {
    forall i | 0 <= i < |st| ensures Parse(st[i].meeting.datetime).Some? {
      if i == 0 {
        assert Parse(st[0].meeting.datetime).Some?;
      } else {
        assert i == 1;
      }
    }
  }

  /** Two meetings, the second dated before the first, listed both ways. */
  lemma PairListed(st: Store)
    requires |st| == 2 && st[0].id == 1 && st[1].id == 2
    requires AllParse(st) && Before(When(st[1]), When(st[0]))
    ensures ListAsWritten(st, 0) == ListPage([Row(1, st[1]), Row(2, st[0])], false, false)
    ensures List(st, 0) == ListPage([Row(2, st[1]), Row(1, st[0])], false, false)
  {
    LaterKey(st);
    SortTwo(st, WhenKey);
    FirstPageOfTwo(st[1], st[0]);
  }

  lemma LaterKey(st: Store)
    requires |st| == 2 && AllParse(st) && Before(When(st[1]), When(st[0]))
    ensures WhenKey(st[1]) < WhenKey(st[0])
  {
    SecondsOrder(When(st[1]), When(st[0]));
  }

  lemma FirstPageOfTwo(x: Entry, y: Entry)
    ensures Paginate([x, y], 0, MeetingsPerPage) == Page([x, y], false, false)
    ensures PositionRows([x, y], 1) == [Row(1, x), Row(2, y)]
    ensures IdRows([x, y]) == [Row(x.id, x), Row(y.id, y)]
  {
  }

  /** The numbering problem on two concrete meetings: meeting 1 on 10 July
      2025 and meeting 2 on 5 July.  The list as written shows "1." for the
      5 July meeting, while the number 1 typed at the delete or edit prompt
      looks up the 10 July one. */
  lemma ListNumbersSample(title1: string, title2: string)
    ensures var st := [Entry(1, Meeting("10.07.25 12:00", title1, "")), Entry(2, Meeting("05.07.25 12:00", title2, ""))];
            && AllParse(st)
            && ListAsWritten(st, 0) == ListPage([Row(1, st[1]), Row(2, st[0])], false, false)
            && List(st, 0) == ListPage([Row(2, st[1]), Row(1, st[0])], false, false)
            && Get(st, 1) == Some(st[0].meeting)
  {
    var tenth := DateTime(2025, 7, 10, 12, 0);
    var fifth := DateTime(2025, 7, 5, 12, 0);
    SampleFormatTenth();
    SampleFormatFifth();
    SampleParse(tenth, "10.07.25 12:00");
    SampleParse(fifth, "05.07.25 12:00");
    assert Before(fifth, tenth);
    DatesListed("10.07.25 12:00", "05.07.25 12:00", tenth, fifth, title1, title2);
  }

  lemma SampleFormatTenth()
    ensures Format(DateTime(2025, 7, 10, 12, 0)) == "10.07.25 12:00"
  {
  }

  lemma SampleFormatFifth()
    ensures Format(DateTime(2025, 7, 5, 12, 0)) == "05.07.25 12:00"
  {
  }

  lemma SampleParse(dt: DateTime, text: string)
    requires Valid(dt) && 1969 <= dt.year <= 2068 && Format(dt) == text
    ensures Parse(text) == Some(dt)
  {
    ParseFormat(dt);
  }
}
