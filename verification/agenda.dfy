/** The `agendas` dictionary: for each meeting id, the list of agenda items
    in list order.  Items get the next free id and the next `order` on
    creation; `normalize_orders` renumbers the orders 1..N after a removal;
    the view sorts by `order` and shows six items a page. */
module Agenda {
  import opened Base
  import opened Text
  import opened Sorting
  import opened Pagination

  datatype Item = Item(
    id: int,
    order: int,
    title: string,
    desc: string,
    kind: string,
    assignee: Option<string>,
    done: bool,
    createdBy: int,
    createdAt: string)

  /** `agendas: dict[int, list[dict]]`. */
  type Agendas = map<int, seq<Item>>

  /** `per_page` of `build_agenda_text_and_kb`. */
  const ItemsPerPage: nat := 6

  /** `agendas.get(mid, [])`. */
  function ItemsOf(ag: Agendas, mid: int): seq<Item> {
    if mid in ag then ag[mid] else []
  }

  function ItemIds(items: seq<Item>): set<int> {
    set i | 0 <= i < |items| :: items[i].id
  }

  predicate DistinctItemIds(items: seq<Item>) {
    forall i, j :: 0 <= i < j < |items| ==> items[i].id != items[j].id
  }

  /** The shape every list keeps: the orders are 1..N in list order and the
      ids are distinct. */
  predicate WellFormed(items: seq<Item>) {
    DistinctItemIds(items) && forall i :: 0 <= i < |items| ==> items[i].order == i + 1
  }

  /** `next_agenda_item_id`: one more than the largest id in the list (1 for
      an empty list).  It is larger than every id present, but once the item
      with the largest id is removed that id can be handed out again. */
  function NextItemId(items: seq<Item>): (r: int)
    ensures forall i :: 0 <= i < |items| ==> items[i].id < r
    ensures items == [] ==> r == 1
    ensures items != [] ==> r - 1 in ItemIds(items)
  {
    if items == [] then 1
    else if |items| == 1 then items[0].id + 1
    else
      var r := NextItemId(items[1..]);
      assert r - 1 in ItemIds(items) by {
        var i :| 0 <= i < |items[1..]| && items[1..][i].id == r - 1;
        assert items[i + 1].id == r - 1;
      }
      if items[0].id >= r then items[0].id + 1 else r
  }

  /** `find_agenda_item`: the first item with the id, if any. */
  function FindItem(items: seq<Item>, id: int): (r: Option<nat>)
    ensures r.Some? ==> r.value < |items| && items[r.value].id == id
    ensures r.Some? ==> forall j :: 0 <= j < r.value ==> items[j].id != id
    ensures r.None? <==> id !in ItemIds(items)
  {
    if items == [] then None
    else if items[0].id == id then Some(0)
    else
      var r := FindItem(items[1..], id);
      assert ItemIds(items) == {items[0].id} + ItemIds(items[1..]) by {
        forall k | k in ItemIds(items) ensures k in {items[0].id} + ItemIds(items[1..]) {
          var i :| 0 <= i < |items| && items[i].id == k;
          if i > 0 { assert items[1..][i - 1].id == k; }
        }
      }
      if r.None? then None else Some(r.value + 1)
  }

  /** With distinct ids, `FindItem` finds the one position holding the id. */
  lemma FindItemAt(items: seq<Item>, k: nat)
    requires DistinctItemIds(items) && k < |items|
    ensures FindItem(items, items[k].id) == Some(k)
  {
    var r := FindItem(items, items[k].id);
    assert items[k].id in ItemIds(items);
  }

  /** The new-item code of `agenda_set_type` and `agenda_type2_text_handler`:
      the item gets the next id, order "count + 1", no assignee, not done,
      and goes to the end of the meeting's list (which is created when
      missing); no other meeting's list changes. */
  function AddItem(ag: Agendas, mid: int, title: string, desc: string, kind: string, author: int, stamp: string): (r: Agendas)
    ensures mid in r && |r[mid]| == |ItemsOf(ag, mid)| + 1
    ensures r[mid][..|ItemsOf(ag, mid)|] == ItemsOf(ag, mid)
    ensures var it := r[mid][|ItemsOf(ag, mid)|];
            && (forall i :: 0 <= i < |ItemsOf(ag, mid)| ==> ItemsOf(ag, mid)[i].id < it.id)
            && it.order == |ItemsOf(ag, mid)| + 1
            && it == Item(it.id, it.order, title, desc, kind, None, false, author, stamp)
    ensures forall m :: m != mid ==> (m in r <==> m in ag) && (m in r ==> r[m] == ag[m])
  {
    var items := ItemsOf(ag, mid);
    ag[mid := items + [Item(NextItemId(items), |items| + 1, title, desc, kind, None, false, author, stamp)]]
  }

  lemma AddItemKeepsWellFormed(ag: Agendas, mid: int, title: string, desc: string, kind: string, author: int, stamp: string)
    requires WellFormed(ItemsOf(ag, mid))
    ensures WellFormed(AddItem(ag, mid, title, desc, kind, author, stamp)[mid])
  {
    var r := AddItem(ag, mid, title, desc, kind, author, stamp)[mid];
    var n := |ItemsOf(ag, mid)|;
    forall i | 0 <= i < |r| ensures r[i].order == i + 1 {
      if i < n { assert r[i] == r[..n][i]; }
    }
    forall i, j | 0 <= i < j < |r| ensures r[i].id != r[j].id {
      assert r[i] == r[..n][i];
      if j < n { assert r[j] == r[..n][j]; }
    }
  }

  // ---------------------------------------------------------------------
  // normalize_orders
  // ---------------------------------------------------------------------

  /** The sort key `lambda x: x.get("order", 0)`. */
  function OrderKey(it: Item): int {
    it.order
  }

  /** Gives the items of a sorted list the orders 1, 2, ... in turn. */
  function Renumber(s: seq<Item>): (r: seq<Item>)
    ensures |r| == |s|
    ensures forall i :: 0 <= i < |s| ==> r[i] == s[i].(order := i + 1)
  {
    seq(|s|, i requires 0 <= i < |s| => s[i].(order := i + 1))
  }

  /** `normalize_orders`: a stable sort by `order`, then orders 1..N in
      the new list order. */
  function Normalize(items: seq<Item>): (r: seq<Item>)
    ensures |r| == |items|
    ensures forall i :: 0 <= i < |r| ==> r[i].order == i + 1
  {
    Renumber(Sort(items, OrderKey))
  }

  /** What normalizing keeps: with distinct ids, every item is still there
      once with its id and every other field unchanged, and the items
      follow their previous `order`. */
  lemma NormalizeKeepsItems(items: seq<Item>)
    requires DistinctItemIds(items)
    ensures var r := Normalize(items);
            && (forall i :: 0 <= i < |r| ==>
                  FindItem(items, r[i].id).Some?
                  && r[i] == items[FindItem(items, r[i].id).value].(order := i + 1))
            && (forall k :: 0 <= k < |items| ==> FindItem(r, items[k].id).Some?)
            && (forall i, j :: 0 <= i < j < |r| ==>
                  items[FindItem(items, r[i].id).value].order <= items[FindItem(items, r[j].id).value].order)
  {
    var s := Sort(items, OrderKey);
    var r := Normalize(items);
    forall i | 0 <= i < |r|
      ensures FindItem(items, r[i].id).Some? && items[FindItem(items, r[i].id).value] == s[i]
    {
      var k := PositionOf(s, items, i);
      FindItemAt(items, k);
    }
    forall k | 0 <= k < |items| ensures FindItem(r, items[k].id).Some? {
      var j := PositionOf(items, s, k);
      assert r[j].id == items[k].id;
      assert items[k].id in ItemIds(r);
    }
    forall i, j | 0 <= i < j < |r|
      ensures items[FindItem(items, r[i].id).value].order <= items[FindItem(items, r[j].id).value].order
    {
      assert OrderKey(s[i]) <= OrderKey(s[j]);
    }
  }

  /** Where an element of one list sits in a permutation of it. */
  lemma PositionOf(a: seq<Item>, b: seq<Item>, i: nat) returns (k: nat)
    requires i < |a| && multiset(a) == multiset(b)
    ensures k < |b| && b[k] == a[i]
  {
    assert a[i] in multiset(a);
    k :| 0 <= k < |b| && b[k] == a[i];
  }

  lemma IdOfPermuted(a: seq<Item>, b: seq<Item>, i: nat)
    requires i < |a| && multiset(a) == multiset(b)
    ensures a[i].id in ItemIds(b)
  {
    var k := PositionOf(a, b, i);
  }

  /** A list whose orders are already 1..N is left as it is. */
  lemma NormalizeWellFormed(items: seq<Item>)
    requires forall i :: 0 <= i < |items| ==> items[i].order == i + 1
    ensures Normalize(items) == items
  {
    assert SortedBy(items, OrderKey);
    SortOfSorted(items, OrderKey);
  }

  datatype Removed = ItemNotFound | Removed(agendas: Agendas, item: Item)

  /** `cb_agenda_item_del_confirm`: find the item, take it out of the
      list, normalize the orders.  Nothing happens when the item is not
      there, and no other meeting's list changes. */
  function RemoveItem(ag: Agendas, mid: int, id: int): (r: Removed)
    ensures r.ItemNotFound? <==> id !in ItemIds(ItemsOf(ag, mid))
    ensures r.Removed? ==> r.item.id == id && mid in r.agendas
    ensures r.Removed? ==> |r.agendas[mid]| == |ItemsOf(ag, mid)| - 1
    ensures r.Removed? ==> forall i :: 0 <= i < |r.agendas[mid]| ==> r.agendas[mid][i].order == i + 1
    ensures r.Removed? ==> forall m :: m != mid ==> (m in r.agendas <==> m in ag) && (m in ag ==> r.agendas[m] == ag[m])
  {
    var items := ItemsOf(ag, mid);
    match FindItem(items, id)
    case None => ItemNotFound
    case Some(k) => Removed(ag[mid := Normalize(RemoveAt(items, k))], items[k])
  }

  /** On a well-formed list, removing an item moves every later item one
      place up: same item, order one less.  The list stays well formed. */
  lemma RemoveItemShiftsLater(ag: Agendas, mid: int, k: nat)
    requires WellFormed(ItemsOf(ag, mid)) && k < |ItemsOf(ag, mid)|
    ensures var items := ItemsOf(ag, mid);
            var r := RemoveItem(ag, mid, items[k].id);
            && r.Removed?
            && r.item == items[k]
            && (forall i :: 0 <= i < k ==> r.agendas[mid][i] == items[i])
            && (forall i :: k < i < |items| ==> r.agendas[mid][i - 1] == items[i].(order := i))
            && WellFormed(r.agendas[mid])
  {
    var items := ItemsOf(ag, mid);
    FindItemAt(items, k);
    RemoveShiftsLater(items, k);
  }

  lemma RemoveShiftsLater(items: seq<Item>, k: nat)
    requires WellFormed(items) && k < |items|
    ensures var r := Normalize(RemoveAt(items, k));
            && (forall i :: 0 <= i < k ==> r[i] == items[i])
            && (forall i :: k < i < |items| ==> r[i - 1] == items[i].(order := i))
            && WellFormed(r)
  {
    var rest := RemoveAt(items, k);
    RemoveAtStaysSorted(items, k);
    SortOfSorted(rest, OrderKey);
    RenumberAfterRemoval(items, k);
  }

  lemma RenumberAfterRemoval(items: seq<Item>, k: nat)
    requires WellFormed(items) && k < |items|
    ensures var r := Renumber(RemoveAt(items, k));
            && (forall i :: 0 <= i < k ==> r[i] == items[i])
            && (forall i :: k < i < |items| ==> r[i - 1] == items[i].(order := i))
            && WellFormed(r)
  {
    var rest := RemoveAt(items, k);
    var r := Renumber(rest);
    forall i | 0 <= i < k ensures r[i] == items[i] {
      assert r[i] == rest[i].(order := i + 1);
      assert rest[i] == items[i];
    }
    forall i | k < i < |items| ensures r[i - 1] == items[i].(order := i) {
      assert rest[i - 1] == items[i];
    }
    forall a, b | 0 <= a < b < |r| ensures r[a].id != r[b].id {
      var a' := if a < k then a else a + 1;
      var b' := if b < k then b else b + 1;
      assert r[a].id == rest[a].id && r[b].id == rest[b].id;
      assert rest[a] == items[a'] && rest[b] == items[b'];
    }
  }

  lemma RemoveAtStaysSorted(items: seq<Item>, k: nat)
    requires WellFormed(items) && k < |items|
    ensures SortedBy(RemoveAt(items, k), OrderKey)
  {
    var rest := RemoveAt(items, k);
    forall a, b | 0 <= a < b < |rest| ensures OrderKey(rest[a]) <= OrderKey(rest[b]) {
      var a' := if a < k then a else a + 1;
      var b' := if b < k then b else b + 1;
      assert rest[a] == items[a'] && rest[b] == items[b'];
    }
  }

  // ---------------------------------------------------------------------
  // Choosing an item to delete
  // ---------------------------------------------------------------------

  datatype Selection = NoAgenda | BadNumber | Selected(mid: int, id: int)

  /** `agenda_delete_item`: the number typed is a position in the list
      sorted by `order`, 1-based; out of range is refused. */
  function SelectForDeletion(ag: Agendas, mid: Option<int>, num: int): (r: Selection)
    ensures r.NoAgenda? <==> mid.None? || mid.value !in ag
    ensures r.BadNumber? <==> mid.Some? && mid.value in ag && (num < 1 || num > |ag[mid.value]|)
    ensures r.Selected? ==> r.mid == mid.value && r.id in ItemIds(ag[r.mid])
  {
    if mid.None? || mid.value !in ag then NoAgenda
    else
      var items := Sort(ag[mid.value], OrderKey);
      if num < 1 || num > |items| then BadNumber
      else
        var it := items[num - 1];
        IdOfPermuted(items, ag[mid.value], num - 1);
        Selected(mid.value, it.id)
  }

  /** On a well-formed list the number typed is the item's `order`, the
      number the deletion prompt shows beside its title. */
  lemma SelectionMatchesShownOrder(ag: Agendas, mid: int, num: int)
    requires mid in ag && WellFormed(ag[mid]) && 1 <= num <= |ag[mid]|
    ensures SelectForDeletion(ag, Some(mid), num) == Selected(mid, ag[mid][num - 1].id)
    ensures ag[mid][num - 1].order == num
  {
    assert SortedBy(ag[mid], OrderKey);
    SortOfSorted(ag[mid], OrderKey);
  }

  // ---------------------------------------------------------------------
  // The agenda view
  // ---------------------------------------------------------------------

  /** The type label of a line: the stored type is trimmed and lower-cased
      and compared with the known spellings. */
  function TypeLabel(raw: string): (tag: string)
    ensures tag in {"", " (обязательный)", " (дополнительный)"}
    ensures Strip(raw) == [] ==> tag == ""
  {
    var rt := Lower(Strip(raw));
    if Strip(raw) == [] then ""
    else if rt in ["required", "обязательный", "обязательно"] then " (обязательный)"
    else if rt in ["optional", "доп", "дополнительный"] then " (дополнительный)"
    else ""
  }

  /** A character `Lower` and `Strip` both leave alone: a lower-case
      Latin or basic Cyrillic letter, or an ASCII digit. */
  predicate IsPlain(c: char) {
    ('a' <= c <= 'z') || ('\U{430}' <= c <= '\U{44F}') || IsDigit(c)
  }

  lemma LowerOfLower(s: string)
    requires forall i :: 0 <= i < |s| ==> IsPlain(s[i])
    ensures Lower(s) == s
  {
  }

  /** A word of plain characters is its own stripped, lower-cased form. */
  lemma PlainWord(s: string)
    requires s != []
    requires forall i :: 0 <= i < |s| ==> IsPlain(s[i])
    ensures Strip(s) == s && Lower(Strip(s)) == s
  {
    assert !IsSpace(s[0]) && !IsSpace(s[|s| - 1]);
    StripUnchanged(s);
    LowerOfLower(s);
  }

  /** The two stored types are among the spellings the view labels. */
  lemma KindLabel(k: string)
    requires k == "обязательный" || k == "доп"
    ensures TypeLabel(k) == (if k == "доп" then " (дополнительный)" else " (обязательный)")
  {
    PlainWord(k);
  }

  /** `typ_human`: the stored type for a type code.  Whatever the code,
      the agenda view shows the stored type with the label of the type the
      code names, so an item never appears unlabelled. */
  function KindName(code: string): (k: string)
    ensures TypeLabel(k) == (if code == "required" then " (обязательный)" else " (дополнительный)")
  {
    var k := if code == "required" then "обязательный" else "доп";
    KindLabel(k);
    k
  }

  datatype Line = Line(order: int, done: bool, title: string, typeTag: string, assignee: Option<string>, desc: string)

  datatype AgendaView =
    | EmptyAgenda
    | AgendaPage(lines: seq<Line>, hasPrev: bool, hasNext: bool)

  function LineOf(it: Item): Line {
    Line(it.order, it.done, it.title, TypeLabel(it.kind), it.assignee, it.desc)
  }

  function Lines(items: seq<Item>): (ls: seq<Line>)
    ensures |ls| == |items|
    ensures forall i :: 0 <= i < |items| ==> ls[i] == LineOf(items[i])
  {
    seq(|items|, i requires 0 <= i < |items| => LineOf(items[i]))
  }

  /** `build_agenda_text_and_kb`: page `page` of the items sorted by
      `order`, cut with `[start:end]`, back offered when `start > 0` and
      forward when `end` is before the end of the list. */
  function View(ag: Agendas, mid: int, page: int): (v: AgendaView)
    ensures v.EmptyAgenda? <==> ItemsOf(ag, mid) == []
    ensures v.AgendaPage? ==>
              var p := Paginate(Sort(ItemsOf(ag, mid), OrderKey), page, ItemsPerPage);
              v == AgendaPage(Lines(p.items), p.hasPrev, p.hasNext)
  {
    var items := ItemsOf(ag, mid);
    if items == [] then EmptyAgenda
    else
      var sorted := Sort(items, OrderKey);
      var start := page * ItemsPerPage;
      var end := start + ItemsPerPage;
      assert (page + 1) * ItemsPerPage == end;
      AgendaPage(Lines(PySlice(sorted, start, end)), start > 0, end < |sorted|)
  }

  /** On a well-formed list, page `page` shows the items in list order from
      position `6 * page`, each line numbered with the item's position. */
  lemma ViewOfWellFormed(ag: Agendas, mid: int, page: nat)
    requires WellFormed(ItemsOf(ag, mid)) && ItemsOf(ag, mid) != []
    ensures var items := ItemsOf(ag, mid);
            var v := View(ag, mid, page);
            && v.AgendaPage?
            && forall i :: 0 <= i < |v.lines| ==>
                 page * ItemsPerPage + i < |items|
                 && v.lines[i] == LineOf(items[page * ItemsPerPage + i])
                 && v.lines[i].order == page * ItemsPerPage + i + 1
  {
    var items := ItemsOf(ag, mid);
    assert SortedBy(items, OrderKey);
    SortOfSorted(items, OrderKey);
    PageLines(items, page);
  }

  lemma PageLines(items: seq<Item>, page: nat)
    requires WellFormed(items)
    ensures var ls := Lines(Paginate(items, page, ItemsPerPage).items);
            forall i :: 0 <= i < |ls| ==>
              page * ItemsPerPage + i < |items|
              && ls[i] == LineOf(items[page * ItemsPerPage + i])
              && ls[i].order == page * ItemsPerPage + i + 1
  {
    PageItems(items, page, ItemsPerPage);
  }

  /** An agenda added for meeting `mid` gets a next id that was free before
      and equals the id of the item just removed: ids are not kept unique
      over time. */
  lemma IdReissuedAfterRemoval(ag: Agendas, mid: int, title: string, author: int, stamp: string)
    requires ItemsOf(ag, mid) == []
    ensures var added := AddItem(ag, mid, title, "", "доп", author, stamp);
            var first := added[mid][0];
            var removed := RemoveItem(added, mid, first.id);
            && removed.Removed?
            && NextItemId(ItemsOf(removed.agendas, mid)) == first.id
  {
    var added: Agendas := AddItem(ag, mid, title, "", "доп", author, stamp);
    assert added[mid][0].id == 1;
    FindItemAt(added[mid], 0);
  }
}
