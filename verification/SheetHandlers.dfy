/** The style-sheet handlers over one project's tables, and the sheet they return. */
module SheetHandlers {
  import opened Options
  import opened StyleSheet
  import opened Words

  datatype Item = Item(id: nat, row: Row, original: Option<Text>)
  datatype Part = Part(ord: int, title: string, items: seq<Item>)
  datatype Counts = Counts(house: nat, accepted: nat, edited: nat, rejected: nat, added: nat)

  function Members(ids: seq<nat>): set<nat> {
    set id | id in ids
  }

  // The rows in the order the page shows them.
  predicate Listing(rows: map<nat, Row>, ids: seq<nat>) {
    && rows.Keys == Members(ids)
    && (forall i, j :: 0 <= i < j < |ids| ==> ids[i] != ids[j])
    && (forall i :: 0 <= i < |ids| ==> ids[i] in rows)
    && (forall i, j :: 0 <= i < j < |ids| ==> InOrder(rows[ids[i]], ids[i], rows[ids[j]], ids[j]))
  }

  predicate InOrder(a: Row, i: nat, b: Row, j: nat) {
    || a.place.sectionOrd < b.place.sectionOrd
    || (a.place.sectionOrd == b.place.sectionOrd && a.place.itemOrd < b.place.itemOrd)
    || (a.place.sectionOrd == b.place.sectionOrd && a.place.itemOrd == b.place.itemOrd && i < j)
  }

  predicate ComesLast(rows: map<nat, Row>, place: Place) {
    forall id :: id in rows && rows[id].place.sectionOrd == place.sectionOrd ==> rows[id].place.itemOrd < place.itemOrd
  }

  function Original(house: seq<HouseRow>, row: Row): Option<Text> {
    if row.house.Some? && row.house.value < |house| && house[row.house.value].text != row.text
    then Some(house[row.house.value].text) else None
  }

  function Items(house: seq<HouseRow>, rows: map<nat, Row>, ids: seq<nat>): (r: seq<Item>)
    requires forall i :: 0 <= i < |ids| ==> ids[i] in rows
    ensures |r| == |ids|
  {
    seq(|ids|, i requires 0 <= i < |ids| => Item(ids[i], rows[ids[i]], Original(house, rows[ids[i]])))
  }

  function Together(parts: seq<Part>): seq<Item> {
    if |parts| == 0 then [] else Together(parts[..|parts| - 1]) + parts[|parts| - 1].items
  }

  function HowMany(items: seq<Item>, status: Status): nat {
    if |items| == 0 then 0 else
      HowMany(items[..|items| - 1], status) + if items[|items| - 1].row.status == status then 1 else 0
  }

  function HowManyHouse(items: seq<Item>): nat {
    if |items| == 0 then 0 else
      HowManyHouse(items[..|items| - 1]) + if items[|items| - 1].row.house.Some? then 1 else 0
  }

  // Parts in strictly rising order, none empty, each holding its own rows under its first row's title.
  predicate Grouped(parts: seq<Part>) {
    && (forall p, q :: 0 <= p < q < |parts| ==> parts[p].ord < parts[q].ord)
    && (forall p :: 0 <= p < |parts| ==> |parts[p].items| > 0 && parts[p].title == parts[p].items[0].row.place.section)
    && (forall p, k :: 0 <= p < |parts| && 0 <= k < |parts[p].items| ==>
      parts[p].items[k].row.place.sectionOrd == parts[p].ord)
  }

  lemma TogetherNew(parts: seq<Part>, part: Part)
    ensures Together(parts + [part]) == Together(parts) + part.items
  {
    assert (parts + [part])[..|parts|] == parts;
  }

  function Longer(part: Part, item: Item): Part {
    part.(items := part.items + [item])
  }

  lemma TogetherLonger(front: seq<Part>, last: Part, item: Item)
    ensures Together(front + [Longer(last, item)]) == Together(front + [last]) + [item]
  {
    TogetherNew(front, last);
    TogetherNew(front, Longer(last, item));
  }

  lemma GroupedNew(parts: seq<Part>, item: Item)
    requires Grouped(parts) && (|parts| > 0 ==> parts[|parts| - 1].ord < item.row.place.sectionOrd)
    ensures Grouped(parts + [Part(item.row.place.sectionOrd, item.row.place.section, [item])])
  {
  }

  lemma GroupedLonger(front: seq<Part>, last: Part, item: Item)
    requires Grouped(front + [last]) && last.ord == item.row.place.sectionOrd
    ensures Grouped(front + [Longer(last, item)])
  {
    var parts, after := front + [last], front + [Longer(last, item)];
    assert parts[|front|] == last && after[|front|] == Longer(last, item);
    assert forall p :: 0 <= p < |front| ==> after[p] == front[p] == parts[p];
  }

  method AddItem(parts0: seq<Part>, item: Item) returns (parts: seq<Part>)
    requires Grouped(parts0)
    requires |parts0| > 0 ==> parts0[|parts0| - 1].ord <= item.row.place.sectionOrd
    ensures Grouped(parts) && Together(parts) == Together(parts0) + [item]
    ensures |parts| > 0 && parts[|parts| - 1].ord == item.row.place.sectionOrd
  {
    parts := parts0;
    var n := |parts|;
    if n == 0 || parts[n - 1].ord != item.row.place.sectionOrd {
      parts := parts + [Part(item.row.place.sectionOrd, item.row.place.section, [])];
      n := n + 1;
    }
    ghost var front, last := parts[..n - 1], parts[n - 1];
    assert parts == front + [last];
    parts := parts[n - 1 := parts[n - 1].(items := parts[n - 1].items + [item])];
    assert parts == front + [Longer(last, item)];
    AddedItem(parts0, front, last, item);
  }

  lemma AddedItem(parts0: seq<Part>, front: seq<Part>, last: Part, item: Item)
    requires Grouped(parts0) && last.ord == item.row.place.sectionOrd
    requires |parts0| > 0 ==> parts0[|parts0| - 1].ord <= item.row.place.sectionOrd
    requires parts0 == front + [last]
      || (front == parts0 && last == Part(item.row.place.sectionOrd, item.row.place.section, [])
          && (|parts0| > 0 ==> parts0[|parts0| - 1].ord < item.row.place.sectionOrd))
    ensures Grouped(front + [Longer(last, item)])
    ensures Together(front + [Longer(last, item)]) == Together(parts0) + [item]
  {
    if parts0 == front + [last] {
      GroupedLonger(front, last, item);
      TogetherLonger(front, last, item);
    } else {
      assert [] + [item] == [item];
      GroupedNew(parts0, item);
      TogetherNew(parts0, Longer(last, item));
    }
  }

  function CountsOf(items: seq<Item>): Counts {
    Counts(HowManyHouse(items), HowMany(items, Accepted), HowMany(items, Edited), HowMany(items, Rejected),
           HowMany(items, Added))
  }

  method CountRow(ghost items: seq<Item>, item: Item, counts0: Counts) returns (counts: Counts)
    requires counts0 == CountsOf(items)
    ensures counts == CountsOf(items + [item])
  {
    assert (items + [item])[..|items|] == items;
    counts := counts0;
    match item.row.status {
      case Rejected => counts := counts.(rejected := counts.rejected + 1);
      case Edited => counts := counts.(edited := counts.edited + 1);
      case Added => counts := counts.(added := counts.added + 1);
      case Accepted => counts := counts.(accepted := counts.accepted + 1);
    }
    if item.row.house.Some? {
      counts := counts.(house := counts.house + 1);
    }
  }

  /** Each row is counted under exactly one status. */
  lemma {:induction false} CountsPartition(items: seq<Item>)
    ensures HowMany(items, Accepted) + HowMany(items, Edited) + HowMany(items, Rejected) + HowMany(items, Added)
            == |items|
  {
    if |items| > 0 {
      CountsPartition(items[..|items| - 1]);
    }
  }

  /** Of the rules in force, the studio's words are shown beside exactly the edited ones. */
  lemma OriginalBesideEdited(house: seq<HouseRow>, es: seq<Event>, id: nat)
    requires id in Run(house, es).rows
    ensures var row := Run(house, es).rows[id];
      && (row.status != Rejected ==> (Original(house, row).Some? <==> row.status == Edited))
      && (Original(house, row).Some? ==>
            row.house.Some? && row.house.value < |house| && Original(house, row).value == house[row.house.value].text)
  {
    RunKeepsInv(house, es);
    assert RowOk(house, Run(house, es).rows[id]);
  }

  datatype Draft = Draft(sectionOrd: Option<int>, section: string, kind: string, text: Text, note: string)

  // A patch as sent: fields left out stay; the status word already lower-cased and trimmed.
  datatype Change = Change(
    status: Option<string>, col1: Option<string>, col2: Option<string>, col3: Option<string>,
    body: Option<string>, note: Option<string>)

  datatype Reply = Done | BadRequest | NotFound

  /** Where a new rule goes: under the title sent, or under the title of some row with the number
      sent, or else under the clients' own section. */
  predicate Titled(rows: map<nat, Row>, d: Draft, ord: int, section: string) {
    if Trim(d.section) != ""
    then section == Trim(d.section) && ord == (if d.sectionOrd.Some? then d.sectionOrd.value else 0)
    else if d.sectionOrd.None? || NoneAt(rows, d.sectionOrd.value)
    then section == ADDED_SECTION && ord == ADDED_SECTION_ORD
    else TitleOfRow(rows, d.sectionOrd.value, ord, section)
  }

  const ADDED_SECTION := "Our additions"
  const ADDED_SECTION_ORD := 90

  predicate NoneAt(rows: map<nat, Row>, ord: int) {
    forall id :: id in rows ==> rows[id].place.sectionOrd != ord
  }

  /** A row without a title counts like no row. */
  predicate TitleOfRow(rows: map<nat, Row>, wanted: int, ord: int, section: string) {
    exists id :: id in rows && rows[id].place.sectionOrd == wanted
      && if rows[id].place.section == "" then section == ADDED_SECTION && ord == ADDED_SECTION_ORD
         else section == rows[id].place.section && ord == wanted
  }

  function Trimmed(t: Text): Text {
    Text(Trim(t.col1), Trim(t.col2), Trim(t.col3), Trim(t.body))
  }

  predicate Acceptable(d: Draft) {
    if Trim(d.kind) == "prose" then Trim(d.text.body) != "" else Trim(d.text.col1) != "" || Trim(d.text.col2) != ""
  }

  function Or(new0: Option<string>, was: string): string {
    if new0.Some? then Trim(new0.value) else was
  }

  function Changed(c: Change, t: Text): Text {
    Text(Or(c.col1, t.col1), Or(c.col2, t.col2), Or(c.col3, t.col3), Or(c.body, t.body))
  }

  predicate KnownStatus(status: Option<string>) {
    status.None? || status.value in ["accepted", "rejected", "edited", "added"]
  }

  function WantOf(status: Option<string>): Want {
    if status.None? then Keep else if status.value == "rejected" then Reject else Accept
  }

  function BookKind(word: string): string {
    if word == "fiction" || word == "nonfiction" then word else "both"
  }

  /** The row after everything was accepted: an own rule counts as added, a house rule as accepted
      exactly when its text is the house text and as edited otherwise. */
  predicate PutBack(house: seq<HouseRow>, before: Row, after: Row) {
    && after.status != Rejected
    && after.house == before.house && after.place == before.place && after.text == before.text
    && after.note == before.note
    && (before.status != Rejected ==> after.status == before.status)
    && (before.status == Rejected && before.house.None? ==> after.status == Added)
    && (before.status == Rejected && before.house.Some? ==>
          if before.house.value < |house| && before.text == house[before.house.value].text
          then after.status == Accepted else after.status == Edited)
  }

  /** The row after a patch: what was sent replaces what was there, column by column; rejected
      exactly when asked to be, or when it was and nothing was asked; in force it counts by its text. */
  predicate Patched(house: seq<HouseRow>, c: Change, before: Row, after: Row) {
    && after.house == before.house && after.place == before.place
    && after.text.col1 == (if c.col1.Some? then Trim(c.col1.value) else before.text.col1)
    && after.text.col2 == (if c.col2.Some? then Trim(c.col2.value) else before.text.col2)
    && after.text.col3 == (if c.col3.Some? then Trim(c.col3.value) else before.text.col3)
    && after.text.body == (if c.body.Some? then Trim(c.body.value) else before.text.body)
    && after.note == (if c.note.Some? then Trim(c.note.value) else before.note)
    && (after.status == Rejected <==>
          c.status == Some("rejected") || (c.status.None? && before.status == Rejected))
    && (after.status != Rejected && before.house.None? ==> after.status == Added)
    && (after.status != Rejected && before.house.Some? ==>
          if before.house.value < |house| && after.text == house[before.house.value].text
          then after.status == Accepted else after.status == Edited)
  }

  lemma PatchIsPatched(house: seq<HouseRow>, c: Change, row: Row)
    requires KnownStatus(c.status)
    ensures Patched(house, c, row, PatchedRow(house, row, WantOf(c.status), Changed(c, row.text), Or(c.note, row.note)))
  {
  }

  lemma EnsureIsCreated(house: seq<HouseRow>, s: State)
    ensures Ensure(house, s).created
  {
    var t := if s.created then s else s.(created := true, kind := "both");
    SeedLeavesKind(house, |house|, t.kind, t);
  }

  class ProjectSheet {
    const house: seq<HouseRow>
    var created: bool
    var kind: string
    var rows: map<nat, Row>
    var nextId: nat

    constructor (house: seq<HouseRow>)
      ensures this.house == house && Now() == Empty()
    {
      this.house := house;
      created, kind, rows, nextId := false, "both", map[], 1;
    }

    ghost function Now(): State
      reads this
    {
      State(created, kind, rows, nextId)
    }

    method SeedKind(k: string)
      modifies this`rows, this`nextId
      ensures Now() == Seed(house, k, old(Now()))
    {
      var s := State(created, kind, rows, nextId);
      for i := 0 to |house|
        invariant State(created, kind, rows, nextId) == SeedTo(house, i, k, s)
      {
        if Applies(house[i], k) && !HasHouse(s.rows, i) {
          rows, nextId := rows[nextId := Fresh(house, i)], nextId + 1;
        }
      }
    }

    method PruneOtherKinds(k: string)
      modifies this`rows
      ensures Now() == Prune(house, k, old(Now()))
    {
      rows := map id | id in rows && !Prunable(house, k, rows[id]) :: rows[id];
    }

    method EnsureSheet() returns (k: string)
      modifies this
      ensures Now() == Ensure(house, old(Now())) && k == kind
      ensures old(Inv(house, Now())) ==>
        && created && kind == (if old(created) then old(kind) else "both")
        && (forall id :: id in old(rows) ==> id in rows && rows[id] == old(rows)[id])
        && (forall id :: id in rows && id !in old(rows) ==>
              Copied(house, rows[id]) && ForKind(house[rows[id].house.value], kind))
        && HasRules(house, kind, rows)
    {
      ghost var was := Now();
      if !created {
        created, kind := true, "both";
      }
      k := kind;
      ghost var s := Now();
      SeedKind(k);
      SeedLeavesKind(house, |house|, k, s);
      if Inv(house, was) { OpeningAdds(house, was); }
    }

    // The chooser at the top of the page.
    method HandlePatchSheet(word: string)
      modifies this
      ensures Now() == Switch(house, BookKind(word), old(Now()))
      ensures old(Inv(house, Now())) ==>
        && created
        && kind == (if word == "fiction" then "fiction" else if word == "nonfiction" then "nonfiction" else "both")
        && (forall id :: id in old(rows) && Worked(old(rows)[id]) ==> id in rows && rows[id] == old(rows)[id])
        && (forall id :: id in rows && (id !in old(rows) || !Worked(old(rows)[id])) ==>
              Copied(house, rows[id]) && ForKind(house[rows[id].house.value], kind))
        && HasRules(house, kind, rows)
    {
      ghost var was := Now();
      var k := EnsureSheet();
      kind := BookKind(word);
      PruneOtherKinds(BookKind(word));
      SeedKind(BookKind(word));
      if Inv(house, was) { SwitchingLeaves(house, BookKind(word), was); }
    }

    /** Every rejected rule of the opened sheet is put back in force by its text, the others are left
        alone, and nothing stays rejected. */
    method HandleAcceptAll()
      modifies this
      ensures Now() == AcceptAll(house, old(Now()))
      ensures created && rows.Keys == Ensure(house, old(Now())).rows.Keys
      ensures forall id :: id in rows ==> PutBack(house, Ensure(house, old(Now())).rows[id], rows[id])
    {
      ghost var was := Now();
      var k := EnsureSheet();
      ghost var open := rows;
      rows := map id | id in rows :: AcceptRow(house, rows[id]);
      EnsureIsCreated(house, was);
    }

    method NextItemOrd(sectionOrd: int) returns (next: int)
      ensures forall id :: id in rows && rows[id].place.sectionOrd == sectionOrd ==> rows[id].place.itemOrd < next
      ensures next == 1 ||
        exists id :: id in rows && rows[id].place.sectionOrd == sectionOrd && rows[id].place.itemOrd == next - 1
      ensures (forall id :: id in rows ==> rows[id].place.sectionOrd != sectionOrd) ==> next == 1
    {
      var todo := rows.Keys;
      var top: Option<int> := None;
      while todo != {}
        invariant todo <= rows.Keys
        invariant forall id :: id in rows && id !in todo && rows[id].place.sectionOrd == sectionOrd ==>
          top.Some? && rows[id].place.itemOrd <= top.value
        invariant top.Some? ==>
          exists id :: id in rows && rows[id].place.sectionOrd == sectionOrd && rows[id].place.itemOrd == top.value
        decreases todo
      {
        var id :| id in todo;
        var p := rows[id].place;
        if p.sectionOrd == sectionOrd && (top.None? || top.value < p.itemOrd) {
          top := Some(p.itemOrd);
        }
        todo := todo - {id};
      }
      next := if top.Some? then top.value + 1 else 1;
    }

    /** A client's own rule comes last in its section; an empty one is refused. */
    method HandleAddItem(d: Draft) returns (reply: Reply, ghost place: Place)
      modifies this
      ensures reply == if Acceptable(d) then Done else BadRequest
      ensures reply == BadRequest ==> Now() == Ensure(house, old(Now()))
      ensures reply == Done ==>
        && Now() == AddRow(house, place, Trimmed(d.text), Trim(d.note), old(Now()))
        && place.kind == (if Trim(d.kind) == "prose" then "prose" else "rule")
        && Titled(Ensure(house, old(Now())).rows, d, place.sectionOrd, place.section)
        && ComesLast(Ensure(house, old(Now())).rows, place)
      // The new rule, and nothing else changed on the opened sheet.
      ensures reply == Done <==>
        if Trim(d.kind) == "prose" then Trim(d.text.body) != "" else Trim(d.text.col1) != "" || Trim(d.text.col2) != ""
      ensures reply == Done ==>
        var open := Ensure(house, old(Now()));
        var text := Text(Trim(d.text.col1), Trim(d.text.col2), Trim(d.text.col3), Trim(d.text.body));
        rows == open.rows[open.nextId := Row(None, place, text, Added, Trim(d.note))]
    {
      var k := EnsureSheet();
      place := Place(0, "", 0, "");
      var rowKind := "rule";
      if Trim(d.kind) == "prose" {
        rowKind := "prose";
      }
      if rowKind == "rule" && Trim(d.text.col1) == "" && Trim(d.text.col2) == "" {
        return BadRequest, place;
      }
      if rowKind == "prose" && Trim(d.text.body) == "" {
        return BadRequest, place;
      }
      var sectionOrd, section := ChooseSection(d);
      var next := NextItemOrd(sectionOrd);
      var at := Place(sectionOrd, section, next, rowKind);
      rows, nextId := rows[nextId := Row(None, at, Trimmed(d.text), Added, Trim(d.note))], nextId + 1;
      return Done, at;
    }

    method ChooseSection(d: Draft) returns (sectionOrd: int, section: string)
      ensures Titled(rows, d, sectionOrd, section)
    {
      sectionOrd, section := 0, Trim(d.section);
      if d.sectionOrd.Some? {
        sectionOrd := d.sectionOrd.value;
        if section == "" && !NoneAt(rows, sectionOrd) {
          var id :| id in rows && rows[id].place.sectionOrd == sectionOrd;
          section := rows[id].place.section;
        }
      }
      if section == "" {
        sectionOrd, section := ADDED_SECTION_ORD, ADDED_SECTION;
      }
    }

    method HandlePatchItem(id: nat, c: Change) returns (reply: Reply)
      modifies this`rows
      ensures reply == if id !in old(rows) then NotFound else if KnownStatus(c.status) then Done else BadRequest
      ensures reply != Done ==> Now() == old(Now())
      ensures reply == Done ==>
        Now() == PatchRow(house, id, WantOf(c.status), Changed(c, old(rows)[id].text), Or(c.note, old(rows)[id].note),
          old(Now()))
      ensures reply == Done ==>
        rows.Keys == old(rows).Keys && Patched(house, c, old(rows)[id], rows[id])
        && forall j :: j in rows && j != id ==> rows[j] == old(rows)[j]
    {
      if id !in rows {
        return NotFound;
      }
      var it := rows[id];
      it := it.(text := Changed(c, it.text), note := Or(c.note, it.note));
      var status := it.status;
      if c.status.Some? {
        var want := c.status.value;
        if want == "rejected" {
          status := Rejected;
        } else if want == "accepted" || want == "edited" || want == "added" {
          status := Accepted;
        } else {
          return BadRequest;
        }
      }
      if status != Rejected {
        if it.house.None? {
          status := Added;
        } else if MatchesHouse(house, it) {
          status := Accepted;
        } else {
          status := Edited;
        }
      }
      PatchIsPatched(house, c, rows[id]);
      rows := rows[id := it.(status := status)];
      return Done;
    }

    /** House rules can be rejected, not deleted. */
    method HandleDeleteItem(id: nat) returns (reply: Reply)
      modifies this`rows
      ensures reply == if id !in old(rows) then NotFound else if old(rows)[id].house.Some? then BadRequest else Done
      ensures Now() == DeleteRow(id, old(Now()))
      ensures rows == if reply == Done then old(rows) - {id} else old(rows)
    {
      if id !in rows {
        return NotFound;
      }
      if rows[id].house.Some? {
        return BadRequest;
      }
      rows := rows - {id};
      return Done;
    }

    method HandleRestoreItem(id: nat) returns (reply: Reply)
      requires Inv(house, Now())
      modifies this`rows
      ensures reply == if id !in old(rows) then NotFound else if old(rows)[id].house.None? then BadRequest else Done
      ensures Now() == RestoreRow(house, id, old(Now()))
      ensures reply == Done ==>
        MatchesHouse(house, rows[id]) && rows[id].status == Accepted && rows[id].note == old(rows)[id].note
      ensures reply == Done ==>
        && rows.Keys == old(rows).Keys && (forall j :: j in rows && j != id ==> rows[j] == old(rows)[j])
        && rows[id].house == old(rows)[id].house && rows[id].place == old(rows)[id].place
        && rows[id].house.value < |house| && rows[id].text == house[rows[id].house.value].text
    {
      if id !in rows {
        return NotFound;
      }
      if rows[id].house.None? {
        return BadRequest;
      }
      assert RowOk(house, rows[id]);
      rows := rows[id := rows[id].(text := house[rows[id].house.value].text, status := Accepted)];
      return Done;
    }

    // One more row of the listing.
    method LoadRow(ids: seq<nat>, i: nat, parts0: seq<Part>, counts0: Counts) returns (parts: seq<Part>, counts: Counts)
      requires Listing(rows, ids) && i < |ids| && Grouped(parts0)
      requires i > 0 ==> |parts0| > 0 && parts0[|parts0| - 1].ord == rows[ids[i - 1]].place.sectionOrd
      requires i == 0 ==> |parts0| == 0
      requires Together(parts0) == Items(house, rows, ids)[..i] && counts0 == CountsOf(Items(house, rows, ids)[..i])
      ensures Together(parts) == Items(house, rows, ids)[..i + 1]
      ensures counts == CountsOf(Items(house, rows, ids)[..i + 1])
      ensures Grouped(parts) && |parts| > 0 && parts[|parts| - 1].ord == rows[ids[i]].place.sectionOrd
    {
      ghost var all := Items(house, rows, ids);
      var row := rows[ids[i]];
      var item := Item(ids[i], row, Original(house, row));
      assert i > 0 ==> InOrder(rows[ids[i - 1]], ids[i - 1], row, ids[i]);
      assert all[..i + 1] == all[..i] + [item];
      counts := CountRow(all[..i], item, counts0);
      parts := AddItem(parts0, item);
    }

    /** The sheet as returned: every row once, in order, under rising sections, counted by status. */
    method Load(ids: seq<nat>) returns (parts: seq<Part>, counts: Counts)
      requires Listing(rows, ids)
      ensures Together(parts) == Items(house, rows, ids) && Grouped(parts)
      ensures counts == CountsOf(Together(parts))
      ensures counts.accepted + counts.edited + counts.rejected + counts.added == |rows|
    {
      parts, counts := [], Counts(0, 0, 0, 0, 0);
      ghost var all := Items(house, rows, ids);
      for i := 0 to |ids|
        invariant Together(parts) == all[..i] && Grouped(parts)
        invariant i > 0 ==> |parts| > 0 && parts[|parts| - 1].ord == rows[ids[i - 1]].place.sectionOrd
        invariant i == 0 ==> |parts| == 0
        invariant counts == CountsOf(all[..i])
      {
        parts, counts := LoadRow(ids, i, parts, counts);
      }
      assert all[..|ids|] == all;
      CountsPartition(all);
      ListingSize(rows, ids);
    }
  }

  lemma {:induction false} SeedLeavesKind(house: seq<HouseRow>, n: nat, k: string, s: State)
    requires n <= |house|
    ensures SeedTo(house, n, k, s).kind == s.kind && SeedTo(house, n, k, s).created == s.created
  {
    if n > 0 {
      SeedLeavesKind(house, n - 1, k, s);
    }
  }

  lemma {:induction false} DistinctSize(ids: seq<nat>)
    requires forall i, j :: 0 <= i < j < |ids| ==> ids[i] != ids[j]
    ensures |Members(ids)| == |ids|
  {
    if |ids| == 0 {
      assert Members(ids) == {};
    } else {
      var n := |ids| - 1;
      DistinctSize(ids[..n]);
      assert Members(ids) == Members(ids[..n]) + {ids[n]};
    }
  }

  lemma ListingSize(rows: map<nat, Row>, ids: seq<nat>)
    requires Listing(rows, ids)
    ensures |ids| == |rows|
  {
    DistinctSize(ids);
    assert rows.Keys == Members(ids);
    assert |rows.Keys| == |rows|;
  }
}
