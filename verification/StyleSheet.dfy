/** A project's copy of the house style sheet, and what every handler keeps of it. */
module StyleSheet {
  import opened Options

  datatype Place = Place(sectionOrd: int, section: string, itemOrd: int, kind: string)
  datatype Text = Text(col1: string, col2: string, col3: string, body: string)

  // A row of the house sheet; its position in the sheet is its id.
  datatype HouseRow = HouseRow(place: Place, text: Text, bookKind: string)

  datatype Status = Accepted | Rejected | Edited | Added
  datatype Row = Row(house: Option<nat>, place: Place, text: Text, status: Status, note: string)

  datatype State = State(created: bool, kind: string, rows: map<nat, Row>, nextId: nat)

  function Empty(): State {
    State(false, "both", map[], 1)
  }

  // ---- Statements ----

  predicate Applies(h: HouseRow, kind: string) {
    h.bookKind == "both" || h.bookKind == kind
  }

  predicate HasHouse(rows: map<nat, Row>, h: nat) {
    exists id :: id in rows && rows[id].house == Some(h)
  }

  function Fresh(house: seq<HouseRow>, h: nat): Row
    requires h < |house|
  {
    Row(Some(h), house[h].place, house[h].text, Accepted, "")
  }

  // The insert over the first n house rows.
  function SeedTo(house: seq<HouseRow>, n: nat, kind: string, s: State): State
    requires n <= |house|
  {
    if n == 0 then s else
      var t := SeedTo(house, n - 1, kind, s);
      if Applies(house[n - 1], kind) && !HasHouse(s.rows, n - 1) then Inserted(t, Fresh(house, n - 1)) else t
  }

  function Inserted(s: State, row: Row): State {
    s.(rows := s.rows[s.nextId := row], nextId := s.nextId + 1)
  }

  function Seed(house: seq<HouseRow>, kind: string, s: State): State {
    SeedTo(house, |house|, kind, s)
  }

  predicate Untouched(row: Row) {
    row.house.Some? && row.status == Accepted && row.note == ""
  }

  predicate Prunable(house: seq<HouseRow>, kind: string, row: Row) {
    Untouched(row) && row.house.value < |house| && !Applies(house[row.house.value], kind)
  }

  function Prune(house: seq<HouseRow>, kind: string, s: State): State {
    s.(rows := map id | id in s.rows && !Prunable(house, kind, s.rows[id]) :: s.rows[id])
  }

  predicate MatchesHouse(house: seq<HouseRow>, row: Row) {
    row.house.Some? && row.house.value < |house| && house[row.house.value].text == row.text
  }

  // The status a row that is in force has by its text.
  function InForce(house: seq<HouseRow>, row: Row): Status {
    if row.house.None? then Added else if MatchesHouse(house, row) then Accepted else Edited
  }

  // ---- Handlers ----

  function Ensure(house: seq<HouseRow>, s: State): State {
    var t := if s.created then s else s.(created := true, kind := "both");
    Seed(house, t.kind, t)
  }

  // The statements of a change of kind, as many as were reached.
  function SwitchTo(house: seq<HouseRow>, kind: string, reached: nat, s: State): State {
    if reached == 0 then s
    else if reached == 1 then Ensure(house, s)
    else if reached == 2 then Ensure(house, s).(kind := kind)
    else if reached == 3 then Prune(house, kind, Ensure(house, s).(kind := kind))
    else Seed(house, kind, Prune(house, kind, Ensure(house, s).(kind := kind)))
  }

  function Switch(house: seq<HouseRow>, kind: string, s: State): State {
    SwitchTo(house, kind, 4, s)
  }

  function AcceptRow(house: seq<HouseRow>, row: Row): Row {
    if row.status == Rejected then row.(status := InForce(house, row)) else row
  }

  function AcceptAll(house: seq<HouseRow>, s: State): State {
    var t := Ensure(house, s);
    t.(rows := map id | id in t.rows :: AcceptRow(house, t.rows[id]))
  }

  function AddRow(house: seq<HouseRow>, place: Place, text: Text, note: string, s: State): State {
    Inserted(Ensure(house, s), Row(None, place, text, Added, note))
  }

  // What a patch asks of the status: nothing, out of force, or in force.
  datatype Want = Keep | Reject | Accept

  function PatchedRow(house: seq<HouseRow>, row: Row, want: Want, text: Text, note: string): Row {
    var out := want == Reject || (want == Keep && row.status == Rejected);
    var r := row.(text := text, note := note);
    r.(status := if out then Rejected else InForce(house, r))
  }

  function PatchRow(house: seq<HouseRow>, id: nat, want: Want, text: Text, note: string, s: State): State {
    if id !in s.rows then s else s.(rows := s.rows[id := PatchedRow(house, s.rows[id], want, text, note)])
  }

  function DeleteRow(id: nat, s: State): State {
    if id !in s.rows || s.rows[id].house.Some? then s else s.(rows := s.rows - {id})
  }

  function RestoreRow(house: seq<HouseRow>, id: nat, s: State): State {
    if id !in s.rows || s.rows[id].house.None? || s.rows[id].house.value >= |house| then s
    else s.(rows := s.rows[id := s.rows[id].(text := house[s.rows[id].house.value].text, status := Accepted)])
  }

  datatype Event =
    | Open
    | Kind(kind: string, reached: nat)
    | All
    | Add(place: Place, text: Text, note: string)
    | Patch(id: nat, want: Want, text: Text, note: string)
    | Delete(id: nat)
    | Restore(id: nat)

  function Step(house: seq<HouseRow>, s: State, e: Event): State {
    match e
    case Open => Ensure(house, s)
    case Kind(kind, reached) => SwitchTo(house, kind, reached, s)
    case All => AcceptAll(house, s)
    case Add(place, text, note) => AddRow(house, place, text, note, s)
    case Patch(id, want, text, note) => PatchRow(house, id, want, text, note, s)
    case Delete(id) => DeleteRow(id, s)
    case Restore(id) => RestoreRow(house, id, s)
  }

  function Run(house: seq<HouseRow>, es: seq<Event>): State {
    if |es| == 0 then Empty() else Step(house, Run(house, es[..|es| - 1]), es[|es| - 1])
  }

  // ---- The invariant ----

  // A house row stands where the house put it and says what its status tells; an own row is added or rejected.
  predicate RowOk(house: seq<HouseRow>, row: Row) {
    match row.house
    case None => row.status == Added || row.status == Rejected
    case Some(h) =>
      && h < |house| && row.place == house[h].place && row.status != Added
      && (row.status == Accepted ==> row.text == house[h].text)
      && (row.status == Edited ==> row.text != house[h].text)
  }

  ghost predicate Inv(house: seq<HouseRow>, s: State) {
    && (forall id :: id in s.rows ==> id < s.nextId && RowOk(house, s.rows[id]))
    && (forall i, j :: i in s.rows && j in s.rows && s.rows[i].house.Some? && s.rows[i].house == s.rows[j].house ==>
      i == j)
  }

  // The first n house rows were looked at, and only missing ones put in.
  ghost predicate SeededBy(house: seq<HouseRow>, n: nat, kind: string, s: State, t: State)
    requires n <= |house|
  {
    && t == s.(rows := t.rows, nextId := t.nextId) && s.nextId <= t.nextId
    && (forall id :: id in s.rows ==> id in t.rows && t.rows[id] == s.rows[id])
    && (forall id :: id in t.rows && id !in s.rows ==> SeedRow(house, n, kind, s, t.rows[id]))
    && (forall h :: 0 <= h < n && Applies(house[h], kind) ==> HasHouse(t.rows, h))
  }

  ghost predicate SeedRow(house: seq<HouseRow>, n: nat, kind: string, s: State, row: Row)
    requires n <= |house|
  {
    && row.house.Some? && row.house.value < n && row == Fresh(house, row.house.value)
    && !HasHouse(s.rows, row.house.value) && Applies(house[row.house.value], kind)
  }

  lemma InsertKeepsInv(house: seq<HouseRow>, s: State, h: nat)
    requires Inv(house, s) && h < |house|
    requires forall id :: id in s.rows ==> s.rows[id].house != Some(h)
    ensures Inv(house, Inserted(s, Fresh(house, h)))
  {
  }

  lemma SeedOneMore(house: seq<HouseRow>, n: nat, kind: string, s: State, t: State)
    requires 0 < n <= |house| && Inv(house, s) && Inv(house, t) && SeededBy(house, n - 1, kind, s, t)
    requires Applies(house[n - 1], kind) && !HasHouse(s.rows, n - 1)
    ensures var u := Inserted(t, Fresh(house, n - 1)); Inv(house, u) && SeededBy(house, n, kind, s, u)
  {
    var u := Inserted(t, Fresh(house, n - 1));
    forall id | id in t.rows ensures t.rows[id].house != Some(n - 1) {
      if id in s.rows {
        assert s.rows[id].house != Some(n - 1);
      } else {
        assert SeedRow(house, n - 1, kind, s, t.rows[id]);
      }
    }
    InsertKeepsInv(house, t, n - 1);
    assert t.nextId !in t.rows;
    forall h | 0 <= h < n && Applies(house[h], kind) ensures HasHouse(u.rows, h) {
      if h == n - 1 {
        assert u.rows[t.nextId].house == Some(h);
      } else {
        var id :| id in t.rows && t.rows[id].house == Some(h);
        assert u.rows[id].house == Some(h);
      }
    }
    forall id | id in u.rows && id !in s.rows ensures SeedRow(house, n, kind, s, u.rows[id]) {
      if id != t.nextId {
        assert SeedRow(house, n - 1, kind, s, t.rows[id]);
      }
    }
  }

  lemma SeedNoMore(house: seq<HouseRow>, n: nat, kind: string, s: State, t: State)
    requires 0 < n <= |house| && Inv(house, s) && SeededBy(house, n - 1, kind, s, t)
    requires !Applies(house[n - 1], kind) || HasHouse(s.rows, n - 1)
    ensures SeededBy(house, n, kind, s, t)
  {
    if HasHouse(s.rows, n - 1) {
      var id :| id in s.rows && s.rows[id].house == Some(n - 1);
      assert t.rows[id].house == Some(n - 1);
    }
    forall id | id in t.rows && id !in s.rows ensures SeedRow(house, n, kind, s, t.rows[id]) {
      assert SeedRow(house, n - 1, kind, s, t.rows[id]);
    }
  }

  lemma {:induction false} SeedToAdds(house: seq<HouseRow>, n: nat, kind: string, s: State)
    requires Inv(house, s) && n <= |house|
    ensures Inv(house, SeedTo(house, n, kind, s)) && SeededBy(house, n, kind, s, SeedTo(house, n, kind, s))
  {
    if n > 0 {
      SeedToAdds(house, n - 1, kind, s);
      var t := SeedTo(house, n - 1, kind, s);
      if Applies(house[n - 1], kind) && !HasHouse(s.rows, n - 1) {
        SeedOneMore(house, n, kind, s, t);
      } else {
        SeedNoMore(house, n, kind, s, t);
      }
    }
  }

  lemma PruneKeepsInv(house: seq<HouseRow>, kind: string, s: State)
    requires Inv(house, s)
    ensures Inv(house, Prune(house, kind, s))
  {
  }

  lemma EnsureKeepsInv(house: seq<HouseRow>, s: State)
    requires Inv(house, s)
    ensures Inv(house, Ensure(house, s))
  {
    var t := if s.created then s else s.(created := true, kind := "both");
    SeedToAdds(house, |house|, t.kind, t);
  }

  lemma SwitchKeepsInv(house: seq<HouseRow>, kind: string, reached: nat, s: State)
    requires Inv(house, s)
    ensures Inv(house, SwitchTo(house, kind, reached, s))
  {
    EnsureKeepsInv(house, s);
    var t := Ensure(house, s).(kind := kind);
    PruneKeepsInv(house, kind, t);
    SeedToAdds(house, |house|, kind, Prune(house, kind, t));
  }

  lemma AcceptKeepsInv(house: seq<HouseRow>, s: State)
    requires Inv(house, s)
    ensures Inv(house, AcceptAll(house, s))
  {
    EnsureKeepsInv(house, s);
  }

  lemma AddKeepsInv(house: seq<HouseRow>, place: Place, text: Text, note: string, s: State)
    requires Inv(house, s)
    ensures Inv(house, AddRow(house, place, text, note, s))
  {
    EnsureKeepsInv(house, s);
  }

  lemma PatchKeepsInv(house: seq<HouseRow>, id: nat, want: Want, text: Text, note: string, s: State)
    requires Inv(house, s)
    ensures Inv(house, PatchRow(house, id, want, text, note, s))
  {
  }

  lemma StepKeepsInv(house: seq<HouseRow>, s: State, e: Event)
    requires Inv(house, s)
    ensures Inv(house, Step(house, s, e))
  {
    match e
    case Kind(kind, reached) => SwitchKeepsInv(house, kind, reached, s);
    case Open => EnsureKeepsInv(house, s);
    case All => AcceptKeepsInv(house, s);
    case Add(place, text, note) => AddKeepsInv(house, place, text, note, s);
    case Patch(id, want, text, note) => PatchKeepsInv(house, id, want, text, note, s);
    case _ =>
  }

  /** After any sequence of handlers every row's status says what its text is. */
  lemma {:induction false} RunKeepsInv(house: seq<HouseRow>, es: seq<Event>)
    ensures Inv(house, Run(house, es))
  {
    if |es| > 0 {
      RunKeepsInv(house, es[..|es| - 1]);
      StepKeepsInv(house, Run(house, es[..|es| - 1]), es[|es| - 1]);
    }
  }

  // ---- Changing the kind ----

  function Touched(rows: map<nat, Row>): map<nat, Row> {
    map id | id in rows && !Untouched(rows[id]) :: rows[id]
  }

  // The house rows of a sheet, ids aside.
  function HouseRows(rows: map<nat, Row>): set<Row> {
    set id | id in rows && rows[id].house.Some? :: rows[id]
  }

  // Every rule for this kind, fresh unless the client touched it, and every touched rule.
  function Expected(house: seq<HouseRow>, kind: string, touched: map<nat, Row>): set<Row> {
    HouseRows(touched) +
    set h | 0 <= h < |house| && Applies(house[h], kind) && !HasHouse(touched, h) :: Fresh(house, h)
  }

  lemma SeedKeepsTouched(house: seq<HouseRow>, kind: string, s: State)
    requires Inv(house, s)
    ensures Touched(Seed(house, kind, s).rows) == Touched(s.rows)
  {
    SeedToAdds(house, |house|, kind, s);
  }

  lemma PruneKeepsTouched(house: seq<HouseRow>, kind: string, s: State)
    ensures Touched(Prune(house, kind, s).rows) == Touched(s.rows)
  {
  }

  lemma EnsureKeepsTouched(house: seq<HouseRow>, s: State)
    requires Inv(house, s)
    ensures Touched(Ensure(house, s).rows) == Touched(s.rows)
  {
    var t := if s.created then s else s.(created := true, kind := "both");
    assert Inv(house, t);
    SeedKeepsTouched(house, t.kind, t);
  }

  /** Nothing the client touched is lost by a change of kind, wherever it stops. */
  lemma SwitchKeepsTouched(house: seq<HouseRow>, kind: string, reached: nat, s: State)
    requires Inv(house, s)
    ensures Touched(SwitchTo(house, kind, reached, s).rows) == Touched(s.rows)
  {
    EnsureKeepsInv(house, s);
    EnsureKeepsTouched(house, s);
    var t := Ensure(house, s).(kind := kind);
    PruneKeepsInv(house, kind, t);
    PruneKeepsTouched(house, kind, t);
    SeedKeepsTouched(house, kind, Prune(house, kind, t));
  }

  // Pruning then seeding leaves exactly the rules of the kind and the touched ones.
  lemma PruneThenSeed(house: seq<HouseRow>, kind: string, s: State)
    requires Inv(house, s)
    ensures HouseRows(Seed(house, kind, Prune(house, kind, s)).rows) == Expected(house, kind, Touched(s.rows))
  {
    var p := Prune(house, kind, s);
    var t := Seed(house, kind, p);
    var touched := Touched(s.rows);
    PruneKeepsInv(house, kind, s);
    SeedToAdds(house, |house|, kind, p);
    forall r | r in HouseRows(t.rows) ensures r in Expected(house, kind, touched) {
      var id :| id in t.rows && t.rows[id] == r && r.house.Some?;
      KeptIsExpected(house, kind, s, t, id);
    }
    forall r | r in Expected(house, kind, touched) ensures r in HouseRows(t.rows) {
      if r in HouseRows(touched) {
        var id :| id in touched && touched[id] == r;
        assert id in p.rows && t.rows[id] == r;
      } else {
        var h :| 0 <= h < |house| && Applies(house[h], kind) && !HasHouse(touched, h) && r == Fresh(house, h);
        var id :| id in t.rows && t.rows[id].house == Some(h);
        assert id in p.rows ==> id !in touched && Untouched(t.rows[id]);
        assert t.rows[id] == Fresh(house, h);
      }
    }
  }

  lemma KeptIsExpected(house: seq<HouseRow>, kind: string, s: State, t: State, id: nat)
    requires Inv(house, s) && t == Seed(house, kind, Prune(house, kind, s))
    requires id in t.rows && t.rows[id].house.Some?
    ensures t.rows[id] in Expected(house, kind, Touched(s.rows))
  {
    var p, touched := Prune(house, kind, s), Touched(s.rows);
    var r, h := t.rows[id], t.rows[id].house.value;
    PruneKeepsInv(house, kind, s);
    SeedToAdds(house, |house|, kind, p);
    if id in touched {
      assert id in p.rows && p.rows[id] == s.rows[id];
      assert touched[id] == r;
    } else {
      assert r == Fresh(house, h) && Applies(house[h], kind);
      forall j | j in touched ensures touched[j].house != Some(h) {
        assert j in p.rows && t.rows[j] == touched[j] && j != id;
      }
    }
  }

  lemma SwitchedRows(house: seq<HouseRow>, kind: string, s: State)
    requires Inv(house, s)
    ensures HouseRows(Switch(house, kind, s).rows) == Expected(house, kind, Touched(s.rows))
  {
    EnsureKeepsInv(house, s);
    EnsureKeepsTouched(house, s);
    PruneThenSeed(house, kind, Ensure(house, s).(kind := kind));
  }

  /**
   * Switching to one kind, completely or not, and then to another gives the same rules as switching
   * to the other directly, and the same touched rows under the same ids.
   */
  lemma SwitchTwice(house: seq<HouseRow>, k1: string, reached: nat, k2: string, s: State)
    requires Inv(house, s)
    ensures HouseRows(Switch(house, k2, SwitchTo(house, k1, reached, s)).rows) == HouseRows(Switch(house, k2, s).rows)
    ensures Touched(Switch(house, k2, SwitchTo(house, k1, reached, s)).rows) == Touched(Switch(house, k2, s).rows)
  {
    var t := SwitchTo(house, k1, reached, s);
    SwitchKeepsInv(house, k1, reached, s);
    SwitchKeepsTouched(house, k1, reached, s);
    SwitchedRows(house, k2, t);
    SwitchedRows(house, k2, s);
    SwitchKeepsTouched(house, k2, 4, t);
    SwitchKeepsTouched(house, k2, 4, s);
  }

  /** Opening the sheet again after a switch changes nothing. */
  lemma SwitchIsSettled(house: seq<HouseRow>, kind: string, s: State)
    requires Inv(house, s)
    ensures Ensure(house, Switch(house, kind, s)) == Switch(house, kind, s)
  {
    EnsureKeepsInv(house, s);
    var p := Prune(house, kind, Ensure(house, s).(kind := kind));
    PruneKeepsInv(house, kind, Ensure(house, s).(kind := kind));
    SeedToAdds(house, |house|, kind, p);
    EnsureCreates(house, s);
    NothingToSeed(house, |house|, kind, Switch(house, kind, s));
  }

  lemma EnsureCreates(house: seq<HouseRow>, s: State)
    requires Inv(house, s)
    ensures Ensure(house, s).created
  {
    var t := if s.created then s else s.(created := true, kind := "both");
    SeedToAdds(house, |house|, t.kind, t);
  }

  lemma {:induction false} NothingToSeed(house: seq<HouseRow>, n: nat, kind: string, s: State)
    requires n <= |house| && forall h :: 0 <= h < n && Applies(house[h], kind) ==> HasHouse(s.rows, h)
    ensures SeedTo(house, n, kind, s) == s
  {
    if n > 0 {
      NothingToSeed(house, n - 1, kind, s);
    }
  }

  // ---- Why the invariant is needed ----

  /**
   * A row whose text was changed while it stayed accepted would lose the change: switching away
   * and back puts the house text in its place. No handler leaves such a row.
   */
  lemma LostWithoutInv(h: HouseRow, mine: Text)
    requires h.bookKind == "fiction" && mine != h.text
    ensures var house := [h];
      var s := State(true, "fiction", map[1 := Fresh(house, 0).(text := mine)], 2);
      && !Inv(house, s)
      && HouseRows(Switch(house, "fiction", Switch(house, "nonfiction", s)).rows) == {Fresh(house, 0)}
      && HouseRows(Switch(house, "fiction", s).rows) == {Fresh(house, 0).(text := mine)}
  {
    var house := [h];
    var row := Fresh(house, 0).(text := mine);
    var s := State(true, "fiction", map[1 := row], 2);
    assert !RowOk(house, s.rows[1]);
    var there := Switch(house, "nonfiction", s);
    assert HasHouse(s.rows, 0);
    OneRuleSeed(house, "fiction", s);
    assert Ensure(house, s) == s;
    OneRuleSeed(house, "nonfiction", State(true, "nonfiction", map[], 2));
    assert Prune(house, "nonfiction", s.(kind := "nonfiction")).rows == map[];
    assert there == State(true, "nonfiction", map[], 2);
    OneRuleSeed(house, "nonfiction", there);
    assert Ensure(house, there) == there;
    var empty := there.(kind := "fiction");
    assert Prune(house, "fiction", empty) == empty;
    OneRuleSeed(house, "fiction", empty);
    assert Switch(house, "fiction", there).rows == map[2 := Fresh(house, 0)];
    assert Prune(house, "fiction", s) == s;
    assert Switch(house, "fiction", s) == s;
    assert s.rows[1] in HouseRows(s.rows);
    assert Switch(house, "fiction", there).rows[2] in HouseRows(Switch(house, "fiction", there).rows);
  }

  lemma OneRuleSeed(house: seq<HouseRow>, kind: string, s: State)
    requires |house| == 1
    ensures Seed(house, kind, s) ==
            if Applies(house[0], kind) && !HasHouse(s.rows, 0) then Inserted(s, Fresh(house, 0)) else s
  {
    assert SeedTo(house, 0, kind, s) == s;
  }

  // ---- What the handlers mean for the rows ----

  // The client changed it, rejected it, annotated it or made it.
  predicate Worked(row: Row) {
    row.house.None? || row.status != Accepted || row.note != ""
  }

  predicate ForKind(h: HouseRow, kind: string) {
    h.bookKind == "both" || h.bookKind == kind
  }

  // A copy of a house rule as the house has it.
  predicate Copied(house: seq<HouseRow>, row: Row) {
    row.house.Some? && row.house.value < |house| && row.place == house[row.house.value].place
    && row.text == house[row.house.value].text && row.status == Accepted && row.note == ""
  }

  // Every rule of the kind is on the sheet.
  ghost predicate HasRules(house: seq<HouseRow>, kind: string, rows: map<nat, Row>) {
    forall h :: 0 <= h < |house| && ForKind(house[h], kind) ==> exists id :: id in rows && rows[id].house == Some(h)
  }

  /** Opening a sheet leaves every row there was and adds copies of the missing rules of its kind;
      a new sheet is of kind both. */
  lemma OpeningAdds(house: seq<HouseRow>, s: State)
    requires Inv(house, s)
    ensures var t := Ensure(house, s);
      && t.created && t.kind == (if s.created then s.kind else "both")
      && (forall id :: id in s.rows ==> id in t.rows && t.rows[id] == s.rows[id])
      && (forall id :: id in t.rows && id !in s.rows ==>
            Copied(house, t.rows[id]) && ForKind(house[t.rows[id].house.value], t.kind))
      && HasRules(house, t.kind, t.rows)
  {
    var u := if s.created then s else s.(created := true, kind := "both");
    SeedToAdds(house, |house|, u.kind, u);
    var t := Ensure(house, s);
    forall id | id in t.rows && id !in s.rows
      ensures Copied(house, t.rows[id]) && ForKind(house[t.rows[id].house.value], t.kind)
    {
      assert SeedRow(house, |house|, u.kind, u, t.rows[id]);
    }
    forall h | 0 <= h < |house| && ForKind(house[h], t.kind)
      ensures exists id :: id in t.rows && t.rows[id].house == Some(h)
    {
      assert HasHouse(t.rows, h);
    }
  }

  // The rows after pruning and seeding, beside those before.
  ghost predicate Replaced(house: seq<HouseRow>, kind: string, before: map<nat, Row>, after: map<nat, Row>) {
    && (forall id :: id in before && Worked(before[id]) ==> id in after && after[id] == before[id])
    && (forall id :: id in after && (id !in before || !Worked(before[id])) ==>
          Copied(house, after[id]) && ForKind(house[after[id].house.value], kind))
  }

  lemma PruneThenSeedReplaces(house: seq<HouseRow>, kind: string, s: State)
    requires Inv(house, s)
    ensures Replaced(house, kind, s.rows, Seed(house, kind, Prune(house, kind, s)).rows)
    ensures HasRules(house, kind, Seed(house, kind, Prune(house, kind, s)).rows)
  {
    var p := Prune(house, kind, s);
    var t := Seed(house, kind, p);
    PruneKeepsInv(house, kind, s);
    SeedToAdds(house, |house|, kind, p);
    forall id | id in t.rows && (id !in s.rows || !Worked(s.rows[id]))
      ensures Copied(house, t.rows[id]) && ForKind(house[t.rows[id].house.value], kind)
    {
      if id in p.rows {
        assert t.rows[id] == s.rows[id] && !Prunable(house, kind, s.rows[id]) && RowOk(house, s.rows[id]);
      } else {
        assert SeedRow(house, |house|, kind, p, t.rows[id]);
      }
    }
    forall h | 0 <= h < |house| && ForKind(house[h], kind)
      ensures exists id :: id in t.rows && t.rows[id].house == Some(h)
    {
      assert HasHouse(t.rows, h);
    }
  }

  // Rows added before the replacement are replaced like the rest.
  lemma ReplacedThrough(
      house: seq<HouseRow>, kind: string, before: map<nat, Row>, open: map<nat, Row>, after: map<nat, Row>)
    requires forall id :: id in before ==> id in open && open[id] == before[id]
    requires forall id :: id in open && id !in before ==> !Worked(open[id])
    requires Replaced(house, kind, open, after)
    ensures Replaced(house, kind, before, after)
  {
  }

  /** A whole change of kind leaves every row the client worked on, has every rule of the new kind,
      and beside the worked ones only copies of those. */
  lemma SwitchingLeaves(house: seq<HouseRow>, kind: string, s: State)
    requires Inv(house, s)
    ensures var t := Switch(house, kind, s);
      t.created && t.kind == kind && Replaced(house, kind, s.rows, t.rows) && HasRules(house, kind, t.rows)
  {
    OpeningAdds(house, s);
    EnsureKeepsInv(house, s);
    SwitchKeepsCreated(house, kind, s);
    var e := Ensure(house, s).(kind := kind);
    PruneThenSeedReplaces(house, kind, e);
    ReplacedThrough(house, kind, s.rows, e.rows, Switch(house, kind, s).rows);
  }

  lemma SwitchKeepsCreated(house: seq<HouseRow>, kind: string, s: State)
    requires Inv(house, s)
    ensures Switch(house, kind, s).created && Switch(house, kind, s).kind == kind
  {
    OpeningAdds(house, s);
    EnsureKeepsInv(house, s);
    var e := Ensure(house, s).(kind := kind);
    PruneKeepsInv(house, kind, e);
    SeedToAdds(house, |house|, kind, Prune(house, kind, e));
  }
}
