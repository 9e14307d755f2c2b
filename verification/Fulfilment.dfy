/** Exactly-once fulfilment of paid Checkout Sessions: fulfillStoreSession and its concurrent
    callers (srv/store.go), fulfillPass and coupon redemption (srv/passes.go).

    A transaction holds the one database connection from BEGIN to COMMIT, so it is one step that
    happens whole or not at all; FulfilmentStore shows that of fulfillPass statement by statement.
    Between steps other callers run, and the process may die. */
module Fulfilment {
  import opened Options

  type Sid = string

  datatype Item = FactoryPass | Builds3 | Storage6mo | Index | Unknown
  datatype Line = Line(item: Item, quantity: nat)

  /** metadata.kind of the session, with pass_id for an add-on. */
  datatype Metadata = MetaPass | MetaAddon(passId: int) | MetaNone | MetaOther
  datatype Cart = Cart(meta: Metadata, lines: seq<Line>)

  datatype Extras = Extras(builds: nat, months: nat, index: bool) {
    function Plus(other: Extras): Extras {
      Extras(builds + other.builds, months + other.months, index || other.index)
    }
  }

  function NoExtras(): Extras {
    Extras(0, 0, false)
  }

  /** `made` and `bought` are bookkeeping: the client made with the pass, if it was not attached to a
      project there was, and the extras that came in the pass's own cart. */
  datatype PassRow = PassRow(
    session: Option<Sid>, coupon: Option<int>, project: nat, made: Option<nat>, extras: Extras, bought: Extras)
  datatype OrderKind = PassOrder | AddonOrder
  datatype OrderRow = OrderRow(session: Sid, kind: OrderKind, pass: nat, extras: Extras)
  /** A grant by an admin, of builds or of the index add-on, is two statements: the extras, then the
      ledger row. `stage` is bookkeeping: the row is to be written, is written, or never will be. */
  datatype Stage = Half | Recorded | Stopped
  datatype Grant = Grant(pass: nat, extras: Extras, stage: Stage)
  datatype Coupon = Coupon(maxRedemptions: nat, redeemed: nat)

  datatype Result = Fresh | Already | Pending | Error | Killed

  /** Where a call of fulfillStoreSession is. */
  datatype PC =
    | Waiting | CheckOrder | Fetch | PassTx | InsertOrder(pass: nat) | AddonTx(passId: int) | Finished(result: Result)
  datatype Caller = Caller(session: Sid, pc: PC)

  /** Row ids are positions: rows of these tables are only ever inserted. */
  datatype Tables = Tables(
    clients: nat,                 // number of rows
    projects: seq<nat>,           // client of each project
    transmittals: seq<nat>,       // project of each draft
    passes: seq<PassRow>,
    orders: seq<OrderRow>,
    grants: seq<Grant>,
    coupons: map<int, Coupon>)

  datatype State = State(db: Tables, mutex: Option<nat>, callers: seq<Caller>)

  // ----- what was bought ------------------------------------------------------------------------

  function ItemExtras(line: Line): Extras {
    match line.item
    case Builds3 => Extras(3 * line.quantity, 0, false)
    case Storage6mo => Extras(0, 6 * line.quantity, false)
    case Index => Extras(0, 0, line.quantity > 0)
    case _ => NoExtras()
  }

  function CartExtras(lines: seq<Line>): Extras {
    if lines == [] then NoExtras() else CartExtras(lines[..|lines| - 1]).Plus(ItemExtras(lines[|lines| - 1]))
  }

  /** How many of an item were bought. */
  function Bought(lines: seq<Line>, item: Item): nat {
    if lines == [] then 0
    else Bought(lines[..|lines| - 1], item) + if lines[|lines| - 1].item == item then lines[|lines| - 1].quantity else 0
  }

  predicate BoughtIndex(lines: seq<Line>) {
    exists i :: 0 <= i < |lines| && lines[i].item == Index && lines[i].quantity > 0
  }

  lemma BoughtIndexNext(front: seq<Line>, last: Line)
    ensures BoughtIndex(front + [last]) <==> BoughtIndex(front) || (last.item == Index && last.quantity > 0)
  {
    var lines := front + [last];
    if BoughtIndex(front) {
      var i :| 0 <= i < |front| && front[i].item == Index && front[i].quantity > 0;
      assert lines[i] == front[i];
    }
    assert lines[|front|] == last;
  }

  lemma ItemGives(line: Line)
    ensures ItemExtras(line).builds == if line.item == Builds3 then 3 * line.quantity else 0
    ensures ItemExtras(line).months == if line.item == Storage6mo then 6 * line.quantity else 0
    ensures ItemExtras(line).index <==> line.item == Index && line.quantity > 0
  {
  }

  /** A cart gives three builds for each of its builds-3 items, six months for each of its storage
      items, and the index if it holds any. */
  lemma {:induction false} CartGives(lines: seq<Line>)
    ensures CartExtras(lines).builds == 3 * Bought(lines, Builds3)
    ensures CartExtras(lines).months == 6 * Bought(lines, Storage6mo)
    ensures CartExtras(lines).index <==> BoughtIndex(lines)
  {
    if lines != [] {
      var front, last := lines[..|lines| - 1], lines[|lines| - 1];
      CartGives(front);
      ItemGives(last);
      BoughtIndexNext(front, last);
      assert lines == front + [last];
    }
  }

  predicate HasPass(lines: seq<Line>) {
    exists i :: 0 <= i < |lines| && lines[i].item == FactoryPass
  }

  /** What the session is for: a pass, an add-on, or nothing recognisable. */
  function NextStep(c: Cart): PC {
    match c.meta
    case MetaPass => PassTx
    case MetaNone => if HasPass(c.lines) then PassTx else Finished(Error)
    case MetaAddon(id) => AddonTx(id)
    case MetaOther => Finished(Error)
  }

  /** A pass is bought by a session of that kind, or of no kind with a pass in its cart; an add-on by
      a session of its kind; nothing else is recognised. */
  lemma SessionIsFor(c: Cart)
    ensures NextStep(c) == PassTx <==>
            c.meta == MetaPass
            || (c.meta == MetaNone && exists i :: 0 <= i < |c.lines| && c.lines[i].item == FactoryPass)
    ensures forall id :: NextStep(c) == AddonTx(id) <==> c.meta == MetaAddon(id)
    ensures NextStep(c) == PassTx || NextStep(c).AddonTx? || NextStep(c) == Finished(Error)
  {
  }

  // ----- transactions -----------------------------------------------------------------------------

  predicate StampedBy(db: Tables, sid: Sid) {
    exists i :: 0 <= i < |db.passes| && db.passes[i].session == Some(sid)
  }

  predicate Ordered(db: Tables, sid: Sid) {
    exists i :: 0 <= i < |db.orders| && db.orders[i].session == sid
  }

  /** Client, project, pass and transmittal, all at once. */
  function Minted(db: Tables, session: Option<Sid>, coupon: Option<int>, extras: Extras): Tables {
    db.(clients := db.clients + 1,
        projects := db.projects + [db.clients],
        transmittals := db.transmittals + [|db.projects|],
        passes := db.passes + [PassRow(session, coupon, |db.projects|, Some(db.clients), extras, extras)])
  }

  /** attachPassToProject: only the pass, refused by the unique index on the project. */
  predicate Attachable(db: Tables, project: nat) {
    project < |db.projects| && forall i :: 0 <= i < |db.passes| ==> db.passes[i].project != project
  }

  function Attached(db: Tables, project: nat): Tables {
    db.(passes := db.passes + [PassRow(None, None, project, None, NoExtras(), NoExtras())])
  }

  predicate Redeemable(db: Tables, coupon: int) {
    coupon in db.coupons && db.coupons[coupon].redeemed < db.coupons[coupon].maxRedemptions
  }

  function Burned(db: Tables, coupon: int): Tables
    requires coupon in db.coupons
  {
    db.(coupons := db.coupons[coupon := db.coupons[coupon].(redeemed := db.coupons[coupon].redeemed + 1)])
  }

  function Redeemed(db: Tables, coupon: int): Tables
    requires coupon in db.coupons
  {
    Burned(Minted(db, None, Some(coupon), NoExtras()), coupon)
  }

  function AddExtras(db: Tables, pass: nat, extras: Extras): Tables
    requires pass < |db.passes|
  {
    db.(passes := db.passes[pass := db.passes[pass].(extras := db.passes[pass].extras.Plus(extras))])
  }

  // ----- steps --------------------------------------------------------------------------------------

  datatype Fetched = FetchFailed | Unpaid | Paid

  datatype Event =
    | Call(session: Sid)
    | Lock(i: nat)
    | Check(i: nat, ok: bool)
    | FetchSession(i: nat, got: Fetched)
    | Commit(i: nat, ok: bool)       // the transaction or statement the caller's pc names
    | Crash
    | NewCoupon(coupon: int, maxRedemptions: nat)
    | Redeem(coupon: int, ok: bool)
    | AdminFulfil
    | NewProject(client: nat)             // from the portal: no pass, no transmittal
    | AttachPass(project: nat)
    | GrantBuilds(pass: nat, builds: nat)
    | GrantIndex(pass: nat)
    | GrantRow(grant: nat, ok: bool)

  function Goto(s: State, i: nat, pc: PC): State
    requires i < |s.callers|
  {
    s.(callers := s.callers[i := s.callers[i].(pc := pc)],
       mutex := if pc.Finished? then None else s.mutex)   // defer mu.Unlock()
  }

  predicate Runs(s: State, i: nat) {
    i < |s.callers| && s.mutex == Some(i)
  }

  function StepCheck(s: State, i: nat, ok: bool): State
    requires i < |s.callers|
  {
    if ok && Ordered(s.db, s.callers[i].session) then Goto(s, i, Finished(Already)) else Goto(s, i, Fetch)
  }

  function StepFetch(s: State, i: nat, got: Fetched, carts: map<Sid, Cart>): State
    requires i < |s.callers|
  {
    match got
    case FetchFailed => Goto(s, i, Finished(Error))
    case Unpaid => Goto(s, i, Finished(Pending))
    case Paid =>
      Goto(s, i, if s.callers[i].session in carts then NextStep(carts[s.callers[i].session]) else Finished(Error))
  }

  /** First commit of the pass path: fulfillPass, refused by the unique index on the session. */
  function StepPassTx(s: State, i: nat, ok: bool, carts: map<Sid, Cart>): State
    requires i < |s.callers|
  {
    var sid := s.callers[i].session;
    if !ok || StampedBy(s.db, sid) || sid !in carts then Goto(s, i, Finished(Error))
    else Goto(s.(db := Minted(s.db, Some(sid), None, CartExtras(carts[sid].lines))), i, InsertOrder(|s.db.passes|))
  }

  /** Second commit of the pass path. */
  function StepInsertOrder(s: State, i: nat, pass: nat, ok: bool): State
    requires i < |s.callers|
  {
    var sid := s.callers[i].session;
    if !ok || Ordered(s.db, sid) then Goto(s, i, Finished(Error))
    else Goto(s.(db := s.db.(orders := s.db.orders + [OrderRow(sid, PassOrder, pass, NoExtras())])), i, Finished(Fresh))
  }

  /** The only commit of the add-on path: extras and order row together. */
  function StepAddonTx(s: State, i: nat, pass: int, ok: bool, carts: map<Sid, Cart>): State
    requires i < |s.callers|
  {
    var sid := s.callers[i].session;
    if !ok || !(0 <= pass < |s.db.passes|) || Ordered(s.db, sid) || sid !in carts then Goto(s, i, Finished(Error))
    else
      var extras := CartExtras(carts[sid].lines);
      Goto(s.(db := AddExtras(s.db, pass, extras).(orders := s.db.orders + [OrderRow(sid, AddonOrder, pass, extras)])),
           i, Finished(Fresh))
  }

  function StepCommit(s: State, i: nat, ok: bool, carts: map<Sid, Cart>): State
    requires i < |s.callers|
  {
    match s.callers[i].pc
    case PassTx => StepPassTx(s, i, ok, carts)
    case InsertOrder(pass) => StepInsertOrder(s, i, pass, ok)
    case AddonTx(pass) => StepAddonTx(s, i, pass, ok, carts)
    case _ => s
  }

  const GRANT_MAX := 50

  /** The first statement of a grant. */
  function Granted(db: Tables, pass: nat, extras: Extras): Tables {
    if pass < |db.passes| then AddExtras(db, pass, extras).(grants := db.grants + [Grant(pass, extras, Half)]) else db
  }

  /** No grant that was half done is finished by another process. */
  function Halted(grants: seq<Grant>): (r: seq<Grant>)
    ensures |r| == |grants|
  {
    seq(|grants|, k requires 0 <= k < |grants| =>
      if grants[k].stage == Half then grants[k].(stage := Stopped) else grants[k])
  }

  function Killing(c: Caller): Caller {
    if c.pc.Finished? then c else c.(pc := Finished(Killed))
  }

  /** `carts` is what was paid for in each session; it never changes. An event that is not
      possible in s changes nothing. */
  function Step(s: State, e: Event, carts: map<Sid, Cart>): State {
    match e
    case Call(sid) => s.(callers := s.callers + [Caller(sid, Waiting)])
    case Lock(i) =>
      if i < |s.callers| && s.callers[i].pc == Waiting && s.mutex == None
      then s.(mutex := Some(i), callers := s.callers[i := s.callers[i].(pc := CheckOrder)]) else s
    case Check(i, ok) => if Runs(s, i) && s.callers[i].pc == CheckOrder then StepCheck(s, i, ok) else s
    case FetchSession(i, got) => if Runs(s, i) && s.callers[i].pc == Fetch then StepFetch(s, i, got, carts) else s
    case Commit(i, ok) => if Runs(s, i) then StepCommit(s, i, ok, carts) else s
    case Crash =>
      s.(mutex := None, callers := seq(|s.callers|, i requires 0 <= i < |s.callers| => Killing(s.callers[i])),
         db := s.db.(grants := Halted(s.db.grants)))
    case NewCoupon(c, n) =>
      if c in s.db.coupons then s else s.(db := s.db.(coupons := s.db.coupons[c := Coupon(n, 0)]))
    case Redeem(c, ok) => if ok && Redeemable(s.db, c) then s.(db := Redeemed(s.db, c)) else s
    case AdminFulfil => s.(db := Minted(s.db, None, None, NoExtras()))
    case NewProject(c) => if c < s.db.clients then s.(db := s.db.(projects := s.db.projects + [c])) else s
    case AttachPass(q) => if Attachable(s.db, q) then s.(db := Attached(s.db, q)) else s
    case GrantBuilds(p, n) => if 1 <= n <= GRANT_MAX then s.(db := Granted(s.db, p, Extras(n, 0, false))) else s
    case GrantIndex(p) => s.(db := Granted(s.db, p, Extras(0, 0, true)))
    case GrantRow(k, ok) =>
      if k < |s.db.grants| && s.db.grants[k].stage == Half
      then s.(db := s.db.(grants := s.db.grants[k := s.db.grants[k].(stage := if ok then Recorded else Stopped)]))
      else s
  }

  function Run(s: State, events: seq<Event>, carts: map<Sid, Cart>): State {
    if events == [] then s else Step(Run(s, events[..|events| - 1], carts), events[|events| - 1], carts)
  }

  function Empty(): State {
    State(Tables(0, [], [], [], [], [], map[]), None, [])
  }
}
