/** The code behind the steps of Fulfilment: the cart loop, fulfillPass as one transaction that any
    statement can abort, and fulfillStoreSession under its mutex (srv/store.go, srv/passes.go). */
module FulfilmentStore {
  import opened Options
  import opened Fulfilment

  /** Line items to extras, as the loop of fulfillStoreSession adds them up. */
  method SumCart(lines: seq<Line>) returns (extras: Extras, hasPass: bool)
    ensures extras == CartExtras(lines)
    ensures hasPass <==> exists i :: 0 <= i < |lines| && lines[i].item == FactoryPass
    ensures Gives(lines, NoExtras(), extras)
  {
    var builds: nat, months: nat, index := 0, 0, false;
    hasPass := false;
    for k := 0 to |lines|
      invariant Extras(builds, months, index) == CartExtras(lines[..k])
      invariant hasPass <==> exists i :: 0 <= i < k && lines[i].item == FactoryPass
    {
      var li := lines[k];
      assert lines[..k + 1][..k] == lines[..k];
      match li.item {
        case FactoryPass => hasPass := true;
        case Builds3 => builds := builds + 3 * li.quantity;
        case Storage6mo => months := months + 6 * li.quantity;
        case Index => index := index || li.quantity > 0;
        case Unknown =>
      }
    }
    assert lines[..|lines|] == lines;
    extras := Extras(builds, months, index);
    CartGives(lines);
  }

  /** What a cart adds to a pass, item by item. */
  predicate Gives(lines: seq<Line>, before: Extras, after: Extras) {
    && after.builds == before.builds + 3 * Bought(lines, Builds3)
    && after.months == before.months + 6 * Bought(lines, Storage6mo)
    && (after.index <==> before.index || BoughtIndex(lines))
  }

  /** The session buys a pass. */
  predicate ForPass(cart: Cart) {
    cart.meta == MetaPass
    || (cart.meta == MetaNone && exists i :: 0 <= i < |cart.lines| && cart.lines[i].item == FactoryPass)
  }

  /** A row without a session stamps nothing. */
  lemma StampIsOld(db: Tables, tx: Tables, sid: Sid)
    requires |tx.passes| == |db.passes| + 1 && tx.passes[..|db.passes|] == db.passes
    requires tx.passes[|db.passes|].session == None
    ensures StampedBy(tx, sid) <==> StampedBy(db, sid)
  {
    if StampedBy(db, sid) {
      var k :| 0 <= k < |db.passes| && db.passes[k].session == Some(sid);
      assert tx.passes[k] == db.passes[k];
    }
  }

  /** What makes a paid session's own commits go through. */
  predicate GoesThrough(was: Tables, sid: Sid, cart: Cart, failing: Option<nat>, orderOk: bool, addonOk: bool) {
    !Ordered(was, sid) &&
    if ForPass(cart) then Mintable(was, sid, failing) && orderOk
    else cart.meta.MetaAddon? && addonOk && 0 <= cart.meta.passId < |was.passes|
  }

  predicate Mintable(was: Tables, sid: Sid, failing: Option<nat>) {
    (failing.None? || failing.value > 7) && !StampedBy(was, sid)
  }

  predicate Added(before: Extras, extras: Extras, after: Extras) {
    && after.builds == before.builds + extras.builds && after.months == before.months + extras.months
    && (after.index <==> before.index || extras.index)
  }

  /** What the session bought is on its pass: a new one of its own, or the one the add-on names. */
  predicate Delivered(was: Tables, now: Tables, sid: Sid, cart: Cart) {
    if ForPass(cart) then
      && |now.passes| == |was.passes| + 1 && now.passes[|was.passes|].session == Some(sid)
      && Gives(cart.lines, NoExtras(), now.passes[|was.passes|].extras)
    else
      && cart.meta.MetaAddon? && 0 <= cart.meta.passId < |was.passes| == |now.passes|
      && Gives(cart.lines, was.passes[cart.meta.passId].extras, now.passes[cart.meta.passId].extras)
  }

  function WithPassOrder(was: Tables, sid: Sid, extras: Extras): Tables {
    Minted(was, Some(sid), None, extras).(
      orders := was.orders + [OrderRow(sid, PassOrder, |was.passes|, NoExtras())])
  }

  function WithAddonOrder(was: Tables, sid: Sid, p: nat, extras: Extras): Tables
    requires p < |was.passes|
  {
    AddExtras(was, p, extras).(orders := was.orders + [OrderRow(sid, AddonOrder, p, extras)])
  }

  /** The tables after a fresh result, with the order row of the session. */
  function Written(was: Tables, sid: Sid, cart: Cart): Tables {
    if ForPass(cart) then WithPassOrder(was, sid, CartExtras(cart.lines))
    else if cart.meta.MetaAddon? && 0 <= cart.meta.passId < |was.passes|
    then WithAddonOrder(was, sid, cart.meta.passId, CartExtras(cart.lines)) else was
  }

  class Store {
    var db: Tables

    constructor ()
      ensures db == Empty().db
    {
      db := Tables(0, [], [], [], [], [], map[]);
    }

    /** fulfillPass: every statement works on the transaction, and the tables change only at COMMIT.
        `failing` is the number of the statement that fails, if any. */
    method FulfillPass(session: Option<Sid>, coupon: Option<int>, extras: Extras, failing: Option<nat>)
      returns (pass: Option<nat>)
      modifies this`db
      ensures pass.Some? <==>
        (failing.None? || failing.value > 7)
        && (session.Some? ==> !StampedBy(old(db), session.value))
        && (coupon.Some? ==> coupon.value in old(db).coupons
                             && old(db).coupons[coupon.value].redeemed < old(db).coupons[coupon.value].maxRedemptions)
      ensures pass.None? ==> db == old(db)
      ensures pass.Some? ==> pass.value == |old(db).passes|
      ensures pass.Some? ==>
        var minted := Minted(old(db), session, coupon, extras);
        db == if coupon.None? then minted else Burned(minted, coupon.value)
    {
      var tx := db;
      pass := None;
      if failing == Some(0) { return; }
      if coupon.Some? {
        if coupon.value !in tx.coupons { return; }
        if tx.coupons[coupon.value].redeemed >= tx.coupons[coupon.value].maxRedemptions { return; }
      }
      if failing == Some(1) { return; }
      var client := tx.clients;
      tx := tx.(clients := client + 1);
      if failing == Some(2) { return; }
      var project := |tx.projects|;
      tx := tx.(projects := tx.projects + [client]);
      if failing == Some(3) { return; }
      var id := |tx.passes|;
      tx := tx.(passes := tx.passes + [PassRow(None, coupon, project, Some(client), NoExtras(), extras)]);
      if failing == Some(4) { return; }
      tx := tx.(transmittals := tx.transmittals + [project]);
      if session.Some? {
        // SetPassPurchase: the unique index on stripe_session_id refuses a second stamp.
        StampIsOld(db, tx, session.value);
        if failing == Some(5) || StampedBy(tx, session.value) {
          return;
        }
        tx := tx.(passes := tx.passes[id := tx.passes[id].(session := session)]);
      }
      if failing == Some(5) || failing == Some(6) { return; }
      if extras.builds > 0 || extras.months > 0 {
        tx := tx.(passes := tx.passes[id := tx.passes[id].(extras := Extras(extras.builds, extras.months, false))]);
      }
      if extras.index {
        tx := tx.(passes := tx.passes[id := tx.passes[id].(extras := tx.passes[id].extras.(index := true))]);
      }
      if coupon.Some? {
        var c := tx.coupons[coupon.value];
        tx := tx.(coupons := tx.coupons[coupon.value := c.(redeemed := c.redeemed + 1)]);
      }
      if failing == Some(7) { return; }
      assert tx.passes == db.passes + [PassRow(session, coupon, project, Some(client), extras, extras)];
      db := tx;
      pass := Some(id);
    }

    /** fulfillStoreSession, from lock to unlock. `looked` says whether the lookup of the order row
        works, `failing` is the failing statement of fulfillPass; `orderOk` and `addonOk` say whether
        the order insert and the add-on transaction go through. */
    method FulfillStoreSession(sid: Sid, looked: bool, fetched: Fetched, cart: Cart, failing: Option<nat>,
                               orderOk: bool, addonOk: bool)
      returns (result: Result)
      modifies this`db
      ensures result == Already <==> looked && old(Ordered(db, sid))
      ensures result == Pending <==> !(looked && old(Ordered(db, sid))) && fetched == Unpaid
      ensures result == Fresh <==>
        !(looked && old(Ordered(db, sid))) && fetched == Paid
        && GoesThrough(old(db), sid, cart, failing, orderOk, addonOk)
      ensures result != Killed
      ensures result == Already || result == Pending || fetched == FetchFailed ==> db == old(db)
      // A fresh result: what the pass got, item by item, and the whole new tables.
      ensures result == Fresh ==> Delivered(old(db), db, sid, cart)
      ensures result == Fresh ==> db == Written(old(db), sid, cart)
      // The one failure that leaves something behind: the pass is stamped and its order row missing.
      ensures result == Error && fetched == Paid ==>
        db == if ForPass(cart) && Mintable(old(db), sid, failing)
              then Minted(old(db), Some(sid), None, CartExtras(cart.lines)) else old(db)
    {
      if looked && Ordered(db, sid) {
        return Already;
      }
      match fetched {
        case FetchFailed => return Error;
        case Unpaid => return Pending;
        case Paid =>
      }
      result := FulfillPaid(sid, cart, failing, orderOk, addonOk);
    }

    method FulfillPaid(sid: Sid, cart: Cart, failing: Option<nat>, orderOk: bool, addonOk: bool)
      returns (result: Result)
      modifies this`db
      ensures result == if GoesThrough(old(db), sid, cart, failing, orderOk, addonOk) then Fresh else Error
      ensures result == Fresh ==> Delivered(old(db), db, sid, cart)
      ensures result == Fresh ==> db == Written(old(db), sid, cart)
      ensures result == Error ==>
        db == if ForPass(cart) && Mintable(old(db), sid, failing)
              then Minted(old(db), Some(sid), None, CartExtras(cart.lines)) else old(db)
    {
      var extras, hasPass := SumCart(cart.lines);
      if cart.meta == MetaPass || (cart.meta == MetaNone && hasPass) {
        result := PassPath(sid, extras, failing, orderOk);
      } else if cart.meta.MetaAddon? {
        result := AddonPath(sid, cart.meta.passId, extras, addonOk);
      } else {
        result := Error;
      }
    }

    /** Two commits: the pass, then the order row, which its unique index can refuse. */
    method PassPath(sid: Sid, extras: Extras, failing: Option<nat>, orderOk: bool) returns (result: Result)
      modifies this`db
      ensures result == if Mintable(old(db), sid, failing) && orderOk && !old(Ordered(db, sid)) then Fresh else Error
      ensures result == Fresh ==> db == WithPassOrder(old(db), sid, extras)
      ensures result == Error ==>
        db == if Mintable(old(db), sid, failing) then Minted(old(db), Some(sid), None, extras) else old(db)
      ensures result == Fresh ==>
        |db.passes| == |old(db).passes| + 1 && db.passes[|old(db).passes|].session == Some(sid)
        && db.passes[|old(db).passes|].extras == extras
    {
      var pass := FulfillPass(Some(sid), None, extras, failing);
      if pass.None? {
        return Error;
      }
      assert Ordered(db, sid) <==> old(Ordered(db, sid));
      if !orderOk || Ordered(db, sid) {
        return Error;
      }
      db := db.(orders := db.orders + [OrderRow(sid, PassOrder, pass.value, NoExtras())]);
      return Fresh;
    }

    /** One commit: extras and order row together. */
    method AddonPath(sid: Sid, p: int, extras: Extras, addonOk: bool) returns (result: Result)
      modifies this`db
      ensures result == if addonOk && 0 <= p < |old(db).passes| && !old(Ordered(db, sid)) then Fresh else Error
      ensures result == Error ==> db == old(db)
      ensures result == Fresh ==> db == WithAddonOrder(old(db), sid, p, extras)
      ensures result == Fresh ==>
        |db.passes| == |old(db).passes| && Added(old(db).passes[p].extras, extras, db.passes[p].extras)
    {
      if !addonOk || !(0 <= p < |db.passes|) {
        return Error;
      }
      var tx := AddExtras(db, p, extras);
      if Ordered(tx, sid) {
        return Error;
      }
      tx := tx.(orders := tx.orders + [OrderRow(sid, AddonOrder, p, extras)]);
      db := tx;
      return Fresh;
    }
  }
}
