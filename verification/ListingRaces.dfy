/**
 * Listing edits as they are: a row is read and judged, and later written with
 * no guard. Exactly when such a write leaves the shelf right, and what then
 * holds of every listing.
 */
module ListingRaces {
  import opened Wrappers
  import opened LineTotal
  import opened ShopRules
  import opened ShopSteps
  import opened ShopRuns
  import opened ShopInvariant
  import opened ShopReachable

  // ---- One write ----

  /**
   * A deliberate status that this edit is meant to end: a pause by the seller or an admin, a
   * suspension by an admin.
   */
  predicate MayLeave(action: Action, status: ProductStatus) {
    match action
    case UpdateStatus(_, _, resume) => resume && status == INACTIVE
    case Remove(_, _) => status == INACTIVE
    case Deactivate(_) => status == INACTIVE
    case Reactivate(_) => status == SUSPENDED
    case _ => false
  }

  /** `live` says that a live order has units of the listing. */
  ghost predicate RowRight(row: Product, live: bool) {
    ProductOk(row) && (row.status == REMOVED ==> !live)
  }

  /** The row is consistent afterwards, and no pause, suspension or removal was undone by an edit not meant to. */
  ghost predicate LeftRight(now: Product, live: bool, action: Action, landed: Product) {
    && RowRight(landed, live)
    && (!Sellable(now.status) && landed.status != now.status ==> MayLeave(action, now.status))
  }

  predicate TakenDown(status: ProductStatus) { status == REMOVED || status == SUSPENDED }

  predicate SameSide(read: Product, now: Product) { read.stockQty > 0 <==> now.stockQty > 0 }

  /** What would have to be asked of the row as it stands when the write comes, given what was read and counted. */
  predicate StillFits(read: Product, referenced: bool, action: Action, now: Product, live: bool)
    requires Edits(action)
  {
    match action
    case Update(_, _, patch) =>
      if Sellable(read.status) then Sellable(now.status) && (patch.stockQty.Set? || SameSide(read, now))
      else patch.stockQty.Keep? || !Sellable(now.status) || (patch.stockQty.value > 0 <==> now.status == ACTIVE)
    case UpdateStatus(_, _, resume) => !TakenDown(now.status) && (resume ==> SameSide(read, now))
    case UpdateStock(_, _, stockQty) =>
      if Sellable(read.status) then Sellable(now.status)
          else !Sellable(now.status) || (stockQty > 0 <==> now.status == ACTIVE)
    case Remove(_, _) => now.status != SUSPENDED && if referenced then now.status != REMOVED else !live
    case Deactivate(_) => now.status != REMOVED
    case Reactivate(_) => now.status != REMOVED && now.status != INACTIVE && SameSide(read, now)
  }

  lemma {:induction false} LeftRightExactlyWhen(read: Product, referenced: bool, action: Action, now: Product,
      live: bool)
    requires Edits(action) && !TurnedDown(read, action) && RowOk(read) && RowRight(now, live)
    requires read.rule.minQty.Some? ==> now.rule.minQty.Some?
    ensures LeftRight(now, live, action, Land(now, WriteOf(read, referenced, action))) <==>
        StillFits(read, referenced, action, now, live)
  {
    LandedRowOk(read, referenced, action, now);
    hide RuleWhole;
  }

  /** An edit in one step always fits. */
  lemma {:induction false} AtOnceFits(action: Action, now: Product, live: bool)
    requires Edits(action) && !TurnedDown(now, action) && RowRight(now, live)
    ensures StillFits(now, live, action, now, live)
  {
    hide RuleWhole;
  }

  // ---- One step of the shop ----

  predicate Live(s: ShopSystem, p: ProductId) { Referenced(s.shop.orders, p) }

  /** If the action is the write of an edit under way, the edit still fits its row. */
  predicate Fits(s: ShopSystem, action: Action) {
    action.WriteEdit? && Ready(s, action.edit) ==>
      var e := s.edits[action.edit];
      var p := ListedProduct(e.action);
      StillFits(e.read, e.referenced.value, e.action, s.shop.products[p], Live(s, p))
  }

  /** If the action is the write of an edit under way, it leaves its row right. */
  ghost predicate LeavesRight(s: ShopSystem, action: Action) {
    action.WriteEdit? && Ready(s, action.edit) ==>
      var e := s.edits[action.edit];
      var now := s.shop.products[ListedProduct(e.action)];
      LeftRight(now, Live(s, ListedProduct(e.action)), e.action, Land(now, OpenWrite(s, action.edit)))
  }

  lemma {:induction false} GoodRow(s: ShopSystem, p: ProductId)
    requires Inv(s) && p in s.shop.products
    ensures RowRight(s.shop.products[p], Live(s, p))
    ensures Live(s, p) <==> UnitsOut(s.shop.orders, p) > 0
  {
    hide RowsOk, EditsOk, OrdersOk, LotsOnce, PaymentsOnce, Baskets, Known, SessionOk, OffersApart, ProductOk,
        UnitsOut, Referenced,
      PositiveItems;
    PositiveOrders(s.shop);
    ReferencedMeansUnits(s.shop.orders, p);
  }

  lemma {:induction false} LiveMeansUnits(s: ShopSystem, p: ProductId)
    requires Books(s)
    ensures Live(s, p) <==> UnitsOut(s.shop.orders, p) > 0
  {
    hide RowsOk, EditsOk, OrdersOk, LotsOnce, PaymentsOnce, Baskets, Known, SessionOk, OffersApart, UnitsOut,
        Referenced, PositiveItems;
    PositiveOrders(s.shop);
    ReferencedMeansUnits(s.shop.orders, p);
  }

  lemma {:induction false} OpenEditIsOk(s: ShopSystem, edit: EditId)
    requires Books(s) && Ready(s, edit)
    ensures
      var e := s.edits[edit];
      && !TurnedDown(e.read, e.action) && RowOk(e.read)
      && (e.read.rule.minQty.Some? ==> s.shop.products[ListedProduct(e.action)].rule.minQty.Some?)
  {
    EditsInBooks(s);
    hide Books, TurnedDown, RowOk;
    assert EditOk(s.shop.products, s.edits[edit]);
  }

  /**
   * The unguarded write of an edit, however late, leaves its row consistent and no
   * pause, suspension or removal undone exactly when the row as it is by then
   * fits what was read and counted.
   */
  lemma {:induction false} LateEditIsSafeExactlyWhen(s: ShopSystem, action: Action)
    requires Inv(s)
    ensures LeavesRight(s, action) <==> Fits(s, action)
  {
    hide Inv, LeftRight, StillFits, Referenced, Land, WriteOf, RowRight, RowOk, TurnedDown;
    if action.WriteEdit? && Ready(s, action.edit) {
      var e := s.edits[action.edit];
      var p := ListedProduct(e.action);
      GoodRow(s, p);
      OpenEditIsOk(s, action.edit) by { InvHasBooks(s); }
      LeftRightExactlyWhen(e.read, e.referenced.value, e.action, s.shop.products[p], Live(s, p));
    }
  }

  lemma {:induction false} InvHasBooks(s: ShopSystem)
    requires Inv(s)
    ensures Books(s) && Shelf(s.shop.products, s.shop.orders)
  {
    hide Books, Shelf;
  }

  /** The edit an action writes, if it writes one. */
  function WrittenEdit(s: ShopSystem, action: Action): Option<Action> {
    if Edits(action) then Some(action)
    else if action.WriteEdit? && Ready(s, action.edit) then Some(s.edits[action.edit].action)
    else None
  }

  /** A deliberate status stays, unless this writes an edit of this listing that is meant to end it. */
  ghost predicate StatusKept(s: ShopSystem, action: Action, p: ProductId) {
    p in s.shop.products ==>
      var now := s.shop.products[p];
      && p in Next(s, action).shop.products
      && (!Sellable(now.status) && Next(s, action).shop.products[p].status != now.status ==>
            && WrittenEdit(s, action).Some?
            && Edits(WrittenEdit(s, action).value) && ListedProduct(WrittenEdit(s, action).value) == p
            && MayLeave(WrittenEdit(s, action).value, now.status))
  }

  lemma {:induction false} LandedShelf(s: ShopSystem, p: ProductId, landed: Product)
    requires Inv(s) && p in s.shop.products && RowRight(landed, Live(s, p))
    ensures Shelf(s.shop.products[p := landed], s.shop.orders)
  {
    InvHasBooks(s);
    LiveMeansUnits(s, p);
    hide Books, Shelf, ProductOk, UnitsOut, Live;
    OneProduct(s.shop, p, landed);
  }

  /** A write that leaves its row right keeps the shelf, and touches the status of no other listing. */
  lemma {:induction false} WriteKeepsShelf(s: ShopSystem, action: Action, p: ProductId, edit: Action, w: RowWrite)
    requires Inv(s) && p in s.shop.products && WrittenEdit(s, action) == Some(edit) && Edits(edit)
        && ListedProduct(edit) == p
    requires Next(s, action).shop == Landed(s.shop, p, w)
    requires LeftRight(s.shop.products[p], Live(s, p), edit, Land(s.shop.products[p], w))
    ensures Shelf(Next(s, action).shop.products, Next(s, action).shop.orders)
    ensures forall q :: StatusKept(s, action, q)
  {
    hide Inv, Next, Land, RowRight, Live, WrittenEdit, ListedProduct, MayLeave;
    LandedShelf(s, p, Land(s.shop.products[p], w));
  }

  lemma {:induction false} NothingLeaves(s: ShopSystem, action: Action)
    requires Next(s, action).shop.products == s.shop.products
    ensures forall q :: StatusKept(s, action, q)
  {
    hide Next, WrittenEdit;
  }

  lemma {:induction false} EditKeepsShelf(s: ShopSystem, action: Action)
    requires Inv(s) && Edits(action)
    ensures Shelf(Next(s, action).shop.products, Next(s, action).shop.orders)
    ensures forall q :: StatusKept(s, action, q)
  {
    var p := ListedProduct(action);
    InvHasBooks(s);
    AtOnceIsTheStep(s, action);
    hide Inv, Books, Shelf, Next, Land, WriteOf, RowRight, TurnedDown, StatusKept, LeftRight, StillFits,
        ListedProduct, MayLeave;
    if p in s.shop.products && !TurnedDown(s.shop.products[p], action) {
      var now := s.shop.products[p];
      GoodRow(s, p);
      RowInBooks(s, p);
      AtOnceFits(action, now, Live(s, p));
      LeftRightExactlyWhen(now, Live(s, p), action, now, Live(s, p));
      WriteKeepsShelf(s, action, p, action, WriteOf(now, Live(s, p), action));
    } else {
      NothingLeaves(s, action);
    }
  }

  lemma {:induction false} RowInBooks(s: ShopSystem, p: ProductId)
    requires Books(s) && p in s.shop.products
    ensures RowOk(s.shop.products[p])
  {
    RowsInBooks(s);
    hide Books, RowOk;
  }

  lemma {:induction false} LateEditKeepsShelf(s: ShopSystem, edit: EditId)
    requires Inv(s) && Ready(s, edit) && Fits(s, WriteEdit(edit))
    ensures Shelf(Next(s, WriteEdit(edit)).shop.products, Next(s, WriteEdit(edit)).shop.orders)
    ensures forall q :: StatusKept(s, WriteEdit(edit), q)
  {
    LateEditIsSafeExactlyWhen(s, WriteEdit(edit));
    var e := s.edits[edit];
    assert Next(s, WriteEdit(edit)).shop == Landed(s.shop, ListedProduct(e.action), OpenWrite(s, edit));
    hide Inv, Next, Land, WriteOf, StatusKept, LeftRight, StillFits, ListedProduct, MayLeave, Landed;
    WriteKeepsShelf(s, WriteEdit(edit), ListedProduct(e.action), e.action, OpenWrite(s, edit));
  }

  lemma {:induction false} CreateKeepsStatus(s: ShopSystem, action: Action)
    requires action.Create?
    ensures forall q :: StatusKept(s, action, q)
  {
    hide WrittenEdit, RuleWhole;
  }

  lemma {:induction false} MovedKeepsStatus(s: ShopSystem, action: Action)
    requires AllMoved(s.shop, Next(s, action).shop)
    ensures forall q :: StatusKept(s, action, q)
  {
    hide Next, WrittenEdit, UnitsOut, ProductOk;
    forall q
      ensures StatusKept(s, action, q)
    {
      var after := Next(s, action).shop;
      assert q in s.shop.products ==>
          UnitsMoved(s.shop.products[q], after.products[q], UnitsOut(s.shop.orders, q), UnitsOut(after.orders, q));
    }
  }

  /** One step, whatever it is: if a write fits, the shelf stays in order and no deliberate status is undone. */
  lemma {:induction false} FittingStepKeeps(s: ShopSystem, action: Action)
    requires Inv(s) && Fits(s, action)
    ensures Inv(Next(s, action))
    ensures forall p :: StatusKept(s, action, p)
  {
    InvHasBooks(s);
    NextKeeps(s, action);
    hide Books, Shelf, Next, Fits, StatusKept, Grows, WritesFor, AllMoved, Ready;
    if action.Create? {
      CreateKeeps(s, action);
      CreateKeepsStatus(s, action);
    } else if Edits(action) {
      EditKeepsShelf(s, action);
    } else if action.WriteEdit? && Ready(s, action.edit) {
      LateEditKeepsShelf(s, action.edit);
    } else if action.WriteEdit? {
      UnreadyWrite(s, action.edit);
      NothingLeaves(s, action);
    } else {
      OthersMoveUnits(s, action);
      MovedRows(s.shop, Next(s, action).shop);
      MovedKeepsStatus(s, action);
    }
  }

  lemma {:induction false} UnreadyWrite(s: ShopSystem, edit: EditId)
    requires !Ready(s, edit)
    ensures Next(s, WriteEdit(edit)) == s
  {
  }

  // ---- Every run ----

  /** Every edit written along the run still fitted its row. */
  ghost predicate AllFit(s: ShopSystem, actions: seq<Action>) {
    actions != [] ==>
      var before := actions[..|actions| - 1];
      AllFit(s, before) && Fits(Run(s, before), actions[|actions| - 1])
  }

  /** Every edit written along the run left its row right. */
  ghost predicate AllRight(s: ShopSystem, actions: seq<Action>) {
    actions != [] ==>
      var before := actions[..|actions| - 1];
      AllRight(s, before) && LeavesRight(Run(s, before), actions[|actions| - 1])
  }

  lemma {:induction false} FittingRunKeeps(s: ShopSystem, actions: seq<Action>)
    requires Inv(s) && AllFit(s, actions)
    ensures Inv(Run(s, actions))
    decreases |actions|
  {
    hide Inv, Next, Fits, StatusKept;
    if actions != [] {
      var before := actions[..|actions| - 1];
      FittingRunKeeps(s, before);
      FittingStepKeeps(Run(s, before), actions[|actions| - 1]);
    }
  }

  lemma {:induction false} EmptyShelf()
    ensures Inv(EMPTY)
  {
    EmptyIsFine();
    hide Books;
  }

  /**
   * Over every run, with edits in halves and anything at all in between: the edits
   * all leave their rows consistent and no pause, suspension or removal undone
   * exactly when each still fitted its row when written; and then the shelf is in
   * order, besides all that every run keeps.
   */
  lemma {:induction false} SplitEditsAreSafeExactlyWhen(actions: seq<Action>)
    ensures AllRight(EMPTY, actions) <==> AllFit(EMPTY, actions)
    ensures AllFit(EMPTY, actions) ==> Inv(Run(EMPTY, actions))
    decreases |actions|
  {
    EmptyShelf();
    hide Inv, Next, Fits, LeavesRight;
    if actions != [] {
      var before := actions[..|actions| - 1];
      SplitEditsAreSafeExactlyWhen(before);
      if AllFit(EMPTY, before) { LateEditIsSafeExactlyWhen(Run(EMPTY, before), actions[|actions| - 1]); }
      if AllFit(EMPTY, actions) { FittingRunKeeps(EMPTY, actions); }
    }
  }

  /** A state that some run reaches in which every edit still fitted its row when written. */
  ghost predicate FairlyReached(s: ShopSystem) {
    exists actions :: AllFit(EMPTY, actions) && s == Run(EMPTY, actions)
  }

  /** A listing on the shelf is ACTIVE exactly when there is something to sell; a removed one is in no live order. */
  lemma {:induction false} ActiveMeansInStock(s: ShopSystem, p: ProductId)
    requires FairlyReached(s) && p in s.shop.products
    ensures
      var row := s.shop.products[p];
      && row.stockQty >= 0
      && RuleWhole(row.rule)
      && (Sellable(row.status) ==> (row.status == ACTIVE <==> row.stockQty > 0))
      && (row.status == REMOVED ==> !Referenced(s.shop.orders, p))
  {
    hide Inv, Run, AllFit, Referenced, UnitsOut, RuleWhole;
    var actions :| AllFit(EMPTY, actions) && s == Run(EMPTY, actions);
    SplitEditsAreSafeExactlyWhen(actions);
    GoodRow(s, p);
  }

  // ---- Deliberate statuses ----

  /** The edit an action begins, in one step or by judging it. */
  function BegunEdit(action: Action): Option<Action> {
    if Edits(action) then Some(action) else if action.JudgeEdit? then Some(action.action) else None
  }

  predicate Ends(edit: Action, p: ProductId, status: ProductStatus) {
    Edits(edit) && ListedProduct(edit) == p && MayLeave(edit, status)
  }

  /** Nobody has under way, or begins along the run, an edit of this listing that is meant to end this status. */
  ghost predicate NobodyEnds(s: ShopSystem, actions: seq<Action>, p: ProductId, status: ProductStatus) {
    && (forall e | e in s.edits :: !Ends(s.edits[e].action, p, status))
    && (forall i | 0 <= i < |actions| && BegunEdit(actions[i]).Some? :: !Ends(BegunEdit(actions[i]).value, p, status))
  }

  lemma {:induction false} OpenEditsAreBegun(s: ShopSystem, action: Action, e: EditId)
    requires e in Next(s, action).edits
    ensures (e in s.edits && Next(s, action).edits[e].action == s.edits[e].action)
            || BegunEdit(action) == Some(Next(s, action).edits[e].action)
  {
    hide TurnedDown, Referenced, CreateStep, UpdateStep, UpdateStatusStep, UpdateStockStep, RemoveStep,
        DeactivateStep, ReactivateStep,
      ShipmentStep, WriteOrdersStep, PriceCart, PriceAuction, PriceOffer, ConsumeStep, CartRows, Extends, SumBy,
          Landed, OpenWrite;
  }

  /**
   * Over any run in which edits fit, a pause, suspension or removal stays until somebody begins an
   * edit meant to end it.
   */
  lemma {:induction false} DeliberateStatusStays(s: ShopSystem, actions: seq<Action>, p: ProductId)
    requires Inv(s) && AllFit(s, actions) && p in s.shop.products && !Sellable(s.shop.products[p].status)
    requires NobodyEnds(s, actions, p, s.shop.products[p].status)
    ensures p in Run(s, actions).shop.products && Run(s, actions).shop.products[p].status == s.shop.products[p].status
    ensures forall e | e in Run(s, actions).edits ::
        !Ends(Run(s, actions).edits[e].action, p, s.shop.products[p].status)
    decreases |actions|
  {
    var status := s.shop.products[p].status;
    hide Inv, Next, Fits;
    if actions != [] {
      var before, action := actions[..|actions| - 1], actions[|actions| - 1];
      var mid := Run(s, before);
      assert Run(s, actions) == Next(mid, action);
      assert forall i | 0 <= i < |before| :: before[i] == actions[i];
      assert actions[|actions| - 1] == action;
      assert NobodyEnds(s, before, p, status);
      DeliberateStatusStays(s, before, p);
      FittingRunKeeps(s, before);
      FittingStepKeeps(mid, action);
      assert BegunEdit(action).Some? ==> !Ends(BegunEdit(action).value, p, status);
      hide Run, AllFit, NobodyEnds, MayLeave, ListedProduct;
      assert StatusKept(mid, action, p);
      forall e | e in Next(mid, action).edits
        ensures !Ends(Next(mid, action).edits[e].action, p, status)
      {
        OpenEditsAreBegun(mid, action, e);
      }
    }
  }

  /** Over any run in which edits fit, no later action of anybody brings a removed listing back. */
  lemma {:induction false} RemovedIsFinal(s: ShopSystem, actions: seq<Action>, p: ProductId)
    requires Inv(s) && AllFit(s, actions) && p in s.shop.products && s.shop.products[p].status == REMOVED
    ensures p in Run(s, actions).shop.products && Run(s, actions).shop.products[p].status == REMOVED
  {
    hide Inv, Run, AllFit;
    DeliberateStatusStays(s, actions, p);
  }

  /** Over any run in which edits fit, a suspension stays until an admin begins to lift it. */
  lemma {:induction false} OnlyAnAdminLiftsASuspension(s: ShopSystem, actions: seq<Action>, p: ProductId)
    requires Inv(s) && AllFit(s, actions) && p in s.shop.products && s.shop.products[p].status == SUSPENDED
    requires Reactivate(p) !in actions && forall e :: JudgeEdit(e, Reactivate(p)) !in actions
    requires forall e | e in s.edits :: s.edits[e].action != Reactivate(p)
    ensures p in Run(s, actions).shop.products && Run(s, actions).shop.products[p].status == SUSPENDED
  {
    hide Inv, Run, AllFit;
    forall i | 0 <= i < |actions| && BegunEdit(actions[i]).Some?
      ensures !Ends(BegunEdit(actions[i]).value, p, SUSPENDED)
    {
      assert actions[i] in actions;
      if actions[i].JudgeEdit? { assert JudgeEdit(actions[i].edit, Reactivate(p)) !in actions; }
    }
    DeliberateStatusStays(s, actions, p);
  }

  /**
   * Over any run in which edits fit, a paused listing stays paused until its seller resumes or removes
   * it or an admin suspends it.
   */
  lemma {:induction false} APauseStays(s: ShopSystem, actions: seq<Action>, p: ProductId)
    requires Inv(s) && AllFit(s, actions) && p in s.shop.products && s.shop.products[p].status == INACTIVE
    requires NobodyEnds(s, actions, p, INACTIVE)
    ensures p in Run(s, actions).shop.products && Run(s, actions).shop.products[p].status == INACTIVE
  {
    hide Inv, Run, AllFit, NobodyEnds;
    DeliberateStatusStays(s, actions, p);
  }

  // ---- What goes wrong otherwise ----

  const NO_RULE: QuantityDiscountRule := QuantityDiscountRule(None, None)
  const RETITLE: Action := Action.Update(7, 1, ProductPatch(Keep, Keep, Keep, Keep, Keep))
  const LIST: Action := Action.Create(7, 1, 100, 2, None, NO_RULE)

  function OnShelf(stockQty: int, status: ProductStatus): map<ProductId, Product> {
    map[7 := Product(1, 100, stockQty, status, None, NO_RULE)]
  }

  /** A listing with an edit under way that touches neither stock nor status. */
  function Judged(stockQty: int, status: ProductStatus): ShopSystem {
    EMPTY.(shop := EMPTY.shop.(products := OnShelf(stockQty, status)),
           edits := map[0 := OpenEdit(RETITLE, OnShelf(2, ACTIVE)[7], Some(false))])
  }

  lemma {:induction false} JudgedIsReached()
    ensures Run(EMPTY, [LIST, JudgeEdit(0, RETITLE)]) == Judged(2, ACTIVE)
  {
    var one := [LIST];
    var two := [LIST, JudgeEdit(0, RETITLE)];
    assert one[..0] == [] && two[..1] == one;
    assert Run(EMPTY, []) == EMPTY;
    var listed := EMPTY.(shop := EMPTY.shop.(products := OnShelf(2, ACTIVE)));
    assert Next(EMPTY, LIST) == listed;
    assert Run(EMPTY, one) == listed;
    assert Next(listed, JudgeEdit(0, RETITLE)) == Judged(2, ACTIVE);
  }

  /** What may come between the edit's read and its write, and how it leaves the listing. */
  predicate Between(action: Action, stockQty: int, status: ProductStatus) {
    || (action == Action.Deactivate(7) && stockQty == 2 && status == SUSPENDED)
    || (action == Action.Remove(7, 1) && stockQty == 2 && status == REMOVED)
    || (action == Action.UpdateStatus(7, 1, false) && stockQty == 2 && status == INACTIVE)
    || (action == Action.UpdateStock(7, 1, 0) && stockQty == 0 && status == OUT_OF_STOCK)
  }

  lemma {:induction false} BetweenLeaves(action: Action, stockQty: int, status: ProductStatus)
    requires Between(action, stockQty, status)
    ensures Next(Judged(2, ACTIVE), action) == Judged(stockQty, status)
  {
    assert !Referenced([], 7);
  }

  lemma {:induction false} WrittenLate(stockQty: int, status: ProductStatus)
    ensures Next(Judged(stockQty, status), WriteEdit(0)).shop.products == OnShelf(stockQty, ACTIVE)
  {
  }

  /**
   * A seller's edit that touches neither stock nor status, read while the listing
   * was on sale: written after an admin's suspension it lifts it, after a removal
   * it brings the listing back, after a pause it resumes it, and after the stock
   * ran out it puts nothing on sale.
   */
  lemma {:induction false} LateEditUndoesATakedown(action: Action, stockQty: int, status: ProductStatus)
    requires Between(action, stockQty, status)
    ensures
      var before := [LIST, JudgeEdit(0, RETITLE), action];
      && Run(EMPTY, before).shop.products == OnShelf(stockQty, status)
      && Run(EMPTY, before + [WriteEdit(0)]).shop.products == OnShelf(stockQty, ACTIVE)
      && !AllFit(EMPTY, before + [WriteEdit(0)])
  {
    hide Next, Run, AllFit, Judged, Fits;
    var two := [LIST, JudgeEdit(0, RETITLE)];
    var three := [LIST, JudgeEdit(0, RETITLE), action];
    assert three == two + [action];
    JudgedIsReached();
    RunsOn(two, action);
    BetweenLeaves(action, stockQty, status);
    RunsOn(three, WriteEdit(0));
    WrittenLate(stockQty, status);
    LateMisfit(action, stockQty, status);
    JudgedRow(stockQty, status);
  }

  lemma {:induction false} JudgedRow(stockQty: int, status: ProductStatus)
    ensures Judged(stockQty, status).shop.products == OnShelf(stockQty, status)
  {
  }

  lemma {:induction false} RunsOn(actions: seq<Action>, action: Action)
    ensures Run(EMPTY, actions + [action]) == Next(Run(EMPTY, actions), action)
    ensures AllFit(EMPTY, actions + [action]) ==> Fits(Run(EMPTY, actions), action)
  {
    hide Next, Fits;
    assert (actions + [action])[..|actions|] == actions;
  }

  lemma {:induction false} LateMisfit(action: Action, stockQty: int, status: ProductStatus)
    requires Between(action, stockQty, status)
    ensures !Fits(Judged(stockQty, status), WriteEdit(0))
  {
  }
}
