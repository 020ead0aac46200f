/**
 * The administrator's inventory table: editing a quantity in place, the
 * increment and decrement buttons, and the critical-levels panel.
 */
module ManageInventory {
  import opened Wrappers
  import opened Text
  import opened Seqs
  import opened Records
  import opened MockData
  import opened AdminService

  /** The page's copy of the inventory and the row being edited, if any. */
  datatype InventoryPage = InventoryPage(inventory: seq<InventoryItem>, editingId: Option<string>, editValue: string)

  /** `handleEdit`: open a row for editing with the given quantity in the box. */
  function HandleEdit(page: InventoryPage, bloodType: string, currentQuantity: int): (next: InventoryPage)
    ensures next.inventory == page.inventory
    ensures next.editingId == Some(bloodType) && next.editValue == IntToString(currentQuantity)
  {
    page.(editingId := Some(bloodType), editValue := IntToString(currentQuantity))
  }

  /** What the edit box holds, as `handleSave` reads it. */
  datatype EditValue = Invalid(message: string) | Valid(quantity: nat)

  /**
   * An empty box or one `parseInt` cannot read is refused first; a negative
   * number second; anything else is the quantity `parseInt` reads.
   */
  function ParseEdit(editValue: string): (r: EditValue)
    ensures r == Invalid("Please enter a valid number") <==> editValue == "" || ParseInt(editValue).None?
    ensures r == Invalid("Quantity cannot be negative") <==>
      editValue != "" && ParseInt(editValue).Some? && ParseInt(editValue).value < 0
    ensures r.Valid? <==> editValue != "" && ParseInt(editValue).Some? && ParseInt(editValue).value >= 0
    ensures r.Valid? ==> ParseInt(editValue) == Some(r.quantity as int)
  {
    if editValue == "" || ParseInt(editValue).None? then Invalid("Please enter a valid number")
    else if ParseInt(editValue).value < 0 then Invalid("Quantity cannot be negative")
    else Valid(ParseInt(editValue).value)
  }

  /** A quantity written into the box reads back as itself, or is refused when negative. */
  lemma ParseEditOfQuantity(n: int)
    ensures ParseEdit(IntToString(n)) == if n < 0 then Invalid("Quantity cannot be negative") else Valid(n)
  {
    ParseIntToString(n, "");
    assert IntToString(n) + "" == IntToString(n);
  }

  /** The store's inventory after a save reading `editValue`: a refused box changes nothing. */
  function SaveEffect(inv: seq<InventoryItem>, editValue: string, bloodType: string): seq<InventoryItem>
  {
    match ParseEdit(editValue)
    case Invalid(_) => inv
    case Valid(q) => SetQuantity(inv, bloodType, q)
  }

  /** Saving a box that holds a quantity sets exactly that quantity. */
  lemma SaveEffectOfQuantity(inv: seq<InventoryItem>, bloodType: string, n: nat)
    ensures SaveEffect(inv, IntToString(n), bloodType) == SetQuantity(inv, bloodType, n)
  {
    ParseEditOfQuantity(n);
  }

  /** `prev.map(item => item.type === bloodType ? { ...item, quantity, status } : item)`. */
  function LocalUpdate(list: seq<InventoryItem>, bloodType: string, q: int, status: StockStatus): (r: seq<InventoryItem>)
    ensures |r| == |list|
    ensures forall i :: 0 <= i < |list| ==>
      r[i] == if list[i].bloodType == bloodType then list[i].(quantity := q, status := status) else list[i]
  {
    seq(|list|, i requires 0 <= i < |list| =>
      if list[i].bloodType == bloodType then list[i].(quantity := q, status := status) else list[i])
  }

  /**
   * When no blood type appears twice, the page's update of its own copy
   * (every row of the type) agrees with the store's (the first row of the
   * type), so the two copies stay equal after a save.
   */
  lemma LocalUpdateMatchesStore(inv: seq<InventoryItem>, bloodType: string, q: int)
    requires DistinctTypes(inv)
    ensures LocalUpdate(inv, bloodType, q, StatusFor(q)) == SetQuantity(inv, bloodType, q)
  {
    SetQuantityEffect(inv, bloodType, q);
    var l := LocalUpdate(inv, bloodType, q, StatusFor(q));
    var s := SetQuantity(inv, bloodType, q);
    forall j | 0 <= j < |inv| ensures l[j] == s[j] {
      if inv[j].bloodType == bloodType {
        assert FirstOfType(inv, bloodType, j);
      }
    }
  }

  /**
   * The page after a save of quantity `q` for `bloodType` went through: the
   * editor is closed; when the store had the type, the page's rows of that
   * type show the quantity with its threshold status and the success toast,
   * otherwise the page's rows are kept and the toast says the type was not found.
   */
  ghost predicate SavedPage(storeBefore: seq<InventoryItem>, page: InventoryPage, bloodType: string, q: nat,
                            next: InventoryPage, toast: string)
  {
    next.editingId == None && next.editValue == "" &&
    if TypeIndex(storeBefore, bloodType).Some? then
      next.inventory == LocalUpdate(page.inventory, bloodType, q, StatusFor(q)) &&
      toast == "Updated " + bloodType + " inventory to " + IntToString(q) + " units"
    else
      next.inventory == page.inventory && toast == "Blood type not found"
  }

  /**
   * `handleSave`. A refused box shows its message and leaves everything,
   * the open editor included. Otherwise the store is updated; on success
   * the page's copy gets the quantity and the stored status; either way the
   * editor closes.
   */
  method HandleSave(db: Store, page: InventoryPage, bloodType: string) returns (next: InventoryPage, toast: string)
    modifies db
    ensures db.inventory == SaveEffect(old(db.inventory), page.editValue, bloodType)
    ensures ParseEdit(page.editValue).Invalid? ==> next == page && toast == ParseEdit(page.editValue).message
    ensures ParseEdit(page.editValue).Valid? ==>
      SavedPage(old(db.inventory), page, bloodType, ParseEdit(page.editValue).quantity, next, toast)
    ensures db.requests == old(db.requests) && db.camps == old(db.camps)
    ensures db.appointments == old(db.appointments) && db.history == old(db.history)
    ensures db.donors == old(db.donors) && db.receivers == old(db.receivers)
  {
    var parsed := ParseEdit(page.editValue);
    if parsed.Invalid? {
      return page, parsed.message;
    }
    var quantity := parsed.quantity;
    var result := UpdateBloodInventory(db, bloodType, quantity);
    var inventory := page.inventory;
    if result.success {
      inventory := LocalUpdate(inventory, bloodType, quantity, result.data.value.status);
      toast := "Updated " + bloodType + " inventory to " + IntToString(quantity) + " units";
    } else {
      toast := result.message;
    }
    next := InventoryPage(inventory, None, "");
  }

  /**
   * `handleIncrement` as written: it opens the editor with the new quantity,
   * but `handleSave` then reads the edit box as it was when the button was
   * drawn, not the new quantity. The store gets whatever that box held.
   */
  method HandleIncrement(db: Store, page: InventoryPage, bloodType: string, currentQuantity: int)
    returns (next: InventoryPage, toast: string)
    modifies db
    ensures db.inventory == SaveEffect(old(db.inventory), page.editValue, bloodType)
    ensures ParseEdit(page.editValue).Invalid? ==>
      next == HandleEdit(page, bloodType, currentQuantity + 1) && toast == ParseEdit(page.editValue).message
    ensures ParseEdit(page.editValue).Valid? ==>
      SavedPage(old(db.inventory), page, bloodType, ParseEdit(page.editValue).quantity, next, toast)
    ensures db.requests == old(db.requests) && db.camps == old(db.camps)
    ensures db.appointments == old(db.appointments) && db.history == old(db.history)
    ensures db.donors == old(db.donors) && db.receivers == old(db.receivers)
  {
    var edited := HandleEdit(page, bloodType, currentQuantity + 1);
    next, toast := HandleSave(db, page, bloodType);
    if ParseEdit(page.editValue).Invalid? {
      next := edited;
    }
  }

  /**
   * With no row open (an empty edit box) the increment button changes no
   * stock and shows "Please enter a valid number"; the intended save of the
   * increased quantity would have set A+ from 25 to 26.
   */
  lemma IncrementReadsStaleBox()
    ensures ParseEdit("") == Invalid("Please enter a valid number")
    ensures SaveEffect(SeedInventory, "", "A+") == SeedInventory
    ensures SaveEffect(SeedInventory, IntToString(SeedInventory[0].quantity + 1), "A+")[0].quantity == 26
  {
    SaveEffectOfQuantity(SeedInventory, "A+", 26);
    assert TypeIndex(SeedInventory, "A+") == Some(0) by {
      assert FirstOfType(SeedInventory, "A+", 0);
    }
  }

  /**
   * A step of one unit as intended: save `newQuantity` itself. A quantity
   * that is not negative is stored, with the status its thresholds give.
   */
  method SaveQuantity(db: Store, page: InventoryPage, bloodType: string, newQuantity: int)
    returns (next: InventoryPage, toast: string)
    modifies db
    ensures newQuantity >= 0 ==> db.inventory == SetQuantity(old(db.inventory), bloodType, newQuantity)
    ensures newQuantity >= 0 ==> next.editingId == None && next.editValue == ""
    ensures newQuantity < 0 ==> db.inventory == old(db.inventory) && toast == "Quantity cannot be negative"
    ensures db.requests == old(db.requests) && db.camps == old(db.camps)
    ensures db.appointments == old(db.appointments) && db.history == old(db.history)
    ensures db.donors == old(db.donors) && db.receivers == old(db.receivers)
  {
    ParseEditOfQuantity(newQuantity);
    next, toast := HandleSave(db, HandleEdit(page, bloodType, newQuantity), bloodType);
  }

  /** The increment button as intended. */
  method HandleIncrementIntended(db: Store, page: InventoryPage, bloodType: string, currentQuantity: int)
    returns (next: InventoryPage, toast: string)
    modifies db
    ensures currentQuantity >= -1 ==> db.inventory == SetQuantity(old(db.inventory), bloodType, currentQuantity + 1)
    ensures db.requests == old(db.requests) && db.camps == old(db.camps)
    ensures db.appointments == old(db.appointments) && db.history == old(db.history)
    ensures db.donors == old(db.donors) && db.receivers == old(db.receivers)
  {
    next, toast := SaveQuantity(db, page, bloodType, currentQuantity + 1);
  }

  /** The decrement button as intended: one unit less, never below zero. */
  method HandleDecrementIntended(db: Store, page: InventoryPage, bloodType: string, currentQuantity: int)
    returns (next: InventoryPage, toast: Option<string>)
    modifies db
    ensures currentQuantity > 0 ==> db.inventory == SetQuantity(old(db.inventory), bloodType, currentQuantity - 1)
    ensures currentQuantity <= 0 ==> next == page && toast == None && db.inventory == old(db.inventory)
    ensures db.requests == old(db.requests) && db.camps == old(db.camps)
    ensures db.appointments == old(db.appointments) && db.history == old(db.history)
    ensures db.donors == old(db.donors) && db.receivers == old(db.receivers)
  {
    if currentQuantity > 0 {
      var message;
      next, message := SaveQuantity(db, page, bloodType, currentQuantity - 1);
      toast := Some(message);
    } else {
      next, toast := page, None;
    }
  }

  /** The decrement button is greyed out only at exactly zero units. */
  predicate DecrementDisabled(quantity: int)
  {
    quantity == 0
  }

  /**
   * `handleDecrement` as written: below one unit it does nothing; otherwise it
   * has the same stale read of the edit box as the increment button.
   */
  method HandleDecrement(db: Store, page: InventoryPage, bloodType: string, currentQuantity: int)
    returns (next: InventoryPage, toast: Option<string>)
    modifies db
    ensures currentQuantity <= 0 ==> next == page && toast == None && db.inventory == old(db.inventory)
    ensures currentQuantity > 0 ==> db.inventory == SaveEffect(old(db.inventory), page.editValue, bloodType)
    ensures currentQuantity > 0 && ParseEdit(page.editValue).Invalid? ==>
      next == HandleEdit(page, bloodType, currentQuantity - 1) && toast == Some(ParseEdit(page.editValue).message)
    ensures currentQuantity > 0 && ParseEdit(page.editValue).Valid? ==>
      toast.Some? && SavedPage(old(db.inventory), page, bloodType, ParseEdit(page.editValue).quantity, next, toast.value)
    ensures db.requests == old(db.requests) && db.camps == old(db.camps)
    ensures db.appointments == old(db.appointments) && db.history == old(db.history)
    ensures db.donors == old(db.donors) && db.receivers == old(db.receivers)
  {
    if currentQuantity > 0 {
      var edited := HandleEdit(page, bloodType, currentQuantity - 1);
      var message;
      next, message := HandleSave(db, page, bloodType);
      if ParseEdit(page.editValue).Invalid? {
        next := edited;
      }
      toast := Some(message);
    } else {
      next, toast := page, None;
    }
  }

  /** An enabled decrement button on a row the approvals drove negative does nothing. */
  lemma DecrementEnabledButIdle(quantity: int)
    requires quantity < 0
    ensures !DecrementDisabled(quantity) && !(quantity > 0)
  {
  }

  /** The critical-levels panel. */
  function CriticalItems(inv: seq<InventoryItem>): (r: seq<InventoryItem>)
    ensures Subseq(r, inv)
    ensures forall i :: 0 <= i < |r| ==> r[i].status == StockStatus.Critical
    ensures forall i :: 0 <= i < |inv| && inv[i].status == StockStatus.Critical ==> inv[i] in r
    ensures multiset(r) <= multiset(inv)
    ensures forall i :: 0 <= i < |inv| && inv[i].status == StockStatus.Critical ==> multiset(r)[inv[i]] == multiset(inv)[inv[i]]
  {
    var p := (item: InventoryItem) => item.status == StockStatus.Critical;
    var r := Filter(inv, p);
    FilterMultiset(inv, p);
    assert forall i :: 0 <= i < |inv| ==> (p(inv[i]) <==> inv[i].status == StockStatus.Critical);
    assert forall i :: 0 <= i < |r| ==> p(r[i]);
    r
  }

  /** On the seed data the panel lists B- and AB-. */
  lemma SeedCriticalPanel()
    ensures |CriticalItems(SeedInventory)| == 2
  {
    var p := (item: InventoryItem) => item.status == StockStatus.Critical;
    var s := SeedInventory;
    assert !p(s[0]) && !p(s[1]) && !p(s[2]) && p(s[3]) && !p(s[4]) && p(s[5]) && !p(s[6]) && !p(s[7]);
    CountThirdAndFifth(s, p);
  }
}
