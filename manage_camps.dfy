/**
 * The administrator's camp list: the add and edit dialog, its validation,
 * saving through the camp services, and the order camps are shown in.
 *
 * The page keeps the array the store hands it when it loads, so until the
 * page replaces its list it is looking at the store's own array, and changes
 * the store makes in place show through. `sharesStore` records that.
 */
module ManageCamps {
  import opened Wrappers
  import opened Text
  import opened Seqs
  import opened Records
  import opened MockData
  import opened AdminService
  import opened Orders

  datatype CampsPage = CampsPage(
    camps: seq<DonationCamp>, sharesStore: bool, dialogOpen: bool,
    editing: Option<DonationCamp>, form: CampForm)

  /** The form the add dialog starts from. */
  const EmptyForm: CampForm := CampForm("", "", "", "", "", "", 50, "")

  /** The page right after loading, as written: its list is the store's array itself. */
  function LoadCamps(storeCamps: seq<DonationCamp>): (page: CampsPage)
    ensures page.sharesStore && page.camps == storeCamps && !page.dialogOpen && page.editing.None?
  {
    CampsPage(storeCamps, true, false, None, EmptyForm)
  }

  /** Loading as intended: the page keeps a copy of the store's array. */
  function LoadCampsCopy(storeCamps: seq<DonationCamp>): (page: CampsPage)
    ensures !page.sharesStore && page.camps == storeCamps && !page.dialogOpen && page.editing.None?
  {
    CampsPage(storeCamps, false, false, None, EmptyForm)
  }

  /** The list the page currently sees, given the store's array. */
  function CurrentList(page: CampsPage, storeCamps: seq<DonationCamp>): (r: seq<DonationCamp>)
    ensures page.sharesStore ==> r == storeCamps
    ensures !page.sharesStore ==> r == page.camps
  {
    if page.sharesStore then storeCamps else page.camps
  }

  /** `handleOpenAddDialog`: nothing being edited, an empty form, the dialog open. */
  function OpenAddDialog(page: CampsPage): (next: CampsPage)
    ensures next.editing.None? && next.form == EmptyForm && next.dialogOpen
    ensures next.camps == page.camps && next.sharesStore == page.sharesStore
  {
    page.(editing := None, form := EmptyForm, dialogOpen := true)
  }

  /** The edit form copies the camp; only a slot count of 0 falls back to 50. */
  function PrefillForm(camp: DonationCamp): (f: CampForm)
    ensures f.name == camp.name && f.location == camp.location && f.date == camp.date
    ensures f.time == camp.time && f.organizer == camp.organizer && f.contactPhone == camp.contactPhone
    ensures f.description == camp.description
    ensures f.slots == if camp.slots == 0 then 50 else camp.slots
  {
    CampForm(camp.name, camp.location, camp.date, camp.time, camp.organizer, camp.contactPhone,
             if camp.slots == 0 then 50 else camp.slots, camp.description)
  }

  /** `handleOpenEditDialog`. */
  function OpenEditDialog(page: CampsPage, camp: DonationCamp): (next: CampsPage)
    ensures next.editing == Some(camp) && next.form == PrefillForm(camp) && next.dialogOpen
    ensures next.camps == page.camps && next.sharesStore == page.sharesStore
  {
    page.(editing := Some(camp), form := PrefillForm(camp), dialogOpen := true)
  }

  /** `requiredFields`, in the page's order. */
  const RequiredFields: seq<string> := ["name", "location", "date", "time", "organizer", "contactPhone"]

  /** `formData[field]` for the text fields of the form. */
  function FieldValue(f: CampForm, field: string): string
  {
    if field == "name" then f.name
    else if field == "location" then f.location
    else if field == "date" then f.date
    else if field == "time" then f.time
    else if field == "organizer" then f.organizer
    else if field == "contactPhone" then f.contactPhone
    else f.description
  }

  /** `requiredFields.filter(field => !formData[field])`: the required fields left empty. */
  function MissingFields(f: CampForm): (r: seq<string>)
    ensures Subseq(r, RequiredFields)
    ensures forall i :: 0 <= i < |r| ==> FieldValue(f, r[i]) == ""
    ensures forall i :: 0 <= i < |RequiredFields| && FieldValue(f, RequiredFields[i]) == "" ==> RequiredFields[i] in r
  {
    var p := (field: string) => FieldValue(f, field) == "";
    var r := Filter(RequiredFields, p);
    assert forall i :: 0 <= i < |r| ==> p(r[i]);
    r
  }

  /** What `formData[field]` reads for each required field. */
  lemma RequiredValues(f: CampForm)
    ensures FieldValue(f, RequiredFields[0]) == f.name && FieldValue(f, RequiredFields[1]) == f.location
    ensures FieldValue(f, RequiredFields[2]) == f.date && FieldValue(f, RequiredFields[3]) == f.time
    ensures FieldValue(f, RequiredFields[4]) == f.organizer && FieldValue(f, RequiredFields[5]) == f.contactPhone
  {
    assert "location"[0] != "name"[0];
    assert "date"[0] != "name"[0] && "date"[0] != "location"[0];
    assert "time"[0] != "name"[0] && "time"[0] != "location"[0] && "time"[0] != "date"[0];
    assert "organizer"[0] !in "nldt";
    assert "contactPhone"[0] !in "nldto";
  }

  /** A form can be saved exactly when all six required fields are filled; description and slots are free. */
  lemma MissingFieldsNone(f: CampForm)
    ensures MissingFields(f) == [] <==>
      f.name != "" && f.location != "" && f.date != "" && f.time != "" && f.organizer != "" && f.contactPhone != ""
  {
    var r := MissingFields(f);
    RequiredValues(f);
    if r != [] {
      assert r[0] in RequiredFields;
      var j :| 0 <= j < |RequiredFields| && RequiredFields[j] == r[0];
      assert FieldValue(f, RequiredFields[j]) == "";
    }
    if f.name == "" { assert RequiredFields[0] in r; }
    if f.location == "" { assert RequiredFields[1] in r; }
    if f.date == "" { assert RequiredFields[2] in r; }
    if f.time == "" { assert RequiredFields[3] in r; }
    if f.organizer == "" { assert RequiredFields[4] in r; }
    if f.contactPhone == "" { assert RequiredFields[5] in r; }
  }

  /** The empty form cannot be saved: all six required fields are missing. */
  lemma EmptyFormRefused()
    ensures MissingFields(EmptyForm) == RequiredFields
  {
    var p := (field: string) => FieldValue(EmptyForm, field) == "";
    assert forall i :: 0 <= i < |RequiredFields| ==> p(RequiredFields[i]);
    FilterAll(RequiredFields, p);
  }

  /** `prev.map(camp => camp.id === id ? { ...camp, ...formData } : camp)`. */
  function MergeAll(list: seq<DonationCamp>, id: int, form: CampForm): (r: seq<DonationCamp>)
    ensures |r| == |list|
    ensures forall i :: 0 <= i < |list| ==> r[i] == if list[i].id == id then MergeCamp(list[i], form) else list[i]
  {
    seq(|list|, i requires 0 <= i < |list| => if list[i].id == id then MergeCamp(list[i], form) else list[i])
  }

  /**
   * `handleSubmit`. A form with a required field empty is refused and nothing
   * changes. Otherwise the camp being edited is updated in the store, or a
   * new camp is added; on success the page replaces its list and closes the
   * dialog, on failure it shows the service's message.
   */
  method HandleSubmit(db: Store, page: CampsPage) returns (next: CampsPage, toast: string)
    modifies db
    ensures MissingFields(page.form) != [] ==>
      next == page && toast == "Please fill out all required fields" && db.camps == old(db.camps)
    ensures MissingFields(page.form) == [] && page.editing.Some? ==>
      var id := page.editing.value.id;
      db.camps == UpdateCamps(old(db.camps), id, page.form) &&
      if CampIndex(old(db.camps), id).Some? then
        next == page.(camps := MergeAll(CurrentList(page, db.camps), id, page.form), sharesStore := false,
                      dialogOpen := false) &&
        toast == "Donation camp updated successfully"
      else
        next == page && toast == "Donation camp not found"
    ensures MissingFields(page.form) == [] && page.editing.None? ==>
      var added := NewCamp(old(db.camps), page.form);
      db.camps == old(db.camps) + [added] &&
      next == page.(camps := CurrentList(page, db.camps) + [added], sharesStore := false, dialogOpen := false) &&
      toast == "New donation camp added successfully"
    ensures db.inventory == old(db.inventory) && db.requests == old(db.requests)
    ensures db.appointments == old(db.appointments) && db.history == old(db.history)
    ensures db.donors == old(db.donors) && db.receivers == old(db.receivers)
  {
    if MissingFields(page.form) != [] {
      return page, "Please fill out all required fields";
    }
    next := page;
    var result;
    if page.editing.Some? {
      var id := page.editing.value.id;
      result := UpdateDonationCamp(db, id, page.form);
      if result.success {
        next := next.(camps := MergeAll(CurrentList(page, db.camps), id, page.form), sharesStore := false);
      }
    } else {
      result := AddDonationCamp(db, page.form);
      if result.success {
        next := next.(camps := CurrentList(page, db.camps) + [result.data.value], sharesStore := false);
      }
    }
    if result.success {
      toast := if page.editing.Some? then "Donation camp updated successfully" else "New donation camp added successfully";
      next := next.(dialogOpen := false);
    } else {
      toast := result.message;
    }
  }

  /** The list a page sees after adding `added`, the store having appended it. */
  function ListAfterAdd(page: CampsPage, storeCamps: seq<DonationCamp>, added: DonationCamp): seq<DonationCamp>
  {
    CurrentList(page, storeCamps + [added]) + [added]
  }

  /**
   * As written, the first camp added after the page loads is listed twice:
   * the store has already appended it to the array the page is looking at,
   * and the page appends it again.
   */
  lemma AddOnLoadedPageDuplicates(storeCamps: seq<DonationCamp>, form: CampForm)
    ensures var added := NewCamp(storeCamps, form);
      ListAfterAdd(LoadCamps(storeCamps), storeCamps, added) == storeCamps + [added, added]
  {
  }

  /** On the seed camps, the page then shows six entries for five camps. */
  lemma SeedAddShowsSix(form: CampForm)
    ensures |ListAfterAdd(LoadCamps(SeedCamps), SeedCamps, NewCamp(SeedCamps, form))| == 6
    ensures |SeedCamps + [NewCamp(SeedCamps, form)]| == 5
  {
    AddOnLoadedPageDuplicates(SeedCamps, form);
  }

  /** With a copy loaded as intended, the page's list after an add is the store's. */
  lemma AddOnCopyStaysInSync(storeCamps: seq<DonationCamp>, form: CampForm)
    ensures var added := NewCamp(storeCamps, form);
      ListAfterAdd(LoadCampsCopy(storeCamps), storeCamps, added) == storeCamps + [added]
  {
  }

  /** No two camps share an id. */
  ghost predicate DistinctIds(camps: seq<DonationCamp>)
  {
    forall i, j :: 0 <= i < j < |camps| ==> camps[i].id != camps[j].id
  }

  /**
   * Editing keeps an in-sync copy in sync when ids are distinct: merging
   * every camp with the id locally equals the store's merge of the first.
   */
  lemma MergeAllMatchesStore(camps: seq<DonationCamp>, id: int, form: CampForm)
    requires DistinctIds(camps)
    ensures MergeAll(camps, id, form) == UpdateCamps(camps, id, form)
  {
    UpdateCampsEffect(camps, id, form);
  }

  /**
   * Editing on a page that still shares the store's array is harmless: the
   * store has merged the camp already and merging it again changes nothing.
   */
  lemma EditOnLoadedPageAgrees(camps: seq<DonationCamp>, id: int, form: CampForm)
    requires DistinctIds(camps)
    ensures MergeAll(UpdateCamps(camps, id, form), id, form) == UpdateCamps(camps, id, form)
  {
    UpdateCampsEffect(camps, id, form);
    var u := UpdateCamps(camps, id, form);
    assert forall i :: 0 <= i < |u| ==> u[i].id == camps[i].id;
    assert DistinctIds(u);
    MergeAllMatchesStore(u, id, form);
    forall j | 0 <= j < |u| ensures MergeAll(u, id, form)[j] == u[j] {
    }
  }

  /** The seed camps have ids 1 to 4, so no two share one. */
  lemma SeedCampIdsDistinct()
    ensures DistinctIds(SeedCamps)
  {
    SeedIdsSequential();
  }

  // ---------------------------------------------------------------------------
  // Display order

  /** The cards as shown: every camp once, in order of date, earliest first. */
  function DisplayedCamps(camps: seq<DonationCamp>): (r: seq<DonationCamp>)
    ensures multiset(r) == multiset(camps)
    ensures forall i, j :: 0 <= i < j < |r| ==> LexLe(r[i].date, r[j].date)
  {
    SortEarliest(camps, CampDate);
    SortBy(camps, Earliest(CampDate))
  }
}
