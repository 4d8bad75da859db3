/**
 * The two item forms of the page: the add form, whose fields start from the
 * first entry of each reference list, and the update-details form, whose
 * fields start from the selected item. A form is its field values; the user
 * edits fields one at a time and the submit button turns the fields into the
 * request body.
 */
module Forms {
  import opened Options
  import opened Inventory

  const SolidType: string := "SOLID"

  /** `{ id: … }`, the shape the add request uses for location and category. */
  datatype IdRef = IdRef(id: int)

  /** The body of the add request. */
  datatype AddPayload = AddPayload(
    name: string,
    itemType: string,
    importDate: string,
    location: IdRef,
    category: IdRef,
    expirationDate: string,
    casNumber: string,
    originalQuantityAmount: int,
    quantityUnit: string)

  datatype AddForm = AddForm(
    name: string,
    importDate: string,
    locationId: int,
    categoryId: int,
    expirationDate: string,
    casNumber: string,
    originalQuantityAmount: int,
    quantityUnit: string)

  datatype AddEdit =
    | EditName(name: string)
    | EditImportDate(importDate: string)
    | EditLocation(locationId: int)
    | EditCategory(categoryId: int)
    | EditExpirationDate(expirationDate: string)
    | EditCasNumber(casNumber: string)
    | EditQuantity(amount: int)
    | EditUnit(unit: string)

  /** `xs[0]?.id || 0`; a first id of 0 is falsy but falls back to the same 0. */
  function FirstLocationId(locations: seq<Location>): int {
    if |locations| > 0 then locations[0].id else 0
  }

  function FirstCategoryId(categories: seq<Category>): int {
    if |categories| > 0 then categories[0].id else 0
  }

  /** `units[0]?.quantityUnit || ''`; an empty first unit falls back to the same ''. */
  function FirstUnit(units: seq<Unit>): string {
    if |units| > 0 then units[0].quantityUnit else ""
  }

  /**
   * The add form as it opens. `today` and `inFourMonths` are the two dates the
   * form derives from the clock; they are parameters here.
   */
  function NewAddForm(locations: seq<Location>, categories: seq<Category>, units: seq<Unit>,
                      today: string, inFourMonths: string): (f: AddForm)
    ensures f.name == "" && f.casNumber == "" && f.originalQuantityAmount == 0
    ensures |locations| > 0 ==> f.locationId == locations[0].id
    ensures |locations| == 0 ==> f.locationId == 0
    ensures |categories| > 0 ==> f.categoryId == categories[0].id
    ensures |categories| == 0 ==> f.categoryId == 0
    ensures |units| > 0 ==> f.quantityUnit == units[0].quantityUnit
    ensures |units| == 0 ==> f.quantityUnit == ""
  {
    AddForm("", today, FirstLocationId(locations), FirstCategoryId(categories),
            inFourMonths, "", 0, FirstUnit(units))
  }

  function ApplyAddEdit(f: AddForm, e: AddEdit): AddForm {
    match e
    case EditName(x) => f.(name := x)
    case EditImportDate(x) => f.(importDate := x)
    case EditLocation(x) => f.(locationId := x)
    case EditCategory(x) => f.(categoryId := x)
    case EditExpirationDate(x) => f.(expirationDate := x)
    case EditCasNumber(x) => f.(casNumber := x)
    case EditQuantity(x) => f.(originalQuantityAmount := x)
    case EditUnit(x) => f.(quantityUnit := x)
  }

  function ApplyAddEdits(f: AddForm, es: seq<AddEdit>): AddForm
    decreases |es|
  {
    if |es| == 0 then f else ApplyAddEdits(ApplyAddEdit(f, es[0]), es[1..])
  }

  /** The request body built by the add form's submit handler. */
  function SubmitAdd(f: AddForm): (p: AddPayload)
    ensures p.itemType == SolidType
    ensures p.location.id == f.locationId && p.category.id == f.categoryId
    ensures p.name == f.name && p.casNumber == f.casNumber && p.quantityUnit == f.quantityUnit
    ensures p.importDate == f.importDate && p.expirationDate == f.expirationDate
    ensures p.originalQuantityAmount == f.originalQuantityAmount
  {
    AddPayload(f.name, SolidType, f.importDate, IdRef(f.locationId), IdRef(f.categoryId),
               f.expirationDate, f.casNumber, f.originalQuantityAmount, f.quantityUnit)
  }

  predicate TouchesLocation(e: AddEdit) { e.EditLocation? }
  predicate TouchesCategory(e: AddEdit) { e.EditCategory? }
  predicate TouchesUnit(e: AddEdit) { e.EditUnit? }

  /** Edits to other fields leave location, category and unit as they were. */
  lemma {:induction false} AddEditsKeepUntouched(f: AddForm, es: seq<AddEdit>)
    ensures (forall i :: 0 <= i < |es| ==> !TouchesLocation(es[i])) ==>
              ApplyAddEdits(f, es).locationId == f.locationId
    ensures (forall i :: 0 <= i < |es| ==> !TouchesCategory(es[i])) ==>
              ApplyAddEdits(f, es).categoryId == f.categoryId
    ensures (forall i :: 0 <= i < |es| ==> !TouchesUnit(es[i])) ==>
              ApplyAddEdits(f, es).quantityUnit == f.quantityUnit
    ensures ApplyAddEdits(f, es).name == f.name || exists i :: 0 <= i < |es| && es[i].EditName?
    decreases |es|
  {
    if |es| > 0 {
      AddEditsKeepUntouched(ApplyAddEdit(f, es[0]), es[1..]);
      var g := ApplyAddEdit(f, es[0]);
      if ApplyAddEdits(f, es).name != f.name {
        if ApplyAddEdits(g, es[1..]).name != g.name {
          var i :| 0 <= i < |es[1..]| && es[1..][i].EditName?;
          assert es[i + 1].EditName?;
        } else {
          assert es[0].EditName?;
        }
      }
    }
  }

  /**
   * Submitting the add form without touching location, category or unit sends
   * the first reference entries (or 0 and '' when a list is empty) and the
   * type 'SOLID'.
   */
  lemma {:induction false} AddFormDefaults(locations: seq<Location>, categories: seq<Category>, units: seq<Unit>,
                        today: string, inFourMonths: string, es: seq<AddEdit>)
    requires forall i :: 0 <= i < |es| ==>
               !TouchesLocation(es[i]) && !TouchesCategory(es[i]) && !TouchesUnit(es[i])
    ensures var p := SubmitAdd(ApplyAddEdits(NewAddForm(locations, categories, units, today, inFourMonths), es));
            && p.itemType == SolidType
            && p.location == IdRef(if |locations| > 0 then locations[0].id else 0)
            && p.category == IdRef(if |categories| > 0 then categories[0].id else 0)
            && p.quantityUnit == (if |units| > 0 then units[0].quantityUnit else "")
  {
    AddEditsKeepUntouched(NewAddForm(locations, categories, units, today, inFourMonths), es);
  }

  // ---------------------------------------------------------------------------
  // Update-details form

  /** The body of the update-details request. */
  datatype DetailsPayload = DetailsPayload(name: string, casNumber: string, categoryId: int, locationId: int)

  datatype DetailsForm = DetailsForm(name: string, casNumber: string, locationId: int, categoryId: int)

  datatype DetailsEdit =
    | EditDetailsName(name: string)
    | EditDetailsCasNumber(casNumber: string)
    | EditDetailsLocation(locationId: int)
    | EditDetailsCategory(categoryId: int)

  /** The form opened for `item`: `item.casNumber || ''` turns a null CAS number into ''. */
  function NewDetailsForm(item: Item): (f: DetailsForm)
    ensures f.name == item.name
    ensures f.locationId == item.location.id && f.categoryId == item.category.id
    ensures item.casNumber.Some? ==> f.casNumber == item.casNumber.value
    ensures item.casNumber.None? ==> f.casNumber == ""
  {
    DetailsForm(item.name, item.casNumber.GetOr(""), item.location.id, item.category.id)
  }

  function ApplyDetailsEdit(f: DetailsForm, e: DetailsEdit): DetailsForm {
    match e
    case EditDetailsName(x) => f.(name := x)
    case EditDetailsCasNumber(x) => f.(casNumber := x)
    case EditDetailsLocation(x) => f.(locationId := x)
    case EditDetailsCategory(x) => f.(categoryId := x)
  }

  function ApplyDetailsEdits(f: DetailsForm, es: seq<DetailsEdit>): DetailsForm
    decreases |es|
  {
    if |es| == 0 then f else ApplyDetailsEdits(ApplyDetailsEdit(f, es[0]), es[1..])
  }

  function SubmitDetails(f: DetailsForm): (p: DetailsPayload)
    ensures p.name == f.name && p.casNumber == f.casNumber
    ensures p.locationId == f.locationId && p.categoryId == f.categoryId
  {
    DetailsPayload(f.name, f.casNumber, f.categoryId, f.locationId)
  }

  /** The four fields of the details form. */
  datatype DetailsField = NameField | CasNumberField | LocationField | CategoryField

  /** A field's value: the text fields hold strings, the dropdowns hold ids. */
  datatype FieldValue = Text(text: string) | Id(id: int)

  function FieldOf(e: DetailsEdit): DetailsField {
    match e
    case EditDetailsName(_) => NameField
    case EditDetailsCasNumber(_) => CasNumberField
    case EditDetailsLocation(_) => LocationField
    case EditDetailsCategory(_) => CategoryField
  }

  function EditValue(e: DetailsEdit): FieldValue {
    match e
    case EditDetailsName(x) => Text(x)
    case EditDetailsCasNumber(x) => Text(x)
    case EditDetailsLocation(x) => Id(x)
    case EditDetailsCategory(x) => Id(x)
  }

  function FieldValueOf(f: DetailsForm, k: DetailsField): FieldValue {
    match k
    case NameField => Text(f.name)
    case CasNumberField => Text(f.casNumber)
    case LocationField => Id(f.locationId)
    case CategoryField => Id(f.categoryId)
  }

  /** No edit after position i touches the field edit i touches. */
  predicate LastOfItsField(es: seq<DetailsEdit>, i: nat)
    requires i < |es|
  {
    forall j :: i < j < |es| ==> FieldOf(es[j]) != FieldOf(es[i])
  }

  /** Every edit only changes its own field; the last edit of a field decides its value. */
  lemma {:induction false} DetailsEditsLastWins(f: DetailsForm, es: seq<DetailsEdit>)
    ensures forall k :: (forall j :: 0 <= j < |es| ==> FieldOf(es[j]) != k) ==>
              FieldValueOf(ApplyDetailsEdits(f, es), k) == FieldValueOf(f, k)
    ensures forall i :: 0 <= i < |es| && LastOfItsField(es, i) ==>
              FieldValueOf(ApplyDetailsEdits(f, es), FieldOf(es[i])) == EditValue(es[i])
    decreases |es|
  {
    if |es| > 0 {
      var g := ApplyDetailsEdit(f, es[0]);
      DetailsEditsLastWins(g, es[1..]);
      assert ApplyDetailsEdits(f, es) == ApplyDetailsEdits(g, es[1..]);
      forall k | forall j :: 0 <= j < |es| ==> FieldOf(es[j]) != k
        ensures FieldValueOf(ApplyDetailsEdits(f, es), k) == FieldValueOf(f, k)
      {
        assert FieldOf(es[0]) != k;
        assert forall j :: 0 <= j < |es[1..]| ==> FieldOf(es[1..][j]) != k by {
          forall j | 0 <= j < |es[1..]| ensures FieldOf(es[1..][j]) != k {
            assert es[1..][j] == es[j + 1];
          }
        }
      }
      forall i | 0 <= i < |es| && LastOfItsField(es, i)
        ensures FieldValueOf(ApplyDetailsEdits(f, es), FieldOf(es[i])) == EditValue(es[i])
      {
        if i == 0 {
          assert forall j :: 0 <= j < |es[1..]| ==> FieldOf(es[1..][j]) != FieldOf(es[0]) by {
            forall j | 0 <= j < |es[1..]| ensures FieldOf(es[1..][j]) != FieldOf(es[0]) {
              assert es[1..][j] == es[j + 1];
            }
          }
        } else {
          assert es[1..][i - 1] == es[i];
          assert LastOfItsField(es[1..], i - 1) by {
            forall j | i - 1 < j < |es[1..]| ensures FieldOf(es[1..][j]) != FieldOf(es[1..][i - 1]) {
              assert es[1..][j] == es[j + 1];
            }
          }
        }
      }
    }
  }

  /**
   * Submitting the details form sends the item's own value for every field the
   * user did not edit, with a null CAS number sent as ''.
   */
  lemma {:induction false} DetailsFormDefaults(item: Item, es: seq<DetailsEdit>)
    ensures var p := SubmitDetails(ApplyDetailsEdits(NewDetailsForm(item), es));
            && ((forall i :: 0 <= i < |es| ==> !es[i].EditDetailsName?) ==> p.name == item.name)
            && ((forall i :: 0 <= i < |es| ==> !es[i].EditDetailsCasNumber?) ==>
                  p.casNumber == (if item.casNumber.Some? then item.casNumber.value else ""))
            && ((forall i :: 0 <= i < |es| ==> !es[i].EditDetailsCategory?) ==>
                  p.categoryId == item.category.id)
            && ((forall i :: 0 <= i < |es| ==> !es[i].EditDetailsLocation?) ==>
                  p.locationId == item.location.id)
  {
    var f := NewDetailsForm(item);
    DetailsEditsLastWins(f, es);
    var r := ApplyDetailsEdits(f, es);
    if forall i :: 0 <= i < |es| ==> !es[i].EditDetailsName? {
      assert FieldValueOf(r, NameField) == FieldValueOf(f, NameField);
    }
    if forall i :: 0 <= i < |es| ==> !es[i].EditDetailsCasNumber? {
      assert FieldValueOf(r, CasNumberField) == FieldValueOf(f, CasNumberField);
    }
    if forall i :: 0 <= i < |es| ==> !es[i].EditDetailsCategory? {
      assert FieldValueOf(r, CategoryField) == FieldValueOf(f, CategoryField);
    }
    if forall i :: 0 <= i < |es| ==> !es[i].EditDetailsLocation? {
      assert FieldValueOf(r, LocationField) == FieldValueOf(f, LocationField);
    }
  }

  /** A name edit followed by a CAS number edit: the name edit still decides the name. */
  lemma NameEditSurvivesLaterCasEdit(f: DetailsForm)
    ensures ApplyDetailsEdits(f, [EditDetailsName("a"), EditDetailsCasNumber("x")]).name == "a"
  {
    var es := [EditDetailsName("a"), EditDetailsCasNumber("x")];
    DetailsEditsLastWins(f, es);
    assert LastOfItsField(es, 0);
    assert FieldValueOf(ApplyDetailsEdits(f, es), NameField) == Text("a");
  }
}
