/** The menu-item form: its initial state, the field update, the allergen
    checkbox toggle and the cross-contamination switch. */
module MenuItemForm {
  import opened Wrappers
  import Seqs

  type AllergenId = string

  /** The form state. The price is the text typed into its input. */
  datatype FormData = FormData(
    name: string,
    description: string,
    price: string,
    allergens: seq<AllergenId>,
    crossContamination: bool)

  /** The `initialValues` prop; each property may be absent. */
  datatype InitialValues = InitialValues(
    name: Option<string>,
    description: Option<string>,
    price: Option<string>,
    allergens: Option<seq<AllergenId>>,
    crossContamination: Option<bool>)

  /** The default `initialValues = {}`. */
  const NoInitialValues := InitialValues(None, None, None, None, None)

  /** The initial form state: each absent value falls back to `''`, `[]`
      or `false`. For these types `x || d` is `x` when `x` is present,
      because a present falsy value (`''`, `false`) equals its default. */
  function InitialFormData(init: InitialValues): (f: FormData)
    ensures init.name.None? ==> f.name == ""
    ensures init.description.None? ==> f.description == ""
    ensures init.price.None? ==> f.price == ""
    ensures init.allergens.None? ==> f.allergens == []
    ensures init.crossContamination.None? ==> !f.crossContamination
    ensures init.name.Some? ==> f.name == init.name.value
    ensures init.description.Some? ==> f.description == init.description.value
    ensures init.price.Some? ==> f.price == init.price.value
    ensures init.allergens.Some? ==> f.allergens == init.allergens.value
    ensures init.crossContamination.Some? ==> f.crossContamination == init.crossContamination.value
  {
    FormData(
      init.name.GetOr(""),
      init.description.GetOr(""),
      init.price.GetOr(""),
      init.allergens.GetOr([]),
      init.crossContamination.GetOr(false))
  }

  /** The text inputs that call `handleChange`, by their `name` attribute. */
  datatype TextField = Name | Description | Price

  /** `{ ...prev, [name]: value }` for one of the text inputs. */
  function WithField(f: FormData, field: TextField, value: string): FormData {
    match field
    case Name => f.(name := value)
    case Description => f.(description := value)
    case Price => f.(price := value)
  }

  /** The value of a text input in the form state. */
  function FieldText(f: FormData, field: TextField): string {
    match field
    case Name => f.name
    case Description => f.description
    case Price => f.price
  }

  /** The filter test `id => id !== allergenId`. */
  function Other(allergenId: AllergenId): AllergenId -> bool {
    id => id != allergenId
  }

  /** The new allergen list of `handleAllergenToggle`: remove every
      occurrence of a listed id, append an unlisted one. */
  function ToggledAllergens(allergens: seq<AllergenId>, allergenId: AllergenId): seq<AllergenId> {
    if allergenId in allergens then Seqs.Filter(allergens, Other(allergenId))
    else allergens + [allergenId]
  }

  /** No id occurs twice. */
  ghost predicate NoDuplicates(xs: seq<AllergenId>) {
    forall x :: multiset(xs)[x] <= 1
  }

  /** The label of the submit button: `Update Item` when the initial name
      is a non-empty string, `Add Item` otherwise. */
  function SubmitLabel(init: InitialValues): (caption: string)
    ensures caption == "Update Item" <==> init.name.Some? && init.name.value != ""
    ensures caption == "Add Item" <==> !(init.name.Some? && init.name.value != "")
  {
    (if init.name.Some? && init.name.value != "" then "Update" else "Add") + " Item"
  }

  /** The form component's state, which every handler replaces. */
  class MenuItemFormState {
    var formData: FormData

    constructor (init: InitialValues)
      ensures formData == InitialFormData(init)
    {
      formData := InitialFormData(init);
    }

    /** Whether the checkbox of `allergenId` is ticked. */
    function IsChecked(allergenId: AllergenId): bool
      reads this
    {
      allergenId in formData.allergens
    }

    /** `handleChange`: an input event on one of the text inputs. */
    method HandleChange(field: TextField, value: string)
      modifies this
      ensures formData == WithField(old(formData), field, value)
    {
      formData := WithField(formData, field, value);
    }

    /** `handleAllergenToggle`. */
    method HandleAllergenToggle(allergenId: AllergenId)
      modifies this
      ensures formData == old(formData).(allergens := ToggledAllergens(old(formData).allergens, allergenId))
      ensures IsChecked(allergenId) <==> !old(IsChecked(allergenId))
    {
      var allergens := formData.allergens;
      if allergenId in allergens {
        formData := formData.(allergens := Seqs.Filter(allergens, Other(allergenId)));
      } else {
        formData := formData.(allergens := allergens + [allergenId]);
      }
      ToggleFlipsMembership(old(formData).allergens, allergenId, allergenId);
    }

    /** `handleCrossContaminationToggle`. */
    method HandleCrossContaminationToggle(checked: bool)
      modifies this
      ensures formData == old(formData).(crossContamination := checked)
    {
      formData := formData.(crossContamination := checked);
    }
  }

  // ---------------------------------------------------------------------
  // Properties
  // ---------------------------------------------------------------------

  /** Without initial values the form starts empty. */
  lemma EmptyInitialForm()
    ensures InitialFormData(NoInitialValues) == FormData("", "", "", [], false)
  {
  }

  /** `handleChange` sets the named field and keeps every other field. */
  lemma WithFieldChangesOneField(f: FormData, field: TextField, value: string, other: TextField)
    ensures FieldText(WithField(f, field, value), field) == value
    ensures other != field ==> FieldText(WithField(f, field, value), other) == FieldText(f, other)
    ensures WithField(f, field, value).allergens == f.allergens
    ensures WithField(f, field, value).crossContamination == f.crossContamination
  {
  }

  /** Toggling an absent id appends it at the end and keeps the list
      before it as it was. */
  lemma ToggleAbsentAppends(allergens: seq<AllergenId>, allergenId: AllergenId)
    requires allergenId !in allergens
    ensures var r := ToggledAllergens(allergens, allergenId);
            |r| == |allergens| + 1 && r[..|allergens|] == allergens && r[|allergens|] == allergenId
  {
    var r := ToggledAllergens(allergens, allergenId);
    assert r[..|allergens|] == allergens;
  }

  /** Toggling a present id removes every occurrence of it and keeps the
      other ids, with their multiplicities, in their order. */
  lemma TogglePresentRemoves(allergens: seq<AllergenId>, allergenId: AllergenId)
    requires allergenId in allergens
    ensures var r := ToggledAllergens(allergens, allergenId);
            allergenId !in r &&
            Seqs.IsSubsequence(r, allergens) &&
            forall x :: x != allergenId ==> multiset(r)[x] == multiset(allergens)[x]
  {
    Seqs.FilterIsSubsequence(allergens, Other(allergenId));
  }

  /** A toggle flips the membership of its id and of no other id. */
  lemma ToggleFlipsMembership(allergens: seq<AllergenId>, allergenId: AllergenId, x: AllergenId)
    ensures x == allergenId ==> (x in ToggledAllergens(allergens, allergenId) <==> x !in allergens)
    ensures x != allergenId ==> (x in ToggledAllergens(allergens, allergenId) <==> x in allergens)
  {
  }

  /** A toggle keeps a list free of duplicates. */
  lemma ToggleKeepsNoDuplicates(allergens: seq<AllergenId>, allergenId: AllergenId)
    requires NoDuplicates(allergens)
    ensures NoDuplicates(ToggledAllergens(allergens, allergenId))
  {
    var r := ToggledAllergens(allergens, allergenId);
    if allergenId !in allergens {
      forall x ensures multiset(r)[x] <= 1 {
        assert multiset(r) == multiset(allergens) + multiset{allergenId};
      }
    }
  }

  /** Toggling an absent id twice restores the list exactly. */
  lemma {:induction false} ToggleTwiceAbsent(allergens: seq<AllergenId>, allergenId: AllergenId)
    requires allergenId !in allergens
    ensures ToggledAllergens(ToggledAllergens(allergens, allergenId), allergenId) == allergens
  {
    Seqs.FilterAppend(allergens, [allergenId], Other(allergenId));
    Seqs.FilterKeepsAll(allergens, Other(allergenId));
    assert Seqs.Filter([allergenId], Other(allergenId)) == [];
    assert allergens + [] == allergens;
  }

  /** Toggling a present id twice moves it to the end: on a list without
      duplicates the result holds the same ids, but not always in the same
      order. */
  lemma ToggleTwicePresent(allergens: seq<AllergenId>, allergenId: AllergenId)
    requires allergenId in allergens
    ensures ToggledAllergens(ToggledAllergens(allergens, allergenId), allergenId)
              == Seqs.Filter(allergens, Other(allergenId)) + [allergenId]
    ensures NoDuplicates(allergens) ==>
              multiset(ToggledAllergens(ToggledAllergens(allergens, allergenId), allergenId)) == multiset(allergens)
  {
    var once := Seqs.Filter(allergens, Other(allergenId));
    var twice := once + [allergenId];
    if NoDuplicates(allergens) {
      forall x ensures multiset(twice)[x] == multiset(allergens)[x] {
        assert multiset(twice) == multiset(once) + multiset{allergenId};
        if x == allergenId {
          assert multiset(allergens)[x] >= 1;
        }
      }
      assert multiset(twice) == multiset(allergens);
    }
  }

  /** For example, unticking and re-ticking the first of two allergens
      changes the order of the list. */
  lemma ToggleTwiceReorders(gluten: AllergenId, eggs: AllergenId)
    requires gluten == "gluten" && eggs == "eggs"
    ensures ToggledAllergens(ToggledAllergens([gluten, eggs], gluten), gluten) == [eggs, gluten]
  {
    assert gluten != eggs;
    ToggleTwicePresent([gluten, eggs], gluten);
    assert Seqs.Filter([gluten, eggs], Other(gluten)) == [eggs] by {
      assert [gluten, eggs][1..] == [eggs];
      assert [eggs][1..] == [];
    }
  }
}
