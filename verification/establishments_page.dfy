/** The establishments list page: the search filter, the delete dialog
    and the delete itself, and the active-menu badge. */
module EstablishmentsPage {
  import opened Wrappers
  import opened Text
  import Seqs

  /** The fields of an establishment the page reads. */
  datatype Establishment = Establishment(id: string, name: string, address: string, activeMenus: int)

  /** The search test: the name or the address contains the query,
      ignoring case. */
  predicate MatchesSearch(est: Establishment, query: string) {
    IncludesIgnoringCase(est.name, query) || IncludesIgnoringCase(est.address, query)
  }

  function Matching(query: string): Establishment -> bool {
    est => MatchesSearch(est, query)
  }

  /** `filteredEstablishments`. */
  function FilteredEstablishments(establishments: seq<Establishment>, query: string): seq<Establishment> {
    Seqs.Filter(establishments, Matching(query))
  }

  /** The filter test `est => est.id !== id`. */
  function OtherThan(id: string): Establishment -> bool {
    (est: Establishment) => est.id != id
  }

  /** The list without the establishments whose id is `id`. */
  function WithoutId(establishments: seq<Establishment>, id: string): seq<Establishment> {
    Seqs.Filter(establishments, OtherThan(id))
  }

  /** The word of the badge `N active menu(s)`. */
  function MenuWord(activeMenus: int): (word: string)
    ensures word == "menu" <==> activeMenus == 1
    ensures word == "menus" <==> activeMenus != 1
  {
    if activeMenus == 1 then "menu" else "menus"
  }

  /** The page's state. The list is filled by a data load that is not
      part of this model; the page starts with it empty. */
  class EstablishmentsPageState {
    var establishments: seq<Establishment>
    var searchQuery: string
    var deleteDialogOpen: bool
    var establishmentToDelete: Option<Establishment>

    /** The dialog is only ever open with a target chosen. */
    predicate Valid()
      reads this
    {
      deleteDialogOpen ==> establishmentToDelete.Some?
    }

    constructor ()
      ensures Valid()
      ensures establishments == [] && searchQuery == ""
      ensures !deleteDialogOpen && establishmentToDelete == None
    {
      establishments := [];
      searchQuery := "";
      deleteDialogOpen := false;
      establishmentToDelete := None;
    }

    /** The cards shown. */
    function Shown(): seq<Establishment>
      reads this
    {
      FilteredEstablishments(establishments, searchQuery)
    }

    /** `handleSearch`: the search box changed. */
    method HandleSearch(query: string)
      modifies this
      ensures Valid() == old(Valid())
      ensures searchQuery == query
      ensures establishments == old(establishments)
      ensures deleteDialogOpen == old(deleteDialogOpen) && establishmentToDelete == old(establishmentToDelete)
    {
      searchQuery := query;
    }

    /** `confirmDelete`: choose the target and open the dialog; the list
        is not touched. */
    method ConfirmDelete(est: Establishment)
      modifies this
      ensures Valid()
      ensures establishmentToDelete == Some(est) && deleteDialogOpen
      ensures establishments == old(establishments) && searchQuery == old(searchQuery)
    {
      establishmentToDelete := Some(est);
      deleteDialogOpen := true;
    }

    /** The dialog's `onOpenChange(false)`: Cancel closes it and leaves the
        target as it was. */
    method CloseDialog()
      modifies this
      ensures Valid()
      ensures !deleteDialogOpen
      ensures establishmentToDelete == old(establishmentToDelete)
      ensures establishments == old(establishments) && searchQuery == old(searchQuery)
    {
      deleteDialogOpen := false;
    }

    /** `handleDelete`: drop every establishment with the target's id,
        close the dialog and clear the target. It reads the target's id,
        which is set whenever the dialog's Delete button is shown. */
    method HandleDelete()
      modifies this
      requires establishmentToDelete.Some?
      ensures Valid()
      ensures establishments == WithoutId(old(establishments), old(establishmentToDelete).value.id)
      ensures !deleteDialogOpen && establishmentToDelete == None
      ensures searchQuery == old(searchQuery)
    {
      var id := establishmentToDelete.value.id;
      establishments := Seqs.Filter(establishments, OtherThan(id));
      deleteDialogOpen := false;
      establishmentToDelete := None;
    }
  }

  // ---------------------------------------------------------------------
  // Properties
  // ---------------------------------------------------------------------

  /** While the dialog is open its Delete button can run `handleDelete`. */
  lemma OpenDialogCanDelete(s: EstablishmentsPageState)
    requires s.Valid() && s.deleteDialogOpen
    ensures s.establishmentToDelete.Some?
  {
  }

  /** The empty query keeps every establishment. */
  lemma {:induction false} EmptyQueryKeepsAll(establishments: seq<Establishment>)
    ensures FilteredEstablishments(establishments, "") == establishments
  {
    forall est | est in establishments
      ensures Matching("")(est)
    {
      IncludesIgnoringCaseFacts(est.name, "");
    }
    Seqs.FilterKeepsAll(establishments, Matching(""));
  }

  /** Until something is typed into the search box, every establishment
      is shown. */
  lemma ShownWithEmptySearch(page: EstablishmentsPageState)
    requires page.searchQuery == ""
    ensures page.Shown() == page.establishments
  {
    EmptyQueryKeepsAll(page.establishments);
  }

  /** The result keeps establishments in their order, and keeps exactly
      those whose lower-cased name or address contains the lower-cased query. */
  lemma FilterMeaning(establishments: seq<Establishment>, query: string, est: Establishment)
    ensures Seqs.IsSubsequence(FilteredEstablishments(establishments, query), establishments)
    ensures est in FilteredEstablishments(establishments, query) <==>
            est in establishments &&
            (Contains(Lower(est.name), Lower(query)) || Contains(Lower(est.address), Lower(query)))
  {
    Seqs.FilterIsSubsequence(establishments, Matching(query));
  }

  /** The filter ignores the case of the query. */
  lemma {:induction false} FilterIgnoresQueryCase(establishments: seq<Establishment>, query: string)
    ensures FilteredEstablishments(establishments, Lower(query)) == FilteredEstablishments(establishments, query)
  {
    forall est | est in establishments
      ensures Matching(Lower(query))(est) == Matching(query)(est)
    {
      IncludesIgnoringCaseFacts(est.name, query);
      IncludesIgnoringCaseFacts(est.address, query);
    }
    Seqs.FilterExtensional(establishments, Matching(Lower(query)), Matching(query));
  }

  /** Deleting by id removes every establishment with that id and keeps
      all the others, as often as they occurred, in their order. */
  lemma DeleteMeaning(establishments: seq<Establishment>, id: string)
    ensures forall est :: est in WithoutId(establishments, id) ==> est.id != id
    ensures forall est: Establishment :: est.id != id ==>
              multiset(WithoutId(establishments, id))[est] == multiset(establishments)[est]
    ensures Seqs.IsSubsequence(WithoutId(establishments, id), establishments)
  {
    Seqs.FilterIsSubsequence(establishments, OtherThan(id));
  }
}
