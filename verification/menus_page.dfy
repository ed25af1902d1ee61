/** The menus list page: the search filter and the establishment count. */
module MenusPage {
  import opened Text
  import Seqs

  /** The fields of a menu the filter and the card read; `establishments`
      holds the names of the establishments the menu is linked to. */
  datatype Menu = Menu(id: string, name: string, description: string, establishments: seq<string>)

  /** The search test: the name or the description contains the query,
      ignoring case. */
  predicate MatchesSearch(menu: Menu, query: string) {
    IncludesIgnoringCase(menu.name, query) || IncludesIgnoringCase(menu.description, query)
  }

  function Matching(query: string): Menu -> bool {
    menu => MatchesSearch(menu, query)
  }

  /** `filteredMenus`. */
  function FilteredMenus(menus: seq<Menu>, query: string): seq<Menu> {
    Seqs.Filter(menus, Matching(query))
  }

  /** `establishment` with an `s` unless the menu is linked to exactly one. */
  function EstablishmentsCaption(menu: Menu): (caption: string)
    ensures caption == "establishment" <==> |menu.establishments| == 1
    ensures caption == "establishments" <==> |menu.establishments| != 1
  {
    "establishment" + (if |menu.establishments| != 1 then "s" else "")
  }

  /** The empty query keeps every menu. */
  lemma {:induction false} EmptyQueryKeepsAll(menus: seq<Menu>)
    ensures FilteredMenus(menus, "") == menus
  {
    forall menu | menu in menus
      ensures Matching("")(menu)
    {
      IncludesIgnoringCaseFacts(menu.name, "");
    }
    Seqs.FilterKeepsAll(menus, Matching(""));
  }

  /** The result keeps menus in their order, and keeps exactly those
      whose lower-cased name or description contains the lower-cased query. */
  lemma FilterMeaning(menus: seq<Menu>, query: string, menu: Menu)
    ensures Seqs.IsSubsequence(FilteredMenus(menus, query), menus)
    ensures menu in FilteredMenus(menus, query) <==>
            menu in menus &&
            (Contains(Lower(menu.name), Lower(query)) || Contains(Lower(menu.description), Lower(query)))
  {
    Seqs.FilterIsSubsequence(menus, Matching(query));
  }

  /** Filtering the filtered list with the same query changes nothing. */
  lemma FilterIdempotent(menus: seq<Menu>, query: string)
    ensures FilteredMenus(FilteredMenus(menus, query), query) == FilteredMenus(menus, query)
  {
    Seqs.FilterIdempotent(menus, Matching(query));
  }
}
