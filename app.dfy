/** The `App` component's state: the search query, the three chip selections
    and the bookmarked ids, with the handlers that update them in place and the
    two lists the page derives from them (the directory and the shortlist). */
module App {
  import opened Directory
  import Catalog

  datatype Option<T> = None | Some(value: T)

  /** The bookmarks read back on start-up: `None` when nothing usable is stored
      (no entry, an empty entry, or text that does not parse), otherwise the
      stored id list, whose duplicates collapse into one set element. */
  function LoadBookmarks(stored: Option<seq<string>>): (r: set<string>)
    ensures stored.None? ==> r == {}
    ensures stored.Some? ==> forall id :: id in r <==> id in stored.value
  {
    match stored
    case None => {}
    case Some(ids) => set id | id in ids
  }

  class AppState {
    /** The firms the page lists: always the built-in sample data. */
    const catalog: seq<Firm>
    var query: string
    var regions: set<string>
    var stages: set<string>
    var sectors: set<string>
    var bookmarks: set<string>

    /** The three chip selections as one value. */
    function CurrentSelection(): Selection
      reads this
    {
      Selection(regions, stages, sectors)
    }

    /** The `filtered` list the directory renders. */
    function Visible(): seq<Firm>
      reads this
    {
      Filtered(catalog, query, CurrentSelection())
    }

    /** The `bookmarkedList` the shortlist renders. */
    function Shortlist(): seq<Firm>
      reads this
    {
      BookmarkedList(catalog, bookmarks)
    }

    /** First render: blank query, region "India" chosen, no stage or sector,
        bookmarks restored from storage; the directory then shows the eight
        Indian sample firms. */
    constructor(stored: Option<seq<string>>)
      ensures catalog == Catalog.SampleData
      ensures query == "" && CurrentSelection() == InitialSelection
      ensures bookmarks == LoadBookmarks(stored)
      ensures Visible() == Catalog.SampleData[..8]
    {
      catalog := Catalog.SampleData;
      query := "";
      regions := {"India"};
      stages := {};
      sectors := {};
      bookmarks := LoadBookmarks(stored);
      new;
      Catalog.InitialView();
    }

    /** Typing in the search box replaces the query; selections and bookmarks stay. */
    method SetQuery(q: string)
      modifies this
      ensures query == q
      ensures CurrentSelection() == old(CurrentSelection()) && bookmarks == old(bookmarks)
      ensures Visible() == Filtered(catalog, q, CurrentSelection())
      ensures Shortlist() == old(Shortlist())
    {
      query := q;
    }

    /** Clicking a chip: copies the facet's set, deletes the value if present
        and adds it otherwise, and writes the copy back; the other facets, the
        query and the bookmarks are untouched. */
    method ToggleFacet(facet: Facet, value: string)
      modifies this
      ensures CurrentSelection() == Directory.ToggleFacet(old(CurrentSelection()), facet, value)
      ensures value in CurrentSelection().Chosen(facet) <==> value !in old(CurrentSelection().Chosen(facet))
      ensures query == old(query) && bookmarks == old(bookmarks)
      ensures Shortlist() == old(Shortlist())
    {
      var chosen := CurrentSelection().Chosen(facet);
      if value in chosen {
        chosen := chosen - {value};
      } else {
        chosen := chosen + {value};
      }
      match facet
      case Regions => regions := chosen;
      case Stages => stages := chosen;
      case Sectors => sectors := chosen;
    }

    /** `toggleBookmark`: flips one id in a copy of the bookmark set and stores
        the copy. The directory is unchanged; a catalog firm with that id joins
        the shortlist exactly when it was not on it. */
    method ToggleBookmark(id: string)
      modifies this
      ensures bookmarks == Toggle(old(bookmarks), id)
      ensures id in bookmarks <==> id !in old(bookmarks)
      ensures query == old(query) && CurrentSelection() == old(CurrentSelection())
      ensures Visible() == old(Visible())
      ensures forall f :: f in catalog && f.id == id ==> (f in Shortlist() <==> f !in old(Shortlist()))
      ensures id !in CatalogIds(catalog) ==> Shortlist() == old(Shortlist())
    {
      var next := bookmarks;
      if id in next {
        next := next - {id};
      } else {
        next := next + {id};
      }
      bookmarks := next;
      if id !in CatalogIds(catalog) {
        ToggleUnknownBookmark(catalog, old(bookmarks), id);
      }
    }

    /** Clicking the same chip twice leaves the whole page state as it was. */
    method ToggleFacetTwice(facet: Facet, value: string)
      modifies this
      ensures query == old(query) && bookmarks == old(bookmarks)
      ensures CurrentSelection() == old(CurrentSelection())
      ensures Visible() == old(Visible())
    {
      ToggleFacet(facet, value);
      ToggleFacet(facet, value);
      Directory.ToggleFacetTwice(old(CurrentSelection()), facet, value);
    }

    /** Bookmarking the same firm twice leaves the bookmarks and the shortlist as they were. */
    method ToggleBookmarkTwice(id: string)
      modifies this
      ensures bookmarks == old(bookmarks) && Shortlist() == old(Shortlist())
      ensures query == old(query) && CurrentSelection() == old(CurrentSelection())
    {
      ToggleBookmark(id);
      ToggleBookmark(id);
      ToggleTwice(old(bookmarks), id);
    }
  }
}
