/** The directory of venture-capital firms: the firm record, the three facet
    selections, the search-and-filter predicate that decides which firms are
    shown, facet and bookmark toggling, and the shortlist of bookmarked firms. */
module Directory {
  import opened Seqs
  import opened Strings

  /** One catalog entry. The three tag lists are arrays in the catalog, so they keep order and may repeat. */
  datatype Firm = Firm(
    id: string,
    name: string,
    website: string,
    hq: string,
    regions: seq<string>,
    stages: seq<string>,
    sectors: seq<string>,
    ticket: string)

  /** The three facets a firm is tagged under. */
  datatype Facet = Regions | Stages | Sectors

  /** The chosen chips of each facet. An empty facet constrains nothing. */
  datatype Selection = Selection(regions: set<string>, stages: set<string>, sectors: set<string>)
  {
    /** `selected[key]`. */
    function Chosen(facet: Facet): set<string>
    {
      match facet
      case Regions => regions
      case Stages => stages
      case Sectors => sectors
    }

    /** `{ ...selected, [key]: chosen }`: one facet replaced, the other two kept. */
    function With(facet: Facet, chosen: set<string>): (r: Selection)
      ensures r.Chosen(facet) == chosen
      ensures forall g :: g != facet ==> r.Chosen(g) == Chosen(g)
    {
      match facet
      case Regions => this.(regions := chosen)
      case Stages => this.(stages := chosen)
      case Sectors => this.(sectors := chosen)
    }
  }

  /** `f[key]`: the firm's tags under one facet. */
  function Tags(f: Firm, facet: Facet): seq<string>
  {
    match facet
    case Regions => f.regions
    case Stages => f.stages
    case Sectors => f.sectors
  }

  /** The selection the page starts with: region "India", no stage, no sector. */
  const InitialSelection := Selection({"India"}, {}, {})

  /** A selection with every facet empty. */
  const NoSelection := Selection({}, {}, {})

  // ---------- text search ----------

  /** The fields searched, in the order they are joined: name, hq, ticket, then every region, stage and sector tag. */
  function SearchFields(f: Firm): seq<string>
  {
    [f.name, f.hq, f.ticket] + f.regions + f.stages + f.sectors
  }

  /** The lower-cased, space-joined text a query is looked up in. */
  function SearchText(f: Firm): string
  {
    Lower(Join(SearchFields(f), " "))
  }

  /** `query.trim().toLowerCase()`. */
  function NormalizeQuery(query: string): string
  {
    Lower(Trim(query))
  }

  /** The text test, for an already normalized query `q`: an empty query passes every firm. */
  predicate MatchesQuery(f: Firm, q: string)
  {
    q == "" || Includes(SearchText(f), q)
  }

  // ---------- facets ----------

  /** `tags.some((t) => chosen.has(t))`. */
  function SomeTagIn(tags: seq<string>, chosen: set<string>): (r: bool)
    ensures r <==> exists i :: 0 <= i < |tags| && tags[i] in chosen
  {
    if tags == [] then false
    else
      assert forall i :: 0 < i < |tags| ==> tags[i] == tags[1..][i - 1];
      tags[0] in chosen || SomeTagIn(tags[1..], chosen)
  }

  /** One facet's test: an empty selection passes every firm, otherwise one of the firm's tags must be chosen. */
  predicate MatchesFacet(tags: seq<string>, chosen: set<string>)
  {
    chosen == {} || SomeTagIn(tags, chosen)
  }

  /** The three facet tests together. */
  predicate MatchesFacets(f: Firm, sel: Selection)
  {
    MatchesFacet(f.regions, sel.regions) && MatchesFacet(f.stages, sel.stages) && MatchesFacet(f.sectors, sel.sectors)
  }

  /** All four tests, for an already normalized query `q`. */
  predicate Matches(f: Firm, q: string, sel: Selection)
  {
    MatchesQuery(f, q) && MatchesFacets(f, sel)
  }

  // ---------- the filtered list ----------

  /** The firms shown in the directory: exactly the catalog entries that pass
      all four tests, in catalog order. */
  function Filtered(catalog: seq<Firm>, query: string, sel: Selection): (r: seq<Firm>)
    ensures IsSubsequence(r, catalog)
    ensures forall f :: f in r <==> f in catalog && Matches(f, NormalizeQuery(query), sel)
  {
    var q := NormalizeQuery(query);
    FilterIsSubsequence(catalog, f => Matches(f, q, sel));
    Filter(catalog, f => Matches(f, q, sel))
  }

  /** A matching firm is listed as often as it occurs in the catalog; a non-matching one not at all. */
  lemma FilteredMultiplicity(catalog: seq<Firm>, query: string, sel: Selection, f: Firm)
    ensures multiset(Filtered(catalog, query, sel))[f]
         == if Matches(f, NormalizeQuery(query), sel) then multiset(catalog)[f] else 0
  {
    var q := NormalizeQuery(query);
    FilterCount(catalog, g => Matches(g, q, sel), f);
  }

  /** The filter treats each catalog entry on its own: filtering a concatenation filters each part. */
  lemma FilteredAppend(a: seq<Firm>, b: seq<Firm>, query: string, sel: Selection)
    ensures Filtered(a + b, query, sel) == Filtered(a, query, sel) + Filtered(b, query, sel)
  {
    var q := NormalizeQuery(query);
    FilterAppend(a, b, f => Matches(f, q, sel));
  }

  /** A one-firm catalog shows its firm exactly when the firm matches. */
  lemma FilteredSingle(f: Firm, query: string, sel: Selection)
    ensures Filtered([f], query, sel) == if Matches(f, NormalizeQuery(query), sel) then [f] else []
  {
    assert [f][1..] == [];
  }

  /** A query that is empty after trimming leaves only the facet tests: the
      result depends on the selection alone. */
  lemma BlankQueryIgnoresText(catalog: seq<Firm>, query: string, sel: Selection)
    requires Trim(query) == ""
    ensures Filtered(catalog, query, sel) == Filter(catalog, f => MatchesFacets(f, sel))
    ensures Filtered(catalog, query, sel) == Filtered(catalog, "", sel)
  {
    assert Trim("") == "";
    var facets := (f: Firm) => MatchesFacets(f, sel);
    FilterCongruent(catalog, f => Matches(f, NormalizeQuery(query), sel), facets);
    FilterCongruent(catalog, f => Matches(f, NormalizeQuery(""), sel), facets);
  }

  /** With a blank query and no facet chosen, the whole catalog is shown in its own order. */
  lemma NothingChosenShowsAll(catalog: seq<Firm>, query: string)
    requires Trim(query) == ""
    ensures Filtered(catalog, query, NoSelection) == catalog
  {
    BlankQueryIgnoresText(catalog, query, NoSelection);
    FilterKeepsAll(catalog, f => MatchesFacets(f, NoSelection));
  }

  /** When a facet has chips chosen, a firm none of whose tags in that facet is chosen is not shown. */
  lemma FacetExcludes(catalog: seq<Firm>, query: string, sel: Selection, facet: Facet, f: Firm)
    requires sel.Chosen(facet) != {}
    requires forall t :: t in Tags(f, facet) ==> t !in sel.Chosen(facet)
    ensures f !in Filtered(catalog, query, sel)
  {
    assert !SomeTagIn(Tags(f, facet), sel.Chosen(facet));
    assert !MatchesFacets(f, sel);
  }

  /** Queries that differ only in ASCII letter case show the same firms. */
  lemma QueryCaseInsensitive(catalog: seq<Firm>, q1: string, q2: string, sel: Selection)
    requires Lower(q1) == Lower(q2)
    ensures Filtered(catalog, q1, sel) == Filtered(catalog, q2, sel)
  {
    LowerTrim(q1);
    LowerTrim(q2);
    assert NormalizeQuery(q1) == NormalizeQuery(q2);
  }

  /** A query found, ignoring ASCII case, in a run of adjacent searched fields
      (one field, or several joined with spaces) passes the text test. */
  lemma FieldsHit(f: Firm, query: string, i: nat, j: nat)
    requires i < j <= |SearchFields(f)|
    requires Includes(Lower(Join(SearchFields(f)[i..j], " ")), NormalizeQuery(query))
    ensures MatchesQuery(f, NormalizeQuery(query))
  {
    var run := Join(SearchFields(f)[i..j], " ");
    JoinSliceIsInfix(SearchFields(f), " ", i, j);
    LowerInfix(run, Join(SearchFields(f), " "));
    InfixTransitive(NormalizeQuery(query), Lower(run), SearchText(f));
  }

  /** A query found, ignoring ASCII case, in one of a firm's tags passes the text test. */
  lemma TagHit(f: Firm, query: string, facet: Facet, i: nat)
    requires i < |Tags(f, facet)|
    requires Includes(Lower(Tags(f, facet)[i]), NormalizeQuery(query))
    ensures MatchesQuery(f, NormalizeQuery(query))
  {
    var k := TagPosition(f, facet, i);
    var fields := SearchFields(f);
    assert Join(fields[k..k + 1], " ") == Tags(f, facet)[i] by {
      SingleJoin(fields, k, " ");
    }
    FieldsHit(f, query, k, k + 1);
  }

  /** Where a firm's `i`-th tag of a facet sits among its searched fields. */
  function TagPosition(f: Firm, facet: Facet, i: nat): (k: nat)
    requires i < |Tags(f, facet)|
    ensures k < |SearchFields(f)| && SearchFields(f)[k] == Tags(f, facet)[i]
  {
    var head := [f.name, f.hq, f.ticket];
    assert SearchFields(f) == head + f.regions + f.stages + f.sectors;
    match facet
    case Regions =>
      assert (head + f.regions)[3 + i] == f.regions[i];
      3 + i
    case Stages =>
      assert (head + f.regions + f.stages)[3 + |f.regions| + i] == f.stages[i];
      3 + |f.regions| + i
    case Sectors =>
      3 + |f.regions| + |f.stages| + i
  }

  /** The join of a one-field run is that field. */
  lemma SingleJoin(fields: seq<string>, k: nat, sep: string)
    requires k < |fields|
    ensures Join(fields[k..k + 1], sep) == fields[k]
  {
    assert fields[k..k + 1] == [fields[k]];
  }

  // ---------- toggling ----------

  /** `set.has(v) ? set.delete(v) : set.add(v)` on a copy: flips the membership of `v` and of nothing else. */
  function Toggle<T>(s: set<T>, v: T): (r: set<T>)
    ensures v in r <==> v !in s
    ensures r - {v} == s - {v}
  {
    if v in s then s - {v} else s + {v}
  }

  /** Toggling the same value twice restores the set. */
  lemma ToggleTwice<T>(s: set<T>, v: T)
    ensures Toggle(Toggle(s, v), v) == s
  {
  }

  /** The `Filters.toggle` updater: flips `v` in one facet and keeps the other two. */
  function ToggleFacet(sel: Selection, facet: Facet, v: string): (r: Selection)
    ensures r.Chosen(facet) == Toggle(sel.Chosen(facet), v)
    ensures forall g :: g != facet ==> r.Chosen(g) == sel.Chosen(g)
  {
    sel.With(facet, Toggle(sel.Chosen(facet), v))
  }

  /** Toggling the same chip twice restores the selection. */
  lemma ToggleFacetTwice(sel: Selection, facet: Facet, v: string)
    ensures ToggleFacet(ToggleFacet(sel, facet, v), facet, v) == sel
  {
    var r := ToggleFacet(ToggleFacet(sel, facet, v), facet, v);
    ToggleTwice(sel.Chosen(facet), v);
    assert r.Chosen(Regions) == sel.Chosen(Regions);
    assert r.Chosen(Stages) == sel.Chosen(Stages);
    assert r.Chosen(Sectors) == sel.Chosen(Sectors);
  }

  // ---------- bookmarks ----------

  /** `bookmarkedList`: the catalog entries whose id is bookmarked, in catalog order. */
  function BookmarkedList(catalog: seq<Firm>, bookmarks: set<string>): (r: seq<Firm>)
    ensures IsSubsequence(r, catalog)
    ensures forall f :: f in r <==> f in catalog && f.id in bookmarks
  {
    FilterIsSubsequence(catalog, (f: Firm) => f.id in bookmarks);
    Filter(catalog, (f: Firm) => f.id in bookmarks)
  }

  /** A bookmarked firm is listed as often as the catalog holds it; any other firm not at all. */
  lemma BookmarkedMultiplicity(catalog: seq<Firm>, bookmarks: set<string>, f: Firm)
    ensures multiset(BookmarkedList(catalog, bookmarks))[f] == if f.id in bookmarks then multiset(catalog)[f] else 0
  {
    FilterCount(catalog, (g: Firm) => g.id in bookmarks, f);
  }

  /** The ids of the catalog's firms. */
  function CatalogIds(catalog: seq<Firm>): set<string>
  {
    set f | f in catalog :: f.id
  }

  /** Bookmarked ids that name no catalog firm have no effect on the shortlist. */
  lemma UnknownBookmarksIgnored(catalog: seq<Firm>, bookmarks: set<string>)
    ensures BookmarkedList(catalog, bookmarks) == BookmarkedList(catalog, bookmarks * CatalogIds(catalog))
  {
    FilterCongruent(catalog, (f: Firm) => f.id in bookmarks, (f: Firm) => f.id in bookmarks * CatalogIds(catalog));
  }

  /** Toggling a catalog firm's id puts it on the shortlist exactly when it was not bookmarked before. */
  lemma ToggleBookmarkFlipsShortlist(catalog: seq<Firm>, bookmarks: set<string>, f: Firm)
    requires f in catalog
    ensures f in BookmarkedList(catalog, Toggle(bookmarks, f.id)) <==> f !in BookmarkedList(catalog, bookmarks)
  {
  }

  /** Toggling an id that names no catalog firm leaves the shortlist as it was. */
  lemma ToggleUnknownBookmark(catalog: seq<Firm>, bookmarks: set<string>, id: string)
    requires id !in CatalogIds(catalog)
    ensures BookmarkedList(catalog, Toggle(bookmarks, id)) == BookmarkedList(catalog, bookmarks)
  {
    assert forall f :: f in catalog ==> f.id != id;
    FilterCongruent(catalog, (f: Firm) => f.id in Toggle(bookmarks, id), (f: Firm) => f.id in bookmarks);
  }
}
