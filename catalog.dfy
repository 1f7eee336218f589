/** The built-in sample catalog, what the directory shows for it on first
    load, and what it shows for a few small catalogs. */
module Catalog {
  import opened Strings
  import opened Directory

  const PeakXV := Firm("peakxv", "Peak XV (formerly Sequoia India/SEA)", "https://www.peakxv.com", "Bengaluru, India",
       ["India", "SEA"], ["Pre-Seed", "Seed", "Series A", "Growth"], ["Consumer", "SaaS", "Fintech", "Health", "AI"],
       "$200k–$20M")
  const Blume := Firm("blume", "Blume Ventures", "https://blume.vc", "Mumbai, India",
       ["India"], ["Pre-Seed", "Seed", "Series A"], ["SaaS", "Consumer", "Deep Tech", "Fintech"],
       "$100k–$5M")
  const AccelIndia := Firm("accelindia", "Accel India", "https://www.accel.com", "Bengaluru, India",
       ["India"], ["Seed", "Series A", "Growth"], ["SaaS", "Consumer", "B2B", "Fintech"],
       "$500k–$20M")
  const LightspeedIndia := Firm("lightspeedindia", "Lightspeed India Partners", "https://lsip.com", "Gurugram, India",
       ["India"], ["Seed", "Series A", "Growth"], ["SaaS", "Consumer", "Fintech", "AI"],
       "$500k–$15M")
  const Elevation := Firm("elevation", "Elevation Capital", "https://www.elevationcapital.com", "Bengaluru, India",
       ["India"], ["Seed", "Series A"], ["Consumer", "Fintech", "SaaS"],
       "$250k–$10M")
  const Nexus := Firm("nexus", "Nexus Venture Partners", "https://nexusvp.com", "Mumbai / Silicon Valley",
       ["India", "USA"], ["Seed", "Series A", "Growth"], ["SaaS", "AI", "Developer Tools", "B2B"],
       "$500k–$30M")
  const Kalaari := Firm("kalaari", "Kalaari Capital", "https://kalaari.com", "Bengaluru, India",
       ["India"], ["Seed", "Series A"], ["Consumer", "Gaming", "SaaS", "Web3"],
       "$200k–$8M")
  const HundredX := Firm("100xvc", "100X.VC", "https://www.100x.vc", "Mumbai, India",
       ["India"], ["Pre-Seed", "Seed"], ["Generalist"],
       "₹1.25Cr iSAFE (standard)")
  const A16z := Firm("a16z", "Andreessen Horowitz (a16z)", "https://a16z.com", "Silicon Valley, USA",
       ["USA", "Global"], ["Seed", "Series A", "Growth"], ["SaaS", "AI", "Bio", "Fintech", "Games"],
       "$1M–$100M")
  const Tiger := Firm("tiger", "Tiger Global", "https://www.tigerglobal.com", "New York, USA",
       ["Global"], ["Growth"], ["Generalist"],
       "$10M+")

  /** The ten sample firms, in display order. */
  const SampleData: seq<Firm> := [PeakXV, Blume, AccelIndia, LightspeedIndia, Elevation,
    Nexus, Kalaari, HundredX, A16z, Tiger]

  /** A firm with an "India" region passes the initial facet tests. */
  lemma IndiaPasses(f: Firm)
    requires "India" in f.regions
    ensures MatchesFacets(f, InitialSelection)
  {
    var i :| 0 <= i < |f.regions| && f.regions[i] == "India";
    assert f.regions[i] in InitialSelection.regions;
  }

  /** A firm without an "India" region fails the initial facet tests. */
  lemma NotIndiaFails(f: Firm)
    requires "India" !in f.regions
    ensures !MatchesFacets(f, InitialSelection)
  {
  }

  /** The initial facet tests keep a catalog's leading Indian firms and drop the rest. */
  lemma IndianPrefixPasses(catalog: seq<Firm>, n: nat)
    requires n <= |catalog|
    requires forall k :: 0 <= k < n ==> "India" in catalog[k].regions
    requires forall k :: n <= k < |catalog| ==> "India" !in catalog[k].regions
    ensures Seqs.Filter(catalog, f => MatchesFacets(f, InitialSelection)) == catalog[..n]
  {
    FacetsSplit(catalog, n);
    Seqs.FilterPrefix(catalog, n, f => MatchesFacets(f, InitialSelection));
  }

  /** Under the initial selection, the firms before `n` pass the facet tests and the rest fail them. */
  lemma FacetsSplit(catalog: seq<Firm>, n: nat)
    requires n <= |catalog|
    requires forall k :: 0 <= k < n ==> "India" in catalog[k].regions
    requires forall k :: n <= k < |catalog| ==> "India" !in catalog[k].regions
    ensures forall k :: 0 <= k < n ==> MatchesFacets(catalog[k], InitialSelection)
    ensures forall k :: n <= k < |catalog| ==> !MatchesFacets(catalog[k], InitialSelection)
  {
    forall k | 0 <= k < n
      ensures MatchesFacets(catalog[k], InitialSelection)
    {
      IndiaPasses(catalog[k]);
    }
    forall k | n <= k < |catalog|
      ensures !MatchesFacets(catalog[k], InitialSelection)
    {
      NotIndiaFails(catalog[k]);
    }
  }

  /** With a blank query and region "India" chosen, a catalog whose Indian
      firms come first shows exactly those, in order. */
  lemma IndianPrefixShown(catalog: seq<Firm>, n: nat)
    requires n <= |catalog|
    requires forall k :: 0 <= k < n ==> "India" in catalog[k].regions
    requires forall k :: n <= k < |catalog| ==> "India" !in catalog[k].regions
    ensures Filtered(catalog, "", InitialSelection) == catalog[..n]
  {
    TrimEmpty();
    BlankQueryIgnoresText(catalog, "", InitialSelection);
    IndianPrefixPasses(catalog, n);
  }

  /** On first load (blank query, region "India" chosen) the sample directory shows its eight Indian firms, in catalog order. */
  lemma InitialView()
    ensures Filtered(SampleData, "", InitialSelection) == SampleData[..8]
  {
    IndianPrefixShown(SampleData, 8);
  }

  // ---------- small catalogs ----------

  /** Firm A is tagged India/Seed, firm B USA/Growth: with region "India" chosen only A is shown. */
  lemma RegionScenario()
    ensures Filtered([Firm("a", "A", "", "", ["India"], ["Seed"], [], ""),
                      Firm("b", "B", "", "", ["USA"], ["Growth"], [], "")], "", InitialSelection)
         == [Firm("a", "A", "", "", ["India"], ["Seed"], [], "")]
  {
    var c := [Firm("a", "A", "", "", ["India"], ["Seed"], [], ""), Firm("b", "B", "", "", ["USA"], ["Growth"], [], "")];
    IndianPrefixShown(c, 1);
    assert c[..1] == [c[0]];
  }

  /** The query "fintech" finds every firm with a "Fintech" sector tag: the match ignores case. */
  lemma FintechScenario(f: Firm, query: string)
    requires "Fintech" in f.sectors && query == "fintech"
    ensures Filtered([f], query, NoSelection) == [f]
  {
    var i :| 0 <= i < |f.sectors| && f.sectors[i] == "Fintech";
    FintechFound(f.sectors[i], query);
    TagHit(f, query, Sectors, i);
    FilteredSingle(f, query, NoSelection);
  }

  /** "Fintech", lower-cased, contains the normalized query "fintech" (for `FintechScenario`). */
  lemma FintechFound(tag: string, query: string)
    requires tag == "Fintech" && query == "fintech"
    ensures Includes(Lower(tag), NormalizeQuery(query))
  {
    FintechQuery(query);
    FintechTag(tag, query);
    IncludesSelf(query);
  }

  /** "fintech" is already normalized (for `FintechScenario`). */
  lemma FintechQuery(query: string)
    requires query == "fintech"
    ensures NormalizeQuery(query) == query
  {
    NormalizeAs(query, query);
  }

  /** The tag "Fintech" lower-cases to "fintech" (for `FintechScenario`). */
  lemma FintechTag(tag: string, r: string)
    requires tag == "Fintech" && r == "fintech"
    ensures Lower(tag) == r
  {
    LowerIs(tag, r);
  }

  /** Every string contains itself. */
  lemma IncludesSelf(s: string)
    ensures Includes(s, s)
  {
    IncludesSlice(s, s, 0);
  }

  /** A firm tagged India, Seed and AI. */
  const Tagged := Firm("t", "T", "", "H", ["India"], ["Seed"], ["AI"], "")

  /** Matching is one substring test, not a test per word: "AI India Seed"
      misses a firm that carries all three words in another order. */
  lemma NoTokenization(query: string)
    requires query == "AI India Seed"
    ensures Filtered([Tagged], query, NoSelection) == []
  {
    // bound with :| so the solver treats the literal as an opaque value, which keeps this proof cheap
    var r :| r == "ai india seed";
    assert NormalizeQuery(query) == r by { NormalizeAs(query, r); }
    TaggedText();
    TextMissed(Tagged, query);
  }

  /** A firm with the `Tagged` search text is hidden by "ai india seed" (for `NoTokenization`). */
  lemma TextMissed(f: Firm, query: string)
    requires SearchText(f) == "t h  india seed ai" && NormalizeQuery(query) == "ai india seed"
    ensures Filtered([f], query, NoSelection) == []
  {
    TaggedTextMisses(SearchText(f), NormalizeQuery(query));
    SearchMissHidden(f, query);
  }

  /** A firm whose search text does not contain the non-empty normalized query is hidden. */
  lemma SearchMissHidden(f: Firm, query: string)
    requires NormalizeQuery(query) != "" && !Includes(SearchText(f), NormalizeQuery(query))
    ensures Filtered([f], query, NoSelection) == []
  {
    FilteredSingle(f, query, NoSelection);
  }

  /** "India Seed" finds the same firm, because a match may run across two adjacent tags. */
  lemma MatchSpansTags(query: string)
    requires query == "India Seed"
    ensures Filtered([Tagged], query, NoSelection) == [Tagged]
  {
    // bound with :| so the solver treats the literal as an opaque value, which keeps this proof cheap
    var r :| r == "india seed";
    assert NormalizeQuery(query) == r by { NormalizeAs(query, r); }
    TaggedFound(query);
  }

  /** "india seed" shows `Tagged` (for `MatchSpansTags`). */
  lemma TaggedFound(query: string)
    requires NormalizeQuery(query) == "india seed"
    ensures Filtered([Tagged], query, NoSelection) == [Tagged]
  {
    TaggedText();
    TextFound(Tagged, query);
  }

  /** A firm with the `Tagged` search text is shown by "india seed" (for `MatchSpansTags`). */
  lemma TextFound(f: Firm, query: string)
    requires SearchText(f) == "t h  india seed ai" && NormalizeQuery(query) == "india seed"
    ensures Filtered([f], query, NoSelection) == [f]
  {
    TaggedTextHits(SearchText(f), NormalizeQuery(query));
    SearchHitShown(f, query);
  }

  /** With nothing chosen, a firm whose search text contains the normalized query is shown. */
  lemma SearchHitShown(f: Firm, query: string)
    requires Includes(SearchText(f), NormalizeQuery(query))
    ensures Filtered([f], query, NoSelection) == [f]
  {
    assert MatchesFacets(f, NoSelection);
    FilteredSingle(f, query, NoSelection);
  }

  /** "ai india seed" does not occur in `Tagged`'s search text: no position where it would fit starts with 'a' (for `NoTokenization`). */
  lemma TaggedTextMisses(text: string, q: string)
    requires text == "t h  india seed ai" && q == "ai india seed"
    ensures !Includes(text, q)
  {
    ExcludesByFirstChar(text, q);
  }

  /** "india seed" occurs at position 5 of `Tagged`'s search text (for `MatchSpansTags`). */
  lemma TaggedTextHits(text: string, q: string)
    requires text == "t h  india seed ai" && q == "india seed"
    ensures Includes(text, q)
  {
    IncludesSlice(text, q, 5);
  }

  /** `Tagged`'s lower-cased, space-joined search text, spelled out. */
  lemma TaggedText()
    ensures SearchText(Tagged) == "t h  india seed ai"
  {
    TaggedJoin();
    LowerIs("T H  India Seed AI", "t h  india seed ai");
  }

  /** `Tagged`'s six searched fields joined with spaces, before lower-casing. */
  lemma TaggedJoin()
    ensures Join(SearchFields(Tagged), " ") == "T H  India Seed AI"
  {
    var fields := SearchFields(Tagged);
    assert fields == ["T", "H", "", "India", "Seed", "AI"];
    JoinSix(fields, " ");
    JoinedTagged(fields[0] + " " + fields[1] + " " + fields[2] + " " + fields[3] + " " + fields[4] + " " + fields[5]);
  }

  /** The six fields of `Tagged` concatenated with their separators, one literal step at a time. */
  lemma JoinedTagged(s: string)
    requires s == "T" + " " + "H" + " " + "" + " " + "India" + " " + "Seed" + " " + "AI"
    ensures s == "T H  India Seed AI"
  {
    assert "T" + " " == "T ";
    assert "T " + "H" == "T H";
    assert "T H" + " " + "" + " " == "T H  ";
    assert "T H  " + "India" == "T H  India";
    assert "T H  India" + " " + "Seed" == "T H  India Seed";
    assert "T H  India Seed" + " " + "AI" == "T H  India Seed AI";
  }

  /** A six-part join spelled out. */
  lemma JoinSix(p: seq<string>, sep: string)
    requires |p| == 6
    ensures Join(p, sep) == p[0] + sep + p[1] + sep + p[2] + sep + p[3] + sep + p[4] + sep + p[5]
  {
    assert Join(p[5..], sep) == p[5];
    assert Join(p[4..], sep) == p[4] + sep + p[5] by { assert p[4..][1..] == p[5..]; }
    assert Join(p[3..], sep) == p[3] + sep + Join(p[4..], sep) by { assert p[3..][1..] == p[4..]; }
    assert Join(p[2..], sep) == p[2] + sep + Join(p[3..], sep) by { assert p[2..][1..] == p[3..]; }
    assert Join(p[1..], sep) == p[1] + sep + Join(p[2..], sep) by { assert p[1..][1..] == p[2..]; }
  }

  /** A query with no white space at either end normalizes to its
      character-by-character lower-cased form. */
  lemma NormalizeAs(q: string, r: string)
    requires q != [] && !IsSpace(q[0]) && !IsSpace(q[|q| - 1])
    requires |q| == |r| && forall i :: 0 <= i < |q| ==> LowerChar(q[i]) == r[i]
    ensures NormalizeQuery(q) == r
  {
    TrimUnchanged(q);
    LowerIs(q, r);
  }
}
