/** The "Submit a VC" form: the three comma-separated tag fields are split,
    trimmed and cleared of empty pieces; every other field is copied as typed. */
module Submission {
  import opened Seqs
  import opened Strings

  /** The form as typed: every field is free text. */
  datatype Form = Form(
    name: string,
    website: string,
    hq: string,
    regions: string,
    stages: string,
    sectors: string,
    ticket: string)

  /** The record copied out on submit: the tag fields become lists. */
  datatype Payload = Payload(
    name: string,
    website: string,
    hq: string,
    regions: seq<string>,
    stages: seq<string>,
    sectors: seq<string>,
    ticket: string)

  /** A tag as parsing leaves it: not empty, no comma, no white space at either end. */
  predicate IsCleanTag(t: string)
  {
    t != "" && ',' !in t && !IsSpace(t[0]) && !IsSpace(t[|t| - 1])
  }

  /** Every tag in the list is clean. */
  predicate AllClean(tags: seq<string>)
  {
    forall k :: 0 <= k < |tags| ==> IsCleanTag(tags[k])
  }

  /** `Boolean` as a filter on strings: keeps the non-empty ones. */
  predicate NonEmpty(t: string)
  {
    t != ""
  }

  /** `field.split(",").map((s) => s.trim()).filter(Boolean)`. */
  function ParseTags(field: string): (r: seq<string>)
    ensures AllClean(r)
  {
    var pieces := Split(field, ',');
    TrimmedPiecesClean(pieces);
    Filter(Map(pieces, Trim), NonEmpty)
  }

  /** Trimmed pieces that hold no separator are clean once they are not empty. */
  lemma TrimmedPiecesClean(pieces: seq<string>)
    requires forall k :: 0 <= k < |pieces| ==> ',' !in pieces[k]
    ensures forall k :: 0 <= k < |pieces| && Trim(pieces[k]) != "" ==> IsCleanTag(Trim(pieces[k]))
  {
    forall k | 0 <= k < |pieces| && Trim(pieces[k]) != ""
      ensures IsCleanTag(Trim(pieces[k]))
    {
      TrimmedPieceClean(pieces[k]);
    }
  }

  /** A piece without a comma trims to a clean tag unless it trims to nothing. */
  lemma TrimmedPieceClean(p: string)
    requires ',' !in p && Trim(p) != ""
    ensures IsCleanTag(Trim(p))
  {
    TrimmedWithout(p, ',');
  }

  /** Trimming keeps only characters of the original, so it adds no new character. */
  lemma TrimmedWithout(s: string, c: char)
    requires c !in s
    ensures c !in Trim(s)
  {
    var r := Trim(s);
    var i :| TrimmedAt(s, r, i);
    SliceWithout(s, i, i + |r|, c);
  }

  /** A slice holds no character the whole string lacks. */
  lemma SliceWithout(s: string, i: nat, j: nat, c: char)
    requires i <= j <= |s| && c !in s
    ensures c !in s[i..j]
  {
  }

  /** A tag is produced exactly when some comma-separated piece trims to it and it is not empty. */
  lemma ParseTagsMembers(field: string, t: string)
    ensures t in ParseTags(field) <==> t != "" && exists p :: p in Split(field, ',') && Trim(p) == t
  {
    if t in ParseTags(field) {
      ProducedFromPiece(Split(field, ','), t);
    }
    if t != "" && exists p :: p in Split(field, ',') && Trim(p) == t {
      var p :| p in Split(field, ',') && Trim(p) == t;
      PieceProduces(Split(field, ','), p);
    }
  }

  lemma ProducedFromPiece(pieces: seq<string>, t: string)
    requires t in Filter(Map(pieces, Trim), NonEmpty)
    ensures t != "" && exists p :: p in pieces && Trim(p) == t
  {
    var trimmed := Map(pieces, Trim);
    var r := Filter(trimmed, NonEmpty);
    var k :| 0 <= k < |r| && r[k] == t;
    assert r[k] in trimmed && NonEmpty(r[k]);
    var j :| 0 <= j < |trimmed| && trimmed[j] == t;
    assert pieces[j] in pieces && Trim(pieces[j]) == t;
  }

  lemma PieceProduces(pieces: seq<string>, p: string)
    requires p in pieces && Trim(p) != ""
    ensures Trim(p) in Filter(Map(pieces, Trim), NonEmpty)
  {
    var trimmed := Map(pieces, Trim);
    var j :| 0 <= j < |pieces| && pieces[j] == p;
    assert trimmed[j] == Trim(p) && NonEmpty(trimmed[j]);
  }

  /** The tags keep the order of the pieces they come from. */
  lemma ParseTagsOrder(field: string)
    ensures IsSubsequence(ParseTags(field), Map(Split(field, ','), Trim))
  {
    FilterIsSubsequence(Map(Split(field, ','), Trim), NonEmpty);
  }

  /** A non-empty trimmed piece yields one tag per occurrence, so repeated tags are kept. */
  lemma ParseTagsCount(field: string, t: string)
    ensures multiset(ParseTags(field))[t] == if t != "" then multiset(Map(Split(field, ','), Trim))[t] else 0
  {
    FilterCount(Map(Split(field, ','), Trim), NonEmpty, t);
  }

  /** " AI, , SaaS " gives ["AI", "SaaS"]: pieces trimmed, the blank one dropped. */
  lemma ParseTagsExample()
    ensures ParseTags(" AI, , SaaS ") == ["AI", "SaaS"]
  {
    ExampleSplit(" AI, , SaaS ");
    ExampleTrim(" AI", " ", " SaaS ");
    ExampleFilter(Map([" AI", " ", " SaaS "], Trim));
  }

  lemma ExampleSplit(field: string)
    requires field == " AI, , SaaS "
    ensures Split(field, ',') == [" AI", " ", " SaaS "]
  {
    var pieces := [" AI", " ", " SaaS "];
    assert Join(pieces, ",") == field by {
      assert pieces[1..] == [" ", " SaaS "];
      assert pieces[1..][1..] == [" SaaS "];
    }
    SplitJoin(pieces, ',');
  }

  lemma ExampleTrim(a: string, b: string, c: string)
    requires a == " AI" && b == " " && c == " SaaS "
    ensures Map([a, b, c], Trim) == ["AI", "", "SaaS"]
  {
    TrimAI(a);
    TrimBlank(b);
    TrimSaaS(c);
    MapThree(a, b, c, Trim, "AI", "", "SaaS");
  }

  lemma TrimAI(a: string)
    requires a == " AI"
    ensures Trim(a) == "AI"
  {
    var t := "AI";
    assert a == [' '] + t;
    TrimLeadingSpace(a, t);
  }

  lemma TrimBlank(b: string)
    requires b == " "
    ensures Trim(b) == ""
  {
    assert b == [' '] + [];
    TrimLeadingSpace(b, []);
  }

  lemma TrimSaaS(c: string)
    requires c == " SaaS "
    ensures Trim(c) == "SaaS"
  {
    var t := "SaaS";
    assert c == [' '] + t + [' '];
    TrimBothSpaces(c, t);
  }

  lemma MapThree<T, U>(a: T, b: T, c: T, f: T -> U, x: U, y: U, z: U)
    requires f(a) == x && f(b) == y && f(c) == z
    ensures Map([a, b, c], f) == [x, y, z]
  {
    var s := [a, b, c];
    var r := Map(s, f);
    assert r[0] == f(s[0]) && r[1] == f(s[1]) && r[2] == f(s[2]);
  }

  lemma TrimLeadingSpace(s: string, t: string)
    requires s == [' '] + t && (t == [] || (!IsSpace(t[0]) && !IsSpace(t[|t| - 1])))
    ensures Trim(s) == t
  {
    assert s[0] == ' ' && s[1..] == t;
    TrimStartStep(s);
    TrimUnchanged(t);
  }

  /** `TrimStart` drops a leading white-space character and goes on with the rest. */
  lemma TrimStartStep(s: string)
    requires s != [] && IsSpace(s[0])
    ensures TrimStart(s) == TrimStart(s[1..])
  {
  }

  lemma TrimBothSpaces(s: string, t: string)
    requires s == [' '] + t + [' '] && t != [] && !IsSpace(t[0]) && !IsSpace(t[|t| - 1])
    ensures Trim(s) == t
  {
    var u := t + [' '];
    assert s[0] == ' ' && s[1..] == u;
    TrimStartStep(s);
    assert u[0] == t[0];
    assert TrimStart(u) == u;
    assert u[..|u| - 1] == t && IsSpace(u[|u| - 1]);
    assert TrimEnd(u) == TrimEnd(t);
    TrimUnchanged(t);
  }

  lemma ExampleFilter(trimmed: seq<string>)
    requires trimmed == ["AI", "", "SaaS"]
    ensures Filter(trimmed, NonEmpty) == ["AI", "SaaS"]
  {
    assert trimmed[1..][1..] == ["SaaS"];
    assert Filter(trimmed[1..][1..], NonEmpty) == ["SaaS"];
    assert trimmed[1..] == ["", "SaaS"];
    assert Filter(trimmed[1..], NonEmpty) == ["SaaS"];
  }

  /** Joining clean tags with commas and parsing the result gives the tags back. */
  lemma ParseJoinedTags(tags: seq<string>)
    requires AllClean(tags)
    ensures ParseTags(Join(tags, ",")) == tags
  {
    if tags == [] {
      TrimEmpty();
      assert Map([""], Trim) == [""];
    } else {
      SplitJoin(tags, ',');
      TrimmedClean(tags);
      FilterKeepsAll(tags, NonEmpty);
    }
  }

  /** Trimming leaves clean tags as they are. */
  lemma TrimmedClean(tags: seq<string>)
    requires AllClean(tags)
    ensures Map(tags, Trim) == tags
  {
    var m := Map(tags, Trim);
    forall k | 0 <= k < |tags|
      ensures m[k] == tags[k]
    {
      TrimUnchanged(tags[k]);
    }
  }

  /** `onSubmit`'s payload: the text fields copied unchanged (untrimmed), the tag fields parsed. */
  function Submit(form: Form): (p: Payload)
    ensures p.name == form.name && p.website == form.website && p.hq == form.hq && p.ticket == form.ticket
    ensures p.regions == ParseTags(form.regions) && p.stages == ParseTags(form.stages) && p.sectors == ParseTags(form.sectors)
    ensures AllClean(p.regions) && AllClean(p.stages) && AllClean(p.sectors)
  {
    Payload(form.name, form.website, form.hq,
            ParseTags(form.regions), ParseTags(form.stages), ParseTags(form.sectors),
            form.ticket)
  }
}
