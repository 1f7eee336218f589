/** The JavaScript string built-ins the directory uses: `Array.prototype.join`,
    `String.prototype.split` with a one-character separator, `includes`,
    `trim` and `toLowerCase`. `trim` removes exactly the ECMAScript white-space
    and line-terminator code points; `toLowerCase` is modelled for ASCII only. */
module Strings {

  // ---------- join ----------

  /** `parts.join(sep)`: the parts with `sep` between neighbours. */
  function Join(parts: seq<string>, sep: string): string
  {
    if |parts| == 0 then ""
    else if |parts| == 1 then parts[0]
    else parts[0] + sep + Join(parts[1..], sep)
  }

  /** Joining two non-empty lists puts one separator between their joins. */
  lemma {:induction false} JoinAppend(a: seq<string>, b: seq<string>, sep: string)
    requires |a| > 0 && |b| > 0
    ensures Join(a + b, sep) == Join(a, sep) + sep + Join(b, sep)
  {
    if |a| == 1 {
      assert (a + b)[1..] == b;
    } else {
      assert (a + b)[1..] == a[1..] + b;
      JoinAppend(a[1..], b, sep);
    }
  }

  /** Cutting a list of parts in two cuts its join at one separator. */
  lemma JoinAt(parts: seq<string>, i: nat, sep: string)
    requires 0 < i < |parts|
    ensures Join(parts, sep) == Join(parts[..i], sep) + sep + Join(parts[i..], sep)
  {
    assert parts[..i] + parts[i..] == parts;
    JoinAppend(parts[..i], parts[i..], sep);
  }

  /** Any run of adjacent parts, joined, occurs inside the whole join. */
  lemma JoinSliceIsInfix(parts: seq<string>, sep: string, i: nat, j: nat)
    requires i < j <= |parts|
    ensures IsInfix(Join(parts[i..j], sep), Join(parts, sep))
  {
    var tail := parts[i..];
    assert tail[..j - i] == parts[i..j];
    JoinPrefixIsInfix(tail, sep, j - i);
    JoinSuffixIsInfix(parts, sep, i);
    InfixTransitive(Join(parts[i..j], sep), Join(tail, sep), Join(parts, sep));
  }

  /** The join of the first `k` parts occurs inside the whole join. */
  lemma JoinPrefixIsInfix(parts: seq<string>, sep: string, k: nat)
    requires 0 < k <= |parts|
    ensures IsInfix(Join(parts[..k], sep), Join(parts, sep))
  {
    if k < |parts| {
      JoinAt(parts, k, sep);
      InfixOfConcat("", Join(parts[..k], sep), sep + Join(parts[k..], sep));
      assert "" + Join(parts[..k], sep) + (sep + Join(parts[k..], sep)) == Join(parts, sep);
    } else {
      assert parts[..k] == parts;
      InfixOfConcat("", Join(parts, sep), "");
      assert "" + Join(parts, sep) + "" == Join(parts, sep);
    }
  }

  /** The join of the parts from index `i` on occurs inside the whole join. */
  lemma JoinSuffixIsInfix(parts: seq<string>, sep: string, i: nat)
    requires i < |parts|
    ensures IsInfix(Join(parts[i..], sep), Join(parts, sep))
  {
    if i > 0 {
      JoinAt(parts, i, sep);
      InfixOfConcat(Join(parts[..i], sep) + sep, Join(parts[i..], sep), "");
      assert Join(parts[..i], sep) + sep + Join(parts[i..], sep) + "" == Join(parts, sep);
    } else {
      assert parts[i..] == parts;
      InfixOfConcat("", Join(parts, sep), "");
      assert "" + Join(parts, sep) + "" == Join(parts, sep);
    }
  }

  // ---------- split ----------

  /** `s.split(sep)` for a one-character separator: always at least one piece,
      one more piece than there are separators, and no piece holds the separator. */
  function Split(s: string, sep: char): (r: seq<string>)
    ensures |r| == 1 + multiset(s)[sep]
    ensures forall k :: 0 <= k < |r| ==> sep !in r[k]
  {
    if s == [] then [""]
    else
      var rest := Split(s[1..], sep);
      assert s == [s[0]] + s[1..];
      if s[0] == sep then [""] + rest
      else [[s[0]] + rest[0]] + rest[1..]
  }

  /** Joining the pieces with the separator gives back the string. */
  lemma {:induction false} JoinSplit(s: string, sep: char)
    ensures Join(Split(s, sep), [sep]) == s
  {
    if s != [] {
      var rest := Split(s[1..], sep);
      JoinSplit(s[1..], sep);
      JoinSplitStep(s[0], sep, rest);
      assert s == [s[0]] + s[1..];
    }
  }

  /** One more character in front: a separator starts a new empty piece, any
      other character extends the first piece; either way the join gains that character. */
  lemma JoinSplitStep(c: char, sep: char, rest: seq<string>)
    requires |rest| > 0
    ensures Join(if c == sep then [""] + rest else [[c] + rest[0]] + rest[1..], [sep]) == [c] + Join(rest, [sep])
  {
    if c == sep {
      JoinAppend([""], rest, [sep]);
      assert Join([""], [sep]) == "";
    } else {
      JoinExtendFirst([c], rest, [sep]);
    }
  }

  /** Prefixing the first part prefixes the join. */
  lemma JoinExtendFirst(c: string, parts: seq<string>, sep: string)
    requires |parts| > 0
    ensures Join([c + parts[0]] + parts[1..], sep) == c + Join(parts, sep)
  {
    var r := [c + parts[0]] + parts[1..];
    if |parts| > 1 {
      assert r[1..] == parts[1..];
      assert Join(r, sep) == (c + parts[0]) + sep + Join(parts[1..], sep);
    }
  }

  /** A string without the separator is a single piece. */
  lemma {:induction false} SplitWithoutSeparator(s: string, sep: char)
    requires sep !in s
    ensures Split(s, sep) == [s]
  {
    if s != [] {
      SplitWithoutSeparator(s[1..], sep);
      assert s == [s[0]] + s[1..];
    }
  }

  /** Splitting `p + sep + t`, where `p` has no separator, yields `p` and then the pieces of `t`. */
  lemma {:induction false} SplitAtSeparator(p: string, sep: char, t: string)
    requires sep !in p
    ensures Split(p + [sep] + t, sep) == [p] + Split(t, sep)
  {
    var s := p + [sep] + t;
    if p == [] {
      assert s == [sep] + t;
      assert s[1..] == t;
    } else {
      assert s[0] == p[0] && p[0] != sep;
      assert s[1..] == p[1..] + [sep] + t;
      SplitAtSeparator(p[1..], sep, t);
      var rest := Split(s[1..], sep);
      assert rest[0] == p[1..] && rest[1..] == Split(t, sep);
      assert [p[0]] + p[1..] == p;
    }
  }

  /** Splitting a join of separator-free parts gives back the parts. */
  lemma {:induction false} SplitJoin(parts: seq<string>, sep: char)
    requires |parts| > 0
    requires forall k :: 0 <= k < |parts| ==> sep !in parts[k]
    ensures Split(Join(parts, [sep]), sep) == parts
  {
    if |parts| == 1 {
      SplitWithoutSeparator(parts[0], sep);
    } else {
      SplitJoin(parts[1..], sep);
      SplitAtSeparator(parts[0], sep, Join(parts[1..], [sep]));
      assert parts == [parts[0]] + parts[1..];
    }
  }

  // ---------- includes ----------

  /** `q` occurs in `s` starting at some position. */
  ghost predicate IsInfix(q: string, s: string)
  {
    exists i :: 0 <= i <= |s| && q <= s[i..]
  }

  /** Occurring somewhere in `s` means occurring at its start or somewhere in its tail. */
  lemma InfixStep(q: string, s: string)
    requires s != []
    ensures IsInfix(q, s) <==> q <= s || IsInfix(q, s[1..])
  {
    if IsInfix(q, s) {
      var i :| 0 <= i <= |s| && q <= s[i..];
      if i > 0 {
        assert s[1..][i - 1..] == s[i..];
      } else {
        assert s[i..] == s;
      }
    }
    if q <= s {
      assert s[0..] == s;
    }
    if IsInfix(q, s[1..]) {
      var i :| 0 <= i <= |s[1..]| && q <= s[1..][i..];
      assert s[1..][i..] == s[i + 1..];
    }
  }

  /** `s.includes(q)`: true exactly when `q` occurs in `s`. */
  function Includes(s: string, q: string): (r: bool)
    ensures r <==> IsInfix(q, s)
  {
    if s == [] then
      InfixOfEmpty(q);
      q == []
    else
      InfixStep(q, s);
      q <= s || Includes(s[1..], q)
  }

  /** A slice of `s` is found by `includes`. */
  lemma IncludesSlice(s: string, q: string, i: nat)
    requires i + |q| <= |s| && s[i..i + |q|] == q
    ensures Includes(s, q)
  {
    assert q <= s[i..];
  }

  /** `q` is not found when no position where it would fit starts with its first character. */
  lemma ExcludesByFirstChar(s: string, q: string)
    requires q != []
    requires forall i :: 0 <= i <= |s| - |q| ==> s[i] != q[0]
    ensures !Includes(s, q)
  {
  }

  /** Only the empty string occurs in the empty string. */
  lemma InfixOfEmpty(q: string)
    ensures IsInfix(q, "") <==> q == ""
  {
    if q == "" {
      assert q <= ""[0..];
    }
  }

  /** An infix of the middle part is an infix of the concatenation. */
  lemma InfixOfConcat(pre: string, mid: string, post: string)
    ensures IsInfix(mid, pre + mid + post)
  {
    var s := pre + mid + post;
    assert mid <= s[|pre|..] by {
      assert s[|pre|..] == mid + post;
    }
  }

  /** Occurring inside an infix of `s` means occurring in `s`. */
  lemma InfixTransitive(q: string, m: string, s: string)
    requires IsInfix(q, m) && IsInfix(m, s)
    ensures IsInfix(q, s)
  {
    var i :| 0 <= i <= |m| && q <= m[i..];
    var j :| 0 <= j <= |s| && m <= s[j..];
    forall k | 0 <= k < |q|
      ensures s[j + i + k] == q[k]
    {
      assert q[k] == m[i + k];
      assert m[i + k] == s[j + i + k];
    }
    assert q <= s[j + i..];
  }

  // ---------- trim ----------

  /** The code points `trim` removes: ECMAScript WhiteSpace (tab, vertical tab,
      form feed, space, no-break space, byte-order mark and the Unicode
      space separators) and LineTerminator (LF, CR, LS, PS); this set holds
      those from U+00A0 up, and `IsSpace` tests the ASCII ones directly. */
  const WideSpaces: set<char> := {
    '\U{A0}', '\U{1680}', '\U{2000}', '\U{2001}', '\U{2002}', '\U{2003}', '\U{2004}',
    '\U{2005}', '\U{2006}', '\U{2007}', '\U{2008}', '\U{2009}', '\U{200A}',
    '\U{2028}', '\U{2029}', '\U{202F}', '\U{205F}', '\U{3000}', '\U{FEFF}'}

  /** Below U+00A0 the white space is the space and tab, LF, vertical tab, form feed and CR. */
  predicate IsSpace(c: char)
  {
    if c < '\U{A0}' then c == ' ' || '\t' <= c <= '\r' else c in WideSpaces
  }

  ghost predicate AllSpace(s: string)
  {
    forall i :: 0 <= i < |s| ==> IsSpace(s[i])
  }

  /** The length of the longest all-space prefix. */
  function LeadingSpace(s: string): (n: nat)
    ensures n <= |s| && AllSpace(s[..n])
    ensures n == |s| || !IsSpace(s[n])
  {
    if s != [] && IsSpace(s[0]) then
      var m := LeadingSpace(s[1..]);
      assert s[..1 + m] == [s[0]] + s[1..][..m];
      1 + m
    else 0
  }

  /** `trimStart`: drops the longest all-space prefix. */
  function TrimStart(s: string): (r: string)
    ensures |r| <= |s| && r == s[|s| - |r|..]
    ensures AllSpace(s[..|s| - |r|])
    ensures r == [] || !IsSpace(r[0])
  {
    s[LeadingSpace(s)..]
  }

  /** `trimEnd`: drops the longest all-space suffix. */
  function TrimEnd(s: string): (r: string)
    ensures |r| <= |s| && r == s[..|r|]
    ensures AllSpace(s[|r|..])
    ensures r == [] || !IsSpace(r[|r| - 1])
  {
    if s != [] && IsSpace(s[|s| - 1]) then TrimEnd(s[..|s| - 1]) else s
  }

  /** `r` is the slice of `s` starting at `i`, with only white space before and after it. */
  ghost predicate TrimmedAt(s: string, r: string, i: int)
  {
    0 <= i <= |s| - |r| && r == s[i..i + |r|] && AllSpace(s[..i]) && AllSpace(s[i + |r|..])
  }

  /** The slice `TrimEnd(TrimStart(s))` sits in `s` between two all-space runs. */
  lemma TrimWitness(s: string, t: string, r: string)
    requires t == TrimStart(s) && r == TrimEnd(t)
    ensures exists i :: TrimmedAt(s, r, i)
  {
    TrimmedBetween(s, t, r);
  }

  /** A prefix of a suffix, with only white space cut off on either side, is a trimmed slice. */
  lemma TrimmedBetween(s: string, t: string, r: string)
    requires |t| <= |s| && t == s[|s| - |t|..] && AllSpace(s[..|s| - |t|])
    requires |r| <= |t| && r == t[..|r|] && AllSpace(t[|r|..])
    ensures TrimmedAt(s, r, |s| - |t|)
  {
    PrefixOfSuffix(s, t, r);
  }

  /** A prefix `r` of a suffix `t` of `s` is the slice of `s` where `t` starts,
      and what follows it in `s` is what follows it in `t`. */
  lemma PrefixOfSuffix(s: string, t: string, r: string)
    requires |t| <= |s| && t == s[|s| - |t|..] && |r| <= |t| && r == t[..|r|]
    ensures r == s[|s| - |t|..|s| - |t| + |r|]
    ensures s[|s| - |t| + |r|..] == t[|r|..]
  {
  }

  /** `s.trim()`: `s` without its leading and trailing white space. The result
      is a slice of `s`, everything cut off is white space, and the result
      neither starts nor ends with white space. */
  function Trim(s: string): (r: string)
    ensures exists i :: TrimmedAt(s, r, i)
    ensures r == [] || (!IsSpace(r[0]) && !IsSpace(r[|r| - 1]))
  {
    var t := TrimStart(s);
    var r := TrimEnd(t);
    TrimWitness(s, t, r);
    r
  }

  /** The empty string trims to itself. */
  lemma TrimEmpty()
    ensures Trim("") == ""
  {
  }

  /** A string that neither starts nor ends with white space trims to itself. */
  lemma TrimUnchanged(s: string)
    requires s == [] || (!IsSpace(s[0]) && !IsSpace(s[|s| - 1]))
    ensures Trim(s) == s
  {
  }

  /** Trimming twice is trimming once. */
  lemma TrimIdempotent(s: string)
    ensures Trim(Trim(s)) == Trim(s)
  {
    var r := Trim(s);
    if r != [] {
      assert TrimStart(r) == r;
      assert TrimEnd(r) == r;
    }
  }

  // ---------- toLowerCase ----------

  /** ASCII lower-casing of one character. */
  function LowerChar(c: char): char
  {
    if 'A' <= c <= 'Z' then (c as int + 32) as char else c
  }

  /** `s.toLowerCase()`, ASCII only: same length, each character lower-cased. */
  function Lower(s: string): (r: string)
    ensures |r| == |s|
    ensures forall i :: 0 <= i < |s| ==> r[i] == LowerChar(s[i])
  {
    if s == [] then [] else [LowerChar(s[0])] + Lower(s[1..])
  }

  /** `t` is `s` lower-cased when they agree character by character. */
  lemma LowerIs(s: string, t: string)
    requires |s| == |t|
    requires forall i :: 0 <= i < |s| ==> LowerChar(s[i]) == t[i]
    ensures Lower(s) == t
  {
  }

  /** The result of lower-casing has no upper-case ASCII letter, so lower-casing again changes nothing. */
  lemma LowerIdempotent(s: string)
    ensures Lower(Lower(s)) == Lower(s)
  {
  }

  /** Lower-casing works character by character, so it distributes over concatenation. */
  lemma LowerAppend(a: string, b: string)
    ensures Lower(a + b) == Lower(a) + Lower(b)
  {
  }

  /** Lower-casing keeps an occurrence of `q` in `s` an occurrence. */
  lemma LowerInfix(q: string, s: string)
    requires IsInfix(q, s)
    ensures IsInfix(Lower(q), Lower(s))
  {
    var i :| 0 <= i <= |s| && q <= s[i..];
    assert Lower(q) <= Lower(s)[i..];
  }

  /** White space has no case: lower-casing keeps spaces and non-spaces apart. */
  lemma LowerCharKeepsSpace(c: char)
    ensures IsSpace(LowerChar(c)) == IsSpace(c)
  {
  }

  /** Lower-casing keeps the leading white space as long as it was. */
  lemma {:induction false} LowerLeadingSpace(s: string)
    ensures LeadingSpace(Lower(s)) == LeadingSpace(s)
  {
    if s != [] {
      LowerCharKeepsSpace(s[0]);
      assert Lower(s)[1..] == Lower(s[1..]);
      if IsSpace(s[0]) {
        LowerLeadingSpace(s[1..]);
      }
    }
  }

  /** Trimming and lower-casing commute. */
  lemma LowerTrimStart(s: string)
    ensures Lower(TrimStart(s)) == TrimStart(Lower(s))
  {
    LowerLeadingSpace(s);
    var n := LeadingSpace(s);
    assert Lower(s[n..]) == Lower(s)[n..];
  }

  lemma {:induction false} LowerTrimEnd(s: string)
    ensures Lower(TrimEnd(s)) == TrimEnd(Lower(s))
  {
    if s != [] {
      LowerCharKeepsSpace(s[|s| - 1]);
      assert Lower(s)[..|s| - 1] == Lower(s[..|s| - 1]);
      if IsSpace(s[|s| - 1]) {
        LowerTrimEnd(s[..|s| - 1]);
      }
    }
  }

  lemma LowerTrim(s: string)
    ensures Lower(Trim(s)) == Trim(Lower(s))
  {
    LowerTrimEnd(TrimStart(s));
    LowerTrimStart(s);
  }
}
