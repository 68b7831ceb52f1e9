/**
  The few PHP built-ins the generator and the base controllers are made of,
  written out over `string` (a sequence of characters): truthiness of a
  string, `trim`/`ltrim`/`rtrim` with a character list, `explode` on one
  character, the `preg_split` on runs of one character that the command uses,
  `implode`, `strpos`, `str_contains` and `str_replace` with one search string.
 */
module Php {

  /** PHP's `?string`: a value or null. */
  datatype Option<+T> = None | Some(value: T)

  /** A PHP string is falsy when it is "" or "0" (`empty()`, `if ($s)`, `$s ? a : b`). */
  predicate Truthy(s: string) {
    s != "" && s != "0"
  }

  /** The characters `trim()` strips when no character list is given. */
  const Whitespace: set<char> := {' ', '\t', '\n', '\r', '\0', '\U{000B}'}

  /** `ltrim($s, $cs)`: drop the leading characters that are in `cs`. */
  function LTrim(s: string, cs: set<char>): (r: string)
    ensures |r| <= |s|
    ensures r == [] || r[0] !in cs
    ensures forall i :: 0 <= i < |s| - |r| ==> s[i] in cs
  {
    if s != [] && s[0] in cs then LTrim(s[1..], cs) else s
  }

  /** `rtrim($s, $cs)`: drop the trailing characters that are in `cs`. */
  function RTrim(s: string, cs: set<char>): (r: string)
    ensures |r| <= |s|
    ensures r == [] || r[|r| - 1] !in cs
    ensures forall i :: |r| <= i < |s| ==> s[i] in cs
  {
    if s != [] && s[|s| - 1] in cs then RTrim(s[..|s| - 1], cs) else s
  }

  /** `trim($s, $cs)`: strip both ends. */
  function Trim(s: string, cs: set<char>): (r: string)
    ensures |r| <= |s|
    ensures r == [] || (r[0] !in cs && r[|r| - 1] !in cs)
  {
    RTrimIsPrefix(LTrim(s, cs), cs);
    RTrim(LTrim(s, cs), cs)
  }

  /** What `ltrim` leaves is a suffix of its input. */
  lemma {:induction false} LTrimIsSuffix(s: string, cs: set<char>)
    ensures LTrim(s, cs) == s[|s| - |LTrim(s, cs)|..]
  {
    if s != [] && s[0] in cs {
      LTrimIsSuffix(s[1..], cs);
      assert s[1..][|s[1..]| - |LTrim(s[1..], cs)|..] == s[|s| - |LTrim(s, cs)|..];
    }
  }

  /** What `rtrim` leaves is a prefix of its input. */
  lemma {:induction false} RTrimIsPrefix(s: string, cs: set<char>)
    ensures RTrim(s, cs) == s[..|RTrim(s, cs)|]
  {
    if s != [] && s[|s| - 1] in cs {
      RTrimIsPrefix(s[..|s| - 1], cs);
      assert s[..|s| - 1][..|RTrim(s, cs)|] == s[..|RTrim(s, cs)|];
    }
  }

  /** `trim` keeps a contiguous part of its input, so it adds no character. */
  lemma TrimAvoids(s: string, cs: set<char>, c: char)
    requires c !in s
    ensures c !in Trim(s, cs)
  {
    LTrimIsSuffix(s, cs);
    RTrimIsPrefix(LTrim(s, cs), cs);
  }

  /** A string whose two ends are not in `cs` is left alone by `trim`. */
  lemma TrimUntouched(s: string, cs: set<char>)
    requires s == [] || (s[0] !in cs && s[|s| - 1] !in cs)
    ensures Trim(s, cs) == s
  {
  }

  /** Joining three strings does not depend on the grouping. */
  lemma AppendAssoc(a: string, b: string, c: string)
    ensures (a + b) + c == a + (b + c)
  {
  }

  /** `explode($sep, $s)` for a one-character separator: never an empty list. */
  function Split(s: string, sep: char): (r: seq<string>)
    ensures |r| >= 1
    ensures forall i :: 0 <= i < |r| ==> sep !in r[i]
  {
    if s == [] then [[]]
    else
      var rest := Split(s[1..], sep);
      if s[0] == sep then [[]] + rest else [[s[0]] + rest[0]] + rest[1..]
  }

  /** `implode($sep, $xs)`. */
  function Join(xs: seq<string>, sep: string): (r: string)
    ensures xs == [] ==> r == []
    ensures |xs| == 1 ==> r == xs[0]
  {
    if xs == [] then [] else if |xs| == 1 then xs[0] else xs[0] + sep + Join(xs[1..], sep)
  }

  lemma {:induction false} JoinSnoc(xs: seq<string>, y: string, sep: string)
    requires xs != []
    ensures Join(xs + [y], sep) == Join(xs, sep) + sep + y
  {
    if |xs| > 1 {
      assert (xs + [y])[1..] == xs[1..] + [y];
      JoinSnoc(xs[1..], y, sep);
    }
  }

  /** `implode` of two non-empty runs of items is the two results around one separator. */
  lemma {:induction false} JoinConcat(a: seq<string>, b: seq<string>, sep: string)
    requires a != [] && b != []
    ensures Join(a + b, sep) == Join(a, sep) + sep + Join(b, sep)
  {
    if |a| == 1 {
      assert (a + b)[1..] == b;
    } else {
      assert (a + b)[1..] == a[1..] + b;
      JoinConcat(a[1..], b, sep);
    }
  }

  /** Joining non-empty items gives "" exactly when there are no items. */
  lemma {:induction false} JoinEmptyIff(xs: seq<string>, sep: string)
    requires forall i :: 0 <= i < |xs| ==> xs[i] != []
    ensures Join(xs, sep) == [] <==> xs == []
  {
    if |xs| > 1 {
      assert |Join(xs, sep)| >= |xs[0]|;
    }
  }

  /** `implode` of truthy items with a non-empty separator is truthy and starts with the first item. */
  lemma JoinTruthy(xs: seq<string>, sep: string)
    requires xs != [] && sep != []
    requires forall i :: 0 <= i < |xs| ==> Truthy(xs[i])
    ensures Truthy(Join(xs, sep)) && |xs[0]| > 0 && Join(xs, sep)[0] == xs[0][0]
  {
    if |xs| > 1 {
      var r := Join(xs, sep);
      assert r == xs[0] + sep + Join(xs[1..], sep);
      assert |r| >= 2 && r[0] == xs[0][0];
    }
  }

  /** A character in neither the items nor the separator is not in their `implode`. */
  lemma {:induction false} JoinAvoids(xs: seq<string>, sep: string, c: char)
    requires c !in sep
    requires forall i :: 0 <= i < |xs| ==> c !in xs[i]
    ensures c !in Join(xs, sep)
  {
    if |xs| > 1 {
      JoinAvoids(xs[1..], sep, c);
    }
  }

  /** `explode` undoes `implode` when no item contains the separator. */
  lemma {:induction false} SplitJoin(xs: seq<string>, sep: char)
    requires xs != []
    requires forall i :: 0 <= i < |xs| ==> sep !in xs[i]
    ensures Split(Join(xs, [sep]), sep) == xs
  {
    if |xs| == 1 {
      SplitWithoutSep(xs[0], sep);
    } else {
      var t := Join(xs[1..], [sep]);
      assert Join(xs, [sep]) == xs[0] + [sep] + t;
      SplitJoin(xs[1..], sep);
      SplitAfter(xs[0], sep, t);
      assert [xs[0]] + xs[1..] == xs;
    }
  }

  lemma {:induction false} SplitWithoutSep(s: string, sep: char)
    requires sep !in s
    ensures Split(s, sep) == [s]
  {
    if s != [] {
      SplitWithoutSep(s[1..], sep);
      assert [s[0]] + s[1..] == s;
    }
  }

  lemma {:induction false} SplitAfter(x: string, sep: char, t: string)
    requires sep !in x
    ensures Split(x + [sep] + t, sep) == [x] + Split(t, sep)
  {
    if x == [] {
      assert (x + [sep] + t)[1..] == t;
    } else {
      assert (x + [sep] + t)[1..] == x[1..] + [sep] + t;
      assert (x + [sep] + t)[0] == x[0] && [x[0]] + x[1..] == x;
      SplitAfter(x[1..], sep, t);
    }
  }

  /** `implode` undoes `explode`. */
  lemma {:induction false} JoinSplit(s: string, sep: char)
    ensures Join(Split(s, sep), [sep]) == s
  {
    if s != [] {
      JoinSplit(s[1..], sep);
      var rest := Split(s[1..], sep);
      if s[0] != sep && |rest| > 1 {
        assert ([[s[0]] + rest[0]] + rest[1..])[1..] == rest[1..];
      }
    }
  }

  /** `array_map($f, $xs)`. */
  function Map<A, B>(xs: seq<A>, f: A -> B): (r: seq<B>)
    ensures |r| == |xs| && forall i :: 0 <= i < |xs| ==> r[i] == f(xs[i])
  {
    seq(|xs|, i requires 0 <= i < |xs| => f(xs[i]))
  }

  lemma MapConcat<A, B>(a: seq<A>, b: seq<A>, f: A -> B)
    ensures Map(a + b, f) == Map(a, f) + Map(b, f)
  {
    assert forall i :: 0 <= i < |a + b| ==> Map(a + b, f)[i] == (Map(a, f) + Map(b, f))[i];
  }

  /** One more element of `xs` adds its image at the end. */
  lemma MapPrefixStep<A, B>(xs: seq<A>, i: nat, f: A -> B)
    requires i < |xs|
    ensures Map(xs[..i + 1], f) == Map(xs[..i], f) + [f(xs[i])]
  {
    assert xs[..i + 1] == xs[..i] + [xs[i]];
    MapConcat(xs[..i], [xs[i]], f);
  }

  /** `array_map` of a function that also reads one fixed context value `p`. */
  function MapWith<P, A, B>(p: P, xs: seq<A>, f: (P, A) -> B): (r: seq<B>)
    ensures |r| == |xs| && forall i :: 0 <= i < |xs| ==> r[i] == f(p, xs[i])
  {
    seq(|xs|, i requires 0 <= i < |xs| => f(p, xs[i]))
  }

  lemma MapWithConcat<P, A, B>(p: P, a: seq<A>, b: seq<A>, f: (P, A) -> B)
    ensures MapWith(p, a + b, f) == MapWith(p, a, f) + MapWith(p, b, f)
  {
    assert forall i :: 0 <= i < |a + b| ==> MapWith(p, a + b, f)[i] == (MapWith(p, a, f) + MapWith(p, b, f))[i];
  }

  lemma MapWithPrefixStep<P, A, B>(p: P, xs: seq<A>, i: nat, f: (P, A) -> B)
    requires i < |xs|
    ensures MapWith(p, xs[..i + 1], f) == MapWith(p, xs[..i], f) + [f(p, xs[i])]
  {
    assert xs[..i + 1] == xs[..i] + [xs[i]];
    MapWithConcat(p, xs[..i], [xs[i]], f);
  }

  /** The present values of a list of options, in order (`array_filter` of the non-null ones). */
  function Somes<T>(xs: seq<Option<T>>): (r: seq<T>)
    ensures |r| <= |xs|
    ensures forall i :: 0 <= i < |r| ==> Some(r[i]) in xs
  {
    if xs == [] then [] else Somes(xs[..|xs| - 1]) + (if xs[|xs| - 1].Some? then [xs[|xs| - 1].value] else [])
  }

  lemma {:induction false} SomesConcat<T>(a: seq<Option<T>>, b: seq<Option<T>>)
    ensures Somes(a + b) == Somes(a) + Somes(b)
    decreases |b|
  {
    if b == [] {
      assert a + b == a;
    } else {
      var b' := b[..|b| - 1];
      var x := b[|b| - 1];
      var last := if x.Some? then [x.value] else [];
      assert (a + b)[..|a + b| - 1] == a + b';
      assert (a + b)[|a + b| - 1] == x;
      SomesConcat(a, b');
      assert Somes(a + b) == Somes(a + b') + last;
      assert Somes(b) == Somes(b') + last;
    }
  }

  lemma {:induction false} SomesAllPresent<T>(xs: seq<Option<T>>)
    requires forall i :: 0 <= i < |xs| ==> xs[i].Some?
    ensures |Somes(xs)| == |xs|
    ensures forall i :: 0 <= i < |xs| ==> Somes(xs)[i] == xs[i].value
  {
    if xs != [] {
      SomesAllPresent(xs[..|xs| - 1]);
    }
  }

  /** All characters of `s` except `c`, in order. */
  function Without(s: string, c: char): (r: string)
    ensures c !in r && |r| <= |s|
  {
    if s == [] then [] else (if s[0] == c then [] else [s[0]]) + Without(s[1..], c)
  }

  /** Concatenation of a list of strings. */
  function Concat(xs: seq<string>): string {
    if xs == [] then [] else xs[0] + Concat(xs[1..])
  }

  lemma {:induction false} ConcatSnoc(xs: seq<string>, x: string)
    ensures Concat(xs + [x]) == Concat(xs) + x
  {
    if xs != [] {
      assert (xs + [x])[1..] == xs[1..] + [x];
      ConcatSnoc(xs[1..], x);
    }
  }

  /**
    `preg_split('#/+#', $s)`: split on every maximal run of `sep`. A run at
    either end still yields an empty first or last piece, as PCRE does.
   */
  function SplitRuns(s: string, sep: char): (r: seq<string>)
    ensures |r| >= 1
    ensures forall i :: 0 <= i < |r| ==> sep !in r[i]
    decreases |s|
  {
    if s == [] then [[]]
    else if s[0] == sep then [[]] + SplitRuns(LTrim(s[1..], {sep}), sep)
    else
      var rest := SplitRuns(s[1..], sep);
      [[s[0]] + rest[0]] + rest[1..]
  }

  /** Splitting loses only the separators: the pieces spell the input without them. */
  lemma {:induction false} SplitRunsSpells(s: string, sep: char)
    ensures Concat(SplitRuns(s, sep)) == Without(s, sep)
    decreases |s|
  {
    if s == [] {
    } else if s[0] == sep {
      var t := LTrim(s[1..], {sep});
      SplitRunsSpells(t, sep);
      SpellsAfterSep(s, sep, t);
    } else {
      SplitRunsSpells(s[1..], sep);
      SpellsAfterChar(s, sep);
    }
  }

  lemma SpellsAfterSep(s: string, sep: char, t: string)
    requires s != [] && s[0] == sep && t == LTrim(s[1..], {sep})
    requires Concat(SplitRuns(t, sep)) == Without(t, sep)
    ensures Concat(SplitRuns(s, sep)) == Without(s, sep)
  {
    var u := s[1..];
    LTrimIsSuffix(u, {sep});
    WithoutDropsPrefix(u, sep, |u| - |t|);
    var rest := SplitRuns(t, sep);
    assert SplitRuns(s, sep) == [[]] + rest;
    assert ([[]] + rest)[1..] == rest;
    assert Without(s, sep) == Without(u, sep);
  }

  lemma SpellsAfterChar(s: string, sep: char)
    requires s != [] && s[0] != sep
    requires Concat(SplitRuns(s[1..], sep)) == Without(s[1..], sep)
    ensures Concat(SplitRuns(s, sep)) == Without(s, sep)
  {
    var rest := SplitRuns(s[1..], sep);
    var r := [[s[0]] + rest[0]] + rest[1..];
    assert SplitRuns(s, sep) == r;
    assert r[1..] == rest[1..];
    var tail := Concat(rest[1..]);
    assert Concat(rest) == rest[0] + tail;
    assert Concat(r) == ([s[0]] + rest[0]) + tail;
    assert [s[0]] + (rest[0] + tail) == ([s[0]] + rest[0]) + tail;
    assert Without(s, sep) == [s[0]] + Without(s[1..], sep);
  }

  lemma {:induction false} WithoutDropsPrefix(s: string, c: char, k: nat)
    requires k <= |s|
    requires forall i :: 0 <= i < k ==> s[i] == c
    ensures Without(s, c) == Without(s[k..], c)
  {
    if k > 0 {
      WithoutDropsPrefix(s[1..], c, k - 1);
      assert s[1..][k - 1..] == s[k..];
    }
  }

  /**
    When the input neither starts nor ends with `sep` and is not empty, every
    piece is non-empty: runs of separators never produce empty pieces inside.
   */
  lemma {:induction false} SplitRunsNonEmpty(s: string, sep: char)
    requires s != [] && s[|s| - 1] != sep
    ensures var r := SplitRuns(s, sep);
      (forall i :: 1 <= i < |r| ==> r[i] != []) && (s[0] != sep ==> r[0] != [])
    decreases |s|
  {
    if s[0] == sep {
      var t := LTrim(s[1..], {sep});
      assert t != [] && t[|t| - 1] != sep by {
        var u := s[1..];
        assert u != [] && u[|u| - 1] == s[|s| - 1];
        LTrimIsSuffix(u, {sep});
      }
      SplitRunsNonEmpty(t, sep);
      SplitRunsAfterSep(s, sep, SplitRuns(t, sep));
    } else if |s| > 1 {
      SplitRunsNonEmpty(s[1..], sep);
      SplitRunsAfterChar(s, sep, SplitRuns(s[1..], sep));
    } else {
      assert s[1..] == [];
      var rest := SplitRuns(s[1..], sep);
      assert rest == [[]];
      assert rest[0] == [] && rest[1..] == [];
      assert [s[0]] + rest[0] == [s[0]];
    }
  }

  /** A leading separator opens an empty piece in front of the pieces of what follows the run. */
  lemma SplitRunsAfterSep(s: string, sep: char, rest: seq<string>)
    requires s != [] && s[0] == sep && rest == SplitRuns(LTrim(s[1..], {sep}), sep)
    requires forall i :: 0 <= i < |rest| ==> rest[i] != []
    ensures forall i :: 1 <= i < |SplitRuns(s, sep)| ==> SplitRuns(s, sep)[i] != []
  {
    assert SplitRuns(s, sep) == [[]] + rest;
    forall i | 1 <= i < |rest| + 1
      ensures ([[]] + rest)[i] != []
    {
      assert ([[]] + rest)[i] == rest[i - 1];
    }
  }

  /** A leading character joins the first piece of the rest; the later pieces stay. */
  lemma SplitRunsAfterChar(s: string, sep: char, rest: seq<string>)
    requires |s| > 1 && s[0] != sep && rest == SplitRuns(s[1..], sep)
    requires forall i :: 1 <= i < |rest| ==> rest[i] != []
    ensures SplitRuns(s, sep)[0] != []
    ensures forall i :: 1 <= i < |SplitRuns(s, sep)| ==> SplitRuns(s, sep)[i] != []
  {
    var r := [[s[0]] + rest[0]] + rest[1..];
    assert SplitRuns(s, sep) == r;
    forall i | 1 <= i < |r|
      ensures r[i] != []
    {
      assert r[i] == rest[i];
    }
  }

  /** Text without the separator is one piece. */
  lemma {:induction false} SplitRunsWithoutSep(s: string, sep: char)
    requires sep !in s
    ensures SplitRuns(s, sep) == [s]
    decreases |s|
  {
    if s != [] {
      SplitRunsWithoutSep(s[1..], sep);
      assert [s[0]] + s[1..] == s;
    }
  }

  /** `str_starts_with($s, $p)`. */
  predicate StartsWith(s: string, p: string) {
    |p| <= |s| && s[..|p|] == p
  }

  /** A text starts with its own first part. */
  lemma StartsWithConcat(a: string, b: string)
    ensures StartsWith(a + b, a)
  {
    assert (a + b)[..|a|] == a;
  }

  /** Appending text keeps a prefix. */
  lemma StartsWithExtend(s: string, p: string, b: string)
    requires StartsWith(s, p)
    ensures StartsWith(s + b, p)
  {
    assert (s + b)[..|p|] == s[..|p|];
  }

  /** `haystack` holds `needle` starting at index `j`. */
  predicate OccursAt(haystack: string, needle: string, j: int) {
    0 <= j && j + |needle| <= |haystack| && haystack[j..j + |needle|] == needle
  }

  /** A needle whose first character differs from the haystack's at `j` does not occur at `j`. */
  lemma MismatchAt(haystack: string, needle: string, j: nat)
    requires j < |haystack| && needle != [] && haystack[j] != needle[0]
    ensures !OccursAt(haystack, needle, j)
  {
    if j + |needle| <= |haystack| {
      assert haystack[j..j + |needle|][0] == haystack[j];
    }
  }

  /** `strpos($haystack, $needle)`: the first index where `needle` occurs, or none (PHP's false). */
  function StrPos(haystack: string, needle: string): (r: Option<nat>)
    ensures r.Some? ==> OccursAt(haystack, needle, r.value)
    ensures r.Some? ==> forall j :: 0 <= j < r.value ==> !OccursAt(haystack, needle, j)
    ensures r.None? ==> forall j :: !OccursAt(haystack, needle, j)
    decreases |haystack|
  {
    if |haystack| < |needle| then None
    else if haystack[..|needle|] == needle then Some(0)
    else
      var tail := haystack[1..];
      assert haystack[0..|needle|] == haystack[..|needle|];
      assert !OccursAt(haystack, needle, 0);
      assert forall j :: 1 <= j ==> (OccursAt(haystack, needle, j) <==> OccursAt(tail, needle, j - 1)) by {
        forall j | 1 <= j
          ensures OccursAt(haystack, needle, j) <==> OccursAt(tail, needle, j - 1)
        {
          if j + |needle| <= |haystack| {
            assert tail[j - 1..j - 1 + |needle|] == haystack[j..j + |needle|];
          }
        }
      }
      match StrPos(tail, needle)
      case None => None
      case Some(i) => Some(i + 1)
  }

  /** `str_contains($haystack, $needle)`. */
  predicate StrContains(haystack: string, needle: string) {
    StrPos(haystack, needle).Some?
  }

  /** A string contains each of its infixes. */
  lemma ContainsInfix(a: string, n: string, b: string)
    ensures StrContains(a + n + b, n)
  {
    assert (a + n + b)[|a|..|a| + |n|] == n;
    assert OccursAt(a + n + b, n, |a|);
  }

  /** Text that contains `n` still does after more text is put around it. */
  lemma ContainsExtend(a: string, t: string, b: string, n: string)
    requires StrContains(t, n)
    ensures StrContains(a + t + b, n)
  {
    var j := StrPos(t, n).value;
    assert (a + t + b)[|a| + j..|a| + j + |n|] == t[j..j + |n|];
    assert OccursAt(a + t + b, n, |a| + j);
  }

  /** A text contains its own last part. */
  lemma ContainsEnd(a: string, n: string)
    ensures StrContains(a + n, n)
  {
    ContainsInfix(a, n, []);
    assert a + n + [] == a + n;
  }

  /** Appending text keeps what a text contains. */
  lemma ContainsLeft(t: string, b: string, n: string)
    requires StrContains(t, n)
    ensures StrContains(t + b, n)
  {
    ContainsExtend([], t, b, n);
    assert [] + t + b == t + b;
  }

  /** A text that contains a string contains every prefix of that string. */
  lemma ContainsPrefix(t: string, n: string, p: string)
    requires StrContains(t, n) && StartsWith(n, p)
    ensures StrContains(t, p)
  {
    var j := StrPos(t, n).value;
    assert t[j..j + |n|] == n;
    forall k | 0 <= k < |p|
      ensures t[j..j + |p|][k] == p[k]
    {
      assert t[j..j + |p|][k] == t[j..j + |n|][k];
      assert n[..|p|][k] == n[k];
    }
    assert t[j..j + |p|] == p;
    assert OccursAt(t, p, j);
  }

  /** Every item of an `implode` occurs in its result. */
  lemma {:induction false} JoinContainsItem(xs: seq<string>, sep: string, i: nat)
    requires i < |xs|
    ensures StrContains(Join(xs, sep), xs[i])
  {
    if |xs| == 1 {
      ContainsInfix([], xs[0], []);
      assert [] + xs[0] + [] == xs[0];
    } else if i == 0 {
      ContainsInfix([], xs[0], sep + Join(xs[1..], sep));
      assert [] + xs[0] + (sep + Join(xs[1..], sep)) == Join(xs, sep);
    } else {
      JoinContainsItem(xs[1..], sep, i - 1);
      ContainsExtend(xs[0] + sep, Join(xs[1..], sep), [], xs[i]);
      assert xs[0] + sep + Join(xs[1..], sep) + [] == Join(xs, sep);
    }
  }

  /**
    `str_replace($search, $replace, $s)` for one search string: scan from the
    left, replacing non-overlapping occurrences; an empty search string
    leaves the subject unchanged, as PHP does.
   */
  function ReplaceAll(s: string, search: string, replace: string): string
    decreases |s|
  {
    if search == [] || |s| < |search| then s
    else if s[..|search|] == search then replace + ReplaceAll(s[|search|..], search, replace)
    else [s[0]] + ReplaceAll(s[1..], search, replace)
  }

  /** A text that does not contain the search string comes back unchanged. */
  lemma {:induction false} ReplaceAllAbsent(s: string, search: string, replace: string)
    requires !StrContains(s, search)
    ensures ReplaceAll(s, search, replace) == s
    decreases |s|
  {
    if search != [] && |s| >= |search| {
      assert !OccursAt(s, search, 0);
      ContainsShift(s, search);
      ReplaceAllAbsent(s[1..], search, replace);
      assert [s[0]] + s[1..] == s;
    }
  }

  /** Whatever the text after the first character contains, the text contains. */
  lemma ContainsShift(s: string, needle: string)
    requires s != []
    ensures StrContains(s[1..], needle) ==> StrContains(s, needle)
  {
    if StrContains(s[1..], needle) {
      var j := StrPos(s[1..], needle).value;
      assert s[1..][j..j + |needle|] == s[j + 1..j + 1 + |needle|];
      assert OccursAt(s, needle, j + 1);
    }
  }

  /** Replace every occurrence of the character `a` by `b`. */
  function MapChar(s: string, a: char, b: char): (r: string)
    ensures |r| == |s|
    ensures forall i :: 0 <= i < |s| ==> r[i] == if s[i] == a then b else s[i]
  {
    if s == [] then [] else [if s[0] == a then b else s[0]] + MapChar(s[1..], a, b)
  }

  lemma {:induction false} MapCharConcat(x: string, y: string, a: char, b: char)
    ensures MapChar(x + y, a, b) == MapChar(x, a, b) + MapChar(y, a, b)
  {
    var l := MapChar(x + y, a, b);
    var r := MapChar(x, a, b) + MapChar(y, a, b);
    assert |l| == |r|;
    forall i | 0 <= i < |l|
      ensures l[i] == r[i]
    {
      if i < |x| {
        assert (x + y)[i] == x[i] && r[i] == MapChar(x, a, b)[i];
      } else {
        assert (x + y)[i] == y[i - |x|] && r[i] == MapChar(y, a, b)[i - |x|];
      }
    }
  }

  /** Mapping the separator of an `implode` swaps the separator when no item holds it. */
  lemma {:induction false} MapCharJoin(xs: seq<string>, a: char, b: char)
    requires forall i :: 0 <= i < |xs| ==> a !in xs[i]
    ensures MapChar(Join(xs, [a]), a, b) == Join(xs, [b])
  {
    if |xs| == 1 {
      assert MapChar(xs[0], a, b) == xs[0];
    } else if |xs| > 1 {
      MapCharJoin(xs[1..], a, b);
      MapCharConcat(xs[0] + [a], Join(xs[1..], [a]), a, b);
      MapCharConcat(xs[0], [a], a, b);
      assert MapChar(xs[0], a, b) == xs[0];
      assert MapChar([a], a, b) == [b];
    }
  }

  /** A character map that neither produces nor consumes '0' keeps PHP truthiness. */
  lemma MapCharTruthy(s: string, a: char, b: char)
    requires a != '0' && b != '0'
    ensures Truthy(MapChar(s, a, b)) <==> Truthy(s)
  {
    if |s| == 1 {
      assert MapChar(s, a, b)[0] == '0' <==> s[0] == '0';
      assert s == "0" <==> s[0] == '0';
      assert MapChar(s, a, b) == "0" <==> MapChar(s, a, b)[0] == '0';
    }
  }

  /** `str_replace` of a one-character string by another is a character map. */
  lemma {:induction false} ReplaceCharIsMap(s: string, a: char, b: char)
    ensures ReplaceAll(s, [a], [b]) == MapChar(s, a, b)
  {
    if s != [] {
      ReplaceCharIsMap(s[1..], a, b);
    }
  }

  /** Replacing a character in `p`, that character, then a text free of it, only touches `p` and the character. */
  lemma ReplaceCharSuffix(p: string, v: string, a: char, b: char)
    requires a !in v
    ensures ReplaceAll(p + [a] + v, [a], [b]) == ReplaceAll(p, [a], [b]) + [b] + v
  {
    ReplaceCharIsMap(p + [a] + v, a, b);
    ReplaceCharIsMap(p, a, b);
    MapCharConcat(p + [a], v, a, b);
    MapCharConcat(p, [a], a, b);
    assert MapChar([a], a, b) == [b];
    assert MapChar(v, a, b) == v;
  }
}
