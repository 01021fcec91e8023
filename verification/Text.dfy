/** Strings as the server handles them: Unicode white space, splitting and joining scope lists,
    trimming, the order of `BTreeSet<String>`, and subsequences.

    `char` ranges over Unicode scalar values, and comparing scalar values position by position
    orders strings exactly as comparing their UTF-8 bytes does. */
module Text {

  /** The Unicode White_Space property, which `char::is_whitespace`, `split_whitespace` and `trim` share. */
  predicate IsWhitespace(c: char) {
    var n := c as int;
    || 0x09 <= n <= 0x0D || n == 0x20 || n == 0x85 || n == 0xA0 || n == 0x1680
    || 0x2000 <= n <= 0x200A || n == 0x2028 || n == 0x2029 || n == 0x202F || n == 0x205F || n == 0x3000
  }

  /** The twenty-five characters with that property. */
  lemma WhitespaceListed(c: char)
    ensures IsWhitespace(c) <==>
      c as int in {0x09, 0x0A, 0x0B, 0x0C, 0x0D, 0x20, 0x85, 0xA0, 0x1680, 0x2000, 0x2001, 0x2002, 0x2003, 0x2004,
                   0x2005, 0x2006, 0x2007, 0x2008, 0x2009, 0x200A, 0x2028, 0x2029, 0x202F, 0x205F, 0x3000}
  {
  }

  /** Non-empty and free of white space: what one element of a scope list can be. */
  predicate IsToken(s: string) {
    s != "" && forall i :: 0 <= i < |s| ==> !IsWhitespace(s[i])
  }

  predicate IsBlank(s: string) {
    forall i :: 0 <= i < |s| ==> IsWhitespace(s[i])
  }

  function Elems<T>(xs: seq<T>): set<T> {
    set x | x in xs
  }

  // ---------------------------------------------------------------- trimming

  function TrimStart(s: string): string {
    if s != "" && IsWhitespace(s[0]) then TrimStart(s[1..]) else s
  }

  function TrimEnd(s: string): string {
    if s != "" && IsWhitespace(s[|s| - 1]) then TrimEnd(s[..|s| - 1]) else s
  }

  function Trim(s: string): string {
    TrimEnd(TrimStart(s))
  }

  lemma {:induction false} TrimStartBlank(s: string)
    ensures IsBlank(s) <==> TrimStart(s) == ""
    ensures TrimStart(s) == "" || !IsWhitespace(TrimStart(s)[0])
  {
    if s != "" {
      assert s == [s[0]] + s[1..];
      if IsWhitespace(s[0]) { TrimStartBlank(s[1..]); }
    }
  }

  lemma {:induction false} TrimEndKeepsHead(s: string)
    requires s == "" || !IsWhitespace(s[0])
    ensures TrimEnd(s) == "" <==> s == ""
  {
    if s != "" && IsWhitespace(s[|s| - 1]) { TrimEndKeepsHead(s[..|s| - 1]); }
  }

  /** `trim().is_empty()` asks exactly whether there is any non-white character. */
  lemma TrimEmptyIffBlank(s: string)
    ensures Trim(s) == "" <==> IsBlank(s)
  {
    TrimStartBlank(s);
    TrimEndKeepsHead(TrimStart(s));
  }

  lemma {:induction false} TrimStartIsSuffix(s: string) returns (i: nat)
    ensures i <= |s| && TrimStart(s) == s[i..] && IsBlank(s[..i])
  {
    if s != "" && IsWhitespace(s[0]) {
      var n := TrimStartIsSuffix(s[1..]);
      i := n + 1;
      assert s[1..][n..] == s[i..];
      assert forall j :: 0 < j < i ==> s[j] == s[1..][..n][j - 1];
    } else {
      i := 0;
    }
  }

  lemma {:induction false} TrimEndIsPrefix(s: string) returns (j: nat)
    ensures j <= |s| && TrimEnd(s) == s[..j] && IsBlank(s[j..])
    ensures TrimEnd(s) == "" || !IsWhitespace(s[j - 1])
  {
    j := |s|;
    if s != "" && IsWhitespace(s[|s| - 1]) {
      var init := s[..|s| - 1];
      j := TrimEndIsPrefix(init);
      assert init[..j] == s[..j];
      assert forall k :: j <= k < |s| - 1 ==> s[k] == init[j..][k - j];
    }
  }

  /** `trim` removes white space at both ends and nothing else. */
  lemma TrimIsExact(s: string) returns (i: nat, j: nat)
    ensures i <= j <= |s| && Trim(s) == s[i..j]
    ensures IsBlank(s[..i]) && IsBlank(s[j..])
    ensures Trim(s) == "" || (!IsWhitespace(s[i]) && !IsWhitespace(s[j - 1]))
  {
    i := TrimStartIsSuffix(s);
    TrimStartBlank(s);
    var rest := s[i..];
    var n := TrimEndIsPrefix(rest);
    j := i + n;
    assert rest[..n] == s[i..j] && rest[n..] == s[j..];
  }

  // ---------------------------------------------------------------- scope lists

  /** Puts `c` in front of the tokens of what follows it: as a token of its own, or glued to the first. */
  function Glue(c: char, alone: bool, rest: seq<string>): seq<string>
    requires alone || rest != []
  {
    if alone then [[c]] + rest else [[c] + rest[0]] + rest[1..]
  }

  /** Whether the first character of `s` is followed by white space or by nothing. */
  predicate EndsToken(s: string)
    requires s != ""
  {
    |s| == 1 || IsWhitespace(s[1])
  }

  /** `str::split_whitespace`: the maximal runs of non-white characters, in order. */
  function SplitWhitespace(s: string): (tokens: seq<string>)
    ensures forall t :: t in tokens ==> IsToken(t)
    ensures s != "" && !IsWhitespace(s[0]) ==> tokens != []
  {
    if s == "" then []
    else
      var rest := SplitWhitespace(s[1..]);
      if IsWhitespace(s[0]) then rest
      else
        assert !EndsToken(s) ==> IsToken(rest[0]) && IsToken([s[0]] + rest[0]);
        Glue(s[0], EndsToken(s), rest)
  }

  /** `join(" ")`. */
  function Join(parts: seq<string>): string {
    if parts == [] then ""
    else if |parts| == 1 then parts[0]
    else Join(parts[..|parts| - 1]) + " " + parts[|parts| - 1]
  }

  /** One space between any two neighbours, and nothing else is added. */
  lemma {:induction false} JoinAppend(a: seq<string>, b: seq<string>)
    ensures Join([]) == "" && forall t :: Join([t]) == t
    ensures a != [] && b != [] ==> Join(a + b) == Join(a) + [' '] + Join(b)
  {
    if a != [] && b != [] {
      var last := b[|b| - 1];
      assert (a + b)[..|a + b| - 1] == a + b[..|b| - 1] && (a + b)[|a + b| - 1] == last;
      if |b| == 1 {
        assert a + b[..0] == a;
      } else {
        JoinAppend(a, b[..|b| - 1]);
        var head := Join(b[..|b| - 1]);
        assert Join(a) + [' '] + (head + " " + last) == (Join(a) + [' '] + head) + " " + last;
      }
    }
  }

  function SplitAll(parts: seq<string>): seq<string> {
    if parts == [] then [] else SplitAll(parts[..|parts| - 1]) + SplitWhitespace(parts[|parts| - 1])
  }

  lemma GlueAppend(c: char, alone: bool, rest: seq<string>, tail: seq<string>)
    requires alone || rest != []
    ensures Glue(c, alone, rest + tail) == Glue(c, alone, rest) + tail
  {
    if !alone { assert (rest + tail)[1..] == rest[1..] + tail; }
  }

  lemma {:induction false} SplitAppend(a: string, w: char, b: string)
    requires IsWhitespace(w)
    ensures SplitWhitespace(a + [w] + b) == SplitWhitespace(a) + SplitWhitespace(b)
  {
    var s := a + [w] + b;
    if a == "" {
      assert s[1..] == b;
    } else {
      SplitAppend(a[1..], w, b);
      assert s[0] == a[0] && s[1..] == a[1..] + [w] + b;
      assert EndsToken(s) == EndsToken(a) by { assert s[1] == if |a| == 1 then w else a[1]; }
      if !IsWhitespace(a[0]) {
        GlueAppend(a[0], EndsToken(a), SplitWhitespace(a[1..]), SplitWhitespace(b));
      }
    }
  }

  /** Splitting a joined list gives back the concatenation of the parts' own tokens: nothing is
      lost, reordered or fused across the separator, even when parts contain white space. */
  lemma {:induction false} SplitOfJoin(parts: seq<string>)
    ensures SplitWhitespace(Join(parts)) == SplitAll(parts)
  {
    if |parts| == 1 {
      assert parts[..0] == [];
    } else if |parts| > 1 {
      SplitOfJoin(parts[..|parts| - 1]);
      assert Join(parts[..|parts| - 1]) + " " + parts[|parts| - 1]
          == Join(parts[..|parts| - 1]) + [' '] + parts[|parts| - 1];
      SplitAppend(Join(parts[..|parts| - 1]), ' ', parts[|parts| - 1]);
    }
  }

  lemma {:induction false} SplitToken(t: string)
    requires IsToken(t)
    ensures SplitWhitespace(t) == [t]
  {
    if |t| == 1 {
      assert t[1..] == "" && t == [t[0]];
    } else {
      SplitToken(t[1..]);
      assert [t[0]] + t[1..] == t;
    }
  }

  lemma {:induction false} SplitAllTokens(parts: seq<string>)
    requires forall t :: t in parts ==> IsToken(t)
    ensures SplitAll(parts) == parts
  {
    if parts != [] {
      SplitAllTokens(parts[..|parts| - 1]);
      SplitToken(parts[|parts| - 1]);
      assert parts == parts[..|parts| - 1] + [parts[|parts| - 1]];
    }
  }

  /** Printing a list of scope names and parsing it again is the identity. */
  lemma SplitJoinRoundTrip(parts: seq<string>)
    requires forall t :: t in parts ==> IsToken(t)
    ensures SplitWhitespace(Join(parts)) == parts
  {
    SplitOfJoin(parts);
    SplitAllTokens(parts);
  }

  // ---------------------------------------------------------------- ordered sets

  predicate Less(a: string, b: string) {
    b != "" && (a == "" || a[0] < b[0] || (a[0] == b[0] && Less(a[1..], b[1..])))
  }

  lemma {:induction false} LessWitness(a: string, b: string) returns (n: nat)
    requires Less(a, b)
    ensures n <= |a| && n < |b| && a[..n] == b[..n] && (n == |a| || a[n] < b[n])
  {
    if a == "" || a[0] < b[0] {
      n := 0;
    } else {
      n := LessWitness(a[1..], b[1..]);
      assert a[..n + 1] == [a[0]] + a[1..][..n] && b[..n + 1] == [b[0]] + b[1..][..n];
      n := n + 1;
    }
  }

  lemma {:induction false} LessFromWitness(a: string, b: string, n: nat)
    requires n <= |a| && n < |b| && a[..n] == b[..n] && (n == |a| || a[n] < b[n])
    ensures Less(a, b)
  {
    if n > 0 {
      assert a[0] == a[..n][0] == b[..n][0] == b[0];
      assert a[1..][..n - 1] == a[..n][1..] && b[1..][..n - 1] == b[..n][1..];
      LessFromWitness(a[1..], b[1..], n - 1);
    }
  }

  /** A string is less than another exactly when it ends, or has the smaller character, where the two
      part. */
  lemma LessIff(a: string, b: string)
    ensures Less(a, b) <==>
      exists n: nat :: n <= |a| && n < |b| && a[..n] == b[..n] && (n == |a| || a[n] < b[n])
  {
    if Less(a, b) { var n := LessWitness(a, b); }
    if n: nat :| n <= |a| && n < |b| && a[..n] == b[..n] && (n == |a| || a[n] < b[n]) { LessFromWitness(a, b, n); }
  }

  lemma {:induction false} LessTotal(a: string, b: string)
    ensures Less(a, b) || a == b || Less(b, a)
    ensures !(Less(a, b) && Less(b, a))
    ensures !Less(a, a)
  {
    if a != "" { LessTotal(a[1..], a[1..]); }
    if a != "" && b != "" && a[0] == b[0] {
      LessTotal(a[1..], b[1..]);
      assert a == [a[0]] + a[1..] && b == [b[0]] + b[1..];
    }
  }

  lemma {:induction false} LessTransitive(a: string, b: string, c: string)
    requires Less(a, b) && Less(b, c)
    ensures Less(a, c)
  {
    if a != "" && a[0] == b[0] == c[0] { LessTransitive(a[1..], b[1..], c[1..]); }
  }

  ghost predicate StrictlySorted(s: seq<string>) {
    forall i, j :: 0 <= i < j < |s| ==> Less(s[i], s[j])
  }

  lemma ConsSorted(x: string, s: seq<string>)
    requires StrictlySorted(s)
    requires forall y :: y in s ==> Less(x, y)
    ensures StrictlySorted([x] + s)
    ensures Elems([x] + s) == {x} + Elems(s)
  {
  }

  lemma HeadBelowTail(s: seq<string>)
    requires StrictlySorted(s) && s != []
    ensures StrictlySorted(s[1..])
    ensures forall y :: y in s[1..] ==> Less(s[0], y)
    ensures Elems(s) == {s[0]} + Elems(s[1..])
  {
    assert s == [s[0]] + s[1..];
  }

  function Insert(x: string, s: seq<string>): (r: seq<string>)
    requires StrictlySorted(s)
    ensures StrictlySorted(r)
    ensures Elems(r) == Elems(s) + {x}
  {
    if s == [] then [x]
    else
      LessTotal(x, s[0]);
      HeadBelowTail(s);
      if Less(x, s[0]) then
        assert forall y :: y in s ==> Less(x, y) by {
          forall y | y in s ensures Less(x, y) { if y != s[0] { LessTransitive(x, s[0], y); } }
        }
        ConsSorted(x, s);
        [x] + s
      else if x == s[0] then s
      else
        var rest := Insert(x, s[1..]);
        assert forall y :: y in rest ==> y in Elems(rest);
        ConsSorted(s[0], rest);
        [s[0]] + rest
  }

  /** `into_iter().collect::<BTreeSet<String>>()`, listed in iteration order. */
  function BTreeSetOf(xs: seq<string>): (r: seq<string>)
    ensures StrictlySorted(r)
    ensures Elems(r) == Elems(xs)
  {
    if xs == [] then []
    else
      assert Elems(xs) == Elems(xs[..|xs| - 1]) + {xs[|xs| - 1]} by {
        assert xs == xs[..|xs| - 1] + [xs[|xs| - 1]];
      }
      Insert(xs[|xs| - 1], BTreeSetOf(xs[..|xs| - 1]))
  }

  /** The listing ascends: of two names in it, the earlier one ends or has the smaller character where
      they part. */
  lemma ListingAscends(xs: seq<string>, i: nat, j: nat)
    requires i < j < |BTreeSetOf(xs)|
    ensures var a, b := BTreeSetOf(xs)[i], BTreeSetOf(xs)[j];
      exists n: nat :: n <= |a| && n < |b| && a[..n] == b[..n] && (n == |a| || a[n] < b[n])
  {
    LessIff(BTreeSetOf(xs)[i], BTreeSetOf(xs)[j]);
  }

  lemma ElemsEmpty<T>(s: seq<T>)
    ensures Elems(s) == {} <==> s == []
  {
    if s != [] { assert s[0] in Elems(s); }
  }

  lemma ElemsOfTail(s: seq<string>)
    requires StrictlySorted(s) && s != []
    ensures Elems(s[1..]) == Elems(s) - {s[0]}
  {
    LessTotal(s[0], s[0]);
    assert s == [s[0]] + s[1..];
  }

  lemma ElemsOfInit(s: seq<string>)
    requires StrictlySorted(s) && s != []
    ensures Elems(s[..|s| - 1]) == Elems(s) - {s[|s| - 1]}
  {
    var x := s[|s| - 1];
    LessTotal(x, x);
    assert s == s[..|s| - 1] + [x];
  }

  /** A set has only one strictly sorted listing. */
  lemma {:induction false} SortedListingUnique(a: seq<string>, b: seq<string>)
    requires StrictlySorted(a) && StrictlySorted(b)
    requires Elems(a) == Elems(b)
    ensures a == b
  {
    ElemsEmpty(a);
    ElemsEmpty(b);
    if a != [] {
      assert a[0] in Elems(b) && b[0] in Elems(a);
      LessTotal(a[0], b[0]);
      ElemsOfTail(a);
      ElemsOfTail(b);
      SortedListingUnique(a[1..], b[1..]);
      assert a == [a[0]] + a[1..] && b == [b[0]] + b[1..];
    }
  }

  // ---------------------------------------------------------------- subsequences

  predicate Subseq<T(==)>(a: seq<T>, b: seq<T>) {
    a == [] || (b != [] && (
      || (a[|a| - 1] == b[|b| - 1] && Subseq(a[..|a| - 1], b[..|b| - 1]))
      || Subseq(a, b[..|b| - 1])))
  }

  lemma {:induction false} SubseqMembers<T>(a: seq<T>, b: seq<T>)
    requires Subseq(a, b)
    ensures |a| <= |b|
    ensures forall x :: x in a ==> x in b
    ensures |a| == |b| ==> a == b
    decreases |b|
  {
    if a != [] {
      if a[|a| - 1] == b[|b| - 1] && Subseq(a[..|a| - 1], b[..|b| - 1]) {
        SubseqMembers(a[..|a| - 1], b[..|b| - 1]);
        assert a == a[..|a| - 1] + [a[|a| - 1]];
        assert b == b[..|b| - 1] + [b[|b| - 1]];
      } else {
        SubseqMembers(a, b[..|b| - 1]);
      }
    }
  }

  /** A subsequence is picked out by increasing positions. */
  lemma {:induction false} SubseqPositions<T>(a: seq<T>, b: seq<T>) returns (at: seq<nat>)
    requires Subseq(a, b)
    ensures |at| == |a|
    ensures forall i :: 0 <= i < |at| ==> at[i] < |b| && a[i] == b[at[i]]
    ensures forall i, j :: 0 <= i < j < |at| ==> at[i] < at[j]
    decreases |b|
  {
    if a == [] {
      at := [];
    } else if a[|a| - 1] == b[|b| - 1] && Subseq(a[..|a| - 1], b[..|b| - 1]) {
      at := SubseqPositions(a[..|a| - 1], b[..|b| - 1]);
      at := at + [|b| - 1];
    } else {
      at := SubseqPositions(a, b[..|b| - 1]);
    }
  }

  /** A smaller set is listed as a subsequence of a larger one. */
  lemma {:induction false} SubsetListingIsSubseq(a: seq<string>, b: seq<string>)
    requires StrictlySorted(a) && StrictlySorted(b)
    requires Elems(a) <= Elems(b)
    ensures Subseq(a, b)
    decreases |b|
  {
    if a != [] {
      assert a[|a| - 1] in Elems(b);
      var x, y := a[|a| - 1], b[|b| - 1];
      ElemsOfInit(b);
      if x == y {
        ElemsOfInit(a);
        SubsetListingIsSubseq(a[..|a| - 1], b[..|b| - 1]);
      } else {
        var i :| 0 <= i < |b| && b[i] == x;
        assert Less(x, y);
        forall j | 0 <= j < |a| ensures a[j] != y {
          LessTotal(y, x);
        }
        SubsetListingIsSubseq(a, b[..|b| - 1]);
      }
    }
  }
}
