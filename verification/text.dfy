/**
  The functions of Go's strings package that nass relies on, for ASCII text, and the
  laws that tie them together.
 */
module Text {
  lemma Regroup<T>(a: seq<T>, b: seq<T>, c: seq<T>)
    ensures (a + b) + c == a + (b + c)
  {}

  predicate IsSpace(c: char) { '\t' <= c <= '\r' || c == ' ' }

  /** Blank, tab, line feed, vertical tab, form feed and carriage return. */
  const BLANKS := " \t\n\U{000B}\U{000C}\r"

  lemma SpacesAreBlanks(c: char)
    ensures IsSpace(c) <==> c in BLANKS
  {}

  // --- trimming ---

  function TrimLeft(s: string): string {
    if s != "" && IsSpace(s[0]) then TrimLeft(s[1..]) else s
  }

  function TrimRight(s: string): string {
    if s != "" && IsSpace(s[|s| - 1]) then TrimRight(s[..|s| - 1]) else s
  }

  function TrimSpace(s: string): string { TrimRight(TrimLeft(s)) }

  predicate Blank(s: string) { forall c | c in s :: IsSpace(c) }

  lemma {:induction false} TrimLeftCuts(s: string)
    ensures |TrimLeft(s)| <= |s| && TrimLeft(s) == s[|s| - |TrimLeft(s)|..]
    ensures Blank(s[..|s| - |TrimLeft(s)|])
    ensures TrimLeft(s) != "" ==> !IsSpace(TrimLeft(s)[0])
  {
    if s != "" && IsSpace(s[0]) {
      TrimLeftCuts(s[1..]);
      var n := |s| - |TrimLeft(s)|;
      assert s[..n] == [s[0]] + s[1..][..n - 1];
    }
  }

  lemma {:induction false} TrimRightCuts(s: string)
    ensures |TrimRight(s)| <= |s| && TrimRight(s) == s[..|TrimRight(s)|]
    ensures Blank(s[|TrimRight(s)|..])
    ensures TrimRight(s) != "" ==> !IsSpace(TrimRight(s)[|TrimRight(s)| - 1])
  {
    if s != "" && IsSpace(s[|s| - 1]) {
      var front := s[..|s| - 1];
      TrimRightCuts(front);
      var n := |TrimRight(s)|;
      assert s[n..] == front[n..] + [s[|s| - 1]];
    }
  }

  /** A text that starts with a character that is not white space keeps it on the left, and likewise on the right. */
  lemma {:induction false} TrimLeftUnique(before: string, s: string)
    requires Blank(before) && (s != "" ==> !IsSpace(s[0]))
    ensures TrimLeft(before + s) == s
  {
    if before == "" {
      assert before + s == s;
    } else {
      TrimLeftUnique(before[1..], s);
      assert before[0] in before;
      assert (before + s)[1..] == before[1..] + s;
    }
  }

  lemma {:induction false} TrimRightUnique(s: string, after: string)
    requires Blank(after) && (s != "" ==> !IsSpace(s[|s| - 1]))
    ensures TrimRight(s + after) == s
  {
    if after == "" {
      assert s + after == s;
    } else {
      TrimRightUnique(s, after[..|after| - 1]);
      assert after[|after| - 1] in after;
      assert (s + after)[..|s + after| - 1] == s + after[..|after| - 1];
    }
  }

  /** Trimming is the removal of blank text around a text that neither starts nor ends in white space. */
  lemma TrimUnique(before: string, s: string, after: string)
    requires Blank(before) && Blank(after)
    requires s != "" ==> !IsSpace(s[0]) && !IsSpace(s[|s| - 1])
    ensures TrimSpace(before + s + after) == s
  {
    if s == "" {
      assert before + s + after == before + after;
      assert Blank(before + after);
      TrimLeftUnique(before + after, "");
      assert before + after + "" == before + after;
    } else {
      TrimLeftUnique(before, s + after);
      assert before + (s + after) == before + s + after;
      TrimRightUnique(s, after);
    }
  }

  /** Neither the first character nor the last one is blank. */
  predicate Tidy(s: string) {
    s != "" ==> s[0] !in BLANKS && s[|s| - 1] !in BLANKS
  }

  /** Trimming removes the six blanks around a text, and nothing else. */
  lemma TrimsBlanks(before: string, s: string, after: string)
    requires (forall c | c in before || c in after :: c in BLANKS) && Tidy(s)
    ensures TrimSpace(before + s + after) == s
  {
    forall c
      ensures IsSpace(c) <==> c in BLANKS
    {
      SpacesAreBlanks(c);
    }
    hide IsSpace;
    TrimUnique(before, s, after);
  }

  lemma TrimCuts(s: string) returns (before: string, after: string)
    ensures Blank(before) && Blank(after) && s == before + TrimSpace(s) + after
    ensures TrimSpace(s) != "" ==> !IsSpace(TrimSpace(s)[0]) && !IsSpace(TrimSpace(s)[|TrimSpace(s)| - 1])
  {
    var left := TrimLeft(s);
    TrimLeftCuts(s);
    TrimRightCuts(left);
    before, after := s[..|s| - |left|], left[|TrimRight(left)|..];
  }

  lemma TrimOuter(before: string, s: string, after: string)
    requires Blank(before) && Blank(after)
    ensures TrimSpace(before + s + after) == TrimSpace(s)
  {
    var b, a := TrimCuts(s);
    assert before + s + after == (before + b) + TrimSpace(s) + (a + after);
    TrimUnique(before + b, TrimSpace(s), a + after);
  }

  lemma TrimTwice(s: string)
    ensures TrimSpace(TrimSpace(s)) == TrimSpace(s)
  {
    var b, a := TrimCuts(s);
    TrimUnique("", TrimSpace(s), "");
    assert "" + TrimSpace(s) + "" == TrimSpace(s);
  }

  lemma TrimOfTrimLeft(s: string)
    ensures TrimSpace(TrimLeft(s)) == TrimSpace(s)
  {
    TrimLeftCuts(s);
    hide *;
    var n := |s| - |TrimLeft(s)|;
    TrimOuter(s[..n], TrimLeft(s), "");
    assert s[..n] + TrimLeft(s) + "" == s;
  }

  lemma TrimOfTrimRight(s: string)
    ensures TrimSpace(TrimRight(s)) == TrimSpace(s)
  {
    TrimRightCuts(s);
    hide *;
    var n := |TrimRight(s)|;
    TrimOuter("", TrimRight(s), s[n..]);
    assert "" + TrimRight(s) + s[n..] == s;
  }

  lemma TrimLeftStops(p: string, s: string)
    requires s != "" && !IsSpace(s[0])
    ensures TrimLeft(p + s) == TrimLeft(p) + s
  {
    hide TrimLeft, Blank;
    TrimLeftCuts(p);
    var n := |p| - |TrimLeft(p)|;
    TrimLeftUnique(p[..n], TrimLeft(p) + s);
    assert p[..n] + (TrimLeft(p) + s) == p + s;
  }

  lemma TrimRightStops(s: string, p: string)
    requires s != "" && !IsSpace(s[|s| - 1])
    ensures TrimRight(s + p) == s + TrimRight(p)
  {
    hide TrimRight, Blank;
    TrimRightCuts(p);
    var n := |TrimRight(p)|;
    TrimRightUnique(s + TrimRight(p), p[n..]);
    assert s + TrimRight(p) + p[n..] == s + p;
  }

  // --- splitting and joining ---

  function Split(s: string, c: char): (parts: seq<string>)
    ensures |parts| > 0
  {
    if s == "" then [""]
    else
      var rest := Split(s[1..], c);
      if s[0] == c then [""] + rest else [[s[0]] + rest[0]] + rest[1..]
  }

  function Join(parts: seq<string>, c: char): string {
    if parts == [] then ""
    else if |parts| == 1 then parts[0]
    else parts[0] + [c] + Join(parts[1..], c)
  }

  lemma {:induction false} JoinSplit(s: string, c: char)
    ensures Join(Split(s, c), c) == s
  {
    if s != "" {
      JoinSplit(s[1..], c);
      var rest := Split(s[1..], c);
      if s[0] == c {
        assert ([""] + rest)[1..] == rest;
      } else {
        var parts := [[s[0]] + rest[0]] + rest[1..];
        if |rest| > 1 { assert parts[1..] == rest[1..]; }
      }
    }
  }

  lemma {:induction false} SplitParts(s: string, c: char)
    ensures forall p | p in Split(s, c) :: c !in p
  {
    if s != "" { SplitParts(s[1..], c); }
  }

  lemma {:induction false} SplitFirst(p: string, s: string, c: char)
    requires c !in p
    ensures Split(p, c) == [p]
    ensures Split(p + [c] + s, c) == [p] + Split(s, c)
  {
    if p == "" {
      assert (p + [c] + s)[1..] == s;
    } else {
      SplitFirst(p[1..], s, c);
      assert (p + [c] + s)[1..] == p[1..] + [c] + s;
      assert p == [p[0]] + p[1..];
    }
  }

  lemma {:induction false} SplitJoin(parts: seq<string>, c: char)
    requires parts != [] && forall p | p in parts :: c !in p
    ensures Split(Join(parts, c), c) == parts
  {
    hide Split;
    assert parts[0] in parts;
    if |parts| == 1 {
      SplitFirst(parts[0], "", c);
    } else {
      SplitJoin(parts[1..], c);
      SplitFirst(parts[0], Join(parts[1..], c), c);
    }
  }

  lemma {:induction false} JoinAppend(parts: seq<string>, last: string, c: char)
    requires parts != []
    ensures Join(parts + [last], c) == Join(parts, c) + [c] + last
  {
    if |parts| == 1 {
      assert (parts + [last])[1..] == [last];
    } else {
      JoinAppend(parts[1..], last, c);
      assert (parts + [last])[1..] == parts[1..] + [last];
      assert parts[0] + [c] + (Join(parts[1..], c) + [c] + last) == parts[0] + [c] + Join(parts[1..], c) + [c] + last;
    }
  }

  // --- cutting and comparing ---

  /** What strings.Cut returns first: the text before the first `c`, or all of it. */
  function Before(s: string, c: char): string {
    if s == "" || s[0] == c then "" else [s[0]] + Before(s[1..], c)
  }

  lemma {:induction false} BeforeCuts(key: string, rest: string, c: char)
    requires c !in key
    ensures Before(key + [c] + rest, c) == key
  {
    if key == "" {
    } else {
      BeforeCuts(key[1..], rest, c);
      assert (key + [c] + rest)[1..] == key[1..] + [c] + rest;
    }
  }

  predicate HasPrefix(s: string, prefix: string) {
    |prefix| <= |s| && s[..|prefix|] == prefix
  }

  predicate HasSuffix(s: string, suffix: string) {
    |suffix| <= |s| && s[|s| - |suffix|..] == suffix
  }

  /** A text starts with a key and an equals sign exactly when it has one and the key comes before the first. */
  lemma {:induction false} PrefixIsKey(s: string, key: string)
    requires '=' !in key
    ensures HasPrefix(s, key + "=") <==> '=' in s && Before(s, '=') == key
  {
    if s == "" {
    } else if s[0] == '=' {
      if key != "" { assert (key + "=")[0] == key[0] && key[0] in key; }
    } else if key == "" {
    } else {
      PrefixIsKey(s[1..], key[1..]);
      assert key[1..] + "=" == (key + "=")[1..];
      assert key == [key[0]] + key[1..];
      if HasPrefix(s, key + "=") {
        assert s[1..][..|key|] == s[..|key| + 1][1..];
      }
      if HasPrefix(s[1..], key[1..] + "=") && s[0] == key[0] {
        assert s[..|key| + 1] == [s[0]] + s[1..][..|key|];
      }
    }
  }

  // --- case ---

  function Lower(c: char): char { if 'A' <= c <= 'Z' then c - 'A' + 'a' else c }

  function ToLower(s: string): (r: string)
    ensures |r| == |s| && forall i | 0 <= i < |s| :: r[i] == Lower(s[i])
  {
    if s == "" then "" else [Lower(s[0])] + ToLower(s[1..])
  }

  const CAPITALS := "ABCDEFGHIJKLMNOPQRSTUVWXYZ"
  const SMALL := "abcdefghijklmnopqrstuvwxyz"

  /** The same character, or a capital and a small letter at the same place in the alphabet. */
  predicate SameLetter(c: char, d: char) {
    c == d || exists k | 0 <= k < 26 :: (c == CAPITALS[k] && d == SMALL[k]) || (c == SMALL[k] && d == CAPITALS[k])
  }

  predicate SameButCase(a: string, b: string) {
    |a| == |b| && forall i | 0 <= i < |a| :: SameLetter(a[i], b[i])
  }

  lemma Alphabet(k: nat)
    requires k < 26
    ensures CAPITALS[k] as int == 'A' as int + k && SMALL[k] as int == 'a' as int + k
  {}

  lemma LowerLetter(c: char, k: nat)
    requires k < 26
    ensures CAPITALS[k] == c ==> Lower(c) == SMALL[k]
    ensures Lower(c) != CAPITALS[k]
  {
    Alphabet(k);
  }

  lemma LowerSpares(c: char)
    requires forall k | 0 <= k < 26 :: c != CAPITALS[k]
    ensures Lower(c) == c
  {
    if 'A' <= c <= 'Z' { Alphabet(c as int - 'A' as int); }
  }

  /** Capitals become the small letters of the same place, every other character stays, and no capital is left. */
  lemma LowerExactly(s: string)
    ensures |ToLower(s)| == |s|
    ensures forall i, k | 0 <= i < |s| && 0 <= k < 26 && s[i] == CAPITALS[k] :: ToLower(s)[i] == SMALL[k]
    ensures forall i | 0 <= i < |s| && (forall k | 0 <= k < 26 :: s[i] != CAPITALS[k]) :: ToLower(s)[i] == s[i]
    ensures forall i, k | 0 <= i < |s| && 0 <= k < 26 :: ToLower(s)[i] != CAPITALS[k]
  {
    hide Lower;
    forall i, k | 0 <= i < |s| && 0 <= k < 26
      ensures CAPITALS[k] == s[i] ==> Lower(s[i]) == SMALL[k]
      ensures Lower(s[i]) != CAPITALS[k]
    {
      LowerLetter(s[i], k);
    }
    forall i | 0 <= i < |s| && (forall k | 0 <= k < 26 :: s[i] != CAPITALS[k])
      ensures Lower(s[i]) == s[i]
    {
      LowerSpares(s[i]);
    }
  }

  lemma SameWhenLowered(c: char, d: char)
    requires Lower(c) == Lower(d)
    ensures SameLetter(c, d)
  {
    if c != d {
      var k := (if 'A' <= c <= 'Z' then c else d) as int - 'A' as int;
      Alphabet(k);
    }
  }

  lemma LoweredWhenSame(c: char, d: char)
    requires SameLetter(c, d)
    ensures Lower(c) == Lower(d)
  {
    if c != d {
      var k :| 0 <= k < 26 && ((c == CAPITALS[k] && d == SMALL[k]) || (c == SMALL[k] && d == CAPITALS[k]));
      Alphabet(k);
    }
  }

  lemma SameLetterExactly(c: char, d: char)
    ensures Lower(c) == Lower(d) <==> SameLetter(c, d)
  {
    hide SameLetter, Lower;
    if Lower(c) == Lower(d) { SameWhenLowered(c, d); }
    if SameLetter(c, d) { LoweredWhenSame(c, d); }
  }

  /** Two texts are alike in lower case exactly if they differ only in letter case. */
  lemma SameLowerExactly(a: string, b: string)
    ensures ToLower(a) == ToLower(b) <==> SameButCase(a, b)
  {
    hide Lower, SameLetter;
    if |a| == |b| {
      forall i | 0 <= i < |a|
        ensures Lower(a[i]) == Lower(b[i]) <==> SameLetter(a[i], b[i])
      {
        SameLetterExactly(a[i], b[i]);
      }
      assert forall i | 0 <= i < |a| :: ToLower(a)[i] == Lower(a[i]) && ToLower(b)[i] == Lower(b[i]);
    }
  }

  lemma ToLowerTwice(s: string)
    ensures ToLower(ToLower(s)) == ToLower(s)
  {}

  // --- lexicographic order ---

  predicate AtMost(a: string, b: string) {
    a == "" || (b != "" && (a[0] < b[0] || (a[0] == b[0] && AtMost(a[1..], b[1..]))))
  }

  /** The first difference decides, and a text comes before its continuations. */
  lemma {:induction false} FirstDifferenceDecides(common: string, x: char, a: string, y: char, b: string)
    requires x < y
    ensures AtMost(common + [x] + a, common + [y] + b) && !AtMost(common + [y] + b, common + [x] + a)
    ensures AtMost(common, common + a) && (a != "" ==> !AtMost(common + a, common))
  {
    if common == "" {
      assert common + a == a && common + [x] + a == [x] + a && common + [y] + b == [y] + b;
    } else {
      var rest := common[1..];
      FirstDifferenceDecides(rest, x, a, y, b);
      assert (common + a)[1..] == rest + a;
      assert (common + [x] + a)[1..] == rest + [x] + a && (common + [y] + b)[1..] == rest + [y] + b;
    }
  }

  lemma {:induction false} AtMostTotal(a: string, b: string)
    ensures AtMost(a, b) || AtMost(b, a)
    ensures AtMost(a, b) && AtMost(b, a) ==> a == b
  {
    if a != "" && b != "" && a[0] == b[0] {
      AtMostTotal(a[1..], b[1..]);
      assert a == [a[0]] + a[1..] && b == [b[0]] + b[1..];
    }
  }

  lemma {:induction false} AtMostTransitive(a: string, b: string, c: string)
    requires AtMost(a, b) && AtMost(b, c)
    ensures AtMost(a, c)
  {
    if a != "" && a[0] == b[0] && b[0] == c[0] { AtMostTransitive(a[1..], b[1..], c[1..]); }
  }

  /** No text occurs twice and each is at most the next ones. */
  predicate Ascending(s: seq<string>) {
    forall i, j | 0 <= i < j < |s| :: s[i] != s[j] && AtMost(s[i], s[j])
  }

  /** There is only one way to put a set of texts in order. */
  lemma {:induction false} AscendingUnique(s: seq<string>, t: seq<string>)
    requires Ascending(s) && Ascending(t)
    requires forall x :: x in s <==> x in t
    ensures s == t
    decreases |s|
  {
    assert t != [] ==> t[0] in s;
    if s == [] {
    } else {
      assert s[0] in t;
      assert s[0] == t[0] by {
        AtMostTotal(s[0], t[0]);
        var i :| 0 <= i < |t| && t[i] == s[0];
        var j :| 0 <= j < |s| && s[j] == t[0];
      }
      forall x
        ensures x in s[1..] <==> x in t[1..]
      {
        assert x in s <==> x == s[0] || x in s[1..];
        assert x in t <==> x == t[0] || x in t[1..];
      }
      AscendingUnique(s[1..], t[1..]);
    }
  }

  predicate Sorted(s: seq<string>) {
    forall i, j | 0 <= i < j < |s| :: AtMost(s[i], s[j])
  }

  predicate Distinct<T(==)>(s: seq<T>) {
    forall i, j | 0 <= i < j < |s| :: s[i] != s[j]
  }

  /** sort.Strings. */
  method SortStrings(s: seq<string>) returns (sorted: seq<string>)
    ensures Sorted(sorted) && multiset(sorted) == multiset(s)
    ensures forall x :: x in sorted <==> x in s
    ensures Distinct(s) ==> Ascending(sorted)
  {
    sorted := [];
    for i := 0 to |s|
      invariant Sorted(sorted) && multiset(sorted) == multiset(s[..i])
      invariant forall x :: x in sorted <==> x in s[..i]
      invariant Distinct(s) ==> Ascending(sorted)
    {
      assert s[..i + 1] == s[..i] + [s[i]];
      sorted := InsertSorted(sorted, s[i]);
    }
    assert s[..|s|] == s;
  }

  method InsertSorted(s: seq<string>, x: string) returns (r: seq<string>)
    requires Sorted(s)
    ensures Sorted(r) && multiset(r) == multiset(s) + multiset{x}
    ensures forall y :: y in r <==> y == x || y in s
    ensures Ascending(s) && x !in s ==> Ascending(r)
  {
    var k := 0;
    while k < |s| && AtMost(s[k], x)
      invariant k <= |s|
      invariant forall i | 0 <= i < k :: AtMost(s[i], x)
    {
      k := k + 1;
    }
    forall i | k <= i < |s|
      ensures AtMost(x, s[i])
    {
      AtMostTotal(s[k], x);
      if i > k { AtMostTransitive(x, s[k], s[i]); }
    }
    r := s[..k] + [x] + s[k..];
    assert s == s[..k] + s[k..];
    InsertedSorted(s[..k], x, s[k..]);
  }

  lemma InsertedSorted(a: seq<string>, x: string, b: seq<string>)
    requires Sorted(a + b)
    requires forall i | 0 <= i < |a| :: AtMost(a[i], x)
    requires forall i | 0 <= i < |b| :: AtMost(x, b[i])
    ensures Sorted(a + [x] + b)
    ensures Ascending(a + b) && x !in a + b ==> Ascending(a + [x] + b)
  {
    hide AtMost;
    var s, r := a + b, a + [x] + b;
    assert forall i | 0 <= i < |a| :: r[i] == s[i] == a[i];
    assert forall i | |a| < i < |r| :: r[i] == s[i - 1] == b[i - |a| - 1];
  }
}
