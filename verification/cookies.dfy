/**
  Removing the portal's session cookie from a request before an app sees it.

  A Cookie header value is a list of pairs separated by semicolons (section 4.2.1 of
  RFC 6265). Reading the stripped header back gives exactly the other cookies, in
  their order.
 */
module Cookies {
  import opened Text

  /** An HTTP header: each field has a list of values. */
  class Header {
    var fields: map<string, seq<string>>

    constructor ()
      ensures fields == map[]
    {
      fields := map[];
    }

    function Values(key: string): seq<string>
      reads this
    {
      if key in fields then fields[key] else []
    }

    method Del(key: string)
      modifies this
      ensures fields == old(fields) - {key}
    {
      fields := fields - {key};
    }

    method Add(key: string, value: string)
      modifies this
      ensures fields == old(fields)[key := old(Values(key)) + [value]]
    {
      fields := fields[key := Values(key) + [value]];
    }
  }

  // --- specification ---

  predicate Named(part: string, name: string) { Before(TrimSpace(part), '=') == name }

  /** The parts that are not the named cookie, in order. */
  function Kept(parts: seq<string>, name: string): seq<string> {
    if parts == [] then []
    else
      var last := parts[|parts| - 1];
      Kept(parts[..|parts| - 1], name) + if Named(last, name) then [] else [last]
  }

  function StripValue(value: string, name: string): string {
    TrimSpace(Join(Kept(Split(value, ';'), name), ';'))
  }

  /** Each value stripped; values with nothing left are dropped. */
  function StripValues(values: seq<string>, name: string): seq<string> {
    if values == [] then []
    else
      var s := StripValue(values[|values| - 1], name);
      StripValues(values[..|values| - 1], name) + if s == "" then [] else [s]
  }

  function Stripped(fields: map<string, seq<string>>, name: string): map<string, seq<string>> {
    if "Cookie" !in fields || fields["Cookie"] == [] then fields
    else
      var kept := StripValues(fields["Cookie"], name);
      if kept == [] then fields - {"Cookie"} else fields["Cookie" := kept]
  }

  // --- the code ---

  /** Filters `parts` in place and returns how many elements it kept. */
  method FilterParts(parts: array<string>, name: string) returns (n: nat)
    modifies parts
    ensures n <= parts.Length
    ensures parts[..n] == Kept(old(parts[..]), name)
  {
    n := 0;
    ghost var original := parts[..];
    for i := 0 to parts.Length
      invariant n <= i
      invariant parts[..n] == Kept(original[..i], name)
      invariant forall j | i <= j < parts.Length :: parts[j] == original[j]
    {
      var p := parts[i];
      assert original[..i + 1][..i] == original[..i];
      if Before(TrimSpace(p), '=') != name {
        parts[n] := p;
        n := n + 1;
      }
    }
    assert original[..|original|] == original;
  }

  /** One header value without the named cookie. */
  method StripOne(value: string, name: string) returns (s: string)
    ensures s == StripValue(value, name)
  {
    var split := Split(value, ';');
    var parts := new string[|split|](j requires 0 <= j < |split| => split[j]);
    assert parts[..] == split;
    var n := FilterParts(parts, name);
    s := TrimSpace(Join(parts[..n], ';'));
  }

  method StripCookie(h: Header, name: string)
    modifies h
    ensures h.fields == Stripped(old(h.fields), name)
  {
    var values := h.Values("Cookie");
    if |values| == 0 { return; }
    hide StripValue;
    var kept: seq<string> := [];
    for i := 0 to |values|
      invariant kept == StripValues(values[..i], name)
      invariant h.fields == old(h.fields)
    {
      assert values[..i + 1][..i] == values[..i];
      var s := StripOne(values[i], name);
      if s != "" { kept := kept + [s]; }
    }
    assert values[..|values|] == values;
    h.Del("Cookie");
    for i := 0 to |kept|
      invariant h.fields == if i == 0 then old(h.fields) - {"Cookie"} else old(h.fields)["Cookie" := kept[..i]]
    {
      assert kept[..i + 1] == kept[..i] + [kept[i]];
      h.Add("Cookie", kept[i]);
    }
    assert kept[..|kept|] == kept;
  }

  // --- which parts survive ---

  /** The positions of the parts that are kept. */
  function Positions(parts: seq<string>, name: string): seq<nat> {
    if parts == [] then []
    else
      var k := |parts| - 1;
      Positions(parts[..k], name) + if Named(parts[k], name) then [] else [k]
  }

  lemma {:induction false} PositionsExact(parts: seq<string>, name: string)
    ensures var at := Positions(parts, name);
      && (forall i | 0 <= i < |at| :: at[i] < |parts|)
      && (forall i, j | 0 <= i < j < |at| :: at[i] < at[j])
      && (forall i | 0 <= i < |parts| :: i in at <==> !Named(parts[i], name))
  {
    hide Named;
    if parts != [] { PositionsExact(parts[..|parts| - 1], name); }
  }

  /** Every part that is not the named cookie is kept byte for byte, once and in order, and no other is. */
  lemma {:induction false} KeptExactly(parts: seq<string>, name: string)
    ensures var at := Positions(parts, name);
      && |Kept(parts, name)| == |at|
      && (forall i | 0 <= i < |at| :: at[i] < |parts| && Kept(parts, name)[i] == parts[at[i]])
      && (forall i, j | 0 <= i < j < |at| :: at[i] < at[j])
      && (forall i | 0 <= i < |parts| :: i in at <==> !Named(parts[i], name))
  {
    hide Named;
    PositionsExact(parts, name);
    if parts != [] { KeptExactly(parts[..|parts| - 1], name); }
  }

  predicate NoneNamed(parts: seq<string>, name: string) {
    forall i | 0 <= i < |parts| :: !Named(parts[i], name)
  }

  lemma KeptParts(parts: seq<string>, name: string)
    ensures forall p | p in Kept(parts, name) :: p in parts
    ensures NoneNamed(Kept(parts, name), name)
  {
    hide Named;
    KeptExactly(parts, name);
    var at := Positions(parts, name);
    forall i | 0 <= i < |at|
      ensures !Named(Kept(parts, name)[i], name)
    {
      assert at[i] in at;
    }
  }

  // --- splitting the output again ---

  /** The parts with the white space around the whole list removed. */
  function OuterTrimmed(parts: seq<string>): seq<string>
    requires parts != []
  {
    if |parts| == 1 then [TrimSpace(parts[0])]
    else [TrimLeft(parts[0])] + parts[1..|parts| - 1] + [TrimRight(parts[|parts| - 1])]
  }

  lemma LeftTrimmedJoin(first: string, rest: seq<string>)
    requires rest != []
    ensures TrimLeft(Join([first] + rest, ';')) == Join([TrimLeft(first)] + rest, ';')
  {
    hide TrimLeft;
    var tail := [';'] + Join(rest, ';');
    TrimLeftStops(first, tail);
    JoinFirst(first, rest);
    JoinFirst(TrimLeft(first), rest);
  }

  lemma JoinFirst(first: string, rest: seq<string>)
    requires rest != []
    ensures Join([first] + rest, ';') == first + ([';'] + Join(rest, ';'))
  {
    assert ([first] + rest)[1..] == rest;
  }

  lemma RightTrimmedJoin(front: seq<string>, last: string)
    requires front != []
    ensures TrimRight(Join(front + [last], ';')) == Join(front + [TrimRight(last)], ';')
  {
    hide TrimRight, Join;
    JoinAppend(front, last, ';');
    TrimRightStops(Join(front, ';') + [';'], last);
    JoinAppend(front, TrimRight(last), ';');
  }

  lemma TrimmedJoin(parts: seq<string>)
    requires parts != []
    ensures TrimSpace(Join(parts, ';')) == Join(OuterTrimmed(parts), ';')
  {
    if |parts| == 1 {
    } else {
      hide TrimRight, TrimLeft, Join;
      var first, last := parts[0], parts[|parts| - 1];
      var middle := parts[1..|parts| - 1];
      assert parts == [first] + (middle + [last]);
      LeftTrimmedJoin(first, middle + [last]);
      var front := [TrimLeft(first)] + middle;
      assert [TrimLeft(first)] + (middle + [last]) == front + [last];
      RightTrimmedJoin(front, last);
    }
  }

  lemma OuterTrimmedParts(parts: seq<string>)
    requires parts != [] && forall p | p in parts :: ';' !in p
    ensures forall p | p in OuterTrimmed(parts) :: ';' !in p
  {
    hide TrimLeft, TrimRight;
    var first, last := parts[0], parts[|parts| - 1];
    assert first in parts && last in parts;
    TrimLeftCuts(first);
    TrimRightCuts(last);
    TrimRightCuts(TrimLeft(first));
  }

  /** Splitting a stripped value again gives the kept parts, up to the white space around the whole value. */
  lemma SplitAgain(value: string, name: string)
    ensures var kept := Kept(Split(value, ';'), name);
      Split(StripValue(value, name), ';') == if kept == [] then [""] else OuterTrimmed(kept)
  {
    var kept := Kept(Split(value, ';'), name);
    KeptParts(Split(value, ';'), name);
    SplitParts(value, ';');
    if kept != [] {
      TrimmedJoin(kept);
      OuterTrimmedParts(kept);
      SplitJoin(OuterTrimmed(kept), ';');
    }
  }

  lemma OuterTrimmedNamed(parts: seq<string>, i: nat)
    requires parts != [] && i < |parts|
    ensures |OuterTrimmed(parts)| == |parts|
    ensures TrimSpace(OuterTrimmed(parts)[i]) == TrimSpace(parts[i])
  {
    hide TrimSpace, TrimLeft, TrimRight;
    TrimTwice(parts[0]);
    TrimOfTrimLeft(parts[0]);
    TrimOfTrimRight(parts[|parts| - 1]);
  }

  lemma NothingKept(value: string, name: string)
    ensures Kept(Split(value, ';'), name) == [] ==> StripValue(value, name) == ""
  {}

  /** No part of a stripped value is the named cookie. */
  lemma NoneLeft(value: string, name: string)
    requires StripValue(value, name) != ""
    ensures NoneNamed(Split(StripValue(value, name), ';'), name)
  {
    NothingKept(value, name);
    hide TrimSpace, Join, Split, Before;
    var kept := Kept(Split(value, ';'), name);
    SplitAgain(value, name);
    KeptParts(Split(value, ';'), name);
    forall i | 0 <= i < |kept|
      ensures !Named(OuterTrimmed(kept)[i], name)
    {
      OuterTrimmedNamed(kept, i);
    }
  }

  lemma {:induction false} KeptAll(parts: seq<string>, name: string)
    requires NoneNamed(parts, name)
    ensures Kept(parts, name) == parts
  {
    hide Named;
    if parts != [] { KeptAll(parts[..|parts| - 1], name); }
  }

  /** A value without the named cookie only loses the white space around it. */
  lemma OthersUntouched(value: string, name: string)
    requires NoneNamed(Split(value, ';'), name)
    ensures StripValue(value, name) == TrimSpace(value)
  {
    KeptAll(Split(value, ';'), name);
    JoinSplit(value, ';');
  }

  lemma StripValueTwice(value: string, name: string)
    ensures StripValue(StripValue(value, name), name) == StripValue(value, name)
  {
    var s := StripValue(value, name);
    if s == "" {
      assert Split("", ';') == [""];
      assert Kept([""], name) == [] || Kept([""], name) == [""];
    } else {
      NoneLeft(value, name);
      OthersUntouched(s, name);
      TrimTwice(Join(Kept(Split(value, ';'), name), ';'));
    }
  }

  lemma {:induction false} StripValuesTwice(values: seq<string>, name: string)
    ensures StripValues(StripValues(values, name), name) == StripValues(values, name)
  {
    if values != [] {
      var front := values[..|values| - 1];
      StripValuesTwice(front, name);
      var s := StripValue(values[|values| - 1], name);
      StripValueTwice(values[|values| - 1], name);
      if s != "" {
        var out := StripValues(values, name);
        assert out[..|out| - 1] == StripValues(front, name);
      } else {
        assert StripValues(values, name) == StripValues(front, name);
      }
    }
  }

  // --- main results ---

  /** Stripping twice is stripping once, and no other header field is touched. */
  lemma StrippedTwice(fields: map<string, seq<string>>, name: string)
    ensures Stripped(Stripped(fields, name), name) == Stripped(fields, name)
    ensures forall key | key != "Cookie" ::
      && (key in Stripped(fields, name) <==> key in fields)
      && (key in fields ==> Stripped(fields, name)[key] == fields[key])
  {
    if "Cookie" in fields { StripValuesTwice(fields["Cookie"], name); }
  }

  /** The cookies in a list of parts: what is between the separators, trimmed, unless it is blank. */
  function Pairs(parts: seq<string>): seq<string> {
    if parts == [] then []
    else
      var p := TrimSpace(parts[|parts| - 1]);
      Pairs(parts[..|parts| - 1]) + if p == "" then [] else [p]
  }

  /** Every cookie that the header values carry. */
  function ReadCookies(values: seq<string>): seq<string> {
    if values == [] then []
    else ReadCookies(values[..|values| - 1]) + Pairs(Split(values[|values| - 1], ';'))
  }

  lemma {:induction false} KeptAppends(a: seq<string>, b: seq<string>, name: string)
    ensures Kept(a + b, name) == Kept(a, name) + Kept(b, name)
  {
    if b == [] {
      assert a + b == a;
    } else {
      var k := |b| - 1;
      KeptAppends(a, b[..k], name);
      assert (a + b)[..|a + b| - 1] == a + b[..k];
    }
  }

  lemma PairsAppend(parts: seq<string>, part: string)
    ensures Pairs(parts + [part]) == if TrimSpace(part) == "" then Pairs(parts) else Pairs(parts) + [TrimSpace(part)]
  {
    hide TrimSpace;
    assert (parts + [part])[..|parts|] == parts;
  }

  lemma KeptAppend(parts: seq<string>, part: string, name: string)
    ensures Kept(parts + [part], name) == if Named(part, name) then Kept(parts, name) else Kept(parts, name) + [part]
  {
    hide Named;
    assert (parts + [part])[..|parts|] == parts;
  }

  lemma TrimmedIsNamed(part: string, name: string)
    ensures Named(TrimSpace(part), name) <==> Named(part, name)
  {
    TrimTwice(part);
  }

  lemma {:induction false} PairsKept(parts: seq<string>, name: string)
    ensures Pairs(Kept(parts, name)) == Kept(Pairs(parts), name)
  {
    if parts == [] {
    } else {
      var front, last := parts[..|parts| - 1], parts[|parts| - 1];
      assert parts == front + [last];
      PairsKept(front, name);
      hide *;
      TrimmedIsNamed(last, name);
      PairsAppend(front, last);
      PairsAppend(Kept(front, name), last);
      KeptAppend(front, last, name);
      KeptAppend(Pairs(front), TrimSpace(last), name);
    }
  }

  lemma {:induction false} PairsTrimmed(parts: seq<string>, trimmed: seq<string>)
    requires |parts| == |trimmed|
    requires forall i | 0 <= i < |parts| :: TrimSpace(parts[i]) == TrimSpace(trimmed[i])
    ensures Pairs(parts) == Pairs(trimmed)
  {
    if parts != [] { PairsTrimmed(parts[..|parts| - 1], trimmed[..|trimmed| - 1]); }
  }

  lemma NothingToRead()
    ensures Pairs(Split("", ';')) == [] && Pairs([""]) == []
  {}

  lemma ReadStrippedValue(value: string, name: string)
    ensures Pairs(Split(StripValue(value, name), ';')) == Kept(Pairs(Split(value, ';')), name)
  {
    var kept := Kept(Split(value, ';'), name);
    SplitAgain(value, name);
    PairsKept(Split(value, ';'), name);
    if kept == [] {
      NothingToRead();
    } else {
      forall i | 0 <= i < |kept|
        ensures |OuterTrimmed(kept)| == |kept| && TrimSpace(OuterTrimmed(kept)[i]) == TrimSpace(kept[i])
      {
        OuterTrimmedNamed(kept, i);
      }
      PairsTrimmed(kept, OuterTrimmed(kept));
    }
  }

  lemma ReadAppend(values: seq<string>, value: string)
    ensures ReadCookies(values + [value]) == ReadCookies(values) + Pairs(Split(value, ';'))
  {
    hide Pairs, Split;
    assert (values + [value])[..|values|] == values;
  }

  /** Whoever reads the stripped values finds exactly the other cookies, in the order they had. */
  lemma {:induction false} ReadStripped(values: seq<string>, name: string)
    ensures ReadCookies(StripValues(values, name)) == Kept(ReadCookies(values), name)
  {
    if values == [] {
    } else {
      var front, value := values[..|values| - 1], values[|values| - 1];
      ReadStripped(front, name);
      ReadStrippedValue(value, name);
      KeptAppends(ReadCookies(front), Pairs(Split(value, ';')), name);
      NothingToRead();
      assert values == front + [value];
      ReadAppend(front, value);
      var out, s := StripValues(front, name), StripValue(value, name);
      assert StripValues(values, name) == if s == "" then out else out + [s];
      ReadAppend(out, s);
      hide *;
    }
  }

  // --- the header as clients write it ---

  /** A cookie as it stands between separators: not empty, without a semicolon, no blank at either end. */
  predicate Cookie(c: string) { c != "" && ';' !in c && Tidy(c) }

  /** A list of cookies as clients write it. */
  function Written(cookies: seq<string>): string {
    if cookies == [] then ""
    else if |cookies| == 1 then cookies[0]
    else cookies[0] + "; " + Written(cookies[1..])
  }

  /** The cookies that are neither `name` alone nor `name`, an equals sign and a value. */
  function Others(cookies: seq<string>, name: string): seq<string> {
    if cookies == [] then []
    else (if cookies[0] == name || name + "=" <= cookies[0] then [] else [cookies[0]]) + Others(cookies[1..], name)
  }

  function Padded(cookies: seq<string>): (r: seq<string>)
    ensures |r| == |cookies| && forall i | 0 <= i < |r| :: r[i] == " " + cookies[i]
  {
    if cookies == [] then [] else [" " + cookies[0]] + Padded(cookies[1..])
  }

  lemma {:induction false} BeforeAll(s: string, c: char)
    requires c !in s
    ensures Before(s, c) == s
  {
    if s != "" { BeforeAll(s[1..], c); }
  }

  /** What it takes for a part to be the named cookie, whatever blanks surround it. */
  lemma NamedExactly(before: string, c: string, after: string, name: string)
    requires (forall b | b in before || b in after :: b in BLANKS) && Tidy(c) && '=' !in name
    ensures Named(before + c + after, name) <==> c == name || name + "=" <= c
  {
    TrimsBlanks(before, c, after);
    PrefixIsKey(c, name);
    if '=' !in c { BeforeAll(c, '='); }
    hide TrimSpace, Before, Tidy;
    if name + "=" <= c {
      assert c[..|name + "="|] == name + "=";
      assert (name + "=")[|name|] == '=';
    }
  }

  lemma PaddedParts(cookies: seq<string>)
    requires forall c | c in cookies :: ';' !in c
    ensures forall p | p in Padded(cookies) :: ';' !in p
  {
    forall i | 0 <= i < |cookies|
      ensures ';' !in Padded(cookies)[i]
    {
      assert cookies[i] in cookies;
    }
  }

  lemma WrittenFirst(first: string, rest: seq<string>)
    ensures Padded([first] + rest) == [" " + first] + Padded(rest)
    ensures Written([first] + rest) == if rest == [] then first else first + [';'] + (" " + Written(rest))
  {
    assert ([first] + rest)[1..] == rest;
    assert first + "; " + Written(rest) == first + [';'] + (" " + Written(rest));
  }

  lemma JoinPadded(first: string, rest: seq<string>)
    requires Join(Padded(rest), ';') == " " + Written(rest) || rest == []
    ensures Join([first] + Padded(rest), ';') == Written([first] + rest)
    ensures Join(Padded([first] + rest), ';') == " " + Written([first] + rest)
  {
    WrittenFirst(first, rest);
    assert ([first] + Padded(rest))[1..] == Padded(rest) && ([" " + first] + Padded(rest))[1..] == Padded(rest);
    hide Written, Padded;
    assert rest != [] ==> " " + first + [';'] + (" " + Written(rest)) == " " + (first + [';'] + (" " + Written(rest)));
  }

  lemma {:induction false} WrittenJoined(cookies: seq<string>)
    requires cookies != []
    ensures Join(Padded(cookies), ';') == " " + Written(cookies)
  {
    var first, rest := cookies[0], cookies[1..];
    assert cookies == [first] + rest;
    hide *;
    if rest != [] { WrittenJoined(rest); }
    JoinPadded(first, rest);
  }

  lemma WrittenParts(first: string, rest: seq<string>)
    requires ';' !in first && forall c | c in rest :: ';' !in c
    ensures Split(Written([first] + rest), ';') == [first] + Padded(rest)
  {
    PaddedParts(rest);
    if rest == [] {
      SplitFirst(first, "", ';');
    } else {
      hide *;
      WrittenFirst(first, rest);
      WrittenJoined(rest);
      SplitFirst(first, " " + Written(rest), ';');
      PaddedSome(rest);
      SplitJoin(Padded(rest), ';');
    }
  }

  lemma PaddedSome(cookies: seq<string>)
    ensures Padded(cookies) == [] <==> cookies == []
  {}

  lemma OthersFirst(first: string, rest: seq<string>, name: string)
    ensures Others([first] + rest, name)
      == if first == name || name + "=" <= first then Others(rest, name) else [first] + Others(rest, name)
  {
    assert ([first] + rest)[1..] == rest;
  }

  /** A part that is not like the others in front of padded ones. */
  lemma KeptBefore(part: string, first: string, rest: seq<string>, left: seq<string>, name: string)
    requires Named(part, name) <==> first == name || name + "=" <= first
    requires Kept(Padded(rest), name) == Padded(left)
    ensures Kept([part] + Padded(rest), name) == if first == name || name + "=" <= first then Padded(left) else [part] + Padded(left)
  {
    hide *;
    KeptAppends([part], Padded(rest), name);
    KeptAppend([], part, name);
    assert [] + [part] == [part] && [] + Padded(left) == Padded(left);
    NothingKeptYet(name);
  }

  lemma NothingKeptYet(name: string)
    ensures Kept([], name) == []
  {}

  lemma {:induction false} KeptPadded(cookies: seq<string>, name: string)
    requires (forall c | c in cookies :: Cookie(c)) && '=' !in name
    ensures Kept(Padded(cookies), name) == Padded(Others(cookies, name))
    ensures forall c | c in Others(cookies, name) :: Cookie(c)
  {
    if cookies != [] {
      var first, rest := cookies[0], cookies[1..];
      assert cookies == [first] + rest && Cookie(first);
      assert Tidy(first);
      hide Named, Cookie, Tidy, Kept, Others, Padded, Written;
      KeptPadded(rest, name);
      NamedExactly(" ", first, "", name);
      assert " " + first + "" == " " + first;
      KeptBefore(" " + first, first, rest, Others(rest, name), name);
      WrittenFirst(first, rest);
      WrittenFirst(first, Others(rest, name));
      OthersFirst(first, rest, name);
    }
  }

  lemma {:induction false} WrittenIsTidy(cookies: seq<string>)
    requires forall c | c in cookies :: Cookie(c)
    ensures Tidy(Written(cookies)) && (Written(cookies) == "" <==> cookies == [])
  {
    if cookies != [] {
      assert cookies[0] in cookies;
      WrittenIsTidy(cookies[1..]);
    }
  }

  lemma TrimsWritten(cookies: seq<string>)
    requires forall c | c in cookies :: Cookie(c)
    ensures TrimSpace(Written(cookies)) == TrimSpace(" " + Written(cookies)) == Written(cookies)
  {
    WrittenIsTidy(cookies);
    hide *;
    assert BLANKS[0] == ' ';
    TrimsBlanks("", Written(cookies), "");
    TrimsBlanks(" ", Written(cookies), "");
    assert "" + Written(cookies) + "" == Written(cookies);
    assert " " + Written(cookies) + "" == " " + Written(cookies);
  }

  lemma NothingJoined()
    ensures Join(Padded([]), ';') == "" && Written([]) == "" && TrimSpace("") == ""
  {}

  lemma CookieParts(first: string, rest: seq<string>)
    requires Cookie(first) && forall c | c in rest :: Cookie(c)
    ensures Tidy(first) && ';' !in first && forall c | c in rest :: ';' !in c
  {
    hide Tidy;
  }

  lemma ListOfSomeStripped(first: string, rest: seq<string>, name: string)
    requires Cookie(first) && (forall c | c in rest :: Cookie(c)) && '=' !in name
    ensures StripValue(Written([first] + rest), name) == Written(Others([first] + rest, name))
  {
    CookieParts(first, rest);
    NamedExactly("", first, "", name);
    KeptPadded(rest, name);
    hide Named, Cookie, Tidy, Kept, Others, Padded, Written, Split, Join, TrimSpace;
    var left := Others(rest, name);
    WrittenParts(first, rest);
    assert "" + first + "" == first;
    KeptBefore(first, first, rest, left, name);
    OthersFirst(first, rest, name);
    TrimsWritten(left);
    TrimsWritten([first] + left);
    if left != [] { WrittenJoined(left); } else { NothingJoined(); }
    JoinPadded(first, left);
  }

  /**
    Of a list of cookies, however many, exactly those with the name are taken out; the
    others are left as they were written.
   */
  lemma ListStripped(cookies: seq<string>, name: string)
    requires (forall c | c in cookies :: Cookie(c)) && '=' !in name
    ensures StripValue(Written(cookies), name) == Written(Others(cookies, name))
  {
    if cookies == [] {
      assert Split("", ';') == [""];
      assert Kept([""], name) == [] || Kept([""], name) == [""];
    } else {
      assert cookies == [cookies[0]] + cookies[1..];
      ListOfSomeStripped(cookies[0], cookies[1..], name);
    }
  }

  lemma KeyedCookie(key: string, v: string, name: string)
    requires Cookie(key) && ';' !in v && (v == "" || v[|v| - 1] !in BLANKS) && '=' !in key && '=' !in name && key != name
    ensures Cookie(key + "=" + v) && key + "=" + v != name && !(name + "=" <= key + "=" + v)
  {
    var other := key + "=" + v;
    assert other[|key|] == '=' && other[0] == key[0];
    assert other[|other| - 1] == if v == "" then '=' else v[|v| - 1];
    assert '=' !in BLANKS && '=' in other;
    if name + "=" <= other {
      BeforeCuts(key, v, '=');
      PrefixIsKey(other, name);
    }
  }

  lemma WrittenPair(a: string, b: string)
    ensures Written([a, b]) == a + "; " + b
  {
    assert [a, b][1..] == [b];
  }

  lemma OtherPair(a: string, b: string, name: string)
    requires a != name && !(name + "=" <= a) && b != name && !(name + "=" <= b)
    ensures Others([a, b], name) == [a, b]
  {
    OthersFirst(b, [], name);
    OthersFirst(a, [b], name);
    assert [b] + [] == [b] && [a] + [b] == [a, b];
  }

  lemma NamedWithBlanks(v: string, name: string)
    requires Cookie(name) && '=' !in name
    ensures Named(" " + name + "=" + v, name)
  {
    TrimRightCuts(v);
    var c, after := name + "=" + TrimRight(v), v[|TrimRight(v)|..];
    forall b
      ensures IsSpace(b) <==> b in BLANKS
    {
      SpacesAreBlanks(b);
    }
    assert BLANKS[0] == ' ';
    hide IsSpace, TrimRight, Named;
    assert v == TrimRight(v) + after;
    assert c[0] == name[0] && c[|name|] == '=';
    assert '=' !in BLANKS;
    assert TrimRight(v) != "" ==> c[|c| - 1] == TrimRight(v)[|TrimRight(v)| - 1];
    NamedExactly(" ", c, after, name);
    assert " " + c + after == " " + name + "=" + v;
  }

  lemma NamedGoes(a: string, v: string, name: string)
    requires Cookie(a) && a != name && !(name + "=" <= a) && ';' !in v && Cookie(name) && '=' !in name
    ensures StripValue(a + "; " + name + "=" + v, name) == a
  {
    var value, part := a + "; " + name + "=" + v, " " + name + "=" + v;
    NamedWithBlanks(v, name);
    NamedExactly("", a, "", name);
    assert Split(value, ';') == [a, part] by {
      assert value == a + [';'] + part;
      SplitFirst(a, part, ';');
      SplitFirst(part, "", ';');
    }
    assert "" + a + "" == a;
    TrimsBlanks("", a, "");
    hide Named, Split, TrimSpace, Cookie, Tidy, Others;
    KeptAppend([], a, name);
    KeptAppend([a], part, name);
    assert [] + [a] == [a] && [a] + [part] == [a, part];
  }

  /** Two cookies of which the second is the named one, with any value, or another one. */
  lemma SecondCookie(a: string, key: string, v: string, name: string)
    requires Cookie(a) && a != name && !(name + "=" <= a) && ';' !in v
    requires Cookie(key) && '=' !in key && '=' !in name
    ensures key == name ==> StripValue(a + "; " + name + "=" + v, name) == a
    ensures key != name && (v == "" || v[|v| - 1] !in BLANKS) ==>
      StripValue(a + "; " + key + "=" + v, name) == a + "; " + key + "=" + v
  {
    var value := a + "; " + key + "=" + v;
    if key == name {
      NamedGoes(a, v, name);
    } else if v == "" || v[|v| - 1] !in BLANKS {
      KeyedCookie(key, v, name);
      var other := key + "=" + v;
      assert value == a + "; " + other;
      hide *;
      WrittenPair(a, other);
      OtherPair(a, other, name);
      forall c | c in [a, other]
        ensures Cookie(c)
      {}
      ListStripped([a, other], name);
    }
  }

  // --- the whole field ---

  /** What is left of several lists of cookies, without those that become empty. */
  function LeftOver(lists: seq<seq<string>>, name: string): seq<string> {
    if lists == [] then []
    else
      var last := Others(lists[|lists| - 1], name);
      LeftOver(lists[..|lists| - 1], name) + if last == [] then [] else [Written(last)]
  }

  lemma StripsOneMore(values: seq<string>, value: string, name: string)
    ensures StripValues(values + [value], name)
      == StripValues(values, name) + if StripValue(value, name) == "" then [] else [StripValue(value, name)]
  {
    hide StripValue;
    assert (values + [value])[..|values|] == values;
  }

  lemma OneMoreLeft(lists: seq<seq<string>>, list: seq<string>, name: string)
    ensures LeftOver(lists + [list], name)
      == LeftOver(lists, name) + if Others(list, name) == [] then [] else [Written(Others(list, name))]
  {
    hide Written, Others;
    assert (lists + [list])[..|lists|] == lists;
  }

  lemma {:induction false} ListsStripped(values: seq<string>, lists: seq<seq<string>>, name: string)
    requires |values| == |lists| && '=' !in name
    requires forall i | 0 <= i < |lists| :: values[i] == Written(lists[i]) && forall c | c in lists[i] :: Cookie(c)
    ensures StripValues(values, name) == LeftOver(lists, name)
  {
    if lists != [] {
      var k := |lists| - 1;
      var value, list := values[k], lists[k];
      assert values == values[..k] + [value] && lists == lists[..k] + [list];
      hide *;
      ListsStripped(values[..k], lists[..k], name);
      ListStripped(list, name);
      KeptPadded(list, name);
      WrittenIsTidy(Others(list, name));
      StripsOneMore(values[..k], value, name);
      OneMoreLeft(lists[..k], list, name);
    } else {
      hide Written;
    }
  }

  /**
    A Cookie field of well-formed lists holds afterwards exactly the other cookies, list by
    list; a field with none left is removed; no other field changes.
   */
  lemma FieldStripped(fields: map<string, seq<string>>, lists: seq<seq<string>>, name: string)
    requires "Cookie" in fields && |fields["Cookie"]| == |lists| > 0 && '=' !in name
    requires forall i | 0 <= i < |lists| :: fields["Cookie"][i] == Written(lists[i]) && forall c | c in lists[i] :: Cookie(c)
    ensures Stripped(fields, name)
      == var left := LeftOver(lists, name); if left == [] then fields - {"Cookie"} else fields["Cookie" := left]
  {
    ListsStripped(fields["Cookie"], lists, name);
    hide Cookie, Written, LeftOver, StripValues;
  }
}
