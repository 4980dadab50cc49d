/**
  Patching the INI file of qBittorrent.

  `PatchConf` works on lines of text. What it does to the file is stated in terms of
  a reader of INI files: the settings it owns get their values, new ones land in
  `[Preferences]`, and every other setting reads as before.
 */
module Ini {
  import opened Text

  // --- a reader of INI files ---

  /** A setting, with the header of the section it stands in. */
  datatype Entry = Entry(section: string, key: string, value: string)

  predicate Heads(line: string) {
    var t := TrimSpace(line);
    HasPrefix(t, "[") && HasSuffix(t, "]")
  }

  predicate HasKey(line: string) { '=' in line }

  function KeyOf(line: string): string { Before(line, '=') }

  function ValueOf(line: string): string
    requires HasKey(line)
  {
    KeyEnds(line);
    line[|KeyOf(line)| + 1..]
  }

  lemma {:induction false} KeyEnds(line: string)
    requires HasKey(line)
    ensures |KeyOf(line)| < |line| && line == KeyOf(line) + "=" + line[|KeyOf(line)| + 1..]
    ensures '=' !in KeyOf(line)
  {
    if line[0] != '=' { KeyEnds(line[1..]); }
  }

  function SectionAfter(section: string, line: string): string {
    if Heads(line) then TrimSpace(line) else section
  }

  function EndSection(section: string, lines: seq<string>): string
    decreases |lines|
  {
    if lines == [] then section else EndSection(SectionAfter(section, lines[0]), lines[1..])
  }

  /** The settings on the lines, in order, when the first line stands in `section`. */
  function Read(section: string, lines: seq<string>): seq<Entry>
    decreases |lines|
  {
    if lines == [] then [] else EntryOn(section, lines[0]) + Read(SectionAfter(section, lines[0]), lines[1..])
  }

  function EntryOn(section: string, line: string): seq<Entry> {
    if HasKey(line) && !Heads(line) then [Entry(section, KeyOf(line), ValueOf(line))] else []
  }

  lemma {:induction false} EndAppends(section: string, a: seq<string>, b: seq<string>)
    ensures EndSection(section, a + b) == EndSection(EndSection(section, a), b)
    decreases |a|
  {
    if a == [] {
      assert a + b == b;
    } else {
      hide SectionAfter;
      EndAppends(SectionAfter(section, a[0]), a[1..], b);
      assert (a + b)[1..] == a[1..] + b;
    }
  }

  lemma ReadFirst(section: string, line: string, rest: seq<string>)
    ensures Read(section, [line] + rest) == EntryOn(section, line) + Read(SectionAfter(section, line), rest)
  {
    assert ([line] + rest)[1..] == rest;
  }

  lemma {:induction false} ReadAppends(section: string, a: seq<string>, b: seq<string>)
    ensures Read(section, a + b) == Read(section, a) + Read(EndSection(section, a), b)
    decreases |a|
  {
    if a == [] {
      assert a + b == b;
    } else {
      var first, rest, next := a[0], a[1..], SectionAfter(section, a[0]);
      assert a == [first] + rest;
      assert EndSection(section, a) == EndSection(next, rest);
      hide *;
      ReadAppends(next, rest, b);
      ReadFirst(section, first, rest);
      ReadFirst(section, first, rest + b);
      Regroup([first], rest, b);
      Regroup(EntryOn(section, first), Read(next, rest), Read(EndSection(next, rest), b));
    }
  }

  // --- the settings that are patched in ---

  const PREFERENCES := "[Preferences]"

  function Line(key: string, value: string): string { key + "=" + value }

  /** No key contains an equals sign; otherwise two keys could claim the same line. */
  predicate PlainKeys(kv: map<string, string>) {
    forall k | k in kv :: '=' !in k
  }

  /** No line that sets a key can be taken for a header. */
  predicate NoBrackets(kv: map<string, string>) {
    forall k | k in kv :: !HasPrefix(TrimSpace(k), "[")
  }

  /** Each setting is one line. */
  predicate OneLiners(kv: map<string, string>) {
    forall k | k in kv :: '\n' !in Line(k, kv[k])
  }

  lemma LineReads(key: string, value: string)
    requires '=' !in key
    ensures HasKey(Line(key, value)) && KeyOf(Line(key, value)) == key && ValueOf(Line(key, value)) == value
  {
    BeforeCuts(key, value, '=');
    assert Line(key, value)[|key|] == '=';
    assert Line(key, value)[|key| + 1..] == value;
  }

  lemma {:induction false} TrimRightKeepsFirst(s: string)
    requires s != "" && !IsSpace(s[0])
    ensures TrimRight(s) != "" && TrimRight(s)[0] == s[0]
  {
    if IsSpace(s[|s| - 1]) { TrimRightKeepsFirst(s[..|s| - 1]); }
  }

  /** A line whose key does not begin with a bracket is no header. */
  lemma KeyedIsNoHeader(key: string, value: string)
    requires !HasPrefix(TrimSpace(key), "[")
    ensures !Heads(Line(key, value))
  {
    TrimLeftStops(key, "=" + value);
    assert key + ("=" + value) == Line(key, value);
    TrimLeftCuts(key);
    TrimRightKeepsFirst(TrimLeft(Line(key, value)));
    if TrimLeft(key) != "" { TrimRightKeepsFirst(TrimLeft(key)); }
  }

  lemma OwnedLine(line: string, kv: map<string, string>)
    requires NoBrackets(kv) && HasKey(line) && KeyOf(line) in kv
    ensures !Heads(line) && !Heads(Line(KeyOf(line), kv[KeyOf(line)]))
  {
    KeyEnds(line);
    KeyedIsNoHeader(KeyOf(line), line[|KeyOf(line)| + 1..]);
    KeyedIsNoHeader(KeyOf(line), kv[KeyOf(line)]);
  }

  // --- specification of the patch ---

  function Edit(line: string, kv: map<string, string>): string {
    if HasKey(line) && KeyOf(line) in kv then Line(KeyOf(line), kv[KeyOf(line)]) else line
  }

  function Edited(lines: seq<string>, kv: map<string, string>): (r: seq<string>)
    ensures |r| == |lines| && forall i | 0 <= i < |lines| :: r[i] == Edit(lines[i], kv)
  {
    if lines == [] then [] else [Edit(lines[0], kv)] + Edited(lines[1..], kv)
  }

  predicate Mentions(lines: seq<string>, key: string) {
    exists i | 0 <= i < |lines| :: HasKey(lines[i]) && KeyOf(lines[i]) == key
  }

  /** The lines to insert. */
  function Missing(lines: seq<string>, kv: map<string, string>): set<string> {
    set k | k in kv && !Mentions(lines, k) :: Line(k, kv[k])
  }

  lemma {:induction false} OrderExists(s: set<string>) returns (sorted: seq<string>)
    ensures Ascending(sorted) && forall x :: x in sorted <==> x in s
  {
    if s == {} {
      sorted := [];
    } else {
      var least := LeastText(s);
      var rest := OrderExists(s - {least});
      sorted := [least] + rest;
    }
  }

  lemma {:induction false} LeastText(s: set<string>) returns (least: string)
    requires s != {}
    ensures least in s && forall x | x in s :: AtMost(least, x)
  {
    var y :| y in s;
    AtMostTotal(y, y);
    var others := s - {y};
    if others == {} {
      assert s == {y};
      least := y;
    } else {
      var m := LeastText(others);
      AtMostTotal(y, m);
      least := if AtMost(y, m) then y else m;
      forall x | x in s
        ensures AtMost(least, x)
      {
        assert x == y || x in others;
        if x != y && AtMost(y, m) { AtMostTransitive(y, m, x); }
      }
    }
  }

  ghost predicate InOrder(sorted: seq<string>, s: set<string>) {
    Ascending(sorted) && forall x :: x in sorted <==> x in s
  }

  ghost function Ordered(s: set<string>): (sorted: seq<string>)
    ensures InOrder(sorted, s)
  {
    assert exists r :: InOrder(r, s) by {
      var r := OrderExists(s);
      assert InOrder(r, s);
    }
    var sorted :| InOrder(sorted, s);
    sorted
  }

  lemma OrderedOnce(sorted: seq<string>, s: set<string>)
    requires InOrder(sorted, s)
    ensures sorted == Ordered(s) && (sorted == [] <==> s == {})
  {
    AscendingUnique(sorted, Ordered(s));
    assert sorted != [] ==> sorted[0] in s;
    assert forall x | x in s :: x in sorted;
  }

  /** After the last line of the first `[Preferences]` section that is not blank; -1 if there is no such section. */
  function Scan(lines: seq<string>, i: nat, inPrefs: bool, insertAt: int): int
    requires i <= |lines|
    decreases |lines| - i
  {
    if i == |lines| then insertAt
    else
      var t := TrimSpace(lines[i]);
      if t == PREFERENCES then Scan(lines, i + 1, true, i + 1)
      else if inPrefs && HasPrefix(t, "[") && HasSuffix(t, "]") then insertAt
      else Scan(lines, i + 1, inPrefs, if inPrefs && t != "" then i + 1 else insertAt)
  }

  function InsertAt(lines: seq<string>): int { Scan(lines, 0, false, -1) }

  /** What goes before the new lines when the section does not exist yet. */
  function Created(lines: seq<string>): seq<string>
    requires lines != []
  {
    (if lines[|lines| - 1] != "" then [""] else []) + [PREFERENCES]
  }

  /** The lines before and after the ones that are inserted. */
  function Above(lines: seq<string>): seq<string>
    requires lines != []
  {
    var at := InsertAt(lines);
    if 0 <= at <= |lines| then lines[..at] else lines + Created(lines)
  }

  function Below(lines: seq<string>): seq<string> {
    var at := InsertAt(lines);
    if 0 <= at <= |lines| then lines[at..] else []
  }

  ghost function PatchedLines(lines: seq<string>, kv: map<string, string>): seq<string>
    requires lines != []
  {
    var edited := Edited(lines, kv);
    if Missing(lines, kv) == {} then edited
    else Above(edited) + Ordered(Missing(lines, kv)) + Below(edited)
  }

  ghost function Patched(body: string, kv: map<string, string>): string {
    Join(PatchedLines(Split(body, '\n'), kv), '\n')
  }

  // --- when there is nothing to do ---

  /** Every setting has a line, and every line of a setting has its value. */
  predicate Settled(lines: seq<string>, kv: map<string, string>) {
    && (forall k | k in kv :: Mentions(lines, k))
    && (forall i | 0 <= i < |lines| && HasKey(lines[i]) && KeyOf(lines[i]) in kv ::
          lines[i] == Line(KeyOf(lines[i]), kv[KeyOf(lines[i])]))
  }

  lemma SettledExactly(lines: seq<string>, kv: map<string, string>)
    ensures Settled(lines, kv) <==> Missing(lines, kv) == {} && Edited(lines, kv) == lines
  {
    forall k | k in kv && !Mentions(lines, k)
      ensures Line(k, kv[k]) in Missing(lines, kv)
    {}
    if Missing(lines, kv) == {} && Edited(lines, kv) == lines {
      forall i | 0 <= i < |lines| && HasKey(lines[i]) && KeyOf(lines[i]) in kv
        ensures lines[i] == Line(KeyOf(lines[i]), kv[KeyOf(lines[i])])
      {
        assert Edited(lines, kv)[i] == Edit(lines[i], kv);
      }
    }
  }

  // --- where new lines go ---

  lemma {:induction false} ScanInRange(lines: seq<string>, i: nat, inPrefs: bool, insertAt: int)
    requires i <= |lines| && -1 <= insertAt <= i
    ensures -1 <= Scan(lines, i, inPrefs, insertAt) <= |lines|
    decreases |lines| - i
  {
    if i < |lines| {
      var t := TrimSpace(lines[i]);
      hide TrimSpace;
      if t == PREFERENCES { ScanInRange(lines, i + 1, true, i + 1); }
      else { ScanInRange(lines, i + 1, inPrefs, if inPrefs && t != "" then i + 1 else insertAt); }
    }
  }

  lemma InsertAtInRange(lines: seq<string>)
    ensures -1 <= InsertAt(lines) <= |lines|
  {
    ScanInRange(lines, 0, false, -1);
  }

  // --- the code ---

  predicate Claims(line: string, key: string) { HasPrefix(line, key + "=") }

  /** The keys in some order, each once. */
  ghost predicate InSomeOrder(keys: seq<string>, set_: set<string>) {
    Distinct(keys) && forall k :: k in keys <==> k in set_
  }

  /** The inner loop over the settings in the order of `keys`: the last change to the line stays. */
  function EditInOrder(line: string, keys: seq<string>, kv: map<string, string>): string
    requires forall k | k in keys :: k in kv
  {
    if keys == [] then line
    else
      var k := keys[|keys| - 1];
      if Claims(line, k) && Line(k, kv[k]) != line then Line(k, kv[k]) else EditInOrder(line, keys[..|keys| - 1], kv)
  }

  /** The settings that have a line. */
  function Seen(lines: seq<string>, kv: map<string, string>): set<string> {
    set k | k in kv && exists i | 0 <= i < |lines| :: Claims(lines[i], k)
  }

  /** The inner loop, in whatever order the settings come. */
  method EditLine(line: string, kv: map<string, string>) returns (edited: string, matched: set<string>, ghost order: seq<string>)
    ensures InSomeOrder(order, kv.Keys) && edited == EditInOrder(line, order, kv)
    ensures matched == set k | k in kv && Claims(line, k)
  {
    edited, matched, order := line, {}, [];
    var rest := kv.Keys;
    while rest != {}
      invariant rest <= kv.Keys && InSomeOrder(order, kv.Keys - rest)
      invariant edited == EditInOrder(line, order, kv)
      invariant matched == set k | k in kv && k !in rest && Claims(line, k)
      decreases |rest|
    {
      var k :| k in rest;
      rest := rest - {k};
      assert (order + [k])[..|order|] == order;
      order := order + [k];
      if HasPrefix(line, k + "=") {
        var want := k + "=" + kv[k];
        if line != want { edited := want; }
        matched := matched + {k};
      }
    }
  }

  /** One order of the settings for each line. */
  ghost predicate EditedInOrders(before: seq<string>, after: seq<string>, orders: seq<seq<string>>, kv: map<string, string>) {
    && |before| == |after| == |orders|
    && (forall i | 0 <= i < |orders| :: InSomeOrder(orders[i], kv.Keys))
    && (forall i | 0 <= i < |orders| :: after[i] == EditInOrder(before[i], orders[i], kv))
  }

  method EditLines(lines: array<string>, kv: map<string, string>)
    returns (seen: set<string>, changed: bool, ghost orders: seq<seq<string>>)
    modifies lines
    ensures EditedInOrders(old(lines[..]), lines[..], orders, kv)
    ensures seen == Seen(old(lines[..]), kv)
    ensures changed <==> lines[..] != old(lines[..])
  {
    seen, changed, orders := {}, false, [];
    ghost var original := lines[..];
    for i := 0 to lines.Length
      invariant EditedInOrders(original[..i], lines[..i], orders, kv)
      invariant forall j | i <= j < lines.Length :: lines[j] == original[j]
      invariant seen == Seen(original[..i], kv)
      invariant changed <==> lines[..i] != original[..i]
    {
      hide Claims, InSomeOrder, Seen, EditInOrder;
      var edited, matched, order := EditLine(lines[i], kv);
      ghost var before := lines[..i];
      if edited != lines[i] {
        lines[i] := edited;
        changed := true;
      }
      seen := seen + matched;
      orders := orders + [order];
      assert original[..i + 1] == original[..i] + [original[i]] && lines[..i + 1] == before + [edited];
      SeenMore(original[..i], original[i], kv);
      OrdersMore(original[..i], before, orders[..|orders| - 1], kv, original[i], edited, order);
    }
    assert original[..|original|] == original && lines[..lines.Length] == lines[..];
  }

  lemma SeenMore(lines: seq<string>, line: string, kv: map<string, string>)
    ensures Seen(lines + [line], kv) == Seen(lines, kv) + set k | k in kv && Claims(line, k)
  {
    hide Claims;
    forall k
      ensures k in Seen(lines + [line], kv) <==> k in Seen(lines, kv) || (k in kv && Claims(line, k))
    {
      assert (lines + [line])[|lines|] == line;
      assert forall i | 0 <= i < |lines| :: (lines + [line])[i] == lines[i];
    }
  }

  lemma OrdersMore(
      before: seq<string>, after: seq<string>, orders: seq<seq<string>>, kv: map<string, string>,
      line: string, edited: string, order: seq<string>)
    requires EditedInOrders(before, after, orders, kv)
    requires InSomeOrder(order, kv.Keys) && edited == EditInOrder(line, order, kv)
    ensures EditedInOrders(before + [line], after + [edited], orders + [order], kv)
  {
    hide InSomeOrder, EditInOrder;
  }

  function LinesOf(keys: seq<string>, kv: map<string, string>): (r: seq<string>)
    requires forall k | k in keys :: k in kv
    ensures |r| == |keys| && forall i | 0 <= i < |keys| :: r[i] == Line(keys[i], kv[keys[i]])
  {
    if keys == [] then [] else LinesOf(keys[..|keys| - 1], kv) + [Line(keys[|keys| - 1], kv[keys[|keys| - 1]])]
  }

  /** A line for each setting that has none, sorted. */
  ghost predicate SortedMissing(missing: seq<string>, keys: seq<string>, kv: map<string, string>, seen: set<string>) {
    && InSomeOrder(keys, kv.Keys - seen)
    && Text.Sorted(missing) && multiset(missing) == multiset(LinesOf(keys, kv))
    && (forall x :: x in missing <==> x in LinesOf(keys, kv))
    && (Distinct(LinesOf(keys, kv)) ==> Ascending(missing))
  }

  lemma OneMoreKey(keys: seq<string>, set_: set<string>, k: string)
    requires InSomeOrder(keys, set_) && k !in set_
    ensures InSomeOrder(keys + [k], set_ + {k})
  {
    assert forall i | 0 <= i < |keys| :: keys[i] in keys;
    assert forall x :: x in keys + [k] <==> x in keys || x == k;
  }

  /** One turn of the loop that collects. */
  lemma CollectedMore(keys: seq<string>, kv: map<string, string>, rest: set<string>, seen: set<string>, k: string)
    requires rest <= kv.Keys && InSomeOrder(keys, kv.Keys - rest - seen) && k in rest
    ensures k in seen ==> InSomeOrder(keys, kv.Keys - (rest - {k}) - seen)
    ensures k !in seen ==>
      InSomeOrder(keys + [k], kv.Keys - (rest - {k}) - seen) && LinesOf(keys + [k], kv) == LinesOf(keys, kv) + [Line(k, kv[k])]
  {
    var done := kv.Keys - rest - seen;
    if k in seen {
      assert kv.Keys - (rest - {k}) - seen == done;
    } else {
      assert kv.Keys - (rest - {k}) - seen == done + {k};
      OneMoreKey(keys, done, k);
      assert (keys + [k])[..|keys|] == keys;
    }
  }

  function Unseen(kv: map<string, string>, seen: set<string>): set<string> {
    set k | k in kv && k !in seen :: Line(k, kv[k])
  }

  lemma UnseenLines(keys: seq<string>, kv: map<string, string>, seen: set<string>)
    requires InSomeOrder(keys, kv.Keys - seen)
    ensures forall x :: x in LinesOf(keys, kv) <==> x in Unseen(kv, seen)
  {
    forall x | x in Unseen(kv, seen)
      ensures x in LinesOf(keys, kv)
    {
      var k :| k in kv && k !in seen && x == Line(k, kv[k]);
      assert k in keys;
      var i :| 0 <= i < |keys| && keys[i] == k;
      assert LinesOf(keys, kv)[i] == x;
    }
    forall x | x in LinesOf(keys, kv)
      ensures x in Unseen(kv, seen)
    {
      var i :| 0 <= i < |keys| && LinesOf(keys, kv)[i] == x;
      assert keys[i] in keys;
    }
  }

  method CollectMissing(kv: map<string, string>, seen: set<string>) returns (missing: seq<string>, ghost keys: seq<string>)
    ensures SortedMissing(missing, keys, kv, seen)
    ensures Text.Sorted(missing)
    ensures forall x :: x in missing <==> x in Unseen(kv, seen)
  {
    missing, keys := [], [];
    var rest := kv.Keys;
    while rest != {}
      invariant rest <= kv.Keys && InSomeOrder(keys, kv.Keys - rest - seen)
      invariant missing == LinesOf(keys, kv)
      decreases |rest|
    {
      var k :| k in rest;
      CollectedMore(keys, kv, rest, seen, k);
      hide InSomeOrder, LinesOf;
      rest := rest - {k};
      if k !in seen {
        keys := keys + [k];
        missing := missing + [k + "=" + kv[k]];
      }
    }
    assert kv.Keys - {} - seen == kv.Keys - seen;
    UnseenLines(keys, kv, seen);
    missing := SortStrings(missing);
  }

  // --- when the order does not matter ---

  /** Without equals signs in keys, a key claims the lines that it is the key of. */
  lemma PlainClaims(line: string, kv: map<string, string>, k: string)
    requires PlainKeys(kv) && k in kv
    ensures Claims(line, k) <==> HasKey(line) && KeyOf(line) == k
  {
    PrefixIsKey(line, k);
  }

  lemma {:induction false} PlainOrder(line: string, keys: seq<string>, kv: map<string, string>)
    requires PlainKeys(kv) && forall k | k in keys :: k in kv
    ensures EditInOrder(line, keys, kv) == if HasKey(line) && KeyOf(line) in keys then Edit(line, kv) else line
  {
    if keys != [] {
      var front, k := keys[..|keys| - 1], keys[|keys| - 1];
      assert keys == front + [k];
      PlainOrder(line, front, kv);
      PlainClaims(line, kv, k);
      hide Claims, HasKey, KeyOf;
    }
  }

  /** With plain keys every order edits a line in the same way. */
  lemma PlainEdits(before: seq<string>, after: seq<string>, orders: seq<seq<string>>, kv: map<string, string>)
    requires PlainKeys(kv) && EditedInOrders(before, after, orders, kv)
    ensures after == Edited(before, kv)
  {
    forall i | 0 <= i < |after|
      ensures after[i] == Edit(before[i], kv)
    {
      assert InSomeOrder(orders[i], kv.Keys);
      PlainOrder(before[i], orders[i], kv);
    }
    hide EditInOrder;
  }

  lemma PlainMissing(lines: seq<string>, missing: seq<string>, keys: seq<string>, kv: map<string, string>)
    requires PlainKeys(kv) && SortedMissing(missing, keys, kv, Seen(lines, kv))
    ensures missing == Ordered(Missing(lines, kv))
  {
    forall k | k in kv
      ensures k in Seen(lines, kv) <==> Mentions(lines, k)
    {
      forall i | 0 <= i < |lines|
        ensures Claims(lines[i], k) <==> HasKey(lines[i]) && KeyOf(lines[i]) == k
      {
        PlainClaims(lines[i], kv, k);
      }
    }
    hide Claims, Mentions, Seen, HasKey, KeyOf, Ascending;
    DistinctLines(keys, kv);
    forall x
      ensures x in LinesOf(keys, kv) <==> x in Missing(lines, kv)
    {
      if x in LinesOf(keys, kv) {
        var i :| 0 <= i < |keys| && x == LinesOf(keys, kv)[i];
        assert keys[i] in keys;
      }
      if x in Missing(lines, kv) {
        var k :| k in kv && !Mentions(lines, k) && x == Line(k, kv[k]);
        assert k in keys;
        var i :| 0 <= i < |keys| && keys[i] == k;
        assert LinesOf(keys, kv)[i] == x;
      }
    }
    OrderedOnce(missing, Missing(lines, kv));
  }

  lemma DistinctLines(keys: seq<string>, kv: map<string, string>)
    requires PlainKeys(kv) && Distinct(keys) && forall k | k in keys :: k in kv
    ensures Distinct(LinesOf(keys, kv))
  {
    forall i, j | 0 <= i < j < |keys|
      ensures LinesOf(keys, kv)[i] != LinesOf(keys, kv)[j]
    {
      assert keys[i] in keys && keys[j] in keys;
      LineReads(keys[i], kv[keys[i]]);
      LineReads(keys[j], kv[keys[j]]);
    }
  }

  /** No key followed by an equals sign begins another one, unless both stand for the same line. */
  predicate Unambiguous(kv: map<string, string>) {
    forall j, k | j in kv && k in kv && Claims(k + "=", j) :: Line(j, kv[j]) == Line(k, kv[k])
  }

  /** Whatever the line, two runs of the inner loop leave the same. */
  ghost predicate OrderIsIrrelevant(kv: map<string, string>) {
    forall line, a, b | InSomeOrder(a, kv.Keys) && InSomeOrder(b, kv.Keys) :: EditInOrder(line, a, kv) == EditInOrder(line, b, kv)
  }

  lemma {:induction false} Unclaimed(line: string, keys: seq<string>, kv: map<string, string>)
    requires forall k | k in keys :: k in kv && !Claims(line, k)
    ensures EditInOrder(line, keys, kv) == line
  {
    if keys != [] { Unclaimed(line, keys[..|keys| - 1], kv); }
  }

  /** When all the settings that claim a line want the same, they get it. */
  lemma {:induction false} SameClaim(line: string, keys: seq<string>, kv: map<string, string>, want: string)
    requires forall k | k in keys :: k in kv && (Claims(line, k) ==> Line(k, kv[k]) == want)
    requires exists k :: k in keys && Claims(line, k)
    ensures EditInOrder(line, keys, kv) == want
  {
    hide Claims, Line;
    var front, last := keys[..|keys| - 1], keys[|keys| - 1];
    assert keys == front + [last];
    if exists k :: k in front && Claims(line, k) {
      SameClaim(line, front, kv, want);
    } else {
      Unclaimed(line, front, kv);
    }
  }

  /** Of two keys that claim a line the shorter one begins the other. */
  lemma ClaimsNest(line: string, j: string, k: string)
    requires Claims(line, j) && Claims(line, k) && |j| <= |k|
    ensures Claims(k + "=", j)
  {
    assert (k + "=")[..|j + "="|] == line[..|k + "="|][..|j + "="|] == line[..|j + "="|];
  }

  lemma ClaimsAgree(line: string, kv: map<string, string>, j: string, k: string)
    requires Unambiguous(kv) && j in kv && k in kv && Claims(line, j) && Claims(line, k)
    ensures Line(j, kv[j]) == Line(k, kv[k])
  {
    if |j| <= |k| { ClaimsNest(line, j, k); } else { ClaimsNest(line, k, j); }
    hide Claims, Line;
  }

  lemma OrderIrrelevantOn(line: string, a: seq<string>, b: seq<string>, kv: map<string, string>)
    requires Unambiguous(kv) && InSomeOrder(a, kv.Keys) && InSomeOrder(b, kv.Keys)
    ensures EditInOrder(line, a, kv) == EditInOrder(line, b, kv)
  {
    if k :| k in kv && Claims(line, k) {
      forall j | j in kv && Claims(line, j)
        ensures Line(j, kv[j]) == Line(k, kv[k])
      {
        ClaimsAgree(line, kv, j, k);
      }
      hide Claims, Line, Unambiguous;
      SameClaim(line, a, kv, Line(k, kv[k]));
      SameClaim(line, b, kv, Line(k, kv[k]));
    } else {
      hide Claims;
      Unclaimed(line, a, kv);
      Unclaimed(line, b, kv);
    }
  }

  /** An order that visits `k` last. */
  ghost function LastIs(k: string, set_: set<string>): (r: seq<string>)
    requires k in set_
    ensures InSomeOrder(r, set_)
  {
    var others := Ordered(set_ - {k});
    assert Distinct(others);
    OneMoreKey(others, set_ - {k}, k);
    assert set_ - {k} + {k} == set_;
    others + [k]
  }

  lemma LastWins(line: string, k: string, kv: map<string, string>)
    requires k in kv && Claims(line, k) && line != Line(k, kv[k])
    ensures EditInOrder(line, LastIs(k, kv.Keys), kv) == Line(k, kv[k])
  {
    var order := LastIs(k, kv.Keys);
    assert order[|order| - 1] == k;
  }

  lemma ClaimsOn(front: string, rest: string, k: string)
    requires Claims(front, k)
    ensures Claims(front + rest, k)
  {
    assert (front + rest)[..|k + "="|] == front[..|k + "="|];
  }

  lemma PlainIsUnambiguous(kv: map<string, string>)
    requires PlainKeys(kv)
    ensures Unambiguous(kv)
  {
    forall j, k | j in kv && k in kv && Claims(k + "=", j)
      ensures j == k
    {
      PrefixIsKey(k + "=", j);
      LineReads(k, "");
      assert Line(k, "") == k + "=";
    }
  }

  /** Go visits a map in no fixed order; that shows exactly if two keys can claim one line and disagree. */
  lemma OrderIrrelevantExactly(kv: map<string, string>)
    ensures OrderIsIrrelevant(kv) <==> Unambiguous(kv)
    ensures PlainKeys(kv) ==> OrderIsIrrelevant(kv)
  {
    if PlainKeys(kv) { PlainIsUnambiguous(kv); }
    hide PlainKeys;
    if Unambiguous(kv) {
      forall line, a, b | InSomeOrder(a, kv.Keys) && InSomeOrder(b, kv.Keys)
        ensures EditInOrder(line, a, kv) == EditInOrder(line, b, kv)
      {
        OrderIrrelevantOn(line, a, b, kv);
      }
    }
    forall j, k | OrderIsIrrelevant(kv) && j in kv && k in kv && Claims(k + "=", j)
      ensures Line(j, kv[j]) == Line(k, kv[k])
    {
      var line := k + "=" + (Line(j, kv[j]) + Line(k, kv[k]));
      ClaimsOn(k + "=", Line(j, kv[j]) + Line(k, kv[k]), j);
      ClaimsOn(k + "=", Line(j, kv[j]) + Line(k, kv[k]), k);
      LastWins(line, j, kv);
      LastWins(line, k, kv);
      hide EditInOrder, LastIs, Claims, Line, InSomeOrder;
      assert EditInOrder(line, LastIs(j, kv.Keys), kv) == EditInOrder(line, LastIs(k, kv.Keys), kv);
    }
  }

  method FindInsertAt(lines: seq<string>) returns (insertAt: int)
    ensures insertAt == InsertAt(lines)
  {
    insertAt := -1;
    var inPrefs := false;
    for i := 0 to |lines|
      invariant Scan(lines, 0, false, -1) == Scan(lines, i, inPrefs, insertAt)
    {
      var t := TrimSpace(lines[i]);
      if t == "[Preferences]" {
        inPrefs := true;
        insertAt := i + 1;
        continue;
      }
      if inPrefs {
        if HasPrefix(t, "[") && HasSuffix(t, "]") {
          break;
        }
        if t != "" {
          insertAt := i + 1;
        }
      }
    }
  }

  method InsertLines(lines: seq<string>, missing: seq<string>) returns (out: seq<string>)
    requires lines != []
    ensures out == Above(lines) + missing + Below(lines)
  {
    var insertAt := FindInsertAt(lines);
    InsertAtInRange(lines);
    if insertAt < 0 {
      out := lines;
      if |lines| > 0 && lines[|lines| - 1] != "" {
        out := out + [""];
      }
      out := out + ["[Preferences]"];
      out := out + missing;
    } else {
      out := lines[..insertAt] + missing + lines[insertAt..];
    }
  }

  /** The lines that a run of the loops leaves, whatever orders it visited the settings in. */
  ghost predicate MayPatch(
      lines: seq<string>, kv: map<string, string>, edited: seq<string>, orders: seq<seq<string>>,
      missing: seq<string>, keys: seq<string>)
  {
    EditedInOrders(lines, edited, orders, kv) && SortedMissing(missing, keys, kv, Seen(lines, kv))
  }

  /**
    With plain keys the result does not depend on the order in which the settings are
    visited: it is always the same text, and changed exactly if the text was not settled.
   */
  method PatchConf(body: string, kv: map<string, string>)
    returns (result: string, changed: bool, ghost edited: seq<string>, ghost orders: seq<seq<string>>,
             ghost missing: seq<string>, ghost keys: seq<string>)
    ensures MayPatch(Split(body, '\n'), kv, edited, orders, missing, keys) && edited != []
    ensures result == Join(if missing == [] then edited else Above(edited) + missing + Below(edited), '\n')
    ensures changed <==> edited != Split(body, '\n') || missing != []
    ensures !changed ==> result == body
    ensures PlainKeys(kv) ==> result == Patched(body, kv) && (changed <==> !Settled(Split(body, '\n'), kv))
  {
    hide Missing, Settled, Edited, Above, Below, EditedInOrders, SortedMissing, PlainKeys, Seen;
    var split := Split(body, '\n');
    var buffer := new string[|split|](i requires 0 <= i < |split| => split[i]);
    assert buffer[..] == split;
    var seen: set<string>;
    seen, changed, orders := EditLines(buffer, kv);
    var lines := buffer[..];
    edited := lines;
    var missingLines: seq<string>;
    missingLines, keys := CollectMissing(kv, seen);
    missing := missingLines;
    if PlainKeys(kv) {
      PlainEdits(split, lines, orders, kv);
      PlainMissing(split, missing, keys, kv);
      OrderedOnce(missing, Missing(split, kv));
      SettledExactly(split, kv);
    }
    JoinSplit(body, '\n');
    if |missingLines| == 0 {
      if !changed {
        result := body;
      } else {
        result := Join(lines, '\n');
      }
    } else {
      changed := true;
      lines := InsertLines(lines, missingLines);
      result := Join(lines, '\n');
    }
  }
}
