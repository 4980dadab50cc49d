/**
  What patching an INI file means to whoever reads it afterwards.
 */
module IniMeaning {
  import opened Text
  import opened Ini

  // --- lines edited in place ---

  function EditEntry(e: Entry, kv: map<string, string>): Entry {
    if e.key in kv then e.(value := kv[e.key]) else e
  }

  function EditEntries(es: seq<Entry>, kv: map<string, string>): (r: seq<Entry>)
    ensures |r| == |es| && forall i | 0 <= i < |es| :: r[i] == EditEntry(es[i], kv)
  {
    if es == [] then [] else [EditEntry(es[0], kv)] + EditEntries(es[1..], kv)
  }

  lemma EditedLineReads(section: string, line: string, kv: map<string, string>)
    requires PlainKeys(kv) && NoBrackets(kv)
    ensures SectionAfter(section, Edit(line, kv)) == SectionAfter(section, line)
    ensures EntryOn(section, Edit(line, kv)) == EditEntries(EntryOn(section, line), kv)
  {
    if HasKey(line) && KeyOf(line) in kv {
      OwnedLine(line, kv);
      KeyEnds(line);
      LineReads(KeyOf(line), kv[KeyOf(line)]);
    }
  }

  lemma EditEntriesAppends(a: seq<Entry>, b: seq<Entry>, kv: map<string, string>)
    ensures EditEntries(a + b, kv) == EditEntries(a, kv) + EditEntries(b, kv)
  {}

  lemma {:induction false} ReadEdited(section: string, lines: seq<string>, kv: map<string, string>)
    requires PlainKeys(kv) && NoBrackets(kv)
    ensures Read(section, Edited(lines, kv)) == EditEntries(Read(section, lines), kv)
    decreases |lines|
  {
    if lines == [] {
    } else {
      EditedLineReads(section, lines[0], kv);
      ReadEdited(SectionAfter(section, lines[0]), lines[1..], kv);
      EditEntriesAppends(EntryOn(section, lines[0]), Read(SectionAfter(section, lines[0]), lines[1..]), kv);
      ReadFirst(section, lines[0], lines[1..]);
      ReadFirst(section, Edit(lines[0], kv), Edited(lines[1..], kv));
      assert [lines[0]] + lines[1..] == lines;
      assert Edited(lines, kv) == [Edit(lines[0], kv)] + Edited(lines[1..], kv);
      hide *;
    }
  }

  // --- the place of the new lines ---

  lemma PreferencesHeads(section: string, line: string)
    requires TrimSpace(line) == PREFERENCES
    ensures SectionAfter(section, line) == PREFERENCES
  {}

  lemma SectionAt(lines: seq<string>, i: nat)
    requires i < |lines|
    ensures EndSection("", lines[..i + 1]) == SectionAfter(EndSection("", lines[..i]), lines[i])
  {
    assert lines[..i + 1] == lines[..i] + [lines[i]];
    EndAppends("", lines[..i], [lines[i]]);
  }

  lemma {:induction false} ScanStaysInSection(lines: seq<string>, i: nat, inPrefs: bool, at: int)
    requires i <= |lines| && -1 <= at <= i
    requires inPrefs <==> at >= 0
    requires inPrefs ==> EndSection("", lines[..i]) == PREFERENCES && EndSection("", lines[..at]) == PREFERENCES
    ensures -1 <= Scan(lines, i, inPrefs, at) <= |lines|
    ensures var r := Scan(lines, i, inPrefs, at); r >= 0 ==> EndSection("", lines[..r]) == PREFERENCES
    decreases |lines| - i
  {
    if i < |lines| {
      SectionAt(lines, i);
      var t := TrimSpace(lines[i]);
      if t == PREFERENCES {
        PreferencesHeads(EndSection("", lines[..i]), lines[i]);
        ScanStaysInSection(lines, i + 1, true, i + 1);
      } else if inPrefs && HasPrefix(t, "[") && HasSuffix(t, "]") {
      } else {
        ScanStaysInSection(lines, i + 1, inPrefs, if inPrefs && t != "" then i + 1 else at);
      }
    }
  }

  lemma HeaderReads(section: string)
    ensures Read(section, [PREFERENCES]) == [] && EndSection(section, [PREFERENCES]) == PREFERENCES
  {
    assert TrimSpace(PREFERENCES) == PREFERENCES by {
      TrimUnique("", PREFERENCES, "");
      assert "" + PREFERENCES + "" == PREFERENCES;
    }
    PreferencesHeads(section, PREFERENCES);
    assert EntryOn(section, PREFERENCES) == [];
    hide TrimSpace;
    ReadFirst(section, PREFERENCES, []);
    EndFirst(section, PREFERENCES, []);
  }

  lemma BlankReads(section: string, rest: seq<string>)
    ensures Read(section, [""] + rest) == Read(section, rest) && EndSection(section, [""] + rest) == EndSection(section, rest)
  {
    assert EntryOn(section, "") == [] && SectionAfter(section, "") == section;
    hide EntryOn, SectionAfter, Read, EndSection;
    ReadFirst(section, "", rest);
    EndFirst(section, "", rest);
  }

  lemma CreatedReads(section: string, lines: seq<string>)
    requires lines != []
    ensures Read(section, Created(lines)) == [] && EndSection(section, Created(lines)) == PREFERENCES
  {
    hide Read, EndSection;
    HeaderReads(section);
    BlankReads(section, [PREFERENCES]);
    assert [] + [PREFERENCES] == [PREFERENCES];
  }

  lemma EndFirst(section: string, line: string, rest: seq<string>)
    ensures EndSection(section, [line] + rest) == EndSection(SectionAfter(section, line), rest)
  {
    assert ([line] + rest)[1..] == rest;
  }

  /** The new lines stand in `[Preferences]`, and what surrounds them reads as if they were not there. */
  lemma ReadAround(lines: seq<string>)
    requires lines != []
    ensures EndSection("", Above(lines)) == PREFERENCES
    ensures Read("", lines) == Read("", Above(lines)) + Read(PREFERENCES, Below(lines))
  {
    ScanStaysInSection(lines, 0, false, -1);
    var at := InsertAt(lines);
    if at >= 0 {
      var above, below := lines[..at], lines[at..];
      assert Above(lines) == above && Below(lines) == below && above + below == lines;
      hide *;
      ReadAppends("", above, below);
    } else {
      assert Above(lines) == lines + Created(lines) && Below(lines) == [];
      hide *;
      ReadAroundCreated(lines);
      ReadNothing(PREFERENCES);
      assert Read("", lines) + [] == Read("", lines);
    }
  }

  lemma ReadAroundCreated(lines: seq<string>)
    requires lines != []
    ensures EndSection("", lines + Created(lines)) == PREFERENCES
    ensures Read("", lines + Created(lines)) == Read("", lines)
  {
    hide Read, EndSection, Created;
    ReadAppends("", lines, Created(lines));
    EndAppends("", lines, Created(lines));
    CreatedReads(EndSection("", lines), lines);
  }

  lemma ReadNothing(section: string)
    ensures Read(section, []) == [] && EndSection(section, []) == section
  {}

  // --- what the new lines say ---

  predicate AreSettings(lines: seq<string>, kv: map<string, string>) {
    forall i | 0 <= i < |lines| :: HasKey(lines[i]) && KeyOf(lines[i]) in kv && lines[i] == Line(KeyOf(lines[i]), kv[KeyOf(lines[i])])
  }

  function NewEntries(lines: seq<string>): (r: seq<Entry>)
    requires forall i | 0 <= i < |lines| :: HasKey(lines[i])
    ensures |r| == |lines|
    ensures forall i | 0 <= i < |lines| :: r[i] == Entry(PREFERENCES, KeyOf(lines[i]), ValueOf(lines[i]))
  {
    if lines == [] then [] else [Entry(PREFERENCES, KeyOf(lines[0]), ValueOf(lines[0]))] + NewEntries(lines[1..])
  }

  predicate NoHeads(lines: seq<string>) {
    forall i | 0 <= i < |lines| :: !Heads(lines[i])
  }

  lemma SettingsDoNotHead(lines: seq<string>, kv: map<string, string>)
    requires NoBrackets(kv) && AreSettings(lines, kv)
    ensures NoHeads(lines)
  {
    forall i | 0 <= i < |lines|
      ensures !Heads(lines[i])
    {
      OwnedLine(lines[i], kv);
    }
  }

  lemma {:induction false} ReadSettings(lines: seq<string>, kv: map<string, string>)
    requires AreSettings(lines, kv) && NoHeads(lines)
    ensures Read(PREFERENCES, lines) == NewEntries(lines) && EndSection(PREFERENCES, lines) == PREFERENCES
  {
    if lines != [] {
      ReadSettings(lines[1..], kv);
      hide Heads;
    }
  }

  lemma MissingAreSettings(lines: seq<string>, kv: map<string, string>)
    requires PlainKeys(kv)
    ensures AreSettings(Ordered(Missing(lines, kv)), kv)
    ensures forall i | 0 <= i < |Ordered(Missing(lines, kv))| :: !Mentions(lines, KeyOf(Ordered(Missing(lines, kv))[i]))
  {
    var missing := Ordered(Missing(lines, kv));
    forall i | 0 <= i < |missing|
      ensures HasKey(missing[i]) && KeyOf(missing[i]) in kv && !Mentions(lines, KeyOf(missing[i]))
      ensures missing[i] == Line(KeyOf(missing[i]), kv[KeyOf(missing[i])])
    {
      assert missing[i] in Missing(lines, kv);
      var k :| k in kv && !Mentions(lines, k) && missing[i] == Line(k, kv[k]);
      LineReads(k, kv[k]);
    }
  }

  /** The settings the patch adds to the file. */
  ghost function Added(lines: seq<string>, kv: map<string, string>): seq<Entry>
    requires PlainKeys(kv)
  {
    MissingAreSettings(lines, kv);
    NewEntries(Ordered(Missing(lines, kv)))
  }

  // --- main results ---

  ghost predicate Inserted(after: seq<Entry>, before: seq<Entry>, added: seq<Entry>) {
    exists n | 0 <= n <= |before| :: after == before[..n] + added + before[n..]
  }

  /** Every setting the file lacks is added once, to `[Preferences]`, with its value; nothing else is added. */
  lemma AddedExactly(lines: seq<string>, kv: map<string, string>)
    requires PlainKeys(kv)
    ensures var added := Added(lines, kv);
      && (forall k | k in kv && !Mentions(lines, k) :: Entry(PREFERENCES, k, kv[k]) in added)
      && (forall i | 0 <= i < |added| ::
            var e := added[i]; e.section == PREFERENCES && e.key in kv && e.value == kv[e.key] && !Mentions(lines, e.key))
      && (forall i, j | 0 <= i < j < |added| :: added[i].key != added[j].key)
  {
    MissingAreSettings(lines, kv);
    var missing := Ordered(Missing(lines, kv));
    forall i | 0 <= i < |missing|
      ensures ValueOf(missing[i]) == kv[KeyOf(missing[i])]
    {
      KeyEnds(missing[i]);
      LineReads(KeyOf(missing[i]), kv[KeyOf(missing[i])]);
    }
    forall k | k in kv && !Mentions(lines, k)
      ensures Entry(PREFERENCES, k, kv[k]) in Added(lines, kv)
    {
      assert Line(k, kv[k]) in Missing(lines, kv);
      var i :| 0 <= i < |missing| && missing[i] == Line(k, kv[k]);
      LineReads(k, kv[k]);
      assert Added(lines, kv)[i] == Entry(PREFERENCES, k, kv[k]);
    }
  }

  lemma ReadInserted(lines: seq<string>, missing: seq<string>, kv: map<string, string>)
    requires lines != [] && AreSettings(missing, kv) && NoHeads(missing)
    ensures Read("", Above(lines) + missing + Below(lines))
      == Read("", Above(lines)) + NewEntries(missing) + Read(PREFERENCES, Below(lines))
  {
    ReadAround(lines);
    hide Read, EndSection, Above, Below, NoHeads;
    ReadAppends("", Above(lines) + missing, Below(lines));
    ReadAppends("", Above(lines), missing);
    EndAppends("", Above(lines), missing);
    ReadSettings(missing, kv);
  }

  /** The patched file reads like the original with the values of `kv`, and the missing settings inserted. */
  lemma ReadPatched(lines: seq<string>, kv: map<string, string>)
    requires lines != [] && PlainKeys(kv) && NoBrackets(kv)
    ensures Inserted(Read("", PatchedLines(lines, kv)), EditEntries(Read("", lines), kv), Added(lines, kv))
  {
    var edited, missing := Edited(lines, kv), Ordered(Missing(lines, kv));
    hide Read, EndSection, Above, Below, Missing, PlainKeys, NoBrackets, NoHeads, AreSettings, Mentions, HasKey, KeyOf;
    MissingAreSettings(lines, kv);
    SettingsDoNotHead(missing, kv);
    ReadEdited("", lines, kv);
    ReadAround(edited);
    ReadInserted(edited, missing, kv);
    var before := EditEntries(Read("", lines), kv);
    var n := |Read("", Above(edited))|;
    assert before[..n] == Read("", Above(edited)) && before[n..] == Read(PREFERENCES, Below(edited));
    if Missing(lines, kv) == {} {
      assert missing == [] by { OrderedOnce(missing, {}); }
      assert Read("", PatchedLines(lines, kv)) == before[..n] + Added(lines, kv) + before[n..];
    }
  }

  ghost predicate ReadsRight(kv: map<string, string>)
    requires PlainKeys(kv)
  {
    forall lines | lines != [] ::
      Inserted(Read("", PatchedLines(lines, kv)), EditEntries(Read("", lines), kv), Added(lines, kv))
  }

  lemma {:induction false} HeadersReadNothing(section: string, lines: seq<string>)
    ensures |Read(section, lines)| <= |lines|
    ensures !NoHeads(lines) ==> |Read(section, lines)| < |lines|
    decreases |lines|
  {
    if lines != [] {
      HeadersReadNothing(SectionAfter(section, lines[0]), lines[1..]);
      hide Heads, Read;
      ReadFirst(section, lines[0], lines[1..]);
      assert [lines[0]] + lines[1..] == lines;
    }
  }

  lemma BracketedHeads(key: string)
    requires HasPrefix(TrimSpace(key), "[") && '=' !in key
    ensures Heads(Line(key, "]"))
  {
    var line := Line(key, "]");
    TrimLeftStops(key, "=]");
    assert key + "=]" == line;
    TrimRightCuts(TrimLeft(key));
  }

  /** In an empty file a setting whose line is a header is not found again. */
  lemma HeaderIsLost(kv: map<string, string>, k: string)
    requires PlainKeys(kv) && k in kv && Heads(Line(k, kv[k]))
    ensures !Inserted(Read("", PatchedLines([""], kv)), EditEntries(Read("", [""]), kv), Added([""], kv))
  {
    var lines, missing := [""], Ordered(Missing([""], kv));
    assert Edited(lines, kv) == lines && !Mentions(lines, k) && Line(k, kv[k]) in Missing(lines, kv);
    assert !NoHeads(missing) by {
      var i :| 0 <= i < |missing| && missing[i] == Line(k, kv[k]);
    }
    assert Above(lines) == ["", PREFERENCES] == [""] + [PREFERENCES] && Below(lines) == [];
    assert Read("", lines) == [];
    hide Missing, Heads, Read, NoHeads, TrimSpace;
    HeaderReads("");
    BlankReads("", [PREFERENCES]);
    ReadAppends("", Above(lines), missing);
    HeadersReadNothing(PREFERENCES, missing);
    assert PatchedLines(lines, kv) == Above(lines) + missing;
    MissingAreSettings(lines, kv);
  }

  /** The header with the key of a setting, before and after its line is edited. */
  lemma HeaderEdited(kv: map<string, string>, k: string)
    requires k in kv && '=' !in k && HasPrefix(TrimSpace(k), "[") && !Heads(Line(k, kv[k]))
    ensures Edited([Line(k, "]")], kv) == [Line(k, kv[k])]
    ensures Read("", [Line(k, "]")]) == [] && |Read("", [Line(k, kv[k])])| == 1
  {
    BracketedHeads(k);
    LineReads(k, "]");
    LineReads(k, kv[k]);
    hide Heads, HasKey, KeyOf, Line;
  }

  /** A header that has the key of a setting becomes a setting that was not there. */
  lemma HeaderIsTaken(kv: map<string, string>, k: string)
    requires PlainKeys(kv) && k in kv && HasPrefix(TrimSpace(k), "[")
    requires forall j | j in kv :: !Heads(Line(j, kv[j]))
    ensures !Inserted(Read("", PatchedLines([Line(k, "]")], kv)), EditEntries(Read("", [Line(k, "]")]), kv), Added([Line(k, "]")], kv))
  {
    var lines := [Line(k, "]")];
    var edited, missing := Edited(lines, kv), Ordered(Missing(lines, kv));
    HeaderEdited(kv, k);
    MissingAreSettings(lines, kv);
    assert NoHeads(missing) by { hide Heads, Line, Missing; }
    hide Missing, Heads, Read, NoHeads, Above, Below, HasPrefix, HasKey, KeyOf, Line, TrimSpace, Mentions, EndSection, PlainKeys;
    ReadAround(edited);
    ReadInserted(edited, missing, kv);
    if Missing(lines, kv) == {} { OrderedOnce(missing, {}); }
  }

  /** Patching reads right in every file exactly if no key looks like the beginning of a header. */
  lemma ReadPatchedExactly(kv: map<string, string>)
    requires PlainKeys(kv)
    ensures ReadsRight(kv) <==> NoBrackets(kv)
  {
    hide Inserted, Read, PatchedLines, Added, EditEntries, PlainKeys;
    if NoBrackets(kv) {
      forall lines | lines != []
        ensures Inserted(Read("", PatchedLines(lines, kv)), EditEntries(Read("", lines), kv), Added(lines, kv))
      {
        ReadPatched(lines, kv);
      }
    }
    forall k | ReadsRight(kv) && k in kv
      ensures !HasPrefix(TrimSpace(k), "[")
    {
      if j :| j in kv && Heads(Line(j, kv[j])) {
        HeaderIsLost(kv, j);
      } else if HasPrefix(TrimSpace(k), "[") {
        HeaderIsTaken(kv, k);
      }
    }
  }

  /** The settings whose key is not patched. */
  function Others(es: seq<Entry>, kv: map<string, string>): seq<Entry> {
    if es == [] then [] else OtherOn(es[0], kv) + Others(es[1..], kv)
  }

  function OtherOn(e: Entry, kv: map<string, string>): seq<Entry> {
    if e.key in kv then [] else [e]
  }

  lemma OthersFirst(e: Entry, rest: seq<Entry>, kv: map<string, string>)
    ensures Others([e] + rest, kv) == OtherOn(e, kv) + Others(rest, kv)
  {
    assert ([e] + rest)[1..] == rest;
  }

  lemma {:induction false} OthersAppends(a: seq<Entry>, b: seq<Entry>, kv: map<string, string>)
    ensures Others(a + b, kv) == Others(a, kv) + Others(b, kv)
  {
    if a == [] {
      assert a + b == b;
    } else {
      hide *;
      var first, rest := a[0], a[1..];
      assert a == [first] + rest;
      OthersAppends(rest, b, kv);
      OthersFirst(first, rest, kv);
      OthersFirst(first, rest + b, kv);
      Regroup([first], rest, b);
      Regroup(OtherOn(first, kv), Others(rest, kv), Others(b, kv));
    }
  }

  lemma {:induction false} OthersEdited(es: seq<Entry>, kv: map<string, string>)
    ensures Others(EditEntries(es, kv), kv) == Others(es, kv)
  {
    if es != [] { OthersEdited(es[1..], kv); }
  }

  lemma {:induction false} NoOthers(es: seq<Entry>, kv: map<string, string>)
    requires forall i | 0 <= i < |es| :: es[i].key in kv
    ensures Others(es, kv) == []
  {
    if es != [] { NoOthers(es[1..], kv); }
  }

  /** Every setting whose key is not patched reads as before, in the same section and order. */
  lemma OthersReadTheSame(lines: seq<string>, kv: map<string, string>)
    requires lines != [] && PlainKeys(kv) && NoBrackets(kv)
    ensures Others(Read("", PatchedLines(lines, kv)), kv) == Others(Read("", lines), kv)
  {
    ReadPatched(lines, kv);
    AddedExactly(lines, kv);
    hide Read, PatchedLines, PlainKeys, Mentions, Inserted;
    OthersInserted(Read("", PatchedLines(lines, kv)), EditEntries(Read("", lines), kv), Added(lines, kv), kv);
    OthersEdited(Read("", lines), kv);
  }

  lemma OthersInserted(after: seq<Entry>, before: seq<Entry>, added: seq<Entry>, kv: map<string, string>)
    requires Inserted(after, before, added) && forall i | 0 <= i < |added| :: added[i].key in kv
    ensures Others(after, kv) == Others(before, kv)
  {
    var n :| 0 <= n <= |before| && after == before[..n] + added + before[n..];
    var a, b := before[..n], before[n..];
    assert a + b == before;
    hide *;
    OthersAppends(a + added, b, kv);
    OthersAppends(a, added, kv);
    NoOthers(added, kv);
    OthersAppends(a, b, kv);
    assert Others(a, kv) + [] == Others(a, kv);
  }

  /** All values of a setting, for a reader that ignores white space around keys. */
  function Values(es: seq<Entry>, section: string, key: string): seq<string> {
    if es == [] then []
    else (if es[0].section == section && TrimSpace(es[0].key) == key then [es[0].value] else []) + Values(es[1..], section, key)
  }

  lemma {:induction false} ValuesOfOthers(es: seq<Entry>, kv: map<string, string>, section: string, key: string)
    requires forall k | k in kv :: TrimSpace(k) != key
    ensures Values(Others(es, kv), section, key) == Values(es, section, key)
  {
    if es != [] {
      hide TrimSpace;
      ValuesOfOthers(es[1..], kv, section, key);
      if OtherOn(es[0], kv) == [] {
        assert [] + Others(es[1..], kv) == Others(es[1..], kv);
      } else {
        assert ([es[0]] + Others(es[1..], kv))[1..] == Others(es[1..], kv);
      }
    }
  }

  lemma MeaningKept(body: string, kv: map<string, string>, section: string, key: string)
    requires PlainKeys(kv) && NoBrackets(kv) && OneLiners(kv) && forall k | k in kv :: TrimSpace(k) != key
    ensures Values(Read("", Split(Patched(body, kv), '\n')), section, key) == Values(Read("", Split(body, '\n')), section, key)
  {
    var lines := Split(body, '\n');
    SplitPatched(body, kv);
    OthersReadTheSame(lines, kv);
    ValuesOfOthers(Read("", PatchedLines(lines, kv)), kv, section, key);
    ValuesOfOthers(Read("", lines), kv, section, key);
  }

  // --- the place and the shape, spelled out ---

  predicate OtherHeader(line: string) {
    var t := TrimSpace(line);
    t != "[Preferences]" && t != "" && t[0] == '[' && t[|t| - 1] == ']'
  }

  predicate HasPreferences(lines: seq<string>) {
    exists i | 0 <= i < |lines| :: TrimSpace(lines[i]) == "[Preferences]"
  }

  /** `p` is the first line that opens the section, `at` follows the last line of it that is not blank. */
  ghost predicate EndsAt(lines: seq<string>, p: nat, at: nat) {
    && p < at <= |lines|
    && TrimSpace(lines[p]) == "[Preferences]" && (forall i | 0 <= i < p :: TrimSpace(lines[i]) != "[Preferences]")
    && (forall i | p < i < at :: !OtherHeader(lines[i]))
    && TrimSpace(lines[at - 1]) != ""
    && (forall j | at <= j < |lines| && (forall i | at <= i <= j :: !OtherHeader(lines[i])) :: TrimSpace(lines[j]) == "")
  }

  /** A header, as the scan sees it. */
  lemma HeaderSeen(line: string)
    ensures OtherHeader(line) <==>
      var t := TrimSpace(line); t != "[Preferences]" && HasPrefix(t, "[") && HasSuffix(t, "]")
  {
    var t := TrimSpace(line);
    assert t != "" ==> t[..1] == [t[0]] && t[|t| - 1..] == [t[|t| - 1]];
  }

  lemma {:induction false} ScanInside(lines: seq<string>, i: nat, at: nat, p: nat)
    requires p < at <= i <= |lines|
    requires TrimSpace(lines[p]) == "[Preferences]" && forall k | 0 <= k < p :: TrimSpace(lines[k]) != "[Preferences]"
    requires forall k | p < k < i :: !OtherHeader(lines[k])
    requires TrimSpace(lines[at - 1]) != "" && forall k | at <= k < i :: TrimSpace(lines[k]) == ""
    ensures var r := Scan(lines, i, true, at); r >= 0 && EndsAt(lines, p, r)
    decreases |lines| - i
  {
    hide TrimSpace, OtherHeader, HasPrefix, HasSuffix;
    if i < |lines| {
      HeaderSeen(lines[i]);
      if !OtherHeader(lines[i]) {
        hide EndsAt;
        ScanInside(lines, i + 1, if TrimSpace(lines[i]) != "" then i + 1 else at, p);
      }
    }
  }

  lemma {:induction false} ScanOutside(lines: seq<string>, i: nat)
    requires i <= |lines| && forall k | 0 <= k < i :: TrimSpace(lines[k]) != "[Preferences]"
    ensures var r := Scan(lines, i, false, -1);
      && (r >= 0 <==> HasPreferences(lines)) && (r >= 0 ==> exists p: nat :: EndsAt(lines, p, r))
    decreases |lines| - i
  {
    if i < |lines| {
      var t := TrimSpace(lines[i]);
      hide TrimSpace, EndsAt;
      if t == "[Preferences]" {
        ScanInside(lines, i + 1, i + 1, i);
      } else {
        ScanOutside(lines, i + 1);
      }
    }
  }

  /** A place is found exactly if the file has the section, and it is the end of the first such section. */
  lemma InsertAtExactly(lines: seq<string>)
    ensures InsertAt(lines) >= 0 <==> exists i | 0 <= i < |lines| :: TrimSpace(lines[i]) == "[Preferences]"
    ensures InsertAt(lines) >= 0 ==> exists p: nat :: EndsAt(lines, p, InsertAt(lines))
  {
    ScanOutside(lines, 0);
    hide Scan, EndsAt;
  }

  lemma NotFurther(lines: seq<string>, p: nat, at: nat, at': nat)
    requires EndsAt(lines, p, at) && at' <= |lines|
    ensures at < at' && TrimSpace(lines[at' - 1]) != "" ==> exists i | at <= i < at' :: OtherHeader(lines[i])
  {
    hide TrimSpace, OtherHeader;
  }

  /** There is one such place. */
  lemma OneEnd(lines: seq<string>, p: nat, at: nat, q: nat, at': nat)
    requires EndsAt(lines, p, at) && EndsAt(lines, q, at')
    ensures p == q && at == at'
  {
    NotFurther(lines, p, at, at');
    NotFurther(lines, q, at', at);
    hide TrimSpace, OtherHeader;
  }

  /** A line that begins with a key and an equals sign gets its value; no other line changes. */
  lemma EditedExactly(lines: seq<string>, kv: map<string, string>)
    requires PlainKeys(kv)
    ensures |Edited(lines, kv)| == |lines|
    ensures forall i, k | 0 <= i < |lines| && k in kv && k + "=" <= lines[i] :: Edited(lines, kv)[i] == k + "=" + kv[k]
    ensures forall i | 0 <= i < |lines| && (forall k | k in kv :: !(k + "=" <= lines[i])) :: Edited(lines, kv)[i] == lines[i]
  {
    forall i, k | 0 <= i < |lines| && k in kv
      ensures k + "=" <= lines[i] <==> HasKey(lines[i]) && KeyOf(lines[i]) == k
    {
      PrefixIsKey(lines[i], k);
    }
    hide HasKey, KeyOf;
  }

  /** A setting that no line begins with gets a line of its own. */
  lemma MissingExactly(lines: seq<string>, kv: map<string, string>)
    requires PlainKeys(kv)
    ensures forall x :: x in Ordered(Missing(lines, kv)) <==>
      exists k | k in kv :: x == k + "=" + kv[k] && forall i | 0 <= i < |lines| :: !(k + "=" <= lines[i])
    ensures Ascending(Ordered(Missing(lines, kv)))
  {
    forall k | k in kv
      ensures Mentions(lines, k) <==> !(forall i | 0 <= i < |lines| :: !(k + "=" <= lines[i]))
    {
      forall i | 0 <= i < |lines|
        ensures k + "=" <= lines[i] <==> HasKey(lines[i]) && KeyOf(lines[i]) == k
      {
        PrefixIsKey(lines[i], k);
      }
      hide HasKey, KeyOf;
    }
    hide Mentions, Ascending;
    assert forall x :: x in Ordered(Missing(lines, kv)) <==> x in Missing(lines, kv);
  }

  lemma InsertedExactly(lines: seq<string>, missing: seq<string>)
    requires lines != []
    ensures var inserted := Above(lines) + missing + Below(lines);
      && (HasPreferences(lines) ==>
            exists p: nat, at: nat :: EndsAt(lines, p, at) && inserted == lines[..at] + missing + lines[at..])
      && (!HasPreferences(lines) ==>
            inserted == lines + (if lines[|lines| - 1] == "" then [] else [""]) + ["[Preferences]"] + missing)
  {
    InsertAtExactly(lines);
    InsertAtInRange(lines);
    hide InsertAt, EndsAt, TrimSpace;
    if HasPreferences(lines) {
      var p: nat :| EndsAt(lines, p, InsertAt(lines));
    } else {
      assert Above(lines) == lines + Created(lines) && Below(lines) == [];
      assert lines + [""] + [PREFERENCES] == lines + ([""] + [PREFERENCES]);
      assert lines + [] + [PREFERENCES] == lines + ([] + [PREFERENCES]);
      assert lines + Created(lines) + missing + [] == lines + Created(lines) + missing;
    }
  }

  /**
    The missing lines go to the end of the first `[Preferences]` section. Without one they
    go to the end of the file, below a header, and a blank line comes before the header
    unless the file already ends in one.
   */
  lemma PatchedExactly(lines: seq<string>, kv: map<string, string>)
    requires lines != []
    ensures var edited, missing, patched := Edited(lines, kv), Ordered(Missing(lines, kv)), PatchedLines(lines, kv);
      && (missing == [] ==> patched == edited)
      && (missing != [] && HasPreferences(edited) ==>
            exists p: nat, at: nat :: EndsAt(edited, p, at) && patched == edited[..at] + missing + edited[at..])
      && (missing != [] && !HasPreferences(edited) ==>
            patched == edited + (if edited[|edited| - 1] == "" then [] else [""]) + ["[Preferences]"] + missing)
  {
    var edited, missing := Edited(lines, kv), Ordered(Missing(lines, kv));
    OrderedOnce(missing, Missing(lines, kv));
    if missing != [] {
      hide Missing, Ordered, TrimSpace;
      InsertedExactly(edited, missing);
    }
  }

  // --- the lines themselves ---

  ghost predicate OneLine(lines: seq<string>) {
    forall x | x in lines :: '\n' !in x
  }

  lemma EditedOneLine(lines: seq<string>, kv: map<string, string>)
    requires OneLiners(kv) && OneLine(lines)
    ensures OneLine(Edited(lines, kv)) && OneLine(Ordered(Missing(lines, kv)))
  {
    var edited, missing := Edited(lines, kv), Ordered(Missing(lines, kv));
    forall x | x in edited
      ensures '\n' !in x
    {
      var i :| 0 <= i < |edited| && edited[i] == x;
      assert lines[i] in lines;
    }
    forall x | x in missing
      ensures '\n' !in x
    {
      assert x in Missing(lines, kv);
    }
  }

  lemma PatchedOneLine(lines: seq<string>, kv: map<string, string>)
    requires OneLiners(kv) && lines != [] && OneLine(lines)
    ensures PatchedLines(lines, kv) != [] && OneLine(PatchedLines(lines, kv))
  {
    var edited, missing := Edited(lines, kv), Ordered(Missing(lines, kv));
    EditedOneLine(lines, kv);
    InsertedLines(edited, missing);
    hide Missing, OneLiners, Above, Below, InsertAt, Edited, Edit, Line, HasKey, KeyOf, Mentions, Ordered, OneLine, Created;
    assert edited[0] in edited;
    if Missing(lines, kv) != {} {
      OneLineInserted(Above(edited) + missing + Below(edited), edited, missing);
    }
  }

  lemma OneLineInserted(all: seq<string>, lines: seq<string>, missing: seq<string>)
    requires OneLine(lines) && OneLine(missing)
    requires forall x | x in all :: x in lines || x in missing || x == "" || x == PREFERENCES
    ensures OneLine(all)
  {}

  /** The patched text has exactly the patched lines. */
  lemma SplitPatched(body: string, kv: map<string, string>)
    requires OneLiners(kv)
    ensures PatchedLines(Split(body, '\n'), kv) != []
    ensures Split(Patched(body, kv), '\n') == PatchedLines(Split(body, '\n'), kv)
  {
    var lines := Split(body, '\n');
    SplitParts(body, '\n');
    hide Split, Join, PatchedLines, OneLiners;
    PatchedOneLine(lines, kv);
    SplitJoin(PatchedLines(lines, kv), '\n');
  }

  /** The lines that are not settings of `kv`. */
  function Unowned(lines: seq<string>, kv: map<string, string>): seq<string> {
    if lines == [] then [] else UnownedOn(lines[0], kv) + Unowned(lines[1..], kv)
  }

  function UnownedOn(line: string, kv: map<string, string>): seq<string> {
    if HasKey(line) && KeyOf(line) in kv then [] else [line]
  }

  lemma UnownedFirst(line: string, rest: seq<string>, kv: map<string, string>)
    ensures Unowned([line] + rest, kv) == UnownedOn(line, kv) + Unowned(rest, kv)
  {
    assert ([line] + rest)[1..] == rest;
  }

  lemma {:induction false} UnownedAppends(a: seq<string>, b: seq<string>, kv: map<string, string>)
    ensures Unowned(a + b, kv) == Unowned(a, kv) + Unowned(b, kv)
  {
    if a == [] {
      assert a + b == b;
    } else {
      hide *;
      var first, rest := a[0], a[1..];
      assert a == [first] + rest;
      UnownedAppends(rest, b, kv);
      UnownedFirst(first, rest, kv);
      UnownedFirst(first, rest + b, kv);
      Regroup([first], rest, b);
      Regroup(UnownedOn(first, kv), Unowned(rest, kv), Unowned(b, kv));
    }
  }

  lemma {:induction false} UnownedEdited(lines: seq<string>, kv: map<string, string>)
    requires PlainKeys(kv)
    ensures Unowned(Edited(lines, kv), kv) == Unowned(lines, kv)
  {
    if lines != [] {
      if HasKey(lines[0]) && KeyOf(lines[0]) in kv { LineReads(KeyOf(lines[0]), kv[KeyOf(lines[0])]); }
      hide HasKey, KeyOf;
      UnownedEdited(lines[1..], kv);
    }
  }

  lemma {:induction false} NoneUnowned(lines: seq<string>, kv: map<string, string>)
    requires AreSettings(lines, kv)
    ensures Unowned(lines, kv) == []
  {
    if lines != [] { NoneUnowned(lines[1..], kv); }
  }

  lemma CreatedUnowned(lines: seq<string>, kv: map<string, string>)
    requires lines != []
    ensures Unowned(Created(lines), kv) == Created(lines)
  {
    NoKeyUnowned(PREFERENCES, kv);
    NoKeyUnowned("", kv);
    hide UnownedOn, Unowned;
    UnownedAppends([""], [PREFERENCES], kv);
  }

  lemma NoKeyUnowned(line: string, kv: map<string, string>)
    requires !HasKey(line)
    ensures Unowned([line], kv) == [line]
  {
    UnownedFirst(line, [], kv);
  }

  /** Every line that is not a patched setting survives, in order; only a new section adds lines of its own. */
  lemma LinesSurvive(lines: seq<string>, kv: map<string, string>)
    requires lines != [] && PlainKeys(kv)
    ensures var edited := Edited(lines, kv);
      Unowned(PatchedLines(lines, kv), kv)
        == Unowned(lines, kv) + if Missing(lines, kv) == {} || (exists i | 0 <= i < |edited| :: TrimSpace(edited[i]) == "[Preferences]") then []
                                else (if edited[|edited| - 1] == "" then [] else [""]) + ["[Preferences]"]
  {
    InsertAtExactly(Edited(lines, kv));
    var edited, missing := Edited(lines, kv), Ordered(Missing(lines, kv));
    UnownedEdited(lines, kv);
    MissingAreSettings(lines, kv);
    NoneUnowned(missing, kv);
    hide Missing, Above, Below, PlainKeys, Mentions, Unowned, AreSettings, InsertAt, Created, Edited;
    if Missing(lines, kv) != {} {
      UnownedAppends(Above(edited) + missing, Below(edited), kv);
      UnownedAppends(Above(edited), missing, kv);
      UnownedAround(edited, kv);
      assert Unowned(Above(edited), kv) + [] == Unowned(Above(edited), kv);
    } else {
      assert Unowned(lines, kv) + [] == Unowned(lines, kv);
    }
  }

  lemma UnownedAround(lines: seq<string>, kv: map<string, string>)
    requires lines != []
    ensures Unowned(Above(lines), kv) + Unowned(Below(lines), kv)
      == Unowned(lines, kv) + if InsertAt(lines) < 0 then Created(lines) else []
  {
    InsertAtInRange(lines);
    hide Scan, Created, Unowned;
    var at := InsertAt(lines);
    if at >= 0 {
      UnownedAppends(lines[..at], lines[at..], kv);
      assert lines[..at] + lines[at..] == lines;
    } else {
      UnownedAppends(lines, Created(lines), kv);
      CreatedUnowned(lines, kv);
      NoneUnowned([], kv);
    }
  }

  // --- once is enough ---

  ghost predicate Right(line: string, kv: map<string, string>) {
    HasKey(line) && KeyOf(line) in kv ==> line == Line(KeyOf(line), kv[KeyOf(line)])
  }

  lemma EditedRight(line: string, kv: map<string, string>)
    requires PlainKeys(kv)
    ensures Right(Edit(line, kv), kv)
    ensures HasKey(line) && KeyOf(line) in kv ==> HasKey(Edit(line, kv)) && KeyOf(Edit(line, kv)) == KeyOf(line)
  {
    if HasKey(line) && KeyOf(line) in kv { LineReads(KeyOf(line), kv[KeyOf(line)]); }
  }

  lemma InsertedLines(lines: seq<string>, missing: seq<string>)
    requires lines != []
    ensures forall x | x in Above(lines) + missing + Below(lines) ::
      x in lines || x in missing || x == "" || x == PREFERENCES
    ensures forall x | x in lines || x in missing :: x in Above(lines) + missing + Below(lines)
  {
    InsertAtInRange(lines);
    var at := InsertAt(lines);
    hide Scan;
    if at >= 0 {
      assert lines[..at] + lines[at..] == lines;
      assert forall x :: x in lines <==> x in lines[..at] || x in lines[at..];
    }
  }

  lemma PatchedLinesRight(lines: seq<string>, kv: map<string, string>)
    requires lines != [] && PlainKeys(kv)
    ensures forall x | x in PatchedLines(lines, kv) :: Right(x, kv)
  {
    var edited, missing := Edited(lines, kv), Ordered(Missing(lines, kv));
    InsertedLines(edited, missing);
    EditedLinesRight(lines, kv);
    MissingLinesRight(lines, kv);
    hide Above, Below, Missing, Edited, PlainKeys, HasKey, KeyOf;
    assert Right("", kv) && Right(PREFERENCES, kv) by { NoKeyRight("", kv); NoKeyRight(PREFERENCES, kv); }
    hide Right;
  }

  lemma NoKeyRight(line: string, kv: map<string, string>)
    requires !HasKey(line)
    ensures Right(line, kv)
  {}

  lemma EditedLinesRight(lines: seq<string>, kv: map<string, string>)
    requires PlainKeys(kv)
    ensures forall x | x in Edited(lines, kv) :: Right(x, kv)
  {
    hide PlainKeys, Right;
    forall i | 0 <= i < |lines|
      ensures Right(Edited(lines, kv)[i], kv)
    {
      EditedRight(lines[i], kv);
    }
  }

  lemma MissingLinesRight(lines: seq<string>, kv: map<string, string>)
    requires PlainKeys(kv)
    ensures forall x | x in Ordered(Missing(lines, kv)) :: Right(x, kv)
  {
    MissingAreSettings(lines, kv);
    hide Missing, HasKey, KeyOf, PlainKeys;
  }

  lemma PatchedLinesMention(lines: seq<string>, kv: map<string, string>, k: string)
    requires lines != [] && PlainKeys(kv) && k in kv
    ensures Mentions(PatchedLines(lines, kv), k)
  {
    var edited, missing := Edited(lines, kv), Ordered(Missing(lines, kv));
    InsertedLines(edited, missing);
    hide Above, Below;
    var line: string;
    if Mentions(lines, k) {
      var i :| 0 <= i < |lines| && HasKey(lines[i]) && KeyOf(lines[i]) == k;
      EditedRight(lines[i], kv);
      line := edited[i];
      assert line in edited;
    } else {
      line := Line(k, kv[k]);
      assert line in Missing(lines, kv);
      LineReads(k, kv[k]);
    }
    assert HasKey(line) && KeyOf(line) == k && line in PatchedLines(lines, kv);
    var j :| 0 <= j < |PatchedLines(lines, kv)| && PatchedLines(lines, kv)[j] == line;
  }

  /** After the patch every setting has a line with its value and no line with another. */
  lemma PatchedIsSettled(lines: seq<string>, kv: map<string, string>)
    requires lines != [] && PlainKeys(kv)
    ensures Settled(PatchedLines(lines, kv), kv)
  {
    PatchedLinesRight(lines, kv);
    forall k | k in kv
      ensures Mentions(PatchedLines(lines, kv), k)
    {
      PatchedLinesMention(lines, kv, k);
    }
    hide PatchedLines, Mentions, HasKey, KeyOf;
    var patched := PatchedLines(lines, kv);
    assert forall i | 0 <= i < |patched| :: patched[i] in patched;
  }

  /** A second patch finds nothing to change, exactly if no setting takes more than one line. */
  lemma PatchedTwice(body: string, kv: map<string, string>)
    requires PlainKeys(kv)
    ensures Settled(Split(Patched(body, kv), '\n'), kv) <==> OneLiners(kv)
    ensures OneLiners(kv) ==> Patched(Patched(body, kv), kv) == Patched(body, kv)
  {
    hide PatchedLines, Split, PlainKeys;
    var lines := Split(Patched(body, kv), '\n');
    SplitParts(Patched(body, kv), '\n');
    if OneLiners(kv) {
      hide Settled, OneLiners;
      SplitPatched(body, kv);
      PatchedIsSettled(Split(body, '\n'), kv);
      SettledStays(PatchedLines(Split(body, '\n'), kv), kv);
    }
    if Settled(lines, kv) {
      hide Line, HasKey, KeyOf;
      forall k | k in kv
        ensures '\n' !in Line(k, kv[k])
      {
        assert Mentions(lines, k);
        var i :| 0 <= i < |lines| && HasKey(lines[i]) && KeyOf(lines[i]) == k;
        assert lines[i] in lines;
      }
    }
  }

  lemma SettledStays(lines: seq<string>, kv: map<string, string>)
    requires lines != [] && Settled(lines, kv)
    ensures PatchedLines(lines, kv) == lines
  {
    SettledExactly(lines, kv);
  }

  // --- where in the section ---

  /** No line from `i` up to `j` but the last is a header of another section. */
  predicate SameSection(lines: seq<string>, i: nat, j: nat)
    requires i <= j <= |lines|
  {
    forall k | i <= k < j :: !Heads(lines[k]) || TrimSpace(lines[k]) == PREFERENCES
  }

  lemma {:induction false} ScanEndsSection(lines: seq<string>, i: nat, inPrefs: bool, at: int, j: nat)
    requires i <= |lines| && -1 <= at <= i && (inPrefs <==> at >= 0)
    requires at > 0 ==> TrimSpace(lines[at - 1]) != ""
    requires at != 0
    requires forall k | 0 <= k < |lines| && at <= k < i && inPrefs :: TrimSpace(lines[k]) == ""
    requires var r := Scan(lines, i, inPrefs, at); 0 <= r <= j < |lines| && SameSection(lines, r, j + 1)
    ensures var r := Scan(lines, i, inPrefs, at); r > 0 && TrimSpace(lines[r - 1]) != "" && TrimSpace(lines[j]) == ""
    decreases |lines| - i
  {
    if i < |lines| {
      var t := TrimSpace(lines[i]);
      hide TrimSpace;
      if t == PREFERENCES {
        ScanEndsSection(lines, i + 1, true, i + 1, j);
      } else if inPrefs && HasPrefix(t, "[") && HasSuffix(t, "]") {
        assert Heads(lines[i]);
      } else {
        ScanEndsSection(lines, i + 1, inPrefs, if inPrefs && t != "" then i + 1 else at, j);
      }
    }
  }

  /** New lines follow the last line of the section that is not blank. */
  lemma InsertedAtSectionEnd(lines: seq<string>, j: nat)
    requires 0 <= InsertAt(lines) <= j < |lines| && SameSection(lines, InsertAt(lines), j + 1)
    ensures InsertAt(lines) > 0 && TrimSpace(lines[InsertAt(lines) - 1]) != "" && TrimSpace(lines[j]) == ""
  {
    ScanEndsSection(lines, 0, false, -1, j);
  }

  // --- what nass patches in ---

  const HOST_VALIDATION := "WebUI\\HostHeaderValidation"
  const WHITELIST_ENABLED := "WebUI\\AuthSubnetWhitelistEnabled"
  const WHITELIST := "WebUI\\AuthSubnetWhitelist"
  const CSRF_PROTECTION := "WebUI\\CSRFProtection"

  const WEB_UI_SETTINGS: map<string, string> := map[
    HOST_VALIDATION := "false", WHITELIST_ENABLED := "true", WHITELIST := "0.0.0.0/0", CSRF_PROTECTION := "false"]

  /** A setting on one line, with a key that neither starts in white space or a bracket nor contains an equals sign. */
  predicate Harmless(k: string, v: string) {
    '=' !in k && '\n' !in k && '\n' !in v && k != "" && !IsSpace(k[0]) && k[0] != '['
  }

  lemma TrimmedBegin(s: string)
    requires s != "" && !IsSpace(s[0]) && s[0] != '['
    ensures !HasPrefix(TrimSpace(s), "[")
  {
    assert TrimLeft(s) == s;
    TrimRightCuts(s);
  }

  lemma HarmlessSettings(kv: map<string, string>)
    requires forall k | k in kv :: Harmless(k, kv[k])
    ensures PlainKeys(kv) && NoBrackets(kv) && OneLiners(kv)
  {
    hide TrimSpace, HasPrefix;
    forall k | k in kv
      ensures '=' !in k && !HasPrefix(TrimSpace(k), "[") && '\n' !in Line(k, kv[k])
    {
      assert Harmless(k, kv[k]);
      TrimmedBegin(k);
    }
  }

  lemma HostValidationIsHarmless()
    ensures Harmless(HOST_VALIDATION, "false")
  {
    assert '=' !in HOST_VALIDATION;
  }

  lemma WhitelistEnabledIsHarmless()
    ensures Harmless(WHITELIST_ENABLED, "true")
  {
    assert '=' !in WHITELIST_ENABLED;
  }

  lemma WhitelistIsHarmless()
    ensures Harmless(WHITELIST, "0.0.0.0/0")
  {
    assert '=' !in WHITELIST;
  }

  lemma CsrfProtectionIsHarmless()
    ensures Harmless(CSRF_PROTECTION, "false")
  {
    assert '=' !in CSRF_PROTECTION;
  }

  lemma WebUISettingsAreHarmless()
    ensures Harmless(HOST_VALIDATION, "false") && Harmless(WHITELIST_ENABLED, "true")
    ensures Harmless(WHITELIST, "0.0.0.0/0") && Harmless(CSRF_PROTECTION, "false")
  {
    assert Harmless(HOST_VALIDATION, "false") by { HostValidationIsHarmless(); }
    assert Harmless(WHITELIST_ENABLED, "true") by { WhitelistEnabledIsHarmless(); }
    assert Harmless(WHITELIST, "0.0.0.0/0") by { WhitelistIsHarmless(); }
    assert Harmless(CSRF_PROTECTION, "false") by { CsrfProtectionIsHarmless(); }
    hide *;
  }

  lemma PlainReadsRight(body: string, kv: map<string, string>)
    requires PlainKeys(kv) && NoBrackets(kv) && OneLiners(kv)
    ensures var lines := Split(body, '\n');
      var patched := Split(Patched(body, kv), '\n');
      && Settled(patched, kv) && Others(Read("", patched), kv) == Others(Read("", lines), kv)
  {
    hide Settled, Read, Others, Split, PatchedLines, PlainKeys, NoBrackets, OneLiners;
    SplitPatched(body, kv);
    PatchedTwice(body, kv);
    OthersReadTheSame(Split(body, '\n'), kv);
  }

  /** For the settings nass patches, and any file: afterwards they are all set, and all others read as before. */
  lemma WebUISettingsReadRight(body: string)
    ensures var lines := Split(body, '\n');
      var patched := Split(Patched(body, WEB_UI_SETTINGS), '\n');
      && Settled(patched, WEB_UI_SETTINGS)
      && Others(Read("", patched), WEB_UI_SETTINGS) == Others(Read("", lines), WEB_UI_SETTINGS)
  {
    WebUISettingsAreHarmless();
    hide Harmless, TrimSpace, HasPrefix;
    HarmlessSettings(WEB_UI_SETTINGS);
    hide *;
    PlainReadsRight(body, WEB_UI_SETTINGS);
  }
}
