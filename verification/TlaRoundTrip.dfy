/** Parsing undoes printing: every printed TLA+ value parses to what it stands for. */
module TlaRoundTrip {
  import opened TlaText
  import opened TlaValues

  // ------------------------------------------------------------------- stripping

  /** At most one space of padding. */
  predicate Pad(p: string) {
    p == [] || p == [' ']
  }

  lemma StripNeat(t: string)
    requires Neat(t)
    ensures Strip(t) == t
  {
  }

  lemma StripPadded(before: string, t: string, after: string)
    requires Neat(t) && Pad(before) && Pad(after)
    ensures Strip(before + t + after) == t
  {
    var s := before + t + after;
    var u := t + after;
    assert Strip(u) == t by {
      if after == [] {
        assert u == t;
      } else {
        assert u[0] == t[0] && u[|u| - 1] == ' ' && u[..|u| - 1] == t;
      }
    }
    if before == [] {
      assert s == u;
    } else {
      assert s[0] == ' ' && s[1..] == u;
    }
  }

  lemma StripAllCons(first: string, rest: seq<string>)
    ensures StripAll([first] + rest) == [Strip(first)] + StripAll(rest)
  {
  }

  // --------------------------------------------------------------- outer parentheses

  lemma {:induction false} CloseSkips(s: string, i: nat, part: string, depth: int)
    requires At(s, i, part) && forall k :: 0 <= k < |part| ==> part[k] != '(' && part[k] != ')'
    ensures FirstClose(s, i, depth) == FirstClose(s, i + |part|, depth)
    decreases |part|
  {
    if part != [] {
      AtChar(s, i, part, 0);
      assert part == [part[0]] + part[1..];
      AtSplit(s, i, [part[0]], part[1..]);
      CloseSkips(s, i + 1, part[1..], depth);
    }
  }

  /** The closing parenthesis looked for is not inside the part. */
  predicate ClosesLater(s: string, i: nat, part: string, depth: int) {
    At(s, i, part) && FirstClose(s, i, depth) == FirstClose(s, i + |part|, depth)
  }

  lemma CloseThree(s: string, i: nat, a: string, b: string, c: string, depth: int)
    requires At(s, i, a + b + c) && ClosesLater(s, i, a, depth)
    requires ClosesLater(s, i + |a|, b, depth) && ClosesLater(s, i + |a| + |b|, c, depth)
    ensures ClosesLater(s, i, a + b + c, depth)
  {
  }

  lemma CloseWord(s: string, i: nat, w: string, depth: int)
    requires At(s, i, w) && Word(w)
    ensures ClosesLater(s, i, w, depth)
  {
    CloseSkips(s, i, w, depth);
  }

  lemma CloseMark(s: string, i: nat, mark: string, depth: int)
    requires At(s, i, mark) && (mark == "{" || mark == "}" || mark == ", " || mark == " :> " || mark == " @@ ")
    ensures ClosesLater(s, i, mark, depth)
  {
    CloseSkips(s, i, mark, depth);
  }

  lemma CloseQuoted(s: string, i: nat, text: string, depth: int)
    requires At(s, i, "\"" + text + "\"") && PlainText(text)
    ensures ClosesLater(s, i, "\"" + text + "\"", depth)
  {
    CloseSkips(s, i, "\"" + text + "\"", depth);
  }

  lemma CloseParens(s: string, i: nat, body: string, depth: int)
    requires depth >= 1 && At(s, i, "(" + body + ")") && ClosesLater(s, i + 1, body, depth + 1)
    ensures ClosesLater(s, i, "(" + body + ")", depth)
  {
    AtChar(s, i, "(" + body + ")", 0);
    AtChar(s, i, "(" + body + ")", 1 + |body|);
  }

  lemma CloseAround(s: string, i: nat, a: string, mark: string, b: string, depth: int)
    requires mark == ", " || mark == " :> " || mark == " @@ "
    requires At(s, i, a + mark + b) && ClosesLater(s, i, a, depth) && ClosesLater(s, i + |a| + |mark|, b, depth)
    ensures ClosesLater(s, i, a + mark + b, depth)
  {
    AtThree(s, i, a, mark, b);
    CloseMark(s, i + |a|, mark, depth);
    CloseThree(s, i, a, mark, b, depth);
  }

  lemma CloseBraces(s: string, i: nat, body: string, depth: int)
    requires At(s, i, "{" + body + "}") && ClosesLater(s, i + 1, body, depth)
    ensures ClosesLater(s, i, "{" + body + "}", depth)
  {
    AtThree(s, i, "{", body, "}");
    CloseMark(s, i, "{", depth);
    CloseMark(s, i + 1 + |body|, "}", depth);
    CloseThree(s, i, "{", body, "}", depth);
  }

  lemma {:induction false} CloseOverPrint(s: string, i: nat, v: Value, depth: int)
    requires depth >= 1 && Printable(v) && At(s, i, Print(v))
    ensures ClosesLater(s, i, Print(v), depth)
    decreases v
  {
    match v
    case Ident(name) => CloseWord(s, i, name, depth);
    case Quoted(text) => CloseQuoted(s, i, text, depth);
    case Group(members) =>
      AtThree(s, i, "{", PrintMembers(members), "}");
      CloseOverMembers(s, i + 1, members, depth);
      CloseBraces(s, i, PrintMembers(members), depth);
    case Func(entries) =>
      AtThree(s, i, "(", PrintEntries(entries), ")");
      CloseOverEntries(s, i + 1, entries, depth + 1);
      CloseParens(s, i, PrintEntries(entries), depth);
  }

  lemma {:induction false} CloseOverMembers(s: string, i: nat, members: Values, depth: int)
    requires depth >= 1 && PrintableMembers(members) && At(s, i, PrintMembers(members))
    ensures ClosesLater(s, i, PrintMembers(members), depth)
    decreases members
  {
    if members.Cons? {
      var first, rest := Print(members.head), PrintMembers(members.tail);
      if members.tail.Nil? {
        CloseOverPrint(s, i, members.head, depth);
      } else {
        AfterMark(s, i, first, ", ", rest);
        CloseOverPrint(s, i, members.head, depth);
        CloseOverMembers(s, i + |first| + 2, members.tail, depth);
        CloseAround(s, i, first, ", ", rest, depth);
      }
    }
  }

  lemma {:induction false} CloseOverEntry(s: string, i: nat, e: Entry, depth: int)
    requires depth >= 1 && PrintableEntry(e) && At(s, i, PrintEntry(e))
    ensures ClosesLater(s, i, PrintEntry(e), depth)
    decreases e
  {
    var key, value := Print(e.key), Print(e.value);
    AfterMark(s, i, key, " :> ", value);
    CloseOverPrint(s, i, e.key, depth);
    CloseOverPrint(s, i + |key| + 4, e.value, depth);
    CloseAround(s, i, key, " :> ", value, depth);
  }

  lemma {:induction false} CloseOverEntries(s: string, i: nat, entries: Entries, depth: int)
    requires depth >= 1 && PrintableEntries(entries) && At(s, i, PrintEntries(entries))
    ensures ClosesLater(s, i, PrintEntries(entries), depth)
    decreases entries
  {
    if entries.Last? {
      CloseOverEntry(s, i, entries.entry, depth);
    } else {
      var first, rest := PrintEntry(entries.entry), PrintEntries(entries.rest);
      AfterMark(s, i, first, " @@ ", rest);
      CloseOverEntry(s, i, entries.entry, depth);
      CloseOverEntries(s, i + |first| + 4, entries.rest, depth);
      CloseAround(s, i, first, " @@ ", rest, depth);
    }
  }

  lemma FirstClosesAt(s: string, body: string)
    requires At(s, 0, "(" + body + ")") && ClosesLater(s, 1, body, 1)
    ensures FirstClose(s, 0, 0) == 1 + |body|
  {
    AtChar(s, 0, "(" + body + ")", 0);
    AtChar(s, 0, "(" + body + ")", 1 + |body|);
  }

  lemma PrintedFunctionIsEnclosed(entries: Entries)
    requires PrintableEntries(entries)
    ensures Enclosed(Print(Func(entries)))
  {
    var s, body := Print(Func(entries)), PrintEntries(entries);
    assert At(s, 0, "(" + body + ")");
    AtThree(s, 0, "(", body, ")");
    CloseOverEntries(s, 1, entries, 1);
    FirstClosesAt(s, body);
  }

  /** The entries start with the first key and end with the last value. */
  function LastValue(entries: Entries): Value {
    if entries.Last? then entries.entry.value else LastValue(entries.rest)
  }

  lemma {:induction false} EntriesEnds(entries: Entries)
    requires PrintableEntries(entries)
    ensures
      var s, first, last := PrintEntries(entries), Print(entries.entry.key), Print(LastValue(entries));
      && first != [] && |s| > |first| && s[0] == first[0] && At(s, 0, first) && last != [] && s[|s| - 1] == last[|last| - 1]
  {
    var first := PrintEntry(entries.entry);
    PrintIsNeat(entries.entry.key);
    PrintIsNeat(entries.entry.value);
    assert At(first, 0, Print(entries.entry.key));
    assert PrintEntries(entries)[..|first|] == first;
    if entries.Also? {
      EntriesEnds(entries.rest);
    }
  }

  /** The character a printed value starts or ends with tells its kind. */
  lemma PrintEdges(v: Value)
    requires Printable(v)
    ensures Print(v) != []
    ensures Print(v)[0] == '(' <==> v.Func?
    ensures Print(v)[0] == '{' <==> v.Group?
    ensures Print(v)[|Print(v)| - 1] == '}' <==> v.Group?
    ensures Print(v)[|Print(v)| - 1] == '"' <==> v.Quoted?
  {
  }

  /** Entries are not enclosed as a whole: a parenthesis opening the first key closes with it. */
  lemma EntriesNotEnclosed(entries: Entries)
    requires PrintableEntries(entries)
    ensures !Enclosed(PrintEntries(entries))
  {
    var s, key := PrintEntries(entries), entries.entry.key;
    EntriesEnds(entries);
    PrintEdges(key);
    if key.Func? {
      var body := PrintEntries(key.entries);
      AtThree(s, 0, "(", body, ")");
      CloseOverEntries(s, 1, key.entries, 1);
      FirstClosesAt(s, body);
    }
  }

  /** What is left of a printed value after normalising and stripping parentheses. */
  function Core(v: Value): string {
    if v.Func? then PrintEntries(v.entries) else Print(v)
  }

  lemma StripOuterPlain(t: string)
    requires Neat(t) && !Enclosed(t)
    ensures StripOuter(t) == t
  {
    StripNeat(t);
  }

  /** One unfolding: enclosing parentheses come off. */
  lemma EnclosedComesOff(s: string)
    requires Strip(s) == s && Enclosed(s)
    ensures StripOuter(s) == StripOuter(s[1..|s| - 1])
  {
  }

  lemma StripOuterEnclosed(s: string)
    requires Neat(s) && Enclosed(s)
    ensures StripOuter(Normalized(s)) == StripOuter(s[1..|s| - 1])
  {
    NormalizedNeat(s);
    StripNeat(s);
    EnclosedComesOff(s);
  }

  lemma InsideParentheses(body: string)
    ensures ("(" + body + ")")[1..|"(" + body + ")"| - 1] == body
  {
  }

  lemma CoreOfFunc(entries: Entries)
    requires PrintableEntries(entries)
    ensures StripOuter(Normalized(Print(Func(entries)))) == PrintEntries(entries)
  {
    var body := PrintEntries(entries);
    PrintIsNeat(Func(entries));
    PrintedFunctionIsEnclosed(entries);
    StripOuterEnclosed("(" + body + ")");
    InsideParentheses(body);
    EntriesAreNeat(entries);
    EntriesNotEnclosed(entries);
    StripOuterPlain(body);
  }

  lemma CoreOfPrint(v: Value)
    requires Printable(v)
    ensures StripOuter(Normalized(Print(v))) == Core(v)
  {
    if v.Func? {
      CoreOfFunc(v.entries);
    } else {
      PrintIsNeat(v);
      NormalizedNeat(Print(v));
      PrintEdges(v);
      StripOuterPlain(Print(v));
    }
  }

  // ------------------------------------------------------------------- splitting

  lemma SeparatorsAreMarks()
    ensures Mark(COMMA) && Mark(MERGE) && Mark(MAPS_TO)
  {
  }

  lemma SpaceStep(s: string, sep: string, i: nat)
    requires Mark(sep) && i < |s| && s[i] == ' '
    ensures Path(s, sep, i, i + 1, TOP, TOP)
  {
    PathPlain(s, sep, i, TOP);
  }

  /** The scan runs to a separator and cuts there. */
  lemma SegmentsCut(s: string, sep: string, start: nat, i: nat, j: nat)
    requires Separator(sep) && start <= i <= j < |s| && Path(s, sep, i, j, TOP, TOP) && At(s, j, sep)
    ensures Segments(s, sep, start, i, TOP) == [s[start..j]] + Segments(s, sep, j + |sep|, j + |sep|, TOP)
  {
    SegmentsAlong(s, sep, start, i, j, TOP, TOP);
  }

  /** The scan runs to the end. */
  lemma SegmentsEnd(s: string, sep: string, start: nat, i: nat)
    requires Separator(sep) && start <= i <= |s| && Path(s, sep, i, |s|, TOP, TOP)
    ensures Segments(s, sep, start, i, TOP) == [s[start..]]
  {
    SegmentsAlong(s, sep, start, i, |s|, TOP, TOP);
  }

  lemma SegmentsOfLast(s: string, sep: string, start: nat, i: nat, last: string)
    requires Separator(sep) && start <= i && Over(s, sep, i, last, TOP) && i + |last| == |s|
    ensures Segments(s, sep, start, i, TOP) == [s[start..i] + last + []]
  {
    SegmentsEnd(s, sep, start, i);
    SliceTo(s, start, i, last);
    assert s[start..] == s[start..i + |last|];
  }

  lemma SegmentsSpace(s: string, sep: string, n: nat)
    requires Mark(sep) && n < |s| && s[n] == ' '
    ensures Segments(s, sep, n, n, TOP) == Segments(s, sep, n, n + 1, TOP)
  {
    SpaceStep(s, sep, n);
    SegmentsAlong(s, sep, n, n, n + 1, TOP, TOP);
  }

  /** The pieces of the text of an entry. */
  lemma ArrowAt(s: string, key: string, p: string)
    requires s == key + " :> " + p
    ensures At(s, 0, key) && s[|key|] == ' ' && At(s, |key| + 1, MAPS_TO) && s[|key| + 3] == ' ' && At(s, |key| + 4, p)
    ensures s[0..|key| + 1] == key + [' '] && s[|key| + 3..] == [' '] + p
  {
  }

  /** One entry splits at its arrow into its key and its value. */
  lemma SegmentsOfMapped(s: string, n: nat)
    requires n + 4 <= |s| && s[n] == ' ' && At(s, n + 1, MAPS_TO) && s[n + 3] == ' '
    requires Path(s, MAPS_TO, 0, n, TOP, TOP) && Path(s, MAPS_TO, n + 4, |s|, TOP, TOP)
    ensures Mark(MAPS_TO) && Segments(s, MAPS_TO, 0, 0, TOP) == [s[0..n + 1], s[n + 3..]]
  {
    SeparatorsAreMarks();
    SegmentsAfterSpace(s, MAPS_TO, 0, 0, n);
    SegmentsSpace(s, MAPS_TO, n + 3);
    SegmentsEnd(s, MAPS_TO, n + 3, n + 4);
  }

  /** The scan runs to a space, and cuts right after it. */
  lemma SegmentsAfterSpace(s: string, sep: string, start: nat, i: nat, j: nat)
    requires Mark(sep) && start <= i <= j < j + 1 < |s| && Path(s, sep, i, j, TOP, TOP) && s[j] == ' ' && At(s, j + 1, sep)
    ensures Segments(s, sep, start, i, TOP) == [s[start..j + 1]] + Segments(s, sep, j + 1 + |sep|, j + 1 + |sep|, TOP)
  {
    SpaceStep(s, sep, j);
    PathThen(s, sep, i, j, j + 1, TOP, TOP, TOP);
    SegmentsCut(s, sep, start, i, j + 1);
  }

  lemma PathsAt(s: string, e: Entry)
    requires PrintableEntry(e) && At(s, 0, Print(e.key)) && |s| == |Print(e.key)| + 4 + |Print(e.value)|
    requires At(s, |Print(e.key)| + 4, Print(e.value)) && s[|Print(e.key)| + 3] == ' '
    ensures Mark(MAPS_TO)
    ensures Path(s, MAPS_TO, 0, |Print(e.key)|, TOP, TOP) && Path(s, MAPS_TO, |Print(e.key)| + 4, |s|, TOP, TOP)
  {
    SeparatorsAreMarks();
    OverPrint(s, MAPS_TO, 0, e.key, TOP);
    OverPrint(s, MAPS_TO, |Print(e.key)| + 4, e.value, TOP);
  }

  lemma SegmentsOfArrow(s: string, key: string, p: string)
    requires s == key + " :> " + p
    requires Path(s, MAPS_TO, 0, |key|, TOP, TOP) && Path(s, MAPS_TO, |key| + 4, |s|, TOP, TOP)
    ensures Mark(MAPS_TO) && Segments(s, MAPS_TO, 0, 0, TOP) == [key + [' '], [' '] + p]
  {
    ArrowAt(s, key, p);
    SegmentsOfMapped(s, |key|);
  }

  lemma SegmentsOfEntry(e: Entry)
    requires PrintableEntry(e)
    ensures Mark(MAPS_TO)
    ensures Segments(PrintEntry(e), MAPS_TO, 0, 0, TOP) == [Print(e.key) + [' '], [' '] + Print(e.value)]
  {
    var s, key, p := PrintEntry(e), Print(e.key), Print(e.value);
    assert At(s, 0, key + " :> " + p);
    AfterMark(s, 0, key, " :> ", p);
    PathsAt(s, e);
    SegmentsOfArrow(s, key, p);
  }

  lemma SplitEntry(e: Entry)
    requires PrintableEntry(e)
    ensures Mark(MAPS_TO) && Split(PrintEntry(e), MAPS_TO) == [Print(e.key), Print(e.value)]
  {
    SegmentsOfEntry(e);
    PrintIsNeat(e.key);
    PrintIsNeat(e.value);
    var key, p := Print(e.key), Print(e.value);
    StripPadded([], key, [' ']);
    StripPadded([' '], p, []);
    assert [] + key + [' '] == key + [' '] && [' '] + p + [] == [' '] + p;
  }

  function EntryTexts(entries: Entries): seq<string> {
    match entries
    case Last(e) => [PrintEntry(e)]
    case Also(e, rest) => [PrintEntry(e)] + EntryTexts(rest)
  }

  /** The pieces before stripping, the first one after `prefix`. */
  function PaddedEntries(prefix: string, entries: Entries): seq<string>
    decreases entries
  {
    match entries
    case Last(e) => [prefix + PrintEntry(e) + []]
    case Also(e, rest) => [prefix + PrintEntry(e) + [' ']] + PaddedEntries([' '], rest)
  }

  lemma SegmentsOfLastEntry(s: string, start: nat, i: nat, e: Entry)
    requires start <= i && PrintableEntry(e) && At(s, i, PrintEntry(e)) && i + |PrintEntry(e)| == |s|
    requires i > 0 ==> s[i - 1] != '\\'
    ensures Mark(MERGE) && Segments(s, MERGE, start, i, TOP) == [s[start..i] + PrintEntry(e) + []]
  {
    SeparatorsAreMarks();
    OverEntry(s, MERGE, i, e, TOP);
    SegmentsOfLast(s, MERGE, start, i, PrintEntry(e));
  }

  lemma {:induction false} SegmentsOfEntries(s: string, start: nat, i: nat, prefix: string, entries: Entries)
    requires PrintableEntries(entries) && start <= i <= |s| && s[start..i] == prefix
    requires At(s, i, PrintEntries(entries)) && i + |PrintEntries(entries)| == |s| && (i > 0 ==> s[i - 1] != '\\')
    ensures Mark(MERGE) && Segments(s, MERGE, start, i, TOP) == PaddedEntries(prefix, entries)
    decreases entries
  {
    if entries.Last? {
      SegmentsOfLastEntry(s, start, i, entries.entry);
    } else {
      var e, rest := entries.entry, PrintEntries(entries.rest);
      var j := i + |PrintEntry(e)|;
      AfterFirst(s, i, e, rest);
      SegmentsOfEntries(s, j + 3, j + 4, [' '], entries.rest);
      SegmentsOfFirst(s, start, i, e, rest);
    }
  }

  /** Where the entries after the first one start. */
  lemma AfterFirst(s: string, i: nat, e: Entry, rest: string)
    requires At(s, i, PrintEntry(e) + " @@ " + rest)
    ensures
      var j := i + |PrintEntry(e)|;
      j + 4 + |rest| <= |s| && At(s, j + 4, rest) && s[j + 3] == ' ' && s[j + 3..j + 4] == [' ']
  {
    AfterMark(s, i, PrintEntry(e), " @@ ", rest);
  }

  lemma SegmentsOfFirst(s: string, start: nat, i: nat, e: Entry, rest: string)
    requires start <= i && PrintableEntry(e) && At(s, i, PrintEntry(e) + " @@ " + rest) && (i > 0 ==> s[i - 1] != '\\')
    ensures Mark(MERGE)
    ensures
      var j := i + |PrintEntry(e)|;
      && j + 4 <= |s| && s[j + 3] == ' ' && s[j + 3..j + 4] == [' '] && At(s, j + 4, rest)
      && Segments(s, MERGE, start, i, TOP) == [s[start..i] + PrintEntry(e) + [' ']] + Segments(s, MERGE, j + 3, j + 4, TOP)
  {
    SeparatorsAreMarks();
    AfterMark(s, i, PrintEntry(e), " @@ ", rest);
    OverEntry(s, MERGE, i, e, TOP);
    SegmentsOfMerged(s, start, i, PrintEntry(e), rest);
  }

  /** The first entry of several is cut off at the merge operator. */
  lemma SegmentsOfMerged(s: string, start: nat, i: nat, first: string, rest: string)
    requires start <= i && At(s, i, first + " @@ " + rest) && Over(s, MERGE, i, first, TOP)
    ensures Mark(MERGE)
    ensures
      var j := i + |first|;
      && j + 4 <= |s| && s[j + 3..j + 4] == [' '] && At(s, j + 4, rest)
      && Segments(s, MERGE, start, i, TOP) == [s[start..i] + first + [' ']] + Segments(s, MERGE, j + 3, j + 4, TOP)
  {
    SeparatorsAreMarks();
    var j := i + |first|;
    AtThree(s, i, first, " @@ ", rest);
    MergeAt(s, j);
    SegmentsOverMark(s, MERGE, start, i, j);
    SlicesAppend(s, start, i, first);
  }

  /** A separator between two spaces: the scan cuts after the first and goes on after the second. */
  lemma SegmentsOverMark(s: string, sep: string, start: nat, i: nat, j: nat)
    requires Mark(sep) && start <= i <= j && Path(s, sep, i, j, TOP, TOP) && j + 1 + |sep| < |s|
    requires s[j] == ' ' && At(s, j + 1, sep) && s[j + 1 + |sep|] == ' '
    ensures
      var n := j + 1 + |sep|;
      Segments(s, sep, start, i, TOP) == [s[start..j + 1]] + Segments(s, sep, n, n + 1, TOP)
  {
    SegmentsAfterSpace(s, sep, start, i, j);
    SegmentsSpace(s, sep, j + 1 + |sep|);
  }

  lemma MergeAt(s: string, j: nat)
    requires At(s, j, " @@ ")
    ensures s[j] == ' ' && At(s, j + 1, MERGE) && s[j + 3] == ' ' && s[j + 3..j + 4] == [' ']
  {
    var four := " @@ ";
    AtChar(s, j, four, 0);
    AtChar(s, j, four, 1);
    AtChar(s, j, four, 2);
    AtChar(s, j, four, 3);
  }

  lemma SlicesAppend(s: string, start: nat, i: nat, first: string)
    requires start <= i && At(s, i, first) && i + |first| < |s| && s[i + |first|] == ' '
    ensures s[start..i + |first| + 1] == s[start..i] + first + [' ']
  {
    var j := i + |first|;
    assert s[start..j + 1] == s[start..i] + s[i..j] + [s[j]];
  }

  lemma {:induction false} StripPaddedEntries(prefix: string, entries: Entries)
    requires PrintableEntries(entries) && Pad(prefix)
    ensures StripAll(PaddedEntries(prefix, entries)) == EntryTexts(entries)
    decreases entries
  {
    var first := PrintEntry(entries.entry);
    EntryIsNeat(entries.entry);
    if entries.Last? {
      StripPadded(prefix, first, []);
    } else {
      StripPadded(prefix, first, [' ']);
      StripPaddedEntries([' '], entries.rest);
      StripAllCons(prefix + first + [' '], PaddedEntries([' '], entries.rest));
    }
  }

  lemma SplitEntries(entries: Entries)
    requires PrintableEntries(entries)
    ensures Separator(MERGE) && Split(PrintEntries(entries), MERGE) == EntryTexts(entries)
  {
    var s := PrintEntries(entries);
    SegmentsOfEntries(s, 0, 0, [], entries);
    StripPaddedEntries([], entries);
  }

  function MemberTexts(members: Values): seq<string> {
    match members
    case Nil => []
    case Cons(v, rest) => [Print(v)] + MemberTexts(rest)
  }

  function PaddedMembers(prefix: string, members: Values): seq<string>
    decreases members
  {
    match members
    case Nil => []
    case Cons(v, rest) => [prefix + Print(v) + []] + PaddedMembers([' '], rest)
  }

  lemma SegmentsOfFirstMember(s: string, start: nat, i: nat, v: Value, rest: string)
    requires start <= i && Printable(v) && At(s, i, Print(v) + ", " + rest) && (i > 0 ==> s[i - 1] != '\\')
    ensures Mark(COMMA)
    ensures
      var j := i + |Print(v)|;
      && j + 2 <= |s| && s[j + 1..j + 2] == [' '] && s[j + 1] == ' ' && At(s, j + 2, rest)
      && Segments(s, COMMA, start, i, TOP) == [s[start..i] + Print(v) + []] + Segments(s, COMMA, j + 1, j + 2, TOP)
  {
    SeparatorsAreMarks();
    AfterMark(s, i, Print(v), ", ", rest);
    OverPrint(s, COMMA, i, v, TOP);
    SegmentsOfListed(s, start, i, Print(v), rest);
  }

  lemma {:induction false} SegmentsOfMembers(s: string, start: nat, i: nat, prefix: string, members: Values)
    requires members.Cons? && PrintableMembers(members) && start <= i <= |s| && s[start..i] == prefix
    requires At(s, i, PrintMembers(members)) && i + |PrintMembers(members)| == |s| && (i > 0 ==> s[i - 1] != '\\')
    ensures Mark(COMMA) && Segments(s, COMMA, start, i, TOP) == PaddedMembers(prefix, members)
    decreases members
  {
    SeparatorsAreMarks();
    var v := members.head;
    if members.tail.Nil? {
      OverPrint(s, COMMA, i, v, TOP);
      SegmentsOfLast(s, COMMA, start, i, Print(v));
    } else {
      var j := i + |Print(v)|;
      SegmentsOfFirstMember(s, start, i, v, PrintMembers(members.tail));
      SegmentsOfMembers(s, j + 1, j + 2, [' '], members.tail);
    }
  }

  /** The first member of several is cut off at the comma. */
  lemma SegmentsOfListed(s: string, start: nat, i: nat, first: string, rest: string)
    requires start <= i && At(s, i, first + ", " + rest) && Over(s, COMMA, i, first, TOP)
    ensures Mark(COMMA)
    ensures
      var j := i + |first|;
      && j + 2 <= |s| && s[j + 1..j + 2] == [' '] && s[j + 1] == ' ' && At(s, j + 2, rest)
      && Segments(s, COMMA, start, i, TOP) == [s[start..i] + first + []] + Segments(s, COMMA, j + 1, j + 2, TOP)
  {
    SeparatorsAreMarks();
    var j := i + |first|;
    AtThree(s, i, first, ", ", rest);
    CommaAt(s, j);
    SegmentsCut(s, COMMA, start, i, j);
    SegmentsSpace(s, COMMA, j + 1);
    SliceTo(s, start, i, first);
  }

  lemma CommaAt(s: string, j: nat)
    requires At(s, j, ", ")
    ensures At(s, j, COMMA) && s[j + 1] == ' ' && s[j + 1..j + 2] == [' ']
  {
    var two := ", ";
    AtChar(s, j, two, 0);
    AtChar(s, j, two, 1);
  }

  lemma SliceTo(s: string, start: nat, i: nat, first: string)
    requires start <= i && At(s, i, first)
    ensures s[start..i + |first|] == s[start..i] + first + []
  {
    assert s[i..i + |first|] == first;
    assert s[start..i + |first|] == s[start..i] + s[i..i + |first|];
  }

  lemma {:induction false} StripPaddedMembers(prefix: string, members: Values)
    requires PrintableMembers(members) && Pad(prefix)
    ensures StripAll(PaddedMembers(prefix, members)) == MemberTexts(members)
    decreases members
  {
    if members.Cons? {
      PrintIsNeat(members.head);
      StripPadded(prefix, Print(members.head), []);
      StripPaddedMembers([' '], members.tail);
      StripAllCons(prefix + Print(members.head) + [], PaddedMembers([' '], members.tail));
    }
  }

  lemma {:induction false} TextsAreTheMembers(members: Values, m: string)
    requires PrintableMembers(members)
    ensures m in Texts(members) <==> m in MemberTexts(members)
    ensures m in MemberTexts(members) ==> m != []
  {
    if members.Cons? {
      PrintIsNeat(members.head);
      TextsAreTheMembers(members.tail, m);
    }
  }

  lemma SplitMembers(members: Values)
    requires PrintableMembers(members)
    ensures Separator(COMMA)
    ensures (set m | m in Split(PrintMembers(members), COMMA) && m != []) == Texts(members)
  {
    SeparatorsAreMarks();
    var s := PrintMembers(members);
    if members.Nil? {
      assert Split(s, COMMA) == [[]];
    } else {
      SegmentsOfMembers(s, 0, 0, [], members);
      StripPaddedMembers([], members);
      forall m ensures m in Texts(members) <==> m in MemberTexts(members) && m != [] {
        TextsAreTheMembers(members, m);
      }
    }
  }

  // --------------------------------------------------------------------- parsing

  lemma NoArrowInWord(w: string)
    requires Word(w)
    ensures !Contains(w, MAPS_TO)
  {
    forall i | 0 <= i <= |w| ensures !At(w, i, MAPS_TO) {
      if At(w, i, MAPS_TO) {
        AtChar(w, i, MAPS_TO, 0);
      }
    }
  }

  lemma NoArrowInQuotes(text: string)
    requires PlainText(text)
    ensures !Contains("\"" + text + "\"", MAPS_TO)
  {
    var s := "\"" + text + "\"";
    forall i: nat | i <= |s| ensures !At(s, i, MAPS_TO) {
      if At(s, i, MAPS_TO) {
        AtChar(s, i, MAPS_TO, 0);
        AtChar(s, i, MAPS_TO, 1);
        assert text[i - 1..i + 1] == MAPS_TO;
        assert At(text, i - 1, MAPS_TO);
      }
    }
  }

  lemma ArrowInEntries(entries: Entries)
    ensures Contains(PrintEntries(entries), MAPS_TO)
  {
    var s, first, key := PrintEntries(entries), PrintEntry(entries.entry), Print(entries.entry.key);
    var k := |key| + 1;
    ArrowAt(first, key, Print(entries.entry.value));
    assert s[k..k + 2] == first[k..k + 2];
    assert At(s, k, MAPS_TO);
  }

  /** A scalar is one piece: it holds no merge operator outside quotes. */
  lemma ScalarIsOnePiece(v: Value)
    requires Printable(v) && (v.Ident? || v.Quoted?)
    ensures Separator(MERGE) && |Split(Print(v), MERGE)| == 1
  {
    SeparatorsAreMarks();
    var s := Print(v);
    assert At(s, 0, s);
    OverPrint(s, MERGE, 0, v, TOP);
    SegmentsAlong(s, MERGE, 0, 0, |s|, TOP, TOP);
  }

  /** A function whose first argument and last result are sets: without its parentheses it looks
      like one set. */
  predicate LooksLikeSet(entries: Entries) {
    entries.entry.key.Group? && LastValue(entries).Group?
  }

  /** No function among the results is mistaken for a set. */
  predicate Readable(v: Value) {
    v.Func? ==> !LooksLikeSet(v.entries) && ReadableResults(v.entries)
  }

  predicate ReadableResults(entries: Entries) {
    Readable(entries.entry.value) && (entries.Also? ==> ReadableResults(entries.rest))
  }

  /** What parsing the results of each entry gives. */
  function ReadOf(entries: Entries, found: map<string, Parsed>): map<string, Parsed> {
    var more := found[Print(entries.entry.key) := Parse(Print(entries.entry.value))];
    if entries.Last? then more else ReadOf(entries.rest, more)
  }

  lemma {:induction false} ParseOfEntries(entries: Entries, found: map<string, Parsed>, size: nat)
    requires PrintableEntries(entries) && found.Keys !! Keys(entries)
    requires forall k :: 0 <= k < |EntryTexts(entries)| ==> |EntryTexts(entries)[k]| <= size
    ensures ParseEntries(EntryTexts(entries), found, size) == Parsing(ReadOf(entries, found))
    decreases entries
  {
    SplitEntry(entries.entry);
    if entries.Also? {
      var texts := EntryTexts(entries);
      assert texts[1..] == EntryTexts(entries.rest);
      ParseOfEntries(entries.rest, found[Print(entries.entry.key) := Parse(Print(entries.entry.value))], size);
    }
  }

  /** The two ways a text with an arrow is read. */
  lemma ParseBraced(text: string, value: string)
    requires StripOuter(Normalized(text)) == value && Between(value, '{', '}')
    ensures Parse(text).Members?
  {
  }

  lemma ParseMapped(text: string, value: string, m: map<string, Parsed>)
    requires StripOuter(Normalized(text)) == value && !Between(value, '{', '}') && Contains(value, MAPS_TO)
    requires Separator(MERGE) && Fit(Split(value, MERGE), |value|)
    requires ParseEntries(Split(value, MERGE), map[], |value|) == Parsing(m)
    ensures Parse(text) == Mapping(m)
  {
  }

  lemma BracesTell(entries: Entries)
    requires PrintableEntries(entries)
    ensures Between(PrintEntries(entries), '{', '}') <==> LooksLikeSet(entries)
  {
    EntriesEnds(entries);
    PrintEdges(entries.entry.key);
    LastIsPrintable(entries);
    PrintEdges(LastValue(entries));
  }

  lemma ParseOfFunc(entries: Entries)
    requires PrintableEntries(entries)
    ensures LooksLikeSet(entries) ==> Parse(Print(Func(entries))).Members?
    ensures !LooksLikeSet(entries) ==> Parse(Print(Func(entries))) == Mapping(ReadOf(entries, map[]))
  {
    var text, value := Print(Func(entries)), PrintEntries(entries);
    CoreOfFunc(entries);
    BracesTell(entries);
    if LooksLikeSet(entries) {
      ParseBraced(text, value);
    } else {
      ArrowInEntries(entries);
      SplitEntries(entries);
      SplitFits(value, MERGE);
      ParseOfEntries(entries, map[], |value|);
      ParseMapped(text, value, ReadOf(entries, map[]));
    }
  }

  lemma {:induction false} LastIsPrintable(entries: Entries)
    requires PrintableEntries(entries)
    ensures Printable(LastValue(entries))
  {
    if entries.Also? {
      LastIsPrintable(entries.rest);
    }
  }

  lemma ParseOfOthers(v: Value)
    requires Printable(v) && !v.Func?
    ensures Parse(Print(v)) == Meaning(v)
  {
    CoreOfPrint(v);
    match v
    case Ident(name) =>
      NoArrowInWord(name);
      ScalarIsOnePiece(v);
    case Quoted(text) =>
      NoArrowInQuotes(text);
      ScalarIsOnePiece(v);
      assert Inner(Print(v)) == text;
    case Group(members) =>
      SplitMembers(members);
      assert Inner(Print(v)) == PrintMembers(members);
  }

  /** Later entries leave a finished key alone. */
  lemma {:induction false} OthersKeep(entries: Entries, read: map<string, Parsed>, meant: map<string, Parsed>, key: string)
    requires key !in Keys(entries) && key in read && key in meant
    ensures key in ReadOf(entries, read) && ReadOf(entries, read)[key] == read[key]
    ensures key in MeaningOf(entries, meant) && MeaningOf(entries, meant)[key] == meant[key]
    decreases entries
  {
    if entries.Also? {
      var e := entries.entry;
      OthersKeep(entries.rest, read[Print(e.key) := Parse(Print(e.value))], meant[Print(e.key) := Meaning(e.value)], key);
    }
  }

  /** A printed value parses to what it stands for exactly when no function in it, followed
      through results, has a set as its first argument and as its last result. */
  lemma {:induction false} ParseUndoesPrintIff(v: Value)
    requires Printable(v)
    ensures Parse(Print(v)) == Meaning(v) <==> Readable(v)
    decreases v
  {
    if v.Func? {
      ParseOfFunc(v.entries);
      if !LooksLikeSet(v.entries) {
        ResultsIff(v.entries, map[]);
      }
    } else {
      ParseOfOthers(v);
    }
  }

  lemma {:induction false} ResultsIff(entries: Entries, found: map<string, Parsed>)
    requires PrintableEntries(entries)
    ensures ReadOf(entries, found) == MeaningOf(entries, found) <==> ReadableResults(entries)
    decreases entries
  {
    var e := entries.entry;
    var key := Print(e.key);
    var read, meant := found[key := Parse(Print(e.value))], found[key := Meaning(e.value)];
    ParseUndoesPrintIff(e.value);
    if entries.Last? {
      assert read[key] == Parse(Print(e.value)) && meant[key] == Meaning(e.value);
    } else {
      OthersKeep(entries.rest, read, meant, key);
      if Readable(e.value) {
        ResultsIff(entries.rest, read);
      }
    }
  }

  function Single(name: string): Value {
    Group(Cons(Ident(name), Nil))
  }

  lemma PrintSingle(name: string)
    requires Word(name)
    ensures Printable(Single(name)) && Print(Single(name)) == "{" + name + "}"
  {
    var members := Cons(Ident(name), Nil);
    assert PrintableMembers(Nil);
    assert PrintableMembers(members);
    assert PrintMembers(members) == Print(Ident(name)) == name;
  }

  /** The smallest misreadings: a function from one singleton set to another. */
  lemma SetKeyIsMisread(a: string, b: string)
    requires Word(a) && Word(b)
    ensures
      var f := Func(Last(Entry(Single(a), Single(b))));
      && Printable(f) && Print(f) == "(" + ("{" + a + "}" + " :> " + ("{" + b + "}")) + ")"
      && Parse(Print(f)).Members? && Meaning(f).Mapping?
  {
    PrintSingle(a);
    PrintSingle(b);
    var e := Entry(Single(a), Single(b));
    assert PrintEntries(Last(e)) == PrintEntry(e);
    ParseOfFunc(Last(e));
  }
}
