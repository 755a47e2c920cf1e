/** Parsing printed TLA+ values (run_tlc_expected_witness.py, `_parse_tla_value`), and the
    printer it undoes.
 */
module TlaValues {
  import opened TlaText

  // -------------------------------------------------------------------- parsing

  datatype Parsed =
    | Scalar(text: string)
    | Members(members: set<string>)
    | Mapping(entries: map<string, Parsed>)

  datatype Attempt = Failed | Parsing(entries: map<string, Parsed>)

  const COMMA := ","
  const MERGE := "@@"
  const MAPS_TO := ":>"

  predicate Contains(s: string, part: string) {
    exists i :: 0 <= i <= |s| && At(s, i, part)
  }

  predicate Between(s: string, first: char, last: char) {
    s != [] && s[0] == first && s[|s| - 1] == last
  }

  /** `s[1:-1]`. */
  function Inner(s: string): (t: string)
    ensures |t| <= |s|
  {
    if |s| < 2 then [] else s[1..|s| - 1]
  }

  function Parse(text: string): Parsed
    decreases |text|, 1, 0
  {
    var value := StripOuter(Normalized(text));
    if Between(value, '{', '}') then Members(set m | m in Split(Inner(value), COMMA) && m != [])
    else
      SplitFits(value, MERGE);
      var entries := Split(value, MERGE);
      if |entries| > 1 || Contains(value, MAPS_TO) then
        match ParseEntries(entries, map[], |value|)
        case Failed => Scalar(value)
        case Parsing(m) => Mapping(m)
      else if Between(value, '"', '"') then Scalar(Inner(value))
      else Scalar(value)
  }

  function ParseEntries(entries: seq<string>, found: map<string, Parsed>, size: nat): Attempt
    requires forall k :: 0 <= k < |entries| ==> |entries[k]| <= size
    decreases size, 0, |entries|
  {
    if entries == [] then Parsing(found)
    else
      SplitFits(entries[0], MAPS_TO);
      var pair := Split(entries[0], MAPS_TO);
      if |pair| != 2 || pair[0] in found then Failed
      else ParseEntries(entries[1..], found[pair[0] := Parse(pair[1])], size)
  }

  // ------------------------------------------------------------------- printing

  datatype Value =
    | Ident(name: string)
    | Quoted(text: string)
    | Group(members: Values)
    | Func(entries: Entries)

  datatype Values = Nil | Cons(head: Value, tail: Values)

  datatype Entry = Entry(key: Value, value: Value)

  /** At least one entry: the empty function prints as the empty tuple. */
  datatype Entries = Last(entry: Entry) | Also(entry: Entry, rest: Entries)

  function Print(v: Value): string {
    match v
    case Ident(name) => name
    case Quoted(text) => "\"" + text + "\""
    case Group(members) => "{" + PrintMembers(members) + "}"
    case Func(entries) => "(" + PrintEntries(entries) + ")"
  }

  function PrintMembers(members: Values): string {
    match members
    case Nil => ""
    case Cons(v, rest) => if rest.Nil? then Print(v) else Print(v) + ", " + PrintMembers(rest)
  }

  function PrintEntry(e: Entry): string {
    Print(e.key) + " :> " + Print(e.value)
  }

  function PrintEntries(entries: Entries): string {
    match entries
    case Last(e) => PrintEntry(e)
    case Also(e, rest) => PrintEntry(e) + " @@ " + PrintEntries(rest)
  }

  /** What a printed value stands for.  Set members and function arguments stay text. */
  function Meaning(v: Value): Parsed {
    match v
    case Ident(name) => Scalar(name)
    case Quoted(text) => Scalar(text)
    case Group(members) => Members(Texts(members))
    case Func(entries) => Mapping(MeaningOf(entries, map[]))
  }

  function Texts(members: Values): set<string> {
    match members
    case Nil => {}
    case Cons(v, rest) => {Print(v)} + Texts(rest)
  }

  function MeaningOf(entries: Entries, found: map<string, Parsed>): map<string, Parsed> {
    match entries
    case Last(e) => found[Print(e.key) := Meaning(e.value)]
    case Also(e, rest) => MeaningOf(rest, found[Print(e.key) := Meaning(e.value)])
  }

  // -------------------------------------------------- what the printer must respect

  predicate WordChar(c: char) {
    && !IsSpace(c) && !Structural(c) && c != '"' && c != '\\' && c != '<' && c != '>'
    && c != ',' && c != '@' && c != ':'
  }

  predicate Word(s: string) {
    s != [] && forall i :: 0 <= i < |s| ==> WordChar(s[i])
  }

  predicate TextChar(c: char) {
    !IsSpace(c) && c != '"' && c != '\\' && c != '(' && c != ')'
  }

  predicate PlainText(s: string) {
    (forall i :: 0 <= i < |s| ==> TextChar(s[i])) && !Contains(s, MAPS_TO)
  }

  predicate Printable(v: Value) {
    match v
    case Ident(name) => Word(name)
    case Quoted(text) => PlainText(text)
    case Group(members) => PrintableMembers(members)
    case Func(entries) => PrintableEntries(entries)
  }

  predicate PrintableMembers(members: Values) {
    members.Cons? ==> Printable(members.head) && PrintableMembers(members.tail)
  }

  function Keys(entries: Entries): set<string> {
    {Print(entries.entry.key)} + if entries.Also? then Keys(entries.rest) else {}
  }

  predicate PrintableEntry(e: Entry) {
    Printable(e.key) && Printable(e.value)
  }

  predicate PrintableEntries(entries: Entries) {
    && PrintableEntry(entries.entry)
    && (entries.Also? ==> Print(entries.entry.key) !in Keys(entries.rest) && PrintableEntries(entries.rest))
  }

  // ---------------------------------------------------------- printed text is neat

  lemma NeatGlue(a: string, b: string)
    requires Neat(a) && Neat(b)
    ensures Neat(a + b)
  {
    var s := a + b;
    forall i | 0 <= i < |s| - 1 && IsSpace(s[i]) ensures s[i] == ' ' && !IsSpace(s[i + 1]) {
      if i < |a| {
        assert s[i] == a[i];
      } else {
        assert s[i] == b[i - |a|];
      }
    }
  }

  lemma NeatSpace(a: string, b: string)
    requires Neat(a) && Neat(b)
    ensures Neat(a + [' '] + b)
  {
    var s := a + [' '] + b;
    forall i | 0 <= i < |s| - 1 && IsSpace(s[i]) ensures s[i] == ' ' && !IsSpace(s[i + 1]) {
      if i < |a| {
        assert s[i] == a[i];
      } else if i == |a| {
        assert s[i + 1] == b[0];
      } else {
        assert s[i] == b[i - |a| - 1];
      }
    }
  }

  lemma NeatChars(s: string)
    requires s != [] && forall i :: 0 <= i < |s| ==> !IsSpace(s[i])
    ensures Neat(s)
  {
  }

  lemma {:induction false} PrintIsNeat(v: Value)
    requires Printable(v)
    ensures Neat(Print(v))
  {
    match v
    case Ident(name) => NeatChars(name);
    case Quoted(text) => NeatChars(Print(v));
    case Group(members) =>
      if members.Nil? {
        assert Print(v) == "{}";
      } else {
        MembersAreNeat(members);
        NeatGlue("{", PrintMembers(members));
        NeatGlue("{" + PrintMembers(members), "}");
      }
    case Func(entries) =>
      EntriesAreNeat(entries);
      NeatGlue("(", PrintEntries(entries));
      NeatGlue("(" + PrintEntries(entries), ")");
  }

  lemma {:induction false} MembersAreNeat(members: Values)
    requires PrintableMembers(members) && members.Cons?
    ensures Neat(PrintMembers(members))
  {
    PrintIsNeat(members.head);
    if members.tail.Cons? {
      var first, rest := Print(members.head), PrintMembers(members.tail);
      MembersAreNeat(members.tail);
      NeatGlue(first, ",");
      NeatSpace(first + ",", rest);
      assert first + ", " + rest == (first + ",") + [' '] + rest;
    }
  }

  lemma {:induction false} EntryIsNeat(e: Entry)
    requires PrintableEntry(e)
    ensures Neat(PrintEntry(e))
  {
    var key, value := Print(e.key), Print(e.value);
    PrintIsNeat(e.key);
    PrintIsNeat(e.value);
    NeatSpace(key, ":>");
    NeatSpace(key + [' '] + ":>", value);
    assert PrintEntry(e) == (key + [' '] + ":>") + [' '] + value;
  }

  lemma {:induction false} EntriesAreNeat(entries: Entries)
    requires PrintableEntries(entries)
    ensures Neat(PrintEntries(entries))
  {
    EntryIsNeat(entries.entry);
    if entries.Also? {
      var first, rest := PrintEntry(entries.entry), PrintEntries(entries.rest);
      EntriesAreNeat(entries.rest);
      NeatSpace(first, "@@");
      NeatSpace(first + [' '] + "@@", rest);
      assert first + " @@ " + rest == (first + [' '] + "@@") + [' '] + rest;
    }
  }

  // --------------------------------------------------- scanning over printed values

  /** Occurrences split where the text does. */
  lemma AtSplit(s: string, i: nat, a: string, b: string)
    requires At(s, i, a + b)
    ensures At(s, i, a) && At(s, i + |a|, b)
  {
    var part := s[i..i + |a| + |b|];
    assert part == a + b;
    assert s[i..i + |a|] == part[..|a|];
    assert s[i + |a|..i + |a| + |b|] == part[|a|..];
  }

  lemma AtChar(s: string, i: nat, part: string, k: nat)
    requires At(s, i, part) && k < |part|
    ensures s[i + k] == part[k]
  {
    assert s[i..i + |part|][k] == part[k];
  }

  /** Counters are never below the level they are compared with. */
  predicate Level(d: Depth) {
    d.parens >= 0 && d.braces >= 0 && d.tuples >= 0 && !d.quoted
  }

  predicate Mark(sep: string) {
    Separator(sep) && (sep[0] == ',' || sep[0] == '@' || sep[0] == ':')
  }

  lemma PathPlain(s: string, sep: string, i: nat, d: Depth)
    requires i < |s| && Separator(sep) && !d.quoted && s[i] != '"' && !Structural(s[i])
    requires s[i] != '<' && !Doubled(s, i, '>') && (d == TOP ==> s[i] != sep[0])
    ensures Path(s, sep, i, i + 1, d, d)
  {
    if Cuts(s, sep, i, d) {
      SeparatorIsPlain(s, sep, i);
    }
  }

  lemma {:induction false} PathWord(s: string, sep: string, i: nat, w: string, d: Depth)
    requires Mark(sep) && !d.quoted && At(s, i, w) && forall k :: 0 <= k < |w| ==> WordChar(w[k])
    ensures Path(s, sep, i, i + |w|, d, d)
    decreases |w|
  {
    if w != [] {
      AtChar(s, i, w, 0);
      PathPlain(s, sep, i, d);
      assert w == [w[0]] + w[1..];
      AtSplit(s, i, [w[0]], w[1..]);
      PathWord(s, sep, i + 1, w[1..], d);
      PathThen(s, sep, i, i + 1, i + |w|, d, d, d);
    }
  }

  lemma {:induction false} PathText(s: string, sep: string, i: nat, text: string, d: Depth)
    requires d.quoted && At(s, i, text) && forall k :: 0 <= k < |text| ==> text[k] != '"'
    ensures Path(s, sep, i, i + |text|, d, d)
    decreases |text|
  {
    if text != [] {
      AtChar(s, i, text, 0);
      assert text == [text[0]] + text[1..];
      AtSplit(s, i, [text[0]], text[1..]);
      PathText(s, sep, i + 1, text[1..], d);
    }
  }

  lemma PathQuoted(s: string, sep: string, i: nat, text: string, d: Depth)
    requires Separator(sep) && !d.quoted && PlainText(text) && At(s, i, "\"" + text + "\"")
    requires i > 0 ==> s[i - 1] != '\\'
    ensures Path(s, sep, i, i + |text| + 2, d, d)
  {
    var q := d.(quoted := true);
    AtSplit(s, i, "\"" + text, "\"");
    AtSplit(s, i, "\"", text);
    AtChar(s, i, "\"", 0);
    var j := i + 1 + |text|;
    AtChar(s, j, "\"", 0);
    if Cuts(s, sep, i, d) {
      SeparatorIsPlain(s, sep, i);
    }
    PathText(s, sep, i + 1, text, q);
    if text != [] {
      AtChar(s, i + 1, text, |text| - 1);
    }
    assert Unescaped(s, j);
    assert Path(s, sep, j, j + 1, q, d);
    PathThen(s, sep, i + 1, j, j + 1, q, q, d);
  }

  lemma PathBracket(s: string, sep: string, i: nat, d: Depth)
    requires i < |s| && Separator(sep) && !d.quoted && Structural(s[i])
    ensures Path(s, sep, i, i + 1, d, Next(s, i, d).1)
  {
    if Cuts(s, sep, i, d) {
      SeparatorIsPlain(s, sep, i);
    }
  }

  /** The scanner passes over `part` at `i` and is back at the depth it came with. */
  predicate Over(s: string, sep: string, i: nat, part: string, d: Depth) {
    At(s, i, part) && Path(s, sep, i, i + |part|, d, d)
  }

  lemma OverThen(s: string, sep: string, i: nat, a: string, b: string, d: Depth)
    requires At(s, i, a + b) && Over(s, sep, i, a, d) && Over(s, sep, i + |a|, b, d)
    ensures Over(s, sep, i, a + b, d)
  {
    PathThen(s, sep, i, i + |a|, i + |a| + |b|, d, d, d);
  }

  lemma AtThree(s: string, i: nat, a: string, b: string, c: string)
    requires At(s, i, a + b + c)
    ensures At(s, i, a) && At(s, i + |a|, b) && At(s, i + |a| + |b|, c)
  {
    AtSplit(s, i, a + b, c);
    AtSplit(s, i, a, b);
  }

  /** What surrounds a mark that ends with a space. */
  lemma AfterMark(s: string, i: nat, a: string, mark: string, b: string)
    requires At(s, i, a + mark + b) && mark != [] && mark[|mark| - 1] == ' '
    ensures At(s, i, a) && At(s, i + |a| + |mark|, b) && s[i + |a| + |mark| - 1] == ' '
  {
    AtThree(s, i, a, mark, b);
    AtChar(s, i + |a|, mark, |mark| - 1);
  }

  lemma OverThree(s: string, sep: string, i: nat, a: string, b: string, c: string, d: Depth)
    requires At(s, i, a + b + c)
    requires Over(s, sep, i, a, d) && Over(s, sep, i + |a|, b, d) && Over(s, sep, i + |a| + |b|, c, d)
    ensures Over(s, sep, i, a + b + c, d)
  {
    AtSplit(s, i, a + b, c);
    OverThen(s, sep, i, a, b, d);
    OverThen(s, sep, i, a + b, c, d);
  }

  lemma OverBrackets(s: string, sep: string, i: nat, open: char, body: string, close: char, d: Depth, inside: Depth)
    requires Separator(sep) && !d.quoted && !inside.quoted && At(s, i, [open] + body + [close])
    requires Structural(open) && Structural(close) && Over(s, sep, i + 1, body, inside)
    requires Next([open], 0, d).1 == inside && Next([close], 0, inside).1 == d
    ensures Over(s, sep, i, [open] + body + [close], d)
  {
    var j := i + 1 + |body|;
    AtChar(s, i, [open] + body + [close], 0);
    AtChar(s, i, [open] + body + [close], 1 + |body|);
    PathBracket(s, sep, i, d);
    PathBracket(s, sep, j, inside);
    PathThen(s, sep, i, i + 1, j, d, inside, inside);
    PathThen(s, sep, i, j, j + 1, d, inside, d);
  }

  /** The scanner passes over a printed value. */
  lemma {:induction false} OverPrint(s: string, sep: string, i: nat, v: Value, d: Depth)
    requires Mark(sep) && Level(d) && Printable(v) && At(s, i, Print(v)) && (i > 0 ==> s[i - 1] != '\\')
    ensures Over(s, sep, i, Print(v), d)
    decreases v
  {
    match v
    case Ident(name) => PathWord(s, sep, i, name, d);
    case Quoted(text) => PathQuoted(s, sep, i, text, d);
    case Group(members) => OverGroup(s, sep, i, members, d);
    case Func(entries) => OverFunc(s, sep, i, entries, d);
  }

  lemma {:induction false} OverGroup(s: string, sep: string, i: nat, members: Values, d: Depth)
    requires Mark(sep) && Level(d) && PrintableMembers(members) && At(s, i, ['{'] + PrintMembers(members) + ['}'])
    ensures Over(s, sep, i, ['{'] + PrintMembers(members) + ['}'], d)
    decreases members, 1
  {
    var inside, body := d.(braces := d.braces + 1), PrintMembers(members);
    AtThree(s, i, ['{'], body, ['}']);
    AtChar(s, i, ['{'], 0);
    OverMembers(s, sep, i + 1, members, inside);
    OverBrackets(s, sep, i, '{', body, '}', d, inside);
  }

  lemma {:induction false} OverFunc(s: string, sep: string, i: nat, entries: Entries, d: Depth)
    requires Mark(sep) && Level(d) && PrintableEntries(entries) && At(s, i, ['('] + PrintEntries(entries) + [')'])
    ensures Over(s, sep, i, ['('] + PrintEntries(entries) + [')'], d)
    decreases entries, 1
  {
    var inside, body := d.(parens := d.parens + 1), PrintEntries(entries);
    AtThree(s, i, ['('], body, [')']);
    AtChar(s, i, ['('], 0);
    OverEntries(s, sep, i + 1, entries, inside);
    OverBrackets(s, sep, i, '(', body, ')', d, inside);
  }

  lemma OverComma(s: string, sep: string, i: nat, d: Depth)
    requires Mark(sep) && !d.quoted && d != TOP && At(s, i, ", ")
    ensures Over(s, sep, i, ", ", d) && s[i + 1] == ' '
  {
    AtChar(s, i, ", ", 0);
    AtChar(s, i, ", ", 1);
    PathPlain(s, sep, i, d);
    PathPlain(s, sep, i + 1, d);
    PathThen(s, sep, i, i + 1, i + 2, d, d, d);
  }

  lemma OverListed(s: string, sep: string, i: nat, first: string, rest: string, d: Depth)
    requires Mark(sep) && !d.quoted && d != TOP && At(s, i, first + ", " + rest)
    requires Over(s, sep, i, first, d) && Over(s, sep, i + |first| + 2, rest, d)
    ensures Over(s, sep, i, first + ", " + rest, d)
  {
    AtThree(s, i, first, ", ", rest);
    OverComma(s, sep, i + |first|, d);
    OverThree(s, sep, i, first, ", ", rest, d);
  }

  lemma {:induction false} OverMembers(s: string, sep: string, i: nat, members: Values, d: Depth)
    requires Mark(sep) && Level(d) && d != TOP && PrintableMembers(members)
    requires At(s, i, PrintMembers(members)) && (i > 0 ==> s[i - 1] != '\\')
    ensures Over(s, sep, i, PrintMembers(members), d)
    decreases members, 0
  {
    if members.Cons? {
      var first, rest := Print(members.head), PrintMembers(members.tail);
      if members.tail.Nil? {
        OverPrint(s, sep, i, members.head, d);
      } else {
        AfterMark(s, i, first, ", ", rest);
        OverPrint(s, sep, i, members.head, d);
        OverMembers(s, sep, i + |first| + 2, members.tail, d);
        OverListed(s, sep, i, first, rest, d);
      }
    }
  }

  lemma OverFour(s: string, sep: string, i: nat, part: string, d: Depth)
    requires |part| == 4 && At(s, i, part) && Path(s, sep, i, i + 1, d, d) && Path(s, sep, i + 1, i + 2, d, d)
    requires Path(s, sep, i + 2, i + 3, d, d) && Path(s, sep, i + 3, i + 4, d, d)
    ensures Over(s, sep, i, part, d)
  {
    PathThen(s, sep, i, i + 1, i + 2, d, d, d);
    PathThen(s, sep, i, i + 2, i + 3, d, d, d);
    PathThen(s, sep, i, i + 3, i + 4, d, d, d);
  }

  /** The arrow between a key and its value, where it is not the separator looked for. */
  lemma OverArrow(s: string, sep: string, i: nat, d: Depth)
    requires Mark(sep) && !d.quoted && At(s, i, " :> ") && (d == TOP ==> sep[0] != ':')
    ensures Over(s, sep, i, " :> ", d) && s[i + 3] == ' '
  {
    AtChar(s, i, " :> ", 0);
    AtChar(s, i, " :> ", 1);
    AtChar(s, i, " :> ", 2);
    AtChar(s, i, " :> ", 3);
    PathPlain(s, sep, i, d);
    PathPlain(s, sep, i + 1, d);
    PathPlain(s, sep, i + 2, d);
    PathPlain(s, sep, i + 3, d);
    OverFour(s, sep, i, " :> ", d);
  }

  lemma OverMerge(s: string, sep: string, i: nat, d: Depth)
    requires Mark(sep) && !d.quoted && d != TOP && At(s, i, " @@ ")
    ensures Over(s, sep, i, " @@ ", d)
  {
    AtChar(s, i, " @@ ", 0);
    AtChar(s, i, " @@ ", 1);
    AtChar(s, i, " @@ ", 2);
    AtChar(s, i, " @@ ", 3);
    PathPlain(s, sep, i, d);
    PathPlain(s, sep, i + 1, d);
    PathPlain(s, sep, i + 2, d);
    PathPlain(s, sep, i + 3, d);
    OverFour(s, sep, i, " @@ ", d);
  }

  lemma OverMapped(s: string, sep: string, i: nat, key: string, p: string, d: Depth)
    requires Mark(sep) && !d.quoted && At(s, i, key + " :> " + p) && (d == TOP ==> sep[0] != ':')
    requires Over(s, sep, i, key, d) && Over(s, sep, i + |key| + 4, p, d)
    ensures Over(s, sep, i, key + " :> " + p, d)
  {
    AtThree(s, i, key, " :> ", p);
    OverArrow(s, sep, i + |key|, d);
    OverThree(s, sep, i, key, " :> ", p, d);
  }

  lemma {:induction false} OverEntry(s: string, sep: string, i: nat, e: Entry, d: Depth)
    requires Mark(sep) && Level(d) && PrintableEntry(e) && At(s, i, PrintEntry(e)) && (i > 0 ==> s[i - 1] != '\\')
    requires d == TOP ==> sep[0] != ':'
    ensures Over(s, sep, i, PrintEntry(e), d)
    decreases e
  {
    var key := Print(e.key);
    AfterMark(s, i, key, " :> ", Print(e.value));
    OverPrint(s, sep, i, e.key, d);
    OverPrint(s, sep, i + |key| + 4, e.value, d);
    OverMapped(s, sep, i, key, Print(e.value), d);
  }

  lemma OverMerged(s: string, sep: string, i: nat, first: string, rest: string, d: Depth)
    requires Mark(sep) && !d.quoted && d != TOP && At(s, i, first + " @@ " + rest)
    requires Over(s, sep, i, first, d) && Over(s, sep, i + |first| + 4, rest, d)
    ensures Over(s, sep, i, first + " @@ " + rest, d)
  {
    AtThree(s, i, first, " @@ ", rest);
    OverMerge(s, sep, i + |first|, d);
    OverThree(s, sep, i, first, " @@ ", rest, d);
  }

  lemma {:induction false} OverEntries(s: string, sep: string, i: nat, entries: Entries, d: Depth)
    requires Mark(sep) && Level(d) && d != TOP && PrintableEntries(entries)
    requires At(s, i, PrintEntries(entries)) && (i > 0 ==> s[i - 1] != '\\')
    ensures Over(s, sep, i, PrintEntries(entries), d)
    decreases entries, 0
  {
    if entries.Last? {
      OverEntry(s, sep, i, entries.entry, d);
    } else {
      var first, rest := PrintEntry(entries.entry), PrintEntries(entries.rest);
      AfterMark(s, i, first, " @@ ", rest);
      OverEntry(s, sep, i, entries.entry, d);
      OverEntries(s, sep, i + |first| + 4, entries.rest, d);
      OverMerged(s, sep, i, first, rest, d);
    }
  }
}
