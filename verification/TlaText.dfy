/** The text scanning of TLA+ values printed by the model checker
    (run_tlc_expected_witness.py, `_normalized`, `_strip_outer_parentheses` and
    `_split_top_level`).
 */
module TlaText {

  /** Characters that `str.strip` and the pattern `\s` treat as white space. */
  predicate IsSpace(c: char) {
    || '\U{0009}' <= c <= '\U{000D}' || '\U{001C}' <= c <= '\U{0020}' || c == '\U{0085}' || c == '\U{00A0}'
    || c == '\U{1680}' || '\U{2000}' <= c <= '\U{200A}' || c == '\U{2028}' || c == '\U{2029}' || c == '\U{202F}'
    || c == '\U{205F}' || c == '\U{3000}'
  }

  function Strip(s: string): (t: string)
    ensures |t| <= |s|
  {
    if s == [] then s
    else if IsSpace(s[0]) then Strip(s[1..])
    else if IsSpace(s[|s| - 1]) then Strip(s[..|s| - 1])
    else s
  }

  /** Every run of white space becomes one space. */
  function Collapse(s: string): (t: string)
    ensures |t| <= |s|
  {
    if s == [] then s
    else if !IsSpace(s[0]) then [s[0]] + Collapse(s[1..])
    else if |s| > 1 && IsSpace(s[1]) then Collapse(s[1..])
    else [' '] + Collapse(s[1..])
  }

  function Normalized(s: string): (t: string)
    ensures |t| <= |s|
  {
    Strip(Collapse(s))
  }

  /** Text that normalising leaves alone: single spaces, and only inside. */
  predicate Neat(s: string) {
    && s != [] && !IsSpace(s[0]) && !IsSpace(s[|s| - 1])
    && forall i :: 0 <= i < |s| - 1 && IsSpace(s[i]) ==> s[i] == ' ' && !IsSpace(s[i + 1])
  }

  predicate TidyFrom(s: string) {
    && (s != [] ==> !IsSpace(s[|s| - 1]))
    && forall i :: 0 <= i < |s| - 1 && IsSpace(s[i]) ==> s[i] == ' ' && !IsSpace(s[i + 1])
  }

  lemma {:induction false} CollapseTidy(s: string)
    requires TidyFrom(s)
    ensures Collapse(s) == s
  {
    if s != [] {
      var rest := s[1..];
      assert forall i :: 0 <= i < |rest| ==> rest[i] == s[i + 1];
      CollapseTidy(rest);
      assert s == [s[0]] + rest;
    }
  }

  lemma NormalizedNeat(s: string)
    requires Neat(s)
    ensures Normalized(s) == s
  {
    CollapseTidy(s);
  }

  // ------------------------------------------------------------------ parentheses

  /** Where the parenthesis depth, `depth` before `i`, first comes back to zero. */
  function FirstClose(s: string, i: nat, depth: int): (at: int)
    requires i <= |s|
    ensures at == -1 || (i <= at < |s| && s[at] == ')')
    decreases |s| - i
  {
    if i == |s| then -1
    else if s[i] == '(' then FirstClose(s, i + 1, depth + 1)
    else if s[i] == ')' then if depth == 1 then i else FirstClose(s, i + 1, depth - 1)
    else FirstClose(s, i + 1, depth)
  }

  predicate Enclosed(s: string) {
    |s| >= 2 && s[0] == '(' && s[|s| - 1] == ')' && FirstClose(s, 0, 0) == |s| - 1
  }

  /** Enclosing pairs come off one by one, with the white space inside them. */
  function Peel(t: string): (r: string)
    ensures |r| <= |t| && !Enclosed(r)
    decreases |t|
  {
    if Enclosed(t) then Peel(Strip(t[1..|t| - 1])) else t
  }

  function StripOuter(s: string): (t: string)
    ensures |t| <= |s| && !Enclosed(t)
  {
    Peel(Strip(s))
  }

  lemma {:induction false} StripStrips(s: string)
    ensures Strip(Strip(s)) == Strip(s)
    decreases |s|
  {
    if s == [] {
    } else if IsSpace(s[0]) {
      StripStrips(s[1..]);
    } else if IsSpace(s[|s| - 1]) {
      StripStrips(s[..|s| - 1]);
    }
  }

  /** The loop of the depth counter: whether the first parenthesis closes at the very end. */
  method ClosesAtEnd(value: string) returns (closes: bool)
    requires |value| > 0 && value[0] == '(' && value[|value| - 1] == ')'
    ensures closes == Enclosed(value)
  {
    var depth := 0;
    closes := false;
    var index := 0;
    while index < |value|
      invariant index <= |value|
      invariant !closes && FirstClose(value, 0, 0) == FirstClose(value, index, depth)
      invariant if index == 0 then depth == 0 else depth >= 1
    {
      if value[index] == '(' {
        depth := depth + 1;
      } else if value[index] == ')' {
        depth := depth - 1;
        if depth == 0 {
          closes := index == |value| - 1;
          break;
        }
      }
      index := index + 1;
    }
  }

  method StripOuterParentheses(s: string) returns (value: string)
    ensures value == StripOuter(s) && !Enclosed(value) && Strip(value) == value
  {
    value := Strip(s);
    StripStrips(s);
    while |value| > 0 && value[0] == '(' && value[|value| - 1] == ')'
      invariant Strip(value) == value && Peel(value) == StripOuter(s)
      decreases |value|
    {
      var closesAtEnd := ClosesAtEnd(value);
      if !closesAtEnd {
        break;
      }
      StripStrips(value[1..|value| - 1]);
      value := Strip(value[1..|value| - 1]);
    }
  }

  // -------------------------------------------------------------------- scanning

  datatype Depth = Depth(parens: int, braces: int, tuples: int, quoted: bool)

  const TOP := Depth(0, 0, 0, false)

  /** `part` occurs in `s` at `i`. */
  predicate At(s: string, i: nat, part: string) {
    i + |part| <= |s| && forall k :: 0 <= k < |part| ==> s[i + k] == part[k]
  }

  predicate Doubled(s: string, i: nat, c: char) {
    i + 1 < |s| && s[i] == c && s[i + 1] == c
  }

  predicate Unescaped(s: string, i: nat)
    requires i < |s|
  {
    s[i] == '"' && (i == 0 || s[i - 1] != '\\')
  }

  predicate Structural(c: char) {
    c == '(' || c == ')' || c == '{' || c == '}'
  }

  /** Where the scanner goes from `i`, and at which depth, when it does not cut there. */
  function Next(s: string, i: nat, d: Depth): (r: (nat, Depth))
    requires i < |s|
    ensures i < r.0 <= |s|
  {
    if Unescaped(s, i) then (i + 1, d.(quoted := !d.quoted))
    else if d.quoted then (i + 1, d)
    else if Doubled(s, i, '<') then (i + 2, d.(tuples := d.tuples + 1))
    else if Doubled(s, i, '>') then (i + 2, d.(tuples := d.tuples - 1))
    else if s[i] == '(' then (i + 1, d.(parens := d.parens + 1))
    else if s[i] == ')' then (i + 1, d.(parens := d.parens - 1))
    else if s[i] == '{' then (i + 1, d.(braces := d.braces + 1))
    else if s[i] == '}' then (i + 1, d.(braces := d.braces - 1))
    else (i + 1, d)
  }

  /** The separators used: not empty, not starting like a tuple bracket, free of structure. */
  predicate Separator(sep: string) {
    && sep != [] && sep[0] != '<' && sep[0] != '>'
    && forall i :: 0 <= i < |sep| ==> !Structural(sep[i]) && sep[i] != '"' && sep[i] != '\\'
  }

  predicate Cuts(s: string, sep: string, i: nat, d: Depth)
    requires i < |s|
  {
    d == TOP && At(s, i, sep)
  }

  /** The pieces between the removed separators, before stripping. */
  function Segments(s: string, sep: string, start: nat, i: nat, d: Depth): (segments: seq<string>)
    requires start <= i <= |s| && Separator(sep)
    ensures segments != []
    decreases |s| - i
  {
    if i == |s| then [s[start..]]
    else if Cuts(s, sep, i, d) then [s[start..i]] + Segments(s, sep, i + |sep|, i + |sep|, TOP)
    else
      var (n, e) := Next(s, i, d);
      Segments(s, sep, start, n, e)
  }

  function StripAll(segments: seq<string>): (out: seq<string>)
    ensures |out| == |segments| && forall k :: 0 <= k < |out| ==> out[k] == Strip(segments[k])
  {
    seq(|segments|, k requires 0 <= k < |segments| => Strip(segments[k]))
  }

  function Split(s: string, sep: string): (parts: seq<string>)
    requires Separator(sep)
    ensures parts != []
  {
    StripAll(Segments(s, sep, 0, 0, TOP))
  }

  /** Pieces are no longer than what they are cut from, and shorter when there are several. */
  predicate Fit(segments: seq<string>, size: nat) {
    forall k :: 0 <= k < |segments| ==> |segments[k]| <= size && (|segments| > 1 ==> |segments[k]| < size)
  }

  lemma {:induction false} SegmentsFit(s: string, sep: string, start: nat, i: nat, d: Depth)
    requires start <= i <= |s| && Separator(sep)
    ensures Fit(Segments(s, sep, start, i, d), |s| - start)
    decreases |s| - i
  {
    if i < |s| {
      if Cuts(s, sep, i, d) {
        var rest := Segments(s, sep, i + |sep|, i + |sep|, TOP);
        SegmentsFit(s, sep, i + |sep|, i + |sep|, TOP);
        assert forall k :: 1 <= k < |rest| + 1 ==> ([s[start..i]] + rest)[k] == rest[k - 1];
      } else {
        var (n, e) := Next(s, i, d);
        SegmentsFit(s, sep, start, n, e);
      }
    }
  }

  lemma SplitFits(s: string, sep: string)
    requires Separator(sep)
    ensures Fit(Split(s, sep), |s|)
  {
    SegmentsFit(s, sep, 0, 0, TOP);
  }

  function Joined(segments: seq<string>, sep: string): string {
    if segments == [] then []
    else if |segments| == 1 then segments[0]
    else segments[0] + sep + Joined(segments[1..], sep)
  }

  /** The pieces found so far and the pieces still to come make up the whole split. */
  ghost predicate Splitting(pieces: seq<string>, s: string, sep: string, start: nat, i: nat, d: Depth) {
    && Separator(sep) && start <= i <= |s|
    && pieces + Segments(s, sep, start, i, d) == Segments(s, sep, 0, 0, TOP)
  }

  lemma SplittingCut(pieces: seq<string>, s: string, sep: string, start: nat, i: nat, d: Depth)
    requires Splitting(pieces, s, sep, start, i, d) && i < |s| && Cuts(s, sep, i, d)
    ensures Splitting(pieces + [s[start..i]], s, sep, i + |sep|, i + |sep|, d)
  {
    var rest := Segments(s, sep, i + |sep|, i + |sep|, TOP);
    assert pieces + ([s[start..i]] + rest) == (pieces + [s[start..i]]) + rest;
  }

  lemma SplittingStep(pieces: seq<string>, s: string, sep: string, start: nat, i: nat, d: Depth)
    requires Splitting(pieces, s, sep, start, i, d) && i < |s| && !Cuts(s, sep, i, d)
    ensures Splitting(pieces, s, sep, start, Next(s, i, d).0, Next(s, i, d).1)
  {
  }

  ghost predicate Stripped(parts: seq<string>, pieces: seq<string>) {
    parts == StripAll(pieces)
  }

  lemma StrippedMore(parts: seq<string>, pieces: seq<string>, piece: string)
    requires Stripped(parts, pieces)
    ensures Stripped(parts + [Strip(piece)], pieces + [piece])
  {
  }

  method SplitTopLevel(value: string, separator: string) returns (parts: seq<string>)
    requires Separator(separator)
    ensures parts == Split(value, separator)
  {
    parts := [];
    var start := 0;
    var parentheses, braces, tuples, quoted := 0, 0, 0, false;
    var index := 0;
    ghost var pieces: seq<string> := [];
    while index < |value|
      invariant 0 <= start <= index <= |value|
      invariant Stripped(parts, pieces)
      invariant Splitting(pieces, value, separator, start, index, Depth(parentheses, braces, tuples, quoted))
    {
      var character := value[index];
      ghost var here := Depth(parentheses, braces, tuples, quoted);
      if At(value, index, separator) {
        SeparatorIsPlain(value, separator, index);
      }
      if here == TOP && At(value, index, separator) {
        SplittingCut(pieces, value, separator, start, index, here);
      } else {
        SplittingStep(pieces, value, separator, start, index, here);
      }
      if character == '"' && (index == 0 || value[index - 1] != '\\') {
        quoted := !quoted;
      } else if !quoted {
        if Doubled(value, index, '<') {
          tuples := tuples + 1;
          index := index + 2;
          continue;
        }
        if Doubled(value, index, '>') {
          tuples := tuples - 1;
          index := index + 2;
          continue;
        }
        if character == '(' {
          parentheses := parentheses + 1;
        } else if character == ')' {
          parentheses := parentheses - 1;
        } else if character == '{' {
          braces := braces + 1;
        } else if character == '}' {
          braces := braces - 1;
        } else if parentheses == 0 && braces == 0 && tuples == 0 && At(value, index, separator) {
          StrippedMore(parts, pieces, value[start..index]);
          pieces := pieces + [value[start..index]];
          parts := parts + [Strip(value[start..index])];
          index := index + |separator|;
          start := index;
          continue;
        }
      }
      index := index + 1;
    }
    StrippedMore(parts, pieces, value[start..]);
    parts := parts + [Strip(value[start..])];
  }

  /** Where a separator starts there is no quote, no bracket and no tuple bracket. */
  lemma SeparatorIsPlain(s: string, sep: string, i: nat)
    requires i < |s| && Separator(sep) && At(s, i, sep)
    ensures s[i] == sep[0] && s[i] != '"' && !Structural(s[i]) && !Doubled(s, i, '<') && !Doubled(s, i, '>')
  {
    assert s[i] == s[i..i + |sep|][0];
  }

  // ------------------------------------------------------ what splitting means

  /** The scanner, started at `i` with depth `d`, reaches `j` with depth `e` without cutting. */
  predicate Path(s: string, sep: string, i: nat, j: nat, d: Depth, e: Depth)
    decreases |s| - i
  {
    if i == j then d == e
    else
      && i < j <= |s| && !Cuts(s, sep, i, d)
      && var (n, f) := Next(s, i, d);
         n <= j && Path(s, sep, n, j, f, e)
  }

  lemma {:induction false} PathThen(s: string, sep: string, i: nat, j: nat, k: nat, d: Depth, e: Depth, f: Depth)
    requires Path(s, sep, i, j, d, e) && Path(s, sep, j, k, e, f) && j <= k
    ensures Path(s, sep, i, k, d, f)
    decreases |s| - i
  {
    if i < j {
      var (n, g) := Next(s, i, d);
      PathThen(s, sep, n, j, k, g, e, f);
    }
  }

  /** A scan that cuts nowhere up to `j` continues from there. */
  lemma {:induction false} SegmentsAlong(s: string, sep: string, start: nat, i: nat, j: nat, d: Depth, e: Depth)
    requires Separator(sep) && start <= i <= j <= |s| && Path(s, sep, i, j, d, e)
    ensures Segments(s, sep, start, i, d) == Segments(s, sep, start, j, e)
    decreases |s| - i
  {
    if i < j {
      var (n, f) := Next(s, i, d);
      SegmentsAlong(s, sep, start, n, j, f, e);
    }
  }

  lemma AroundCut(s: string, sep: string, start: nat, i: nat)
    requires start <= i && At(s, i, sep)
    ensures s[start..] == s[start..i] + sep + s[i + |sep|..]
  {
    assert s[i..i + |sep|] == sep;
    assert s[start..] == s[start..i] + s[i..i + |sep|] + s[i + |sep|..];
  }

  /** Putting the separators back between the pieces gives the text. */
  lemma {:induction false} Rejoin(s: string, sep: string, start: nat, i: nat, d: Depth)
    requires start <= i <= |s| && Separator(sep)
    ensures Joined(Segments(s, sep, start, i, d), sep) == s[start..]
    decreases |s| - i
  {
    if i < |s| {
      if Cuts(s, sep, i, d) {
        var n := i + |sep|;
        var rest := Segments(s, sep, n, n, TOP);
        Rejoin(s, sep, n, n, TOP);
        assert ([s[start..i]] + rest)[1..] == rest;
        AroundCut(s, sep, start, i);
      } else {
        var (n, e) := Next(s, i, d);
        Rejoin(s, sep, start, n, e);
      }
    }
  }

  /** The depth at the end of a text scanned on its own. */
  function Walk(s: string, i: nat, d: Depth): Depth
    requires i <= |s|
    decreases |s| - i
  {
    if i == |s| then d
    else
      var (n, e) := Next(s, i, d);
      Walk(s, n, e)
  }

  /** On its own the text closes every quote, parenthesis, brace and tuple it opens. */
  predicate Closed(s: string) {
    Walk(s, 0, TOP) == TOP
  }

  /** On its own the text is not split. */
  predicate Whole(s: string, sep: string)
    requires Separator(sep)
  {
    Segments(s, sep, 0, 0, TOP) == [s]
  }

  predicate EndsBefore(s: string, j: nat) {
    j <= |s| && (j < |s| ==> s[j] != '<' && s[j] != '>')
  }

  predicate StartsClean(s: string, start: nat) {
    start <= |s| && (start > 0 ==> s[start - 1] != '\\')
  }

  /** One step inside a piece is the same step in the piece alone. */
  lemma NextInside(s: string, start: nat, k: nat, j: nat, d: Depth)
    requires start <= k < j && EndsBefore(s, j) && StartsClean(s, start) && Next(s, k, d).0 <= j
    ensures
      var piece := s[start..j];
      Next(piece, k - start, d) == (Next(s, k, d).0 - start, Next(s, k, d).1)
  {
    var piece := s[start..j];
    assert piece[k - start] == s[k];
    assert Unescaped(piece, k - start) == Unescaped(s, k);
  }

  lemma {:induction false} WalkAlone(s: string, sep: string, start: nat, k: nat, j: nat, d: Depth, e: Depth)
    requires start <= k <= j && EndsBefore(s, j) && StartsClean(s, start) && Path(s, sep, k, j, d, e)
    ensures Walk(s[start..j], k - start, d) == e
    decreases j - k
  {
    if k < j {
      var (n, f) := Next(s, k, d);
      NextInside(s, start, k, j, d);
      WalkAlone(s, sep, start, n, j, f, e);
    }
  }

  lemma CutInside(s: string, sep: string, start: nat, k: nat, j: nat, d: Depth)
    requires start <= k < j <= |s| && Cuts(s[start..j], sep, k - start, d)
    ensures Cuts(s, sep, k, d)
  {
    var piece := s[start..j];
    var inside, outside := piece[k - start..k - start + |sep|], s[k..k + |sep|];
    assert forall m :: 0 <= m < |sep| ==> inside[m] == piece[k - start + m] == s[k + m] == outside[m];
    assert inside == outside;
  }

  lemma {:induction false} PieceAlone(s: string, sep: string, start: nat, k: nat, j: nat, d: Depth, e: Depth)
    requires Separator(sep) && start <= k <= j && EndsBefore(s, j) && StartsClean(s, start)
    requires Path(s, sep, k, j, d, e)
    ensures Segments(s[start..j], sep, 0, k - start, d) == [s[start..j]]
    decreases j - k
  {
    var piece := s[start..j];
    if k < j {
      var (n, f) := Next(s, k, d);
      NextInside(s, start, k, j, d);
      PieceAlone(s, sep, start, n, j, f, e);
      if Cuts(piece, sep, k - start, d) {
        CutInside(s, sep, start, k, j, d);
      }
    } else {
      assert piece[0..] == piece;
    }
  }

  /** Each piece but the last is closed, and no piece holds another separator to remove. */
  ghost predicate Separated(segments: seq<string>, sep: string)
    requires Separator(sep)
  {
    && (forall k :: 0 <= k < |segments| - 1 ==> Closed(segments[k]))
    && (forall k :: 0 <= k < |segments| ==> Whole(segments[k], sep))
  }

  lemma SeparatedCons(first: string, rest: seq<string>, sep: string)
    requires Separator(sep) && Closed(first) && Whole(first, sep) && Separated(rest, sep)
    ensures Separated([first] + rest, sep)
  {
  }

  /** Every removed separator lay outside all quotes, parentheses, braces and tuples. */
  lemma {:induction false} PiecesAreClosed(s: string, sep: string, start: nat, i: nat, d: Depth)
    requires Separator(sep) && start <= i <= |s| && StartsClean(s, start) && Path(s, sep, start, i, TOP, d)
    ensures Separated(Segments(s, sep, start, i, d), sep)
    decreases |s| - i
  {
    if i == |s| {
      PieceAlone(s, sep, start, start, i, TOP, d);
      assert s[start..] == s[start..i];
    } else if Cuts(s, sep, i, d) {
      SeparatorIsPlain(s, sep, i);
      PieceAlone(s, sep, start, start, i, TOP, d);
      WalkAlone(s, sep, start, start, i, TOP, d);
      var n := i + |sep|;
      var last := |sep| - 1;
      assert s[i + last] == sep[last];
      PiecesAreClosed(s, sep, n, n, TOP);
      SeparatedCons(s[start..i], Segments(s, sep, n, n, TOP), sep);
    } else {
      var (n, e) := Next(s, i, d);
      PathThen(s, sep, start, i, n, TOP, d, e);
      PiecesAreClosed(s, sep, start, n, e);
    }
  }

  /** What splitting a text means. */
  lemma SplitIsSound(s: string, sep: string)
    requires Separator(sep)
    ensures
      var segments := Segments(s, sep, 0, 0, TOP);
      && Joined(segments, sep) == s
      && Split(s, sep) == StripAll(segments)
      && Separated(segments, sep)
  {
    Rejoin(s, sep, 0, 0, TOP);
    PiecesAreClosed(s, sep, 0, 0, TOP);
  }
}
