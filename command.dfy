/**
 * `lib/command.js`: `execaCommand` and `execaCommandSync` take one command
 * string, split it into a file and its arguments, and hand those to `execa` or
 * `execaSync`. The string is trimmed, cut at every run of spaces (U+0020 only),
 * and a piece is glued back onto the previous one, with a single space, when the
 * previous one ends with a backslash.
 */
module Command {
  import opened Wrappers

  // ---------------------------------------------------------------------------
  // String.prototype.trim
  // ---------------------------------------------------------------------------

  /** ECMAScript WhiteSpace and LineTerminator: what `String.prototype.trim` removes. */
  predicate IsTrimmable(c: char)
  {
    || c == '\t' || c == '\n' || c == '\U{000B}' || c == '\U{000C}' || c == '\r'
    || c == ' ' || c == '\U{00A0}' || c == '\U{1680}' || ('\U{2000}' <= c <= '\U{200A}')
    || c == '\U{2028}' || c == '\U{2029}' || c == '\U{202F}' || c == '\U{205F}'
    || c == '\U{3000}' || c == '\U{FEFF}'
  }

  /** The number of white-space characters at the start of `s`. */
  function LeadingTrimmable(s: string): (n: nat)
    ensures n <= |s|
    ensures forall k :: 0 <= k < n ==> IsTrimmable(s[k])
    ensures n < |s| ==> !IsTrimmable(s[n])
  {
    if s == [] || !IsTrimmable(s[0]) then 0 else 1 + LeadingTrimmable(s[1..])
  }

  /** The number of white-space characters at the end of `s`. */
  function TrailingTrimmable(s: string): (n: nat)
    ensures n <= |s|
    ensures forall k :: |s| - n <= k < |s| ==> IsTrimmable(s[k])
    ensures n < |s| ==> !IsTrimmable(s[|s| - 1 - n])
  {
    if s == [] || !IsTrimmable(s[|s| - 1]) then 0 else 1 + TrailingTrimmable(s[..|s| - 1])
  }

  /**
   * `command.trim()`: the part of `s` from its first to its last character that
   * is not white space, or "" when there is none.
   */
  function Trim(s: string): (r: string)
    ensures |r| <= |s|
    ensures r != [] ==> !IsTrimmable(r[0]) && !IsTrimmable(r[|r| - 1])
    ensures forall k :: 0 <= k < LeadingTrimmable(s) ==> IsTrimmable(s[k])
    ensures LeadingTrimmable(s) + |r| <= |s| && r == s[LeadingTrimmable(s)..LeadingTrimmable(s) + |r|]
    ensures forall k :: LeadingTrimmable(s) + |r| <= k < |s| ==> IsTrimmable(s[k])
  {
    var n := LeadingTrimmable(s);
    var rest := s[n..];
    rest[..|rest| - TrailingTrimmable(rest)]
  }

  /**
   * What `trim` leaves: a slice of `s` with only white space before and after it,
   * empty exactly when `s` is all white space, with no white space at either end.
   */
  lemma TrimmedSlice(s: string)
    ensures LeadingTrimmable(s) + |Trim(s)| <= |s|
    ensures Trim(s) == s[LeadingTrimmable(s)..LeadingTrimmable(s) + |Trim(s)|]
    ensures forall k :: 0 <= k < LeadingTrimmable(s) ==> IsTrimmable(s[k])
    ensures forall k :: LeadingTrimmable(s) + |Trim(s)| <= k < |s| ==> IsTrimmable(s[k])
    ensures Trim(s) == [] <==> forall k :: 0 <= k < |s| ==> IsTrimmable(s[k])
    ensures Trim(s) != [] ==> !IsTrimmable(Trim(s)[0]) && !IsTrimmable(Trim(s)[|Trim(s)| - 1])
  {
  }

  // ---------------------------------------------------------------------------
  // split(/ +/g)
  // ---------------------------------------------------------------------------

  /** The index of the first space in `s`, or `|s|`. */
  function IndexOfSpace(s: string): (i: nat)
    ensures i <= |s|
    ensures i < |s| ==> s[i] == ' '
  {
    if s == [] || s[0] == ' ' then 0 else 1 + IndexOfSpace(s[1..])
  }

  /** No space comes before `IndexOfSpace(s)`. */
  lemma {:induction false} NoSpaceBeforeIndex(s: string)
    ensures forall k :: 0 <= k < IndexOfSpace(s) ==> s[k] != ' '
  {
    if s != [] && s[0] != ' ' {
      NoSpaceBeforeIndex(s[1..]);
    }
  }

  /** The length of the run of spaces at the start of `s`. */
  function LeadingSpaces(s: string): (n: nat)
    ensures n <= |s|
    ensures n < |s| ==> s[n] != ' '
  {
    if s == [] || s[0] != ' ' then 0 else 1 + LeadingSpaces(s[1..])
  }

  /** The first `LeadingSpaces(s)` characters are spaces. */
  lemma {:induction false} LeadingSpacesAreSpaces(s: string)
    ensures forall k :: 0 <= k < LeadingSpaces(s) ==> s[k] == ' '
  {
    if s != [] && s[0] == ' ' {
      LeadingSpacesAreSpaces(s[1..]);
    }
  }

  /**
   * `s.split(/ +/g)`: the maximal space-free pieces between runs of spaces. A
   * leading or trailing run yields an empty first or last piece, and "" splits
   * into [""].
   */
  function Split(s: string): (pieces: seq<string>)
    ensures |pieces| >= 1
    decreases |s|
  {
    if IndexOfSpace(s) == |s| then [s]
    else [s[..IndexOfSpace(s)]] + Split(AfterGap(s))
  }

  /** What follows the first run of spaces in `s`. */
  function AfterGap(s: string): (r: string)
    requires IndexOfSpace(s) < |s|
    ensures |r| < |s|
  {
    var i := IndexOfSpace(s);
    s[i + LeadingSpaces(s[i..])..]
  }

  /** `pieces.join(' ')`. */
  function Join(pieces: seq<string>): string
  {
    if pieces == [] then ""
    else if |pieces| == 1 then pieces[0]
    else Join(pieces[..|pieces| - 1]) + " " + pieces[|pieces| - 1]
  }

  lemma JoinSnoc(ps: seq<string>, p: string)
    ensures Join(ps + [p]) == if ps == [] then p else Join(ps) + " " + p
  {
    assert (ps + [p])[..|ps|] == ps;
  }

  lemma {:induction false} JoinCons(p: string, ps: seq<string>)
    requires ps != []
    ensures Join([p] + ps) == p + " " + Join(ps)
    decreases |ps|
  {
    var init, last := ps[..|ps| - 1], ps[|ps| - 1];
    assert ps == init + [last];
    assert [p] + ps == ([p] + init) + [last];
    JoinSnoc([p] + init, last);
    JoinSnoc(init, last);
    if init == [] {
      assert [p] + init == [p];
    } else {
      JoinCons(p, init);
      JoinAssoc(p, Join(init), last);
    }
  }

  lemma JoinAssoc(a: string, b: string, c: string)
    ensures a + " " + b + " " + c == a + " " + (b + " " + c)
  {
  }

  /** The characters of `s` that are not spaces, in order. */
  function RemoveSpaces(s: string): string
  {
    if s == [] then "" else (if s[0] == ' ' then "" else [s[0]]) + RemoveSpaces(s[1..])
  }

  function Concat(pieces: seq<string>): string
  {
    if pieces == [] then "" else pieces[0] + Concat(pieces[1..])
  }

  /** The first run of spaces in `s`. */
  function Gap(s: string): (g: string)
    requires IndexOfSpace(s) < |s|
  {
    var rest := s[IndexOfSpace(s)..];
    rest[..LeadingSpaces(rest)]
  }

  /** The runs of spaces `s.split(/ +/g)` consumes, in order: one between each two pieces. */
  function Gaps(s: string): (gaps: seq<string>)
    decreases |s|
  {
    if IndexOfSpace(s) == |s| then [] else [Gap(s)] + Gaps(AfterGap(s))
  }

  /** The pieces with the gaps put back between them. */
  function Interleave(pieces: seq<string>, gaps: seq<string>): string
    requires |gaps| + 1 == |pieces|
    decreases |gaps|
  {
    if gaps == [] then pieces[0] else pieces[0] + gaps[0] + Interleave(pieces[1..], gaps[1..])
  }

  /** A non-empty run of U+0020. */
  predicate IsSpaceRun(g: string)
  {
    g != "" && forall k :: 0 <= k < |g| ==> g[k] == ' '
  }

  /** Every gap between two pieces is a non-empty run of spaces. */
  lemma {:induction false} GapsAreSpaceRuns(s: string)
    ensures forall g :: g in Gaps(s) ==> IsSpaceRun(g)
    decreases |s|
  {
    var i := IndexOfSpace(s);
    if i < |s| {
      assert s[i..][0] == ' ';
      SpaceRunPrefix(s[i..], LeadingSpaces(s[i..]));
      GapsAreSpaceRuns(AfterGap(s));
    }
  }

  lemma SpaceRunPrefix(t: string, n: nat)
    requires t != [] && t[0] == ' ' && n == LeadingSpaces(t)
    ensures IsSpaceRun(t[..n])
  {
    LeadingSpacesAreSpaces(t);
    assert forall k :: 0 <= k < n ==> t[..n][k] == t[k];
  }

  /**
   * The input is its pieces with the consumed runs of spaces put back between
   * them: together with `SplitPiecesHaveNoSpace` and `GapsAreSpaceRuns`, the
   * pieces are exactly the maximal space-free stretches of the input.
   */
  lemma {:induction false} SplitRebuildsInput(s: string)
    ensures |Gaps(s)| + 1 == |Split(s)|
    ensures Interleave(Split(s), Gaps(s)) == s
    decreases |s|
  {
    var i := IndexOfSpace(s);
    if i < |s| {
      var j := i + LeadingSpaces(s[i..]);
      var rest := AfterGap(s);
      SplitRebuildsInput(rest);
      SplitGapsUnfold(s, rest);
      GapIs(s, i, j);
      InterleaveCons(s[..i], Split(rest), s[i..j], Gaps(rest));
      ThreeParts(s, i, j);
    }
  }

  lemma SplitGapsUnfold(s: string, rest: string)
    requires IndexOfSpace(s) < |s| && rest == AfterGap(s)
    ensures Split(s) == [s[..IndexOfSpace(s)]] + Split(rest)
    ensures Gaps(s) == [Gap(s)] + Gaps(rest)
  {
  }

  lemma GapIs(s: string, i: nat, j: nat)
    requires i == IndexOfSpace(s) && i < |s| && j == i + LeadingSpaces(s[i..])
    ensures Gap(s) == s[i..j] && AfterGap(s) == s[j..]
  {
    SliceOfSuffix(s, i, j);
  }

  lemma SliceOfSuffix(s: string, i: nat, j: nat)
    requires i <= j <= |s|
    ensures s[i..][..j - i] == s[i..j]
  {
  }

  lemma InterleaveCons(p: string, ps: seq<string>, g: string, gs: seq<string>)
    requires |gs| + 1 == |ps|
    ensures Interleave([p] + ps, [g] + gs) == p + (g + Interleave(ps, gs))
  {
    assert ([p] + ps)[1..] == ps;
    assert ([g] + gs)[1..] == gs;
  }

  /** No piece contains a space. */
  lemma {:induction false} SplitPiecesHaveNoSpace(s: string)
    ensures forall p :: p in Split(s) ==> ' ' !in p
    decreases |s|
  {
    var i := IndexOfSpace(s);
    NoSpaceBeforeIndex(s);
    if i < |s| {
      SplitPiecesHaveNoSpace(AfterGap(s));
      assert forall k :: 0 <= k < i ==> s[..i][k] != ' ';
    } else {
      assert forall k :: 0 <= k < |s| ==> s[k] != ' ';
    }
  }

  /** The pieces, in order, hold exactly the characters of `s` that are not spaces. */
  lemma {:induction false} SplitKeepsEveryOtherCharacter(s: string)
    ensures Concat(Split(s)) == RemoveSpaces(s)
    decreases |s|
  {
    var i := IndexOfSpace(s);
    if i == |s| {
      assert s[..i] == s;
      NoSpaceBeforeIndex(s);
      assert forall k :: 0 <= k < |s| ==> s[k] != ' ';
      NoSpaceIsKept(s);
      assert Concat([s]) == s + Concat([]);
    } else {
      var j := i + LeadingSpaces(s[i..]);
      var rest := AfterGap(s);
      assert rest == s[j..];
      ConcatCons(s[..i], Split(rest));
      SplitKeepsEveryOtherCharacter(rest);
      WordGapRest(s, i, j);
    }
  }

  lemma ConcatCons(p: string, ps: seq<string>)
    ensures Concat([p] + ps) == p + Concat(ps)
  {
    assert ([p] + ps)[1..] == ps;
  }

  /** A word, a run of spaces and the rest: only the word and the rest keep characters. */
  lemma WordGapRest(s: string, i: nat, j: nat)
    requires i == IndexOfSpace(s) && j == i + LeadingSpaces(s[i..]) && j <= |s|
    ensures RemoveSpaces(s) == s[..i] + RemoveSpaces(s[j..])
  {
    WordIsKept(s, i);
    GapVanishes(s, i, j);
    ThreeParts(s, i, j);
    WordGapRestParts(s[..i], s[i..j], s[j..]);
  }

  lemma WordIsKept(s: string, i: nat)
    requires i == IndexOfSpace(s)
    ensures RemoveSpaces(s[..i]) == s[..i]
  {
    NoSpaceBeforeIndex(s);
    assert forall k :: 0 <= k < i ==> s[..i][k] == s[k];
    NoSpaceIsKept(s[..i]);
  }

  lemma GapVanishes(s: string, i: nat, j: nat)
    requires i <= |s| && j == i + LeadingSpaces(s[i..])
    ensures RemoveSpaces(s[i..j]) == ""
  {
    LeadingSpacesAreSpaces(s[i..]);
    assert forall k :: 0 <= k < j - i ==> s[i..j][k] == s[i..][k];
    OnlySpacesVanish(s[i..j]);
  }

  lemma WordGapRestParts(word: string, gap: string, rest: string)
    requires RemoveSpaces(word) == word && RemoveSpaces(gap) == ""
    ensures RemoveSpaces(word + (gap + rest)) == word + RemoveSpaces(rest)
  {
    RemoveSpacesAppend(word, gap + rest);
    RemoveSpacesAppend(gap, rest);
    assert "" + RemoveSpaces(rest) == RemoveSpaces(rest);
  }

  lemma ThreeParts(s: string, i: nat, j: nat)
    requires i <= j <= |s|
    ensures s == s[..i] + (s[i..j] + s[j..])
  {
  }

  lemma {:induction false} RemoveSpacesAppend(a: string, b: string)
    ensures RemoveSpaces(a + b) == RemoveSpaces(a) + RemoveSpaces(b)
  {
    if a == [] {
      assert a + b == b;
    } else {
      assert (a + b)[1..] == a[1..] + b;
      RemoveSpacesAppend(a[1..], b);
    }
  }

  lemma {:induction false} NoSpaceIsKept(s: string)
    requires forall k :: 0 <= k < |s| ==> s[k] != ' '
    ensures RemoveSpaces(s) == s
  {
    if s != [] {
      NoSpaceIsKept(s[1..]);
    }
  }

  lemma {:induction false} OnlySpacesVanish(s: string)
    requires forall k :: 0 <= k < |s| ==> s[k] == ' '
    ensures RemoveSpaces(s) == ""
  {
    if s != [] {
      OnlySpacesVanish(s[1..]);
    }
  }

  /**
   * A string with no space at either end (as `trim` leaves it) splits into
   * non-empty pieces.
   */
  lemma {:induction false} SplitTrimmedHasNoEmptyPiece(s: string)
    requires s != [] && s[0] != ' ' && s[|s| - 1] != ' '
    ensures forall p :: p in Split(s) ==> p != ""
    decreases |s|
  {
    var i := IndexOfSpace(s);
    if i < |s| {
      var n := LeadingSpaces(s[i..]);
      var j := i + n;
      LeadingSpacesAreSpaces(s[i..]);
      assert s[i..][|s| - 1 - i] == s[|s| - 1];
      var rest := AfterGap(s);
      assert rest == s[j..];
      assert rest[0] == s[i..][n];
      assert rest[|rest| - 1] == s[|s| - 1];
      SplitTrimmedHasNoEmptyPiece(rest);
      assert Split(s) == [s[..i]] + Split(rest);
    }
  }

  /** Joining non-empty space-free pieces with single spaces and splitting again gives them back. */
  lemma {:induction false} SplitJoin(pieces: seq<string>)
    requires pieces != []
    requires forall p :: p in pieces ==> p != "" && ' ' !in p
    ensures Split(Join(pieces)) == pieces
    decreases |pieces|
  {
    var p := pieces[0];
    assert p in pieces;
    if |pieces| == 1 {
      SplitWithoutSpace(p);
    } else {
      var tail := pieces[1..];
      assert pieces == [p] + tail;
      JoinCons(p, tail);
      assert forall x :: x in tail ==> x in pieces;
      JoinStartsWithNonSpace(tail);
      SplitWordSpaceRest(p, Join(tail));
      SplitJoin(tail);
    }
  }

  /** A word, one space and a string that starts with a word: the first piece is that word. */
  lemma SplitWordSpaceRest(p: string, rest: string)
    requires ' ' !in p && rest != [] && rest[0] != ' '
    ensures Split(p + " " + rest) == [p] + Split(rest)
  {
    var t := " " + rest;
    assert p + " " + rest == p + t;
    assert t[1..] == rest;
    SplitFirstWord(p, t);
  }

  /** A word without spaces runs up to the first space after it, or to the end. */
  lemma {:induction false} IndexOfSpaceOfWord(p: string, t: string)
    requires ' ' !in p && (t == [] || t[0] == ' ')
    ensures IndexOfSpace(p + t) == |p|
  {
    if p == [] {
      assert p + t == t;
    } else {
      assert p[0] in p;
      assert (p + t)[1..] == p[1..] + t;
      assert forall c :: c in p[1..] ==> c in p;
      IndexOfSpaceOfWord(p[1..], t);
    }
  }

  lemma JoinStartsWithNonSpace(pieces: seq<string>)
    requires pieces != []
    requires forall p :: p in pieces ==> p != "" && ' ' !in p
    ensures Join(pieces) != [] && Join(pieces)[0] != ' '
  {
    assert pieces[0] in pieces;
    assert pieces[0][0] in pieces[0];
    if |pieces| > 1 {
      JoinCons(pieces[0], pieces[1..]);
      assert pieces == [pieces[0]] + pieces[1..];
    }
  }

  /** Only U+0020 splits: a string without it, tabs and newlines included, is a single piece. */
  lemma SplitWithoutSpace(s: string)
    requires ' ' !in s
    ensures Split(s) == [s]
  {
    IndexOfSpaceOfWord(s, []);
    assert s + [] == s;
  }

  /** A character absent from `s` is absent from every piece. */
  lemma {:induction false} SplitKeepsCharactersOut(s: string, c: char)
    requires c !in s
    ensures forall p :: p in Split(s) ==> c !in p
    decreases |s|
  {
    var i := IndexOfSpace(s);
    if i < |s| {
      assert forall x :: x in s[..i] ==> x in s;
      var rest := AfterGap(s);
      assert rest == s[i + LeadingSpaces(s[i..])..];
      assert forall x :: x in rest ==> x in s;
      SplitKeepsCharactersOut(rest, c);
    }
  }

  // ---------------------------------------------------------------------------
  // Escaped spaces
  // ---------------------------------------------------------------------------

  predicate EndsWithBackslash(s: string)
  {
    |s| > 0 && s[|s| - 1] == '\\'
  }

  /**
   * One turn of the loop: a piece after a token ending in a backslash is merged
   * into that token, otherwise it becomes a new token. The new last token ends
   * in a backslash exactly when the piece does.
   */
  function MergeStep(tokens: seq<string>, piece: string): (r: seq<string>)
    ensures |r| == (if tokens != [] && EndsWithBackslash(tokens[|tokens| - 1]) then |tokens| else |tokens| + 1)
    ensures EndsWithBackslash(r[|r| - 1]) <==> EndsWithBackslash(piece)
  {
    if |tokens| > 0 && EndsWithBackslash(tokens[|tokens| - 1]) then
      var previous := tokens[|tokens| - 1];
      tokens[..|tokens| - 1] + [previous[..|previous| - 1] + " " + piece]
    else
      tokens + [piece]
  }

  /** A loop turn keeps every token before the last one, and a piece that is not merged is pushed as it is. */
  lemma MergeStepKeepsEarlierTokens(tokens: seq<string>, piece: string)
    ensures var r := MergeStep(tokens, piece);
      r[..|r| - 1] == tokens[..|r| - 1] && (|r| == |tokens| + 1 ==> r[|tokens|] == piece)
  {
  }

  /** The tokens the loop has built after reading `pieces`: no more tokens than pieces, and none only for no pieces. */
  function Tokenize(pieces: seq<string>): (r: seq<string>)
    ensures |r| <= |pieces|
    ensures r == [] <==> pieces == []
  {
    if pieces == [] then [] else MergeStep(Tokenize(pieces[..|pieces| - 1]), pieces[|pieces| - 1])
  }

  lemma TokenizeSnoc(init: seq<string>, p: string)
    ensures Tokenize(init + [p]) == MergeStep(Tokenize(init), p)
  {
    assert (init + [p])[..|init|] == init;
  }

  lemma TokenizePrefix(pieces: seq<string>, i: nat)
    requires i < |pieces|
    ensures Tokenize(pieces[..i + 1]) == MergeStep(Tokenize(pieces[..i]), pieces[i])
  {
    assert pieces[..i + 1] == pieces[..i] + [pieces[i]];
    TokenizeSnoc(pieces[..i], pieces[i]);
  }

  /** How many of `pieces` end with a backslash. */
  function CountEscaped(pieces: seq<string>): nat
  {
    if pieces == [] then 0
    else CountEscaped(pieces[..|pieces| - 1]) + (if EndsWithBackslash(pieces[|pieces| - 1]) then 1 else 0)
  }

  /** A piece without the backslash that escaped the space after it. */
  function DropBackslash(s: string): string
  {
    if EndsWithBackslash(s) then s[..|s| - 1] else s
  }

  /** Every piece without its final backslash. */
  function DropBackslashes(pieces: seq<string>): (r: seq<string>)
    ensures |r| == |pieces|
  {
    if pieces == [] then [] else DropBackslashes(pieces[..|pieces| - 1]) + [DropBackslash(pieces[|pieces| - 1])]
  }

  /** The pieces with each escaping backslash removed: every piece but the last loses a final backslash. */
  function Unescape(pieces: seq<string>): (r: seq<string>)
    ensures |r| == |pieces|
  {
    if pieces == [] then [] else DropBackslashes(pieces[..|pieces| - 1]) + [pieces[|pieces| - 1]]
  }

  /** The last token ends with a backslash exactly when the last piece does. */
  lemma {:induction false} LastTokenEndsLikeLastPiece(pieces: seq<string>)
    requires pieces != []
    ensures var t := Tokenize(pieces);
      |t| >= 1 && (EndsWithBackslash(t[|t| - 1]) <==> EndsWithBackslash(pieces[|pieces| - 1]))
  {
    var init := pieces[..|pieces| - 1];
    var p := pieces[|pieces| - 1];
    var t0 := Tokenize(init);
    var t := MergeStep(t0, p);
    assert Tokenize(pieces) == t;
    if |t0| > 0 && EndsWithBackslash(t0[|t0| - 1]) {
      var previous := t0[|t0| - 1];
      var merged := previous[..|previous| - 1] + " " + p;
      assert t[|t| - 1] == merged;
      if p != "" {
        assert merged[|merged| - 1] == p[|p| - 1];
      }
    }
  }

  /**
   * Every merge removes one token: the count is the number of pieces less the
   * number of pieces, before the last, that end with a backslash.
   */
  lemma {:induction false} TokenCount(pieces: seq<string>)
    requires pieces != []
    ensures |Tokenize(pieces)| == |pieces| - CountEscaped(pieces[..|pieces| - 1])
    ensures 1 <= |Tokenize(pieces)| <= |pieces|
  {
    var init := pieces[..|pieces| - 1];
    if init != [] {
      TokenCount(init);
      LastTokenEndsLikeLastPiece(init);
    }
    CountEscapedBound(init);
  }

  lemma {:induction false} CountEscapedBound(pieces: seq<string>)
    ensures CountEscaped(pieces) <= |pieces|
  {
    if pieces != [] {
      CountEscapedBound(pieces[..|pieces| - 1]);
    }
  }

  /** Only the last token can end with a backslash. */
  lemma {:induction false} OnlyLastTokenEscapes(pieces: seq<string>)
    ensures forall i :: 0 <= i < |Tokenize(pieces)| - 1 ==> !EndsWithBackslash(Tokenize(pieces)[i])
  {
    if pieces != [] {
      var init := pieces[..|pieces| - 1];
      var t0 := Tokenize(init);
      var t := MergeStep(t0, pieces[|pieces| - 1]);
      assert Tokenize(pieces) == t;
      OnlyLastTokenEscapes(init);
      MergeStepKeepsEarlierTokens(t0, pieces[|pieces| - 1]);
      forall i | 0 <= i < |t| - 1
        ensures !EndsWithBackslash(t[i])
      {
        assert t[i] == t[..|t| - 1][i] == t0[..|t| - 1][i] == t0[i];
      }
    }
  }

  /** Without escaping backslashes, every piece is a token of its own. */
  lemma {:induction false} NoEscapeKeepsPieces(pieces: seq<string>)
    requires forall i :: 0 <= i < |pieces| - 1 ==> !EndsWithBackslash(pieces[i])
    ensures Tokenize(pieces) == pieces
  {
    if pieces != [] {
      var init := pieces[..|pieces| - 1];
      NoEscapeKeepsPieces(init);
      assert init + [pieces[|pieces| - 1]] == pieces;
    }
  }

  /** Dropping a final backslash from the last element drops it from the joined string. */
  lemma JoinDropBackslash(init: seq<string>, last: string)
    ensures Join(init + [DropBackslash(last)]) == DropBackslash(Join(init + [last]))
    ensures EndsWithBackslash(Join(init + [last])) <==> EndsWithBackslash(last)
  {
    JoinSnoc(init, last);
    JoinSnoc(init, DropBackslash(last));
    if init != [] {
      var j := Join(init) + " " + last;
      if EndsWithBackslash(last) {
        assert j[..|j| - 1] == Join(init) + " " + last[..|last| - 1];
      } else {
        assert j[|j| - 1] == if last == [] then ' ' else last[|last| - 1];
      }
    }
  }

  /**
   * Joined with single spaces, the tokens read as the pieces joined with single
   * spaces once the escaping backslashes are gone: a merge drops the backslash
   * and puts back exactly one space, however many the input had.
   */
  lemma {:induction false} TokensJoinAsUnescapedPieces(pieces: seq<string>)
    ensures Join(Tokenize(pieces)) == Join(Unescape(pieces))
    decreases |pieces|
  {
    if pieces != [] {
      var init := pieces[..|pieces| - 1];
      var p := pieces[|pieces| - 1];
      if init != [] {
        TokensJoinAsUnescapedPieces(init);
        LastTokenEndsLikeLastPiece(init);
        var last := init[|init| - 1];
        var front := DropBackslashes(init[..|init| - 1]);
        assert Unescape(init) == front + [last];
        assert Unescape(pieces) == (front + [DropBackslash(last)]) + [p];
        JoinSnoc(front + [DropBackslash(last)], p);
        JoinDropBackslash(front, last);
        MergeJoin(Tokenize(init), p);
      }
    }
  }

  /** Joined, one loop turn appends the piece after one space, dropping an escaping backslash. */
  lemma MergeJoin(tokens: seq<string>, piece: string)
    requires tokens != []
    ensures Join(MergeStep(tokens, piece)) == DropBackslash(Join(tokens)) + " " + piece
  {
    var previous := tokens[|tokens| - 1];
    var front := tokens[..|tokens| - 1];
    assert tokens == front + [previous];
    JoinDropBackslash(front, previous);
    if EndsWithBackslash(previous) {
      var stem := previous[..|previous| - 1];
      JoinSnoc(front, stem + " " + piece);
      JoinSnoc(front, stem);
    } else {
      JoinSnoc(tokens, piece);
    }
  }

  // ---------------------------------------------------------------------------
  // parseCommand, execaCommand, execaCommandSync
  // ---------------------------------------------------------------------------

  /** The first argument: a string, or any other value, carried as its `String(...)` form. */
  datatype CommandArgument = StringArgument(s: string) | OtherArgument(text: string)

  datatype TypeError = TypeError(message: string)

  /** The tokens `parseCommand` returns for a string. */
  function Tokens(command: string): (tokens: seq<string>)
    ensures |tokens| >= 1
  {
    TokenCount(Split(Trim(command)));
    Tokenize(Split(Trim(command)))
  }

  /** Without a backslash nothing is merged: the tokens are the space-split pieces of the trimmed string. */
  lemma TokensWithoutBackslash(s: string)
    requires '\\' !in s
    ensures Tokens(s) == Split(Trim(s))
  {
    var t := Trim(s);
    var pieces := Split(t);
    TrimmedSlice(s);
    assert forall c :: c in t ==> c in s;
    SplitKeepsCharactersOut(t, '\\');
    forall i | 0 <= i < |pieces| - 1
      ensures !EndsWithBackslash(pieces[i])
    {
      assert pieces[i] in pieces;
      if pieces[i] != "" {
        assert pieces[i][|pieces[i]| - 1] in pieces[i];
      }
    }
    NoEscapeKeepsPieces(pieces);
  }

  /** `n` spaces. */
  function Spaces(n: nat): (s: string)
    ensures |s| == n && forall k :: 0 <= k < n ==> s[k] == ' '
  {
    if n == 0 then "" else " " + Spaces(n - 1)
  }

  /**
   * A word ending with a backslash, any positive number of spaces, and another
   * word make one token: the backslash is gone and exactly one space is left.
   */
  lemma EscapedRunBecomesOneSpace(a: string, n: nat, b: string)
    requires EndsWithBackslash(a) && ' ' !in a
    requires b != "" && ' ' !in b
    requires n >= 1
    ensures Tokenize(Split(a + Spaces(n) + b)) == [a[..|a| - 1] + " " + b]
  {
    SplitTwoWords(a, Spaces(n), b);
    TokenizeSnoc([], a);
    TokenizeSnoc([a], b);
    assert [] + [a] == [a] && [a] + [b] == [a, b];
  }

  /** Two space-free words with a run of spaces between them split into those two words. */
  lemma SplitTwoWords(a: string, gap: string, b: string)
    requires ' ' !in a && b != "" && ' ' !in b
    requires gap != [] && forall k :: 0 <= k < |gap| ==> gap[k] == ' '
    ensures Split(a + gap + b) == [a, b]
  {
    var t := gap + b;
    assert a + gap + b == a + t;
    SplitFirstWord(a, t);
    assert b[0] in b;
    LeadingSpacesOfGap(gap, b);
    assert t[|gap|..] == b;
    SplitWithoutSpace(b);
  }

  /** A space-free word followed by a run of spaces is the first piece, and the split goes on after the run. */
  lemma SplitFirstWord(a: string, t: string)
    requires ' ' !in a && t != [] && t[0] == ' '
    ensures Split(a + t) == [a] + Split(t[LeadingSpaces(t)..])
  {
    var s := a + t;
    IndexOfSpaceOfWord(a, t);
    assert s[..|a|] == a && s[|a|..] == t;
    assert s[|a| + LeadingSpaces(t)..] == t[LeadingSpaces(t)..];
    assert AfterGap(s) == t[LeadingSpaces(t)..];
  }

  lemma {:induction false} LeadingSpacesOfGap(gap: string, b: string)
    requires forall k :: 0 <= k < |gap| ==> gap[k] == ' '
    requires b != [] && b[0] != ' '
    ensures LeadingSpaces(gap + b) == |gap|
  {
    if gap != [] {
      assert (gap + b)[1..] == gap[1..] + b;
      LeadingSpacesOfGap(gap[1..], b);
    } else {
      assert gap + b == b;
    }
  }

  /** One turn of the loop in `parseCommand`: a token after an escaped one is merged into it. */
  method AddToken(tokens: seq<string>, token: string) returns (r: seq<string>)
    ensures r == MergeStep(tokens, token)
  {
    if |tokens| > 0 && EndsWithBackslash(tokens[|tokens| - 1]) {
      // the previous token ends in a backslash: glue this one onto it
      var previousToken := tokens[|tokens| - 1];
      r := tokens[..|tokens| - 1] + [previousToken[..|previousToken| - 1] + " " + token];
    } else {
      r := tokens + [token];
    }
  }

  /** `parseCommand`. */
  method ParseCommand(command: CommandArgument) returns (r: Result<seq<string>, TypeError>)
    ensures command.OtherArgument? ==>
      r == Err(TypeError("First argument must be a string: " + command.text + "."))
    ensures command.StringArgument? ==> r == Ok(Tokens(command.s))
    ensures r.Ok? ==> |r.value| >= 1
  {
    if !command.StringArgument? {
      return Err(TypeError("First argument must be a string: " + command.text + "."));
    }
    var pieces := Split(Trim(command.s));
    var tokens: seq<string> := [];
    for i := 0 to |pieces|
      invariant tokens == Tokenize(pieces[..i])
    {
      TokenizePrefix(pieces, i);
      tokens := AddToken(tokens, pieces[i]);
    }
    assert pieces[..|pieces|] == pieces;
    return Ok(tokens);
  }

  /** Which function the tokens are handed to. */
  datatype Runner = Execa | ExecaSync

  /** A call of `execa(file, args, options)` or `execaSync(file, args, options)`. */
  datatype Invocation<O> = Invocation(runner: Runner, file: string, args: seq<string>, options: O)

  /** `execaCommand(command, options)`: the first token is the file, the others are its arguments. */
  method ExecaCommand<O>(command: CommandArgument, options: O) returns (r: Result<Invocation<O>, TypeError>)
    ensures command.OtherArgument? ==>
      r == Err(TypeError("First argument must be a string: " + command.text + "."))
    ensures command.StringArgument? ==> r.Ok? && r.value.runner == Execa && r.value.options == options
    ensures r.Ok? ==> [r.value.file] + r.value.args == Tokens(command.s)
  {
    var parsed := ParseCommand(command);
    if parsed.Err? {
      return Err(parsed.error);
    }
    var tokens := parsed.value;
    r := Ok(Invocation(Execa, tokens[0], tokens[1..], options));
  }

  /** `execaCommandSync(command, options)`: the same split, handed to `execaSync`. */
  method ExecaCommandSync<O>(command: CommandArgument, options: O) returns (r: Result<Invocation<O>, TypeError>)
    ensures command.OtherArgument? ==>
      r == Err(TypeError("First argument must be a string: " + command.text + "."))
    ensures command.StringArgument? ==> r.Ok? && r.value.runner == ExecaSync && r.value.options == options
    ensures r.Ok? ==> [r.value.file] + r.value.args == Tokens(command.s)
  {
    var parsed := ParseCommand(command);
    if parsed.Err? {
      return Err(parsed.error);
    }
    var tokens := parsed.value;
    r := Ok(Invocation(ExecaSync, tokens[0], tokens[1..], options));
  }
}
