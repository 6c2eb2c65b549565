/** The page that hosts both games: it turns the typed word list into words,
    asks the solver for a puzzle (with a fallback list when every typed word
    is rejected), reads the solver's textual routes back into cells, and keeps
    the attempts limit of the hangman within its bounds. */
module App {
  import opened Text
  import WordSearch
  import Hangman

  type Celda = WordSearch.Celda

  // ---------------------------------------------------------------------------
  // Word-list tokenizer: split on runs of `,` `;` or newline, trim, drop blanks
  // ---------------------------------------------------------------------------

  predicate IsSeparator(ch: char) { ch == ',' || ch == ';' || ch == '\n' }

  /** `s` holds none of the three separators. */
  predicate NoSeparator(s: string) {
    forall i :: 0 <= i < |s| ==> !IsSeparator(s[i])
  }

  /** The index of the first separator at or after `from`, or `|s|`. */
  function NextSeparator(s: string, from: nat): (i: nat)
    requires from <= |s|
    ensures from <= i <= |s|
    decreases |s| - from
  {
    if from == |s| || IsSeparator(s[from]) then from else NextSeparator(s, from + 1)
  }

  /** No separator before the one found, and a separator where it stops short of the end. */
  lemma {:induction false} NextSeparatorProps(s: string, from: nat)
    requires from <= |s|
    ensures var i := NextSeparator(s, from);
      (forall k :: from <= k < i ==> !IsSeparator(s[k])) && (i < |s| ==> IsSeparator(s[i]))
    decreases |s| - from
  {
    if from < |s| && !IsSeparator(s[from]) {
      NextSeparatorProps(s, from + 1);
    }
  }

  /** One piece between separators after `trim` and `filter(Boolean)`. */
  function Piece(p: string): (ws: seq<string>)
    ensures |ws| <= 1 && (ws != [] && NoSeparator(p) ==> IsWord(ws[0]))
  {
    var w := Trim(p);
    TrimProps(p);
    assert NoSeparator(p) ==> NoSeparator(w) by {
      TrimSlice(p);
      var i := SkipSpace(p, 0);
      forall k | 0 <= k < |w| && NoSeparator(p) ensures !IsSeparator(w[k]) {
        assert w[k] == p[i + k];
      }
    }
    if w == "" then [] else [w]
  }

  /** The words of a typed list, in the order they were typed. A run of
      separators leaves only blank pieces between them, and blank pieces are
      dropped, so splitting at every single separator gives the same words as
      splitting at runs. */
  function SplitWords(s: string): (ws: seq<string>)
    ensures AllWords(ws)
    decreases |s|
  {
    var i := NextSeparator(s, 0);
    NextSeparatorProps(s, 0);
    if i == |s| then Piece(s)
    else
      var p, rest := Piece(s[..i]), SplitWords(s[i + 1..]);
      AllWordsConcat(p, rest);
      p + rest
  }

  /** Every word is non-empty, trimmed and free of separators. */
  predicate AllWords(ws: seq<string>) {
    forall k :: 0 <= k < |ws| ==> IsWord(ws[k])
  }

  lemma AllWordsConcat(p: seq<string>, q: seq<string>)
    requires AllWords(p) && AllWords(q)
    ensures AllWords(p + q)
  {
    forall k | |p| <= k < |p + q| ensures IsWord((p + q)[k]) {
      assert (p + q)[k] == q[k - |p|];
    }
  }

  /** A piece without separators is one piece. */
  lemma SplitWordsPiece(a: string)
    requires NoSeparator(a)
    ensures SplitWords(a) == Piece(a)
  {
    NextSeparatorProps(a, 0);
  }

  /** The first separator of `a`, a separator and `b` is the first of `a`, or the one after `a`. */
  lemma NextSeparatorConcat(a: string, ch: char, b: string)
    requires IsSeparator(ch)
    ensures NextSeparator(a + [ch] + b, 0) == NextSeparator(a, 0)
  {
    var s := a + [ch] + b;
    NextSeparatorProps(s, 0);
    NextSeparatorProps(a, 0);
    assert forall k :: 0 <= k < |a| ==> s[k] == a[k];
    assert s[|a|] == ch;
  }

  /** Slicing `a + [x] + b` at the joint. */
  lemma SliceAtJoint<T>(a: seq<T>, x: T, b: seq<T>)
    ensures (a + [x] + b)[..|a|] == a && (a + [x] + b)[|a| + 1..] == b
  {
  }

  /** Slicing `a + [x] + b` around an element of `a`. */
  lemma SliceInside<T>(a: seq<T>, x: T, b: seq<T>, i: nat)
    requires i < |a|
    ensures (a + [x] + b)[..i] == a[..i] && (a + [x] + b)[i + 1..] == a[i + 1..] + [x] + b
  {
  }

  /** The words of `s` are its first piece and the words after the first separator. */
  lemma SplitWordsUnfold(s: string)
    ensures NextSeparator(s, 0) < |s| ==>
      SplitWords(s) == Piece(s[..NextSeparator(s, 0)]) + SplitWords(s[NextSeparator(s, 0) + 1..])
  {
  }

  /** `SplitWordsConcat` when `a` holds no separator. */
  lemma SplitWordsConcatPiece(a: string, ch: char, b: string)
    requires IsSeparator(ch) && NextSeparator(a, 0) == |a|
    ensures SplitWords(a + [ch] + b) == SplitWords(a) + SplitWords(b)
  {
    var s := a + [ch] + b;
    SliceAtJoint(a, ch, b);
    NextSeparatorConcat(a, ch, b);
    SplitWordsUnfold(s);
    NextSeparatorProps(a, 0);
    SplitWordsPiece(a);
  }

  /** The words of `a + [ch] + b` start with the first piece of `a`, when `a`
      holds a separator. */
  lemma SplitWordsHead(a: string, ch: char, b: string, i: nat)
    requires IsSeparator(ch) && i == NextSeparator(a, 0) && i < |a|
    ensures SplitWords(a + [ch] + b) == Piece(a[..i]) + SplitWords(a[i + 1..] + [ch] + b)
  {
    FirstSeparatorConcat(a, ch, b);
    SplitWordsUnfoldAt(a + [ch] + b, i, a[..i], a[i + 1..] + [ch] + b);
  }

  /** The first separator of `a + [ch] + b`, when `a` holds one, is that of
      `a`, with the same text on either side up to `ch`. */
  lemma FirstSeparatorConcat(a: string, ch: char, b: string)
    requires IsSeparator(ch) && NextSeparator(a, 0) < |a|
    ensures NextSeparator(a + [ch] + b, 0) == NextSeparator(a, 0)
    ensures (a + [ch] + b)[..NextSeparator(a, 0)] == a[..NextSeparator(a, 0)]
    ensures (a + [ch] + b)[NextSeparator(a, 0) + 1..] == a[NextSeparator(a, 0) + 1..] + [ch] + b
  {
    NextSeparatorConcat(a, ch, b);
    SliceInside(a, ch, b, NextSeparator(a, 0));
  }

  /** `SplitWordsUnfold` with the two sides of the first separator named. */
  lemma SplitWordsUnfoldAt(s: string, i: nat, x: string, y: string)
    requires i < |s| && NextSeparator(s, 0) == i && x == s[..i] && y == s[i + 1..]
    ensures SplitWords(s) == Piece(x) + SplitWords(y)
  {
    SplitWordsUnfold(s);
  }

  /** `SplitWordsConcat` when `a` holds a separator, given the property for
      the rest of `a` after it. */
  lemma SplitWordsConcatStep(a: string, ch: char, b: string, i: nat)
    requires IsSeparator(ch) && i == NextSeparator(a, 0) && i < |a|
    requires SplitWords(a[i + 1..] + [ch] + b) == SplitWords(a[i + 1..]) + SplitWords(b)
    ensures SplitWords(a + [ch] + b) == SplitWords(a) + SplitWords(b)
  {
    SplitWordsHead(a, ch, b, i);
    SplitWordsUnfoldAt(a, i, a[..i], a[i + 1..]);
    StepAlgebra(SplitWords(a + [ch] + b), SplitWords(a), SplitWords(b),
                Piece(a[..i]), SplitWords(a[i + 1..] + [ch] + b), SplitWords(a[i + 1..]));
  }

  lemma StepAlgebra<T>(whole: seq<T>, left: seq<T>, right: seq<T>, p: seq<T>, x: seq<T>, y: seq<T>)
    requires whole == p + x && left == p + y && x == y + right
    ensures whole == left + right
  {
    ConcatAssoc(p, y, right);
  }

  /** Splitting is compositional: the words of `a`, a separator and `b` are the
      words of `a` followed by the words of `b`. */
  lemma {:induction false} SplitWordsConcat(a: string, ch: char, b: string)
    requires IsSeparator(ch)
    ensures SplitWords(a + [ch] + b) == SplitWords(a) + SplitWords(b)
    decreases |a|
  {
    var i := NextSeparator(a, 0);
    if i == |a| {
      SplitWordsConcatPiece(a, ch, b);
    } else {
      SplitWordsConcat(a[i + 1..], ch, b);
      SplitWordsConcatStep(a, ch, b, i);
    }
  }

  /** Comma-joining a list of words (the inverse direction of the tokenizer). */
  function JoinWords(ws: seq<string>): string {
    if ws == [] then ""
    else if |ws| == 1 then ws[0]
    else ws[0] + [','] + JoinWords(ws[1..])
  }

  /** Words the tokenizer can return. */
  predicate IsWord(w: string) { w != "" && Trimmed(w) && NoSeparator(w) }

  /** A single word reads back as itself. */
  lemma SplitWordsWord(w: string)
    requires IsWord(w)
    ensures SplitWords(w) == [w]
  {
    SplitWordsPiece(w);
    TrimOfTrimmed(w);
  }

  /** The tokenizer reads back every list of words joined by commas. */
  lemma {:induction false} SplitJoinWords(ws: seq<string>)
    requires forall k :: 0 <= k < |ws| ==> IsWord(ws[k])
    ensures SplitWords(JoinWords(ws)) == ws
  {
    if ws == [] {
      assert SplitWords("") == Piece("");
    } else if |ws| == 1 {
      SplitWordsWord(ws[0]);
    } else {
      SplitJoinWords(ws[1..]);
      SplitJoinWordsStep(ws);
    }
  }

  /** The first word of a longer list reads back ahead of the others. */
  lemma SplitJoinWordsStep(ws: seq<string>)
    requires |ws| > 1 && IsWord(ws[0])
    requires SplitWords(JoinWords(ws[1..])) == ws[1..]
    ensures SplitWords(JoinWords(ws)) == ws
  {
    assert JoinWords(ws) == ws[0] + [','] + JoinWords(ws[1..]);
    SplitWordsConcat(ws[0], ',', JoinWords(ws[1..]));
    SplitWordsWord(ws[0]);
    assert ws == [ws[0]] + ws[1..];
  }

  /** The list a button works on: the typed words when the box is not blank,
      otherwise the lines of `palabras.txt` (given as `txt`). */
  function WordList(input: string, txt: seq<string>): (ws: seq<string>)
    ensures Trim(input) != "" ==> ws == SplitWords(input)
    ensures Trim(input) == "" ==> ws == txt
    ensures Trim(input) != "" ==> AllWords(ws)
  {
    if Trim(input) != "" then SplitWords(input) else txt
  }

  // ---------------------------------------------------------------------------
  // Route parsing: "Ruta: X(r,c); ..." into cells
  // ---------------------------------------------------------------------------

  const RoutePrefix: string := "Ruta: "

  /** `pat` occurs in `s` at index `k`. */
  predicate OccursAt(s: string, pat: string, k: nat) {
    k + |pat| <= |s| && s[k..k + |pat|] == pat
  }

  /** `indexOf`: the leftmost occurrence of `pat` at or after `from`. */
  function IndexOf(s: string, pat: string, from: nat): (r: Option<nat>)
    requires from <= |s|
    ensures r.Some? ==> from <= r.value && OccursAt(s, pat, r.value)
    ensures r.Some? ==> forall k :: from <= k < r.value ==> !OccursAt(s, pat, k)
    ensures r.None? ==> forall k :: from <= k <= |s| ==> !OccursAt(s, pat, k)
    decreases |s| - from
  {
    if OccursAt(s, pat, from) then Some(from)
    else if from == |s| then None
    else IndexOf(s, pat, from + 1)
  }

  /** `replace(pat, "")` with a string pattern: only the first occurrence goes. */
  function ReplaceFirst(s: string, pat: string): (r: string)
    ensures IndexOf(s, pat, 0).None? ==> r == s
    ensures IndexOf(s, pat, 0).Some? ==> |r| == |s| - |pat|
    ensures IndexOf(s, pat, 0).Some? ==>
      exists k: nat :: OccursAt(s, pat, k) && (forall j: nat :: 0 <= j < k ==> !OccursAt(s, pat, j))
                  && r == s[..k] + s[k + |pat|..]
  {
    match IndexOf(s, pat, 0)
    case None => s
    case Some(k) => s[..k] + s[k + |pat|..]
  }

  predicate IsUpperAZ(ch: char) { 'A' <= ch <= 'Z' }

  /** The end of the run of digits that starts at `from`. */
  function DigitEnd(t: string, from: nat): (j: nat)
    requires from <= |t|
    ensures from <= j <= |t|
    ensures forall k :: from <= k < j ==> IsDigit(t[k])
    ensures j < |t| ==> !IsDigit(t[j])
    decreases |t| - from
  {
    if from == |t| || !IsDigit(t[from]) then from else DigitEnd(t, from + 1)
  }

  /** A cell the route parser can produce: one letter `A`..`Z` and two
      coordinates read from digit runs. */
  predicate RouteCell(c: Celda) {
    |c.letra| == 1 && IsUpperAZ(c.letra[0]) && c.fila >= 0 && c.columna >= 0
  }

  predicate AllRouteCells(cells: seq<Celda>) {
    forall i :: 0 <= i < |cells| ==> RouteCell(cells[i])
  }

  /** The pattern `([A-Z])\((\d+),(\d+)\)` tried at index `p`. A digit run is
      never followed by a digit, so the engine's greedy runs are the maximal
      ones and no backtracking can change the outcome. */
  function MatchAt(t: string, p: nat): (m: Option<Celda>)
    requires p <= |t|
    ensures m.Some? ==> p + 1 < |t| && t[p + 1] == '(' && RouteCell(m.value) && m.value.letra == [t[p]]
  {
    if p + 1 < |t| && IsUpperAZ(t[p]) && t[p + 1] == '(' then
      var e1 := DigitEnd(t, p + 2);
      if e1 > p + 2 && e1 < |t| && t[e1] == ',' then
        var e2 := DigitEnd(t, e1 + 1);
        if e2 > e1 + 1 && e2 < |t| && t[e2] == ')' then
          assert AllDigits(t[p + 2..e1]) && AllDigits(t[e1 + 1..e2]);
          Some(WordSearch.Celda(DigitsValue(t[p + 2..e1]), DigitsValue(t[e1 + 1..e2]), [t[p]]))
        else None
      else None
    else None
  }

  /** The text at `p` has the pattern's shape with the comma at `e1` and the
      closing parenthesis at `e2`: a capital, `(`, a digit run, `,`, a digit
      run and `)`. */
  predicate PatternAt(t: string, p: nat, e1: nat, e2: nat) {
    p + 2 < e1 && e1 + 1 < e2 < |t| && IsUpperAZ(t[p]) && t[p + 1] == '('
    && AllDigits(t[p + 2..e1]) && t[e1] == ',' && AllDigits(t[e1 + 1..e2]) && t[e2] == ')'
  }

  /** A match at `p` has the pattern's shape. */
  lemma MatchAtShape(t: string, p: nat)
    requires p <= |t|
    ensures MatchAt(t, p).Some? ==> exists e1: nat, e2: nat :: PatternAt(t, p, e1, e2)
  {
    if MatchAt(t, p).Some? {
      var e1 := DigitEnd(t, p + 2);
      var e2 := DigitEnd(t, e1 + 1);
      assert PatternAt(t, p, e1, e2);
    }
  }

  /** Where the text has the pattern's shape, `MatchAt` succeeds and reads the
      letter and the two numbers between the delimiters. */
  lemma MatchAtOfShape(t: string, p: nat, e1: nat, e2: nat)
    requires PatternAt(t, p, e1, e2)
    ensures MatchAt(t, p) == Some(WordSearch.Celda(DigitsValue(t[p + 2..e1]), DigitsValue(t[e1 + 1..e2]), [t[p]]))
  {
    DigitRun(t, p + 2, t[p + 2..e1]);
    DigitRun(t, e1 + 1, t[e1 + 1..e2]);
  }

  /** The leftmost index at or after `from` where the pattern matches. */
  function FirstMatch(t: string, from: nat): (r: Option<nat>)
    requires from <= |t|
    ensures r.Some? ==> from <= r.value <= |t| && MatchAt(t, r.value).Some?
    ensures r.Some? ==> forall p :: from <= p < r.value ==> MatchAt(t, p).None?
    ensures r.None? ==> forall p :: from <= p <= |t| ==> MatchAt(t, p).None?
    decreases |t| - from
  {
    if MatchAt(t, from).Some? then Some(from)
    else if from == |t| then None
    else FirstMatch(t, from + 1)
  }

  /** One `;`-token: trimmed, then searched for the leftmost match. */
  function ParseCoord(token: string): (m: Option<Celda>)
    ensures m.Some? ==> RouteCell(m.value)
    ensures m.None? <==> FirstMatch(Trim(token), 0).None?
  {
    var t := Trim(token);
    match FirstMatch(t, 0)
    case None => None
    case Some(p) => MatchAt(t, p)
  }

  /** One token after `map` and `filter`: its cell, or nothing for `null`. */
  function ParseOne(token: string): (cells: seq<Celda>)
    ensures |cells| <= 1 && AllRouteCells(cells)
    ensures cells != [] <==> ParseCoord(token).Some?
  {
    match ParseCoord(token)
    case Some(c) => [c]
    case None => []
  }

  /** `map` to a cell or `null`, then `filter` out the nulls. */
  function ParseTokens(toks: seq<string>): (cells: seq<Celda>)
    ensures |cells| <= |toks|
    ensures AllRouteCells(cells)
  {
    if toks == [] then [] else ParseOne(toks[0]) + ParseTokens(toks[1..])
  }

  /** `parsearRuta`. */
  function ParseRoute(respuesta: string): (cells: seq<Celda>)
    ensures AllRouteCells(cells)
    ensures |cells| <= |Split(ReplaceFirst(respuesta, RoutePrefix), ';')|
  {
    ParseTokens(Split(ReplaceFirst(respuesta, RoutePrefix), ';'))
  }

  /** Tokens are parsed one by one: the cells of two token lists are the cells
      of the first followed by the cells of the second, in token order. */
  lemma {:induction false} ParseTokensAppend(a: seq<string>, b: seq<string>)
    ensures ParseTokens(a + b) == ParseTokens(a) + ParseTokens(b)
  {
    if a == [] {
      assert a + b == b;
    } else {
      assert (a + b)[0] == a[0] && (a + b)[1..] == a[1..] + b;
      ParseTokensAppend(a[1..], b);
      var x := ParseOne(a[0]);
      assert ParseTokens(a + b) == x + ParseTokens(a[1..] + b);
      assert ParseTokens(a) == x + ParseTokens(a[1..]);
      ConcatAssoc(x, ParseTokens(a[1..]), ParseTokens(b));
    }
  }

  lemma ConcatAssoc<T>(x: seq<T>, y: seq<T>, z: seq<T>)
    ensures x + (y + z) == (x + y) + z
  {
  }

  /** The first token's cell, if any, comes before the cells of the rest. */
  lemma ParseTokensCons(tok: string, toks: seq<string>)
    ensures ParseTokens([tok] + toks) == ParseOne(tok) + ParseTokens(toks)
  {
    assert ([tok] + toks)[0] == tok && ([tok] + toks)[1..] == toks;
  }

  // ---- the solver's encoding, and reading it back ----

  /** `X(r,c)` for one cell. */
  function FormatCell(c: Celda): (s: string)
    requires RouteCell(c)
  {
    c.letra + "(" + NatToString(c.fila) + "," + NatToString(c.columna) + ")"
  }

  /** `Ruta: ` and the cells joined by `; `. */
  function JoinCells(cells: seq<Celda>): string
    requires AllRouteCells(cells)
  {
    if cells == [] then ""
    else if |cells| == 1 then FormatCell(cells[0])
    else FormatCell(cells[0]) + "; " + JoinCells(cells[1..])
  }

  function FormatRoute(cells: seq<Celda>): string
    requires AllRouteCells(cells)
  {
    RoutePrefix + JoinCells(cells)
  }

  /** The shape of one formatted cell. */
  lemma FormatCellShape(c: Celda)
    requires RouteCell(c)
    ensures var s := FormatCell(c); Lacks(s, ';') && Trimmed(s) && MatchAt(s, 0) == Some(c)
  {
    var d1, d2 := NatToString(c.fila), NatToString(c.columna);
    CellLayout(c.letra[0], d1, d2);
    DigitsRoundTrip(c.fila);
    DigitsRoundTrip(c.columna);
    assert c.letra == [c.letra[0]];
  }

  /** `L(d1,d2)` for a letter and two digit strings: no `;`, no surrounding
      space, and the pattern matches at its start reading back both numbers. */
  lemma CellLayout(l: char, d1: string, d2: string)
    requires IsUpperAZ(l) && d1 != [] && d2 != [] && AllDigits(d1) && AllDigits(d2)
    ensures var s := [l] + "(" + d1 + "," + d2 + ")";
      Lacks(s, ';') && Trimmed(s)
      && MatchAt(s, 0) == Some(WordSearch.Celda(DigitsValue(d1), DigitsValue(d2), [l]))
  {
    var s := [l] + "(" + d1 + "," + d2 + ")";
    CellIndices(l, d1, d2, s);
    CellMatch(s, l, d1, d2);
    CellLacks(s, l, d1, d2);
  }

  /** Where each part of `L(d1,d2)` sits. */
  predicate CellParts(s: string, l: char, d1: string, d2: string) {
    var e1, e2 := 2 + |d1|, 3 + |d1| + |d2|;
    |s| == e2 + 1 && s[0] == l && s[1] == '(' && s[e1] == ',' && s[e2] == ')'
    && s[2..e1] == d1 && s[e1 + 1..e2] == d2
  }

  lemma CellIndices(l: char, d1: string, d2: string, s: string)
    requires s == [l] + "(" + d1 + "," + d2 + ")"
    ensures CellParts(s, l, d1, d2)
  {
    var e1 := 2 + |d1|;
    assert s[2..e1] == d1;
    assert s[e1 + 1..|s| - 1] == d2;
  }

  lemma CellMatch(s: string, l: char, d1: string, d2: string)
    requires CellParts(s, l, d1, d2)
    requires IsUpperAZ(l) && d1 != [] && d2 != [] && AllDigits(d1) && AllDigits(d2)
    ensures MatchAt(s, 0) == Some(WordSearch.Celda(DigitsValue(d1), DigitsValue(d2), [l]))
  {
    var e1 := 2 + |d1|;
    DigitRun(s, 2, d1);
    DigitRun(s, e1 + 1, d2);
  }

  lemma CellLacks(s: string, l: char, d1: string, d2: string)
    requires CellParts(s, l, d1, d2)
    requires IsUpperAZ(l) && AllDigits(d1) && AllDigits(d2)
    ensures Lacks(s, ';') && Trimmed(s)
  {
    var e1, e2 := 2 + |d1|, 3 + |d1| + |d2|;
    forall k | 0 <= k < |s| ensures s[k] != ';' {
      if 2 <= k < e1 {
        assert s[k] == s[2..e1][k - 2];
      } else if e1 + 1 <= k < e2 {
        assert s[k] == s[e1 + 1..e2][k - e1 - 1];
      }
    }
  }

  /** A run of digits followed by a non-digit ends exactly there. */
  lemma DigitRun(s: string, from: nat, d: string)
    requires from + |d| < |s| && s[from..from + |d|] == d && AllDigits(d) && !IsDigit(s[from + |d|])
    ensures DigitEnd(s, from) == from + |d|
  {
    var j := DigitEnd(s, from);
    if j < from + |d| {
      assert false;
    }
  }

  /** A token holding one formatted cell, with or without the space after `;`. */
  lemma ParseFormattedToken(c: Celda, lead: string)
    requires RouteCell(c)
    requires lead == "" || lead == " "
    ensures ParseCoord(lead + FormatCell(c)) == Some(c)
  {
    var s := FormatCell(c);
    FormatCellShape(c);
    if lead == "" {
      assert lead + s == s;
      TrimOfTrimmed(s);
    } else {
      TrimLeadingSpace(' ', s);
    }
    assert FirstMatch(s, 0) == Some(0);
  }

  /** The text after the first cell: its `;`, a space, and the other cells. */
  lemma JoinCellsCons(cells: seq<Celda>, lead: string)
    requires AllRouteCells(cells) && |cells| > 1
    ensures lead + JoinCells(cells) == (lead + FormatCell(cells[0])) + [';'] + (" " + JoinCells(cells[1..]))
  {
    var a := FormatCell(cells[0]);
    var b := JoinCells(cells[1..]);
    assert JoinCells(cells) == a + "; " + b;
    assert "; " == [';'] + " ";
    Regroup(lead, a, ';', " ", b);
  }

  lemma Regroup<T>(l: seq<T>, a: seq<T>, x: T, y: seq<T>, b: seq<T>)
    ensures l + (a + ([x] + y) + b) == (l + a) + [x] + (y + b)
  {
  }

  /** The tokens of an empty route parse to nothing. */
  lemma ParseEmptyJoin(lead: string)
    requires lead == "" || lead == " "
    ensures ParseTokens(Split(lead, ';')) == []
  {
    SplitWhole(lead, ';');
    assert ParseCoord(lead).None?;
    ParseTokensCons(lead, []);
    assert [lead] + [] == [lead];
  }

  /** A formatted cell, after an optional space, is one token holding that cell. */
  lemma FormattedToken(c: Celda, lead: string)
    requires RouteCell(c)
    requires lead == "" || lead == " "
    ensures Lacks(lead + FormatCell(c), ';')
    ensures ParseOne(lead + FormatCell(c)) == [c]
  {
    FormatCellShape(c);
    ParseFormattedToken(c, lead);
  }

  /** A route of one cell is one token. */
  lemma ParseJoinOne(c: Celda, lead: string)
    requires RouteCell(c)
    requires lead == "" || lead == " "
    ensures ParseTokens(Split(lead + FormatCell(c), ';')) == [c]
  {
    var x := lead + FormatCell(c);
    FormattedToken(c, lead);
    SplitWhole(x, ';');
    ParseTokensCons(x, []);
    assert [x] + [] == [x];
  }

  /** The first cell of a longer route is its own token, before the others,
      which read back by `ParseJoin`. */
  lemma {:induction false} ParseJoinStep(cells: seq<Celda>, lead: string)
    requires AllRouteCells(cells) && |cells| > 1
    requires lead == "" || lead == " "
    ensures ParseTokens(Split(lead + JoinCells(cells), ';')) == cells
    decreases |cells|, 0
  {
    var x := lead + FormatCell(cells[0]);
    var rest := " " + JoinCells(cells[1..]);
    ParseJoin(cells[1..], " ");
    FormattedToken(cells[0], lead);
    JoinCellsCons(cells, lead);
    ParseSplitCons(x, rest, cells[0], cells[1..]);
    assert [cells[0]] + cells[1..] == cells;
  }

  /** A `;`-free token yielding `c`, a `;`, and text whose tokens yield `tail`,
      yield `c` followed by `tail`. */
  lemma ParseSplitCons(x: string, rest: string, c: Celda, tail: seq<Celda>)
    requires Lacks(x, ';') && ParseOne(x) == [c]
    requires ParseTokens(Split(rest, ';')) == tail
    ensures ParseTokens(Split(x + [';'] + rest, ';')) == [c] + tail
  {
    SplitAtSeparator(x, rest, ';');
    ParseTokensCons(x, Split(rest, ';'));
  }

  /** The `;`-tokens of a joined route, each parsed back to its cell. */
  lemma {:induction false} ParseJoin(cells: seq<Celda>, lead: string)
    requires AllRouteCells(cells)
    requires lead == "" || lead == " "
    ensures ParseTokens(Split(lead + JoinCells(cells), ';')) == cells
    decreases |cells|, 1
  {
    if cells == [] {
      assert lead + JoinCells(cells) == lead;
      ParseEmptyJoin(lead);
    } else if |cells| == 1 {
      ParseJoinOne(cells[0], lead);
    } else {
      ParseJoinStep(cells, lead);
    }
  }

  /** Reading back the solver's encoding of a route gives the route. */
  lemma RouteRoundTrip(cells: seq<Celda>)
    requires AllRouteCells(cells)
    ensures ParseRoute(FormatRoute(cells)) == cells
  {
    var j := JoinCells(cells);
    var s := FormatRoute(cells);
    assert s[0..|RoutePrefix|] == RoutePrefix;
    assert IndexOf(s, RoutePrefix, 0) == Some(0);
    assert s[|RoutePrefix|..] == j;
    assert ReplaceFirst(s, RoutePrefix) == j;
    assert "" + j == j;
    ParseJoin(cells, "");
  }

  // ---------------------------------------------------------------------------
  // Messages shown in the result banner
  // ---------------------------------------------------------------------------

  const NoWordsText: string := "❌ No se encontraron palabras válidas"
  const GenerateErrorText: string := "❌ Error al generar la sopa de letras"
  const NoPuzzleText: string := "Primero genera una sopa 😅"
  const HangmanNoWordsText: string := "❌ No se encontraron palabras válidas para el ahorcado"
  const HangmanDefaultText: string := "Juego de ahorcado generado. ¡Adivina antes de que los intentos se acaben!"
  const HangmanErrorText: string := "❌ Error al generar el juego de ahorcado"

  function BackupText(valid: nat): string {
    "⚠️ Todas tus palabras fueron filtradas, usando palabras de respaldo ✅ (" + NatToString(valid) + " palabras válidas)"
  }

  function GeneratedBase(valid: nat): string {
    "Sopa de letras generada ✅ (" + NatToString(valid) + " palabras válidas)"
  }

  function FilteredNote(dropped: nat): string {
    " - " + NatToString(dropped) + " palabras filtradas (3-10 caracteres, máx 12 palabras)"
  }

  /** The success message: the count of valid words, followed by how many
      were dropped only when the solver dropped some. */
  function GeneratedText(orig: nat, valid: nat): (msg: string)
    ensures GeneratedBase(valid) <= msg
    ensures msg != GeneratedBase(valid) <==> orig > valid
    ensures orig > valid ==> msg[|GeneratedBase(valid)|..] == FilteredNote(orig - valid)
  {
    var dropped := orig - valid;
    if dropped > 0 then GeneratedBase(valid) + FilteredNote(dropped) else GeneratedBase(valid)
  }

  function SolutionsText(found: nat, total: nat): string {
    "Soluciones mostradas 🔍 (" + NatToString(found) + "/" + NatToString(total) + " palabras encontradas)"
  }

  // ---------------------------------------------------------------------------
  // Puzzle generation
  // ---------------------------------------------------------------------------

  /** The solver's answer to a puzzle request: the placed cells and, when it
      sends one, the list of words it kept; or a failed request. */
  datatype MatrizReply = Matriz(placed: seq<Celda>, palabrasFiltradas: Option<seq<string>>) | MatrizError

  /** `place.palabrasFiltradas || list`: an absent list means the solver kept
      the request's list (an empty array is still a list). */
  function Kept(reply: MatrizReply, list: seq<string>): seq<string>
    requires reply.Matriz?
  {
    reply.palabrasFiltradas.GetOr(list)
  }

  /** `||` keeps any array the solver sends, even an empty one, since an empty
      array is truthy; only a missing list falls back to the request's list. */
  lemma KeptTruthy(reply: MatrizReply, list: seq<string>)
    requires reply.Matriz?
    ensures reply.palabrasFiltradas == Some([]) ==> Kept(reply, list) == []
    ensures Kept(reply, list) == [] <==> reply.palabrasFiltradas == Some([]) || (reply.palabrasFiltradas.None? && list == [])
    ensures reply.palabrasFiltradas.Some? ==> Kept(reply, list) == reply.palabrasFiltradas.value
  {
  }

  /** What the banner reports after the generate button. */
  datatype Aviso = SinPalabras | ErrorSopa | Respaldo(valid: nat) | Generada(orig: nat, valid: nat)

  /** The banner text of each report. */
  function AvisoText(a: Aviso): string {
    match a
    case SinPalabras => NoWordsText
    case ErrorSopa => GenerateErrorText
    case Respaldo(valid) => BackupText(valid)
    case Generada(orig, valid) => GeneratedText(orig, valid)
  }

  /** The outcome of the generate button: a report alone, or a new puzzle. */
  datatype Generado =
    | Fallo(aviso: Aviso)
    | Sopa(placed: seq<Celda>, palabras: seq<string>, aviso: Aviso)

  /** The fallback list is requested: the list came from the typed box, the
      solver kept none of its words, and `palabras.txt` has some. */
  predicate BackupTried(typed: bool, list: seq<string>, txt: seq<string>, first: MatrizReply) {
    list != [] && first.Matriz? && Kept(first, list) == [] && typed && |txt| > 0
  }

  /** `generar` once the word list is known: `typed` says whether the box was
      not blank, `list` is the word list, `txt` the lines of `palabras.txt`,
      `first` and `backup` the solver's answers to the request and to the
      fallback request. */
  function GenerarSpec(typed: bool, list: seq<string>, txt: seq<string>, first: MatrizReply, backup: MatrizReply): (g: Generado)
    ensures g == Fallo(SinPalabras) <==> list == []
    ensures g == Fallo(ErrorSopa) <==>
      list != [] && (first.MatrizError? || (BackupTried(typed, list, txt, first) && backup.MatrizError?))
    ensures g.Fallo? ==> g.aviso == SinPalabras || g.aviso == ErrorSopa
    ensures g.Sopa? && g.aviso.Respaldo? <==> BackupTried(typed, list, txt, first) && backup.Matriz? && Kept(backup, txt) != []
    ensures g.Sopa? && g.aviso.Respaldo? ==>
      g.placed == backup.placed && g.palabras == UpperAll(Kept(backup, txt)) && g.aviso == Respaldo(|g.palabras|)
    ensures g.Sopa? && !g.aviso.Respaldo? ==>
      first.Matriz? && g.placed == first.placed && g.palabras == UpperAll(Kept(first, list))
      && g.aviso == Generada(|list|, |g.palabras|)
    ensures g.Sopa? ==> forall i :: 0 <= i < |g.palabras| ==> Upper(g.palabras[i]) == g.palabras[i]
  {
    if list == [] then Fallo(SinPalabras)
    else if first.MatrizError? then Fallo(ErrorSopa)
    else if BackupTried(typed, list, txt, first) && backup.MatrizError? then Fallo(ErrorSopa)
    else if BackupTried(typed, list, txt, first) && Kept(backup, txt) != [] then
      var ws := UpperAll(Kept(backup, txt));
      UpperAllIdempotent(Kept(backup, txt));
      Sopa(backup.placed, ws, Respaldo(|ws|))
    else
      var ws := UpperAll(Kept(first, list));
      UpperAllIdempotent(Kept(first, list));
      Sopa(first.placed, ws, Generada(|list|, |ws|))
  }

  /** Every word of an upper-cased list is its own upper case. */
  lemma UpperAllIdempotent(ws: seq<string>)
    ensures forall i :: 0 <= i < |ws| ==> Upper(UpperAll(ws)[i]) == UpperAll(ws)[i]
  {
    forall i | 0 <= i < |ws| ensures Upper(UpperAll(ws)[i]) == UpperAll(ws)[i] {
      UpperIdempotent(ws[i]);
    }
  }

  // ---------------------------------------------------------------------------
  // Routes table
  // ---------------------------------------------------------------------------

  /** The solver's answer to a word search: its text, or a failed request. */
  datatype BusquedaReply = Texto(texto: string) | BusquedaError

  /** The route an answer yields: the cells of a text that starts with
      `Ruta:`, and none for any other answer. */
  function RouteOf(r: BusquedaReply): (cells: seq<Celda>)
    ensures AllRouteCells(cells)
    ensures cells != [] ==> r.Texto? && "Ruta:" <= r.texto
  {
    if r.Texto? && "Ruta:" <= r.texto then ParseRoute(r.texto) else []
  }

  /** The routes of a list of answers, one per answer. */
  function RoutesFrom(rs: seq<BusquedaReply>): (routes: seq<seq<Celda>>)
    ensures |routes| == |rs|
    ensures forall i :: 0 <= i < |rs| ==> routes[i] == RouteOf(rs[i])
  {
    seq(|rs|, i requires 0 <= i < |rs| => RouteOf(rs[i]))
  }

  /** The table built by the loop after its first `|ws|` rounds: a word whose
      answer yields a route gets that route, overwriting any earlier entry;
      an answer without a route leaves the table as it is. */
  function RoutesOf(ws: seq<string>, routes: seq<seq<Celda>>): map<string, seq<Celda>>
    requires |ws| == |routes|
    decreases |ws|
  {
    if ws == [] then map[]
    else
      var n := |ws| - 1;
      var prev := RoutesOf(ws[..n], routes[..n]);
      if routes[n] != [] then prev[ws[n] := routes[n]] else prev
  }

  /** Every entry of the table belongs to a searched word and holds one of
      the routes, which is non-empty and made of route cells. */
  lemma {:induction false} RoutesOfSound(ws: seq<string>, routes: seq<seq<Celda>>)
    requires |ws| == |routes|
    requires forall i :: 0 <= i < |routes| ==> AllRouteCells(routes[i])
    ensures forall w :: w in RoutesOf(ws, routes) ==>
              w in ws && RoutesOf(ws, routes)[w] != [] && AllRouteCells(RoutesOf(ws, routes)[w])
    decreases |ws|
  {
    if ws != [] {
      var n := |ws| - 1;
      assert forall i :: 0 <= i < n ==> routes[..n][i] == routes[i];
      RoutesOfSound(ws[..n], routes[..n]);
      assert forall w :: w in ws[..n] ==> w in ws;
    }
  }

  /** One more round of the loop. */
  lemma RoutesOfSnoc(ws: seq<string>, routes: seq<seq<Celda>>, i: nat)
    requires |ws| == |routes| && i < |ws|
    ensures RoutesOf(ws[..i + 1], routes[..i + 1]) ==
      if routes[i] != [] then RoutesOf(ws[..i], routes[..i])[ws[i] := routes[i]] else RoutesOf(ws[..i], routes[..i])
  {
    assert ws[..i + 1][..i] == ws[..i] && routes[..i + 1][..i] == routes[..i];
  }

  /** The loop of `soluciones` over the words and the solver's answers. */
  method BuildRoutes(palabras: seq<string>, replies: seq<BusquedaReply>) returns (nuevasRutas: map<string, seq<Celda>>)
    requires |replies| == |palabras|
    ensures nuevasRutas == RoutesOf(palabras, RoutesFrom(replies))
  {
    nuevasRutas := map[];
    var i := 0;
    while i < |palabras|
      invariant 0 <= i <= |palabras|
      invariant nuevasRutas == RoutesOf(palabras[..i], RoutesFrom(replies)[..i])
    {
      var palabra := palabras[i];
      var respuesta := replies[i];
      RoutesOfSnoc(palabras, RoutesFrom(replies), i);
      if respuesta.Texto? && "Ruta:" <= respuesta.texto {
        var coordenadas := ParseRoute(respuesta.texto);
        if |coordenadas| > 0 {
          nuevasRutas := nuevasRutas[palabra := coordenadas];
        }
      }
      i := i + 1;
    }
    assert palabras[..i] == palabras && RoutesFrom(replies)[..i] == RoutesFrom(replies);
  }

  /** A word has an entry exactly when one of its searches yielded a route. */
  lemma {:induction false} RoutesOfKeys(ws: seq<string>, routes: seq<seq<Celda>>, w: string)
    requires |ws| == |routes|
    ensures w in RoutesOf(ws, routes) <==> exists i :: 0 <= i < |ws| && ws[i] == w && routes[i] != []
    decreases |ws|
  {
    if ws != [] {
      var n := |ws| - 1;
      RoutesOfKeys(ws[..n], routes[..n], w);
      if w in RoutesOf(ws[..n], routes[..n]) {
        var i :| 0 <= i < n && ws[..n][i] == w && routes[..n][i] != [];
        assert ws[i] == w && routes[i] != [];
      }
      if exists i :: 0 <= i < |ws| && ws[i] == w && routes[i] != [] {
        var i :| 0 <= i < |ws| && ws[i] == w && routes[i] != [];
        if i < n {
          assert ws[..n][i] == w && routes[..n][i] != [];
        }
      }
    }
  }

  /** The entry of a word is the route of its last search that yielded one. */
  lemma {:induction false} RoutesOfLast(ws: seq<string>, routes: seq<seq<Celda>>, i: nat)
    requires |ws| == |routes| && i < |ws| && routes[i] != []
    requires forall j :: i < j < |ws| && ws[j] == ws[i] ==> routes[j] == []
    ensures ws[i] in RoutesOf(ws, routes) && RoutesOf(ws, routes)[ws[i]] == routes[i]
    decreases |ws|
  {
    var n := |ws| - 1;
    if i < n {
      RoutesOfLast(ws[..n], routes[..n], i);
    }
  }

  // ---------------------------------------------------------------------------
  // Hangman options
  // ---------------------------------------------------------------------------

  /** `Math.min(12, Math.max(3, value))`. */
  function ClampIntentos(value: int): (r: int)
    ensures 3 <= r <= 12
    ensures 3 <= value <= 12 ==> r == value
    ensures value < 3 ==> r == 3
    ensures value > 12 ==> r == 12
  {
    if value < 3 then 3 else if value > 12 then 12 else value
  }

  /** The options sent when a hangman session is requested. */
  datatype OpcionesAhorcado = OpcionesAhorcado(palabras: seq<string>, maxIntentos: int)

  // ---------------------------------------------------------------------------
  // The page state
  // ---------------------------------------------------------------------------

  datatype Pantalla = Menu | SopaDeLetras | Ahorcado

  class AppState {
    var currentGame: Pantalla
    var input: string
    var placed: seq<Celda>
    var resultado: string
    var palabras: seq<string>
    var rutas: map<string, seq<Celda>>
    var palabrasEncontradas: seq<Celda>
    var hangmanEstado: Option<Hangman.Snapshot>
    var maxIntentos: int
    var hangmanInput: string

    /** The attempts limit is within its bounds, the puzzle words are upper
        case, and every route belongs to a puzzle word and has cells. */
    ghost predicate Valid()
      reads this
    {
      3 <= maxIntentos <= 12
      && (forall i :: 0 <= i < |palabras| ==> Upper(palabras[i]) == palabras[i])
      && (forall w :: w in rutas ==> w in palabras && rutas[w] != [] && AllRouteCells(rutas[w]))
    }

    constructor ()
      ensures Valid()
      ensures currentGame == Menu && input == "" && placed == [] && resultado == "" && palabras == []
      ensures rutas == map[] && palabrasEncontradas == [] && hangmanEstado == None
      ensures maxIntentos == 7 && hangmanInput == ""
    {
      currentGame := Menu;
      input := "";
      placed := [];
      resultado := "";
      palabras := [];
      rutas := map[];
      palabrasEncontradas := [];
      hangmanEstado := None;
      maxIntentos := 7;
      hangmanInput := "";
    }

    /** `handleGameSelection`. */
    method SelectGame(game: Pantalla)
      requires game != Menu
      modifies this
      ensures currentGame == game
      ensures input == old(input) && placed == old(placed) && resultado == old(resultado)
      ensures palabras == old(palabras) && rutas == old(rutas) && palabrasEncontradas == old(palabrasEncontradas)
      ensures hangmanEstado == old(hangmanEstado) && maxIntentos == old(maxIntentos) && hangmanInput == old(hangmanInput)
    {
      currentGame := game;
    }

    /** `generar`: `txt` stands for the lines of `palabras.txt` (read at most
        once on any path), `first` and `backup` for the solver's answers. */
    method Generar(txt: seq<string>, first: MatrizReply, backup: MatrizReply)
      requires Valid()
      modifies this
      ensures Valid()
      ensures var g := GenerarSpec(Trim(old(input)) != "", WordList(old(input), txt), txt, first, backup);
        resultado == AvisoText(g.aviso)
        && (g.Fallo? ==> placed == old(placed) && palabras == old(palabras)
                         && rutas == old(rutas) && palabrasEncontradas == old(palabrasEncontradas))
        && (g.Sopa? ==> placed == g.placed && palabras == g.palabras && rutas == map[] && palabrasEncontradas == [])
      ensures currentGame == old(currentGame) && input == old(input) && hangmanEstado == old(hangmanEstado)
      ensures maxIntentos == old(maxIntentos) && hangmanInput == old(hangmanInput)
    {
      var typed := Trim(input) != "";
      var palabrasList: seq<string>;
      if typed {
        palabrasList := SplitWords(input);
      } else {
        palabrasList := txt;
      }
      assert palabrasList == WordList(input, txt);
      GenerarCon(typed, palabrasList, txt, first, backup);
    }

    /** The rest of `generar` once the word list is known; `typed` says whether
        it came from the box. */
    method GenerarCon(typed: bool, palabrasList: seq<string>, txt: seq<string>, first: MatrizReply, backup: MatrizReply)
      requires Valid()
      modifies this
      ensures Valid()
      ensures var g := GenerarSpec(typed, palabrasList, txt, first, backup);
        resultado == AvisoText(g.aviso)
        && (g.Fallo? ==> placed == old(placed) && palabras == old(palabras)
                         && rutas == old(rutas) && palabrasEncontradas == old(palabrasEncontradas))
        && (g.Sopa? ==> placed == g.placed && palabras == g.palabras && rutas == map[] && palabrasEncontradas == [])
      ensures currentGame == old(currentGame) && input == old(input) && hangmanEstado == old(hangmanEstado)
      ensures maxIntentos == old(maxIntentos) && hangmanInput == old(hangmanInput)
    {
      ghost var g := GenerarSpec(typed, palabrasList, txt, first, backup);
      if |palabrasList| == 0 {
        assert g == Fallo(SinPalabras);
        resultado := AvisoText(SinPalabras);
        return;
      }
      if first.MatrizError? {
        assert g == Fallo(ErrorSopa);
        resultado := AvisoText(ErrorSopa);
        return;
      }
      var palabrasFiltradas := first.palabrasFiltradas.GetOr(palabrasList);
      if |palabrasFiltradas| == 0 && typed {
        var palabrasRespaldo := txt;
        if |palabrasRespaldo| > 0 {
          assert BackupTried(typed, palabrasList, txt, first);
          if backup.MatrizError? {
            assert g == Fallo(ErrorSopa);
            resultado := AvisoText(ErrorSopa);
            return;
          }
          var palabrasFiltradasRespaldo := backup.palabrasFiltradas.GetOr(palabrasRespaldo);
          if |palabrasFiltradasRespaldo| > 0 {
            assert g == Sopa(backup.placed, UpperAll(palabrasFiltradasRespaldo), Respaldo(|palabrasFiltradasRespaldo|));
            Publicar(backup.placed, palabrasFiltradasRespaldo, AvisoText(Respaldo(|palabrasFiltradasRespaldo|)));
            return;
          }
        }
      }
      assert g == Sopa(first.placed, UpperAll(palabrasFiltradas), Generada(|palabrasList|, |palabrasFiltradas|));
      Publicar(first.placed, palabrasFiltradas, AvisoText(Generada(|palabrasList|, |palabrasFiltradas|)));
    }

    /** The five updates that show a new puzzle: its cells, its words upper-cased,
        the report, and no routes and no found cells. */
    method Publicar(placed0: seq<Celda>, palabras0: seq<string>, mensaje: string)
      requires Valid()
      modifies this
      ensures Valid()
      ensures placed == placed0 && palabras == UpperAll(palabras0) && resultado == mensaje
      ensures rutas == map[] && palabrasEncontradas == []
      ensures currentGame == old(currentGame) && input == old(input) && hangmanEstado == old(hangmanEstado)
      ensures maxIntentos == old(maxIntentos) && hangmanInput == old(hangmanInput)
    {
      UpperAllIdempotent(palabras0);
      placed := placed0;
      palabras := UpperAll(palabras0);
      resultado := mensaje;
      rutas := map[];
      palabrasEncontradas := [];
    }

    /** `soluciones`: `replies[i]` is the solver's answer to the search for
        `palabras[i]`. */
    method Soluciones(replies: seq<BusquedaReply>)
      requires Valid() && |replies| == |palabras|
      modifies this
      ensures Valid()
      ensures currentGame == old(currentGame) && input == old(input) && placed == old(placed)
      ensures palabras == old(palabras) && palabrasEncontradas == old(palabrasEncontradas)
      ensures old(placed) == [] ==> resultado == NoPuzzleText && rutas == old(rutas)
      ensures old(placed) != [] ==>
        rutas == RoutesOf(palabras, RoutesFrom(replies)) && resultado == SolutionsText(|rutas.Keys|, |palabras|)
      ensures hangmanEstado == old(hangmanEstado) && maxIntentos == old(maxIntentos) && hangmanInput == old(hangmanInput)
    {
      if |placed| == 0 {
        resultado := NoPuzzleText;
        return;
      }
      var nuevasRutas := BuildRoutes(palabras, replies);
      RoutesOfSound(palabras, RoutesFrom(replies));
      rutas := nuevasRutas;
      resultado := SolutionsText(|nuevasRutas.Keys|, |palabras|);
    }

    /** `generarAhorcado`: `txt` stands for the lines of `palabras.txt`,
        `reply` for the solver's answer; returns the options sent, if any. */
    method GenerarAhorcado(txt: seq<string>, reply: Hangman.Reply) returns (enviado: Option<OpcionesAhorcado>)
      requires Valid()
      modifies this
      ensures Valid()
      ensures var list := WordList(old(hangmanInput), txt);
        (list == [] ==> enviado == None && resultado == HangmanNoWordsText && hangmanEstado == old(hangmanEstado))
        && (list != [] ==> enviado == Some(OpcionesAhorcado(list, maxIntentos)))
        && (list != [] && reply.Answer? ==>
              hangmanEstado == Some(reply.snapshot) && resultado == reply.snapshot.mensaje.GetOr(HangmanDefaultText))
        && (list != [] && reply.Failure? ==> hangmanEstado == old(hangmanEstado) && resultado == HangmanErrorText)
      ensures currentGame == old(currentGame) && input == old(input) && placed == old(placed)
      ensures palabras == old(palabras) && rutas == old(rutas) && palabrasEncontradas == old(palabrasEncontradas)
      ensures maxIntentos == old(maxIntentos) && hangmanInput == old(hangmanInput)
    {
      var palabrasList: seq<string>;
      if Trim(hangmanInput) != "" {
        palabrasList := SplitWords(hangmanInput);
      } else {
        palabrasList := txt;
      }
      if |palabrasList| == 0 {
        resultado := HangmanNoWordsText;
        return None;
      }
      var opciones := OpcionesAhorcado(palabrasList, maxIntentos);
      enviado := Some(opciones);
      match reply {
        case Answer(respuesta) =>
          hangmanEstado := Some(respuesta);
          resultado := respuesta.mensaje.GetOr(HangmanDefaultText);
        case Failure(_) =>
          resultado := HangmanErrorText;
      }
    }

    /** The attempts box: a value that is not a number (`None`) is ignored,
        any other is clamped to 3..12. */
    method OnMaxIntentosChange(value: Option<int>)
      requires Valid()
      modifies this
      ensures Valid()
      ensures value.None? ==> maxIntentos == old(maxIntentos)
      ensures value.Some? ==> maxIntentos == ClampIntentos(value.value)
      ensures currentGame == old(currentGame) && input == old(input) && placed == old(placed) && resultado == old(resultado)
      ensures palabras == old(palabras) && rutas == old(rutas) && palabrasEncontradas == old(palabrasEncontradas)
      ensures hangmanEstado == old(hangmanEstado) && hangmanInput == old(hangmanInput)
    {
      if value.Some? {
        maxIntentos := ClampIntentos(value.value);
      }
    }

    /** `backToMenu`: every game field is emptied; the typed word list of the
        word search and the attempts limit are kept. */
    method BackToMenu()
      requires Valid()
      modifies this
      ensures Valid()
      ensures currentGame == Menu && placed == [] && resultado == "" && palabras == []
      ensures rutas == map[] && palabrasEncontradas == [] && hangmanEstado == None && hangmanInput == ""
      ensures input == old(input) && maxIntentos == old(maxIntentos)
    {
      currentGame := Menu;
      placed := [];
      resultado := "";
      palabras := [];
      rutas := map[];
      palabrasEncontradas := [];
      hangmanEstado := None;
      hangmanInput := "";
    }
  }
}
