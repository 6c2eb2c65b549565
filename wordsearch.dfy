/** The word-search game: the fixed 10x10 board, the straight-line drag
    selection, the forward/backward word check on release and the
    accumulation of found cells and found words. */
module WordSearch {
  import opened Text

  /** Side length of the square board. */
  const Size: int := 10

  /** A board cell: row, column and the letter shown there. */
  datatype Celda = Celda(fila: int, columna: int, letra: string)

  predicate InBoard(f: int, c: int) {
    0 <= f < Size && 0 <= c < Size
  }

  predicate AllInBoard(cells: seq<Celda>) {
    forall i :: 0 <= i < |cells| ==> InBoard(cells[i].fila, cells[i].columna)
  }

  predicate At(cell: Celda, f: int, c: int) {
    cell.fila == f && cell.columna == c
  }

  // ---------------------------------------------------------------------------
  // Board construction
  // ---------------------------------------------------------------------------

  /** What the placement pass leaves at `(f, c)`: the upper-cased letter of the
      last placed cell with those coordinates, or `""` when none has them. */
  function PlacedAt(placed: seq<Celda>, f: int, c: int): string {
    if placed == [] then ""
    else if At(placed[|placed| - 1], f, c) then Upper(placed[|placed| - 1].letra)
    else PlacedAt(placed[..|placed| - 1], f, c)
  }

  /** A grid of filler letters, one per board cell, each in `A`..`Z`
      (the range `String.fromCharCode(65 + k)` with `0 <= k < 26` produces). */
  predicate IsFiller(filler: seq<seq<char>>) {
    |filler| == Size
    && forall f :: 0 <= f < Size ==>
         |filler[f]| == Size && forall c :: 0 <= c < Size ==> 'A' <= filler[f][c] <= 'Z'
  }

  /** The letter drawn at `(f, c)`: the placed letter, or the filler letter
      where the placement pass left the cell empty. */
  function ShownAt(placed: seq<Celda>, filler: seq<seq<char>>, f: int, c: int): string
    requires IsFiller(filler) && InBoard(f, c)
  {
    var p := PlacedAt(placed, f, c);
    if p == "" then [filler[f][c]] else p
  }

  /** Builds the board: an empty grid, each placed cell written in order with
      its letter upper-cased, then every cell left empty given its filler letter. */
  method BuildBoard(placed: seq<Celda>, filler: seq<seq<char>>) returns (filled: array2<string>)
    requires AllInBoard(placed) && IsFiller(filler)
    ensures filled.Length0 == Size && filled.Length1 == Size
    ensures forall f, c :: InBoard(f, c) ==> filled[f, c] == ShownAt(placed, filler, f, c)
  {
    var board := new string[Size, Size]((f, c) => "");
    var k := 0;
    while k < |placed|
      invariant 0 <= k <= |placed|
      invariant forall f, c :: 0 <= f < Size && 0 <= c < Size ==> board[f, c] == PlacedAt(placed[..k], f, c)
    {
      var cell := placed[k];
      board[cell.fila, cell.columna] := Upper(cell.letra);
      assert placed[..k + 1][..k] == placed[..k];
      k := k + 1;
    }
    assert placed[..|placed|] == placed;
    filled := new string[Size, Size];
    forall f, c | 0 <= f < Size && 0 <= c < Size {
      filled[f, c] := if board[f, c] == "" then [filler[f][c]] else board[f, c];
    }
  }

  /** A placed cell whose coordinates no later placed cell reuses shows its
      own letter, upper-cased. */
  lemma {:induction false} PlacedLetterShown(placed: seq<Celda>, filler: seq<seq<char>>, i: int)
    requires IsFiller(filler) && 0 <= i < |placed|
    requires InBoard(placed[i].fila, placed[i].columna) && placed[i].letra != ""
    requires forall j :: i < j < |placed| ==> !At(placed[j], placed[i].fila, placed[i].columna)
    ensures ShownAt(placed, filler, placed[i].fila, placed[i].columna) == Upper(placed[i].letra)
  {
    UpperEmpty(placed[i].letra);
    PlacedAtLast(placed, i);
  }

  lemma {:induction false} PlacedAtLast(placed: seq<Celda>, i: int)
    requires 0 <= i < |placed|
    requires forall j :: i < j < |placed| ==> !At(placed[j], placed[i].fila, placed[i].columna)
    ensures PlacedAt(placed, placed[i].fila, placed[i].columna) == Upper(placed[i].letra)
  {
    if i < |placed| - 1 {
      var init := placed[..|placed| - 1];
      assert init[i] == placed[i];
      PlacedAtLast(init, i);
    }
  }

  /** With every placed letter non-empty, the placement pass leaves `(f, c)`
      empty exactly when no placed cell has those coordinates. */
  lemma {:induction false} PlacedAtEmpty(placed: seq<Celda>, f: int, c: int)
    requires forall j :: 0 <= j < |placed| ==> placed[j].letra != ""
    ensures PlacedAt(placed, f, c) == "" <==> forall j :: 0 <= j < |placed| ==> !At(placed[j], f, c)
  {
    if placed != [] {
      var init := placed[..|placed| - 1];
      UpperEmpty(placed[|placed| - 1].letra);
      PlacedAtEmpty(init, f, c);
      assert forall j :: 0 <= j < |init| ==> init[j] == placed[j];
    }
  }

  /** Filler goes only where no word is placed: with non-empty placed letters,
      a cell shows its filler letter if no placed cell covers it, and otherwise
      the same letter whatever the filler grid. */
  lemma FillerOnlyOnEmptyCells(placed: seq<Celda>, filler1: seq<seq<char>>, filler2: seq<seq<char>>, f: int, c: int)
    requires IsFiller(filler1) && IsFiller(filler2) && InBoard(f, c)
    requires forall j :: 0 <= j < |placed| ==> placed[j].letra != ""
    ensures (forall j :: 0 <= j < |placed| ==> !At(placed[j], f, c)) ==> ShownAt(placed, filler1, f, c) == [filler1[f][c]]
    ensures (exists j :: 0 <= j < |placed| && At(placed[j], f, c)) ==>
              ShownAt(placed, filler1, f, c) == ShownAt(placed, filler2, f, c) == PlacedAt(placed, f, c)
  {
    PlacedAtEmpty(placed, f, c);
  }

  // ---------------------------------------------------------------------------
  // Straight lines between two cells
  // ---------------------------------------------------------------------------

  /** `Math.sign` on integers. */
  function Sign(x: int): int {
    if x > 0 then 1 else if x < 0 then -1 else 0
  }

  function Abs(x: int): nat {
    if x < 0 then -x else x
  }

  function Max(a: int, b: int): int {
    if a < b then b else a
  }

  /** The two cells share a row, a column or a diagonal. */
  predicate Straight(a: Celda, b: Celda) {
    Sign(b.fila - a.fila) == 0 || Sign(b.columna - a.columna) == 0
    || Abs(b.fila - a.fila) == Abs(b.columna - a.columna)
  }

  /** Number of unit steps from `a` to `b` along a line. */
  function Steps(a: Celda, b: Celda): nat {
    Max(Abs(b.fila - a.fila), Abs(b.columna - a.columna))
  }

  /** The coordinates reached after `k` unit steps from `a` towards `b`. */
  function PointAt(a: Celda, b: Celda, k: int): (int, int) {
    (a.fila + k * Sign(b.fila - a.fila), a.columna + k * Sign(b.columna - a.columna))
  }

  /** The coordinates of the straight path from `a` to `b`, both included, or
      the empty sequence when the cells are not in line. */
  function Line(a: Celda, b: Celda): seq<(int, int)> {
    if Straight(a, b) then seq(Steps(a, b) + 1, k => PointAt(a, b, k)) else []
  }

  /** Along a straight line the walk reaches `b` after exactly `Steps(a, b)`
      steps, never before, and stays between the two endpoints (hence on the
      board when both endpoints are). */
  lemma WalkReachesEnd(a: Celda, b: Celda, k: int)
    requires Straight(a, b) && 0 <= k <= Steps(a, b)
    ensures PointAt(a, b, k) == (b.fila, b.columna) <==> k == Steps(a, b)
    ensures InBoard(a.fila, a.columna) && InBoard(b.fila, b.columna) ==> InBoard(PointAt(a, b, k).0, PointAt(a, b, k).1)
  {
    var dr, dc := b.fila - a.fila, b.columna - a.columna;
    var sr, sc := Sign(dr), Sign(dc);
    assert k * sr == (if sr == 1 then k else if sr == -1 then -k else 0);
    assert k * sc == (if sc == 1 then k else if sc == -1 then -k else 0);
  }

  /** One more step moves by `(sign drow, sign dcol)`. */
  lemma PointStep(a: Celda, b: Celda, k: int)
    ensures PointAt(a, b, k + 1).0 == PointAt(a, b, k).0 + Sign(b.fila - a.fila)
    ensures PointAt(a, b, k + 1).1 == PointAt(a, b, k).1 + Sign(b.columna - a.columna)
  {
    var sr, sc := Sign(b.fila - a.fila), Sign(b.columna - a.columna);
    assert (k + 1) * sr == k * sr + sr;
    assert (k + 1) * sc == k * sc + sc;
  }

  /** Walking `k` steps back from `b` lands where `Steps(a, b) - k` steps from
      `a` do. */
  lemma PointReversed(a: Celda, b: Celda, k: int)
    requires Straight(a, b) && 0 <= k <= Steps(a, b)
    ensures PointAt(b, a, k) == PointAt(a, b, Steps(a, b) - k)
  {
    var n := Steps(a, b);
    WalkReachesEnd(a, b, n);
    var sr, sc := Sign(b.fila - a.fila), Sign(b.columna - a.columna);
    assert Sign(a.fila - b.fila) == -sr && Sign(a.columna - b.columna) == -sc;
    assert k * -sr == -(k * sr) && k * -sc == -(k * sc);
    assert (n - k) * sr == n * sr - k * sr;
    assert (n - k) * sc == n * sc - k * sc;
  }

  /** The line between two cells is non-empty exactly when they are in line;
      then it runs from `a` to `b`, has `max(|drow|, |dcol|) + 1` cells, and
      consecutive cells differ by `(sign drow, sign dcol)`. */
  lemma LineShape(a: Celda, b: Celda)
    ensures Line(a, b) == [] <==> !Straight(a, b)
    ensures Line(a, b) != [] ==>
              |Line(a, b)| == Steps(a, b) + 1
              && Line(a, b)[0] == (a.fila, a.columna)
              && Line(a, b)[|Line(a, b)| - 1] == (b.fila, b.columna)
    ensures forall k :: 0 <= k < |Line(a, b)| - 1 ==>
              Line(a, b)[k + 1].0 - Line(a, b)[k].0 == Sign(b.fila - a.fila)
              && Line(a, b)[k + 1].1 - Line(a, b)[k].1 == Sign(b.columna - a.columna)
  {
    if Straight(a, b) {
      WalkReachesEnd(a, b, Steps(a, b));
      forall k | 0 <= k < Steps(a, b)
        ensures PointAt(a, b, k + 1).0 - PointAt(a, b, k).0 == Sign(b.fila - a.fila)
        ensures PointAt(a, b, k + 1).1 - PointAt(a, b, k).1 == Sign(b.columna - a.columna)
      {
        PointStep(a, b, k);
      }
    }
  }

  function Reverse<T>(s: seq<T>): (r: seq<T>)
    ensures |r| == |s|
  {
    if s == [] then [] else Reverse(s[1..]) + [s[0]]
  }

  lemma {:induction false} ReverseAt<T>(s: seq<T>, k: int)
    requires 0 <= k < |s|
    ensures Reverse(s)[k] == s[|s| - 1 - k]
  {
    if k < |s| - 1 {
      ReverseAt(s[1..], k);
    }
  }

  /** Reversing twice gives back the sequence. */
  lemma ReverseReverse<T>(s: seq<T>)
    ensures Reverse(Reverse(s)) == s
  {
    forall k | 0 <= k < |s| ensures Reverse(Reverse(s))[k] == s[k] {
      ReverseAt(Reverse(s), k);
      ReverseAt(s, |s| - 1 - k);
    }
  }

  /** Dragging from `b` to `a` covers the cells of dragging from `a` to `b`,
      in the opposite order. */
  lemma LineReversed(a: Celda, b: Celda)
    ensures Line(b, a) == Reverse(Line(a, b))
  {
    var n := Steps(a, b);
    assert Steps(b, a) == n;
    assert Straight(b, a) == Straight(a, b);
    if Straight(a, b) {
      forall k | 0 <= k <= n ensures Line(b, a)[k] == Reverse(Line(a, b))[k] {
        ReverseAt(Line(a, b), k);
        PointReversed(a, b, k);
      }
    }
  }

  /** `path` is the path the board `filled` gives for a drag from `a` to `b`:
      the cells of `Line(a, b)`, in order, each with the letter shown there. */
  ghost predicate Traces(filled: array2<string>, path: seq<Celda>, a: Celda, b: Celda)
    reads filled
  {
    |path| == |Line(a, b)|
    && forall i :: 0 <= i < |path| ==>
         At(path[i], Line(a, b)[i].0, Line(a, b)[i].1)
         && 0 <= path[i].fila < filled.Length0 && 0 <= path[i].columna < filled.Length1
         && path[i].letra == filled[path[i].fila, path[i].columna]
  }

  /** The `i`-th cell of `path` sits `i` steps from `a` towards `b` and carries
      the board letter there. */
  ghost predicate Walked(filled: array2<string>, path: seq<Celda>, a: Celda, b: Celda)
    reads filled
  {
    forall i :: 0 <= i < |path| ==>
      At(path[i], PointAt(a, b, i).0, PointAt(a, b, i).1)
      && 0 <= path[i].fila < filled.Length0 && 0 <= path[i].columna < filled.Length1
      && path[i].letra == filled[path[i].fila, path[i].columna]
  }

  /** One more step of the walk, with the board letter where it lands. */
  lemma WalkedSnoc(filled: array2<string>, path: seq<Celda>, a: Celda, b: Celda, r: int, c: int)
    requires Walked(filled, path, a, b) && (r, c) == PointAt(a, b, |path|)
    requires 0 <= r < filled.Length0 && 0 <= c < filled.Length1
    ensures Walked(filled, path + [Celda(r, c, filled[r, c])], a, b)
  {
    var q := path + [Celda(r, c, filled[r, c])];
    assert forall i :: 0 <= i < |path| ==> q[i] == path[i];
  }

  /** A walk of every step up to `b` traces the drag. */
  lemma TracedByPoints(filled: array2<string>, path: seq<Celda>, a: Celda, b: Celda)
    requires Straight(a, b) && |path| == Steps(a, b) + 1
    requires Walked(filled, path, a, b)
    ensures Traces(filled, path, a, b)
  {
  }

  /** The cells form a contiguous straight segment: each one unit step
      (horizontal, vertical or diagonal) beyond the previous. */
  predicate StraightPath(s: seq<Celda>) {
    |s| <= 1
    || (var dr, dc := s[1].fila - s[0].fila, s[1].columna - s[0].columna;
        -1 <= dr <= 1 && -1 <= dc <= 1 && (dr != 0 || dc != 0)
        && forall i :: 0 <= i < |s| ==> s[i].fila == s[0].fila + i * dr && s[i].columna == s[0].columna + i * dc)
  }

  /** A traced drag path is a straight segment inside the board. */
  lemma TracedPathIsStraight(filled: array2<string>, path: seq<Celda>, a: Celda, b: Celda)
    requires filled.Length0 == Size && filled.Length1 == Size
    requires Traces(filled, path, a, b)
    ensures StraightPath(path) && AllInBoard(path)
  {
    LineShape(a, b);
    if |path| > 1 {
      assert Steps(a, b) >= 1;
      assert Sign(b.fila - a.fila) != 0 || Sign(b.columna - a.columna) != 0;
      assert At(path[0], a.fila, a.columna);
      assert path[1].fila - path[0].fila == Sign(b.fila - a.fila);
      assert path[1].columna - path[0].columna == Sign(b.columna - a.columna);
    }
  }

  // ---------------------------------------------------------------------------
  // Word check
  // ---------------------------------------------------------------------------

  /** The letters of a selection joined in path order. */
  function Word(sel: seq<Celda>): string {
    if sel == [] then "" else sel[0].letra + Word(sel[1..])
  }

  /** The word `w`, upper-cased, reads the selection forwards or backwards. */
  predicate Matches(w: string, sel: seq<Celda>) {
    Upper(w) == Word(sel) || Upper(w) == Word(Reverse(sel))
  }

  /** Some word of the list matches the selection (`palabras.some(...)`). */
  predicate Accepts(palabras: seq<string>, sel: seq<Celda>) {
    exists i :: 0 <= i < |palabras| && Matches(palabras[i], sel)
  }

  /** The index of the first word that matches the selection
      (`palabras.find(...)`). */
  function FindMatch(palabras: seq<string>, sel: seq<Celda>): (r: Option<nat>)
    ensures r.Some? <==> Accepts(palabras, sel)
    ensures r.Some? ==> r.value < |palabras| && Matches(palabras[r.value], sel)
                        && forall j :: 0 <= j < r.value ==> !Matches(palabras[j], sel)
  {
    if palabras == [] then None
    else if Matches(palabras[0], sel) then Some(0)
    else
      match FindMatch(palabras[1..], sel)
      case None => None
      case Some(i) => assert palabras[1..][i] == palabras[i + 1]; Some(i + 1)
  }

  /** A selection and its reverse are accepted alike, by the same first word. */
  lemma MatchOrientationFree(palabras: seq<string>, sel: seq<Celda>)
    ensures Accepts(palabras, Reverse(sel)) <==> Accepts(palabras, sel)
    ensures FindMatch(palabras, Reverse(sel)) == FindMatch(palabras, sel)
  {
    ReverseReverse(sel);
    assert forall w :: Matches(w, Reverse(sel)) <==> Matches(w, sel);
    FirstMatchSame(palabras, Reverse(sel), sel);
  }

  lemma {:induction false} FirstMatchSame(palabras: seq<string>, s: seq<Celda>, t: seq<Celda>)
    requires forall w :: Matches(w, s) <==> Matches(w, t)
    ensures FindMatch(palabras, s) == FindMatch(palabras, t)
  {
    if palabras != [] {
      FirstMatchSame(palabras[1..], s, t);
    }
  }

  /** Dragging between the same two cells in either direction is accepted
      alike: the two paths are each other's reverse. */
  lemma DragEitherWay(filled: array2<string>, palabras: seq<string>, p: seq<Celda>, q: seq<Celda>, a: Celda, b: Celda)
    requires Traces(filled, p, a, b) && Traces(filled, q, b, a)
    ensures q == Reverse(p)
    ensures Accepts(palabras, q) <==> Accepts(palabras, p)
  {
    LineReversed(a, b);
    forall i | 0 <= i < |q| ensures q[i] == Reverse(p)[i] {
      ReverseAt(p, i);
      ReverseAt(Line(a, b), i);
    }
    MatchOrientationFree(palabras, p);
  }

  /** Some cell of `cells` sits at `(f, c)` (`cells.some(x => ...)`). */
  function Covers(cells: seq<Celda>, f: int, c: int): (b: bool)
    ensures b <==> exists i :: 0 <= i < |cells| && At(cells[i], f, c)
  {
    if cells == [] then false
    else At(cells[0], f, c) || (assert forall i :: 0 <= i < |cells| - 1 ==> cells[1..][i] == cells[i + 1];
                                Covers(cells[1..], f, c))
  }

  /** Appending cells keeps every covered cell covered and covers the new ones. */
  lemma CoversAppend(a: seq<Celda>, b: seq<Celda>, f: int, c: int)
    ensures Covers(a + b, f, c) <==> Covers(a, f, c) || Covers(b, f, c)
  {
    if Covers(b, f, c) {
      var i :| 0 <= i < |b| && At(b[i], f, c);
      assert (a + b)[|a| + i] == b[i];
    }
    if Covers(a, f, c) {
      var i :| 0 <= i < |a| && At(a[i], f, c);
      assert (a + b)[i] == a[i];
    }
  }

  /** Cells appended to the found list keep the earlier ones first, covered
      and on the board. */
  lemma FoundCellsGrow(before: seq<Celda>, sel: seq<Celda>)
    requires AllInBoard(before) && AllInBoard(sel)
    ensures AllInBoard(before + sel) && (before + sel)[..|before|] == before
    ensures forall f, c :: Covers(before, f, c) ==> Covers(before + sel, f, c)
  {
    assert forall i :: 0 <= i < |before| + |sel| ==>
      (before + sel)[i] == if i < |before| then before[i] else sel[i - |before|];
    forall f, c | Covers(before, f, c) ensures Covers(before + sel, f, c) {
      CoversAppend(before, sel, f, c);
    }
  }

  predicate Distinct(s: seq<string>) {
    forall i, j :: 0 <= i < j < |s| ==> s[i] != s[j]
  }

  /** The found-word list: no word twice, each one an upper-cased listed word. */
  predicate FoundAmong(lista: seq<string>, palabras: seq<string>) {
    Distinct(lista) && forall k :: 0 <= k < |lista| ==> lista[k] in UpperAll(palabras)
  }

  /** Recording a listed word not yet found keeps the found-word list well formed. */
  lemma FoundWordAdded(lista: seq<string>, palabras: seq<string>, i: nat)
    requires FoundAmong(lista, palabras) && i < |palabras| && Upper(palabras[i]) !in lista
    ensures FoundAmong(lista + [Upper(palabras[i])], palabras)
  {
    var l := lista + [Upper(palabras[i])];
    assert forall k :: 0 <= k < |lista| ==> l[k] == lista[k];
    assert UpperAll(palabras)[i] == Upper(palabras[i]);
  }

  // ---------------------------------------------------------------------------
  // The game component
  // ---------------------------------------------------------------------------

  /** What a release reports to the page. */
  datatype Aviso =
    | Ninguno                                             // nothing happened
    | Felicitaciones                                      // the last missing word was found
    | Encontrada(palabra: string, cuenta: nat, total: nat) // a new word, with progress
    | EncontradaOtraVez(palabra: string)                  // a word already found
    | NoEnLista(palabra: string)                          // the selection spells no word

  /** The word-search component: the board drawn from the placed cells and the
      drag and found state it keeps between pointer events. */
  class WordSearchGame {
    var placed: seq<Celda>
    var palabras: seq<string>
    var filled: array2<string>
    var seleccion: seq<Celda>
    var inicio: Option<Celda>
    var isDragging: bool
    var encontradas: seq<Celda>
    var palabrasEncontradasLista: seq<string>

    ghost predicate Valid()
      reads this
    {
      filled.Length0 == Size && filled.Length1 == Size
      && AllInBoard(placed)
      && AllInBoard(seleccion) && StraightPath(seleccion)
      && (inicio.Some? ==> InBoard(inicio.value.fila, inicio.value.columna))
      && AllInBoard(encontradas)
      && FoundAmong(palabrasEncontradasLista, palabras)
    }

    /** The letter grid as drawn from `placed` with the given filler letters. */
    ghost predicate DrawnWith(filler: seq<seq<char>>)
      reads this, filled
      requires Valid() && IsFiller(filler)
    {
      forall f, c :: InBoard(f, c) ==> filled[f, c] == ShownAt(placed, filler, f, c)
    }

    /** Mounting the component for a new puzzle: nothing selected or found. */
    constructor (placed0: seq<Celda>, palabras0: seq<string>, filler: seq<seq<char>>)
      requires AllInBoard(placed0) && IsFiller(filler)
      ensures Valid() && DrawnWith(filler)
      ensures placed == placed0 && palabras == palabras0
      ensures seleccion == [] && inicio == None && !isDragging
      ensures encontradas == [] && palabrasEncontradasLista == []
    {
      var grid := BuildBoard(placed0, filler);
      placed, palabras, filled := placed0, palabras0, grid;
      seleccion, inicio, isDragging := [], None, false;
      encontradas, palabrasEncontradasLista := [], [];
    }

    /** A new puzzle arrives (new `placed` and `palabras`): the reset effect
      clears found words, found cells, the selection, the drag and the anchor,
      and the board is drawn afresh. */
    method NewPuzzle(placed0: seq<Celda>, palabras0: seq<string>, filler: seq<seq<char>>)
      requires AllInBoard(placed0) && IsFiller(filler)
      modifies this
      ensures Valid() && DrawnWith(filler)
      ensures placed == placed0 && palabras == palabras0
      ensures seleccion == [] && inicio == None && !isDragging
      ensures encontradas == [] && palabrasEncontradasLista == []
    {
      var grid := BuildBoard(placed0, filler);
      placed, palabras, filled := placed0, palabras0, grid;
      seleccion, inicio, isDragging := [], None, false;
      encontradas, palabrasEncontradasLista := [], [];
    }

    /** A re-render: the board is drawn again from the same placed cells with
      new filler letters; nothing else changes. */
    method Redraw(filler: seq<seq<char>>)
      requires Valid() && IsFiller(filler)
      modifies this
      ensures Valid() && DrawnWith(filler)
      ensures placed == old(placed) && palabras == old(palabras)
      ensures seleccion == old(seleccion) && inicio == old(inicio) && isDragging == old(isDragging)
      ensures encontradas == old(encontradas) && palabrasEncontradasLista == old(palabrasEncontradasLista)
    {
      filled := BuildBoard(placed, filler);
    }

    /** `getLinea`: walks from `inicio` one unit step at a time until it reaches
      `fin`, collecting the board's cells; returns no cells when the two are
      not in line. */
    method GetLinea(inicio: Celda, fin: Celda) returns (path: seq<Celda>)
      requires Valid()
      requires InBoard(inicio.fila, inicio.columna) && InBoard(fin.fila, fin.columna)
      ensures Traces(filled, path, inicio, fin)
      ensures path == [] <==> !Straight(inicio, fin)
      ensures path != [] ==> |path| == Steps(inicio, fin) + 1
                             && At(path[0], inicio.fila, inicio.columna)
                             && At(path[|path| - 1], fin.fila, fin.columna)
    {
      var dr := Sign(fin.fila - inicio.fila);
      var dc := Sign(fin.columna - inicio.columna);
      if !(dr == 0 || dc == 0 || Abs(fin.fila - inicio.fila) == Abs(fin.columna - inicio.columna)) {
        return [];
      }
      ghost var n := Steps(inicio, fin);
      ghost var k := 0;
      path := [];
      var r, c := inicio.fila, inicio.columna;
      while true
        invariant 0 <= k <= n
        invariant (r, c) == PointAt(inicio, fin, k)
        invariant |path| == k && Walked(filled, path, inicio, fin)
        decreases n - k
      {
        WalkReachesEnd(inicio, fin, k);
        WalkedSnoc(filled, path, inicio, fin, r, c);
        path := path + [Celda(r, c, filled[r, c])];
        if r == fin.fila && c == fin.columna {
          break;
        }
        PointStep(inicio, fin, k);
        r, c := r + dr, c + dc;
        k := k + 1;
      }
      TracedByPoints(filled, path, inicio, fin);
      LineShape(inicio, fin);
    }

    /** `handleMouseDown`: anchors a drag at the pressed cell and selects it. */
    method MouseDown(f: int, c: int)
      requires Valid() && InBoard(f, c)
      modifies this
      ensures Valid()
      ensures inicio == Some(Celda(f, c, filled[f, c])) && seleccion == [Celda(f, c, filled[f, c])] && isDragging
      ensures placed == old(placed) && palabras == old(palabras) && filled == old(filled)
      ensures encontradas == old(encontradas) && palabrasEncontradasLista == old(palabrasEncontradasLista)
    {
      var celda := Celda(f, c, filled[f, c]);
      inicio := Some(celda);
      seleccion := [celda];
      isDragging := true;
    }

    /** `handleMouseEnter`: while a drag is anchored, the selection becomes the
      straight path from the anchor to the entered cell (empty when not in
      line); otherwise nothing changes. */
    method MouseEnter(f: int, c: int)
      requires Valid() && InBoard(f, c)
      modifies this
      ensures Valid()
      ensures old(isDragging) && old(inicio).Some? ==>
                Traces(filled, seleccion, old(inicio).value, Celda(f, c, filled[f, c]))
      ensures !(old(isDragging) && old(inicio).Some?) ==> seleccion == old(seleccion)
      ensures inicio == old(inicio) && isDragging == old(isDragging)
      ensures placed == old(placed) && palabras == old(palabras) && filled == old(filled)
      ensures encontradas == old(encontradas) && palabrasEncontradasLista == old(palabrasEncontradasLista)
    {
      if isDragging && inicio.Some? {
        var fin := Celda(f, c, filled[f, c]);
        var linea := GetLinea(inicio.value, fin);
        TracedPathIsStraight(filled, linea, inicio.value, fin);
        seleccion := linea;
      }
    }

    /** `handleMouseUp`: ends the drag and checks the selection's letters,
      forwards and backwards, against the word list. On a match the selection
      is appended to the found cells and the word (upper-cased) to the found
      words unless already there; on a miss the selection is cleared. */
    method MouseUp() returns (aviso: Aviso)
      requires Valid()
      modifies this
      ensures Valid()
      ensures placed == old(placed) && palabras == old(palabras) && filled == old(filled)
      // a release with no drag or an empty selection is a no-op
      ensures !old(isDragging) || old(seleccion) == [] ==>
                aviso == Ninguno && seleccion == old(seleccion) && inicio == old(inicio)
                && isDragging == old(isDragging) && encontradas == old(encontradas)
                && palabrasEncontradasLista == old(palabrasEncontradasLista)
      ensures old(isDragging) && old(seleccion) != [] ==> !isDragging && inicio == None
      // a miss: nothing found, selection cleared
      ensures old(isDragging) && old(seleccion) != [] && !Accepts(palabras, old(seleccion)) ==>
                aviso == NoEnLista(Word(old(seleccion))) && seleccion == []
                && encontradas == old(encontradas)
                && palabrasEncontradasLista == old(palabrasEncontradasLista)
      // a match: the selection stays and joins the found cells
      ensures old(isDragging) && old(seleccion) != [] && Accepts(palabras, old(seleccion)) ==>
                seleccion == old(seleccion) && encontradas == old(encontradas) + old(seleccion)
                && var w := palabras[FindMatch(palabras, old(seleccion)).value];
                   if w != "" && Upper(w) !in old(palabrasEncontradasLista) then
                     palabrasEncontradasLista == old(palabrasEncontradasLista) + [Upper(w)]
                     && aviso == (if |palabrasEncontradasLista| == |palabras| then Felicitaciones
                                  else Encontrada(Word(old(seleccion)), |palabrasEncontradasLista|, |palabras|))
                   else
                     palabrasEncontradasLista == old(palabrasEncontradasLista)
                     && aviso == EncontradaOtraVez(Word(old(seleccion)))
      // found state only grows
      ensures |old(encontradas)| <= |encontradas| && encontradas[..|old(encontradas)|] == old(encontradas)
      ensures forall f, c :: Covers(old(encontradas), f, c) ==> Covers(encontradas, f, c)
    {
      if !isDragging || |seleccion| == 0 {
        return Ninguno;
      }
      isDragging := false;
      var palabra := Word(seleccion);
      var correcta := Accepts(palabras, seleccion);
      if correcta {
        FoundCellsGrow(encontradas, seleccion);
        encontradas := encontradas + seleccion;
        var hallada := FindMatch(palabras, seleccion);
        var w := palabras[hallada.value];
        if w != "" && Upper(w) !in palabrasEncontradasLista {
          FoundWordAdded(palabrasEncontradasLista, palabras, hallada.value);
          palabrasEncontradasLista := palabrasEncontradasLista + [Upper(w)];
          if |palabrasEncontradasLista| == |palabras| {
            aviso := Felicitaciones;
          } else {
            aviso := Encontrada(palabra, |palabrasEncontradasLista|, |palabras|);
          }
        } else {
          aviso := EncontradaOtraVez(palabra);
        }
      } else {
        aviso := NoEnLista(palabra);
        seleccion := [];
      }
      inicio := None;
    }

    /** `esSeleccionada`: the cell is part of the current selection; a
      selection on the board paints only board cells. */
    predicate EsSeleccionada(f: int, c: int): (b: bool)
      reads this
      ensures b <==> exists i :: 0 <= i < |seleccion| && At(seleccion[i], f, c)
      ensures b && AllInBoard(seleccion) ==> InBoard(f, c)
    {
      Covers(seleccion, f, c)
    }

    /** `esEncontrada`: the cell belongs to a found word. */
    predicate EsEncontrada(f: int, c: int): (b: bool)
      reads this
      ensures b <==> exists i :: 0 <= i < |encontradas| && At(encontradas[i], f, c)
      ensures b && AllInBoard(encontradas) ==> InBoard(f, c)
    {
      Covers(encontradas, f, c)
    }
  }

  /** `esSolucion`: the cell lies on the route of some word in the solutions
      table the page passes down (`rutas`). */
  predicate EsSolucion(rutas: map<string, seq<Celda>>, f: int, c: int): (b: bool)
    ensures b <==> exists w, i :: w in rutas && 0 <= i < |rutas[w]| && At(rutas[w][i], f, c)
  {
    exists w :: w in rutas && Covers(rutas[w], f, c)
  }
}
