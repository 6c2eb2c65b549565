# Sopa de letras y ahorcado — a verified model of the client logic

The application is a small React page that hosts two puzzles backed by a
remote solver: a 10x10 word search ("sopa de letras") and hangman
("ahorcado"). This project models the client side of both in Dafny and
proves what that client promises:

- `text.dfy` (module `Text`): the string operations the client relies on.
  These are `toUpperCase` (for `a`..`z` and `ñ`), `trim` with
  ECMAScript's white-space set, `split` on one character, and decimal
  numerals as template strings print them and `parseInt` reads them back.
- `wordsearch.dfy` (module `WordSearch`): the word-search component.
  - The board is filled in place from the placed cells, with caller-supplied
    filler letters on the empty cells.
  - `getLinea` is the walking loop that turns an anchor and a current cell
    into a straight path.
  - The drag state machine (`handleMouseDown`, `handleMouseEnter`,
    `handleMouseUp`) is a class whose fields are the component's state.
  - The component also has the reset effect that runs when a new puzzle
    arrives, and the three cell predicates used for painting.
- `hangman.dfy` (module `Hangman`): the hangman component.
  - The snapshot datatype, and the values the page derives from it: the
    terminal flag, the spaced reveal string, the progress percentage and
    the letter-button guard.
  - The component is a class whose guess handlers take the solver's reply
    as a parameter.
- `app.dfy` (module `App`): the page itself.
  - The word-list tokenizer.
  - The route parser `parsearRuta`, with the solver's route encoding as its
    inverse.
  - `generar`, with its fallback word list and its banner messages.
  - The routes table built by `soluciones`.
  - The clamp on the attempts limit and `backToMenu`.
  - The page state is a class; solver replies and the lines of
    `palabras.txt` are parameters.

Every handler is one atomic step. An `await` of the solver becomes a
parameter holding the solver's answer: `MatrizReply`, `BusquedaReply` or
`Hangman.Reply`, each with a failure case for a request that throws.

Three behaviours of the code worth noting:

- The word list is not upper-cased before it is sent to the solver. Only
  the solver's filtered list is upper-cased, when it is stored
  (`src/App.tsx:73`).
- `generar` can fall through from the fallback branch. It tries the
  fallback list only when the typed box was not blank, the solver kept
  none of the typed words and `palabras.txt` is not empty. When the solver
  also keeps none of the fallback words, the code goes on to the ordinary
  success branch: it shows the first (empty) puzzle with a "0 palabras
  válidas" message. `GenerarSpec` states exactly this.
- The found-words list gains a word only when the matched word is not the
  empty string, because the code tests the found word for truthiness
  (`src/wordSearchGame.tsx:117`).

## Model

| member | source | states |
|---|---|---|
| Text.UpperChar | src/wordSearchGame.tsx:44 | a lower-case letter `a`..`z` maps to its capital, 32 code points lower; `ñ` maps to `Ñ`; every other character is unchanged |
| Text.Upper | src/wordSearchGame.tsx:44 | `toUpperCase` keeps the length of a word (for the modelled letters) |
| Text.UpperAll | src/App.tsx:73 | the list keeps its length and each word is upper-cased in place |
| Text.UpperIdempotent | src/wordSearchGame.tsx:105 | upper-casing twice equals upper-casing once, so stored upper-case words compare equal to their own `toUpperCase()` |
| Text.UpperEmpty | src/wordSearchGame.tsx:117 | an upper-cased word is empty exactly when the word is empty |
| Text.SkipSpace | src/App.tsx:26 | the index of the first non-space character at or after `from`, with only white space skipped |
| Text.BackSpace | src/App.tsx:26 | the end of a slice once its trailing white space is dropped, with only white space dropped |
| Text.Trim | src/App.tsx:26 | `trim` never lengthens its input |
| Text.TrimProps | src/App.tsx:26 | the trimmed text has no white space at either end, and is empty exactly when the input is all white space |
| Text.TrimOfTrimmed | src/App.tsx:87 | trimming a string without white space at its ends returns it unchanged |
| Text.TrimLeadingSpace | src/App.tsx:87 | the space after a `;` in a route disappears under `trim` |
| Text.Split | src/App.tsx:86 | `split` with one separator always returns at least one part |
| Text.SplitPrefix | src/App.tsx:86 | a prefix without the separator joins the first part of what follows it |
| Text.SplitWhole | src/App.tsx:86 | a string without the separator splits into itself alone |
| Text.SplitAtSeparator | src/App.tsx:86 | the first separator closes the first part; the rest splits independently |
| Text.DigitChar | src/App.tsx:67 | a digit below ten prints as the decimal digit of that value |
| Text.NatToString | src/App.tsx:67 | an interpolated count is a non-empty run of decimal digits with no leading zero |
| Text.DigitsRoundTrip | src/App.tsx:91-92 | `parseInt` of a printed natural number gives the number back |
| WordSearch.BuildBoard | src/wordSearchGame.tsx:41-49 | the in-place fill yields a 10x10 grid whose every cell is the last placed letter there, upper-cased, or the filler letter when no placed cell covers it |
| WordSearch.PlacedLetterShown | src/wordSearchGame.tsx:44 | a placed cell not overwritten by a later one shows its own letter, upper-cased |
| WordSearch.PlacedAtLast | src/wordSearchGame.tsx:44 | the placement pass leaves the last writer's upper-cased letter at a cell |
| WordSearch.PlacedAtEmpty | src/wordSearchGame.tsx:44-47 | with non-empty letters, a cell is left empty exactly when no placed cell covers it |
| WordSearch.FillerOnlyOnEmptyCells | src/wordSearchGame.tsx:45-49 | filler appears only on uncovered cells; a covered cell shows the same letter whatever the filler |
| WordSearch.WalkReachesEnd | src/wordSearchGame.tsx:65-70 | along a straight line the walk reaches `fin` after exactly `max(abs drow, abs dcol)` steps and never earlier, staying on the board between two on-board endpoints |
| WordSearch.PointStep | src/wordSearchGame.tsx:68-69 | each step moves by `(sign drow, sign dcol)` |
| WordSearch.PointReversed | src/wordSearchGame.tsx:53-54 | `k` steps back from `fin` land where `n - k` steps from `inicio` do |
| WordSearch.LineShape | src/wordSearchGame.tsx:52-71 | the line is empty exactly when the cells share no row, column or diagonal; otherwise it runs from `inicio` to `fin`, has `max(abs drow, abs dcol)+1` cells, and consecutive cells differ by `(sign drow, sign dcol)` |
| WordSearch.Reverse | src/wordSearchGame.tsx:100 | reversal keeps the length |
| WordSearch.ReverseAt | src/wordSearchGame.tsx:100 | the `k`-th element of the reversal is the `k`-th from the end |
| WordSearch.ReverseReverse | src/wordSearchGame.tsx:100 | reversing twice gives the sequence back |
| WordSearch.LineReversed | src/wordSearchGame.tsx:52-71 | the line from `fin` to `inicio` is the reverse of the line from `inicio` to `fin` |
| WordSearch.WalkedSnoc | src/wordSearchGame.tsx:66-69 | one more step of the walk, with the board letter where it lands, extends a correct walk |
| WordSearch.TracedByPoints | src/wordSearchGame.tsx:66 | a path whose `i`-th cell lies `i` steps along and carries the board letter there traces the drag |
| WordSearch.TracedPathIsStraight | src/wordSearchGame.tsx:56-70 | a traced path is a contiguous straight segment inside the board |
| WordSearch.FindMatch | src/wordSearchGame.tsx:104-116 | a word is found exactly when some word, upper-cased, reads the selection forwards or backwards; it is the first such word |
| WordSearch.MatchOrientationFree | src/wordSearchGame.tsx:99-106 | a selection and its reverse are accepted alike, by the same first word |
| WordSearch.FirstMatchSame | src/wordSearchGame.tsx:114-116 | two selections matched by the same words find the same first word |
| WordSearch.DragEitherWay | src/wordSearchGame.tsx:52-106 | dragging between the same two cells either way gives paths that are each other's reverse and are accepted alike |
| WordSearch.Covers | src/wordSearchGame.tsx:142-148 | a cell is covered exactly when some cell of the list has its coordinates |
| WordSearch.CoversAppend | src/wordSearchGame.tsx:109 | after appending, a cell is covered exactly when it was covered before or is in the appended cells |
| WordSearch.FoundCellsGrow | src/wordSearchGame.tsx:109 | appending the selection keeps the old found cells as a prefix, still covered and still on the board |
| WordSearch.FoundWordAdded | src/wordSearchGame.tsx:117-118 | adding the upper case of a listed word that is not yet there keeps the found-word list duplicate-free and made of upper-cased listed words |
| WordSearch.WordSearchGame.EsSeleccionada | src/wordSearchGame.tsx:142-144 | a cell is painted as selected exactly when some selected cell has its coordinates, and then it is a board cell when the selection is on the board |
| WordSearch.WordSearchGame.EsEncontrada | src/wordSearchGame.tsx:146-148 | a cell is painted as found exactly when some found cell has its coordinates, and then it is a board cell when the found cells are on the board |
| WordSearch.EsSolucion | src/wordSearchGame.tsx:150-155 | a cell is painted as a solution exactly when it lies on the route of some word of the solutions table |
| WordSearch.WordSearchGame.constructor | src/wordSearchGame.tsx:18-49 | mounting draws the board from the placed cells and starts with nothing selected, found or dragged |
| WordSearch.WordSearchGame.NewPuzzle | src/wordSearchGame.tsx:31-38 | a new puzzle clears the found words, found cells, selection, drag flag and anchor, and redraws the board |
| WordSearch.WordSearchGame.Redraw | src/wordSearchGame.tsx:41-49 | a re-render redraws the board with new filler and changes nothing else |
| WordSearch.WordSearchGame.GetLinea | src/wordSearchGame.tsx:52-72 | the loop returns the traced line from `inicio` to `fin` with the board letters, empty exactly when the cells are not in line, otherwise starting at `inicio` and ending at `fin` with `max(abs drow, abs dcol)+1` cells |
| WordSearch.WordSearchGame.MouseDown | src/wordSearchGame.tsx:75-81 | the pressed cell becomes the anchor and the whole selection, and dragging starts; nothing else changes |
| WordSearch.WordSearchGame.MouseEnter | src/wordSearchGame.tsx:84-91 | while dragging with an anchor, the selection becomes the traced line from the anchor; otherwise nothing changes |
| WordSearch.WordSearchGame.MouseUp | src/wordSearchGame.tsx:94-139 | no-op without a drag or with an empty selection; on a miss the selection is cleared and nothing is found; on a match the selection is appended to the found cells and the upper-cased word joins the found words only if absent, with congratulations exactly when the found-word count reaches the list length; found cells only grow and keep their prefix; found words stay duplicate-free |
| Hangman.Terminado | src/HangmanGame.tsx:57 | the game is over exactly when a snapshot exists and its status is won or lost |
| Hangman.Spaced | src/HangmanGame.tsx:61-63 | the characters of the pattern at even positions, single spaces at odd positions, length `2n-1` |
| Hangman.PalabraVisible | src/HangmanGame.tsx:61-63 | empty exactly when there is no snapshot or the pattern is empty; otherwise the pattern's characters at even positions with single spaces between them |
| Hangman.SplitSpaced | src/HangmanGame.tsx:139 | for a non-empty pattern without spaces, splitting the spaced pattern on spaces gives one tile per character of the pattern |
| Hangman.TilesCons | src/HangmanGame.tsx:139 | the first character is the first tile |
| Hangman.SplitSpacedStep | src/HangmanGame.tsx:139 | the first character of a longer pattern is its own tile, ahead of the rest |
| Hangman.Progreso | src/HangmanGame.tsx:65-67 | 0 without a snapshot; otherwise the nearest integer to `100 * used / max`, halves rounded up as `Math.round` does |
| Hangman.RoundDiv | src/HangmanGame.tsx:66 | floor division stated by its defining bounds |
| Hangman.ProgresoBounds | src/HangmanGame.tsx:65-67 | for a well-formed snapshot the progress is within 0..100, 0 before any miss and 100 with no attempt left |
| Hangman.ProgresoMonotone | src/HangmanGame.tsx:65-67 | fewer attempts left never gives less progress |
| Hangman.BarWidth | src/HangmanGame.tsx:170 | the bar width is within 0..100 and equals the progress when that is already in range |
| Hangman.BotonHabilitado | src/HangmanGame.tsx:204-213 | a letter button is enabled exactly when no guess is pending and, if a session is shown, it is in progress and the letter is not among the used letters |
| Hangman.AceptaIntento | src/HangmanGame.tsx:72-73 | a guess passes the handlers' guard exactly when a session exists, is in progress and the guess is not empty |
| Hangman.BotonEnviaIntento | src/HangmanGame.tsx:204-213 | an enabled letter button always passes the handler's guard; the guard itself ignores the used letters, so the disabled button is the only duplicate-letter guard |
| Hangman.HangmanGame.constructor | src/HangmanGame.tsx:17-22 | mounting keeps the snapshot the page received, with no message, no error, no typed word and nothing pending |
| Hangman.HangmanGame.StartGuess | src/HangmanGame.tsx:72-75 | a guess goes out exactly when a session exists, is not over and the guess is not empty; then the pending flag is raised and the error cleared; otherwise nothing changes |
| Hangman.HangmanGame.Settle | src/HangmanGame.tsx:76-87 | a reply replaces the whole snapshot and the message (or `""`); a failure keeps both and records the error's message or the fallback text; the pending flag drops either way |
| Hangman.HangmanGame.ManejarIntentoLetra | src/HangmanGame.tsx:72-88 | a rejected letter changes nothing; an accepted one ends with nothing pending and either the reply's snapshot and message, or the old snapshot and the letter error |
| Hangman.HangmanGame.ManejarIntentoPalabra | src/HangmanGame.tsx:90-107 | as for letters, with the word error text, and the typed word is cleared after every attempt that was sent |
| Hangman.HangmanGame.EscribirPalabra | src/HangmanGame.tsx:248 | the typed word is stored upper-cased |
| Hangman.HangmanGame.OnSubmitPalabra | src/HangmanGame.tsx:110-114 | a word blank after trimming sends nothing and changes nothing; otherwise the trimmed word is sent exactly when the guard accepts it |
| App.NextSeparatorProps | src/App.tsx:26 | no `,` `;` or newline lies between `from` and the returned index, and one lies at that index unless it is the end |
| App.Piece | src/App.tsx:26 | a piece yields at most one word; a piece without separators yields only a non-empty, trimmed, separator-free word |
| App.SplitWords | src/App.tsx:26 | every word is non-empty, trimmed and free of `,` `;` and newline |
| App.SplitWordsPiece | src/App.tsx:26 | text without separators yields its trimmed self or nothing |
| App.NextSeparatorConcat | src/App.tsx:26 | a separator placed after `a` does not move the first separator of `a` |
| App.FirstSeparatorConcat | src/App.tsx:26 | when `a` holds a separator, appending a separator and more text keeps that first separator and the text before it |
| App.SplitWordsHead | src/App.tsx:26 | when `a` holds a separator, the words of `a`, a separator and `b` start with the first piece of `a` |
| App.SplitWordsConcatPiece | src/App.tsx:26 | compositional splitting when the left part has no separator |
| App.SplitWordsConcatStep | src/App.tsx:26 | compositional splitting when the left part has a separator, given it for the rest |
| App.SplitWordsConcat | src/App.tsx:26 | the words of `a`, a separator and `b` are the words of `a` followed by the words of `b`, so input order is kept |
| App.SplitWordsWord | src/App.tsx:26 | a single word reads back as itself |
| App.SplitJoinWordsStep | src/App.tsx:26 | a word put in front of a joined list that reads back reads back ahead of it |
| App.SplitJoinWords | src/App.tsx:26 | any list of words joined by commas tokenizes back to the same list |
| App.WordList | src/App.tsx:24-31 | a box that is not blank yields only non-empty, trimmed, separator-free words (its tokenization); a blank box yields the lines of `palabras.txt` |
| App.IndexOf | src/App.tsx:85 | the leftmost occurrence at or after `from`, or none when there is no occurrence |
| App.ReplaceFirst | src/App.tsx:85 | `replace` removes the first occurrence only: unchanged when the pattern is absent; otherwise the text with its leftmost occurrence cut out, shorter by the pattern's length |
| App.DigitEnd | src/App.tsx:87 | the end of the maximal digit run starting at `from` |
| App.MatchAt | src/App.tsx:87 | a match at `p` starts with `(` after the capital at `p`, and yields a well-formed cell carrying that one letter |
| App.MatchAtShape | src/App.tsx:87 | a match at `p` has the pattern's shape: a capital, `(`, a digit run, `,`, a digit run and `)` |
| App.MatchAtOfShape | src/App.tsx:87 | wherever the text has that shape the pattern matches, reading the letter and the decimal values of the two digit runs |
| App.FirstMatch | src/App.tsx:87 | the leftmost position where the pattern matches, or none |
| App.ParseCoord | src/App.tsx:87-95 | a token yields a cell exactly when its trimmed text contains the pattern somewhere |
| App.ParseOne | src/App.tsx:86-96 | a token yields one cell when it contains the pattern and is dropped otherwise |
| App.ParseTokens | src/App.tsx:86-96 | at most one cell per token, each a well-formed route cell |
| App.ParseRoute | src/App.tsx:83-98 | the cells are well-formed and no more than the `;`-tokens after the prefix is removed |
| App.ParseTokensAppend | src/App.tsx:86-96 | the cells of two token lists are the cells of the first followed by those of the second, so token order is kept |
| App.ParseSplitCons | src/App.tsx:86-96 | a `;`-free token yielding one cell, then `;` and more text, parses to that cell ahead of the rest |
| App.FormatCellShape | src/App.tsx:87 | a formatted cell `X(r,c)` has no `;`, no surrounding space, and matches the pattern at 0 giving back the cell |
| App.CellLayout | src/App.tsx:87 | a capital, `(`, two digit strings around `,` and `)` has no `;` or surrounding space and matches at 0 reading back both numbers |
| App.CellMatch | src/App.tsx:87 | the pattern matches at the start of `L(d1,d2)` and reads back the letter and both numbers |
| App.CellLacks | src/App.tsx:86-87 | `L(d1,d2)` holds no `;` and no white space at its ends |
| App.DigitRun | src/App.tsx:87 | a digit run followed by a non-digit is exactly the greedy `\d+` run |
| App.ParseFormattedToken | src/App.tsx:87 | a formatted cell, with or without a leading space, parses back to the cell |
| App.ParseEmptyJoin | src/App.tsx:86-96 | an empty route parses to no cells |
| App.FormattedToken | src/App.tsx:86-96 | a formatted cell is one `;`-free token that yields exactly that cell |
| App.ParseJoinOne | src/App.tsx:86-96 | a one-cell route parses to that cell |
| App.ParseJoinStep | src/App.tsx:86-96 | a route of two or more cells parses back to itself: its first cell is its own token, ahead of the others |
| App.ParseJoin | src/App.tsx:86-96 | the `;`-tokens of any joined route parse back to the route |
| App.RouteRoundTrip | src/App.tsx:83-98 | `parsearRuta` of the solver's `Ruta: X(r,c); ...` encoding of a route gives the route |
| App.GeneratedText | src/App.tsx:63-70 | the message starts with the valid count, gains the filtered note exactly when the original count exceeds the valid count, and the note reports the difference |
| App.KeptTruthy | src/App.tsx:41 | the solver's filtered list is kept whenever it is present, even empty (an empty array is truthy); the kept list is empty exactly when the solver sent an empty list, or sent none for an empty request |
| App.GenerarSpec | src/App.tsx:22-81 | an empty list gives only the no-words report; a failed request gives only the error report; the fallback puzzle is used exactly when the typed list was filtered to nothing and the fallback list survives; otherwise the first puzzle with its filtered list (or the request's list) upper-cased and the count message |
| App.UpperAllIdempotent | src/App.tsx:73 | every stored word is its own upper case |
| App.RouteOf | src/App.tsx:119-121 | an answer yields cells only when it is text starting with `Ruta:`, and all its cells are well-formed |
| App.RoutesOfSound | src/App.tsx:112-129 | in the table `RoutesOf` the loop builds, every entry belongs to a word, has at least one cell, and holds only well-formed route cells |
| App.BuildRoutes | src/App.tsx:112-129 | the loop builds exactly the routes table `RoutesOf` of the words and their answers |
| App.RoutesOfKeys | src/App.tsx:119-124 | in `RoutesOf`, a word has an entry exactly when one of its searches yielded a route |
| App.RoutesOfLast | src/App.tsx:119-124 | in `RoutesOf`, a word's entry is the route of its last search that yielded one |
| App.ClampIntentos | src/App.tsx:233 | the limit is within 3..12, equals the input when that is in range, and is the nearest bound otherwise |
| App.AppState.constructor | src/App.tsx:9-20 | the page starts on the menu with everything empty and the attempts limit at 7 |
| App.AppState.SelectGame | src/App.tsx:141-143 | only the screen changes |
| App.AppState.Generar | src/App.tsx:22-81 | the banner and puzzle state are those `GenerarSpec` gives for the box's word list: a failure changes no puzzle state; a success publishes the new cells and words and clears the routes and found cells |
| App.AppState.GenerarCon | src/App.tsx:33-76 | the same once the word list is known |
| App.AppState.Publicar | src/App.tsx:72-76 | the new cells, the words upper-cased and the report; no routes and no found cells |
| App.AppState.Soluciones | src/App.tsx:105-139 | with no puzzle only the reminder message is set; otherwise the routes table is the one built from the answers and the message counts its keys against the number of words |
| App.AppState.GenerarAhorcado | src/App.tsx:145-174 | an empty list sends nothing and sets the no-words message; otherwise the list and the current limit are sent, and the reply's snapshot and message (or the default text) are stored, or the error text on failure |
| App.AppState.OnMaxIntentosChange | src/App.tsx:230-235 | a value that is not a number is ignored; any other is clamped to 3..12 |
| App.AppState.BackToMenu | src/App.tsx:176-185 | back on the menu with every game field emptied; the word-search box and the attempts limit are kept |

## Left out

- Asynchronous interleaving: each handler is one atomic step. The pending
  flag `cargando` is modelled, but overlapping requests are not.
- React rendering, CSS class selection, `useMemo`, `useState` and
  `useEffect` scheduling, and console logging.
- The network calls and JSON handling of `src/utils/api.ts`, and the
  `palabras.txt` loader of `src/utils/textsearch.ts`. Solver answers and
  the loaded lines are parameters. Neither file is part of this model.
- `src/MainMenu.tsx` and its navigation delay; it is not part of this model.
- The random filler letters: the caller supplies them as any grid of `A`..`Z`.
- The callbacks the children use to write back into the page are not
  modelled. These are `onMensaje`, `onPalabrasEncontradas` and
  `onEstadoChange`, and they are plain setters of `resultado`,
  `palabrasEncontradas` and `hangmanEstado`. The word-search release
  returns its report as a value (`WordSearch.Aviso`) instead.
- The two text-box setters of the page (`setInput`, `setHangmanInput`).
  They are plain assignments.
- The `aviso` display value of the hangman (`error || estado.mensaje ||
  mensaje`) is not modelled. It is computed but never rendered, so the
  hangman never displays `error`: the player is not told why a guess failed.
- Hangman.Spaced, Hangman.PalabraVisible: a Dafny `char` is a Unicode scalar
  value, whereas `split("")` splits into UTF-16 code units. The two differ
  on characters outside the Basic Multilingual Plane, which are not modelled.
- The effect at `src/wordSearchGame.tsx:27-29` that re-seeds `encontradas`
  from the page's `palabrasEncontradas` is not modelled, because the
  callback that writes that list back is left out too.
- The page mounts `HangmanGame` without a `key` (`src/App.tsx:263`), so its
  `useState(initialState)` keeps the old game when a second
  `generarAhorcado` delivers a new snapshot while the game is shown. The
  model's `Hangman.HangmanGame.constructor` starts each game afresh and
  does not capture this stale state.
- Text.UpperChar: upper-cases only `a`..`z` and `ñ`. Other Unicode case
  mappings, and strings that change length when upper-cased, are not
  modelled.
- Hangman.Progreso: requires a positive limit. With a limit of 0 the source
  computes `NaN`, and with a negative one a negative share; neither is
  modelled. The integer formula stands in for the floating-point
  `Math.round((used / max) * 100)`. The two agree for the limits the page
  sends (3..12). A share `100 * used / max` that is not exactly a half
  lies at least `1 / (2 * max)` from one, far beyond the rounding error.
  Only a limit of 8 gives exact halves, and those are exact in binary.
- WordSearch.BuildBoard: the placed cells are taken to lie on the 10x10
  board. An off-board cell from the solver, which makes the source throw
  during rendering (a row outside 0..9) or widen a row (a column of 10 or
  more), is not modelled.
- App.AppState.OnMaxIntentosChange: a non-numeric value is the `None` case.
  Non-integer numbers from the number box are not modelled.
- App.MatchAt: digit runs are read as unbounded naturals. `parseInt`'s loss
  of precision above 2^53 is not modelled.
- App.ParseRoute: the `try`/`catch` fallback to an empty list is not
  modelled, because nothing in the parser can throw.
- App.AppState.Soluciones: takes one answer per word. A failed search is
  the `BusquedaError` answer. The outer `catch` that sets "Error al buscar
  soluciones 😅" is not modelled, because nothing outside the per-word
  `try` can throw.
- The time formatting `tiempoFinal.toFixed(2)` is floating point and is not
  modelled.
