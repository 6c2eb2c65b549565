/** The hangman client: one authoritative snapshot of the session received
    from the solver, the local guards applied before a guess is sent, and the
    values the page derives from the snapshot. */
module Hangman {
  import opened Text

  /** The session status reported by the solver. */
  datatype Estado = EnCurso | Ganado | Perdido

  /** One snapshot of a session, as the solver returns it after every call. */
  datatype Snapshot = Snapshot(
    juegoId: string,
    palabraOculta: string,
    longitud: int,
    intentosRestantes: int,
    intentosMaximos: int,
    letrasUsadas: seq<string>,
    letrasIncorrectas: seq<string>,
    estado: Estado,
    palabraCompleta: Option<string>,
    mensaje: Option<string>)

  /** The outcome of a guess sent to the solver: a new snapshot, or a failure
      carrying the error's message when the failure was an `Error`. */
  datatype Reply = Answer(snapshot: Snapshot) | Failure(message: Option<string>)

  /** The alphabet of the letter buttons, in display order. */
  const Abecedario: string := "ABCDEFGHIJKLMNÑOPQRSTUVWXYZ"

  /** The letter buttons: one one-letter string per letter of the alphabet. */
  const Letras: seq<string> := seq(|Abecedario|, i requires 0 <= i < |Abecedario| => [Abecedario[i]])

  const LetterFailureText: string := "No se pudo procesar la letra."
  const WordFailureText: string := "No se pudo procesar la palabra."

  // ---------------------------------------------------------------------------
  // Values derived from the snapshot
  // ---------------------------------------------------------------------------

  /** `juegoTerminado`: the session is won or lost. */
  function Terminado(e: Option<Snapshot>): (t: bool)
    ensures t <==> e.Some? && !e.value.estado.EnCurso?
  {
    e.Some? && (e.value.estado == Ganado || e.value.estado == Perdido)
  }

  /** The characters of `s` separated by single spaces. */
  function Spaced(s: string): (r: string)
    ensures s != [] ==> |r| == 2 * |s| - 1
    ensures s == [] ==> r == []
    ensures forall i :: 0 <= i < |s| ==> r[2 * i] == s[i]
    ensures forall i :: 0 <= i < |s| - 1 ==> r[2 * i + 1] == ' '
  {
    if |s| <= 1 then s
    else
      var t := Spaced(s[1..]);
      var r := [s[0], ' '] + t;
      forall i | 1 <= i < |s| ensures r[2 * i] == s[i] {
        var j := i - 1;
        assert r[2 * i] == t[2 * j] == s[1..][j];
      }
      forall i | 1 <= i < |s| - 1 ensures r[2 * i + 1] == ' ' {
        var j := i - 1;
        assert r[2 * i + 1] == t[2 * j + 1];
      }
      r
  }

  /** `palabraVisible`: the hidden pattern spaced out, or `""` when there is
      no snapshot or the pattern is empty. */
  function PalabraVisible(e: Option<Snapshot>): (v: string)
    ensures v == "" <==> e.None? || e.value.palabraOculta == ""
    ensures v != "" ==> var p := e.value.palabraOculta;
      |v| == 2 * |p| - 1
      && (forall i :: 0 <= i < |p| ==> v[2 * i] == p[i])
      && (forall i :: 0 <= i < |p| - 1 ==> v[2 * i + 1] == ' ')
  {
    if e.Some? && e.value.palabraOculta != "" then Spaced(e.value.palabraOculta) else ""
  }

  /** Splitting the spaced pattern on spaces gives back its characters one by
      one (one tile per character), provided the pattern holds no space. */
  lemma {:induction false} SplitSpaced(s: string)
    requires s != [] && forall i :: 0 <= i < |s| ==> s[i] != ' '
    ensures Split(Spaced(s), ' ') == Tiles(s)
  {
    if |s| == 1 {
      assert Spaced(s) == s;
      assert Lacks(s, ' ');
      SplitWhole(s, ' ');
      assert s == [s[0]];
      assert Tiles(s) == [s];
    } else {
      SplitSpaced(s[1..]);
      SplitSpacedStep(s);
    }
  }

  /** One character per tile. */
  function Tiles(s: string): (tiles: seq<string>)
    ensures |tiles| == |s|
    ensures forall i :: 0 <= i < |s| ==> tiles[i] == [s[i]]
  {
    seq(|s|, i requires 0 <= i < |s| => [s[i]])
  }

  lemma TilesCons(s: string)
    requires s != []
    ensures Tiles(s) == [[s[0]]] + Tiles(s[1..])
  {
    var rest := Tiles(s[1..]);
    forall i | 1 <= i < |s| ensures Tiles(s)[i] == ([[s[0]]] + rest)[i] {
      assert rest[i - 1] == [s[1..][i - 1]] && s[1..][i - 1] == s[i];
    }
  }

  lemma SpacedCons(s: string)
    requires |s| > 1
    ensures Spaced(s) == [s[0]] + [' '] + Spaced(s[1..])
  {
    assert Spaced(s) == [s[0], ' '] + Spaced(s[1..]);
    PairConcat(s[0], ' ', Spaced(s[1..]));
  }

  lemma PairConcat<T>(x: T, y: T, t: seq<T>)
    ensures [x, y] + t == [x] + [y] + t
  {
  }

  /** The first character of a longer pattern is its own tile. */
  lemma SplitSpacedStep(s: string)
    requires |s| > 1 && s[0] != ' '
    requires Split(Spaced(s[1..]), ' ') == Tiles(s[1..])
    ensures Split(Spaced(s), ' ') == Tiles(s)
  {
    var t := Spaced(s[1..]);
    SpacedCons(s);
    SplitAtSeparator([s[0]], t, ' ');
    TilesCons(s);
  }

  /** `progreso`: the share of attempts used, in percent, as `Math.round`
      gives it; 0 without a snapshot. */
  function Progreso(e: Option<Snapshot>): (p: int)
    requires e.Some? ==> e.value.intentosMaximos > 0
    ensures e.None? ==> p == 0
    ensures e.Some? ==>
              var m, used := e.value.intentosMaximos, e.value.intentosMaximos - e.value.intentosRestantes;
              // p is the nearest integer to 100 * used / m, halves rounded up
              2 * m * p <= 200 * used + m < 2 * m * (p + 1)
  {
    if e.None? then 0
    else
      var m, used := e.value.intentosMaximos, e.value.intentosMaximos - e.value.intentosRestantes;
      RoundDiv(200 * used + m, 2 * m)
  }

  /** Floor division by a positive number, stated by its defining bounds. */
  function RoundDiv(x: int, d: int): (q: int)
    requires d > 0
    ensures d * q <= x < d * (q + 1)
  {
    x / d
  }

  /** A snapshot the solver can send: a positive limit and no more attempts
      left than the limit. */
  predicate WellFormed(s: Snapshot) {
    s.intentosMaximos > 0 && 0 <= s.intentosRestantes <= s.intentosMaximos
  }

  /** With a well-formed snapshot the progress is a percentage: 0 before any
      miss, 100 once no attempt is left. */
  lemma ProgresoBounds(s: Snapshot)
    requires WellFormed(s)
    ensures 0 <= Progreso(Some(s)) <= 100
    ensures s.intentosRestantes == s.intentosMaximos ==> Progreso(Some(s)) == 0
    ensures s.intentosRestantes == 0 ==> Progreso(Some(s)) == 100
  {
    var m2, used, p := 2 * s.intentosMaximos, s.intentosMaximos - s.intentosRestantes, Progreso(Some(s));
    assert m2 * p <= 200 * used + m2 / 2 < m2 * (p + 1);
    MulBelow(m2, p, 101);
    MulAbove(m2, p, -1);
    if used == 0 {
      MulBelow(m2, p, 1);
    }
    if used == m2 / 2 {
      MulBelow(m2, p, 101);
      MulAbove(m2, p, 100);
    }
  }

  /** Fewer attempts left never means less progress (same limit). */
  lemma ProgresoMonotone(s: Snapshot, t: Snapshot)
    requires s.intentosMaximos == t.intentosMaximos > 0
    requires t.intentosRestantes <= s.intentosRestantes
    ensures Progreso(Some(s)) <= Progreso(Some(t))
  {
    var m, p, q := s.intentosMaximos, Progreso(Some(s)), Progreso(Some(t));
    assert 2 * m * p < 2 * m * (q + 1);
    MulBelow(2 * m, p, q + 1);
  }

  /** Multiplying by a non-negative number keeps order. */
  lemma {:induction false} MulMono(m: int, x: int, y: int)
    requires m >= 0
    ensures x <= y ==> m * x <= m * y
    decreases m
  {
    if m > 0 {
      MulMono(m - 1, x, y);
      assert m * x == (m - 1) * x + x && m * y == (m - 1) * y + y;
    }
  }

  /** For a positive factor, `m * p < m * b` means `p < b`. */
  lemma MulBelow(m: int, p: int, b: int)
    requires m > 0 && m * p < m * b
    ensures p < b
  {
    MulMono(m, b, p);
  }

  /** For a positive factor, `m * b < m * (p + 1)` means `b <= p`. */
  lemma MulAbove(m: int, p: int, b: int)
    requires m > 0 && m * b < m * (p + 1)
    ensures b <= p
  {
    MulBelow(m, b, p + 1);
  }

  /** The width of the progress bar, `min(100, max(0, progreso))`. */
  function BarWidth(p: int): (w: int)
    ensures 0 <= w <= 100
    ensures 0 <= p <= 100 ==> w == p
    ensures p < 0 ==> w == 0
    ensures p > 100 ==> w == 100
  {
    if p > 100 then 100 else if p < 0 then 0 else p
  }

  /** The letters already tried in the snapshot (`letrasUsadas` as a set). */
  function Usadas(e: Option<Snapshot>): set<string> {
    if e.Some? then set i | 0 <= i < |e.value.letrasUsadas| :: e.value.letrasUsadas[i] else {}
  }

  /** A letter button is enabled: the letter is unused, the game is not over and
      no guess is pending. */
  predicate BotonHabilitado(e: Option<Snapshot>, cargando: bool, letra: string): (b: bool)
    ensures b <==> !cargando
                   && (e.Some? ==> e.value.estado == EnCurso
                                   && forall i :: 0 <= i < |e.value.letrasUsadas| ==> e.value.letrasUsadas[i] != letra)
  {
    letra !in Usadas(e) && !Terminado(e) && !cargando
  }

  /** The local guard of both guess handlers: a session exists, it is not over,
      and the guess is not empty. */
  predicate AceptaIntento(e: Option<Snapshot>, intento: string): (b: bool)
    ensures b <==> e.Some? && e.value.estado == EnCurso && |intento| > 0
  {
    e.Some? && !Terminado(e) && intento != ""
  }

  /** Clicking an enabled button of a shown session always sends the guess;
      a used letter is kept out only by its disabled button, since the
      handler's own guard does not look at the used letters. */
  lemma BotonEnviaIntento(e: Option<Snapshot>, cargando: bool, letra: string)
    requires e.Some? && letra in Letras
    ensures BotonHabilitado(e, cargando, letra) ==> AceptaIntento(e, letra)
    ensures AceptaIntento(e, letra) == AceptaIntento(Some(e.value.(letrasUsadas := [letra])), letra)
    ensures letra in Usadas(Some(e.value.(letrasUsadas := [letra])))
  {
    var i :| 0 <= i < |Letras| && Letras[i] == letra;
    assert |letra| == 1;
    assert [letra][0] == letra;
  }

  // ---------------------------------------------------------------------------
  // The game component
  // ---------------------------------------------------------------------------

  /** The hangman component's state: the current snapshot, the last message and
      error, the word being typed, and whether a guess is pending. */
  class HangmanGame {
    var estado: Option<Snapshot>
    var mensaje: string
    var error: string
    var palabraPropuesta: string
    var cargando: bool

    /** Mounting with the snapshot the page received when the session started. */
    constructor (initialState: Option<Snapshot>)
      ensures estado == initialState && mensaje == "" && error == ""
      ensures palabraPropuesta == "" && !cargando
    {
      estado, mensaje, error := initialState, "", "";
      palabraPropuesta, cargando := "", false;
    }

    /** The part of a guess handler before the solver is awaited: the guard,
      then the pending flag raised and the old error cleared. */
    method StartGuess(intento: string) returns (sent: bool)
      modifies this
      ensures sent == AceptaIntento(old(estado), intento)
      ensures sent ==> cargando && error == ""
      ensures !sent ==> cargando == old(cargando) && error == old(error)
      ensures estado == old(estado) && mensaje == old(mensaje) && palabraPropuesta == old(palabraPropuesta)
    {
      sent := AceptaIntento(estado, intento);
      if sent {
        cargando := true;
        error := "";
      }
    }

    /** The part after the await: a reply replaces the whole snapshot and the
      message; a failure keeps the snapshot and records the error; either way
      the pending flag drops. */
    method Settle(reply: Reply, fallback: string)
      modifies this
      ensures !cargando && palabraPropuesta == old(palabraPropuesta)
      ensures reply.Answer? ==>
                estado == Some(reply.snapshot) && mensaje == reply.snapshot.mensaje.GetOr("")
                && error == old(error)
      ensures reply.Failure? ==>
                estado == old(estado) && mensaje == old(mensaje) && error == reply.message.GetOr(fallback)
    {
      match reply {
        case Answer(respuesta) =>
          estado := Some(respuesta);
          mensaje := respuesta.mensaje.GetOr("");
        case Failure(msg) =>
          error := msg.GetOr(fallback);
      }
      cargando := false;
    }

    /** `manejarIntentoLetra`: a letter guess, run to completion with the
      solver's `reply`. */
    method ManejarIntentoLetra(letra: string, reply: Reply) returns (sent: bool)
      modifies this
      ensures sent == AceptaIntento(old(estado), letra)
      ensures !sent ==> estado == old(estado) && mensaje == old(mensaje) && error == old(error)
                        && cargando == old(cargando)
      ensures sent ==> !cargando
      ensures sent && reply.Answer? ==>
                estado == Some(reply.snapshot) && mensaje == reply.snapshot.mensaje.GetOr("") && error == ""
      ensures sent && reply.Failure? ==>
                estado == old(estado) && mensaje == old(mensaje) && error == reply.message.GetOr(LetterFailureText)
      ensures palabraPropuesta == old(palabraPropuesta)
    {
      sent := StartGuess(letra);
      if sent {
        Settle(reply, LetterFailureText);
      }
    }

    /** `manejarIntentoPalabra`: a whole-word guess, run to completion with the
      solver's `reply`; the typed word is cleared whatever the outcome. */
    method ManejarIntentoPalabra(palabra: string, reply: Reply) returns (sent: bool)
      modifies this
      ensures sent == AceptaIntento(old(estado), palabra)
      ensures !sent ==> estado == old(estado) && mensaje == old(mensaje) && error == old(error)
                        && cargando == old(cargando) && palabraPropuesta == old(palabraPropuesta)
      ensures sent ==> !cargando && palabraPropuesta == ""
      ensures sent && reply.Answer? ==>
                estado == Some(reply.snapshot) && mensaje == reply.snapshot.mensaje.GetOr("") && error == ""
      ensures sent && reply.Failure? ==>
                estado == old(estado) && mensaje == old(mensaje) && error == reply.message.GetOr(WordFailureText)
    {
      sent := StartGuess(palabra);
      if sent {
        Settle(reply, WordFailureText);
        palabraPropuesta := "";
      }
    }

    /** Typing in the word box stores the text upper-cased. */
    method EscribirPalabra(texto: string)
      modifies this
      ensures palabraPropuesta == Upper(texto)
      ensures estado == old(estado) && mensaje == old(mensaje) && error == old(error) && cargando == old(cargando)
    {
      palabraPropuesta := Upper(texto);
    }

    /** `onSubmitPalabra`: a word that is blank after trimming is not sent;
      otherwise the trimmed word goes to the word-guess handler. Returns the
      word sent to the solver, if any. */
    method OnSubmitPalabra(reply: Reply) returns (enviada: Option<string>)
      modifies this
      ensures Trim(old(palabraPropuesta)) == "" ==>
                enviada == None && estado == old(estado) && mensaje == old(mensaje) && error == old(error)
                && cargando == old(cargando) && palabraPropuesta == old(palabraPropuesta)
      ensures enviada.Some? <==> AceptaIntento(old(estado), Trim(old(palabraPropuesta)))
      ensures enviada.None? ==>
                estado == old(estado) && mensaje == old(mensaje) && error == old(error)
                && cargando == old(cargando) && palabraPropuesta == old(palabraPropuesta)
      ensures enviada.Some? ==> enviada.value == Trim(old(palabraPropuesta)) && enviada.value != ""
                                && !cargando && palabraPropuesta == ""
      ensures enviada.Some? && reply.Answer? ==>
                estado == Some(reply.snapshot) && mensaje == reply.snapshot.mensaje.GetOr("") && error == ""
      ensures enviada.Some? && reply.Failure? ==>
                estado == old(estado) && mensaje == old(mensaje) && error == reply.message.GetOr(WordFailureText)
    {
      var palabra := Trim(palabraPropuesta);
      if palabra == "" {
        return None;
      }
      var sent := ManejarIntentoPalabra(palabra, reply);
      enviada := if sent then Some(palabra) else None;
    }
  }
}
