/** Ranges of physical addresses and the free list kept by kernel_memory/src/segmentacion.c.

    A list of ranges is reasoned about through `Veces(rs, a)`, the number of ranges that
    contain address `a`.  "Pairwise disjoint and covering exactly [0, n)" is then the
    statement that `Veces` is 1 below `n` and 0 from `n` on. */
module Rangos {
  import opened Secuencias

  /** `t_hueco`, and the physical place of a `t_segmento`. */
  datatype Rango = Rango(base: nat, limite: nat) {
    function Fin(): nat { base + limite }
    predicate Tiene(a: nat) { base <= a < base + limite }
    function Uno(a: nat): nat { if Tiene(a) then 1 else 0 }
  }

  // ---------------------------------------------------------------- counting and size

  function Veces(rs: seq<Rango>, a: nat): nat
  {
    if rs == [] then 0 else rs[0].Uno(a) + Veces(rs[1..], a)
  }

  function Suma(rs: seq<Rango>): nat
  {
    if rs == [] then 0 else rs[0].limite + Suma(rs[1..])
  }

  lemma {:induction false} VecesConcat(x: seq<Rango>, y: seq<Rango>, a: nat)
    ensures Veces(x + y, a) == Veces(x, a) + Veces(y, a)
  {
    if x == [] {
      assert x + y == y;
    } else {
      assert (x + y)[1..] == x[1..] + y;
      VecesConcat(x[1..], y, a);
    }
  }

  lemma {:induction false} SumaConcat(x: seq<Rango>, y: seq<Rango>)
    ensures Suma(x + y) == Suma(x) + Suma(y)
  {
    if x == [] {
      assert x + y == y;
    } else {
      assert (x + y)[1..] == x[1..] + y;
      SumaConcat(x[1..], y);
    }
  }

  /** What replacing one range does to both measures. */
  lemma {:induction false} VecesPartida(rs: seq<Rango>, i: nat, a: nat)
    requires i < |rs|
    ensures Veces(rs, a) == Veces(rs[..i], a) + rs[i].Uno(a) + Veces(rs[i + 1..], a)
  {
    assert rs == rs[..i] + rs[i..];
    VecesConcat(rs[..i], rs[i..], a);
    assert rs[i..][1..] == rs[i + 1..];
  }

  lemma {:induction false} SumaPartida(rs: seq<Rango>, i: nat)
    requires i < |rs|
    ensures Suma(rs) == Suma(rs[..i]) + rs[i].limite + Suma(rs[i + 1..])
  {
    assert rs == rs[..i] + rs[i..];
    SumaConcat(rs[..i], rs[i..]);
    assert rs[i..][1..] == rs[i + 1..];
  }

  lemma {:induction false} VecesCero(rs: seq<Rango>, a: nat)
    ensures Veces(rs, a) == 0 <==> forall i :: 0 <= i < |rs| ==> !rs[i].Tiene(a)
  {
    if rs != [] {
      VecesCero(rs[1..], a);
      assert forall i :: 0 < i < |rs| ==> rs[i] == rs[1..][i - 1];
      assert forall i :: 0 <= i < |rs| - 1 ==> rs[1..][i] == rs[i + 1];
    }
  }

  /** Two different ranges through one address count twice. */
  lemma {:induction false} VecesDos(rs: seq<Rango>, i: nat, j: nat, a: nat)
    requires i < j < |rs| && rs[i].Tiene(a) && rs[j].Tiene(a)
    ensures Veces(rs, a) >= 2
  {
    VecesPartida(rs, i, a);
    assert rs[i + 1..][j - i - 1] == rs[j];
    VecesCero(rs[i + 1..], a);
  }

  /** `Veces` and `Suma` do not depend on the order of the list. */
  lemma {:induction false} Permutadas(x: seq<Rango>, y: seq<Rango>, a: nat)
    requires multiset(x) == multiset(y)
    ensures Veces(x, a) == Veces(y, a)
    ensures Suma(x) == Suma(y)
  {
    MismoLargo(x, y);
    if x != [] {
      var k := Permutada(x, y);
      Permutadas(x[1..], y[..k] + y[k + 1..], a);
      VecesPartida(y, k, a);
      VecesConcat(y[..k], y[k + 1..], a);
      SumaPartida(y, k);
      SumaConcat(y[..k], y[k + 1..]);
    }
  }

  // ---------------------------------------------------------------- canonical free list

  /** Sorted by base, no empty hole, no two holes that touch. */
  ghost predicate Canonico(hs: seq<Rango>)
  {
    && (forall i :: 0 <= i < |hs| ==> hs[i].limite > 0)
    && (forall i, j :: 0 <= i < j < |hs| ==> hs[i].Fin() < hs[j].base)
  }

  lemma {:induction false} VecesCanonico(hs: seq<Rango>, a: nat)
    requires Canonico(hs)
    ensures Veces(hs, a) <= 1
  {
    if hs != [] {
      VecesCanonico(hs[1..], a);
      if hs[0].Tiene(a) {
        VecesCero(hs[1..], a);
      }
    }
  }

  /** The address set determines the canonical list: there is one sorted decomposition of
      it into maximal runs. */
  lemma {:induction false} CanonicoUnico(x: seq<Rango>, y: seq<Rango>)
    requires Canonico(x) && Canonico(y)
    requires forall a: nat :: Veces(x, a) == Veces(y, a)
    ensures x == y
  {
    if x == [] || y == [] {
      if x != [] { VacioVacio(x); }
      if y != [] { VacioVacio(y); }
    } else {
      PrimeroMenor(x, y);
      PrimeroMenor(y, x);
      PrimeroFin(x, y);
      PrimeroFin(y, x);
      assert x[0] == y[0];
      forall a: nat ensures Veces(x[1..], a) == Veces(y[1..], a) {
        assert Veces(x, a) == Veces(y, a);
      }
      CanonicoUnico(x[1..], y[1..]);
      assert x == [x[0]] + x[1..] && y == [y[0]] + y[1..];
    }
  }

  lemma VacioVacio(x: seq<Rango>)
    requires x != [] && x[0].limite > 0
    ensures exists a: nat :: Veces(x, a) != Veces([], a)
  {
    assert Veces(x, x[0].base) != Veces([], x[0].base);
  }

  lemma {:induction false} PrimeroMenor(x: seq<Rango>, y: seq<Rango>)
    requires x != [] && y != [] && Canonico(x) && Canonico(y)
    requires forall a: nat :: Veces(x, a) == Veces(y, a)
    ensures y[0].base <= x[0].base
  {
    var a := x[0].base;
    assert Veces(x, a) > 0;
    VecesCero(y, a);
  }

  lemma {:induction false} PrimeroFin(x: seq<Rango>, y: seq<Rango>)
    requires x != [] && y != [] && Canonico(x) && Canonico(y)
    requires x[0].base == y[0].base
    requires forall a: nat :: Veces(x, a) == Veces(y, a)
    ensures x[0].Fin() <= y[0].Fin()
  {
    if y[0].Fin() < x[0].Fin() {
      var a := y[0].Fin();
      assert x[0].Tiene(a);
      assert Veces(x, a) == Veces(y, a);
      VecesCero(y, a);
      assert false;
    }
  }

  // ---------------------------------------------------------------- insertar_hueco_y_fusionar

  /** Index of the first hole that starts after `base`. */
  function Posicion(hs: seq<Rango>, base: nat): (p: nat)
    ensures p <= |hs|
  {
    if hs == [] || hs[0].base > base then 0 else 1 + Posicion(hs[1..], base)
  }

  lemma {:induction false} PosicionSepara(hs: seq<Rango>, base: nat)
    requires Canonico(hs)
    ensures forall i :: 0 <= i < Posicion(hs, base) ==> hs[i].base <= base
    ensures forall i :: Posicion(hs, base) <= i < |hs| ==> hs[i].base > base
  {
    if hs != [] && hs[0].base <= base {
      PosicionSepara(hs[1..], base);
      var p := Posicion(hs[1..], base);
      assert forall i :: 0 < i < |hs| ==> hs[i] == hs[1..][i - 1];
    }
  }

  /** Insert in base order, then merge with the following and with the preceding hole. */
  function Insertar(hs: seq<Rango>, n: Rango): seq<Rango>
  {
    var p := Posicion(hs, n.base);
    UnirAnterior(hs[..p], UnirSiguiente(n, hs[p..]))
  }

  /** The new hole in front of the holes that follow it, merged with the first if they touch. */
  function UnirSiguiente(n: Rango, der: seq<Rango>): (r: seq<Rango>)
    ensures r != [] && r[0].base == n.base
  {
    if der != [] && n.Fin() == der[0].base
    then [Rango(n.base, n.limite + der[0].limite)] + der[1..]
    else [n] + der
  }

  /** The holes before, merged with the new one if the last of them touches it. */
  function UnirAnterior(izq: seq<Rango>, der: seq<Rango>): seq<Rango>
    requires der != []
  {
    var k := |izq|;
    if k > 0 && izq[k - 1].Fin() == der[0].base
    then izq[..k - 1] + [Rango(izq[k - 1].base, izq[k - 1].limite + der[0].limite)] + der[1..]
    else izq + der
  }

  lemma {:induction false} UnirSiguienteVeces(n: Rango, der: seq<Rango>, a: nat)
    ensures Veces(UnirSiguiente(n, der), a) == n.Uno(a) + Veces(der, a)
    ensures Suma(UnirSiguiente(n, der)) == n.limite + Suma(der)
  {
    var r := UnirSiguiente(n, der);
    assert r == [r[0]] + r[1..];
    if der != [] && n.Fin() == der[0].base {
      assert r[1..] == der[1..];
    } else {
      assert r[1..] == der;
    }
  }

  lemma {:induction false} UnirAnteriorVeces(izq: seq<Rango>, der: seq<Rango>, a: nat)
    requires der != []
    ensures Veces(UnirAnterior(izq, der), a) == Veces(izq, a) + Veces(der, a)
    ensures Suma(UnirAnterior(izq, der)) == Suma(izq) + Suma(der)
  {
    var k := |izq|;
    if k > 0 && izq[k - 1].Fin() == der[0].base {
      TresPartes(izq[..k - 1], Rango(izq[k - 1].base, izq[k - 1].limite + der[0].limite), der[1..], a);
      VecesPartida(izq, k - 1, a);
      SumaPartida(izq, k - 1);
    } else {
      VecesConcat(izq, der, a);
      SumaConcat(izq, der);
    }
  }

  /** No address is gained or lost by the merges, whatever the list. */
  lemma {:induction false} InsertarVeces(hs: seq<Rango>, n: Rango, a: nat)
    ensures Veces(Insertar(hs, n), a) == Veces(hs, a) + n.Uno(a)
    ensures Suma(Insertar(hs, n)) == Suma(hs) + n.limite
  {
    var p := Posicion(hs, n.base);
    assert hs == hs[..p] + hs[p..];
    VecesConcat(hs[..p], hs[p..], a);
    SumaConcat(hs[..p], hs[p..]);
    UnirSiguienteVeces(n, hs[p..], a);
    UnirAnteriorVeces(hs[..p], UnirSiguiente(n, hs[p..]), a);
  }

  lemma {:induction false} TresPartes(x: seq<Rango>, m: Rango, y: seq<Rango>, a: nat)
    ensures Veces(x + [m] + y, a) == Veces(x, a) + m.Uno(a) + Veces(y, a)
    ensures Suma(x + [m] + y) == Suma(x) + m.limite + Suma(y)
  {
    var rs := x + [m] + y;
    assert rs[..|x|] == x && rs[|x| + 1..] == y;
    VecesPartida(rs, |x|, a);
    SumaPartida(rs, |x|);
  }

  /** A range is free to insert when no hole meets it. */
  ghost predicate Ajeno(hs: seq<Rango>, n: Rango)
  {
    forall a: nat :: n.Tiene(a) ==> Veces(hs, a) == 0
  }

  lemma {:induction false} AjenoLados(hs: seq<Rango>, n: Rango, i: nat)
    requires Canonico(hs) && n.limite > 0 && Ajeno(hs, n) && i < |hs|
    ensures hs[i].base <= n.base ==> hs[i].Fin() <= n.base
    ensures hs[i].base > n.base ==> n.Fin() <= hs[i].base
  {
    VecesCero(hs, n.base);
    VecesCero(hs, hs[i].base);
    assert n.Tiene(n.base);
    assert hs[i].Tiene(hs[i].base);
  }

  lemma {:induction false} UnirSiguienteCanonico(n: Rango, der: seq<Rango>)
    requires Canonico(der) && n.limite > 0
    requires der != [] ==> n.Fin() <= der[0].base
    ensures Canonico(UnirSiguiente(n, der))
  {
    if der != [] && n.Fin() == der[0].base {
      assert Canonico([]);
      CanonicoTres([], Rango(n.base, n.limite + der[0].limite), der[1..]);
    } else {
      CanonicoTres([], n, der);
    }
    assert UnirSiguiente(n, der) == [] + [UnirSiguiente(n, der)[0]] + UnirSiguiente(n, der)[1..];
  }

  lemma CanonicoFundido(izq: seq<Rango>, der: seq<Rango>)
    requires Canonico(izq) && Canonico(der) && izq != [] && der != []
    requires izq[|izq| - 1].Fin() == der[0].base
    ensures var k := |izq| - 1;
      Canonico(izq[..k] + [Rango(izq[k].base, izq[k].limite + der[0].limite)] + der[1..])
  {
    var k := |izq| - 1;
    CanonicoTres(izq[..k], Rango(izq[k].base, izq[k].limite + der[0].limite), der[1..]);
  }

  lemma CanonicoDos(izq: seq<Rango>, der: seq<Rango>)
    requires Canonico(izq) && Canonico(der) && der != []
    requires forall i :: 0 <= i < |izq| ==> izq[i].Fin() <= der[0].base
    requires izq != [] ==> izq[|izq| - 1].Fin() < der[0].base
    ensures Canonico(izq + der)
  {
    forall i | 0 <= i < |izq| ensures izq[i].Fin() < der[0].base {
      assert i < |izq| - 1 ==> izq[i].Fin() < izq[|izq| - 1].base;
    }
    CanonicoTres(izq, der[0], der[1..]);
    assert izq + der == izq + [der[0]] + der[1..];
  }

  lemma {:induction false} UnirAnteriorCanonico(izq: seq<Rango>, der: seq<Rango>)
    requires Canonico(izq) && Canonico(der) && der != []
    requires forall i :: 0 <= i < |izq| ==> izq[i].Fin() <= der[0].base
    ensures Canonico(UnirAnterior(izq, der))
  {
    hide Canonico;
    var k := |izq|;
    if k > 0 && izq[k - 1].Fin() == der[0].base {
      CanonicoFundido(izq, der);
    } else {
      CanonicoDos(izq, der);
    }
  }

  /** The merged list is canonical again, three-way merges included. */
  lemma {:induction false} InsertarCanonico(hs: seq<Rango>, n: Rango)
    requires Canonico(hs) && n.limite > 0 && Ajeno(hs, n)
    ensures Canonico(Insertar(hs, n))
  {
    PosicionSepara(hs, n.base);
    forall i | 0 <= i < |hs|
      ensures i < Posicion(hs, n.base) ==> hs[i].Fin() <= n.base
      ensures i >= Posicion(hs, n.base) ==> n.Fin() <= hs[i].base
    {
      AjenoLados(hs, n, i);
    }
    var p := Posicion(hs, n.base);
    UnirSiguienteCanonico(n, hs[p..]);
    UnirAnteriorCanonico(hs[..p], UnirSiguiente(n, hs[p..]));
  }

  lemma {:induction false} CanonicoTres(x: seq<Rango>, m: Rango, y: seq<Rango>)
    requires Canonico(x) && Canonico(y) && m.limite > 0
    requires forall i :: 0 <= i < |x| ==> x[i].Fin() < m.base
    requires forall j :: 0 <= j < |y| ==> m.Fin() < y[j].base
    ensures Canonico(x + [m] + y)
  {
    var z := x + [m] + y;
    forall i, j | 0 <= i < j < |z| ensures z[i].Fin() < z[j].base {
      if j < |x| {
        assert z[i] == x[i] && z[j] == x[j];
      } else if i > |x| {
        assert z[i] == y[i - |x| - 1] && z[j] == y[j - |x| - 1];
      }
    }
  }

  // ---------------------------------------------------------------- freeing many ranges

  /** One `insertar_hueco_y_fusionar` per range, first to last. */
  function LiberarTodos(hs: seq<Rango>, rs: seq<Rango>): seq<Rango>
    decreases |rs|
  {
    if rs == [] then hs else LiberarTodos(Insertar(hs, rs[0]), rs[1..])
  }

  ghost predicate Liberables(hs: seq<Rango>, rs: seq<Rango>)
  {
    && Canonico(hs)
    && (forall i :: 0 <= i < |rs| ==> rs[i].limite > 0)
    && (forall a: nat :: Veces(hs, a) + Veces(rs, a) <= 1)
  }

  lemma {:induction false} LiberarTodosVeces(hs: seq<Rango>, rs: seq<Rango>, a: nat)
    ensures Veces(LiberarTodos(hs, rs), a) == Veces(hs, a) + Veces(rs, a)
    ensures Suma(LiberarTodos(hs, rs)) == Suma(hs) + Suma(rs)
    decreases |rs|
  {
    if rs != [] {
      InsertarVeces(hs, rs[0], a);
      LiberarTodosVeces(Insertar(hs, rs[0]), rs[1..], a);
    }
  }

  lemma {:induction false} LiberarTodosCanonico(hs: seq<Rango>, rs: seq<Rango>)
    requires Liberables(hs, rs)
    ensures Canonico(LiberarTodos(hs, rs))
    decreases |rs|
  {
    if rs != [] {
      var n := rs[0];
      forall a: nat | n.Tiene(a) ensures Veces(hs, a) == 0 {
        assert Veces(hs, a) + Veces(rs, a) <= 1;
      }
      InsertarCanonico(hs, n);
      forall a: nat ensures Veces(Insertar(hs, n), a) + Veces(rs[1..], a) <= 1 {
        InsertarVeces(hs, n, a);
        assert Veces(hs, a) + Veces(rs, a) <= 1;
      }
      LiberarTodosCanonico(Insertar(hs, n), rs[1..]);
    }
  }

  /** Freeing the same ranges in any two orders leaves the identical list. */
  lemma {:induction false} LiberarEnCualquierOrden(hs: seq<Rango>, x: seq<Rango>, y: seq<Rango>)
    requires Liberables(hs, x) && multiset(x) == multiset(y)
    ensures LiberarTodos(hs, x) == LiberarTodos(hs, y)
  {
    forall i | 0 <= i < |y| ensures y[i].limite > 0 {
      assert y[i] in multiset(y);
      assert y[i] in multiset(x);
      assert y[i] in x;
    }
    forall a: nat
      ensures Veces(x, a) == Veces(y, a)
      ensures Veces(LiberarTodos(hs, x), a) == Veces(LiberarTodos(hs, y), a)
    {
      Permutadas(x, y, a);
      LiberarTodosVeces(hs, x, a);
      LiberarTodosVeces(hs, y, a);
    }
    forall a: nat ensures Veces(hs, a) + Veces(y, a) <= 1 {
      assert Veces(hs, a) + Veces(x, a) <= 1;
    }
    LiberarTodosCanonico(hs, x);
    LiberarTodosCanonico(hs, y);
    CanonicoUnico(LiberarTodos(hs, x), LiberarTodos(hs, y));
  }

  // ---------------------------------------------------------------- encontrar_hueco

  /** Whether hole `h` beats the candidate `c` kept so far, under the configured policy. */
  predicate Gana(mejor: bool, h: Rango, c: Rango)
  {
    if mejor then h.limite < c.limite else h.limite > c.limite
  }

  /** Candidate after the first `n` holes. */
  function ElegirEn(hs: seq<Rango>, n: nat, tam: nat, mejor: bool): (r: Opcion<nat>)
    requires n <= |hs|
    ensures r.Algo? ==> r.valor < n && hs[r.valor].limite >= tam
  {
    if n == 0 then Nada
    else
      var c := ElegirEn(hs, n - 1, tam, mejor);
      if hs[n - 1].limite >= tam && (c.Nada? || Gana(mejor, hs[n - 1], hs[c.valor]))
      then Algo(n - 1) else c
  }

  function Elegir(hs: seq<Rango>, tam: nat, mejor: bool): (r: Opcion<nat>)
    ensures r.Algo? ==> r.valor < |hs| && hs[r.valor].limite >= tam
  {
    ElegirEn(hs, |hs|, tam, mejor)
  }

  /** The fit policies: nothing is found exactly when nothing fits; otherwise no fitting hole
      beats the chosen one, and the chosen one is the first of its size. */
  ghost predicate EsElegido(hs: seq<Rango>, n: nat, tam: nat, mejor: bool, r: Opcion<nat>)
    requires n <= |hs|
  {
    match r
    case Nada => forall i :: 0 <= i < n ==> hs[i].limite < tam
    case Algo(k) =>
      && k < n && hs[k].limite >= tam
      && (forall i :: 0 <= i < n && hs[i].limite >= tam ==> !Gana(mejor, hs[i], hs[k]))
      && (forall i :: 0 <= i < k && hs[i].limite >= tam ==> hs[i].limite != hs[k].limite)
  }

  lemma {:induction false} ElegirCorrecto(hs: seq<Rango>, n: nat, tam: nat, mejor: bool)
    requires n <= |hs|
    ensures EsElegido(hs, n, tam, mejor, ElegirEn(hs, n, tam, mejor))
  {
    if n > 0 {
      ElegirCorrecto(hs, n - 1, tam, mejor);
    }
  }

  lemma {:induction false} ElegidoUnico(hs: seq<Rango>, tam: nat, mejor: bool, r: Opcion<nat>)
    requires EsElegido(hs, |hs|, tam, mejor, r)
    ensures r == Elegir(hs, tam, mejor)
  {
    ElegirCorrecto(hs, |hs|, tam, mejor);
    var q := Elegir(hs, tam, mejor);
    if r.Algo? && q.Algo? {
      assert hs[r.valor].limite == hs[q.valor].limite;
    }
  }

  /** `encontrar_hueco_best_fit` */
  method EncontrarHuecoBestFit(huecos: seq<Rango>, tam: nat) returns (r: Opcion<nat>)
    ensures r == Elegir(huecos, tam, true)
    ensures r.Nada? <==> forall i :: 0 <= i < |huecos| ==> huecos[i].limite < tam
    ensures r.Algo? ==> forall i :: 0 <= i < |huecos| && huecos[i].limite >= tam
                                    ==> huecos[r.valor].limite <= huecos[i].limite
  {
    r := Nada;
    for i := 0 to |huecos|
      invariant r == ElegirEn(huecos, i, tam, true)
    {
      var h := huecos[i];
      if h.limite >= tam && (r.Nada? || h.limite < huecos[r.valor].limite) {
        r := Algo(i);
      }
    }
    ElegirCorrecto(huecos, |huecos|, tam, true);
  }

  /** `encontrar_hueco_worst_fit` */
  method EncontrarHuecoWorstFit(huecos: seq<Rango>, tam: nat) returns (r: Opcion<nat>)
    ensures r == Elegir(huecos, tam, false)
    ensures r.Nada? <==> forall i :: 0 <= i < |huecos| ==> huecos[i].limite < tam
    ensures r.Algo? ==> forall i :: 0 <= i < |huecos| && huecos[i].limite >= tam
                                    ==> huecos[r.valor].limite >= huecos[i].limite
  {
    r := Nada;
    for i := 0 to |huecos|
      invariant r == ElegirEn(huecos, i, tam, false)
    {
      var h := huecos[i];
      if h.limite >= tam && (r.Nada? || h.limite > huecos[r.valor].limite) {
        r := Algo(i);
      }
    }
    ElegirCorrecto(huecos, |huecos|, tam, false);
  }

  /** `encontrar_hueco` */
  method EncontrarHueco(huecos: seq<Rango>, tam: nat, mejor: bool) returns (r: Opcion<nat>)
    ensures r == Elegir(huecos, tam, mejor)
  {
    if mejor {
      r := EncontrarHuecoBestFit(huecos, tam);
    } else {
      r := EncontrarHuecoWorstFit(huecos, tam);
    }
  }

  // ---------------------------------------------------------------- taking bytes from a hole

  /** The hole gives its first `tam` bytes and disappears when it is exhausted. */
  function Consumir(hs: seq<Rango>, i: nat, tam: nat): seq<Rango>
    requires i < |hs| && tam <= hs[i].limite
  {
    if hs[i].limite == tam then hs[..i] + hs[i + 1..]
    else hs[i := Rango(hs[i].base + tam, hs[i].limite - tam)]
  }

  lemma {:induction false} ConsumirVeces(hs: seq<Rango>, i: nat, tam: nat, a: nat)
    requires i < |hs| && tam <= hs[i].limite
    ensures Veces(Consumir(hs, i, tam), a) + Rango(hs[i].base, tam).Uno(a) == Veces(hs, a)
    ensures Suma(Consumir(hs, i, tam)) + tam == Suma(hs)
  {
    VecesPartida(hs, i, a);
    SumaPartida(hs, i);
    var r := Rango(hs[i].base + tam, hs[i].limite - tam);
    if hs[i].limite == tam {
      VecesConcat(hs[..i], hs[i + 1..], a);
      SumaConcat(hs[..i], hs[i + 1..]);
    } else {
      assert hs[i := r] == hs[..i] + [r] + hs[i + 1..];
      TresPartes(hs[..i], r, hs[i + 1..], a);
    }
  }

  lemma {:induction false} ConsumirCanonico(hs: seq<Rango>, i: nat, tam: nat)
    requires i < |hs| && tam <= hs[i].limite && Canonico(hs)
    ensures Canonico(Consumir(hs, i, tam))
  {
  }
}
