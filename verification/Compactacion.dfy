/** kernel_memory/src/compactacion.c: every resident segment slides left to the end of the
    previous one, its bytes are copied in place, and the free list becomes one final hole. */
module Compactacion {
  import opened Secuencias
  import opened Rangos
  import opened Mmu
  import opened Memoria
  import opened Asignador

  /** `t_seg_entry`: a segment named by its place in the tables, with what the table says. */
  datatype Entrada = Entrada(proc: nat, seg: nat, base: nat, limite: nat) {
    function Fin(): nat { base + limite }
    function Ref(): (nat, nat) { (proc, seg) }
  }

  // ---------------------------------------------------------------- listing the segments

  function EntradasDe(segs: seq<Segmento>, ip: nat): (es: seq<Entrada>)
    ensures |es| == |segs|
    ensures forall k :: 0 <= k < |es| ==> es[k] == Entrada(ip, k, segs[k].base, segs[k].limite)
  {
    seq(|segs|, k requires 0 <= k < |segs| => Entrada(ip, k, segs[k].base, segs[k].limite))
  }

  function Todas(procs: seq<Proceso>, i: nat): seq<Entrada>
    requires i <= |procs|
    decreases |procs| - i
  {
    if i == |procs| then []
    else DelProceso(procs, i) + Todas(procs, i + 1)
  }

  function DelProceso(procs: seq<Proceso>, i: nat): seq<Entrada>
    requires i < |procs|
  {
    if procs[i].enSwap then [] else EntradasDe(procs[i].segs, i)
  }

  function Lugares(es: seq<Entrada>): seq<Rango>
  {
    if es == [] then [] else [Rango(es[0].base, es[0].limite)] + Lugares(es[1..])
  }

  /** An entry says what the tables say. */
  ghost predicate Vigente(procs: seq<Proceso>, e: Entrada)
  {
    && e.proc < |procs| && !procs[e.proc].enSwap && e.seg < |procs[e.proc].segs|
    && procs[e.proc].segs[e.seg].base == e.base && procs[e.proc].segs[e.seg].limite == e.limite
  }

  ghost predicate Vigentes(procs: seq<Proceso>, es: seq<Entrada>)
  {
    forall n :: 0 <= n < |es| ==> Vigente(procs, es[n])
  }

  ghost predicate RefsDistintas(es: seq<Entrada>)
  {
    forall n, m :: 0 <= n < m < |es| ==> es[n].Ref() != es[m].Ref()
  }

  lemma {:induction false} LugaresConcat(x: seq<Entrada>, y: seq<Entrada>)
    ensures Lugares(x + y) == Lugares(x) + Lugares(y)
  {
    if x == [] {
      assert x + y == y;
    } else {
      assert (x + y)[1..] == x[1..] + y;
      LugaresConcat(x[1..], y);
    }
  }

  lemma {:induction false} LugaresDe(segs: seq<Segmento>, es: seq<Entrada>)
    requires |es| == |segs|
    requires forall k :: 0 <= k < |es| ==> es[k].base == segs[k].base && es[k].limite == segs[k].limite
    ensures Lugares(es) == Presentes(segs, {})
  {
    if es != [] {
      LugaresDe(segs[1..], es[1..]);
    }
  }

  lemma UnirEntradas(procs: seq<Proceso>, x: seq<Entrada>, y: seq<Entrada>, i: nat)
    requires Vigentes(procs, x) && EntradasOk(procs, y, i + 1)
    requires forall n :: 0 <= n < |x| ==> x[n].Ref() == (i, n)
    ensures EntradasOk(procs, x + y, i)
  {
    forall n | 0 <= n < |x + y| ensures (x + y)[n] == if n < |x| then x[n] else y[n - |x|] {}
  }

  lemma {:induction false} TodasLugares(procs: seq<Proceso>, i: nat)
    requires i <= |procs|
    ensures Lugares(Todas(procs, i)) == Residentes(procs[i..])
    decreases |procs| - i
  {
    if i < |procs| {
      TodasLugares(procs, i + 1);
      assert procs[i..][1..] == procs[i + 1..];
      LugaresConcat(DelProceso(procs, i), Todas(procs, i + 1));
      DelProcesoOk(procs, i);
    }
  }

  lemma DelProcesoOk(procs: seq<Proceso>, i: nat)
    requires i < |procs|
    ensures Vigentes(procs, DelProceso(procs, i))
    ensures forall n :: 0 <= n < |DelProceso(procs, i)| ==> DelProceso(procs, i)[n].Ref() == (i, n)
    ensures Lugares(DelProceso(procs, i)) == De(procs[i])
  {
    if !procs[i].enSwap {
      LugaresDe(procs[i].segs, EntradasDe(procs[i].segs, i));
    }
  }

  /** The list names each resident segment once and nothing else. */
  lemma {:induction false} TodasOk(procs: seq<Proceso>, i: nat)
    requires i <= |procs|
    ensures EntradasOk(procs, Todas(procs, i), i)
    decreases |procs| - i
  {
    if i < |procs| {
      TodasOk(procs, i + 1);
      DelProcesoOk(procs, i);
      UnirEntradas(procs, DelProceso(procs, i), Todas(procs, i + 1), i);
    }
  }

  ghost predicate EntradasOk(procs: seq<Proceso>, es: seq<Entrada>, i: nat)
  {
    Vigentes(procs, es) && RefsDistintas(es) && forall n :: 0 <= n < |es| ==> es[n].proc >= i
  }

  lemma {:induction false} TodasCompleta(procs: seq<Proceso>, i: nat, ip: nat, k: nat) returns (n: nat)
    requires i <= ip < |procs| && !procs[ip].enSwap && k < |procs[ip].segs|
    ensures n < |Todas(procs, i)| && Todas(procs, i)[n].Ref() == (ip, k)
    decreases ip - i
  {
    var x, y := DelProceso(procs, i), Todas(procs, i + 1);
    if i == ip {
      n := k;
      assert (x + y)[n] == x[k];
    } else {
      var m := TodasCompleta(procs, i + 1, ip, k);
      n := |x| + m;
      assert (x + y)[n] == y[m];
    }
  }

  // ---------------------------------------------------------------- list_sort by base

  function Intercalar(e: Entrada, es: seq<Entrada>): seq<Entrada>
  {
    if es == [] || e.base < es[0].base then [e] + es else [es[0]] + Intercalar(e, es[1..])
  }

  function Ordenar(es: seq<Entrada>): seq<Entrada>
  {
    if es == [] then [] else Intercalar(es[0], Ordenar(es[1..]))
  }

  ghost predicate Ordenadas(es: seq<Entrada>)
  {
    forall n, m :: 0 <= n < m < |es| ==> es[n].base <= es[m].base
  }

  lemma {:induction false} IntercalarMismas(e: Entrada, es: seq<Entrada>)
    ensures multiset(Intercalar(e, es)) == multiset{e} + multiset(es)
  {
    if es == [] || e.base < es[0].base {
    } else {
      IntercalarMismas(e, es[1..]);
      assert es == [es[0]] + es[1..];
    }
  }

  lemma {:induction false} IntercalarOrdenadas(e: Entrada, es: seq<Entrada>)
    requires Ordenadas(es)
    ensures Ordenadas(Intercalar(e, es))
  {
    if es != [] && e.base >= es[0].base {
      IntercalarOrdenadas(e, es[1..]);
      var r := Intercalar(e, es[1..]);
      forall n | 0 <= n < |r| ensures es[0].base <= r[n].base {
        IntercalarMismas(e, es[1..]);
        assert r[n] in multiset(r);
        assert r[n] == e || r[n] in es[1..];
      }
    }
  }

  lemma {:induction false} OrdenarOk(es: seq<Entrada>)
    ensures Ordenadas(Ordenar(es))
    ensures multiset(Ordenar(es)) == multiset(es)
  {
    if es != [] {
      OrdenarOk(es[1..]);
      IntercalarMismas(es[0], Ordenar(es[1..]));
      IntercalarOrdenadas(es[0], Ordenar(es[1..]));
      assert es == [es[0]] + es[1..];
    }
  }

  /** What a permutation of the entries keeps. */
  lemma {:induction false} PermutadasEntradas(x: seq<Entrada>, y: seq<Entrada>, a: nat)
    requires multiset(x) == multiset(y) && RefsDistintas(x)
    ensures |x| == |y| && Veces(Lugares(x), a) == Veces(Lugares(y), a) && Suma(Lugares(x)) == Suma(Lugares(y))
    ensures forall n :: 0 <= n < |y| ==> y[n] in x
    ensures RefsDistintas(y)
    decreases |x|
  {
    MismoLargo(x, y);
    if x != [] {
      var k := Permutada(x, y);
      var z := y[..k] + y[k + 1..];
      PermutadasEntradas(x[1..], z, a);
      LugaresPartida(y, k, a);
      forall n | 0 <= n < |y| ensures y[n] in x && (n != k ==> y[n].Ref() != x[0].Ref()) {
        if n != k {
          assert y[n] == z[if n < k then n else n - 1];
          assert y[n] in x[1..];
        }
      }
      forall n, m | 0 <= n < m < |y| ensures y[n].Ref() != y[m].Ref() {
        if n != k && m != k {
          assert y[n] == z[if n < k then n else n - 1] && y[m] == z[if m < k then m else m - 1];
        }
      }
    }
  }

  lemma {:induction false} LugaresPartida(es: seq<Entrada>, k: nat, a: nat)
    requires k < |es|
    ensures Veces(Lugares(es), a)
         == Rango(es[k].base, es[k].limite).Uno(a) + Veces(Lugares(es[..k] + es[k + 1..]), a)
    ensures Suma(Lugares(es)) == es[k].limite + Suma(Lugares(es[..k] + es[k + 1..]))
  {
    var r := Rango(es[k].base, es[k].limite);
    assert es == es[..k] + ([es[k]] + es[k + 1..]);
    LugaresConcat(es[..k], [es[k]] + es[k + 1..]);
    LugaresConcat([es[k]], es[k + 1..]);
    LugaresConcat(es[..k], es[k + 1..]);
    assert Lugares([es[k]]) == [r];
    var x, y := Lugares(es[..k]), Lugares(es[k + 1..]);
    assert Lugares(es) == x + [r] + y;
    TresPartes(x, r, y, a);
    VecesConcat(x, y, a);
    SumaConcat(x, y);
  }

  // ---------------------------------------------------------------- sliding left

  function Largo(es: seq<Entrada>): nat
  {
    if es == [] then 0 else es[0].limite + Largo(es[1..])
  }

  /** Sum of the sizes of the first `k` entries: the new base of entry `k`. */
  function Previo(es: seq<Entrada>, k: nat): nat
    requires k <= |es|
  {
    if k == 0 then 0 else es[0].limite + Previo(es[1..], k - 1)
  }

  /** In address order from `c` on, without overlap, inside memory. */
  ghost predicate Enfila(es: seq<Entrada>, c: nat, total: nat)
  {
    if es == [] then c <= total
    else c <= es[0].base && es[0].limite > 0 && Enfila(es[1..], es[0].Fin(), total)
  }

  lemma {:induction false} EnfilaAntes(es: seq<Entrada>, c: nat, d: nat, total: nat)
    requires Enfila(es, c, total) && d <= c
    ensures Enfila(es, d, total)
  {
  }

  lemma {:induction false} EnfilaFin(es: seq<Entrada>, c: nat, total: nat)
    requires Enfila(es, c, total)
    ensures c + Largo(es) <= total
  {
    if es != [] {
      EnfilaFin(es[1..], es[0].Fin(), total);
    }
  }

  lemma {:induction false} EnfilaEn(es: seq<Entrada>, c: nat, total: nat, k: nat)
    requires Enfila(es, c, total) && k < |es|
    ensures c + Previo(es, k) <= es[k].base && es[k].limite > 0 && es[k].Fin() <= total
    ensures c + Previo(es, k) + es[k].limite <= total
    ensures forall j :: 0 <= j < k ==> es[j].Fin() <= es[k].base
  {
    if k > 0 {
      EnfilaEn(es[1..], es[0].Fin(), total, k - 1);
      assert es[k] == es[1..][k - 1];
      assert forall j :: 0 < j < k ==> es[j] == es[1..][j - 1];
    } else {
      EnfilaFin(es[1..], es[0].Fin(), total);
    }
  }

  /** Sorted entries that meet nowhere are in line. */
  lemma {:induction false} EnfilaDe(es: seq<Entrada>, c: nat, total: nat)
    requires Ordenadas(es) && (forall n :: 0 <= n < |es| ==> es[n].limite > 0) && c <= total
    requires forall a: nat :: Veces(Lugares(es), a) <= if c <= a < total then 1 else 0
    ensures Enfila(es, c, total)
  {
    if es != [] {
      var r := Rango(es[0].base, es[0].limite);
      assert r.Tiene(r.base) && r.Tiene(r.Fin() - 1);
      assert Veces(Lugares(es), r.base) >= 1;
      assert Veces(Lugares(es), r.Fin() - 1) >= 1;
      forall a: nat ensures Veces(Lugares(es[1..]), a) <= if es[0].Fin() <= a < total then 1 else 0 {
        assert Veces(Lugares(es), a) <= if c <= a < total then 1 else 0;
        if a < es[0].base {
          LugaresMayores(es[1..], a);
        }
      }
      EnfilaDe(es[1..], es[0].Fin(), total);
    }
  }

  lemma {:induction false} LugaresMayores(es: seq<Entrada>, a: nat)
    requires forall n :: 0 <= n < |es| ==> a < es[n].base
    ensures Veces(Lugares(es), a) == 0
  {
    if es != [] {
      LugaresMayores(es[1..], a);
    }
  }

  function PonerBase(procs: seq<Proceso>, e: Entrada, c: nat): seq<Proceso>
  {
    if e.proc < |procs| && e.seg < |procs[e.proc].segs| then
      var p := procs[e.proc];
      procs[e.proc := p.(segs := p.segs[e.seg := p.segs[e.seg].(base := c)])]
    else procs
  }

  /** `e->seg->base = cursor; cursor += tamanio`, first entry to last. */
  function Rebasar(procs: seq<Proceso>, es: seq<Entrada>, c: nat): seq<Proceso>
    decreases |es|
  {
    if es == [] then procs else Rebasar(PonerBase(procs, es[0], c), es[1..], c + es[0].limite)
  }

  /** Copy of a whole segment: it is read before anything is written. */
  function Copiar(mem: seq<byte>, desde: nat, hasta: nat, largo: nat): (r: seq<byte>)
    requires desde + largo <= |mem| && hasta + largo <= |mem|
    ensures |r| == |mem|
  {
    if desde == hasta then mem else Pisar(mem, hasta, mem[desde..desde + largo])
  }

  ghost function Mover(mem: seq<byte>, es: seq<Entrada>, c: nat): (r: seq<byte>)
    requires Enfila(es, c, |mem|)
    ensures |r| == |mem|
    decreases |es|
  {
    if es == [] then mem
    else
      EnfilaEn(es, c, |mem|, 0);
      EnfilaAntes(es[1..], es[0].Fin(), c + es[0].limite, |mem|);
      Mover(Copiar(mem, es[0].base, c, es[0].limite), es[1..], c + es[0].limite)
  }

  // ---------------------------------------------------------------- the bytes survive

  lemma CopiarTajada(mem: seq<byte>, b: nat, c: nat, l: nat, x: nat, y: nat)
    requires c <= b && b + l <= |mem| && x <= y <= |mem|
    ensures c + l <= |mem|
    ensures Copiar(mem, b, c, l)[c..c + l] == mem[b..b + l]
    ensures y <= c || c + l <= x ==> Copiar(mem, b, c, l)[x..y] == mem[x..y]
  {
  }

  /** One move: the memory `m` it leaves holds the first segment at the cursor, and every later
      segment, and everything below the cursor, where they were. */
  lemma {:induction false} MoverPaso(mem: seq<byte>, es: seq<Entrada>, c: nat, k: nat) returns (m: seq<byte>)
    requires Enfila(es, c, |mem|) && k < |es|
    ensures |m| == |mem| && c + es[0].limite <= |mem| && Enfila(es[1..], c + es[0].limite, |m|)
    ensures Mover(mem, es, c) == Mover(m, es[1..], c + es[0].limite)
    ensures IgualHasta(mem, m, c) && Copiado(mem, es[0].base, m, c, es[0].limite)
    ensures k > 0 ==> Copiado(mem, es[k].base, m, es[k].base, es[k].limite)
  {
    hide Copiado, IgualHasta, Copiar;
    EnfilaEn(es, c, |mem|, 0);
    EnfilaEn(es, c, |mem|, k);
    EnfilaAntes(es[1..], es[0].Fin(), c + es[0].limite, |mem|);
    m := Copiar(mem, es[0].base, c, es[0].limite);
    CopiarDeja(mem, es[0].base, c, es[0].limite, m);
    if k > 0 {
      CopiarAparte(mem, es[0].base, c, es[0].limite, m, es[k].base, es[k].limite);
    }
  }

  lemma CopiarDeja(mem: seq<byte>, b: nat, c: nat, l: nat, m: seq<byte>)
    requires c <= b && b + l <= |mem| && m == Copiar(mem, b, c, l)
    ensures IgualHasta(mem, m, c) && Copiado(mem, b, m, c, l)
  {
    CopiarTajada(mem, b, c, l, 0, c);
  }

  lemma CopiarAparte(mem: seq<byte>, b: nat, c: nat, l: nat, m: seq<byte>, x: nat, n: nat)
    requires c <= b && b + l <= |mem| && m == Copiar(mem, b, c, l) && c + l <= x && x + n <= |mem|
    ensures Copiado(mem, x, m, x, n)
  {
    CopiarTajada(mem, b, c, l, x, x + n);
  }

  /** Nothing below the cursor is written again. */
  lemma {:induction false} MoverPrefijo(mem: seq<byte>, es: seq<Entrada>, c: nat, r: seq<byte>)
    requires Enfila(es, c, |mem|) && r == Mover(mem, es, c)
    ensures IgualHasta(mem, r, c)
    decreases |es|
  {
    hide Mover, Enfila, IgualHasta, Copiado;
    if es == [] {
      MoverNada(mem, es, c, r);
    } else {
      var m := MoverPaso(mem, es, c, 0);
      MoverPrefijo(m, es[1..], c + es[0].limite, r);
      PrefijoMenor(mem, m, r, c, es[0].limite);
    }
  }

  lemma MoverNada(mem: seq<byte>, es: seq<Entrada>, c: nat, r: seq<byte>)
    requires Enfila(es, c, |mem|) && r == Mover(mem, es, c) && es == []
    ensures IgualHasta(mem, r, c)
  {
  }

  ghost predicate IgualHasta(x: seq<byte>, y: seq<byte>, n: nat)
  {
    n <= |x| == |y| && x[..n] == y[..n]
  }

  lemma PrefijoMenor(mem: seq<byte>, m: seq<byte>, r: seq<byte>, c: nat, l: nat)
    requires IgualHasta(m, r, c + l) && IgualHasta(mem, m, c)
    ensures IgualHasta(mem, r, c)
  {
    assert r[..c] == r[..c + l][..c];
    assert m[..c] == m[..c + l][..c];
  }

  /** `r` holds at `n` the `l` bytes that `mem` holds at `b`. */
  ghost predicate Copiado(mem: seq<byte>, b: nat, r: seq<byte>, n: nat, l: nat)
  {
    b + l <= |mem| && n + l <= |r| && r[n..n + l] == mem[b..b + l]
  }

  lemma CopiadoEntre(mem: seq<byte>, m: seq<byte>, b: nat, r: seq<byte>, n: nat, l: nat)
    requires Copiado(m, b, r, n, l) && Copiado(mem, b, m, b, l)
    ensures Copiado(mem, b, r, n, l)
  {
  }

  lemma CopiadoPrefijo(mem: seq<byte>, b: nat, m: seq<byte>, r: seq<byte>, c: nat, l: nat)
    requires Copiado(mem, b, m, c, l) && IgualHasta(m, r, c + l)
    ensures Copiado(mem, b, r, c, l)
  {
    assert r[c..c + l] == r[..c + l][c..];
    assert m[c..c + l] == m[..c + l][c..];
  }

  /** Each segment ends up, whole, at its new base: copying at a cursor that is never past the
      segment's base reaches no segment that has not moved yet. */
  lemma {:induction false} MoverConserva(mem: seq<byte>, es: seq<Entrada>, c: nat, k: nat, r: seq<byte>,
                                         b: nat, n: nat, l: nat)
    requires Enfila(es, c, |mem|) && k < |es| && r == Mover(mem, es, c)
    requires b == es[k].base && n == c + Previo(es, k) && l == es[k].limite
    ensures Copiado(mem, b, r, n, l)
    decreases |es|, 1
  {
    hide Mover, Enfila, Copiado, IgualHasta;
    if k == 0 {
      assert n == c;
      MoverPrimero(mem, es, c, r);
    } else {
      var m := MoverPaso(mem, es, c, k);
      MoverConservaResto(mem, m, es, c, k, r, b, n, l);
    }
  }

  lemma {:induction false} MoverPrimero(mem: seq<byte>, es: seq<Entrada>, c: nat, r: seq<byte>)
    requires Enfila(es, c, |mem|) && es != [] && r == Mover(mem, es, c)
    ensures Copiado(mem, es[0].base, r, c, es[0].limite)
  {
    hide Mover, Enfila, IgualHasta, Copiado;
    var m := MoverPaso(mem, es, c, 0);
    MoverPrefijo(m, es[1..], c + es[0].limite, r);
    CopiadoPrefijo(mem, es[0].base, m, r, c, es[0].limite);
  }

  lemma {:induction false} MoverConservaResto(mem: seq<byte>, m: seq<byte>, es: seq<Entrada>, c: nat, k: nat, r: seq<byte>,
                                              b: nat, n: nat, l: nat)
    requires 0 < k < |es| && Enfila(es[1..], c + es[0].limite, |m|) && r == Mover(m, es[1..], c + es[0].limite)
    requires b == es[k].base && n == c + Previo(es, k) && l == es[k].limite
    requires Copiado(mem, b, m, b, l)
    ensures Copiado(mem, b, r, n, l)
    decreases |es|, 0
  {
    hide Copiado, Enfila, Mover;
    var resto := es[1..];
    assert resto[k - 1] == es[k];
    MoverConserva(m, resto, c + es[0].limite, k - 1, r, b, n, l);
    CopiadoEntre(mem, m, b, r, n, l);
  }

  // ---------------------------------------------------------------- the tables

  /** Same processes, same segments and sizes; only bases of resident segments differ. */
  ghost predicate MismaForma(x: seq<Proceso>, y: seq<Proceso>)
  {
    && |x| == |y|
    && forall i :: 0 <= i < |x| ==> MismoProceso(x[i], y[i])
  }

  ghost predicate MismoProceso(p: Proceso, q: Proceso)
  {
    && p.pid == q.pid && p.enSwap == q.enSwap && |p.segs| == |q.segs|
    && (forall k :: 0 <= k < |p.segs| ==> p.segs[k].id == q.segs[k].id && p.segs[k].limite == q.segs[k].limite)
    && (p.enSwap ==> p == q)
  }

  lemma {:induction false} RebasarForma(procs: seq<Proceso>, es: seq<Entrada>, c: nat)
    requires Vigentes(procs, es) && RefsDistintas(es)
    ensures MismaForma(procs, Rebasar(procs, es, c))
    decreases |es|
  {
    if es != [] {
      var q := PonerBase(procs, es[0], c);
      assert Vigente(procs, es[0]);
      RebasarVigentes(procs, es, c);
      RebasarForma(q, es[1..], c + es[0].limite);
      FormaTransitiva(procs, q, Rebasar(procs, es, c));
    }
  }

  lemma FormaTransitiva(x: seq<Proceso>, y: seq<Proceso>, z: seq<Proceso>)
    requires MismaForma(x, y) && MismaForma(y, z)
    ensures MismaForma(x, z)
  {
    forall i | 0 <= i < |x| ensures MismoProceso(x[i], z[i]) {
      assert MismoProceso(x[i], y[i]) && MismoProceso(y[i], z[i]);
    }
  }

  lemma RebasarVigentes(procs: seq<Proceso>, es: seq<Entrada>, c: nat)
    requires es != [] && Vigentes(procs, es) && RefsDistintas(es)
    ensures Vigentes(PonerBase(procs, es[0], c), es[1..]) && RefsDistintas(es[1..])
  {
    assert Vigente(procs, es[0]);
    forall n | 0 <= n < |es[1..]| ensures Vigente(PonerBase(procs, es[0], c), es[1..][n]) {
      assert es[1..][n] == es[n + 1];
      assert Vigente(procs, es[n + 1]);
      assert es[n + 1].Ref() != es[0].Ref();
    }
  }

  /** A slot that no remaining entry names keeps its segment. */
  lemma {:induction false} RebasarOtro(procs: seq<Proceso>, es: seq<Entrada>, c: nat, i: nat, k: nat)
    requires Vigentes(procs, es) && RefsDistintas(es)
    requires i < |procs| && k < |procs[i].segs|
    requires forall n :: 0 <= n < |es| ==> es[n].Ref() != (i, k)
    ensures MismaForma(procs, Rebasar(procs, es, c))
    ensures Rebasar(procs, es, c)[i].segs[k] == procs[i].segs[k]
    decreases |es|
  {
    RebasarForma(procs, es, c);
    if es != [] {
      var q := PonerBase(procs, es[0], c);
      assert Vigente(procs, es[0]);
      RebasarVigentes(procs, es, c);
      assert es[0].Ref() != (i, k);
      assert q[i].segs[k] == procs[i].segs[k];
      RebasarOtro(q, es[1..], c + es[0].limite, i, k);
    }
  }

  /** The new bases are the running sums of the sizes, in address order. */
  lemma {:induction false} RebasarBase(procs: seq<Proceso>, es: seq<Entrada>, c: nat, n: nat)
    requires Vigentes(procs, es) && RefsDistintas(es) && n < |es|
    ensures MismaForma(procs, Rebasar(procs, es, c))
    ensures Vigente(procs, es[n])
    ensures Rebasar(procs, es, c)[es[n].proc].segs[es[n].seg]
         == procs[es[n].proc].segs[es[n].seg].(base := c + Previo(es, n))
    decreases |es|
  {
    RebasarForma(procs, es, c);
    assert Vigente(procs, es[0]) && Vigente(procs, es[n]);
    RebasarVigentes(procs, es, c);
    var q := PonerBase(procs, es[0], c);
    if n == 0 {
      RebasarOtro(q, es[1..], c + es[0].limite, es[0].proc, es[0].seg);
    } else {
      RebasarBase(q, es[1..], c + es[0].limite, n - 1);
      assert es[1..][n - 1] == es[n];
      assert es[n].Ref() != es[0].Ref();
      assert q[es[n].proc].segs[es[n].seg] == procs[es[n].proc].segs[es[n].seg];
    }
  }

  // ---------------------------------------------------------------- the addresses

  lemma {:induction false} CambiaSegmento(segs: seq<Segmento>, k: nat, s: Segmento, fuera: set<nat>, a: nat)
    requires k < |segs| && segs[k].id !in fuera && s.id == segs[k].id
    ensures Veces(Presentes(segs[k := s], fuera), a) + Sitio(segs[k]).Uno(a)
         == Veces(Presentes(segs, fuera), a) + Sitio(s).Uno(a)
    ensures Suma(Presentes(segs[k := s], fuera)) + segs[k].limite == Suma(Presentes(segs, fuera)) + s.limite
  {
    var t := segs[k := s];
    PresentesPartida(segs, k, fuera, a);
    PresentesPartida(t, k, fuera, a);
    assert t[..k] == segs[..k] && t[k + 1..] == segs[k + 1..];
  }

  /** Ranges the entries take once they are lined up from `c`. */
  function Corridos(es: seq<Entrada>, c: nat): seq<Rango>
  {
    if es == [] then [] else [Rango(c, es[0].limite)] + Corridos(es[1..], c + es[0].limite)
  }

  lemma {:induction false} CorridosVeces(es: seq<Entrada>, c: nat, a: nat)
    ensures Veces(Corridos(es, c), a) == if c <= a < c + Largo(es) then 1 else 0
    ensures Suma(Corridos(es, c)) == Largo(es) == Suma(Lugares(es))
  {
    if es != [] {
      CorridosVeces(es[1..], c + es[0].limite, a);
    }
  }

  lemma {:induction false} PonerBaseVeces(procs: seq<Proceso>, e: Entrada, c: nat, a: nat)
    requires Vigente(procs, e)
    ensures Veces(Residentes(PonerBase(procs, e, c)), a) + Rango(e.base, e.limite).Uno(a)
         == Veces(Residentes(procs), a) + Rango(c, e.limite).Uno(a)
    ensures Suma(Residentes(PonerBase(procs, e, c))) == Suma(Residentes(procs))
  {
    var p := procs[e.proc];
    CambiaProceso(procs, e.proc, PonerBase(procs, e, c)[e.proc], a);
    CambiaSegmento(p.segs, e.seg, p.segs[e.seg].(base := c), {}, a);
  }

  lemma LugaresCabeza(es: seq<Entrada>, c: nat, a: nat)
    requires es != []
    ensures Veces(Lugares(es), a) == Rango(es[0].base, es[0].limite).Uno(a) + Veces(Lugares(es[1..]), a)
    ensures Veces(Corridos(es, c), a) == Rango(c, es[0].limite).Uno(a) + Veces(Corridos(es[1..], c + es[0].limite), a)
  {
  }

  /** Moving the entries trades, address by address, the old places for the new ones. */
  lemma {:induction false} RebasarVeces(procs: seq<Proceso>, es: seq<Entrada>, c: nat, a: nat)
    requires Vigentes(procs, es) && RefsDistintas(es)
    ensures Veces(Residentes(Rebasar(procs, es, c)), a) + Veces(Lugares(es), a)
         == Veces(Residentes(procs), a) + Veces(Corridos(es, c), a)
    ensures Suma(Residentes(Rebasar(procs, es, c))) == Suma(Residentes(procs))
    decreases |es|, 1
  {
    if es != [] {
      assert Vigente(procs, es[0]);
      PonerBaseVeces(procs, es[0], c, a);
      RebasarVigentes(procs, es, c);
      RebasarVecesDesde(procs, PonerBase(procs, es[0], c), es, c, a);
    }
  }

  lemma {:induction false} RebasarVecesDesde(procs: seq<Proceso>, q: seq<Proceso>, es: seq<Entrada>, c: nat, a: nat)
    requires es != [] && Vigentes(q, es[1..]) && RefsDistintas(es[1..])
    requires Veces(Residentes(q), a) + Rango(es[0].base, es[0].limite).Uno(a)
          == Veces(Residentes(procs), a) + Rango(c, es[0].limite).Uno(a)
    requires Suma(Residentes(q)) == Suma(Residentes(procs))
    ensures var r := Rebasar(q, es[1..], c + es[0].limite);
      && Veces(Residentes(r), a) + Veces(Lugares(es), a) == Veces(Residentes(procs), a) + Veces(Corridos(es, c), a)
      && Suma(Residentes(r)) == Suma(Residentes(procs))
    decreases |es|, 0
  {
    RebasarVeces(q, es[1..], c + es[0].limite, a);
    LugaresCabeza(es, c, a);
  }

  // ---------------------------------------------------------------- compactar

  ghost function EnOrden(e: Estado): seq<Entrada>
  {
    Ordenar(Todas(e.procs, 0))
  }

  lemma {:induction false} EnOrdenOk(e: Estado)
    requires Inv(e)
    ensures var es := EnOrden(e);
      && Vigentes(e.procs, es) && RefsDistintas(es) && Ordenadas(es)
      && Enfila(es, 0, |e.mem|)
      && Largo(es) == Suma(Residentes(e.procs))
      && (forall a: nat :: Veces(Lugares(es), a) == Veces(Residentes(e.procs), a))
  {
    var ts, es := Todas(e.procs, 0), EnOrden(e);
    TodasOk(e.procs, 0);
    TodasLugares(e.procs, 0);
    assert e.procs[0..] == e.procs;
    OrdenarOk(ts);
    PermutadasEntradas(ts, es, 0);
    CorridosVeces(es, 0, 0);
    forall n | 0 <= n < |es| ensures Vigente(e.procs, es[n]) && es[n].limite > 0 {
      assert es[n] in ts;
      assert Vigente(e.procs, es[n]);
      assert SegmentosOk(e.cfg, e.procs[es[n].proc].segs);
    }
    forall a: nat
      ensures Veces(Lugares(es), a) == Veces(Residentes(e.procs), a)
      ensures Veces(Lugares(es), a) <= if 0 <= a < |e.mem| then 1 else 0
    {
      PermutadasEntradas(ts, es, a);
      assert Veces(Residentes(e.procs), a) + Veces(e.huecos, a) == if a < |e.mem| then 1 else 0;
    }
    EnfilaDe(es, 0, |e.mem|);
  }

  /** Every resident segment has its entry. */
  lemma {:induction false} EnOrdenCompleto(e: Estado, i: nat, k: nat) returns (n: nat)
    requires Inv(e) && i < |e.procs| && !e.procs[i].enSwap && k < |e.procs[i].segs|
    ensures n < |EnOrden(e)| && EnOrden(e)[n].Ref() == (i, k)
  {
    var ts := Todas(e.procs, 0);
    var m := TodasCompleta(e.procs, 0, i, k);
    OrdenarOk(ts);
    assert ts[m] in multiset(ts);
    assert ts[m] in multiset(EnOrden(e));
    n :| 0 <= n < |EnOrden(e)| && EnOrden(e)[n] == ts[m];
  }

  function HuecoFinal(fin: nat, total: nat): seq<Rango>
  {
    if fin < total then [Rango(fin, total - fin)] else []
  }

  ghost function Compactar(e: Estado): Estado
    requires Inv(e)
  {
    EnOrdenOk(e);
    var es := EnOrden(e);
    e.(procs := Rebasar(e.procs, es, 0),
       mem := Mover(e.mem, es, 0),
       huecos := HuecoFinal(Largo(es), |e.mem|))
  }

  lemma EmbaldosaCorrida(rs: seq<Rango>, fin: nat, libre: int, total: nat)
    requires Suma(rs) == fin <= total && libre == total - fin
    requires forall a: nat :: Veces(rs, a) == if a < fin then 1 else 0
    ensures Embaldosa(rs, HuecoFinal(fin, total), libre, total)
  {
  }

  lemma {:induction false} CompactarVeces(e: Estado, a: nat)
    requires Inv(e)
    ensures Veces(Residentes(Compactar(e).procs), a) == if a < Largo(EnOrden(e)) then 1 else 0
    ensures Suma(Residentes(Compactar(e).procs)) == Largo(EnOrden(e)) == Suma(Residentes(e.procs))
  {
    EnOrdenOk(e);
    var es := EnOrden(e);
    RebasarVeces(e.procs, es, 0, a);
    CorridosVeces(es, 0, a);
    assert Veces(Lugares(es), a) == Veces(Residentes(e.procs), a);
  }

  lemma {:induction false} CompactarEmbaldosa(e: Estado)
    requires Inv(e)
    ensures var f := Compactar(e);
            Embaldosa(Residentes(f.procs), f.huecos, f.libre, |f.mem|)
  {
    var fin := Largo(EnOrden(e));
    CompactarVeces(e, 0);
    forall a: nat ensures Veces(Residentes(Compactar(e).procs), a) == if a < fin then 1 else 0 {
      CompactarVeces(e, a);
    }
    EmbaldosaCorrida(Residentes(Compactar(e).procs), fin, e.libre, |e.mem|);
  }

  lemma FormaBuscar(x: seq<Proceso>, y: seq<Proceso>, pid: nat)
    requires MismaForma(x, y) && PidsDistintos(x)
    ensures PidsDistintos(y) && BuscarProceso(y, pid) == BuscarProceso(x, pid)
  {
    forall i, j | 0 <= i < j < |y| ensures y[i].pid != y[j].pid {
      assert MismoProceso(x[i], y[i]) && MismoProceso(x[j], y[j]);
    }
    var a, b := BuscarProceso(x, pid), BuscarProceso(y, pid);
    if a.Algo? { assert MismoProceso(x[a.valor], y[a.valor]); }
    if b.Algo? { assert MismoProceso(x[b.valor], y[b.valor]); }
  }

  lemma FormaBuscarSegmento(p: Proceso, q: Proceso, id: nat)
    requires MismoProceso(p, q) && IdsDistintos(p.segs)
    ensures IdsDistintos(q.segs) && BuscarSegmento(q.segs, id) == BuscarSegmento(p.segs, id)
  {
    var a, b := BuscarSegmento(p.segs, id), BuscarSegmento(q.segs, id);
    if a.Algo? { assert q.segs[a.valor].id == id; }
    if b.Algo? { assert p.segs[b.valor].id == id; }
  }

  lemma FormaProcsOk(cfg: Config, x: seq<Proceso>, y: seq<Proceso>)
    requires MismaForma(x, y) && ProcsOk(cfg, x)
    ensures ProcsOk(cfg, y)
  {
    FormaBuscar(x, y, 0);
    forall i | 0 <= i < |y| ensures SegmentosOk(cfg, y[i].segs) {
      assert MismoProceso(x[i], y[i]) && SegmentosOk(cfg, x[i].segs);
    }
  }

  lemma FormaSwapOk(e: Estado, f: Estado)
    requires PidsDistintos(e.procs) && SwapOk(e) && MismaForma(e.procs, f.procs)
    requires f.cfg == e.cfg && f.tabla == e.tabla && f.swap == e.swap
    ensures SwapOk(f)
  {
    forall j | 0 <= j < |f.tabla| ensures BloqueCon(f, j) {
      assert BloqueCon(e, j);
      FormaBuscar(e.procs, f.procs, f.tabla[j].pid);
      var r := BuscarProceso(e.procs, f.tabla[j].pid);
      if r.Algo? { assert MismoProceso(e.procs[r.valor], f.procs[r.valor]); }
    }
    forall i, k | 0 <= i < |f.procs| && f.procs[i].enSwap && 0 <= k < |f.procs[i].segs|
      ensures HayBloque(f.tabla, f.procs[i].pid, f.procs[i].segs[k].id)
    {
      assert MismoProceso(e.procs[i], f.procs[i]);
    }
  }

  /** Segment `k` of process `i` has the same bytes in both states. */
  ghost predicate MismosBytes(e: Estado, f: Estado, i: nat, k: nat)
    requires MismaForma(e.procs, f.procs) && i < |e.procs| && k < |e.procs[i].segs|
  {
    assert MismoProceso(e.procs[i], f.procs[i]);
    Copiado(e.mem, e.procs[i].segs[k].base, f.mem, f.procs[i].segs[k].base, e.procs[i].segs[k].limite)
  }

  lemma {:induction false} CompactarSegmento(e: Estado, i: nat, k: nat)
    requires Inv(e) && i < |e.procs| && !e.procs[i].enSwap && k < |e.procs[i].segs|
    ensures MismaForma(e.procs, Compactar(e).procs) && MismosBytes(e, Compactar(e), i, k)
  {
    var f := Compactar(e);
    CompactarForma(e);
    CompactarCopia(e, f, i, k);
    hide Inv, Compactar, Copiado;
    assert MismosBytes(e, f, i, k);
  }

  lemma CompactarCopia(e: Estado, f: Estado, i: nat, k: nat)
    requires Inv(e) && f == Compactar(e) && i < |e.procs| && !e.procs[i].enSwap && k < |e.procs[i].segs|
    ensures i < |f.procs| && k < |f.procs[i].segs|
    ensures Copiado(e.mem, e.procs[i].segs[k].base, f.mem, f.procs[i].segs[k].base, e.procs[i].segs[k].limite)
  {
    hide Inv, EnOrden, Vigentes, RefsDistintas, Ordenadas, Enfila, Copiado, Rebasar, Mover, Previo, Veces, Lugares, Residentes;
    EnOrdenOk(e);
    var es := EnOrden(e);
    var n := EnOrdenCompleto(e, i, k);
    assert Vigente(e.procs, es[n]);
    RebasarBase(e.procs, es, 0, n);
    MoverConserva(e.mem, es, 0, n, f.mem, es[n].base, Previo(es, n), es[n].limite);
  }

  lemma CompactarForma(e: Estado)
    requires Inv(e)
    ensures MismaForma(e.procs, Compactar(e).procs)
  {
    EnOrdenOk(e);
    RebasarForma(e.procs, EnOrden(e), 0);
  }

  lemma FormaContenido(e: Estado, f: Estado, pid: nat, id: nat)
    requires ProcsOk(e.cfg, e.procs) && MismaForma(e.procs, f.procs)
    requires f.cfg == e.cfg && f.tabla == e.tabla && f.swap == e.swap
    requires forall i, k :: 0 <= i < |e.procs| && 0 <= k < |e.procs[i].segs| && !e.procs[i].enSwap ==> MismosBytes(e, f, i, k)
    ensures Contenido(f, pid, id) == Contenido(e, pid, id)
  {
    FormaBuscar(e.procs, f.procs, pid);
    var r := BuscarProceso(e.procs, pid);
    if r.Algo? {
      FormaBytes(e, f, r.valor, id);
      hide MismosBytes, MismaForma, ProcsOk, BytesDe;
    }
  }

  lemma FormaBytes(e: Estado, f: Estado, i: nat, id: nat)
    requires ProcsOk(e.cfg, e.procs) && MismaForma(e.procs, f.procs) && i < |e.procs|
    requires f.cfg == e.cfg && f.tabla == e.tabla && f.swap == e.swap
    requires forall i, k :: 0 <= i < |e.procs| && 0 <= k < |e.procs[i].segs| && !e.procs[i].enSwap ==> MismosBytes(e, f, i, k)
    ensures var p, q := e.procs[i], f.procs[i];
      && BuscarSegmento(q.segs, id) == BuscarSegmento(p.segs, id)
      && forall k :: BuscarSegmento(p.segs, id) == Algo(k) ==> BytesDe(f, q, q.segs[k]) == BytesDe(e, p, p.segs[k])
  {
    var p, q := e.procs[i], f.procs[i];
    assert MismoProceso(p, q) && SegmentosOk(e.cfg, p.segs);
    FormaBuscarSegmento(p, q, id);
    var b := BuscarSegmento(p.segs, id);
    if b.Algo? && !p.enSwap {
      assert MismosBytes(e, f, i, b.valor);
    }
  }

  lemma FormaInv(e: Estado, f: Estado)
    requires Inv(e) && MismaForma(e.procs, f.procs)
    requires f.cfg == e.cfg && f.tabla == e.tabla && f.swap == e.swap && |f.mem| == |e.mem|
    requires Embaldosa(Residentes(f.procs), f.huecos, f.libre, |f.mem|)
    ensures Inv(f)
  {
    FormaProcsOk(e.cfg, e.procs, f.procs);
    FormaSwapOk(e, f);
  }

  lemma CompactarContenido(e: Estado)
    requires Inv(e)
    ensures NadaCambia(e, Compactar(e))
  {
    var f := Compactar(e);
    CompactarForma(e);
    forall i, k | 0 <= i < |e.procs| && 0 <= k < |e.procs[i].segs| && !e.procs[i].enSwap ensures MismosBytes(e, f, i, k) {
      CompactarSegmento(e, i, k);
    }
    forall p: nat, k: nat ensures Contenido(f, p, k) == Contenido(e, p, k) {
      FormaContenido(e, f, p, k);
    }
  }

  /** Compaction keeps the invariant, the bytes and the size of every segment of every process
      whatever the layout, leaves the free bytes in one run at the end, and the counter it
      never writes stays right. */
  lemma {:induction false} CompactarMantiene(e: Estado)
    requires Inv(e)
    ensures var f := Compactar(e);
      && Inv(f)
      && NadaCambia(e, f)
      && f.libre == e.libre
      && f.huecos == (if e.libre > 0 then [Rango(|e.mem| - e.libre, e.libre)] else [])
  {
    hide Inv, NadaCambia, MismaForma, Residentes, EnOrden, Rebasar, Mover, Vigentes, RefsDistintas, Ordenadas, Enfila, Veces, Lugares;
    CompactarForma(e);
    CompactarEmbaldosa(e);
    FormaInv(e, Compactar(e));
    CompactarContenido(e);
    EnOrdenOk(e);
    SumaLibre(e);
  }

  lemma SumaLibre(e: Estado)
    requires Inv(e)
    ensures Suma(Residentes(e.procs)) + e.libre == |e.mem|
  {
  }

  /** Where each resident segment goes: no base grows, the order of the bases is kept, and the
      first ones are packed from address 0. */
  lemma {:induction false} CompactarBases(e: Estado, i: nat, k: nat, j: nat, m: nat)
    requires Inv(e) && i < |e.procs| && j < |e.procs| && !e.procs[i].enSwap && !e.procs[j].enSwap
    requires k < |e.procs[i].segs| && m < |e.procs[j].segs|
    ensures var ps := Compactar(e).procs;
      && MismaForma(e.procs, ps)
      && ps[i].segs[k].base <= e.procs[i].segs[k].base
      && (e.procs[i].segs[k].base < e.procs[j].segs[m].base
          ==> ps[i].segs[k].base + ps[i].segs[k].limite <= ps[j].segs[m].base)
  {
    EnOrdenOk(e);
    var es := EnOrden(e);
    var a := EnOrdenCompleto(e, i, k);
    var b := EnOrdenCompleto(e, j, m);
    RebasarBase(e.procs, es, 0, a);
    RebasarBase(e.procs, es, 0, b);
    EnfilaEn(es, 0, |e.mem|, a);
    assert Vigente(e.procs, es[a]) && Vigente(e.procs, es[b]);
    assert es[a].base == e.procs[i].segs[k].base && es[b].base == e.procs[j].segs[m].base;
    if e.procs[i].segs[k].base < e.procs[j].segs[m].base {
      assert a < b;
      PrevioCrece(es, a, b);
    }
  }

  lemma {:induction false} PrevioCrece(es: seq<Entrada>, a: nat, b: nat)
    requires a < b < |es|
    ensures Previo(es, a) + es[a].limite <= Previo(es, b)
  {
    if a > 0 {
      PrevioCrece(es[1..], a - 1, b - 1);
      assert es[1..][a - 1] == es[a];
    }
  }

  // ---------------------------------------------------------------- a second compaction

  /** In line and covering [c, c + Largo) exactly: each entry already sits at its new base. */
  lemma {:induction false} Apretadas(es: seq<Entrada>, c: nat, total: nat, procs: seq<Proceso>, mem: seq<byte>)
    requires Enfila(es, c, total) && total == |mem|
    requires forall a: nat :: Veces(Lugares(es), a) == if c <= a < c + Largo(es) then 1 else 0
    requires Vigentes(procs, es) && RefsDistintas(es)
    ensures Rebasar(procs, es, c) == procs
    ensures Mover(mem, es, c) == mem
    decreases |es|
  {
    if es != [] {
      EnfilaSinHueco(es, c, total);
      var e := es[0];
      assert Vigente(procs, e);
      var p := procs[e.proc];
      assert p.segs[e.seg := p.segs[e.seg].(base := c)] == p.segs;
      assert PonerBase(procs, e, c) == procs;
      RebasarVigentes(procs, es, c);
      forall a: nat
        ensures Veces(Lugares(es[1..]), a) == if c + e.limite <= a < c + e.limite + Largo(es[1..]) then 1 else 0
      {
        assert Veces(Lugares(es), a) == if c <= a < c + Largo(es) then 1 else 0;
      }
      Apretadas(es[1..], c + e.limite, total, procs, mem);
    }
  }

  lemma {:induction false} EnfilaSinHueco(es: seq<Entrada>, c: nat, total: nat)
    requires Enfila(es, c, total) && es != []
    requires forall a: nat :: Veces(Lugares(es), a) == if c <= a < c + Largo(es) then 1 else 0
    ensures es[0].base == c
  {
    if c < es[0].base {
      forall n | 0 <= n < |es| ensures c < es[n].base {
        EnfilaEn(es, es[0].base, total, n);
      }
      assert Veces(Lugares(es), c) == 1;
      LugaresMayores(es, c);
    }
  }

  /** Compacting twice is compacting once. */
  lemma {:induction false} CompactarDosVeces(e: Estado)
    requires Inv(e)
    ensures Inv(Compactar(e)) && Compactar(Compactar(e)) == Compactar(e)
  {
    CompactarMantiene(e);
    var f := Compactar(e);
    EnOrdenOk(e);
    EnOrdenOk(f);
    var es := EnOrden(f);
    CompactarVeces(e, 0);
    forall a: nat ensures Veces(Lugares(es), a) == if 0 <= a < Largo(es) then 1 else 0 {
      CompactarVeces(e, a);
      assert Veces(Lugares(es), a) == Veces(Residentes(f.procs), a);
    }
    Apretadas(es, 0, |f.mem|, f.procs, f.mem);
  }

  // ---------------------------------------------------------------- compact and retry

  lemma ElegirUnico(tam: nat, mejor: bool, h: Rango)
    ensures Elegir([h], tam, mejor) == if h.limite >= tam then Algo(0) else Nada
  {
    assert ElegirEn([h], 0, tam, mejor) == Nada;
  }

  /** When a request is answered COMPACTACION, the same request after compacting is granted,
      exactly if it asks for at least one byte.  (A request for zero bytes with no hole left is
      answered COMPACTACION for ever.) */
  lemma {:induction false} ReintentoTrasCompactar(e: Estado, pid: nat, id: nat, tam: nat)
    requires Inv(e) && Crear(e, pid, id, tam).1 == COMPACTACION
    ensures Crear(Compactar(e), pid, id, tam).1 == (if tam > 0 then MEMORIA_DISPONIBLE else COMPACTACION)
  {
    var f := Compactar(e);
    assert f.libre == e.libre && f.cfg == e.cfg
        && f.huecos == (if e.libre > 0 then [Rango(|e.mem| - e.libre, e.libre)] else []) by {
      CompactarMantiene(e);
    }
    assert BuscarProceso(f.procs, pid) == BuscarProceso(e.procs, pid) by {
      CompactarForma(e);
      FormaBuscar(e.procs, f.procs, pid);
    }
    if e.libre > 0 {
      ElegirUnico(tam, e.cfg.mejor, f.huecos[0]);
      if tam == 0 {
        SinHuecos(e.huecos, e.cfg.mejor);
      }
    }
  }

  lemma {:induction false} ElegirEnAlguno(hs: seq<Rango>, n: nat, mejor: bool)
    requires 0 < n <= |hs|
    ensures ElegirEn(hs, n, 0, mejor).Algo?
  {
    if n > 1 {
      ElegirEnAlguno(hs, n - 1, mejor);
    }
  }

  /** Zero bytes fit in any hole, so only an empty list answers "nothing found". */
  lemma SinHuecos(hs: seq<Rango>, mejor: bool)
    requires Elegir(hs, 0, mejor).Nada?
    ensures hs == [] && Suma(hs) == 0
  {
    var n := |hs|;
    if n > 0 {
      ElegirEnAlguno(hs, n, mejor);
    }
  }
}
