/** `suspender_proceso` of kernel_memory/src/swap_gestor.c: every segment of the process is
    copied to a free block of the swap file and its memory is given back. */
module Suspension {
  import opened Secuencias
  import opened Rangos
  import opened Mmu
  import opened Memoria
  import opened Asignador
  import opened Swap

  /** One turn of the loop: segment `k` of process `i` goes to block `j`. */
  function Guardar(e: Estado, i: nat, k: nat, j: nat): (f: Estado)
    requires i < |e.procs| && k < |e.procs[i].segs| && j < |e.tabla|
    ensures f.procs == e.procs && f.mem == e.mem && f.cfg == e.cfg && |f.tabla| == |e.tabla|
  {
    var p := e.procs[i];
    var s := p.segs[k];
    e.(swap := EscribirBloque(e.swap, j * e.cfg.bloque, Tajada(e.mem, s.base, s.limite)),
       tabla := e.tabla[j := Bloque(true, p.pid, s.id, s.limite)],
       huecos := Insertar(e.huecos, Sitio(s)),
       libre := e.libre + s.limite)
  }

  /** New state, answer and `bytes_suspendidos`. */
  datatype Salida = Salida(estado: Estado, codigo: Codigo, bytes: nat)

  /** The loop, from segment `k` on. */
  function SuspenderDesde(e: Estado, i: nat, k: nat, bytes: nat): Salida
    requires i < |e.procs| && k <= |e.procs[i].segs|
    decreases |e.procs[i].segs| - k
  {
    var p := e.procs[i];
    if k == |p.segs| then Salida(e.(procs := e.procs[i := p.(enSwap := true)]), SUSPEND_OK, bytes)
    else if p.segs[k].limite > e.cfg.bloque then Salida(e, MEMORIA_NO_DISPONIBLE, bytes)
    else match PrimerLibre(e.tabla, 0)
      case Nada => Salida(e, MEMORIA_NO_DISPONIBLE, bytes)
      case Algo(j) => SuspenderDesde(Guardar(e, i, k, j), i, k + 1, bytes + p.segs[k].limite)
  }

  function Suspender(e: Estado, pid: nat): Salida
  {
    match BuscarProceso(e.procs, pid)
    case Nada => Salida(e, MEMORIA_NO_DISPONIBLE, 0)
    case Algo(i) => SuspenderDesde(e, i, 0, 0)
  }

  // ---------------------------------------------------------------- one segment goes out

  lemma {:induction false} GuardarEmbaldosa(e: Estado, i: nat, k: nat, j: nat, fuera: set<nat>)
    requires EnCurso(e, i, fuera) && k < |e.procs[i].segs| && j < |e.tabla|
    requires e.procs[i].segs[k].id !in fuera
    ensures var f := Guardar(e, i, k, j);
            Embaldosa(Parcial(f.procs, i, fuera + {e.procs[i].segs[k].id}), f.huecos, f.libre, |f.mem|)
  {
    var segs := e.procs[i].segs;
    var g := fuera + {segs[k].id};
    assert SegmentosOk(e.cfg, segs);
    var rs, rs' := Parcial(e.procs, i, fuera), Parcial(e.procs, i, g);
    forall a: nat ensures Veces(rs', a) + Sitio(segs[k]).Uno(a) == Veces(rs, a) {
      SaleVeces(e.procs, i, k, fuera, a);
    }
    SaleVeces(e.procs, i, k, fuera, 0);
    Soltar(rs, rs', e.huecos, Sitio(segs[k]), e.libre, |e.mem|);
  }

  lemma {:induction false} SaleVeces(procs: seq<Proceso>, i: nat, k: nat, fuera: set<nat>, a: nat)
    requires i < |procs| && k < |procs[i].segs| && IdsDistintos(procs[i].segs)
    requires procs[i].segs[k].id !in fuera
    ensures var s := procs[i].segs[k];
      && Veces(Parcial(procs, i, fuera + {s.id}), a) + Sitio(s).Uno(a) == Veces(Parcial(procs, i, fuera), a)
      && Suma(Parcial(procs, i, fuera + {s.id})) + s.limite == Suma(Parcial(procs, i, fuera))
  {
    PresentesSale(procs[i].segs, k, fuera, a);
    ParcialVeces(procs, i, fuera, a);
    ParcialVeces(procs, i, fuera + {procs[i].segs[k].id}, a);
  }

  /** Block `j` now holds segment (pid, id) and no other block did. */
  lemma BloquesMas(t: seq<Bloque>, j: nat, b: Bloque)
    requires j < |t| && !t[j].ocupado && b.ocupado
    requires BloquesUnicos(t) && !HayBloque(t, b.pid, b.seg)
    ensures BloquesUnicos(t[j := b])
    ensures forall p: nat, m: nat :: HayBloque(t, p, m) ==> HayBloque(t[j := b], p, m)
    ensures HayBloque(t[j := b], b.pid, b.seg) && BloqueDe(t[j := b], b.pid, b.seg) == j
    ensures forall p: nat, m: nat :: (p, m) != (b.pid, b.seg) ==> BloqueDe(t[j := b], p, m) == BloqueDe(t, p, m)
  {
    var u := t[j := b];
    forall x | 0 <= x < |t| && x != j && t[x].ocupado ensures t[x].pid != b.pid || t[x].seg != b.seg {
      assert !EsBloque(t, x, b.pid, b.seg);
    }
    assert BloquesUnicos(u);
    assert EsBloque(u, j, b.pid, b.seg);
    forall p: nat, m: nat | HayBloque(t, p, m) ensures HayBloque(u, p, m) {
      var x :| EsBloque(t, x, p, m);
      assert EsBloque(u, x, p, m);
    }
    forall p: nat, m: nat | (p, m) != (b.pid, b.seg) ensures BloqueDe(u, p, m) == BloqueDe(t, p, m) {
      BloqueMismo(t, u, p, m);
    }
  }

  /** No block of a process in transit holds a segment that is still inside. */
  lemma SinBloque(e: Estado, i: nat, fuera: set<nat>, id: nat)
    requires i < |e.procs| && SwapEn(e, i, fuera) && id !in fuera
    ensures !HayBloque(e.tabla, e.procs[i].pid, id)
  {
    forall x ensures !EsBloque(e.tabla, x, e.procs[i].pid, id) {
      if 0 <= x < |e.tabla| {
        assert BloqueEn(e, i, fuera, x);
      }
    }
  }

  lemma GuardarSwap(e: Estado, i: nat, k: nat, j: nat, fuera: set<nat>)
    requires EnCurso(e, i, fuera) && k < |e.procs[i].segs| && j < |e.tabla| && !e.tabla[j].ocupado
    requires e.procs[i].segs[k].id !in fuera && e.procs[i].segs[k].limite <= e.cfg.bloque
    ensures SwapEn(Guardar(e, i, k, j), i, fuera + {e.procs[i].segs[k].id})
  {
    hide EscribirBloque, Insertar, Embaldosa, BloqueEn, BloquesUnicos, HayBloque, BloqueDe, Tajada, SegmentosOk;
    var s := e.procs[i].segs[k];
    var f := Guardar(e, i, k, j);
    SinBloque(e, i, fuera, s.id);
    BloquesMas(e.tabla, j, Bloque(true, e.procs[i].pid, s.id, s.limite));
    forall x | 0 <= x < |f.tabla| ensures BloqueEn(f, i, fuera + {s.id}, x) {
      GuardarBloque(e, i, k, j, fuera, x);
    }
  }

  lemma GuardarBloque(e: Estado, i: nat, k: nat, j: nat, fuera: set<nat>, x: nat)
    requires i < |e.procs| && k < |e.procs[i].segs| && j < |e.tabla| && x < |e.tabla|
    requires SegmentosOk(e.cfg, e.procs[i].segs) && e.procs[i].segs[k].limite <= e.cfg.bloque && BloqueEn(e, i, fuera, x)
    ensures BloqueEn(Guardar(e, i, k, j), i, fuera + {e.procs[i].segs[k].id}, x)
  {
    hide EscribirBloque, Insertar, Tajada;
    assert BuscarSegmento(e.procs[i].segs, e.procs[i].segs[k].id) == Algo(k);
  }

  lemma {:induction false} GuardarEnCurso(e: Estado, i: nat, k: nat, j: nat, fuera: set<nat>)
    requires EnCurso(e, i, fuera) && k < |e.procs[i].segs| && j < |e.tabla| && !e.tabla[j].ocupado
    requires e.procs[i].segs[k].id !in fuera && e.procs[i].segs[k].limite <= e.cfg.bloque
    ensures EnCurso(Guardar(e, i, k, j), i, fuera + {e.procs[i].segs[k].id})
  {
    GuardarEmbaldosa(e, i, k, j, fuera);
    GuardarSwap(e, i, k, j, fuera);
  }

  // ---------------------------------------------------------------- and its bytes with it

  /** A segment that is inside while its process is in transit lies inside memory. */
  lemma {:induction false} DentroEnCurso(e: Estado, i: nat, k: nat, fuera: set<nat>)
    requires EnCurso(e, i, fuera) && k < |e.procs[i].segs| && e.procs[i].segs[k].id !in fuera
    ensures e.procs[i].segs[k].base + e.procs[i].segs[k].limite <= |e.mem|
  {
    var segs := e.procs[i].segs;
    assert SegmentosOk(e.cfg, segs);
    var a := segs[k].base + segs[k].limite - 1;
    assert Sitio(segs[k]).Tiene(a);
    SaleVeces(e.procs, i, k, fuera, a);
    assert Veces(Parcial(e.procs, i, fuera), a) + Veces(e.huecos, a) == if a < |e.mem| then 1 else 0;
  }

  /** The length of what a block holds, for any segment that the transit reads from swap. */
  lemma BloqueLargo(e: Estado, i: nat, fuera: set<nat>, x: int, p: nat, m: nat)
    requires i < |e.procs| && PidsDistintos(e.procs) && SwapEn(e, i, fuera) && EsBloque(e.tabla, x, p, m)
    ensures ProcesoDe(e.procs, p).Algo? && SegmentoDe(ProcesoDe(e.procs, p).valor.segs, m).Algo?
    ensures SegmentoDe(ProcesoDe(e.procs, p).valor.segs, m).valor.limite == e.tabla[x].tam <= e.cfg.bloque
    ensures p == e.procs[i].pid ==> ProcesoDe(e.procs, p).valor == e.procs[i] && m in fuera
    ensures p != e.procs[i].pid ==> ProcesoDe(e.procs, p).valor.enSwap
    ensures x * e.cfg.bloque + e.tabla[x].tam <= |e.swap|
  {
    assert BloqueEn(e, i, fuera, x);
    BloqueEntero(x, |e.tabla|, e.cfg.bloque);
    if p == e.procs[i].pid {
      assert BuscarProceso(e.procs, p).valor == i;
    }
  }

  lemma BloquesAparte(x: nat, j: nat, b: nat)
    requires x != j
    ensures x * b + b <= j * b || j * b + b <= x * b
  {
    if x < j { BloqueEntero(x, j, b); } else { BloqueEntero(j, x, b); }
  }

  /** What a segment in swap reads from its block is not disturbed by writing another block. */
  lemma TajadaOtroBloque(e: Estado, i: nat, fuera: set<nat>, x: int, p: nat, m: nat, j: nat, d: seq<byte>)
    requires i < |e.procs| && PidsDistintos(e.procs) && SwapEn(e, i, fuera) && EsBloque(e.tabla, x, p, m)
    requires j < |e.tabla| && x != j && |d| <= e.cfg.bloque
    ensures Tajada(EscribirBloque(e.swap, j * e.cfg.bloque, d), x * e.cfg.bloque, e.tabla[x].tam)
         == Tajada(e.swap, x * e.cfg.bloque, e.tabla[x].tam)
  {
    BloqueLargo(e, i, fuera, x, p, m);
    BloqueEntero(j, |e.tabla|, e.cfg.bloque);
    BloquesAparte(x, j, e.cfg.bloque);
    TajadaEscrita(e.swap, j * e.cfg.bloque, d, x * e.cfg.bloque, e.tabla[x].tam);
  }

  lemma GuardarContenido(e: Estado, i: nat, k: nat, j: nat, fuera: set<nat>, p: nat, m: nat)
    requires EnCurso(e, i, fuera) && k < |e.procs[i].segs| && j < |e.tabla| && !e.tabla[j].ocupado
    requires e.procs[i].segs[k].id !in fuera && e.procs[i].segs[k].limite <= e.cfg.bloque
    ensures ContenidoEn(Guardar(e, i, k, j), i, fuera + {e.procs[i].segs[k].id}, p, m) == ContenidoEn(e, i, fuera, p, m)
  {
    DentroEnCurso(e, i, k, fuera);
    if (p, m) == (e.procs[i].pid, e.procs[i].segs[k].id) {
      GuardarContenidoPropio(e, i, k, j, fuera, p, m);
    } else {
      GuardarContenidoOtro(e, i, k, j, fuera, p, m, Tajada(e.mem, e.procs[i].segs[k].base, e.procs[i].segs[k].limite));
    }
  }

  lemma GuardarEscrito(e: Estado, i: nat, k: nat, j: nat)
    requires i < |e.procs| && k < |e.procs[i].segs| && j < |e.tabla| && |e.tabla| * e.cfg.bloque <= |e.swap|
    requires e.procs[i].segs[k].limite <= e.cfg.bloque
    requires e.procs[i].segs[k].base + e.procs[i].segs[k].limite <= |e.mem|
    ensures Tajada(Guardar(e, i, k, j).swap, j * e.cfg.bloque, e.procs[i].segs[k].limite)
         == Tajada(e.mem, e.procs[i].segs[k].base, e.procs[i].segs[k].limite)
  {
    hide EscribirBloque, Insertar;
    var s := e.procs[i].segs[k];
    BloqueEntero(j, |e.tabla|, e.cfg.bloque);
    TajadaEscrita(e.swap, j * e.cfg.bloque, Tajada(e.mem, s.base, s.limite), 0, 0);
  }

  lemma GuardarContenidoPropio(e: Estado, i: nat, k: nat, j: nat, fuera: set<nat>, p: nat, m: nat)
    requires EnCurso(e, i, fuera) && k < |e.procs[i].segs| && j < |e.tabla| && !e.tabla[j].ocupado
    requires e.procs[i].segs[k].id !in fuera && e.procs[i].segs[k].limite <= e.cfg.bloque
    requires e.procs[i].segs[k].base + e.procs[i].segs[k].limite <= |e.mem|
    requires p == e.procs[i].pid && m == e.procs[i].segs[k].id
    ensures ContenidoEn(Guardar(e, i, k, j), i, fuera + {m}, p, m) == ContenidoEn(e, i, fuera, p, m)
  {
    hide EscribirBloque, Insertar, ContenidoEn, Embaldosa, BloqueDe, HayBloque, BloquesUnicos, BloqueEn, Tajada;
    var f := Guardar(e, i, k, j);
    var s := e.procs[i].segs[k];
    SinBloque(e, i, fuera, m);
    BloquesMas(e.tabla, j, Bloque(true, p, m, s.limite));
    GuardarEscrito(e, i, k, j);
    assert SegmentosOk(e.cfg, e.procs[i].segs);
    assert BuscarProceso(e.procs, p) == Algo(i) && BuscarSegmento(e.procs[i].segs, m) == Algo(k);
    LeidoDeMemoria(e, i, fuera, p, m, i, k);
    LeidoDeSwap(f, i, fuera + {m}, p, m, i, k);
  }

  lemma GuardarContenidoOtro(e: Estado, i: nat, k: nat, j: nat, fuera: set<nat>, p: nat, m: nat, d: seq<byte>)
    requires EnCurso(e, i, fuera) && k < |e.procs[i].segs| && j < |e.tabla| && !e.tabla[j].ocupado
    requires e.procs[i].segs[k].id !in fuera && e.procs[i].segs[k].limite <= e.cfg.bloque
    requires d == Tajada(e.mem, e.procs[i].segs[k].base, e.procs[i].segs[k].limite) && |d| <= e.cfg.bloque
    requires (p, m) != (e.procs[i].pid, e.procs[i].segs[k].id)
    ensures ContenidoEn(Guardar(e, i, k, j), i, fuera + {e.procs[i].segs[k].id}, p, m) == ContenidoEn(e, i, fuera, p, m)
  {
    var f := Guardar(e, i, k, j);
    var s := e.procs[i].segs[k];
    SinBloque(e, i, fuera, s.id);
    BloquesMas(e.tabla, j, Bloque(true, e.procs[i].pid, s.id, s.limite));
    assert BloqueDe(f.tabla, p, m) == BloqueDe(e.tabla, p, m);
    if HayBloque(e.tabla, p, m) {
      var x := BloqueDe(e.tabla, p, m);
      BloqueLargo(e, i, fuera, x, p, m);
      TajadaOtroBloque(e, i, fuera, x, p, m, j, d);
    }
    var q := ProcesoDe(e.procs, p);
    if q.Algo? {
      assert q.valor.pid == p;
      if SegmentoDe(q.valor.segs, m).Algo? {
        assert SegmentoDe(q.valor.segs, m).valor.id == m;
      }
    }
  }

  // ---------------------------------------------------------------- the whole loop

  /** The first `k` segments, and only those, are out. */
  ghost predicate Afuera(e: Estado, i: nat, k: nat, fuera: set<nat>)
    requires i < |e.procs|
  {
    forall n :: 0 <= n < |e.procs[i].segs| ==> (e.procs[i].segs[n].id in fuera <==> n < k)
  }

  lemma AfueraSigue(e: Estado, i: nat, k: nat, j: nat, fuera: set<nat>)
    requires EnCurso(e, i, fuera) && k < |e.procs[i].segs| && j < |e.tabla| && Afuera(e, i, k, fuera)
    ensures Afuera(Guardar(e, i, k, j), i, k + 1, fuera + {e.procs[i].segs[k].id})
    ensures e.procs[i].segs[k].id !in fuera
  {
    hide Embaldosa, SwapEn, Parcial, Guardar;
    assert SegmentosOk(e.cfg, e.procs[i].segs);
  }

  lemma {:induction false} SuspenderCurso(e: Estado, i: nat, k: nat, bytes: nat, fuera: set<nat>, r: Salida)
    requires EnCurso(e, i, fuera) && i < |e.procs| && k <= |e.procs[i].segs| && Afuera(e, i, k, fuera)
    requires r == SuspenderDesde(e, i, k, bytes) && r.codigo == SUSPEND_OK
    ensures Inv(r.estado)
    decreases |e.procs[i].segs| - k
  {
    hide EnCurso, Inv, SuspenderDesde, PrimerLibre, Guardar;
    if k == |e.procs[i].segs| {
      SuspenderTermina(e, i, k, bytes);
      assert Afuera(e, i, k, fuera);
      TerminaInv(e, i, fuera, true);
    } else {
      var j := SuspenderSigue(e, i, k, bytes, r);
      AfueraSigue(e, i, k, j, fuera);
      GuardarEnCurso(e, i, k, j, fuera);
      SuspenderCurso(Guardar(e, i, k, j), i, k + 1, bytes + e.procs[i].segs[k].limite, fuera + {e.procs[i].segs[k].id}, r);
    }
  }

  lemma {:induction false} SuspenderContenido(e: Estado, i: nat, k: nat, bytes: nat, fuera: set<nat>, r: Salida, p: nat, m: nat)
    requires EnCurso(e, i, fuera) && i < |e.procs| && k <= |e.procs[i].segs| && Afuera(e, i, k, fuera)
    requires r == SuspenderDesde(e, i, k, bytes) && r.codigo == SUSPEND_OK
    ensures Contenido(r.estado, p, m) == ContenidoEn(e, i, fuera, p, m)
    decreases |e.procs[i].segs| - k
  {
    hide Contenido, ContenidoEn, SuspenderDesde, PrimerLibre, Guardar;
    if k == |e.procs[i].segs| {
      SuspenderTermina(e, i, k, bytes);
      TerminaContenido(e, i, fuera, true, p, m);
    } else {
      var j := SuspenderSigue(e, i, k, bytes, r);
      AfueraSigue(e, i, k, j, fuera);
      GuardarEnCurso(e, i, k, j, fuera);
      GuardarContenido(e, i, k, j, fuera, p, m);
      SuspenderContenido(Guardar(e, i, k, j), i, k + 1, bytes + e.procs[i].segs[k].limite, fuera + {e.procs[i].segs[k].id}, r, p, m);
    }
  }

  /** At the end of a transit the flag says what the transit said. */
  lemma TerminaContenido(e: Estado, i: nat, fuera: set<nat>, enSwap: bool, p: nat, m: nat)
    requires i < |e.procs| && PidsDistintos(e.procs)
    requires forall k :: 0 <= k < |e.procs[i].segs| ==> (e.procs[i].segs[k].id in fuera <==> enSwap)
    ensures Contenido(e.(procs := e.procs[i := e.procs[i].(enSwap := enSwap)]), p, m) == ContenidoEn(e, i, fuera, p, m)
  {
    var t := e.procs[i].(enSwap := enSwap);
    ProcesoDeCambia(e.procs, i, t, p);
    if p == t.pid {
      assert BuscarProceso(e.procs, p) == Algo(i);
      var r := BuscarSegmento(t.segs, m);
      if r.Algo? {
        assert t.segs[r.valor].id == m;
      }
    }
  }

  lemma EmpiezaContenido(e: Estado, i: nat, fuera: set<nat>, p: nat, m: nat)
    requires i < |e.procs| && PidsDistintos(e.procs)
    requires fuera == if e.procs[i].enSwap then Ids(e.procs[i].segs) else {}
    ensures ContenidoEn(e, i, fuera, p, m) == Contenido(e, p, m)
  {
    assert e.(procs := e.procs[i := e.procs[i].(enSwap := e.procs[i].enSwap)]) == e;
    TerminaContenido(e, i, fuera, e.procs[i].enSwap, p, m);
  }

  lemma GuardarCuenta(e: Estado, i: nat, k: nat, j: nat)
    requires i < |e.procs| && k < |e.procs[i].segs| && j < |e.tabla|
    ensures Suma(Guardar(e, i, k, j).huecos) == Suma(e.huecos) + e.procs[i].segs[k].limite
  {
    InsertarVeces(e.huecos, Sitio(e.procs[i].segs[k]), 0);
  }

  lemma SuspenderPaso(e: Estado, i: nat, k: nat, bytes: nat) returns (j: nat)
    requires i < |e.procs| && k < |e.procs[i].segs|
    requires e.procs[i].segs[k].limite <= e.cfg.bloque && PrimerLibre(e.tabla, 0).Algo?
    ensures j < |e.tabla| && !e.tabla[j].ocupado && PrimerLibre(e.tabla, 0) == Algo(j)
    ensures SuspenderDesde(e, i, k, bytes) == SuspenderDesde(Guardar(e, i, k, j), i, k + 1, bytes + e.procs[i].segs[k].limite)
  {
    hide Guardar, PrimerLibre;
    j := PrimerLibre(e.tabla, 0).valor;
  }

  lemma SuspenderTermina(e: Estado, i: nat, k: nat, bytes: nat)
    requires i < |e.procs| && k <= |e.procs[i].segs|
    requires k == |e.procs[i].segs| || e.procs[i].segs[k].limite > e.cfg.bloque || PrimerLibre(e.tabla, 0).Nada?
    ensures SuspenderDesde(e, i, k, bytes) ==
      if k == |e.procs[i].segs| then Salida(e.(procs := e.procs[i := e.procs[i].(enSwap := true)]), SUSPEND_OK, bytes)
      else Salida(e, MEMORIA_NO_DISPONIBLE, bytes)
  {
    hide Guardar, PrimerLibre;
  }

  lemma SuspenderSigue(e: Estado, i: nat, k: nat, bytes: nat, r: Salida) returns (j: nat)
    requires i < |e.procs| && k < |e.procs[i].segs| && r == SuspenderDesde(e, i, k, bytes) && r.codigo == SUSPEND_OK
    ensures e.procs[i].segs[k].limite <= e.cfg.bloque && j < |e.tabla| && !e.tabla[j].ocupado
    ensures r == SuspenderDesde(Guardar(e, i, k, j), i, k + 1, bytes + e.procs[i].segs[k].limite)
  {
    hide Guardar, PrimerLibre, SuspenderDesde;
    if !(e.procs[i].segs[k].limite <= e.cfg.bloque && PrimerLibre(e.tabla, 0).Algo?) {
      SuspenderTermina(e, i, k, bytes);
    }
    j := SuspenderPaso(e, i, k, bytes);
  }

  /** The bytes reported are the bytes given back, whatever the result. */
  lemma {:induction false} SuspenderCuenta(e: Estado, i: nat, k: nat, bytes: nat, r: Salida)
    requires i < |e.procs| && k <= |e.procs[i].segs| && r == SuspenderDesde(e, i, k, bytes)
    ensures r.bytes - bytes == Suma(r.estado.huecos) - Suma(e.huecos) == r.estado.libre - e.libre >= 0
    ensures r.estado.mem == e.mem && r.estado.cfg == e.cfg
    ensures r.codigo != SUSPEND_OK ==> r.codigo == MEMORIA_NO_DISPONIBLE && r.estado.procs == e.procs
    decreases |e.procs[i].segs| - k
  {
    hide SuspenderDesde, PrimerLibre;
    var segs := e.procs[i].segs;
    if k < |segs| && segs[k].limite <= e.cfg.bloque && PrimerLibre(e.tabla, 0).Algo? {
      var j := SuspenderPaso(e, i, k, bytes);
      GuardarCuenta(e, i, k, j);
      SuspenderCuenta(Guardar(e, i, k, j), i, k + 1, bytes + segs[k].limite, r);
    } else {
      SuspenderTermina(e, i, k, bytes);
    }
  }

  lemma {:induction false} SuspenderBytes(e: Estado, i: nat, k: nat, bytes: nat, r: Salida)
    requires i < |e.procs| && k <= |e.procs[i].segs| && r == SuspenderDesde(e, i, k, bytes) && r.codigo == SUSPEND_OK
    ensures r.bytes == bytes + Suma(Presentes(e.procs[i].segs[k..], {}))
    ensures r.estado.procs == e.procs[i := e.procs[i].(enSwap := true)]
    decreases |e.procs[i].segs| - k
  {
    hide SuspenderDesde, PrimerLibre, Guardar;
    var segs := e.procs[i].segs;
    if k == |segs| {
      SuspenderTermina(e, i, k, bytes);
    } else {
      var j := SuspenderSigue(e, i, k, bytes, r);
      SuspenderBytes(Guardar(e, i, k, j), i, k + 1, bytes + segs[k].limite, r);
      PrimeroPresente(segs, k);
    }
  }

  lemma PrimeroPresente(segs: seq<Segmento>, k: nat)
    requires k < |segs|
    ensures Suma(Presentes(segs[k..], {})) == segs[k].limite + Suma(Presentes(segs[k + 1..], {}))
  {
    assert segs[k..][1..] == segs[k + 1..];
    SumaConcat([Sitio(segs[k])], Presentes(segs[k + 1..], {}));
  }

  predicate Caben(cfg: Config, segs: seq<Segmento>, k: nat)
  {
    forall n :: k <= n < |segs| ==> segs[n].limite <= cfg.bloque
  }

  /** It succeeds exactly when every segment fits in a block and there are blocks enough. */
  lemma {:induction false} SuspenderCabe(e: Estado, i: nat, k: nat, bytes: nat, r: Salida)
    requires i < |e.procs| && k <= |e.procs[i].segs| && r == SuspenderDesde(e, i, k, bytes)
    ensures r.codigo == SUSPEND_OK <==> Caben(e.cfg, e.procs[i].segs, k) && |e.procs[i].segs| - k <= Libres(e.tabla)
    decreases |e.procs[i].segs| - k
  {
    hide SuspenderDesde, PrimerLibre;
    var segs := e.procs[i].segs;
    if k < |segs| && segs[k].limite <= e.cfg.bloque && PrimerLibre(e.tabla, 0).Algo? {
      var j := SuspenderPaso(e, i, k, bytes);
      SuspenderCabe(Guardar(e, i, k, j), i, k + 1, bytes + segs[k].limite, r);
      LibresOcupar(e.tabla, j, Bloque(true, e.procs[i].pid, segs[k].id, segs[k].limite));
      CabenDesde(e.cfg, segs, k);
    } else {
      SuspenderTermina(e, i, k, bytes);
      LibresCero(e.tabla);
      if k < |segs| {
        CabenDesde(e.cfg, segs, k);
      } else {
        assert Caben(e.cfg, segs, k);
      }
    }
  }

  lemma CabenDesde(cfg: Config, segs: seq<Segmento>, k: nat)
    requires k < |segs|
    ensures Caben(cfg, segs, k) <==> segs[k].limite <= cfg.bloque && Caben(cfg, segs, k + 1)
  {
  }

  /** Suspending a process that is not in swap.  On success the invariant and the bytes of
      every segment of every process are kept, the process included: only the place where they
      are kept changes; the reported bytes are the ones its segments occupied. */
  lemma {:induction false} SuspenderMantiene(e: Estado, pid: nat)
    requires Inv(e) && ProcesoDe(e.procs, pid).Algo? && !ProcesoDe(e.procs, pid).valor.enSwap
    ensures var r := Suspender(e, pid);
      var p := ProcesoDe(e.procs, pid).valor;
      && (r.codigo == SUSPEND_OK <==> |p.segs| <= Libres(e.tabla) && Caben(e.cfg, p.segs, 0))
      && (r.codigo == SUSPEND_OK ==> Inv(r.estado) && NadaCambia(e, r.estado))
      && (r.codigo == SUSPEND_OK ==> ProcesoDe(r.estado.procs, pid) == Algo(p.(enSwap := true)))
      && (r.codigo == SUSPEND_OK ==> r.bytes == Suma(De(p)) && r.estado.libre == e.libre + r.bytes)
  {
    var i := BuscarProceso(e.procs, pid).valor;
    var r := Suspender(e, pid);
    SuspenderCabe(e, i, 0, 0, r);
    assert e.procs[i].segs[0..] == e.procs[i].segs;
    if r.codigo == SUSPEND_OK {
      SuspenderCuenta(e, i, 0, 0, r);
      SuspenderBytes(e, i, 0, 0, r);
      EmpiezaDentro(e, i);
      SuspenderCurso(e, i, 0, 0, {}, r);
      forall p: nat, m: nat ensures Contenido(r.estado, p, m) == Contenido(e, p, m) {
        EmpiezaContenido(e, i, {}, p, m);
        SuspenderContenido(e, i, 0, 0, {}, r, p, m);
      }
      ProcesoDeCambia(e.procs, i, e.procs[i].(enSwap := true), pid);
    }
  }

  /** The failure is not undone: the invariant survives it exactly when no segment had been
      released yet, that is when the first one does not fit or there is no block for it. */
  lemma {:induction false} SuspenderFalla(e: Estado, pid: nat)
    requires Inv(e) && ProcesoDe(e.procs, pid).Algo? && !ProcesoDe(e.procs, pid).valor.enSwap
    requires Suspender(e, pid).codigo != SUSPEND_OK
    ensures var p := ProcesoDe(e.procs, pid).valor;
      p.segs != [] && (Inv(Suspender(e, pid).estado) <==> p.segs[0].limite > e.cfg.bloque || Libres(e.tabla) == 0)
  {
    var i := BuscarProceso(e.procs, pid).valor;
    var segs := e.procs[i].segs;
    SuspenderCabe(e, i, 0, 0, Suspender(e, pid));
    LibresCero(e.tabla);
    assert segs != [];
    if segs[0].limite <= e.cfg.bloque && Libres(e.tabla) > 0 {
      assert SegmentosOk(e.cfg, segs);
      var j := SuspenderPaso(e, i, 0, 0);
      FallaTarde(e, i, j, Suspender(e, pid));
    }
  }

  lemma FallaTarde(e: Estado, i: nat, j: nat, r: Salida)
    requires Inv(e) && i < |e.procs| && e.procs[i].segs != [] && j < |e.tabla| && e.procs[i].segs[0].limite > 0
    requires r == SuspenderDesde(Guardar(e, i, 0, j), i, 1, e.procs[i].segs[0].limite) && r.codigo != SUSPEND_OK
    ensures !Inv(r.estado)
  {
    GuardarCuenta(e, i, 0, j);
    SuspenderCuenta(Guardar(e, i, 0, j), i, 1, e.procs[i].segs[0].limite, r);
    assert Suma(Residentes(r.estado.procs)) + Suma(r.estado.huecos) > |r.estado.mem|;
  }
}
