/** The allocator operations of kernel_memory/src: crear_segmento, eliminar_segmento,
    inicializar_proceso, finalizar_proceso, agregar_memory_stick and the writing of bytes.
    Each one keeps the module's invariant and the contents of every other segment. */
module Asignador {
  import opened Secuencias
  import opened Rangos
  import opened Mmu
  import opened Memoria

  /** The segment tables and the swap area agree after a process that is not in swap changed
      its own table. */
  lemma SwapOkCambia(e: Estado, f: Estado, i: nat)
    requires ProcsOk(e.cfg, e.procs) && SwapOk(e) && i < |e.procs| && !e.procs[i].enSwap
    requires f.cfg == e.cfg && f.tabla == e.tabla && f.swap == e.swap
    requires |f.procs| == |e.procs| && f.procs == e.procs[i := f.procs[i]]
    requires !f.procs[i].enSwap && f.procs[i].pid == e.procs[i].pid
    ensures SwapOk(f)
  {
    forall j | 0 <= j < |f.tabla| ensures BloqueCon(f, j) {
      assert BloqueCon(e, j);
      ProcesoDeCambia(e.procs, i, f.procs[i], f.tabla[j].pid);
    }
  }

  lemma ProcsOkCambia(cfg: Config, procs: seq<Proceso>, i: nat, p: Proceso)
    requires ProcsOk(cfg, procs) && i < |procs| && p.pid == procs[i].pid && SegmentosOk(cfg, p.segs)
    ensures ProcsOk(cfg, procs[i := p])
  {
  }

  lemma SegmentosOkAgrega(cfg: Config, segs: seq<Segmento>, s: Segmento)
    requires SegmentosOk(cfg, segs) && BuscarSegmento(segs, s.id).Nada?
    requires 0 < s.limite <= cfg.segMax && s.id * cfg.segMax < WORD
    ensures SegmentosOk(cfg, segs + [s])
  {
  }

  lemma SegmentosOkQuita(cfg: Config, segs: seq<Segmento>, k: nat)
    requires SegmentosOk(cfg, segs) && k < |segs|
    ensures SegmentosOk(cfg, segs[..k] + segs[k + 1..])
  {
    var ss := segs[..k] + segs[k + 1..];
    forall n | 0 <= n < |ss| ensures ss[n] == segs[if n < k then n else n + 1] {}
  }

  /** Every segment of every process keeps its bytes. */
  ghost predicate NadaCambia(e: Estado, f: Estado)
  {
    forall p: nat, k: nat :: Contenido(f, p, k) == Contenido(e, p, k)
  }

  /** Every segment other than `id` of process `pid` keeps its bytes. */
  ghost predicate SoloCambia(e: Estado, f: Estado, pid: nat, id: nat)
  {
    forall p: nat, k: nat :: (p, k) != (pid, id) ==> Contenido(f, p, k) == Contenido(e, p, k)
  }

  /** Every segment of every process other than `pid` keeps its bytes. */
  ghost predicate AjenosIguales(e: Estado, f: Estado, pid: nat)
  {
    forall p: nat, k: nat :: p != pid ==> Contenido(f, p, k) == Contenido(e, p, k)
  }

  /** Contents of the processes that an update of process `i` does not touch. */
  lemma ContenidoCambia(e: Estado, f: Estado, i: nat, pid: nat, id: nat)
    requires PidsDistintos(e.procs) && i < |e.procs| == |f.procs|
    requires f.cfg == e.cfg && f.tabla == e.tabla && f.swap == e.swap && f.mem == e.mem
    requires f.procs == e.procs[i := f.procs[i]] && f.procs[i].pid == e.procs[i].pid
    ensures pid != e.procs[i].pid ==> Contenido(f, pid, id) == Contenido(e, pid, id)
    ensures ProcesoDe(e.procs, e.procs[i].pid) == Algo(e.procs[i])
    ensures ProcesoDe(f.procs, e.procs[i].pid) == Algo(f.procs[i])
  {
    ProcesoDeCambia(e.procs, i, f.procs[i], pid);
    ProcesoDeCambia(e.procs, i, f.procs[i], e.procs[i].pid);
    ProcesoDeCambia(e.procs, i, e.procs[i], e.procs[i].pid);
    assert e.procs[i := e.procs[i]] == e.procs;
  }

  // ---------------------------------------------------------------- crear_segmento

  function Crear(e: Estado, pid: nat, id: nat, tam: nat): (Estado, Codigo)
  {
    match BuscarProceso(e.procs, pid)
    case Nada => (e, MEMORIA_NO_DISPONIBLE)
    case Algo(i) =>
      if tam > e.cfg.segMax then (e, MEMORIA_NO_DISPONIBLE)
      else match Elegir(e.huecos, tam, e.cfg.mejor)
        case Algo(h) => (ConSegmento(e, i, id, tam, h), MEMORIA_DISPONIBLE)
        case Nada => (e, if e.libre >= tam then COMPACTACION else MEMORIA_NO_DISPONIBLE)
  }

  function ConSegmento(e: Estado, i: nat, id: nat, tam: nat, h: nat): Estado
    requires i < |e.procs| && h < |e.huecos| && tam <= e.huecos[h].limite
  {
    var p := e.procs[i];
    e.(procs := e.procs[i := p.(segs := p.segs + [Segmento(id, e.huecos[h].base, tam)])],
       huecos := Consumir(e.huecos, h, tam),
       libre := e.libre - tam)
  }

  /** What the callers of crear_segmento respect and the code does not check: the process is
      not in swap, the id is new to it and addressable, the size is not zero. */
  ghost predicate PuedeCrear(e: Estado, pid: nat, id: nat, tam: nat)
  {
    tam > 0 && id * e.cfg.segMax < WORD &&
    var r := ProcesoDe(e.procs, pid);
    r.Algo? ==> !r.valor.enSwap && SegmentoDe(r.valor.segs, id).Nada?
  }

  lemma {:induction false} CrearOcupa(e: Estado, i: nat, id: nat, tam: nat, h: nat)
    requires i < |e.procs| && h < |e.huecos| && tam <= e.huecos[h].limite && !e.procs[i].enSwap
    requires Embaldosa(Residentes(e.procs), e.huecos, e.libre, |e.mem|)
    ensures var f := ConSegmento(e, i, id, tam, h);
            Embaldosa(Residentes(f.procs), f.huecos, f.libre, |f.mem|)
  {
    var p := e.procs[i];
    var s := Segmento(id, e.huecos[h].base, tam);
    var q := p.(segs := p.segs + [s]);
    PresentesConcat(p.segs, [s], {});
    assert Presentes([s], {}) == [Sitio(s)];
    SumaConcat(Presentes(p.segs, {}), [Sitio(s)]);
    CambiaProceso(e.procs, i, q, 0);
    forall a: nat
      ensures Veces(Residentes(e.procs[i := q]), a) == Veces(Residentes(e.procs), a) + Rango(e.huecos[h].base, tam).Uno(a)
    {
      CambiaProceso(e.procs, i, q, a);
      VecesConcat(Presentes(p.segs, {}), [Sitio(s)], a);
    }
    Tomar(Residentes(e.procs), Residentes(e.procs[i := q]), e.huecos, h, tam, e.libre, |e.mem|);
  }

  lemma {:induction false} CrearInv(e: Estado, i: nat, id: nat, tam: nat, h: nat)
    requires Inv(e) && i < |e.procs| && h < |e.huecos| && 0 < tam <= e.huecos[h].limite && tam <= e.cfg.segMax
    requires !e.procs[i].enSwap && BuscarSegmento(e.procs[i].segs, id).Nada? && id * e.cfg.segMax < WORD
    ensures Inv(ConSegmento(e, i, id, tam, h))
  {
    var f := ConSegmento(e, i, id, tam, h);
    var segs := e.procs[i].segs;
    CrearOcupa(e, i, id, tam, h);
    assert SegmentosOk(e.cfg, segs);
    SegmentosOkAgrega(e.cfg, segs, Segmento(id, e.huecos[h].base, tam));
    ProcsOkCambia(e.cfg, e.procs, i, f.procs[i]);
    SwapOkCambia(e, f, i);
  }

  lemma {:induction false} CrearContenido(e: Estado, i: nat, id: nat, tam: nat, h: nat, q: nat, k: nat)
    requires ProcsOk(e.cfg, e.procs) && i < |e.procs| && h < |e.huecos| && tam <= e.huecos[h].limite
    requires e.huecos[h].Fin() <= |e.mem| && !e.procs[i].enSwap && BuscarSegmento(e.procs[i].segs, id).Nada?
    ensures var c := Contenido(ConSegmento(e, i, id, tam, h), q, k);
            if (q, k) == (e.procs[i].pid, id) then c.Algo? && |c.valor| == tam else c == Contenido(e, q, k)
  {
    var f := ConSegmento(e, i, id, tam, h);
    ContenidoCambia(e, f, i, q, k);
    assert SegmentosOk(e.cfg, e.procs[i].segs);
    SegmentoDeAgrega(e.procs[i].segs, Segmento(id, e.huecos[h].base, tam), k);
  }

  /** Creation keeps the invariant and the bytes of every other segment; when it succeeds the
      new segment exists with the requested size. */
  lemma {:induction false} CrearMantiene(e: Estado, pid: nat, id: nat, tam: nat)
    requires Inv(e) && PuedeCrear(e, pid, id, tam)
    ensures var (f, c) := Crear(e, pid, id, tam);
      && Inv(f)
      && SoloCambia(e, f, pid, id)
      && (c == MEMORIA_DISPONIBLE ==> Contenido(f, pid, id).Algo? && |Contenido(f, pid, id).valor| == tam)
      && (c != MEMORIA_DISPONIBLE ==> f == e)
  {
    hide Contenido, ConSegmento, SwapOk, Embaldosa, Elegir;
    var (f, c) := Crear(e, pid, id, tam);
    if c == MEMORIA_DISPONIBLE {
      var i := BuscarProceso(e.procs, pid).valor;
      var h := Elegir(e.huecos, tam, e.cfg.mejor).valor;
      HuecoDentro(e, h);
      CrearInv(e, i, id, tam, h);
      forall q: nat, k: nat
        ensures (q, k) != (pid, id) ==> Contenido(f, q, k) == Contenido(e, q, k)
      {
        CrearContenido(e, i, id, tam, h, q, k);
      }
      CrearContenido(e, i, id, tam, h, pid, id);
    }
  }

  lemma HuecoDentro(e: Estado, h: nat)
    requires Embaldosa(Residentes(e.procs), e.huecos, e.libre, |e.mem|) && h < |e.huecos|
    ensures e.huecos[h].Fin() <= |e.mem|
  {
    var a := e.huecos[h].Fin() - 1;
    assert e.huecos[h].limite > 0;
    VecesCero(e.huecos, a);
    assert Veces(Residentes(e.procs), a) + Veces(e.huecos, a) == if a < |e.mem| then 1 else 0;
  }

  // ---------------------------------------------------------------- eliminar_segmento

  function Eliminar(e: Estado, pid: nat, id: nat): (Estado, int)
  {
    match BuscarProceso(e.procs, pid)
    case Nada => (e, -1)
    case Algo(i) =>
      match BuscarSegmento(e.procs[i].segs, id)
      case Nada => (e, -1)
      case Algo(k) => (SinSegmento(e, i, k), 1)
  }

  function SinSegmento(e: Estado, i: nat, k: nat): Estado
    requires i < |e.procs| && k < |e.procs[i].segs|
  {
    var p := e.procs[i];
    e.(procs := e.procs[i := p.(segs := p.segs[..k] + p.segs[k + 1..])],
       huecos := Insertar(e.huecos, Sitio(p.segs[k])),
       libre := e.libre + p.segs[k].limite)
  }

  lemma {:induction false} EliminarDesocupa(e: Estado, i: nat, k: nat)
    requires i < |e.procs| && k < |e.procs[i].segs| && !e.procs[i].enSwap && e.procs[i].segs[k].limite > 0
    requires Embaldosa(Residentes(e.procs), e.huecos, e.libre, |e.mem|)
    ensures var f := SinSegmento(e, i, k);
            Embaldosa(Residentes(f.procs), f.huecos, f.libre, |f.mem|)
  {
    var p := e.procs[i];
    var q := p.(segs := p.segs[..k] + p.segs[k + 1..]);
    var r := Sitio(p.segs[k]);
    CambiaProceso(e.procs, i, q, 0);
    PresentesPartida(p.segs, k, {}, 0);
    forall a: nat ensures Veces(Residentes(e.procs[i := q]), a) + r.Uno(a) == Veces(Residentes(e.procs), a) {
      CambiaProceso(e.procs, i, q, a);
      PresentesPartida(p.segs, k, {}, a);
    }
    Soltar(Residentes(e.procs), Residentes(e.procs[i := q]), e.huecos, r, e.libre, |e.mem|);
  }

  lemma {:induction false} EliminarInv(e: Estado, i: nat, k: nat)
    requires Inv(e) && i < |e.procs| && k < |e.procs[i].segs| && !e.procs[i].enSwap
    ensures Inv(SinSegmento(e, i, k))
  {
    var f := SinSegmento(e, i, k);
    var segs := e.procs[i].segs;
    assert SegmentosOk(e.cfg, segs);
    EliminarDesocupa(e, i, k);
    SegmentosOkQuita(e.cfg, segs, k);
    ProcsOkCambia(e.cfg, e.procs, i, f.procs[i]);
    SwapOkCambia(e, f, i);
  }

  lemma {:induction false} EliminarContenido(e: Estado, i: nat, k: nat, q: nat, j: nat)
    requires ProcsOk(e.cfg, e.procs) && i < |e.procs| && k < |e.procs[i].segs| && !e.procs[i].enSwap
    ensures Contenido(SinSegmento(e, i, k), q, j)
         == if (q, j) == (e.procs[i].pid, e.procs[i].segs[k].id) then Nada else Contenido(e, q, j)
  {
    var f := SinSegmento(e, i, k);
    assert SegmentosOk(e.cfg, e.procs[i].segs);
    ContenidoCambia(e, f, i, q, j);
    SegmentoDeQuita(e.procs[i].segs, k, j);
  }

  /** Deletion, on a process that is not in swap, keeps the invariant, removes that segment
      and keeps the bytes of all the others. */
  lemma {:induction false} EliminarMantiene(e: Estado, pid: nat, id: nat)
    requires Inv(e)
    requires var r := ProcesoDe(e.procs, pid); r.Algo? ==> !r.valor.enSwap
    ensures var (f, c) := Eliminar(e, pid, id);
      && Inv(f)
      && SoloCambia(e, f, pid, id)
      && Contenido(f, pid, id).Nada?
      && (c == 1 <==> Contenido(e, pid, id).Algo?)
  {
    var (f, c) := Eliminar(e, pid, id);
    if c == 1 {
      var i := BuscarProceso(e.procs, pid).valor;
      var k := BuscarSegmento(e.procs[i].segs, id).valor;
      EliminarInv(e, i, k);
      forall q: nat, j: nat
        ensures Contenido(f, q, j) == if (q, j) == (pid, id) then Nada else Contenido(e, q, j)
      {
        EliminarContenido(e, i, k, q, j);
      }
    }
  }

  /** eliminar_segmento does not look at `en_swap`: it keeps the tiling exactly when the
      process is not in swap, because the stale place of a swapped segment is counted free
      while it belongs to nobody. */
  lemma {:induction false} EliminarSoloResidente(e: Estado, pid: nat, id: nat)
    requires Inv(e) && Eliminar(e, pid, id).1 == 1
    ensures Inv(Eliminar(e, pid, id).0) <==> !ProcesoDe(e.procs, pid).valor.enSwap
  {
    var i := BuscarProceso(e.procs, pid).valor;
    var p := e.procs[i];
    if !p.enSwap {
      EliminarMantiene(e, pid, id);
    } else {
      var f := Eliminar(e, pid, id).0;
      var k := BuscarSegmento(p.segs, id).valor;
      CambiaProceso(e.procs, i, f.procs[i], 0);
      InsertarVeces(e.huecos, Sitio(p.segs[k]), 0);
      assert SegmentosOk(e.cfg, p.segs);
      assert Suma(Residentes(f.procs)) + Suma(f.huecos) > |f.mem|;
    }
  }

  // ---------------------------------------------------------------- inicializar_proceso

  function Iniciar(e: Estado, pid: nat): Estado
  {
    e.(procs := e.procs + [Proceso(pid, [], false)])
  }

  lemma {:induction false} IniciarMantiene(e: Estado, pid: nat)
    requires Inv(e) && ProcesoDe(e.procs, pid).Nada?
    ensures Inv(Iniciar(e, pid)) && NadaCambia(e, Iniciar(e, pid))
  {
    var f := Iniciar(e, pid);
    IniciarInv(e, pid);
    forall p: nat, k: nat ensures Contenido(f, p, k) == Contenido(e, p, k) {
      IniciarContenido(e, pid, p, k);
    }
  }

  lemma {:induction false} IniciarContenido(e: Estado, pid: nat, p: nat, k: nat)
    requires PidsDistintos(e.procs) && ProcesoDe(e.procs, pid).Nada?
    ensures Contenido(Iniciar(e, pid), p, k) == Contenido(e, p, k)
  {
    ProcesoDeAgrega(e.procs, Proceso(pid, [], false), p);
  }

  lemma {:induction false} IniciarInv(e: Estado, pid: nat)
    requires Inv(e) && ProcesoDe(e.procs, pid).Nada?
    ensures Inv(Iniciar(e, pid))
  {
    hide Embaldosa, SwapOk, ProcsOk, BuscarProceso, Residentes;
    var n := Proceso(pid, [], false);
    var f := Iniciar(e, pid);
    ResidentesConcat(e.procs, [n]);
    ResidentesVacio(n);
    assert Residentes(f.procs) == Residentes(e.procs);
    AgregarProcsOk(e.cfg, e.procs, n);
    AgregarSwapOk(e, n);
  }

  lemma ResidentesVacio(n: Proceso)
    requires n.segs == [] && !n.enSwap
    ensures Residentes([n]) == []
  {
    var uno: seq<Proceso> := [n];
    assert uno[1..] == [];
  }

  lemma AgregarProcsOk(cfg: Config, procs: seq<Proceso>, n: Proceso)
    requires ProcsOk(cfg, procs) && ProcesoDe(procs, n.pid).Nada? && n.segs == []
    ensures ProcsOk(cfg, procs + [n])
  {
    ProcesoDeAgrega(procs, n, n.pid);
  }

  lemma AgregarSwapOk(e: Estado, n: Proceso)
    requires Inv(e) && ProcesoDe(e.procs, n.pid).Nada? && !n.enSwap
    ensures SwapOk(e.(procs := e.procs + [n]))
  {
    var f := e.(procs := e.procs + [n]);
    forall j | 0 <= j < |f.tabla| ensures BloqueCon(f, j) {
      assert BloqueCon(e, j);
      ProcesoDeAgrega(e.procs, n, f.tabla[j].pid);
    }
    forall i, k | 0 <= i < |f.procs| && f.procs[i].enSwap && 0 <= k < |f.procs[i].segs|
      ensures HayBloque(f.tabla, f.procs[i].pid, f.procs[i].segs[k].id)
    {
      assert f.procs[i] == e.procs[i];
    }
  }

  // ---------------------------------------------------------------- finalizar_proceso

  function Finalizar(e: Estado, pid: nat): Estado
  {
    match BuscarProceso(e.procs, pid)
    case Nada => e
    case Algo(i) =>
      var p := e.procs[i];
      var f := e.(procs := e.procs[..i] + e.procs[i + 1..]);
      if !p.enSwap then
        var xs := Presentes(p.segs, {});
        f.(huecos := LiberarTodos(e.huecos, xs), libre := e.libre + Suma(xs))
      else f.(tabla := LiberarBloques(e.tabla, pid))
  }

  function LiberarBloques(tabla: seq<Bloque>, pid: nat): (t: seq<Bloque>)
    ensures |t| == |tabla|
    ensures forall j :: 0 <= j < |t| ==>
              t[j] == if tabla[j].ocupado && tabla[j].pid == pid then tabla[j].(ocupado := false) else tabla[j]
  {
    seq(|tabla|, j requires 0 <= j < |tabla| =>
      if tabla[j].ocupado && tabla[j].pid == pid then tabla[j].(ocupado := false) else tabla[j])
  }

  lemma {:induction false} PresentesPositivos(segs: seq<Segmento>, fuera: set<nat>)
    requires forall k :: 0 <= k < |segs| ==> segs[k].limite > 0
    ensures forall i :: 0 <= i < |Presentes(segs, fuera)| ==> Presentes(segs, fuera)[i].limite > 0
  {
    if segs != [] {
      PresentesPositivos(segs[1..], fuera);
    }
  }

  lemma {:induction false} FinalizarDesocupa(e: Estado, i: nat)
    requires i < |e.procs| && SegmentosOk(e.cfg, e.procs[i].segs)
    requires Embaldosa(Residentes(e.procs), e.huecos, e.libre, |e.mem|)
    ensures var xs := De(e.procs[i]);
            Embaldosa(Residentes(e.procs[..i] + e.procs[i + 1..]), LiberarTodos(e.huecos, xs), e.libre + Suma(xs), |e.mem|)
  {
    var p := e.procs[i];
    var ps := e.procs[..i] + e.procs[i + 1..];
    QuitaProceso(e.procs, i, 0);
    forall a: nat ensures Veces(Residentes(ps), a) + Veces(De(p), a) == Veces(Residentes(e.procs), a) {
      QuitaProceso(e.procs, i, a);
    }
    PresentesPositivos(p.segs, {});
    SoltarTodos(Residentes(e.procs), Residentes(ps), e.huecos, De(p), e.libre, |e.mem|);
  }

  lemma {:induction false} FinalizarSwapOk(e: Estado, pid: nat)
    requires Inv(e)
    ensures PidsDistintos(Finalizar(e, pid).procs) && SwapOk(Finalizar(e, pid))
  {
    hide Embaldosa, SegmentosOk, Residentes, Presentes, LiberarTodos, Suma, BloqueCon, HayBloque;
    var r := BuscarProceso(e.procs, pid);
    if r.Algo? {
      var i := r.valor;
      var f := Finalizar(e, pid);
      ProcesoDeQuita(e.procs, i, pid);
      forall j | 0 <= j < |f.tabla| ensures BloqueCon(f, j) {
        FinalizarBloque(e, pid, i, j);
      }
      forall n, k | 0 <= n < |f.procs| && f.procs[n].enSwap && 0 <= k < |f.procs[n].segs|
        ensures HayBloque(f.tabla, f.procs[n].pid, f.procs[n].segs[k].id)
      {
        var m := if n < i then n else n + 1;
        assert f.procs[n] == e.procs[m];
        FinalizarHay(e, pid, f.procs[n].pid, f.procs[n].segs[k].id);
      }
    }
  }

  lemma FinalizarBloque(e: Estado, pid: nat, i: nat, j: nat)
    requires BuscarProceso(e.procs, pid) == Algo(i) && PidsDistintos(e.procs) && j < |e.tabla| && BloqueCon(e, j)
    ensures j < |Finalizar(e, pid).tabla| && BloqueCon(Finalizar(e, pid), j)
  {
    hide Presentes, LiberarTodos, Suma;
    ProcesoDeQuita(e.procs, i, e.tabla[j].pid);
  }

  lemma FinalizarHay(e: Estado, pid: nat, q: nat, id: nat)
    requires q != pid && HayBloque(e.tabla, q, id)
    ensures HayBloque(Finalizar(e, pid).tabla, q, id)
  {
    hide Presentes, LiberarTodos, Suma;
    var j :| EsBloque(e.tabla, j, q, id);
    assert EsBloque(Finalizar(e, pid).tabla, j, q, id);
  }

  /** A block that both tables hold for the same segment is the same block. */
  lemma BloqueMismo(t: seq<Bloque>, u: seq<Bloque>, pid: nat, id: nat)
    requires BloquesUnicos(t) && BloquesUnicos(u)
    requires forall j :: EsBloque(t, j, pid, id) <==> EsBloque(u, j, pid, id)
    ensures BloqueDe(t, pid, id) == BloqueDe(u, pid, id)
  {
    if HayBloque(t, pid, id) {
      assert EsBloque(u, BloqueDe(t, pid, id), pid, id);
    }
    if HayBloque(u, pid, id) {
      assert EsBloque(t, BloqueDe(u, pid, id), pid, id);
    }
  }

  lemma FinalizarSegmentos(cfg: Config, procs: seq<Proceso>, i: nat)
    requires ProcsOk(cfg, procs) && i < |procs|
    ensures var ps := procs[..i] + procs[i + 1..];
      forall n :: 0 <= n < |ps| ==> SegmentosOk(cfg, ps[n].segs)
  {
    hide SegmentosOk;
    var ps := procs[..i] + procs[i + 1..];
    forall n | 0 <= n < |ps| ensures SegmentosOk(cfg, ps[n].segs) {
      assert ps[n] == procs[if n < i then n else n + 1];
    }
  }

  /** Ending a process, wherever it is, keeps the invariant. */
  lemma {:induction false} FinalizarInv(e: Estado, pid: nat)
    requires Inv(e)
    ensures Inv(Finalizar(e, pid))
  {
    hide SwapOk, SegmentosOk, Embaldosa, Residentes, Presentes, Insertar, PidsDistintos;
    FinalizarSwapOk(e, pid);
    var r := BuscarProceso(e.procs, pid);
    if r.Algo? {
      FinalizarDesocupa(e, r.valor);
      assert LiberarTodos(e.huecos, []) == e.huecos;
      FinalizarSegmentos(e.cfg, e.procs, r.valor);
    }
  }

  lemma {:induction false} FinalizarContenido(e: Estado, pid: nat, p: nat, k: nat)
    requires PidsDistintos(e.procs) && BloquesUnicos(e.tabla)
    ensures Contenido(Finalizar(e, pid), p, k) == if p == pid then Nada else Contenido(e, p, k)
  {
    hide LiberarTodos, Presentes, Suma, HayBloque, BloqueDe, Tajada;
    var f := Finalizar(e, pid);
    var r := BuscarProceso(e.procs, pid);
    if r.Algo? {
      ProcesoDeQuita(e.procs, r.valor, p);
      if p != pid {
        BloqueMismo(e.tabla, f.tabla, p, k);
        var q := ProcesoDe(e.procs, p);
        if q.Algo? && SegmentoDe(q.valor.segs, k).Algo? {
          assert SegmentoDe(q.valor.segs, k).valor.id == k && q.valor.pid == p;
        }
      }
    }
  }

  /** Ending a process returns all its segments, or all its swap blocks, and touches the bytes
      of no other process. */
  lemma {:induction false} FinalizarMantiene(e: Estado, pid: nat)
    requires Inv(e)
    ensures var f := Finalizar(e, pid);
      && AjenosIguales(e, f, pid)
      && (forall k: nat :: Contenido(f, pid, k).Nada?)
      && (forall j :: 0 <= j < |f.tabla| && f.tabla[j].ocupado ==> f.tabla[j].pid != pid)
  {
    var f := Finalizar(e, pid);
    FinalizarSwapOk(e, pid);
    forall p: nat, k: nat ensures Contenido(f, p, k) == if p == pid then Nada else Contenido(e, p, k) {
      FinalizarContenido(e, pid, p, k);
    }
    forall j | 0 <= j < |f.tabla| && f.tabla[j].ocupado ensures f.tabla[j].pid != pid {
      assert BloqueCon(f, j);
      if BuscarProceso(e.procs, pid).Algo? {
        ProcesoDeQuita(e.procs, BuscarProceso(e.procs, pid).valor, pid);
      }
    }
  }

  // ---------------------------------------------------------------- agregar_memory_stick

  function AgregarStick(e: Estado, bytes: seq<byte>): Estado
  {
    e.(mem := e.mem + bytes,
       huecos := Insertar(e.huecos, Rango(|e.mem|, |bytes|)),
       libre := e.libre + |bytes|)
  }

  lemma {:induction false} AgregarStickEmbaldosa(rs: seq<Rango>, hs: seq<Rango>, libre: int, total: nat, n: nat)
    requires Embaldosa(rs, hs, libre, total) && n > 0
    ensures Embaldosa(rs, Insertar(hs, Rango(total, n)), libre + n, total + n)
  {
    var r := Rango(total, n);
    forall a: nat | r.Tiene(a) ensures Veces(hs, a) == 0 {
      assert Veces(rs, a) + Veces(hs, a) == if a < total then 1 else 0;
    }
    InsertarCanonico(hs, r);
    InsertarVeces(hs, r, 0);
    forall a: nat ensures Veces(rs, a) + Veces(Insertar(hs, r), a) == if a < total + n then 1 else 0 {
      InsertarVeces(hs, r, a);
      assert Veces(rs, a) + Veces(hs, a) == if a < total then 1 else 0;
    }
  }

  lemma AgregarStickContenido(e: Estado, bytes: seq<byte>, p: nat, k: nat)
    requires Inv(e)
    ensures Contenido(AgregarStick(e, bytes), p, k) == Contenido(e, p, k)
  {
    var q := ProcesoDe(e.procs, p);
    if q.Algo? && !q.valor.enSwap && SegmentoDe(q.valor.segs, k).Algo? {
      var s := SegmentoDe(q.valor.segs, k).valor;
      ResidenteDentro(e, BuscarProceso(e.procs, p).valor, BuscarSegmento(q.valor.segs, k).valor);
      assert (e.mem + bytes)[s.base..s.base + s.limite] == e.mem[s.base..s.base + s.limite];
    }
  }

  lemma AgregarStickInv(e: Estado, bytes: seq<byte>)
    requires Inv(e) && bytes != [] && |e.mem| + |bytes| + e.cfg.segMax <= WORD
    ensures Inv(AgregarStick(e, bytes))
  {
    var f := AgregarStick(e, bytes);
    AgregarStickEmbaldosa(Residentes(e.procs), e.huecos, e.libre, |e.mem|, |bytes|);
    forall j | 0 <= j < |f.tabla| ensures BloqueCon(f, j) {
      assert BloqueCon(e, j);
    }
  }

  /** A new stick only adds free bytes after the existing ones. */
  lemma {:induction false} AgregarStickMantiene(e: Estado, bytes: seq<byte>)
    requires Inv(e) && bytes != [] && |e.mem| + |bytes| + e.cfg.segMax <= WORD
    ensures Inv(AgregarStick(e, bytes)) && NadaCambia(e, AgregarStick(e, bytes))
  {
    AgregarStickInv(e, bytes);
    forall p: nat, k: nat ensures Contenido(AgregarStick(e, bytes), p, k) == Contenido(e, p, k) {
      AgregarStickContenido(e, bytes, p, k);
    }
  }

  // ---------------------------------------------------------------- where a segment lies

  lemma {:induction false} PresentesTiene(segs: seq<Segmento>, k: nat) returns (n: nat)
    requires k < |segs|
    ensures |Presentes(segs, {})| == |segs| && n == k && Presentes(segs, {})[k] == Sitio(segs[k])
  {
    n := k;
    if k > 0 {
      var m := PresentesTiene(segs[1..], k - 1);
    } else if |segs| > 1 {
      var m := PresentesTiene(segs[1..], 0);
    }
  }

  /** Position of a resident segment in the list of resident places. */
  lemma {:induction false} ResidentesTiene(procs: seq<Proceso>, i: nat, k: nat) returns (n: nat)
    requires i < |procs| && !procs[i].enSwap && k < |procs[i].segs|
    ensures n == Puesto(procs, i, k) < |Residentes(procs)| && Residentes(procs)[n] == Sitio(procs[i].segs[k])
  {
    if i == 0 {
      n := PresentesTiene(procs[0].segs, k);
    } else {
      var m := ResidentesTiene(procs[1..], i - 1, k);
      n := |De(procs[0])| + m;
    }
  }

  function Puesto(procs: seq<Proceso>, i: nat, k: nat): nat
    requires i < |procs|
  {
    if i == 0 then k else |De(procs[0])| + Puesto(procs[1..], i - 1, k)
  }

  lemma {:induction false} PuestoInyectivo(procs: seq<Proceso>, i: nat, k: nat, j: nat, m: nat)
    requires i < |procs| && j < |procs| && !procs[i].enSwap && !procs[j].enSwap
    requires k < |procs[i].segs| && m < |procs[j].segs|
    requires (i, k) != (j, m)
    ensures Puesto(procs, i, k) != Puesto(procs, j, m)
  {
    if i == 0 && k < |procs[0].segs| { var n := PresentesTiene(procs[0].segs, k); }
    if j == 0 && m < |procs[0].segs| { var n := PresentesTiene(procs[0].segs, m); }
    if i > 0 && j > 0 {
      PuestoInyectivo(procs[1..], i - 1, k, j - 1, m);
    }
  }

  lemma {:induction false} ResidenteDentro(e: Estado, i: nat, k: nat)
    requires Inv(e) && i < |e.procs| && !e.procs[i].enSwap && k < |e.procs[i].segs|
    ensures e.procs[i].segs[k].base + e.procs[i].segs[k].limite <= |e.mem|
  {
    assert SegmentosOk(e.cfg, e.procs[i].segs);
    var n := ResidentesTiene(e.procs, i, k);
    Dentro(Residentes(e.procs), e.huecos, e.libre, |e.mem|, n);
  }

  /** Two different resident segments, of one process or of two, share no address. */
  lemma {:induction false} ResidentesDisjuntos(e: Estado, i: nat, k: nat, j: nat, m: nat)
    requires Inv(e) && i < |e.procs| && j < |e.procs| && !e.procs[i].enSwap && !e.procs[j].enSwap
    requires k < |e.procs[i].segs| && m < |e.procs[j].segs| && (i, k) != (j, m)
    ensures Sitio(e.procs[i].segs[k]).Fin() <= e.procs[j].segs[m].base
         || Sitio(e.procs[j].segs[m]).Fin() <= e.procs[i].segs[k].base
  {
    assert SegmentosOk(e.cfg, e.procs[i].segs) && SegmentosOk(e.cfg, e.procs[j].segs);
    var a := ResidentesTiene(e.procs, i, k);
    var b := ResidentesTiene(e.procs, j, m);
    PuestoInyectivo(e.procs, i, k, j, m);
    Dentro(Residentes(e.procs), e.huecos, e.libre, |e.mem|, a);
  }

  // ---------------------------------------------------------------- writing through the table

  /** escribir_bytes_en_memoria, and what a CPU writes: the bytes go to the segment that
      contains the logical range; a range outside it changes nothing. */
  ghost function Escribir(e: Estado, pid: nat, dir: nat, datos: seq<byte>): (Estado, bool)
    requires Inv(e)
    requires var r := ProcesoDe(e.procs, pid); r.Algo? ==> !r.valor.enSwap
  {
    match BuscarProceso(e.procs, pid)
    case Nada => (e, false)
    case Algo(i) =>
      var segs := e.procs[i].segs;
      if EnSegmento(dir, e.cfg.segMax, segs, |datos|) then
        var k := BuscarSegmento(segs, dir / e.cfg.segMax).valor;
        ResidenteDentro(e, i, k);
        (e.(mem := Pisar(e.mem, segs[k].base + dir % e.cfg.segMax, datos)), true)
      else (e, false)
  }

  lemma TajadaPisada(f: seq<byte>, b: nat, l: nat, o: nat, d: seq<byte>)
    requires b + l <= |f| && o + |d| <= l
    ensures Pisar(f, b + o, d)[b..b + l] == Pisar(f[b..b + l], o, d)
  {
    assert Pisar(f[b..b + l], o, d) == f[b..b + l][..o] + d + f[b..b + l][o + |d|..];
    assert f[b..b + l][..o] == f[b..b + o];
    assert f[b..b + l][o + |d|..] == f[b + o + |d|..b + l];
  }

  lemma TajadaAjena(f: seq<byte>, b: nat, l: nat, dir: nat, d: seq<byte>)
    requires dir + |d| <= |f| && (b + l <= dir || dir + |d| <= b)
    ensures Tajada(Pisar(f, dir, d), b, l) == Tajada(f, b, l)
  {
    var g := Pisar(f, dir, d);
    if b + l <= |f| {
      assert forall j :: b <= j < b + l ==> g[j] == f[j];
    }
  }

  lemma {:induction false} EscribirAjenos(e: Estado, i: nat, k: nat, o: nat, datos: seq<byte>, p: nat, m: nat)
    requires Inv(e) && i < |e.procs| && !e.procs[i].enSwap && k < |e.procs[i].segs|
    requires o + |datos| <= e.procs[i].segs[k].limite
    requires e.procs[i].segs[k].base + o + |datos| <= |e.mem|
    requires (p, m) != (e.procs[i].pid, e.procs[i].segs[k].id)
    ensures var f := e.(mem := Pisar(e.mem, e.procs[i].segs[k].base + o, datos));
            Contenido(f, p, m) == Contenido(e, p, m)
  {
    var q := ProcesoDe(e.procs, p);
    if q.Algo? && !q.valor.enSwap && SegmentoDe(q.valor.segs, m).Algo? {
      var j, n := BuscarProceso(e.procs, p).valor, BuscarSegmento(q.valor.segs, m).valor;
      ResidentesDisjuntos(e, i, k, j, n);
      TajadaAjena(e.mem, q.valor.segs[n].base, q.valor.segs[n].limite, e.procs[i].segs[k].base + o, datos);
    }
  }

  lemma EscribirPropio(e: Estado, i: nat, k: nat, o: nat, datos: seq<byte>)
    requires PidsDistintos(e.procs) && i < |e.procs| && !e.procs[i].enSwap && k < |e.procs[i].segs|
    requires IdsDistintos(e.procs[i].segs)
    requires o + |datos| <= e.procs[i].segs[k].limite
    requires e.procs[i].segs[k].base + e.procs[i].segs[k].limite <= |e.mem|
    ensures var f := e.(mem := Pisar(e.mem, e.procs[i].segs[k].base + o, datos));
            var c := Contenido(e, e.procs[i].pid, e.procs[i].segs[k].id);
            c.Algo? && |c.valor| == e.procs[i].segs[k].limite
            && Contenido(f, e.procs[i].pid, e.procs[i].segs[k].id) == Algo(Pisar(c.valor, o, datos))
  {
    TajadaPisada(e.mem, e.procs[i].segs[k].base, e.procs[i].segs[k].limite, o, datos);
    assert BuscarProceso(e.procs, e.procs[i].pid) == Algo(i);
    assert BuscarSegmento(e.procs[i].segs, e.procs[i].segs[k].id) == Algo(k);
  }

  lemma EscribirInv(e: Estado, dir: nat, datos: seq<byte>)
    requires Inv(e) && dir + |datos| <= |e.mem|
    ensures Inv(e.(mem := Pisar(e.mem, dir, datos)))
  {
    var f := e.(mem := Pisar(e.mem, dir, datos));
    forall j | 0 <= j < |f.tabla| ensures BloqueCon(f, j) {
      assert BloqueCon(e, j);
    }
  }

  /** Isolation: a write inside a segment changes exactly the addressed bytes of that segment,
      and no byte of any other segment of any process. */
  lemma {:induction false} EscribirAislada(e: Estado, pid: nat, dir: nat, datos: seq<byte>)
    requires Inv(e)
    requires ProcesoDe(e.procs, pid).Algo? && !ProcesoDe(e.procs, pid).valor.enSwap
    ensures var (f, ok) := Escribir(e, pid, dir, datos);
      var id := dir / e.cfg.segMax;
      var o := dir % e.cfg.segMax;
      && Inv(f)
      && (ok <==> Contenido(e, pid, id).Algo? && o + |datos| <= |Contenido(e, pid, id).valor|)
      && (!ok ==> f == e)
      && SoloCambia(e, f, pid, id)
      && (ok ==> Contenido(f, pid, id) == Algo(Pisar(Contenido(e, pid, id).valor, o, datos)))
  {
    hide SwapOk, Embaldosa, Pisar, SoloCambia;
    var i := BuscarProceso(e.procs, pid).valor;
    var r := BuscarSegmento(e.procs[i].segs, dir / e.cfg.segMax);
    if r.Algo? {
      ResidenteDentro(e, i, r.valor);
      assert |Tajada(e.mem, e.procs[i].segs[r.valor].base, e.procs[i].segs[r.valor].limite)| == e.procs[i].segs[r.valor].limite;
      if dir % e.cfg.segMax + |datos| <= e.procs[i].segs[r.valor].limite {
        EscribirEn(e, i, r.valor, dir % e.cfg.segMax, datos, Escribir(e, pid, dir, datos).0);
      }
    }
    SoloCambiaReflexiva(e, pid, dir / e.cfg.segMax);
  }

  lemma SoloCambiaReflexiva(e: Estado, pid: nat, id: nat)
    ensures SoloCambia(e, e, pid, id)
  {
  }

  lemma EscribirEn(e: Estado, i: nat, k: nat, o: nat, datos: seq<byte>, f: Estado)
    requires Inv(e) && i < |e.procs| && !e.procs[i].enSwap && k < |e.procs[i].segs|
    requires o + |datos| <= e.procs[i].segs[k].limite
    requires e.procs[i].segs[k].base + e.procs[i].segs[k].limite <= |e.mem|
    requires f == e.(mem := Pisar(e.mem, e.procs[i].segs[k].base + o, datos))
    ensures Inv(f) && SoloCambia(e, f, e.procs[i].pid, e.procs[i].segs[k].id)
    ensures var c := Contenido(e, e.procs[i].pid, e.procs[i].segs[k].id);
      c.Algo? && |c.valor| == e.procs[i].segs[k].limite
      && Contenido(f, e.procs[i].pid, e.procs[i].segs[k].id) == Algo(Pisar(c.valor, o, datos))
  {
    hide Contenido;
    EscribirInv(e, e.procs[i].segs[k].base + o, datos);
    assert SegmentosOk(e.cfg, e.procs[i].segs);
    EscribirPropio(e, i, k, o, datos);
    forall p: nat, m: nat | (p, m) != (e.procs[i].pid, e.procs[i].segs[k].id)
      ensures Contenido(f, p, m) == Contenido(e, p, m)
    {
      EscribirAjenos(e, i, k, o, datos, p, m);
    }
  }
}
