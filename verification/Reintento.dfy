/** What other requests can do to the memory between a compaction and the retry of the request
    that asked for it: `solicitar_segmento_memory` of kernel_scheduler/src/utils_scheduler.c
    releases the socket's mutex before it calls itself again. */
module Reintento {
  import opened Secuencias
  import opened Rangos
  import opened Mmu
  import opened Memoria
  import opened Asignador
  import opened Compactacion
  import opened Swap
  import opened Suspension
  import opened Desuspension
  import opened Corridas

  /** A request that may take memory, or that takes the caller away. */
  predicate Estorba(r: Pedido, pid: nat)
  {
    r.PCrear? || r.PDesuspender? || r == PFinalizar(pid)
  }

  ghost predicate HayHueco(hs: seq<Rango>, tam: nat)
  {
    exists i :: 0 <= i < |hs| && hs[i].limite >= tam
  }

  lemma HayElegido(hs: seq<Rango>, tam: nat, mejor: bool)
    ensures HayHueco(hs, tam) <==> Elegir(hs, tam, mejor).Algo?
  {
    ElegirCorrecto(hs, |hs|, tam, mejor);
  }

  // ---------------------------------------------------------------- holes only grow

  lemma SiguienteHueco(n: Rango, der: seq<Rango>, tam: nat)
    ensures HayHueco(der, tam) || n.limite >= tam ==> HayHueco(UnirSiguiente(n, der), tam)
  {
    var r := UnirSiguiente(n, der);
    if n.limite >= tam {
      assert r[0].limite >= tam;
    } else if HayHueco(der, tam) {
      var i :| 0 <= i < |der| && der[i].limite >= tam;
      if der != [] && n.Fin() == der[0].base {
        assert r[i].limite >= tam;
      } else {
        assert r[i + 1].limite >= tam;
      }
    }
  }

  lemma AnteriorHueco(izq: seq<Rango>, der: seq<Rango>, tam: nat)
    requires der != []
    ensures HayHueco(izq, tam) || HayHueco(der, tam) ==> HayHueco(UnirAnterior(izq, der), tam)
  {
    var r := UnirAnterior(izq, der);
    var k := |izq|;
    if HayHueco(izq, tam) {
      var i :| 0 <= i < |izq| && izq[i].limite >= tam;
      assert r[i].limite >= tam;
    } else if HayHueco(der, tam) {
      var i :| 0 <= i < |der| && der[i].limite >= tam;
      if k > 0 && izq[k - 1].Fin() == der[0].base {
        assert r[k - 1 + i].limite >= tam;
      } else {
        assert r[k + i].limite >= tam;
      }
    }
  }

  /** Freeing a range does not make the holes smaller. */
  lemma InsertarHueco(hs: seq<Rango>, n: Rango, tam: nat)
    requires HayHueco(hs, tam)
    ensures HayHueco(Insertar(hs, n), tam)
  {
    var p := Posicion(hs, n.base);
    var i :| 0 <= i < |hs| && hs[i].limite >= tam;
    if i < p {
      assert hs[..p][i].limite >= tam;
    } else {
      assert hs[p..][i - p].limite >= tam;
    }
    SiguienteHueco(n, hs[p..], tam);
    AnteriorHueco(hs[..p], UnirSiguiente(n, hs[p..]), tam);
  }

  lemma {:induction false} LiberarHueco(hs: seq<Rango>, xs: seq<Rango>, tam: nat)
    requires HayHueco(hs, tam)
    ensures HayHueco(LiberarTodos(hs, xs), tam)
    decreases |xs|
  {
    if xs != [] {
      InsertarHueco(hs, xs[0], tam);
      LiberarHueco(Insertar(hs, xs[0]), xs[1..], tam);
    }
  }

  lemma {:induction false} SuspenderHueco(e: Estado, i: nat, k: nat, bytes: nat, tam: nat)
    requires i < |e.procs| && k <= |e.procs[i].segs| && HayHueco(e.huecos, tam)
    ensures HayHueco(SuspenderDesde(e, i, k, bytes).estado.huecos, tam)
    decreases |e.procs[i].segs| - k
  {
    hide HayHueco, Insertar, EscribirBloque, Tajada;
    if k < |e.procs[i].segs| && e.procs[i].segs[k].limite <= e.cfg.bloque && PrimerLibre(e.tabla, 0).Algo? {
      var j := PrimerLibre(e.tabla, 0).valor;
      InsertarHueco(e.huecos, Sitio(e.procs[i].segs[k]), tam);
      SuspenderHueco(Guardar(e, i, k, j), i, k + 1, bytes + e.procs[i].segs[k].limite, tam);
    }
  }

  lemma {:induction false} CabeEnSuma(hs: seq<Rango>, i: nat)
    requires i < |hs|
    ensures hs[i].limite <= Suma(hs)
  {
    if i > 0 {
      CabeEnSuma(hs[1..], i - 1);
    }
  }

  /** After a compaction there is a hole of any size that some hole had. */
  lemma CompactarHueco(e: Estado, tam: nat)
    requires Inv(e) && HayHueco(e.huecos, tam)
    ensures HayHueco(Compactar(e).huecos, tam)
  {
    hide Inv, Compactar;
    CompactarResumen(e, Compactar(e), 0);
    var i :| 0 <= i < |e.huecos| && e.huecos[i].limite >= tam;
    LibreEsSuma(e);
    CabeEnSuma(e.huecos, i);
    LimitePositivo(e, i);
    assert Compactar(e).huecos[0].limite >= tam;
  }

  lemma LibreEsSuma(e: Estado)
    requires Inv(e)
    ensures e.libre == Suma(e.huecos)
  {
  }

  lemma LimitePositivo(e: Estado, i: nat)
    requires Inv(e) && i < |e.huecos|
    ensures e.huecos[i].limite > 0
  {
  }

  // ---------------------------------------------------------------- requests in between

  /** A request that does not stand in the way leaves the hole, and the caller's process. */
  lemma AtenderHueco(e: Estado, r: Pedido, pid: nat, tam: nat)
    requires Inv(e) && Admite(e, r) && !Estorba(r, pid) && HayHueco(e.huecos, tam)
    ensures HayHueco(Atender(e, r).huecos, tam)
  {
    hide Inv, HayHueco, Insertar, Compactar;
    match r
    case PIniciar(p) =>
    case PEliminar(p, k) =>
      var i := BuscarProceso(e.procs, p);
      if i.Algo? && BuscarSegmento(e.procs[i.valor].segs, k).Algo? {
        InsertarHueco(e.huecos, Sitio(e.procs[i.valor].segs[BuscarSegmento(e.procs[i.valor].segs, k).valor]), tam);
      }
    case PFinalizar(p) =>
      var i := BuscarProceso(e.procs, p);
      if i.Algo? {
        LiberarHueco(e.huecos, Presentes(e.procs[i.valor].segs, {}), tam);
      }
    case PSuspender(p) =>
      var i := BuscarProceso(e.procs, p);
      if i.Algo? {
        SuspenderHueco(e, i.valor, 0, 0, tam);
      }
    case PCompactar => CompactarHueco(e, tam);
    case PStick(bytes) => InsertarHueco(e.huecos, Rango(|e.mem|, |bytes|), tam);
    case PEscribir(p, dir, datos) => EscribirSoloMem(e, p, dir, datos);
  }

  lemma EscribirSoloMem(e: Estado, p: nat, dir: nat, datos: seq<byte>)
    requires Inv(e) && EnMemoria(e, p)
    ensures Escribir(e, p, dir, datos).0.huecos == e.huecos && Escribir(e, p, dir, datos).0.procs == e.procs
  {
  }

  lemma AtenderQueda(e: Estado, r: Pedido, pid: nat)
    requires Inv(e) && Admite(e, r) && !Estorba(r, pid) && ProcesoDe(e.procs, pid).Algo?
    ensures ProcesoDe(Atender(e, r).procs, pid).Algo?
  {
    hide SwapOk, Embaldosa, SegmentosOk, Insertar, SuspenderDesde, BuscarSegmento, Compactar, LiberarTodos, Presentes, Suma;
    match r
    case PIniciar(p) => ProcesoDeAgrega(e.procs, Proceso(p, [], false), pid);
    case PEliminar(p, k) =>
      var i := BuscarProceso(e.procs, p);
      if i.Algo? {
        ProcesoDeCambia(e.procs, i.valor, Eliminar(e, p, k).0.procs[i.valor], pid);
      }
    case PFinalizar(p) =>
      var i := BuscarProceso(e.procs, p);
      if i.Algo? {
        ProcesoDeQuita(e.procs, i.valor, pid);
      }
    case PSuspender(p) =>
      var i := BuscarProceso(e.procs, p);
      if i.Algo? {
        SuspenderProcs(e, i.valor, 0, 0);
        ProcesoDeCambia(e.procs, i.valor, e.procs[i.valor].(enSwap := true), pid);
      }
    case PCompactar => CompactarResumen(e, Compactar(e), pid);
    case PStick(bytes) =>
    case PEscribir(p, dir, datos) => EscribirSoloMem(e, p, dir, datos);
  }

  lemma {:induction false} SuspenderProcs(e: Estado, i: nat, k: nat, bytes: nat)
    requires i < |e.procs| && k <= |e.procs[i].segs|
    ensures var ps := SuspenderDesde(e, i, k, bytes).estado.procs;
      ps == e.procs || ps == e.procs[i := e.procs[i].(enSwap := true)]
    decreases |e.procs[i].segs| - k
  {
    hide Guardar;
    if k < |e.procs[i].segs| && e.procs[i].segs[k].limite <= e.cfg.bloque && PrimerLibre(e.tabla, 0).Algo? {
      SuspenderProcs(Guardar(e, i, k, PrimerLibre(e.tabla, 0).valor), i, k + 1, bytes + e.procs[i].segs[k].limite);
    }
  }

  lemma {:induction false} CorrerHueco(e: Estado, rs: seq<Pedido>, pid: nat, tam: nat)
    requires Inv(e) && Posible(e, rs) && HayHueco(e.huecos, tam) && ProcesoDe(e.procs, pid).Algo?
    requires forall n :: 0 <= n < |rs| ==> !Estorba(rs[n], pid)
    ensures var f := Correr(e, rs);
      f.cfg == e.cfg && HayHueco(f.huecos, tam) && ProcesoDe(f.procs, pid).Algo?
    decreases |rs|
  {
    hide HayHueco, Estorba;
    if rs != [] {
      AtenderInv(e, rs[0]);
      AtenderHueco(e, rs[0], pid, tam);
      AtenderQueda(e, rs[0], pid);
      CorrerHueco(Atender(e, rs[0]), rs[1..], pid, tam);
    }
  }

  /** The retry is granted, and there is no blue screen, whatever other requests come in between,
      as long as they take no memory and do not end the process. */
  lemma {:induction false} ReintentoConOtros(e: Estado, pid: nat, id: nat, tam: nat, rs: seq<Pedido>)
    requires Inv(e) && tam > 0 && Crear(e, pid, id, tam).1 == COMPACTACION
    requires Inv(Compactar(e)) && Posible(Compactar(e), rs)
    requires forall n :: 0 <= n < |rs| ==> !Estorba(rs[n], pid)
    ensures Crear(Correr(Compactar(e), rs), pid, id, tam).1 == MEMORIA_DISPONIBLE
  {
    hide Inv, Compactar, HayHueco, Elegir;
    var f := Compactar(e);
    ReintentoTrasCompactar(e, pid, id, tam);
    CompactarResumen(e, f, pid);
    HayElegido(f.huecos, tam, f.cfg.mejor);
    CorrerHueco(f, rs, pid, tam);
    var g := Correr(f, rs);
    HayElegido(g.huecos, tam, g.cfg.mejor);
    CfgIgual(e);
  }

  lemma CfgIgual(e: Estado)
    requires Inv(e)
    ensures Compactar(e).cfg == e.cfg
  {
  }

  /** One request of another process in between, for `otro` bytes: the retry is granted exactly if
      both fit in the free memory.  If not, the blue screen is reached. */
  lemma {:induction false} ReintentoRobado(e: Estado, pid: nat, id: nat, tam: nat, q: nat, k: nat, otro: nat)
    requires Inv(e) && tam > 0 && Crear(e, pid, id, tam).1 == COMPACTACION
    requires otro > 0 && Crear(Compactar(e), q, k, otro).1 == MEMORIA_DISPONIBLE
    ensures Crear(Crear(Compactar(e), q, k, otro).0, pid, id, tam).1 ==
      if tam + otro <= e.libre then MEMORIA_DISPONIBLE else MEMORIA_NO_DISPONIBLE
  {
    hide Inv, Compactar, UnHueco, Consumir, Elegir, BuscarProceso;
    var f := Compactar(e);
    CompactarResumen(e, f, pid);
    CfgIgual(e);
    LibreCompacta(e);
    var fin := |e.mem| - e.libre;
    ElegirUnHueco(fin, e.libre, otro, e.cfg.mejor);
    ConsumirUnHueco(fin, e.libre, otro);
    ElegirUnHueco(fin + otro, e.libre - otro, tam, e.cfg.mejor);
    var i := BuscarProceso(f.procs, q).valor;
    SigueEstando(f.procs, i, Crear(f, q, k, otro).0.procs[i], pid);
  }

  lemma LibreCompacta(e: Estado)
    requires Inv(e)
    ensures Compactar(e).libre == e.libre
  {
    CompactarMantiene(e);
  }

  lemma ElegirUnHueco(fin: nat, libre: nat, tam: nat, mejor: bool)
    requires tam > 0
    ensures Elegir(UnHueco(fin, libre), tam, mejor) == if tam <= libre then Algo(0) else Nada
  {
    if libre > 0 {
      ElegirUnico(tam, mejor, Rango(fin, libre));
    }
  }

  lemma ConsumirUnHueco(fin: nat, libre: nat, tam: nat)
    requires 0 < tam <= libre
    ensures |UnHueco(fin, libre)| == 1 && UnHueco(fin, libre)[0].limite == libre
    ensures Consumir(UnHueco(fin, libre), 0, tam) == UnHueco(fin + tam, libre - tam)
  {
  }

  lemma SigueEstando(procs: seq<Proceso>, i: nat, p: Proceso, pid: nat)
    requires i < |procs| && p.pid == procs[i].pid
    ensures BuscarProceso(procs[i := p], pid).Algo? <==> BuscarProceso(procs, pid).Algo?
  {
    var r, s := BuscarProceso(procs, pid), BuscarProceso(procs[i := p], pid);
    if r.Algo? {
      assert procs[i := p][r.valor].pid == pid;
    }
    if s.Algo? {
      assert procs[s.valor].pid == pid;
    }
  }
}
