/** Runs of the kernel memory module: any sequence of the requests that
    kernel_memory/src/memory.c dispatches, each one under what its callers respect. */
module Corridas {
  import opened Secuencias
  import opened Rangos
  import opened Mmu
  import opened Memoria
  import opened Asignador
  import opened Compactacion
  import opened Swap
  import opened Suspension
  import opened Desuspension

  datatype Pedido =
    | PIniciar(pid: nat)
    | PCrear(pid: nat, id: nat, tam: nat)
    | PEliminar(pid: nat, id: nat)
    | PFinalizar(pid: nat)
    | PSuspender(pid: nat)
    | PDesuspender(pid: nat)
    | PCompactar
    | PStick(bytes: seq<byte>)
    | PEscribir(pid: nat, dir: nat, datos: seq<byte>)

  ghost predicate EnMemoria(e: Estado, pid: nat)
  {
    var r := ProcesoDe(e.procs, pid); r.Algo? ==> !r.valor.enSwap
  }

  /** The swap file takes the process whole, or refuses it before its first segment. */
  ghost predicate SaleEntero(e: Estado, pid: nat)
  {
    var r := ProcesoDe(e.procs, pid);
    r.Algo? && r.valor.segs != [] ==>
      || (|r.valor.segs| <= Libres(e.tabla) && Caben(e.cfg, r.valor.segs, 0))
      || r.valor.segs[0].limite > e.cfg.bloque
      || Libres(e.tabla) == 0
  }

  /** The holes take the process whole, or its first block has no place. */
  ghost predicate VuelveEntero(e: Estado, pid: nat)
  {
    var js := Bloques(e.tabla, pid);
    js != [] ==>
      || SimularProceso(e, pid).Algo?
      || (assert js[0] in js; Elegir(e.huecos, e.tabla[js[0]].tam, e.cfg.mejor).Nada?)
  }

  /** What a request needs so that the module stays consistent. */
  ghost predicate Admite(e: Estado, r: Pedido)
  {
    match r
    case PIniciar(pid) => ProcesoDe(e.procs, pid).Nada?
    case PCrear(pid, id, tam) => PuedeCrear(e, pid, id, tam)
    case PEliminar(pid, id) => EnMemoria(e, pid)
    case PFinalizar(pid) => true
    case PSuspender(pid) => EnMemoria(e, pid) && SaleEntero(e, pid)
    case PDesuspender(pid) => VuelveEntero(e, pid)
    case PCompactar => true
    case PStick(bytes) => bytes != [] && |e.mem| + |bytes| + e.cfg.segMax <= WORD
    case PEscribir(pid, dir, datos) => EnMemoria(e, pid)
  }

  ghost function Atender(e: Estado, r: Pedido): Estado
    requires Inv(e) && Admite(e, r)
  {
    match r
    case PIniciar(pid) => Iniciar(e, pid)
    case PCrear(pid, id, tam) => Crear(e, pid, id, tam).0
    case PEliminar(pid, id) => Eliminar(e, pid, id).0
    case PFinalizar(pid) => Finalizar(e, pid)
    case PSuspender(pid) => Suspender(e, pid).estado
    case PDesuspender(pid) => Desuspender(e, pid).estado
    case PCompactar => Compactar(e)
    case PStick(bytes) => AgregarStick(e, bytes)
    case PEscribir(pid, dir, datos) => Escribir(e, pid, dir, datos).0
  }

  /** The requests that are about the bytes of segment `id` of process `pid`. */
  predicate Toca(segMax: nat, r: Pedido, pid: nat, id: nat)
    requires segMax > 0
  {
    match r
    case PCrear(p, k, tam) => p == pid && k == id
    case PEliminar(p, k) => p == pid && k == id
    case PFinalizar(p) => p == pid
    case PEscribir(p, dir, datos) => p == pid && dir / segMax == id
    case PIniciar(p) => false
    case PSuspender(p) => false
    case PDesuspender(p) => false
    case PCompactar => false
    case PStick(bytes) => false
  }

  lemma {:induction false} SuspenderPedido(e: Estado, pid: nat)
    requires Inv(e) && EnMemoria(e, pid)
    ensures Inv(Suspender(e, pid).estado) <==> SaleEntero(e, pid)
    ensures SaleEntero(e, pid) ==> NadaCambia(e, Suspender(e, pid).estado)
    ensures Suspender(e, pid).estado.cfg == e.cfg
  {
    if ProcesoDe(e.procs, pid).Algo? {
      SuspenderMantiene(e, pid);
      var i := BuscarProceso(e.procs, pid).valor;
      SuspenderCuenta(e, i, 0, 0, Suspender(e, pid));
      if Suspender(e, pid).codigo != SUSPEND_OK {
        SuspenderFalla(e, pid);
        LibresCero(e.tabla);
      }
    }
  }

  lemma {:induction false} DesuspenderPedido(e: Estado, pid: nat)
    requires Inv(e)
    ensures Inv(Desuspender(e, pid).estado) <==> VuelveEntero(e, pid)
    ensures VuelveEntero(e, pid) ==> NadaCambia(e, Desuspender(e, pid).estado)
    ensures Desuspender(e, pid).estado.cfg == e.cfg
  {
    var v := Desuspender(e, pid);
    BloquesDeQuien(e, pid);
    if ProcesoDe(e.procs, pid).Algo? {
      var i := BuscarProceso(e.procs, pid).valor;
      SimularProcesoExacta(e, i, v, SimularProceso(e, pid));
      var fuera := DesuspenderEmpieza(e, i);
      ReponerCuenta(e, i, Bloques(e.tabla, pid), fuera, ReponerTodos(e, i, Bloques(e.tabla, pid)));
    }
    if v.codigo == DESUSPEND_OK {
      DesuspenderMantiene(e, pid, v);
    } else {
      DesuspenderFalla(e, pid, v);
    }
  }

  /** One request keeps the invariant. */
  lemma {:induction false} AtenderInv(e: Estado, r: Pedido)
    requires Inv(e) && Admite(e, r)
    ensures Inv(Atender(e, r)) && Atender(e, r).cfg == e.cfg
  {
    match r
    case PIniciar(pid) => IniciarMantiene(e, pid);
    case PCrear(pid, id, tam) => CrearMantiene(e, pid, id, tam);
    case PEliminar(pid, id) => EliminarMantiene(e, pid, id);
    case PFinalizar(pid) => FinalizarInv(e, pid);
    case PSuspender(pid) => SuspenderPedido(e, pid);
    case PDesuspender(pid) => DesuspenderPedido(e, pid);
    case PCompactar => CompactarMantiene(e);
    case PStick(bytes) => AgregarStickMantiene(e, bytes);
    case PEscribir(pid, dir, datos) => EscribirPedido(e, pid, dir, datos);
  }

  lemma EscribirPedido(e: Estado, pid: nat, dir: nat, datos: seq<byte>)
    requires Inv(e) && EnMemoria(e, pid)
    ensures var f := Escribir(e, pid, dir, datos).0;
      Inv(f) && f.cfg == e.cfg && SoloCambia(e, f, pid, dir / e.cfg.segMax)
  {
    if ProcesoDe(e.procs, pid).Algo? {
      EscribirAislada(e, pid, dir, datos);
    }
  }

  /** One request keeps the bytes of every segment it is not about. */
  lemma {:induction false} AtenderContenido(e: Estado, r: Pedido, pid: nat, id: nat)
    requires Inv(e) && Admite(e, r) && !Toca(e.cfg.segMax, r, pid, id)
    ensures Contenido(Atender(e, r), pid, id) == Contenido(e, pid, id)
  {
    match r
    case PIniciar(p) => IniciarMantiene(e, p);
    case PCrear(p, k, tam) => CrearMantiene(e, p, k, tam);
    case PEliminar(p, k) => EliminarMantiene(e, p, k);
    case PFinalizar(p) => FinalizarMantiene(e, p);
    case PSuspender(p) => SuspenderPedido(e, p);
    case PDesuspender(p) => DesuspenderPedido(e, p);
    case PCompactar => CompactarMantiene(e);
    case PStick(bytes) => AgregarStickMantiene(e, bytes);
    case PEscribir(p, dir, datos) => EscribirPedido(e, p, dir, datos);
  }

  // ---------------------------------------------------------------- runs

  /** Every request of the run finds what it needs. */
  ghost predicate Posible(e: Estado, rs: seq<Pedido>)
    requires Inv(e)
    decreases |rs|
  {
    rs == [] || (Admite(e, rs[0]) && (AtenderInv(e, rs[0]); Posible(Atender(e, rs[0]), rs[1..])))
  }

  ghost function Correr(e: Estado, rs: seq<Pedido>): Estado
    requires Inv(e) && Posible(e, rs)
    decreases |rs|
  {
    if rs == [] then e
    else
      AtenderInv(e, rs[0]);
      Correr(Atender(e, rs[0]), rs[1..])
  }

  /** In every reachable state the resident segments and the free list tile memory and the
      byte counter is the size of the free list. */
  lemma {:induction false} CorrerInv(e: Estado, rs: seq<Pedido>)
    requires Inv(e) && Posible(e, rs)
    ensures Inv(Correr(e, rs)) && Correr(e, rs).cfg == e.cfg
    decreases |rs|
  {
    if rs != [] {
      AtenderInv(e, rs[0]);
      CorrerInv(Atender(e, rs[0]), rs[1..]);
    }
  }

  /** A run that is not about a segment leaves it with the bytes it had, wherever it went. */
  lemma {:induction false} CorrerContenido(e: Estado, rs: seq<Pedido>, pid: nat, id: nat)
    requires Inv(e) && Posible(e, rs)
    requires forall n :: 0 <= n < |rs| ==> !Toca(e.cfg.segMax, rs[n], pid, id)
    ensures Contenido(Correr(e, rs), pid, id) == Contenido(e, pid, id)
    decreases |rs|
  {
    if rs != [] {
      AtenderInv(e, rs[0]);
      AtenderContenido(e, rs[0], pid, id);
      CorrerContenido(Atender(e, rs[0]), rs[1..], pid, id);
    }
  }

  /** Swap round trip: suspend a process, serve any run of requests that are not about its
      segments, bring it back.  Every segment it had reads what it read, and no block of the
      swap file is its own any more. */
  lemma {:induction false} IdaYVuelta(e: Estado, pid: nat, rs: seq<Pedido>, e1: Estado, e2: Estado, v: Vuelta)
    requires Inv(e) && ProcesoDe(e.procs, pid).Algo? && !ProcesoDe(e.procs, pid).valor.enSwap
    requires Suspender(e, pid).codigo == SUSPEND_OK && e1 == Suspender(e, pid).estado
    requires Inv(e1) && Posible(e1, rs) && e2 == Correr(e1, rs)
    requires forall n, id: nat :: 0 <= n < |rs| ==> !Toca(e1.cfg.segMax, rs[n], pid, id)
    requires v == Desuspender(e2, pid) && v.codigo == DESUSPEND_OK
    ensures Inv(v.estado)
    ensures forall id: nat :: Contenido(v.estado, pid, id) == Contenido(e, pid, id)
    ensures forall j :: 0 <= j < |v.estado.tabla| && v.estado.tabla[j].ocupado ==> v.estado.tabla[j].pid != pid
  {
    SuspenderMantiene(e, pid);
    CorrerInv(e1, rs);
    DesuspenderMantiene(e2, pid, v);
    forall id: nat ensures Contenido(v.estado, pid, id) == Contenido(e, pid, id) {
      CorrerContenido(e1, rs, pid, id);
    }
  }

  /** The module when it starts: no stick, no process, an empty swap table. */
  function Inicial(cfg: Config, bloques: nat, swap: seq<byte>): Estado
  {
    Estado(cfg, [], [], 0, [], seq(bloques, _ => Bloque(false, 0, 0, 0)), swap)
  }

  lemma {:induction false} InicialInv(cfg: Config, bloques: nat, swap: seq<byte>)
    requires 0 < cfg.segMax <= WORD && cfg.bloque > 0 && bloques * cfg.bloque <= |swap|
    ensures Inv(Inicial(cfg, bloques, swap))
  {
  }

  /** Whatever the history, the free list is a function of what is resident: two consistent
      states of equal size that occupy the same addresses have the identical list. */
  lemma {:induction false} HuecosDeterminados(e: Estado, f: Estado)
    requires Inv(e) && Inv(f) && |e.mem| == |f.mem|
    requires forall a: nat :: Veces(Residentes(e.procs), a) == Veces(Residentes(f.procs), a)
    ensures e.huecos == f.huecos && e.libre == f.libre
  {
    forall a: nat ensures Veces(e.huecos, a) == Veces(f.huecos, a) {
      assert Veces(Residentes(e.procs), a) + Veces(e.huecos, a) == if a < |e.mem| then 1 else 0;
      assert Veces(Residentes(f.procs), a) + Veces(f.huecos, a) == if a < |f.mem| then 1 else 0;
    }
    CanonicoUnico(e.huecos, f.huecos);
  }

  // ---------------------------------------------------------------- solicitar_segmento_memory

  /** What the scheduler is left with after asking for a segment: the memory's state, its last
      answer, how many times it asked, and whether it gave up with a blue screen. */
  datatype Respuesta = Respuesta(estado: Estado, codigo: Codigo, pedidos: nat, bsod: bool)

  lemma CompactarPuede(e: Estado, pid: nat, id: nat, tam: nat)
    requires Inv(e) && PuedeCrear(e, pid, id, tam)
    ensures Inv(Compactar(e)) && PuedeCrear(Compactar(e), pid, id, tam)
  {
    CompactarMantiene(e);
    CompactarForma(e);
    FormaBuscar(e.procs, Compactar(e).procs, pid);
    var r := BuscarProceso(e.procs, pid);
    if r.Algo? {
      assert MismoProceso(e.procs[r.valor], Compactar(e).procs[r.valor]);
      FormaBuscarSegmento(e.procs[r.valor], Compactar(e).procs[r.valor], id);
    }
  }

  /** `solicitar_segmento_memory`: on COMPACTACION it evicts everybody, has the memory compacted
      and calls itself again; if that is not granted, blue screen.  It calls itself at most once,
      the last answer is never COMPACTACION, and the blue screen is unreachable. */
  ghost function Solicitar(e: Estado, pid: nat, id: nat, tam: nat): (r: Respuesta)
    requires Inv(e) && PuedeCrear(e, pid, id, tam)
    ensures r.pedidos <= 2 && !r.bsod && r.codigo in {MEMORIA_DISPONIBLE, MEMORIA_NO_DISPONIBLE}
    ensures r.codigo == MEMORIA_DISPONIBLE <==> Crear(e, pid, id, tam).1 != MEMORIA_NO_DISPONIBLE
    decreases if Crear(e, pid, id, tam).1 == COMPACTACION then 1 else 0
  {
    var c := Crear(e, pid, id, tam);
    if c.1 != COMPACTACION then Respuesta(c.0, c.1, 1, false)
    else
      CompactarPuede(e, pid, id, tam);
      ReintentoTrasCompactar(e, pid, id, tam);
      var r := Solicitar(Compactar(e), pid, id, tam);
      Respuesta(r.estado, r.codigo, r.pedidos + 1, r.codigo != MEMORIA_DISPONIBLE)
  }

  /** Whatever the answer, the memory is consistent and every other segment keeps its bytes. */
  lemma {:induction false} SolicitarMantiene(e: Estado, pid: nat, id: nat, tam: nat)
    requires Inv(e) && PuedeCrear(e, pid, id, tam)
    ensures var r := Solicitar(e, pid, id, tam);
      Inv(r.estado) && SoloCambia(e, r.estado, pid, id)
      && (r.codigo == MEMORIA_DISPONIBLE ==>
            Contenido(r.estado, pid, id).Algo? && |Contenido(r.estado, pid, id).valor| == tam)
    decreases if Crear(e, pid, id, tam).1 == COMPACTACION then 1 else 0
  {
    hide Inv, Compactar, Contenido, PuedeCrear;
    CrearMantiene(e, pid, id, tam);
    if Crear(e, pid, id, tam).1 == COMPACTACION {
      CompactarPuede(e, pid, id, tam);
      SolicitarUna(e, pid, id, tam);
      CompactarMantiene(e);
      SolicitarMantiene(Compactar(e), pid, id, tam);
    }
  }

  lemma SolicitarUna(e: Estado, pid: nat, id: nat, tam: nat)
    requires Inv(e) && PuedeCrear(e, pid, id, tam) && Crear(e, pid, id, tam).1 == COMPACTACION
    ensures Inv(Compactar(e)) && PuedeCrear(Compactar(e), pid, id, tam)
    ensures Crear(Compactar(e), pid, id, tam).1 == MEMORIA_DISPONIBLE
  {
    CompactarPuede(e, pid, id, tam);
    ReintentoTrasCompactar(e, pid, id, tam);
  }

  // ---------------------------------------------------------------- room to come back

  function SumaTam(ts: seq<nat>): nat
  {
    if ts == [] then 0 else ts[0] + SumaTam(ts[1..])
  }

  function UnHueco(fin: nat, libre: nat): seq<Rango>
  {
    if libre > 0 then [Rango(fin, libre)] else []
  }

  lemma {:induction false} SimularUnHueco(fin: nat, libre: nat, ts: seq<nat>, mejor: bool)
    requires forall x :: 0 <= x < |ts| ==> ts[x] > 0
    ensures Simular(UnHueco(fin, libre), ts, mejor).Algo? <==> SumaTam(ts) <= libre
    decreases |ts|
  {
    if ts != [] {
      if libre > 0 {
        ElegirUnico(ts[0], mejor, Rango(fin, libre));
      }
      if ts[0] <= libre {
        assert Consumir(UnHueco(fin, libre), 0, ts[0]) == UnHueco(fin + ts[0], libre - ts[0]);
        SimularUnHueco(fin + ts[0], libre - ts[0], ts[1..], mejor);
      }
    }
  }

  lemma {:induction false} TamaniosPositivos(e: Estado, js: seq<nat>)
    requires Inv(e) && forall j :: j in js ==> j < |e.tabla| && e.tabla[j].ocupado
    ensures forall x :: 0 <= x < |Tamanios(e.tabla, js)| ==> Tamanios(e.tabla, js)[x] > 0
    decreases |js|
  {
    if js != [] {
      assert js[0] in js && forall j :: j in js[1..] ==> j in js;
      var b := e.tabla[js[0]];
      assert BloqueCon(e, js[0]);
      var i := BuscarProceso(e.procs, b.pid).valor;
      assert SegmentosOk(e.cfg, e.procs[i].segs);
      TamaniosPositivos(e, js[1..]);
    }
  }

  lemma VuelveAUnHueco(f: Estado, pid: nat, i: nat, fin: nat, libre: nat, ts: seq<nat>)
    requires Inv(f) && BuscarProceso(f.procs, pid) == Algo(i) && f.huecos == UnHueco(fin, libre)
    requires ts == Tamanios(f.tabla, Bloques(f.tabla, pid))
    ensures Desuspender(f, pid).codigo == DESUSPEND_OK <==> SumaTam(ts) <= libre
  {
    hide Inv, Simular, Tamanios, Desuspender;
    TamaniosPositivos(f, Bloques(f.tabla, pid));
    SimularUnHueco(fin, libre, ts, f.cfg.mejor);
    SimularProcesoExacta(f, i, Desuspender(f, pid), SimularProceso(f, pid));
  }

  lemma CompactarResumen(e: Estado, f: Estado, pid: nat)
    requires Inv(e) && f == Compactar(e)
    ensures Inv(f) && f.tabla == e.tabla && 0 <= e.libre <= |e.mem|
    ensures f.huecos == UnHueco(|e.mem| - e.libre, e.libre)
    ensures BuscarProceso(f.procs, pid) == BuscarProceso(e.procs, pid)
  {
    CompactarMantiene(e);
    CompactarForma(e);
    FormaBuscar(e.procs, f.procs, pid);
  }

  /** After a compaction fragmentation does not matter: a process comes back exactly when the
      bytes it keeps in swap are at most the free bytes. */
  lemma {:induction false} VuelveTrasCompactar(e: Estado, pid: nat, ts: seq<nat>)
    requires Inv(e) && ProcesoDe(e.procs, pid).Algo? && ts == Tamanios(e.tabla, Bloques(e.tabla, pid))
    ensures Desuspender(Compactar(e), pid).codigo == DESUSPEND_OK <==> SumaTam(ts) <= e.libre
  {
    hide Inv, Compactar, Tamanios, Desuspender, Bloques;
    CompactarResumen(e, Compactar(e), pid);
    VuelveAUnHueco(Compactar(e), pid, BuscarProceso(e.procs, pid).valor, |e.mem| - e.libre, e.libre, ts);
  }
}
