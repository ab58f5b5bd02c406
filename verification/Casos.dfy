/** Small states of the memory module that show where its exact conditions fail; each one is
    reached from the start by a run of requests. */
module Casos {
  import opened Secuencias
  import opened Rangos
  import opened Mmu
  import opened Memoria
  import opened Asignador
  import opened Compactacion
  import opened Swap
  import opened Suspension
  import opened Desuspension
  import opened Corridas
  import opened Reintento

  /** Segments and blocks of at most 4 bytes, best fit. */
  const CFG: Config := Config(4, true, 4)

  const LIBRE: Bloque := Bloque(false, 0, 0, 0)

  /** `r` takes `e` to `f`. */
  ghost predicate Da(e: Estado, r: Pedido, f: Estado)
  {
    Inv(e) && Admite(e, r) && Atender(e, r) == f
  }

  lemma Sigue(e0: Estado, rs: seq<Pedido>, e: Estado, r: Pedido, f: Estado)
    requires Inv(e0) && Posible(e0, rs) && Correr(e0, rs) == e && Da(e, r, f)
    ensures Posible(e0, rs + [r]) && Correr(e0, rs + [r]) == f && Inv(f)
    decreases |rs|
  {
    hide Inv, Admite, Atender;
    AtenderInv(e, r);
    if rs == [] {
      assert [] + [r] == [r] && [r][1..] == [];
    } else {
      AtenderInv(e0, rs[0]);
      Sigue(Atender(e0, rs[0]), rs[1..], e, r, f);
      assert (rs + [r])[1..] == rs[1..] + [r];
    }
  }

  // ---------------------------------------------------------------- full memory

  /** Two bytes of memory, one process with two segments of one byte, and the swap table. */
  function Lleno(tabla: seq<Bloque>, swap: seq<byte>): Estado
  {
    Estado(CFG, [], [Proceso(0, [Segmento(0, 0, 1), Segmento(1, 1, 1)], false)], 0, [0, 0], tabla, swap)
  }

  function Pedidos(): seq<Pedido> { [PStick([0, 0]), PIniciar(0), PCrear(0, 0, 1), PCrear(0, 1, 1)] }

  lemma DaStick(e: Estado, f: Estado)
    requires Inv(e) && e.cfg == CFG && e.mem == [] && e.huecos == [] && e.libre == 0
    requires f == e.(mem := [0, 0], huecos := [Rango(0, 2)], libre := 2)
    ensures Da(e, PStick([0, 0]), f)
  {
    hide Inv, Insertar;
    var b: seq<byte> := [0, 0];
    assert e.mem + b == b;
    UneDos();
  }

  lemma DaIniciar(e: Estado, pid: nat, f: Estado)
    requires Inv(e) && BuscarProceso(e.procs, pid).Nada? && f == e.(procs := e.procs + [Proceso(pid, [], false)])
    ensures Da(e, PIniciar(pid), f)
  {
  }

  /** A segment of one byte at the head of the only hole. */
  lemma DaCrear(e: Estado, i: nat, pid: nat, id: nat, h: Rango, f: Estado)
    requires Inv(e) && e.cfg == CFG && PuedeCrear(e, pid, id, 1) && BuscarProceso(e.procs, pid) == Algo(i)
    requires e.huecos == [h] && h.limite >= 1
    requires |f.procs| == |e.procs| && f.procs == e.procs[i := f.procs[i]]
    requires f.procs[i] == Proceso(pid, e.procs[i].segs + [Segmento(id, h.base, 1)], false) && !e.procs[i].enSwap
    requires f.huecos == if h.limite == 1 then [] else [Rango(h.base + 1, h.limite - 1)]
    requires f == e.(procs := f.procs, huecos := f.huecos, libre := e.libre - 1)
    ensures Da(e, PCrear(pid, id, 1), f)
  {
    hide Inv, PuedeCrear;
    ElegirUnico(1, true, h);
    assert e.huecos[..0] + e.huecos[1..] == [];
  }

  lemma Vacia(e: Estado)
    requires Inv(e)
    ensures Posible(e, []) && Correr(e, []) == e
  {
  }

  lemma PuedeUno(e: Estado, pid: nat, id: nat)
    requires e.cfg == CFG && id < 2
    requires var r := ProcesoDe(e.procs, pid); r.Algo? && !r.valor.enSwap && BuscarSegmento(r.valor.segs, id).Nada?
    ensures PuedeCrear(e, pid, id, 1)
  {
  }

  /** After `n` of those four requests. */
  function Etapa(n: nat, tabla: seq<Bloque>, swap: seq<byte>): Estado
  {
    if n == 0 then Estado(CFG, [], [], 0, [], tabla, swap)
    else if n == 1 then Estado(CFG, [Rango(0, 2)], [], 2, [0, 0], tabla, swap)
    else if n == 2 then Estado(CFG, [Rango(0, 2)], [Proceso(0, [], false)], 2, [0, 0], tabla, swap)
    else if n == 3 then Estado(CFG, [Rango(1, 1)], [Proceso(0, [Segmento(0, 0, 1)], false)], 1, [0, 0], tabla, swap)
    else Lleno(tabla, swap)
  }

  lemma EtapaUno(tabla: seq<Bloque>, swap: seq<byte>)
    requires Inv(Etapa(0, tabla, swap))
    ensures Da(Etapa(0, tabla, swap), PStick([0, 0]), Etapa(1, tabla, swap))
  {
    DaStick(Etapa(0, tabla, swap), Etapa(1, tabla, swap));
  }

  lemma EtapaDos(tabla: seq<Bloque>, swap: seq<byte>)
    requires Inv(Etapa(1, tabla, swap))
    ensures Da(Etapa(1, tabla, swap), PIniciar(0), Etapa(2, tabla, swap))
  {
    hide Inv, Da;
    DaIniciar(Etapa(1, tabla, swap), 0, Etapa(2, tabla, swap));
  }

  lemma EtapaTres(tabla: seq<Bloque>, swap: seq<byte>)
    requires Inv(Etapa(2, tabla, swap))
    ensures Da(Etapa(2, tabla, swap), PCrear(0, 0, 1), Etapa(3, tabla, swap))
  {
    hide Inv, Da, PuedeCrear;
    PuedeUno(Etapa(2, tabla, swap), 0, 0);
    DaCrear(Etapa(2, tabla, swap), 0, 0, 0, Rango(0, 2), Etapa(3, tabla, swap));
  }

  lemma EtapaCuatro(tabla: seq<Bloque>, swap: seq<byte>)
    requires Inv(Etapa(3, tabla, swap))
    ensures Da(Etapa(3, tabla, swap), PCrear(0, 1, 1), Etapa(4, tabla, swap))
  {
    hide Inv, Da, PuedeCrear;
    PuedeUno(Etapa(3, tabla, swap), 0, 1);
    DaCrear(Etapa(3, tabla, swap), 0, 0, 1, Rango(1, 1), Etapa(4, tabla, swap));
  }

  /** The first `n` requests lead there. */
  lemma {:induction false} Llegada(bloques: nat, swap: seq<byte>, n: nat)
    requires bloques * 4 <= |swap| && n <= 4
    ensures var e := Inicial(CFG, bloques, swap);
      Inv(e) && Posible(e, Pedidos()[..n]) && Correr(e, Pedidos()[..n]) == Etapa(n, e.tabla, swap) && Inv(Etapa(n, e.tabla, swap))
  {
    hide Inv, Da, Posible, Correr, Etapa;
    Comienza(bloques, swap);
    var e := Inicial(CFG, bloques, swap);
    if n > 0 {
      Llegada(bloques, swap, n - 1);
      EtapaSiguiente(n - 1, e.tabla, swap);
      Sigue(e, Pedidos()[..n - 1], Etapa(n - 1, e.tabla, swap), Pedidos()[n - 1], Etapa(n, e.tabla, swap));
      assert Pedidos()[..n - 1] + [Pedidos()[n - 1]] == Pedidos()[..n];
    }
  }

  lemma Comienza(bloques: nat, swap: seq<byte>)
    requires bloques * 4 <= |swap|
    ensures var e := Inicial(CFG, bloques, swap);
      Inv(e) && Posible(e, Pedidos()[..0]) && Correr(e, Pedidos()[..0]) == e == Etapa(0, e.tabla, swap)
  {
    InicialInv(CFG, bloques, swap);
    Vacia(Inicial(CFG, bloques, swap));
    assert Pedidos()[..0] == [];
  }

  lemma EtapaSiguiente(n: nat, tabla: seq<Bloque>, swap: seq<byte>)
    requires n < 4 && Inv(Etapa(n, tabla, swap))
    ensures Da(Etapa(n, tabla, swap), Pedidos()[n], Etapa(n + 1, tabla, swap))
  {
    hide Inv, Da, Etapa;
    if n == 0 { EtapaUno(tabla, swap); }
    else if n == 1 { EtapaDos(tabla, swap); }
    else if n == 2 { EtapaTres(tabla, swap); }
    else { EtapaCuatro(tabla, swap); }
  }

  lemma Llena(bloques: nat, swap: seq<byte>)
    requires bloques * 4 <= |swap|
    ensures var e := Inicial(CFG, bloques, swap);
      Inv(e) && Posible(e, Pedidos()) && Correr(e, Pedidos()) == Lleno(e.tabla, swap) && Inv(Lleno(e.tabla, swap))
  {
    Llegada(bloques, swap, 4);
    assert Pedidos()[..4] == Pedidos();
  }

  /** The state those requests lead to. */
  ghost function Llegado(bloques: nat, swap: seq<byte>): (e: Estado)
    requires bloques * 4 <= |swap|
    ensures Inv(e)
  {
    Llena(bloques, swap);
    Correr(Inicial(CFG, bloques, swap), Pedidos())
  }

  // ---------------------------------------------------------------- the cases

  /** One block for two segments: the swap-out fails on the second, and the state is not
      consistent any more. */
  lemma SaleAMedias(swap: seq<byte>)
    requires |swap| == 4
    ensures var e := Llegado(1, swap);
      Inv(e) && Suspender(e, 0).codigo != SUSPEND_OK && !Inv(Suspender(e, 0).estado)
  {
    Llena(1, swap);
    var e := Lleno([LIBRE], swap);
    assert Inicial(CFG, 1, swap).tabla == [LIBRE];
    UnBloque(e);
    hide Inv, Suspender;
    SuspenderMantiene(e, 0);
    SuspenderFalla(e, 0);
  }

  lemma UnBloque(e: Estado)
    requires e.tabla == [LIBRE] && e.procs == Lleno([], []).procs
    ensures Libres(e.tabla) == 1 && ProcesoDe(e.procs, 0) == Algo(e.procs[0]) && |e.procs[0].segs| == 2
  {
    assert e.tabla[1..] == [];
  }

  /** A request for 0 bytes with no hole left asks for a compaction, before it and after it. */
  lemma CeroBytes(swap: seq<byte>)
    requires |swap| == 4
    ensures var e := Llegado(1, swap);
      Inv(e) && Crear(e, 0, 2, 0).1 == COMPACTACION && Crear(Compactar(e), 0, 2, 0).1 == COMPACTACION
  {
    Llena(1, swap);
    var e := Lleno([LIBRE], swap);
    assert Inicial(CFG, 1, swap).tabla == [LIBRE];
    hide Inv, Compactar;
    ReintentoTrasCompactar(e, 0, 2, 0);
  }

  /** The process in swap, in two blocks. */
  function Fuera(swap: seq<byte>): Estado
  {
    Estado(CFG, [Rango(0, 2)], [Proceso(0, [Segmento(0, 0, 1), Segmento(1, 1, 1)], true)], 2, [0, 0],
           [Bloque(true, 0, 0, 1), Bloque(true, 0, 1, 1)], EscribirBloque(EscribirBloque(swap, 0, [0]), 4, [0]))
  }

  lemma Sale(swap: seq<byte>)
    ensures Suspender(Lleno([LIBRE, LIBRE], swap), 0) == Salida(Fuera(swap), SUSPEND_OK, 2)
  {
    hide EscribirBloque;
    var e := Lleno([LIBRE, LIBRE], swap);
    var f := e.(huecos := [Rango(0, 1)], libre := 1, tabla := [Bloque(true, 0, 0, 1), LIBRE], swap := EscribirBloque(swap, 0, [0]));
    var g := f.(huecos := [Rango(0, 2)], libre := 2, tabla := [Bloque(true, 0, 0, 1), Bloque(true, 0, 1, 1)], swap := Fuera(swap).swap);
    UneDos();
    DosCeros();
    assert e.tabla[0 := Bloque(true, 0, 0, 1)] == f.tabla && f.tabla[1 := Bloque(true, 0, 1, 1)] == g.tabla;
    assert Guardar(e, 0, 0, 0) == f;
    assert Guardar(f, 0, 1, 1) == g;
    assert g.procs[0 := g.procs[0].(enSwap := true)] == Fuera(swap).procs;
    assert SuspenderDesde(g, 0, 2, 2) == Salida(Fuera(swap), SUSPEND_OK, 2);
    assert PrimerLibre(e.tabla, 0) == Algo(0) && PrimerLibre(f.tabla, 0) == Algo(1);
    assert SuspenderDesde(f, 0, 1, 1) == SuspenderDesde(g, 0, 2, 2);
  }

  lemma DosCeros()
    ensures Tajada([0, 0], 0, 1) == [0] && Tajada([0, 0], 1, 1) == [0]
  {
    var m: seq<byte> := [0, 0];
    assert m[0..1] == [0] && m[1..2] == [0];
  }

  lemma UneDos()
    ensures Insertar([], Rango(0, 1)) == [Rango(0, 1)] && Insertar([], Rango(0, 2)) == [Rango(0, 2)]
    ensures Insertar([Rango(0, 1)], Rango(1, 1)) == [Rango(0, 2)]
  {
    var hs: seq<Rango> := [Rango(0, 1)];
    assert hs[1..] == [] && Posicion(hs, 1) == 1 && hs[..1] == hs;
  }

  lemma BorraFuera(swap: seq<byte>)
    ensures Eliminar(Fuera(swap), 0, 0).1 == 1
    ensures ProcesoDe(Fuera(swap).procs, 0).Algo? && ProcesoDe(Fuera(swap).procs, 0).valor.enSwap
  {
    hide EscribirBloque, Insertar;
  }

  /** A delete is accepted while the process is in swap: its block is left without a segment. */
  lemma BorraEnSwap(swap: seq<byte>)
    requires |swap| == 8
    ensures var e := Llegado(2, swap);
      var f := Suspender(e, 0).estado;
      Inv(f) && Eliminar(f, 0, 0).1 == 1 && !Inv(Eliminar(f, 0, 0).0)
  {
    Llena(2, swap);
    var e := Lleno([LIBRE, LIBRE], swap);
    assert Inicial(CFG, 2, swap).tabla == [LIBRE, LIBRE];
    Sale(swap);
    BorraFuera(swap);
    hide Inv, Suspender, Correr, Posible, Eliminar, Fuera, Lleno;
    SuspenderMantiene(e, 0);
    EliminarSoloResidente(Fuera(swap), 0, 0);
  }

  /** Then another process comes and takes one of the two bytes. */
  function Junto(n: nat, swap: seq<byte>): Estado
  {
    var f := Fuera(swap);
    if n == 0 then f
    else if n == 1 then f.(procs := [f.procs[0], Proceso(1, [], false)])
    else f.(procs := [f.procs[0], Proceso(1, [Segmento(0, 0, 1)], false)], huecos := [Rango(1, 1)], libre := 1)
  }

  lemma JuntoUno(swap: seq<byte>)
    requires Inv(Junto(0, swap))
    ensures Da(Junto(0, swap), PIniciar(1), Junto(1, swap))
  {
    hide Inv, Da;
    DaIniciar(Junto(0, swap), 1, Junto(1, swap));
  }

  lemma JuntoDos(swap: seq<byte>)
    requires Inv(Junto(1, swap))
    ensures Da(Junto(1, swap), PCrear(1, 0, 1), Junto(2, swap))
  {
    hide Inv, Da, PuedeCrear;
    UnoEsta(Junto(1, swap));
    PuedeUno(Junto(1, swap), 1, 0);
    DaCrear(Junto(1, swap), 1, 1, 0, Rango(0, 2), Junto(2, swap));
  }

  lemma UnoEsta(e: Estado)
    requires |e.procs| == 2 && e.procs[0].pid == 0 && e.procs[1] == Proceso(1, [], false)
    ensures BuscarProceso(e.procs, 1) == Algo(1) && ProcesoDe(e.procs, 1) == Algo(e.procs[1])
  {
    assert e.procs[1..][0] == e.procs[1];
  }

  lemma JuntoLlega(swap: seq<byte>)
    requires Inv(Fuera(swap))
    ensures Inv(Junto(2, swap))
  {
    hide Inv, Junto, Admite, Atender;
    assert Junto(0, swap) == Fuera(swap) by { JuntoCero(swap); }
    JuntoUno(swap);
    AtenderInv(Junto(0, swap), PIniciar(1));
    JuntoDos(swap);
    AtenderInv(Junto(1, swap), PCrear(1, 0, 1));
  }

  lemma JuntoCero(swap: seq<byte>)
    ensures Junto(0, swap) == Fuera(swap)
  {
  }

  lemma JuntoEs(swap: seq<byte>)
    requires Inv(Fuera(swap))
    ensures Crear(Iniciar(Fuera(swap), 1), 1, 0, 1).0 == Junto(2, swap)
  {
    hide Inv, Junto, Iniciar, Crear, Admite;
    JuntoCero(swap);
    JuntoUno(swap);
    AtenderInv(Junto(0, swap), PIniciar(1));
    JuntoDos(swap);
  }

  lemma NoCaben(e: Estado, swap: seq<byte>)
    requires e == Junto(2, swap)
    ensures Bloques(e.tabla, 0) == [0, 1] && SimularProceso(e, 0).Nada?
    ensures Elegir(e.huecos, e.tabla[0].tam, e.cfg.mejor).Algo?
    ensures ProcesoDe(e.procs, 0).Algo? && ProcesoDe(e.procs, 0).valor.enSwap
  {
    hide Insertar, EscribirBloque, Bloques, Tamanios, Simular, Elegir;
    DosBloques(e.tabla);
    NoEntran();
    ElegirUnico(1, true, Rango(1, 1));
  }

  lemma DosBloques(tabla: seq<Bloque>)
    requires tabla == [Bloque(true, 0, 0, 1), Bloque(true, 0, 1, 1)]
    ensures Bloques(tabla, 0) == [0, 1] && Tamanios(tabla, [0, 1]) == [1, 1]
  {
    hide Tamanios;
    assert BloquesHasta(tabla, 0, 1) == [0];
    DosTamanios(tabla, [0, 1], [1]);
  }

  lemma DosTamanios(tabla: seq<Bloque>, js: seq<nat>, resto: seq<nat>)
    requires |tabla| == 2 && tabla[0].tam == 1 && tabla[1].tam == 1 && js == [0, 1] && resto == [1]
    ensures Tamanios(tabla, js) == [1, 1]
  {
    assert js[1..] == resto && resto[1..] == [];
    assert Tamanios(tabla, resto) == [1];
  }

  lemma NoEntran()
    ensures Simular([Rango(1, 1)], [1, 1], true).Nada?
  {
    hide Elegir;
    ElegirUnico(1, true, Rango(1, 1));
    var ts: seq<nat>, hs: seq<Rango>, nada: seq<Rango> := [1, 1], [Rango(1, 1)], [];
    assert ts[1..] == [1] && Consumir(hs, 0, 1) == [];
    ElegirNinguno(nada);
  }

  lemma ElegirNinguno(hs: seq<Rango>)
    requires hs == []
    ensures Elegir(hs, 1, true).Nada?
  {
  }

  /** Only the first of two blocks has room: the swap-in fails, and the state is not consistent
      any more. */
  lemma VuelveAMedias(swap: seq<byte>)
    requires |swap| == 8
    ensures var e := Llegado(2, swap);
      var f := Suspender(e, 0).estado;
      var g := Crear(Iniciar(f, 1), 1, 0, 1).0;
      Inv(f) && Inv(g) && Desuspender(g, 0).codigo != DESUSPEND_OK && !Inv(Desuspender(g, 0).estado)
  {
    Llena(2, swap);
    var e := Lleno([LIBRE, LIBRE], swap);
    assert Inicial(CFG, 2, swap).tabla == [LIBRE, LIBRE];
    Sale(swap);
    hide Inv, Suspender, Desuspender, Lleno, Fuera, SimularProceso, Elegir, Correr, Posible, Iniciar, Crear;
    SuspenderMantiene(e, 0);
    JuntoLlega(swap);
    JuntoEs(swap);
    var g := Junto(2, swap);
    NoCaben(g, swap);
    assert g.procs[0].pid == 0;
    SimularProcesoExacta(g, 0, Desuspender(g, 0), SimularProceso(g, 0));
    DesuspenderFalla(g, 0, Desuspender(g, 0));
  }

  // ---------------------------------------------------------------- a retry without room

  /** After `n` requests more: one byte of memory, a deletion that leaves two holes that do not
      touch, and another process. */
  function Roto(n: nat, tabla: seq<Bloque>, swap: seq<byte>): Estado
  {
    if n == 0 then Lleno(tabla, swap)
    else if n == 1 then Lleno(tabla, swap).(mem := [0, 0, 0], huecos := [Rango(2, 1)], libre := 1)
    else
      Estado(CFG, [Rango(0, 1), Rango(2, 1)],
             if n == 2 then [Proceso(0, [Segmento(1, 1, 1)], false)]
             else [Proceso(0, [Segmento(1, 1, 1)], false), Proceso(1, [], false)],
             2, [0, 0, 0], tabla, swap)
  }

  function Rompen(): seq<Pedido> { [PStick([0]), PEliminar(0, 0), PIniciar(1)] }

  lemma RotoUno(tabla: seq<Bloque>, swap: seq<byte>)
    requires Inv(Roto(0, tabla, swap))
    ensures Da(Roto(0, tabla, swap), PStick([0]), Roto(1, tabla, swap))
  {
    hide Inv, Insertar;
    var m: seq<byte>, b: seq<byte> := [0, 0], [0];
    assert m + b == [0, 0, 0];
    InsertarSolo(Rango(2, 1));
  }

  lemma InsertarSolo(n: Rango)
    ensures Insertar([], n) == [n]
  {
  }

  lemma InsertarAntes()
    ensures Insertar([Rango(2, 1)], Rango(0, 1)) == [Rango(0, 1), Rango(2, 1)]
  {
    var hs: seq<Rango> := [Rango(2, 1)];
    assert Posicion(hs, 0) == 0 && hs[..0] == [] && hs[0..] == hs;
  }

  lemma RotoDos(tabla: seq<Bloque>, swap: seq<byte>)
    requires Inv(Roto(1, tabla, swap))
    ensures Da(Roto(1, tabla, swap), PEliminar(0, 0), Roto(2, tabla, swap))
  {
    hide Inv, Insertar;
    var segs: seq<Segmento> := [Segmento(0, 0, 1), Segmento(1, 1, 1)];
    assert segs[..0] + segs[1..] == [Segmento(1, 1, 1)];
    InsertarAntes();
  }

  lemma RotoTres(tabla: seq<Bloque>, swap: seq<byte>)
    requires Inv(Roto(2, tabla, swap))
    ensures Da(Roto(2, tabla, swap), PIniciar(1), Roto(3, tabla, swap))
  {
    hide Inv, Da;
    DaIniciar(Roto(2, tabla, swap), 1, Roto(3, tabla, swap));
  }

  lemma RotoSiguiente(n: nat, tabla: seq<Bloque>, swap: seq<byte>)
    requires n < 3 && Inv(Roto(n, tabla, swap))
    ensures Da(Roto(n, tabla, swap), Rompen()[n], Roto(n + 1, tabla, swap))
  {
    hide Inv, Da, Roto;
    if n == 0 { RotoUno(tabla, swap); }
    else if n == 1 { RotoDos(tabla, swap); }
    else { RotoTres(tabla, swap); }
  }

  lemma {:induction false} Fragmenta(swap: seq<byte>, n: nat)
    requires |swap| == 4 && n <= 3
    ensures var e := Inicial(CFG, 1, swap);
      && Inv(e) && Posible(e, Pedidos() + Rompen()[..n]) && Correr(e, Pedidos() + Rompen()[..n]) == Roto(n, e.tabla, swap)
      && Inv(Roto(n, e.tabla, swap))
  {
    hide Inv, Da, Posible, Correr, Roto, Lleno;
    var e := Inicial(CFG, 1, swap);
    if n == 0 {
      Llena(1, swap);
      assert Pedidos() + Rompen()[..0] == Pedidos();
      RotoCero(e.tabla, swap);
    } else {
      Fragmenta(swap, n - 1);
      RotoSiguiente(n - 1, e.tabla, swap);
      Sigue(e, Pedidos() + Rompen()[..n - 1], Roto(n - 1, e.tabla, swap), Rompen()[n - 1], Roto(n, e.tabla, swap));
      assert Pedidos() + Rompen()[..n - 1] + [Rompen()[n - 1]] == Pedidos() + Rompen()[..n];
    }
  }

  lemma RotoCero(tabla: seq<Bloque>, swap: seq<byte>)
    ensures Roto(0, tabla, swap) == Lleno(tabla, swap)
  {
  }

  /** The state those requests lead to. */
  ghost function Fragmentado(swap: seq<byte>): (e: Estado)
    requires |swap| == 4
    ensures Inv(e)
  {
    Fragmenta(swap, 3);
    Correr(Inicial(CFG, 1, swap), Pedidos() + Rompen()[..3])
  }

  /** Process 0 asks for 2 bytes, which takes a compaction; then process 1 asks for 1 and gets it,
      and the retry of process 0 is refused. */
  lemma LugarRobado(swap: seq<byte>)
    requires |swap| == 4
    ensures var e := Fragmentado(swap);
      && Crear(e, 0, 2, 2).1 == COMPACTACION
      && Crear(Compactar(e), 1, 0, 1).1 == MEMORIA_DISPONIBLE
      && Crear(Crear(Compactar(e), 1, 0, 1).0, 0, 2, 2).1 == MEMORIA_NO_DISPONIBLE
  {
    hide Inv, Posible, Correr, Compactar, Roto, Inicial;
    Fragmenta(swap, 3);
    var tabla := Inicial(CFG, 1, swap).tabla;
    var e := Roto(3, tabla, swap);
    PideDos(e, tabla, swap);
    EntraUno(e, tabla, swap);
    ReintentoRobado(e, 0, 2, 2, 1, 0, 1);
  }

  lemma PideDos(e: Estado, tabla: seq<Bloque>, swap: seq<byte>)
    requires e == Roto(3, tabla, swap)
    ensures Crear(e, 0, 2, 2).1 == COMPACTACION && e.libre == 2
  {
    hide Elegir, HayHueco;
    HayElegido(e.huecos, 2, true);
    NoHayDos();
  }

  lemma NoHayDos()
    ensures !HayHueco([Rango(0, 1), Rango(2, 1)], 2)
  {
  }

  lemma EntraUno(e: Estado, tabla: seq<Bloque>, swap: seq<byte>)
    requires Inv(e) && e == Roto(3, tabla, swap)
    ensures Crear(Compactar(e), 1, 0, 1).1 == MEMORIA_DISPONIBLE
  {
    hide Inv, Compactar, Elegir;
    CompactarResumen(e, Compactar(e), 1);
    CfgIgual(e);
    UnoEsta(e);
    ElegirUnico(1, true, Rango(1, 2));
  }

  // ---------------------------------------------------------------- an address that wraps

  /** With segments of up to 65536 bytes, the address of segment 65536 wraps to that of segment 0. */
  lemma OtroSegmento()
    ensures var segs := [Segmento(0, 0, 1), Segmento(65536, 1, 1)];
      BuscarSegmento(segs, 65536) == Algo(1) && BuscarSegmento(segs, (65536 * 65536 % WORD) / 65536) == Algo(0)
  {
    var segs: seq<Segmento> := [Segmento(0, 0, 1), Segmento(65536, 1, 1)];
    assert segs[1..][0] == segs[1];
    DireccionDeSegmento(65536, 65536);
  }
}
