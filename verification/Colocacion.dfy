/** Where things are put: the hole that each configured strategy gives, for a new segment and for
    every block that comes back from swap; the blocks of the swap file; and what each request does
    to the table of processes. */
module Colocacion {
  import opened Secuencias
  import opened Rangos
  import opened Mmu
  import opened Memoria
  import opened Asignador
  import opened Compactacion
  import opened Swap
  import opened Suspension
  import opened Desuspension
  import opened Corridas

  // ---------------------------------------------------------------- the strategies

  ghost predicate Cabe(hs: seq<Rango>, h: nat, tam: nat) { h < |hs| && hs[h].limite >= tam }

  /** Hole `h` is the one the strategy gives: big enough, no other that is big enough is smaller
      (best fit) or larger (worst fit), and it is the first of its size. */
  ghost predicate HuecoDe(hs: seq<Rango>, tam: nat, mejor: bool, h: nat)
  {
    && Cabe(hs, h, tam)
    && (forall j :: 0 <= j < |hs| && hs[j].limite >= tam ==>
          if mejor then hs[h].limite <= hs[j].limite else hs[h].limite >= hs[j].limite)
    && (forall j :: 0 <= j < h && hs[j].limite >= tam ==> hs[j].limite != hs[h].limite)
  }

  ghost predicate NoCabe(hs: seq<Rango>, tam: nat)
  {
    forall j :: 0 <= j < |hs| ==> hs[j].limite < tam
  }

  lemma ElegirHueco(hs: seq<Rango>, tam: nat, mejor: bool)
    ensures var r := Elegir(hs, tam, mejor); if r.Algo? then HuecoDe(hs, tam, mejor, r.valor) else NoCabe(hs, tam)
  {
    ElegirCorrecto(hs, |hs|, tam, mejor);
  }

  /** `crear_segmento`: it is granted exactly if the process is known, the size is not above the
      maximum and some hole is big enough, and then the new segment, the last of its process, starts
      where the hole of the configured strategy does; and it answers COMPACTACION exactly if no hole
      is big enough but the free bytes are. */
  lemma {:induction false} CrearColoca(e: Estado, pid: nat, id: nat, tam: nat)
    ensures var (f, c) := Crear(e, pid, id, tam);
      && (c == MEMORIA_DISPONIBLE <==> ProcesoDe(e.procs, pid).Algo? && tam <= e.cfg.segMax && !NoCabe(e.huecos, tam))
      && (c == COMPACTACION <==>
            ProcesoDe(e.procs, pid).Algo? && tam <= e.cfg.segMax && NoCabe(e.huecos, tam) && tam <= e.libre)
      && (c == MEMORIA_DISPONIBLE || c == COMPACTACION || c == MEMORIA_NO_DISPONIBLE)
      && (c != MEMORIA_DISPONIBLE ==> f == e)
      && (c == MEMORIA_DISPONIBLE ==> exists i, h :: CreadoEn(e, f, pid, id, tam, i, h))
  {
    var (f, c) := Crear(e, pid, id, tam);
    ElegirHueco(e.huecos, tam, e.cfg.mejor);
    if c == MEMORIA_DISPONIBLE {
      var i := BuscarProceso(e.procs, pid).valor;
      var h := Elegir(e.huecos, tam, e.cfg.mejor).valor;
      assert CreadoEn(e, f, pid, id, tam, i, h);
    }
  }

  /** The segment was added to process `i` at the base of hole `h`. */
  ghost predicate CreadoEn(e: Estado, f: Estado, pid: nat, id: nat, tam: nat, i: nat, h: nat)
  {
    && i < |e.procs| && e.procs[i].pid == pid && HuecoDe(e.huecos, tam, e.cfg.mejor, h)
    && f.procs == e.procs[i := e.procs[i].(segs := e.procs[i].segs + [Segmento(id, e.huecos[h].base, tam)])]
    && f == e.(procs := f.procs, huecos := f.huecos, libre := e.libre - tam)
  }

  // ---------------------------------------------------------------- coming back from swap

  /** What is left of hole `h` and of the others when its first `tam` bytes are taken. */
  function SinHueco(hs: seq<Rango>, h: nat, tam: nat): seq<Rango>
    requires h < |hs| && tam <= hs[h].limite
  {
    hs[..h] + (if tam < hs[h].limite then [Rango(hs[h].base + tam, hs[h].limite - tam)] else []) + hs[h + 1..]
  }

  lemma ConsumirEs(hs: seq<Rango>, h: nat, tam: nat)
    requires h < |hs| && tam <= hs[h].limite
    ensures Consumir(hs, h, tam) == SinHueco(hs, h, tam)
  {
    if tam < hs[h].limite {
      assert hs[h := Rango(hs[h].base + tam, hs[h].limite - tam)]
          == hs[..h] + [Rango(hs[h].base + tam, hs[h].limite - tam)] + hs[h + 1..];
    }
  }

  /** The base of segment `id` of process `i`. */
  function BaseDe(e: Estado, i: nat, id: nat): Opcion<nat>
    requires i < |e.procs|
  {
    match SegmentoDe(e.procs[i].segs, id) case Nada => Nada case Algo(s) => Algo(s.base)
  }

  /** The first `n` blocks of `js` went back, one by one, to the hole that the strategy gives among
      those that were left: in the final state `g` the segment of each one starts where its hole did. */
  ghost predicate Puestos(hs: seq<Rango>, tabla: seq<Bloque>, js: seq<nat>, n: nat, mejor: bool, g: Estado, i: nat)
    decreases n
  {
    if n == 0 then g.huecos == hs
    else
      js != [] && js[0] < |tabla| && i < |g.procs|
      && exists h: nat :: HuecoDe(hs, tabla[js[0]].tam, mejor, h) && BaseDe(g, i, tabla[js[0]].seg) == Algo(hs[h].base)
                          && Puestos(SinHueco(hs, h, tabla[js[0]].tam), tabla, js[1..], n - 1, mejor, g, i)
  }

  lemma {:induction false} PuestosIgual(hs: seq<Rango>, t: seq<Bloque>, u: seq<Bloque>, js: seq<nat>, n: nat,
      mejor: bool, g: Estado, f: Estado, i: nat)
    requires |t| == |u| && forall j :: 0 <= j < |t| ==> t[j].tam == u[j].tam && t[j].seg == u[j].seg
    requires |f.procs| == |g.procs| && f.huecos == g.huecos && (i < |f.procs| ==> f.procs[i].segs == g.procs[i].segs)
    requires Puestos(hs, t, js, n, mejor, g, i)
    ensures Puestos(hs, u, js, n, mejor, f, i)
    decreases n
  {
    hide SinHueco;
    if n > 0 {
      var h: nat :| HuecoDe(hs, t[js[0]].tam, mejor, h) && BaseDe(g, i, t[js[0]].seg) == Algo(hs[h].base)
                    && Puestos(SinHueco(hs, h, t[js[0]].tam), t, js[1..], n - 1, mejor, g, i);
      PuestosIgual(SinHueco(hs, h, t[js[0]].tam), t, u, js[1..], n - 1, mejor, g, f, i);
    }
  }

  /** The blocks `js`, once each, of a process in transit belong to different segments. */
  lemma OtroSegmento(e: Estado, i: nat, js: seq<nat>, fuera: set<nat>, j: nat)
    requires i < |e.procs| && EnCurso(e, i, fuera) && Quedan(e.tabla, e.procs[i].pid, js) && js != [] && j in js[1..]
    ensures js[0] < |e.tabla| && j < |e.tabla| && e.tabla[j].seg != e.tabla[js[0]].seg
  {
    var x :| 0 <= x < |js| - 1 && js[1..][x] == j;
    assert js[0] in js && js[x + 1] in js && js[0] < js[x + 1];
  }

  /** One block comes back. */
  lemma ReponerBase(e: Estado, i: nat, j: nat, k: nat, h: nat, fuera: set<nat>, f: Estado, id: nat)
    requires Vuelve(e, i, j, k, h, fuera) && f == Reponer(e, i, j, k, h)
    ensures BaseDe(f, i, id) == if id == e.tabla[j].seg then Algo(e.huecos[h].base) else BaseDe(e, i, id)
  {
    assert SegmentosOk(e.cfg, e.procs[i].segs);
    SegmentoDeCambia(e.procs[i].segs, k, f.procs[i].segs[k], id);
  }

  lemma PidIgual(e: Estado, i: nat, j: nat, k: nat, h: nat, f: Estado)
    requires i < |e.procs| && j < |e.tabla| && k < |e.procs[i].segs| && h < |e.huecos| && e.tabla[j].tam <= e.huecos[h].limite
    requires f == Reponer(e, i, j, k, h)
    ensures f.procs[i].pid == e.procs[i].pid && f.tabla == e.tabla[j := e.tabla[j].(ocupado := false)] && f.cfg == e.cfg
    ensures f.huecos == SinHueco(e.huecos, h, e.tabla[j].tam)
  {
    ConsumirEs(e.huecos, h, e.tabla[j].tam);
  }

  /** A segment that has none of these blocks stays where it was. */
  lemma {:induction false} ReponerOtro(e: Estado, i: nat, js: seq<nat>, fuera: set<nat>, v: Vuelta, id: nat)
    requires i < |e.procs| && EnCurso(e, i, fuera) && Quedan(e.tabla, e.procs[i].pid, js) && v == ReponerTodos(e, i, js)
    requires forall j :: j in js ==> e.tabla[j].seg != id
    ensures BaseDe(v.estado, i, id) == BaseDe(e, i, id)
    decreases |js|
  {
    hide EnCurso, BaseDe, Elegir;
    if js != [] {
      QuedanMenos(e.tabla, e.procs[i].pid, js);
      if Elegir(e.huecos, e.tabla[js[0]].tam, e.cfg.mejor).Nada? {
        ReponerCorta(e, i, js, fuera, v);
      } else {
        var k, h, f := ReponerPaso(e, i, js, fuera, v);
        ReponerEnCurso(e, i, js[0], k, h, fuera);
        PidIgual(e, i, js[0], k, h, f);
        ReponerBase(e, i, js[0], k, h, fuera, f, id);
        assert js[0] in js;
        Menos(e.tabla, f.tabla, js, id);
        ReponerOtro(f, i, js[1..], fuera - {e.tabla[js[0]].seg}, v, id);
      }
    }
  }

  lemma Menos(t: seq<Bloque>, u: seq<Bloque>, js: seq<nat>, id: nat)
    requires js != [] && js[0] < |t| && u == t[js[0] := t[js[0]].(ocupado := false)]
    requires forall j :: j in js ==> j < |t| && t[j].seg != id
    ensures forall j :: j in js[1..] ==> j < |u| && u[j].seg != id
  {
    forall j | j in js[1..] ensures j < |u| && u[j].seg != id {
      assert js == [js[0]] + js[1..];
      assert j in js;
    }
  }

  lemma CodigoCorta(e: Estado, i: nat, js: seq<nat>, fuera: set<nat>, v: Vuelta)
    requires EnCurso(e, i, fuera) && js != [] && (forall j :: j in js ==> j < |e.tabla|) && v == ReponerTodos(e, i, js)
    requires js[0] < |e.tabla| && e.tabla[js[0]].ocupado && e.tabla[js[0]].pid == e.procs[i].pid
    requires Elegir(e.huecos, e.tabla[js[0]].tam, e.cfg.mejor).Nada?
    ensures v.codigo == if e.tabla[js[0]].tam <= e.libre then COMPACTACION else MEMORIA_NO_DISPONIBLE
  {
    hide Elegir;
    var k := VuelveBloque(e, i, js[0], fuera);
  }

  /** What the loop over the blocks `js` did: the first `n`, all of them if it succeeded, were placed
      as the strategy says; and if it stopped, it is because the next one fits in no hole that is
      left, and the answer tells whether a compaction would make room for that block. */
  ghost predicate Repuestos(e: Estado, i: nat, js: seq<nat>, v: Vuelta, n: nat)
  {
    && n <= |js|
    && Puestos(e.huecos, e.tabla, js, n, e.cfg.mejor, v.estado, i)
    && (v.codigo == MEMORIA_DISPONIBLE <==> n == |js|)
    && (n < |js| ==> js[n] < |e.tabla| && NoCabe(v.estado.huecos, e.tabla[js[n]].tam)
                     && v.codigo == if e.tabla[js[n]].tam <= v.estado.libre then COMPACTACION else MEMORIA_NO_DISPONIBLE)
  }

  lemma {:induction false} ReponerColoca(e: Estado, i: nat, js: seq<nat>, fuera: set<nat>, v: Vuelta) returns (n: nat)
    requires i < |e.procs| && EnCurso(e, i, fuera) && Quedan(e.tabla, e.procs[i].pid, js) && v == ReponerTodos(e, i, js)
    ensures Repuestos(e, i, js, v, n)
    decreases |js|
  {
    hide EnCurso, Elegir, HuecoDe, Vuelve, BaseDe, ReponerTodos, Reponer, NoCabe;
    n := 0;
    if js == [] {
      SinBloques(e, i, v);
    } else {
      QuedanMenos(e.tabla, e.procs[i].pid, js);
      ElegirHueco(e.huecos, e.tabla[js[0]].tam, e.cfg.mejor);
      if Elegir(e.huecos, e.tabla[js[0]].tam, e.cfg.mejor).Nada? {
        ReponerCorta(e, i, js, fuera, v);
        CodigoCorta(e, i, js, fuera, v);
      } else {
        var k, h, f := ReponerPaso(e, i, js, fuera, v);
        ReponerEnCurso(e, i, js[0], k, h, fuera);
        Indices(e, i, js[0], k, h, fuera);
        PidIgual(e, i, js[0], k, h, f);
        n := ReponerColoca(f, i, js[1..], fuera - {e.tabla[js[0]].seg}, v);
        n := n + 1;
        UnoRepuesto(e, i, js, fuera, v, k, h, f, n - 1);
      }
    }
  }

  lemma SinBloques(e: Estado, i: nat, v: Vuelta)
    requires i < |e.procs| && v == ReponerTodos(e, i, [])
    ensures v.estado == e && v.codigo == MEMORIA_DISPONIBLE
  {
  }

  lemma Indices(e: Estado, i: nat, j: nat, k: nat, h: nat, fuera: set<nat>)
    requires Vuelve(e, i, j, k, h, fuera)
    ensures i < |e.procs| && j < |e.tabla| && k < |e.procs[i].segs| && h < |e.huecos| && e.tabla[j].tam <= e.huecos[h].limite
  {
  }

  lemma UnoRepuesto(e: Estado, i: nat, js: seq<nat>, fuera: set<nat>, v: Vuelta, k: nat, h: nat, f: Estado, n: nat)
    requires i < |e.procs| && EnCurso(e, i, fuera) && Quedan(e.tabla, e.procs[i].pid, js) && js != [] && js[0] < |e.tabla|
    requires Vuelve(e, i, js[0], k, h, fuera) && f == Reponer(e, i, js[0], k, h)
    requires EnCurso(f, i, fuera - {e.tabla[js[0]].seg}) && Quedan(f.tabla, f.procs[i].pid, js[1..])
    requires v == ReponerTodos(f, i, js[1..])
    requires Repuestos(f, i, js[1..], v, n)
    requires f.tabla == e.tabla[js[0] := e.tabla[js[0]].(ocupado := false)] && f.cfg == e.cfg
    requires HuecoDe(e.huecos, e.tabla[js[0]].tam, e.cfg.mejor, h) && f.huecos == SinHueco(e.huecos, h, e.tabla[js[0]].tam)
    ensures Repuestos(e, i, js, v, n + 1)
  {
    hide EnCurso, Vuelve, Reponer, BaseDe, NoCabe, SinHueco, ReponerTodos, Quedan;
    var id := e.tabla[js[0]].seg;
    ReponerBase(e, i, js[0], k, h, fuera, f, id);
    forall j | j in js[1..] ensures j < |f.tabla| && f.tabla[j].seg != id { OtroSegmento(e, i, js, fuera, j); }
    ReponerOtro(f, i, js[1..], fuera - {id}, v, id);
    PuestosIgual(f.huecos, f.tabla, e.tabla, js[1..], n, e.cfg.mejor, v.estado, v.estado, i);
    assert BaseDe(v.estado, i, id) == Algo(e.huecos[h].base);
    assert Puestos(e.huecos, e.tabla, js, n + 1, e.cfg.mejor, v.estado, i);
    assert n < |js| - 1 ==> js[1..][n] == js[n + 1];
  }

  /** The answer `v` to the request to bring process `pid` back, in position `i` of the table: `js`
      lists its blocks in the order of the swap table. */
  ghost predicate VueltaEn(e: Estado, pid: nat, v: Vuelta, i: nat, js: seq<nat>, n: nat)
  {
    && Quedan(e.tabla, pid, js) && n <= |js|
    && Puestos(e.huecos, e.tabla, js, n, e.cfg.mejor, v.estado, i)
    && (v.codigo == DESUSPEND_OK <==> n == |js|)
    && (n < |js| ==> js[n] < |e.tabla| && NoCabe(v.estado.huecos, e.tabla[js[n]].tam)
                     && v.codigo == if e.tabla[js[n]].tam <= v.estado.libre then COMPACTACION else MEMORIA_NO_DISPONIBLE)
  }

  /** `desuspender_proceso` places the blocks of the process in table order, each in the hole that
      the configured strategy gives, and stops at the first that fits in none. */
  lemma {:induction false} DesuspenderColoca(e: Estado, pid: nat, i: nat)
    requires Inv(e) && BuscarProceso(e.procs, pid) == Algo(i)
    ensures exists js, n :: VueltaEn(e, pid, Desuspender(e, pid), i, js, n)
  {
    hide Inv, EnCurso, Puestos, NoCabe, ReponerTodos;
    var fuera := DesuspenderEmpieza(e, i);
    var js := Bloques(e.tabla, pid);
    var w := ReponerTodos(e, i, js);
    var n := ReponerColoca(e, i, js, fuera, w);
    var v := Desuspender(e, pid);
    PuestosIgual(e.huecos, e.tabla, e.tabla, js, n, e.cfg.mejor, w.estado, v.estado, i);
    assert VueltaEn(e, pid, v, i, js, n);
  }

  // ---------------------------------------------------------------- going out to swap

  /** From table `t` to table `u`, segments `k` on of a process take, one by one, the first block that
      is free. */
  ghost predicate Guardados(t: seq<Bloque>, segs: seq<Segmento>, k: nat, pid: nat, u: seq<Bloque>)
    requires k <= |segs|
    decreases |segs| - k
  {
    if k == |segs| then u == t
    else exists j: nat ::
      && PrimeroLibre(t, j)
      && Guardados(t[j := Bloque(true, pid, segs[k].id, segs[k].limite)], segs, k + 1, pid, u)
  }

  ghost predicate PrimeroLibre(t: seq<Bloque>, j: nat)
  {
    j < |t| && !t[j].ocupado && forall x :: 0 <= x < j ==> t[x].ocupado
  }

  lemma {:induction false} SuspenderGuarda(e: Estado, i: nat, k: nat, bytes: nat, r: Salida)
    requires i < |e.procs| && k <= |e.procs[i].segs| && r == SuspenderDesde(e, i, k, bytes)
    ensures r.codigo == SUSPEND_OK ==> Guardados(e.tabla, e.procs[i].segs, k, e.procs[i].pid, r.estado.tabla)
    ensures r.estado.procs == if r.codigo == SUSPEND_OK then e.procs[i := e.procs[i].(enSwap := true)] else e.procs
    decreases |e.procs[i].segs| - k
  {
    hide SuspenderDesde, PrimerLibre;
    var segs := e.procs[i].segs;
    if k < |segs| && segs[k].limite <= e.cfg.bloque && PrimerLibre(e.tabla, 0).Algo? {
      var j := SuspenderPaso(e, i, k, bytes);
      assert PrimeroLibre(e.tabla, j);
      SuspenderGuarda(Guardar(e, i, k, j), i, k + 1, bytes + segs[k].limite, r);
    } else {
      SuspenderTermina(e, i, k, bytes);
    }
  }

  /** `suspender_proceso` uses the first free blocks of the file, in the order of the segments. */
  lemma {:induction false} SuspenderColoca(e: Estado, pid: nat)
    requires Suspender(e, pid).codigo == SUSPEND_OK
    ensures ProcesoDe(e.procs, pid).Algo?
    ensures Guardados(e.tabla, ProcesoDe(e.procs, pid).valor.segs, 0, pid, Suspender(e, pid).estado.tabla)
  {
    hide SuspenderDesde, Guardados;
    SuspenderGuarda(e, BuscarProceso(e.procs, pid).valor, 0, 0, Suspender(e, pid));
  }

  // ---------------------------------------------------------------- the table of processes

  /** Same segments and sizes, in the same order. */
  ghost predicate MismosSegmentos(x: seq<Segmento>, y: seq<Segmento>)
  {
    |x| == |y| && forall k :: 0 <= k < |x| ==> y[k].id == x[k].id && y[k].limite == x[k].limite
  }

  /** The table `y` of a process is `x` without its segment `id`, if it has it. */
  ghost predicate SinId(x: seq<Segmento>, y: seq<Segmento>, id: nat)
  {
    if forall k :: 0 <= k < |x| ==> x[k].id != id then y == x
    else exists k :: 0 <= k < |x| && x[k].id == id && y == x[..k] + x[k + 1..]
  }

  /** All the segments fit in blocks and there are free blocks for all of them. */
  ghost predicate Sale(e: Estado, p: Proceso)
  {
    |p.segs| <= Libres(e.tabla) && forall k :: 0 <= k < |p.segs| ==> p.segs[k].limite <= e.cfg.bloque
  }

  /** What request `r` does to what the module knows of process `q`, which was `x` and is `y`. */
  ghost predicate FichaTras(e: Estado, r: Pedido, q: nat, x: Opcion<Proceso>, y: Opcion<Proceso>)
  {
    match r
    case PIniciar(pid) => y == if q == pid then Algo(Proceso(pid, [], false)) else x
    case PFinalizar(pid) => y == if q == pid then Nada else x
    case PCrear(pid, id, tam) =>
      if q == pid && x.Algo? && tam <= e.cfg.segMax && !NoCabe(e.huecos, tam) then
        exists h: nat :: HuecoDe(e.huecos, tam, e.cfg.mejor, h)
                    && y == Algo(x.valor.(segs := x.valor.segs + [Segmento(id, e.huecos[h].base, tam)]))
      else y == x
    case PEliminar(pid, id) =>
      if q == pid && x.Algo? then y.Algo? && y.valor == x.valor.(segs := y.valor.segs) && SinId(x.valor.segs, y.valor.segs, id)
      else y == x
    case PSuspender(pid) => y == if q == pid && x.Algo? && Sale(e, x.valor) then Algo(x.valor.(enSwap := true)) else x
    case PDesuspender(pid) =>
      if q == pid && x.Algo? && x.valor.enSwap && SimularProceso(e, pid).Algo? then
        y.Algo? && y.valor == x.valor.(segs := y.valor.segs, enSwap := false) && MismosSegmentos(x.valor.segs, y.valor.segs)
      else y == x
    case PCompactar =>
      if x.Algo? then y.Algo? && y.valor == x.valor.(segs := y.valor.segs) && MismosSegmentos(x.valor.segs, y.valor.segs) else y == x
    case PStick(bytes) => y == x
    case PEscribir(pid, dir, datos) => y == x
  }

  /** The first process of that pid, by position. */
  lemma Propio(procs: seq<Proceso>, i: nat)
    requires PidsDistintos(procs) && i < |procs|
    ensures ProcesoDe(procs, procs[i].pid) == Algo(procs[i]) && BuscarProceso(procs, procs[i].pid) == Algo(i)
  {
  }

  lemma CrearFicha(e: Estado, pid: nat, id: nat, tam: nat, q: nat)
    requires Inv(e)
    ensures FichaTras(e, PCrear(pid, id, tam), q, ProcesoDe(e.procs, q), ProcesoDe(Crear(e, pid, id, tam).0.procs, q))
  {
    hide Embaldosa, SwapOk, Crear, HuecoDe, NoCabe, Consumir;
    CrearColoca(e, pid, id, tam);
    var f := Crear(e, pid, id, tam).0;
    if Crear(e, pid, id, tam).1 == MEMORIA_DISPONIBLE {
      var i: nat, h: nat :| CreadoEn(e, f, pid, id, tam, i, h);
      Propio(e.procs, i);
      ProcesoDeCambia(e.procs, i, f.procs[i], q);
    }
  }

  lemma EliminarFicha(e: Estado, pid: nat, id: nat, q: nat)
    requires Inv(e)
    ensures FichaTras(e, PEliminar(pid, id), q, ProcesoDe(e.procs, q), ProcesoDe(Eliminar(e, pid, id).0.procs, q))
  {
    hide Embaldosa, SwapOk, Insertar;
    var r := BuscarProceso(e.procs, pid);
    if r.Algo? && BuscarSegmento(e.procs[r.valor].segs, id).Algo? {
      ProcesoDeCambia(e.procs, r.valor, Eliminar(e, pid, id).0.procs[r.valor], q);
    }
  }

  lemma FinalizarFicha(e: Estado, pid: nat, q: nat)
    requires Inv(e)
    ensures FichaTras(e, PFinalizar(pid), q, ProcesoDe(e.procs, q), ProcesoDe(Finalizar(e, pid).procs, q))
  {
    hide Embaldosa, SwapOk, LiberarTodos, LiberarBloques, Presentes;
    var r := BuscarProceso(e.procs, pid);
    if r.Algo? { ProcesoDeQuita(e.procs, r.valor, q); }
  }

  lemma SuspenderFicha(e: Estado, pid: nat, q: nat)
    requires Inv(e) && EnMemoria(e, pid)
    ensures FichaTras(e, PSuspender(pid), q, ProcesoDe(e.procs, q), ProcesoDe(Suspender(e, pid).estado.procs, q))
  {
    hide Embaldosa, SwapOk, SuspenderDesde, Guardados, NadaCambia;
    var r := BuscarProceso(e.procs, pid);
    if r.Algo? {
      var i := r.valor;
      SuspenderMantiene(e, pid);
      SuspenderGuarda(e, i, 0, 0, Suspender(e, pid));
      ProcesoDeCambia(e.procs, i, e.procs[i].(enSwap := true), q);
    }
  }

  lemma {:induction false} ReponerMismos(e: Estado, i: nat, js: seq<nat>, fuera: set<nat>, v: Vuelta)
    requires i < |e.procs| && EnCurso(e, i, fuera) && Quedan(e.tabla, e.procs[i].pid, js) && v == ReponerTodos(e, i, js)
    ensures MismosSegmentos(e.procs[i].segs, v.estado.procs[i].segs)
    decreases |js|
  {
    hide EnCurso, Elegir, MismosSegmentos;
    if js == [] {
      Iguales(e.procs[i].segs);
    } else {
      QuedanMenos(e.tabla, e.procs[i].pid, js);
      if Elegir(e.huecos, e.tabla[js[0]].tam, e.cfg.mejor).Nada? {
        ReponerCorta(e, i, js, fuera, v);
        Iguales(e.procs[i].segs);
      } else {
        var k, h, f := ReponerPaso(e, i, js, fuera, v);
        ReponerEnCurso(e, i, js[0], k, h, fuera);
        PidIgual(e, i, js[0], k, h, f);
        ReponerMismos(f, i, js[1..], fuera - {e.tabla[js[0]].seg}, v);
        MismosSiguen(e.procs[i].segs, f.procs[i].segs, v.estado.procs[i].segs, k);
      }
    }
  }

  lemma Iguales(x: seq<Segmento>)
    ensures MismosSegmentos(x, x)
  {
  }

  lemma MismosSiguen(x: seq<Segmento>, y: seq<Segmento>, z: seq<Segmento>, k: nat)
    requires k < |x| == |y| && y == x[k := x[k].(base := y[k].base)] && MismosSegmentos(y, z)
    ensures MismosSegmentos(x, z)
  {
  }

  /** A process that came back is where it was in the table, with the same segments. */
  lemma Vuelto(e: Estado, pid: nat, i: nat, v: Vuelta)
    requires Inv(e) && BuscarProceso(e.procs, pid) == Algo(i) && v == Desuspender(e, pid) && v.codigo == DESUSPEND_OK
    ensures |v.estado.procs| == |e.procs| && v.estado.procs == e.procs[i := v.estado.procs[i]]
    ensures v.estado.procs[i] == e.procs[i].(segs := v.estado.procs[i].segs, enSwap := false)
    ensures MismosSegmentos(e.procs[i].segs, v.estado.procs[i].segs)
    ensures !e.procs[i].enSwap ==> v.estado.procs[i] == e.procs[i]
  {
    hide Inv, Vuelve, EnCurso, ReponerTodos, MismosSegmentos, Quedan;
    var js := Bloques(e.tabla, pid);
    var w := ReponerTodos(e, i, js);
    var fuera := DesuspenderEmpieza(e, i);
    BloquesDeQuien(e, pid);
    ReponerCurso(e, i, js, fuera, w);
    ReponerMismos(e, i, js, fuera, w);
    if !e.procs[i].enSwap {
      Quieto(e, i, js, w);
    }
  }

  lemma VuelveFicha(e: Estado, pid: nat, i: nat, v: Vuelta, q: nat)
    requires Inv(e) && BuscarProceso(e.procs, pid) == Algo(i) && v == Desuspender(e, pid) && v.codigo == DESUSPEND_OK
    ensures if q == pid then
              && ProcesoDe(v.estado.procs, q) == Algo(e.procs[i].(segs := v.estado.procs[i].segs, enSwap := false))
              && MismosSegmentos(e.procs[i].segs, v.estado.procs[i].segs)
              && (!e.procs[i].enSwap ==> v.estado.procs[i] == e.procs[i])
            else ProcesoDe(v.estado.procs, q) == ProcesoDe(e.procs, q)
  {
    hide Inv, Desuspender, MismosSegmentos;
    Vuelto(e, pid, i, v);
    Distintos(e);
    ProcesoDeCambia(e.procs, i, v.estado.procs[i], q);
  }

  lemma NoVuelve(e: Estado, pid: nat, v: Vuelta)
    requires Inv(e) && VuelveEntero(e, pid) && ProcesoDe(e.procs, pid).Algo? && v == Desuspender(e, pid)
    ensures v.codigo == DESUSPEND_OK <==> SimularProceso(e, pid).Algo?
    ensures v.codigo != DESUSPEND_OK ==> v.estado == e
  {
    hide Inv, Simular, SimularProceso, Desuspender, Elegir;
    Distintos(e);
    Propio(e.procs, BuscarProceso(e.procs, pid).valor);
    SimularProcesoExacta(e, BuscarProceso(e.procs, pid).valor, v, SimularProceso(e, pid));
    if v.codigo != DESUSPEND_OK { DesuspenderFalla(e, pid, v); }
  }

  lemma Distintos(e: Estado)
    requires Inv(e)
    ensures PidsDistintos(e.procs)
  {
  }

  lemma DesuspenderFicha(e: Estado, pid: nat, q: nat)
    requires Inv(e) && VuelveEntero(e, pid)
    ensures FichaTras(e, PDesuspender(pid), q, ProcesoDe(e.procs, q), ProcesoDe(Desuspender(e, pid).estado.procs, q))
  {
    hide Inv, VuelveEntero, SimularProceso, MismosSegmentos, ReponerTodos;
    var r := BuscarProceso(e.procs, pid);
    if r.Algo? {
      var v := Desuspender(e, pid);
      NoVuelve(e, pid, v);
      if v.codigo == DESUSPEND_OK { VuelveFicha(e, pid, r.valor, v, q); }
    }
  }

  lemma Quieto(e: Estado, i: nat, js: seq<nat>, w: Vuelta)
    requires i < |e.procs| && js == [] && w == ReponerTodos(e, i, js)
    ensures w.estado == e
  {
  }

  lemma CompactarFicha(e: Estado, q: nat)
    requires Inv(e)
    ensures FichaTras(e, PCompactar, q, ProcesoDe(e.procs, q), ProcesoDe(Compactar(e).procs, q))
  {
    hide Compactar, Embaldosa, SwapOk;
    CompactarForma(e);
    FormaBuscar(e.procs, Compactar(e).procs, q);
    var r := BuscarProceso(e.procs, q);
    if r.Algo? { assert MismoProceso(e.procs[r.valor], Compactar(e).procs[r.valor]); }
  }

  /** What each request does to the table of processes, process by process; and the memory grows by a
      stick and by nothing else. */
  lemma {:induction false} AtenderFicha(e: Estado, r: Pedido, q: nat)
    requires Inv(e) && Admite(e, r)
    ensures var f := Atender(e, r);
      && FichaTras(e, r, q, ProcesoDe(e.procs, q), ProcesoDe(f.procs, q))
      && (if r.PStick? then f.mem == e.mem + r.bytes && f.libre == e.libre + |r.bytes| else |f.mem| == |e.mem|)
  {
    hide Inv, Crear, Eliminar, Finalizar, Suspender, Desuspender, Compactar, HuecoDe, NoCabe, Sale, SinId, MismosSegmentos, Insertar;
    if !r.PStick? { AtenderLargo(e, r); }
    match r
    case PIniciar(pid) => IniciarFicha(e, pid, q);
    case PCrear(pid, id, tam) => CrearFicha(e, pid, id, tam, q);
    case PEliminar(pid, id) => EliminarFicha(e, pid, id, q);
    case PFinalizar(pid) => FinalizarFicha(e, pid, q);
    case PSuspender(pid) => SuspenderFicha(e, pid, q);
    case PDesuspender(pid) => DesuspenderFicha(e, pid, q);
    case PCompactar => CompactarFicha(e, q);
    case PStick(bytes) =>
    case PEscribir(pid, dir, datos) =>
  }

  lemma IniciarFicha(e: Estado, pid: nat, q: nat)
    requires Inv(e) && ProcesoDe(e.procs, pid).Nada?
    ensures FichaTras(e, PIniciar(pid), q, ProcesoDe(e.procs, q), ProcesoDe(Iniciar(e, pid).procs, q))
  {
    hide Embaldosa, SwapOk;
    ProcesoDeAgrega(e.procs, Proceso(pid, [], false), q);
  }

  lemma AtenderLargo(e: Estado, r: Pedido)
    requires Inv(e) && Admite(e, r) && !r.PStick?
    ensures |Atender(e, r).mem| == |e.mem|
  {
    hide Embaldosa, SwapOk, Desuspender, Suspender, Insertar, Consumir, Elegir, LiberarTodos, LiberarBloques, Presentes;
    match r
    case PSuspender(pid) => SuspenderLargo(e, pid);
    case PDesuspender(pid) => DesuspenderLargo(e, pid);
    case _ =>
  }

  lemma SuspenderLargo(e: Estado, pid: nat)
    ensures |Suspender(e, pid).estado.mem| == |e.mem|
  {
    hide SuspenderDesde;
    var r := BuscarProceso(e.procs, pid);
    if r.Algo? { SuspenderCuenta(e, r.valor, 0, 0, Suspender(e, pid)); }
  }

  lemma DesuspenderLargo(e: Estado, pid: nat)
    requires Inv(e)
    ensures |Desuspender(e, pid).estado.mem| == |e.mem|
  {
    hide ReponerTodos, EnCurso;
    var r := BuscarProceso(e.procs, pid);
    if r.Algo? {
      Propio(e.procs, r.valor);
      var fuera := DesuspenderEmpieza(e, r.valor);
      ReponerCuenta(e, r.valor, Bloques(e.tabla, pid), fuera, ReponerTodos(e, r.valor, Bloques(e.tabla, pid)));
    }
  }

  // ---------------------------------------------------------------- the announcement

  /** The pids announced are in the order of the table, once each. */
  ghost predicate EnOrdenDeTabla(procs: seq<Proceso>, ps: seq<nat>)
  {
    exists ns: seq<nat> :: |ns| == |ps| && Crecen(ns, |procs|) && forall x :: 0 <= x < |ps| ==> procs[ns[x]].pid == ps[x]
  }

  predicate Crecen(xs: seq<nat>, n: nat)
  {
    (forall x :: 0 <= x < |xs| ==> xs[x] < n) && forall x, y :: 0 <= x < y < |xs| ==> xs[x] < xs[y]
  }

  lemma {:induction false} NotificarPosiciones(e: Estado, n: nat) returns (ns: seq<nat>)
    requires n <= |e.procs|
    ensures |ns| == |NotificarHasta(e, n)| && Crecen(ns, n)
    ensures forall x :: 0 <= x < |ns| ==> e.procs[ns[x]].pid == NotificarHasta(e, n)[x]
  {
    ns := [];
    if n > 0 {
      ns := NotificarPosiciones(e, n - 1);
      if Entra(e, n - 1) { ns := ns + [n - 1]; }
    }
  }

  /** Something is announced exactly if some process is in swap, be it an empty list; and the pids go
      in the order of the table. */
  lemma {:induction false} NotificarEnOrden(e: Estado)
    ensures Notificar(e).Algo? <==> exists n :: 0 <= n < |e.procs| && e.procs[n].enSwap
    ensures Notificar(e).Algo? ==> EnOrdenDeTabla(e.procs, Notificar(e).valor)
  {
    if Notificar(e).Algo? {
      var ns := NotificarPosiciones(e, |e.procs|);
    }
  }
}
