/** `desuspender_proceso` of kernel_memory/src/swap_gestor.c and the dry run of it,
    `notificar_desuspendibles` of kernel_memory/src/memory.c. */
module Desuspension {
  import opened Secuencias
  import opened Rangos
  import opened Mmu
  import opened Memoria
  import opened Asignador
  import opened Swap
  import opened Suspension

  /** Blocks of process `pid` among the first `n`, in table order. */
  function BloquesHasta(tabla: seq<Bloque>, pid: nat, n: nat): (js: seq<nat>)
    requires n <= |tabla|
    ensures forall j: nat :: j in js <==> j < n && tabla[j].ocupado && tabla[j].pid == pid
    ensures forall x :: 0 <= x < |js| ==> js[x] < n
    ensures forall x, y :: 0 <= x < y < |js| ==> js[x] < js[y]
  {
    if n == 0 then []
    else
      var r := BloquesHasta(tabla, pid, n - 1);
      if tabla[n - 1].ocupado && tabla[n - 1].pid == pid then r + [n - 1] else r
  }

  function Bloques(tabla: seq<Bloque>, pid: nat): (js: seq<nat>)
    ensures forall x :: 0 <= x < |js| ==> js[x] < |tabla|
  {
    BloquesHasta(tabla, pid, |tabla|)
  }

  /** `asignar_fisica_segmento`, for the process at position `i`. */
  function Asignar(e: Estado, i: nat, id: nat, tam: nat): (Estado, Codigo)
    requires i < |e.procs|
  {
    var segs := e.procs[i].segs;
    match BuscarSegmento(segs, id)
    case Nada => (e, MEMORIA_NO_DISPONIBLE)
    case Algo(k) =>
      match Elegir(e.huecos, tam, e.cfg.mejor)
      case Nada => (e, if e.libre >= tam then COMPACTACION else MEMORIA_NO_DISPONIBLE)
      case Algo(h) =>
        (e.(procs := e.procs[i := e.procs[i].(segs := segs[k := segs[k].(base := e.huecos[h].base)])],
            huecos := Consumir(e.huecos, h, tam),
            libre := e.libre - tam), MEMORIA_DISPONIBLE)
  }

  /** One turn of the loop that succeeds: block `j` fills segment `k`, which takes hole `h`. */
  function Reponer(e: Estado, i: nat, j: nat, k: nat, h: nat): (f: Estado)
    requires i < |e.procs| && j < |e.tabla| && k < |e.procs[i].segs|
    requires h < |e.huecos| && e.tabla[j].tam <= e.huecos[h].limite
    ensures f.cfg == e.cfg && |f.procs| == |e.procs| && |f.tabla| == |e.tabla| && |f.mem| == |e.mem|
  {
    var p := e.procs[i];
    var b := e.tabla[j];
    e.(procs := e.procs[i := p.(segs := p.segs[k := p.segs[k].(base := e.huecos[h].base)])],
       huecos := Consumir(e.huecos, h, b.tam),
       libre := e.libre - b.tam,
       mem := Grabar(e.mem, e.huecos[h].base, LeerBloque(e.swap, j * e.cfg.bloque, b.tam)),
       tabla := e.tabla[j := b.(ocupado := false)])
  }

  /** What the sticks hold after storing `d` at `dir`. */
  function Grabar(mem: seq<byte>, dir: nat, d: seq<byte>): (r: seq<byte>)
    ensures |r| == |mem|
  {
    if dir + |d| <= |mem| then Pisar(mem, dir, d) else mem
  }

  datatype Vuelta = Vuelta(estado: Estado, codigo: Codigo)

  /** The loop, over the blocks listed. */
  function ReponerTodos(e: Estado, i: nat, js: seq<nat>): (v: Vuelta)
    requires i < |e.procs| && forall j :: j in js ==> j < |e.tabla|
    ensures |v.estado.procs| == |e.procs| && v.codigo != DESUSPEND_OK
    decreases |js|
  {
    if js == [] then Vuelta(e, MEMORIA_DISPONIBLE)
    else
      assert js[0] in js && forall j :: j in js[1..] ==> j in js;
      var b := e.tabla[js[0]];
      var c := Asignar(e, i, b.seg, b.tam).1;
      if c != MEMORIA_DISPONIBLE then Vuelta(e, c)
      else
        var k := BuscarSegmento(e.procs[i].segs, b.seg).valor;
        var h := Elegir(e.huecos, b.tam, e.cfg.mejor).valor;
        ReponerTodos(Reponer(e, i, js[0], k, h), i, js[1..])
  }

  function Marcar(e: Estado, i: nat, enSwap: bool): Estado
    requires i < |e.procs|
  {
    e.(procs := e.procs[i := e.procs[i].(enSwap := enSwap)])
  }

  function Desuspender(e: Estado, pid: nat): Vuelta
  {
    var js := Bloques(e.tabla, pid);
    match BuscarProceso(e.procs, pid)
    case Nada => Vuelta(e, if js == [] then DESUSPEND_OK else MEMORIA_NO_DISPONIBLE)
    case Algo(i) =>
      var v := ReponerTodos(e, i, js);
      if v.codigo == MEMORIA_DISPONIBLE then Vuelta(Marcar(v.estado, i, false), DESUSPEND_OK) else v
  }

  // ---------------------------------------------------------------- one block comes back

  lemma {:induction false} EntraVeces(procs: seq<Proceso>, i: nat, k: nat, fuera: set<nat>, base: nat, a: nat)
    requires i < |procs| && k < |procs[i].segs| && IdsDistintos(procs[i].segs) && procs[i].segs[k].id in fuera
    ensures var s := procs[i].segs[k];
      var ps := procs[i := procs[i].(segs := procs[i].segs[k := s.(base := base)])];
      && Veces(Parcial(ps, i, fuera - {s.id}), a) == Veces(Parcial(procs, i, fuera), a) + Rango(base, s.limite).Uno(a)
      && Suma(Parcial(ps, i, fuera - {s.id})) == Suma(Parcial(procs, i, fuera)) + s.limite
  {
    var s := procs[i].segs[k];
    var ps := procs[i := procs[i].(segs := procs[i].segs[k := s.(base := base)])];
    PresentesEntra(procs[i].segs, k, fuera, base, a);
    ParcialVeces(procs, i, fuera, a);
    ParcialVeces(ps, i, fuera - {s.id}, a);
    assert ps[..i] == procs[..i] && ps[i + 1..] == procs[i + 1..];
  }

  /** What the transit knows about the block that comes back. */
  ghost predicate Vuelve(e: Estado, i: nat, j: nat, k: nat, h: nat, fuera: set<nat>)
  {
    && EnCurso(e, i, fuera) && j < |e.tabla| && k < |e.procs[i].segs| && h < |e.huecos|
    && e.tabla[j].ocupado && e.tabla[j].pid == e.procs[i].pid && e.tabla[j].seg == e.procs[i].segs[k].id
    && e.tabla[j].tam == e.procs[i].segs[k].limite <= e.huecos[h].limite
    && e.procs[i].segs[k].id in fuera
  }

  lemma VuelveBloque(e: Estado, i: nat, j: nat, fuera: set<nat>) returns (k: nat)
    requires EnCurso(e, i, fuera) && j < |e.tabla| && e.tabla[j].ocupado && e.tabla[j].pid == e.procs[i].pid
    ensures k < |e.procs[i].segs| && BuscarSegmento(e.procs[i].segs, e.tabla[j].seg) == Algo(k)
    ensures e.tabla[j].seg == e.procs[i].segs[k].id && e.tabla[j].tam == e.procs[i].segs[k].limite
    ensures e.procs[i].segs[k].id in fuera
  {
    assert BloqueEn(e, i, fuera, j);
    k := BuscarSegmento(e.procs[i].segs, e.tabla[j].seg).valor;
  }

  lemma {:induction false} ReponerEmbaldosa(e: Estado, i: nat, j: nat, k: nat, h: nat, fuera: set<nat>)
    requires Vuelve(e, i, j, k, h, fuera)
    ensures var f := Reponer(e, i, j, k, h);
            Embaldosa(Parcial(f.procs, i, fuera - {e.tabla[j].seg}), f.huecos, f.libre, |f.mem|)
  {
    var f := Reponer(e, i, j, k, h);
    assert SegmentosOk(e.cfg, e.procs[i].segs);
    var g := fuera - {e.tabla[j].seg};
    var base, tam := e.huecos[h].base, e.tabla[j].tam;
    forall a: nat
      ensures Veces(Parcial(f.procs, i, g), a) == Veces(Parcial(e.procs, i, fuera), a) + Rango(base, tam).Uno(a)
    {
      EntraVeces(e.procs, i, k, fuera, base, a);
    }
    EntraVeces(e.procs, i, k, fuera, base, 0);
    Tomar(Parcial(e.procs, i, fuera), Parcial(f.procs, i, g), e.huecos, h, tam, e.libre, |e.mem|);
  }

  lemma ReponerProcs(cfg: Config, procs: seq<Proceso>, i: nat, k: nat, base: nat)
    requires ProcsOk(cfg, procs) && i < |procs| && k < |procs[i].segs|
    ensures ProcsOk(cfg, procs[i := procs[i].(segs := procs[i].segs[k := procs[i].segs[k].(base := base)])])
  {
    assert SegmentosOk(cfg, procs[i].segs);
    var t := procs[i].segs[k := procs[i].segs[k].(base := base)];
    assert forall n :: 0 <= n < |t| ==> t[n].limite == procs[i].segs[n].limite && t[n].id == procs[i].segs[n].id;
    ProcsOkCambia(cfg, procs, i, procs[i].(segs := t));
  }

  /** Block `j` no longer holds its segment and every other block is as it was. */
  lemma BloquesMenos(t: seq<Bloque>, j: nat)
    requires j < |t| && t[j].ocupado && BloquesUnicos(t)
    ensures BloquesUnicos(t[j := t[j].(ocupado := false)])
    ensures forall p: nat, m: nat :: (p, m) != (t[j].pid, t[j].seg) ==>
              BloqueDe(t[j := t[j].(ocupado := false)], p, m) == BloqueDe(t, p, m)
    ensures forall p: nat, m: nat :: (p, m) != (t[j].pid, t[j].seg) && HayBloque(t, p, m) ==>
              HayBloque(t[j := t[j].(ocupado := false)], p, m)
  {
    var u := t[j := t[j].(ocupado := false)];
    forall p: nat, m: nat | (p, m) != (t[j].pid, t[j].seg)
      ensures BloqueDe(u, p, m) == BloqueDe(t, p, m)
      ensures HayBloque(t, p, m) ==> HayBloque(u, p, m)
    {
      assert forall x :: EsBloque(u, x, p, m) <==> EsBloque(t, x, p, m);
      BloqueMismo(t, u, p, m);
    }
  }

  lemma ReponerSwap(e: Estado, i: nat, j: nat, k: nat, h: nat, fuera: set<nat>)
    requires Vuelve(e, i, j, k, h, fuera)
    ensures SwapEn(Reponer(e, i, j, k, h), i, fuera - {e.tabla[j].seg})
  {
    var f := Reponer(e, i, j, k, h);
    var g := fuera - {e.tabla[j].seg};
    BloquesMenos(e.tabla, j);
    forall x | 0 <= x < |f.tabla| ensures BloqueEn(f, i, g, x) {
      assert BloqueEn(e, i, fuera, x);
      if f.tabla[x].ocupado {
        ReponerBusca(e, i, j, k, h, x);
      }
    }
  }

  /** Looking things up gives the same answers after the block came back, bases aside. */
  lemma ReponerBusca(e: Estado, i: nat, j: nat, k: nat, h: nat, x: nat)
    requires i < |e.procs| && j < |e.tabla| && k < |e.procs[i].segs| && h < |e.huecos| && x < |e.tabla|
    requires e.tabla[j].tam <= e.huecos[h].limite && ProcsOk(e.cfg, e.procs) && x != j
    ensures var f := Reponer(e, i, j, k, h);
      && (e.tabla[x].pid != e.procs[i].pid ==> ProcesoDe(f.procs, e.tabla[x].pid) == ProcesoDe(e.procs, e.tabla[x].pid))
      && MismoLimite(SegmentoDe(f.procs[i].segs, e.tabla[x].seg), SegmentoDe(e.procs[i].segs, e.tabla[x].seg))
  {
    var f := Reponer(e, i, j, k, h);
    assert SegmentosOk(e.cfg, e.procs[i].segs);
    ProcesoDeCambia(e.procs, i, f.procs[i], e.tabla[x].pid);
    SegmentoDeCambia(e.procs[i].segs, k, f.procs[i].segs[k], e.tabla[x].seg);
    var r := BuscarSegmento(e.procs[i].segs, e.tabla[x].seg);
    if r.Algo? && r.valor != k {
      assert e.procs[i].segs[r.valor].id != e.procs[i].segs[k].id;
    }
  }

  predicate MismoLimite(x: Opcion<Segmento>, y: Opcion<Segmento>)
  {
    x.Algo? == y.Algo? && (x.Algo? ==> x.valor.limite == y.valor.limite && x.valor.id == y.valor.id)
  }

  lemma {:induction false} ReponerEnCurso(e: Estado, i: nat, j: nat, k: nat, h: nat, fuera: set<nat>)
    requires Vuelve(e, i, j, k, h, fuera)
    ensures EnCurso(Reponer(e, i, j, k, h), i, fuera - {e.tabla[j].seg})
  {
    ReponerEmbaldosa(e, i, j, k, h, fuera);
    ReponerProcs(e.cfg, e.procs, i, k, e.huecos[h].base);
    ReponerSwap(e, i, j, k, h, fuera);
  }

  // ---------------------------------------------------------------- with its bytes

  /** A place that the transit counts as occupied is counted. */
  lemma {:induction false} EnParcial(procs: seq<Proceso>, i: nat, fuera: set<nat>, n: nat, k: nat, a: nat)
    requires i < |procs| && n < |procs| && k < |procs[n].segs| && IdsDistintos(procs[n].segs)
    requires if n == i then procs[n].segs[k].id !in fuera else !procs[n].enSwap
    ensures Sitio(procs[n].segs[k]).Uno(a) <= Veces(Parcial(procs, i, fuera), a)
  {
    if n == i {
      SaleVeces(procs, i, k, fuera, a);
    } else {
      var ps := procs[i := procs[i].(enSwap := true)];
      ParcialVeces(procs, i, fuera, a);
      ResidentesPartida(ps, i, a);
      assert ps[..i] == procs[..i] && ps[i + 1..] == procs[i + 1..];
      var x := ResidentesTiene(ps, n, k);
      VecesPartida(Residentes(ps), x, a);
    }
  }

  /** Nothing that is inside meets a hole, nor does a hole leave memory. */
  lemma {:induction false} HuecoAparte(e: Estado, i: nat, fuera: set<nat>, n: nat, k: nat, h: nat)
    requires EnCurso(e, i, fuera) && n < |e.procs| && k < |e.procs[n].segs| && h < |e.huecos|
    requires if n == i then e.procs[n].segs[k].id !in fuera else !e.procs[n].enSwap
    ensures Sitio(e.procs[n].segs[k]).Fin() <= e.huecos[h].base || e.huecos[h].Fin() <= e.procs[n].segs[k].base
  {
    hide SwapEn, Parcial;
    assert SegmentosOk(e.cfg, e.procs[n].segs);
    var s, r := Sitio(e.procs[n].segs[k]), e.huecos[h];
    var a := if s.base < r.base then r.base else s.base;
    assert Veces(Parcial(e.procs, i, fuera), a) + Veces(e.huecos, a) <= 1;
    EnParcial(e.procs, i, fuera, n, k, a);
    VecesPartida(e.huecos, h, a);
  }

  lemma HuecoCabe(e: Estado, i: nat, fuera: set<nat>, h: nat)
    requires EnCurso(e, i, fuera) && h < |e.huecos|
    ensures e.huecos[h].Fin() <= |e.mem|
  {
    var a := e.huecos[h].Fin() - 1;
    VecesPartida(e.huecos, h, a);
    assert Veces(Parcial(e.procs, i, fuera), a) + Veces(e.huecos, a) == if a < |e.mem| then 1 else 0;
  }

  /** Where the process and the segment are found is not changed by the new base. */
  lemma ReponerLugares(e: Estado, i: nat, k: nat, f: Estado, p: nat, m: nat)
    requires ProcsOk(e.cfg, e.procs) && i < |e.procs| && k < |e.procs[i].segs| && |f.procs| == |e.procs|
    requires f.procs == e.procs[i := f.procs[i]] && f.procs[i] == e.procs[i].(segs := f.procs[i].segs)
    requires |f.procs[i].segs| == |e.procs[i].segs| && f.procs[i].segs == e.procs[i].segs[k := f.procs[i].segs[k]]
    requires f.procs[i].segs[k].id == e.procs[i].segs[k].id
    ensures BuscarProceso(f.procs, p) == BuscarProceso(e.procs, p)
    ensures forall q :: BuscarProceso(e.procs, p) == Algo(q) ==>
              BuscarSegmento(f.procs[q].segs, m) == BuscarSegmento(e.procs[q].segs, m)
  {
    assert SegmentosOk(e.cfg, e.procs[i].segs);
    ProcesoDeCambia(e.procs, i, f.procs[i], p);
    SegmentoDeCambia(e.procs[i].segs, k, f.procs[i].segs[k], m);
  }

  /** The segment that comes back: its block was the only one, and its bytes are now at the
      base of the hole. */
  lemma ReponerPropio(e: Estado, i: nat, j: nat, k: nat, h: nat, fuera: set<nat>, f: Estado, p: nat, m: nat)
    requires Vuelve(e, i, j, k, h, fuera) && p == e.procs[i].pid && m == e.tabla[j].seg
    requires f == Reponer(e, i, j, k, h)
    ensures ContenidoEn(f, i, fuera - {m}, p, m) == ContenidoEn(e, i, fuera, p, m)
  {
    hide ContenidoEn, Embaldosa, LeerBloque;
    assert SegmentosOk(e.cfg, e.procs[i].segs);
    assert BuscarProceso(e.procs, p) == Algo(i) && BuscarSegmento(e.procs[i].segs, m) == Algo(k);
    ReponerLugares(e, i, k, f, p, m);
    LeidoDeSwap(e, i, fuera, p, m, i, k);
    LeidoDeMemoria(f, i, fuera - {m}, p, m, i, k);
    ReponerBytes(e, i, j, k, h, fuera, f);
  }

  lemma ReponerBytes(e: Estado, i: nat, j: nat, k: nat, h: nat, fuera: set<nat>, f: Estado)
    requires Vuelve(e, i, j, k, h, fuera) && f == Reponer(e, i, j, k, h)
    ensures BloqueDe(e.tabla, e.procs[i].pid, e.tabla[j].seg) == j
    ensures Tajada(f.mem, f.procs[i].segs[k].base, f.procs[i].segs[k].limite)
         == Tajada(e.swap, j * e.cfg.bloque, e.procs[i].segs[k].limite)
  {
    hide LeerBloque, EnCurso, BloqueDe, Grabar, Tajada, Consumir;
    BloqueVuelve(e, i, j, k, h, fuera);
    HuecoCabe(e, i, fuera, h);
    GrabarTajada(e.mem, e.huecos[h].base, LeerBloque(e.swap, j * e.cfg.bloque, e.tabla[j].tam));
  }

  lemma BloqueVuelve(e: Estado, i: nat, j: nat, k: nat, h: nat, fuera: set<nat>)
    requires Vuelve(e, i, j, k, h, fuera)
    ensures i < |e.procs| && k < |e.procs[i].segs|
    ensures BloqueDe(e.tabla, e.procs[i].pid, e.tabla[j].seg) == j
    ensures j * e.cfg.bloque + e.tabla[j].tam <= |e.swap|
  {
    hide Embaldosa, BloqueDe, HayBloque, BloquesUnicos, BloqueEn, SegmentosOk;
    BloqueUnico(e.tabla, j);
    assert EsBloque(e.tabla, j, e.procs[i].pid, e.tabla[j].seg);
    BloqueLargo(e, i, fuera, j, e.procs[i].pid, e.tabla[j].seg);
  }

  lemma BloqueUnico(tabla: seq<Bloque>, j: nat)
    requires j < |tabla| && tabla[j].ocupado && BloquesUnicos(tabla)
    ensures BloqueDe(tabla, tabla[j].pid, tabla[j].seg) == j
  {
    assert EsBloque(tabla, j, tabla[j].pid, tabla[j].seg);
  }

  lemma GrabarTajada(mem: seq<byte>, dir: nat, d: seq<byte>)
    requires dir + |d| <= |mem|
    ensures Tajada(Grabar(mem, dir, d), dir, |d|) == d
  {
  }

  lemma ReponerAjeno(e: Estado, i: nat, j: nat, k: nat, h: nat, fuera: set<nat>, f: Estado, p: nat, m: nat)
    requires Vuelve(e, i, j, k, h, fuera) && (p, m) != (e.procs[i].pid, e.tabla[j].seg)
    requires f == Reponer(e, i, j, k, h)
    ensures ContenidoEn(f, i, fuera - {e.tabla[j].seg}, p, m) == ContenidoEn(e, i, fuera, p, m)
  {
    ReponerLugares(e, i, k, f, p, m);
    var q := BuscarProceso(e.procs, p);
    if q.Algo? && BuscarSegmento(e.procs[q.valor].segs, m).Algo? {
      ReponerAjenoEn(e, i, j, k, h, fuera, f, p, m, q.valor, BuscarSegmento(e.procs[q.valor].segs, m).valor);
    }
  }

  lemma ReponerAjenoEn(e: Estado, i: nat, j: nat, k: nat, h: nat, fuera: set<nat>, f: Estado, p: nat, m: nat, q: nat, n: nat)
    requires Vuelve(e, i, j, k, h, fuera) && (p, m) != (e.procs[i].pid, e.tabla[j].seg)
    requires f == Reponer(e, i, j, k, h)
    requires BuscarProceso(e.procs, p) == Algo(q) && BuscarSegmento(e.procs[q].segs, m) == Algo(n)
    requires q < |f.procs| && BuscarProceso(f.procs, p) == Algo(q) && BuscarSegmento(f.procs[q].segs, m) == Algo(n)
    ensures ContenidoEn(f, i, fuera - {e.tabla[j].seg}, p, m) == ContenidoEn(e, i, fuera, p, m)
  {
    hide ContenidoEn, Reponer, Embaldosa;
    var g := fuera - {e.tabla[j].seg};
    ReponerMismo(e, i, j, k, h, f, q, n);
    if if p == e.procs[i].pid then m !in fuera else !e.procs[q].enSwap {
      LeidoDeMemoria(e, i, fuera, p, m, q, n);
      LeidoDeMemoria(f, i, g, p, m, q, n);
      ReponerMemoria(e, i, j, k, h, fuera, q, n);
    } else {
      LeidoDeSwap(e, i, fuera, p, m, q, n);
      LeidoDeSwap(f, i, g, p, m, q, n);
      BloquesMenos(e.tabla, j);
    }
  }

  lemma ReponerMismo(e: Estado, i: nat, j: nat, k: nat, h: nat, f: Estado, q: nat, n: nat)
    requires i < |e.procs| && j < |e.tabla| && k < |e.procs[i].segs| && h < |e.huecos|
    requires e.tabla[j].tam <= e.huecos[h].limite && q < |e.procs| && n < |e.procs[q].segs|
    requires f == Reponer(e, i, j, k, h) && (q, n) != (i, k)
    ensures n < |f.procs[q].segs| && f.procs[q].segs[n] == e.procs[q].segs[n]
    ensures f.procs[q].pid == e.procs[q].pid && f.procs[q].enSwap == e.procs[q].enSwap
    ensures f.procs[i].pid == e.procs[i].pid
    ensures f.swap == e.swap && f.tabla == e.tabla[j := e.tabla[j].(ocupado := false)]
    ensures f.mem == Grabar(e.mem, e.huecos[h].base, LeerBloque(e.swap, j * e.cfg.bloque, e.tabla[j].tam))
  {
  }

  lemma ReponerMemoria(e: Estado, i: nat, j: nat, k: nat, h: nat, fuera: set<nat>, q: nat, n: nat)
    requires Vuelve(e, i, j, k, h, fuera) && q < |e.procs| && n < |e.procs[q].segs|
    requires if q == i then e.procs[q].segs[n].id !in fuera else !e.procs[q].enSwap
    ensures Tajada(Grabar(e.mem, e.huecos[h].base, LeerBloque(e.swap, j * e.cfg.bloque, e.tabla[j].tam)),
                   e.procs[q].segs[n].base, e.procs[q].segs[n].limite)
         == Tajada(e.mem, e.procs[q].segs[n].base, e.procs[q].segs[n].limite)
  {
    hide LeerBloque, EnCurso, Grabar, Tajada;
    var s := e.procs[q].segs[n];
    HuecoAparte(e, i, fuera, q, n, h);
    GrabarAparte(e.mem, s.base, s.limite, e.huecos[h].base, LeerBloque(e.swap, j * e.cfg.bloque, e.tabla[j].tam));
  }

  lemma GrabarAparte(mem: seq<byte>, b: nat, l: nat, dir: nat, d: seq<byte>)
    requires b + l <= dir || dir + |d| <= b
    ensures Tajada(Grabar(mem, dir, d), b, l) == Tajada(mem, b, l)
  {
    if dir + |d| <= |mem| {
      TajadaAjena(mem, b, l, dir, d);
    }
  }

  // ---------------------------------------------------------------- the whole loop

  lemma ReponerPaso(e: Estado, i: nat, js: seq<nat>, fuera: set<nat>, v: Vuelta) returns (k: nat, h: nat, f: Estado)
    requires EnCurso(e, i, fuera) && js != [] && (forall j :: j in js ==> j < |e.tabla|) && v == ReponerTodos(e, i, js)
    requires js[0] < |e.tabla| && e.tabla[js[0]].ocupado && e.tabla[js[0]].pid == e.procs[i].pid
    requires Elegir(e.huecos, e.tabla[js[0]].tam, e.cfg.mejor).Algo?
    ensures Vuelve(e, i, js[0], k, h, fuera) && f == Reponer(e, i, js[0], k, h)
    ensures Elegir(e.huecos, e.tabla[js[0]].tam, e.cfg.mejor) == Algo(h)
    ensures (forall j :: j in js[1..] ==> j < |f.tabla|) && v == ReponerTodos(f, i, js[1..])
  {
    assert js[0] in js && forall j :: j in js[1..] ==> j in js;
    k := VuelveBloque(e, i, js[0], fuera);
    h := Elegir(e.huecos, e.tabla[js[0]].tam, e.cfg.mejor).valor;
    f := Reponer(e, i, js[0], k, h);
  }

  lemma ReponerCorta(e: Estado, i: nat, js: seq<nat>, fuera: set<nat>, v: Vuelta)
    requires EnCurso(e, i, fuera) && js != [] && (forall j :: j in js ==> j < |e.tabla|) && v == ReponerTodos(e, i, js)
    requires js[0] < |e.tabla| && e.tabla[js[0]].ocupado && e.tabla[js[0]].pid == e.procs[i].pid
    requires Elegir(e.huecos, e.tabla[js[0]].tam, e.cfg.mejor).Nada?
    ensures v.estado == e && v.codigo in {COMPACTACION, MEMORIA_NO_DISPONIBLE}
  {
    var k := VuelveBloque(e, i, js[0], fuera);
  }

  /** `js` lists, once each, the blocks that process `pid` still has. */
  ghost predicate Quedan(tabla: seq<Bloque>, pid: nat, js: seq<nat>)
  {
    && (forall j: nat :: j in js <==> j < |tabla| && tabla[j].ocupado && tabla[j].pid == pid)
    && forall x, y :: 0 <= x < y < |js| ==> js[x] < js[y]
  }

  lemma QuedanMenos(tabla: seq<Bloque>, pid: nat, js: seq<nat>)
    requires Quedan(tabla, pid, js) && js != []
    ensures js[0] < |tabla| && tabla[js[0]].ocupado && tabla[js[0]].pid == pid
    ensures Quedan(tabla[js[0] := tabla[js[0]].(ocupado := false)], pid, js[1..])
  {
    assert js[0] in js;
    var u := tabla[js[0] := tabla[js[0]].(ocupado := false)];
    forall j: nat ensures j in js[1..] <==> j < |u| && u[j].ocupado && u[j].pid == pid {
      assert j in js <==> j == js[0] || j in js[1..] by {
        assert js == [js[0]] + js[1..];
      }
      if j in js[1..] {
        var x :| 0 <= x < |js[1..]| && js[1..][x] == j;
        assert js[0] < js[x + 1];
      }
    }
  }

  ghost predicate Conocidos(segs: seq<Segmento>, fuera: set<nat>)
  {
    forall id :: id in fuera ==> BuscarSegmento(segs, id).Algo?
  }

  lemma NadieFuera(e: Estado, i: nat, fuera: set<nat>)
    requires EnCurso(e, i, fuera) && Quedan(e.tabla, e.procs[i].pid, []) && Conocidos(e.procs[i].segs, fuera)
    ensures fuera == {}
  {
    var pid := e.procs[i].pid;
    forall j | 0 <= j < |e.tabla| && e.tabla[j].ocupado ensures e.tabla[j].pid != pid {
      assert j !in [];
    }
    forall id ensures id !in fuera {
      assert !HayBloque(e.tabla, pid, id);
      var r := BuscarSegmento(e.procs[i].segs, id);
      if r.Algo? {
        assert e.procs[i].segs[r.valor].id == id;
      }
    }
  }

  /** `f` is `e` with the segments of process `i` elsewhere. */
  ghost predicate SoloSegmentos(e: Estado, f: Estado, i: nat)
  {
    && i < |e.procs| == |f.procs| && f.procs == e.procs[i := f.procs[i]]
    && f.procs[i] == e.procs[i].(segs := f.procs[i].segs) && f.cfg == e.cfg && |f.mem| == |e.mem|
  }

  lemma SoloSegmentosSigue(e: Estado, f: Estado, g: Estado, i: nat)
    requires SoloSegmentos(e, f, i) && SoloSegmentos(f, g, i)
    ensures SoloSegmentos(e, g, i)
  {
    assert g.procs == e.procs[i := g.procs[i]];
  }

  lemma {:induction false} ReponerCurso(e: Estado, i: nat, js: seq<nat>, fuera: set<nat>, v: Vuelta)
    requires EnCurso(e, i, fuera) && Quedan(e.tabla, e.procs[i].pid, js) && Conocidos(e.procs[i].segs, fuera)
    requires v == ReponerTodos(e, i, js) && v.codigo == MEMORIA_DISPONIBLE
    ensures EnCurso(v.estado, i, {}) && Quedan(v.estado.tabla, e.procs[i].pid, [])
    ensures SoloSegmentos(e, v.estado, i)
    decreases |js|
  {
    if js == [] {
      NadieFuera(e, i, fuera);
    } else {
      QuedanMenos(e.tabla, e.procs[i].pid, js);
      if Elegir(e.huecos, e.tabla[js[0]].tam, e.cfg.mejor).Nada? {
        ReponerCorta(e, i, js, fuera, v);
      } else {
        var k, h, f := ReponerPaso(e, i, js, fuera, v);
        ReponerEnCurso(e, i, js[0], k, h, fuera);
        ReponerConocidos(e, i, js[0], k, h, f, fuera);
        ReponerCurso(f, i, js[1..], fuera - {e.tabla[js[0]].seg}, v);
        SoloSegmentosSigue(e, f, v.estado, i);
      }
    }
  }

  lemma ReponerConocidos(e: Estado, i: nat, j: nat, k: nat, h: nat, f: Estado, fuera: set<nat>)
    requires Vuelve(e, i, j, k, h, fuera) && f == Reponer(e, i, j, k, h) && Conocidos(e.procs[i].segs, fuera)
    ensures Conocidos(f.procs[i].segs, fuera - {e.tabla[j].seg})
    ensures f.procs[i].pid == e.procs[i].pid && f.tabla == e.tabla[j := e.tabla[j].(ocupado := false)]
    ensures SoloSegmentos(e, f, i)
  {
    assert SegmentosOk(e.cfg, e.procs[i].segs);
    forall id | id in fuera ensures BuscarSegmento(f.procs[i].segs, id).Algo? {
      SegmentoDeCambia(e.procs[i].segs, k, f.procs[i].segs[k], id);
    }
  }

  lemma {:induction false} ReponerContenido(e: Estado, i: nat, js: seq<nat>, fuera: set<nat>, v: Vuelta, p: nat, m: nat)
    requires EnCurso(e, i, fuera) && Quedan(e.tabla, e.procs[i].pid, js) && Conocidos(e.procs[i].segs, fuera)
    requires v == ReponerTodos(e, i, js) && v.codigo == MEMORIA_DISPONIBLE
    ensures ContenidoEn(v.estado, i, {}, p, m) == ContenidoEn(e, i, fuera, p, m)
    decreases |js|
  {
    if js == [] {
      NadieFuera(e, i, fuera);
    } else {
      QuedanMenos(e.tabla, e.procs[i].pid, js);
      if Elegir(e.huecos, e.tabla[js[0]].tam, e.cfg.mejor).Nada? {
        ReponerCorta(e, i, js, fuera, v);
      } else {
        var k, h, f := ReponerPaso(e, i, js, fuera, v);
        ReponerEnCurso(e, i, js[0], k, h, fuera);
        ReponerConocidos(e, i, js[0], k, h, f, fuera);
        if (p, m) == (e.procs[i].pid, e.tabla[js[0]].seg) {
          ReponerPropio(e, i, js[0], k, h, fuera, f, p, m);
        } else {
          ReponerAjeno(e, i, js[0], k, h, fuera, f, p, m);
        }
        ReponerContenido(f, i, js[1..], fuera - {e.tabla[js[0]].seg}, v, p, m);
      }
    }
  }

  // ---------------------------------------------------------------- desuspender_proceso

  /** Who owns blocks: a process that exists and is in swap. */
  lemma BloquesDeQuien(e: Estado, pid: nat)
    requires Inv(e)
    ensures Quedan(e.tabla, pid, Bloques(e.tabla, pid))
    ensures Bloques(e.tabla, pid) != [] ==> ProcesoDe(e.procs, pid).Algo? && ProcesoDe(e.procs, pid).valor.enSwap
  {
    var js := Bloques(e.tabla, pid);
    if js != [] {
      assert js[0] in js;
      assert BloqueCon(e, js[0]);
    }
  }

  lemma IdsConocidos(segs: seq<Segmento>)
    ensures Conocidos(segs, Ids(segs))
  {
  }

  lemma DesuspenderTermina(e: Estado, i: nat, f: Estado, g: Estado, pid: nat)
    requires PidsDistintos(e.procs) && SoloSegmentos(e, f, i) && e.procs[i].pid == pid && g == Marcar(f, i, false)
    requires EnCurso(f, i, {}) && Quedan(f.tabla, pid, [])
    ensures Inv(g) && ProcesoDe(g.procs, pid) == Algo(g.procs[i]) && !g.procs[i].enSwap
    ensures forall j :: 0 <= j < |g.tabla| && g.tabla[j].ocupado ==> g.tabla[j].pid != pid
  {
    TerminaInv(f, i, {}, false);
    ProcesoDeCambia(f.procs, i, g.procs[i], pid);
    assert BuscarProceso(f.procs, pid) == Algo(i);
    forall j | 0 <= j < |g.tabla| && g.tabla[j].ocupado ensures g.tabla[j].pid != pid {
      assert j !in [];
    }
  }

  /** Bringing a process back.  On success the invariant holds, every segment of every process
      reads the bytes it read before, the process is out of swap and owns no block. */
  lemma {:induction false} DesuspenderMantiene(e: Estado, pid: nat, v: Vuelta)
    requires Inv(e) && v == Desuspender(e, pid) && v.codigo == DESUSPEND_OK
    ensures Inv(v.estado) && NadaCambia(e, v.estado)
    ensures ProcesoDe(v.estado.procs, pid).Algo? == ProcesoDe(e.procs, pid).Algo?
    ensures ProcesoDe(v.estado.procs, pid).Algo? ==> !ProcesoDe(v.estado.procs, pid).valor.enSwap
    ensures forall j :: 0 <= j < |v.estado.tabla| && v.estado.tabla[j].ocupado ==> v.estado.tabla[j].pid != pid
  {
    BloquesDeQuien(e, pid);
    var r := BuscarProceso(e.procs, pid);
    if r.Algo? {
      var w := ReponerTodos(e, r.valor, Bloques(e.tabla, pid));
      DesuspenderInv(e, r.valor, w, v.estado);
      DesuspenderContenido(e, r.valor, w, v.estado);
    } else {
      forall j | 0 <= j < |e.tabla| && e.tabla[j].ocupado ensures e.tabla[j].pid != pid {
        assert BloqueCon(e, j);
      }
    }
  }

  lemma DesuspenderEmpieza(e: Estado, i: nat) returns (fuera: set<nat>)
    requires Inv(e) && i < |e.procs|
    ensures fuera == if e.procs[i].enSwap then Ids(e.procs[i].segs) else {}
    ensures EnCurso(e, i, fuera) && Conocidos(e.procs[i].segs, fuera)
    ensures Quedan(e.tabla, e.procs[i].pid, Bloques(e.tabla, e.procs[i].pid))
  {
    fuera := if e.procs[i].enSwap then Ids(e.procs[i].segs) else {};
    EmpiezaDentro(e, i);
    IdsConocidos(e.procs[i].segs);
    BloquesDeQuien(e, e.procs[i].pid);
  }

  lemma DesuspenderInv(e: Estado, i: nat, w: Vuelta, g: Estado)
    requires Inv(e) && i < |e.procs| && w == ReponerTodos(e, i, Bloques(e.tabla, e.procs[i].pid))
    requires w.codigo == MEMORIA_DISPONIBLE && g == Marcar(w.estado, i, false)
    ensures Inv(g) && ProcesoDe(g.procs, e.procs[i].pid) == Algo(g.procs[i]) && !g.procs[i].enSwap
    ensures forall j :: 0 <= j < |g.tabla| && g.tabla[j].ocupado ==> g.tabla[j].pid != e.procs[i].pid
  {
    var fuera := DesuspenderEmpieza(e, i);
    ReponerCurso(e, i, Bloques(e.tabla, e.procs[i].pid), fuera, w);
    DesuspenderTermina(e, i, w.estado, g, e.procs[i].pid);
  }

  lemma DesuspenderContenido(e: Estado, i: nat, w: Vuelta, g: Estado)
    requires Inv(e) && i < |e.procs| && w == ReponerTodos(e, i, Bloques(e.tabla, e.procs[i].pid))
    requires w.codigo == MEMORIA_DISPONIBLE && g == Marcar(w.estado, i, false)
    ensures NadaCambia(e, g)
  {
    var fuera := DesuspenderEmpieza(e, i);
    var js := Bloques(e.tabla, e.procs[i].pid);
    ReponerCurso(e, i, js, fuera, w);
    forall p: nat, m: nat ensures Contenido(g, p, m) == Contenido(e, p, m) {
      EmpiezaContenido(e, i, fuera, p, m);
      ReponerContenido(e, i, js, fuera, w, p, m);
      TerminaContenido(w.estado, i, {}, false, p, m);
    }
  }

  lemma ReponerSolo(e: Estado, i: nat, j: nat, k: nat, h: nat, f: Estado)
    requires i < |e.procs| && j < |e.tabla| && k < |e.procs[i].segs| && h < |e.huecos|
    requires e.tabla[j].tam <= e.huecos[h].limite && f == Reponer(e, i, j, k, h)
    ensures SoloSegmentos(e, f, i) && Suma(f.huecos) == Suma(e.huecos) - e.tabla[j].tam
    ensures f.tabla == e.tabla[j := e.tabla[j].(ocupado := false)]
  {
    ConsumirVeces(e.huecos, h, e.tabla[j].tam, 0);
  }

  /** After a failure part of the process may be back while its flag still says it is in swap:
      the holes only shrink, and the resident places do not grow. */
  lemma {:induction false} ReponerCuenta(e: Estado, i: nat, js: seq<nat>, fuera: set<nat>, v: Vuelta)
    requires EnCurso(e, i, fuera) && Quedan(e.tabla, e.procs[i].pid, js) && v == ReponerTodos(e, i, js)
    ensures SoloSegmentos(e, v.estado, i) && Suma(v.estado.huecos) <= Suma(e.huecos)
    ensures v.codigo in {MEMORIA_DISPONIBLE, COMPACTACION, MEMORIA_NO_DISPONIBLE}
    ensures js != [] && Elegir(e.huecos, e.tabla[js[0]].tam, e.cfg.mejor).Nada? ==> v.estado == e && v.codigo != MEMORIA_DISPONIBLE
    ensures js != [] && Elegir(e.huecos, e.tabla[js[0]].tam, e.cfg.mejor).Algo? ==> Suma(v.estado.huecos) < Suma(e.huecos)
    decreases |js|
  {
    hide Consumir, Embaldosa, SwapEn;
    if js != [] {
      QuedanMenos(e.tabla, e.procs[i].pid, js);
      if Elegir(e.huecos, e.tabla[js[0]].tam, e.cfg.mejor).Nada? {
        ReponerCorta(e, i, js, fuera, v);
      } else {
        var k, h, f := ReponerPaso(e, i, js, fuera, v);
        assert SegmentosOk(e.cfg, e.procs[i].segs);
        ReponerEnCurso(e, i, js[0], k, h, fuera);
        ReponerSolo(e, i, js[0], k, h, f);
        ReponerCuenta(f, i, js[1..], fuera - {e.tabla[js[0]].seg}, v);
        SoloSegmentosSigue(e, f, v.estado, i);
      }
    }
  }

  /** A failed return is not undone: the invariant survives it exactly when it failed at the
      first block, before taking anything. */
  lemma {:induction false} DesuspenderFalla(e: Estado, pid: nat, v: Vuelta)
    requires Inv(e) && v == Desuspender(e, pid) && v.codigo != DESUSPEND_OK
    ensures v.codigo in {COMPACTACION, MEMORIA_NO_DISPONIBLE}
    ensures Bloques(e.tabla, pid) != []
    ensures var b := e.tabla[Bloques(e.tabla, pid)[0]];
      && (Inv(v.estado) <==> Elegir(e.huecos, b.tam, e.cfg.mejor).Nada?)
      && (Inv(v.estado) ==> v.estado == e)
  {
    BloquesDeQuien(e, pid);
    var i := BuscarProceso(e.procs, pid).valor;
    var js := Bloques(e.tabla, pid);
    EmpiezaDentro(e, i);
    assert js != [];
    ReponerCuenta(e, i, js, Ids(e.procs[i].segs), v);
    var b := e.tabla[js[0]];
    if Elegir(e.huecos, b.tam, e.cfg.mejor).Algo? {
      CambiaProceso(e.procs, i, v.estado.procs[i], 0);
      assert Suma(Residentes(v.estado.procs)) + Suma(v.estado.huecos) < |v.estado.mem|;
    }
  }

  // ---------------------------------------------------------------- the dry run

  function Tamanios(tabla: seq<Bloque>, js: seq<nat>): seq<nat>
    requires forall j :: j in js ==> j < |tabla|
    decreases |js|
  {
    if js == [] then []
    else
      assert js[0] in js && forall j :: j in js[1..] ==> j in js;
      [tabla[js[0]].tam] + Tamanios(tabla, js[1..])
  }

  lemma {:induction false} TamaniosIguales(t: seq<Bloque>, u: seq<Bloque>, js: seq<nat>)
    requires |t| == |u| && forall j :: 0 <= j < |t| ==> t[j].tam == u[j].tam
    requires forall j :: j in js ==> j < |t|
    ensures Tamanios(t, js) == Tamanios(u, js)
    decreases |js|
  {
    if js != [] {
      assert js[0] in js && forall j :: j in js[1..] ==> j in js;
      TamaniosIguales(t, u, js[1..]);
    }
  }

  /** The holes left after taking `ts` from copies of the holes `hs`, if they all fit. */
  function Simular(hs: seq<Rango>, ts: seq<nat>, mejor: bool): Opcion<seq<Rango>>
    decreases |ts|
  {
    if ts == [] then Algo(hs)
    else match Elegir(hs, ts[0], mejor)
      case Nada => Nada
      case Algo(h) => Simular(Consumir(hs, h, ts[0]), ts[1..], mejor)
  }

  function SimularProceso(e: Estado, pid: nat): Opcion<seq<Rango>>
  {
    Simular(e.huecos, Tamanios(e.tabla, Bloques(e.tabla, pid)), e.cfg.mejor)
  }

  predicate Entra(e: Estado, n: nat)
    requires n < |e.procs|
  {
    e.procs[n].enSwap && SimularProceso(e, e.procs[n].pid).Algo?
  }

  /** The swapped pids among the first `n` processes whose dry run succeeds. */
  function NotificarHasta(e: Estado, n: nat): seq<nat>
    requires n <= |e.procs|
  {
    if n == 0 then []
    else
      NotificarHasta(e, n - 1) + if Entra(e, n - 1) then [e.procs[n - 1].pid] else []
  }

  /** What `notificar_desuspendibles` sends; nothing when no process is in swap. */
  function Notificar(e: Estado): Opcion<seq<nat>>
  {
    if exists n :: 0 <= n < |e.procs| && e.procs[n].enSwap then Algo(NotificarHasta(e, |e.procs|)) else Nada
  }

  ghost predicate BloquesDe(e: Estado, i: nat, js: seq<nat>)
    requires i < |e.procs|
  {
    forall j :: j in js ==> j < |e.tabla| && BuscarSegmento(e.procs[i].segs, e.tabla[j].seg).Algo?
  }

  lemma SimularPaso(e: Estado, i: nat, js: seq<nat>, v: Vuelta) returns (f: Estado)
    requires i < |e.procs| && BloquesDe(e, i, js) && js != [] && v == ReponerTodos(e, i, js)
    requires IdsDistintos(e.procs[i].segs)
    ensures js[0] < |e.tabla|
    ensures Elegir(e.huecos, e.tabla[js[0]].tam, e.cfg.mejor).Nada? ==> v.codigo != MEMORIA_DISPONIBLE
    ensures Elegir(e.huecos, e.tabla[js[0]].tam, e.cfg.mejor).Algo? ==>
      && i < |f.procs| && IdsDistintos(f.procs[i].segs) && BloquesDe(f, i, js[1..]) && v == ReponerTodos(f, i, js[1..])
      && f.huecos == Consumir(e.huecos, Elegir(e.huecos, e.tabla[js[0]].tam, e.cfg.mejor).valor, e.tabla[js[0]].tam)
      && f.cfg == e.cfg && |f.tabla| == |e.tabla| && forall j :: 0 <= j < |e.tabla| ==> f.tabla[j].tam == e.tabla[j].tam
  {
    hide Consumir, Elegir;
    assert js[0] in js && forall j :: j in js[1..] ==> j in js;
    assert js[0] < |e.tabla|;
    var b := e.tabla[js[0]];
    f := e;
    if Elegir(e.huecos, b.tam, e.cfg.mejor).Algo? {
      var k := BuscarSegmento(e.procs[i].segs, b.seg).valor;
      f := Reponer(e, i, js[0], k, Elegir(e.huecos, b.tam, e.cfg.mejor).valor);
      forall j | j in js[1..] ensures j < |f.tabla| && BuscarSegmento(f.procs[i].segs, f.tabla[j].seg).Algo? {
        SegmentoDeCambia(e.procs[i].segs, k, f.procs[i].segs[k], e.tabla[j].seg);
      }
      SegmentoDeCambia(e.procs[i].segs, k, f.procs[i].segs[k], b.seg);
    }
  }

  /** The dry run over any list of blocks of a process decides as the real loop does, and its
      holes are the real ones. */
  lemma {:induction false} SimularExacta(e: Estado, i: nat, js: seq<nat>, v: Vuelta, s: Opcion<seq<Rango>>)
    requires i < |e.procs| && BloquesDe(e, i, js) && IdsDistintos(e.procs[i].segs)
    requires v == ReponerTodos(e, i, js) && s == Simular(e.huecos, Tamanios(e.tabla, js), e.cfg.mejor)
    ensures v.codigo == MEMORIA_DISPONIBLE <==> s.Algo?
    ensures s.Algo? ==> v.estado.huecos == s.valor
    decreases |js|
  {
    if js != [] {
      var f := SimularPaso(e, i, js, v);
      if Elegir(e.huecos, e.tabla[js[0]].tam, e.cfg.mejor).Algo? {
        TamaniosIguales(e.tabla, f.tabla, js[1..]);
        assert Tamanios(e.tabla, js)[1..] == Tamanios(f.tabla, js[1..]);
        SimularExacta(f, i, js[1..], v, s);
      }
    }
  }

  lemma BloquesPropios(e: Estado, i: nat, n: nat)
    requires Inv(e) && i < |e.procs| && n <= |Bloques(e.tabla, e.procs[i].pid)|
    ensures BloquesDe(e, i, Bloques(e.tabla, e.procs[i].pid)[..n]) && IdsDistintos(e.procs[i].segs)
  {
    var bs := Bloques(e.tabla, e.procs[i].pid);
    assert SegmentosOk(e.cfg, e.procs[i].segs);
    forall j | j in bs[..n] ensures j < |e.tabla| && BuscarSegmento(e.procs[i].segs, e.tabla[j].seg).Algo? {
      assert j in bs;
      assert BloqueCon(e, j);
      assert BuscarProceso(e.procs, e.procs[i].pid) == Algo(i);
    }
  }

  /** After each block: the first `n` blocks fit in the dry run exactly when they fit for real,
      and then both lists of holes are equal. */
  lemma {:induction false} DryRunPorBloque(e: Estado, i: nat, n: nat, js: seq<nat>)
    requires Inv(e) && i < |e.procs| && n <= |Bloques(e.tabla, e.procs[i].pid)|
    requires js == Bloques(e.tabla, e.procs[i].pid)[..n]
    ensures forall j :: j in js ==> j < |e.tabla|
    ensures ReponerTodos(e, i, js).codigo == MEMORIA_DISPONIBLE
       <==> Simular(e.huecos, Tamanios(e.tabla, js), e.cfg.mejor).Algo?
    ensures ReponerTodos(e, i, js).codigo == MEMORIA_DISPONIBLE ==>
      Simular(e.huecos, Tamanios(e.tabla, js), e.cfg.mejor) == Algo(ReponerTodos(e, i, js).estado.huecos)
  {
    BloquesPropios(e, i, n);
    SimularExacta(e, i, js, ReponerTodos(e, i, js), Simular(e.huecos, Tamanios(e.tabla, js), e.cfg.mejor));
  }

  lemma {:induction false} SimularProcesoExacta(e: Estado, i: nat, v: Vuelta, s: Opcion<seq<Rango>>)
    requires Inv(e) && i < |e.procs| && v == Desuspender(e, e.procs[i].pid) && s == SimularProceso(e, e.procs[i].pid)
    ensures v.codigo == DESUSPEND_OK <==> s.Algo?
    ensures s.Algo? ==> v.estado.huecos == s.valor
  {
    hide Simular, Tamanios, Bloques;
    var js := Bloques(e.tabla, e.procs[i].pid);
    assert js[..|js|] == js;
    BloquesPropios(e, i, |js|);
    assert BuscarProceso(e.procs, e.procs[i].pid) == Algo(i);
    var fuera := DesuspenderEmpieza(e, i);
    ReponerCuenta(e, i, js, fuera, ReponerTodos(e, i, js));
    SimularExacta(e, i, js, ReponerTodos(e, i, js), s);
  }

  lemma {:induction false} NotificarSolo(e: Estado, n: nat, pid: nat)
    requires n <= |e.procs| && forall x :: 0 <= x < n ==> e.procs[x].pid != pid
    ensures pid !in NotificarHasta(e, n)
  {
    if n > 0 {
      NotificarSolo(e, n - 1, pid);
    }
  }

  lemma {:induction false} NotificarMiembros(e: Estado, n: nat, i: nat, entra: bool)
    requires PidsDistintos(e.procs) && i < n <= |e.procs| && entra == Entra(e, i)
    ensures e.procs[i].pid in NotificarHasta(e, n) <==> entra
  {
    if i == n - 1 {
      NotificarSolo(e, n - 1, e.procs[i].pid);
    } else {
      NotificarMiembros(e, n - 1, i, entra);
    }
  }

  /** The prediction is exact: a pid is announced if and only if it is in swap and
      `desuspender_proceso`, run on this very state, returns DESUSPEND_OK; its holes are then
      the ones the dry run computed. */
  lemma {:induction false} DryRunExacta(e: Estado, pid: nat)
    requires Inv(e)
    ensures Notificar(e).Algo? && pid in Notificar(e).valor <==>
      ProcesoDe(e.procs, pid).Algo? && ProcesoDe(e.procs, pid).valor.enSwap && Desuspender(e, pid).codigo == DESUSPEND_OK
    ensures Notificar(e).Algo? && pid in Notificar(e).valor ==>
      SimularProceso(e, pid) == Algo(Desuspender(e, pid).estado.huecos)
  {
    var r := BuscarProceso(e.procs, pid);
    if r.Algo? {
      NotificarMiembros(e, |e.procs|, r.valor, Entra(e, r.valor));
      SimularProcesoExacta(e, r.valor, Desuspender(e, pid), SimularProceso(e, pid));
    } else {
      NotificarSolo(e, |e.procs|, pid);
    }
  }
}
