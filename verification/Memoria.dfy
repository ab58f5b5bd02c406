/** State of the kernel memory module and its allocator operations: segmentacion.c,
    inicializar.c and memory_sticks.c of kernel_memory/src.  Physical memory is the flat
    sequence of bytes that module Fisica realises over the sticks. */
module Memoria {
  import opened Secuencias
  import opened Rangos
  import opened Mmu

  datatype Codigo =
    | MEMORIA_DISPONIBLE | MEMORIA_NO_DISPONIBLE | COMPACTACION
    | SUSPEND_OK | DESUSPEND_OK

  /** `t_proceso_memory`: the segments keep their place in the table while in swap, with a
      base that means nothing. */
  datatype Proceso = Proceso(pid: nat, segs: seq<Segmento>, enSwap: bool)

  /** `t_bloque_swap` */
  datatype Bloque = Bloque(ocupado: bool, pid: nat, seg: nat, tam: nat)

  datatype Config = Config(segMax: nat, mejor: bool, bloque: nat)

  datatype Estado = Estado(
    cfg: Config,
    huecos: seq<Rango>,
    procs: seq<Proceso>,
    libre: int,
    mem: seq<byte>,
    tabla: seq<Bloque>,
    swap: seq<byte>)

  // ---------------------------------------------------------------- who occupies memory

  function Sitio(s: Segmento): Rango { Rango(s.base, s.limite) }

  /** Places of the segments whose id is not in `fuera`. */
  function Presentes(segs: seq<Segmento>, fuera: set<nat>): seq<Rango>
  {
    if segs == [] then []
    else (if segs[0].id in fuera then [] else [Sitio(segs[0])]) + Presentes(segs[1..], fuera)
  }

  function De(p: Proceso): seq<Rango>
  {
    if p.enSwap then [] else Presentes(p.segs, {})
  }

  /** Places of all the segments of the processes that are not in swap. */
  function Residentes(procs: seq<Proceso>): seq<Rango>
  {
    if procs == [] then [] else De(procs[0]) + Residentes(procs[1..])
  }

  /** `rs` and the free list tile [0, total): no two of them meet, together they cover it, the
      list is canonical and the byte counter is its size. */
  ghost predicate Embaldosa(rs: seq<Rango>, hs: seq<Rango>, libre: int, total: nat)
  {
    && Canonico(hs)
    && libre == Suma(hs)
    && Suma(rs) + Suma(hs) == total
    && forall a: nat :: Veces(rs, a) + Veces(hs, a) == if a < total then 1 else 0
  }

  lemma {:induction false} ResidentesConcat(x: seq<Proceso>, y: seq<Proceso>)
    ensures Residentes(x + y) == Residentes(x) + Residentes(y)
  {
    if x == [] {
      assert x + y == y;
    } else {
      assert (x + y)[1..] == x[1..] + y;
      ResidentesConcat(x[1..], y);
    }
  }

  lemma {:induction false} PresentesConcat(x: seq<Segmento>, y: seq<Segmento>, fuera: set<nat>)
    ensures Presentes(x + y, fuera) == Presentes(x, fuera) + Presentes(y, fuera)
  {
    if x == [] {
      assert x + y == y;
    } else {
      assert (x + y)[1..] == x[1..] + y;
      PresentesConcat(x[1..], y, fuera);
    }
  }

  lemma {:induction false} ResidentesPartida(procs: seq<Proceso>, i: nat, a: nat)
    requires i < |procs|
    ensures Veces(Residentes(procs), a)
         == Veces(Residentes(procs[..i]), a) + Veces(De(procs[i]), a) + Veces(Residentes(procs[i + 1..]), a)
    ensures Suma(Residentes(procs))
         == Suma(Residentes(procs[..i])) + Suma(De(procs[i])) + Suma(Residentes(procs[i + 1..]))
  {
    assert procs == procs[..i] + procs[i..];
    ResidentesConcat(procs[..i], procs[i..]);
    VecesConcat(Residentes(procs[..i]), Residentes(procs[i..]), a);
    SumaConcat(Residentes(procs[..i]), Residentes(procs[i..]));
    VecesConcat(De(procs[i]), Residentes(procs[i + 1..]), a);
    SumaConcat(De(procs[i]), Residentes(procs[i + 1..]));
    assert procs[i..][1..] == procs[i + 1..];
  }

  /** Effect of changing one process on the resident places. */
  lemma {:induction false} CambiaProceso(procs: seq<Proceso>, i: nat, p: Proceso, a: nat)
    requires i < |procs|
    ensures Veces(Residentes(procs[i := p]), a) + Veces(De(procs[i]), a) == Veces(Residentes(procs), a) + Veces(De(p), a)
    ensures Suma(Residentes(procs[i := p])) + Suma(De(procs[i])) == Suma(Residentes(procs)) + Suma(De(p))
  {
    var q := procs[i := p];
    ResidentesPartida(procs, i, a);
    ResidentesPartida(q, i, a);
    assert q[..i] == procs[..i] && q[i + 1..] == procs[i + 1..];
  }

  lemma {:induction false} QuitaProceso(procs: seq<Proceso>, i: nat, a: nat)
    requires i < |procs|
    ensures Veces(Residentes(procs[..i] + procs[i + 1..]), a) + Veces(De(procs[i]), a) == Veces(Residentes(procs), a)
    ensures Suma(Residentes(procs[..i] + procs[i + 1..])) + Suma(De(procs[i])) == Suma(Residentes(procs))
  {
    ResidentesPartida(procs, i, a);
    ResidentesConcat(procs[..i], procs[i + 1..]);
    VecesConcat(Residentes(procs[..i]), Residentes(procs[i + 1..]), a);
    SumaConcat(Residentes(procs[..i]), Residentes(procs[i + 1..]));
  }

  /** Effect of taking one segment out of a table. */
  lemma {:induction false} PresentesPartida(segs: seq<Segmento>, k: nat, fuera: set<nat>, a: nat)
    requires k < |segs| && segs[k].id !in fuera
    ensures Veces(Presentes(segs, fuera), a)
         == Veces(Presentes(segs[..k] + segs[k + 1..], fuera), a) + Sitio(segs[k]).Uno(a)
    ensures Suma(Presentes(segs, fuera)) == Suma(Presentes(segs[..k] + segs[k + 1..], fuera)) + segs[k].limite
  {
    assert segs == segs[..k] + segs[k..];
    PresentesConcat(segs[..k], segs[k..], fuera);
    PresentesConcat(segs[..k], segs[k + 1..], fuera);
    VecesConcat(Presentes(segs[..k], fuera), Presentes(segs[k..], fuera), a);
    SumaConcat(Presentes(segs[..k], fuera), Presentes(segs[k..], fuera));
    VecesConcat(Presentes(segs[..k], fuera), Presentes(segs[k + 1..], fuera), a);
    SumaConcat(Presentes(segs[..k], fuera), Presentes(segs[k + 1..], fuera));
    assert segs[k..][1..] == segs[k + 1..];
    var resto := Presentes(segs[k + 1..], fuera);
    assert Presentes(segs[k..], fuera) == [Sitio(segs[k])] + resto;
    assert ([Sitio(segs[k])] + resto)[1..] == resto;
  }

  // ---------------------------------------------------------------- taking and giving back

  /** Handing out the first bytes of a hole keeps the tiling. */
  lemma {:induction false} Tomar(rs: seq<Rango>, rs': seq<Rango>, hs: seq<Rango>, i: nat, tam: nat, libre: int, total: nat)
    requires Embaldosa(rs, hs, libre, total) && i < |hs| && tam <= hs[i].limite
    requires Suma(rs') == Suma(rs) + tam
    requires forall a: nat :: Veces(rs', a) == Veces(rs, a) + Rango(hs[i].base, tam).Uno(a)
    ensures Embaldosa(rs', Consumir(hs, i, tam), libre - tam, total)
  {
    ConsumirCanonico(hs, i, tam);
    ConsumirVeces(hs, i, tam, 0);
    forall a: nat ensures Veces(rs', a) + Veces(Consumir(hs, i, tam), a) == if a < total then 1 else 0 {
      ConsumirVeces(hs, i, tam, a);
      assert Veces(rs, a) + Veces(hs, a) == if a < total then 1 else 0;
    }
  }

  /** Giving a resident place back to the free list keeps the tiling. */
  lemma {:induction false} Soltar(rs: seq<Rango>, rs': seq<Rango>, hs: seq<Rango>, r: Rango, libre: int, total: nat)
    requires Embaldosa(rs, hs, libre, total) && r.limite > 0
    requires Suma(rs') + r.limite == Suma(rs)
    requires forall a: nat :: Veces(rs', a) + r.Uno(a) == Veces(rs, a)
    ensures Embaldosa(rs', Insertar(hs, r), libre + r.limite, total)
  {
    forall a: nat | r.Tiene(a) ensures Veces(hs, a) == 0 {
      assert Veces(rs, a) + Veces(hs, a) == if a < total then 1 else 0;
    }
    InsertarCanonico(hs, r);
    InsertarVeces(hs, r, 0);
    forall a: nat ensures Veces(rs', a) + Veces(Insertar(hs, r), a) == if a < total then 1 else 0 {
      InsertarVeces(hs, r, a);
      assert Veces(rs, a) + Veces(hs, a) == if a < total then 1 else 0;
    }
  }

  /** The same for a whole list of places, returned one by one. */
  lemma {:induction false} SoltarTodos(rs: seq<Rango>, rs': seq<Rango>, hs: seq<Rango>, xs: seq<Rango>, libre: int, total: nat)
    requires Embaldosa(rs, hs, libre, total) && forall i :: 0 <= i < |xs| ==> xs[i].limite > 0
    requires Suma(rs') + Suma(xs) == Suma(rs)
    requires forall a: nat :: Veces(rs', a) + Veces(xs, a) == Veces(rs, a)
    ensures Embaldosa(rs', LiberarTodos(hs, xs), libre + Suma(xs), total)
  {
    forall a: nat ensures Veces(hs, a) + Veces(xs, a) <= 1 {
      assert Veces(rs, a) + Veces(hs, a) == if a < total then 1 else 0;
      assert Veces(rs', a) + Veces(xs, a) == Veces(rs, a);
    }
    LiberarTodosCanonico(hs, xs);
    LiberarTodosVeces(hs, xs, 0);
    forall a: nat ensures Veces(rs', a) + Veces(LiberarTodos(hs, xs), a) == if a < total then 1 else 0 {
      LiberarTodosVeces(hs, xs, a);
      assert Veces(rs, a) + Veces(hs, a) == if a < total then 1 else 0;
    }
  }

  /** A place counted by a tiling is inside memory and meets no other one. */
  lemma {:induction false} Dentro(rs: seq<Rango>, hs: seq<Rango>, libre: int, total: nat, k: nat)
    requires Embaldosa(rs, hs, libre, total) && k < |rs| && rs[k].limite > 0
    ensures rs[k].Fin() <= total
    ensures forall j :: 0 <= j < |rs| && j != k && rs[j].limite > 0 ==> rs[j].Fin() <= rs[k].base || rs[k].Fin() <= rs[j].base
  {
    VecesCero(rs, rs[k].Fin() - 1);
    assert rs[k].Tiene(rs[k].Fin() - 1);
    forall j | 0 <= j < |rs| && j != k && rs[j].limite > 0
      ensures rs[j].Fin() <= rs[k].base || rs[k].Fin() <= rs[j].base
    {
      var a := if rs[j].base < rs[k].base then rs[k].base else rs[j].base;
      if rs[j].Tiene(a) && rs[k].Tiene(a) {
        if j < k { VecesDos(rs, j, k, a); } else { VecesDos(rs, k, j, a); }
      }
    }
  }

  // ---------------------------------------------------------------- looking things up

  /** `buscar_proceso`: position of the first process `pid`. */
  function BuscarProceso(procs: seq<Proceso>, pid: nat): (r: Opcion<nat>)
    ensures r.Algo? ==> r.valor < |procs| && procs[r.valor].pid == pid
    ensures r.Nada? <==> forall i :: 0 <= i < |procs| ==> procs[i].pid != pid
  {
    if procs == [] then Nada
    else if procs[0].pid == pid then Algo(0)
    else match BuscarProceso(procs[1..], pid)
         case Nada => assert forall i :: 0 < i < |procs| ==> procs[i] == procs[1..][i - 1]; Nada
         case Algo(k) => assert procs[1..][k] == procs[k + 1]; Algo(k + 1)
  }

  ghost predicate PidsDistintos(procs: seq<Proceso>)
  {
    forall i, j :: 0 <= i < j < |procs| ==> procs[i].pid != procs[j].pid
  }

  ghost predicate IdsDistintos(segs: seq<Segmento>)
  {
    forall i, j :: 0 <= i < j < |segs| ==> segs[i].id != segs[j].id
  }

  function ProcesoDe(procs: seq<Proceso>, pid: nat): Opcion<Proceso>
  {
    match BuscarProceso(procs, pid) case Nada => Nada case Algo(i) => Algo(procs[i])
  }

  function SegmentoDe(segs: seq<Segmento>, id: nat): Opcion<Segmento>
  {
    match BuscarSegmento(segs, id) case Nada => Nada case Algo(k) => Algo(segs[k])
  }

  lemma ProcesoDeCambia(procs: seq<Proceso>, i: nat, p: Proceso, q: nat)
    requires PidsDistintos(procs) && i < |procs| && p.pid == procs[i].pid
    ensures PidsDistintos(procs[i := p])
    ensures BuscarProceso(procs[i := p], q) == BuscarProceso(procs, q)
    ensures ProcesoDe(procs[i := p], q) == if q == p.pid then Algo(p) else ProcesoDe(procs, q)
  {
    var ps := procs[i := p];
    var x, y := BuscarProceso(ps, q), BuscarProceso(procs, q);
    if y.Algo? { assert ps[y.valor].pid == q; }
    if x.Algo? { assert procs[x.valor].pid == q; }
    if q == p.pid { assert ps[i].pid == q; }
  }

  lemma ProcesoDeQuita(procs: seq<Proceso>, i: nat, q: nat)
    requires PidsDistintos(procs) && i < |procs|
    ensures PidsDistintos(procs[..i] + procs[i + 1..])
    ensures ProcesoDe(procs[..i] + procs[i + 1..], q) == if q == procs[i].pid then Nada else ProcesoDe(procs, q)
  {
    var ps := procs[..i] + procs[i + 1..];
    forall k | 0 <= k < |ps| ensures ps[k] == procs[if k < i then k else k + 1] {}
    var x, y := BuscarProceso(ps, q), BuscarProceso(procs, q);
    if y.Algo? && y.valor != i {
      assert ps[if y.valor < i then y.valor else y.valor - 1] == procs[y.valor];
    }
  }

  lemma ProcesoDeAgrega(procs: seq<Proceso>, p: Proceso, q: nat)
    requires PidsDistintos(procs) && BuscarProceso(procs, p.pid).Nada?
    ensures PidsDistintos(procs + [p])
    ensures ProcesoDe(procs + [p], q) == if q == p.pid then Algo(p) else ProcesoDe(procs, q)
  {
    var ps := procs + [p];
    var x, y := BuscarProceso(ps, q), BuscarProceso(procs, q);
    if y.Algo? { assert ps[y.valor] == procs[y.valor]; }
    if x.Algo? && x.valor < |procs| { assert procs[x.valor].pid == q; }
    assert ps[|procs|] == p;
  }

  lemma SegmentoDeQuita(segs: seq<Segmento>, k: nat, q: nat)
    requires IdsDistintos(segs) && k < |segs|
    ensures IdsDistintos(segs[..k] + segs[k + 1..])
    ensures SegmentoDe(segs[..k] + segs[k + 1..], q) == if q == segs[k].id then Nada else SegmentoDe(segs, q)
  {
    var ss := segs[..k] + segs[k + 1..];
    forall i | 0 <= i < |ss| ensures ss[i] == segs[if i < k then i else i + 1] {}
    var x, y := BuscarSegmento(ss, q), BuscarSegmento(segs, q);
    if y.Algo? && y.valor != k {
      assert ss[if y.valor < k then y.valor else y.valor - 1] == segs[y.valor];
    }
  }

  lemma SegmentoDeAgrega(segs: seq<Segmento>, s: Segmento, q: nat)
    requires IdsDistintos(segs) && BuscarSegmento(segs, s.id).Nada?
    ensures IdsDistintos(segs + [s])
    ensures SegmentoDe(segs + [s], q) == if q == s.id then Algo(s) else SegmentoDe(segs, q)
  {
    var ss := segs + [s];
    var x, y := BuscarSegmento(ss, q), BuscarSegmento(segs, q);
    if y.Algo? { assert ss[y.valor] == segs[y.valor]; }
    if x.Algo? && x.valor < |segs| { assert segs[x.valor].id == q; }
    assert ss[|segs|] == s;
  }

  lemma SegmentoDeCambia(segs: seq<Segmento>, k: nat, s: Segmento, q: nat)
    requires IdsDistintos(segs) && k < |segs| && s.id == segs[k].id
    ensures IdsDistintos(segs[k := s])
    ensures BuscarSegmento(segs[k := s], q) == BuscarSegmento(segs, q)
    ensures SegmentoDe(segs[k := s], q) == if q == s.id then Algo(s) else SegmentoDe(segs, q)
  {
    var ss := segs[k := s];
    var x, y := BuscarSegmento(ss, q), BuscarSegmento(segs, q);
    if y.Algo? { assert ss[y.valor].id == q; }
    if x.Algo? { assert segs[x.valor].id == q; }
    if q == s.id { assert ss[k].id == q; }
  }

  // ---------------------------------------------------------------- the swap table

  predicate EsBloque(tabla: seq<Bloque>, j: int, pid: nat, id: nat)
  {
    0 <= j < |tabla| && tabla[j].ocupado && tabla[j].pid == pid && tabla[j].seg == id
  }

  ghost predicate HayBloque(tabla: seq<Bloque>, pid: nat, id: nat)
  {
    exists j :: EsBloque(tabla, j, pid, id)
  }

  /** No segment is stored twice. */
  ghost predicate BloquesUnicos(tabla: seq<Bloque>)
  {
    forall i, j :: 0 <= i < j < |tabla| && tabla[i].ocupado && tabla[j].ocupado
                   ==> tabla[i].pid != tabla[j].pid || tabla[i].seg != tabla[j].seg
  }

  ghost function BloqueDe(tabla: seq<Bloque>, pid: nat, id: nat): (j: int)
    ensures HayBloque(tabla, pid, id) ==> EsBloque(tabla, j, pid, id)
    ensures !HayBloque(tabla, pid, id) ==> j == -1
  {
    if HayBloque(tabla, pid, id) then var j :| EsBloque(tabla, j, pid, id); j else -1
  }

  /** An occupied block holds a segment of a process in swap, whole. */
  ghost predicate BloqueCon(e: Estado, j: nat)
    requires j < |e.tabla|
  {
    var b := e.tabla[j];
    b.ocupado ==>
      && b.tam <= e.cfg.bloque
      && ProcesoDe(e.procs, b.pid).Algo?
      && (var p := ProcesoDe(e.procs, b.pid).valor;
          p.enSwap && SegmentoDe(p.segs, b.seg).Algo? && SegmentoDe(p.segs, b.seg).valor.limite == b.tam)
  }

  /** The swap table and the processes in swap describe each other. */
  ghost predicate SwapOk(e: Estado)
  {
    && e.cfg.bloque > 0
    && |e.tabla| * e.cfg.bloque <= |e.swap|
    && BloquesUnicos(e.tabla)
    && (forall j :: 0 <= j < |e.tabla| ==> BloqueCon(e, j))
    && (forall i, k :: 0 <= i < |e.procs| && e.procs[i].enSwap && 0 <= k < |e.procs[i].segs|
                       ==> HayBloque(e.tabla, e.procs[i].pid, e.procs[i].segs[k].id))
  }

  ghost predicate SegmentosOk(cfg: Config, segs: seq<Segmento>)
  {
    && IdsDistintos(segs)
    && forall k :: 0 <= k < |segs| ==> 0 < segs[k].limite <= cfg.segMax && segs[k].id * cfg.segMax < WORD
  }

  ghost predicate ProcsOk(cfg: Config, procs: seq<Proceso>)
  {
    && PidsDistintos(procs)
    && forall i :: 0 <= i < |procs| ==> SegmentosOk(cfg, procs[i].segs)
  }

  /** The invariant of the module. */
  ghost predicate Inv(e: Estado)
  {
    && 0 < e.cfg.segMax && |e.mem| + e.cfg.segMax <= WORD
    && ProcsOk(e.cfg, e.procs)
    && Embaldosa(Residentes(e.procs), e.huecos, e.libre, |e.mem|)
    && SwapOk(e)
  }

  // ---------------------------------------------------------------- logical contents

  function Tajada(f: seq<byte>, desde: nat, largo: nat): seq<byte>
  {
    if desde + largo <= |f| then f[desde..desde + largo] else []
  }

  ghost function BytesDe(e: Estado, p: Proceso, s: Segmento): seq<byte>
  {
    if !p.enSwap then Tajada(e.mem, s.base, s.limite)
    else
      var j := BloqueDe(e.tabla, p.pid, s.id);
      if j < 0 then [] else Tajada(e.swap, j * e.cfg.bloque, s.limite)
  }

  /** The bytes process `pid` sees in its segment `id`, wherever they are kept. */
  ghost function Contenido(e: Estado, pid: nat, id: nat): Opcion<seq<byte>>
  {
    match ProcesoDe(e.procs, pid)
    case Nada => Nada
    case Algo(p) =>
      match SegmentoDe(p.segs, id)
      case Nada => Nada
      case Algo(s) => Algo(BytesDe(e, p, s))
  }
}
