/** The table of blocks of kernel_memory/src/swap_gestor.c and the file of swap/src/swap.c; and
    what is true of a process while only some of its segments are in memory, which is how the
    loops of Suspension and Desuspension find it. */
module Swap {
  import opened Secuencias
  import opened Rangos
  import opened Mmu
  import opened Memoria
  import opened Asignador

  // ---------------------------------------------------------------- blocks of the file

  /** `swap_bloque_libre`, from block `k` on. */
  function PrimerLibre(tabla: seq<Bloque>, k: nat): (r: Opcion<nat>)
    requires k <= |tabla|
    ensures r.Algo? ==> k <= r.valor < |tabla| && !tabla[r.valor].ocupado && forall j :: k <= j < r.valor ==> tabla[j].ocupado
    ensures r.Nada? ==> forall j :: k <= j < |tabla| ==> tabla[j].ocupado
    decreases |tabla| - k
  {
    if k == |tabla| then Nada
    else if !tabla[k].ocupado then Algo(k)
    else PrimerLibre(tabla, k + 1)
  }

  function Libres(tabla: seq<Bloque>): nat
  {
    if tabla == [] then 0 else (if tabla[0].ocupado then 0 else 1) + Libres(tabla[1..])
  }

  lemma {:induction false} LibresOcupar(tabla: seq<Bloque>, j: nat, b: Bloque)
    requires j < |tabla| && !tabla[j].ocupado && b.ocupado
    ensures Libres(tabla) == Libres(tabla[j := b]) + 1
  {
    if j > 0 {
      LibresOcupar(tabla[1..], j - 1, b);
      assert tabla[j := b][1..] == tabla[1..][j - 1 := b];
    } else {
      assert tabla[0 := b][1..] == tabla[1..];
    }
  }

  lemma {:induction false} LibresCero(tabla: seq<Bloque>)
    ensures Libres(tabla) == 0 <==> forall j :: 0 <= j < |tabla| ==> tabla[j].ocupado
  {
    if tabla != [] {
      LibresCero(tabla[1..]);
      assert forall j :: 0 < j < |tabla| ==> tabla[j] == tabla[1..][j - 1];
      assert forall j :: 0 <= j < |tabla| - 1 ==> tabla[1..][j] == tabla[j + 1];
    }
  }

  /** `escribir_Bloque`: writing past the end of the file makes it grow, with zeros in the gap. */
  function EscribirBloque(swap: seq<byte>, desde: nat, d: seq<byte>): (r: seq<byte>)
    ensures |swap| <= |r|
    ensures desde + |d| <= |swap| ==> |r| == |swap|
  {
    if d == [] then swap else Pisar(swap + Ceros(desde + |d| - |swap|), desde, d)
  }

  /** `leer_Bloque`: what the file does not have is read as zeros. */
  function LeerBloque(swap: seq<byte>, desde: nat, largo: nat): (r: seq<byte>)
    ensures |r| == largo
    ensures desde + largo <= |swap| ==> r == Tajada(swap, desde, largo)
  {
    (swap + Ceros(desde + largo - |swap|))[desde..desde + largo]
  }

  function Ceros(n: int): (r: seq<byte>)
    ensures |r| == if n > 0 then n else 0
  {
    seq(if n > 0 then n else 0, _ => 0)
  }

  /** Byte `k` of the file after a write: what was written, what there was, or a zero of the gap. */
  lemma {:induction false} BloqueEscrito(swap: seq<byte>, desde: nat, d: seq<byte>, k: nat)
    requires d != []
    ensures var r := EscribirBloque(swap, desde, d);
      && |r| == (if |swap| <= desde + |d| then desde + |d| else |swap|)
      && (k < |r| ==> r[k] == if desde <= k < desde + |d| then d[k - desde] else if k < |swap| then swap[k] else 0)
  {
    var c := Ceros(desde + |d| - |swap|);
    var x := swap + c;
    var r := EscribirBloque(swap, desde, d);
    assert r == Pisar(x, desde, d) && |r| == |x|;
    if k < |r| && !(desde <= k < desde + |d|) && k >= |swap| {
      assert x[k] == c[k - |swap|];
    }
  }

  /** Byte `k` of what is read: that of the file, or a zero past its end. */
  lemma {:induction false} BloqueLeido(swap: seq<byte>, desde: nat, largo: nat, k: nat)
    requires k < largo
    ensures LeerBloque(swap, desde, largo)[k] == if desde + k < |swap| then swap[desde + k] else 0
  {
    var c := Ceros(desde + largo - |swap|);
    var x := swap + c;
    assert LeerBloque(swap, desde, largo)[k] == x[desde + k];
    if desde + k >= |swap| {
      assert x[desde + k] == c[desde + k - |swap|];
    }
  }

  lemma {:induction false} BloqueEntero(j: nat, n: nat, b: nat)
    requires j < n
    ensures j * b + b <= n * b
  {
    assert n * b == (n - 1) * b + b;
    if j < n - 1 {
      BloqueEntero(j, n - 1, b);
    }
  }

  lemma TajadaPropia(f: seq<byte>, x: nat, d: seq<byte>)
    requires x + |d| <= |f|
    ensures Tajada(Pisar(f, x, d), x, |d|) == d
  {
  }

  lemma TajadaEscrita(swap: seq<byte>, x: nat, d: seq<byte>, y: nat, l: nat)
    requires x + |d| <= |swap|
    ensures Tajada(EscribirBloque(swap, x, d), x, |d|) == d
    ensures y + l <= x || x + |d| <= y ==> Tajada(EscribirBloque(swap, x, d), y, l) == Tajada(swap, y, l)
  {
    if d != [] {
      assert swap + Ceros(x + |d| - |swap|) == swap;
      TajadaPropia(swap, x, d);
      if y + l <= x || x + |d| <= y {
        TajadaAjena(swap, y, l, x, d);
      }
    }
  }

  // ---------------------------------------------------------------- a process in transit

  /** Resident places when, of process `i`, exactly the segments in `fuera` are in swap. */
  function Parcial(procs: seq<Proceso>, i: nat, fuera: set<nat>): seq<Rango>
    requires i < |procs|
  {
    Residentes(procs[..i]) + Presentes(procs[i].segs, fuera) + Residentes(procs[i + 1..])
  }

  lemma ParcialVeces(procs: seq<Proceso>, i: nat, fuera: set<nat>, a: nat)
    requires i < |procs|
    ensures Veces(Parcial(procs, i, fuera), a)
         == Veces(Residentes(procs[..i]), a) + Veces(Presentes(procs[i].segs, fuera), a) + Veces(Residentes(procs[i + 1..]), a)
    ensures Suma(Parcial(procs, i, fuera))
         == Suma(Residentes(procs[..i])) + Suma(Presentes(procs[i].segs, fuera)) + Suma(Residentes(procs[i + 1..]))
  {
    var x, y, z := Residentes(procs[..i]), Presentes(procs[i].segs, fuera), Residentes(procs[i + 1..]);
    VecesConcat(x + y, z, a);
    VecesConcat(x, y, a);
    SumaConcat(x + y, z);
    SumaConcat(x, y);
  }

  function Ids(segs: seq<Segmento>): set<nat>
  {
    set k | 0 <= k < |segs| :: segs[k].id
  }

  lemma {:induction false} PresentesNinguno(segs: seq<Segmento>, fuera: set<nat>)
    requires forall k :: 0 <= k < |segs| ==> segs[k].id in fuera
    ensures Presentes(segs, fuera) == []
  {
    if segs != [] {
      PresentesNinguno(segs[1..], fuera);
    }
  }

  lemma {:induction false} PresentesIgual(segs: seq<Segmento>, x: set<nat>, y: set<nat>)
    requires forall k :: 0 <= k < |segs| ==> (segs[k].id in x <==> segs[k].id in y)
    ensures Presentes(segs, x) == Presentes(segs, y)
  {
    if segs != [] {
      PresentesIgual(segs[1..], x, y);
    }
  }

  lemma {:induction false} PresentesSalta(segs: seq<Segmento>, k: nat, fuera: set<nat>)
    requires k < |segs| && segs[k].id in fuera
    ensures Presentes(segs, fuera) == Presentes(segs[..k], fuera) + Presentes(segs[k + 1..], fuera)
  {
    assert segs == segs[..k] + segs[k..];
    PresentesConcat(segs[..k], segs[k..], fuera);
    assert segs[k..][1..] == segs[k + 1..];
    assert Presentes(segs[k..], fuera) == [] + Presentes(segs[k + 1..], fuera);
  }

  /** Sending one more segment out removes its place. */
  lemma {:induction false} PresentesSale(segs: seq<Segmento>, k: nat, fuera: set<nat>, a: nat)
    requires IdsDistintos(segs) && k < |segs| && segs[k].id !in fuera
    ensures Veces(Presentes(segs, fuera), a)
         == Veces(Presentes(segs, fuera + {segs[k].id}), a) + Sitio(segs[k]).Uno(a)
    ensures Suma(Presentes(segs, fuera)) == Suma(Presentes(segs, fuera + {segs[k].id})) + segs[k].limite
  {
    var g := fuera + {segs[k].id};
    PresentesPartida(segs, k, fuera, a);
    assert Presentes(segs, g) == Presentes(segs[..k] + segs[k + 1..], fuera) by {
      PresentesConcat(segs[..k], segs[k + 1..], fuera);
      PresentesIgual(segs[..k], fuera, g);
      PresentesIgual(segs[k + 1..], fuera, g);
      PresentesSalta(segs, k, g);
    }
  }

  /** Bringing one segment back at a new base adds its new place. */
  lemma {:induction false} PresentesEntra(segs: seq<Segmento>, k: nat, fuera: set<nat>, base: nat, a: nat)
    requires IdsDistintos(segs) && k < |segs| && segs[k].id in fuera
    ensures var t := segs[k := segs[k].(base := base)];
      && Veces(Presentes(t, fuera - {segs[k].id}), a)
         == Veces(Presentes(segs, fuera), a) + Rango(base, segs[k].limite).Uno(a)
      && Suma(Presentes(t, fuera - {segs[k].id})) == Suma(Presentes(segs, fuera)) + segs[k].limite
  {
    var t := segs[k := segs[k].(base := base)];
    var g := fuera - {segs[k].id};
    assert IdsDistintos(t);
    PresentesSale(t, k, g, a);
    assert g + {t[k].id} == fuera;
    PresentesSalta(t, k, fuera);
    PresentesSalta(segs, k, fuera);
    assert t[..k] == segs[..k] && t[k + 1..] == segs[k + 1..];
  }

  /** An occupied block of process `i` holds one of the segments in `fuera`, whole; the other
      occupied blocks are as the invariant wants them. */
  ghost predicate BloqueEn(e: Estado, i: nat, fuera: set<nat>, j: nat)
    requires i < |e.procs| && j < |e.tabla|
  {
    var b := e.tabla[j];
    b.ocupado ==>
      if b.pid == e.procs[i].pid then
        && b.tam <= e.cfg.bloque && b.seg in fuera
        && SegmentoDe(e.procs[i].segs, b.seg).Algo?
        && SegmentoDe(e.procs[i].segs, b.seg).valor.limite == b.tam
      else BloqueCon(e, j)
  }

  ghost predicate SwapEn(e: Estado, i: nat, fuera: set<nat>)
    requires i < |e.procs|
  {
    && e.cfg.bloque > 0
    && |e.tabla| * e.cfg.bloque <= |e.swap|
    && BloquesUnicos(e.tabla)
    && (forall j :: 0 <= j < |e.tabla| ==> BloqueEn(e, i, fuera, j))
    && (forall n, k :: 0 <= n < |e.procs| && n != i && e.procs[n].enSwap && 0 <= k < |e.procs[n].segs|
                       ==> HayBloque(e.tabla, e.procs[n].pid, e.procs[n].segs[k].id))
    && (forall k :: 0 <= k < |e.procs[i].segs| && e.procs[i].segs[k].id in fuera
                    ==> HayBloque(e.tabla, e.procs[i].pid, e.procs[i].segs[k].id))
  }

  /** The invariant while process `i` is on its way out or in, whatever its flag says. */
  ghost predicate EnCurso(e: Estado, i: nat, fuera: set<nat>)
  {
    && i < |e.procs|
    && 0 < e.cfg.segMax && |e.mem| + e.cfg.segMax <= WORD
    && ProcsOk(e.cfg, e.procs)
    && Embaldosa(Parcial(e.procs, i, fuera), e.huecos, e.libre, |e.mem|)
    && SwapEn(e, i, fuera)
  }

  lemma EmbaldosaIgual(x: seq<Rango>, y: seq<Rango>, hs: seq<Rango>, libre: int, total: nat)
    requires Embaldosa(x, hs, libre, total) && Suma(x) == Suma(y)
    requires forall a: nat :: Veces(x, a) == Veces(y, a)
    ensures Embaldosa(y, hs, libre, total)
  {
    forall a: nat ensures Veces(y, a) + Veces(hs, a) == if a < total then 1 else 0 {
      assert Veces(x, a) == Veces(y, a);
    }
  }

  lemma ParcialEsResidentes(procs: seq<Proceso>, i: nat, fuera: set<nat>, a: nat)
    requires i < |procs| && Presentes(procs[i].segs, fuera) == De(procs[i])
    ensures Veces(Parcial(procs, i, fuera), a) == Veces(Residentes(procs), a)
    ensures Suma(Parcial(procs, i, fuera)) == Suma(Residentes(procs))
  {
    ParcialVeces(procs, i, fuera, a);
    ResidentesPartida(procs, i, a);
  }

  /** Entering the transit: all inside, or all outside. */
  lemma {:induction false} EmpiezaDentro(e: Estado, i: nat)
    requires Inv(e) && i < |e.procs|
    ensures EnCurso(e, i, if e.procs[i].enSwap then Ids(e.procs[i].segs) else {})
  {
    var fuera: set<nat> := if e.procs[i].enSwap then Ids(e.procs[i].segs) else {};
    if e.procs[i].enSwap {
      PresentesNinguno(e.procs[i].segs, fuera);
    }
    ParcialEsResidentes(e.procs, i, fuera, 0);
    forall a: nat ensures Veces(Residentes(e.procs), a) == Veces(Parcial(e.procs, i, fuera), a) {
      ParcialEsResidentes(e.procs, i, fuera, a);
    }
    EmbaldosaIgual(Residentes(e.procs), Parcial(e.procs, i, fuera), e.huecos, e.libre, |e.mem|);
    EmpiezaSwap(e, i, fuera);
  }

  lemma EmpiezaSwap(e: Estado, i: nat, fuera: set<nat>)
    requires ProcsOk(e.cfg, e.procs) && SwapOk(e) && i < |e.procs|
    requires fuera == if e.procs[i].enSwap then Ids(e.procs[i].segs) else {}
    ensures SwapEn(e, i, fuera)
  {
    forall j | 0 <= j < |e.tabla| ensures BloqueEn(e, i, fuera, j) {
      assert BloqueCon(e, j);
      var b := e.tabla[j];
      if b.ocupado && b.pid == e.procs[i].pid {
        assert BuscarProceso(e.procs, b.pid).valor == i;
        var r := BuscarSegmento(e.procs[i].segs, b.seg);
        assert e.procs[i].segs[r.valor].id == b.seg;
      }
    }
  }

  /** Leaving the transit with the flag that tells the truth. */
  lemma {:induction false} TerminaInv(e: Estado, i: nat, fuera: set<nat>, enSwap: bool)
    requires EnCurso(e, i, fuera)
    requires forall k :: 0 <= k < |e.procs[i].segs| ==> (e.procs[i].segs[k].id in fuera <==> enSwap)
    requires !enSwap ==> fuera == {}
    ensures Inv(e.(procs := e.procs[i := e.procs[i].(enSwap := enSwap)]))
  {
    var p := e.procs[i].(enSwap := enSwap);
    var f := e.(procs := e.procs[i := p]);
    ProcsOkCambia(e.cfg, e.procs, i, p);
    if enSwap {
      PresentesNinguno(p.segs, fuera);
    } else {
      PresentesIgual(p.segs, fuera, {});
    }
    assert Parcial(f.procs, i, fuera) == Parcial(e.procs, i, fuera) by {
      assert f.procs[..i] == e.procs[..i] && f.procs[i + 1..] == e.procs[i + 1..];
    }
    ParcialEsResidentes(f.procs, i, fuera, 0);
    forall a: nat ensures Veces(Parcial(e.procs, i, fuera), a) == Veces(Residentes(f.procs), a) {
      ParcialEsResidentes(f.procs, i, fuera, a);
    }
    EmbaldosaIgual(Parcial(e.procs, i, fuera), Residentes(f.procs), e.huecos, e.libre, |e.mem|);
    TerminaSwap(e, f, i, fuera);
  }

  lemma TerminaSwap(e: Estado, f: Estado, i: nat, fuera: set<nat>)
    requires i < |e.procs| && ProcsOk(e.cfg, e.procs) && SwapEn(e, i, fuera)
    requires f == e.(procs := f.procs) && |f.procs| == |e.procs| && f.procs == e.procs[i := f.procs[i]]
    requires f.procs[i] == e.procs[i].(enSwap := f.procs[i].enSwap)
    requires forall k :: 0 <= k < |e.procs[i].segs| ==> (e.procs[i].segs[k].id in fuera <==> f.procs[i].enSwap)
    requires !f.procs[i].enSwap ==> fuera == {}
    ensures SwapOk(f)
  {
    forall j | 0 <= j < |f.tabla| ensures BloqueCon(f, j) {
      assert BloqueEn(e, i, fuera, j);
      ProcesoDeCambia(e.procs, i, f.procs[i], f.tabla[j].pid);
      if f.tabla[j].ocupado && f.tabla[j].pid == e.procs[i].pid {
        assert BuscarProceso(f.procs, f.tabla[j].pid).valor == i;
      }
    }
  }

  // ---------------------------------------------------------------- contents in transit

  ghost function BytesEn(e: Estado, i: nat, fuera: set<nat>, p: Proceso, s: Segmento): seq<byte>
    requires i < |e.procs|
  {
    var enSwap := if p.pid == e.procs[i].pid then s.id in fuera else p.enSwap;
    BytesDe(e, p.(enSwap := enSwap), s)
  }

  /** `Contenido`, read as the transit says. */
  ghost function ContenidoEn(e: Estado, i: nat, fuera: set<nat>, pid: nat, id: nat): Opcion<seq<byte>>
    requires i < |e.procs|
  {
    match ProcesoDe(e.procs, pid)
    case Nada => Nada
    case Algo(p) =>
      match SegmentoDe(p.segs, id)
      case Nada => Nada
      case Algo(s) => Algo(BytesEn(e, i, fuera, p, s))
  }

  lemma LeidoDeMemoria(e: Estado, i: nat, fuera: set<nat>, p: nat, m: nat, q: nat, n: nat)
    requires i < |e.procs| && BuscarProceso(e.procs, p) == Algo(q) && BuscarSegmento(e.procs[q].segs, m) == Algo(n)
    requires if p == e.procs[i].pid then m !in fuera else !e.procs[q].enSwap
    ensures ContenidoEn(e, i, fuera, p, m) == Algo(Tajada(e.mem, e.procs[q].segs[n].base, e.procs[q].segs[n].limite))
  {
  }

  lemma LeidoDeSwap(e: Estado, i: nat, fuera: set<nat>, p: nat, m: nat, q: nat, n: nat)
    requires i < |e.procs| && BuscarProceso(e.procs, p) == Algo(q) && BuscarSegmento(e.procs[q].segs, m) == Algo(n)
    requires !(if p == e.procs[i].pid then m !in fuera else !e.procs[q].enSwap)
    ensures ContenidoEn(e, i, fuera, p, m) == Algo(
      var j := BloqueDe(e.tabla, p, m);
      if j < 0 then [] else Tajada(e.swap, j * e.cfg.bloque, e.procs[q].segs[n].limite))
  {
  }
}
