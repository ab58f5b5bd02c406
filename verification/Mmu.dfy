/** Address translation and the pieces of a physical access: utils/src/utils/mmu.c and the
    second piece builder of kernel_memory/src/compactacion.c.

    Physical memory is one address space [0, Total(sticks)) cut into memory sticks.  An
    access is turned into pieces, one per stick it touches. */
module Mmu {
  import opened Secuencias

  type byte = x: int | 0 <= x < 256

  /** `uint32_t` arithmetic wraps at this modulus. */
  const WORD: nat := 0x1_0000_0000

  function Mas32(x: nat, y: nat): nat { (x + y) % WORD }

  /** `t_segmento` */
  datatype Segmento = Segmento(id: nat, base: nat, limite: nat)

  /** `t_memory_stick_info`: the stick at position `i` is reached through connection `i`. */
  datatype Stick = Stick(size: nat, base: nat)

  /** `struct_control_mmu`: `tam` bytes from offset `desde` of one stick. */
  datatype Pedazo = Pedazo(stick: nat, desde: nat, tam: nat)

  // ---------------------------------------------------------------- layout of the sticks

  function Total(ss: seq<Stick>): nat
  {
    if ss == [] then 0 else Total(ss[..|ss| - 1]) + ss[|ss| - 1].size
  }

  /** Each stick starts where the previous ones end, and none is empty. */
  ghost predicate Bien(ss: seq<Stick>)
  {
    ss == [] ||
    (var n := |ss| - 1; Bien(ss[..n]) && ss[n].size > 0 && ss[n].base == Total(ss[..n]))
  }

  lemma BienMas(ss: seq<Stick>, n: nat)
    requires Bien(ss) && n > 0
    ensures Bien(ss + [Stick(n, Total(ss))]) && Total(ss + [Stick(n, Total(ss))]) == Total(ss) + n
  {
    assert (ss + [Stick(n, Total(ss))])[..|ss|] == ss;
  }

  lemma {:induction false} Lugar(ss: seq<Stick>, i: nat)
    requires Bien(ss) && i < |ss|
    ensures ss[i].size > 0 && ss[i].base == Total(ss[..i])
    ensures ss[i].base + ss[i].size <= Total(ss)
    ensures i + 1 < |ss| ==> ss[i + 1].base == ss[i].base + ss[i].size
    ensures i + 1 == |ss| ==> Total(ss) == ss[i].base + ss[i].size
  {
    var n := |ss| - 1;
    if i < n {
      Lugar(ss[..n], i);
      assert ss[..n][..i] == ss[..i];
    }
  }

  lemma {:induction false} Orden(ss: seq<Stick>, i: nat, j: nat)
    requires Bien(ss) && i < j < |ss|
    ensures ss[i].base + ss[i].size <= ss[j].base
  {
    Lugar(ss, i);
    Lugar(ss, j - 1);
    Lugar(ss, j);
    if i < j - 1 {
      Orden(ss, i, j - 1);
    }
  }

  // ---------------------------------------------------------------- the three searches

  /** `buscar_stick_base`: first stick that ends after `dir`. */
  function BuscarBase(ss: seq<Stick>, dir: nat, k: nat): Opcion<nat>
    requires k <= |ss|
    decreases |ss| - k
  {
    if k == |ss| then Nada
    else if ss[k].base + ss[k].size > dir then Algo(k)
    else BuscarBase(ss, dir, k + 1)
  }

  /** `encontrar_stick_por_dir_fisica`: first stick that contains `dir`. */
  function Encontrar(ss: seq<Stick>, dir: nat, k: nat): Opcion<nat>
    requires k <= |ss|
    decreases |ss| - k
  {
    if k == |ss| then Nada
    else if ss[k].base <= dir < ss[k].base + ss[k].size then Algo(k)
    else Encontrar(ss, dir, k + 1)
  }

  /** `buscar_siguiente_stick`: first stick that starts where stick `i` ends. */
  function Siguiente(ss: seq<Stick>, i: nat, k: nat): Opcion<nat>
    requires i < |ss| && k <= |ss|
    decreases |ss| - k
  {
    if k == |ss| then Nada
    else if ss[k].base == ss[i].base + ss[i].size then Algo(k)
    else Siguiente(ss, i, k + 1)
  }

  /** Stick `i` is the only one that contains `dir`. */
  ghost predicate EnStick(ss: seq<Stick>, dir: nat, i: nat)
  {
    i < |ss| && ss[i].base <= dir < ss[i].base + ss[i].size
  }

  /** Both searches by address find the same stick, and find one exactly when the address is
      inside memory. */
  lemma {:induction false} BusquedasCoinciden(ss: seq<Stick>, dir: nat, k: nat)
    requires Bien(ss) && k <= |ss|
    requires k < |ss| ==> ss[k].base <= dir
    requires k == |ss| ==> Total(ss) <= dir
    ensures Encontrar(ss, dir, k) == BuscarBase(ss, dir, k)
    ensures BuscarBase(ss, dir, k).Nada? <==> Total(ss) <= dir
    ensures var r := BuscarBase(ss, dir, k); r.Algo? ==> EnStick(ss, dir, r.valor)
    decreases |ss| - k
  {
    if k < |ss| {
      Lugar(ss, k);
      if ss[k].base + ss[k].size <= dir {
        BusquedasCoinciden(ss, dir, k + 1);
      }
    }
  }

  lemma {:induction false} BusquedasDesdeCero(ss: seq<Stick>, dir: nat)
    requires Bien(ss)
    ensures Encontrar(ss, dir, 0) == BuscarBase(ss, dir, 0)
    ensures BuscarBase(ss, dir, 0).Nada? <==> Total(ss) <= dir
    ensures var r := BuscarBase(ss, dir, 0); r.Algo? ==> EnStick(ss, dir, r.valor)
  {
    if ss != [] {
      Lugar(ss, 0);
      assert ss[..0] == [];
    }
    BusquedasCoinciden(ss, dir, 0);
  }

  /** The stick that follows `i` is the next one in the list, while there is one. */
  lemma {:induction false} SiguienteEs(ss: seq<Stick>, i: nat, k: nat)
    requires Bien(ss) && i < |ss| && k <= i + 1
    ensures Siguiente(ss, i, k) == if i + 1 < |ss| then Algo(i + 1) else Nada
    decreases i + 1 - k
  {
    Lugar(ss, i);
    if k <= i {
      if k < i {
        Orden(ss, k, i);
      }
      Lugar(ss, k);
      SiguienteEs(ss, i, k + 1);
    }
  }

  // ---------------------------------------------------------------- building the pieces

  function Min(x: nat, y: nat): nat { if x < y then x else y }

  /** The loop both builders share: take what fits in this stick, go on in the next one. */
  function Armar(ss: seq<Stick>, i: nat, offset: nat, restantes: nat): Opcion<seq<Pedazo>>
    requires Bien(ss) && i < |ss| && offset < ss[i].size
    decreases restantes
  {
    if restantes == 0 then Algo([])
    else
      var t := Min(ss[i].size - offset, restantes);
      var p := Pedazo(i, offset, t);
      if restantes == t then Algo([p])
      else
        SiguienteEs(ss, i, 0);
        match Siguiente(ss, i, 0)
        case Nada => Nada
        case Algo(j) =>
          Lugar(ss, j);
          match Armar(ss, j, 0, restantes - t)
          case Nada => Nada
          case Algo(resto) => Algo([p] + resto)
  }

  /** `ps` is a contiguous exact cover of [dir, dir + tam): non-empty pieces in address order,
      each one inside its stick. */
  ghost predicate Cubre(ss: seq<Stick>, ps: seq<Pedazo>, dir: nat, tam: nat)
  {
    if ps == [] then tam == 0
    else
      && PedazoValido(ss, ps[0])
      && ps[0].tam > 0
      && ss[ps[0].stick].base + ps[0].desde == dir
      && ps[0].tam <= tam
      && Cubre(ss, ps[1..], dir + ps[0].tam, tam - ps[0].tam)
  }

  /** The stick's own bounds check (memory_stick/src/memo_stick.c:112, 149). */
  predicate PedazoValido(ss: seq<Stick>, p: Pedazo)
  {
    p.stick < |ss| && p.desde + p.tam <= ss[p.stick].size
  }

  /** The builder succeeds exactly when the range is inside memory, and then covers it. */
  lemma {:induction false} ArmarCubre(ss: seq<Stick>, i: nat, offset: nat, restantes: nat)
    requires Bien(ss) && i < |ss| && offset < ss[i].size
    ensures Armar(ss, i, offset, restantes).Algo? <==> ss[i].base + offset + restantes <= Total(ss)
    ensures var r := Armar(ss, i, offset, restantes);
            r.Algo? ==> Cubre(ss, r.valor, ss[i].base + offset, restantes)
    decreases restantes
  {
    Lugar(ss, i);
    if restantes > 0 {
      var t := Min(ss[i].size - offset, restantes);
      if restantes > t {
        SiguienteEs(ss, i, 0);
        if i + 1 < |ss| {
          Lugar(ss, i + 1);
          ArmarCubre(ss, i + 1, 0, restantes - t);
        }
      }
    }
  }

  // ---------------------------------------------------------------- the two builders

  /** `pedazos_fisico` */
  function PedazosFisico(ss: seq<Stick>, dir: nat, tam: nat): Opcion<seq<Pedazo>>
    requires Bien(ss)
  {
    BusquedasDesdeCero(ss, dir);
    match Encontrar(ss, dir, 0)
    case Nada => Nada
    case Algo(i) => Armar(ss, i, dir - ss[i].base, tam)
  }

  /** `buscar_stick_base` followed by `crear_lista_con_memories_stick_a_llamar` */
  function PedazosMmu(ss: seq<Stick>, dir: nat, tam: nat): Opcion<seq<Pedazo>>
    requires Bien(ss)
  {
    BusquedasDesdeCero(ss, dir);
    match BuscarBase(ss, dir, 0)
    case Nada => Nada
    case Algo(i) => Armar(ss, i, dir - ss[i].base, tam)
  }

  /** Both builders produce the same pieces; they fail exactly outside memory, and otherwise
      the pieces are an exact cover. */
  lemma {:induction false} PedazosCorrectos(ss: seq<Stick>, dir: nat, tam: nat)
    requires Bien(ss)
    ensures PedazosFisico(ss, dir, tam) == PedazosMmu(ss, dir, tam)
    ensures PedazosFisico(ss, dir, tam).Algo? <==> dir < Total(ss) && dir + tam <= Total(ss)
    ensures var r := PedazosFisico(ss, dir, tam); r.Algo? ==> Cubre(ss, r.valor, dir, tam)
  {
    BusquedasDesdeCero(ss, dir);
    var r := Encontrar(ss, dir, 0);
    if r.Algo? {
      ArmarCubre(ss, r.valor, dir - ss[r.valor].base, tam);
    }
  }

  // ---------------------------------------------------------------- translation

  /** `buscar_segmento` and `buscar_segmento_proceso`: position of the first segment `id`. */
  function BuscarSegmento(segs: seq<Segmento>, id: nat): (r: Opcion<nat>)
    ensures r.Algo? ==> r.valor < |segs| && segs[r.valor].id == id
    ensures r.Nada? <==> forall i :: 0 <= i < |segs| ==> segs[i].id != id
  {
    if segs == [] then Nada
    else if segs[0].id == id then Algo(0)
    else match BuscarSegmento(segs[1..], id)
         case Nada => assert forall i :: 0 < i < |segs| ==> segs[i] == segs[1..][i - 1]; Nada
         case Algo(k) => assert segs[1..][k] == segs[k + 1]; Algo(k + 1)
  }

  /** `hay_segmentation_fault`, with the sum taken in 32 bits as the code takes it. */
  predicate HaySegmentationFault(desp: nat, limite: nat, tam: nat)
  {
    Mas32(desp, tam) > limite
  }

  /** `traducir_logica_a_fisica` */
  function Traducir(dir: nat, segMax: nat, segs: seq<Segmento>, ss: seq<Stick>, tam: nat): Opcion<seq<Pedazo>>
    requires segMax > 0 && Bien(ss)
  {
    TraducirEn(dir / segMax, dir % segMax, segs, ss, tam)
  }

  function TraducirEn(id: nat, desp: nat, segs: seq<Segmento>, ss: seq<Stick>, tam: nat): Opcion<seq<Pedazo>>
    requires Bien(ss)
  {
    match BuscarSegmento(segs, id)
    case Nada => Nada
    case Algo(k) =>
      if HaySegmentationFault(desp, segs[k].limite, tam) then Nada
      else PedazosMmu(ss, Mas32(segs[k].base, desp), tam)
  }

  /** Where a logical access is allowed: inside a segment of the table. */
  ghost predicate EnSegmento(dir: nat, segMax: nat, segs: seq<Segmento>, tam: nat)
    requires segMax > 0
  {
    var r := BuscarSegmento(segs, dir / segMax);
    r.Algo? && dir % segMax + tam <= segs[r.valor].limite
  }

  /** The segment that an access names, if there is one, lies inside physical memory. */
  ghost predicate DentroDeMemoria(dir: nat, segMax: nat, segs: seq<Segmento>, total: nat)
    requires segMax > 0
  {
    var r := BuscarSegmento(segs, dir / segMax);
    r.Algo? ==> segs[r.valor].base + segs[r.valor].limite <= total
  }

  /** Although the fault check adds in 32 bits, translation succeeds exactly on the accesses
      that lie inside a segment: a sum that wraps past the check asks for more bytes than
      there are after the base, so the builder runs out of sticks and refuses it.  The one
      condition is that no base plus offset can wrap. */
  lemma {:induction false} TraducirExacta(dir: nat, segMax: nat, segs: seq<Segmento>, ss: seq<Stick>, tam: nat)
    requires 0 < segMax && Bien(ss) && dir < WORD && tam < WORD
    requires Total(ss) + segMax <= WORD && DentroDeMemoria(dir, segMax, segs, Total(ss))
    requires tam > 0
    ensures Traducir(dir, segMax, segs, ss, tam).Algo? <==> EnSegmento(dir, segMax, segs, tam)
    ensures var r := Traducir(dir, segMax, segs, ss, tam);
            r.Algo? ==> Cubre(ss, r.valor, segs[BuscarSegmento(segs, dir / segMax).valor].base + dir % segMax, tam)
  {
    hide PedazosMmu, PedazosFisico, Cubre, Bien, Total, BuscarSegmento;
    var b := BuscarSegmento(segs, dir / segMax);
    if b.Algo? {
      var s := segs[b.valor];
      var desp := dir % segMax;
      assert s.base + s.limite <= Total(ss);
      assert s.base + desp < WORD;
      PedazosCorrectos(ss, s.base + desp, tam);
      if desp + tam >= WORD {
        assert Mas32(desp, tam) == desp + tam - WORD;
        assert s.base + desp + tam > Total(ss);
      }
    }
  }

  /** An empty access is refused by translation exactly when it starts outside the segment or
      at the end of memory; otherwise it yields no piece at all. */
  lemma {:induction false} TraducirVacia(dir: nat, segMax: nat, segs: seq<Segmento>, ss: seq<Stick>)
    requires 0 < segMax && Bien(ss) && dir < WORD
    requires Total(ss) + segMax <= WORD && DentroDeMemoria(dir, segMax, segs, Total(ss))
    ensures Traducir(dir, segMax, segs, ss, 0) ==
            if EnSegmento(dir, segMax, segs, 0)
               && segs[BuscarSegmento(segs, dir / segMax).valor].base + dir % segMax < Total(ss)
            then Algo([]) else Nada
  {
    hide TraducirEn;
    TraducirEnVacia(dir / segMax, dir % segMax, segMax, segs, ss);
  }

  lemma TraducirEnVacia(id: nat, desp: nat, segMax: nat, segs: seq<Segmento>, ss: seq<Stick>)
    requires Bien(ss) && desp < segMax && Total(ss) + segMax <= WORD
    requires BuscarSegmento(segs, id).Algo? ==>
      segs[BuscarSegmento(segs, id).valor].base + segs[BuscarSegmento(segs, id).valor].limite <= Total(ss)
    ensures TraducirEn(id, desp, segs, ss, 0) ==
            match BuscarSegmento(segs, id)
            case Nada => Nada
            case Algo(k) => if desp <= segs[k].limite && segs[k].base + desp < Total(ss) then Algo([]) else Nada
  {
    hide PedazosMmu, Bien, Total, BuscarSegmento;
    var b := BuscarSegmento(segs, id);
    if b.Algo? {
      PedazosVacios(ss, segs[b.valor].base + desp);
    }
  }

  lemma PedazosVacios(ss: seq<Stick>, dir: nat)
    requires Bien(ss)
    ensures PedazosMmu(ss, dir, 0) == if dir < Total(ss) then Algo([]) else Nada
  {
    BusquedasDesdeCero(ss, dir);
  }

  /** The kernel names a segment by the address `id * segMax`, computed in 32 bits; that
      address leads back to the segment exactly when the product does not wrap. */
  lemma {:induction false} DireccionDeSegmento(id: nat, segMax: nat)
    requires 0 < segMax <= WORD && id < WORD
    ensures (id * segMax % WORD) / segMax == id <==> id * segMax < WORD
    ensures id * segMax < WORD ==> (id * segMax % WORD) % segMax == 0
  {
    var p := id * segMax;
    if p < WORD {
      assert p % WORD == p;
      Dividir(id, segMax);
    } else {
      var q := p % WORD;
      assert (q / segMax) * segMax <= q < WORD <= p;
    }
  }

  lemma Dividir(k: nat, n: nat)
    requires n > 0
    ensures (k * n) / n == k && (k * n) % n == 0
  {
    var x := k * n;
    DivisionUnica(n, x / n, x % n, k);
  }

  lemma DivisionUnica(n: nat, q: nat, r: nat, k: nat)
    requires r < n && q * n + r == k * n
    ensures q == k && r == 0
  {
    assert (k - q) * n == k * n - q * n;
    if k > q {
      Multiplo(k - q, n);
    } else if k < q {
      Multiplo(q - k, n);
    }
  }

  lemma Multiplo(c: nat, n: nat)
    requires c > 0
    ensures c * n >= n
  {
  }

  // ---------------------------------------------------------------- pieces refine flat memory

  /** The bytes of all the sticks, one after another. */
  function Plano(ms: seq<seq<byte>>): seq<byte>
  {
    if ms == [] then [] else Plano(ms[..|ms| - 1]) + ms[|ms| - 1]
  }

  lemma PlanoMas(ms: seq<seq<byte>>, m: seq<byte>)
    ensures Plano(ms + [m]) == Plano(ms) + m
  {
    assert (ms + [m])[..|ms|] == ms;
  }

  ghost predicate Coinciden(ss: seq<Stick>, ms: seq<seq<byte>>)
  {
    |ss| == |ms| && forall i :: 0 <= i < |ss| ==> |ms[i]| == ss[i].size
  }

  /** `memcpy` of `d` at offset `dir`. */
  function Pisar(f: seq<byte>, dir: nat, d: seq<byte>): (r: seq<byte>)
    requires dir + |d| <= |f|
    ensures |r| == |f|
  {
    f[..dir] + d + f[dir + |d|..]
  }

  function LeerPs(ms: seq<seq<byte>>, ps: seq<Pedazo>): seq<byte>
    requires PsValidos(ms, ps)
  {
    if ps == [] then []
    else ms[ps[0].stick][ps[0].desde..ps[0].desde + ps[0].tam] + LeerPs(ms, ps[1..])
  }

  /** Every piece passes the bounds check of the stick it goes to. */
  ghost predicate PsValidos(ms: seq<seq<byte>>, ps: seq<Pedazo>)
  {
    forall i :: 0 <= i < |ps| ==> ps[i].stick < |ms| && ps[i].desde + ps[i].tam <= |ms[ps[i].stick]|
  }

  function SumaPs(ps: seq<Pedazo>): nat
  {
    if ps == [] then 0 else ps[0].tam + SumaPs(ps[1..])
  }

  function EscribirPs(ms: seq<seq<byte>>, ps: seq<Pedazo>, d: seq<byte>): seq<seq<byte>>
    requires PsValidos(ms, ps) && |d| == SumaPs(ps)
    decreases |ps|
  {
    if ps == [] then ms
    else
      var p := ps[0];
      EscribirPs(ms[p.stick := Pisar(ms[p.stick], p.desde, d[..p.tam])], ps[1..], d[p.tam..])
  }

  lemma LeerPsVacio(ms: seq<seq<byte>>, ps: seq<Pedazo>)
    requires ps == []
    ensures PsValidos(ms, ps) && LeerPs(ms, ps) == []
  {
  }

  lemma LeerPsPaso(ms: seq<seq<byte>>, ps: seq<Pedazo>, i: nat)
    requires i < |ps| && PsValidos(ms, ps)
    ensures PsValidos(ms, ps[i..]) && PsValidos(ms, ps[i + 1..])
    ensures LeerPs(ms, ps[i..]) == ms[ps[i].stick][ps[i].desde..ps[i].desde + ps[i].tam] + LeerPs(ms, ps[i + 1..])
  {
    assert ps[i..][0] == ps[i] && ps[i..][1..] == ps[i + 1..];
  }

  /** State of the writing loop: `o` bytes of `d` are written, pieces from `i` on are left, and
      finishing them leads to `meta`. */
  ghost predicate PorEscribir(ms: seq<seq<byte>>, ps: seq<Pedazo>, i: nat, d: seq<byte>, o: nat, meta: seq<seq<byte>>)
  {
    && i <= |ps| && PsValidos(ms, ps[i..]) && o + SumaPs(ps[i..]) == |d|
    && EscribirPs(ms, ps[i..], d[o..]) == meta
  }

  lemma PorEscribirPaso(ms: seq<seq<byte>>, ps: seq<Pedazo>, i: nat, d: seq<byte>, o: nat, meta: seq<seq<byte>>)
    requires PorEscribir(ms, ps, i, d, o, meta) && i < |ps|
    ensures ps[i].stick < |ms| && ps[i].desde + ps[i].tam <= |ms[ps[i].stick]|
    ensures o + ps[i].tam <= |d|
    ensures PorEscribir(ms[ps[i].stick := Pisar(ms[ps[i].stick], ps[i].desde, d[o..o + ps[i].tam])],
                  ps, i + 1, d, o + ps[i].tam, meta)
  {
    var p := ps[i];
    var r := ps[i + 1..];
    assert ps[i..][0] == p && ps[i..][1..] == r;
    assert d[o..][..p.tam] == d[o..o + p.tam] && d[o..][p.tam..] == d[o + p.tam..];
    assert forall j :: 0 <= j < |r| ==> r[j] == ps[i..][j + 1];
  }

  lemma PorEscribirEmpieza(ms: seq<seq<byte>>, ps: seq<Pedazo>, d: seq<byte>, meta: seq<seq<byte>>)
    requires PsValidos(ms, ps) && |d| == SumaPs(ps) && meta == EscribirPs(ms, ps, d)
    ensures PorEscribir(ms, ps, 0, d, 0, meta)
  {
    assert ps[0..] == ps && d[0..] == d;
  }

  lemma PorEscribirTermina(ms: seq<seq<byte>>, ps: seq<Pedazo>, d: seq<byte>, o: nat, meta: seq<seq<byte>>)
    requires PorEscribir(ms, ps, |ps|, d, o, meta)
    ensures ms == meta
  {
  }

  lemma Coincide(ss: seq<Stick>, ms: seq<seq<byte>>, i: nat)
    requires Coinciden(ss, ms) && i < |ms|
    ensures |ss| == |ms| && |ms[i]| == ss[i].size
  {
  }

  lemma {:induction false} CubreValidos(ss: seq<Stick>, ms: seq<seq<byte>>, ps: seq<Pedazo>, dir: nat, tam: nat)
    requires Coinciden(ss, ms) && Cubre(ss, ps, dir, tam)
    ensures PsValidos(ms, ps) && SumaPs(ps) == tam
    decreases |ps|
  {
    if ps != [] {
      CubreValidos(ss, ms, ps[1..], dir + ps[0].tam, tam - ps[0].tam);
      assert forall i :: 0 < i < |ps| ==> ps[i] == ps[1..][i - 1];
    }
  }

  lemma {:induction false} PlanoEn(ss: seq<Stick>, ms: seq<seq<byte>>, i: nat)
    requires Bien(ss) && Coinciden(ss, ms) && i < |ss|
    ensures |Plano(ms)| == Total(ss)
    ensures ss[i].base + ss[i].size <= |Plano(ms)|
    ensures Plano(ms)[ss[i].base..ss[i].base + ss[i].size] == ms[i]
  {
    PlanoLargo(ss, ms);
    Lugar(ss, i);
    var n := |ss| - 1;
    if i < n {
      PlanoEn(ss[..n], ms[..n], i);
      assert Plano(ms)[..Total(ss[..n])] == Plano(ms[..n]);
      Lugar(ss[..n], i);
      assert Plano(ms)[ss[i].base..ss[i].base + ss[i].size]
          == Plano(ms[..n])[ss[i].base..ss[i].base + ss[i].size];
    } else {
      PlanoLargo(ss[..n], ms[..n]);
    }
  }

  lemma {:induction false} PlanoLargo(ss: seq<Stick>, ms: seq<seq<byte>>)
    requires Coinciden(ss, ms)
    ensures |Plano(ms)| == Total(ss)
  {
    if ss != [] {
      PlanoLargo(ss[..|ss| - 1], ms[..|ms| - 1]);
    }
  }

  lemma Subtramo(f: seq<byte>, b: nat, n: nat, m: seq<byte>, d: nat, t: nat)
    requires b + n <= |f| && m == f[b..b + n] && d + t <= n
    ensures m[d..d + t] == f[b + d..b + d + t]
  {
    var x, y := m[d..d + t], f[b + d..b + d + t];
    forall k | 0 <= k < t ensures x[k] == y[k] {
      assert m[d + k] == f[b + d + k];
    }
  }

  lemma LeerUna(ss: seq<Stick>, ms: seq<seq<byte>>, p: Pedazo, dir: nat, f: seq<byte>)
    requires Bien(ss) && Coinciden(ss, ms) && PedazoValido(ss, p) && ss[p.stick].base + p.desde == dir && f == Plano(ms)
    ensures dir + p.tam <= |f| && p.desde + p.tam <= |ms[p.stick]|
    ensures ms[p.stick][p.desde..p.desde + p.tam] == f[dir..dir + p.tam]
  {
    PlanoEn(ss, ms, p.stick);
    Subtramo(f, ss[p.stick].base, ss[p.stick].size, ms[p.stick], p.desde, p.tam);
  }

  /** The pieces hold the `tam` bytes of `f` at `dir`. */
  ghost predicate Leido(ms: seq<seq<byte>>, ps: seq<Pedazo>, f: seq<byte>, dir: nat, tam: nat)
  {
    PsValidos(ms, ps) && dir + tam <= |f| && LeerPs(ms, ps) == f[dir..dir + tam]
  }

  lemma LeidoPaso(ms: seq<seq<byte>>, ps: seq<Pedazo>, f: seq<byte>, dir: nat, tam: nat)
    requires ps != [] && PsValidos(ms, ps) && ps[0].tam <= tam
    requires dir + ps[0].tam <= |f|
    requires ms[ps[0].stick][ps[0].desde..ps[0].desde + ps[0].tam] == f[dir..dir + ps[0].tam]
    requires Leido(ms, ps[1..], f, dir + ps[0].tam, tam - ps[0].tam)
    ensures Leido(ms, ps, f, dir, tam)
  {
    hide PsValidos;
    var y := dir + ps[0].tam;
    assert f[dir..dir + tam] == f[dir..y] + f[y..dir + tam];
  }

  lemma {:induction false} LeerEnOrden(ss: seq<Stick>, ms: seq<seq<byte>>, ps: seq<Pedazo>, dir: nat, tam: nat, f: seq<byte>)
    requires Bien(ss) && Coinciden(ss, ms) && Cubre(ss, ps, dir, tam) && dir + tam <= Total(ss) && f == Plano(ms)
    ensures Leido(ms, ps, f, dir, tam)
    decreases |ps|
  {
    hide Bien, Coinciden, Plano, Total, Leido, LeerPs;
    CubreValidos(ss, ms, ps, dir, tam);
    PlanoLargo(ss, ms);
    if ps == [] {
      LeidoNada(ms, f, dir);
    } else {
      LeerUna(ss, ms, ps[0], dir, f);
      LeerEnOrden(ss, ms, ps[1..], dir + ps[0].tam, tam - ps[0].tam, f);
      LeidoPaso(ms, ps, f, dir, tam);
    }
  }

  lemma LeidoNada(ms: seq<seq<byte>>, f: seq<byte>, dir: nat)
    requires dir <= |f|
    ensures Leido(ms, [], f, dir, 0)
  {
  }

  /** Reading the pieces in order yields the flat slice. */
  lemma {:induction false} LeerEsPlano(ss: seq<Stick>, ms: seq<seq<byte>>, ps: seq<Pedazo>, dir: nat, tam: nat)
    requires Bien(ss) && Coinciden(ss, ms) && Cubre(ss, ps, dir, tam) && dir + tam <= Total(ss)
    ensures PsValidos(ms, ps) && |Plano(ms)| == Total(ss)
    ensures LeerPs(ms, ps) == Plano(ms)[dir..dir + tam]
  {
    hide Bien, Coinciden, Plano, Total, LeerPs, Cubre;
    PlanoLargo(ss, ms);
    LeerEnOrden(ss, ms, ps, dir, tam, Plano(ms));
  }

  /** Overwriting inside one stick is overwriting flat memory at the global address. */
  lemma {:induction false} PisarUno(ss: seq<Stick>, ms: seq<seq<byte>>, i: nat, o: nat, d: seq<byte>)
    requires Bien(ss) && Coinciden(ss, ms) && i < |ss| && o + |d| <= ss[i].size
    ensures |Plano(ms)| == Total(ss) && ss[i].base + o + |d| <= Total(ss)
    ensures Plano(ms[i := Pisar(ms[i], o, d)]) == Pisar(Plano(ms), ss[i].base + o, d)
  {
    hide Pisar;
    Lugar(ss, i);
    PlanoLargo(ss, ms);
    var n := |ss| - 1;
    PlanoLargo(ss[..n], ms[..n]);
    var ms' := ms[i := Pisar(ms[i], o, d)];
    var b := ss[i].base + o;
    if i < n {
      Lugar(ss[..n], i);
      PisarUno(ss[..n], ms[..n], i, o, d);
      assert ms'[..n] == ms[..n][i := Pisar(ms[i], o, d)];
      PisarIzquierda(Plano(ms[..n]), ms[n], b, d);
    } else {
      assert ms'[..n] == ms[..n];
      PisarDerecha(Plano(ms[..n]), ms[n], o, d);
    }
  }

  lemma PisarIzquierda(x: seq<byte>, y: seq<byte>, dir: nat, d: seq<byte>)
    requires dir + |d| <= |x|
    ensures Pisar(x + y, dir, d) == Pisar(x, dir, d) + y
  {
  }

  lemma PisarDerecha(x: seq<byte>, y: seq<byte>, o: nat, d: seq<byte>)
    requires o + |d| <= |y|
    ensures Pisar(x + y, |x| + o, d) == x + Pisar(y, o, d)
  {
    assert (x + y)[..|x| + o] == x + y[..o];
    assert (x + y)[|x| + o + |d|..] == y[o + |d|..];
  }

  lemma PisarNada(f: seq<byte>, dir: nat)
    requires dir <= |f|
    ensures Pisar(f, dir, []) == f
  {
  }

  lemma PisarDos(f: seq<byte>, dir: nat, x: seq<byte>, y: seq<byte>)
    requires dir + |x| + |y| <= |f|
    ensures Pisar(Pisar(f, dir, x), dir + |x|, y) == Pisar(f, dir, x + y)
  {
    var g := Pisar(f, dir, x);
    assert g[..dir + |x|] == f[..dir] + x;
    assert g[dir + |x| + |y|..] == f[dir + |x| + |y|..];
  }

  ghost predicate PrimeraEscrita(ss: seq<Stick>, ms: seq<seq<byte>>, p: Pedazo, dir: nat, d: seq<byte>, ms': seq<seq<byte>>)
  {
    && p.tam <= |d| && |Plano(ms)| == |Plano(ms')| == Total(ss) && dir + |d| <= Total(ss)
    && Coinciden(ss, ms')
    && Plano(ms') == Pisar(Plano(ms), dir, d[..p.tam])
  }

  lemma {:induction false} EscribirUna(ss: seq<Stick>, ms: seq<seq<byte>>, ps: seq<Pedazo>, dir: nat, d: seq<byte>)
    requires Bien(ss) && Coinciden(ss, ms) && Cubre(ss, ps, dir, |d|) && dir + |d| <= Total(ss) && ps != []
    ensures var p := ps[0];
            PrimeraEscrita(ss, ms, p, dir, d, ms[p.stick := Pisar(ms[p.stick], p.desde, d[..p.tam])])
  {
    var p := ps[0];
    PisarUno(ss, ms, p.stick, p.desde, d[..p.tam]);
    PlanoLargo(ss, ms[p.stick := Pisar(ms[p.stick], p.desde, d[..p.tam])]);
  }

  /** Writing the pieces in order performs the flat update and keeps every stick's size. */
  lemma {:induction false} EscribirEsPlano(ss: seq<Stick>, ms: seq<seq<byte>>, ps: seq<Pedazo>, dir: nat, d: seq<byte>)
    requires Bien(ss) && Coinciden(ss, ms) && Cubre(ss, ps, dir, |d|) && dir + |d| <= Total(ss)
    ensures PsValidos(ms, ps) && SumaPs(ps) == |d| && |Plano(ms)| == Total(ss)
    ensures Coinciden(ss, EscribirPs(ms, ps, d))
    ensures Plano(EscribirPs(ms, ps, d)) == Pisar(Plano(ms), dir, d)
    decreases |ps|
  {
    hide Bien, Coinciden, Plano, Total, Pisar;
    CubreValidos(ss, ms, ps, dir, |d|);
    PlanoLargo(ss, ms);
    if ps == [] {
      PisarNada(Plano(ms), dir);
    } else {
      var p := ps[0];
      var ms' := ms[p.stick := Pisar(ms[p.stick], p.desde, d[..p.tam])];
      EscribirUna(ss, ms, ps, dir, d);
      EscribirEsPlano(ss, ms', ps[1..], dir + p.tam, d[p.tam..]);
      PisarDos(Plano(ms), dir, d[..p.tam], d[p.tam..]);
      assert d == d[..p.tam] + d[p.tam..];
    }
  }
}
