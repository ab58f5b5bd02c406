/** Distributed physical memory: the memory stick modules (memory_stick/src/memo_stick.c) and
    the list of sticks the kernel and the CPUs keep (kernel_memory/src/memory_sticks.c,
    utils/src/utils/mmu.c).  A request to a stick and its reply are one call. */
module Fisica {
  import opened Secuencias
  import opened Mmu

  /** One memory_stick process. */
  class MemoryStick {
    const tamanio: nat
    const memoria: array<byte>

    ghost predicate Valid() { memoria.Length == tamanio }

    constructor (tamanio: nat)
      ensures Valid() && this.tamanio == tamanio && fresh(memoria)
    {
      this.tamanio := tamanio;
      memoria := new byte[tamanio];
    }

    /** `escribir_memoria` */
    method EscribirMemoria(direccion: nat, tam: nat, datos: seq<byte>) returns (ok: bool)
      requires Valid() && |datos| == tam
      modifies memoria
      ensures ok <==> direccion + tam <= tamanio
      ensures memoria[..] == if ok then Pisar(old(memoria[..]), direccion, datos) else old(memoria[..])
    {
      if direccion > tamanio || tam > tamanio - direccion {
        return false;
      }
      forall k | 0 <= k < tam {
        memoria[direccion + k] := datos[k];
      }
      ok := true;
      assert memoria[..] == Pisar(old(memoria[..]), direccion, datos);
    }

    /** `leer_memoria` */
    method LeerMemoria(direccion: nat, tam: nat) returns (r: Opcion<seq<byte>>)
      requires Valid()
      ensures r.Algo? <==> direccion + tam <= tamanio
      ensures r.Algo? ==> r.valor == memoria[direccion..direccion + tam]
    {
      if direccion > tamanio || tam > tamanio - direccion {
        return Nada;
      }
      r := Algo(memoria[direccion..direccion + tam]);
    }
  }

  /** `lista_memory_sticks` and the connections behind it. */
  class MemoriaFisica {
    var sticks: seq<Stick>
    var modulos: seq<MemoryStick>
    var total: nat

    ghost function Arreglos(): set<object>
      reads this
    {
      set m | m in modulos :: m.memoria
    }

    ghost predicate Valid()
      reads this
    {
      && |sticks| == |modulos|
      && Bien(sticks)
      && total == Total(sticks)
      && (forall i :: 0 <= i < |modulos| ==> modulos[i].Valid() && modulos[i].tamanio == sticks[i].size)
      && (forall i, j :: 0 <= i < j < |modulos| ==> modulos[i].memoria != modulos[j].memoria)
    }

    /** The bytes of each stick. */
    ghost function Bytes(): seq<seq<byte>>
      reads this, Arreglos()
    {
      seq(|modulos|, i requires 0 <= i < |modulos| reads this, Arreglos() => modulos[i].memoria[..])
    }

    /** The flat memory the whole system works on. */
    ghost function Memoria(): seq<byte>
      reads this, Arreglos()
    {
      Plano(Bytes())
    }

    lemma Coherente()
      requires Valid()
      ensures Coinciden(sticks, Bytes()) && |Memoria()| == total
    {
      PlanoLargo(sticks, Bytes());
    }

    constructor ()
      ensures Valid() && sticks == [] && Memoria() == []
    {
      sticks, modulos, total := [], [], 0;
    }

    /** The part of `agregar_memory_stick` that extends the address space. */
    method Agregar(m: MemoryStick)
      requires Valid() && m.Valid() && m.tamanio > 0 && m.memoria !in Arreglos()
      modifies this
      ensures Valid() && total == old(total) + m.tamanio
      ensures sticks == old(sticks) + [Stick(m.tamanio, old(total))]
      ensures modulos == old(modulos) + [m] && Arreglos() == old(Arreglos()) + {m.memoria}
      ensures Memoria() == old(Memoria()) + m.memoria[..]
    {
      hide Bien, Total, Plano;
      ghost var antes := Bytes();
      assert forall i :: 0 <= i < |modulos| ==> modulos[i].memoria in Arreglos();
      BienMas(sticks, m.tamanio);
      PlanoMas(antes, m.memoria[..]);
      sticks := sticks + [Stick(m.tamanio, total)];
      modulos := modulos + [m];
      total := total + m.tamanio;
      assert Bytes() == antes + [m.memoria[..]];
      assert m in modulos && forall x :: x in modulos <==> x in old(modulos) || x == m;
    }

    /** `encontrar_stick_por_dir_fisica` */
    method EncontrarStick(dir: nat) returns (r: Opcion<nat>)
      ensures r == Encontrar(sticks, dir, 0)
    {
      for i := 0 to |sticks|
        invariant Encontrar(sticks, dir, i) == Encontrar(sticks, dir, 0)
      {
        if dir >= sticks[i].base && dir < sticks[i].base + sticks[i].size {
          return Algo(i);
        }
      }
      r := Nada;
    }

    /** `buscar_stick_base` */
    method BuscarStickBase(dir: nat) returns (r: Opcion<nat>)
      ensures r == BuscarBase(sticks, dir, 0)
    {
      for i := 0 to |sticks|
        invariant BuscarBase(sticks, dir, i) == BuscarBase(sticks, dir, 0)
      {
        if sticks[i].base + sticks[i].size > dir {
          return Algo(i);
        }
      }
      r := Nada;
    }

    /** `buscar_siguiente_stick` */
    method BuscarSiguienteStick(k: nat) returns (r: Opcion<nat>)
      requires k < |sticks|
      ensures r == Siguiente(sticks, k, 0)
    {
      for i := 0 to |sticks|
        invariant Siguiente(sticks, k, i) == Siguiente(sticks, k, 0)
      {
        if sticks[i].base == sticks[k].base + sticks[k].size {
          return Algo(i);
        }
      }
      r := Nada;
    }

    /** The loop of `pedazos_fisico` and of `crear_lista_con_memories_stick_a_llamar`. */
    method CrearLista(stick: nat, dir: nat, tam: nat) returns (r: Opcion<seq<Pedazo>>)
      requires Valid() && EnStick(sticks, dir, stick)
      ensures r == Armar(sticks, stick, dir - sticks[stick].base, tam)
    {
      var lista: seq<Pedazo> := [];
      var i: nat, offset: nat, restantes: nat := stick, dir - sticks[stick].base, tam;
      ghost var todo := Armar(sticks, i, offset, restantes);
      assert todo.Algo? ==> [] + todo.valor == todo.valor;
      while restantes > 0
        invariant i < |sticks| && (restantes > 0 ==> offset < sticks[i].size)
        invariant restantes == 0 ==> todo == Algo(lista)
        invariant restantes > 0 ==> todo == Prefijar(lista, Armar(sticks, i, offset, restantes))
        decreases restantes
      {
        var espacio := sticks[i].size - offset;
        var aCopiar := if espacio < restantes then espacio else restantes;
        ghost var resto := Armar(sticks, i, offset, restantes);
        ghost var antes := lista;
        lista := lista + [Pedazo(i, offset, aCopiar)];
        restantes := restantes - aCopiar;
        if restantes > 0 {
          var sig := BuscarSiguienteStick(i);
          SiguienteEs(sticks, i, 0);
          if sig.Nada? {
            return Nada;
          }
          Lugar(sticks, sig.valor);
          ghost var cola := Armar(sticks, sig.valor, 0, restantes);
          if cola.Algo? {
            assert antes + ([Pedazo(i, offset, aCopiar)] + cola.valor) == lista + cola.valor;
          }
          i := sig.valor;
          offset := 0;
        }
      }
      r := Algo(lista);
    }

    ghost function Prefijar(l: seq<Pedazo>, r: Opcion<seq<Pedazo>>): Opcion<seq<Pedazo>>
    {
      match r case Nada => Nada case Algo(ps) => Algo(l + ps)
    }

    /** `pedazos_fisico`: fails exactly outside memory, and otherwise covers the range. */
    method PedazosDe(dir: nat, tam: nat) returns (r: Opcion<seq<Pedazo>>)
      requires Valid()
      ensures r == PedazosFisico(sticks, dir, tam)
      ensures r.Algo? <==> dir < total && dir + tam <= total
      ensures r.Algo? ==> Cubre(sticks, r.valor, dir, tam)
    {
      PedazosCorrectos(sticks, dir, tam);
      BusquedasDesdeCero(sticks, dir);
      var stick := EncontrarStick(dir);
      if stick.Nada? {
        return Nada;
      }
      r := CrearLista(stick.valor, dir, tam);
    }

    /** `traducir_logica_a_fisica` */
    method TraducirLogicaAFisica(dir: nat, segMax: nat, segs: seq<Segmento>, tam: nat)
      returns (r: Opcion<seq<Pedazo>>)
      requires Valid() && segMax > 0
      ensures r == Traducir(dir, segMax, segs, sticks, tam)
    {
      var k := BuscarSegmento(segs, dir / segMax);
      if k.Nada? {
        return Nada;
      }
      var desp := dir % segMax;
      if HaySegmentationFault(desp, segs[k.valor].limite, tam) {
        return Nada;
      }
      var fisica := Mas32(segs[k.valor].base, desp);
      BusquedasDesdeCero(sticks, fisica);
      var stick := BuscarStickBase(fisica);
      if stick.Nada? {
        return Nada;
      }
      r := CrearLista(stick.valor, fisica, tam);
    }

    /** `leer_pedazos` / `leer_en_memoria`: the bytes read are the flat slice. */
    method LeerPedazos(ps: seq<Pedazo>, ghost dir: nat, ghost tam: nat) returns (datos: seq<byte>)
      requires Valid() && Cubre(sticks, ps, dir, tam) && dir + tam <= total
      ensures |Memoria()| == total && datos == Memoria()[dir..dir + tam]
    {
      hide Cubre, Bien, Plano, LeerPs;
      Coherente();
      LeerEsPlano(sticks, Bytes(), ps, dir, tam);
      ghost var b := Bytes();
      LeerPsVacio(b, ps[|ps|..]);
      datos := [];
      assert ps[0..] == ps;
      for i := 0 to |ps|
        invariant PsValidos(b, ps) && PsValidos(b, ps[i..])
        invariant datos + LeerPs(b, ps[i..]) == LeerPs(b, ps)
      {
        LeerPsPaso(b, ps, i);
        var p := ps[i];
        assert b[p.stick] == modulos[p.stick].memoria[..];
        var respuesta := modulos[p.stick].LeerMemoria(p.desde, p.tam);
        assert respuesta.valor == b[p.stick][p.desde..p.desde + p.tam];
        datos := datos + respuesta.valor;
      }
      assert Bytes() == b;
    }

    /** One iteration of `escribir_pedazos`: one request to one stick. */
    method EscribirPedazo(p: Pedazo, d: seq<byte>)
      requires Valid() && p.stick < |sticks| && p.desde + p.tam <= sticks[p.stick].size && |d| == p.tam
      modifies Arreglos()
      ensures Valid() && |old(Bytes())| == |sticks| && |old(Bytes()[p.stick])| == sticks[p.stick].size
      ensures Bytes() == old(Bytes())[p.stick := Pisar(old(Bytes()[p.stick]), p.desde, d)]
    {
      ghost var b := Bytes();
      assert b[p.stick] == modulos[p.stick].memoria[..];
      var ok := modulos[p.stick].EscribirMemoria(p.desde, p.tam, d);
      forall k | 0 <= k < |modulos|
        ensures Bytes()[k] == b[p.stick := Pisar(b[p.stick], p.desde, d)][k]
      {
        assert Bytes()[k] == modulos[k].memoria[..];
        assert b[k] == old(modulos[k].memoria[..]);
      }
    }

    /** `escribir_pedazos` / `escribir_en_memoria`: the flat memory is overwritten at `dir`. */
    method EscribirPedazos(ps: seq<Pedazo>, datos: seq<byte>, ghost dir: nat)
      requires Valid() && Cubre(sticks, ps, dir, |datos|) && dir + |datos| <= total
      modifies Arreglos()
      ensures Valid() && |old(Memoria())| == total
      ensures Memoria() == Pisar(old(Memoria()), dir, datos)
    {
      hide Cubre, Plano, Pisar, Bien, Total, EscribirPs, PorEscribir, Coinciden;
      ghost var b := Bytes();
      Coherente();
      EscribirEsPlano(sticks, b, ps, dir, datos);
      ghost var meta := EscribirPs(b, ps, datos);
      PorEscribirEmpieza(b, ps, datos, meta);
      var escrito: nat := 0;
      for i := 0 to |ps|
        invariant Valid() && Bytes() == b && PorEscribir(b, ps, i, datos, escrito, meta)
      {
        PorEscribirPaso(b, ps, i, datos, escrito, meta);
        Coherente();
        Coincide(sticks, b, ps[i].stick);
        EscribirPedazo(ps[i], datos[escrito..escrito + ps[i].tam]);
        escrito := escrito + ps[i].tam;
        b := Bytes();
      }
      PorEscribirTermina(b, ps, datos, escrito, meta);
    }
  }
}
