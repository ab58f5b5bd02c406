/** The instructions of cpu/src/instrucciones.c that touch memory: MOV_IN, MOV_OUT and
    COPY_MEM.  The segment table a CPU holds is the one of the process it runs, and its list
    of sticks is the kernel's. */
module Cpu {
  import opened Secuencias
  import opened Rangos
  import opened Mmu
  import opened Fisica
  import opened Memoria
  import opened Asignador
  import opened Corridas
  import opened Numeros
  import KM = KernelMemory

  /** `Codigo_registros_cpu` */
  const PC: nat := 0
  const DX: nat := 4
  const SI: nat := 9
  const DI: nat := 10

  /** What an instruction returns: 0, COD_SEG_FAULT, or the end of the CPU process when it
      takes the first element of an empty list. */
  datatype Resultado = Bien | SegFault | Caida

  // ---------------------------------------------------------------- effect on the memory

  /** AX, BX, CX and DX hold one byte; PC and the others hold four. */
  function Ancho(reg: nat): nat { if 1 <= reg <= DX then 1 else 4 }

  /** Bytes an instruction moves for a register: the test is `tipoRegistro > 4`, so PC moves one. */
  function Tamanio(reg: nat): nat { if reg > DX then 4 else 1 }

  ghost predicate Corre(e: Estado, pid: nat)
  {
    Inv(e) && e.cfg.segMax > 0 && ProcesoDe(e.procs, pid).Algo? && !ProcesoDe(e.procs, pid).valor.enSwap
  }

  /** The bytes at a logical range, when the range lies inside a segment. */
  ghost function Leer(e: Estado, pid: nat, dir: nat, tam: nat): Opcion<seq<byte>>
    requires Corre(e, pid)
  {
    var c := Contenido(e, pid, dir / e.cfg.segMax);
    var o := dir % e.cfg.segMax;
    if c.Algo? && o + tam <= |c.valor| then Algo(c.valor[o..o + tam]) else Nada
  }

  /** COPY_MEM: everything is read before anything is written. */
  ghost function CopyMem(e: Estado, pid: nat, si: nat, di: nat, tam: nat): (Estado, Resultado)
    requires Corre(e, pid)
  {
    match Leer(e, pid, si, tam)
    case Nada => (e, SegFault)
    case Algo(d) =>
      var (f, ok) := Escribir(e, pid, di, d);
      (f, if ok then Bien else SegFault)
  }

  lemma LeerExacta(e: Estado, pid: nat, dir: nat, tam: nat, i: nat)
    requires Corre(e, pid) && BuscarProceso(e.procs, pid) == Algo(i)
    ensures var segs := e.procs[i].segs;
      var r := BuscarSegmento(segs, dir / e.cfg.segMax);
      && (Leer(e, pid, dir, tam).Algo? <==> EnSegmento(dir, e.cfg.segMax, segs, tam))
      && (EnSegmento(dir, e.cfg.segMax, segs, tam) ==>
            var b := segs[r.valor].base + dir % e.cfg.segMax;
            b + tam <= |e.mem| && Leer(e, pid, dir, tam) == Algo(e.mem[b..b + tam]))
  {
    hide Embaldosa, SwapOk, Presentes;
    var segs := e.procs[i].segs;
    var r := BuscarSegmento(segs, dir / e.cfg.segMax);
    if r.Algo? {
      ResidenteDentro(e, i, r.valor);
      var s := segs[r.valor];
      var o := dir % e.cfg.segMax;
      if o + tam <= s.limite {
        Subtramo(e.mem, s.base, s.limite, e.mem[s.base..s.base + s.limite], o, tam);
      }
    }
  }

  lemma EscribirExacta(e: Estado, pid: nat, dir: nat, datos: seq<byte>, i: nat)
    requires Corre(e, pid) && BuscarProceso(e.procs, pid) == Algo(i)
    ensures var segs := e.procs[i].segs;
      var (f, ok) := Escribir(e, pid, dir, datos);
      && (ok <==> EnSegmento(dir, e.cfg.segMax, segs, |datos|))
      && (!ok ==> f == e)
      && (ok ==> var b := segs[BuscarSegmento(segs, dir / e.cfg.segMax).valor].base + dir % e.cfg.segMax;
                 b + |datos| <= |e.mem| && f == e.(mem := Pisar(e.mem, b, datos)))
  {
    hide Inv;
    var segs := e.procs[i].segs;
    var r := BuscarSegmento(segs, dir / e.cfg.segMax);
    if r.Algo? {
      ResidenteDentro(e, i, r.valor);
    }
  }

  /** What is written is what is read back. */
  lemma EscritoLeido(e: Estado, pid: nat, dir: nat, datos: seq<byte>)
    requires Corre(e, pid) && Escribir(e, pid, dir, datos).1
    ensures Corre(Escribir(e, pid, dir, datos).0, pid)
    ensures Leer(Escribir(e, pid, dir, datos).0, pid, dir, |datos|) == Algo(datos)
  {
    hide Inv, SoloCambia, Contenido;
    EscribirAislada(e, pid, dir, datos);
    PisarLeer(Contenido(e, pid, dir / e.cfg.segMax).valor, dir % e.cfg.segMax, datos);
  }

  lemma PisarLeer(c: seq<byte>, o: nat, d: seq<byte>)
    requires o + |d| <= |c|
    ensures Pisar(c, o, d)[o..o + |d|] == d
    ensures forall k :: 0 <= k < |c| && !(o <= k < o + |d|) ==> Pisar(c, o, d)[k] == c[k]
  {
  }

  /** Outside `tam` bytes at `o`, both are equal. */
  ghost predicate IgualFuera(x: seq<byte>, y: seq<byte>, o: nat, tam: nat)
  {
    |x| == |y| && forall k :: 0 <= k < |x| && !(o <= k < o + tam) ==> x[k] == y[k]
  }

  /** Overlapping copy and isolation: COPY_MEM succeeds exactly when both ranges lie inside
      segments of the process; it then leaves at DI the former bytes of SI, even when the
      ranges overlap; the rest of the destination segment, every other segment of the process
      and every segment of every other process keep their bytes. */
  lemma {:induction false} CopiaAislada(e: Estado, pid: nat, si: nat, di: nat, tam: nat, f: Estado, r: Resultado, id: nat, o: nat)
    requires Corre(e, pid) && (f, r) == CopyMem(e, pid, si, di, tam)
    requires id == di / e.cfg.segMax && o == di % e.cfg.segMax
    ensures Corre(f, pid) && SoloCambia(e, f, pid, id)
    ensures r == Bien <==> Leer(e, pid, si, tam).Algo? && Leer(e, pid, di, tam).Algo?
    ensures r != Bien ==> r == SegFault && f == e
    ensures r == Bien ==> Leer(f, pid, di, tam) == Leer(e, pid, si, tam)
    ensures r == Bien ==> Contenido(f, pid, id).Algo? && Contenido(e, pid, id).Algo?
                          && IgualFuera(Contenido(e, pid, id).valor, Contenido(f, pid, id).valor, o, tam)
  {
    hide Inv, SoloCambia, Contenido, Escribir;
    SoloCambiaReflexiva(e, pid, id);
    if Leer(e, pid, si, tam).Algo? {
      var d := Leer(e, pid, si, tam).valor;
      EscribirAislada(e, pid, di, d);
      if r == Bien {
        EscritoLeido(e, pid, di, d);
        PisarLeer(Contenido(e, pid, id).valor, o, d);
      }
    }
  }

  /** MOV_OUT of a register and MOV_IN from the same address: the value comes back, cut to the
      bytes that were moved. */
  lemma {:induction false} IdaYVueltaRegistro(e: Estado, pid: nat, dir: nat, valor: nat, reg: nat)
    requires Corre(e, pid) && Escribir(e, pid, dir, Bytes(valor, Tamanio(reg))).1
    ensures Corre(Escribir(e, pid, dir, Bytes(valor, Tamanio(reg))).0, pid)
    ensures var r := Leer(Escribir(e, pid, dir, Bytes(valor, Tamanio(reg))).0, pid, dir, Tamanio(reg));
      r.Algo? && Entero(r.valor) == valor % Potencia(Tamanio(reg))
  {
    EscritoLeido(e, pid, dir, Bytes(valor, Tamanio(reg)));
    EnteroBytes(valor, Tamanio(reg));
  }

  /** MOV_OUT in numbers.  From AX to DX, and for PC, it changes one byte of the segment; from EAX to
      DI it changes four, the least significant first; everything else is as it was. */
  lemma {:induction false} MovOutBytes(e: Estado, pid: nat, dir: nat, valor: nat, reg: nat, f: Estado, id: nat, o: nat)
    requires Corre(e, pid) && reg < 11 && Escribir(e, pid, dir, Bytes(valor, Tamanio(reg))) == (f, true)
    requires id == dir / e.cfg.segMax && o == dir % e.cfg.segMax
    ensures SoloCambia(e, f, pid, id) && Contenido(e, pid, id).Algo? && Contenido(f, pid, id).Algo?
    ensures var x, y := Contenido(e, pid, id).valor, Contenido(f, pid, id).valor;
      && (reg <= 4 ==> o < |x| && IgualFuera(x, y, o, 1) && y[o] == valor % 256)
      && (5 <= reg <= 10 ==>
            && o + 4 <= |x| && IgualFuera(x, y, o, 4) && y[o] == valor % 256
            && y[o + 1] == valor / 256 % 256 && y[o + 2] == valor / 0x1_0000 % 256 && y[o + 3] == valor / 0x100_0000 % 256)
  {
    hide Inv, SoloCambia, Contenido, Escribir, Bytes;
    var d := Bytes(valor, Tamanio(reg));
    Pocos(valor, []);
    EscribirAislada(e, pid, dir, d);
    var x, y := Contenido(e, pid, id).valor, Contenido(f, pid, id).valor;
    PisarLeer(x, o, d);
    var z := y[o..o + |d|];
    assert z == d && z[0] == y[o];
    if reg > 4 { assert z[1] == y[o + 1] && z[2] == y[o + 2] && z[3] == y[o + 3]; }
  }

  /** MOV_OUT of EAX to DI and MOV_IN from the same address bring the whole 32-bit value back; of AX
      to DX, the 8-bit value. */
  lemma {:induction false} VuelveElValor(e: Estado, pid: nat, dir: nat, valor: nat, reg: nat, f: Estado)
    requires Corre(e, pid) && Escribir(e, pid, dir, Bytes(valor, Tamanio(reg))) == (f, true)
    requires if 1 <= reg <= 4 then valor < 256 else 5 <= reg <= 10 && valor < 0x1_0000_0000
    ensures Corre(f, pid)
    ensures var r := Leer(f, pid, dir, if reg <= 4 then 1 else 4); r.Algo? && Entero(r.valor) == valor
  {
    hide Corre, Escribir, Bytes, Leer, Entero;
    Pocos(valor, []);
    IdaYVueltaRegistro(e, pid, dir, valor, reg);
  }

  // ---------------------------------------------------------------- the processor

  /** What a read through the table gives: nothing, an empty list of pieces, or bytes. */
  datatype Lectura = Fuera | Vacia | Datos(datos: seq<byte>)

  class Procesador {
    const segMax: nat
    const fisica: MemoriaFisica
    var segs: seq<Segmento>
    var regs: seq<nat>

    ghost predicate Valid()
      reads this, fisica
    {
      && fisica.Valid() && segMax > 0 && this as object !in fisica.Arreglos()
      && |regs| == 11 && forall k :: 0 <= k < 11 ==> regs[k] < if 1 <= k <= 4 then 256 else 0x1_0000_0000
    }

    constructor (segMax: nat, fisica: MemoriaFisica)
      requires fisica.Valid() && segMax > 0
      ensures Valid() && this.fisica == fisica && this.segMax == segMax && segs == []
    {
      this.segMax, this.fisica := segMax, fisica;
      segs, regs := [], seq(11, _ => 0);
    }

    /** The CPU runs process `pid` of the system state `e`. */
    ghost predicate Ejecuta(e: Estado, pid: nat)
      reads this, fisica, fisica.Arreglos()
    {
      && Corre(e, pid) && e.mem == fisica.Memoria() && e.cfg.segMax == segMax
      && ProcesoDe(e.procs, pid).valor.segs == segs
    }

    /** `leer_valor_en_registro` */
    function Registro(reg: nat): nat
      reads this
    {
      if reg < |regs| then regs[reg] else 0
    }

    /** `escribir_valor_en_registro` */
    method PonerRegistro(reg: nat, valor: nat)
      requires Valid()
      modifies this`regs
      ensures Valid()
      ensures regs == if reg >= 11 then old(regs) else old(regs)[reg := valor % if 1 <= reg <= 4 then 256 else 0x1_0000_0000]
    {
      Pocos(0, []);
      if reg < |regs| {
        regs := regs[reg := valor % Potencia(Ancho(reg))];
      }
    }

    /** `traducir_logica_a_fisica` on the context of the running process. */
    method Traducir(dir: nat, tam: nat, ghost e: Estado, ghost pid: nat) returns (r: Opcion<seq<Pedazo>>, ghost base: nat)
      requires Valid() && Ejecuta(e, pid) && dir < WORD && tam < WORD
      ensures r.Algo? <==> EnSegmento(dir, segMax, segs, tam) && (tam == 0 ==> base < fisica.total)
      ensures EnSegmento(dir, segMax, segs, tam) ==>
        base == segs[BuscarSegmento(segs, dir / segMax).valor].base + dir % segMax && base + tam <= fisica.total
      ensures r.Algo? ==> Cubre(fisica.sticks, r.valor, base, tam)
      ensures r.Algo? && tam > 0 ==> r.valor != []
    {
      hide Inv;
      fisica.Coherente();
      base := KM.TraduceA(e, BuscarProceso(e.procs, pid).valor, dir, tam, fisica.sticks);
      r := fisica.TraducirLogicaAFisica(dir, segMax, segs, tam);
    }

    lemma EmpiezaLectura(dir: nat, tam: nat, e: Estado, pid: nat, base: nat)
      requires Valid() && Ejecuta(e, pid)
      requires EnSegmento(dir, segMax, segs, tam) ==> base == segs[BuscarSegmento(segs, dir / segMax).valor].base + dir % segMax
      ensures EnSegmento(dir, segMax, segs, tam) ==> (KM.EmpiezaEnMemoria(e, pid, dir, tam) <==> (tam == 0 ==> base < |e.mem|))
    {
      if EnSegmento(dir, segMax, segs, tam) {
        KM.EmpiezaEn(e, pid, BuscarProceso(e.procs, pid).valor, dir, tam, base);
      }
    }

    /** `leer_en_memoria` after translation. */
    method LeerLogica(dir: nat, tam: nat, ghost e: Estado, ghost pid: nat) returns (r: Lectura)
      requires Valid() && Ejecuta(e, pid) && dir < WORD && tam < WORD
      ensures r.Fuera? <==> Leer(e, pid, dir, tam).Nada? || !KM.EmpiezaEnMemoria(e, pid, dir, tam)
      ensures r.Vacia? ==> tam == 0
      ensures r.Datos? ==> tam > 0 && Leer(e, pid, dir, tam) == Algo(r.datos)
    {
      hide Inv, Leer, EnSegmento, Cubre, KM.EmpiezaEnMemoria;
      LeerExacta(e, pid, dir, tam, BuscarProceso(e.procs, pid).valor);
      fisica.Coherente();
      var ps, base := Traducir(dir, tam, e, pid);
      EmpiezaLectura(dir, tam, e, pid, base);
      if ps.Nada? {
        return Fuera;
      }
      if tam == 0 {
        return Vacia;
      }
      var datos := fisica.LeerPedazos(ps.valor, base, tam);
      r := Datos(datos);
    }

    /** `escribir_en_memoria` after translation. */
    method EscribirLogica(dir: nat, datos: seq<byte>, ghost e: Estado, ghost pid: nat) returns (ok: bool)
      requires Valid() && Ejecuta(e, pid) && dir < WORD && 0 < |datos| < WORD
      modifies fisica.Arreglos()
      ensures Valid() && fisica.Memoria() == Escribir(e, pid, dir, datos).0.mem
      ensures ok == Escribir(e, pid, dir, datos).1
    {
      hide Inv, Escribir, EnSegmento, Cubre, Pisar;
      EscribirExacta(e, pid, dir, datos, BuscarProceso(e.procs, pid).valor);
      var ps, base := Traducir(dir, |datos|, e, pid);
      if ps.Nada? {
        return false;
      }
      fisica.EscribirPedazos(ps.valor, datos, base);
      ok := true;
    }

    /** `ejecutar_mov_in` */
    method MovIn(reg: nat, ghost e: Estado, ghost pid: nat) returns (r: Resultado)
      requires Valid() && Ejecuta(e, pid) && reg < 11
      modifies this`regs
      ensures Valid() && Ejecuta(e, pid)
      ensures var leido := Leer(e, pid, old(regs[9]), if reg <= 4 then 1 else 4);
        match leido
        case Nada => r == SegFault && regs == old(regs)
        case Algo(bs) => r == Bien && regs == old(regs)[reg := Entero(bs) % if 1 <= reg <= 4 then 256 else 0x1_0000_0000]
    {
      hide Corre, Leer, Entero;
      var dato := LeerLogica(Registro(SI), Tamanio(reg), e, pid);
      if !dato.Datos? {
        return SegFault;
      }
      PonerRegistro(reg, Entero(dato.datos));
      r := Bien;
    }

    /** `ejecutar_mov_out`: the memory afterwards is that of the system after the process
        wrote those bytes at DI. */
    method MovOut(reg: nat, ghost e: Estado, ghost pid: nat) returns (r: Resultado)
      requires Valid() && Ejecuta(e, pid) && reg < 11
      modifies fisica.Arreglos()
      ensures Valid() && fisica.Memoria() == Escribir(e, pid, regs[10], Bytes(regs[reg], if reg <= 4 then 1 else 4)).0.mem
      ensures r == if Escribir(e, pid, regs[10], Bytes(regs[reg], if reg <= 4 then 1 else 4)).1 then Bien else SegFault
    {
      hide Corre, Escribir, Bytes;
      var ok := EscribirLogica(Registro(DI), Bytes(Registro(reg), Tamanio(reg)), e, pid);
      r := if ok then Bien else SegFault;
    }

    /** `ejecutar_copy_mem`: as the function `CopyMem`, except that for zero bytes the code
        takes the first piece of an empty list. */
    method EjecutarCopyMem(reg: nat, ghost e: Estado, ghost pid: nat) returns (r: Resultado)
      requires Valid() && Ejecuta(e, pid) && reg < 11
      modifies fisica.Arreglos()
      ensures Valid()
      ensures regs[reg] > 0 ==> fisica.Memoria() == CopyMem(e, pid, regs[SI], regs[DI], regs[reg]).0.mem
      ensures regs[reg] > 0 ==> r == CopyMem(e, pid, regs[SI], regs[DI], regs[reg]).1
      ensures regs[reg] == 0 ==> fisica.Memoria() == e.mem
      ensures regs[reg] == 0 ==>
        r == if Leer(e, pid, regs[SI], 0).Algo? && KM.EmpiezaEnMemoria(e, pid, regs[SI], 0) then Caida else SegFault
    {
      hide Corre, Escribir, Leer;
      var dato := LeerLogica(Registro(SI), Registro(reg), e, pid);
      if dato.Vacia? {
        return Caida;
      }
      if dato.Fuera? {
        return SegFault;
      }
      LeerLargo(e, pid, Registro(SI), Registro(reg));
      var ok := EscribirLogica(Registro(DI), dato.datos, e, pid);
      r := if ok then Bien else SegFault;
    }
  }

  lemma LeerLargo(e: Estado, pid: nat, dir: nat, tam: nat)
    requires Corre(e, pid) && Leer(e, pid, dir, tam).Algo?
    ensures |Leer(e, pid, dir, tam).valor| == tam
  {
  }
}
