/** The messages between modules: buffers, packets, execution contexts and the list of sticks
    (utils/src/utils/serializacion.c). */
module Wire {
  import opened Secuencias
  import opened Mmu
  import opened Numeros

  /** `t_contexto_ejecucion`; its table of segments may be NULL. */
  datatype Contexto = Contexto(
    pc: nat, ax: nat, bx: nat, cx: nat, dx: nat, eax: nat, ebx: nat, ecx: nat, edx: nat, si: nat, di: nat,
    tabla: Opcion<seq<Segmento>>)

  /** `t_memory_stick_info`; the socket belongs to the process that has the connection. */
  datatype StickInfo = StickInfo(socket: int, size: nat, base: nat, puerto: nat, ip: seq<byte>)

  /** `t_paquete`; the buffer may be NULL. */
  datatype Paquete = Paquete(op: nat, buffer: Opcion<seq<byte>>)

  predicate U32(v: nat) { v < WORD }

  predicate U8(v: nat) { v < 256 }

  predicate SegValido(s: Segmento) { U32(s.id) && U32(s.base) && U32(s.limite) }

  predicate SegsValidos(segs: seq<Segmento>) { U32(|segs|) && forall i :: 0 <= i < |segs| ==> SegValido(segs[i]) }

  function Tabla(c: Contexto): seq<Segmento>
  {
    match c.tabla case Nada => [] case Algo(t) => t
  }

  predicate ContextoValido(c: Contexto)
  {
    && U32(c.pc) && U8(c.ax) && U8(c.bx) && U8(c.cx) && U8(c.dx)
    && U32(c.eax) && U32(c.ebx) && U32(c.ecx) && U32(c.edx) && U32(c.si) && U32(c.di)
    && SegsValidos(Tabla(c))
  }

  predicate StickValido(s: StickInfo) { U32(s.size) && U32(s.base) && U32(s.puerto) && |s.ip| == 16 }

  predicate SticksValidos(ss: seq<StickInfo>) { U32(|ss|) && forall i :: 0 <= i < |ss| ==> StickValido(ss[i]) }

  predicate PaqueteValido(p: Paquete) { U32(p.op) && (p.buffer.Algo? ==> U32(|p.buffer.valor|)) }

  // ---------------------------------------------------------------- formats

  function CodSegs(segs: seq<Segmento>): seq<byte>
  {
    if segs == [] then []
    else Bytes(segs[0].id, 4) + (Bytes(segs[0].base, 4) + (Bytes(segs[0].limite, 4) + CodSegs(segs[1..])))
  }

  function CodResto(c: Contexto): seq<byte>
  {
    Bytes(c.eax, 4) + (Bytes(c.ebx, 4) + (Bytes(c.ecx, 4) + (Bytes(c.edx, 4) + (Bytes(c.si, 4) + (Bytes(c.di, 4)
      + (Bytes(|Tabla(c)|, 4) + CodSegs(Tabla(c))))))))
  }

  function CodContexto(c: Contexto): seq<byte>
  {
    Bytes(c.pc, 4) + (Bytes(c.ax, 1) + (Bytes(c.bx, 1) + (Bytes(c.cx, 1) + (Bytes(c.dx, 1) + CodResto(c)))))
  }

  function CodStick(s: StickInfo): seq<byte>
  {
    Bytes(s.puerto, 4) + (Bytes(s.size, 4) + (Bytes(s.base, 4) + s.ip))
  }

  function CodSticks(ss: seq<StickInfo>): seq<byte>
  {
    if ss == [] then [] else CodStick(ss[0]) + CodSticks(ss[1..])
  }

  function Carga(p: Paquete): seq<byte>
  {
    match p.buffer case Nada => [] case Algo(b) => b
  }

  function CodPaquete(p: Paquete): seq<byte>
  {
    Bytes(p.op, 4) + (Bytes(|Carga(p)|, 4) + Carga(p))
  }

  function CodPaquetes(ps: seq<Paquete>): seq<byte>
  {
    if ps == [] then [] else CodPaquete(ps[0]) + CodPaquetes(ps[1..])
  }

  /** What arrives: NULL tables and buffers are empty ones, and a socket is nobody's. */
  function LlegaContexto(c: Contexto): Contexto { c.(tabla := Algo(Tabla(c))) }

  function LlegaStick(s: StickInfo): StickInfo { s.(socket := -1) }

  function LlegaPaquete(p: Paquete): Paquete { p.(buffer := Algo(Carga(p))) }

  lemma Potencias()
    ensures Potencia(0) == 1 && Potencia(1) == 256 && Potencia(4) == WORD
  {
    assert Potencia(2) == 256 * 256 && Potencia(3) == 256 * 256 * 256;
  }

  // ---------------------------------------------------------------- the buffer

  /** `t_buffer` */
  class Buffer {
    var stream: seq<byte>
    var offset: nat
    var size: nat

    /** A buffer being written: everything added is counted. */
    ghost predicate Escribiendo()
      reads this
    {
      offset == size == |stream|
    }

    /** What is left to read. */
    ghost function Resto(): seq<byte>
      reads this
    {
      if offset <= |stream| then stream[offset..] else []
    }

    /** `buffer_create(0)` */
    constructor ()
      ensures Escribiendo() && stream == []
    {
      stream, offset, size := [], 0, 0;
    }

    /** What `recibir_paquete` builds around the bytes it received. */
    constructor Recibido(datos: seq<byte>)
      ensures stream == datos && offset == 0 && size == |datos| && Resto() == datos
    {
      stream, offset, size := datos, 0, |datos|;
    }

    /** `buffer_add`; `r` is what is still to add to reach `total`. */
    method Agregar(datos: seq<byte>, ghost r: seq<byte>, ghost total: seq<byte>)
      requires Escribiendo() && stream + (datos + r) == total
      modifies this
      ensures Escribiendo() && stream + r == total
    {
      assert stream + (datos + r) == (stream + datos) + r;
      stream := stream[..offset] + datos;
      offset := offset + |datos|;
      size := size + |datos|;
    }

    method AgregarUint32(v: nat, ghost r: seq<byte>, ghost total: seq<byte>)
      requires Escribiendo() && stream + (Bytes(v, 4) + r) == total
      modifies this
      ensures Escribiendo() && stream + r == total
    {
      Agregar(Bytes(v, 4), r, total);
    }

    method AgregarUint8(v: nat, ghost r: seq<byte>, ghost total: seq<byte>)
      requires Escribiendo() && stream + (Bytes(v, 1) + r) == total
      modifies this
      ensures Escribiendo() && stream + r == total
    {
      Agregar(Bytes(v, 1), r, total);
    }

    /** `buffer_read`; `d` is what was written there and `r` what follows. */
    method Leer(n: nat, ghost d: seq<byte>, ghost r: seq<byte>) returns (datos: seq<byte>)
      requires offset <= |stream| && Resto() == d + r && |d| == n
      modifies this`offset
      ensures datos == d && offset <= |stream| && offset == old(offset) + n && Resto() == r
    {
      assert |stream| == offset + n + |r|;
      datos := stream[offset..offset + n];
      assert datos == stream[offset..][..n] == (d + r)[..n];
      offset := offset + n;
      assert stream[offset..] == (d + r)[n..];
    }

    method LeerUint32(ghost v: nat, ghost r: seq<byte>) returns (x: nat)
      requires offset <= |stream| && Resto() == Bytes(v, 4) + r && U32(v)
      modifies this`offset
      ensures x == v && offset <= |stream| && offset == old(offset) + 4 && Resto() == r
    {
      var d := Leer(4, Bytes(v, 4), r);
      x := Entero(d);
      EnteroBytes(v, 4);
      Potencias();
    }

    method LeerUint8(ghost v: nat, ghost r: seq<byte>) returns (x: nat)
      requires offset <= |stream| && Resto() == Bytes(v, 1) + r && U8(v)
      modifies this`offset
      ensures x == v && offset <= |stream| && offset == old(offset) + 1 && Resto() == r
    {
      var d := Leer(1, Bytes(v, 1), r);
      x := Entero(d);
      EnteroBytes(v, 1);
      Potencias();
    }
  }

  // ---------------------------------------------------------------- contexts

  /** `serializar_contexto_ctx` */
  method SerializarContexto(c: Contexto) returns (b: Buffer)
    ensures fresh(b) && b.Escribiendo() && b.stream == CodContexto(c)
  {
    hide Bytes, CodSegs;
    b := new Buffer();
    ghost var t := CodContexto(c);
    assert b.stream + t == t;
    var segs := Tabla(c);
    ghost var r := CodResto(c);
    b.AgregarUint32(c.pc, Bytes(c.ax, 1) + (Bytes(c.bx, 1) + (Bytes(c.cx, 1) + (Bytes(c.dx, 1) + r))), t);
    b.AgregarUint8(c.ax, Bytes(c.bx, 1) + (Bytes(c.cx, 1) + (Bytes(c.dx, 1) + r)), t);
    b.AgregarUint8(c.bx, Bytes(c.cx, 1) + (Bytes(c.dx, 1) + r), t);
    b.AgregarUint8(c.cx, Bytes(c.dx, 1) + r, t);
    b.AgregarUint8(c.dx, r, t);
    ghost var u := Bytes(|segs|, 4) + CodSegs(segs);
    b.AgregarUint32(c.eax, Bytes(c.ebx, 4) + (Bytes(c.ecx, 4) + (Bytes(c.edx, 4) + (Bytes(c.si, 4) + (Bytes(c.di, 4) + u)))), t);
    b.AgregarUint32(c.ebx, Bytes(c.ecx, 4) + (Bytes(c.edx, 4) + (Bytes(c.si, 4) + (Bytes(c.di, 4) + u))), t);
    b.AgregarUint32(c.ecx, Bytes(c.edx, 4) + (Bytes(c.si, 4) + (Bytes(c.di, 4) + u)), t);
    b.AgregarUint32(c.edx, Bytes(c.si, 4) + (Bytes(c.di, 4) + u), t);
    b.AgregarUint32(c.si, Bytes(c.di, 4) + u, t);
    b.AgregarUint32(c.di, u, t);
    b.AgregarUint32(|segs|, CodSegs(segs), t);
    AgregarSegmentos(b, segs, t);
  }

  method AgregarSegmentos(b: Buffer, segs: seq<Segmento>, ghost t: seq<byte>)
    requires b.Escribiendo() && b.stream + CodSegs(segs) == t
    modifies b
    ensures b.Escribiendo() && b.stream == t
  {
    hide Bytes;
    for i := 0 to |segs|
      invariant b.Escribiendo() && b.stream + CodSegs(segs[i..]) == t
    {
      var s := segs[i];
      ghost var r := CodSegs(segs[i + 1..]);
      assert segs[i..][0] == s && segs[i..][1..] == segs[i + 1..];
      b.AgregarUint32(s.id, Bytes(s.base, 4) + (Bytes(s.limite, 4) + r), t);
      b.AgregarUint32(s.base, Bytes(s.limite, 4) + r, t);
      b.AgregarUint32(s.limite, r, t);
    }
  }

  /** `deserializar_contexto_ctx`: reads back the context that was written and consumes exactly
      its bytes, whatever follows them. */
  method DeserializarContexto(b: Buffer, ghost c: Contexto, ghost sigue: seq<byte>) returns (x: Contexto)
    requires b.offset <= |b.stream| && ContextoValido(c) && b.Resto() == CodContexto(c) + sigue
    modifies b`offset
    ensures x == LlegaContexto(c) && b.offset <= |b.stream| && b.Resto() == sigue
  {
    hide Bytes, CodSegs, CodResto;
    ghost var r := CodResto(c) + sigue;
    Asociar(c, sigue);
    var pc := b.LeerUint32(c.pc, Bytes(c.ax, 1) + (Bytes(c.bx, 1) + (Bytes(c.cx, 1) + (Bytes(c.dx, 1) + r))));
    var ax := b.LeerUint8(c.ax, Bytes(c.bx, 1) + (Bytes(c.cx, 1) + (Bytes(c.dx, 1) + r)));
    var bx := b.LeerUint8(c.bx, Bytes(c.cx, 1) + (Bytes(c.dx, 1) + r));
    var cx := b.LeerUint8(c.cx, Bytes(c.dx, 1) + r);
    var dx := b.LeerUint8(c.dx, r);
    var eax, ebx, ecx, edx, si, di, segs := DeserializarResto(b, c, sigue);
    x := Contexto(pc, ax, bx, cx, dx, eax, ebx, ecx, edx, si, di, Algo(segs));
  }

  lemma Asociar(c: Contexto, s: seq<byte>)
    ensures CodContexto(c) + s ==
      Bytes(c.pc, 4) + (Bytes(c.ax, 1) + (Bytes(c.bx, 1) + (Bytes(c.cx, 1) + (Bytes(c.dx, 1) + (CodResto(c) + s)))))
  {
    hide Bytes, CodResto;
    var r := CodResto(c);
    Asociativa(Bytes(c.pc, 4), Bytes(c.ax, 1) + (Bytes(c.bx, 1) + (Bytes(c.cx, 1) + (Bytes(c.dx, 1) + r))), s);
    Asociativa(Bytes(c.ax, 1), Bytes(c.bx, 1) + (Bytes(c.cx, 1) + (Bytes(c.dx, 1) + r)), s);
    Asociativa(Bytes(c.bx, 1), Bytes(c.cx, 1) + (Bytes(c.dx, 1) + r), s);
    Asociativa(Bytes(c.cx, 1), Bytes(c.dx, 1) + r, s);
    Asociativa(Bytes(c.dx, 1), r, s);
  }

  lemma Asociativa(x: seq<byte>, y: seq<byte>, z: seq<byte>)
    ensures (x + y) + z == x + (y + z)
  {
  }

  lemma AsociarResto(c: Contexto, s: seq<byte>)
    ensures CodResto(c) + s ==
      Bytes(c.eax, 4) + (Bytes(c.ebx, 4) + (Bytes(c.ecx, 4) + (Bytes(c.edx, 4) + (Bytes(c.si, 4) + (Bytes(c.di, 4)
        + (Bytes(|Tabla(c)|, 4) + (CodSegs(Tabla(c)) + s)))))))
  {
    hide Bytes, CodSegs;
    var u := Bytes(|Tabla(c)|, 4) + CodSegs(Tabla(c));
    Asociativa(Bytes(c.eax, 4), Bytes(c.ebx, 4) + (Bytes(c.ecx, 4) + (Bytes(c.edx, 4) + (Bytes(c.si, 4) + (Bytes(c.di, 4) + u)))), s);
    Asociativa(Bytes(c.ebx, 4), Bytes(c.ecx, 4) + (Bytes(c.edx, 4) + (Bytes(c.si, 4) + (Bytes(c.di, 4) + u))), s);
    Asociativa(Bytes(c.ecx, 4), Bytes(c.edx, 4) + (Bytes(c.si, 4) + (Bytes(c.di, 4) + u)), s);
    Asociativa(Bytes(c.edx, 4), Bytes(c.si, 4) + (Bytes(c.di, 4) + u), s);
    Asociativa(Bytes(c.si, 4), Bytes(c.di, 4) + u, s);
    Asociativa(Bytes(c.di, 4), u, s);
    Asociativa(Bytes(|Tabla(c)|, 4), CodSegs(Tabla(c)), s);
  }

  method DeserializarResto(b: Buffer, ghost c: Contexto, ghost sigue: seq<byte>)
    returns (eax: nat, ebx: nat, ecx: nat, edx: nat, si: nat, di: nat, segs: seq<Segmento>)
    requires b.offset <= |b.stream| && ContextoValido(c) && b.Resto() == CodResto(c) + sigue
    modifies b`offset
    ensures eax == c.eax && ebx == c.ebx && ecx == c.ecx && edx == c.edx && si == c.si && di == c.di && segs == Tabla(c)
    ensures b.offset <= |b.stream| && b.Resto() == sigue
  {
    hide Bytes, CodSegs;
    ghost var u := Bytes(|Tabla(c)|, 4) + (CodSegs(Tabla(c)) + sigue);
    AsociarResto(c, sigue);
    eax := b.LeerUint32(c.eax, Bytes(c.ebx, 4) + (Bytes(c.ecx, 4) + (Bytes(c.edx, 4) + (Bytes(c.si, 4) + (Bytes(c.di, 4) + u)))));
    ebx := b.LeerUint32(c.ebx, Bytes(c.ecx, 4) + (Bytes(c.edx, 4) + (Bytes(c.si, 4) + (Bytes(c.di, 4) + u))));
    ecx := b.LeerUint32(c.ecx, Bytes(c.edx, 4) + (Bytes(c.si, 4) + (Bytes(c.di, 4) + u)));
    edx := b.LeerUint32(c.edx, Bytes(c.si, 4) + (Bytes(c.di, 4) + u));
    si := b.LeerUint32(c.si, Bytes(c.di, 4) + u);
    di := b.LeerUint32(c.di, u);
    var n := b.LeerUint32(|Tabla(c)|, CodSegs(Tabla(c)) + sigue);
    segs := LeerSegmentos(b, n, Tabla(c), sigue);
  }

  method LeerSegmento(b: Buffer, ghost s: Segmento, ghost r: seq<byte>) returns (x: Segmento)
    requires b.offset <= |b.stream| && SegValido(s)
    requires b.Resto() == Bytes(s.id, 4) + (Bytes(s.base, 4) + (Bytes(s.limite, 4) + r))
    modifies b`offset
    ensures x == s && b.offset <= |b.stream| && b.Resto() == r
  {
    hide Bytes;
    var id := b.LeerUint32(s.id, Bytes(s.base, 4) + (Bytes(s.limite, 4) + r));
    var base := b.LeerUint32(s.base, Bytes(s.limite, 4) + r);
    var limite := b.LeerUint32(s.limite, r);
    x := Segmento(id, base, limite);
  }

  lemma AsociarSegmentos(t: seq<Segmento>, s: Segmento, r: seq<Segmento>, sigue: seq<byte>)
    requires t != [] && t[0] == s && t[1..] == r
    ensures CodSegs(t) + sigue == Bytes(s.id, 4) + (Bytes(s.base, 4) + (Bytes(s.limite, 4) + (CodSegs(r) + sigue)))
  {
    hide Bytes;
    var c := CodSegs(r);
    Asociativa(Bytes(s.id, 4), Bytes(s.base, 4) + (Bytes(s.limite, 4) + c), sigue);
    Asociativa(Bytes(s.base, 4), Bytes(s.limite, 4) + c, sigue);
    Asociativa(Bytes(s.limite, 4), c, sigue);
  }

  method LeerSegmentos(b: Buffer, n: nat, ghost t: seq<Segmento>, ghost sigue: seq<byte>) returns (segs: seq<Segmento>)
    requires b.offset <= |b.stream| && n == |t| && SegsValidos(t) && b.Resto() == CodSegs(t) + sigue
    modifies b`offset
    ensures segs == t && b.offset <= |b.stream| && b.Resto() == sigue
  {
    hide Bytes, CodSegs;
    segs := [];
    ghost var r := t;
    for i := 0 to n
      invariant segs == t[..i] && r == t[i..] && b.offset <= |b.stream| && b.Resto() == CodSegs(r) + sigue
    {
      AsociarSegmentos(r, t[i], r[1..], sigue);
      assert SegValido(t[i]);
      var s := LeerSegmento(b, t[i], CodSegs(r[1..]) + sigue);
      segs := segs + [s];
      r := r[1..];
    }
    SinSegmentos(r, sigue);
  }

  lemma SinSegmentos(r: seq<Segmento>, sigue: seq<byte>)
    requires r == []
    ensures CodSegs(r) + sigue == sigue
  {
  }

  // ---------------------------------------------------------------- the list of sticks

  /** `serializar_aviso_nuevo_stick` */
  method SerializarSticks(ss: seq<StickInfo>) returns (b: Buffer)
    ensures fresh(b) && b.Escribiendo() && b.stream == Bytes(|ss|, 4) + CodSticks(ss)
  {
    hide Bytes;
    b := new Buffer();
    ghost var t := Bytes(|ss|, 4) + CodSticks(ss);
    assert b.stream + t == t;
    b.AgregarUint32(|ss|, CodSticks(ss), t);
    for i := 0 to |ss|
      invariant fresh(b) && b.Escribiendo() && b.stream + CodSticks(ss[i..]) == t
    {
      var s := ss[i];
      ghost var r := CodSticks(ss[i + 1..]);
      assert ss[i..][0] == s && ss[i..][1..] == ss[i + 1..];
      AsociarStick(s, r);
      b.AgregarUint32(s.puerto, Bytes(s.size, 4) + (Bytes(s.base, 4) + (s.ip + r)), t);
      b.AgregarUint32(s.size, Bytes(s.base, 4) + (s.ip + r), t);
      b.AgregarUint32(s.base, s.ip + r, t);
      b.Agregar(s.ip, r, t);
    }
  }

  lemma AsociarStick(s: StickInfo, r: seq<byte>)
    ensures CodStick(s) + r == Bytes(s.puerto, 4) + (Bytes(s.size, 4) + (Bytes(s.base, 4) + (s.ip + r)))
  {
    hide Bytes;
    Asociativa(Bytes(s.puerto, 4), Bytes(s.size, 4) + (Bytes(s.base, 4) + s.ip), r);
    Asociativa(Bytes(s.size, 4), Bytes(s.base, 4) + s.ip, r);
    Asociativa(Bytes(s.base, 4), s.ip, r);
  }

  /** `deserializar_memory_stick_info`: everything but the socket. */
  method DeserializarStick(b: Buffer, ghost s: StickInfo, ghost r: seq<byte>) returns (x: StickInfo)
    requires b.offset <= |b.stream| && StickValido(s) && b.Resto() == CodStick(s) + r
    modifies b`offset
    ensures x == LlegaStick(s) && b.offset <= |b.stream| && b.Resto() == r
  {
    hide Bytes, CodStick;
    AsociarStick(s, r);
    var puerto := b.LeerUint32(s.puerto, Bytes(s.size, 4) + (Bytes(s.base, 4) + (s.ip + r)));
    var size := b.LeerUint32(s.size, Bytes(s.base, 4) + (s.ip + r));
    var base := b.LeerUint32(s.base, s.ip + r);
    var ip := b.Leer(16, s.ip, r);
    x := StickInfo(-1, size, base, puerto, ip);
  }

  /** `deserializar_aviso_nuevo_stick` */
  method DeserializarSticks(b: Buffer, ghost ss: seq<StickInfo>, ghost sigue: seq<byte>) returns (xs: seq<StickInfo>)
    requires b.offset <= |b.stream| && SticksValidos(ss) && b.Resto() == (Bytes(|ss|, 4) + CodSticks(ss)) + sigue
    modifies b`offset
    ensures |xs| == |ss| && (forall i :: 0 <= i < |ss| ==> xs[i] == LlegaStick(ss[i]))
    ensures b.offset <= |b.stream| && b.Resto() == sigue
  {
    hide Bytes, CodStick, CodSticks;
    Asociativa(Bytes(|ss|, 4), CodSticks(ss), sigue);
    var n := b.LeerUint32(|ss|, CodSticks(ss) + sigue);
    assert ss[0..] == ss;
    xs := [];
    for i := 0 to n
      invariant |xs| == i && b.offset <= |b.stream| && b.Resto() == CodSticks(ss[i..]) + sigue
      invariant forall k :: 0 <= k < i ==> xs[k] == LlegaStick(ss[k])
    {
      SticksSiguen(ss, i, sigue);
      var x := DeserializarStick(b, ss[i], CodSticks(ss[i + 1..]) + sigue);
      xs := xs + [x];
    }
    SinSticks(ss[n..], sigue);
  }

  lemma SticksSiguen(ss: seq<StickInfo>, i: nat, sigue: seq<byte>)
    requires i < |ss|
    ensures CodSticks(ss[i..]) + sigue == CodStick(ss[i]) + (CodSticks(ss[i + 1..]) + sigue)
  {
    hide CodStick;
    assert ss[i..][0] == ss[i] && ss[i..][1..] == ss[i + 1..];
    Asociativa(CodStick(ss[i]), CodSticks(ss[i + 1..]), sigue);
  }

  lemma SinSticks(r: seq<StickInfo>, sigue: seq<byte>)
    requires r == []
    ensures CodSticks(r) + sigue == sigue
  {
  }

  // ---------------------------------------------------------------- packets

  /** One direction of a connection: the bytes sent and not yet received. */
  class Canal {
    var bytes: seq<byte>

    constructor ()
      ensures bytes == []
    {
      bytes := [];
    }

    /** `enviar_paquete` */
    method Enviar(p: Paquete)
      modifies this
      ensures bytes == old(bytes) + CodPaquete(p)
    {
      hide Bytes;
      var carga := Carga(p);
      ghost var antes := bytes;
      bytes := bytes + Bytes(p.op, 4);
      bytes := bytes + Bytes(|carga|, 4);
      if |carga| > 0 {
        bytes := bytes + carga;
      }
      Asociativa(antes + Bytes(p.op, 4), Bytes(|carga|, 4), carga);
      Asociativa(antes, Bytes(p.op, 4), Bytes(|carga|, 4) + carga);
    }

    /** `recibir_paquete`: NULL when the other side has sent nothing and is gone. */
    method Recibir(ghost p: Paquete, ghost r: seq<byte>) returns (x: Opcion<Paquete>)
      requires bytes == [] || (PaqueteValido(p) && bytes == CodPaquete(p) + r)
      modifies this
      ensures old(bytes) == [] ==> x == Nada && bytes == []
      ensures old(bytes) != [] ==> x == Algo(LlegaPaquete(p)) && bytes == r
    {
      hide Bytes;
      if |bytes| == 0 {
        return Nada;
      }
      var c := Carga(p);
      Asociativa(Bytes(p.op, 4), Bytes(|c|, 4) + c, r);
      Asociativa(Bytes(|c|, 4), c, r);
      EnteroBytes(p.op, 4);
      EnteroBytes(|c|, 4);
      Potencias();
      var op := Entero(bytes[..4]);
      bytes := bytes[4..];
      var size := Entero(bytes[..4]);
      bytes := bytes[4..];
      var carga := [];
      if size > 0 {
        carga := bytes[..size];
        bytes := bytes[size..];
      }
      x := Algo(Paquete(op, Algo(carga)));
    }
  }

  /** Any sequence of packets, sent and then received from the concatenated bytes, is the same
      sequence, and nothing is left over. */
  method IdaYVuelta(ps: seq<Paquete>) returns (xs: seq<Paquete>)
    requires forall i :: 0 <= i < |ps| ==> PaqueteValido(ps[i])
    ensures |xs| == |ps| && forall i :: 0 <= i < |ps| ==> xs[i] == LlegaPaquete(ps[i])
  {
    hide CodPaquete, LlegaPaquete;
    var canal := new Canal();
    for i := 0 to |ps|
      invariant fresh(canal) && canal.bytes == CodPaquetes(ps[..i])
    {
      CodPaquetesMas(ps[..i], ps[i]);
      assert ps[..i + 1] == ps[..i] + [ps[i]];
      canal.Enviar(ps[i]);
    }
    assert ps[..|ps|] == ps && ps[0..] == ps;
    xs := [];
    for i := 0 to |ps|
      invariant fresh(canal) && canal.bytes == CodPaquetes(ps[i..])
      invariant |xs| == i && forall k :: 0 <= k < i ==> xs[k] == LlegaPaquete(ps[k])
    {
      assert ps[i..][0] == ps[i] && ps[i..][1..] == ps[i + 1..];
      NoVacio(ps[i]);
      var x := canal.Recibir(ps[i], CodPaquetes(ps[i + 1..]));
      xs := xs + [x.valor];
    }
    assert ps[|ps|..] == [];
    var fin := canal.Recibir(Paquete(0, Nada), []);
    assert fin.Nada?;
  }

  lemma NoVacio(p: Paquete)
    ensures |CodPaquete(p)| >= 8
  {
  }

  lemma {:induction false} CodPaquetesMas(ps: seq<Paquete>, p: Paquete)
    ensures CodPaquetes(ps + [p]) == CodPaquetes(ps) + CodPaquete(p)
  {
    if ps == [] {
      assert ps + [p] == [p] && [p][1..] == [];
      assert CodPaquetes([p]) == CodPaquete(p) + [];
    } else {
      assert (ps + [p])[1..] == ps[1..] + [p] && (ps + [p])[0] == ps[0];
      CodPaquetesMas(ps[1..], p);
      Asociativa(CodPaquete(ps[0]), CodPaquetes(ps[1..]), CodPaquete(p));
    }
  }

  // ---------------------------------------------------------------- the formats are faithful

  lemma Pelar(a: seq<byte>, b: seq<byte>, x: seq<byte>, y: seq<byte>)
    requires |a| == |b| && a + x == b + y
    ensures a == b && x == y
  {
    assert a == (a + x)[..|a|] && b == (b + y)[..|b|];
    assert x == (a + x)[|a|..] && y == (b + y)[|b|..];
  }

  lemma PelarNumero(v: nat, w: nat, n: nat, x: seq<byte>, y: seq<byte>)
    requires (n == 4 && U32(v) && U32(w)) || (n == 1 && U8(v) && U8(w))
    requires Bytes(v, n) + x == Bytes(w, n) + y
    ensures v == w && x == y
  {
    hide Bytes, Entero, Potencia;
    Pelar(Bytes(v, n), Bytes(w, n), x, y);
    EnteroBytes(v, n);
    EnteroBytes(w, n);
    Potencias();
  }

  lemma {:induction false} SegsFieles(s: seq<Segmento>, t: seq<Segmento>, x: seq<byte>, y: seq<byte>)
    requires SegsValidos(s) && SegsValidos(t) && |s| == |t| && CodSegs(s) + x == CodSegs(t) + y
    ensures s == t && x == y
  {
    hide Bytes;
    if s == [] {
      assert [] + x == x && [] + y == y;
    } else {
      var p, q := CodSegs(s[1..]), CodSegs(t[1..]);
      Asociativa(Bytes(s[0].id, 4), Bytes(s[0].base, 4) + (Bytes(s[0].limite, 4) + p), x);
      Asociativa(Bytes(s[0].base, 4), Bytes(s[0].limite, 4) + p, x);
      Asociativa(Bytes(s[0].limite, 4), p, x);
      Asociativa(Bytes(t[0].id, 4), Bytes(t[0].base, 4) + (Bytes(t[0].limite, 4) + q), y);
      Asociativa(Bytes(t[0].base, 4), Bytes(t[0].limite, 4) + q, y);
      Asociativa(Bytes(t[0].limite, 4), q, y);
      assert SegValido(s[0]) && SegValido(t[0]);
      PelarNumero(s[0].id, t[0].id, 4, Bytes(s[0].base, 4) + (Bytes(s[0].limite, 4) + (p + x)), Bytes(t[0].base, 4) + (Bytes(t[0].limite, 4) + (q + y)));
      PelarNumero(s[0].base, t[0].base, 4, Bytes(s[0].limite, 4) + (p + x), Bytes(t[0].limite, 4) + (q + y));
      PelarNumero(s[0].limite, t[0].limite, 4, p + x, q + y);
      SegsFieles(s[1..], t[1..], x, y);
      assert s == [s[0]] + s[1..] && t == [t[0]] + t[1..];
    }
  }

  /** Two contexts with the same bytes, whatever follows them, are the same context, and the
      same follows: the format says where it ends. */
  lemma {:induction false} ContextoFiel(c: Contexto, d: Contexto, x: seq<byte>, y: seq<byte>)
    requires ContextoValido(c) && ContextoValido(d) && CodContexto(c) + x == CodContexto(d) + y
    ensures LlegaContexto(c) == LlegaContexto(d) && x == y
  {
    hide Bytes, CodResto;
    Asociar(c, x);
    Asociar(d, y);
    var r, q := CodResto(c) + x, CodResto(d) + y;
    PelarNumero(c.pc, d.pc, 4, Bytes(c.ax, 1) + (Bytes(c.bx, 1) + (Bytes(c.cx, 1) + (Bytes(c.dx, 1) + r))),
                Bytes(d.ax, 1) + (Bytes(d.bx, 1) + (Bytes(d.cx, 1) + (Bytes(d.dx, 1) + q))));
    PelarNumero(c.ax, d.ax, 1, Bytes(c.bx, 1) + (Bytes(c.cx, 1) + (Bytes(c.dx, 1) + r)), Bytes(d.bx, 1) + (Bytes(d.cx, 1) + (Bytes(d.dx, 1) + q)));
    PelarNumero(c.bx, d.bx, 1, Bytes(c.cx, 1) + (Bytes(c.dx, 1) + r), Bytes(d.cx, 1) + (Bytes(d.dx, 1) + q));
    PelarNumero(c.cx, d.cx, 1, Bytes(c.dx, 1) + r, Bytes(d.dx, 1) + q);
    PelarNumero(c.dx, d.dx, 1, r, q);
    RestoFiel(c, d, x, y);
  }

  lemma RestoFiel(c: Contexto, d: Contexto, x: seq<byte>, y: seq<byte>)
    requires ContextoValido(c) && ContextoValido(d) && CodResto(c) + x == CodResto(d) + y
    ensures c.eax == d.eax && c.ebx == d.ebx && c.ecx == d.ecx && c.edx == d.edx && c.si == d.si && c.di == d.di
    ensures Tabla(c) == Tabla(d) && x == y
  {
    hide Bytes, CodSegs;
    AsociarResto(c, x);
    AsociarResto(d, y);
    var u := Bytes(|Tabla(c)|, 4) + (CodSegs(Tabla(c)) + x);
    var v := Bytes(|Tabla(d)|, 4) + (CodSegs(Tabla(d)) + y);
    PelarNumero(c.eax, d.eax, 4, Bytes(c.ebx, 4) + (Bytes(c.ecx, 4) + (Bytes(c.edx, 4) + (Bytes(c.si, 4) + (Bytes(c.di, 4) + u)))),
                Bytes(d.ebx, 4) + (Bytes(d.ecx, 4) + (Bytes(d.edx, 4) + (Bytes(d.si, 4) + (Bytes(d.di, 4) + v)))));
    PelarNumero(c.ebx, d.ebx, 4, Bytes(c.ecx, 4) + (Bytes(c.edx, 4) + (Bytes(c.si, 4) + (Bytes(c.di, 4) + u))),
                Bytes(d.ecx, 4) + (Bytes(d.edx, 4) + (Bytes(d.si, 4) + (Bytes(d.di, 4) + v))));
    PelarNumero(c.ecx, d.ecx, 4, Bytes(c.edx, 4) + (Bytes(c.si, 4) + (Bytes(c.di, 4) + u)), Bytes(d.edx, 4) + (Bytes(d.si, 4) + (Bytes(d.di, 4) + v)));
    PelarNumero(c.edx, d.edx, 4, Bytes(c.si, 4) + (Bytes(c.di, 4) + u), Bytes(d.si, 4) + (Bytes(d.di, 4) + v));
    PelarNumero(c.si, d.si, 4, Bytes(c.di, 4) + u, Bytes(d.di, 4) + v);
    PelarNumero(c.di, d.di, 4, u, v);
    PelarNumero(|Tabla(c)|, |Tabla(d)|, 4, CodSegs(Tabla(c)) + x, CodSegs(Tabla(d)) + y);
    SegsFieles(Tabla(c), Tabla(d), x, y);
  }

  lemma PaqueteFiel(p: Paquete, q: Paquete, x: seq<byte>, y: seq<byte>)
    requires PaqueteValido(p) && PaqueteValido(q) && CodPaquete(p) + x == CodPaquete(q) + y
    ensures LlegaPaquete(p) == LlegaPaquete(q) && x == y
  {
    hide Bytes;
    Asociativa(Bytes(p.op, 4), Bytes(|Carga(p)|, 4) + Carga(p), x);
    Asociativa(Bytes(|Carga(p)|, 4), Carga(p), x);
    Asociativa(Bytes(q.op, 4), Bytes(|Carga(q)|, 4) + Carga(q), y);
    Asociativa(Bytes(|Carga(q)|, 4), Carga(q), y);
    PelarNumero(p.op, q.op, 4, Bytes(|Carga(p)|, 4) + (Carga(p) + x), Bytes(|Carga(q)|, 4) + (Carga(q) + y));
    PelarNumero(|Carga(p)|, |Carga(q)|, 4, Carga(p) + x, Carga(q) + y);
    Pelar(Carga(p), Carga(q), x, y);
  }

  /** A stream of bytes is at most one sequence of packets. */
  lemma {:induction false} FlujoFiel(ps: seq<Paquete>, qs: seq<Paquete>)
    requires (forall i :: 0 <= i < |ps| ==> PaqueteValido(ps[i])) && (forall i :: 0 <= i < |qs| ==> PaqueteValido(qs[i]))
    requires CodPaquetes(ps) == CodPaquetes(qs)
    ensures |ps| == |qs| && forall i :: 0 <= i < |ps| ==> LlegaPaquete(ps[i]) == LlegaPaquete(qs[i])
  {
    hide CodPaquete, LlegaPaquete, PaqueteValido;
    if ps == [] || qs == [] {
      if ps != [] { NoVacio(ps[0]); }
      if qs != [] { NoVacio(qs[0]); }
    } else {
      PaqueteFiel(ps[0], qs[0], CodPaquetes(ps[1..]), CodPaquetes(qs[1..]));
      FlujoFiel(ps[1..], qs[1..]);
      forall i | 0 <= i < |ps| ensures LlegaPaquete(ps[i]) == LlegaPaquete(qs[i]) {
        if i > 0 {
          assert ps[i] == ps[1..][i - 1] && qs[i] == qs[1..][i - 1];
        }
      }
    }
  }

  // ---------------------------------------------------------------- where each field is

  /** `d` has `x` from position `k` on. */
  ghost predicate Ahi(d: seq<byte>, k: nat, x: seq<byte>)
  {
    k + |x| <= |d| && d[k..k + |x|] == x
  }

  lemma Avanza(d: seq<byte>, k: nat, x: seq<byte>, r: seq<byte>)
    requires k <= |d| && d[k..] == x + r
    ensures Ahi(d, k, x) && d[k + |x|..] == r
  {
    assert |d| == k + |x| + |r|;
    assert d[k..k + |x|] == d[k..][..|x|];
    assert d[k + |x|..] == d[k..][|x|..];
  }

  lemma {:induction false} SegsAhi(d: seq<byte>, k: nat, segs: seq<Segmento>, i: nat)
    requires k <= |d| && d[k..] == CodSegs(segs) && i < |segs|
    ensures Ahi(d, k + 12 * i, Bytes(segs[i].id, 4)) && Ahi(d, k + 12 * i + 4, Bytes(segs[i].base, 4))
    ensures Ahi(d, k + 12 * i + 8, Bytes(segs[i].limite, 4))
    decreases |segs|
  {
    hide Bytes, Ahi;
    var s, r := segs[0], CodSegs(segs[1..]);
    Avanza(d, k, Bytes(s.id, 4), Bytes(s.base, 4) + (Bytes(s.limite, 4) + r));
    Avanza(d, k + 4, Bytes(s.base, 4), Bytes(s.limite, 4) + r);
    Avanza(d, k + 8, Bytes(s.limite, 4), r);
    if i > 0 { AhiFin(d, k + 8, Bytes(s.limite, 4)); SegsAhi(d, k + 12, segs[1..], i - 1); }
  }

  lemma AhiFin(d: seq<byte>, k: nat, x: seq<byte>)
    requires Ahi(d, k, x)
    ensures k + |x| <= |d|
  {
  }

  /** Where each field of a context is in its encoding. */
  lemma {:induction false} CamposContexto(c: Contexto)
    ensures var d := CodContexto(c);
      && Ahi(d, 0, Bytes(c.pc, 4)) && Ahi(d, 4, Bytes(c.ax, 1)) && Ahi(d, 5, Bytes(c.bx, 1)) && Ahi(d, 6, Bytes(c.cx, 1))
      && Ahi(d, 7, Bytes(c.dx, 1)) && Ahi(d, 8, Bytes(c.eax, 4)) && Ahi(d, 12, Bytes(c.ebx, 4)) && Ahi(d, 16, Bytes(c.ecx, 4))
      && Ahi(d, 20, Bytes(c.edx, 4)) && Ahi(d, 24, Bytes(c.si, 4)) && Ahi(d, 28, Bytes(c.di, 4)) && Ahi(d, 32, Bytes(|Tabla(c)|, 4))
    ensures var d := CodContexto(c);
      forall i :: 0 <= i < |Tabla(c)| ==>
        && Ahi(d, 36 + 12 * i, Bytes(Tabla(c)[i].id, 4)) && Ahi(d, 36 + 12 * i + 4, Bytes(Tabla(c)[i].base, 4))
        && Ahi(d, 36 + 12 * i + 8, Bytes(Tabla(c)[i].limite, 4))
  {
    hide Bytes, Ahi, CodResto, CodSegs;
    var d := CodContexto(c);
    var r := CodResto(c);
    assert d[0..] == d;
    Avanza(d, 0, Bytes(c.pc, 4), Bytes(c.ax, 1) + (Bytes(c.bx, 1) + (Bytes(c.cx, 1) + (Bytes(c.dx, 1) + r))));
    Avanza(d, 4, Bytes(c.ax, 1), Bytes(c.bx, 1) + (Bytes(c.cx, 1) + (Bytes(c.dx, 1) + r)));
    Avanza(d, 5, Bytes(c.bx, 1), Bytes(c.cx, 1) + (Bytes(c.dx, 1) + r));
    Avanza(d, 6, Bytes(c.cx, 1), Bytes(c.dx, 1) + r);
    Avanza(d, 7, Bytes(c.dx, 1), r);
    AhiFin(d, 7, Bytes(c.dx, 1));
    CamposResto(d, c);
  }

  lemma CamposResto(d: seq<byte>, c: Contexto)
    requires 8 <= |d| && d[8..] == CodResto(c)
    ensures Ahi(d, 8, Bytes(c.eax, 4)) && Ahi(d, 12, Bytes(c.ebx, 4)) && Ahi(d, 16, Bytes(c.ecx, 4))
    ensures Ahi(d, 20, Bytes(c.edx, 4)) && Ahi(d, 24, Bytes(c.si, 4)) && Ahi(d, 28, Bytes(c.di, 4)) && Ahi(d, 32, Bytes(|Tabla(c)|, 4))
    ensures forall i :: 0 <= i < |Tabla(c)| ==>
      && Ahi(d, 36 + 12 * i, Bytes(Tabla(c)[i].id, 4)) && Ahi(d, 36 + 12 * i + 4, Bytes(Tabla(c)[i].base, 4))
      && Ahi(d, 36 + 12 * i + 8, Bytes(Tabla(c)[i].limite, 4))
  {
    hide Bytes, Ahi, CodSegs;
    var u := Bytes(|Tabla(c)|, 4) + CodSegs(Tabla(c));
    Avanza(d, 8, Bytes(c.eax, 4), Bytes(c.ebx, 4) + (Bytes(c.ecx, 4) + (Bytes(c.edx, 4) + (Bytes(c.si, 4) + (Bytes(c.di, 4) + u)))));
    Avanza(d, 12, Bytes(c.ebx, 4), Bytes(c.ecx, 4) + (Bytes(c.edx, 4) + (Bytes(c.si, 4) + (Bytes(c.di, 4) + u))));
    Avanza(d, 16, Bytes(c.ecx, 4), Bytes(c.edx, 4) + (Bytes(c.si, 4) + (Bytes(c.di, 4) + u)));
    Avanza(d, 20, Bytes(c.edx, 4), Bytes(c.si, 4) + (Bytes(c.di, 4) + u));
    Avanza(d, 24, Bytes(c.si, 4), Bytes(c.di, 4) + u);
    Avanza(d, 28, Bytes(c.di, 4), u);
    Avanza(d, 32, Bytes(|Tabla(c)|, 4), CodSegs(Tabla(c)));
    AhiFin(d, 32, Bytes(|Tabla(c)|, 4));
    forall i | 0 <= i < |Tabla(c)|
      ensures Ahi(d, 36 + 12 * i, Bytes(Tabla(c)[i].id, 4)) && Ahi(d, 36 + 12 * i + 4, Bytes(Tabla(c)[i].base, 4))
      ensures Ahi(d, 36 + 12 * i + 8, Bytes(Tabla(c)[i].limite, 4))
    {
      SegsAhi(d, 36, Tabla(c), i);
    }
  }

  /** Where each field of a stick is in its encoding, and each stick in that of a list. */
  lemma {:induction false} CamposStick(s: StickInfo)
    requires |s.ip| == 16
    ensures var d := CodStick(s);
      |d| == 28 && Ahi(d, 0, Bytes(s.puerto, 4)) && Ahi(d, 4, Bytes(s.size, 4)) && Ahi(d, 8, Bytes(s.base, 4)) && Ahi(d, 12, s.ip)
  {
    hide Bytes;
    var d := CodStick(s);
    assert d[0..] == d;
    Avanza(d, 0, Bytes(s.puerto, 4), Bytes(s.size, 4) + (Bytes(s.base, 4) + s.ip));
    Avanza(d, 4, Bytes(s.size, 4), Bytes(s.base, 4) + s.ip);
    Avanza(d, 8, Bytes(s.base, 4), s.ip);
  }

  lemma {:induction false} SticksAhi(d: seq<byte>, k: nat, ss: seq<StickInfo>, i: nat)
    requires k <= |d| && d[k..] == CodSticks(ss) && i < |ss| && forall j :: 0 <= j < |ss| ==> |ss[j].ip| == 16
    ensures Ahi(d, k + 28 * i, CodStick(ss[i]))
    decreases |ss|
  {
    hide CodStick, Ahi;
    CamposStick(ss[0]);
    Avanza(d, k, CodStick(ss[0]), CodSticks(ss[1..]));
    AhiFin(d, k, CodStick(ss[0]));
    if i > 0 { SticksAhi(d, k + 28, ss[1..], i - 1); }
  }

  /** A packet: its code, the size of its payload, and the payload. */
  lemma {:induction false} CamposPaquete(p: Paquete)
    ensures var d := CodPaquete(p);
      |d| == 8 + |Carga(p)| && Ahi(d, 0, Bytes(p.op, 4)) && Ahi(d, 4, Bytes(|Carga(p)|, 4)) && Ahi(d, 8, Carga(p))
  {
    hide Bytes;
    var d := CodPaquete(p);
    assert d[0..] == d;
    Avanza(d, 0, Bytes(p.op, 4), Bytes(|Carga(p)|, 4) + Carga(p));
    Avanza(d, 4, Bytes(|Carga(p)|, 4), Carga(p));
  }
}
