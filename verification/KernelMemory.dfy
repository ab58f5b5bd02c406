/** The kernel_memory process as it runs: the same operations as loops over mutable lists,
    the swap table in an array, the swap file, and the bytes spread over the memory sticks.
    Every method is tied to the function of the same operation on the abstract state, whose
    properties are proved in Asignador, Compactacion, Suspension, Desuspension and Corridas. */
module KernelMemory {
  import opened Secuencias
  import opened Rangos
  import opened Mmu
  import opened Fisica
  import opened Memoria
  import opened Asignador
  import opened Compactacion
  import opened Swap
  import opened Suspension
  import opened Desuspension
  import opened Corridas

  /** The swap process: swap/src/swap.c. */
  class ArchivoSwap {
    const bloque: nat
    var bytes: seq<byte>

    constructor (bloque: nat, tamanio: nat)
      ensures this.bloque == bloque && bytes == Ceros(tamanio)
    {
      this.bloque := bloque;
      bytes := Ceros(tamanio);
    }

    /** `escribir_Bloque` */
    method Escribir(id: nat, contenido: seq<byte>)
      modifies this
      ensures bytes == EscribirBloque(old(bytes), id * bloque, contenido)
    {
      var offset := id * bloque;
      if contenido != [] {
        bytes := bytes + Ceros(offset + |contenido| - |bytes|);
        bytes := bytes[..offset] + contenido + bytes[offset + |contenido|..];
      }
    }

    /** `leer_Bloque`: the missing tail is filled with zeros. */
    method Leer(id: nat, tamanio: nat) returns (r: seq<byte>)
      ensures r == LeerBloque(bytes, id * bloque, tamanio)
    {
      var offset := id * bloque;
      var desde := if offset < |bytes| then offset else |bytes|;
      var hasta := if offset + tamanio < |bytes| then offset + tamanio else |bytes|;
      var leidos := bytes[desde..hasta];
      r := leidos + Ceros(tamanio - |leidos|);
    }
  }

  class KernelMemory {
    const cfg: Config
    const fisica: MemoriaFisica
    const archivo: ArchivoSwap
    const tabla: array<Bloque>
    var huecos: seq<Rango>
    var procs: seq<Proceso>
    var libre: int

    ghost predicate Valid()
      reads this, fisica
    {
      && fisica.Valid() && archivo.bloque == cfg.bloque
      && this as object !in fisica.Arreglos() && archivo as object !in fisica.Arreglos()
      && tabla as object !in fisica.Arreglos()
    }

    /** The abstract state: stick contents read as one flat memory. */
    ghost function Abs(): Estado
      reads this, fisica, fisica.Arreglos(), archivo, tabla
    {
      Estado(cfg, huecos, procs, libre, fisica.Memoria(), tabla[..], archivo.bytes)
    }

    constructor (cfg: Config, bloques: nat, archivo: ArchivoSwap)
      requires archivo.bloque == cfg.bloque
      ensures Valid() && fresh(fisica) && fresh(tabla) && this.archivo == archivo
      ensures Abs() == Inicial(cfg, bloques, archivo.bytes)
    {
      this.cfg := cfg;
      this.archivo := archivo;
      huecos, procs, libre := [], [], 0;
      fisica := new MemoriaFisica();
      tabla := new Bloque[bloques](_ => Bloque(false, 0, 0, 0));
    }

    // -------------------------------------------------------------- lists

    /** Index of the first hole that starts after `base`. */
    method BuscarPosicion(base: nat) returns (pos: nat)
      ensures pos == Posicion(huecos, base)
    {
      pos := 0;
      while pos < |huecos| && huecos[pos].base <= base
        invariant pos <= |huecos| && Posicion(huecos, base) == pos + Posicion(huecos[pos..], base)
      {
        assert huecos[pos..][0] == huecos[pos] && huecos[pos..][1..] == huecos[pos + 1..];
        pos := pos + 1;
      }
    }

    /** `insertar_hueco_y_fusionar` */
    method InsertarHuecoYFusionar(nuevo: Rango)
      modifies this`huecos
      ensures huecos == Insertar(old(huecos), nuevo)
    {
      hide UnirSiguiente, UnirAnterior, Posicion;
      ghost var hs := huecos;
      var pos := BuscarPosicion(nuevo.base);
      huecos := huecos[..pos] + [nuevo] + huecos[pos..];
      if pos + 1 < |huecos| {
        var sig := huecos[pos + 1];
        if huecos[pos].base + huecos[pos].limite == sig.base {
          huecos := huecos[..pos] + [Rango(nuevo.base, nuevo.limite + sig.limite)] + huecos[pos + 2..];
        }
      }
      ghost var izq, der := hs[..pos], UnirSiguiente(nuevo, hs[pos..]);
      UnirSiguienteEn(hs, nuevo, pos);
      ghost var todos := huecos;
      if pos > 0 {
        var ant := huecos[pos - 1];
        if ant.base + ant.limite == huecos[pos].base {
          huecos := huecos[..pos - 1] + [Rango(ant.base, ant.limite + huecos[pos].limite)] + huecos[pos + 1..];
        }
      }
      UnirAnteriorEn(todos, izq, der, pos);
    }

    /** The bytes taken from a hole: base up, size down, gone when nothing is left. */
    method TomarHueco(h: nat, tam: nat)
      requires h < |huecos| && tam <= huecos[h].limite
      modifies this`huecos, this`libre
      ensures huecos == Consumir(old(huecos), h, tam) && libre == old(libre) - tam
    {
      huecos := huecos[h := Rango(huecos[h].base + tam, huecos[h].limite - tam)];
      if huecos[h].limite == 0 {
        huecos := huecos[..h] + huecos[h + 1..];
      }
      libre := libre - tam;
    }

    /** `buscar_proceso` */
    method BuscarPid(pid: nat) returns (r: Opcion<nat>)
      ensures r == BuscarProceso(procs, pid)
    {
      for i := 0 to |procs|
        invariant forall k :: 0 <= k < i ==> procs[k].pid != pid
      {
        if procs[i].pid == pid {
          BuscarProcesoPrimero(procs, pid, i);
          return Algo(i);
        }
      }
      r := Nada;
    }

    // -------------------------------------------------------------- allocator

    /** `crear_segmento` */
    method CrearSegmento(pid: nat, id: nat, tam: nat) returns (c: Codigo)
      modifies this
      ensures (Abs(), c) == Crear(old(Abs()), pid, id, tam)
    {
      assert this as object !in fisica.Arreglos();
      var r := BuscarPid(pid);
      if r.Nada? {
        return MEMORIA_NO_DISPONIBLE;
      }
      if tam > cfg.segMax {
        return MEMORIA_NO_DISPONIBLE;
      }
      var i := r.valor;
      var h := EncontrarHueco(huecos, tam, cfg.mejor);
      if h.Algo? {
        var seg := Segmento(id, huecos[h.valor].base, tam);
        procs := procs[i := procs[i].(segs := procs[i].segs + [seg])];
        TomarHueco(h.valor, tam);
        return MEMORIA_DISPONIBLE;
      }
      if libre >= tam {
        return COMPACTACION;
      }
      c := MEMORIA_NO_DISPONIBLE;
    }

    /** `eliminar_segmento` */
    method EliminarSegmento(pid: nat, id: nat) returns (c: int)
      modifies this
      ensures (Abs(), c) == Eliminar(old(Abs()), pid, id)
    {
      hide Insertar;
      assert this as object !in fisica.Arreglos();
      var r := BuscarPid(pid);
      if r.Nada? {
        return -1;
      }
      var i := r.valor;
      var k := BuscarSegmento(procs[i].segs, id);
      if k.Nada? {
        return -1;
      }
      var seg := procs[i].segs[k.valor];
      var liberado := Rango(seg.base, seg.limite);
      libre := libre + seg.limite;
      procs := procs[i := procs[i].(segs := procs[i].segs[..k.valor] + procs[i].segs[k.valor + 1..])];
      InsertarHuecoYFusionar(liberado);
      c := 1;
    }

    /** `inicializar_proceso`, once the script is known to exist. */
    method InicializarProceso(pid: nat)
      modifies this
      ensures Abs() == Iniciar(old(Abs()), pid)
    {
      assert this as object !in fisica.Arreglos();
      procs := procs + [Proceso(pid, [], false)];
    }

    /** `finalizar_proceso` */
    method FinalizarProceso(pid: nat)
      modifies this, tabla
      ensures Abs() == Finalizar(old(Abs()), pid)
    {
      hide LiberarTodos, Presentes, Suma;
      assert this as object !in fisica.Arreglos();
      var r := BuscarPid(pid);
      if r.Nada? {
        return;
      }
      var p := procs[r.valor];
      procs := procs[..r.valor] + procs[r.valor + 1..];
      if !p.enSwap {
        LiberarSegmentos(p.segs);
      } else {
        LiberarBloquesDe(pid);
      }
    }

    /** The places of a table go back to the free list, first to last. */
    method LiberarSegmentos(segs: seq<Segmento>)
      modifies this`huecos, this`libre
      ensures huecos == LiberarTodos(old(huecos), Presentes(segs, {}))
      ensures libre == old(libre) + Suma(Presentes(segs, {}))
    {
      var resto := segs;
      while |resto| > 0
        invariant LiberarTodos(huecos, Presentes(resto, {})) == LiberarTodos(old(huecos), Presentes(segs, {}))
        invariant libre + Suma(Presentes(resto, {})) == old(libre) + Suma(Presentes(segs, {}))
        decreases |resto|
      {
        var seg := resto[0];
        assert Presentes(resto, {})[1..] == Presentes(resto[1..], {});
        resto := resto[1..];
        libre := libre + seg.limite;
        InsertarHuecoYFusionar(Rango(seg.base, seg.limite));
      }
    }

    /** The blocks of a process become free. */
    method LiberarBloquesDe(pid: nat)
      modifies tabla
      ensures tabla[..] == LiberarBloques(old(tabla[..]), pid)
    {
      ghost var t := tabla[..];
      for i := 0 to tabla.Length
        invariant forall j :: 0 <= j < i ==> tabla[j] == LiberarBloques(t, pid)[j]
        invariant forall j :: i <= j < tabla.Length ==> tabla[j] == t[j]
      {
        if tabla[i].ocupado && tabla[i].pid == pid {
          tabla[i] := tabla[i].(ocupado := false);
        }
      }
    }

    // -------------------------------------------------------------- bytes of a segment

    /** The segment fits what the translation needs to find it. */
    ghost predicate Alcanzable(i: nat, k: nat)
      reads this, fisica
    {
      && i < |procs| && k < |procs[i].segs|
      && SegmentosOk(cfg, procs[i].segs) && cfg.segMax > 0
      && fisica.total + cfg.segMax <= WORD
      && procs[i].segs[k].base + procs[i].segs[k].limite <= fisica.total
    }

    /** The pieces of a whole segment, found from its id. */
    method PedazosDeSegmento(i: nat, k: nat) returns (ps: seq<Pedazo>)
      requires Valid() && Alcanzable(i, k)
      ensures Cubre(fisica.sticks, ps, procs[i].segs[k].base, procs[i].segs[k].limite)
    {
      var seg := procs[i].segs[k];
      var dir := seg.id * cfg.segMax % WORD;
      DireccionDeSegmento(seg.id, cfg.segMax);
      assert BuscarSegmento(procs[i].segs, seg.id) == Algo(k);
      TraducirExacta(dir, cfg.segMax, procs[i].segs, fisica.sticks, seg.limite);
      var r := fisica.TraducirLogicaAFisica(dir, cfg.segMax, procs[i].segs, seg.limite);
      ps := r.valor;
    }

    method LeerSegmento(i: nat, k: nat) returns (datos: seq<byte>)
      requires Valid() && Alcanzable(i, k)
      ensures datos == Tajada(Abs().mem, procs[i].segs[k].base, procs[i].segs[k].limite)
    {
      var ps := PedazosDeSegmento(i, k);
      datos := fisica.LeerPedazos(ps, procs[i].segs[k].base, procs[i].segs[k].limite);
    }

    method EscribirSegmento(i: nat, k: nat, datos: seq<byte>)
      requires Valid() && Alcanzable(i, k) && |datos| == procs[i].segs[k].limite
      modifies fisica.Arreglos()
      ensures Valid() && Abs() == old(Abs()).(mem := Grabar(old(Abs()).mem, procs[i].segs[k].base, datos))
    {
      var ps := PedazosDeSegmento(i, k);
      fisica.EscribirPedazos(ps, datos, procs[i].segs[k].base);
    }

    // -------------------------------------------------------------- suspender_proceso

    /** `suspender_proceso`: the answer, and the bytes released. */
    method SuspenderProceso(pid: nat) returns (c: Codigo, bytes: nat)
      requires Valid() && Inv(Abs()) && EnMemoria(Abs(), pid)
      modifies this, tabla, archivo
      ensures Valid() && Salida(Abs(), c, bytes) == Suspender(old(Abs()), pid)
    {
      ghost var e := Abs();
      var r := BuscarPid(pid);
      bytes := 0;
      if r.Nada? {
        return MEMORIA_NO_DISPONIBLE, 0;
      }
      var i := r.valor;
      SuspEmpieza(e, pid, i, Suspender(e, pid));
      c, bytes := GuardarSegmentos(i, Suspender(e, pid));
    }

    /** The loop of `suspender_proceso`. */
    method GuardarSegmentos(i: nat, ghost s: Salida) returns (c: Codigo, bytes: nat)
      requires Valid() && i < |procs| && Susp(Abs(), i, 0, 0, {}, s)
      modifies this, tabla, archivo
      ensures Valid() && Salida(Abs(), c, bytes) == s
    {
      hide Susp;
      bytes := 0;
      ghost var e: Estado, fuera: set<nat> := Abs(), {};
      var segs := procs[i].segs;
      for k := 0 to |segs|
        invariant Valid() && Abs() == e && i < |procs| && procs[i].segs == segs
        invariant Susp(e, i, k, bytes, fuera, s)
      {
        var ok;
        ok, e, fuera := GuardarUno(i, k, bytes, e, fuera, s);
        if !ok {
          return MEMORIA_NO_DISPONIBLE, bytes;
        }
        bytes := bytes + segs[k].limite;
      }
      SuspTermina(e, i, |segs|, bytes, fuera, s);
      MarcarEnSwap(i, true);
      c := SUSPEND_OK;
    }

    /** One turn of it, whether the segment can go out or not. */
    method GuardarUno(i: nat, k: nat, ghost bytes: nat, ghost e: Estado, ghost fuera: set<nat>, ghost s: Salida)
      returns (ok: bool, ghost f: Estado, ghost afuera: set<nat>)
      requires Valid() && Abs() == e && i < |procs| && k < |procs[i].segs| && Susp(e, i, k, bytes, fuera, s)
      modifies this`huecos, this`libre, tabla, archivo
      ensures Valid() && Abs() == f
      ensures ok ==> Susp(f, i, k + 1, bytes + procs[i].segs[k].limite, afuera, s)
      ensures !ok ==> s == Salida(f, MEMORIA_NO_DISPONIBLE, bytes)
    {
      hide Susp, Guardar, PrimerLibre, SuspenderDesde;
      f, afuera := e, fuera;
      if procs[i].segs[k].limite > cfg.bloque {
        SuspTermina(e, i, k, bytes, fuera, s);
        return false, f, afuera;
      }
      var j := BloqueLibre();
      if j.Nada? {
        SuspTermina(e, i, k, bytes, fuera, s);
        return false, f, afuera;
      }
      SuspenderAlcanza(i, k, bytes, fuera, s);
      afuera := SuspSigue(e, i, k, bytes, fuera, s, j.valor);
      f := Guardar(e, i, k, j.valor);
      GuardarSegmento(i, k, j.valor);
      ok := true;
    }

    lemma SuspenderAlcanza(i: nat, k: nat, bytes: nat, fuera: set<nat>, s: Salida)
      requires Valid() && i < |procs| && k < |procs[i].segs| && Susp(Abs(), i, k, bytes, fuera, s)
      ensures Alcanzable(i, k)
    {
      fisica.Coherente();
      DentroEnCurso(Abs(), i, k, fuera);
    }

    /** `proc->en_swap = enSwap` */
    method MarcarEnSwap(i: nat, enSwap: bool)
      requires i < |procs|
      modifies this`procs
      ensures Abs() == Marcar(old(Abs()), i, enSwap)
    {
      assert this as object !in fisica.Arreglos();
      procs := procs[i := procs[i].(enSwap := enSwap)];
    }

    /** `swap_bloque_libre` */
    method BloqueLibre() returns (r: Opcion<nat>)
      ensures r == PrimerLibre(tabla[..], 0)
    {
      for i := 0 to tabla.Length
        invariant PrimerLibre(tabla[..], i) == PrimerLibre(tabla[..], 0)
      {
        if !tabla[i].ocupado {
          return Algo(i);
        }
      }
      r := Nada;
    }

    /** `liberar_fisica_segmento`, once process and segment are found. */
    method LiberarFisica(i: nat, k: nat)
      requires i < |procs| && k < |procs[i].segs|
      modifies this`huecos, this`libre
      ensures Abs() == old(Abs()).(huecos := Insertar(old(huecos), Sitio(procs[i].segs[k])),
                                   libre := old(libre) + procs[i].segs[k].limite)
    {
      hide Insertar;
      assert this as object !in fisica.Arreglos();
      var seg := procs[i].segs[k];
      libre := libre + seg.limite;
      InsertarHuecoYFusionar(Rango(seg.base, seg.limite));
    }

    /** `swap_escribir_bloque` */
    method EscribirEnSwap(j: nat, datos: seq<byte>)
      requires Valid()
      modifies archivo
      ensures Valid() && Abs() == old(Abs()).(swap := EscribirBloque(old(archivo.bytes), j * cfg.bloque, datos))
    {
      assert archivo as object !in fisica.Arreglos();
      archivo.Escribir(j, datos);
    }

    /** One turn of the loop of `suspender_proceso`. */
    method GuardarSegmento(i: nat, k: nat, j: nat)
      requires Valid() && Alcanzable(i, k) && j < tabla.Length
      modifies this`huecos, this`libre, tabla, archivo
      ensures Valid() && Abs() == Guardar(old(Abs()), i, k, j)
    {
      var seg := procs[i].segs[k];
      ghost var e := Abs();
      var datos := LeerSegmento(i, k);
      EscribirEnSwap(j, datos);
      AnotarBloque(j, Bloque(true, procs[i].pid, seg.id, seg.limite));
      LiberarFisica(i, k);
    }

    // -------------------------------------------------------------- desuspender_proceso

    /** `asignar_fisica_segmento`, once the process is found. */
    method AsignarFisica(i: nat, id: nat, tam: nat) returns (c: Codigo)
      requires Valid() && i < |procs|
      modifies this
      ensures Valid() && (Abs(), c) == Asignar(old(Abs()), i, id, tam)
    {
      var k := BuscarSegmento(procs[i].segs, id);
      if k.Nada? {
        return MEMORIA_NO_DISPONIBLE;
      }
      var h := EncontrarHueco(huecos, tam, cfg.mejor);
      if h.Nada? {
        return if libre >= tam then COMPACTACION else MEMORIA_NO_DISPONIBLE;
      }
      var seg := procs[i].segs[k.valor];
      procs := procs[i := procs[i].(segs := procs[i].segs[k.valor := seg.(base := huecos[h.valor].base)])];
      TomarHueco(h.valor, tam);
      c := MEMORIA_DISPONIBLE;
    }

    /** The first loops of `desuspender_proceso`: which blocks the process has. */
    method ListarBloques(pid: nat) returns (info: seq<nat>)
      ensures info == Bloques(tabla[..], pid)
    {
      info := [];
      for i := 0 to tabla.Length
        invariant info == BloquesHasta(tabla[..], pid, i)
      {
        if tabla[i].ocupado && tabla[i].pid == pid {
          info := info + [i];
        }
      }
    }

    /** One turn of the loop of `desuspender_proceso`, for block `j` with room in memory. */
    method ReponerBloque(i: nat, j: nat, ghost k: nat, ghost h: nat, ghost fuera: set<nat>) returns (c: Codigo)
      requires Valid() && Vuelve(Abs(), i, j, k, h, fuera) && Elegir(huecos, tabla[j].tam, cfg.mejor) == Algo(h)
      modifies this, tabla, fisica.Arreglos()
      ensures c == MEMORIA_DISPONIBLE
      ensures Valid() && Abs() == Reponer(old(Abs()), i, j, k, h)
    {
      ghost var e := Abs();
      var seg, tam := tabla[j].seg, tabla[j].tam;
      var datos := archivo.Leer(j, tam);
      ghost var f := VuelveAsigna(e, i, j, k, h, fuera);
      c := AsignarFisica(i, seg, tam);
      fisica.Coherente();
      var n := BuscarSegmento(procs[i].segs, seg);
      EscribirSegmento(i, n.valor, datos);
      AnotarBloque(j, tabla[j].(ocupado := false));
    }

    /** `desuspender_proceso` */
    method DesuspenderProceso(pid: nat) returns (c: Codigo)
      requires Valid() && Inv(Abs())
      modifies this, tabla, fisica.Arreglos()
      ensures Valid() && Vuelta(Abs(), c) == Desuspender(old(Abs()), pid)
    {
      ghost var e := Abs();
      var info := ListarBloques(pid);
      var r := BuscarPid(pid);
      if r.Nada? {
        return if |info| == 0 then DESUSPEND_OK else MEMORIA_NO_DISPONIBLE;
      }
      var i := r.valor;
      ghost var fuera := DesuspenderEmpieza(e, i);
      c := ReponerBloques(i, info, pid, fuera, ReponerTodos(e, i, info));
      if c == MEMORIA_DISPONIBLE {
        MarcarEnSwap(i, false);
        c := DESUSPEND_OK;
      }
    }

    /** The loop of `desuspender_proceso`. */
    method ReponerBloques(i: nat, info: seq<nat>, ghost pid: nat, ghost fuera: set<nat>, ghost v: Vuelta) returns (c: Codigo)
      requires Valid() && Desusp(Abs(), i, pid, info, fuera, v)
      modifies this, tabla, fisica.Arreglos()
      ensures Valid() && Vuelta(Abs(), c) == v
    {
      hide Desusp;
      ghost var e, js, afuera := Abs(), info, fuera;
      for n := 0 to |info|
        invariant Valid() && Abs() == e && js == info[n..]
        invariant Desusp(e, i, pid, js, afuera, v)
      {
        c, e, afuera := ReponerUno(i, info[n], e, pid, js, afuera, v);
        if c != MEMORIA_DISPONIBLE {
          return c;
        }
        js := js[1..];
      }
      DesuspTermina(e, i, pid, js, afuera, v);
      c := MEMORIA_DISPONIBLE;
    }

    /** One turn of it, whether there is room or not. */
    method ReponerUno(i: nat, j: nat, ghost e: Estado, ghost pid: nat, ghost js: seq<nat>, ghost fuera: set<nat>, ghost v: Vuelta)
      returns (c: Codigo, ghost f: Estado, ghost afuera: set<nat>)
      requires Valid() && Abs() == e && Desusp(e, i, pid, js, fuera, v) && js != [] && js[0] == j
      modifies this, tabla, fisica.Arreglos()
      ensures Valid() && Abs() == f
      ensures c == MEMORIA_DISPONIBLE ==> Desusp(f, i, pid, js[1..], afuera, v)
      ensures c != MEMORIA_DISPONIBLE ==> Vuelta(f, c) == v
    {
      hide Desusp, Reponer, Asignar, Vuelve;
      DesuspPrimero(e, i, pid, js, fuera, v);
      var hay := EncontrarHueco(huecos, tabla[j].tam, cfg.mejor);
      if hay.Nada? {
        DesuspCorta(e, i, pid, js, fuera, v);
        f, afuera := e, fuera;
        c := AsignarFisica(i, tabla[j].seg, tabla[j].tam);
      } else {
        ghost var k;
        k, f, afuera := DesuspSigue(e, i, pid, js, fuera, v, hay.valor);
        c := ReponerBloque(i, j, k, hay.valor, fuera);
      }
    }

    method AnotarBloque(j: nat, b: Bloque)
      requires j < tabla.Length
      modifies tabla
      ensures Abs() == old(Abs()).(tabla := old(tabla[..])[j := b])
    {
      assert tabla as object !in fisica.Arreglos();
      tabla[j] := b;
    }

    // -------------------------------------------------------------- compactar

    /** `compactar` */
    method CompactarMemoria()
      requires Valid() && Inv(Abs())
      modifies this, fisica.Arreglos()
      ensures Valid() && Abs() == Compactar(old(Abs()))
    {
      hide Desliza, Compactar, Inv;
      fisica.Coherente();
      var todos := ListarSegmentos();
      todos := Ordenar(todos);
      ghost var ps, m := CompactarEs(Abs(), todos);
      var cursor := MoverTodos(todos, ps, m);
      AsentarHueco(cursor);
    }

    /** The free list becomes the one hole after the last segment, if there is room. */
    method AsentarHueco(cursor: nat)
      requires Valid()
      modifies this`huecos
      ensures Valid() && Abs() == old(Abs()).(huecos := HuecoFinal(cursor, fisica.total))
    {
      huecos := [];
      if cursor < fisica.total {
        huecos := [Rango(cursor, fisica.total - cursor)];
      }
    }

    /** One entry per segment of the processes that are not in swap. */
    method ListarSegmentos() returns (todos: seq<Entrada>)
      ensures todos == Todas(procs, 0)
    {
      hide EntradasDe, Todas;
      todos := [];
      ListarEmpieza(procs);
      for i := 0 to |procs|
        invariant todos + Todas(procs, i) == Todas(procs, 0)
      {
        var propios: seq<Entrada> := [];
        if !procs[i].enSwap {
          propios := ListarProceso(i);
        }
        ListarSigue(procs, i, todos, propios);
        todos := todos + propios;
      }
      ListarTermina(procs, todos);
    }

    method ListarProceso(i: nat) returns (es: seq<Entrada>)
      requires i < |procs|
      ensures es == EntradasDe(procs[i].segs, i)
    {
      es := [];
      for j := 0 to |procs[i].segs|
        invariant |es| == j && forall k :: 0 <= k < j ==> es[k] == Entrada(i, k, procs[i].segs[k].base, procs[i].segs[k].limite)
      {
        es := es + [Entrada(i, j, procs[i].segs[j].base, procs[i].segs[j].limite)];
      }
    }

    /** `leer_pedazos` over `pedazos_fisico` */
    method LeerRango(dir: nat, tam: nat) returns (datos: seq<byte>)
      requires Valid() && 0 < tam && dir + tam <= |Abs().mem|
      ensures datos == Abs().mem[dir..dir + tam]
    {
      fisica.Coherente();
      var pedazos := fisica.PedazosDe(dir, tam);
      datos := fisica.LeerPedazos(pedazos.valor, dir, tam);
    }

    /** `escribir_pedazos` over `pedazos_fisico` */
    method EscribirRango(dir: nat, datos: seq<byte>)
      requires Valid() && datos != [] && dir + |datos| <= |Abs().mem|
      modifies fisica.Arreglos()
      ensures Valid() && Abs() == old(Abs()).(mem := Pisar(old(Abs()).mem, dir, datos))
    {
      fisica.Coherente();
      var pedazos := fisica.PedazosDe(dir, |datos|);
      EscribirEn(pedazos.valor, datos, dir);
    }

    /** Segments slide to the cursor, first to last. */
    method MoverTodos(todos: seq<Entrada>, ghost ps: seq<Proceso>, ghost m: seq<byte>) returns (cursor: nat)
      requires Valid() && Desliza(Abs(), todos, 0, ps, m)
      modifies this`procs, fisica.Arreglos()
      ensures Valid() && Abs() == old(Abs()).(procs := ps, mem := m) && cursor == Largo(todos)
    {
      hide Desliza;
      cursor := 0;
      ghost var e, es := Abs(), todos;
      for n := 0 to |todos|
        invariant Valid() && Abs() == e && es == todos[n..] && e == old(Abs()).(procs := e.procs, mem := e.mem)
        invariant Desliza(e, es, cursor, ps, m) && cursor + Largo(es) == Largo(todos)
      {
        e := MoverUno(todos[n], cursor, e, es, ps, m);
        cursor := cursor + todos[n].limite;
        es := es[1..];
      }
      DeslizaFin(e, es, cursor, ps, m);
    }

    /** One segment: read whole, written at the cursor, base changed; nothing when it is already there. */
    method MoverUno(t: Entrada, cursor: nat, ghost e: Estado, ghost es: seq<Entrada>, ghost ps: seq<Proceso>, ghost m: seq<byte>)
      returns (ghost f: Estado)
      requires Valid() && Abs() == e && es != [] && es[0] == t && Desliza(e, es, cursor, ps, m)
      modifies this`procs, fisica.Arreglos()
      ensures Valid() && Abs() == f && f == e.(procs := f.procs, mem := f.mem)
      ensures Desliza(f, es[1..], cursor + t.limite, ps, m)
    {
      hide Desliza, PonerBase, Pisar;
      f := DeslizaSigue(e, es, cursor, ps, m);
      var tam := procs[t.proc].segs[t.seg].limite;
      var base := procs[t.proc].segs[t.seg].base;
      if base != cursor {
        MoverA(t, base, tam, cursor);
      }
    }

    method MoverA(t: Entrada, base: nat, tam: nat, cursor: nat)
      requires Valid() && 0 < tam && base + tam <= |Abs().mem| && cursor + tam <= |Abs().mem|
      modifies this`procs, fisica.Arreglos()
      ensures Valid()
      ensures Abs() == old(Abs()).(procs := PonerBase(old(procs), t, cursor),
                                   mem := Pisar(old(Abs()).mem, cursor, old(Abs()).mem[base..base + tam]))
    {
      hide PonerBase;
      var contenido := LeerRango(base, tam);
      EscribirRango(cursor, contenido);
      procs := PonerBase(procs, t, cursor);
    }

    // -------------------------------------------------------------- memory sticks and bytes

    /** `agregar_memory_stick` */
    method AgregarMemoryStick(m: MemoryStick)
      requires Valid() && m.Valid() && m.tamanio > 0 && m.memoria !in fisica.Arreglos()
      modifies this, fisica
      ensures Valid() && Abs() == AgregarStick(old(Abs()), m.memoria[..])
      ensures fisica.Arreglos() == old(fisica.Arreglos()) + {m.memoria}
    {
      var base := fisica.total;
      ExtenderMemoria(m);
      libre := libre + m.tamanio;
      InsertarHuecoYFusionar(Rango(base, m.tamanio));
    }

    method ExtenderMemoria(m: MemoryStick)
      requires Valid() && m.Valid() && m.tamanio > 0 && m.memoria !in fisica.Arreglos()
      modifies fisica
      ensures Valid() && old(fisica.total) == |old(Abs()).mem|
      ensures Abs() == old(Abs()).(mem := old(Abs()).mem + m.memoria[..])
      ensures fisica.Arreglos() == old(fisica.Arreglos()) + {m.memoria}
    {
      fisica.Coherente();
      fisica.Agregar(m);
    }

    /** `escribir_bytes_en_memoria` */
    method EscribirBytesEnMemoria(pid: nat, dir: nat, datos: seq<byte>) returns (ok: bool)
      requires Valid() && Inv(Abs()) && EnMemoria(Abs(), pid) && dir < WORD && |datos| < WORD
      modifies fisica.Arreglos()
      ensures Valid() && Abs() == Escribir(old(Abs()), pid, dir, datos).0
      ensures ok <==> Escribir(old(Abs()), pid, dir, datos).1 && EmpiezaEnMemoria(old(Abs()), pid, dir, |datos|)
    {
      hide Inv, Traducir, Escribir, EnMemoria, Cubre, Pisar, EmpiezaEnMemoria, EnSegmento, Bien, Total;
      fisica.Coherente();
      var r := BuscarPid(pid);
      EscribirDe(Abs(), pid, dir, datos);
      if r.Nada? {
        return false;
      }
      var i := r.valor;
      ghost var base := EscribirTraduce(Abs(), pid, i, dir, datos, fisica.sticks);
      var pedazos := fisica.TraducirLogicaAFisica(dir, cfg.segMax, procs[i].segs, |datos|);
      if pedazos.Nada? {
        return false;
      }
      EscribirEn(pedazos.valor, datos, base);
      ok := true;
    }

    method EscribirEn(ps: seq<Pedazo>, datos: seq<byte>, ghost base: nat)
      requires Valid() && Cubre(fisica.sticks, ps, base, |datos|) && base + |datos| <= |Abs().mem|
      modifies fisica.Arreglos()
      ensures Valid() && Abs() == old(Abs()).(mem := Pisar(old(Abs()).mem, base, datos))
    {
      fisica.Coherente();
      fisica.EscribirPedazos(ps, datos, base);
    }

    // -------------------------------------------------------------- any request

    /** A stick that connects with those bytes. */
    method ConectarStick(bytes: seq<byte>)
      requires Valid() && bytes != []
      modifies this, fisica
      ensures Valid() && Abs() == AgregarStick(old(Abs()), bytes)
      ensures fresh(fisica.Arreglos() - old(fisica.Arreglos()))
    {
      hide Insertar;
      var m := new MemoryStick(|bytes|);
      var ok := m.EscribirMemoria(0, |bytes|, bytes);
      assert m.memoria[..] == bytes;
      assert Abs() == old(Abs());
      AgregarMemoryStick(m);
    }

    /** The loop that serves the requests: each one takes the module through the step that the
        runs of Corridas are made of. */
    method Atender(r: Pedido)
      requires Valid() && Inv(Abs()) && Admite(Abs(), r)
      requires r.PEscribir? ==> r.dir < WORD && |r.datos| < WORD
      modifies this, fisica, fisica.Arreglos(), tabla, archivo
      ensures Valid() && Abs() == Corridas.Atender(old(Abs()), r) && Inv(Abs())
      ensures fresh(fisica.Arreglos() - old(fisica.Arreglos()))
    {
      hide Inv;
      AtenderInv(Abs(), r);
      match r
      case PIniciar(pid) => InicializarProceso(pid);
      case PCrear(pid, id, tam) => var c := CrearSegmento(pid, id, tam);
      case PEliminar(pid, id) => var c := EliminarSegmento(pid, id);
      case PFinalizar(pid) => FinalizarProceso(pid);
      case PSuspender(pid) => var c, b := SuspenderProceso(pid);
      case PDesuspender(pid) => var c := DesuspenderProceso(pid);
      case PCompactar => CompactarMemoria();
      case PStick(bytes) => ConectarStick(bytes);
      case PEscribir(pid, dir, datos) => var ok := EscribirBytesEnMemoria(pid, dir, datos);
    }

    // -------------------------------------------------------------- notificar_desuspendibles

    /** `notificar_desuspendibles`: the pids announced, nothing when no process is in swap. */
    method NotificarDesuspendibles() returns (r: Opcion<seq<nat>>)
      requires Valid()
      ensures r == Notificar(Abs())
    {
      var hay := false;
      for i := 0 to |procs|
        invariant hay <==> exists n :: 0 <= n < i && procs[n].enSwap
      {
        if procs[i].enSwap {
          hay := true;
        }
      }
      if !hay {
        return Nada;
      }
      var pids: seq<nat> := [];
      for i := 0 to |procs|
        invariant pids == NotificarHasta(Abs(), i)
      {
        if procs[i].enSwap {
          var entra := EntraEnCopia(procs[i].pid);
          if entra {
            pids := pids + [procs[i].pid];
          }
        }
      }
      r := Algo(pids);
    }

    /** The allocation of every block of `pid` on a copy of the holes. */
    method EntraEnCopia(pid: nat) returns (entra: bool)
      requires Valid()
      ensures entra <==> SimularProceso(Abs(), pid).Algo?
    {
      hide SimularHasta, Simular;
      var sim := huecos;
      SimularHastaCero(Abs(), pid);
      for j := 0 to tabla.Length
        invariant SimularHasta(huecos, tabla[..], pid, j, cfg.mejor) == Algo(sim)
      {
        SimularHastaPaso(huecos, tabla[..], pid, j, cfg.mejor);
        if tabla[j].ocupado && tabla[j].pid == pid {
          var h := EncontrarHueco(sim, tabla[j].tam, cfg.mejor);
          if h.Nada? {
            SimularHastaFalla(huecos, tabla[..], pid, j + 1, tabla.Length, cfg.mejor);
            return false;
          }
          sim := TomarDeCopia(sim, h.valor, tabla[j].tam);
        }
      }
      entra := true;
    }

    method TomarDeCopia(hs: seq<Rango>, h: nat, tam: nat) returns (sim: seq<Rango>)
      requires h < |hs| && tam <= hs[h].limite
      ensures sim == Consumir(hs, h, tam)
    {
      sim := hs[h := Rango(hs[h].base + tam, hs[h].limite - tam)];
      if sim[h].limite == 0 {
        sim := sim[..h] + sim[h + 1..];
      }
    }
  }

  // ---------------------------------------------------------------- loop of suspender_proceso

  /** `k` segments are out, and finishing the loop from here leads to `s`. */
  ghost predicate Susp(e: Estado, i: nat, k: nat, bytes: nat, fuera: set<nat>, s: Salida)
  {
    && EnCurso(e, i, fuera) && k <= |e.procs[i].segs|
    && (forall n :: 0 <= n < |e.procs[i].segs| ==> (e.procs[i].segs[n].id in fuera <==> n < k))
    && SuspenderDesde(e, i, k, bytes) == s
  }

  lemma SuspEmpieza(e: Estado, pid: nat, i: nat, s: Salida)
    requires Inv(e) && EnMemoria(e, pid) && BuscarProceso(e.procs, pid) == Algo(i) && s == Suspender(e, pid)
    ensures Susp(e, i, 0, 0, {}, s)
  {
    EmpiezaDentro(e, i);
  }

  lemma SuspSigue(e: Estado, i: nat, k: nat, bytes: nat, fuera: set<nat>, s: Salida, j: nat) returns (afuera: set<nat>)
    requires Susp(e, i, k, bytes, fuera, s) && k < |e.procs[i].segs| && PrimerLibre(e.tabla, 0) == Algo(j)
    requires e.procs[i].segs[k].limite <= e.cfg.bloque
    ensures Susp(Guardar(e, i, k, j), i, k + 1, bytes + e.procs[i].segs[k].limite, afuera, s)
  {
    assert SegmentosOk(e.cfg, e.procs[i].segs);
    GuardarEnCurso(e, i, k, j, fuera);
    afuera := fuera + {e.procs[i].segs[k].id};
    var x := SuspenderPaso(e, i, k, bytes);
  }

  lemma SuspTermina(e: Estado, i: nat, k: nat, bytes: nat, fuera: set<nat>, s: Salida)
    requires i < |e.procs| && k <= |e.procs[i].segs| && Susp(e, i, k, bytes, fuera, s)
    requires k == |e.procs[i].segs| || e.procs[i].segs[k].limite > e.cfg.bloque || PrimerLibre(e.tabla, 0).Nada?
    ensures s == if k == |e.procs[i].segs| then Salida(Marcar(e, i, true), SUSPEND_OK, bytes)
                 else Salida(e, MEMORIA_NO_DISPONIBLE, bytes)
  {
    SuspenderTermina(e, i, k, bytes);
  }

  // ---------------------------------------------------------------- loop of desuspender_proceso

  /** Blocks `js` are still to come back, and finishing the loop from here leads to `v`. */
  ghost predicate Desusp(e: Estado, i: nat, pid: nat, js: seq<nat>, fuera: set<nat>, v: Vuelta)
  {
    && EnCurso(e, i, fuera) && e.procs[i].pid == pid && Quedan(e.tabla, pid, js)
    && ReponerTodos(e, i, js) == v
  }

  lemma DesuspTermina(e: Estado, i: nat, pid: nat, js: seq<nat>, fuera: set<nat>, v: Vuelta)
    requires Desusp(e, i, pid, js, fuera, v) && js == []
    ensures v == Vuelta(e, MEMORIA_DISPONIBLE)
  {
  }

  lemma DesuspPrimero(e: Estado, i: nat, pid: nat, js: seq<nat>, fuera: set<nat>, v: Vuelta)
    requires Desusp(e, i, pid, js, fuera, v) && js != []
    ensures js[0] < |e.tabla| && i < |e.procs|
  {
    QuedanMenos(e.tabla, pid, js);
  }

  lemma DesuspSigue(e: Estado, i: nat, pid: nat, js: seq<nat>, fuera: set<nat>, v: Vuelta, h: nat)
    returns (k: nat, f: Estado, afuera: set<nat>)
    requires Desusp(e, i, pid, js, fuera, v) && js != [] && js[0] < |e.tabla|
    requires Elegir(e.huecos, e.tabla[js[0]].tam, e.cfg.mejor) == Algo(h)
    ensures Vuelve(e, i, js[0], k, h, fuera) && f == Reponer(e, i, js[0], k, h)
    ensures Desusp(f, i, pid, js[1..], afuera, v)
  {
    QuedanMenos(e.tabla, pid, js);
    var n, m, g := ReponerPaso(e, i, js, fuera, v);
    k, f, afuera := n, g, fuera - {e.tabla[js[0]].seg};
    ReponerEnCurso(e, i, js[0], k, h, fuera);
  }

  lemma DesuspCorta(e: Estado, i: nat, pid: nat, js: seq<nat>, fuera: set<nat>, v: Vuelta)
    requires Desusp(e, i, pid, js, fuera, v) && js != [] && js[0] < |e.tabla|
    requires Elegir(e.huecos, e.tabla[js[0]].tam, e.cfg.mejor).Nada?
    ensures Vuelta(e, Asignar(e, i, e.tabla[js[0]].seg, e.tabla[js[0]].tam).1) == v
    ensures Asignar(e, i, e.tabla[js[0]].seg, e.tabla[js[0]].tam).0 == e && v.codigo != MEMORIA_DISPONIBLE
  {
    QuedanMenos(e.tabla, pid, js);
    var k := VuelveBloque(e, i, js[0], fuera);
  }

  /** The hole is granted, and the segment is then inside memory at its base. */
  lemma VuelveAsigna(e: Estado, i: nat, j: nat, k: nat, h: nat, fuera: set<nat>) returns (f: Estado)
    requires Vuelve(e, i, j, k, h, fuera) && Elegir(e.huecos, e.tabla[j].tam, e.cfg.mejor) == Algo(h)
    ensures Asignar(e, i, e.tabla[j].seg, e.tabla[j].tam) == (f, MEMORIA_DISPONIBLE)
    ensures
      && |f.procs| == |e.procs| && |f.procs[i].segs| == |e.procs[i].segs|
      && BuscarSegmento(f.procs[i].segs, e.tabla[j].seg) == Algo(k)
      && SegmentosOk(e.cfg, f.procs[i].segs)
      && f.procs[i].segs[k].limite == e.tabla[j].tam
      && f.procs[i].segs[k].base == e.huecos[h].base && e.huecos[h].base + e.tabla[j].tam <= |e.mem|
      && Reponer(e, i, j, k, h) == f.(
           mem := Grabar(e.mem, e.huecos[h].base, LeerBloque(e.swap, j * e.cfg.bloque, e.tabla[j].tam)),
           tabla := e.tabla[j := e.tabla[j].(ocupado := false)])
  {
    assert SegmentosOk(e.cfg, e.procs[i].segs);
    var r := VuelveBloque(e, i, j, fuera);
    f := Asignar(e, i, e.tabla[j].seg, e.tabla[j].tam).0;
    HuecoCabe(e, i, fuera, h);
    SegmentoDeCambia(e.procs[i].segs, k, e.procs[i].segs[k].(base := e.huecos[h].base), e.tabla[j].seg);
    ReponerProcs(e.cfg, e.procs, i, k, e.huecos[h].base);
  }

  // ---------------------------------------------------------------- loops of compactar

  lemma ListarEmpieza(procs: seq<Proceso>)
    ensures [] + Todas(procs, 0) == Todas(procs, 0)
  {
  }

  lemma ListarSigue(procs: seq<Proceso>, i: nat, todos: seq<Entrada>, propios: seq<Entrada>)
    requires i < |procs| && propios == if procs[i].enSwap then [] else EntradasDe(procs[i].segs, i)
    ensures todos + Todas(procs, i) == (todos + propios) + Todas(procs, i + 1)
  {
    hide EntradasDe;
  }

  lemma ListarTermina(procs: seq<Proceso>, todos: seq<Entrada>)
    ensures todos + Todas(procs, |procs|) == todos
  {
  }

  /** Entries `es` are still to move, and moving them from cursor `c` leads to `ps` and `m`. */
  ghost predicate Desliza(e: Estado, es: seq<Entrada>, c: nat, ps: seq<Proceso>, m: seq<byte>)
  {
    && Vigentes(e.procs, es) && RefsDistintas(es) && Enfila(es, c, |e.mem|)
    && Rebasar(e.procs, es, c) == ps && Mover(e.mem, es, c) == m
  }

  lemma CompactarEs(e: Estado, es: seq<Entrada>) returns (ps: seq<Proceso>, m: seq<byte>)
    requires Inv(e) && es == EnOrden(e)
    ensures Desliza(e, es, 0, ps, m)
    ensures Compactar(e) == e.(procs := ps, mem := m, huecos := HuecoFinal(Largo(es), |e.mem|))
  {
    EnOrdenOk(e);
    ps, m := Rebasar(e.procs, es, 0), Mover(e.mem, es, 0);
  }

  lemma DeslizaFin(e: Estado, es: seq<Entrada>, c: nat, ps: seq<Proceso>, m: seq<byte>)
    requires Desliza(e, es, c, ps, m) && es == []
    ensures e.procs == ps && e.mem == m
  {
  }

  lemma DeslizaSigue(e: Estado, es: seq<Entrada>, c: nat, ps: seq<Proceso>, m: seq<byte>) returns (f: Estado)
    requires Desliza(e, es, c, ps, m) && es != []
    ensures var t := es[0];
      && Vigente(e.procs, t) && 0 < t.limite && t.base + t.limite <= |e.mem| && c + t.limite <= |e.mem|
      && f == e.(procs := f.procs, mem := f.mem)
      && (t.base != c ==> f.procs == PonerBase(e.procs, t, c))
      && (t.base != c ==> f.mem == Pisar(e.mem, c, e.mem[t.base..t.base + t.limite]))
      && (t.base == c ==> f == e)
      && Desliza(f, es[1..], c + t.limite, ps, m)
  {
    var t := es[0];
    EnfilaEn(es, c, |e.mem|, 0);
    EnfilaAntes(es[1..], t.Fin(), c + t.limite, |e.mem|);
    RebasarVigentes(e.procs, es, c);
    assert Vigente(e.procs, t);
    f := e.(procs := PonerBase(e.procs, t, c), mem := Copiar(e.mem, t.base, c, t.limite));
    if t.base == c {
      var p := e.procs[t.proc];
      assert p.segs[t.seg := p.segs[t.seg].(base := c)] == p.segs;
      assert PonerBase(e.procs, t, c) == e.procs;
    }
  }

  // ---------------------------------------------------------------- escribir_bytes_en_memoria

  lemma EscribirDe(e: Estado, pid: nat, dir: nat, datos: seq<byte>)
    requires Inv(e) && EnMemoria(e, pid)
    ensures e.cfg.segMax > 0 && (ProcesoDe(e.procs, pid).Algo? ==> !ProcesoDe(e.procs, pid).valor.enSwap)
    ensures BuscarProceso(e.procs, pid).Nada? ==> Escribir(e, pid, dir, datos) == (e, false)
  {
  }

  /** Translation finds no stick for an empty access at the very end of memory. */
  ghost predicate EmpiezaEnMemoria(e: Estado, pid: nat, dir: nat, tam: nat)
    requires e.cfg.segMax > 0
  {
    var p := ProcesoDe(e.procs, pid);
    tam == 0 && p.Algo? ==>
      (var k := BuscarSegmento(p.valor.segs, dir / e.cfg.segMax);
       k.Algo? ==> p.valor.segs[k.valor].base + dir % e.cfg.segMax < |e.mem|)
  }

  lemma EmpiezaEn(e: Estado, pid: nat, i: nat, dir: nat, tam: nat, base: nat)
    requires e.cfg.segMax > 0 && BuscarProceso(e.procs, pid) == Algo(i)
    requires EnSegmento(dir, e.cfg.segMax, e.procs[i].segs, tam)
    requires base == e.procs[i].segs[BuscarSegmento(e.procs[i].segs, dir / e.cfg.segMax).valor].base + dir % e.cfg.segMax
    ensures EmpiezaEnMemoria(e, pid, dir, tam) <==> (tam == 0 ==> base < |e.mem|)
  {
  }

  /** What translation answers for a process that is in memory, and where it leads. */
  lemma EscribirTraduce(e: Estado, pid: nat, i: nat, dir: nat, datos: seq<byte>, ss: seq<Stick>) returns (base: nat)
    requires Inv(e) && EnMemoria(e, pid) && BuscarProceso(e.procs, pid) == Algo(i)
    requires Bien(ss) && Total(ss) == |e.mem| && dir < WORD && |datos| < WORD
    ensures var r := Traducir(dir, e.cfg.segMax, e.procs[i].segs, ss, |datos|);
      var (f, ok) := Escribir(e, pid, dir, datos);
      && (r.Algo? <==> ok && EmpiezaEnMemoria(e, pid, dir, |datos|))
      && (r.Algo? ==> Cubre(ss, r.valor, base, |datos|) && base + |datos| <= |e.mem|)
      && (r.Algo? ==> f == e.(mem := Pisar(e.mem, base, datos)))
      && (r.Nada? ==> f == e)
  {
    hide Inv, Traducir, Cubre, Bien, Total;
    base := TraduceA(e, i, dir, |datos|, ss);
    if datos == [] {
      assert Pisar(e.mem, base, []) == e.mem;
    }
  }

  lemma TraduceA(e: Estado, i: nat, dir: nat, tam: nat, ss: seq<Stick>) returns (base: nat)
    requires Inv(e) && i < |e.procs| && !e.procs[i].enSwap
    requires Bien(ss) && Total(ss) == |e.mem| && dir < WORD && tam < WORD
    ensures base <= |e.mem|
    ensures var segs := e.procs[i].segs;
      var r := Traducir(dir, e.cfg.segMax, segs, ss, tam);
      && (r.Algo? <==> EnSegmento(dir, e.cfg.segMax, segs, tam) && (tam == 0 ==> base < |e.mem|))
      && (EnSegmento(dir, e.cfg.segMax, segs, tam) ==>
            base == segs[BuscarSegmento(segs, dir / e.cfg.segMax).valor].base + dir % e.cfg.segMax
            && base + tam <= |e.mem|)
      && (r.Algo? ==> Cubre(ss, r.valor, base, tam))
  {
    var segs := e.procs[i].segs;
    var b := BuscarSegmento(segs, dir / e.cfg.segMax);
    base := 0;
    if b.Algo? {
      ResidenteDentro(e, i, b.valor);
      if EnSegmento(dir, e.cfg.segMax, segs, tam) {
        base := segs[b.valor].base + dir % e.cfg.segMax;
      }
    }
    if tam == 0 {
      TraducirVacia(dir, e.cfg.segMax, segs, ss);
    } else {
      TraducirExacta(dir, e.cfg.segMax, segs, ss, tam);
    }
  }

  // ---------------------------------------------------------------- loop of the dry run

  function SimularHasta(hs: seq<Rango>, tabla: seq<Bloque>, pid: nat, n: nat, mejor: bool): Opcion<seq<Rango>>
    requires n <= |tabla|
  {
    Simular(hs, Tamanios(tabla, BloquesHasta(tabla, pid, n)), mejor)
  }

  lemma {:induction false} SimularAgrega(hs: seq<Rango>, ts: seq<nat>, t: nat, mejor: bool)
    ensures Simular(hs, ts + [t], mejor) ==
      match Simular(hs, ts, mejor)
      case Nada => Nada
      case Algo(sim) =>
        match Elegir(sim, t, mejor) case Nada => Nada case Algo(h) => Algo(Consumir(sim, h, t))
    decreases |ts|
  {
    if ts == [] {
      assert (ts + [t])[1..] == [];
    } else {
      assert (ts + [t])[1..] == ts[1..] + [t];
      if Elegir(hs, ts[0], mejor).Algo? {
        SimularAgrega(Consumir(hs, Elegir(hs, ts[0], mejor).valor, ts[0]), ts[1..], t, mejor);
      }
    }
  }

  lemma {:induction false} TamaniosAgrega(tabla: seq<Bloque>, js: seq<nat>, j: nat)
    requires (forall x :: x in js ==> x < |tabla|) && j < |tabla|
    ensures Tamanios(tabla, js + [j]) == Tamanios(tabla, js) + [tabla[j].tam]
    decreases |js|
  {
    if js != [] {
      assert js[0] in js && forall x :: x in js[1..] ==> x in js;
      assert (js + [j])[1..] == js[1..] + [j];
      TamaniosAgrega(tabla, js[1..], j);
    }
  }

  lemma SimularHastaCero(e: Estado, pid: nat)
    ensures SimularHasta(e.huecos, e.tabla, pid, 0, e.cfg.mejor) == Algo(e.huecos)
    ensures SimularHasta(e.huecos, e.tabla, pid, |e.tabla|, e.cfg.mejor) == SimularProceso(e, pid)
  {
  }

  lemma SimularHastaPaso(hs: seq<Rango>, tabla: seq<Bloque>, pid: nat, n: nat, mejor: bool)
    requires n < |tabla|
    ensures SimularHasta(hs, tabla, pid, n + 1, mejor) ==
      if tabla[n].ocupado && tabla[n].pid == pid then
        match SimularHasta(hs, tabla, pid, n, mejor)
        case Nada => Nada
        case Algo(sim) =>
          match Elegir(sim, tabla[n].tam, mejor) case Nada => Nada case Algo(h) => Algo(Consumir(sim, h, tabla[n].tam))
      else SimularHasta(hs, tabla, pid, n, mejor)
  {
    var js := BloquesHasta(tabla, pid, n);
    TamaniosAgrega(tabla, js, n);
    SimularAgrega(hs, Tamanios(tabla, js), tabla[n].tam, mejor);
  }

  lemma {:induction false} SimularHastaFalla(hs: seq<Rango>, tabla: seq<Bloque>, pid: nat, n: nat, m: nat, mejor: bool)
    requires n <= m <= |tabla| && SimularHasta(hs, tabla, pid, n, mejor).Nada?
    ensures SimularHasta(hs, tabla, pid, m, mejor).Nada?
  {
    hide SimularHasta;
    if n < m {
      SimularHastaFalla(hs, tabla, pid, n, m - 1, mejor);
      SimularHastaPaso(hs, tabla, pid, m - 1, mejor);
    }
  }

  /** `UnirSiguiente`, seen on the whole list. */
  lemma UnirSiguienteEn(hs: seq<Rango>, n: Rango, k: nat)
    requires k <= |hs|
    ensures hs[..k] + UnirSiguiente(n, hs[k..]) ==
      var todos := hs[..k] + [n] + hs[k..];
      if k < |hs| && n.Fin() == hs[k].base
      then todos[..k] + [Rango(n.base, n.limite + hs[k].limite)] + todos[k + 2..]
      else todos
  {
    var todos := hs[..k] + [n] + hs[k..];
    assert todos[..k] == hs[..k];
    if k < |hs| {
      assert todos[k + 2..] == hs[k + 1..] && hs[k..][1..] == hs[k + 1..];
    }
  }

  /** `UnirAnterior`, seen on the whole list. */
  lemma UnirAnteriorEn(hs: seq<Rango>, izq: seq<Rango>, der: seq<Rango>, k: nat)
    requires hs == izq + der && der != []
    requires k == |izq|
    ensures UnirAnterior(izq, der) ==
      if k > 0 && hs[k - 1].Fin() == hs[k].base
      then hs[..k - 1] + [Rango(hs[k - 1].base, hs[k - 1].limite + hs[k].limite)] + hs[k + 1..]
      else hs
  {
    assert hs[k] == der[0] && hs[k + 1..] == der[1..];
    if k > 0 {
      assert hs[..k - 1] == izq[..k - 1];
    }
  }

  lemma {:induction false} BuscarProcesoPrimero(procs: seq<Proceso>, pid: nat, i: nat)
    requires i < |procs| && procs[i].pid == pid && forall k :: 0 <= k < i ==> procs[k].pid != pid
    ensures BuscarProceso(procs, pid) == Algo(i)
  {
    if i > 0 {
      BuscarProcesoPrimero(procs[1..], pid, i - 1);
    }
  }
}
