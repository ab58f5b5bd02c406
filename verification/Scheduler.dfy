/** The kernel_scheduler process as it runs: the handlers of kernel_scheduler/src/scheduler.c and
    the list operations of utils_scheduler.c as loops over mutable lists.  Every method is tied
    to the function of module Planificador for the same step. */
module Scheduler {
  import opened Secuencias
  import opened Procesos
  import opened Planificador
  import opened Conservacion
  import opened Acciones

  class Scheduler {
    const pol: Politica
    var exec: seq<Opcion<nat>>
    var colas: seq<seq<nat>>
    var block: seq<nat>
    var suspBlock: seq<nat>
    var suspReady: seq<nat>
    var mano: Opcion<nat>
    var pcbs: map<nat, Pcb>
    var mutexes: seq<Mutex>
    var io: map<nat, TipoIO>
    var bytes: map<nat, nat>
    var timers: set<(nat, nat)>
    var proximo: nat
    var semReady: int
    var semCpu: int
    var plan: Plan
    var compactando: bool
    var abiertas: seq<nat>

    function Abs(): Sched
      reads this
    {
      Sched(pol, Lugares(exec, colas, block, suspBlock, suspReady, mano), pcbs, mutexes, io, bytes, timers, proximo,
            semReady, semCpu, plan, compactando, abiertas)
    }

    constructor (pol: Politica)
      ensures this.pol == pol
      ensures Abs() == Inicial(pol)
    {
      this.pol := pol;
      exec, block, suspBlock, suspReady, mano := [], [], [], [], Nada;
      colas := seq(pol.niveles, _ => []);
      pcbs, mutexes, io, bytes, timers := map[], [], map[], map[], {};
      proximo, semReady, semCpu, plan, compactando, abiertas := 0, 0, 0, Espera, false, [];
    }

    // -------------------------------------------------------------- searches

    /** `encontrar_cpu_con_pid` */
    method EncontrarCpuConPid(p: nat) returns (r: Opcion<nat>)
      ensures r == CpuCon(exec, p)
    {
      for i := 0 to |exec|
        invariant forall k :: 0 <= k < i ==> exec[k] != Algo(p)
      {
        if exec[i] == Algo(p) {
          CpuConPrimera(exec, p, i);
          return Algo(i);
        }
      }
      r := Nada;
    }

    /** `obtener_cpu_libre` */
    method ObtenerCpuLibre() returns (r: Opcion<nat>)
      ensures r == CpuLibre(exec)
    {
      for i := 0 to |exec|
        invariant forall k :: 0 <= k < i ==> exec[k].Algo?
      {
        if exec[i].Nada? {
          CpuLibrePrimera(exec, i);
          return Algo(i);
        }
      }
      SinLibres(exec);
      r := Nada;
    }

    /** `buscar_mutex` */
    method BuscarMutexPorNombre(nombre: string) returns (r: Opcion<nat>)
      ensures r == BuscarMutex(mutexes, nombre)
    {
      for i := 0 to |mutexes|
        invariant forall k :: 0 <= k < i ==> mutexes[k].nombre != nombre
      {
        if mutexes[i].nombre == nombre {
          MutexPrimero(mutexes, nombre, i);
          return Algo(i);
        }
      }
      r := Nada;
    }

    /** Position of `p` in a list. */
    method Indice(xs: seq<nat>, p: nat) returns (r: Opcion<nat>)
      ensures r.Nada? ==> p !in xs
      ensures r.Algo? ==> r.valor < |xs| && xs[r.valor] == p && forall k :: 0 <= k < r.valor ==> xs[k] != p
    {
      for i := 0 to |xs|
        invariant forall k :: 0 <= k < i ==> xs[k] != p
      {
        if xs[i] == p {
          return Algo(i);
        }
      }
      r := Nada;
    }

    /** `list_remove` of the first `p`, if it is there. */
    method Sacar(xs: seq<nat>, p: nat) returns (ys: seq<nat>, estaba: bool)
      ensures ys == Quitar(xs, p) && estaba == (p in xs)
    {
      var i := Indice(xs, p);
      if i.Nada? {
        QuitarAusente(xs, p);
        return xs, false;
      }
      QuitarEnLugar(xs, i.valor, p);
      ys, estaba := xs[..i.valor] + xs[i.valor + 1..], true;
    }

    /** The level at which `p` is queued. */
    method BuscarNivel(p: nat) returns (r: Opcion<nat>)
      ensures r == NivelDe(colas, p)
    {
      for i := 0 to |colas|
        invariant forall k :: 0 <= k < i ==> p !in colas[k]
      {
        var j := Indice(colas[i], p);
        if j.Algo? {
          NivelPrimero(colas, p, i);
          return Algo(i);
        }
      }
      r := Nada;
    }

    /** `buscar_pcb_por_pid`: whether it is somewhere, and, with several queues, whether it was
        taken out of its queue because `candidata` is better than its priority. */
    method BuscarPcbPorPid(p: nat, candidata: nat) returns (esta: bool, extraido: bool)
      modifies this`colas
      ensures esta == old(Ubicado(Abs().l, p))
      ensures extraido == (old(EnCola(Abs(), p)) && candidata < Prio(pcbs, p))
      ensures extraido ==> esta
      ensures Abs().l == if extraido then Extraer(old(Abs().l), p) else old(Abs().l)
    {
      extraido := false;
      var c := EncontrarCpuConPid(p);
      if c.Algo? {
        return true, false;
      }
      var n := BuscarNivel(p);
      if n.Algo? {
        if pol.cmn && candidata < Prio(pcbs, p) {
          var resto, estaba := Sacar(colas[n.valor], p);
          colas := colas[n.valor := resto];
          extraido := true;
        }
        return true, extraido;
      }
      var i := Indice(block, p);
      var j := Indice(suspBlock, p);
      var k := Indice(suspReady, p);
      esta := i.Algo? || j.Algo? || k.Algo?;
    }

    // -------------------------------------------------------------- queues

    /** `encolar_pcb_ready` */
    method EncolarPcbReady(p: nat)
      modifies this`colas
      ensures Abs() == Listo(old(Abs()), p)
    {
      var n := if pol.cmn then Prio(pcbs, p) else 0;
      if n < |colas| {
        colas := colas[n := colas[n] + [p]];
      }
    }

    /** `desencolar_pcb_ready` */
    method DesencolarPcbReady() returns (r: Opcion<nat>)
      modifies this`colas
      ensures r == Primero(old(colas))
      ensures Abs() == old(Abs()).(l := SinPrimero(old(Abs()).l))
    {
      for i := 0 to |colas|
        invariant colas == old(colas) && forall k :: 0 <= k < i ==> colas[k] == []
      {
        if |colas[i]| > 0 {
          NivelNoVacio(colas, i);
          r := Algo(colas[i][0]);
          colas := colas[i := colas[i][1..]];
          return;
        }
      }
      r := Nada;
    }

    /** `hay_cpu_desalojable` */
    method HayCpuDesalojable(x: nat) returns (r: Opcion<nat>)
      ensures r == Victima(Abs(), x)
    {
      r := Nada;
      var peor := x;
      for i := 0 to |exec|
        invariant r == VictimaEn(pcbs, exec, x, i)
        invariant peor == if r.Algo? then Prio(pcbs, exec[r.valor].valor) else x
      {
        if exec[i].Algo? && Prio(pcbs, exec[i].valor) > peor {
          r := Algo(i);
          peor := Prio(pcbs, exec[i].valor);
        }
      }
    }

    /** `list_add_sorted` with `es_mas_prioritario` */
    method InsertarSuspReady(p: nat)
      modifies this`suspReady
      ensures suspReady == InsertarPorPrio(pcbs, old(suspReady), p)
    {
      var i := 0;
      while i < |suspReady| && !(Prio(pcbs, p) < Prio(pcbs, suspReady[i]))
        invariant i <= |suspReady| && suspReady == old(suspReady)
        invariant forall k :: 0 <= k < i ==> !(Prio(pcbs, p) < Prio(pcbs, suspReady[k]))
      {
        i := i + 1;
      }
      InsertarEnLugar(pcbs, suspReady, p, i);
      suspReady := suspReady[..i] + [p] + suspReady[i..];
    }

    // -------------------------------------------------------------- the planner's condition

    /** `pthread_cond_signal`, and what the planner does when it wakes up. */
    method Senalar()
      modifies this`semReady, this`plan
      ensures Abs() == Senal(old(Abs()))
    {
      match plan
      case Aparcado => plan := Espera;
      case Pausado =>
        if compactando {
          semReady := semReady + 1;
        } else {
          plan := ConReady;
        }
      case Frenado =>
        if !compactando {
          plan := Espera;
        }
      case Reten => plan := ConReady;
      case _ =>
    }

    /** `despertar_planificador` */
    method DespertarPlanificador()
      modifies this`semReady, this`plan
      ensures Abs() == DespertarPlan(old(Abs()))
    {
      if pol.cmn && pol.desalojo {
        Senalar();
      }
    }

    /** `liberar_cpu_y_notificar` */
    method LiberarCpuYNotificar()
      modifies this`semReady, this`semCpu, this`plan
      ensures Abs() == LiberarCpu(old(Abs()))
    {
      semCpu := semCpu + 1;
      Senalar();
    }

    /** A PCB becomes ready, its token is posted and the planner is told. */
    method EncolarYDespertar(p: nat)
      modifies this`colas, this`semReady, this`plan
      ensures Abs() == ListoConAviso(old(Abs()), p)
    {
      EncolarPcbReady(p);
      semReady := semReady + 1;
      DespertarPlanificador();
    }

    // -------------------------------------------------------------- blocking and waking up

    method MoverABlock(i: nat, p: nat)
      requires i < |exec|
      modifies this`exec, this`block
      ensures Abs().l == Soltar(old(Abs().l), i).(block := old(block) + [p])
    {
      exec := exec[i := Nada];
      block := block + [p];
    }

    /** `timer_tiempo_bloqueado` */
    method ArmarTimer(p: nat)
      modifies this`pcbs, this`timers
      ensures var t := if p in old(pcbs) then old(pcbs)[p].token + 1 else 0;
        && timers == old(timers) + {(p, t)}
        && pcbs == if p in old(pcbs) then old(pcbs)[p := old(pcbs)[p].(token := t)] else old(pcbs)
    {
      var token := 0;
      if p in pcbs {
        token := pcbs[p].token + 1;
        pcbs := pcbs[p := pcbs[p].(token := token)];
      }
      timers := timers + {(p, token)};
    }

    /** `bloquear_proceso` */
    method BloquearProceso(p: nat)
      modifies this
      ensures Abs() == Bloquear(old(Abs()), p)
    {
      hide CpuCon;
      var c := EncontrarCpuConPid(p);
      if c.Nada? {
        return;
      }
      MoverABlock(c.valor, p);
      ArmarTimer(p);
    }

    /** `desuspender_proceso` */
    method DesuspenderProceso(p: nat, ok: bool)
      modifies this
      ensures Abs() == Desuspender(old(Abs()), p, ok)
    {
      var estaba;
      suspReady, estaba := Sacar(suspReady, p);
      if ok {
        EncolarYDespertar(p);
      }
    }

    /** `pasar_des_susp_block_a_ready` */
    method PasarDeSuspBlock(p: nat)
      modifies this
      ensures Abs() == PasarASuspReady(old(Abs()), p)
    {
      var resto, estaba := Sacar(suspBlock, p);
      if !estaba {
        return;
      }
      suspBlock := resto;
      InsertarSuspReady(p);
      if p in bytes && bytes[p] == 0 {
        DesuspenderProceso(p, true);
      }
    }

    /** A wait that ended: `buscar_y_sacar_de_block`, and one way or the other. */
    method DespertarProceso(p: nat)
      modifies this
      ensures Abs() == Despertar(old(Abs()), p)
    {
      var resto, estaba := Sacar(block, p);
      if estaba {
        block := resto;
        EncolarYDespertar(p);
      } else {
        PasarDeSuspBlock(p);
      }
    }

    // -------------------------------------------------------------- mutexes

    /** Best priority among `x` and those of a queue. */
    method MinimoDeCola(cola: seq<nat>, x: nat) returns (r: nat)
      ensures r == MinCola(pcbs, cola, x)
    {
      r := x;
      for j := 0 to |cola|
        invariant MinCola(pcbs, cola[j..], r) == MinCola(pcbs, cola, x)
      {
        assert cola[j..][0] == cola[j] && cola[j..][1..] == cola[j + 1..];
        if Prio(pcbs, cola[j]) < r {
          r := Prio(pcbs, cola[j]);
        }
      }
    }

    /** The hand-off that MUTEX_UNLOCK and `liberar_de_mutex_por_muerte` share. */
    method EntregarMutex(m: nat)
      requires m < |mutexes| && mutexes[m].cola != []
      modifies this
      ensures Abs() == Entregar(old(Abs()), m)
    {
      hide Despertar, MinCola, ConPrio;
      var mx := mutexes[m];
      var siguiente := mx.cola[0];
      mutexes := mutexes[m := mx.(pid := siguiente, contador := mx.contador + 1, cola := mx.cola[1..])];
      var x := MinimoDeCola(mx.cola[1..], Prio(pcbs, siguiente));
      pcbs := ConPrio(pcbs, siguiente, x);
      DespertarProceso(siguiente);
    }

    /** One turn of the loop that follows the chain: does the owner of mutex `i` inherit from `d`? */
    method HeredarDe(d: nat, i: nat)
      requires i < |mutexes|
      modifies this
      ensures Abs() == HeredarEn(old(Abs()), d, i)
    {
      hide Extraer;
      var u := mutexes[i];
      if u.pid == d || |u.cola| == 0 {
        return;
      }
      var esta := EstaEnAlgunLado(u.pid);
      if !esta {
        return;
      }
      var heredada := Prio(pcbs, u.pid);
      var corresponde := false;
      for j := 0 to |u.cola|
        invariant corresponde == (d in u.cola[..j] && Prio(pcbs, d) < Prio(pcbs, u.pid))
        invariant heredada == if corresponde then Prio(pcbs, d) else Prio(pcbs, u.pid)
      {
        assert u.cola[..j + 1] == u.cola[..j] + [u.cola[j]];
        if u.cola[j] == d && Prio(pcbs, u.cola[j]) < heredada {
          heredada := Prio(pcbs, u.cola[j]);
          corresponde := true;
        }
      }
      assert u.cola[..|u.cola|] == u.cola;
      if corresponde {
        var otra, extraido := BuscarPcbPorPid(u.pid, heredada);
        pcbs := ConPrio(pcbs, u.pid, heredada);
        if extraido {
          EncolarPcbReady(u.pid);
        }
      }
    }

    /** The same search when the candidate priority is UINT32_MAX: nothing is taken out. */
    method EstaEnAlgunLado(p: nat) returns (esta: bool)
      ensures esta == Ubicado(Abs().l, p)
    {
      var c := EncontrarCpuConPid(p);
      var n := BuscarNivel(p);
      var i := Indice(block, p);
      var j := Indice(suspBlock, p);
      var k := Indice(suspReady, p);
      esta := c.Algo? || n.Algo? || i.Algo? || j.Algo? || k.Algo?;
    }

    method HeredarPorTransitividad(d: nat)
      modifies this
      ensures Abs() == HeredarOtros(old(Abs()), d, 0)
    {
      hide HeredarEn;
      ghost var s := Abs();
      for i := 0 to |mutexes|
        invariant |mutexes| == |s.mutexes| && HeredarOtros(Abs(), d, i) == HeredarOtros(s, d, 0)
      {
        HeredarMismos(Abs(), d, i);
        HeredarDe(d, i);
      }
    }

    /** The owner `d` inherits `x` if that is better, and passes it on. */
    method HeredarSiMejora(d: nat, x: nat)
      modifies this
      ensures Abs() == if old(Ubicado(Abs().l, d)) && x < old(Prio(pcbs, d)) then DespertarPlan(HeredarDueno(old(Abs()), d, x))
                       else old(Abs())
    {
      hide HeredarOtros, Extraer, Ubicado, Encolar, Senal;
      var esta, extraido := BuscarPcbPorPid(d, x);
      if esta && Prio(pcbs, d) > x {
        pcbs := ConPrio(pcbs, d, x);
        HeredarPorTransitividad(d);
        if extraido {
          EncolarPcbReady(d);
        }
        DespertarPlanificador();
      }
    }

    /** MUTEX_LOCK on a mutex that somebody has. */
    method EsperarPorMutex(p: nat, m: nat)
      requires m < |mutexes|
      modifies this
      ensures Abs() == EsperarMutex(old(Abs()), p, m)
    {
      hide HeredarDueno, Ubicado, Bloquear, DespertarPlan, LiberarCpu;
      var mx := mutexes[m];
      var x := Prio(pcbs, p);
      mutexes := mutexes[m := mx.(contador := mx.contador - 1, cola := mx.cola + [p])];
      HeredarSiMejora(mx.pid, x);
      BloquearProceso(p);
      LiberarCpuYNotificar();
    }

    /** MUTEX_LOCK */
    method MutexLock(p: nat, nombre: string)
      modifies this
      ensures Abs() == Lock(old(Abs()), p, nombre)
    {
      hide EsperarMutex;
      var r := BuscarMutexPorNombre(nombre);
      if r.Nada? {
        return;
      }
      var c := EncontrarCpuConPid(p);
      if c.Nada? {
        return;
      }
      var m := r.valor;
      if mutexes[m].contador < 1 {
        EsperarPorMutex(p, m);
      } else {
        mutexes := mutexes[m := mutexes[m].(contador := mutexes[m].contador - 1, pid := p)];
      }
    }

    /** The priority that remains after an unlock. */
    method RecalcularPrioridad(p: nat)
      modifies this`pcbs
      ensures Abs() == Recalcular(old(Abs()), p)
    {
      var c := EncontrarCpuConPid(p);
      if c.Nada? || p !in pcbs {
        return;
      }
      var r := pcbs[p].original;
      for i := 0 to |mutexes|
        invariant pcbs == old(pcbs)
        invariant MinDe(pcbs, mutexes, p, i, r) == MinDe(pcbs, mutexes, p, 0, pcbs[p].original)
      {
        if mutexes[i].pid == p && |mutexes[i].cola| > 0 {
          r := MinimoDeCola(mutexes[i].cola, r);
        }
      }
      pcbs := ConPrio(pcbs, p, r);
    }

    /** MUTEX_UNLOCK */
    method MutexUnlock(p: nat, nombre: string)
      modifies this
      ensures Abs() == Unlock(old(Abs()), p, nombre)
    {
      hide Entregar, Recalcular;
      var r := BuscarMutexPorNombre(nombre);
      if r.Nada? {
        return;
      }
      var m := r.valor;
      if mutexes[m].contador + 1 == 1 || |mutexes[m].cola| == 0 {
        mutexes := mutexes[m := mutexes[m].(contador := mutexes[m].contador + 1)];
      } else {
        EntregarMutex(m);
      }
      RecalcularPrioridad(p);
    }

    /** `liberar_de_mutex_por_muerte`, and the PCB is freed. */
    method LiberarDeMutexPorMuerte(p: nat)
      modifies this
      ensures Abs() == Morir(old(Abs()), p)
    {
      hide Entregar;
      ghost var s := Abs();
      for i := 0 to |mutexes|
        invariant |mutexes| == |s.mutexes| && LiberarMutexes(Abs(), p, i) == LiberarMutexes(s, p, 0)
      {
        LiberarMismos(Abs(), p, i);
        if mutexes[i].pid == p && mutexes[i].contador < 1 {
          if |mutexes[i].cola| == 0 {
            mutexes := mutexes[i := mutexes[i].(contador := mutexes[i].contador + 1, pid := NADIE)];
          } else {
            EntregarMutex(i);
          }
        }
      }
      pcbs := pcbs - {p};
    }

    /** MUTEX_CREATE */
    method MutexCreate(nombre: string)
      modifies this`mutexes
      ensures Abs() == CrearMutex(old(Abs()), nombre)
    {
      var r := BuscarMutexPorNombre(nombre);
      if r.Nada? {
        mutexes := mutexes + [Mutex(nombre, NADIE, 1, [])];
      }
    }

    // -------------------------------------------------------------- the other handlers

    /** `generar_pid` and `crear_proceso` */
    method Crear(prioridad: int, ok: bool)
      modifies this
      ensures Abs() == CrearProceso(old(Abs()), prioridad, ok)
    {
      hide Listo, ConReadyMas;
      var p := proximo;
      proximo := proximo + 1;
      if (pol.cmn && !(0 <= prioridad < pol.niveles)) || !ok {
        return;
      }
      NuevoListo(p, SinSigno(prioridad));
    }

    /** The PCB, in the queue of its priority, with its token. */
    method NuevoListo(p: nat, prioridad: nat)
      modifies this
      ensures Abs() == ConReadyMas(Listo(old(Abs()).(pcbs := old(pcbs)[p := Pcb(prioridad, prioridad, 0)]), p))
    {
      hide Listo;
      pcbs := pcbs[p := Pcb(prioridad, prioridad, 0)];
      EncolarPcbReady(p);
      semReady := semReady + 1;
    }

    /** FINALIZAR_POR_QUANTUM and DESALOJO */
    method DesalojarProceso(p: nat)
      modifies this
      ensures Abs() == Desalojar(old(Abs()), p)
    {
      hide Listo, LiberarCpu, CpuCon;
      var c := EncontrarCpuConPid(p);
      if c.Nada? {
        return;
      }
      exec := exec[c.valor := Nada];
      EncolarPcbReady(p);
      semReady := semReady + 1;
      LiberarCpuYNotificar();
    }

    /** COMPACTACION */
    method DesalojarPorCompactacion(p: nat)
      modifies this
      ensures Abs() == DesalojarCompactacion(old(Abs()), p)
    {
      var c := EncontrarCpuConPid(p);
      if c.Nada? {
        return;
      }
      exec := exec[c.valor := Nada];
      var n := if pol.cmn then Prio(pcbs, p) else 0;
      if n < |colas| {
        colas := colas[n := [p] + colas[n]];
      }
      semReady := semReady + 1;
    }

    /** EXIT, SEG_FAULT and MEM_ALLOC without memory */
    method TerminarProceso(p: nat)
      modifies this
      ensures Abs() == Terminar(old(Abs()), p)
    {
      hide Morir;
      var c := EncontrarCpuConPid(p);
      if c.Nada? {
        return;
      }
      exec := exec[c.valor := Nada];
      LiberarDeMutexPorMuerte(p);
      LiberarCpuYNotificar();
    }

    /** `desalojar_por_compactacion` and what `solicitar_segmento_memory` does before it: the
        busy CPUs are counted and the caller's is vacated. */
    method IniciarCompactacion(p: nat)
      modifies this
      ensures Abs() == Planificador.IniciarCompactacion(old(Abs()), p)
    {
      hide DesalojarCompactacion;
      var c := EncontrarCpuConPid(p);
      if c.Nada? {
        return;
      }
      var ocupadas := ContarOcupadas();
      compactando := true;
      semCpu := 0;
      abiertas := abiertas + [ocupadas];
      DesalojarPorCompactacion(p);
      CompactacionAparte(old(Abs()), p, ocupadas);
    }

    /** How many CPUs have a process. */
    method ContarOcupadas() returns (n: nat)
      ensures n == Ocupadas(exec)
    {
      n := 0;
      for i := 0 to |exec|
        invariant n == Ocupadas(exec[..i])
      {
        assert exec[..i + 1] == exec[..i] + [exec[i]];
        OcupadasUna(exec[..i], exec[i]);
        if exec[i].Algo? {
          n := n + 1;
        }
      }
      assert exec[..|exec|] == exec;
    }

    /** The end of `solicitar_segmento_memory`: one token for each CPU that was busy. */
    method FinalizarCompactacion(k: nat)
      requires k < |abiertas|
      modifies this
      ensures Abs() == FinCompactacion(old(Abs()), k)
    {
      hide Senal, DespertarPlan;
      var n := abiertas[k];
      compactando := false;
      semCpu := semCpu + n;
      abiertas := abiertas[..k] + abiertas[k + 1..];
      if n > 0 {
        Senalar();
      } else {
        DespertarPlanificador();
      }
    }

    /** SLEEP, STDIN and STDOUT */
    method Pedir(p: nat, tipo: TipoIO, ok: bool)
      modifies this
      ensures Abs() == PedirIO(old(Abs()), p, tipo, ok)
    {
      hide Bloquear, LiberarCpu;
      var c := EncontrarCpuConPid(p);
      if c.Nada? {
        return;
      }
      BloquearProceso(p);
      if !tipo.Stdout? || ok {
        io := io[p := tipo];
      }
      LiberarCpuYNotificar();
    }

    /** FINALIZAR_SLEEP, FINALIZAR_STDOUT and FINALIZAR_STDIN */
    method FinalizarIO(p: nat, ok: bool)
      modifies this
      ensures Abs() == TerminarIO(old(Abs()), p, ok)
    {
      hide Despertar, DespertarPlan;
      var stdin := p in io && io[p] == Stdin;
      var sleep := p in io && io[p] == Sleep;
      io := io - {p};
      var resto, estaba := Sacar(block, p);
      if stdin && !ok && estaba {
        block := resto;
        return;
      }
      DespertarProceso(p);
      if sleep && !estaba {
        DespertarPlanificador();
      }
    }

    /** `hilo_timer_bloqueado` and `suspender_proceso` */
    method HiloTimerBloqueado(p: nat, token: nat, bytesSuspendidos: nat, ok: bool)
      modifies this
      ensures Abs() == VenceTimer(old(Abs()), p, token, bytesSuspendidos, ok)
    {
      hide Quitar, ListarSuspendido;
      timers := timers - {(p, token)};
      var resto, estaba := Sacar(block, p);
      if estaba && p in pcbs && pcbs[p].token == token {
        block := resto;
        SuspenderProceso(p, bytesSuspendidos, ok);
      }
    }

    /** `suspender_proceso`: with a refusal, the PCB is freed and listed. */
    method SuspenderProceso(p: nat, bytesSuspendidos: nat, ok: bool)
      modifies this`bytes, this`pcbs, this`suspBlock
      ensures Abs() == ListarSuspendido(old(Abs()), p, bytesSuspendidos, ok)
    {
      bytes := bytes[p := bytesSuspendidos];
      if !ok {
        pcbs := pcbs - {p};
      }
      suspBlock := suspBlock + [p];
    }

    /** `recorrer_y_desuspender` */
    method RecorrerYDesuspender(lista: set<nat>, ok: bool)
      modifies this
      ensures Abs() == Recorrer(old(Abs()), lista, ok)
    {
      hide Desuspender;
      ghost var xs := suspReady;
      for i := 0 to |suspReady|
        invariant Abs() == old(Abs()) && Elegido(xs, lista) == Elegido(xs[i..], lista)
      {
        assert xs[i..][0] == xs[i] && xs[i..][1..] == xs[i + 1..];
        if suspReady[i] in lista {
          DesuspenderProceso(suspReady[i], ok);
          return;
        }
      }
    }

    // -------------------------------------------------------------- planificador

    /** The dispatch to an idle CPU. */
    method AsignarCpu(p: nat)
      modifies this
      ensures Abs() == Asignar(old(Abs()), p)
    {
      var c := ObtenerCpuLibre();
      if c.Nada? {
        EncolarPcbReady(p);
        semReady := semReady + 1;
      } else {
        exec := exec[c.valor := Algo(p)];
      }
    }

    /** Dequeue and dispatch, with a token of each kind in hand. */
    method DespacharListo()
      modifies this
      ensures Abs() == Despachar(old(Abs()))
    {
      hide Asignar, SinPrimero;
      if !plan.ConAmbos? {
        return;
      }
      if compactando {
        semCpu := semCpu + 1;
        if pol.cmn {
          plan := Reten;
        } else {
          semReady := semReady + 1;
          plan := Frenado;
        }
        return;
      }
      ghost var s := Abs();
      var r := DesencolarPcbReady();
      plan := Espera;
      if r.Algo? {
        AsignarCpu(r.valor);
      } else {
        SinPrimeroIgual(s.l);
      }
    }

    /** The turn of the loop with preemption. */
    method DecidirConDesalojo()
      modifies this
      ensures Abs() == Decidir(old(Abs()))
    {
      hide Asignar, SinPrimero, Victima, Primero;
      if !plan.ConReady? || !(pol.cmn && pol.desalojo) {
        return;
      }
      if compactando {
        semReady, plan := semReady + 1, Pausado;
        return;
      }
      var prox := PcbMasPrioritario();
      if prox.Nada? {
        semReady, plan := semReady + 1, Aparcado;
        return;
      }
      var v := HayCpuDesalojable(Prio(pcbs, prox.valor));
      if semCpu > 0 {
        semCpu := semCpu - 1;
        DespacharPrimero();
      } else if v.Algo? {
        TomarEnMano();
      } else {
        semReady, plan := semReady + 1, Aparcado;
      }
    }

    /** A free CPU is used. */
    method DespacharPrimero()
      requires Primero(colas).Algo?
      modifies this
      ensures Abs() == Asignar(old(Abs()).(l := SinPrimero(old(Abs()).l), plan := Espera), Primero(old(colas)).valor)
    {
      hide Asignar, SinPrimero, Primero;
      var r := DesencolarPcbReady();
      plan := Espera;
      AsignarCpu(r.valor);
    }

    /** The best ready PCB waits in hand for its victim to leave. */
    method TomarEnMano()
      modifies this
      ensures Abs() == old(Abs()).(l := SinPrimero(old(Abs()).l).(mano := Primero(old(colas))), plan := ConMano)
    {
      hide SinPrimero, Primero;
      var r := DesencolarPcbReady();
      mano, plan := r, ConMano;
    }

    /** The victim's CPU is free: it is for the PCB in hand. */
    method DespacharTrasDesalojo()
      modifies this
      ensures Abs() == DespacharMano(old(Abs()))
    {
      hide Asignar;
      if !plan.ConMano? || semCpu <= 0 || mano.Nada? {
        return;
      }
      var p := mano.valor;
      semCpu, mano, plan := semCpu - 1, Nada, Espera;
      AsignarCpu(p);
    }

    /** `sem_wait(&sem_hay_proceso_ready)`, if it does not block. */
    method EsperarReady()
      modifies this
      ensures Abs() == TomarReady(old(Abs()))
    {
      if plan.Espera? && semReady > 0 {
        semReady, plan := semReady - 1, ConReady;
      }
    }

    /** `sem_wait(&sem_hay_cpu_libre)`, if it does not block. */
    method EsperarCpu()
      modifies this
      ensures Abs() == TomarCpu(old(Abs()))
    {
      if plan.ConReady? && !(pol.cmn && pol.desalojo) && semCpu > 0 {
        semCpu, plan := semCpu - 1, ConAmbos;
      }
    }

    /** The CPU case of `aceptar_cliente_scheduler`. */
    method AceptarCpu()
      modifies this
      ensures Abs() == ConectarCpu(old(Abs()))
    {
      exec := exec + [Nada];
      if !compactando {
        LiberarCpuYNotificar();
      }
    }

    /** The end of the connection with a CPU. */
    method PerderCpu(i: nat)
      requires i < |exec|
      modifies this
      ensures Abs() == DesconectarCpu(old(Abs()), i)
    {
      hide Morir;
      var x := exec[i];
      exec := exec[..i] + exec[i + 1..];
      if x.Algo? {
        LiberarDeMutexPorMuerte(x.valor);
      }
    }

    /** `pcb_mas_prioritario` */
    method PcbMasPrioritario() returns (r: Opcion<nat>)
      ensures r == Primero(colas)
    {
      for i := 0 to |colas|
        invariant forall k :: 0 <= k < i ==> colas[k] == []
      {
        if |colas[i]| > 0 {
          NivelNoVacio(colas, i);
          return Algo(colas[i][0]);
        }
      }
      r := Nada;
    }

    // -------------------------------------------------------------- one step of a run

    /** Any step of a run, from a consistent state: the methods above are what the runs are made
        of, so what is proved of the runs holds of the object. */
    method Atender(a: Accion)
      requires Inv(Abs()) && Fichas(Abs()) && Admite(Abs(), a)
      modifies this
      ensures Abs() == Paso(old(Abs()), a) && Inv(Abs()) && Fichas(Abs())
    {
      hide Inv, Fichas, Lock, Unlock, Terminar, PedirIO, TerminarIO, VenceTimer, Recorrer, Desalojar, DesalojarCompactacion,
        Planificador.IniciarCompactacion, FinCompactacion, CrearProceso, CrearMutex, ConectarCpu, DesconectarCpu,
        TomarReady, TomarCpu, Despachar, Decidir, DespacharMano, Senal;
      PasoInv(Abs(), a);
      match a
      case AConectar => AceptarCpu();
      case ADesconectar(i) => PerderCpu(i);
      case ACrear(x, ok) => Crear(x, ok);
      case ADesalojo(p) => DesalojarProceso(p);
      case ACompactacion(p) => DesalojarPorCompactacion(p);
      case AIniciarCompactacion(p) => IniciarCompactacion(p);
      case AFinCompactacion(k) => FinalizarCompactacion(k);
      case ATerminar(p) => TerminarProceso(p);
      case AIO(p, tipo, ok) => Pedir(p, tipo, ok);
      case AFinIO(p, ok) => FinalizarIO(p, ok);
      case ACrearMutex(nombre) => MutexCreate(nombre);
      case ALock(p, nombre) => MutexLock(p, nombre);
      case AUnlock(p, nombre) => MutexUnlock(p, nombre);
      case ATimer(p, token, bytes, ok) => HiloTimerBloqueado(p, token, bytes, ok);
      case ARecorrer(lista, ok) => RecorrerYDesuspender(lista, ok);
      case ATomarReady => EsperarReady();
      case ATomarCpu => EsperarCpu();
      case ADespachar => DespacharListo();
      case ADecidir => DecidirConDesalojo();
      case ADespacharMano => DespacharTrasDesalojo();
      case ASenal => Senalar();
    }
  }

  /** One more CPU is looked at. */
  lemma OcupadasUna(exec: seq<Opcion<nat>>, x: Opcion<nat>)
    ensures Ocupadas(exec + [x]) == Ocupadas(exec) + (if x.Algo? then 1 else 0)
  {
    ExecConcat(exec, [x], 0);
    assert [x][1..] == [];
  }

  /** The flag and the counts do not matter to the eviction. */
  lemma CompactacionAparte(s: Sched, p: nat, n: nat)
    requires CpuCon(s.l.exec, p).Algo? && n == Ocupadas(s.l.exec)
    ensures DesalojarCompactacion(s.(compactando := true, semCpu := 0, abiertas := s.abiertas + [n]), p)
         == Planificador.IniciarCompactacion(s, p)
  {
  }

  // ---------------------------------------------------------------- the first of its kind

  lemma {:induction false} SinLibres(exec: seq<Opcion<nat>>)
    requires forall k :: 0 <= k < |exec| ==> exec[k].Algo?
    ensures CpuLibre(exec).Nada?
  {
    if exec != [] { SinLibres(exec[1..]); }
  }

  lemma {:induction false} MutexPrimero(ms: seq<Mutex>, nombre: string, i: nat)
    requires i < |ms| && ms[i].nombre == nombre && forall k :: 0 <= k < i ==> ms[k].nombre != nombre
    ensures BuscarMutex(ms, nombre) == Algo(i)
  {
    if i > 0 { MutexPrimero(ms[1..], nombre, i - 1); }
  }

  lemma {:induction false} NivelPrimero(colas: seq<seq<nat>>, p: nat, i: nat)
    requires i < |colas| && p in colas[i] && forall k :: 0 <= k < i ==> p !in colas[k]
    ensures NivelDe(colas, p) == Algo(i)
  {
    if i > 0 { NivelPrimero(colas[1..], p, i - 1); }
  }

  lemma {:induction false} QuitarAusente(xs: seq<nat>, p: nat)
    requires p !in xs
    ensures Quitar(xs, p) == xs
  {
    if xs != [] {
      assert xs == [xs[0]] + xs[1..];
      QuitarAusente(xs[1..], p);
    }
  }

  lemma {:induction false} InsertarEnLugar(pcbs: map<nat, Pcb>, xs: seq<nat>, p: nat, i: nat)
    requires i <= |xs| && forall k :: 0 <= k < i ==> !(Prio(pcbs, p) < Prio(pcbs, xs[k]))
    requires i < |xs| ==> Prio(pcbs, p) < Prio(pcbs, xs[i])
    ensures InsertarPorPrio(pcbs, xs, p) == xs[..i] + [p] + xs[i..]
  {
    if i > 0 {
      InsertarEnLugar(pcbs, xs[1..], p, i - 1);
      assert xs[..i] + [p] + xs[i..] == [xs[0]] + (xs[1..][..i - 1] + [p] + xs[1..][i - 1..]);
    } else if xs != [] {
      assert xs[..0] + [p] + xs[0..] == [p] + xs;
    }
  }

  lemma SinPrimeroIgual(l: Lugares)
    requires Primero(l.colas).Nada?
    ensures SinPrimero(l) == l
  {
  }

  lemma HeredarMismos(s: Sched, d: nat, i: nat)
    requires i < |s.mutexes|
    ensures HeredarEn(s, d, i).mutexes == s.mutexes
    ensures HeredarOtros(s, d, i) == HeredarOtros(HeredarEn(s, d, i), d, i + 1)
  {
  }

  lemma LiberarMismos(s: Sched, p: nat, i: nat)
    requires i < |s.mutexes|
    ensures LiberarMutexes(s, p, i) == LiberarMutexes(LiberarUno(s, p, i), p, i + 1)
  {
  }
}
