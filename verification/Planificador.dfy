/** The scheduler as a state machine: each case of `atender_cliente`, each timer and each step
    of `planificador` (kernel_scheduler/src/scheduler.c, utils_scheduler.c) is one atomic step. */
module Planificador {
  import opened Secuencias
  import opened Procesos

  /** Scheduling policy: CMN or one queue, preemption, number of queues. */
  datatype Politica = Politica(cmn: bool, desalojo: bool, niveles: nat)

  /** `t_mutex_syscall` as the scheduler keeps it. */
  datatype Mutex = Mutex(nombre: string, pid: nat, contador: int, cola: seq<nat>)

  /** Where the planner thread is: waiting for a ready process; holding the token of one;
      holding a CPU token too; holding a PCB until its victim leaves; asleep because nobody can
      be evicted.  The last three are its sleeps during a compaction: with preemption it has
      given its token back (`Pausado`), with one queue both tokens (`Frenado`), and with several
      queues without preemption the CPU's only (`Reten`). */
  datatype Plan = Espera | ConReady | ConAmbos | ConMano | Aparcado | Pausado | Frenado | Reten

  /** Which of the three devices a process waits for. */
  datatype TipoIO = Sleep | Stdin | Stdout

  /** `compactando` is the flag of that name; `abiertas` has, for each compaction under way, how
      many CPU tokens its end will post (`cpusLiberadas`). */
  datatype Sched = Sched(
    pol: Politica,
    l: Lugares,
    pcbs: map<nat, Pcb>,
    mutexes: seq<Mutex>,
    io: map<nat, TipoIO>,
    bytes: map<nat, nat>,
    timers: set<(nat, nat)>,
    proximo: nat,
    semReady: int,
    semCpu: int,
    plan: Plan,
    compactando: bool,
    abiertas: seq<nat>)

  /** `UINT32_MAX`, the owner of a mutex nobody has. */
  const NADIE: nat := 0xFFFF_FFFF

  // ---------------------------------------------------------------- small steps

  function Prio(pcbs: map<nat, Pcb>, p: nat): nat { if p in pcbs then pcbs[p].prioridad else 0 }

  function Nivel(s: Sched, p: nat): nat { if s.pol.cmn then Prio(s.pcbs, p) else 0 }

  function ConPrio(pcbs: map<nat, Pcb>, p: nat, x: nat): map<nat, Pcb>
  {
    if p in pcbs then pcbs[p := pcbs[p].(prioridad := x)] else pcbs
  }

  /** `encolar_pcb_ready` */
  function Listo(s: Sched, p: nat): Sched
  {
    s.(l := Encolar(s.l, Nivel(s, p), p))
  }

  function ConReadyMas(s: Sched): Sched { s.(semReady := s.semReady + 1) }

  /** `hay_desalojo` matters only under CMN. */
  predicate Expropia(pol: Politica) { pol.cmn && pol.desalojo }

  /** A signal on the planner's condition.  With preemption it was in the loop on `compactando`:
      it either posts its token once more and sleeps again, or goes on without taking it back. */
  function Senal(s: Sched): Sched
  {
    match s.plan
    case Aparcado => s.(plan := Espera)
    case Pausado => if s.compactando then s.(semReady := s.semReady + 1) else s.(plan := ConReady)
    case Frenado => if s.compactando then s else s.(plan := Espera)
    case Reten => s.(plan := ConReady)
    case _ => s
  }

  /** `despertar_planificador` */
  function DespertarPlan(s: Sched): Sched { if Expropia(s.pol) then Senal(s) else s }

  /** `liberar_cpu_y_notificar` */
  function LiberarCpu(s: Sched): Sched { Senal(s.(semCpu := s.semCpu + 1)) }

  /** To ready, with its token, and the planner is told. */
  function ListoConAviso(s: Sched, p: nat): Sched { DespertarPlan(ConReadyMas(Listo(s, p))) }

  /** `bloquear_proceso` and the timer it arms. */
  function Bloquear(s: Sched, p: nat): Sched
  {
    match CpuCon(s.l.exec, p)
    case Nada => s
    case Algo(i) =>
      var t := if p in s.pcbs then s.pcbs[p].token + 1 else 0;
      s.(l := Soltar(s.l, i).(block := s.l.block + [p]),
         pcbs := if p in s.pcbs then s.pcbs[p := s.pcbs[p].(token := t)] else s.pcbs,
         timers := s.timers + {(p, t)})
  }

  /** `list_add_sorted` with `es_mas_prioritario`: before the first that is strictly worse. */
  function InsertarPorPrio(pcbs: map<nat, Pcb>, xs: seq<nat>, p: nat): seq<nat>
  {
    if xs == [] then [p]
    else if Prio(pcbs, p) < Prio(pcbs, xs[0]) then [p] + xs
    else [xs[0]] + InsertarPorPrio(pcbs, xs[1..], p)
  }

  /** `desuspender_proceso`, with the memory's answer. */
  function Desuspender(s: Sched, p: nat, ok: bool): Sched
  {
    var t := s.(l := s.l.(suspReady := Quitar(s.l.suspReady, p)));
    if ok then ListoConAviso(t, p) else t
  }

  /** `pasar_des_susp_block_a_ready`: a process without bytes in swap goes on to ready, the
      memory having nothing to bring back. */
  function PasarASuspReady(s: Sched, p: nat): Sched
  {
    if p !in s.l.suspBlock then s
    else
      var t := s.(l := s.l.(suspBlock := Quitar(s.l.suspBlock, p),
                            suspReady := InsertarPorPrio(s.pcbs, s.l.suspReady, p)));
      if p in s.bytes && s.bytes[p] == 0 then Desuspender(t, p, true) else t
  }

  /** What a wait that ended does: from block to ready, or from suspended block on. */
  function Despertar(s: Sched, p: nat): Sched
  {
    if p in s.l.block then ListoConAviso(s.(l := s.l.(block := Quitar(s.l.block, p))), p)
    else PasarASuspReady(s, p)
  }

  // ---------------------------------------------------------------- mutexes

  /** `buscar_mutex` */
  function BuscarMutex(ms: seq<Mutex>, nombre: string): (r: Opcion<nat>)
    ensures r.Algo? ==> r.valor < |ms| && ms[r.valor].nombre == nombre
    ensures r.Nada? <==> forall i :: 0 <= i < |ms| ==> ms[i].nombre != nombre
  {
    if ms == [] then Nada
    else if ms[0].nombre == nombre then Algo(0)
    else match BuscarMutex(ms[1..], nombre)
         case Nada => assert forall i :: 0 < i < |ms| ==> ms[i] == ms[1..][i - 1]; Nada
         case Algo(i) => assert ms[1..][i] == ms[i + 1]; Algo(i + 1)
  }

  /** Best priority among `x` and those of a wait queue. */
  function MinCola(pcbs: map<nat, Pcb>, cola: seq<nat>, x: nat): nat
  {
    if cola == [] then x
    else MinCola(pcbs, cola[1..], if Prio(pcbs, cola[0]) < x then Prio(pcbs, cola[0]) else x)
  }

  /** Best priority among `x` and those of every waiter on a mutex of `p`, from mutex `i` on. */
  function MinDe(pcbs: map<nat, Pcb>, ms: seq<Mutex>, p: nat, i: nat, x: nat): nat
    requires i <= |ms|
    decreases |ms| - i
  {
    if i == |ms| then x
    else MinDe(pcbs, ms, p, i + 1, if ms[i].pid == p then MinCola(pcbs, ms[i].cola, x) else x)
  }

  /** `buscar_pcb_por_pid` finds every PCB but the one in the planner's hand. */
  predicate Ubicado(l: Lugares, p: nat)
  {
    Algo(p) in l.exec || NivelDe(l.colas, p).Algo? || p in l.block || p in l.suspBlock || p in l.suspReady
  }

  /** The hand-off: the first in the queue becomes the owner, inherits from those behind it and
      wakes up. */
  function Entregar(s: Sched, m: nat): Sched
    requires m < |s.mutexes| && s.mutexes[m].cola != []
  {
    var mx := s.mutexes[m];
    var sig := mx.cola[0];
    var resto := mx.cola[1..];
    var x := MinCola(s.pcbs, resto, Prio(s.pcbs, sig));
    Despertar(s.(mutexes := s.mutexes[m := mx.(pid := sig, contador := mx.contador + 1, cola := resto)],
                 pcbs := ConPrio(s.pcbs, sig, x)), sig)
  }

  /** With several queues, a PCB that inherits is taken out of the one it is in. */
  predicate EnCola(s: Sched, p: nat)
  {
    s.pol.cmn && Algo(p) !in s.l.exec && NivelDe(s.l.colas, p).Algo?
  }

  /** Inheritance by a process in any place: a ready one changes queue. */
  function Heredar(s: Sched, p: nat, x: nat): Sched
  {
    if EnCola(s, p) then
      Listo(s.(l := Extraer(s.l, p), pcbs := ConPrio(s.pcbs, p, x)), p)
    else s.(pcbs := ConPrio(s.pcbs, p, x))
  }

  /** One turn of the loop that passes the inherited priority of `d` on to whoever owns the
      mutex that `d` waits for. */
  function HeredarEn(s: Sched, d: nat, i: nat): Sched
    requires i < |s.mutexes|
  {
    var u := s.mutexes[i];
    if u.pid == d || u.cola == [] || !Ubicado(s.l, u.pid) then s
    else if d in u.cola && Prio(s.pcbs, d) < Prio(s.pcbs, u.pid) then Heredar(s, u.pid, Prio(s.pcbs, d))
    else s
  }

  function HeredarOtros(s: Sched, d: nat, i: nat): Sched
    requires i <= |s.mutexes|
    decreases |s.mutexes| - i
  {
    if i == |s.mutexes| then s else HeredarOtros(HeredarEn(s, d, i), d, i + 1)
  }

  /** The owner `d` inherits `x`; if it was ready it leaves its queue first and goes back last. */
  function HeredarDueno(s: Sched, d: nat, x: nat): Sched
  {
    if EnCola(s, d) then
      Listo(HeredarOtros(s.(l := Extraer(s.l, d), pcbs := ConPrio(s.pcbs, d, x)), d, 0), d)
    else HeredarOtros(s.(pcbs := ConPrio(s.pcbs, d, x)), d, 0)
  }

  /** MUTEX_LOCK by `p` on a mutex somebody has: wait, inherit, block. */
  function EsperarMutex(s: Sched, p: nat, m: nat): Sched
    requires m < |s.mutexes|
  {
    var mx := s.mutexes[m];
    var x := Prio(s.pcbs, p);
    var t := s.(mutexes := s.mutexes[m := mx.(contador := mx.contador - 1, cola := mx.cola + [p])]);
    var u := if Ubicado(s.l, mx.pid) && x < Prio(s.pcbs, mx.pid) then DespertarPlan(HeredarDueno(t, mx.pid, x)) else t;
    LiberarCpu(Bloquear(u, p))
  }

  function TomarMutex(s: Sched, p: nat, m: nat): Sched
    requires m < |s.mutexes|
  {
    s.(mutexes := s.mutexes[m := s.mutexes[m].(contador := s.mutexes[m].contador - 1, pid := p)])
  }

  /** MUTEX_LOCK */
  function Lock(s: Sched, p: nat, nombre: string): Sched
  {
    match BuscarMutex(s.mutexes, nombre)
    case Nada => s
    case Algo(m) =>
      if CpuCon(s.l.exec, p).Nada? then s
      else if s.mutexes[m].contador < 1 then EsperarMutex(s, p, m)
      else TomarMutex(s, p, m)
  }

  /** The second half of MUTEX_UNLOCK: the priority that the caller keeps. */
  function Recalcular(s: Sched, p: nat): Sched
  {
    if CpuCon(s.l.exec, p).Nada? || p !in s.pcbs then s
    else s.(pcbs := ConPrio(s.pcbs, p, MinDe(s.pcbs, s.mutexes, p, 0, s.pcbs[p].original)))
  }

  /** MUTEX_UNLOCK */
  function Unlock(s: Sched, p: nat, nombre: string): Sched
  {
    match BuscarMutex(s.mutexes, nombre)
    case Nada => s
    case Algo(m) =>
      var mx := s.mutexes[m];
      var t := if mx.contador + 1 == 1 || mx.cola == [] then s.(mutexes := s.mutexes[m := mx.(contador := mx.contador + 1)])
               else Entregar(s, m);
      Recalcular(t, p)
  }

  /** `liberar_de_mutex_por_muerte`, from mutex `i` on. */
  function LiberarMutexes(s: Sched, p: nat, i: nat): Sched
    requires i <= |s.mutexes|
    decreases |s.mutexes| - i
  {
    if i == |s.mutexes| then s
    else LiberarMutexes(LiberarUno(s, p, i), p, i + 1)
  }

  function LiberarUno(s: Sched, p: nat, i: nat): (t: Sched)
    requires i < |s.mutexes|
    ensures |t.mutexes| == |s.mutexes|
  {
    var mx := s.mutexes[i];
    if mx.pid != p || mx.contador >= 1 then s
    else if mx.cola == [] then s.(mutexes := s.mutexes[i := mx.(contador := mx.contador + 1, pid := NADIE)])
    else Entregar(s, i)
  }

  /** The end of a running process: EXIT, SEG_FAULT, Out Of Memory, or its CPU going away. */
  function Morir(s: Sched, p: nat): Sched
  {
    var t := LiberarMutexes(s, p, 0);
    t.(pcbs := t.pcbs - {p})
  }

  /** MUTEX_CREATE */
  function CrearMutex(s: Sched, nombre: string): Sched
  {
    if BuscarMutex(s.mutexes, nombre).Algo? then s
    else s.(mutexes := s.mutexes + [Mutex(nombre, NADIE, 1, [])])
  }

  // ---------------------------------------------------------------- the other handlers

  /** An `int` stored in the `uint32_t` of a PCB. */
  function SinSigno(x: int): nat { if x < 0 then x % 0x1_0000_0000 else x }

  /** `generar_pid` and `crear_proceso`, with the memory's answer; the range of the priority is
      checked under CMN only. */
  function CrearProceso(s: Sched, prioridad: int, ok: bool): Sched
  {
    var p := s.proximo;
    var t := s.(proximo := s.proximo + 1);
    if (s.pol.cmn && !(0 <= prioridad < s.pol.niveles)) || !ok then t
    else ConReadyMas(Listo(t.(pcbs := t.pcbs[p := Pcb(SinSigno(prioridad), SinSigno(prioridad), 0)]), p))
  }

  /** FINALIZAR_POR_QUANTUM and DESALOJO: back to the tail of its queue. */
  function Desalojar(s: Sched, p: nat): Sched
  {
    match CpuCon(s.l.exec, p)
    case Nada => s
    case Algo(i) => LiberarCpu(ConReadyMas(Listo(s.(l := Soltar(s.l, i)), p)))
  }

  /** COMPACTACION: back to the head of its queue; the CPU is not offered again yet. */
  function DesalojarCompactacion(s: Sched, p: nat): Sched
  {
    match CpuCon(s.l.exec, p)
    case Nada => s
    case Algo(i) =>
      var t := s.(l := Soltar(s.l, i));
      ConReadyMas(t.(l := EncolarPrimero(t.l, Nivel(t, p), p)))
  }

  /** EXIT, SEG_FAULT and MEM_ALLOC without memory. */
  function Terminar(s: Sched, p: nat): Sched
  {
    match CpuCon(s.l.exec, p)
    case Nada => s
    case Algo(i) => LiberarCpu(Morir(s.(l := Soltar(s.l, i)), p))
  }

  /** How many CPUs have a process. */
  function Ocupadas(exec: seq<Opcion<nat>>): nat { |exec| - Ociosas(exec) }

  /** MEM_ALLOC by a running process, answered COMPACTACION: the free-CPU tokens are drained,
      its own CPU is vacated and the others are told to; as many tokens will be posted at the end
      as CPUs were busy. */
  function IniciarCompactacion(s: Sched, p: nat): Sched
  {
    if CpuCon(s.l.exec, p).Nada? then s
    else
      DesalojarCompactacion(s, p).(compactando := true, semCpu := 0, abiertas := s.abiertas + [Ocupadas(s.l.exec)])
  }

  /** The end of a compaction, the `k`-th of those under way. */
  function FinCompactacion(s: Sched, k: nat): Sched
    requires k < |s.abiertas|
  {
    var t := s.(compactando := false, semCpu := s.semCpu + s.abiertas[k], abiertas := s.abiertas[..k] + s.abiertas[k + 1..]);
    if s.abiertas[k] > 0 then Senal(t) else DespertarPlan(t)
  }

  /** SLEEP, STDIN and STDOUT; a STDOUT that the memory does not let read is not queued, and its
      process stays blocked. */
  function PedirIO(s: Sched, p: nat, tipo: TipoIO, ok: bool): Sched
  {
    if CpuCon(s.l.exec, p).Nada? then s
    else
      var t := Bloquear(s, p);
      LiberarCpu(if tipo.Stdout? && !ok then t else t.(io := t.io[p := tipo]))
  }

  predicate EsTipo(s: Sched, p: nat, tipo: TipoIO) { p in s.io && s.io[p] == tipo }

  /** FINALIZAR_SLEEP, FINALIZAR_STDOUT and FINALIZAR_STDIN, the latter with the memory's answer.
      Only the first tells the planner about a process that was suspended. */
  function TerminarIO(s: Sched, p: nat, ok: bool): Sched
  {
    var t := s.(io := s.io - {p});
    if EsTipo(s, p, Stdin) && !ok && p in s.l.block then t.(l := t.l.(block := Quitar(t.l.block, p)))
    else if EsTipo(s, p, Sleep) && p !in s.l.block then DespertarPlan(Despertar(t, p))
    else Despertar(t, p)
  }

  /** A block timer: it acts only on the block it was armed for. */
  predicate Vence(s: Sched, p: nat, token: nat)
  {
    p in s.l.block && p in s.pcbs && s.pcbs[p].token == token
  }

  /** `suspender_proceso`, with the memory's answer: when refused, the PCB is freed and listed
      all the same. */
  function ListarSuspendido(s: Sched, p: nat, bytes: nat, ok: bool): Sched
  {
    s.(l := s.l.(suspBlock := s.l.suspBlock + [p]), bytes := s.bytes[p := bytes], pcbs := if ok then s.pcbs else s.pcbs - {p})
  }

  /** `hilo_timer_bloqueado` */
  function VenceTimer(s: Sched, p: nat, token: nat, bytes: nat, ok: bool): Sched
  {
    var t := s.(timers := s.timers - {(p, token)});
    if Vence(s, p, token) then ListarSuspendido(t.(l := t.l.(block := Quitar(t.l.block, p))), p, bytes, ok) else t
  }

  /** `recorrer_y_desuspender`: the first in order that the memory listed. */
  function Elegido(xs: seq<nat>, lista: set<nat>): Opcion<nat>
  {
    if xs == [] then Nada else if xs[0] in lista then Algo(xs[0]) else Elegido(xs[1..], lista)
  }

  function Recorrer(s: Sched, lista: set<nat>, ok: bool): Sched
  {
    match Elegido(s.l.suspReady, lista)
    case Nada => s
    case Algo(p) => Desuspender(s, p, ok)
  }

  /** A CPU arrives; during a compaction its token is not posted. */
  function ConectarCpu(s: Sched): Sched
  {
    var t := s.(l := s.l.(exec := s.l.exec + [Nada]));
    if s.compactando then t else LiberarCpu(t)
  }

  function DesconectarCpu(s: Sched, i: nat): Sched
    requires i < |s.l.exec|
  {
    var t := s.(l := s.l.(exec := s.l.exec[..i] + s.l.exec[i + 1..]));
    match s.l.exec[i] case Nada => t case Algo(p) => Morir(t, p)
  }

  // ---------------------------------------------------------------- the planner

  /** `desencolar_pcb_ready`: the oldest of the best non-empty level. */
  function Primero(colas: seq<seq<nat>>): Opcion<nat>
  {
    match PrimerNivel(colas) case Nada => Nada case Algo(n) => Algo(colas[n][0])
  }

  function SinPrimero(l: Lugares): Lugares
  {
    match PrimerNivel(l.colas) case Nada => l case Algo(n) => l.(colas := l.colas[n := l.colas[n][1..]])
  }

  /** `hay_cpu_desalojable`: the CPU of the worst running process strictly worse than `x`, the
      first of them, among the first `n` CPUs. */
  function VictimaEn(pcbs: map<nat, Pcb>, exec: seq<Opcion<nat>>, x: nat, n: nat): (r: Opcion<nat>)
    requires n <= |exec|
    ensures r.Algo? ==> r.valor < n && exec[r.valor].Algo?
  {
    if n == 0 then Nada
    else
      var c := VictimaEn(pcbs, exec, x, n - 1);
      var peor := if c.Algo? then Prio(pcbs, exec[c.valor].valor) else x;
      if exec[n - 1].Algo? && Prio(pcbs, exec[n - 1].valor) > peor then Algo(n - 1) else c
  }

  function Victima(s: Sched, x: nat): Opcion<nat>
  {
    VictimaEn(s.pcbs, s.l.exec, x, |s.l.exec|)
  }

  /** `sem_wait(&sem_hay_proceso_ready)` */
  function TomarReady(s: Sched): Sched
  {
    if s.plan.Espera? && s.semReady > 0 then s.(semReady := s.semReady - 1, plan := ConReady) else s
  }

  /** `sem_wait(&sem_hay_cpu_libre)` without preemption. */
  function TomarCpu(s: Sched): Sched
  {
    if s.plan.ConReady? && !Expropia(s.pol) && s.semCpu > 0 then s.(semCpu := s.semCpu - 1, plan := ConAmbos) else s
  }

  /** The head of the queue goes to the first idle CPU; without one it goes back to the tail. */
  function Asignar(s: Sched, p: nat): Sched
  {
    match CpuLibre(s.l.exec)
    case Nada => ConReadyMas(Listo(s, p))
    case Algo(i) => s.(l := s.l.(exec := s.l.exec[i := Algo(p)]))
  }

  /** One turn without preemption; during a compaction the CPU's token goes back, and with one
      queue the other one too, and the planner sleeps. */
  function Despachar(s: Sched): Sched
  {
    if !s.plan.ConAmbos? then s
    else if s.compactando then
      if s.pol.cmn then s.(semCpu := s.semCpu + 1, plan := Reten)
      else s.(semReady := s.semReady + 1, semCpu := s.semCpu + 1, plan := Frenado)
    else match Primero(s.l.colas)
      case Nada => s.(plan := Espera)
      case Algo(p) => Asignar(s.(l := SinPrimero(s.l), plan := Espera), p)
  }

  /** One turn with preemption: sleep during a compaction; use a free CPU, or take the PCB in hand and evict the victim, or
      give the token back and sleep. */
  function Decidir(s: Sched): Sched
  {
    if !s.plan.ConReady? || !Expropia(s.pol) then s
    else if s.compactando then s.(semReady := s.semReady + 1, plan := Pausado)
    else match Primero(s.l.colas)
      case Nada => s.(semReady := s.semReady + 1, plan := Aparcado)
      case Algo(p) =>
        if s.semCpu > 0 then
          Asignar(s.(l := SinPrimero(s.l), semCpu := s.semCpu - 1, plan := Espera), p)
        else if Victima(s, Prio(s.pcbs, p)).Algo? then
          s.(l := SinPrimero(s.l).(mano := Algo(p)), plan := ConMano)
        else s.(semReady := s.semReady + 1, plan := Aparcado)
  }

  /** The victim's CPU arrives. */
  function DespacharMano(s: Sched): Sched
  {
    if !s.plan.ConMano? || s.semCpu <= 0 || s.l.mano.Nada? then s
    else Asignar(s.(l := s.l.(mano := Nada), semCpu := s.semCpu - 1, plan := Espera), s.l.mano.valor)
  }
}
