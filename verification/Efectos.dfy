/** What each handler leaves in the lists and in the two semaphores: at which end of which queue a
    process becomes ready, which CPU is vacated, which token is posted. */
module Efectos {
  import opened Secuencias
  import opened Procesos
  import opened Planificador
  import opened Conservacion
  import opened Acciones
  import opened Ciclo
  import opened Registro
  import opened Turnos

  /** From queues `x` to queues `y`: `p` is the last of queue `n`, and nothing else changed. */
  ghost predicate AlFinal(x: seq<seq<nat>>, y: seq<seq<nat>>, n: nat, p: nat)
  {
    n < |x| && y == x[n := x[n] + [p]]
  }

  /** `p` is the first of queue `n`, and nothing else changed. */
  ghost predicate AlPrincipio(x: seq<seq<nat>>, y: seq<seq<nat>>, n: nat, p: nat)
  {
    n < |x| && y == x[n := [p] + x[n]]
  }

  /** One more ready token; more only if the planner slept and posts its own again. */
  ghost predicate UnaFicha(s: Sched, t: Sched)
  {
    t.semReady > s.semReady && (!s.plan.Pausado? ==> t.semReady == s.semReady + 1)
  }

  ghost predicate NingunaFicha(s: Sched, t: Sched)
  {
    t.semReady >= s.semReady && (!s.plan.Pausado? ==> t.semReady == s.semReady)
  }

  /** `p` was on a CPU, and that CPU is idle now; the others are as they were. */
  ghost predicate DejaCpu(s: Sched, t: Sched, p: nat)
  {
    Algo(p) !in t.l.exec && exists i :: 0 <= i < |s.l.exec| && s.l.exec[i] == Algo(p) && t.l.exec == s.l.exec[i := Nada]
  }

  /** `ys` is `xs` with `p` after all those that are not worse, and before the first that is. */
  ghost predicate Insertado(pcbs: map<nat, Pcb>, xs: seq<nat>, ys: seq<nat>, p: nat)
  {
    exists k :: 0 <= k <= |xs| && InsertadoEn(pcbs, xs, ys, p, k)
  }

  ghost predicate InsertadoEn(pcbs: map<nat, Pcb>, xs: seq<nat>, ys: seq<nat>, p: nat, k: nat)
    requires k <= |xs|
  {
    && ys == xs[..k] + [p] + xs[k..]
    && (forall j :: 0 <= j < k ==> Prio(pcbs, xs[j]) <= Prio(pcbs, p))
    && (k < |xs| ==> Prio(pcbs, p) < Prio(pcbs, xs[k]))
  }

  lemma {:induction false} InsertarEnSuLugar(pcbs: map<nat, Pcb>, xs: seq<nat>, p: nat)
    ensures Insertado(pcbs, xs, InsertarPorPrio(pcbs, xs, p), p)
  {
    hide Prio, InsertadoEn;
    if xs == [] || Prio(pcbs, p) < Prio(pcbs, xs[0]) {
      InsertarDelante(pcbs, xs, p);
    } else {
      InsertarEnSuLugar(pcbs, xs[1..], p);
      var ys := InsertarPorPrio(pcbs, xs[1..], p);
      var k :| 0 <= k < |xs| && InsertadoEn(pcbs, xs[1..], ys, p, k);
      InsertarDetras(pcbs, xs, ys, p, k);
    }
  }

  lemma InsertarDelante(pcbs: map<nat, Pcb>, xs: seq<nat>, p: nat)
    requires xs != [] ==> Prio(pcbs, p) < Prio(pcbs, xs[0])
    ensures InsertadoEn(pcbs, xs, [p] + xs, p, 0) && InsertadoEn(pcbs, xs, if xs == [] then [p] else [p] + xs, p, 0)
  {
    hide Prio;
    assert [p] + xs == xs[..0] + [p] + xs[0..];
    assert xs == [] ==> [p] == [p] + xs;
  }

  lemma InsertarDetras(pcbs: map<nat, Pcb>, xs: seq<nat>, ys: seq<nat>, p: nat, k: nat)
    requires k < |xs| && Prio(pcbs, xs[0]) <= Prio(pcbs, p) && InsertadoEn(pcbs, xs[1..], ys, p, k)
    ensures InsertadoEn(pcbs, xs, [xs[0]] + ys, p, k + 1)
  {
    hide Prio;
    var r := xs[1..];
    assert xs[..k + 1] == [xs[0]] + r[..k] && xs[k + 1..] == r[k..];
    assert [xs[0]] + ys == xs[..k + 1] + [p] + xs[k + 1..];
    assert forall j :: 0 < j < k + 1 ==> xs[j] == r[j - 1];
  }

  // ---------------------------------------------------------------- small steps

  lemma ListoFinal(s: Sched, p: nat)
    requires Niveles(s) && p in s.pcbs
    ensures AlFinal(s.l.colas, ConReadyMas(Listo(s, p)).l.colas, Nivel(s, p), p) && UnaFicha(s, ConReadyMas(Listo(s, p)))
    ensures AlFinal(s.l.colas, ListoConAviso(s, p).l.colas, Nivel(s, p), p)
    ensures UnaFicha(s, ListoConAviso(s, p)) && ListoConAviso(s, p).semCpu == s.semCpu
  {
    hide EnSuNivel;
    NivelVale(s, p);
    SenalFicha(ConReadyMas(Listo(s, p)));
  }

  /** A signal posts no token, except that of a planner asleep during a compaction. */
  lemma SenalFicha(s: Sched)
    ensures NingunaFicha(s, Senal(s)) && NingunaFicha(s, DespertarPlan(s))
    ensures Senal(s).l == s.l && DespertarPlan(s).l == s.l && Senal(s).semCpu == s.semCpu && DespertarPlan(s).semCpu == s.semCpu
    ensures s.plan.Pausado? || !Senal(s).plan.Pausado?
    ensures s.plan.Pausado? || !DespertarPlan(s).plan.Pausado?
  {
  }

  /** What a wait that ended leaves: the process at the end of its queue with its token, or in its
      place among the suspended ones. */
  ghost predicate Despierta(s: Sched, t: Sched, p: nat)
  {
    if TrasEspera(s, p).Ready? then
      AlFinal(s.l.colas, t.l.colas, Nivel(s, p), p) && UnaFicha(s, t) && (p in s.l.block ==> t.l.suspReady == s.l.suspReady)
    else
      t.l.colas == s.l.colas && NingunaFicha(s, t) && Insertado(s.pcbs, s.l.suspReady, t.l.suspReady, p)
  }

  lemma DespertarEfectos(s: Sched, p: nat)
    requires Niveles(s) && p in s.pcbs && (p in s.l.block || p in s.l.suspBlock)
    ensures Despierta(s, Despertar(s, p), p) && Despertar(s, p).semCpu == s.semCpu
  {
    hide ListoConAviso, InsertarPorPrio, Quitar, EnSuNivel, Insertado;
    var b := s.(l := s.l.(block := Quitar(s.l.block, p)));
    ListoFinal(b, p);
    ListoMarco(b, p);
    ListoSusp(b, p);
    var u := s.(l := s.l.(suspBlock := Quitar(s.l.suspBlock, p), suspReady := InsertarPorPrio(s.pcbs, s.l.suspReady, p)));
    InsertarEnSuLugar(s.pcbs, s.l.suspReady, p);
    ListoFinal(u.(l := u.l.(suspReady := Quitar(u.l.suspReady, p))), p);
  }

  lemma ListoSusp(s: Sched, p: nat)
    ensures ListoConAviso(s, p).l == s.l.(colas := ListoConAviso(s, p).l.colas)
  {
    hide Senal;
    SenalIgual(ConReadyMas(Listo(s, p)));
  }

  /** A process that is not in a phase is not in its list. */
  lemma FueraDe(s: Sched, q: nat)
    requires Inv(s)
    ensures !FaseDe(s, q).Exec? ==> Algo(q) !in s.l.exec
    ensures !FaseDe(s, q).Block? ==> q !in s.l.block
    ensures !FaseDe(s, q).SuspBlock? ==> q !in s.l.suspBlock
    ensures !FaseDe(s, q).SuspReady? ==> q !in s.l.suspReady
    ensures !FaseDe(s, q).Ready? ==> !EnAlguna(s.l.colas, q)
    ensures FaseDe(s, q).Block? ==> q in s.l.block
    ensures FaseDe(s, q).SuspBlock? ==> q in s.l.suspBlock
    ensures FaseDe(s, q).SuspReady? ==> q in s.l.suspReady
    ensures FaseDe(s, q).Exec? ==> Algo(q) in s.l.exec
  {
    hide Inv, EnAlguna;
    FaseEsta(s, q);
    if Algo(q) in s.l.exec { FaseUnica(s, q, Exec); }
    if q in s.l.block { FaseUnica(s, q, Block); }
    if q in s.l.suspBlock { FaseUnica(s, q, SuspBlock); }
    if q in s.l.suspReady { FaseUnica(s, q, SuspReady); }
    if EnAlguna(s.l.colas, q) { FaseUnica(s, q, Ready); }
  }

  // ---------------------------------------------------------------- the end of an I/O

  /** An I/O that ends wakes its process up: from the block list to the end of its queue, with its
      token; from the suspended ones likewise if it has no bytes to bring back, and otherwise to
      its place among those that are ready to come back. */
  lemma {:induction false} TerminaIO(s: Sched, p: nat, ok: bool)
    requires Inv(s) && Fichas(s) && Admite(s, AFinIO(p, ok))
    ensures var t := Paso(s, AFinIO(p, ok));
      && p !in t.io && p !in t.l.block && p !in t.l.suspBlock && t.semCpu == s.semCpu
      && (p in s.l.block || (p in s.bytes && s.bytes[p] == 0) ==>
            AlFinal(s.l.colas, t.l.colas, Nivel(s, p), p) && UnaFicha(s, t) && p !in t.l.suspReady)
      && (p !in s.l.block && !(p in s.bytes && s.bytes[p] == 0) ==>
            t.l.colas == s.l.colas && NingunaFicha(s, t) && Insertado(s.pcbs, s.l.suspReady, t.l.suspReady, p))
  {
    hide Vivos, Esperas, Mutexes, Pids, EnSuNivel, Exceso, Falta, PlanOk, TerminarIO, FaseDe, Escrito, AlFinal, Insertado;
    var a := AFinIO(p, ok);
    var t := Paso(s, a);
    FinBase(s, p, s.(io := s.io - {p}));
    EnLista(s.l, p);
    NoEnAire(s, {}, p);
    PasoFase(s, a, p);
    PasoInv(s, a);
    FueraDe(t, p);
    FinIOColas(s, p, ok);
    FinIOEscrito(s, p, ok);
    EscritoIO(s, a, t);
  }

  lemma EscritoIO(s: Sched, a: Accion, t: Sched)
    requires Escrito(s, a, t) && a.AFinIO?
    ensures a.pid !in t.io
  {
    hide PcbsTras, TimersTras, BytesTras, CompactacionesTras;
  }

  lemma FinIOColas(s: Sched, p: nat, ok: bool)
    requires Niveles(s) && p in s.pcbs && (p in s.l.block || p in s.l.suspBlock) && (EsTipo(s, p, Stdin) && p in s.l.block ==> ok)
    ensures Despierta(s, TerminarIO(s, p, ok), p) && TerminarIO(s, p, ok).semCpu == s.semCpu
  {
    hide Despertar, DespertarPlan, EnSuNivel, Quitar, Insertado, EsTipo;
    var u := s.(io := s.io - {p});
    DespertarEfectos(u, p);
    SenalFicha(Despertar(u, p));
    PausaQueda(u, p);
  }

  /** The planner does not go to sleep when it is told. */
  lemma PausaQueda(s: Sched, p: nat)
    ensures Despertar(s, p).plan.Pausado? ==> s.plan.Pausado?
  {
    hide InsertarPorPrio, Quitar, ListoConAviso;
    ListoPausa(s.(l := s.l.(block := Quitar(s.l.block, p))), p);
    var l := s.l.(suspBlock := Quitar(s.l.suspBlock, p), suspReady := InsertarPorPrio(s.pcbs, s.l.suspReady, p));
    ListoPausa(s.(l := l.(suspReady := Quitar(l.suspReady, p))), p);
  }

  lemma ListoPausa(s: Sched, p: nat)
    ensures ListoConAviso(s, p).plan.Pausado? ==> s.plan.Pausado?
  {
    hide Senal, Encolar;
    SenalFicha(ConReadyMas(Listo(s, p)));
  }

  // ---------------------------------------------------------------- leaving a CPU

  lemma DejaSuCpu(s: Sched, t: Sched, p: nat)
    requires Inv(s) && Algo(p) in s.l.exec && t.l.exec == s.l.exec[CpuCon(s.l.exec, p).valor := Nada]
    ensures DejaCpu(s, t, p)
  {
    UnaSola(s, CpuCon(s.l.exec, p).valor, p, t.l.exec);
  }

  /** A quantum that expires or a preemption: off the CPU, which is idle and offered again, and to
      the end of its queue, with its token. */
  lemma {:induction false} FinDeTurno(s: Sched, p: nat)
    requires Inv(s) && Fichas(s) && Algo(p) in s.l.exec
    ensures var t := Paso(s, ADesalojo(p));
      DejaCpu(s, t, p) && AlFinal(s.l.colas, t.l.colas, Nivel(s, p), p) && t.semCpu == s.semCpu + 1 && UnaFicha(s, t)
  {
    hide Vivos, Esperas, Mutexes, Pids, EnSuNivel, Listo, Senal, DejaCpu, AlFinal;
    var i := CpuCon(s.l.exec, p).valor;
    QuienCorre(s, {}, p);
    var t := s.(l := Soltar(s.l, i));
    assert Niveles(t);
    ListoFinal(t, p);
    var u := ConReadyMas(Listo(t, p));
    ListoCampos(t, p);
    SenalFicha(u.(semCpu := u.semCpu + 1));
    DejaSuCpu(s, LiberarCpu(u), p);
  }

  /** An eviction by a compaction: off the CPU, to the head of its queue, with its token; the CPU is
      idle but is not offered, and at the beginning of the compaction neither are the others. */
  lemma {:induction false} DejaParaCompactar(s: Sched, p: nat)
    requires Inv(s) && Fichas(s) && Algo(p) in s.l.exec
    ensures var t := Paso(s, ACompactacion(p));
      DejaCpu(s, t, p) && AlPrincipio(s.l.colas, t.l.colas, Nivel(s, p), p)
      && t.semReady == s.semReady + 1 && t.semCpu == s.semCpu && t.plan == s.plan
    ensures var t := Paso(s, AIniciarCompactacion(p));
      DejaCpu(s, t, p) && AlPrincipio(s.l.colas, t.l.colas, Nivel(s, p), p)
      && t.semReady == s.semReady + 1 && t.semCpu == 0 && t.plan == s.plan && t.compactando
  {
    hide Vivos, Esperas, Mutexes, Pids, EnSuNivel, DejaCpu;
    QuienCorre(s, {}, p);
    NivelVale(s, p);
    DejaSuCpu(s, Paso(s, ACompactacion(p)), p);
    DejaSuCpu(s, Paso(s, AIniciarCompactacion(p)), p);
  }

  /** The end of a process: its PCB is gone and its CPU is offered again. */
  lemma {:induction false} Termina(s: Sched, p: nat)
    requires Inv(s) && Fichas(s) && Algo(p) in s.l.exec
    ensures var t := Paso(s, ATerminar(p));
      DejaCpu(s, t, p) && p !in t.pcbs && t.semCpu == s.semCpu + 1 && |t.l.colas| == |s.l.colas|
  {
    hide Inv, Fichas, FaseDe, DejaCpu, LiberarMutexes, LiberarCpu;
    var a := ATerminar(p);
    var i := CpuCon(s.l.exec, p).valor;
    var u := s.(l := Soltar(s.l, i));
    PasoFase(s, a, p);
    CorreFase(s, p);
    MuertoFuera(Paso(s, a), p);
    LiberarMarco(u, p, 0);
    LiberarCpuIgual(Morir(u, p));
    DejaSuCpu(s, Paso(s, a), p);
    PasoInv(s, a);
    MismosNiveles(s, a);
  }

  lemma MuertoFuera(t: Sched, p: nat)
    ensures FaseDe(t, p).Fuera? <==> p !in t.pcbs
  {
    hide EnAlguna;
  }

  lemma MismosNiveles(s: Sched, a: Accion)
    requires Inv(s) && Fichas(s) && Admite(s, a)
    ensures |Paso(s, a).l.colas| == |s.l.colas|
  {
    hide Vivos, Esperas, Mutexes, Pids, EnSuNivel, Fichas, Paso, Admite, Exceso, Falta, Avisa, Desvio, PlanOk;
    PasoInv(s, a);
    PasoSaldo(s, a);
  }

  /** A request for an I/O: off the CPU, which is offered again, and blocked, with the I/O pending
      and a timer armed with the token of this block. */
  lemma {:induction false} PideIO(s: Sched, p: nat, tipo: TipoIO, ok: bool)
    requires Inv(s) && Fichas(s) && Admite(s, AIO(p, tipo, ok)) && Algo(p) in s.l.exec
    ensures var t := Paso(s, AIO(p, tipo, ok));
      && DejaCpu(s, t, p) && t.l.block == s.l.block + [p] && t.l.colas == s.l.colas && t.semCpu == s.semCpu + 1
      && p in t.io && t.io[p] == tipo && p in s.pcbs && p in t.pcbs
      && t.pcbs[p].token == s.pcbs[p].token + 1 && (p, t.pcbs[p].token) in t.timers
  {
    hide Vivos, Niveles, Esperas, Mutexes, Pids, Senal, DejaCpu;
    QuienCorre(s, {}, p);
    var b := Bloquear(s, p).(io := s.io[p := tipo]);
    SenalIgual(b.(semCpu := b.semCpu + 1));
    SenalFicha(b.(semCpu := b.semCpu + 1));
    DejaSuCpu(s, Paso(s, AIO(p, tipo, ok)), p);
  }

  /** A lock on a mutex somebody has: off the CPU, which is offered again, and blocked; those that
      were ready still are. */
  lemma {:induction false} EsperaSuTurno(s: Sched, p: nat, nombre: string)
    requires Inv(s) && Fichas(s) && Admite(s, ALock(p, nombre)) && Algo(p) in s.l.exec && Tomado(s, nombre)
    ensures var t := Paso(s, ALock(p, nombre));
      && DejaCpu(s, t, p) && t.l.block == s.l.block + [p] && t.semCpu == s.semCpu + 1 && p in s.pcbs && p in t.pcbs
      && t.pcbs[p].token == s.pcbs[p].token + 1 && (p, t.pcbs[p].token) in t.timers
  {
    hide Inv, Fichas, FaseDe, DejaCpu, BuscarMutex, Tomado, EsperarMutex, PcbsTras, IOTras, BytesTras, CompactacionesTras;
    var a := ALock(p, nombre);
    var t := Paso(s, a);
    MutexTomado(s, nombre);
    var m := BuscarMutex(s.mutexes, nombre).valor;
    CorreFase(s, p);
    LockEscrito(s, p, nombre);
    EsperaListas(s, p, m);
    DejaSuCpu(s, t, p);
    PasoInv(s, a);
    PasoFase(s, a, p);
    FueraDe(t, p);
    TokenTras(s, a, t, p);
  }

  lemma MutexTomado(s: Sched, nombre: string)
    requires Inv(s) && Tomado(s, nombre)
    ensures var r := BuscarMutex(s.mutexes, nombre); r.Algo? && s.mutexes[r.valor].contador < 1
  {
    hide Vivos, Niveles, Esperas, Pids, BuscarMutex;
    MutexUnico(s, nombre);
  }

  lemma TokenTras(s: Sched, a: Accion, t: Sched, p: nat)
    requires PcbsTras(s, a, t) && FaseDe(s, p).Exec? && Pasa(s, a, p).Block? && FaseDe(t, p).Block?
    ensures p in s.pcbs && p in t.pcbs && t.pcbs[p].token == s.pcbs[p].token + 1
  {
    hide Pasa, EnAlguna;
    assert SeBloquea(s, a, p);
  }

  lemma EsperaListas(s: Sched, p: nat, m: nat)
    requires m < |s.mutexes| && Algo(p) in s.l.exec
    ensures EsperarMutex(s, p, m).l.block == s.l.block + [p] && EsperarMutex(s, p, m).semCpu == s.semCpu + 1
  {
    hide Bloquear, HeredarDueno, LiberarCpu, DespertarPlan, Ubicado;
    var mx := s.mutexes[m];
    var x := Prio(s.pcbs, p);
    var t := s.(mutexes := s.mutexes[m := mx.(contador := mx.contador - 1, cola := mx.cola + [p])]);
    var u := if Ubicado(s.l, mx.pid) && x < Prio(s.pcbs, mx.pid) then DespertarPlan(HeredarDueno(t, mx.pid, x)) else t;
    HeredarBlock(t, mx.pid, x);
    BloquearSem(u, p);
    LiberarCpuIgual(Bloquear(u, p));
  }

  lemma HeredarBlock(s: Sched, d: nat, x: nat)
    ensures var u := DespertarPlan(HeredarDueno(s, d, x)); u.l.block == s.l.block && u.l.exec == s.l.exec && u.semCpu == s.semCpu
  {
    hide HeredarDueno, Senal;
    HeredarDuenoCampos(s, d, x);
    SenalIgual(HeredarDueno(s, d, x));
  }

  lemma BloquearSem(s: Sched, p: nat)
    ensures Bloquear(s, p).semCpu == s.semCpu
    ensures Algo(p) in s.l.exec ==> Bloquear(s, p).l.block == s.l.block + [p]
  {
  }

  // ---------------------------------------------------------------- arriving

  /** A process that is created: a PCB with its priority, at the end of the queue of that priority,
      with its token; when the memory refuses it or, with several queues, the priority is out of
      range, only the pid is spent. */
  lemma {:induction false} Nace(s: Sched, x: int, ok: bool)
    requires Inv(s)
    ensures var t := Paso(s, ACrear(x, ok));
      if ok && (s.pol.cmn ==> 0 <= x < s.pol.niveles) then
        && s.proximo in t.pcbs && t.pcbs.Keys == s.pcbs.Keys + {s.proximo}
        && AlFinal(s.l.colas, t.l.colas, if s.pol.cmn then x else 0, s.proximo) && t.semReady == s.semReady + 1 && t.plan == s.plan
      else t == s.(proximo := s.proximo + 1)
  {
    hide Vivos, Esperas, Mutexes, EnSuNivel;
  }

  /** A suspension timer: out of the block list, to the end of the suspended ones. */
  lemma {:induction false} Suspendido(s: Sched, p: nat, token: nat, bytes: nat, ok: bool)
    requires Inv(s) && Fichas(s) && Admite(s, ATimer(p, token, bytes, ok))
    requires p in s.l.block && p in s.pcbs && s.pcbs[p].token == token
    ensures var t := Paso(s, ATimer(p, token, bytes, ok));
      && p !in t.l.block && t.l.suspBlock == s.l.suspBlock + [p] && p in t.bytes && t.bytes[p] == bytes && t.pcbs == s.pcbs
      && t.l.colas == s.l.colas && t.l.suspReady == s.l.suspReady && t.l.exec == s.l.exec
  {
    hide Inv, Fichas, FaseDe, Quitar;
    var a := ATimer(p, token, bytes, ok);
    PasoFase(s, a, p);
    PasoInv(s, a);
    BloqueadoFase(s, p);
    FueraDe(Paso(s, a), p);
  }

  /** The memory announces that some processes would fit: the first of them in order comes back, to
      the end of its queue, with its token; when none is waiting, nothing changes. */
  lemma {:induction false} Vuelve(s: Sched, lista: set<nat>, ok: bool, p: nat)
    requires Inv(s) && Fichas(s) && Admite(s, ARecorrer(lista, ok))
    ensures PrimerAnunciado(s.l.suspReady, lista, p) ==>
      var t := Paso(s, ARecorrer(lista, ok)); p !in t.l.suspReady && AlFinal(s.l.colas, t.l.colas, Nivel(s, p), p) && UnaFicha(s, t)
    ensures (forall q :: q in s.l.suspReady ==> q !in lista) ==> Paso(s, ARecorrer(lista, ok)) == s
  {
    hide Vivos, Esperas, Mutexes, Pids, EnSuNivel, Exceso, FaseDe, Quitar, ListoConAviso, AlFinal, PrimerAnunciado, Elegido;
    var a := ARecorrer(lista, ok);
    ElegidoPrimero(s.l.suspReady, lista, p);
    ElegidoEsta(s.l.suspReady, lista);
    if PrimerAnunciado(s.l.suspReady, lista, p) {
      EnLista(s.l, p);
      NoEnAire(s, {}, p);
      PasoFase(s, a, p);
      PasoInv(s, a);
      FueraDe(Paso(s, a), p);
      var t := s.(l := s.l.(suspReady := Quitar(s.l.suspReady, p)));
      ListoFinal(t, p);
    }
  }

  // ---------------------------------------------------------------- hand-offs

  /** An unlock that finds somebody waiting wakes the first of them up, at the priority that it has
      from then on. */
  lemma {:induction false} DespiertaAlSoltar(s: Sched, p: nat, nombre: string, q: nat)
    requires Inv(s) && Fichas(s) && Admite(s, AUnlock(p, nombre)) && EsperaPrimero(s, nombre, q)
    ensures var t := Paso(s, AUnlock(p, nombre));
      && q !in t.l.block && q !in t.l.suspBlock && t.l.exec == s.l.exec && t.semCpu == s.semCpu
      && (q in s.l.block || (q in s.bytes && s.bytes[q] == 0) ==>
            AlFinal(s.l.colas, t.l.colas, Nivel(t, q), q) && UnaFicha(s, t) && q !in t.l.suspReady)
      && (q !in s.l.block && !(q in s.bytes && s.bytes[q] == 0) ==>
            t.l.colas == s.l.colas && NingunaFicha(s, t) && q in t.l.suspReady)
  {
    hide Vivos, Niveles, Esperas, Pids, Exceso, Falta, PlanOk, FaseDe, AlFinal, BuscarMutex, Entregar, Recalcular;
    var a := AUnlock(p, nombre);
    var t := Paso(s, a);
    MutexUnico(s, nombre);
    var m := BuscarMutex(s.mutexes, nombre).valor;
    assert MutexOk(s.pcbs, s.mutexes[m]);
    PasoFase(s, a, q);
    PasoInv(s, a);
    FueraDe(t, q);
    UnlockCpus(s, p, nombre);
    EntregarEfectos(s, m);
    var u := Entregar(s, m);
    EntregarBase(s, m, {});
    RecalcularPaso(u, p);
    OtraPrio(s, u, p, q, m);
  }

  /** The caller runs, so it is not the one that is woken up. */
  lemma OtraPrio(s: Sched, u: Sched, p: nat, q: nat, m: nat)
    requires Inv(s) && m < |s.mutexes| && Algo(p) in s.l.exec && s.mutexes[m].cola != [] && s.mutexes[m].cola[0] == q
    ensures Nivel(Recalcular(u, p), q) == Nivel(u, q)
  {
    hide MinDe;
    var mx := s.mutexes[m];
    PopBase(s, m, {}, s.(mutexes := s.mutexes[m := mx.(pid := q, contador := mx.contador + 1, cola := mx.cola[1..])]));
    QuienCorre(s, {}, p);
  }

  lemma EntregarEfectos(s: Sched, m: nat)
    requires Inv(s) && m < |s.mutexes| && s.mutexes[m].cola != []
    ensures var t := Entregar(s, m);
      var q := s.mutexes[m].cola[0];
      && t.semCpu == s.semCpu
      && if TrasEspera(s, q).Ready? then AlFinal(s.l.colas, t.l.colas, Nivel(t, q), q) && UnaFicha(s, t)
         else t.l.colas == s.l.colas && NingunaFicha(s, t)
  {
    hide Vivos, Esperas, Mutexes, Pids, Despertar, MinCola, EnSuNivel, AlFinal, Insertado;
    var mx := s.mutexes[m];
    var sig := mx.cola[0];
    var x := MinCola(s.pcbs, mx.cola[1..], Prio(s.pcbs, sig));
    var t := s.(mutexes := s.mutexes[m := mx.(pid := sig, contador := mx.contador + 1, cola := mx.cola[1..])]);
    var u := t.(pcbs := ConPrio(s.pcbs, sig, x));
    PopBase(s, m, {}, t);
    MinColaRango(s.pcbs, mx.cola[1..], Prio(s.pcbs, sig));
    PrioEnRango(s, sig);
    NoEnReady(s, {}, sig);
    ConPrioBase(t, sig, x, {}, Algo(sig), Nada);
    DespertarEfectos(u, sig);
    DespertarMarco(u, sig);
  }

  /** `x` is before `y` in a queue. */
  ghost predicate Antes(c: seq<nat>, x: nat, y: nat)
  {
    exists k, l :: 0 <= k < l < |c| && c[k] == x && c[l] == y
  }

  /** Who is ready is in one queue, and nowhere else. */
  lemma UnaCola(t: Sched, x: nat, n: nat, m: nat, aire: set<nat>)
    requires Vivos(t, aire) && n < |t.l.colas| && m < |t.l.colas| && x in t.l.colas[n]
    ensures x in t.l.colas[m] ==> m == n
    ensures x !in t.l.block && x !in t.l.suspBlock && x !in t.l.suspReady
  {
    EnTiene(t.l.block, x);
    EnTiene(t.l.suspBlock, x);
    EnTiene(t.l.suspReady, x);
    EnTiene(t.l.colas[n], x);
    assert Todos(t.l, x) + Si(x in aire) == if x in t.pcbs then 1 else 0;
    ReadyCambia(t.l.colas, n, [], x);
    if m != n && x in t.l.colas[m] {
      EnTiene(t.l.colas[m], x);
      ReadyCambia(t.l.colas[n := []], m, [], x);
    }
  }

  /** After the turn of mutex `i`, whose heir is `x`, the heir `y` of a later one is still blocked. */
  lemma TrasTurnoDe(s: Sched, p: nat, i: nat, b: nat, y: nat, aire: set<nat>)
    requires Base(s, aire, Nada, Nada) && i < b < |s.mutexes| && HeredaMutex(s, p, b, y)
    ensures var u := LiberarUno(s, p, i);
      Base(u, aire, Nada, Nada) && |u.mutexes| == |s.mutexes| && HeredaMutex(u, p, b, y)
      && forall n :: 0 <= n < |u.l.colas| ==> y !in u.l.colas[n]
  {
    hide Vivos, Niveles, Esperas, Mutexes, Pids, LiberarUno, Efecto, ParejoCpu, AvisaMutex;
    LiberarUnoBase(s, p, i, aire);
    var u := LiberarUno(s, p, i);
    var mx := u.mutexes[b];
    PopBase(u, b, aire, u.(mutexes := u.mutexes[b := mx.(pid := y, contador := mx.contador + 1, cola := mx.cola[1..])]));
    NoEnReady(u, aire, y);
  }

  /** The loop over the mutexes of `p`, from `i` on. */
  lemma {:induction false} HerederosEnOrden(s: Sched, p: nat, i: nat, a: nat, b: nat, x: nat, y: nat, n: nat, aire: set<nat>)
    requires Base(s, aire, Nada, Nada) && i <= a < b < |s.mutexes| && HeredaMutex(s, p, a, x) && HeredaMutex(s, p, b, y)
    requires var t := LiberarMutexes(s, p, i); n < |t.l.colas| && x in t.l.colas[n] && y in t.l.colas[n]
    ensures Antes(LiberarMutexes(s, p, i).l.colas[n], x, y)
    decreases |s.mutexes| - i
  {
    hide Base, LiberarUno, HeredaMutex, Antes, Efecto, ParejoCpu, AvisaMutex, Exceso, Falta;
    var u := LiberarUno(s, p, i);
    TrasTurnoDe(s, p, i, b, y, aire);
    if i < a {
      TrasTurnoDe(s, p, i, a, x, aire);
      HerederosEnOrden(u, p, i + 1, a, b, x, y, n, aire);
    } else {
      HerederoAntes(s, p, i, x, y, n, u, aire);
    }
  }

  lemma HerederoAntes(s: Sched, p: nat, i: nat, x: nat, y: nat, n: nat, u: Sched, aire: set<nat>)
    requires Base(s, aire, Nada, Nada) && i < |s.mutexes| && HeredaMutex(s, p, i, x) && u == LiberarUno(s, p, i)
    requires Base(u, aire, Nada, Nada) && |u.mutexes| == |s.mutexes| && forall k :: 0 <= k < |u.l.colas| ==> y !in u.l.colas[k]
    requires var t := LiberarMutexes(u, p, i + 1); n < |t.l.colas| && x in t.l.colas[n] && y in t.l.colas[n]
    ensures Antes(LiberarMutexes(u, p, i + 1).l.colas[n], x, y)
  {
    hide Vivos, Niveles, Esperas, Mutexes, Pids, LiberarUno, LiberarMutexes, HeredaMutex, Efecto, ParejoCpu;
    var t := LiberarMutexes(u, p, i + 1);
    LiberarUnoFase(s, p, i, x, aire);
    LiberarFase(u, p, i + 1, x, aire);
    LiberarCrece(u, p, i + 1);
    TodaBase(u, p, i + 1, aire);
    UnaCola(t, x, n, n, aire);
    if TrasEspera(s, x).Ready? {
      var m :| 0 <= m < |u.l.colas| && x in u.l.colas[m];
      assert u.l.colas[m] <= t.l.colas[m];
      UnaCola(t, x, n, m, aire);
      EnPrefijo(u.l.colas[n], t.l.colas[n], x, y);
    }
  }

  lemma TodaBase(s: Sched, p: nat, i: nat, aire: set<nat>)
    requires Base(s, aire, Nada, Nada) && i <= |s.mutexes|
    ensures Base(LiberarMutexes(s, p, i), aire, Nada, Nada)
    decreases |s.mutexes| - i
  {
    hide Base, LiberarUno, Efecto, ParejoCpu, AvisaMutex;
    if i < |s.mutexes| {
      LiberarUnoBase(s, p, i, aire);
      TodaBase(LiberarUno(s, p, i), p, i + 1, aire);
    }
  }

  lemma EnPrefijo(c: seq<nat>, d: seq<nat>, x: nat, y: nat)
    requires c <= d && x in c && y !in c && y in d
    ensures Antes(d, x, y)
  {
    var k :| 0 <= k < |c| && c[k] == x;
    var r := d[|c|..];
    assert d == c + r;
    var l :| 0 <= l < |r| && r[l] == y;
    assert d[k] == x && d[|c| + l] == y;
  }

  /** When a process dies, those that it was keeping waiting become ready in the order of its
      mutexes: of two heirs in the same queue, the one of the first mutex is before the other. */
  lemma {:induction false} HeredanEnOrden(s: Sched, act: Accion, p: nat, a: nat, b: nat, x: nat, y: nat, n: nat)
    requires Inv(s) && Fichas(s)
    requires (act == ATerminar(p) && Algo(p) in s.l.exec)
      || (act.ADesconectar? && act.cpu < |s.l.exec| && s.l.exec[act.cpu] == Algo(p))
    requires a < b < |s.mutexes| && HeredaMutex(s, p, a, x) && HeredaMutex(s, p, b, y)
    requires var t := Paso(s, act); n < |t.l.colas| && x in t.l.colas[n] && y in t.l.colas[n]
    ensures Antes(Paso(s, act).l.colas[n], x, y)
  {
    hide Base, LiberarMutexes, LiberarCpu, HeredaMutex, Antes, PlanOk, Exceso;
    if act.ATerminar? {
      var i := CpuCon(s.l.exec, p).valor;
      var u := s.(l := Soltar(s.l, i));
      SoltarBase(s, i, p, {}, Nada, Nada);
      assert {} + {p} == {p};
      LiberarCpuIgual(Morir(u, p));
      MismosMutexes(s, u, p, a, b, x, y);
      HerederosEnOrden(u, p, 0, a, b, x, y, n, {p});
    } else {
      var u := s.(l := s.l.(exec := s.l.exec[..act.cpu] + s.l.exec[act.cpu + 1..]));
      SalirBase(s, act.cpu);
      MismosMutexes(s, u, p, a, b, x, y);
      HerederosEnOrden(u, p, 0, a, b, x, y, n, {p});
    }
  }

  lemma MismosMutexes(s: Sched, u: Sched, p: nat, a: nat, b: nat, x: nat, y: nat)
    requires u.mutexes == s.mutexes && a < |s.mutexes| && b < |s.mutexes| && HeredaMutex(s, p, a, x) && HeredaMutex(s, p, b, y)
    ensures HeredaMutex(u, p, a, x) && HeredaMutex(u, p, b, y)
  {
  }
}
