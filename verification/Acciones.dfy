/** Runs of the scheduler: any interleaving of handlers, timers and planner steps.  What each
    step does to the module's invariant and to the accounting of its two semaphores. */
module Acciones {
  import opened Secuencias
  import opened Procesos
  import opened Planificador
  import opened Conservacion

  datatype Accion =
    | AConectar
    | ADesconectar(cpu: nat)
    | ACrear(prioridad: int, ok: bool)
    | ADesalojo(pid: nat)
    | ACompactacion(pid: nat)
    | AIniciarCompactacion(pid: nat)
    | AFinCompactacion(cual: nat)
    | ATerminar(pid: nat)
    | AIO(pid: nat, tipo: TipoIO, ok: bool)
    | AFinIO(pid: nat, ok: bool)
    | ACrearMutex(nombre: string)
    | ALock(pid: nat, nombre: string)
    | AUnlock(pid: nat, nombre: string)
    | ATimer(pid: nat, token: nat, bytes: nat, ok: bool)
    | ARecorrer(lista: set<nat>, ok: bool)
    | ATomarReady | ATomarCpu | ADespachar | ADecidir | ADespacharMano | ASenal

  /** `p` has the mutex. */
  predicate Tiene(s: Sched, p: nat, m: nat)
    requires m < |s.mutexes|
  {
    s.mutexes[m].contador < 1 && s.mutexes[m].pid == p
  }

  /** What the handlers take for granted: an owner does not lock again, only a running owner
      unlocks, an I/O that ends is one that was asked for, the compaction that ends is under way,
      and the memory does what it is asked. */
  ghost predicate Admite(s: Sched, a: Accion)
  {
    match a
    case ADesconectar(i) => i < |s.l.exec|
    case AFinCompactacion(k) => k < |s.abiertas|
    case AIO(p, tipo, ok) => tipo.Stdout? && Algo(p) in s.l.exec ==> ok
    case AFinIO(p, ok) => p in s.io && (s.io[p] == Stdin && p in s.l.block ==> ok)
    case ATimer(p, token, bytes, ok) => Vence(s, p, token) ==> ok
    case ARecorrer(lista, ok) => Elegido(s.l.suspReady, lista).Algo? ==> ok
    case ALock(p, nombre) => var m := BuscarMutex(s.mutexes, nombre); m.Algo? ==> !Tiene(s, p, m.valor)
    case AUnlock(p, nombre) =>
      var m := BuscarMutex(s.mutexes, nombre); m.Algo? ==> Tiene(s, p, m.valor) && Algo(p) in s.l.exec
    case _ => true
  }

  /** A step of the planner thread, or a wake-up of it that no handler causes. */
  predicate EsPlan(a: Accion)
  {
    a.ATomarReady? || a.ATomarCpu? || a.ADespachar? || a.ADecidir? || a.ADespacharMano? || a.ASenal?
  }

  function PasoPlan(s: Sched, a: Accion): Sched
  {
    match a
    case ATomarReady => TomarReady(s)
    case ATomarCpu => TomarCpu(s)
    case ADespachar => Despachar(s)
    case ADecidir => Decidir(s)
    case ADespacharMano => DespacharMano(s)
    case ASenal => Senal(s)
    case _ => s
  }

  function Paso(s: Sched, a: Accion): Sched
  {
    match a
    case AConectar => ConectarCpu(s)
    case ADesconectar(i) => if i < |s.l.exec| then DesconectarCpu(s, i) else s
    case ACrear(x, ok) => CrearProceso(s, x, ok)
    case ADesalojo(p) => Desalojar(s, p)
    case ACompactacion(p) => DesalojarCompactacion(s, p)
    case AIniciarCompactacion(p) => IniciarCompactacion(s, p)
    case AFinCompactacion(k) => if k < |s.abiertas| then FinCompactacion(s, k) else s
    case ATerminar(p) => Terminar(s, p)
    case AIO(p, tipo, ok) => PedirIO(s, p, tipo, ok)
    case AFinIO(p, ok) => TerminarIO(s, p, ok)
    case ACrearMutex(nombre) => CrearMutex(s, nombre)
    case ALock(p, nombre) => Lock(s, p, nombre)
    case AUnlock(p, nombre) => Unlock(s, p, nombre)
    case ATimer(p, token, bytes, ok) => VenceTimer(s, p, token, bytes, ok)
    case ARecorrer(lista, ok) => Recorrer(s, lista, ok)
    case _ => PasoPlan(s, a)
  }

  // ---------------------------------------------------------------- semaphores

  /** Tokens of `sem_hay_proceso_ready` and of `sem_hay_cpu_libre` that the planner holds. */
  function FichaReady(p: Plan): nat { if p.ConReady? || p.ConAmbos? || p.Reten? then 1 else 0 }

  function FichaCpu(p: Plan): nat { if p.ConAmbos? then 1 else 0 }

  /** How many more tokens than ready PCBs there are, the planner's included. */
  function Exceso(s: Sched): int { s.semReady + FichaReady(s.plan) - Listos(s.l.colas) }

  /** How many more idle CPUs than tokens there are, the planner's included. */
  function Falta(s: Sched): int { Ociosas(s.l.exec) - s.semCpu - FichaCpu(s.plan) }

  /** Where the planner can be under each policy; its hand is full exactly while it waits for
      its victim. */
  ghost predicate PlanOk(s: Sched)
  {
    && s.semReady >= 0 && s.semCpu >= 0
    && (s.plan.ConMano? <==> s.l.mano.Algo?)
    && (if Expropia(s.pol) then !s.plan.ConAmbos? && !s.plan.Reten? && !s.plan.Frenado?
        else !s.plan.Aparcado? && !s.plan.Pausado? && !s.plan.ConMano?)
    && (s.plan.Reten? ==> s.pol.cmn) && (s.plan.Frenado? ==> !s.pol.cmn)
  }

  /** Every ready PCB has its token; without preemption there are no more tokens than that. */
  ghost predicate Fichas(s: Sched)
  {
    PlanOk(s) && Exceso(s) >= 0 && (!Expropia(s.pol) ==> Exceso(s) == 0)
  }

  /** One token per ready PCB. */
  ghost predicate CuentaReady(s: Sched) { Exceso(s) == 0 }

  /** One token per idle CPU. */
  ghost predicate CuentaCpu(s: Sched) { Falta(s) == 0 }

  /** The part of the state that no handler but those of a compaction changes. */
  ghost predicate Fijo(s: Sched, t: Sched)
  {
    t.pol == s.pol && t.l.mano == s.l.mano && t.compactando == s.compactando && t.abiertas == s.abiertas
  }

  /** What a handler does to the ready tokens and to the planner, according to whether it wakes
      the planner up.  The surplus grows exactly if it wakes it from its sleep with preemption. */
  ghost predicate Efecto(s: Sched, t: Sched, aviso: bool)
  {
    && Fijo(s, t) && t.semReady >= s.semReady
    && t.plan == (if aviso then Senal(s).plan else s.plan)
    && (if aviso && s.plan.Pausado? then Exceso(t) > Exceso(s) else Exceso(t) == Exceso(s))
  }

  /** What it does to the CPU tokens: nothing that the CPUs do not match. */
  ghost predicate ParejoCpu(s: Sched, t: Sched)
  {
    Falta(t) == Falta(s) && t.semCpu >= s.semCpu
  }

  /** One thing after the other. */
  lemma EfectoCompone(s: Sched, t: Sched, u: Sched, a: bool, b: bool)
    requires Efecto(s, t, a) && Efecto(t, u, b)
    ensures Efecto(s, u, a || b)
  {
    hide Exceso;
  }

  lemma SenalEfecto(s: Sched)
    ensures Efecto(s, Senal(s), true) && ParejoCpu(s, Senal(s))
    ensures Efecto(s, DespertarPlan(s), Expropia(s.pol)) && ParejoCpu(s, DespertarPlan(s))
  {
    hide Listos, Ociosas;
  }

  /** The CPU's token and the signal, for a CPU that was vacated. */
  lemma LiberarEfecto(s: Sched, t: Sched, a: bool)
    requires Efecto(s, t, a) && Falta(t) == Falta(s) + 1 && t.semCpu >= s.semCpu
    ensures Efecto(s, LiberarCpu(t), true) && ParejoCpu(s, LiberarCpu(t))
  {
    hide Efecto, Falta, Exceso, Senal;
    var u := t.(semCpu := t.semCpu + 1);
    FichaMas(t, u);
    SenalEfecto(u);
    EfectoCompone(s, t, u, a, false);
    EfectoCompone(s, u, Senal(u), a, true);
  }

  lemma FichaMas(t: Sched, u: Sched)
    requires u == t.(semCpu := t.semCpu + 1)
    ensures Efecto(t, u, false) && Falta(u) == Falta(t) - 1
  {
    hide Listos, Ociosas;
  }

  /** Does the end of the wait of `q` wake the planner up? */
  predicate AvisaDespertar(s: Sched, q: nat)
  {
    Expropia(s.pol) && (q in s.l.block || (q in s.l.suspBlock && q in s.bytes && s.bytes[q] == 0))
  }

  /** A PCB in the air becomes ready: its token, and the signal. */
  lemma ListoEfecto(s: Sched, p: nat)
    requires Niveles(s) && EnRango(s, Prio(s.pcbs, p))
    ensures var t := ConReadyMas(Listo(s, p)); Efecto(s, t, false) && ParejoCpu(s, t) && t.l.exec == s.l.exec
    ensures var t := ListoConAviso(s, p); Efecto(s, t, Expropia(s.pol)) && ParejoCpu(s, t) && t.l.exec == s.l.exec
    ensures ListoConAviso(s, p) == s.(l := Listo(s, p).l, semReady := ListoConAviso(s, p).semReady, plan := ListoConAviso(s, p).plan)
  {
    hide Listos, Ociosas, Todos;
    EncolarTodos(s.l, Nivel(s, p), p, p);
    var t := ConReadyMas(Listo(s, p));
    SenalEfecto(t);
    SenalIgual(t);
    hide Efecto;
    EfectoCompone(s, t, DespertarPlan(t), false, Expropia(s.pol));
  }

  /** What waking a process up does. */
  lemma DespertarEfecto(s: Sched, p: nat, aire: set<nat>)
    requires Base(s, aire, Algo(p), Nada) && (p in s.l.block || p in s.l.suspBlock)
    ensures var t := Despertar(s, p);
      && Efecto(s, t, AvisaDespertar(s, p)) && ParejoCpu(s, t) && t.l.exec == s.l.exec
      && t.mutexes == s.mutexes && t.pcbs == s.pcbs && t.bytes == s.bytes
      && (forall q: nat :: q != p ==> (q in t.l.block <==> q in s.l.block) && (q in t.l.suspBlock <==> q in s.l.suspBlock))
  {
    hide Vivos, Esperas, Mutexes, Pids, InsertarPorPrio, Listos, Ociosas, Efecto, Falta, Listo, ListoConAviso, EnRango, Prio;
    EnLista(s.l, p);
    NoEnAire(s, aire, p);
    PrioEnRango(s, p);
    SoloEnUna(s, aire, p);
    forall q: nat | q != p
      ensures (q in Quitar(s.l.block, p) <==> q in s.l.block) && (q in Quitar(s.l.suspBlock, p) <==> q in s.l.suspBlock)
    {
      QuitarOtro(s.l.block, p, q);
      QuitarOtro(s.l.suspBlock, p, q);
    }
    if p in s.l.block {
      var u := s.(l := s.l.(block := Quitar(s.l.block, p)));
      MovidoEfecto(s, u, p);
    } else {
      var l := s.l.(suspBlock := Quitar(s.l.suspBlock, p), suspReady := InsertarPorPrio(s.pcbs, s.l.suspReady, p));
      var u := s.(l := l);
      var v := u.(l := l.(suspReady := Quitar(l.suspReady, p)));
      QuietoEfecto(s, u);
      MovidoEfecto(s, v, p);
    }
  }

  /** A state that differs in the blocked and suspended lists only. */
  ghost predicate Movido(s: Sched, u: Sched)
  {
    u == s.(l := s.l.(block := u.l.block, suspBlock := u.l.suspBlock, suspReady := u.l.suspReady))
  }

  lemma QuietoEfecto(s: Sched, u: Sched)
    requires Movido(s, u)
    ensures Efecto(s, u, false) && ParejoCpu(s, u)
  {
  }

  lemma MovidoEfecto(s: Sched, u: Sched, p: nat)
    requires Movido(s, u) && Niveles(s) && EnRango(s, Prio(s.pcbs, p))
    ensures var t := ListoConAviso(u, p);
      && Efecto(s, t, Expropia(s.pol)) && ParejoCpu(s, t) && t.l.exec == s.l.exec
      && t.l.block == u.l.block && t.l.suspBlock == u.l.suspBlock
      && t.mutexes == s.mutexes && t.pcbs == s.pcbs && t.bytes == s.bytes
  {
    hide Listos, Ociosas, ListoConAviso;
    QuietoEfecto(s, u);
    ListoEfecto(u, p);
    hide Efecto;
    EfectoCompone(s, u, ListoConAviso(u, p), false, Expropia(s.pol));
  }

  /** A process is not blocked and suspended at once. */
  lemma SoloEnUna(s: Sched, aire: set<nat>, p: nat)
    requires Vivos(s, aire)
    ensures p in s.l.block ==> p !in s.l.suspBlock
  {
    EnTiene(s.l.block, p);
    EnTiene(s.l.suspBlock, p);
    assert Todos(s.l, p) + Si(p in aire) == if p in s.pcbs then 1 else 0;
  }

  lemma {:induction false} QuitarOtro(xs: seq<nat>, p: nat, q: nat)
    requires p != q
    ensures q in Quitar(xs, p) <==> q in xs
  {
    QuitarUno(xs, p, q);
    EnTiene(xs, q);
    EnTiene(Quitar(xs, p), q);
  }

  lemma EntregarEfecto(s: Sched, m: nat, aire: set<nat>)
    requires Base(s, aire, Nada, Nada) && m < |s.mutexes| && s.mutexes[m].cola != []
    ensures var t := Entregar(s, m);
      var sig := s.mutexes[m].cola[0];
      && Efecto(s, t, AvisaDespertar(s, sig)) && ParejoCpu(s, t) && t.l.exec == s.l.exec && t.bytes == s.bytes
      && t.pcbs == ConPrio(s.pcbs, sig, MinCola(s.pcbs, s.mutexes[m].cola[1..], Prio(s.pcbs, sig)))
      && t.mutexes == s.mutexes[m := s.mutexes[m].(pid := sig, contador := s.mutexes[m].contador + 1, cola := s.mutexes[m].cola[1..])]
      && (forall q: nat :: q != sig ==> (q in t.l.block <==> q in s.l.block) && (q in t.l.suspBlock <==> q in s.l.suspBlock))
  {
    hide Vivos, Niveles, Esperas, Mutexes, Pids, Despertar, MinCola, Listos, Ociosas;
    var mx := s.mutexes[m];
    var sig := mx.cola[0];
    var x := MinCola(s.pcbs, mx.cola[1..], Prio(s.pcbs, sig));
    var t := s.(mutexes := s.mutexes[m := mx.(pid := sig, contador := mx.contador + 1, cola := mx.cola[1..])]);
    PopBase(s, m, aire, t);
    MinColaRango(s.pcbs, mx.cola[1..], Prio(s.pcbs, sig));
    PrioEnRango(s, sig);
    NoEnReady(s, aire, sig);
    ConPrioBase(t, sig, x, aire, Algo(sig), Nada);
    var u := t.(pcbs := ConPrio(s.pcbs, sig, x));
    assert Efecto(s, u, false);
    DespertarEfecto(u, sig, aire);
    hide Efecto;
    EfectoCompone(s, u, Despertar(u, sig), false, AvisaDespertar(s, sig));
  }

  // ---------------------------------------------------------------- death

  /** Among the first `i` mutexes, the dead process has none. */
  ghost predicate SinMutex(ms: seq<Mutex>, p: nat, i: nat)
    requires i <= |ms|
  {
    forall k :: 0 <= k < i ==> ms[k].contador >= 1 || ms[k].pid != p
  }

  /** Mutex `k` is handed off on the death of `p`, and that wakes the planner up. */
  predicate AvisaMutex(s: Sched, p: nat, k: nat)
    requires k < |s.mutexes|
  {
    s.mutexes[k].pid == p && s.mutexes[k].contador < 1 && s.mutexes[k].cola != [] && AvisaDespertar(s, s.mutexes[k].cola[0])
  }

  /** Does the death of `p` wake the planner up? */
  predicate AvisaMuerte(s: Sched, p: nat, i: nat)
  {
    exists k :: i <= k < |s.mutexes| && AvisaMutex(s, p, k)
  }

  lemma LiberarUnoBase(s: Sched, p: nat, i: nat, aire: set<nat>)
    requires Base(s, aire, Nada, Nada) && i < |s.mutexes|
    ensures var t := LiberarUno(s, p, i);
      && Base(t, aire, Nada, Nada) && Efecto(s, t, AvisaMutex(s, p, i)) && ParejoCpu(s, t) && t.l.exec == s.l.exec
      && t.pcbs.Keys == s.pcbs.Keys
      && t.mutexes == s.mutexes[i := t.mutexes[i]] && (t.mutexes[i].contador >= 1 || t.mutexes[i].pid != p)
      && (forall k :: i < k < |s.mutexes| ==> AvisaMutex(t, p, k) == AvisaMutex(s, p, k))
  {
    hide Vivos, Niveles, Esperas, Pids, Entregar, Listos, Ociosas, AvisaDespertar, AvisaMutex;
    var mx := s.mutexes[i];
    assert MutexOk(s.pcbs, mx);
    if mx.pid == p && mx.contador < 1 {
      if mx.cola == [] {
        SoltarMutexBase(s, i, NADIE, aire);
        SinCola(s, p, i);
      } else {
        EntregarLibera(s, p, i, aire);
      }
    } else {
      SinCola(s, p, i);
    }
  }

  /** Nobody is served. */
  lemma SinCola(s: Sched, p: nat, i: nat)
    requires i < |s.mutexes| && !(s.mutexes[i].pid == p && s.mutexes[i].contador < 1 && s.mutexes[i].cola != [])
    ensures !AvisaMutex(s, p, i)
    ensures forall k :: i < k < |s.mutexes| ==> AvisaMutex(LiberarUno(s, p, i), p, k) == AvisaMutex(s, p, k)
  {
    hide Entregar;
    AvisaIgual(s, LiberarUno(s, p, i), p, i);
  }

  lemma EntregarLibera(s: Sched, p: nat, i: nat, aire: set<nat>)
    requires Base(s, aire, Nada, Nada) && i < |s.mutexes|
    requires var mx := s.mutexes[i]; mx.pid == p && mx.contador < 1 && mx.cola != []
    ensures var t := LiberarUno(s, p, i);
      && Base(t, aire, Nada, Nada) && Efecto(s, t, AvisaMutex(s, p, i)) && ParejoCpu(s, t) && t.l.exec == s.l.exec
      && t.pcbs.Keys == s.pcbs.Keys
      && t.mutexes == s.mutexes[i := t.mutexes[i]] && (t.mutexes[i].contador >= 1 || t.mutexes[i].pid != p)
      && (forall k :: i < k < |s.mutexes| ==> AvisaMutex(t, p, k) == AvisaMutex(s, p, k))
  {
    hide Vivos, Niveles, Esperas, Pids, Entregar, Efecto, ParejoCpu, AvisaDespertar, MinCola;
    var mx := s.mutexes[i];
    assert MutexOk(s.pcbs, mx);
    EntregarBase(s, i, aire);
    EntregarEfecto(s, i, aire);
    assert mx.cola[0] in mx.cola;
    EntregarLejos(s, i, aire, p);
  }

  lemma AvisaIgual(s: Sched, t: Sched, p: nat, i: nat)
    requires i < |s.mutexes| && |t.mutexes| == |s.mutexes| && t.l == s.l && t.bytes == s.bytes && t.pol == s.pol
    requires forall k :: 0 <= k < |s.mutexes| && k != i ==> t.mutexes[k] == s.mutexes[k]
    ensures forall k :: i < k < |s.mutexes| ==> AvisaMutex(t, p, k) == AvisaMutex(s, p, k)
  {
  }

  /** The hand-off of one mutex does not matter to the others. */
  lemma EntregarLejos(s: Sched, i: nat, aire: set<nat>, p: nat)
    requires Base(s, aire, Nada, Nada) && i < |s.mutexes| && s.mutexes[i].cola != []
    ensures forall k :: i < k < |s.mutexes| ==> k < |Entregar(s, i).mutexes| && AvisaMutex(Entregar(s, i), p, k) == AvisaMutex(s, p, k)
  {
    hide Base, Entregar, MinCola, Exceso, Falta, Senal;
    EntregarEfecto(s, i, aire);
    var t := Entregar(s, i);
    var sig := s.mutexes[i].cola[0];
    assert sig in s.mutexes[i].cola;
    forall k | i < k < |s.mutexes| ensures AvisaMutex(t, p, k) == AvisaMutex(s, p, k) {
      UnicaCola(s, aire, i, k, sig);
    }
  }

  lemma {:induction false} LiberarBase(s: Sched, p: nat, i: nat, aire: set<nat>)
    requires Base(s, aire, Nada, Nada) && i <= |s.mutexes| && SinMutex(s.mutexes, p, i)
    ensures var t := LiberarMutexes(s, p, i);
      && Base(t, aire, Nada, Nada) && Efecto(s, t, AvisaMuerte(s, p, i)) && ParejoCpu(s, t) && t.l.exec == s.l.exec
      && t.pcbs.Keys == s.pcbs.Keys && SinMutex(t.mutexes, p, |t.mutexes|)
    decreases |s.mutexes| - i
  {
    hide Base, LiberarUno, Listos, Ociosas, AvisaMutex;
    if i < |s.mutexes| {
      var u := LiberarUno(s, p, i);
      LiberarUnoBase(s, p, i, aire);
      LiberarBase(u, p, i + 1, aire);
      EfectoCompone(s, u, LiberarMutexes(u, p, i + 1), AvisaMutex(s, p, i), AvisaMuerte(u, p, i + 1));
      AvisaSigue(s, u, p, i);
    }
  }

  lemma AvisaSigue(s: Sched, u: Sched, p: nat, i: nat)
    requires i < |s.mutexes| == |u.mutexes| && forall k :: i < k < |s.mutexes| ==> AvisaMutex(u, p, k) == AvisaMutex(s, p, k)
    ensures AvisaMuerte(s, p, i) == (AvisaMutex(s, p, i) || AvisaMuerte(u, p, i + 1))
  {
    hide AvisaMutex;
  }

  lemma MorirBase(s: Sched, p: nat)
    requires Base(s, {p}, Nada, Nada) && p in s.pcbs
    ensures var t := Morir(s, p);
      Inv(t) && Efecto(s, t, AvisaMuerte(s, p, 0)) && ParejoCpu(s, t) && t.l.exec == s.l.exec
  {
    hide Base, Listos, Ociosas, LiberarMutexes;
    LiberarBase(s, p, 0, {p});
    QuitarPcbBase(LiberarMutexes(s, p, 0), p);
  }

  lemma QuitarPcbBase(t: Sched, p: nat)
    requires Base(t, {p}, Nada, Nada) && p in t.pcbs && SinMutex(t.mutexes, p, |t.mutexes|)
    ensures Inv(t.(pcbs := t.pcbs - {p}))
  {
    var u := t.(pcbs := t.pcbs - {p});
    forall q: nat ensures Todos(u.l, q) + Si(q in {}) == if q in u.pcbs then 1 else 0 {
      assert Todos(t.l, q) + Si(q in {p}) == if q in t.pcbs then 1 else 0;
    }
    forall n, k | 0 <= n < |u.l.colas| && 0 <= k < |u.l.colas[n]| && u.pol.cmn ensures Prio(u.pcbs, u.l.colas[n][k]) == n {
      EnSuCola(t.l, n, k);
      NoEnAire(t, {p}, t.l.colas[n][k]);
    }
    forall i | 0 <= i < |u.mutexes| ensures MutexOk(u.pcbs, u.mutexes[i]) {
      assert MutexOk(t.pcbs, t.mutexes[i]);
    }
  }

  lemma EnSuCola(l: Lugares, n: nat, k: nat)
    requires n < |l.colas| && k < |l.colas[n]|
    ensures Todos(l, l.colas[n][k]) > 0
  {
    EnLista(l, l.colas[n][k]);
  }

  // ---------------------------------------------------------------- each handler

  lemma ConectarPaso(s: Sched)
    requires Inv(s)
    ensures Inv(ConectarCpu(s)) && Efecto(s, ConectarCpu(s), !s.compactando)
    ensures Falta(ConectarCpu(s)) == Falta(s) + Si(s.compactando) && ConectarCpu(s).semCpu >= s.semCpu
  {
    var t := s.(l := s.l.(exec := s.l.exec + [Nada]));
    ExecConcat(s.l.exec, [Nada], 0);
    assert Inv(t) by {
      forall q: nat ensures Todos(t.l, q) + Si(q in {}) == if q in t.pcbs then 1 else 0 {
        ExecConcat(s.l.exec, [Nada], q);
        assert Todos(s.l, q) + Si(q in {}) == if q in s.pcbs then 1 else 0;
      }
    }
    assert Efecto(s, t, false);
    LiberarEfecto(s, t, false);
    LiberarBaseIgual(t);
  }

  /** Freeing a CPU does not matter to the places. */
  lemma LiberarBaseIgual(t: Sched)
    requires Inv(t)
    ensures Inv(LiberarCpu(t))
  {
    hide Vivos, Niveles, Esperas, Mutexes, Pids, Senal;
    SenalIgual(t.(semCpu := t.semCpu + 1));
    BaseIgual(t, LiberarCpu(t), {}, Nada, Nada);
  }

  lemma CrearPaso(s: Sched, x: int, ok: bool)
    requires Inv(s)
    ensures Inv(CrearProceso(s, x, ok)) && Efecto(s, CrearProceso(s, x, ok), false) && ParejoCpu(s, CrearProceso(s, x, ok))
  {
    hide Vivos, Esperas, Mutexes, Pids, Listos, Ociosas, Listo;
    var p := s.proximo;
    PidGastado(s);
    if (s.pol.cmn ==> 0 <= x < s.pol.niveles) && ok {
      var t := s.(proximo := p + 1, pcbs := s.pcbs[p := Pcb(SinSigno(x), SinSigno(x), 0)]);
      NuevoBase(s, p, t);
      ListoBase(t, p, {p}, Nada, Nada);
      assert {p} - {p} == {};
      BaseIgual(Listo(t, p), CrearProceso(s, x, ok), {}, Nada, Nada);
      PrioEnRango(t, p);
      ListoEfecto(t, p);
      assert Efecto(s, t, false);
      EfectoCompone(s, t, CrearProceso(s, x, ok), false, false);
    }
  }

  /** A pid that was generated for nothing. */
  lemma PidGastado(s: Sched)
    requires Inv(s)
    ensures Inv(s.(proximo := s.proximo + 1))
  {
  }

  lemma NuevoBase(s: Sched, p: nat, t: Sched)
    requires Inv(s) && p == s.proximo && p in t.pcbs && t.pcbs[p].original == t.pcbs[p].prioridad
    requires t == s.(proximo := p + 1, pcbs := s.pcbs[p := t.pcbs[p]]) && EnRango(s, t.pcbs[p].prioridad)
    ensures Base(t, {p}, Nada, Nada)
  {
    assert p !in s.pcbs;
    forall q: nat ensures Todos(t.l, q) + Si(q in {p}) == if q in t.pcbs then 1 else 0 {
      assert Todos(s.l, q) + Si(q in {}) == if q in s.pcbs then 1 else 0;
    }
    forall n, k | 0 <= n < |t.l.colas| && 0 <= k < |t.l.colas[n]| && t.pol.cmn ensures Prio(t.pcbs, t.l.colas[n][k]) == n {
      EnSuCola(s.l, n, k);
      NoEnAire(s, {}, s.l.colas[n][k]);
    }
    forall i | 0 <= i < |t.mutexes| ensures MutexOk(t.pcbs, t.mutexes[i]) {
      assert MutexOk(s.pcbs, s.mutexes[i]);
    }
  }

  /** A running PCB leaves its CPU: one more idle CPU, and no token yet. */
  lemma SoltarEfecto(s: Sched, i: nat, p: nat)
    requires i < |s.l.exec| && s.l.exec[i] == Algo(p)
    ensures var t := s.(l := Soltar(s.l, i)); Efecto(s, t, false) && Falta(t) == Falta(s) + 1
  {
    hide Listos;
    SoltarTodos(s.l, i, p, p);
  }

  lemma DesalojarPaso(s: Sched, p: nat)
    requires Inv(s)
    ensures Inv(Desalojar(s, p)) && Efecto(s, Desalojar(s, p), Algo(p) in s.l.exec) && ParejoCpu(s, Desalojar(s, p))
  {
    hide Vivos, Esperas, Mutexes, Pids, Listos, Ociosas, Listo, Soltar, LiberarCpu;
    var i := CpuCon(s.l.exec, p);
    if i.Algo? {
      var t := s.(l := Soltar(s.l, i.valor));
      var u := ConReadyMas(Listo(t, p));
      SoltarBase(s, i.valor, p, {}, Nada, Nada);
      ListoBase(t, p, {} + {p}, Nada, Nada);
      Ida({}, p);
      BaseIgual(Listo(t, p), u, {}, Nada, Nada);
      LiberarBaseIgual(u);
      SoltarEfecto(s, i.valor, p);
      PrioEnRango(t, p);
      ListoEfecto(t, p);
      EfectoCompone(s, t, u, false, false);
      LiberarEfecto(s, u, false);
    }
  }

  lemma CompactacionPaso(s: Sched, p: nat)
    requires Inv(s)
    ensures Inv(DesalojarCompactacion(s, p)) && Efecto(s, DesalojarCompactacion(s, p), false)
    ensures Falta(DesalojarCompactacion(s, p)) == Falta(s) + Si(Algo(p) in s.l.exec)
    ensures DesalojarCompactacion(s, p).semCpu == s.semCpu
  {
    hide Vivos, Esperas, Mutexes, Pids, Listos, Ociosas, Todos;
    var i := CpuCon(s.l.exec, p);
    if i.Algo? {
      SoltarBase(s, i.valor, p, {}, Nada, Nada);
      var t := s.(l := Soltar(s.l, i.valor));
      PrimeroBase(t, p, {} + {p}, Nada, Nada);
      Ida({}, p);
      BaseIgual(t.(l := EncolarPrimero(t.l, Nivel(t, p), p)), DesalojarCompactacion(s, p), {}, Nada, Nada);
    }
  }

  lemma IniciarPaso(s: Sched, p: nat)
    requires Inv(s)
    ensures Inv(IniciarCompactacion(s, p))
    ensures var t := IniciarCompactacion(s, p);
      && t.plan == s.plan && t.l.mano == s.l.mano && t.pol == s.pol && Exceso(t) == Exceso(s) && t.semReady >= s.semReady
      && Falta(t) == Falta(s) + (if Algo(p) in s.l.exec then s.semCpu + 1 else 0)
      && (s.semCpu >= 0 ==> t.semCpu >= 0)
  {
    hide Vivos, Niveles, Esperas, Mutexes, Pids, Listos, Ociosas, DesalojarCompactacion;
    CompactacionPaso(s, p);
    if CpuCon(s.l.exec, p).Algo? {
      BaseIgual(DesalojarCompactacion(s, p), IniciarCompactacion(s, p), {}, Nada, Nada);
    }
  }

  lemma FinPaso(s: Sched, k: nat)
    requires Inv(s) && k < |s.abiertas|
    ensures Inv(FinCompactacion(s, k))
    ensures var t := FinCompactacion(s, k);
      && t.l == s.l && t.pol == s.pol && Falta(t) == Falta(s) - s.abiertas[k] && t.semCpu == s.semCpu + s.abiertas[k]
      && t.semReady == s.semReady
      && (if s.abiertas[k] > 0 || Expropia(s.pol) then
            t.plan == Senal(s.(compactando := false)).plan && Exceso(t) == Exceso(s) + Si(s.plan.Pausado?)
          else t.plan == s.plan && Exceso(t) == Exceso(s))
  {
    hide Vivos, Niveles, Esperas, Mutexes, Pids, Listos, Ociosas;
    BaseIgual(s, FinCompactacion(s, k), {}, Nada, Nada);
  }

  lemma TerminarPaso(s: Sched, p: nat)
    requires Inv(s)
    ensures Inv(Terminar(s, p)) && Efecto(s, Terminar(s, p), Algo(p) in s.l.exec) && ParejoCpu(s, Terminar(s, p))
  {
    hide Vivos, Niveles, Esperas, Mutexes, Pids, Listos, Ociosas, Morir, Soltar, LiberarCpu, AvisaMuerte;
    var i := CpuCon(s.l.exec, p);
    if i.Algo? {
      SoltarBase(s, i.valor, p, {}, Nada, Nada);
      SoltarEfecto(s, i.valor, p);
      var t := s.(l := Soltar(s.l, i.valor));
      assert {} + {p} == {p};
      MorirBase(t, p);
      LiberarBaseIgual(Morir(t, p));
      EfectoCompone(s, t, Morir(t, p), false, AvisaMuerte(t, p, 0));
      LiberarEfecto(s, Morir(t, p), AvisaMuerte(t, p, 0));
    }
  }

  /** The PCB of a CPU that leaves is in the air. */
  lemma SalirBase(s: Sched, i: nat)
    requires Inv(s) && i < |s.l.exec|
    ensures var t := s.(l := s.l.(exec := s.l.exec[..i] + s.l.exec[i + 1..]));
      match s.l.exec[i]
      case Nada => Inv(t)
      case Algo(x) => Base(t, {x}, Nada, Nada) && x in s.pcbs
  {
    var t := s.(l := s.l.(exec := s.l.exec[..i] + s.l.exec[i + 1..]));
    var x := s.l.exec[i];
    var aire: set<nat> := if x.Algo? then {x.valor} else {};
    forall q: nat ensures Todos(t.l, q) + Si(q in aire) == if q in t.pcbs then 1 else 0 {
      SinCpu(s.l.exec, i, q);
      assert Todos(s.l, q) + Si(q in {}) == if q in s.pcbs then 1 else 0;
    }
    if x.Algo? {
      SinCpu(s.l.exec, i, x.valor);
      assert Todos(s.l, x.valor) + Si(x.valor in {}) == if x.valor in s.pcbs then 1 else 0;
    }
  }

  /** The planner is told exactly if a hand-off tells it. */
  predicate AvisaSalida(s: Sched, i: nat)
    requires i < |s.l.exec|
  {
    s.l.exec[i].Algo? && AvisaMuerte(s, s.l.exec[i].valor, 0)
  }

  lemma DesconectarPaso(s: Sched, i: nat)
    requires Inv(s) && i < |s.l.exec|
    ensures Inv(DesconectarCpu(s, i)) && Efecto(s, DesconectarCpu(s, i), AvisaSalida(s, i))
    ensures Falta(DesconectarCpu(s, i)) == Falta(s) - Si(s.l.exec[i].Nada?) && DesconectarCpu(s, i).semCpu >= s.semCpu
  {
    hide Base, Morir, Listos;
    var exec := s.l.exec;
    var t := s.(l := s.l.(exec := exec[..i] + exec[i + 1..]));
    SalirBase(s, i);
    SalirCuenta(exec, i);
    assert Efecto(s, t, false);
    if exec[i].Algo? {
      var p := exec[i].valor;
      MorirBase(t, p);
      AvisaMismo(s, t, p);
      EfectoCompone(s, t, Morir(t, p), false, AvisaMuerte(t, p, 0));
    }
  }

  lemma AvisaMismo(s: Sched, t: Sched, p: nat)
    requires t == s.(l := s.l.(exec := t.l.exec))
    ensures AvisaMuerte(t, p, 0) == AvisaMuerte(s, p, 0)
  {
    assert forall k :: 0 <= k < |s.mutexes| ==> AvisaMutex(t, p, k) == AvisaMutex(s, p, k);
  }

  lemma {:induction false} SalirCuenta(exec: seq<Opcion<nat>>, i: nat)
    requires i < |exec|
    ensures Ociosas(exec[..i] + exec[i + 1..]) == Ociosas(exec) - Si(exec[i].Nada?)
  {
    var r := exec[..i] + exec[i + 1..];
    if i == 0 {
      assert r == exec[1..];
    } else {
      SalirCuenta(exec[1..], i - 1);
      assert r[1..] == exec[1..][..i - 1] + exec[1..][i..];
    }
  }

  lemma SinCpu(exec: seq<Opcion<nat>>, i: nat, q: nat)
    requires i < |exec|
    ensures EnExec(exec, q) == EnExec(exec[..i] + exec[i + 1..], q) + Uno(exec[i], q)
  {
    assert exec == exec[..i] + ([exec[i]] + exec[i + 1..]);
    ExecConcat(exec[..i], [exec[i]] + exec[i + 1..], q);
    ExecConcat(exec[..i], exec[i + 1..], q);
    assert ([exec[i]] + exec[i + 1..])[1..] == exec[i + 1..];
  }

  lemma PedirIOPaso(s: Sched, p: nat, tipo: TipoIO)
    requires Inv(s)
    ensures var t := PedirIO(s, p, tipo, true);
      Inv(t) && Efecto(s, t, Algo(p) in s.l.exec) && ParejoCpu(s, t)
  {
    hide Vivos, Niveles, Esperas, Mutexes, Pids, Listos, Ociosas, LiberarCpu, Soltar;
    if CpuCon(s.l.exec, p).Algo? {
      QuienCorre(s, {}, p);
      var u := s.(io := s.io[p := tipo]);
      PedirBase(s, p, tipo, u);
      BloquearBase(u, p);
      var t := Bloquear(u, p);
      assert t == Bloquear(s, p).(io := s.io[p := tipo]);
      LiberarBaseIgual(t);
      PedirEfecto(s, p, tipo, u, t);
    }
  }

  lemma PedirEfecto(s: Sched, p: nat, tipo: TipoIO, u: Sched, t: Sched)
    requires Algo(p) in s.l.exec && u == s.(io := s.io[p := tipo]) && t == Bloquear(u, p)
    ensures Efecto(s, LiberarCpu(t), true) && ParejoCpu(s, LiberarCpu(t))
  {
    hide Listos, Ociosas, LiberarCpu, Bloquear;
    BloquearEfecto(u, p);
    assert Efecto(s, u, false);
    EfectoCompone(s, u, t, false, false);
    LiberarEfecto(s, t, false);
  }

  /** Blocking vacates a CPU and leaves the planner where it was. */
  lemma BloquearEfecto(u: Sched, p: nat)
    requires Algo(p) in u.l.exec
    ensures Efecto(u, Bloquear(u, p), false) && Falta(Bloquear(u, p)) == Falta(u) + 1 && Bloquear(u, p).semCpu == u.semCpu
  {
    hide Listos, Ociosas;
    SoltarEfecto(u, CpuCon(u.l.exec, p).valor, p);
  }

  lemma PedirBase(s: Sched, p: nat, tipo: TipoIO, u: Sched)
    requires Inv(s) && u == s.(io := s.io[p := tipo]) && p !in s.l.block && p !in s.l.suspBlock
    ensures Base(u, {}, Nada, Algo(p))
  {
    EnTiene(s.l.block, p);
    EnTiene(s.l.suspBlock, p);
    forall q: nat ensures En(u.l.block, q) + En(u.l.suspBlock, q) + Uno(Algo(p), q) == EnColas(u.mutexes, q) + Si(q in u.io) + Uno(Nada, q) {
      assert En(s.l.block, q) + En(s.l.suspBlock, q) + Uno(Nada, q) == EnColas(s.mutexes, q) + Si(q in s.io) + Uno(Nada, q);
    }
  }

  /** The process of an I/O that ended is blocked, in memory or suspended, and its wait is over. */
  lemma FinBase(s: Sched, p: nat, u: Sched)
    requires Inv(s) && p in s.io && u == s.(io := s.io - {p})
    ensures Base(u, {}, Algo(p), Nada) && (p in s.l.block || p in s.l.suspBlock)
  {
    EnTiene(s.l.block, p);
    EnTiene(s.l.suspBlock, p);
    assert En(s.l.block, p) + En(s.l.suspBlock, p) + Uno(Nada, p) == EnColas(s.mutexes, p) + Si(p in s.io) + Uno(Nada, p);
    forall q: nat ensures En(u.l.block, q) + En(u.l.suspBlock, q) + Uno(Nada, q) == EnColas(u.mutexes, q) + Si(q in u.io) + Uno(Algo(p), q) {
      assert En(s.l.block, q) + En(s.l.suspBlock, q) + Uno(Nada, q) == EnColas(s.mutexes, q) + Si(q in s.io) + Uno(Nada, q);
    }
  }

  predicate AvisaFinIO(s: Sched, p: nat)
  {
    AvisaDespertar(s, p) || (Expropia(s.pol) && p in s.io && s.io[p] == Sleep)
  }

  lemma TerminarIOPaso(s: Sched, p: nat, ok: bool)
    requires Inv(s) && p in s.io && (EsTipo(s, p, Stdin) && p in s.l.block ==> ok)
    ensures var t := TerminarIO(s, p, ok);
      Inv(t) && Efecto(s, t, AvisaFinIO(s, p)) && ParejoCpu(s, t)
  {
    hide Vivos, Niveles, Esperas, Mutexes, Pids, Listos, Ociosas, Despertar, Senal;
    var u := s.(io := s.io - {p});
    FinBase(s, p, u);
    DespertarBase(u, p, {}, Nada);
    DespertarEfecto(u, p, {});
    var t := Despertar(u, p);
    assert Efecto(s, u, false);
    EfectoCompone(s, u, t, false, AvisaDespertar(u, p));
    SenalEfecto(t);
    SenalIgual(t);
    BaseIgual(t, DespertarPlan(t), {}, Nada, Nada);
    EfectoCompone(s, t, DespertarPlan(t), AvisaDespertar(u, p), Expropia(s.pol));
  }

  lemma CrearMutexPaso(s: Sched, nombre: string)
    requires Inv(s)
    ensures Inv(CrearMutex(s, nombre)) && Efecto(s, CrearMutex(s, nombre), false) && ParejoCpu(s, CrearMutex(s, nombre))
  {
    hide Inv, Exceso, Falta, Senal;
    if BuscarMutex(s.mutexes, nombre).Nada? {
      MutexMasBase(s, nombre);
      MutexMasEfecto(s, nombre);
    } else {
      QuietoEfecto(s, s);
    }
  }

  lemma MutexMasEfecto(s: Sched, nombre: string)
    ensures var t := s.(mutexes := s.mutexes + [Mutex(nombre, NADIE, 1, [])]); Efecto(s, t, false) && ParejoCpu(s, t)
  {
  }

  lemma MutexMasBase(s: Sched, nombre: string)
    requires Inv(s) && BuscarMutex(s.mutexes, nombre).Nada?
    ensures Inv(s.(mutexes := s.mutexes + [Mutex(nombre, NADIE, 1, [])]))
  {
    hide Todos, EnRango;
    var t := s.(mutexes := s.mutexes + [Mutex(nombre, NADIE, 1, [])]);
    forall q: nat ensures EnColas(t.mutexes, q) == EnColas(s.mutexes, q) {
      ColasConcat(s.mutexes, [Mutex(nombre, NADIE, 1, [])], q);
    }
  }

  /** The caller of MUTEX_LOCK has to wait. */
  predicate TieneQueEsperar(s: Sched, p: nat, nombre: string)
  {
    var m := BuscarMutex(s.mutexes, nombre);
    m.Algo? && Algo(p) in s.l.exec && s.mutexes[m.valor].contador < 1
  }

  lemma LockPaso(s: Sched, p: nat, nombre: string)
    requires Inv(s)
    requires var m := BuscarMutex(s.mutexes, nombre); m.Algo? ==> !Tiene(s, p, m.valor)
    ensures Inv(Lock(s, p, nombre)) && Efecto(s, Lock(s, p, nombre), TieneQueEsperar(s, p, nombre)) && ParejoCpu(s, Lock(s, p, nombre))
  {
    hide Inv, Vivos, Niveles, Esperas, EsperarMutex, TomarMutex, Listos, Ociosas;
    var m := BuscarMutex(s.mutexes, nombre);
    if m.Algo? && CpuCon(s.l.exec, p).Algo? {
      LockEn(s, p, m.valor);
    }
  }

  lemma LockEn(s: Sched, p: nat, m: nat)
    requires Inv(s) && m < |s.mutexes| && Algo(p) in s.l.exec && !Tiene(s, p, m)
    ensures var t := if s.mutexes[m].contador < 1 then EsperarMutex(s, p, m) else TomarMutex(s, p, m);
      Inv(t) && Efecto(s, t, s.mutexes[m].contador < 1) && ParejoCpu(s, t)
  {
    hide Vivos, Niveles, Esperas, Listos, Ociosas, EsperarMutex;
    assert MutexOk(s.pcbs, s.mutexes[m]);
    if s.mutexes[m].contador < 1 {
      EsperarMutexBase(s, p, m);
      EsperarEfecto(s, p, m);
    } else {
      QuienCorre(s, {}, p);
      TomarMutexBase(s, p, m);
    }
  }

  lemma {:induction false} HeredarCampos(s: Sched, d: nat, i: nat)
    requires i <= |s.mutexes|
    ensures var t := HeredarOtros(s, d, i);
      t == s.(l := s.l.(colas := t.l.colas), pcbs := t.pcbs)
    decreases |s.mutexes| - i
  {
    if i < |s.mutexes| {
      HeredarCampos(HeredarEn(s, d, i), d, i + 1);
    }
  }

  lemma HeredarDuenoCampos(s: Sched, d: nat, x: nat)
    ensures var t := HeredarDueno(s, d, x);
      t == s.(l := s.l.(colas := t.l.colas), pcbs := t.pcbs)
  {
    hide HeredarOtros;
    HeredarCampos(s.(l := Extraer(s.l, d), pcbs := ConPrio(s.pcbs, d, x)), d, 0);
    HeredarCampos(s.(pcbs := ConPrio(s.pcbs, d, x)), d, 0);
  }

  /** Inheritance moves PCBs among the ready queues; the number of them is the same. */
  lemma HeredarEfecto(t: Sched, d: nat, x: nat, p: nat)
    requires Base(t, {}, Nada, Algo(p)) && EnRango(t, x) && d in t.pcbs
    ensures var u := DespertarPlan(HeredarDueno(t, d, x)); Efecto(t, u, Expropia(t.pol)) && ParejoCpu(t, u) && u.l.exec == t.l.exec
  {
    hide Base, HeredarDueno, Listos, Ociosas;
    HeredarDuenoBase(t, d, x, Algo(p));
    HeredarDuenoCampos(t, d, x);
    var u := HeredarDueno(t, d, x);
    assert Efecto(t, u, false);
    SenalEfecto(u);
    SenalIgual(u);
    EfectoCompone(t, u, DespertarPlan(u), false, Expropia(t.pol));
  }

  lemma EsperarEfecto(s: Sched, p: nat, m: nat)
    requires Inv(s) && m < |s.mutexes| && s.mutexes[m].contador < 1 && s.mutexes[m].pid != p && Algo(p) in s.l.exec
    ensures Efecto(s, EsperarMutex(s, p, m), true) && ParejoCpu(s, EsperarMutex(s, p, m))
  {
    hide Vivos, Niveles, Esperas, Pids, Bloquear, HeredarDueno, Senal, Listos, Ociosas, Ubicado, LiberarCpu, DespertarPlan;
    var mx := s.mutexes[m];
    var x := Prio(s.pcbs, p);
    assert MutexOk(s.pcbs, mx);
    var t := s.(mutexes := s.mutexes[m := mx.(contador := mx.contador - 1, cola := mx.cola + [p])]);
    PushBase(s, p, m, t);
    QuienCorre(s, {}, p);
    PrioEnRango(s, p);
    HeredarEfecto(t, mx.pid, x, p);
    var si := Ubicado(s.l, mx.pid) && x < Prio(s.pcbs, mx.pid);
    var u := if si then DespertarPlan(HeredarDueno(t, mx.pid, x)) else t;
    assert Efecto(s, t, false);
    EfectoCompone(s, t, u, false, si && Expropia(s.pol));
    BloquearEfecto(u, p);
    EfectoCompone(s, u, Bloquear(u, p), si && Expropia(s.pol), false);
    LiberarEfecto(s, Bloquear(u, p), si && Expropia(s.pol));
  }

  /** The value recomputed on unlock is at most the original priority, so it has a queue. */
  lemma {:induction false} MinDeRango(pcbs: map<nat, Pcb>, ms: seq<Mutex>, p: nat, i: nat, x: nat)
    requires i <= |ms|
    ensures MinDe(pcbs, ms, p, i, x) <= x
    decreases |ms| - i
  {
    if i < |ms| {
      MinColaRango(pcbs, ms[i].cola, x);
      MinDeRango(pcbs, ms, p, i + 1, if ms[i].pid == p then MinCola(pcbs, ms[i].cola, x) else x);
    }
  }

  lemma RecalcularPaso(s: Sched, p: nat)
    requires Inv(s)
    ensures Inv(Recalcular(s, p)) && Efecto(s, Recalcular(s, p), false) && ParejoCpu(s, Recalcular(s, p))
    ensures Recalcular(s, p) == s.(pcbs := Recalcular(s, p).pcbs)
  {
    hide Vivos, Esperas, Mutexes, Pids, Listos, Ociosas;
    if CpuCon(s.l.exec, p).Algo? && p in s.pcbs {
      QuienCorre(s, {}, p);
      PrioEnRango(s, p);
      MinDeRango(s.pcbs, s.mutexes, p, 0, s.pcbs[p].original);
      ConPrioBase(s, p, MinDe(s.pcbs, s.mutexes, p, 0, s.pcbs[p].original), {}, Nada, Nada);
    }
  }

  /** The first half of MUTEX_UNLOCK. */
  function Ceder(s: Sched, m: nat): Sched
    requires m < |s.mutexes|
  {
    var mx := s.mutexes[m];
    if mx.contador + 1 == 1 || mx.cola == [] then s.(mutexes := s.mutexes[m := mx.(contador := mx.contador + 1)])
    else Entregar(s, m)
  }

  predicate AvisaCeder(s: Sched, m: nat)
    requires m < |s.mutexes|
  {
    s.mutexes[m].cola != [] && AvisaDespertar(s, s.mutexes[m].cola[0])
  }

  lemma CederPaso(s: Sched, p: nat, m: nat)
    requires Inv(s) && m < |s.mutexes| && Tiene(s, p, m)
    ensures Inv(Ceder(s, m)) && Efecto(s, Ceder(s, m), AvisaCeder(s, m)) && ParejoCpu(s, Ceder(s, m)) && Ceder(s, m).l.exec == s.l.exec
  {
    hide Vivos, Niveles, Esperas, Listos, Ociosas, Entregar;
    assert MutexOk(s.pcbs, s.mutexes[m]);
    if s.mutexes[m].cola == [] {
      SoltarMutexBase(s, m, s.mutexes[m].pid, {});
    } else {
      EntregarBase(s, m, {});
      EntregarEfecto(s, m, {});
    }
  }

  predicate AvisaUnlock(s: Sched, nombre: string)
  {
    var m := BuscarMutex(s.mutexes, nombre); m.Algo? && AvisaCeder(s, m.valor)
  }

  lemma UnlockPaso(s: Sched, p: nat, nombre: string)
    requires Inv(s)
    requires var m := BuscarMutex(s.mutexes, nombre); m.Algo? ==> Tiene(s, p, m.valor)
    ensures var t := Unlock(s, p, nombre); Inv(t) && Efecto(s, t, AvisaUnlock(s, nombre)) && ParejoCpu(s, t)
  {
    hide Inv, Recalcular, Entregar, Listos, Ociosas, AvisaDespertar;
    var m := BuscarMutex(s.mutexes, nombre);
    if m.Algo? {
      CederPaso(s, p, m.valor);
      RecalcularPaso(Ceder(s, m.valor), p);
      EfectoCompone(s, Ceder(s, m.valor), Recalcular(Ceder(s, m.valor), p), AvisaCeder(s, m.valor), false);
    }
  }

  lemma TimerPaso(s: Sched, p: nat, token: nat, bytes: nat)
    requires Inv(s)
    ensures var t := VenceTimer(s, p, token, bytes, true); Inv(t) && Efecto(s, t, false) && ParejoCpu(s, t)
  {
    hide Listos, Ociosas, Senal, EnExec, EnReady, EnColas;
    var t := VenceTimer(s, p, token, bytes, true);
    if Vence(s, p, token) {
      forall q: nat
        ensures Todos(t.l, q) + Si(q in {}) == if q in t.pcbs then 1 else 0
        ensures En(t.l.block, q) + En(t.l.suspBlock, q) + Uno(Nada, q) == EnColas(t.mutexes, q) + Si(q in t.io) + Uno(Nada, q)
      {
        QuitarUno(s.l.block, p, q);
        EnConcat(s.l.suspBlock, [p], q);
        assert Todos(s.l, q) + Si(q in {}) == if q in s.pcbs then 1 else 0;
        assert En(s.l.block, q) + En(s.l.suspBlock, q) + Uno(Nada, q) == EnColas(s.mutexes, q) + Si(q in s.io) + Uno(Nada, q);
      }
    }
  }

  lemma {:induction false} ElegidoEsta(xs: seq<nat>, lista: set<nat>)
    ensures Elegido(xs, lista).Algo? ==> Elegido(xs, lista).valor in xs && Elegido(xs, lista).valor in lista
    ensures Elegido(xs, lista).Nada? ==> forall k :: 0 <= k < |xs| ==> xs[k] !in lista
  {
    if xs != [] {
      ElegidoEsta(xs[1..], lista);
    }
  }

  predicate AvisaRecorrer(s: Sched, lista: set<nat>)
  {
    Expropia(s.pol) && Elegido(s.l.suspReady, lista).Algo?
  }

  lemma RecorrerPaso(s: Sched, lista: set<nat>)
    requires Inv(s)
    ensures var t := Recorrer(s, lista, true); Inv(t) && Efecto(s, t, AvisaRecorrer(s, lista)) && ParejoCpu(s, t)
  {
    hide Vivos, Esperas, Mutexes, Pids, Listos, Ociosas, ListoConAviso;
    ElegidoEsta(s.l.suspReady, lista);
    if Elegido(s.l.suspReady, lista).Algo? {
      var p := Elegido(s.l.suspReady, lista).valor;
      DesuspenderBase(s, p, {}, Nada);
      EnLista(s.l, p);
      NoEnAire(s, {}, p);
      PrioEnRango(s, p);
      MovidoEfecto(s, s.(l := s.l.(suspReady := Quitar(s.l.suspReady, p))), p);
    }
  }

  // ---------------------------------------------------------------- the planner

  /** Without preemption, with a token in hand some PCB is ready. */
  lemma HayListo(s: Sched)
    requires Fichas(s) && !Expropia(s.pol) && FichaReady(s.plan) == 1
    ensures Primero(s.l.colas).Algo?
  {
    ReadyVacio(s.l.colas);
  }

  /** What is in the planner's hand is in the air for the step that dispatches it. */
  lemma ManoBase(s: Sched, p: nat)
    requires Inv(s) && s.l.mano == Algo(p)
    ensures Base(s.(l := s.l.(mano := Nada)), {p}, Nada, Nada) && p in s.pcbs
  {
    var t := s.(l := s.l.(mano := Nada));
    assert Todos(s.l, p) + Si(p in {}) == if p in s.pcbs then 1 else 0;
    forall q: nat ensures Todos(t.l, q) + Si(q in {p}) == if q in t.pcbs then 1 else 0 {
      assert Todos(s.l, q) + Si(q in {}) == if q in s.pcbs then 1 else 0;
    }
  }

  lemma EnManoBase(s: Sched, p: nat)
    requires Base(s, {p}, Nada, Nada) && s.l.mano.Nada?
    ensures Inv(s.(l := s.l.(mano := Algo(p))))
  {
    var t := s.(l := s.l.(mano := Algo(p)));
    forall q: nat ensures Todos(t.l, q) + Si(q in {}) == if q in t.pcbs then 1 else 0 {
      assert Todos(s.l, q) + Si(q in {p}) == if q in s.pcbs then 1 else 0;
    }
  }

  /** A PCB in the air is dispatched, or goes back to the queue with its token. */
  lemma AsignarPaso(s: Sched, p: nat)
    requires Base(s, {p}, Nada, Nada) && p in s.pcbs
    ensures var t := Asignar(s, p);
      && Inv(t) && t.semReady - Listos(t.l.colas) == s.semReady - Listos(s.l.colas) && t.semReady >= s.semReady
      && t.semCpu == s.semCpu && t.plan == s.plan && t.l.mano == s.l.mano && t.pol == s.pol
      && t.compactando == s.compactando && t.abiertas == s.abiertas
      && Ociosas(t.l.exec) == Ociosas(s.l.exec) - Si(CpuLibre(s.l.exec).Algo?)
  {
    hide Vivos, Niveles, Esperas, Mutexes, Pids, Listo, Listos, Ociosas;
    var i := CpuLibre(s.l.exec);
    if i.Algo? {
      OcuparBase(s, i.valor, p);
    } else {
      ListoBase(s, p, {p}, Nada, Nada);
      assert {p} - {p} == {};
      ListoCampos(s, p);
      BaseIgual(Listo(s, p), Asignar(s, p), {}, Nada, Nada);
    }
  }

  lemma ListoCampos(s: Sched, p: nat)
    ensures Listo(s, p) == s.(l := s.l.(colas := Listo(s, p).l.colas))
  {
  }

  /** Does the planner take a CPU token for which there is no idle CPU? */
  predicate EnVano(s: Sched, a: Accion)
  {
    CpuLibre(s.l.exec).Nada? &&
    match a
    case ADespachar => s.plan.ConAmbos? && !s.compactando
    case ADecidir => s.plan.ConReady? && Expropia(s.pol) && !s.compactando && Primero(s.l.colas).Algo? && s.semCpu > 0
    case ADespacharMano => s.plan.ConMano? && s.semCpu > 0
    case _ => false
  }

  /** What a step of the planner keeps. */
  ghost predicate Cuentas(s: Sched, t: Sched, vano: bool)
  {
    && PlanOk(t) && t.pol == s.pol && Exceso(t) == Exceso(s) && Falta(t) == Falta(s) + Si(vano)
    && t.compactando == s.compactando && t.abiertas == s.abiertas
    && (s.plan.Aparcado? ==> t == s)
  }

  lemma DespacharPaso(s: Sched)
    requires Inv(s) && Fichas(s)
    ensures Inv(Despachar(s)) && Cuentas(s, Despachar(s), EnVano(s, ADespachar)) && (Despachar(s).plan.Aparcado? ==> s.plan.Aparcado?)
  {
    hide Vivos, Niveles, Esperas, Mutexes, Pids, Asignar, Listos, Ociosas;
    if s.plan.ConAmbos? {
      HayListo(s);
      var p := Primero(s.l.colas).valor;
      SinPrimeroBase(s, p);
      var t := s.(l := SinPrimero(s.l), plan := Espera);
      BaseIgual(s.(l := SinPrimero(s.l)), t, {p}, Nada, Nada);
      AsignarPaso(t, p);
      if s.compactando {
        BaseIgual(s, Despachar(s), {}, Nada, Nada);
      }
    }
  }

  lemma DecidirPaso(s: Sched)
    requires Inv(s) && Fichas(s)
    ensures Inv(Decidir(s)) && Cuentas(s, Decidir(s), EnVano(s, ADecidir))
  {
    hide Inv, PlanOk, Asignar, Victima, Listos, Ociosas, SinPrimero, Exceso, Falta;
    if s.plan.ConReady? && Expropia(s.pol) {
      DecidirDuerme(s, Aparcado);
      DecidirDuerme(s, Pausado);
      if Primero(s.l.colas).Algo? {
        var p := Primero(s.l.colas).valor;
        if s.semCpu > 0 {
          DecidirAsigna(s, p);
        }
        DecidirEspera(s, p);
      }
    }
  }

  /** The planner gives its token back and goes to sleep. */
  lemma DecidirDuerme(s: Sched, q: Plan)
    requires Inv(s) && Fichas(s) && s.plan.ConReady? && Expropia(s.pol) && q in {Aparcado, Pausado}
    ensures var t := s.(semReady := s.semReady + 1, plan := q); Inv(t) && Cuentas(s, t, false)
  {
    hide Vivos, Niveles, Esperas, Mutexes, Pids, Listos, Ociosas;
    BaseIgual(s, s.(semReady := s.semReady + 1, plan := q), {}, Nada, Nada);
  }

  lemma DecidirAsigna(s: Sched, p: nat)
    requires Inv(s) && Fichas(s) && s.plan.ConReady? && Expropia(s.pol) && Primero(s.l.colas) == Algo(p) && s.semCpu > 0
    ensures var t := Asignar(s.(l := SinPrimero(s.l), semCpu := s.semCpu - 1, plan := Espera), p);
      Inv(t) && Cuentas(s, t, CpuLibre(s.l.exec).Nada?)
  {
    hide Vivos, Niveles, Esperas, Mutexes, Pids, Asignar, Listos, Ociosas;
    SinPrimeroBase(s, p);
    var t := s.(l := SinPrimero(s.l), semCpu := s.semCpu - 1, plan := Espera);
    BaseIgual(s.(l := SinPrimero(s.l)), t, {p}, Nada, Nada);
    AsignarPaso(t, p);
  }

  lemma DecidirEspera(s: Sched, p: nat)
    requires Inv(s) && Fichas(s) && s.plan.ConReady? && Expropia(s.pol) && Primero(s.l.colas) == Algo(p)
    ensures var t := s.(l := SinPrimero(s.l).(mano := Algo(p)), plan := ConMano); Inv(t) && Cuentas(s, t, false)
  {
    hide Vivos, Niveles, Esperas, Mutexes, Pids, Listos, Ociosas;
    SinPrimeroBase(s, p);
    EnManoBase(s.(l := SinPrimero(s.l)), p);
    BaseIgual(s.(l := SinPrimero(s.l).(mano := Algo(p))), s.(l := SinPrimero(s.l).(mano := Algo(p)), plan := ConMano), {}, Nada, Nada);
  }

  lemma DespacharManoPaso(s: Sched)
    requires Inv(s) && Fichas(s)
    ensures Inv(DespacharMano(s)) && Cuentas(s, DespacharMano(s), EnVano(s, ADespacharMano))
    ensures DespacharMano(s).plan.Aparcado? ==> s.plan.Aparcado?
  {
    hide Vivos, Niveles, Esperas, Mutexes, Pids, Asignar, Listos, Ociosas;
    if s.plan.ConMano? && s.semCpu > 0 {
      var p := s.l.mano.valor;
      ManoBase(s, p);
      var t := s.(l := s.l.(mano := Nada), semCpu := s.semCpu - 1, plan := Espera);
      BaseIgual(s.(l := s.l.(mano := Nada)), t, {p}, Nada, Nada);
      AsignarPaso(t, p);
    }
  }

  lemma EsperasPlan(s: Sched)
    requires Inv(s) && Fichas(s)
    ensures Inv(TomarReady(s)) && Cuentas(s, TomarReady(s), false)
    ensures Inv(TomarCpu(s)) && Cuentas(s, TomarCpu(s), false)
    ensures TomarReady(s).plan.Aparcado? || TomarCpu(s).plan.Aparcado? ==> s.plan.Aparcado?
  {
    hide Vivos, Niveles, Esperas, Mutexes, Pids, Listos, Ociosas;
    BaseIgual(s, TomarReady(s), {}, Nada, Nada);
    BaseIgual(s, TomarCpu(s), {}, Nada, Nada);
  }

  lemma SenalPaso(s: Sched)
    requires Inv(s) && Fichas(s)
    ensures Inv(Senal(s)) && Efecto(s, Senal(s), true) && ParejoCpu(s, Senal(s))
  {
    hide Vivos, Niveles, Esperas, Mutexes, Pids, Listos, Ociosas;
    SenalEfecto(s);
    BaseIgual(s, Senal(s), {}, Nada, Nada);
  }

  // ---------------------------------------------------------------- one step

  /** Does the step wake the planner up? */
  predicate Avisa(s: Sched, a: Accion)
  {
    match a
    case AConectar => !s.compactando
    case ADesconectar(i) => i < |s.l.exec| && AvisaSalida(s, i)
    case ADesalojo(p) => Algo(p) in s.l.exec
    case AFinCompactacion(k) => k < |s.abiertas| && (s.abiertas[k] > 0 || Expropia(s.pol))
    case ATerminar(p) => Algo(p) in s.l.exec
    case AIO(p, tipo, ok) => Algo(p) in s.l.exec
    case AFinIO(p, ok) => AvisaFinIO(s, p)
    case ALock(p, nombre) => TieneQueEsperar(s, p, nombre)
    case AUnlock(p, nombre) => AvisaUnlock(s, nombre)
    case ARecorrer(lista, ok) => AvisaRecorrer(s, lista)
    case ASenal => true
    case _ => false
  }

  /** How many idle CPUs the step leaves without their token. */
  function Desvio(s: Sched, a: Accion): int
  {
    match a
    case AConectar => Si(s.compactando)
    case ADesconectar(i) => if i < |s.l.exec| && s.l.exec[i].Nada? then -1 else 0
    case ACompactacion(p) => Si(Algo(p) in s.l.exec)
    case AIniciarCompactacion(p) => if Algo(p) in s.l.exec then s.semCpu + 1 else 0
    case AFinCompactacion(k) => if k < |s.abiertas| then -(s.abiertas[k] as int) else 0
    case _ => Si(EnVano(s, a))
  }

  /** Where a signal finds the planner, and where it leaves it: out of its sleep, unless it slept
      because of a compaction that goes on. */
  function TrasAviso(p: Plan, compactando: bool): Plan
  {
    match p
    case Aparcado => Espera
    case Pausado => if compactando then Pausado else ConReady
    case Frenado => if compactando then Frenado else Espera
    case Reten => ConReady
    case _ => p
  }

  /** What one step does to the two semaphores and, but for its own turns, to the planner. */
  ghost predicate Saldo(s: Sched, a: Accion, t: Sched)
  {
    && PlanOk(t) && t.pol == s.pol
    && (if Avisa(s, a) && s.plan.Pausado? then Exceso(t) > Exceso(s) else Exceso(t) == Exceso(s))
    && Falta(t) == Falta(s) + Desvio(s, a)
    && (a.AIniciarCompactacion? || a.AFinCompactacion? || (t.compactando == s.compactando && t.abiertas == s.abiertas))
    && (s.plan.Aparcado? ==> t.plan == if Avisa(s, a) then Espera else Aparcado)
    && (t.plan.Aparcado? ==> s.plan.Aparcado? || a.ADecidir?)
    && (!EsPlan(a) || a.ASenal? ==> t.plan == if Avisa(s, a) then TrasAviso(s.plan, t.compactando) else s.plan)
  }

  lemma EfectoSaldo(s: Sched, t: Sched, aviso: bool)
    requires PlanOk(s) && Efecto(s, t, aviso) && t.semCpu >= s.semCpu
    ensures PlanOk(t) && (s.plan.Aparcado? ==> t.plan == if aviso then Espera else Aparcado)
    ensures t.plan.Aparcado? ==> s.plan.Aparcado?
    ensures t.plan == if aviso then TrasAviso(s.plan, t.compactando) else s.plan
  {
    hide Exceso;
  }

  lemma CuentasSaldo(s: Sched, a: Accion, t: Sched)
    requires Cuentas(s, t, EnVano(s, a)) && EsPlan(a) && !a.ASenal? && (t.plan.Aparcado? ==> s.plan.Aparcado? || a.ADecidir?)
    ensures Saldo(s, a, t)
  {
    hide PlanOk, Exceso, Falta;
  }

  lemma PlanPaso(s: Sched, a: Accion)
    requires Inv(s) && Fichas(s) && EsPlan(a)
    ensures Inv(PasoPlan(s, a)) && Saldo(s, a, PasoPlan(s, a))
  {
    hide Inv, PlanOk, Exceso, Falta, TomarReady, TomarCpu, Despachar, Decidir, DespacharMano, Senal, CpuLibre;
    match a
    case ATomarReady => EsperasPlan(s); CuentasSaldo(s, a, TomarReady(s));
    case ATomarCpu => EsperasPlan(s); CuentasSaldo(s, a, TomarCpu(s));
    case ADespachar => DespacharPaso(s); CuentasSaldo(s, a, Despachar(s));
    case ADecidir => DecidirPaso(s); CuentasSaldo(s, a, Decidir(s));
    case ADespacharMano => DespacharManoPaso(s); CuentasSaldo(s, a, DespacharMano(s));
    case ASenal => SenalPaso(s); EfectoSaldo(s, Senal(s), true);
  }

  lemma CompactarPasos(s: Sched, a: Accion)
    requires Inv(s) && Fichas(s) && Admite(s, a) && (a.AIniciarCompactacion? || a.AFinCompactacion?)
    ensures Inv(Paso(s, a)) && Saldo(s, a, Paso(s, a))
  {
    hide Inv, Listos, Ociosas, DesalojarCompactacion;
    match a
    case AIniciarCompactacion(p) => IniciarPaso(s, p);
    case AFinCompactacion(k) => FinPaso(s, k);
  }

  /** Conservation, queue levels, waits and mutex counters after any step, and what the step does
      to the tokens. */
  lemma PasoSaldo(s: Sched, a: Accion)
    requires Inv(s) && Fichas(s) && Admite(s, a)
    ensures Inv(Paso(s, a)) && Saldo(s, a, Paso(s, a))
  {
    hide Inv, PlanOk, Exceso, Falta, PasoPlan, Senal, AvisaMuerte, AvisaDespertar, TieneQueEsperar, Morir, Lock, Unlock,
      DesconectarCpu, ConectarCpu, Terminar, TerminarIO, PedirIO, Recorrer, VenceTimer, CrearMutex, CrearProceso, Desalojar,
      DesalojarCompactacion, IniciarCompactacion, FinCompactacion, EsTipo, Elegido, Vence, BuscarMutex;
    match a
    case AIO(p, tipo, ok) => EsperaSaldo(s, a);
    case AFinIO(p, ok) => EsperaSaldo(s, a);
    case ACrearMutex(nombre) => EsperaSaldo(s, a);
    case ALock(p, nombre) => EsperaSaldo(s, a);
    case AUnlock(p, nombre) => EsperaSaldo(s, a);
    case ATimer(p, token, bytes, ok) => EsperaSaldo(s, a);
    case ARecorrer(lista, ok) => EsperaSaldo(s, a);
    case _ => if EsPlan(a) { PlanPaso(s, a); } else { CpuSaldo(s, a); }
  }

  /** The handlers that make a process wait, or end its wait. */
  lemma EsperaSaldo(s: Sched, a: Accion)
    requires Inv(s) && Fichas(s) && Admite(s, a)
    requires a.AIO? || a.AFinIO? || a.ACrearMutex? || a.ALock? || a.AUnlock? || a.ATimer? || a.ARecorrer?
    ensures Inv(Paso(s, a)) && Saldo(s, a, Paso(s, a))
  {
    hide Inv, PlanOk, Exceso, Falta, AvisaDespertar, TieneQueEsperar, Lock, Unlock, TerminarIO, PedirIO, Recorrer, VenceTimer,
      CrearMutex, EsTipo, Elegido, Vence, BuscarMutex, Senal;
    var t := Paso(s, a);
    match a
    case AIO(p, tipo, ok) => IOPaso(s, p, tipo, ok); EfectoSaldo(s, t, Algo(p) in s.l.exec);
    case AFinIO(p, ok) => FinIOPaso(s, p, ok); EfectoSaldo(s, t, AvisaFinIO(s, p));
    case ACrearMutex(nombre) => CrearMutexPaso(s, nombre); EfectoSaldo(s, t, false);
    case ALock(p, nombre) => LockPaso(s, p, nombre); EfectoSaldo(s, t, TieneQueEsperar(s, p, nombre));
    case AUnlock(p, nombre) => UnlockPaso(s, p, nombre); EfectoSaldo(s, t, AvisaUnlock(s, nombre));
    case ATimer(p, token, bytes, ok) => TimerOkPaso(s, p, token, bytes, ok); EfectoSaldo(s, t, false);
    case ARecorrer(lista, ok) => RecorrerOkPaso(s, lista, ok); EfectoSaldo(s, t, AvisaRecorrer(s, lista));
  }

  /** The handlers about CPUs: they come and go, or a process takes or leaves one. */
  lemma CpuSaldo(s: Sched, a: Accion)
    requires Inv(s) && Fichas(s) && Admite(s, a) && !EsPlan(a)
    requires !(a.AIO? || a.AFinIO? || a.ACrearMutex? || a.ALock? || a.AUnlock? || a.ATimer? || a.ARecorrer?)
    ensures Inv(Paso(s, a)) && Saldo(s, a, Paso(s, a))
  {
    hide Inv, PlanOk, Exceso, Falta, Senal, AvisaMuerte, AvisaDespertar, DesconectarCpu, ConectarCpu, Terminar, CrearProceso,
      Desalojar, DesalojarCompactacion, IniciarCompactacion, FinCompactacion;
    var t := Paso(s, a);
    match a
    case AConectar => ConectarPaso(s); EfectoSaldo(s, t, !s.compactando);
    case ADesconectar(i) => DesconectarPaso(s, i); EfectoSaldo(s, t, AvisaSalida(s, i));
    case ACrear(x, ok) => CrearPaso(s, x, ok); EfectoSaldo(s, t, false);
    case ADesalojo(p) => DesalojarPaso(s, p); EfectoSaldo(s, t, Algo(p) in s.l.exec);
    case ACompactacion(p) => CompactacionPaso(s, p); EfectoSaldo(s, t, false);
    case AIniciarCompactacion(p) => CompactarPasos(s, a);
    case AFinCompactacion(k) => CompactarPasos(s, a);
    case ATerminar(p) => TerminarPaso(s, p); EfectoSaldo(s, t, Algo(p) in s.l.exec);
  }

  lemma IOPaso(s: Sched, p: nat, tipo: TipoIO, ok: bool)
    requires Inv(s) && Admite(s, AIO(p, tipo, ok))
    ensures var t := PedirIO(s, p, tipo, ok); Inv(t) && Efecto(s, t, Algo(p) in s.l.exec) && ParejoCpu(s, t)
  {
    hide Inv, Efecto, ParejoCpu, LiberarCpu, Bloquear;
    PedirIOPaso(s, p, tipo);
    assert PedirIO(s, p, tipo, ok) == PedirIO(s, p, tipo, true);
  }

  lemma FinIOPaso(s: Sched, p: nat, ok: bool)
    requires Inv(s) && Admite(s, AFinIO(p, ok))
    ensures var t := TerminarIO(s, p, ok); Inv(t) && Efecto(s, t, AvisaFinIO(s, p)) && ParejoCpu(s, t)
  {
    hide Inv, Efecto, ParejoCpu, TerminarIO;
    TerminarIOPaso(s, p, ok);
  }

  lemma TimerOkPaso(s: Sched, p: nat, token: nat, bytes: nat, ok: bool)
    requires Inv(s) && Admite(s, ATimer(p, token, bytes, ok))
    ensures var t := VenceTimer(s, p, token, bytes, ok); Inv(t) && Efecto(s, t, false) && ParejoCpu(s, t)
  {
    hide Inv, Efecto, ParejoCpu, Vence;
    TimerPaso(s, p, token, bytes);
    assert VenceTimer(s, p, token, bytes, ok) == VenceTimer(s, p, token, bytes, true);
  }

  lemma RecorrerOkPaso(s: Sched, lista: set<nat>, ok: bool)
    requires Inv(s) && Admite(s, ARecorrer(lista, ok))
    ensures var t := Recorrer(s, lista, ok); Inv(t) && Efecto(s, t, AvisaRecorrer(s, lista)) && ParejoCpu(s, t)
  {
    hide Inv, Efecto, ParejoCpu;
    RecorrerPaso(s, lista);
    assert Recorrer(s, lista, ok) == Recorrer(s, lista, true);
  }

  /** What every step keeps, under every policy and during compactions too. */
  lemma {:induction false} PasoInv(s: Sched, a: Accion)
    requires Inv(s) && Fichas(s) && Admite(s, a)
    ensures Inv(Paso(s, a)) && Fichas(Paso(s, a))
  {
    hide Inv, PlanOk, Exceso, Falta, Paso, Desvio, EsPlan;
    PasoSaldo(s, a);
    SinPausa(s);
  }

  /** Without preemption the planner is never in that sleep. */
  lemma SinPausa(s: Sched)
    requires PlanOk(s)
    ensures s.plan.Pausado? ==> Expropia(s.pol)
  {
  }

  // ---------------------------------------------------------------- runs

  function Correr(s: Sched, acs: seq<Accion>): Sched
    decreases |acs|
  {
    if acs == [] then s else Correr(Paso(s, acs[0]), acs[1..])
  }

  ghost predicate Posible(s: Sched, acs: seq<Accion>)
    decreases |acs|
  {
    acs == [] || (Admite(s, acs[0]) && Posible(Paso(s, acs[0]), acs[1..]))
  }

  /** Every reachable state: each live pid in exactly one place, and so on. */
  lemma {:induction false} CorrerInv(s: Sched, acs: seq<Accion>)
    requires Inv(s) && Fichas(s) && Posible(s, acs)
    ensures Inv(Correr(s, acs)) && Fichas(Correr(s, acs))
    decreases |acs|
  {
    hide Inv, Fichas, Paso, Admite;
    if acs != [] {
      PasoInv(s, acs[0]);
      CorrerInv(Paso(s, acs[0]), acs[1..]);
    }
  }

  lemma {:induction false} CorrerPol(s: Sched, acs: seq<Accion>)
    requires Inv(s) && Fichas(s) && Posible(s, acs)
    ensures Correr(s, acs).pol == s.pol
    decreases |acs|
  {
    hide Inv, Fichas, Paso, Admite, PlanOk, Exceso, Falta, Avisa, Desvio;
    if acs != [] {
      PasoInv(s, acs[0]);
      PasoSaldo(s, acs[0]);
      CorrerPol(Paso(s, acs[0]), acs[1..]);
    }
  }

  lemma {:induction false} CorrerPartido(s: Sched, x: seq<Accion>, y: seq<Accion>)
    ensures Posible(s, x + y) <==> Posible(s, x) && Posible(Correr(s, x), y)
    ensures Correr(s, x + y) == Correr(Correr(s, x), y)
    decreases |x|
  {
    hide Paso, Admite;
    if x == [] {
      assert x + y == y;
    } else {
      assert (x + y)[1..] == x[1..] + y && (x + y)[0] == x[0];
      CorrerPartido(Paso(s, x[0]), x[1..], y);
    }
  }

  lemma UnPaso(t: Sched, a: Accion)
    ensures Posible(t, [a]) <==> Admite(t, a)
    ensures Correr(t, [a]) == Paso(t, a)
  {
    hide Paso, Admite;
    assert [a][1..] == [];
  }

  /** The scheduler when it starts, with no CPU and before its first process. */
  function Inicial(pol: Politica): Sched
  {
    Sched(pol, Lugares([], seq(pol.niveles, _ => []), [], [], [], Nada), map[], [], map[], map[], {}, 0, 0, 0, Espera, false, [])
  }

  ghost predicate PoliticaOk(pol: Politica) { pol.niveles >= 1 && (!pol.cmn ==> pol.niveles == 1) }

  lemma {:induction false} Vacias(colas: seq<seq<nat>>, p: nat)
    requires forall n :: 0 <= n < |colas| ==> colas[n] == []
    ensures EnReady(colas, p) == 0 && Listos(colas) == 0
  {
    if colas != [] {
      Vacias(colas[1..], p);
    }
  }

  lemma InicialInv(pol: Politica)
    requires PoliticaOk(pol)
    ensures Inv(Inicial(pol)) && Fichas(Inicial(pol)) && CuentaReady(Inicial(pol)) && CuentaCpu(Inicial(pol))
  {
    var s := Inicial(pol);
    Vacias(s.l.colas, 0);
    forall p: nat ensures Todos(s.l, p) + Si(p in {}) == if p in s.pcbs then 1 else 0 {
      Vacias(s.l.colas, p);
    }
  }

  /** Each live process is in exactly one place, once; a pid that is not alive is in none. */
  lemma {:induction false} LugarUnico(s: Sched, p: nat)
    requires Inv(s)
    ensures p in s.pcbs ==> Todos(s.l, p) == 1 && p < s.proximo
    ensures p !in s.pcbs ==> Todos(s.l, p) == 0
  {
    assert Todos(s.l, p) + Si(p in {}) == if p in s.pcbs then 1 else 0;
  }
}
