/** The accounting of `sem_hay_proceso_ready` and `sem_hay_cpu_libre` over runs: when the tokens
    match the ready processes and the idle CPUs, what a compaction does to both, and why the
    planner dequeues only from queues that are not empty and dispatches only to idle CPUs. */
module Semaforos {
  import opened Secuencias
  import opened Procesos
  import opened Planificador
  import opened Conservacion
  import opened Acciones

  // ---------------------------------------------------------------- ready processes

  /** The step wakes the planner up from its sleep during a compaction, with preemption. */
  predicate Despausa(s: Sched, a: Accion) { s.plan.Pausado? && Avisa(s, a) }

  /** There is still one token per ready process after a step exactly if the step is not such a
      wake-up: the planner gave its token back before sleeping and does not take it again. */
  lemma {:induction false} CuentaReadyExacta(s: Sched, a: Accion)
    requires Inv(s) && Fichas(s) && CuentaReady(s) && Admite(s, a)
    ensures CuentaReady(Paso(s, a)) <==> !Despausa(s, a)
  {
    hide Inv, PlanOk, Exceso, Falta, Paso, Desvio, Avisa;
    PasoSaldo(s, a);
  }

  ghost predicate SinDespausas(s: Sched, acs: seq<Accion>)
    decreases |acs|
  {
    acs == [] || (!Despausa(s, acs[0]) && SinDespausas(Paso(s, acs[0]), acs[1..]))
  }

  lemma {:induction false} CorrerReady(s: Sched, acs: seq<Accion>)
    requires Inv(s) && Fichas(s) && CuentaReady(s) && Posible(s, acs) && SinDespausas(s, acs)
    ensures CuentaReady(Correr(s, acs))
    decreases |acs|
  {
    hide Inv, Fichas, CuentaReady, Paso, Admite, Despausa;
    if acs != [] {
      PasoInv(s, acs[0]);
      CuentaReadyExacta(s, acs[0]);
      CorrerReady(Paso(s, acs[0]), acs[1..]);
    }
  }

  // ---------------------------------------------------------------- idle CPUs

  /** The steps that break the count of the idle CPUs: a compaction that begins drains the tokens
      and vacates the caller's CPU; each other process that it evicts leaves a CPU without its
      token; its end posts the tokens of the CPUs that were busy; a CPU that arrives meanwhile
      brings none; and an idle CPU that leaves keeps its own. */
  predicate Descuadra(s: Sched, a: Accion)
  {
    match a
    case ACompactacion(p) => Algo(p) in s.l.exec
    case AIniciarCompactacion(p) => Algo(p) in s.l.exec
    case AFinCompactacion(k) => k < |s.abiertas| && s.abiertas[k] > 0
    case AConectar => s.compactando
    case ADesconectar(i) => i < |s.l.exec| && s.l.exec[i].Nada?
    case _ => false
  }

  /** The idle-CPU semaphore is right after a step exactly if the step is not one of those. */
  lemma {:induction false} CuentaCpuExacta(s: Sched, a: Accion)
    requires Inv(s) && Fichas(s) && CuentaCpu(s) && Admite(s, a)
    ensures CuentaCpu(Paso(s, a)) <==> !Descuadra(s, a)
  {
    hide Inv, Exceso, Paso;
    PasoSaldo(s, a);
    assert !EnVano(s, a);
  }

  ghost predicate SinDescuadres(s: Sched, acs: seq<Accion>)
    decreases |acs|
  {
    acs == [] || (!Descuadra(s, acs[0]) && SinDescuadres(Paso(s, acs[0]), acs[1..]))
  }

  lemma {:induction false} CorrerCpu(s: Sched, acs: seq<Accion>)
    requires Inv(s) && Fichas(s) && CuentaCpu(s) && Posible(s, acs) && SinDescuadres(s, acs)
    ensures CuentaCpu(Correr(s, acs))
    decreases |acs|
  {
    hide Inv, Fichas, CuentaCpu, Paso, Admite, Descuadra;
    if acs != [] {
      PasoInv(s, acs[0]);
      CuentaCpuExacta(s, acs[0]);
      CorrerCpu(Paso(s, acs[0]), acs[1..]);
    }
  }

  function SumaDesvios(s: Sched, acs: seq<Accion>): int
    decreases |acs|
  {
    if acs == [] then 0 else Desvio(s, acs[0]) + SumaDesvios(Paso(s, acs[0]), acs[1..])
  }

  /** Over any run, compactions included: the idle CPUs without token are those there were and
      the ones each step left. */
  lemma {:induction false} CorrerFalta(s: Sched, acs: seq<Accion>)
    requires Inv(s) && Fichas(s) && Posible(s, acs)
    ensures Falta(Correr(s, acs)) == Falta(s) + SumaDesvios(s, acs)
    decreases |acs|
  {
    hide Inv, Fichas, Falta, Paso, Admite, Desvio;
    if acs != [] {
      PasoInv(s, acs[0]);
      FaltaPaso(s, acs[0]);
      CorrerFalta(Paso(s, acs[0]), acs[1..]);
    }
  }

  lemma FaltaPaso(s: Sched, a: Accion)
    requires Inv(s) && Fichas(s) && Admite(s, a)
    ensures Falta(Paso(s, a)) == Falta(s) + Desvio(s, a)
  {
    hide Inv, Fichas, Falta, Paso, Admite, Desvio, PlanOk, Exceso, Avisa;
    PasoSaldo(s, a);
  }

  // ---------------------------------------------------------------- a whole compaction

  /** A compaction from its beginning to its end, whatever happens in between, other compactions
      included: the idle CPUs without token are the tokens that it drained, the caller's CPU and
      what the steps in between left, less the CPUs that were busy when it began, because its end
      posts a token for each of those. */
  lemma {:induction false} CompactacionSaldo(s: Sched, p: nat, acs: seq<Accion>, k: nat)
    requires Inv(s) && Fichas(s) && CuentaCpu(s) && Algo(p) in s.l.exec
    requires var u := IniciarCompactacion(s, p);
      && Posible(u, acs) && k < |Correr(u, acs).abiertas| && Correr(u, acs).abiertas[k] == Ocupadas(s.l.exec)
    ensures Posible(s, [AIniciarCompactacion(p)] + acs + [AFinCompactacion(k)])
    ensures var t := Correr(s, [AIniciarCompactacion(p)] + acs + [AFinCompactacion(k)]);
      var otros := SumaDesvios(IniciarCompactacion(s, p), acs);
      && Falta(t) == s.semCpu + 1 + otros - Ocupadas(s.l.exec)
      && (CuentaCpu(t) <==> s.semCpu + 1 + otros == Ocupadas(s.l.exec))
  {
    hide Inv, Fichas, Falta, IniciarCompactacion, FinCompactacion, SumaDesvios;
    var ini, fin := AIniciarCompactacion(p), AFinCompactacion(k);
    var u := IniciarCompactacion(s, p);
    PasoInv(s, ini);
    FaltaPaso(s, ini);
    CorrerInv(u, acs);
    CorrerFalta(u, acs);
    var v := Correr(u, acs);
    FaltaPaso(v, fin);
    CorrerPartido(s, [ini] + acs, [fin]);
    CorrerPartido(s, [ini], acs);
    UnPaso(s, ini);
    UnPaso(v, fin);
  }

  /** No other compaction begins or ends in the run. */
  predicate Sola(acs: seq<Accion>)
  {
    forall n :: 0 <= n < |acs| ==> !acs[n].AIniciarCompactacion? && !acs[n].AFinCompactacion?
  }

  /** How many processes are evicted by a compaction over a run. */
  function Desalojados(s: Sched, acs: seq<Accion>): nat
    decreases |acs|
  {
    if acs == [] then 0
    else Si(acs[0].ACompactacion? && Algo(acs[0].pid) in s.l.exec) + Desalojados(Paso(s, acs[0]), acs[1..])
  }

  /** What the CPUs that come and go and the dispatches in vain leave over a run: a CPU that
      arrives during a compaction has no token, an idle one that leaves has one, and a dispatch in
      vain uses one. */
  function Cambios(s: Sched, acs: seq<Accion>): int
    decreases |acs|
  {
    if acs == [] then 0
    else (if acs[0].ACompactacion? then 0 else Desvio(s, acs[0])) + Cambios(Paso(s, acs[0]), acs[1..])
  }

  /** How many processes leave their CPUs over a run otherwise than by an eviction, less those that
      are dispatched. */
  function SeVan(s: Sched, acs: seq<Accion>): int
    decreases |acs|
  {
    if acs == [] then 0
    else
      var t := Paso(s, acs[0]);
      (if acs[0].ACompactacion? then 0 else Ocupadas(s.l.exec) - Ocupadas(t.l.exec)) + SeVan(t, acs[1..])
  }

  lemma {:induction false} SolaSaldo(s: Sched, acs: seq<Accion>)
    requires Inv(s) && Fichas(s) && Posible(s, acs) && Sola(acs)
    ensures SumaDesvios(s, acs) == Desalojados(s, acs) + Cambios(s, acs)
    ensures Correr(s, acs).abiertas == s.abiertas
    ensures Ocupadas(Correr(s, acs).l.exec) == Ocupadas(s.l.exec) - Desalojados(s, acs) - SeVan(s, acs)
    decreases |acs|
  {
    hide Inv, Fichas, Paso, Admite;
    if acs != [] {
      PasoInv(s, acs[0]);
      PasoAbiertas(s, acs[0]);
      if acs[0].ACompactacion? {
        DesvioDesalojo(s, acs[0]);
      }
      assert forall n :: 0 <= n < |acs[1..]| ==> acs[1..][n] == acs[n + 1];
      SolaSaldo(Paso(s, acs[0]), acs[1..]);
    }
  }

  lemma PasoAbiertas(s: Sched, a: Accion)
    requires Inv(s) && Fichas(s) && Admite(s, a) && !a.AIniciarCompactacion? && !a.AFinCompactacion?
    ensures Paso(s, a).abiertas == s.abiertas
  {
    hide Inv, Fichas, Falta, Paso, Admite, Desvio, PlanOk, Exceso, Avisa;
    PasoSaldo(s, a);
  }

  /** An eviction: one idle CPU more without token, and one busy CPU less. */
  lemma DesvioDesalojo(s: Sched, a: Accion)
    requires a.ACompactacion?
    ensures Desvio(s, a) == Si(Algo(a.pid) in s.l.exec)
    ensures Ocupadas(Paso(s, a).l.exec) == Ocupadas(s.l.exec) - Si(Algo(a.pid) in s.l.exec)
  {
    if Algo(a.pid) in s.l.exec {
      ExecCambia(s.l.exec, CpuCon(s.l.exec, a.pid).valor, Nada, a.pid);
    }
  }

  /** A compaction during which no other one begins or ends.  Afterwards the count is right exactly
      if the CPUs that were busy at its beginning are as many as the caller's, those evicted, the
      tokens drained and what the CPUs that came and went left, together.  When it empties the CPUs
      and none came or went: exactly if as many processes left their CPUs by themselves as CPUs
      were idle at its beginning. */
  lemma {:induction false} CompactacionSola(s: Sched, p: nat, acs: seq<Accion>)
    requires Inv(s) && Fichas(s) && CuentaCpu(s) && Algo(p) in s.l.exec
    requires Posible(IniciarCompactacion(s, p), acs) && Sola(acs)
    ensures Posible(s, [AIniciarCompactacion(p)] + acs + [AFinCompactacion(|s.abiertas|)])
    ensures var t := Correr(s, [AIniciarCompactacion(p)] + acs + [AFinCompactacion(|s.abiertas|)]);
      var u := IniciarCompactacion(s, p);
      && Falta(t) == s.semCpu + 1 + Desalojados(u, acs) + Cambios(u, acs) - Ocupadas(s.l.exec)
      && (CuentaCpu(t) <==> 1 + Desalojados(u, acs) + s.semCpu + Cambios(u, acs) == Ocupadas(s.l.exec))
      && (Cambios(u, acs) == 0 && Ocupadas(Correr(u, acs).l.exec) == 0 ==> (CuentaCpu(t) <==> SeVan(u, acs) == s.semCpu))
  {
    hide Inv, Fichas, Falta, SumaDesvios, Desalojados, Cambios, SeVan, Posible, Correr, FinCompactacion, DesalojarCompactacion, Paso;
    Empieza(s, p);
    SolaSaldo(IniciarCompactacion(s, p), acs);
    CompactacionSaldo(s, p, acs, |s.abiertas|);
  }

  lemma Empieza(s: Sched, p: nat)
    requires Inv(s) && Fichas(s) && Algo(p) in s.l.exec
    ensures var u := IniciarCompactacion(s, p);
      && Inv(u) && Fichas(u) && u.abiertas == s.abiertas + [Ocupadas(s.l.exec)]
      && Ocupadas(u.l.exec) == Ocupadas(s.l.exec) - 1
  {
    hide Inv, Fichas;
    PasoInv(s, AIniciarCompactacion(p));
    ExecCambia(s.l.exec, CpuCon(s.l.exec, p).valor, Nada, p);
  }

  // ---------------------------------------------------------------- the planner

  /** The two steps after which there may be more tokens than idle CPUs: an idle CPU leaves when
      every idle CPU has its token, and a compaction ends that posts more tokens than there are idle
      CPUs without one. */
  predicate Sobra(s: Sched, a: Accion)
  {
    match a
    case ADesconectar(i) => i < |s.l.exec| && s.l.exec[i].Nada? && Falta(s) <= 0
    case AFinCompactacion(k) => k < |s.abiertas| && s.abiertas[k] > 0 && s.abiertas[k] > Falta(s)
    case _ => false
  }

  /** They are the only ones. */
  lemma {:induction false} SobraExacta(s: Sched, a: Accion)
    requires Inv(s) && Fichas(s) && Admite(s, a) && Falta(s) >= 0
    ensures Falta(Paso(s, a)) >= 0 <==> !Sobra(s, a)
  {
    hide Inv, Exceso, Falta, Paso, EnVano;
    FaltaPaso(s, a);
  }

  ghost predicate SinSobras(s: Sched, acs: seq<Accion>)
    decreases |acs|
  {
    acs == [] || (!Sobra(s, acs[0]) && SinSobras(Paso(s, acs[0]), acs[1..]))
  }

  lemma {:induction false} CorrerSinSobras(s: Sched, acs: seq<Accion>)
    requires Inv(s) && Fichas(s) && Falta(s) >= 0 && Posible(s, acs) && SinSobras(s, acs)
    ensures Falta(Correr(s, acs)) >= 0
    decreases |acs|
  {
    hide Inv, Fichas, Falta, Paso, Admite, Sobra;
    if acs != [] {
      PasoInv(s, acs[0]);
      SobraExacta(s, acs[0]);
      CorrerSinSobras(Paso(s, acs[0]), acs[1..]);
    }
  }

  /** A run without the steps that break the count has none of these. */
  lemma {:induction false} SinDescuadresNoSobra(s: Sched, acs: seq<Accion>)
    requires Inv(s) && Fichas(s) && CuentaCpu(s) && Posible(s, acs) && SinDescuadres(s, acs)
    ensures SinSobras(s, acs)
    decreases |acs|
  {
    hide Inv, Fichas, Falta, Paso, Admite, Descuadra, Sobra;
    if acs != [] {
      PasoInv(s, acs[0]);
      CuentaCpuExacta(s, acs[0]);
      SobraExacta(s, acs[0]);
      SinDescuadresNoSobra(Paso(s, acs[0]), acs[1..]);
    }
  }

  /** The planner is safe in every state reached from the start.  Without preemption, when it
      holds the token of a process some process is ready; this needs no hypothesis on the run.
      And over runs without those two steps, compactions or not, whenever it has a CPU token in
      hand or finds one, `obtener_cpu_libre` answers a CPU. */
  lemma {:induction false} PlanificadorSeguro(pol: Politica, acs: seq<Accion>)
    requires PoliticaOk(pol) && Posible(Inicial(pol), acs)
    ensures var s := Correr(Inicial(pol), acs);
      && (!Expropia(pol) && FichaReady(s.plan) == 1 ==> Primero(s.l.colas).Algo?)
      && (SinSobras(Inicial(pol), acs) && (s.plan.ConAmbos? || s.semCpu > 0) ==> CpuLibre(s.l.exec).Algo?)
  {
    InicialInv(pol);
    CorrerInv(Inicial(pol), acs);
    CorrerPol(Inicial(pol), acs);
    var s := Correr(Inicial(pol), acs);
    if !Expropia(pol) && FichaReady(s.plan) == 1 {
      HayListo(s);
    }
    if SinSobras(Inicial(pol), acs) {
      CorrerSinSobras(Inicial(pol), acs);
    }
  }
}
