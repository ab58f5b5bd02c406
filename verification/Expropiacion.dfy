/** Preemption by priority: what the planner decides on each turn, and which steps can leave it
    asleep while a ready process is better than a running one. */
module Expropiacion {
  import opened Secuencias
  import opened Procesos
  import opened Planificador
  import opened Conservacion
  import opened Acciones

  // ---------------------------------------------------------------- the two searches

  /** The victim is the worst running process, and strictly worse than the candidate; there is
      none exactly when no running process is strictly worse. */
  lemma {:induction false} VictimaEsPeor(pcbs: map<nat, Pcb>, exec: seq<Opcion<nat>>, x: nat, n: nat)
    requires n <= |exec|
    ensures var v := VictimaEn(pcbs, exec, x, n);
      match v
      case Nada => forall k :: 0 <= k < n && exec[k].Algo? ==> Prio(pcbs, exec[k].valor) <= x
      case Algo(i) =>
        && Prio(pcbs, exec[i].valor) > x
        && (forall k :: 0 <= k < n && exec[k].Algo? ==> Prio(pcbs, exec[k].valor) <= Prio(pcbs, exec[i].valor))
        && (forall k :: 0 <= k < i && exec[k].Algo? ==> Prio(pcbs, exec[k].valor) < Prio(pcbs, exec[i].valor))
  {
    if n > 0 {
      VictimaEsPeor(pcbs, exec, x, n - 1);
    }
  }

  /** The same, said of the processes. */
  lemma HayVictima(s: Sched, x: nat)
    ensures Victima(s, x).Algo? <==> exists r: nat :: Algo(r) in s.l.exec && Prio(s.pcbs, r) > x
  {
    VictimaEsPeor(s.pcbs, s.l.exec, x, |s.l.exec|);
    var v := Victima(s, x);
    if v.Algo? {
      var r := s.l.exec[v.valor].valor;
      assert Algo(r) in s.l.exec && Prio(s.pcbs, r) > x;
    }
  }

  /** Whom the planner dispatches: the oldest of the best queue, whose priority no ready process
      beats. */
  lemma PrimeroEsMejor(s: Sched, q: nat)
    requires Niveles(s) && s.pol.cmn && NivelDe(s.l.colas, q).Algo?
    ensures Primero(s.l.colas).Algo? && Prio(s.pcbs, Primero(s.l.colas).valor) <= Prio(s.pcbs, q)
    ensures s.l.colas[Prio(s.pcbs, Primero(s.l.colas).valor)][0] == Primero(s.l.colas).valor
  {
    var n := NivelDe(s.l.colas, q).valor;
    var m := PrimerNivel(s.l.colas).valor;
    assert m <= n;
    var k :| 0 <= k < |s.l.colas[n]| && s.l.colas[n][k] == q;
    assert Prio(s.pcbs, s.l.colas[n][k]) == n;
    assert Prio(s.pcbs, s.l.colas[m][0]) == m;
  }

  lemma PrimeroEsta(s: Sched)
    requires Primero(s.l.colas).Algo?
    ensures NivelDe(s.l.colas, Primero(s.l.colas).valor).Algo?
  {
    var m := PrimerNivel(s.l.colas).valor;
    assert s.l.colas[m][0] in s.l.colas[m];
  }

  /** No ready process is better than a running one. */
  ghost predicate NadieMejor(s: Sched)
  {
    forall q, r: nat :: NivelDe(s.l.colas, q).Algo? && Algo(r) in s.l.exec ==> Prio(s.pcbs, r) <= Prio(s.pcbs, q)
  }

  /** Some ready process is better than a running one exactly if the search for a victim of the
      first of the best queue finds it. */
  lemma {:induction false} NadieMejorSinVictima(s: Sched)
    requires Niveles(s) && s.pol.cmn
    ensures NadieMejor(s) <==> Primero(s.l.colas).Nada? || Victima(s, Prio(s.pcbs, Primero(s.l.colas).valor)).Nada?
  {
    var p := Primero(s.l.colas);
    if p.Algo? {
      PrimeroEsta(s);
      HayVictima(s, Prio(s.pcbs, p.valor));
    }
    forall q | NivelDe(s.l.colas, q).Algo?
      ensures p.Algo? && Prio(s.pcbs, p.valor) <= Prio(s.pcbs, q)
    {
      PrimeroEsMejor(s, q);
    }
  }

  // ---------------------------------------------------------------- one turn of the planner

  /** `i` is the CPU of the worst running process, and that one is strictly worse than `p`. */
  ghost predicate EsPeor(s: Sched, i: nat, p: nat)
  {
    && i < |s.l.exec| && s.l.exec[i].Algo? && Prio(s.pcbs, s.l.exec[i].valor) > Prio(s.pcbs, p)
    && forall r: nat :: Algo(r) in s.l.exec ==> Prio(s.pcbs, r) <= Prio(s.pcbs, s.l.exec[i].valor)
  }

  /** What a turn decides, in any consistent state: it goes to sleep exactly if no CPU token is
      there and no ready process is better than a running one, or nobody is ready; otherwise, if
      no CPU token is there, it takes in hand the best ready process, and the victim is the worst
      running one, which is strictly worse; and if one is there, the best ready process goes to an
      idle CPU, when there is one. */
  lemma {:induction false} DecidirCorrecto(s: Sched, t: Sched)
    requires Inv(s) && Expropia(s.pol) && s.plan.ConReady? && !s.compactando && t == Decidir(s)
    ensures t.plan.Aparcado? <==> Primero(s.l.colas).Nada? || (s.semCpu <= 0 && NadieMejor(s))
    ensures t.plan.Aparcado? ==> NadieMejor(t) && t == s.(semReady := s.semReady + 1, plan := Aparcado)
    ensures t.plan.ConMano? <==> Primero(s.l.colas).Algo? && s.semCpu <= 0 && !NadieMejor(s)
    ensures t.plan.ConMano? ==>
      t.l.mano.Algo? && t.l.mano == Primero(s.l.colas) && exists i :: EsPeor(t, i, t.l.mano.valor)
    ensures t.plan.Espera? <==> Primero(s.l.colas).Algo? && s.semCpu > 0
    ensures t.plan.Espera? && CpuLibre(s.l.exec).Algo? ==>
      t.l.exec == s.l.exec[CpuLibre(s.l.exec).valor := Primero(s.l.colas)]
  {
    NadieMejorSinVictima(s);
    hide Inv, NadieMejor, Victima, CpuLibre, Listo;
    var r := Primero(s.l.colas);
    if r.Algo? {
      var x := Prio(s.pcbs, r.valor);
      if s.semCpu <= 0 && Victima(s, x).Algo? {
        VictimaPeor(s, t, r.valor);
      }
    }
    if t.plan.Aparcado? {
      MismoOrden(s, t);
      if r.Nada? {
        assert NadieMejor(s);
      }
    }
  }

  lemma MismoOrden(s: Sched, t: Sched)
    requires t.l == s.l && t.pcbs == s.pcbs
    ensures NadieMejor(t) == NadieMejor(s)
  {
  }

  lemma VictimaPeor(s: Sched, t: Sched, p: nat)
    requires Victima(s, Prio(s.pcbs, p)).Algo? && t.l.exec == s.l.exec && t.pcbs == s.pcbs
    ensures exists i :: EsPeor(t, i, p)
  {
    VictimaEsPeor(s.pcbs, s.l.exec, Prio(s.pcbs, p), |s.l.exec|);
    assert EsPeor(t, Victima(s, Prio(s.pcbs, p)).valor, p);
  }

  /** With the CPU tokens in order, it evicts only when every CPU is busy, and a token is always
      used. */
  lemma DecidirSinOciosas(s: Sched)
    requires Inv(s) && Fichas(s) && CuentaCpu(s) && Expropia(s.pol) && s.plan.ConReady? && !s.compactando
    ensures s.semCpu <= 0 <==> Ociosas(s.l.exec) == 0
    ensures s.semCpu > 0 ==> CpuLibre(s.l.exec).Algo?
  {
  }

  /** All of this holds in every state of every run from the start, compactions included. */
  lemma {:induction false} DecidirEnCorrida(pol: Politica, acs: seq<Accion>)
    requires PoliticaOk(pol) && Expropia(pol) && Posible(Inicial(pol), acs + [ADecidir])
    ensures var s := Correr(Inicial(pol), acs);
      var t := Correr(Inicial(pol), acs + [ADecidir]);
      s.plan.ConReady? && !s.compactando ==>
        && (t.plan.Aparcado? ==> NadieMejor(t))
        && (t.plan.ConMano? ==>
              t.l.mano.Algo? && t.l.mano == Primero(s.l.colas) && exists i :: EsPeor(t, i, t.l.mano.valor))
        && (t.plan.Aparcado? || t.plan.ConMano? || t.plan.Espera?)
  {
    hide Inv, Fichas, NadieMejor, Decidir, Primero;
    CorrerPartido(Inicial(pol), acs, [ADecidir]);
    InicialInv(pol);
    CorrerInv(Inicial(pol), acs);
    var s := Correr(Inicial(pol), acs);
    UnPaso(s, ADecidir);
    CorrerPol(Inicial(pol), acs);
    if s.plan.ConReady? && !s.compactando {
      DecidirCorrecto(s, Decidir(s));
    }
  }

  // ---------------------------------------------------------------- asleep

  /** When the planner sleeps, no ready process is better than a running one. */
  ghost predicate Tranquila(s: Sched) { s.plan.Aparcado? ==> NadieMejor(s) }

  /** The priority that the caller keeps when it gives mutex `m` up: the least of its original one
      and those of the processes that wait for its other mutexes. */
  function PrioAlSoltar(s: Sched, p: nat, m: nat): nat
    requires m < |s.mutexes|
  {
    MinDe(s.pcbs, s.mutexes[m := s.mutexes[m].(cola := [])], p, 0, if p in s.pcbs then s.pcbs[p].original else 0)
  }

  /** The steps that let a better process be ready while the planner sleeps on: a process is
      created, or goes back to its queue for a compaction, and there is a worse one running; or an
      unlock that wakes nobody up leaves the caller worse than the best ready process. */
  predicate Inquieta(s: Sched, a: Accion)
  {
    s.plan.Aparcado? &&
    match a
    case ACrear(x, ok) => ok && 0 <= x < s.pol.niveles && Victima(s, x).Algo?
    case ACompactacion(p) => Algo(p) in s.l.exec && Victima(s, Prio(s.pcbs, p)).Algo?
    case AIniciarCompactacion(p) => Algo(p) in s.l.exec && Victima(s, Prio(s.pcbs, p)).Algo?
    case AUnlock(p, nombre) =>
      var m := BuscarMutex(s.mutexes, nombre);
      && m.Algo? && !AvisaUnlock(s, nombre) && Primero(s.l.colas).Algo?
      && Prio(s.pcbs, Primero(s.l.colas).valor) < PrioAlSoltar(s, p, m.valor)
    case _ => false
  }

  /** Same queues, no new running process, same priorities of those that are ready or run. */
  ghost predicate Serena(s: Sched, t: Sched)
  {
    && t.l.colas == s.l.colas && t.plan == s.plan && t.pol == s.pol
    && (forall r: nat :: Algo(r) in t.l.exec ==> Algo(r) in s.l.exec && Prio(t.pcbs, r) == Prio(s.pcbs, r))
    && (forall q: nat :: NivelDe(s.l.colas, q).Algo? ==> Prio(t.pcbs, q) == Prio(s.pcbs, q))
  }

  lemma SerenaTranquila(s: Sched, t: Sched)
    requires Serena(s, t) && Tranquila(s)
    ensures Tranquila(t)
  {
    hide NivelDe;
  }

  /** A process becomes ready, at either end of its queue, and perhaps it was running. */
  lemma NuevoListo(s: Sched, t: Sched, p: nat, x: nat)
    requires NadieMejor(s) && NivelDe(s.l.colas, p).Nada? && x == Prio(t.pcbs, p)
    requires forall q: nat :: NivelDe(t.l.colas, q).Algo? <==> q == p || NivelDe(s.l.colas, q).Algo?
    requires forall r: nat :: Algo(r) in t.l.exec <==> r != p && Algo(r) in s.l.exec
    requires forall q: nat :: q != p ==> Prio(t.pcbs, q) == Prio(s.pcbs, q)
    requires Algo(p) in s.l.exec ==> Prio(s.pcbs, p) == x
    ensures NadieMejor(t) <==> Victima(s, x).Nada?
  {
    hide NivelDe, Victima, Prio;
    HayVictima(s, x);
    if Victima(s, x).Algo? {
      var r: nat :| Algo(r) in s.l.exec && Prio(s.pcbs, r) > x;
      assert NivelDe(t.l.colas, p).Algo? && Algo(r) in t.l.exec;
    }
  }

  lemma {:induction false} EncoladoEsta(colas: seq<seq<nat>>, n: nat, c: seq<nat>, p: nat, q: nat)
    requires n < |colas| && (c == colas[n] + [p] || c == [p] + colas[n])
    ensures NivelDe(colas[n := c], q).Algo? <==> q == p || NivelDe(colas, q).Algo?
  {
    var d := colas[n := c];
    if NivelDe(d, q).Algo? {
      var k := NivelDe(d, q).valor;
      assert q in d[k];
    }
    if NivelDe(colas, q).Algo? {
      var k := NivelDe(colas, q).valor;
      assert q in d[k];
    }
    assert p in d[n];
  }

  lemma CrearTranquila(s: Sched, x: int, ok: bool)
    requires Inv(s) && Expropia(s.pol) && s.plan.Aparcado? && NadieMejor(s)
    ensures NadieMejor(CrearProceso(s, x, ok)) <==> !Inquieta(s, ACrear(x, ok))
  {
    var t := CrearProceso(s, x, ok);
    var p := s.proximo;
    if ok && 0 <= x < s.pol.niveles {
      forall q: nat ensures NivelDe(t.l.colas, q).Algo? <==> q == p || NivelDe(s.l.colas, q).Algo? {
        EncoladoEsta(s.l.colas, x, s.l.colas[x] + [p], p, q);
      }
      NadieEs(s, p);
      hide Inv, NadieMejor, NivelDe, Victima, Listo;
      NuevoListo(s, t, p, x);
    } else {
      assert t.l == s.l && t.pcbs == s.pcbs;
      MismoOrden(s, t);
    }
  }

  /** A pid that was never used is nowhere. */
  lemma NadieEs(s: Sched, p: nat)
    requires Inv(s) && p !in s.pcbs
    ensures NivelDe(s.l.colas, p).Nada? && Algo(p) !in s.l.exec
  {
    assert Todos(s.l, p) + Si(p in {}) == if p in s.pcbs then 1 else 0;
    EnLista(s.l, p);
  }

  lemma CompactarTranquila(s: Sched, p: nat)
    requires Inv(s) && Expropia(s.pol) && NadieMejor(s) && Algo(p) in s.l.exec
    ensures NadieMejor(DesalojarCompactacion(s, p)) <==> Victima(s, Prio(s.pcbs, p)).Nada?
  {
    var t := DesalojarCompactacion(s, p);
    var i := CpuCon(s.l.exec, p).valor;
    QuienCorre(s, {}, p);
    PrioEnRango(s, p);
    var n := Nivel(s, p);
    forall q: nat ensures NivelDe(t.l.colas, q).Algo? <==> q == p || NivelDe(s.l.colas, q).Algo? {
      EncoladoEsta(s.l.colas, n, [p] + s.l.colas[n], p, q);
    }
    forall r: nat ensures Algo(r) in t.l.exec <==> r != p && Algo(r) in s.l.exec {
      SoloEnCpu(s, i, p, r);
    }
    hide Inv, NadieMejor, NivelDe, Victima;
    NuevoListo(s, t, p, Prio(s.pcbs, p));
  }

  /** A process runs on one CPU only. */
  lemma SoloEnCpu(s: Sched, i: nat, p: nat, r: nat)
    requires Inv(s) && i < |s.l.exec| && s.l.exec[i] == Algo(p)
    ensures Algo(r) in s.l.exec[i := Nada] <==> r != p && Algo(r) in s.l.exec
  {
    ExecCambia(s.l.exec, i, Nada, r);
    ExecTiene(s.l.exec, r);
    ExecTiene(s.l.exec[i := Nada], r);
    assert Todos(s.l, p) + Si(p in {}) == if p in s.pcbs then 1 else 0;
  }

  // ---------------------------------------------------------------- the other handlers

  /** Same queues, CPUs and planner, and the same priorities of those that are not blocked. */
  ghost predicate Aparte(s: Sched, t: Sched)
  {
    && t.l.colas == s.l.colas && t.l.exec == s.l.exec && t.pol == s.pol && t.plan == s.plan
    && (forall q: nat :: q !in s.l.block && q !in s.l.suspBlock ==> Prio(t.pcbs, q) == Prio(s.pcbs, q))
    && (forall q: nat :: q in t.l.block || q in t.l.suspBlock ==> q in s.l.block || q in s.l.suspBlock)
  }

  lemma AparteCompone(s: Sched, t: Sched, u: Sched)
    requires Aparte(s, t) && Aparte(t, u)
    ensures Aparte(s, u)
  {
  }

  lemma AparteSerena(s: Sched, t: Sched)
    requires Inv(s) && Aparte(s, t)
    ensures Serena(s, t)
  {
    forall r: nat | Algo(r) in s.l.exec ensures Prio(t.pcbs, r) == Prio(s.pcbs, r) {
      QuienCorre(s, {}, r);
    }
    forall q: nat | NivelDe(s.l.colas, q).Algo? ensures Prio(t.pcbs, q) == Prio(s.pcbs, q) {
      ListoNoBloqueado(s, {}, q);
    }
  }

  lemma ListoNoBloqueado(s: Sched, aire: set<nat>, q: nat)
    requires Vivos(s, aire) && NivelDe(s.l.colas, q).Algo?
    ensures q !in s.l.block && q !in s.l.suspBlock
  {
    if q in s.l.block || q in s.l.suspBlock {
      NoEnReady(s, aire, q);
    }
  }

  /** A process that wakes up without telling the planner goes from one suspended list to the other. */
  lemma DespertarAparte(s: Sched, p: nat)
    requires Expropia(s.pol) && !AvisaDespertar(s, p)
    ensures Aparte(s, Despertar(s, p)) && Despertar(s, p).pcbs == s.pcbs
  {
    hide InsertarPorPrio, Senal;
    forall q: nat | q in Quitar(s.l.suspBlock, p) ensures q in s.l.suspBlock {
      QuitadoEstaba(s.l.suspBlock, p, q);
    }
  }

  lemma EntregarAparte(s: Sched, m: nat, aire: set<nat>)
    requires Base(s, aire, Nada, Nada) && m < |s.mutexes| && s.mutexes[m].cola != []
    requires Expropia(s.pol) && !AvisaDespertar(s, s.mutexes[m].cola[0])
    ensures Aparte(s, Entregar(s, m))
  {
    hide Vivos, Niveles, Esperas, Mutexes, Pids, Despertar, MinCola;
    var mx := s.mutexes[m];
    var sig := mx.cola[0];
    var x := MinCola(s.pcbs, mx.cola[1..], Prio(s.pcbs, sig));
    var t := s.(mutexes := s.mutexes[m := mx.(pid := sig, contador := mx.contador + 1, cola := mx.cola[1..])]);
    PopBase(s, m, aire, t);
    var u := t.(pcbs := ConPrio(s.pcbs, sig, x));
    assert Aparte(s, u);
    DespertarAparte(u, sig);
    AparteCompone(s, u, Despertar(u, sig));
  }

  lemma {:induction false} LiberarAparte(s: Sched, p: nat, i: nat, aire: set<nat>)
    requires Base(s, aire, Nada, Nada) && i <= |s.mutexes| && Expropia(s.pol) && !AvisaMuerte(s, p, i)
    ensures Aparte(s, LiberarMutexes(s, p, i))
    decreases |s.mutexes| - i
  {
    hide Base, Aparte, AvisaMutex, LiberarUno, Efecto, Falta, Exceso;
    if i < |s.mutexes| {
      var u := LiberarUno(s, p, i);
      LiberarUnoBase(s, p, i, aire);
      LiberarUnoAparte(s, p, i, aire);
      AvisaSigue(s, u, p, i);
      LiberarAparte(u, p, i + 1, aire);
      AparteCompone(s, u, LiberarMutexes(u, p, i + 1));
    } else {
      AparteIgual(s);
    }
  }

  lemma AparteIgual(s: Sched)
    ensures Aparte(s, s)
  {
  }

  lemma LiberarUnoAparte(s: Sched, p: nat, i: nat, aire: set<nat>)
    requires Base(s, aire, Nada, Nada) && i < |s.mutexes| && Expropia(s.pol) && !AvisaMutex(s, p, i)
    ensures Aparte(s, LiberarUno(s, p, i)) && LiberarUno(s, p, i).pol == s.pol
  {
    hide Base, Entregar;
    var mx := s.mutexes[i];
    if mx.pid == p && mx.contador < 1 && mx.cola != [] {
      EntregarAparte(s, i, aire);
    }
  }

  lemma DesconectarTranquila(s: Sched, i: nat)
    requires Inv(s) && Expropia(s.pol) && s.plan.Aparcado? && NadieMejor(s) && i < |s.l.exec| && !AvisaSalida(s, i)
    ensures NadieMejor(DesconectarCpu(s, i))
  {
    var exec := s.l.exec;
    var t := s.(l := s.l.(exec := exec[..i] + exec[i + 1..]));
    SalirBase(s, i);
    forall r: nat | Algo(r) in t.l.exec ensures Algo(r) in exec {}
    if exec[i].Algo? {
      var p := exec[i].valor;
      AvisaMismo(s, t, p);
      LiberarAparte(t, p, 0, {p});
      MuerteSerena(s, t, p, LiberarMutexes(t, p, 0));
      SerenaTranquila(s, DesconectarCpu(s, i));
    } else {
      assert Serena(s, t);
      SerenaTranquila(s, t);
    }
  }

  lemma MuerteSerena(s: Sched, t: Sched, p: nat, u: Sched)
    requires Inv(s) && Base(t, {p}, Nada, Nada) && t == s.(l := s.l.(exec := t.l.exec)) && Aparte(t, u)
    requires forall r: nat :: Algo(r) in t.l.exec ==> Algo(r) in s.l.exec
    ensures Serena(s, u.(pcbs := u.pcbs - {p}))
  {
    hide Niveles, Esperas, Mutexes, Pids;
    forall r: nat | Algo(r) in t.l.exec ensures r != p && Prio(u.pcbs, r) == Prio(s.pcbs, r) {
      QuienCorre(t, {p}, r);
    }
    forall q: nat | NivelDe(s.l.colas, q).Algo? ensures q != p && Prio(u.pcbs, q) == Prio(s.pcbs, q) {
      ListoNoBloqueado(t, {p}, q);
      EnLista(t.l, q);
      NoEnAire(t, {p}, q);
    }
  }

  /** Those who wait for mutex `k` of `p`. */
  function Esperan(ms: seq<Mutex>, p: nat, k: nat): seq<nat>
    requires k < |ms|
  {
    if ms[k].pid == p then ms[k].cola else []
  }

  lemma {:induction false} MinColaIgual(x: map<nat, Pcb>, y: map<nat, Pcb>, cola: seq<nat>, v: nat)
    requires forall k :: 0 <= k < |cola| ==> Prio(x, cola[k]) == Prio(y, cola[k])
    ensures MinCola(x, cola, v) == MinCola(y, cola, v)
    decreases |cola|
  {
    if cola != [] {
      MinColaIgual(x, y, cola[1..], if Prio(x, cola[0]) < v then Prio(x, cola[0]) else v);
    }
  }

  lemma {:induction false} MinDeIgual(x: map<nat, Pcb>, y: map<nat, Pcb>, ms: seq<Mutex>, ns: seq<Mutex>, p: nat, i: nat, v: nat)
    requires i <= |ms| == |ns|
    requires forall k :: i <= k < |ms| ==> Esperan(ms, p, k) == Esperan(ns, p, k)
    requires forall k, w :: i <= k < |ms| && w in Esperan(ms, p, k) ==> Prio(x, w) == Prio(y, w)
    ensures MinDe(x, ms, p, i, v) == MinDe(y, ns, p, i, v)
    decreases |ms| - i
  {
    hide MinCola, Prio;
    if i < |ms| {
      var c := Esperan(ms, p, i);
      assert Esperan(ns, p, i) == c;
      forall k | 0 <= k < |c| ensures Prio(x, c[k]) == Prio(y, c[k]) {
        assert c[k] in c;
      }
      MinColaIgual(x, y, c, v);
      MinColaNada(x, v);
      MinColaNada(y, v);
      MinDeIgual(x, y, ms, ns, p, i + 1, MinCola(x, c, v));
    }
  }

  lemma MinColaNada(x: map<nat, Pcb>, v: nat)
    ensures MinCola(x, [], v) == v
  {
  }

  /** It is indeed the priority after the unlock. */
  lemma PrioTrasUnlock(s: Sched, p: nat, nombre: string, m: nat)
    requires Inv(s) && BuscarMutex(s.mutexes, nombre) == Algo(m) && Tiene(s, p, m) && Algo(p) in s.l.exec
    ensures Prio(Unlock(s, p, nombre).pcbs, p) == PrioAlSoltar(s, p, m)
  {
    hide Inv, MinDe, Ceder, BuscarMutex;
    var t := Ceder(s, m);
    var ms := s.mutexes[m := s.mutexes[m].(cola := [])];
    CederResumen(s, p, m);
    forall k, w | 0 <= k < |ms| && w in Esperan(ms, p, k) ensures Prio(t.pcbs, w) == Prio(s.pcbs, w) {
      assert w in s.mutexes[k].cola;
    }
    MinDeIgual(t.pcbs, s.pcbs, t.mutexes, ms, p, 0, s.pcbs[p].original);
    assert Unlock(s, p, nombre) == Recalcular(t, p) by { UnlockPartes(s, p, nombre, m); }
  }

  lemma UnlockPartes(s: Sched, p: nat, nombre: string, m: nat)
    requires BuscarMutex(s.mutexes, nombre) == Algo(m)
    ensures Unlock(s, p, nombre) == Recalcular(Ceder(s, m), p)
  {
    hide Entregar, Recalcular;
  }

  /** The first half of the unlock, as far as the second one sees it. */
  lemma CederResumen(s: Sched, p: nat, m: nat)
    requires Inv(s) && m < |s.mutexes| && Tiene(s, p, m) && Algo(p) in s.l.exec
    ensures var t := Ceder(s, m);
      && p in s.pcbs && p in t.pcbs && t.pcbs[p].original == s.pcbs[p].original && t.l.exec == s.l.exec
      && |t.mutexes| == |s.mutexes|
      && (forall k :: 0 <= k < |s.mutexes| ==> Esperan(t.mutexes, p, k) == Esperan(s.mutexes[m := s.mutexes[m].(cola := [])], p, k))
      && (forall k, w :: 0 <= k < |s.mutexes| && k != m && w in s.mutexes[k].cola ==> Prio(t.pcbs, w) == Prio(s.pcbs, w))
  {
    hide Vivos, Niveles, Esperas, Pids, Entregar, MinCola, Efecto, ParejoCpu, AvisaDespertar;
    assert MutexOk(s.pcbs, s.mutexes[m]);
    QuienCorre(s, {}, p);
    if s.mutexes[m].cola != [] {
      EntregarEfecto(s, m, {});
      var sig := s.mutexes[m].cola[0];
      assert sig in s.mutexes[m].cola;
      forall k, w | 0 <= k < |s.mutexes| && k != m && w in s.mutexes[k].cola ensures w != sig {
        UnicaCola(s, {}, m, k, sig);
      }
    }
  }

  lemma UnlockTranquila(s: Sched, p: nat, nombre: string)
    requires Inv(s) && Expropia(s.pol) && s.plan.Aparcado? && NadieMejor(s) && Admite(s, AUnlock(p, nombre)) && !AvisaUnlock(s, nombre)
    ensures NadieMejor(Unlock(s, p, nombre)) <==> !Inquieta(s, AUnlock(p, nombre))
  {
    hide Vivos, Niveles, Esperas, Pids, Entregar, AvisaDespertar, Recalcular, NadieMejor;
    var r := BuscarMutex(s.mutexes, nombre);
    if r.Algo? {
      var m := r.valor;
      assert MutexOk(s.pcbs, s.mutexes[m]);
      CederPaso(s, p, m);
      var t := Ceder(s, m);
      CederAparte(s, m);
      AparteSerena(s, t);
      PrioTrasUnlock(s, p, nombre, m);
      hide Inv, Mutexes, Efecto, Falta;
      RecalcularOrden(s, t, p);
    }
  }

  lemma CederAparte(s: Sched, m: nat)
    requires Inv(s) && m < |s.mutexes| && Expropia(s.pol) && !AvisaCeder(s, m)
    ensures Aparte(s, Ceder(s, m))
  {
    hide Base, Entregar;
    if s.mutexes[m].cola != [] {
      EntregarAparte(s, m, {});
    }
  }

  /** Only the caller's priority may become worse. */
  lemma RecalcularOrden(s: Sched, t: Sched, p: nat)
    requires Inv(s) && Inv(t) && s.pol.cmn && NadieMejor(s) && Serena(s, t) && t.l.exec == s.l.exec && Algo(p) in s.l.exec
    ensures NadieMejor(Recalcular(t, p)) <==>
      Primero(s.l.colas).Nada? || Prio(Recalcular(t, p).pcbs, p) <= Prio(s.pcbs, Primero(s.l.colas).valor)
  {
    var u := Recalcular(t, p);
    QuienCorre(t, {}, p);
    RecalcularOtros(t, p);
    hide Recalcular, NivelDe;
    var r := Primero(s.l.colas);
    if r.Algo? {
      PrimeroEsta(s);
    }
    forall q: nat | NivelDe(s.l.colas, q).Algo? ensures r.Algo? && Prio(s.pcbs, r.valor) <= Prio(s.pcbs, q) && q != p {
      PrimeroEsMejor(s, q);
    }
  }

  lemma RecalcularOtros(t: Sched, p: nat)
    ensures var u := Recalcular(t, p); u.l == t.l && forall q: nat :: q != p ==> Prio(u.pcbs, q) == Prio(t.pcbs, q)
  {
  }

  /** A handler that does not tell the planner, and none of those above, changes neither the
      queues nor the CPUs. */
  lemma RestoSereno(s: Sched, a: Accion)
    requires Inv(s) && Expropia(s.pol) && s.plan.Aparcado? && Admite(s, a) && !Avisa(s, a)
    requires !a.ACrear? && !a.ACompactacion? && !a.AIniciarCompactacion? && !a.AUnlock? && !a.ADesconectar? && !EsPlan(a)
    ensures Serena(s, Paso(s, a))
  {
    hide Vivos, Niveles, Esperas, Mutexes, Pids, Despertar, EsperarMutex, Senal, Elegido;
    match a
    case AFinIO(p, ok) =>
      var u := s.(io := s.io - {p});
      FinBase(s, p, u);
      DespertarAparte(u, p);
      AparteSerena(s, Despertar(u, p));
    case ATimer(p, token, bytes, ok) =>
    case _ =>
  }

  lemma PlanDormido(s: Sched, a: Accion)
    requires s.plan.Aparcado? && EsPlan(a)
    ensures PasoPlan(s, a) == if a.ASenal? then s.(plan := Espera) else s
  {
  }

  /** While the planner sleeps no ready process is better than a running one; this survives a step
      exactly if it is not one of those. */
  lemma {:induction false} TranquilaExacta(s: Sched, a: Accion)
    requires Inv(s) && Fichas(s) && Expropia(s.pol) && Tranquila(s) && Admite(s, a)
    ensures Tranquila(Paso(s, a)) <==> !Inquieta(s, a)
  {
    hide Inv, Fichas, NadieMejor, Avisa, PlanOk, Exceso, Falta, Desvio, CrearProceso, DesalojarCompactacion, Unlock, DesconectarCpu, Decidir, Victima;
    PasoSaldo(s, a);
    var t := Paso(s, a);
    if s.plan.Aparcado? && !Avisa(s, a) {
      DormidoExacta(s, a);
    } else if t.plan.Aparcado? {
      DespiertoDecide(s);
    } else {
      AvisaNoInquieta(s, a);
    }
  }

  lemma AvisaNoInquieta(s: Sched, a: Accion)
    ensures s.plan.Aparcado? && Avisa(s, a) ==> !Inquieta(s, a)
  {
  }

  lemma DespiertoDecide(s: Sched)
    requires Inv(s) && Expropia(s.pol) && !s.plan.Aparcado? && Decidir(s).plan.Aparcado?
    ensures NadieMejor(Decidir(s))
  {
    hide Inv, NadieMejor;
    DecidirCorrecto(s, Decidir(s));
  }

  lemma DormidoExacta(s: Sched, a: Accion)
    requires Inv(s) && Expropia(s.pol) && s.plan.Aparcado? && NadieMejor(s) && Admite(s, a) && !Avisa(s, a)
    ensures NadieMejor(Paso(s, a)) <==> !Inquieta(s, a)
  {
    hide Inv, NadieMejor, Victima, CrearProceso, DesalojarCompactacion, Unlock, DesconectarCpu, AvisaDespertar, AvisaMuerte, PasoPlan, Serena;
    if EsPlan(a) {
      PlanDormido(s, a);
    } else {
      match a
      case ACrear(x, ok) => CrearTranquila(s, x, ok);
      case ACompactacion(p) => DesalojoDormido(s, p);
      case AIniciarCompactacion(p) =>
        DesalojoDormido(s, p);
        if CpuCon(s.l.exec, p).Algo? {
          MismoOrden(DesalojarCompactacion(s, p), IniciarCompactacion(s, p));
        }
      case AUnlock(p, nombre) => UnlockTranquila(s, p, nombre);
      case ADesconectar(i) => DesconectarTranquila(s, i);
      case _ => RestoTranquilo(s, a);
    }
  }

  lemma DesalojoDormido(s: Sched, p: nat)
    requires Inv(s) && Expropia(s.pol) && NadieMejor(s)
    ensures NadieMejor(DesalojarCompactacion(s, p)) <==> Algo(p) !in s.l.exec || Victima(s, Prio(s.pcbs, p)).Nada?
  {
    hide Inv, NadieMejor, Victima;
    if Algo(p) in s.l.exec {
      CompactarTranquila(s, p);
    }
  }

  lemma RestoTranquilo(s: Sched, a: Accion)
    requires Inv(s) && Expropia(s.pol) && s.plan.Aparcado? && NadieMejor(s) && Admite(s, a) && !Avisa(s, a)
    requires !a.ACrear? && !a.ACompactacion? && !a.AIniciarCompactacion? && !a.AUnlock? && !a.ADesconectar? && !EsPlan(a)
    ensures NadieMejor(Paso(s, a))
  {
    hide Inv, Avisa, Admite, Paso, NadieMejor, EsPlan;
    RestoSereno(s, a);
    SerenaTranquila(s, Paso(s, a));
  }

  ghost predicate SinInquietas(s: Sched, acs: seq<Accion>)
    decreases |acs|
  {
    acs == [] || (!Inquieta(s, acs[0]) && SinInquietas(Paso(s, acs[0]), acs[1..]))
  }

  /** Over any run without them, whenever the planner sleeps no ready process is better than a
      running one. */
  lemma {:induction false} CorrerTranquila(s: Sched, acs: seq<Accion>)
    requires Inv(s) && Fichas(s) && Expropia(s.pol) && Tranquila(s) && Posible(s, acs) && SinInquietas(s, acs)
    ensures Tranquila(Correr(s, acs))
    decreases |acs|
  {
    hide Inv, Fichas, Tranquila, Paso, Admite, Inquieta, PlanOk, Exceso, Falta, Avisa, Desvio;
    if acs != [] {
      PasoInv(s, acs[0]);
      PasoSaldo(s, acs[0]);
      TranquilaExacta(s, acs[0]);
      CorrerTranquila(Paso(s, acs[0]), acs[1..]);
    }
  }
}
