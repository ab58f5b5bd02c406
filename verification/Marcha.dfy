/** The planner at work: what wakes it up, whom it dispatches and where, and how it goes on after a
    compaction that caught it with tokens in hand. */
module Marcha {
  import opened Secuencias
  import opened Procesos
  import opened Planificador
  import opened Conservacion
  import opened Acciones
  import opened Ciclo
  import opened Registro
  import opened Trazas

  /** The first of the best queue, `n`, is on CPU `i`, the first that was idle; nothing else moved,
      one token of each kind was used, and the planner is ready for its next turn. */
  ghost predicate DespachadoEn(s: Sched, t: Sched, n: nat, i: nat)
  {
    && n < |s.l.colas| && s.l.colas[n] != [] && (forall k :: 0 <= k < n ==> s.l.colas[k] == [])
    && i < |s.l.exec| && s.l.exec[i].Nada? && (forall k :: 0 <= k < i ==> s.l.exec[k].Algo?)
    && t.l == s.l.(exec := s.l.exec[i := Algo(s.l.colas[n][0])], colas := s.l.colas[n := s.l.colas[n][1..]])
    && t == s.(l := t.l, semReady := t.semReady, semCpu := t.semCpu, plan := Espera)
  }

  ghost predicate Despachado(s: Sched, t: Sched)
  {
    exists n: nat, i: nat :: DespachadoEn(s, t, n, i)
  }

  /** Somebody is ready and a CPU is idle. */
  ghost predicate HayTrabajo(s: Sched)
  {
    Nada in s.l.exec && exists q: nat :: EnAlguna(s.l.colas, q)
  }

  lemma Trabajo(s: Sched) returns (n: nat, i: nat)
    requires HayTrabajo(s)
    ensures n < |s.l.colas| && s.l.colas[n] != [] && (forall k :: 0 <= k < n ==> s.l.colas[k] == [])
    ensures i < |s.l.exec| && s.l.exec[i].Nada? && (forall k :: 0 <= k < i ==> s.l.exec[k].Algo?)
    ensures Listos(s.l.colas) > 0
  {
    HayOciosa(s.l.exec);
    PrimeraOciosa(s.l.exec);
    ReadyVacio(s.l.colas);
    i := CpuLibre(s.l.exec).valor;
    var q: nat :| EnAlguna(s.l.colas, q);
    n := PrimerNivel(s.l.colas).valor;
  }

  // ---------------------------------------------------------------- wake-ups

  /** Where any step that is not a turn of the planner leaves it. */
  lemma {:induction false} PasoPlanificador(s: Sched, a: Accion)
    requires Inv(s) && Fichas(s) && Admite(s, a) && (!EsPlan(a) || a.ASenal?)
    ensures var t := Paso(s, a);
      && (!Avisa(s, a) ==> t.plan == s.plan)
      && (Avisa(s, a) && s.plan.Aparcado? ==> t.plan.Espera?)
      && (Avisa(s, a) && s.plan.Reten? ==> t.plan.ConReady?)
      && (Avisa(s, a) && s.plan.Frenado? ==> if t.compactando then t.plan.Frenado? else t.plan.Espera?)
      && (Avisa(s, a) && s.plan.Pausado? ==> if t.compactando then t.plan.Pausado? else t.plan.ConReady?)
      && (s.plan.Espera? || s.plan.ConReady? || s.plan.ConAmbos? || s.plan.ConMano? ==> t.plan == s.plan)
  {
    hide Inv, Fichas, Admite, Paso, Avisa, PlanOk, Exceso, Falta, Desvio;
    PasoSaldo(s, a);
  }

  /** The end of a compaction takes the planner out of whatever sleep it was in, and posts the CPU
      tokens that it owes. */
  lemma {:induction false} FinDespierta(s: Sched, k: nat)
    requires Inv(s) && Fichas(s) && k < |s.abiertas| && s.abiertas[k] > 0
    ensures var t := Paso(s, AFinCompactacion(k));
      && (s.plan.Frenado? || s.plan.Aparcado? ==> t.plan.Espera?)
      && (s.plan.Reten? || s.plan.Pausado? ==> t.plan.ConReady?)
      && (s.plan.Espera? || s.plan.ConReady? || s.plan.ConAmbos? || s.plan.ConMano? ==> t.plan == s.plan)
      && t.l == s.l && t.pcbs == s.pcbs && t.pol == s.pol
      && !t.compactando && t.semCpu == s.semCpu + s.abiertas[k] && t.semReady == s.semReady
  {
    hide Inv, Fichas, FinCompactacion, PlanOk, Exceso, Falta, Desvio;
    PasoPlanificador(s, AFinCompactacion(k));
    FinPaso(s, k);
    FinIgual(s, k);
    FinEscrito(s, k);
    FinBandera(s, k, FinCompactacion(s, k));
  }

  lemma FinBandera(s: Sched, k: nat, t: Sched)
    requires k < |s.abiertas| && Escrito(s, AFinCompactacion(k), t)
    ensures !t.compactando
  {
    hide PcbsTras, TimersTras, IOTras, BytesTras;
  }

  // ---------------------------------------------------------------- turns

  /** Without preemption: three turns put the first of the best queue on the first idle CPU. */
  lemma {:induction false} TresTurnos(s: Sched)
    requires s.plan.Espera? && !(s.pol.cmn && s.pol.desalojo) && !s.compactando && s.semReady > 0 && s.semCpu > 0 && HayTrabajo(s)
    ensures var acs := [ATomarReady, ATomarCpu, ADespachar];
      && Posible(s, acs) && Despachado(s, Correr(s, acs))
      && Correr(s, acs).semReady == s.semReady - 1 && Correr(s, acs).semCpu == s.semCpu - 1
  {
    hide Paso, Admite, HayTrabajo, DespachadoEn;
    var n, i := Trabajo(s);
    var t := s.(l := s.l.(exec := s.l.exec[i := Algo(s.l.colas[n][0])], colas := s.l.colas[n := s.l.colas[n][1..]]),
                semReady := s.semReady - 1, semCpu := s.semCpu - 1);
    DaDespacho(s, n, i, t);
    var u := s.(semReady := s.semReady - 1, plan := ConReady);
    var v := u.(semCpu := s.semCpu - 1, plan := ConAmbos);
    TresPasos(s, ATomarReady, u, ATomarCpu, v, ADespachar, t);
    EsDespacho(s, t, n, i);
  }

  lemma EsDespacho(s: Sched, t: Sched, n: nat, i: nat)
    requires n < |s.l.colas| && s.l.colas[n] != [] && (forall k :: 0 <= k < n ==> s.l.colas[k] == [])
    requires i < |s.l.exec| && s.l.exec[i].Nada? && (forall k :: 0 <= k < i ==> s.l.exec[k].Algo?)
    requires t.l == s.l.(exec := s.l.exec[i := Algo(s.l.colas[n][0])], colas := s.l.colas[n := s.l.colas[n][1..]])
    requires t == s.(l := t.l, semReady := t.semReady, semCpu := t.semCpu, plan := Espera)
    ensures Despachado(s, t)
  {
    assert DespachadoEn(s, t, n, i);
  }

  lemma TresPasos(s: Sched, a: Accion, t: Sched, b: Accion, u: Sched, c: Accion, v: Sched)
    requires Da(s, a, t) && Da(t, b, u) && Da(u, c, v)
    ensures Posible(s, [a, b, c]) && Correr(s, [a, b, c]) == v
  {
    hide Paso, Admite;
    DosPasos(t, b, u, c, v);
    assert [a, b, c][1..] == [b, c];
  }

  lemma DosPasos(s: Sched, a: Accion, t: Sched, b: Accion, u: Sched)
    requires Da(s, a, t) && Da(t, b, u)
    ensures Posible(s, [a, b]) && Correr(s, [a, b]) == u
  {
    hide Paso, Admite;
    UnPaso(t, b);
    assert [a, b][1..] == [b];
  }

  /** With preemption: two turns. */
  lemma {:induction false} DosTurnos(s: Sched)
    requires s.plan.Espera? && s.pol.cmn && s.pol.desalojo && !s.compactando && s.semReady > 0 && s.semCpu > 0 && HayTrabajo(s)
    ensures var acs := [ATomarReady, ADecidir];
      && Posible(s, acs) && Despachado(s, Correr(s, acs))
      && Correr(s, acs).semReady == s.semReady - 1 && Correr(s, acs).semCpu == s.semCpu - 1
  {
    hide Paso, Admite, HayTrabajo, DespachadoEn;
    var n, i := Trabajo(s);
    var u := s.(semReady := s.semReady - 1, plan := ConReady);
    var t := s.(l := s.l.(exec := s.l.exec[i := Algo(s.l.colas[n][0])], colas := s.l.colas[n := s.l.colas[n][1..]]),
                semReady := s.semReady - 1, semCpu := s.semCpu - 1);
    DaTomar(s, u);
    DaDecidir(u, n, i, t);
    DosPasos(s, ATomarReady, u, ADecidir, t);
    EsDespacho(s, t, n, i);
  }

  /** The victim's CPU arrives: the process in hand gets the first idle one. */
  lemma {:induction false} TurnoDeLaMano(s: Sched, q: nat)
    requires s.plan.ConMano? && s.l.mano == Algo(q) && s.semCpu > 0 && Nada in s.l.exec
    ensures var t := Paso(s, ADespacharMano);
      && (exists i :: 0 <= i < |s.l.exec| && s.l.exec[i].Nada? && (forall k :: 0 <= k < i ==> s.l.exec[k].Algo?)
                      && t.l == s.l.(exec := s.l.exec[i := Algo(q)], mano := Nada))
      && t.plan.Espera? && t.semCpu == s.semCpu - 1 && t.semReady == s.semReady
  {
    HayOciosa(s.l.exec);
    PrimeraOciosa(s.l.exec);
    var i := CpuLibre(s.l.exec).valor;
    assert Paso(s, ADespacharMano).l == s.l.(exec := s.l.exec[i := Algo(q)], mano := Nada);
  }

  /** During a compaction the planner moves nobody: it gives back what it has in hand and sleeps,
      keeping one token only with several queues and without preemption. */
  lemma {:induction false} DuermeAlCompactar(s: Sched)
    requires s.compactando
    ensures s.plan.ConAmbos? ==>
      var t := Paso(s, ADespachar);
      && t.semCpu == s.semCpu + 1 && t == s.(semReady := t.semReady, semCpu := t.semCpu, plan := t.plan)
      && (if s.pol.cmn then t.plan.Reten? && t.semReady == s.semReady else t.plan.Frenado? && t.semReady == s.semReady + 1)
    ensures s.plan.ConReady? && s.pol.cmn && s.pol.desalojo ==>
      Paso(s, ADecidir) == s.(semReady := s.semReady + 1, plan := Pausado)
  {
  }

  /** After a compaction the planner goes on.  It slept with one queue (`Frenado`), with several
      (`Reten`) or with preemption (`Pausado`); when the compaction that owes it CPU tokens ends, and
      some process is ready and some CPU idle, its next turns dispatch one. */
  lemma {:induction false} SigueTrasCompactar(s: Sched, k: nat)
    requires Inv(s) && Fichas(s) && k < |s.abiertas| && s.abiertas[k] > 0 && HayTrabajo(s)
    ensures s.plan.Frenado? ==>
      var acs := [AFinCompactacion(k)] + [ATomarReady, ATomarCpu, ADespachar];
      Posible(s, acs) && Despachado(Paso(s, AFinCompactacion(k)), Correr(s, acs))
    ensures s.plan.Reten? ==>
      var acs := [AFinCompactacion(k)] + [ATomarCpu, ADespachar];
      Posible(s, acs) && Despachado(Paso(s, AFinCompactacion(k)), Correr(s, acs))
    ensures s.plan.Pausado? ==>
      var acs := [AFinCompactacion(k)] + [ADecidir];
      Posible(s, acs) && Despachado(Paso(s, AFinCompactacion(k)), Correr(s, acs))
  {
    hide Inv, Paso, Exceso, HayTrabajo, Despachado, FinCompactacion;
    var t := Paso(s, AFinCompactacion(k));
    FinDespierta(s, k);
    MismoTrabajo(s, t);
    UnPaso(s, AFinCompactacion(k));
    CorrerPartido(s, [AFinCompactacion(k)], [ATomarReady, ATomarCpu, ADespachar]);
    CorrerPartido(s, [AFinCompactacion(k)], [ATomarCpu, ADespachar]);
    CorrerPartido(s, [AFinCompactacion(k)], [ADecidir]);
    if s.plan.Frenado? {
      HayFicha(s);
      TresTurnos(t);
    } else if s.plan.Reten? {
      DosUltimos(t);
    } else if s.plan.Pausado? {
      Ultimo(t);
    }
  }

  lemma MismoTrabajo(s: Sched, t: Sched)
    requires t.l == s.l && HayTrabajo(s)
    ensures HayTrabajo(t)
  {
  }

  lemma HayFicha(s: Sched)
    requires Fichas(s) && s.plan.Frenado? && HayTrabajo(s)
    ensures s.semReady > 0
  {
    var n, i := Trabajo(s);
  }

  /** With a ready token in hand, without preemption. */
  lemma DosUltimos(s: Sched)
    requires s.plan.ConReady? && !Expropia(s.pol) && !s.compactando && s.semCpu > 0 && HayTrabajo(s)
    ensures var acs := [ATomarCpu, ADespachar]; Posible(s, acs) && Despachado(s, Correr(s, acs))
  {
    hide Paso, Admite, HayTrabajo, DespachadoEn;
    var n, i := Trabajo(s);
    var v := s.(semCpu := s.semCpu - 1, plan := ConAmbos);
    var t := s.(l := s.l.(exec := s.l.exec[i := Algo(s.l.colas[n][0])], colas := s.l.colas[n := s.l.colas[n][1..]]),
                semCpu := s.semCpu - 1, plan := Espera);
    DaTomarCpu(s, v);
    DaDespachar(v, n, i, t);
    DosPasos(s, ATomarCpu, v, ADespachar, t);
    EsDespacho(s, t, n, i);
  }

  /** With a ready token in hand, with preemption. */
  lemma Ultimo(s: Sched)
    requires s.plan.ConReady? && Expropia(s.pol) && !s.compactando && s.semCpu > 0 && HayTrabajo(s)
    ensures Posible(s, [ADecidir]) && Despachado(s, Correr(s, [ADecidir]))
  {
    hide Paso, Admite, HayTrabajo, DespachadoEn;
    var n, i := Trabajo(s);
    var t := s.(l := s.l.(exec := s.l.exec[i := Algo(s.l.colas[n][0])], colas := s.l.colas[n := s.l.colas[n][1..]]),
                semCpu := s.semCpu - 1, plan := Espera);
    DaDecidir(s, n, i, t);
    UnPaso(s, ADecidir);
    EsDespacho(s, t, n, i);
  }
}
