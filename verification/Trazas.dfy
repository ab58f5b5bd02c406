/** Concrete runs of the scheduler, given by the states they go through. */
module Trazas {
  import opened Secuencias
  import opened Procesos
  import opened Planificador
  import opened Conservacion
  import opened Acciones

  /** One step more. */
  lemma Sigue(s0: Sched, acs: seq<Accion>, s: Sched, a: Accion, t: Sched)
    requires Posible(s0, acs) && Correr(s0, acs) == s && Admite(s, a) && Paso(s, a) == t
    ensures Posible(s0, acs + [a]) && Correr(s0, acs + [a]) == t
  {
    CorrerPartido(s0, acs, [a]);
    UnPaso(s, a);
  }

  /** Two runs, one after the other. */
  lemma Encadena(s: Sched, x: seq<Accion>, t: Sched, y: seq<Accion>, u: Sched)
    requires Posible(s, x) && Correr(s, x) == t && Posible(t, y) && Correr(t, y) == u
    ensures Posible(s, x + y) && Correr(s, x + y) == u
  {
    CorrerPartido(s, x, y);
  }

  /** `t` is what step `a` gives from `s`. */
  ghost predicate Da(s: Sched, a: Accion, t: Sched) { Admite(s, a) && Paso(s, a) == t }

  /** A run, step by step; the first state is the one it starts from. */
  ghost predicate Traza(acs: seq<Accion>, ts: seq<Sched>)
  {
    |ts| == |acs| + 1 && forall k, n :: 0 <= k < |acs| && n == k + 1 ==> Da(ts[k], acs[k], ts[n])
  }

  lemma {:induction false} TrazaCorre(acs: seq<Accion>, ts: seq<Sched>)
    requires Traza(acs, ts)
    ensures Posible(ts[0], acs) && Correr(ts[0], acs) == ts[|acs|]
    decreases |acs|
  {
    hide Paso, Admite;
    if acs != [] {
      var n := |acs| - 1;
      assert acs == acs[..n] + [acs[n]];
      TrazaCorre(acs[..n], ts[..n + 1]);
      assert Da(ts[n], acs[n], ts[n + 1]);
      Sigue(ts[0], acs[..n], ts[n], acs[n], ts[n + 1]);
    }
  }

  // ---------------------------------------------------------------- single steps

  lemma DaConectar(s: Sched, t: Sched)
    requires s.plan.Espera? && !s.compactando && t == s.(l := s.l.(exec := s.l.exec + [Nada]), semCpu := s.semCpu + 1)
    ensures Da(s, AConectar, t)
  {
  }

  lemma DaCrear(s: Sched, x: nat, n: nat, t: Sched)
    requires n < |s.l.colas| && (if s.pol.cmn then x == n < s.pol.niveles else n == 0)
    requires t.l == s.l.(colas := t.l.colas) && t.l.colas == s.l.colas[n := s.l.colas[n] + [s.proximo]]
    requires t == s.(l := t.l, pcbs := s.pcbs[s.proximo := Pcb(x, x, 0)], proximo := s.proximo + 1, semReady := s.semReady + 1)
    ensures Da(s, ACrear(x, true), t)
  {
  }

  lemma DaTomar(s: Sched, t: Sched)
    requires s.plan.Espera? && s.semReady > 0 && t == s.(semReady := s.semReady - 1, plan := ConReady)
    ensures Da(s, ATomarReady, t)
  {
  }

  /** The first of queue `n`, the best one, goes to CPU `i`, the first that is idle. */
  lemma DaDecidir(s: Sched, n: nat, i: nat, t: Sched)
    requires s.plan.ConReady? && Expropia(s.pol) && !s.compactando && s.semCpu > 0
    requires i < |s.l.exec| && s.l.exec[i].Nada? && forall k :: 0 <= k < i ==> s.l.exec[k].Algo?
    requires n < |s.l.colas| && s.l.colas[n] != [] && forall k :: 0 <= k < n ==> s.l.colas[k] == []
    requires t.l == s.l.(exec := t.l.exec, colas := t.l.colas)
    requires t.l.exec == s.l.exec[i := Algo(s.l.colas[n][0])] && t.l.colas == s.l.colas[n := s.l.colas[n][1..]]
    requires t == s.(l := t.l, semCpu := s.semCpu - 1, plan := Espera)
    ensures Da(s, ADecidir, t)
  {
    CpuLibrePrimera(s.l.exec, i);
    NivelNoVacio(s.l.colas, n);
  }

  /** The process of CPU `i` goes back to the head of queue `n`, and a compaction begins. */
  lemma DaIniciar(s: Sched, p: nat, i: nat, n: nat, t: Sched)
    requires CpuCon(s.l.exec, p) == Algo(i) && n == Nivel(s, p) < |s.l.colas|
    requires t.l == s.l.(exec := t.l.exec, colas := t.l.colas)
    requires t.l.exec == s.l.exec[i := Nada] && t.l.colas == s.l.colas[n := [p] + s.l.colas[n]]
    requires t == s.(l := t.l, semReady := s.semReady + 1, semCpu := 0, compactando := true,
                     abiertas := s.abiertas + [Ocupadas(s.l.exec)])
    ensures Da(s, AIniciarCompactacion(p), t)
  {
  }

  lemma DaTomarCpu(s: Sched, t: Sched)
    requires s.plan.ConReady? && !Expropia(s.pol) && s.semCpu > 0 && t == s.(semCpu := s.semCpu - 1, plan := ConAmbos)
    ensures Da(s, ATomarCpu, t)
  {
  }

  /** The first of queue `n`, the best one, goes to CPU `i`, the first that is idle. */
  lemma DaDespachar(s: Sched, n: nat, i: nat, t: Sched)
    requires s.plan.ConAmbos? && !s.compactando
    requires i < |s.l.exec| && s.l.exec[i].Nada? && forall k :: 0 <= k < i ==> s.l.exec[k].Algo?
    requires n < |s.l.colas| && s.l.colas[n] != [] && forall k :: 0 <= k < n ==> s.l.colas[k] == []
    requires t.l == s.l.(exec := t.l.exec, colas := t.l.colas)
    requires t.l.exec == s.l.exec[i := Algo(s.l.colas[n][0])] && t.l.colas == s.l.colas[n := s.l.colas[n][1..]]
    requires t == s.(l := t.l, plan := Espera)
    ensures Da(s, ADespachar, t)
  {
    CpuLibrePrimera(s.l.exec, i);
    NivelNoVacio(s.l.colas, n);
  }

  /** Without preemption: the first of queue `n` goes to CPU `i`, in three steps. */
  lemma DaDespacho(s: Sched, n: nat, i: nat, t: Sched)
    requires s.plan.Espera? && !Expropia(s.pol) && !s.compactando && s.semReady > 0 && s.semCpu > 0
    requires i < |s.l.exec| && s.l.exec[i].Nada? && forall k :: 0 <= k < i ==> s.l.exec[k].Algo?
    requires n < |s.l.colas| && s.l.colas[n] != [] && forall k :: 0 <= k < n ==> s.l.colas[k] == []
    requires t.l == s.l.(exec := t.l.exec, colas := t.l.colas)
    requires t.l.exec == s.l.exec[i := Algo(s.l.colas[n][0])] && t.l.colas == s.l.colas[n := s.l.colas[n][1..]]
    requires t == s.(l := t.l, semReady := s.semReady - 1, semCpu := s.semCpu - 1)
    ensures var u := s.(semReady := s.semReady - 1, plan := ConReady);
      var v := u.(semCpu := s.semCpu - 1, plan := ConAmbos);
      Da(s, ATomarReady, u) && Da(u, ATomarCpu, v) && Da(v, ADespachar, t)
  {
    hide Paso, Admite;
    var u := s.(semReady := s.semReady - 1, plan := ConReady);
    var v := u.(semCpu := s.semCpu - 1, plan := ConAmbos);
    DaTomar(s, u);
    DaTomarCpu(u, v);
    DaDespachar(v, n, i, t);
  }
}
