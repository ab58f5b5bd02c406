/** The ready queues are served first come, first served.  Inheritance takes PCBs out of the
    middle of a queue and puts them at the end of another one; even so, nobody who is not ahead
    of a ready process gets ahead of it while it stays in its level. */
module Turnos {
  import opened Secuencias
  import opened Procesos
  import opened Planificador
  import opened Conservacion
  import opened Acciones

  /** Who is ahead of `p` in a queue; everybody, when `p` is not in it. */
  function Delante(c: seq<nat>, p: nat): set<nat>
  {
    if c == [] || c[0] == p then {} else {c[0]} + Delante(c[1..], p)
  }

  /** Whoever stays in a level has nobody new ahead. */
  ghost predicate Turno(x: seq<seq<nat>>, y: seq<seq<nat>>)
  {
    forall n, p: nat :: 0 <= n < |x| && n < |y| && p in x[n] && p in y[n] ==> Delante(y[n], p) <= Delante(x[n], p)
  }

  lemma {:induction false} DelantePrefijo(c: seq<nat>, d: seq<nat>, p: nat)
    requires c <= d && p in c
    ensures Delante(d, p) == Delante(c, p)
  {
    assert c == [c[0]] + c[1..];
    if c[0] != p {
      DelantePrefijo(c[1..], d[1..], p);
    }
  }

  lemma {:induction false} DelanteQuitar(c: seq<nat>, x: nat, p: nat)
    requires p in c && p != x
    ensures p in Quitar(c, x) && Delante(Quitar(c, x), p) <= Delante(c, p)
  {
    assert c == [c[0]] + c[1..];
    if c[0] != p && c[0] != x {
      DelanteQuitar(c[1..], x, p);
      assert ([c[0]] + Quitar(c[1..], x))[1..] == Quitar(c[1..], x);
    }
  }

  // ---------------------------------------------------------------- steps that only append

  ghost predicate Crece(x: seq<seq<nat>>, y: seq<seq<nat>>)
  {
    |x| == |y| && forall n :: 0 <= n < |x| ==> x[n] <= y[n]
  }

  lemma CreceTurno(x: seq<seq<nat>>, y: seq<seq<nat>>)
    requires Crece(x, y)
    ensures Turno(x, y)
  {
    forall n, p: nat | 0 <= n < |x| && p in x[n] ensures Delante(y[n], p) <= Delante(x[n], p) {
      DelantePrefijo(x[n], y[n], p);
    }
  }

  lemma ListoCrece(s: Sched, p: nat)
    ensures Crece(s.l.colas, ListoConAviso(s, p).l.colas)
  {
    hide Senal;
    SenalIgual(ConReadyMas(Listo(s, p)));
  }

  lemma DespertarCrece(s: Sched, p: nat)
    ensures Crece(s.l.colas, Despertar(s, p).l.colas)
  {
    hide ListoConAviso, InsertarPorPrio, Quitar;
    ListoCrece(s.(l := s.l.(block := Quitar(s.l.block, p))), p);
    var l := s.l.(suspBlock := Quitar(s.l.suspBlock, p), suspReady := InsertarPorPrio(s.pcbs, s.l.suspReady, p));
    ListoCrece(s.(l := l.(suspReady := Quitar(l.suspReady, p))), p);
  }

  lemma EntregarCrece(s: Sched, m: nat)
    requires m < |s.mutexes| && s.mutexes[m].cola != []
    ensures Crece(s.l.colas, Entregar(s, m).l.colas)
  {
    hide Despertar, MinCola;
    var mx := s.mutexes[m];
    DespertarCrece(s.(mutexes := s.mutexes[m := mx.(pid := mx.cola[0], contador := mx.contador + 1, cola := mx.cola[1..])],
      pcbs := ConPrio(s.pcbs, mx.cola[0], MinCola(s.pcbs, mx.cola[1..], Prio(s.pcbs, mx.cola[0])))), mx.cola[0]);
  }

  lemma {:induction false} LiberarCrece(s: Sched, p: nat, i: nat)
    requires i <= |s.mutexes|
    ensures Crece(s.l.colas, LiberarMutexes(s, p, i).l.colas)
    decreases |s.mutexes| - i
  {
    hide Entregar;
    if i < |s.mutexes| {
      if s.mutexes[i].pid == p && s.mutexes[i].contador < 1 && s.mutexes[i].cola != [] {
        EntregarCrece(s, i);
      }
      LiberarCrece(LiberarUno(s, p, i), p, i + 1);
    }
  }

  lemma MorirCrece(s: Sched, p: nat)
    ensures Crece(s.l.colas, Morir(s, p).l.colas)
  {
    LiberarCrece(s, p, 0);
  }

  lemma UnlockCrece(s: Sched, p: nat, nombre: string)
    ensures Crece(s.l.colas, Unlock(s, p, nombre).l.colas)
  {
    hide Entregar;
    var r := BuscarMutex(s.mutexes, nombre);
    if r.Algo? && s.mutexes[r.valor].cola != [] {
      EntregarCrece(s, r.valor);
    }
  }

  lemma BloquearCrece(s: Sched, p: nat)
    ensures Bloquear(s, p).l.colas == s.l.colas
    ensures Bloquear(s, p).pol == s.pol && forall q: nat :: Prio(Bloquear(s, p).pcbs, q) == Prio(s.pcbs, q)
  {
  }

  lemma LiberarIgual(s: Sched)
    ensures LiberarCpu(s).l == s.l && LiberarCpu(s).pol == s.pol && LiberarCpu(s).pcbs == s.pcbs
  {
  }

  // ---------------------------------------------------------------- inheritance

  /** Priorities only improve; whoever keeps its level keeps its turn. */
  ghost predicate Mejora(s: Sched, t: Sched)
  {
    && t.pol == s.pol && |t.l.colas| == |s.l.colas|
    && (forall p: nat :: Nivel(t, p) <= Nivel(s, p))
    && forall n, p: nat :: 0 <= n < |s.l.colas| && p in s.l.colas[n] && Nivel(t, p) == Nivel(s, p)
         ==> p in t.l.colas[n] && Delante(t.l.colas[n], p) <= Delante(s.l.colas[n], p)
  }

  lemma MejoraTransitiva(s: Sched, t: Sched, u: Sched)
    requires Mejora(s, t) && Mejora(t, u)
    ensures Mejora(s, u)
  {
    hide Nivel;
    forall n, p: nat | 0 <= n < |s.l.colas| && p in s.l.colas[n] && Nivel(u, p) == Nivel(s, p)
      ensures p in u.l.colas[n] && Delante(u.l.colas[n], p) <= Delante(s.l.colas[n], p)
    {
      assert Nivel(u, p) <= Nivel(t, p) <= Nivel(s, p);
    }
  }

  lemma ListoMejora(s: Sched, p: nat)
    ensures Mejora(s, Listo(s, p))
  {
    var t := Listo(s, p);
    forall n, q: nat | 0 <= n < |s.l.colas| && q in s.l.colas[n]
      ensures q in t.l.colas[n] && Delante(t.l.colas[n], q) <= Delante(s.l.colas[n], q)
    {
      assert s.l.colas[n] <= t.l.colas[n];
      DelantePrefijo(s.l.colas[n], t.l.colas[n], q);
    }
  }

  /** Whoever inherits leaves its queue: its own priority is strictly better from then on. */
  lemma SalirMejora(s: Sched, p: nat, x: nat)
    requires x < Prio(s.pcbs, p)
    ensures EnCola(s, p) ==> Mejora(s, s.(l := Extraer(s.l, p), pcbs := ConPrio(s.pcbs, p, x)))
    ensures Mejora(s, s.(pcbs := ConPrio(s.pcbs, p, x)))
  {
    if EnCola(s, p) {
      var t := s.(l := Extraer(s.l, p), pcbs := ConPrio(s.pcbs, p, x));
      forall n, q: nat | 0 <= n < |s.l.colas| && q in s.l.colas[n] && Nivel(t, q) == Nivel(s, q)
        ensures q in t.l.colas[n] && Delante(t.l.colas[n], q) <= Delante(s.l.colas[n], q)
      {
        DelanteQuitar(s.l.colas[n], p, q);
      }
    }
  }

  lemma HeredarMejora(s: Sched, p: nat, x: nat)
    requires x < Prio(s.pcbs, p)
    ensures Mejora(s, Heredar(s, p, x))
  {
    SalirMejora(s, p, x);
    if EnCola(s, p) {
      var t := s.(l := Extraer(s.l, p), pcbs := ConPrio(s.pcbs, p, x));
      ListoMejora(t, p);
      MejoraTransitiva(s, t, Listo(t, p));
    }
  }

  lemma {:induction false} HeredarOtrosMejora(s: Sched, d: nat, i: nat)
    requires i <= |s.mutexes|
    ensures Mejora(s, HeredarOtros(s, d, i))
    decreases |s.mutexes| - i
  {
    hide Mejora;
    if i == |s.mutexes| {
      Quieta(s, s);
    } else {
      var u := s.mutexes[i];
      if Prio(s.pcbs, d) < Prio(s.pcbs, u.pid) {
        HeredarMejora(s, u.pid, Prio(s.pcbs, d));
      }
      Quieta(s, s);
      HeredarOtrosMejora(HeredarEn(s, d, i), d, i + 1);
      MejoraTransitiva(s, HeredarEn(s, d, i), HeredarOtros(s, d, i));
    }
  }

  /** Neither queues nor priorities change. */
  lemma Quieta(s: Sched, t: Sched)
    requires t.pol == s.pol && t.l.colas == s.l.colas && forall p: nat :: Prio(t.pcbs, p) == Prio(s.pcbs, p)
    ensures Mejora(s, t)
  {
  }

  lemma HeredarDuenoMejora(s: Sched, d: nat, x: nat)
    requires x < Prio(s.pcbs, d)
    ensures Mejora(s, HeredarDueno(s, d, x))
  {
    hide Mejora, HeredarOtros, Listo;
    SalirMejora(s, d, x);
    var t := if EnCola(s, d) then s.(l := Extraer(s.l, d), pcbs := ConPrio(s.pcbs, d, x))
             else s.(pcbs := ConPrio(s.pcbs, d, x));
    HeredarOtrosMejora(t, d, 0);
    MejoraTransitiva(s, t, HeredarOtros(t, d, 0));
    ListoMejora(HeredarOtros(t, d, 0), d);
    MejoraTransitiva(s, HeredarOtros(t, d, 0), Listo(HeredarOtros(t, d, 0), d));
  }

  lemma EsperarMejora(s: Sched, p: nat, m: nat)
    requires m < |s.mutexes|
    ensures Mejora(s, EsperarMutex(s, p, m))
  {
    hide Mejora, HeredarDueno, Bloquear, Senal, LiberarCpu;
    var mx := s.mutexes[m];
    var x := Prio(s.pcbs, p);
    var t := s.(mutexes := s.mutexes[m := mx.(contador := mx.contador - 1, cola := mx.cola + [p])]);
    Quieta(s, t);
    if x < Prio(s.pcbs, mx.pid) {
      var h := HeredarDueno(t, mx.pid, x);
      HeredarDuenoMejora(t, mx.pid, x);
      MejoraTransitiva(s, t, h);
      SenalIgual(h);
      Quieta(h, DespertarPlan(h));
      MejoraTransitiva(s, h, DespertarPlan(h));
    }
    var u := if Ubicado(s.l, mx.pid) && x < Prio(s.pcbs, mx.pid) then DespertarPlan(HeredarDueno(t, mx.pid, x)) else t;
    BloquearCrece(u, p);
    LiberarIgual(Bloquear(u, p));
    Quieta(u, LiberarCpu(Bloquear(u, p)));
    MejoraTransitiva(s, u, LiberarCpu(Bloquear(u, p)));
  }

  lemma MejoraTurno(s: Sched, t: Sched)
    requires Mejora(s, t) && Niveles(s) && Niveles(t)
    ensures Turno(s.l.colas, t.l.colas)
  {
    forall n, p: nat | 0 <= n < |s.l.colas| && p in s.l.colas[n] && p in t.l.colas[n]
      ensures Delante(t.l.colas[n], p) <= Delante(s.l.colas[n], p)
    {
      assert Nivel(s, p) == Nivel(t, p);
    }
  }

  lemma LockTurno(s: Sched, p: nat, nombre: string)
    requires Inv(s) && Admite(s, ALock(p, nombre))
    ensures Turno(s.l.colas, Lock(s, p, nombre).l.colas)
  {
    hide Vivos, Niveles, Esperas, Mutexes, Pids, EsperarMutex, Mejora, Delante;
    var r := BuscarMutex(s.mutexes, nombre);
    LockPaso(s, p, nombre);
    if r.Algo? {
      EsperarMejora(s, p, r.valor);
      if CpuCon(s.l.exec, p).Algo? && s.mutexes[r.valor].contador < 1 {
        MejoraTurno(s, EsperarMutex(s, p, r.valor));
      }
    }
  }

  // ---------------------------------------------------------------- dispatching

  lemma SinRepetidos(s: Sched, n: nat)
    requires Inv(s) && n < |s.l.colas| && s.l.colas[n] != []
    ensures s.l.colas[n][0] !in s.l.colas[n][1..]
  {
    var c := s.l.colas[n];
    var p := c[0];
    ReadyCambia(s.l.colas, n, [], p);
    EnTiene(c[1..], p);
    assert Todos(s.l, p) + Si(p in {}) == if p in s.pcbs then 1 else 0;
  }

  lemma SinPrimeroTurno(s: Sched)
    requires Inv(s)
    ensures Turno(s.l.colas, SinPrimero(s.l).colas)
  {
    var r := PrimerNivel(s.l.colas);
    if r.Algo? {
      SinRepetidos(s, r.valor);
    }
  }

  /** A dispatch for which there is no idle CPU sends the first of the best queue to its end. */
  predicate Reencola(s: Sched, a: Accion)
  {
    (a.ADespachar? || a.ADecidir?) && EnVano(s, a) && PrimerNivel(s.l.colas).Algo? && |s.l.colas[PrimerNivel(s.l.colas).valor]| > 1
  }

  lemma {:induction false} DelanteUltimo(c: seq<nat>, p: nat)
    requires p !in c
    ensures Delante(c + [p], p) == set q | q in c
  {
    if c == [] {
      assert [] + [p] == [p];
    } else {
      assert (c + [p])[1..] == c[1..] + [p];
      assert c == [c[0]] + c[1..];
      DelanteUltimo(c[1..], p);
    }
  }

  /** The first of a queue goes to its end: it has the others ahead, if there are any. */
  lemma RotarTurno(x: seq<seq<nat>>, n: nat)
    requires n < |x| && x[n] != [] && x[n][0] !in x[n][1..]
    ensures Turno(x, x[n := x[n][1..] + [x[n][0]]]) <==> |x[n]| == 1
  {
    var c := x[n];
    var d := c[1..] + [c[0]];
    DelanteUltimo(c[1..], c[0]);
    if |c| == 1 {
      assert d == c && x[n := d] == x;
    } else {
      assert c[1] in c[1..] && c[0] in d && c[0] in c;
      assert c[1] in Delante(d, c[0]) && c[1] !in Delante(c, c[0]);
    }
  }

  /** The head of the best queue was taken and is assigned. */
  lemma AsignarTurno(s: Sched, t: Sched)
    requires Inv(s) && Primero(s.l.colas).Algo? && t.l == SinPrimero(s.l) && t.pcbs == s.pcbs && t.pol == s.pol
    ensures Turno(s.l.colas, Asignar(t, Primero(s.l.colas).valor).l.colas) <==>
      CpuLibre(s.l.exec).Algo? || |s.l.colas[PrimerNivel(s.l.colas).valor]| == 1
  {
    var n := PrimerNivel(s.l.colas).valor;
    var c := s.l.colas[n];
    SinRepetidos(s, n);
    SinPrimeroTurno(s);
    RotarTurno(s.l.colas, n);
    assert Nivel(t, c[0]) == n;
    hide Inv, Turno;
    if CpuLibre(s.l.exec).Nada? {
      assert s.l.colas[n := c[1..]][n := c[1..] + [c[0]]] == s.l.colas[n := c[1..] + [c[0]]];
    }
  }

  lemma DespacharTurno(s: Sched)
    requires Inv(s) && Fichas(s)
    ensures Turno(s.l.colas, Despachar(s).l.colas) <==> !Reencola(s, ADespachar)
  {
    hide Inv, Turno, Asignar, SinPrimero;
    CreceTurno(s.l.colas, s.l.colas);
    if s.plan.ConAmbos? && !s.compactando {
      HayListo(s);
      AsignarTurno(s, s.(l := SinPrimero(s.l), plan := Espera));
    }
  }

  lemma DecidirTurno(s: Sched)
    requires Inv(s) && Fichas(s)
    ensures Turno(s.l.colas, Decidir(s).l.colas) <==> !Reencola(s, ADecidir)
  {
    hide Inv, Turno, Asignar, Victima;
    CreceTurno(s.l.colas, s.l.colas);
    SinPrimeroTurno(s);
    if s.plan.ConReady? && Expropia(s.pol) && !s.compactando && Primero(s.l.colas).Algo? {
      AsignarTurno(s, s.(l := SinPrimero(s.l), semCpu := s.semCpu - 1, plan := Espera));
    }
  }

  lemma ManoTurno(s: Sched)
    ensures Turno(s.l.colas, DespacharMano(s).l.colas)
  {
    CreceTurno(s.l.colas, DespacharMano(s).l.colas);
  }

  lemma PlanTurno(s: Sched, a: Accion)
    requires Inv(s) && Fichas(s) && EsPlan(a)
    ensures Turno(s.l.colas, PasoPlan(s, a).l.colas) <==> !Reencola(s, a)
  {
    hide Inv, Turno, Despachar, Decidir, DespacharMano, EnVano;
    CreceTurno(s.l.colas, s.l.colas);
    match a
    case ADespachar => DespacharTurno(s);
    case ADecidir => DecidirTurno(s);
    case ADespacharMano => ManoTurno(s);
    case _ =>
  }

  // ---------------------------------------------------------------- steps and runs

  /** An eviction by compaction goes back to the head of its queue, ahead of all those in it. */
  lemma {:induction false} CompactacionAdelanta(s: Sched, p: nat, n: nat)
    requires Inv(s) && Algo(p) in s.l.exec && n == Nivel(s, p)
    ensures n < |s.l.colas|
    ensures DesalojarCompactacion(s, p).l.colas == s.l.colas[n := [p] + s.l.colas[n]]
    ensures Turno(s.l.colas, DesalojarCompactacion(s, p).l.colas) <==> s.l.colas[n] == []
  {
    QuienCorre(s, {}, p);
    PrioEnRango(s, p);
    var c := s.l.colas[n];
    var d := [p] + c;
    hide Inv, Todos;
    if c != [] {
      NoEnCola(s, p, n);
      DelanteCabeza(c, p);
    }
  }

  /** Whoever runs is in no queue. */
  lemma NoEnCola(s: Sched, p: nat, n: nat)
    requires Inv(s) && Algo(p) in s.l.exec && n < |s.l.colas|
    ensures p !in s.l.colas[n]
  {
    QuienCorre(s, {}, p);
  }

  lemma DelanteCabeza(c: seq<nat>, p: nat)
    requires c != [] && p !in c
    ensures c[0] in c && c[0] in [p] + c && p in Delante([p] + c, c[0]) && p !in Delante(c, c[0])
  {
    var d := [p] + c;
    assert d[0] == p && d[1] == c[0] && d[1..] == c;
  }

  /** The steps that put somebody ahead of a process that stays in its level: the eviction of a
      running process by a compaction, when its queue is not empty, and a dispatch in vain. */
  predicate Adelanta(s: Sched, a: Accion)
  {
    match a
    case ACompactacion(p) => Algo(p) in s.l.exec && Nivel(s, p) < |s.l.colas| && s.l.colas[Nivel(s, p)] != []
    case AIniciarCompactacion(p) => Algo(p) in s.l.exec && Nivel(s, p) < |s.l.colas| && s.l.colas[Nivel(s, p)] != []
    case _ => Reencola(s, a)
  }

  lemma DesalojoTurno(s: Sched, p: nat)
    requires Inv(s)
    ensures Turno(s.l.colas, DesalojarCompactacion(s, p).l.colas) <==>
      !(Algo(p) in s.l.exec && Nivel(s, p) < |s.l.colas| && s.l.colas[Nivel(s, p)] != [])
    ensures IniciarCompactacion(s, p).l.colas == DesalojarCompactacion(s, p).l.colas
  {
    hide Inv, Turno;
    if CpuCon(s.l.exec, p).Algo? {
      CompactacionAdelanta(s, p, Nivel(s, p));
    } else {
      CreceTurno(s.l.colas, s.l.colas);
    }
  }

  /** The handlers that only append to the queues. */
  lemma PasoCrece(s: Sched, a: Accion)
    requires !a.ACompactacion? && !a.AIniciarCompactacion? && !a.ALock? && !EsPlan(a)
    ensures Crece(s.l.colas, Paso(s, a).l.colas)
  {
    hide ConectarCpu, DesconectarCpu, Desalojar, DesalojarCompactacion, IniciarCompactacion, FinCompactacion, Terminar, TerminarIO,
      CrearMutex, Unlock, VenceTimer, Recorrer, CrearProceso, Lock, PedirIO, PasoPlan, Crece;
    match a
    case ADesconectar(i) => SalidaCrece(s, i);
    case ATerminar(p) => TerminarCrece(s, p);
    case AIO(p, tipo, ok) => IOCrece(s, p, tipo, ok);
    case AFinIO(p, ok) => FinIOCrece(s, p, ok);
    case AUnlock(p, nombre) => UnlockCrece(s, p, nombre);
    case AFinCompactacion(k) => FinCrece(s, k);
    case AConectar => ConectarCrece(s);
    case ADesalojo(p) => DesalojoCrece(s, p);
    case ARecorrer(lista, ok) => RecorrerCrece(s, lista, ok);
    case ACrear(x, ok) => NuevoCrece(s, x, ok);
    case ATimer(p, token, bytes, ok) => TimerCrece(s, p, token, bytes, ok);
    case ACrearMutex(nombre) => MutexCrece(s, nombre);
  }

  lemma SalidaCrece(s: Sched, i: nat)
    ensures i < |s.l.exec| ==> Crece(s.l.colas, DesconectarCpu(s, i).l.colas)
    ensures Crece(s.l.colas, s.l.colas)
  {
    hide Morir;
    if i < |s.l.exec| && s.l.exec[i].Algo? {
      MorirCrece(s.(l := s.l.(exec := s.l.exec[..i] + s.l.exec[i + 1..])), s.l.exec[i].valor);
    }
  }

  lemma TerminarCrece(s: Sched, p: nat)
    ensures Crece(s.l.colas, Terminar(s, p).l.colas)
  {
    hide Morir, LiberarCpu;
    if CpuCon(s.l.exec, p).Algo? {
      var t := s.(l := Soltar(s.l, CpuCon(s.l.exec, p).valor));
      MorirCrece(t, p);
      LiberarIgual(Morir(t, p));
    }
  }

  lemma IOCrece(s: Sched, p: nat, tipo: TipoIO, ok: bool)
    ensures Crece(s.l.colas, PedirIO(s, p, tipo, ok).l.colas)
  {
    hide Bloquear, LiberarCpu;
    if CpuCon(s.l.exec, p).Algo? {
      BloquearCrece(s, p);
      var t := Bloquear(s, p);
      LiberarIgual(if tipo.Stdout? && !ok then t else t.(io := t.io[p := tipo]));
    }
  }

  lemma FinIOCrece(s: Sched, p: nat, ok: bool)
    ensures Crece(s.l.colas, TerminarIO(s, p, ok).l.colas)
  {
    hide Despertar, DespertarPlan, Quitar, EsTipo;
    var u := s.(io := s.io - {p});
    DespertarCrece(u, p);
    SenalIgual(Despertar(u, p));
  }

  lemma ConectarCrece(s: Sched)
    ensures ConectarCpu(s).l.colas == s.l.colas && Crece(s.l.colas, s.l.colas)
  {
  }

  lemma NuevoCrece(s: Sched, x: int, ok: bool)
    ensures Crece(s.l.colas, CrearProceso(s, x, ok).l.colas)
  {
  }

  lemma TimerCrece(s: Sched, p: nat, token: nat, bytes: nat, ok: bool)
    ensures VenceTimer(s, p, token, bytes, ok).l.colas == s.l.colas && Crece(s.l.colas, s.l.colas)
  {
    hide Quitar;
  }

  lemma MutexCrece(s: Sched, nombre: string)
    ensures CrearMutex(s, nombre).l.colas == s.l.colas && Crece(s.l.colas, s.l.colas)
  {
  }

  lemma FinCrece(s: Sched, k: nat)
    ensures k < |s.abiertas| ==> FinCompactacion(s, k).l == s.l
    ensures Crece(s.l.colas, s.l.colas)
  {
  }

  lemma DesalojoCrece(s: Sched, p: nat)
    ensures Crece(s.l.colas, Desalojar(s, p).l.colas)
  {
    hide LiberarCpu;
    var i := CpuCon(s.l.exec, p);
    if i.Algo? {
      LiberarIgual(ConReadyMas(Listo(s.(l := Soltar(s.l, i.valor)), p)));
    }
  }

  lemma RecorrerCrece(s: Sched, lista: set<nat>, ok: bool)
    ensures Crece(s.l.colas, Recorrer(s, lista, ok).l.colas)
  {
    hide ListoConAviso, Quitar;
    var r := Elegido(s.l.suspReady, lista);
    if r.Algo? {
      ListoCrece(s.(l := s.l.(suspReady := Quitar(s.l.suspReady, r.valor))), r.valor);
    }
  }

  /** Nobody new gets ahead of a process that stays ready in its level, exactly if the step is
      not one of those: inheritance, hand-offs and deaths never do it. */
  lemma {:induction false} PasoTurno(s: Sched, a: Accion)
    requires Inv(s) && Fichas(s) && Admite(s, a)
    ensures Turno(s.l.colas, Paso(s, a).l.colas) <==> !Adelanta(s, a)
  {
    hide Inv, Fichas, Delante, Turno, Crece, Lock, PasoPlan, DesalojarCompactacion, IniciarCompactacion, EnVano;
    if EsPlan(a) {
      PlanTurno(s, a);
    } else if a.ACompactacion? || a.AIniciarCompactacion? {
      DesalojoTurno(s, a.pid);
    } else if a.ALock? {
      LockTurno(s, a.pid, a.nombre);
    } else {
      PasoCrece(s, a);
      CreceTurno(s.l.colas, Paso(s, a).l.colas);
    }
  }

  /** `p` waits in level `n` in every state of the run, and no step is one of those. */
  ghost predicate EsperaTurno(s: Sched, acs: seq<Accion>, n: nat, p: nat)
    decreases |acs|
  {
    n < |s.l.colas| && p in s.l.colas[n]
    && (acs != [] ==> !Adelanta(s, acs[0]) && EsperaTurno(Paso(s, acs[0]), acs[1..], n, p))
  }

  /** First come, first served, over any run: while `p` waits in level `n`, the only processes
      that can be taken from that level are those that were ahead of it at the start. */
  lemma {:induction false} SinAdelantarse(s: Sched, acs: seq<Accion>, n: nat, p: nat)
    requires Inv(s) && Fichas(s) && Posible(s, acs) && EsperaTurno(s, acs, n, p)
    ensures var t := Correr(s, acs);
      && n < |t.l.colas| && p in t.l.colas[n] && Delante(t.l.colas[n], p) <= Delante(s.l.colas[n], p)
      && (t.l.colas[n][0] != p ==> t.l.colas[n][0] in Delante(s.l.colas[n], p))
    decreases |acs|
  {
    hide Inv, Fichas, Paso, Admite, Adelanta;
    if acs != [] {
      PasoInv(s, acs[0]);
      PasoTurno(s, acs[0]);
      SinAdelantarse(Paso(s, acs[0]), acs[1..], n, p);
    }
  }
}
