/** A run after which priority inheritance is not exact: a chain of three owners, each waiting for
    the next one, and a better process that asks for the mutex of the first.  The priority is
    passed on to the first two and stops there. */
module Cadena {
  import opened Secuencias
  import opened Procesos
  import opened Planificador
  import opened Conservacion
  import opened Acciones
  import opened Herencia
  import opened Trazas

  /** Two queues, no preemption. */
  const POL: Politica := Politica(true, false, 2)

  const DESPACHO: seq<Accion> := [ATomarReady, ATomarCpu, ADespachar]

  /** Four CPUs arrive; three processes of priority 1 and one of priority 0 are created and
      dispatched; each of the first three takes a mutex, and then 1 asks for that of 0, and 2 for
      that of 1. */
  function Corrida(): seq<Accion>
  {
    CONECTAN + CREAN + DESPACHAN + MUTEXES + TOMAN + ESPERAN
  }

  const CONECTAN: seq<Accion> := [AConectar, AConectar, AConectar, AConectar]
  const CREAN: seq<Accion> := [ACrear(1, true), ACrear(1, true), ACrear(1, true), ACrear(0, true)]
  const DESPACHAN: seq<Accion> := DESPACHO + (DESPACHO + (DESPACHO + DESPACHO))
  const MUTEXES: seq<Accion> := [ACrearMutex("A"), ACrearMutex("B"), ACrearMutex("C")]
  const TOMAN: seq<Accion> := [ALock(0, "A"), ALock(1, "B"), ALock(2, "C")]
  const ESPERAN: seq<Accion> := [ALock(1, "A"), ALock(2, "B")]

  // ---------------------------------------------------------------- the states on the way

  function Momento(exec: seq<Opcion<nat>>, colas: seq<seq<nat>>, pcbs: map<nat, Pcb>, proximo: nat, ready: int, cpu: int): Sched
  {
    Sched(POL, Lugares(exec, colas, [], [], [], Nada), pcbs, [], map[], map[], {}, proximo, ready, cpu, Espera, false, [])
  }

  /** Everybody runs, and these are the mutexes. */
  function ConMutexes(ms: seq<Mutex>): Sched
  {
    Momento([Algo(3), Algo(0), Algo(1), Algo(2)], [[], []], Pcbs(), 4, 0, 0).(mutexes := ms)
  }

  function Pcbs(): map<nat, Pcb>
  {
    map[0 := Pcb(1, 1, 0), 1 := Pcb(1, 1, 0), 2 := Pcb(1, 1, 0), 3 := Pcb(0, 0, 0)]
  }

  /** The end: 3 and 0 run; 1 waits for 0, and 2 for 1. */
  function Final(): Sched
  {
    Sched(POL, Lugares([Algo(3), Algo(0), Nada, Nada], [[], []], [1, 2], [], [], Nada),
      map[0 := Pcb(1, 1, 0), 1 := Pcb(1, 1, 1), 2 := Pcb(1, 1, 1), 3 := Pcb(0, 0, 0)],
      [Mutex("A", 0, -1, [1]), Mutex("B", 1, -1, [2]), Mutex("C", 2, 0, [])],
      map[], map[], {(1, 1), (2, 1)}, 4, 0, 2, Espera, false, [])
  }

  // ---------------------------------------------------------------- CPUs and processes

  lemma Conectan()
    ensures Posible(Inicial(POL), CONECTAN) && Correr(Inicial(POL), CONECTAN) == Momento([Nada, Nada, Nada, Nada], [[], []], map[], 0, 0, 4)
  {
    var s := Inicial(POL);
    assert s.l.colas == [[], []];
    hide Da;
    var s1 := Momento([Nada], [[], []], map[], 0, 0, 1);
    var s2 := Momento([Nada, Nada], [[], []], map[], 0, 0, 2);
    var s3 := Momento([Nada, Nada, Nada], [[], []], map[], 0, 0, 3);
    var s4 := Momento([Nada, Nada, Nada, Nada], [[], []], map[], 0, 0, 4);
    DaConectar(s, s1);
    DaConectar(s1, s2);
    DaConectar(s2, s3);
    DaConectar(s3, s4);
    TrazaCorre(CONECTAN, [s, s1, s2, s3, s4]);
  }

  lemma Crean(s: Sched, t: Sched)
    requires s == Momento([Nada, Nada, Nada, Nada], [[], []], map[], 0, 0, 4)
    requires t == Momento([Nada, Nada, Nada, Nada], [[3], [0, 1, 2]], Pcbs(), 4, 4, 4)
    ensures Posible(s, CREAN) && Correr(s, CREAN) == t
  {
    hide Da;
    var e := s.l.exec;
    var nada: seq<nat> := [];
    assert nada + [0] == [0] && [0] + [1] == [0, 1] && [0, 1] + [2] == [0, 1, 2] && nada + [3] == [3];
    var s1 := Momento(e, [[], [0]], map[0 := Pcb(1, 1, 0)], 1, 1, 4);
    var s2 := Momento(e, [[], [0, 1]], map[0 := Pcb(1, 1, 0), 1 := Pcb(1, 1, 0)], 2, 2, 4);
    var s3 := Momento(e, [[], [0, 1, 2]], map[0 := Pcb(1, 1, 0), 1 := Pcb(1, 1, 0), 2 := Pcb(1, 1, 0)], 3, 3, 4);
    DaCrear(s, 1, 1, s1);
    DaCrear(s1, 1, 1, s2);
    DaCrear(s2, 1, 1, s3);
    DaCrear(s3, 0, 0, t);
    TrazaCorre(CREAN, [s, s1, s2, s3, t]);
  }

  /** One dispatch: the first of the best queue goes to the first idle CPU. */
  lemma Despacha(s: Sched, i: nat, n: nat, t: Sched)
    requires s.pol == POL && s.plan.Espera? && !s.compactando && s.semReady > 0 && s.semCpu > 0
    requires i < |s.l.exec| == |t.l.exec| && s.l.exec[i].Nada? && forall k :: 0 <= k < i ==> s.l.exec[k].Algo?
    requires n < |s.l.colas| == |t.l.colas| && s.l.colas[n] != [] && forall k :: 0 <= k < n ==> s.l.colas[k] == []
    requires t.l.exec == s.l.exec[i := Algo(s.l.colas[n][0])] && t.l.colas == s.l.colas[n := s.l.colas[n][1..]]
    requires t == s.(l := s.l.(exec := t.l.exec, colas := t.l.colas), semReady := s.semReady - 1, semCpu := s.semCpu - 1)
    ensures Posible(s, DESPACHO) && Correr(s, DESPACHO) == t
  {
    hide Da;
    DaDespacho(s, n, i, t);
    var u := s.(semReady := s.semReady - 1, plan := ConReady);
    TrazaCorre(DESPACHO, [s, u, u.(semCpu := s.semCpu - 1, plan := ConAmbos), t]);
  }

  lemma Despachan(s: Sched, t: Sched)
    requires s == Momento([Nada, Nada, Nada, Nada], [[3], [0, 1, 2]], Pcbs(), 4, 4, 4)
    requires t == Momento([Algo(3), Algo(0), Algo(1), Algo(2)], [[], []], Pcbs(), 4, 0, 0)
    ensures Posible(s, DESPACHAN) && Correr(s, DESPACHAN) == t
  {
    hide Correr, Posible, DESPACHO, Pcbs;
    var s1 := Momento([Algo(3), Nada, Nada, Nada], [[], [0, 1, 2]], Pcbs(), 4, 3, 3);
    var s2 := Momento([Algo(3), Algo(0), Nada, Nada], [[], [1, 2]], Pcbs(), 4, 2, 2);
    var s3 := Momento([Algo(3), Algo(0), Algo(1), Nada], [[], [2]], Pcbs(), 4, 1, 1);
    var c3: seq<nat>, c2: seq<nat> := [3], [2];
    assert c3[1..] == [] && c2[1..] == [];
    Despacha(s, 0, 0, s1);
    Despacha(s1, 1, 1, s2);
    Despacha(s2, 2, 1, s3);
    Despacha(s3, 3, 1, t);
    CorrerPartido(s, DESPACHO, DESPACHO + (DESPACHO + DESPACHO));
    CorrerPartido(s1, DESPACHO, DESPACHO + DESPACHO);
    CorrerPartido(s2, DESPACHO, DESPACHO);
  }

  // ---------------------------------------------------------------- mutexes

  /** Three mutexes, A, B and C. */
  ghost predicate Abc(ms: seq<Mutex>)
  {
    |ms| == 3 && ms[0].nombre == "A" && ms[1].nombre == "B" && ms[2].nombre == "C"
  }

  lemma Nombres(ms: seq<Mutex>)
    requires Abc(ms)
    ensures BuscarMutex(ms, "A") == Algo(0) && BuscarMutex(ms, "B") == Algo(1) && BuscarMutex(ms, "C") == Algo(2)
  {
    assert "A"[0] != "B"[0] && "A"[0] != "C"[0] && "B"[0] != "C"[0];
    assert ms[1..][0] == ms[1] && ms[1..][1..][0] == ms[2];
  }

  lemma CrearUno(s: Sched, nombre: string, t: Sched)
    requires BuscarMutex(s.mutexes, nombre).Nada? && t == s.(mutexes := s.mutexes + [Mutex(nombre, NADIE, 1, [])])
    ensures Da(s, ACrearMutex(nombre), t)
  {
  }

  lemma CreanMutexes(s: Sched, t: Sched)
    requires s == ConMutexes([]) && t == ConMutexes([Mutex("A", NADIE, 1, []), Mutex("B", NADIE, 1, []), Mutex("C", NADIE, 1, [])])
    ensures Posible(s, MUTEXES) && Correr(s, MUTEXES) == t
  {
    hide Da, Pcbs;
    var s1 := ConMutexes([Mutex("A", NADIE, 1, [])]);
    var s2 := ConMutexes([Mutex("A", NADIE, 1, []), Mutex("B", NADIE, 1, [])]);
    assert "A"[0] != "B"[0] && "A"[0] != "C"[0] && "B"[0] != "C"[0];
    CrearUno(s, "A", s1);
    CrearUno(s1, "B", s2);
    CrearUno(s2, "C", t);
    TrazaCorre(MUTEXES, [s, s1, s2, t]);
  }

  /** `p` takes mutex `m`. */
  lemma TomaUno(s: Sched, p: nat, nombre: string, m: nat, t: Sched)
    requires BuscarMutex(s.mutexes, nombre) == Algo(m) && Tomado(s, p, m, t)
    ensures Da(s, ALock(p, nombre), t)
  {
    assert t.mutexes == s.mutexes[m := s.mutexes[m].(contador := 0, pid := p)];
  }

  /** Mutex `m` is taken, and nothing else changes. */
  ghost predicate Tomado(s: Sched, p: nat, m: nat, t: Sched)
  {
    && m < |s.mutexes| == |t.mutexes| && (forall k :: 0 <= k < |s.mutexes| && k != m ==> t.mutexes[k] == s.mutexes[k])
    && s.mutexes[m].contador == 1 && t.mutexes[m] == s.mutexes[m].(contador := 0, pid := p)
    && Algo(p) in s.l.exec && t == s.(mutexes := t.mutexes)
  }

  /** The mutexes when those before `n` are taken. */
  function Tomados(n: nat): Sched
  {
    ConMutexes([Mutex("A", if n > 0 then 0 else NADIE, if n > 0 then 0 else 1, []),
                Mutex("B", if n > 1 then 1 else NADIE, if n > 1 then 0 else 1, []),
                Mutex("C", if n > 2 then 2 else NADIE, if n > 2 then 0 else 1, [])])
  }

  lemma TomaN(n: nat)
    requires n < 3
    ensures Tomado(Tomados(n), n, n, Tomados(n + 1)) && Abc(Tomados(n).mutexes)
  {
    var s := Tomados(n);
    assert s.l.exec[1] == Algo(0) && s.l.exec[2] == Algo(1) && s.l.exec[3] == Algo(2);
  }

  lemma TomaPaso(n: nat, nombre: string)
    requires n < 3 && nombre == if n == 0 then "A" else if n == 1 then "B" else "C"
    ensures Da(Tomados(n), ALock(n, nombre), Tomados(n + 1))
  {
    hide Da, Tomados, BuscarMutex;
    TomaN(n);
    Nombres(Tomados(n).mutexes);
    TomaUno(Tomados(n), n, nombre, n, Tomados(n + 1));
  }

  lemma TodosToman(s: Sched, t: Sched)
    requires s == Tomados(0) && t == Tomados(3)
    ensures Posible(s, TOMAN) && Correr(s, TOMAN) == t
  {
    hide Da, Tomados, Posible, Correr;
    TomaPaso(0, "A");
    TomaPaso(1, "B");
    TomaPaso(2, "C");
    TrazaCorre(TOMAN, [s, Tomados(1), Tomados(2), t]);
  }

  /** `p` waits for mutex `m`, whose owner is not worse: nobody inherits. */
  lemma EsperaUno(s: Sched, p: nat, nombre: string, m: nat, i: nat, t: Sched)
    requires BuscarMutex(s.mutexes, nombre) == Algo(m) && CpuCon(s.l.exec, p) == Algo(i) && s.plan.Espera?
    requires s.mutexes[m].contador < 1 && s.mutexes[m].pid != p && Prio(s.pcbs, p) >= Prio(s.pcbs, s.mutexes[m].pid)
    requires Esperando(s, p, m, i, t)
    ensures Da(s, ALock(p, nombre), t)
  {
    hide HeredarDueno;
    var mx := s.mutexes[m];
    assert t.mutexes == s.mutexes[m := mx.(contador := mx.contador - 1, cola := mx.cola + [p])];
  }

  lemma Tercero(a: Opcion<nat>, b: Opcion<nat>, c: Opcion<nat>, d: Opcion<nat>)
    ensures [a, b, c, d][2 := Nada] == [a, b, Nada, d]
  {
  }

  /** After 1 asks for A. */
  function Medio(): Sched
  {
    ConMutexes([Mutex("A", 0, -1, [1]), Mutex("B", 1, 0, []), Mutex("C", 2, 0, [])]).(
      l := Lugares([Algo(3), Algo(0), Nada, Algo(2)], [[], []], [1], [], [], Nada),
      pcbs := Pcbs()[1 := Pcb(1, 1, 1)], timers := {(1, 1)}, semCpu := 1)
  }

  /** What changes when `p` starts to wait for mutex `m`, whose owner is not worse. */
  ghost predicate Esperando(s: Sched, p: nat, m: nat, i: nat, t: Sched)
  {
    && m < |s.mutexes| == |t.mutexes| && i < |s.l.exec| && p in s.pcbs
    && (forall k :: 0 <= k < |s.mutexes| && k != m ==> t.mutexes[k] == s.mutexes[k])
    && (var mx := s.mutexes[m]; t.mutexes[m] == Mutex(mx.nombre, mx.pid, mx.contador - 1, mx.cola + [p]))
    && t.l == s.l.(exec := t.l.exec, block := s.l.block + [p]) && t.l.exec == s.l.exec[i := Nada]
    && t.pcbs == s.pcbs[p := Pcb(s.pcbs[p].prioridad, s.pcbs[p].original, s.pcbs[p].token + 1)]
    && t == s.(mutexes := t.mutexes, l := t.l, pcbs := t.pcbs, timers := s.timers + {(p, s.pcbs[p].token + 1)},
               semCpu := s.semCpu + 1)
  }

  lemma PrimeraEspera(s: Sched)
    requires s == ConMutexes([Mutex("A", 0, 0, []), Mutex("B", 1, 0, []), Mutex("C", 2, 0, [])])
    ensures Esperando(s, 1, 0, 2, Medio())
  {
    Tercero(Algo(3), Algo(0), Algo(1), Algo(2));
  }

  lemma SegundaEspera()
    ensures Esperando(Medio(), 2, 1, 3, Final())
  {
  }

  lemma UnoEnDos(exec: seq<Opcion<nat>>)
    requires |exec| == 4 && exec[0] == Algo(3) && exec[1] == Algo(0) && exec[2] == Algo(1)
    ensures CpuCon(exec, 1) == Algo(2)
  {
    CpuConPrimera(exec, 1, 2);
  }

  lemma PrimeraHalla(s: Sched)
    requires s == ConMutexes([Mutex("A", 0, 0, []), Mutex("B", 1, 0, []), Mutex("C", 2, 0, [])])
    ensures BuscarMutex(s.mutexes, "A") == Algo(0) && CpuCon(s.l.exec, 1) == Algo(2)
    ensures s.mutexes[0] == Mutex("A", 0, 0, []) && Prio(s.pcbs, 1) == Prio(s.pcbs, 0) && s.plan.Espera?
  {
    hide BuscarMutex, CpuCon;
    Nombres(s.mutexes);
    UnoEnDos(s.l.exec);
  }

  lemma EsperaPrimera(s: Sched)
    requires s == ConMutexes([Mutex("A", 0, 0, []), Mutex("B", 1, 0, []), Mutex("C", 2, 0, [])])
    ensures Da(s, ALock(1, "A"), Medio())
  {
    hide Da, Medio, Esperando, BuscarMutex, ConMutexes, CpuCon, Prio;
    PrimeraHalla(s);
    PrimeraEspera(s);
    EsperaUno(s, 1, "A", 0, 2, Medio());
  }

  lemma EsperaSegunda()
    ensures Da(Medio(), ALock(2, "B"), Final())
  {
    hide Da, Final, Esperando, BuscarMutex;
    var s := Medio();
    Nombres(s.mutexes);
    CpuConPrimera(s.l.exec, 2, 3);
    SegundaEspera();
    EsperaUno(s, 2, "B", 1, 3, Final());
  }

  // ---------------------------------------------------------------- the whole run

  lemma Esperan(s: Sched)
    requires s == ConMutexes([Mutex("A", 0, 0, []), Mutex("B", 1, 0, []), Mutex("C", 2, 0, [])])
    ensures Posible(s, ESPERAN) && Correr(s, ESPERAN) == Final()
  {
    hide Da, Final, Medio;
    EsperaPrimera(s);
    EsperaSegunda();
    TrazaCorre(ESPERAN, [s, Medio(), Final()]);
  }

  /** The run goes from the start to that state. */
  lemma CorridaLlega()
    ensures Posible(Inicial(POL), Corrida()) && Correr(Inicial(POL), Corrida()) == Final()
  {
    hide Correr, Posible, Final, Pcbs, DESPACHO, Inicial;
    var e0 := Inicial(POL);
    var e1 := Momento([Nada, Nada, Nada, Nada], [[], []], map[], 0, 0, 4);
    var e2 := Momento([Nada, Nada, Nada, Nada], [[3], [0, 1, 2]], Pcbs(), 4, 4, 4);
    var e3 := ConMutexes([]);
    var e4 := Tomados(0);
    var e5 := Tomados(3);
    Conectan();
    Crean(e1, e2);
    Despachan(e2, e3);
    CreanMutexes(e3, e4);
    TodosToman(e4, e5);
    Esperan(e5);
    Encadena(e0, CONECTAN, e1, CREAN, e2);
    Encadena(e0, CONECTAN + CREAN, e2, DESPACHAN, e3);
    Encadena(e0, CONECTAN + CREAN + DESPACHAN, e3, MUTEXES, e4);
    Encadena(e0, CONECTAN + CREAN + DESPACHAN + MUTEXES, e4, TOMAN, e5);
    Encadena(e0, CONECTAN + CREAN + DESPACHAN + MUTEXES + TOMAN, e5, ESPERAN, Final());
  }

  lemma FinalExacta()
    ensures Exacta(Final())
  {
    var s := Final();
    forall p, w | p in s.pcbs && Aguarda(s.mutexes, w, p) ensures s.pcbs[p].prioridad <= Prio(s.pcbs, w) {
      var m :| 0 <= m < |s.mutexes| && s.mutexes[m].pid == p && w in s.mutexes[m].cola;
      assert w == if m == 0 then 1 else 2;
    }
    forall p | p in s.pcbs ensures EsMinimo(s.pcbs, s.mutexes, p) {}
  }

  lemma FinalRompe(s: Sched)
    requires s == Final()
    ensures Rompe(s, 2, 0)
  {
    var ms := s.mutexes;
    assert 2 in [2] && 1 in [1] && 2 !in [1];
    assert EsperaEn(ms, 2, 1) == Algo(1) && EsperaEn(ms, 2, 0) == Algo(1);
    assert EsperaEn(ms, 1, 0) == Algo(0);
    assert s.l.block[0] == 1 && s.l.block[1] == 2;
  }

  lemma UltimoPide()
    ensures var s := Final();
      Admite(s, ALock(3, "C")) && Algo(3) in s.l.exec && Paso(s, ALock(3, "C")) == EsperarMutex(s, 3, 2)
  {
    hide EsperarMutex, BuscarMutex;
    var s := Final();
    Nombres(s.mutexes);
    assert s.l.exec[0] == Algo(3);
  }

  /** Priorities are exact after the run, and not after 3, whose priority is better, asks for C:
      0 does not inherit. */
  lemma CadenaRota()
    ensures var s := Correr(Inicial(POL), Corrida());
      && Posible(Inicial(POL), Corrida() + [ALock(3, "C")])
      && Exacta(s) && !Exacta(Paso(s, ALock(3, "C")))
  {
    hide Correr, Posible, Rompe, Exacta, EsperarMutex, Inv, Corrida, BuscarMutex, Inicial, Fichas, Paso, Admite;
    CorridaLlega();
    FinalExacta();
    InicialInv(POL);
    CorrerInv(Inicial(POL), Corrida());
    var s := Final();
    FinalRompe(s);
    UltimoPide();
    LockExacta(s, 3, 2);
    CorrerPartido(Inicial(POL), Corrida(), [ALock(3, "C")]);
    UnPaso(s, ALock(3, "C"));
  }
}
