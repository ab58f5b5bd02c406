/** Short runs of the scheduler, from its start, that show where the exact conditions of modules
    Semaforos, Turnos, Expropiacion and Fallos fail. */
module Testigos {
  import opened Secuencias
  import opened Procesos
  import opened Planificador
  import opened Conservacion
  import opened Acciones
  import opened Trazas
  import opened Semaforos
  import opened Turnos
  import opened Expropiacion
  import opened Fallos

  const UNA: Politica := Politica(true, true, 1)

  const DOS: Politica := Politica(true, true, 2)

  const FIFO: Politica := Politica(false, false, 1)

  // ---------------------------------------------------------------- a token too many

  /** One CPU and one process. */
  function Unico(exec: seq<Opcion<nat>>, colas: seq<seq<nat>>, ready: int, cpu: int, plan: Plan, ab: seq<nat>): Sched
  {
    Sched(UNA, Lugares(exec, colas, [], [], [], Nada), map[0 := Pcb(0, 0, 0)], [], map[], map[], {}, 1, ready, cpu, plan,
          ab != [], ab)
  }

  const ARRANQUE: seq<Accion> := [AConectar, ACrear(0, true), ATomarReady, ADecidir]

  /** The process is running. */
  lemma Arranca()
    ensures Posible(Inicial(UNA), ARRANQUE) && Correr(Inicial(UNA), ARRANQUE) == Unico([Algo(0)], [[]], 0, 0, Espera, [])
  {
    hide Da, Unico, Inicial;
    var s0 := Inicial(UNA);
    var s1 := Conectada(UNA);
    var s2 := Unico([Nada], [[0]], 1, 1, Espera, []);
    var s3 := Unico([Nada], [[0]], 0, 1, ConReady, []);
    var s4 := Unico([Algo(0)], [[]], 0, 0, Espera, []);
    Conecta(UNA);
    CreaPrimero();
    TomaFicha();
    Decide();
    TrazaCorre(ARRANQUE, [s0, s1, s2, s3, s4]);
  }

  /** One CPU, and no process yet. */
  function Conectada(pol: Politica): Sched
  {
    Inicial(pol).(l := Inicial(pol).l.(exec := [Nada]), semCpu := 1)
  }

  lemma Conecta(pol: Politica)
    ensures Da(Inicial(pol), AConectar, Conectada(pol))
  {
    hide Da;
    var e: seq<Opcion<nat>> := [];
    assert e + [Nada] == [Nada];
    DaConectar(Inicial(pol), Conectada(pol));
  }

  lemma CreaPrimero()
    ensures Da(Conectada(UNA), ACrear(0, true), Unico([Nada], [[0]], 1, 1, Espera, []))
  {
    hide Da;
    var nada: seq<nat> := [];
    assert nada + [0] == [0] && Conectada(UNA).l.colas == [[]];
    DaCrear(Conectada(UNA), 0, 0, Unico([Nada], [[0]], 1, 1, Espera, []));
  }

  lemma TomaFicha()
    ensures Da(Unico([Nada], [[0]], 1, 1, Espera, []), ATomarReady, Unico([Nada], [[0]], 0, 1, ConReady, []))
  {
    hide Da;
    DaTomar(Unico([Nada], [[0]], 1, 1, Espera, []), Unico([Nada], [[0]], 0, 1, ConReady, []));
  }

  lemma Decide()
    ensures Da(Unico([Nada], [[0]], 0, 1, ConReady, []), ADecidir, Unico([Algo(0)], [[]], 0, 0, Espera, []))
  {
    hide Da;
    var c: seq<nat> := [0];
    assert c[1..] == [];
    DaDecidir(Unico([Nada], [[0]], 0, 1, ConReady, []), 0, 0, Unico([Algo(0)], [[]], 0, 0, Espera, []));
  }

  const PAUSA: seq<Accion> := [AIniciarCompactacion(0), ATomarReady, ADecidir]

  lemma Pausa()
    ensures var s := Unico([Algo(0)], [[]], 0, 0, Espera, []);
      Posible(s, PAUSA) && Correr(s, PAUSA) == Unico([Nada], [[0]], 1, 0, Pausado, [1])
  {
    var s0 := Unico([Algo(0)], [[]], 0, 0, Espera, []);
    var s1 := Unico([Nada], [[0]], 1, 0, Espera, [1]);
    var s2 := Unico([Nada], [[0]], 0, 0, ConReady, [1]);
    var s3 := Unico([Nada], [[0]], 1, 0, Pausado, [1]);
    UnaOcupada();
    var nada: seq<nat> := [];
    assert nada + [1] == [1] && [0] + nada == [0];
    DaIniciar(s0, 0, 0, 0, s1);
    hide Da;
    DaTomar(s1, s2);
    DaPausar(s2, s3);
    TrazaCorre(PAUSA, [s0, s1, s2, s3]);
  }

  lemma UnaOcupada()
    ensures Ocupadas([Algo(0)]) == 1 && CpuCon([Algo(0)], 0) == Algo(0)
  {
    var e: seq<Opcion<nat>> := [Algo(0)];
    assert e[1..] == [];
  }

  lemma DaPausar(s: Sched, t: Sched)
    requires s.plan.ConReady? && Expropia(s.pol) && s.compactando && t == s.(semReady := s.semReady + 1, plan := Pausado)
    ensures Da(s, ADecidir, t)
  {
  }

  /** With preemption, the only process asks for memory and that takes a compaction; the planner
      sleeps through it and, woken up by its end, has one token more than there are ready
      processes.  Up to then the tokens were right. */
  lemma SobraFicha()
    ensures var acs := ARRANQUE + PAUSA;
      var s := Correr(Inicial(UNA), acs);
      && Posible(Inicial(UNA), acs + [AFinCompactacion(0)])
      && CuentaReady(s) && !CuentaReady(Paso(s, AFinCompactacion(0)))
  {
    hide Paso, Inicial, Inv, Fichas, CuentaReady;
    Arranca();
    Pausa();
    var s0 := Inicial(UNA);
    var acs := ARRANQUE + PAUSA;
    CorrerPartido(s0, ARRANQUE, PAUSA);
    var s := Unico([Nada], [[0]], 1, 0, Pausado, [1]);
    UnaSobra(s);
    CorrerPartido(s0, acs, [AFinCompactacion(0)]);
    UnPaso(s, AFinCompactacion(0));
    InicialInv(UNA);
    CorrerInv(s0, acs);
    CuentaReadyExacta(s, AFinCompactacion(0));
  }

  lemma UnaSobra(s: Sched)
    requires s == Unico([Nada], [[0]], 1, 0, Pausado, [1])
    ensures CuentaReady(s) && Despausa(s, AFinCompactacion(0)) && Admite(s, AFinCompactacion(0))
  {
    assert s.l.colas[1..] == [];
  }

  // ---------------------------------------------------------------- a CPU token for nobody

  /** A CPU arrives and leaves, and its token stays: the planner takes it and
      `obtener_cpu_libre` answers NULL. */
  lemma FichaDeNadie()
    ensures var acs := [AConectar, ADesconectar(0), ACrear(0, true), ATomarReady, ATomarCpu];
      var s := Correr(Inicial(FIFO), acs);
      Posible(Inicial(FIFO), acs) && s.plan.ConAmbos? && CpuLibre(s.l.exec).Nada? && !CuentaCpu(s)
  {
    var acs := [AConectar, ADesconectar(0), ACrear(0, true), ATomarReady, ATomarCpu];
    var s0 := Inicial(FIFO);
    var s1 := s0.(l := s0.l.(exec := [Nada]), semCpu := 1);
    var s2 := s0.(semCpu := 1);
    var s3 := s2.(l := s2.l.(colas := [[0]]), pcbs := map[0 := Pcb(0, 0, 0)], proximo := 1, semReady := 1);
    var s4 := s3.(semReady := 0, plan := ConReady);
    var s5 := s4.(semCpu := 0, plan := ConAmbos);
    var nada: seq<nat> := [];
    assert nada + [0] == [0] && s0.l.colas == [[]];
    DaDesconectar(s1, s2);
    DaTomarCpu(s4, s5);
    hide Da;
    DaConectar(s0, s1);
    DaCrear(s2, 0, 0, s3);
    DaTomar(s3, s4);
    TrazaCorre(acs, [s0, s1, s2, s3, s4, s5]);
  }

  lemma DaDesconectar(s: Sched, t: Sched)
    requires s.l.exec == [Nada] && t == s.(l := s.l.(exec := []))
    ensures Da(s, ADesconectar(0), t)
  {
  }

  lemma DaTomarCpu(s: Sched, t: Sched)
    requires s.plan.ConReady? && !Expropia(s.pol) && s.semCpu > 0 && t == s.(semCpu := s.semCpu - 1, plan := ConAmbos)
    ensures Da(s, ATomarCpu, t)
  {
  }

  // ---------------------------------------------------------------- a CPU token too many

  /** Two CPUs, and `n` processes of priority 0 so far. */
  function Dos(exec: seq<Opcion<nat>>, cola: seq<nat>, n: nat, ready: int, cpu: int, plan: Plan): Sched
  {
    Sched(UNA, Lugares(exec, [cola], [], [], [], Nada),
          if n == 0 then map[] else if n == 1 then map[0 := Pcb(0, 0, 0)] else map[0 := Pcb(0, 0, 0), 1 := Pcb(0, 0, 0)],
          [], map[], map[], {}, n, ready, cpu, plan, false, [])
  }

  const DOSCORREN: seq<Accion> :=
    [AConectar, AConectar, ACrear(0, true), ACrear(0, true), ATomarReady, ADecidir, ATomarReady, ADecidir]

  /** Both run. */
  lemma DosCorren()
    ensures Posible(Inicial(UNA), DOSCORREN) && Correr(Inicial(UNA), DOSCORREN) == Dos([Algo(0), Algo(1)], [], 2, 0, 0, Espera)
  {
    hide Da, Dos, Inicial;
    var s2 := Dos([Nada, Nada], [], 0, 0, 2, Espera);
    var s3 := Dos([Nada, Nada], [0], 1, 1, 2, Espera);
    var s4 := Dos([Nada, Nada], [0, 1], 2, 2, 2, Espera);
    var s5 := Dos([Nada, Nada], [0, 1], 2, 1, 2, ConReady);
    var s6 := Dos([Algo(0), Nada], [1], 2, 1, 1, Espera);
    var s7 := Dos([Algo(0), Nada], [1], 2, 0, 1, ConReady);
    var s8 := Dos([Algo(0), Algo(1)], [], 2, 0, 0, Espera);
    Conecta(UNA);
    ConectaOtra();
    CreanDos();
    DecideUno();
    DecideOtro();
    TrazaCorre(DOSCORREN, [Inicial(UNA), Conectada(UNA), s2, s3, s4, s5, s6, s7, s8]);
  }

  lemma ConectaOtra()
    ensures Da(Conectada(UNA), AConectar, Dos([Nada, Nada], [], 0, 0, 2, Espera))
  {
    hide Da;
    var e: seq<Opcion<nat>> := [Nada];
    assert e + [Nada] == [Nada, Nada] && Conectada(UNA).l.colas == [[]];
    DaConectar(Conectada(UNA), Dos([Nada, Nada], [], 0, 0, 2, Espera));
  }

  lemma CreanDos()
    ensures Da(Dos([Nada, Nada], [], 0, 0, 2, Espera), ACrear(0, true), Dos([Nada, Nada], [0], 1, 1, 2, Espera))
    ensures Da(Dos([Nada, Nada], [0], 1, 1, 2, Espera), ACrear(0, true), Dos([Nada, Nada], [0, 1], 2, 2, 2, Espera))
  {
    hide Da;
    var nada: seq<nat>, c: seq<nat> := [], [0];
    assert nada + [0] == [0] && c + [1] == [0, 1];
    DaCrear(Dos([Nada, Nada], [], 0, 0, 2, Espera), 0, 0, Dos([Nada, Nada], [0], 1, 1, 2, Espera));
    DaCrear(Dos([Nada, Nada], [0], 1, 1, 2, Espera), 0, 0, Dos([Nada, Nada], [0, 1], 2, 2, 2, Espera));
  }

  lemma DecideUno()
    ensures Da(Dos([Nada, Nada], [0, 1], 2, 2, 2, Espera), ATomarReady, Dos([Nada, Nada], [0, 1], 2, 1, 2, ConReady))
    ensures Da(Dos([Nada, Nada], [0, 1], 2, 1, 2, ConReady), ADecidir, Dos([Algo(0), Nada], [1], 2, 1, 1, Espera))
  {
    hide Da;
    var c: seq<nat> := [0, 1];
    assert c[1..] == [1];
    DaTomar(Dos([Nada, Nada], [0, 1], 2, 2, 2, Espera), Dos([Nada, Nada], [0, 1], 2, 1, 2, ConReady));
    DaDecidir(Dos([Nada, Nada], [0, 1], 2, 1, 2, ConReady), 0, 0, Dos([Algo(0), Nada], [1], 2, 1, 1, Espera));
  }

  lemma DecideOtro()
    ensures Da(Dos([Algo(0), Nada], [1], 2, 1, 1, Espera), ATomarReady, Dos([Algo(0), Nada], [1], 2, 0, 1, ConReady))
    ensures Da(Dos([Algo(0), Nada], [1], 2, 0, 1, ConReady), ADecidir, Dos([Algo(0), Algo(1)], [], 2, 0, 0, Espera))
  {
    hide Da;
    var c: seq<nat> := [1];
    assert c[1..] == [];
    DaTomar(Dos([Algo(0), Nada], [1], 2, 1, 1, Espera), Dos([Algo(0), Nada], [1], 2, 0, 1, ConReady));
    DaDecidir(Dos([Algo(0), Nada], [1], 2, 0, 1, ConReady), 0, 1, Dos([Algo(0), Algo(1)], [], 2, 0, 0, Espera));
  }

  /** Both CPUs are busy when a compaction begins; the quantum of 1 expires before it is evicted,
      which posts the token of its CPU, and the end of the compaction posts it again. */
  lemma SobraFichaCpu()
    ensures var s := Correr(Inicial(UNA), DOSCORREN);
      var acs := [AIniciarCompactacion(0)] + [ADesalojo(1)] + [AFinCompactacion(0)];
      && Posible(Inicial(UNA), DOSCORREN + acs)
      && CuentaCpu(s) && s.semCpu == 0 && Falta(Correr(s, acs)) == -1
  {
    hide Inicial, Inv, Fichas, Correr, Posible, Falta, IniciarCompactacion, Desalojados, Cambios;
    DosCorren();
    InicialInv(UNA);
    CorrerInv(Inicial(UNA), DOSCORREN);
    var s := Dos([Algo(0), Algo(1)], [], 2, 0, 0, Espera);
    LasDosOcupadas(s);
    var u := IniciarCompactacion(s, 0);
    UnPaso(u, ADesalojo(1));
    UnDesalojo(u);
    CompactacionSola(s, 0, [ADesalojo(1)]);
    CorrerPartido(Inicial(UNA), DOSCORREN, [AIniciarCompactacion(0)] + [ADesalojo(1)] + [AFinCompactacion(0)]);
  }

  lemma LasDosOcupadas(s: Sched)
    requires s == Dos([Algo(0), Algo(1)], [], 2, 0, 0, Espera)
    ensures CuentaCpu(s) && Ocupadas(s.l.exec) == 2 && Algo(0) in s.l.exec
  {
    var e: seq<Opcion<nat>>, f: seq<Opcion<nat>> := [Algo(0), Algo(1)], [Algo(1)];
    assert e[1..] == f && f[1..] == [] && e[0] == Algo(0);
  }

  lemma UnDesalojo(u: Sched)
    ensures Desalojados(u, [ADesalojo(1)]) == 0 && Cambios(u, [ADesalojo(1)]) == 0
  {
    hide Paso;
    var acs := [ADesalojo(1)];
    assert acs[1..] == [];
  }

  // ---------------------------------------------------------------- out of turn, and asleep

  /** One CPU and two processes of priority 1. */
  function Par(exec: seq<Opcion<nat>>, cola: seq<nat>, n: nat, ready: int, cpu: int, plan: Plan): Sched
  {
    Sched(DOS, Lugares(exec, [[], cola], [], [], [], Nada),
          if n == 1 then map[0 := Pcb(1, 1, 0)] else map[0 := Pcb(1, 1, 0), 1 := Pcb(1, 1, 0)],
          [], map[], map[], {}, n, ready, cpu, plan, false, [])
  }

  const DOSLISTOS: seq<Accion> := [AConectar, ACrear(1, true), ATomarReady, ADecidir, ACrear(1, true)]

  /** 0 runs and 1 is ready. */
  lemma DosListos()
    ensures Posible(Inicial(DOS), DOSLISTOS) && Correr(Inicial(DOS), DOSLISTOS) == Par([Algo(0)], [1], 2, 1, 0, Espera)
  {
    hide Da, Par, Inicial;
    var s0 := Inicial(DOS);
    var s1 := Conectada(DOS);
    var s2 := Par([Nada], [0], 1, 1, 1, Espera);
    var s3 := Par([Nada], [0], 1, 0, 1, ConReady);
    var s4 := Par([Algo(0)], [], 1, 0, 0, Espera);
    var s5 := Par([Algo(0)], [1], 2, 1, 0, Espera);
    Conecta(DOS);
    CreaCero();
    TomaCero();
    DecideCero();
    CreaUno();
    TrazaCorre(DOSLISTOS, [s0, s1, s2, s3, s4, s5]);
  }

  lemma CreaCero()
    ensures Da(Conectada(DOS), ACrear(1, true), Par([Nada], [0], 1, 1, 1, Espera))
  {
    hide Da;
    var nada: seq<nat> := [];
    assert nada + [0] == [0] && Conectada(DOS).l.colas == [[], []];
    DaCrear(Conectada(DOS), 1, 1, Par([Nada], [0], 1, 1, 1, Espera));
  }

  lemma TomaCero()
    ensures Da(Par([Nada], [0], 1, 1, 1, Espera), ATomarReady, Par([Nada], [0], 1, 0, 1, ConReady))
  {
    hide Da;
    DaTomar(Par([Nada], [0], 1, 1, 1, Espera), Par([Nada], [0], 1, 0, 1, ConReady));
  }

  lemma DecideCero()
    ensures Da(Par([Nada], [0], 1, 0, 1, ConReady), ADecidir, Par([Algo(0)], [], 1, 0, 0, Espera))
  {
    hide Da;
    var c: seq<nat> := [0];
    assert c[1..] == [];
    DaDecidir(Par([Nada], [0], 1, 0, 1, ConReady), 1, 0, Par([Algo(0)], [], 1, 0, 0, Espera));
  }

  lemma CreaUno()
    ensures Da(Par([Algo(0)], [], 1, 0, 0, Espera), ACrear(1, true), Par([Algo(0)], [1], 2, 1, 0, Espera))
  {
    hide Da;
    var nada: seq<nat> := [];
    assert nada + [1] == [1];
    DaCrear(Par([Algo(0)], [], 1, 0, 0, Espera), 1, 1, Par([Algo(0)], [1], 2, 1, 0, Espera));
  }

  /** 0 is evicted by a compaction and goes back ahead of 1. */
  lemma FueraDeTurno()
    ensures var s := Correr(Inicial(DOS), DOSLISTOS);
      Posible(Inicial(DOS), DOSLISTOS) && Admite(s, ACompactacion(0)) && !Turno(s.l.colas, Paso(s, ACompactacion(0)).l.colas)
  {
    hide Paso, Inicial, Inv, Fichas, Turno;
    DosListos();
    InicialInv(DOS);
    CorrerInv(Inicial(DOS), DOSLISTOS);
    var s := Par([Algo(0)], [1], 2, 1, 0, Espera);
    assert s.l.exec[0] == Algo(0);
    PasoTurno(s, ACompactacion(0));
  }

  /** The planner goes to sleep, because 1 is not better than 0; 2, which is better, is created,
      and it sleeps on. */
  lemma SuenoLargo()
    ensures var acs := DOSLISTOS + [ATomarReady, ADecidir];
      var s := Correr(Inicial(DOS), acs);
      && Posible(Inicial(DOS), acs + [ACrear(0, true)])
      && s.plan.Aparcado? && Tranquila(s) && !Tranquila(Paso(s, ACrear(0, true)))
  {
    hide Paso, Inicial, Inv, Fichas, Tranquila;
    DosListos();
    var s0 := Par([Algo(0)], [1], 2, 1, 0, Espera);
    var s1 := Par([Algo(0)], [1], 2, 0, 0, ConReady);
    var s2 := Par([Algo(0)], [1], 2, 1, 0, Aparcado);
    DaTomar(s0, s1);
    DaDormir(s1, s2);
    TrazaCorre([ATomarReady, ADecidir], [s0, s1, s2]);
    var acs := DOSLISTOS + [ATomarReady, ADecidir];
    CorrerPartido(Inicial(DOS), DOSLISTOS, [ATomarReady, ADecidir]);
    CorrerPartido(Inicial(DOS), acs, [ACrear(0, true)]);
    UnPaso(s2, ACrear(0, true));
    InicialInv(DOS);
    CorrerInv(Inicial(DOS), acs);
    Duerme(s2);
    TranquilaExacta(s2, ACrear(0, true));
  }

  lemma DaDormir(s: Sched, t: Sched)
    requires s == Par([Algo(0)], [1], 2, 0, 0, ConReady) && t == Par([Algo(0)], [1], 2, 1, 0, Aparcado)
    ensures Da(s, ADecidir, t)
  {
    NivelNoVacio(s.l.colas, 1);
  }

  lemma Duerme(s: Sched)
    requires s == Par([Algo(0)], [1], 2, 1, 0, Aparcado)
    ensures Tranquila(s) && Inquieta(s, ACrear(0, true))
  {
    forall q, r: nat | NivelDe(s.l.colas, q).Algo? && Algo(r) in s.l.exec ensures Prio(s.pcbs, r) <= Prio(s.pcbs, q) {
      var n := NivelDe(s.l.colas, q).valor;
      assert q in s.l.colas[n];
    }
  }

  // ---------------------------------------------------------------- refusals

  /** Three refusals after runs that break nothing: a STDOUT that cannot be read; once the process
      sleeps, a swap-out that is refused; and once it waits for a STDIN, a text that is not taken. */
  lemma Rechazos()
    ensures var s := Correr(Inicial(UNA), ARRANQUE);
      var t := Paso(s, AIO(0, Sleep, true));
      var u := Paso(s, AIO(0, Stdin, true));
      && Posible(Inicial(UNA), ARRANQUE + [AIO(0, Sleep, true)]) && Posible(Inicial(UNA), ARRANQUE + [AIO(0, Stdin, true)])
      && !Inv(Paso(s, AIO(0, Stdout, false))) && !Inv(Paso(t, ATimer(0, 1, 0, false))) && !Inv(Paso(u, AFinIO(0, false)))
  {
    hide Inicial, Inv, Fichas, Correr, Posible, Paso, Admite, Unico;
    Arranca();
    InicialInv(UNA);
    CorrerInv(Inicial(UNA), ARRANQUE);
    var s := Unico([Algo(0)], [[]], 0, 0, Espera, []);
    RechazosDe(s);
    CorrerPartido(Inicial(UNA), ARRANQUE, [AIO(0, Sleep, true)]);
    UnPaso(s, AIO(0, Sleep, true));
    CorrerPartido(Inicial(UNA), ARRANQUE, [AIO(0, Stdin, true)]);
    UnPaso(s, AIO(0, Stdin, true));
  }

  lemma RechazosDe(s: Sched)
    requires s == Unico([Algo(0)], [[]], 0, 0, Espera, []) && Inv(s) && Fichas(s)
    ensures Admite(s, AIO(0, Sleep, true)) && Admite(s, AIO(0, Stdin, true)) && !Inv(Paso(s, AIO(0, Stdout, false)))
    ensures !Inv(Paso(Paso(s, AIO(0, Sleep, true)), ATimer(0, 1, 0, false)))
    ensures !Inv(Paso(Paso(s, AIO(0, Stdin, true)), AFinIO(0, false)))
  {
    hide Inv, Fichas, PedirIO, TerminarIO, VenceTimer;
    assert s.l.exec[0] == Algo(0);
    FalloStdout(s, 0, Stdout, false);
    PasoInv(s, AIO(0, Sleep, true));
    Dormido(s);
    FalloSuspender(Paso(s, AIO(0, Sleep, true)), 0, 1, 0, false);
    PasoInv(s, AIO(0, Stdin, true));
    Leyendo(s);
    FalloIO(Paso(s, AIO(0, Stdin, true)), 0, false);
  }

  lemma Dormido(s: Sched)
    requires s == Unico([Algo(0)], [[]], 0, 0, Espera, [])
    ensures Vence(Paso(s, AIO(0, Sleep, true)), 0, 1)
  {
    UnaOcupada();
    var t := Bloquear(s, 0);
    assert t.l.block[0] == 0;
  }

  lemma Leyendo(s: Sched)
    requires s == Unico([Algo(0)], [[]], 0, 0, Espera, [])
    ensures var u := Paso(s, AIO(0, Stdin, true)); 0 in u.io && u.io[0] == Stdin && 0 in u.l.block
  {
    UnaOcupada();
    var t := Bloquear(s, 0);
    assert t.l.block[0] == 0;
  }

  /** The process of the first run off its CPU: blocked, suspended, or suspended and ready. */
  function Parado(block: seq<nat>, suspBlock: seq<nat>, suspReady: seq<nat>, io: map<nat, TipoIO>, bytes: map<nat, nat>,
                  timers: set<(nat, nat)>): Sched
  {
    Sched(UNA, Lugares([Nada], [[]], block, suspBlock, suspReady, Nada), map[0 := Pcb(0, 0, 1)], [], io, bytes, timers, 1,
          0, 1, Espera, false, [])
  }

  const SUSPENSION: seq<Accion> := [AIO(0, Sleep, true), ATimer(0, 1, 1, true), AFinIO(0, true)]

  lemma Suspendido()
    ensures var s := Unico([Algo(0)], [[]], 0, 0, Espera, []);
      Posible(s, SUSPENSION) && Correr(s, SUSPENSION) == Parado([], [], [0], map[], map[0 := 1], {})
  {
    hide Da, Unico, Parado;
    Duermete();
    Vencida();
    Despierta();
    TrazaCorre(SUSPENSION, [Unico([Algo(0)], [[]], 0, 0, Espera, []), Parado([0], [], [], map[0 := Sleep], map[], {(0, 1)}),
                            Parado([], [0], [], map[0 := Sleep], map[0 := 1], {}), Parado([], [], [0], map[], map[0 := 1], {})]);
  }

  lemma Duermete()
    ensures Da(Unico([Algo(0)], [[]], 0, 0, Espera, []), AIO(0, Sleep, true),
               Parado([0], [], [], map[0 := Sleep], map[], {(0, 1)}))
  {
    UnaOcupada();
    var nada: seq<nat>, e: seq<Opcion<nat>> := [], [Algo(0)];
    assert nada + [0] == [0] && e[0 := Nada] == [Nada];
  }

  lemma Vencida()
    ensures Da(Parado([0], [], [], map[0 := Sleep], map[], {(0, 1)}), ATimer(0, 1, 1, true),
               Parado([], [0], [], map[0 := Sleep], map[0 := 1], {}))
  {
    var nada: seq<nat>, c: seq<nat> := [], [0];
    assert nada + [0] == [0] && c[1..] == [] && 0 in c;
  }

  lemma Despierta()
    ensures Da(Parado([], [0], [], map[0 := Sleep], map[0 := 1], {}), AFinIO(0, true),
               Parado([], [], [0], map[], map[0 := 1], {}))
  {
    var c: seq<nat> := [0];
    assert c[1..] == [] && 0 in c;
  }

  /** And, once the process was suspended and its wait is over, a swap-in that is refused. */
  lemma RechazoDeVuelta()
    ensures var acs := ARRANQUE + SUSPENSION;
      Posible(Inicial(UNA), acs) && !Inv(Paso(Correr(Inicial(UNA), acs), ARecorrer({0}, false)))
  {
    hide Inicial, Inv, Fichas, Correr, Posible;
    Arranca();
    Suspendido();
    InicialInv(UNA);
    Encadena(Inicial(UNA), ARRANQUE, Unico([Algo(0)], [[]], 0, 0, Espera, []), SUSPENSION, Parado([], [], [0], map[], map[0 := 1], {}));
    CorrerInv(Inicial(UNA), ARRANQUE + SUSPENSION);
    var s := Parado([], [], [0], map[], map[0 := 1], {});
    assert s.l.suspReady[0] in {0};
    FalloDesuspender(s, {0}, false);
  }
}
