/** The history of a mutex: who asks for it, who gets it, and in which order. */
module Cesiones {
  import opened Secuencias
  import opened Procesos
  import opened Planificador
  import opened Conservacion
  import opened Acciones

  /** Who asks for mutex `m` in this step, and is served or starts to wait. */
  function Llega(s: Sched, a: Accion, m: nat): seq<nat>
  {
    if a.ALock? && BuscarMutex(s.mutexes, a.nombre) == Algo(m) && Algo(a.pid) in s.l.exec then [a.pid] else []
  }

  /** Who dies in this step. */
  function Muere(s: Sched, a: Accion): Opcion<nat>
  {
    match a
    case ATerminar(p) => if Algo(p) in s.l.exec then Algo(p) else Nada
    case ADesconectar(i) => if i < |s.l.exec| then s.l.exec[i] else Nada
    case _ => Nada
  }

  /** Who becomes its owner in this step: the caller that finds it free, or the first that waits
      when the owner unlocks it or dies. */
  function Toma(s: Sched, a: Accion, m: nat): seq<nat>
    requires m < |s.mutexes|
  {
    var mx := s.mutexes[m];
    if Llega(s, a, m) != [] then if mx.contador >= 1 then [a.pid] else []
    else if a.AUnlock? && BuscarMutex(s.mutexes, a.nombre) == Algo(m) && mx.cola != [] then [mx.cola[0]]
    else if Muere(s, a) == Algo(mx.pid) && mx.contador < 1 && mx.cola != [] then [mx.cola[0]]
    else []
  }

  /** The queue is served from the front, and the owner is the last one that got it. */
  ghost predicate Cesion(m: Mutex, llega: seq<nat>, toma: seq<nat>, n: Mutex)
  {
    && m.cola + llega == toma + n.cola
    && (n.contador < 1 ==> if toma == [] then m.contador < 1 && n.pid == m.pid else n.pid == toma[|toma| - 1])
  }

  /** Who has the mutex. */
  function Dueno(m: Mutex): Opcion<nat> { if m.contador < 1 then Algo(m.pid) else Nada }

  /** The owner gives mutex `m` up in this step, or dies. */
  predicate Suelta(s: Sched, a: Accion, m: nat)
    requires m < |s.mutexes|
  {
    (a.AUnlock? && BuscarMutex(s.mutexes, a.nombre) == Algo(m)) || (Muere(s, a).Algo? && Muere(s, a) == Dueno(s.mutexes[m]))
  }

  /** The new owner is the one that takes it in this step; if nobody does, a mutex that is given up
      is free, and any other has the owner it had. */
  ghost predicate Pasada(s: Sched, a: Accion, m: nat, n: Mutex)
    requires m < |s.mutexes|
  {
    && n.nombre == s.mutexes[m].nombre
    && Dueno(n) == if Toma(s, a, m) != [] then Algo(Toma(s, a, m)[0])
                   else if Suelta(s, a, m) then Nada
                   else Dueno(s.mutexes[m])
  }

  lemma CesionCompone(m: Mutex, l1: seq<nat>, t1: seq<nat>, n: Mutex, l2: seq<nat>, t2: seq<nat>, o: Mutex)
    requires Cesion(m, l1, t1, n) && Cesion(n, l2, t2, o)
    ensures Cesion(m, l1 + l2, t1 + t2, o)
  {
    assert m.cola + (l1 + l2) == (m.cola + l1) + l2 == (t1 + n.cola) + l2 == t1 + (n.cola + l2)
        == t1 + (t2 + o.cola) == (t1 + t2) + o.cola;
  }

  lemma CesionIgual(m: Mutex)
    ensures Cesion(m, [], [], m)
  {
    assert m.cola + [] == [] + m.cola;
  }

  // ---------------------------------------------------------------- what each handler does to a mutex

  lemma SenalMutexes(s: Sched)
    ensures Senal(s).mutexes == s.mutexes && DespertarPlan(s).mutexes == s.mutexes && LiberarCpu(s).mutexes == s.mutexes
  {
  }

  lemma DespertarMutexes(s: Sched, p: nat)
    ensures Despertar(s, p).mutexes == s.mutexes
  {
    hide Senal, Listo, InsertarPorPrio, Quitar;
    var t := s.(l := s.l.(block := Quitar(s.l.block, p)));
    ListoMutexes(t, p);
    var l := s.l.(suspBlock := Quitar(s.l.suspBlock, p), suspReady := InsertarPorPrio(s.pcbs, s.l.suspReady, p));
    ListoMutexes(s.(l := l.(suspReady := Quitar(l.suspReady, p))), p);
  }

  lemma ListoMutexes(s: Sched, p: nat)
    ensures ListoConAviso(s, p).mutexes == s.mutexes
  {
    hide Senal, Listo;
    ListoCampos(s, p);
    SenalMutexes(ConReadyMas(Listo(s, p)));
  }

  /** Mutex `mx` after it is handed off. */
  function Cedido(mx: Mutex): Mutex
    requires mx.cola != []
  {
    mx.(pid := mx.cola[0], contador := mx.contador + 1, cola := mx.cola[1..])
  }

  lemma EntregarMutexes(s: Sched, m: nat)
    requires m < |s.mutexes| && s.mutexes[m].cola != []
    ensures Entregar(s, m).mutexes == s.mutexes[m := Cedido(s.mutexes[m])]
  {
    hide Despertar, MinCola;
    var mx := s.mutexes[m];
    DespertarMutexes(s.(mutexes := s.mutexes[m := Cedido(mx)],
      pcbs := ConPrio(s.pcbs, mx.cola[0], MinCola(s.pcbs, mx.cola[1..], Prio(s.pcbs, mx.cola[0])))), mx.cola[0]);
  }

  /** Mutex `mx` after the death of `p`. */
  function Liberado(mx: Mutex, p: nat): Mutex
  {
    if mx.pid != p || mx.contador >= 1 then mx
    else if mx.cola == [] then mx.(contador := mx.contador + 1, pid := NADIE)
    else Cedido(mx)
  }

  lemma {:induction false} LiberarMutexesTodos(s: Sched, p: nat, i: nat)
    requires i <= |s.mutexes|
    ensures var t := LiberarMutexes(s, p, i);
      && |t.mutexes| == |s.mutexes|
      && forall k :: 0 <= k < |s.mutexes| ==> t.mutexes[k] == if k < i then s.mutexes[k] else Liberado(s.mutexes[k], p)
    decreases |s.mutexes| - i
  {
    hide Entregar;
    if i < |s.mutexes| {
      if s.mutexes[i].pid == p && s.mutexes[i].contador < 1 && s.mutexes[i].cola != [] {
        EntregarMutexes(s, i);
      }
      LiberarMutexesTodos(LiberarUno(s, p, i), p, i + 1);
    }
  }

  lemma MorirMutexes(s: Sched, p: nat)
    ensures var t := Morir(s, p);
      |t.mutexes| == |s.mutexes| && forall k :: 0 <= k < |s.mutexes| ==> t.mutexes[k] == Liberado(s.mutexes[k], p)
  {
    hide LiberarMutexes;
    LiberarMutexesTodos(s, p, 0);
  }

  lemma BloquearMutexes(s: Sched, p: nat)
    ensures Bloquear(s, p).mutexes == s.mutexes
  {
  }

  lemma EsperarMutexes(s: Sched, p: nat, m: nat)
    requires m < |s.mutexes|
    ensures EsperarMutex(s, p, m).mutexes ==
      s.mutexes[m := s.mutexes[m].(contador := s.mutexes[m].contador - 1, cola := s.mutexes[m].cola + [p])]
  {
    hide Bloquear, HeredarDueno, Senal, LiberarCpu, DespertarPlan, Ubicado;
    var mx := s.mutexes[m];
    var x := Prio(s.pcbs, p);
    var t := s.(mutexes := s.mutexes[m := mx.(contador := mx.contador - 1, cola := mx.cola + [p])]);
    HeredarDuenoCampos(t, mx.pid, x);
    var h := HeredarDueno(t, mx.pid, x);
    SenalMutexes(h);
    var u := if Ubicado(s.l, mx.pid) && x < Prio(s.pcbs, mx.pid) then DespertarPlan(h) else t;
    BloquearMutexes(u, p);
    SenalMutexes(Bloquear(u, p));
  }

  // ---------------------------------------------------------------- one step

  /** Every mutex that there was is still there, its queue was served from the front and it has the
      owner it should; and there is a new one, free, exactly if one was created with a new name. */
  ghost predicate TodasCeden(s: Sched, a: Accion, t: Sched)
  {
    && |s.mutexes| <= |t.mutexes|
    && (forall m :: 0 <= m < |s.mutexes| ==>
          Cesion(s.mutexes[m], Llega(s, a, m), Toma(s, a, m), t.mutexes[m]) && Pasada(s, a, m, t.mutexes[m]))
    && Nuevos(s, a, t)
  }

  ghost predicate Nuevos(s: Sched, a: Accion, t: Sched)
  {
    if a.ACrearMutex? && forall m :: 0 <= m < |s.mutexes| ==> s.mutexes[m].nombre != a.nombre then
      |t.mutexes| == |s.mutexes| + 1
      && var n := t.mutexes[|s.mutexes|]; n.nombre == a.nombre && n.cola == [] && Dueno(n).Nada?
    else |t.mutexes| == |s.mutexes|
  }

  lemma LockCede(s: Sched, p: nat, nombre: string)
    requires Inv(s)
    ensures TodasCeden(s, ALock(p, nombre), Lock(s, p, nombre))
  {
    hide Inv, EsperarMutex, Cesion, Pasada, Llega, Toma;
    var r := BuscarMutex(s.mutexes, nombre);
    var t := Lock(s, p, nombre);
    if r.Algo? {
      EsperarMutexes(s, p, r.valor);
    }
    forall m | 0 <= m < |s.mutexes|
      ensures Cesion(s.mutexes[m], Llega(s, ALock(p, nombre), m), Toma(s, ALock(p, nombre), m), t.mutexes[m])
      ensures Pasada(s, ALock(p, nombre), m, t.mutexes[m])
    {
      LockCedeUno(s, p, nombre, m, t.mutexes[m]);
    }
  }

  /** What a lock does to one mutex. */
  lemma LockCedeUno(s: Sched, p: nat, nombre: string, m: nat, n: Mutex)
    requires Inv(s) && m < |s.mutexes|
    requires n == (if BuscarMutex(s.mutexes, nombre) != Algo(m) || Algo(p) !in s.l.exec then s.mutexes[m]
                   else if s.mutexes[m].contador < 1
                     then s.mutexes[m].(contador := s.mutexes[m].contador - 1, cola := s.mutexes[m].cola + [p])
                   else s.mutexes[m].(contador := s.mutexes[m].contador - 1, pid := p))
    ensures Cesion(s.mutexes[m], Llega(s, ALock(p, nombre), m), Toma(s, ALock(p, nombre), m), n)
    ensures Pasada(s, ALock(p, nombre), m, n)
  {
    hide Vivos, Niveles, Esperas, Pids, BuscarMutex;
    assert MutexOk(s.pcbs, s.mutexes[m]);
    CesionIgual(s.mutexes[m]);
  }

  lemma UnlockCede(s: Sched, p: nat, nombre: string)
    requires Inv(s) && Admite(s, AUnlock(p, nombre))
    ensures TodasCeden(s, AUnlock(p, nombre), Unlock(s, p, nombre))
  {
    hide Inv, Entregar, Cesion, Pasada, Llega, Toma, Cedido;
    var r := BuscarMutex(s.mutexes, nombre);
    var t := Unlock(s, p, nombre);
    if r.Algo? && s.mutexes[r.valor].cola != [] {
      EntregarMutexes(s, r.valor);
    }
    forall m | 0 <= m < |s.mutexes|
      ensures Cesion(s.mutexes[m], Llega(s, AUnlock(p, nombre), m), Toma(s, AUnlock(p, nombre), m), t.mutexes[m])
      ensures Pasada(s, AUnlock(p, nombre), m, t.mutexes[m])
    {
      UnlockCedeUno(s, p, nombre, m, t.mutexes[m]);
    }
  }

  /** What an unlock does to one mutex. */
  lemma UnlockCedeUno(s: Sched, p: nat, nombre: string, m: nat, n: Mutex)
    requires Inv(s) && Admite(s, AUnlock(p, nombre)) && m < |s.mutexes|
    requires n == (if BuscarMutex(s.mutexes, nombre) != Algo(m) then s.mutexes[m]
                   else if s.mutexes[m].contador + 1 == 1 || s.mutexes[m].cola == []
                     then s.mutexes[m].(contador := s.mutexes[m].contador + 1)
                   else Cedido(s.mutexes[m]))
    ensures Cesion(s.mutexes[m], Llega(s, AUnlock(p, nombre), m), Toma(s, AUnlock(p, nombre), m), n)
    ensures Pasada(s, AUnlock(p, nombre), m, n)
  {
    hide Vivos, Niveles, Esperas, Pids, BuscarMutex;
    assert MutexOk(s.pcbs, s.mutexes[m]);
    CesionIgual(s.mutexes[m]);
  }

  /** The death of the owner. */
  lemma MuerteCede(s: Sched, a: Accion, t: Sched, p: nat)
    requires Inv(s) && (a.ATerminar? || a.ADesconectar?) && Muere(s, a) == Algo(p) && |t.mutexes| == |s.mutexes|
    requires forall k :: 0 <= k < |s.mutexes| ==> t.mutexes[k] == Liberado(s.mutexes[k], p)
    ensures TodasCeden(s, a, t)
  {
    hide Vivos, Niveles, Esperas, Pids;
    forall m | 0 <= m < |s.mutexes|
      ensures Cesion(s.mutexes[m], Llega(s, a, m), Toma(s, a, m), t.mutexes[m]) && Pasada(s, a, m, t.mutexes[m])
    {
      var mx := s.mutexes[m];
      assert MutexOk(s.pcbs, mx);
      CesionIgual(mx);
      if mx.cola != [] {
        assert mx.cola + [] == [mx.cola[0]] + mx.cola[1..];
      }
    }
  }

  lemma TerminarCede(s: Sched, p: nat)
    requires Inv(s)
    ensures TodasCeden(s, ATerminar(p), Terminar(s, p))
  {
    hide Inv, Morir, LiberarCpu, TodasCeden;
    var i := CpuCon(s.l.exec, p);
    if i.Algo? {
      var u := s.(l := Soltar(s.l, i.valor));
      MorirMutexes(u, p);
      SenalMutexes(Morir(u, p));
      MuerteCede(s, ATerminar(p), Terminar(s, p), p);
    } else {
      Quieto(s, ATerminar(p), s);
    }
  }

  lemma DesconectarCede(s: Sched, i: nat)
    requires Inv(s) && i < |s.l.exec|
    ensures TodasCeden(s, ADesconectar(i), DesconectarCpu(s, i))
  {
    hide Inv, Morir, TodasCeden;
    var u := s.(l := s.l.(exec := s.l.exec[..i] + s.l.exec[i + 1..]));
    if s.l.exec[i].Algo? {
      var p := s.l.exec[i].valor;
      MorirMutexes(u, p);
      MuerteCede(s, ADesconectar(i), DesconectarCpu(s, i), p);
    } else {
      Quieto(s, ADesconectar(i), u);
    }
  }

  /** A step that leaves the mutexes as they were, or adds one. */
  lemma Quieto(s: Sched, a: Accion, t: Sched)
    requires s.mutexes <= t.mutexes && !a.ALock? && !a.AUnlock? && Muere(s, a).Nada? && Nuevos(s, a, t)
    ensures TodasCeden(s, a, t)
  {
    hide Nuevos;
    forall m | 0 <= m < |s.mutexes|
      ensures Cesion(s.mutexes[m], Llega(s, a, m), Toma(s, a, m), t.mutexes[m]) && Pasada(s, a, m, t.mutexes[m])
    {
      CesionIgual(s.mutexes[m]);
    }
  }

  lemma RestoQuieto(s: Sched, a: Accion)
    requires !a.ALock? && !a.AUnlock? && !a.ATerminar? && !a.ADesconectar? && !EsPlan(a)
    ensures s.mutexes <= Paso(s, a).mutexes && Nuevos(s, a, Paso(s, a))
  {
    hide ConectarCpu, DesconectarCpu, Desalojar, DesalojarCompactacion, IniciarCompactacion, FinCompactacion, Terminar, TerminarIO,
      CrearMutex, Unlock, VenceTimer, Recorrer, CrearProceso, Lock, PedirIO, PasoPlan;
    match a
    case AConectar => ConectarMutexes(s);
    case ACrear(x, ok) => CrearMutexes(s, x, ok);
    case ADesalojo(p) => DesalojarMutexes(s, p);
    case ACompactacion(p) => CompactarMutexes(s, p);
    case AIniciarCompactacion(p) => CompactarMutexes(s, p);
    case AFinCompactacion(k) => FinMutexes(s, k);
    case AIO(p, tipo, ok) => IOMutexes(s, p, tipo, ok);
    case AFinIO(p, ok) => FinIOMutexes(s, p, ok);
    case ACrearMutex(nombre) => MutexNuevo(s, nombre);
    case ATimer(p, token, bytes, ok) => TimerMutexes(s, p, token, bytes, ok);
    case ARecorrer(lista, ok) => RecorrerMutexes(s, lista, ok);
  }

  lemma ConectarMutexes(s: Sched)
    ensures ConectarCpu(s).mutexes == s.mutexes
  {
    hide Senal;
    SenalMutexes(s.(l := s.l.(exec := s.l.exec + [Nada]), semCpu := s.semCpu + 1));
  }

  lemma DesalojarMutexes(s: Sched, p: nat)
    ensures Desalojar(s, p).mutexes == s.mutexes
  {
    hide Senal, Listo, LiberarCpu;
    if CpuCon(s.l.exec, p).Algo? {
      var u := s.(l := Soltar(s.l, CpuCon(s.l.exec, p).valor));
      ListoCampos(u, p);
      SenalMutexes(ConReadyMas(Listo(u, p)));
    }
  }

  lemma CompactarMutexes(s: Sched, p: nat)
    ensures DesalojarCompactacion(s, p).mutexes == s.mutexes && IniciarCompactacion(s, p).mutexes == s.mutexes
  {
  }

  lemma FinMutexes(s: Sched, k: nat)
    ensures k < |s.abiertas| ==> FinCompactacion(s, k).mutexes == s.mutexes
  {
  }

  lemma IOMutexes(s: Sched, p: nat, tipo: TipoIO, ok: bool)
    ensures PedirIO(s, p, tipo, ok).mutexes == s.mutexes
  {
    hide Bloquear, LiberarCpu;
    BloquearMutexes(s, p);
    var t := Bloquear(s, p);
    SenalMutexes(if tipo.Stdout? && !ok then t else t.(io := t.io[p := tipo]));
  }

  lemma FinIOMutexes(s: Sched, p: nat, ok: bool)
    ensures TerminarIO(s, p, ok).mutexes == s.mutexes
  {
    hide Despertar, DespertarPlan;
    var u := s.(io := s.io - {p});
    DespertarMutexes(u, p);
    SenalMutexes(Despertar(u, p));
  }

  lemma MutexNuevo(s: Sched, nombre: string)
    ensures s.mutexes <= CrearMutex(s, nombre).mutexes && Nuevos(s, ACrearMutex(nombre), CrearMutex(s, nombre))
  {
  }

  lemma TimerMutexes(s: Sched, p: nat, token: nat, bytes: nat, ok: bool)
    ensures VenceTimer(s, p, token, bytes, ok).mutexes == s.mutexes
  {
  }

  lemma RecorrerMutexes(s: Sched, lista: set<nat>, ok: bool)
    ensures Recorrer(s, lista, ok).mutexes == s.mutexes
  {
    hide ListoConAviso, Elegido, Quitar;
    var r := Elegido(s.l.suspReady, lista);
    if r.Algo? {
      ListoMutexes(s.(l := s.l.(suspReady := Quitar(s.l.suspReady, r.valor))), r.valor);
    }
  }

  lemma CrearMutexes(s: Sched, x: int, ok: bool)
    ensures CrearProceso(s, x, ok).mutexes == s.mutexes
  {
    hide Listo;
    var p := s.proximo;
    ListoCampos(s.(proximo := p + 1, pcbs := s.pcbs[p := Pcb(SinSigno(x), SinSigno(x), 0)]), p);
  }

  lemma AsignarMutexes(s: Sched, p: nat)
    ensures Asignar(s, p).mutexes == s.mutexes
  {
    hide Listo;
    ListoCampos(s, p);
  }

  lemma PlanQuieto(s: Sched, a: Accion)
    ensures PasoPlan(s, a).mutexes == s.mutexes
  {
    hide Asignar, SinPrimero, Primero, Victima, Senal;
    SenalMutexes(s);
    var p := Primero(s.l.colas);
    if p.Algo? {
      AsignarMutexes(s.(l := SinPrimero(s.l), plan := Espera), p.valor);
      AsignarMutexes(s.(l := SinPrimero(s.l), semCpu := s.semCpu - 1, plan := Espera), p.valor);
    }
    if s.l.mano.Algo? {
      AsignarMutexes(s.(l := s.l.(mano := Nada), semCpu := s.semCpu - 1, plan := Espera), s.l.mano.valor);
    }
  }

  /** One step: whoever asks joins at the end, and only the first is served; an unlock or a death
      of the owner serves it whenever somebody waits. */
  lemma {:induction false} PasoCede(s: Sched, a: Accion)
    requires Inv(s) && Admite(s, a)
    ensures TodasCeden(s, a, Paso(s, a))
  {
    hide Inv, Lock, Unlock, Terminar, DesconectarCpu, PasoPlan, TodasCeden, Llega, Toma, ConectarCpu, TerminarIO, PedirIO, Recorrer,
      VenceTimer, CrearMutex, CrearProceso, Desalojar, DesalojarCompactacion, IniciarCompactacion, FinCompactacion, EsTipo, Elegido,
      Vence, BuscarMutex;
    match a
    case ALock(p, nombre) => LockCede(s, p, nombre);
    case AUnlock(p, nombre) => UnlockCede(s, p, nombre);
    case ATerminar(p) => TerminarCede(s, p);
    case ADesconectar(i) => DesconectarCede(s, i);
    case _ =>
      if EsPlan(a) {
        PlanQuieto(s, a);
      } else {
        RestoQuieto(s, a);
      }
      Quieto(s, a, Paso(s, a));
  }

  // ---------------------------------------------------------------- runs

  /** Those who asked for mutex `m` over a run, in order. */
  function Llegan(s: Sched, acs: seq<Accion>, m: nat): seq<nat>
    decreases |acs|
  {
    if acs == [] then [] else Llega(s, acs[0], m) + Llegan(Paso(s, acs[0]), acs[1..], m)
  }

  /** Those who got it, in order. */
  function Toman(s: Sched, acs: seq<Accion>, m: nat): seq<nat>
    decreases |acs|
  {
    if acs == [] then []
    else (if m < |s.mutexes| then Toma(s, acs[0], m) else []) + Toman(Paso(s, acs[0]), acs[1..], m)
  }

  /** First come, first served, over any run: those that waited at the start and those that came
      later, in that order, are those that got the mutex, in the order in which they got it,
      followed by those that still wait; and its owner is the last one that got it. */
  lemma {:induction false} PrimeroEnLlegar(s: Sched, acs: seq<Accion>, m: nat)
    requires Inv(s) && Fichas(s) && Posible(s, acs) && m < |s.mutexes|
    ensures var t := Correr(s, acs);
      m < |t.mutexes| && Cesion(s.mutexes[m], Llegan(s, acs, m), Toman(s, acs, m), t.mutexes[m])
    decreases |acs|
  {
    hide Inv, Fichas, Paso, Admite, Cesion, Llega, Toma;
    if acs == [] {
      CesionIgual(s.mutexes[m]);
    } else {
      var a := acs[0];
      var u := Paso(s, a);
      PasoInv(s, a);
      PasoCede(s, a);
      PrimeroEnLlegar(u, acs[1..], m);
      CesionCompone(s.mutexes[m], Llega(s, a, m), Toma(s, a, m), u.mutexes[m],
                    Llegan(u, acs[1..], m), Toman(u, acs[1..], m), Correr(s, acs).mutexes[m]);
    }
  }
}
