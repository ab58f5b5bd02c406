/** Exact priorities over whole runs: a process has the best priority among its own and those of
    whoever waits for a mutex it has, as long as locks follow chains that are short enough. */
module Garantias {
  import opened Secuencias
  import opened Procesos
  import opened Planificador
  import opened Conservacion
  import opened Acciones
  import opened Herencia

  // ---------------------------------------------------------------- exact priorities

  /** The lock, if this step is one that has to wait, follows a chain short enough. */
  ghost predicate CadenaSana(s: Sched, a: Accion)
  {
    a.ALock? ==>
      var r := BuscarMutex(s.mutexes, a.nombre);
      r.Algo? && Algo(a.pid) in s.l.exec && s.mutexes[r.valor].contador < 1
      ==> !Rompe(s, s.mutexes[r.valor].pid, Prio(s.pcbs, a.pid))
  }

  /** A step that changes neither priorities nor mutexes. */
  ghost predicate Ajena(s: Sched, t: Sched)
  {
    && t.mutexes == s.mutexes && t.pcbs.Keys == s.pcbs.Keys
    && forall p :: p in s.pcbs ==> t.pcbs[p].prioridad == s.pcbs[p].prioridad && t.pcbs[p].original == s.pcbs[p].original
  }

  lemma AjenaExacta(s: Sched, t: Sched)
    requires Exacta(s) && Ajena(s, t)
    ensures Exacta(t)
  {
    ExactaIgual(s, t);
  }

  lemma CrearExacta(s: Sched, x: int, ok: bool)
    requires Inv(s) && Exacta(s)
    ensures Exacta(CrearProceso(s, x, ok))
  {
    var t := CrearProceso(s, x, ok);
    var p := s.proximo;
    if p in t.pcbs {
      assert p !in s.pcbs;
      forall w ensures !Aguarda(t.mutexes, w, p) {
        AguardaUno(s, w, p);
      }
      forall q | q in s.pcbs ensures EsMinimo(t.pcbs, t.mutexes, q) {
        assert EsMinimo(s.pcbs, s.mutexes, q);
        forall w | Aguarda(s.mutexes, w, q) ensures w != p {
          EsperaViva(s, w, q);
        }
      }
    }
  }

  lemma EsperaViva(s: Sched, w: nat, q: nat)
    requires Inv(s) && Aguarda(s.mutexes, w, q)
    ensures w in s.pcbs
  {
    var k :| 0 <= k < |s.mutexes| && s.mutexes[k].pid == q && w in s.mutexes[k].cola;
    ColasTiene(s.mutexes, k, w);
    EnTiene(s.l.block, w);
    EnTiene(s.l.suspBlock, w);
    assert En(s.l.block, w) + En(s.l.suspBlock, w) + Uno(Nada, w) == EnColas(s.mutexes, w) + Si(w in s.io) + Uno(Nada, w);
    EnLista(s.l, w);
    NoEnAire(s, {}, w);
  }

  lemma TerminarExacta(s: Sched, p: nat)
    requires Inv(s) && Exacta(s)
    ensures Exacta(Terminar(s, p))
  {
    var i := CpuCon(s.l.exec, p);
    if i.Algo? {
      SoltarBase(s, i.valor, p, {}, Nada, Nada);
      assert {} + {p} == {p};
      var t := s.(l := Soltar(s.l, i.valor));
      assert ExactaSalvo(t, p);
      MorirExacta(t, p);
      SenalAjena(Morir(t, p));
      AjenaExacta(Morir(t, p), Terminar(s, p));
    }
  }

  lemma DesconectarExacta(s: Sched, i: nat)
    requires Inv(s) && Exacta(s) && i < |s.l.exec|
    ensures Exacta(DesconectarCpu(s, i))
  {
    hide Base, Morir, EsMinimo;
    var t := s.(l := s.l.(exec := s.l.exec[..i] + s.l.exec[i + 1..]));
    SalirBase(s, i);
    if s.l.exec[i].Algo? {
      assert ExactaSalvo(t, s.l.exec[i].valor);
      MorirExacta(t, s.l.exec[i].valor);
    }
  }

  lemma TomarExacta(s: Sched, p: nat, m: nat)
    requires Inv(s) && Exacta(s) && m < |s.mutexes| && s.mutexes[m].contador == 1
    ensures Exacta(TomarMutex(s, p, m))
  {
    assert MutexOk(s.pcbs, s.mutexes[m]);
    var x := s.proximo;
    assert ExactaSalvo(s, x);
    SinEsperaSalvo(s, TomarMutex(s, p, m), m, x);
    assert x !in s.pcbs;
  }

  lemma CrearMutexExacta(s: Sched, nombre: string)
    requires Inv(s) && Exacta(s)
    ensures Exacta(CrearMutex(s, nombre))
  {
    hide Inv;
    var t := CrearMutex(s, nombre);
    forall q | q in t.pcbs ensures EsMinimo(t.pcbs, t.mutexes, q) {
      assert EsMinimo(s.pcbs, s.mutexes, q);
      forall w ensures Aguarda(t.mutexes, w, q) <==> Aguarda(s.mutexes, w, q) {
        if Aguarda(s.mutexes, w, q) {
          var k :| 0 <= k < |s.mutexes| && s.mutexes[k].pid == q && w in s.mutexes[k].cola;
          assert t.mutexes[k] == s.mutexes[k];
        }
        if Aguarda(t.mutexes, w, q) {
          var k :| 0 <= k < |t.mutexes| && t.mutexes[k].pid == q && w in t.mutexes[k].cola;
          assert t.mutexes[k] == s.mutexes[k];
        }
      }
    }
  }

  lemma LockPasoExacta(s: Sched, p: nat, nombre: string)
    requires Inv(s) && Exacta(s) && Admite(s, ALock(p, nombre))
    ensures CadenaSana(s, ALock(p, nombre)) <==> Exacta(Lock(s, p, nombre))
  {
    hide Vivos, Niveles, Esperas, Exacta, Rompe, EsperarMutex, TomarMutex;
    var r := BuscarMutex(s.mutexes, nombre);
    if r.Algo? && CpuCon(s.l.exec, p).Algo? {
      assert MutexOk(s.pcbs, s.mutexes[r.valor]);
      if s.mutexes[r.valor].contador < 1 {
        QuienCorre(s, {}, p);
        LockExacta(s, p, r.valor);
      } else {
        TomarExacta(s, p, r.valor);
      }
    }
  }

  lemma SenalAjena(s: Sched)
    ensures Ajena(s, Senal(s)) && Ajena(s, LiberarCpu(s)) && Ajena(s, DespertarPlan(s))
  {
    SenalIgual(s);
    SenalIgual(s.(semCpu := s.semCpu + 1));
  }

  lemma ListoAjena(s: Sched, p: nat)
    ensures Ajena(s, Listo(s, p)) && Ajena(s, ListoConAviso(s, p))
  {
    hide Senal, Listo;
    ListoCampos(s, p);
    SenalAjena(ConReadyMas(Listo(s, p)));
  }

  lemma DespertarAjena(s: Sched, p: nat)
    ensures Ajena(s, Despertar(s, p))
  {
    hide ListoConAviso, InsertarPorPrio, Quitar;
    ListoAjena(s.(l := s.l.(block := Quitar(s.l.block, p))), p);
    var l := s.l.(suspBlock := Quitar(s.l.suspBlock, p), suspReady := InsertarPorPrio(s.pcbs, s.l.suspReady, p));
    ListoAjena(s.(l := l.(suspReady := Quitar(l.suspReady, p))), p);
  }

  lemma AsignarAjena(s: Sched, p: nat)
    ensures Ajena(s, Asignar(s, p))
  {
    hide Listo;
    ListoAjena(s, p);
  }

  lemma FinIOAjena(s: Sched, p: nat, ok: bool)
    ensures Ajena(s, TerminarIO(s, p, ok))
  {
    hide Despertar, Senal;
    var t := s.(io := s.io - {p});
    DespertarAjena(t, p);
    SenalAjena(Despertar(t, p));
  }

  lemma PlanAjena(s: Sched, a: Accion)
    ensures Ajena(s, PasoPlan(s, a))
  {
    hide Ajena, Despachar, Decidir, DespacharMano, Senal, TomarReady, TomarCpu;
    SenalAjena(s);
    TomarAjena(s);
    DespacharAjena(s);
    DecidirAjena(s);
  }

  lemma TomarAjena(s: Sched)
    ensures Ajena(s, TomarReady(s)) && Ajena(s, TomarCpu(s)) && Ajena(s, s)
  {
  }

  lemma DespacharAjena(s: Sched)
    ensures Ajena(s, Despachar(s)) && Ajena(s, DespacharMano(s))
  {
    hide Asignar, SinPrimero, Primero;
    var p := Primero(s.l.colas);
    if p.Algo? {
      AsignarAjena(s.(l := SinPrimero(s.l), plan := Espera), p.valor);
    }
    if s.l.mano.Algo? {
      AsignarAjena(s.(l := s.l.(mano := Nada), semCpu := s.semCpu - 1, plan := Espera), s.l.mano.valor);
    }
  }

  lemma DecidirAjena(s: Sched)
    ensures Ajena(s, Decidir(s))
  {
    hide Asignar, SinPrimero, Primero, Victima;
    var p := Primero(s.l.colas);
    if p.Algo? {
      AsignarAjena(s.(l := SinPrimero(s.l), semCpu := s.semCpu - 1, plan := Espera), p.valor);
    }
  }

  /** The handlers that neither lock nor kill. */
  predicate EsAjena(a: Accion)
  {
    a.AConectar? || a.ADesalojo? || a.ACompactacion? || a.AIniciarCompactacion? || a.AFinCompactacion? || a.AIO?
  }

  lemma PasoAjena(s: Sched, a: Accion)
    requires EsAjena(a)
    ensures Ajena(s, Paso(s, a))
  {
    hide ConectarCpu, DesconectarCpu, Desalojar, DesalojarCompactacion, IniciarCompactacion, FinCompactacion, Terminar, TerminarIO,
      CrearMutex, Unlock, VenceTimer, Recorrer, CrearProceso, Lock, PedirIO, PasoPlan;
    match a
    case AConectar => ConectarAjena(s);
    case ADesalojo(p) => DesalojoAjena(s, p);
    case ACompactacion(p) => CompactarAjena(s, p);
    case AIniciarCompactacion(p) => CompactarAjena(s, p);
    case AFinCompactacion(k) => FinAjena(s, k);
    case AIO(p, tipo, ok) => IOAjena(s, p, tipo, ok);
  }

  lemma ConectarAjena(s: Sched)
    ensures Ajena(s, ConectarCpu(s))
  {
    hide Senal;
    SenalAjena(s.(l := s.l.(exec := s.l.exec + [Nada]), semCpu := s.semCpu + 1));
  }

  lemma DesalojoAjena(s: Sched, p: nat)
    ensures Ajena(s, Desalojar(s, p))
  {
    hide Senal, Listo, Soltar, LiberarCpu;
    if CpuCon(s.l.exec, p).Algo? {
      ListoCampos(s.(l := Soltar(s.l, CpuCon(s.l.exec, p).valor)), p);
      SenalAjena(ConReadyMas(Listo(s.(l := Soltar(s.l, CpuCon(s.l.exec, p).valor)), p)));
    }
  }

  lemma CompactarAjena(s: Sched, p: nat)
    ensures Ajena(s, DesalojarCompactacion(s, p)) && Ajena(s, IniciarCompactacion(s, p))
  {
    hide Ociosas, EncolarPrimero;
  }

  lemma FinAjena(s: Sched, k: nat)
    ensures k < |s.abiertas| ==> Ajena(s, FinCompactacion(s, k))
    ensures Ajena(s, s)
  {
    hide Senal;
    if k < |s.abiertas| {
      SenalAjena(s.(compactando := false, semCpu := s.semCpu + s.abiertas[k], abiertas := s.abiertas[..k] + s.abiertas[k + 1..]));
    }
  }

  lemma IOAjena(s: Sched, p: nat, tipo: TipoIO, ok: bool)
    ensures Ajena(s, PedirIO(s, p, tipo, ok))
  {
    hide Senal, Bloquear, LiberarCpu;
    if CpuCon(s.l.exec, p).Algo? {
      BloquearSolo(s, p);
      var t := Bloquear(s, p);
      SenalAjena(if tipo.Stdout? && !ok then t else t.(io := t.io[p := tipo]));
    }
  }

  lemma TimerAjena(s: Sched, p: nat, token: nat, bytes: nat, ok: bool)
    requires Vence(s, p, token) ==> ok
    ensures Ajena(s, VenceTimer(s, p, token, bytes, ok))
  {
  }

  lemma RecorrerAjena(s: Sched, lista: set<nat>, ok: bool)
    ensures Ajena(s, Recorrer(s, lista, ok))
  {
    hide ListoConAviso, Quitar;
    var r := Elegido(s.l.suspReady, lista);
    if r.Algo? {
      ListoAjena(s.(l := s.l.(suspReady := Quitar(s.l.suspReady, r.valor))), r.valor);
    }
  }

  /** One step keeps the priorities exact exactly if it is not a lock on a broken chain. */
  lemma {:induction false} PasoExacta(s: Sched, a: Accion)
    requires Inv(s) && Exacta(s) && Admite(s, a)
    ensures Exacta(Paso(s, a)) <==> CadenaSana(s, a)
  {
    hide Inv, Exacta, PasoPlan, Lock, Unlock, Rompe, Ajena, Terminar, DesconectarCpu, CrearProceso, CrearMutex,
      TerminarIO, PedirIO, Recorrer, VenceTimer, Desalojar, DesalojarCompactacion, IniciarCompactacion, FinCompactacion, ConectarCpu;
    if EsAjena(a) {
      PasoAjena(s, a);
      AjenaExacta(s, Paso(s, a));
    } else {
      match a
      case ADesconectar(i) => DesconectarExacta(s, i);
      case ACrear(x, ok) => CrearExacta(s, x, ok);
      case ATerminar(p) => TerminarExacta(s, p);
      case AFinIO(p, ok) =>
        FinIOAjena(s, p, ok);
        AjenaExacta(s, Paso(s, a));
      case ACrearMutex(nombre) => CrearMutexExacta(s, nombre);
      case ALock(p, nombre) => LockPasoExacta(s, p, nombre);
      case AUnlock(p, nombre) => UnlockExacta(s, p, nombre);
      case ATimer(p, token, bytes, ok) =>
        TimerAjena(s, p, token, bytes, ok);
        AjenaExacta(s, Paso(s, a));
      case ARecorrer(lista, ok) =>
        RecorrerAjena(s, lista, ok);
        AjenaExacta(s, Paso(s, a));
      case _ =>
        PlanAjena(s, a);
        AjenaExacta(s, Paso(s, a));
    }
  }

  ghost predicate CadenasSanas(s: Sched, acs: seq<Accion>)
    decreases |acs|
  {
    acs == [] || (CadenaSana(s, acs[0]) && CadenasSanas(Paso(s, acs[0]), acs[1..]))
  }

  /** Over any run whose locks follow short chains, every priority is the minimum it should be. */
  lemma {:induction false} CorrerExacta(s: Sched, acs: seq<Accion>)
    requires Inv(s) && Fichas(s) && Exacta(s) && Posible(s, acs) && CadenasSanas(s, acs)
    ensures Exacta(Correr(s, acs))
    decreases |acs|
  {
    hide Inv, Fichas, Exacta, Paso, Admite, CadenaSana;
    if acs != [] {
      PasoInv(s, acs[0]);
      PasoExacta(s, acs[0]);
      CorrerExacta(Paso(s, acs[0]), acs[1..]);
    }
  }

  /** Nobody waits when the scheduler starts. */
  lemma InicialExacta(pol: Politica)
    ensures Exacta(Inicial(pol))
  {
  }
}
