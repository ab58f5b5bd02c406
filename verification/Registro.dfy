/** What any step leaves written: each CPU, the PCBs, the I/O pending, the timers armed, the bytes
    in swap and the compactions under way. */
module Registro {
  import opened Secuencias
  import opened Procesos
  import opened Planificador
  import opened Conservacion
  import opened Acciones
  import opened Ciclo

  // ---------------------------------------------------------------- frames

  /** Only PCBs out of the CPUs moved, and the planner was told. */
  ghost predicate Marco(s: Sched, t: Sched)
  {
    t == s.(l := s.l.(colas := t.l.colas, block := t.l.block, suspBlock := t.l.suspBlock, suspReady := t.l.suspReady),
            semReady := t.semReady, plan := t.plan)
  }

  /** And mutexes and priorities changed. */
  ghost predicate MarcoMutex(s: Sched, t: Sched)
  {
    && t == s.(l := s.l.(colas := t.l.colas, block := t.l.block, suspBlock := t.l.suspBlock, suspReady := t.l.suspReady),
               semReady := t.semReady, plan := t.plan, mutexes := t.mutexes, pcbs := t.pcbs)
    && SoloPrios(s.pcbs, t.pcbs)
  }

  /** Only priorities changed. */
  ghost predicate SoloPrios(x: map<nat, Pcb>, y: map<nat, Pcb>)
  {
    y.Keys == x.Keys && forall p :: p in x ==> y[p].original == x[p].original && y[p].token == x[p].token
  }

  lemma MarcoCompone(s: Sched, t: Sched, u: Sched)
    ensures Marco(s, t) && Marco(t, u) ==> Marco(s, u)
    ensures MarcoMutex(s, t) && MarcoMutex(t, u) ==> MarcoMutex(s, u)
    ensures Marco(s, t) ==> MarcoMutex(s, t)
  {
  }

  lemma SenalMarco(s: Sched)
    ensures Marco(s, Senal(s)) && Marco(s, DespertarPlan(s)) && Marco(s, s)
  {
  }

  lemma ListoMarco(s: Sched, p: nat)
    ensures Marco(s, ListoConAviso(s, p)) && Marco(s, ConReadyMas(Listo(s, p)))
  {
    hide Senal;
    SenalIgual(ConReadyMas(Listo(s, p)));
  }

  lemma DespertarMarco(s: Sched, p: nat)
    ensures Marco(s, Despertar(s, p))
  {
    hide ListoConAviso, InsertarPorPrio, Quitar;
    var b := s.(l := s.l.(block := Quitar(s.l.block, p)));
    ListoMarco(b, p);
    var l := s.l.(suspBlock := Quitar(s.l.suspBlock, p), suspReady := InsertarPorPrio(s.pcbs, s.l.suspReady, p));
    ListoMarco(s.(l := l.(suspReady := Quitar(l.suspReady, p))), p);
  }

  lemma EntregarMarco(s: Sched, m: nat)
    requires m < |s.mutexes| && s.mutexes[m].cola != []
    ensures MarcoMutex(s, Entregar(s, m))
  {
    hide Despertar, MinCola;
    var mx := s.mutexes[m];
    var t := s.(mutexes := s.mutexes[m := mx.(pid := mx.cola[0], contador := mx.contador + 1, cola := mx.cola[1..])],
                pcbs := ConPrio(s.pcbs, mx.cola[0], MinCola(s.pcbs, mx.cola[1..], Prio(s.pcbs, mx.cola[0]))));
    DespertarMarco(t, mx.cola[0]);
    MarcoCompone(s, t, Entregar(s, m));
    MarcoCompone(t, Entregar(s, m), Entregar(s, m));
  }

  lemma {:induction false} LiberarMarco(s: Sched, p: nat, i: nat)
    requires i <= |s.mutexes|
    ensures MarcoMutex(s, LiberarMutexes(s, p, i))
    decreases |s.mutexes| - i
  {
    hide Entregar, MarcoMutex;
    if i == |s.mutexes| {
      MismoMarco(s);
    } else {
      var u := LiberarUno(s, p, i);
      LiberarUnoMarco(s, p, i);
      LiberarMarco(u, p, i + 1);
      MarcoCompone(s, u, LiberarMutexes(u, p, i + 1));
    }
  }

  lemma MismoMarco(s: Sched)
    ensures MarcoMutex(s, s)
  {
  }

  lemma LiberarUnoMarco(s: Sched, p: nat, i: nat)
    requires i < |s.mutexes|
    ensures MarcoMutex(s, LiberarUno(s, p, i))
  {
    hide Entregar;
    var mx := s.mutexes[i];
    if mx.pid == p && mx.contador < 1 && mx.cola != [] { EntregarMarco(s, i); }
  }

  lemma HeredarMarco(s: Sched, d: nat, x: nat)
    ensures MarcoMutex(s, DespertarPlan(HeredarDueno(s, d, x)))
  {
    hide HeredarOtros, Senal;
    var t := s.(l := Extraer(s.l, d), pcbs := ConPrio(s.pcbs, d, x));
    var u := s.(pcbs := ConPrio(s.pcbs, d, x));
    HeredarPrios(t, d, 0);
    HeredarPrios(u, d, 0);
    HeredarDuenoCampos(s, d, x);
    SenalIgual(HeredarDueno(s, d, x));
  }

  lemma {:induction false} HeredarPrios(s: Sched, d: nat, i: nat)
    requires i <= |s.mutexes|
    ensures SoloPrios(s.pcbs, HeredarOtros(s, d, i).pcbs)
    decreases |s.mutexes| - i
  {
    hide HeredarEn;
    if i < |s.mutexes| {
      HeredarEnPrios(s, d, i);
      HeredarPrios(HeredarEn(s, d, i), d, i + 1);
    }
  }

  lemma HeredarEnPrios(s: Sched, d: nat, i: nat)
    requires i < |s.mutexes|
    ensures SoloPrios(s.pcbs, HeredarEn(s, d, i).pcbs) && |HeredarEn(s, d, i).mutexes| == |s.mutexes|
  {
  }

  /** A process blocks: it leaves its CPU, its token grows and a timer is armed with it. */
  lemma BloquearMarco(s: Sched, p: nat)
    requires Algo(p) in s.l.exec && p in s.pcbs
    ensures var t := LiberarCpu(Bloquear(s, p));
      var i := CpuCon(s.l.exec, p).valor;
      && t == s.(l := s.l.(exec := s.l.exec[i := Nada], block := s.l.block + [p]),
                 semReady := t.semReady, semCpu := t.semCpu, plan := t.plan,
                 pcbs := s.pcbs[p := s.pcbs[p].(token := s.pcbs[p].token + 1)], timers := s.timers + {(p, s.pcbs[p].token + 1)})
  {
    hide Senal;
    SenalIgual(Bloquear(s, p).(semCpu := Bloquear(s, p).semCpu + 1));
  }

  // ---------------------------------------------------------------- what is written

  /** `p` blocks in this step. */
  ghost predicate SeBloquea(s: Sched, a: Accion, p: nat) { FaseDe(s, p).Exec? && Pasa(s, a, p).Block? }

  /** The PCBs: the original priority is for ever, and a token grows exactly when its process blocks;
      a new one has the priority it was created with, as an unsigned number of 32 bits. */
  ghost predicate PcbsTras(s: Sched, a: Accion, t: Sched)
  {
    && (forall p :: p in s.pcbs && p in t.pcbs ==>
          && t.pcbs[p].original == s.pcbs[p].original
          && t.pcbs[p].token == s.pcbs[p].token + if SeBloquea(s, a, p) then 1 else 0)
    && (forall p :: p in t.pcbs && p !in s.pcbs ==>
          && a.ACrear? && p == s.proximo
          && t.pcbs[p].prioridad == t.pcbs[p].original && t.pcbs[p].token == 0
          && t.pcbs[p].original == if a.prioridad >= 0 then a.prioridad else a.prioridad % 0x1_0000_0000)
  }

  /** The timers: one armed for each block, with its token, and removed when it fires. */
  ghost predicate TimersTras(s: Sched, a: Accion, t: Sched)
  {
    match a
    case ATimer(p, token, bytes, ok) => t.timers == s.timers - {(p, token)}
    case AIO(p, tipo, ok) => t.timers == if SeBloquea(s, a, p) then s.timers + {(p, s.pcbs[p].token + 1)} else s.timers
    case ALock(p, nombre) => t.timers == if SeBloquea(s, a, p) then s.timers + {(p, s.pcbs[p].token + 1)} else s.timers
    case _ => t.timers == s.timers
  }

  ghost predicate IOTras(s: Sched, a: Accion, t: Sched)
  {
    match a
    case AIO(p, tipo, ok) => t.io == if Algo(p) in s.l.exec then s.io[p := tipo] else s.io
    case AFinIO(p, ok) => p !in t.io && t.io.Keys == s.io.Keys - {p} && forall q :: q in t.io ==> t.io[q] == s.io[q]
    case _ => t.io == s.io
  }

  /** The bytes in swap are written when a process is suspended, and only then. */
  ghost predicate BytesTras(s: Sched, a: Accion, t: Sched)
  {
    if a.ATimer? && FaseDe(s, a.pid).Block? && Pasa(s, a, a.pid).SuspBlock? then t.bytes == s.bytes[a.pid := a.bytes]
    else t.bytes == s.bytes
  }

  /** Compactions: each remembers how many CPUs were busy when it began. */
  ghost predicate CompactacionesTras(s: Sched, a: Accion, t: Sched)
  {
    match a
    case AIniciarCompactacion(p) =>
      if Algo(p) in s.l.exec then t.compactando && t.abiertas == s.abiertas + [|s.l.exec| - Ociosas(s.l.exec)]
      else t.compactando == s.compactando && t.abiertas == s.abiertas
    case AFinCompactacion(k) =>
      && !t.compactando && |t.abiertas| == |s.abiertas| - 1
      && forall j :: 0 <= j < |t.abiertas| ==> t.abiertas[j] == s.abiertas[if j < k then j else j + 1]
    case _ => t.compactando == s.compactando && t.abiertas == s.abiertas
  }

  ghost predicate Escrito(s: Sched, a: Accion, t: Sched)
  {
    && t.pol == s.pol && t.proximo == s.proximo + (if a.ACrear? then 1 else 0)
    && PcbsTras(s, a, t) && TimersTras(s, a, t) && IOTras(s, a, t) && BytesTras(s, a, t) && CompactacionesTras(s, a, t)
  }

  /** The fields that most steps leave alone; some PCB may be gone. */
  ghost predicate Comun(s: Sched, t: Sched)
  {
    && t.pol == s.pol && t.proximo == s.proximo && t.io == s.io && t.bytes == s.bytes && t.timers == s.timers
    && t.compactando == s.compactando && t.abiertas == s.abiertas
    && forall p :: p in t.pcbs ==> p in s.pcbs && t.pcbs[p].original == s.pcbs[p].original && t.pcbs[p].token == s.pcbs[p].token
  }

  /** The steps in which nobody blocks, no CPU takes part in a compaction and nothing else is written. */
  predicate Corriente(a: Accion)
  {
    a.AConectar? || a.ADesconectar? || a.ADesalojo? || a.ACompactacion? || a.ATerminar? || a.ACrearMutex? || a.AUnlock?
    || a.ARecorrer? || EsPlan(a)
  }

  lemma ComunEscrito(s: Sched, a: Accion, t: Sched)
    requires Corriente(a) && Comun(s, t)
    ensures Escrito(s, a, t)
  {
    hide SeBloquea, Pasa, FaseDe, PcbsTras;
    PcbsQuietos(s, a, t);
  }

  lemma PcbsQuietos(s: Sched, a: Accion, t: Sched)
    requires !a.AIO? && !a.ALock?
    requires forall p :: p in t.pcbs ==> p in s.pcbs && t.pcbs[p].original == s.pcbs[p].original && t.pcbs[p].token == s.pcbs[p].token
    ensures PcbsTras(s, a, t)
  {
    hide SeBloquea;
    forall p ensures !SeBloquea(s, a, p) { NadieBloquea(s, a, p); }
  }

  lemma NadieBloquea(s: Sched, a: Accion, p: nat)
    requires !a.AIO? && !a.ALock?
    ensures !SeBloquea(s, a, p)
  {
    hide FaseDe, Heredero, EsperaPrimero, PrimerAnunciado, Cabeza, CorrePeor;
  }

  lemma MarcoComun(s: Sched, t: Sched, u: Sched)
    requires Comun(s, t) && MarcoMutex(t, u)
    ensures Comun(s, u)
  {
  }

  lemma ComunIgual(s: Sched, t: Sched)
    requires t == s.(l := t.l, semReady := t.semReady, semCpu := t.semCpu, plan := t.plan, mutexes := t.mutexes)
    ensures Comun(s, t)
  {
  }

  lemma MorirComun(s: Sched, t: Sched, p: nat)
    requires Comun(s, t)
    ensures Comun(s, Morir(t, p))
  {
    hide LiberarMutexes;
    LiberarMarco(t, p, 0);
    MarcoComun(s, t, LiberarMutexes(t, p, 0));
  }

  lemma LiberarCpuIgual(s: Sched)
    ensures var t := LiberarCpu(s); t == s.(semReady := t.semReady, semCpu := s.semCpu + 1, plan := t.plan)
  {
  }

  lemma CpusComun(s: Sched, a: Accion)
    requires a.AConectar? || a.ADesconectar? || a.ADesalojo? || a.ACompactacion? || a.ATerminar?
    ensures Comun(s, Paso(s, a))
  {
    hide LiberarCpu, Morir, Listo, Comun, EncolarPrimero;
    ComunIgual(s, s);
    match a
    case AConectar =>
      var t := s.(l := s.l.(exec := s.l.exec + [Nada]));
      LiberarCpuIgual(t);
      ComunIgual(s, ConectarCpu(s));
    case ADesconectar(i) =>
      if i < |s.l.exec| {
        var t := s.(l := s.l.(exec := s.l.exec[..i] + s.l.exec[i + 1..]));
        ComunIgual(s, t);
        if s.l.exec[i].Algo? { MorirComun(s, t, s.l.exec[i].valor); }
      }
    case ADesalojo(p) => DesalojarComun(s, p);
    case ACompactacion(p) => ComunIgual(s, DesalojarCompactacion(s, p));
    case ATerminar(p) => TerminarComun(s, p);
  }

  lemma DesalojarComun(s: Sched, p: nat)
    ensures Comun(s, Desalojar(s, p))
  {
    hide LiberarCpu, Listo, Comun;
    if CpuCon(s.l.exec, p).Algo? {
      var t := s.(l := Soltar(s.l, CpuCon(s.l.exec, p).valor));
      ListoCampos(t, p);
      LiberarCpuIgual(ConReadyMas(Listo(t, p)));
    }
    ComunIgual(s, Desalojar(s, p));
  }

  lemma TerminarComun(s: Sched, p: nat)
    ensures Comun(s, Terminar(s, p))
  {
    hide LiberarCpu, Morir, Comun;
    ComunIgual(s, s);
    if CpuCon(s.l.exec, p).Algo? {
      var t := s.(l := Soltar(s.l, CpuCon(s.l.exec, p).valor));
      ComunIgual(s, t);
      MorirComun(s, t, p);
      LiberarCpuIgual(Morir(t, p));
      LiberarComun(s, Morir(t, p));
    }
  }

  lemma LiberarComun(s: Sched, t: Sched)
    requires Comun(s, t)
    ensures Comun(s, LiberarCpu(t))
  {
    hide LiberarCpu;
    LiberarCpuIgual(t);
  }

  lemma UnlockComun(s: Sched, p: nat, nombre: string)
    ensures Comun(s, Unlock(s, p, nombre))
  {
    hide Entregar, Recalcular, Comun, MarcoMutex;
    ComunIgual(s, s);
    var r := BuscarMutex(s.mutexes, nombre);
    if r.Algo? {
      var m := r.valor;
      var mx := s.mutexes[m];
      var t := if mx.contador + 1 == 1 || mx.cola == [] then s.(mutexes := s.mutexes[m := mx.(contador := mx.contador + 1)])
               else Entregar(s, m);
      if mx.contador + 1 == 1 || mx.cola == [] {
        ComunIgual(s, t);
      } else {
        EntregarMarco(s, m);
        MarcoComun(s, s, t);
      }
      RecalcularMarco(t, p);
      MarcoComun(s, t, Recalcular(t, p));
    }
  }

  lemma RecalcularMarco(s: Sched, p: nat)
    ensures MarcoMutex(s, Recalcular(s, p))
  {
    hide MinDe;
  }

  lemma RecorrerComun(s: Sched, lista: set<nat>, ok: bool)
    ensures Comun(s, Recorrer(s, lista, ok))
  {
    hide ListoConAviso, Elegido, Quitar;
    var r := Elegido(s.l.suspReady, lista);
    if r.Algo? {
      ListoMarco(s.(l := s.l.(suspReady := Quitar(s.l.suspReady, r.valor))), r.valor);
    }
  }

  lemma AsignarIgual(s: Sched, p: nat)
    ensures var t := Asignar(s, p); t == s.(l := s.l.(exec := t.l.exec, colas := t.l.colas), semReady := t.semReady)
  {
  }

  lemma DespacharComun(s: Sched)
    ensures Comun(s, Despachar(s)) && Comun(s, DespacharMano(s))
  {
    hide Asignar, SinPrimero, Primero, Comun;
    SinPrimeroExec(s.l);
    var p := Primero(s.l.colas);
    if p.Algo? { AsignarIgual(s.(l := SinPrimero(s.l), plan := Espera), p.valor); }
    if s.l.mano.Algo? { AsignarIgual(s.(l := s.l.(mano := Nada), semCpu := s.semCpu - 1, plan := Espera), s.l.mano.valor); }
    ComunIgual(s, Despachar(s));
    ComunIgual(s, DespacharMano(s));
  }

  lemma DecidirComun(s: Sched)
    ensures Comun(s, Decidir(s))
  {
    hide Asignar, SinPrimero, Primero, Victima, Comun;
    SinPrimeroExec(s.l);
    var p := Primero(s.l.colas);
    if p.Algo? { AsignarIgual(s.(l := SinPrimero(s.l), semCpu := s.semCpu - 1, plan := Espera), p.valor); }
    ComunIgual(s, Decidir(s));
  }

  lemma PlanComun(s: Sched, a: Accion)
    ensures Comun(s, PasoPlan(s, a))
  {
    hide Despachar, Decidir, DespacharMano, Senal, Comun, TomarReady, TomarCpu;
    match a
    case ADespachar => DespacharComun(s);
    case ADecidir => DecidirComun(s);
    case ADespacharMano => DespacharComun(s);
    case ASenal => SenalIgual(s); ComunIgual(s, Senal(s));
    case _ => TomarComun(s);
  }

  lemma TomarComun(s: Sched)
    ensures Comun(s, TomarReady(s)) && Comun(s, TomarCpu(s)) && Comun(s, s)
  {
    hide Comun;
    ComunIgual(s, TomarReady(s));
    ComunIgual(s, TomarCpu(s));
    ComunIgual(s, s);
  }

  // ---------------------------------------------------------------- the other steps

  lemma CrearEscrito(s: Sched, x: int, ok: bool)
    requires Inv(s)
    ensures Escrito(s, ACrear(x, ok), CrearProceso(s, x, ok))
  {
    hide Vivos, Niveles, Esperas, Mutexes, SeBloquea, Listo;
    var a := ACrear(x, ok);
    var p := s.proximo;
    forall q ensures !SeBloquea(s, a, q) { NadieBloquea(s, a, q); }
    assert p !in s.pcbs;
    ListoCampos(s.(proximo := p + 1, pcbs := s.pcbs[p := Pcb(SinSigno(x), SinSigno(x), 0)]), p);
  }

  lemma IniciarEscrito(s: Sched, p: nat)
    ensures Escrito(s, AIniciarCompactacion(p), IniciarCompactacion(s, p))
  {
    hide SeBloquea, EncolarPrimero, PcbsTras;
    PcbsQuietos(s, AIniciarCompactacion(p), IniciarCompactacion(s, p));
  }

  lemma FinEscrito(s: Sched, k: nat)
    requires k < |s.abiertas|
    ensures Escrito(s, AFinCompactacion(k), FinCompactacion(s, k))
  {
    hide SeBloquea, PcbsTras, Senal;
    var t := FinCompactacion(s, k);
    SenalIgual(s.(compactando := false, semCpu := s.semCpu + s.abiertas[k], abiertas := s.abiertas[..k] + s.abiertas[k + 1..]));
    PcbsQuietos(s, AFinCompactacion(k), t);
  }

  lemma FinIOEscrito(s: Sched, p: nat, ok: bool)
    ensures Escrito(s, AFinIO(p, ok), TerminarIO(s, p, ok))
  {
    hide SeBloquea, Despertar, DespertarPlan, EsTipo, Quitar, PcbsTras;
    var u := s.(io := s.io - {p});
    DespertarMarco(u, p);
    SenalMarco(Despertar(u, p));
    MarcoCompone(u, Despertar(u, p), DespertarPlan(Despertar(u, p)));
    PcbsQuietos(s, AFinIO(p, ok), TerminarIO(s, p, ok));
  }

  lemma TimerEscrito(s: Sched, p: nat, token: nat, bytes: nat, ok: bool)
    requires Inv(s) && Admite(s, ATimer(p, token, bytes, ok))
    ensures Escrito(s, ATimer(p, token, bytes, ok), VenceTimer(s, p, token, bytes, ok))
  {
    hide Inv, SeBloquea, FaseDe, Quitar, PcbsTras;
    PcbsQuietos(s, ATimer(p, token, bytes, ok), VenceTimer(s, p, token, bytes, ok));
    BloqueadoFase(s, p);
  }

  /** `p` blocks, after changes in mutexes and priorities at most. */
  lemma BloqueaCampos(s: Sched, u: Sched, p: nat, t: Sched)
    requires MarcoMutex(s, u) && Algo(p) in s.l.exec && p in s.pcbs && t == LiberarCpu(Bloquear(u, p))
    ensures t.l.exec == s.l.exec[CpuCon(s.l.exec, p).valor := Nada] && t.l.mano == s.l.mano
    ensures t.pol == s.pol && t.proximo == s.proximo && t.bytes == s.bytes && t.io == s.io
    ensures t.compactando == s.compactando && t.abiertas == s.abiertas
    ensures t.timers == s.timers + {(p, s.pcbs[p].token + 1)} && t.pcbs.Keys == s.pcbs.Keys
    ensures forall q :: q in s.pcbs ==>
      t.pcbs[q].original == s.pcbs[q].original && t.pcbs[q].token == s.pcbs[q].token + if q == p then 1 else 0
  {
    hide LiberarCpu, Bloquear, CpuCon;
    BloquearMarco(u, p);
  }

  lemma BloqueaEscrito(s: Sched, a: Accion, u: Sched, p: nat, t: Sched)
    requires Inv(s) && MarcoMutex(s, u) && Algo(p) in s.l.exec && (a.AIO? || a.ALock?) && a.pid == p
    requires SeBloquea(s, a, p) && t == LiberarCpu(Bloquear(u, p))
    ensures t.l.exec == s.l.exec[CpuCon(s.l.exec, p).valor := Nada]
    ensures t.pol == s.pol && t.proximo == s.proximo && t.bytes == s.bytes && t.io == s.io
    ensures t.compactando == s.compactando && t.abiertas == s.abiertas
    ensures PcbsTras(s, a, t) && TimersTras(s, a, t)
  {
    hide Inv, SeBloquea, LiberarCpu, Bloquear, MarcoMutex;
    assert p in s.pcbs by { SigueVivo(s, a, p); }
    BloqueaCampos(s, u, p, t);
    forall q | q != p ensures !SeBloquea(s, a, q) { OtroNoBloquea(s, a, q); }
  }

  lemma SigueVivo(s: Sched, a: Accion, p: nat)
    requires SeBloquea(s, a, p)
    ensures p in s.pcbs
  {
  }

  lemma OtroNoBloquea(s: Sched, a: Accion, q: nat)
    requires (a.AIO? || a.ALock?) && a.pid != q
    ensures !SeBloquea(s, a, q)
  {
    hide FaseDe, Tomado;
  }

  /** The step changes nothing but mutexes. */
  lemma NoBloqueaEscrito(s: Sched, a: Accion, t: Sched)
    requires (a.AIO? || a.ALock?) && !SeBloquea(s, a, a.pid) && Comun(s, t) && (a.AIO? ==> Algo(a.pid) !in s.l.exec)
    ensures Escrito(s, a, t)
  {
    hide SeBloquea, FaseDe, Pasa;
    forall q ensures !SeBloquea(s, a, q) { if q != a.pid { OtroNoBloquea(s, a, q); } }
  }

  lemma IOEscrito(s: Sched, p: nat, tipo: TipoIO, ok: bool)
    requires Inv(s) && Admite(s, AIO(p, tipo, ok))
    ensures Escrito(s, AIO(p, tipo, ok), PedirIO(s, p, tipo, ok))
    ensures Algo(p) in s.l.exec ==> PedirIO(s, p, tipo, ok).l.exec == s.l.exec[CpuCon(s.l.exec, p).valor := Nada]
  {
    hide Inv, FaseDe, LiberarCpu, Bloquear, PcbsTras, TimersTras;
    var a := AIO(p, tipo, ok);
    var t := PedirIO(s, p, tipo, ok);
    CorreFase(s, p);
    if CpuCon(s.l.exec, p).Algo? {
      MismoMarco(s);
      var u := LiberarCpu(Bloquear(s, p));
      BloqueaEscrito(s, a, s, p, u);
      var b := Bloquear(s, p);
      LiberarCpuIgual(b);
      LiberarCpuIgual(b.(io := b.io[p := tipo]));
      BloquearIgual(s, p);
      EscritoIgual(s, a, u, t);
    } else {
      ComunIgual(s, s);
      NoBloqueaEscrito(s, a, s);
    }
  }

  lemma BloquearIgual(s: Sched, p: nat)
    ensures var t := Bloquear(s, p); t == s.(l := t.l, pcbs := t.pcbs, timers := t.timers)
  {
  }

  lemma EscritoIgual(s: Sched, a: Accion, u: Sched, t: Sched)
    requires t.pcbs == u.pcbs && t.timers == u.timers && PcbsTras(s, a, u) && TimersTras(s, a, u)
    ensures PcbsTras(s, a, t) && TimersTras(s, a, t)
  {
    hide SeBloquea;
  }

  lemma EsperarEscrito(s: Sched, p: nat, nombre: string, m: nat)
    requires Inv(s) && BuscarMutex(s.mutexes, nombre) == Algo(m) && s.mutexes[m].contador < 1 && Algo(p) in s.l.exec
    ensures Escrito(s, ALock(p, nombre), EsperarMutex(s, p, m))
    ensures EsperarMutex(s, p, m).l.exec == s.l.exec[CpuCon(s.l.exec, p).valor := Nada]
  {
    hide Inv, FaseDe, LiberarCpu, Bloquear, PcbsTras, TimersTras, HeredarDueno, DespertarPlan, Ubicado, MarcoMutex;
    var mx := s.mutexes[m];
    var x := Prio(s.pcbs, p);
    var t := s.(mutexes := s.mutexes[m := mx.(contador := mx.contador - 1, cola := mx.cola + [p])]);
    var u := if Ubicado(s.l, mx.pid) && x < Prio(s.pcbs, mx.pid) then DespertarPlan(HeredarDueno(t, mx.pid, x)) else t;
    MutexesMarco(s, t);
    MismoMarco(t);
    HeredarMarco(t, mx.pid, x);
    MarcoCompone(s, t, u);
    CorreFase(s, p);
    BloqueaEscrito(s, ALock(p, nombre), u, p, EsperarMutex(s, p, m));
  }

  lemma MutexesMarco(s: Sched, t: Sched)
    requires t == s.(mutexes := t.mutexes)
    ensures MarcoMutex(s, t)
  {
  }

  lemma LockEscrito(s: Sched, p: nat, nombre: string)
    requires Inv(s) && Admite(s, ALock(p, nombre))
    ensures Escrito(s, ALock(p, nombre), Lock(s, p, nombre))
    ensures Lock(s, p, nombre).l.exec ==
      if Algo(p) in s.l.exec && Tomado(s, nombre) then s.l.exec[CpuCon(s.l.exec, p).valor := Nada] else s.l.exec
  {
    hide Vivos, Niveles, Esperas, Pids, FaseDe, EsperarMutex, BuscarMutex, Escrito;
    MutexUnico(s, nombre);
    CorreFase(s, p);
    var a := ALock(p, nombre);
    var r := BuscarMutex(s.mutexes, nombre);
    if r.Algo? && Algo(p) in s.l.exec && s.mutexes[r.valor].contador < 1 {
      EsperarEscrito(s, p, nombre, r.valor);
    } else {
      ComunIgual(s, Lock(s, p, nombre));
      NoBloqueaEscrito(s, a, Lock(s, p, nombre));
    }
  }

  /** What any step leaves written, said from the state before it and from who moves. */
  lemma {:induction false} PasoEscrito(s: Sched, a: Accion)
    requires Inv(s) && Fichas(s) && Admite(s, a)
    ensures Escrito(s, a, Paso(s, a))
  {
    hide Inv, PlanOk, Exceso, Escrito, Comun, ConectarCpu, DesconectarCpu, Desalojar, DesalojarCompactacion, IniciarCompactacion,
      FinCompactacion, Terminar, TerminarIO, CrearMutex, Unlock, VenceTimer, Recorrer, CrearProceso, Lock, PedirIO, PasoPlan,
      BuscarMutex, Elegido, Vence;
    match a
    case ACrear(x, ok) => CrearEscrito(s, x, ok);
    case AIniciarCompactacion(p) => IniciarEscrito(s, p);
    case AFinCompactacion(k) => FinEscrito(s, k);
    case AIO(p, tipo, ok) => IOEscrito(s, p, tipo, ok);
    case AFinIO(p, ok) => FinIOEscrito(s, p, ok);
    case ALock(p, nombre) => LockEscrito(s, p, nombre);
    case ATimer(p, token, bytes, ok) => TimerEscrito(s, p, token, bytes, ok);
    case _ =>
      CorrienteComun(s, a);
      ComunEscrito(s, a, Paso(s, a));
  }

  lemma CorrienteComun(s: Sched, a: Accion)
    requires Corriente(a)
    ensures Comun(s, Paso(s, a))
  {
    hide Comun, ConectarCpu, DesconectarCpu, Desalojar, DesalojarCompactacion, Terminar, CrearMutex, Unlock, Recorrer, PasoPlan,
      BuscarMutex, Elegido;
    match a
    case ACrearMutex(nombre) => MutexComun(s, nombre);
    case AUnlock(p, nombre) => UnlockComun(s, p, nombre);
    case ARecorrer(lista, ok) => RecorrerComun(s, lista, ok);
    case _ => if EsPlan(a) { PlanComun(s, a); } else { CpusComun(s, a); }
  }

  lemma MutexComun(s: Sched, nombre: string)
    ensures Comun(s, CrearMutex(s, nombre))
  {
    hide Comun, BuscarMutex;
    ComunIgual(s, CrearMutex(s, nombre));
  }

  // ---------------------------------------------------------------- the CPUs

  /** The same CPUs: as they were, one vacated, or a process put on the first that was idle. */
  ghost predicate UnaCpu(x: seq<Opcion<nat>>, y: seq<Opcion<nat>>)
  {
    y == x || exists i :: 0 <= i < |x| && CambiaCpu(x, y, i)
  }

  ghost predicate CambiaCpu(x: seq<Opcion<nat>>, y: seq<Opcion<nat>>, i: nat)
    requires i < |x|
  {
    && |y| == |x| && y == x[i := y[i]]
    && (if x[i].Algo? then y[i].Nada? else y[i].Algo? && forall k :: 0 <= k < i ==> x[k].Algo?)
  }

  lemma {:induction false} PrimeraOciosa(x: seq<Opcion<nat>>)
    ensures CpuLibre(x).Algo? ==> forall k :: 0 <= k < CpuLibre(x).valor ==> x[k].Algo?
  {
    if x != [] && x[0].Algo? {
      PrimeraOciosa(x[1..]);
      var r := CpuLibre(x);
      if r.Algo? {
        forall k | 0 <= k < r.valor ensures x[k].Algo? { if k > 0 { assert x[1..][k - 1] == x[k]; } }
      }
    }
  }

  lemma VaciarUna(x: seq<Opcion<nat>>, y: seq<Opcion<nat>>, p: nat)
    requires y == x || (Algo(p) in x && y == x[CpuCon(x, p).valor := Nada])
    ensures UnaCpu(x, y)
  {
    if y != x { assert CambiaCpu(x, y, CpuCon(x, p).valor); }
  }

  lemma AsignarUna(s: Sched, p: nat)
    ensures UnaCpu(s.l.exec, Asignar(s, p).l.exec)
  {
    hide Listo;
    ListoCampos(s, p);
    PrimeraOciosa(s.l.exec);
    var i := CpuLibre(s.l.exec);
    if i.Algo? { assert CambiaCpu(s.l.exec, Asignar(s, p).l.exec, i.valor); }
  }

  lemma PlanUna(s: Sched, a: Accion)
    ensures UnaCpu(s.l.exec, PasoPlan(s, a).l.exec)
  {
    hide Asignar, SinPrimero, Primero, Victima, Senal, UnaCpu;
    SenalIgual(s);
    SinPrimeroExec(s.l);
    Quietas(s.l.exec);
    var p := Primero(s.l.colas);
    if p.Algo? {
      AsignarUna(s.(l := SinPrimero(s.l), plan := Espera), p.valor);
      AsignarUna(s.(l := SinPrimero(s.l), semCpu := s.semCpu - 1, plan := Espera), p.valor);
    }
    if s.l.mano.Algo? {
      AsignarUna(s.(l := s.l.(mano := Nada), semCpu := s.semCpu - 1, plan := Espera), s.l.mano.valor);
    }
  }

  lemma Quietas(x: seq<Opcion<nat>>)
    ensures UnaCpu(x, x)
  {
  }

  /** The evictions and the end of a process. */
  lemma SalidaUna(s: Sched, a: Accion)
    requires a.ADesalojo? || a.ACompactacion? || a.AIniciarCompactacion? || a.ATerminar?
    ensures UnaCpu(s.l.exec, Paso(s, a).l.exec)
  {
    hide LiberarCpu, Morir, Listo, UnaCpu, EncolarPrimero;
    var p := a.pid;
    if CpuCon(s.l.exec, p).Algo? {
      var t := s.(l := Soltar(s.l, CpuCon(s.l.exec, p).valor));
      ListoCampos(t, p);
      LiberarCpuIgual(ConReadyMas(Listo(t, p)));
      EncolarPrimeroResto(t.l, Nivel(t, p), p);
      MorirExec(t, p);
      LiberarCpuIgual(Morir(t, p));
    }
    VaciarUna(s.l.exec, Paso(s, a).l.exec, p);
  }

  lemma MorirExec(s: Sched, p: nat)
    ensures Morir(s, p).l.exec == s.l.exec
  {
    hide LiberarMutexes;
    LiberarMarco(s, p, 0);
  }

  lemma EsperaUna(s: Sched, a: Accion)
    requires Inv(s) && Admite(s, a) && (a.AIO? || a.ALock?)
    ensures UnaCpu(s.l.exec, Paso(s, a).l.exec)
  {
    hide Inv, UnaCpu, PedirIO, Lock, Escrito, Tomado;
    match a
    case AIO(p, tipo, ok) => IOEscrito(s, p, tipo, ok); SinCpuIO(s, p, tipo, ok); VaciarUna(s.l.exec, Paso(s, a).l.exec, p);
    case ALock(p, nombre) => LockEscrito(s, p, nombre); VaciarUna(s.l.exec, Paso(s, a).l.exec, p);
  }

  lemma SinCpuIO(s: Sched, p: nat, tipo: TipoIO, ok: bool)
    ensures Algo(p) !in s.l.exec ==> PedirIO(s, p, tipo, ok) == s
  {
  }

  /** The handlers that do not touch the CPUs. */
  lemma MismasCpus(s: Sched, a: Accion)
    requires a.ACrear? || a.AFinCompactacion? || a.AFinIO? || a.ACrearMutex? || a.AUnlock? || a.ATimer? || a.ARecorrer?
    ensures Paso(s, a).l.exec == s.l.exec
  {
    hide CrearProceso, FinCompactacion, TerminarIO, Unlock, Recorrer, BuscarMutex, Quitar;
    match a
    case ACrear(x, ok) => CrearExec(s, x, ok);
    case AFinCompactacion(k) =>
      if k < |s.abiertas| { FinCpus(s, k); }
    case AFinIO(p, ok) => FinIOCpus(s, p, ok);
    case AUnlock(p, nombre) => UnlockCpus(s, p, nombre);
    case ARecorrer(lista, ok) => RecorrerCpus(s, lista, ok);
    case _ =>
  }

  lemma RecorrerCpus(s: Sched, lista: set<nat>, ok: bool)
    ensures Recorrer(s, lista, ok).l.exec == s.l.exec
  {
    hide ListoConAviso, Quitar, Elegido;
    var r := Elegido(s.l.suspReady, lista);
    if r.Algo? { ListoMarco(s.(l := s.l.(suspReady := Quitar(s.l.suspReady, r.valor))), r.valor); }
  }

  lemma CrearExec(s: Sched, x: int, ok: bool)
    ensures CrearProceso(s, x, ok).l.exec == s.l.exec
  {
    hide Listo;
    ListoCampos(s.(proximo := s.proximo + 1, pcbs := s.pcbs[s.proximo := Pcb(SinSigno(x), SinSigno(x), 0)]), s.proximo);
  }

  lemma FinCpus(s: Sched, k: nat)
    requires k < |s.abiertas|
    ensures FinCompactacion(s, k).l == s.l
  {
  }

  lemma FinIOCpus(s: Sched, p: nat, ok: bool)
    ensures TerminarIO(s, p, ok).l.exec == s.l.exec
  {
    hide Despertar, DespertarPlan, EsTipo, Quitar;
    var u := s.(io := s.io - {p});
    DespertarMarco(u, p);
    SenalMarco(Despertar(u, p));
  }

  lemma UnlockCpus(s: Sched, p: nat, nombre: string)
    ensures Unlock(s, p, nombre).l.exec == s.l.exec
  {
    hide Entregar, Recalcular, BuscarMutex;
    var r := BuscarMutex(s.mutexes, nombre);
    if r.Algo? {
      var m := r.valor;
      var mx := s.mutexes[m];
      if mx.cola != [] { EntregarMarco(s, m); }
      var t := if mx.contador + 1 == 1 || mx.cola == [] then s.(mutexes := s.mutexes[m := mx.(contador := mx.contador + 1)])
               else Entregar(s, m);
      RecalcularMarco(t, p);
    }
  }

  /** CPU by CPU: a process keeps its own until it leaves it, and only the first idle one can get
      a process, one that was not running. */
  ghost predicate CpusTras(s: Sched, a: Accion, t: Sched)
  {
    match a
    case AConectar => t.l.exec == s.l.exec + [Nada]
    case ADesconectar(i) =>
      i < |s.l.exec| && |t.l.exec| == |s.l.exec| - 1
      && forall k :: 0 <= k < |t.l.exec| ==> t.l.exec[k] == s.l.exec[if k < i then k else k + 1]
    case _ => |t.l.exec| == |s.l.exec| && forall i :: 0 <= i < |s.l.exec| ==> CpuTras(s, a, t, i)
  }

  ghost predicate CpuTras(s: Sched, a: Accion, t: Sched, i: nat)
    requires i < |s.l.exec| == |t.l.exec|
  {
    match s.l.exec[i]
    case Algo(q) => t.l.exec[i] == if Pasa(s, a, q).Exec? then Algo(q) else Nada
    case Nada =>
      t.l.exec[i].Nada?
      || (Pasa(s, a, t.l.exec[i].valor).Exec? && !FaseDe(s, t.l.exec[i].valor).Exec? && forall k :: 0 <= k < i ==> s.l.exec[k].Algo?)
  }

  lemma MismasSalvoUna(s: Sched, a: Accion)
    requires Inv(s) && Fichas(s) && Admite(s, a) && !a.AConectar? && !a.ADesconectar?
    ensures UnaCpu(s.l.exec, Paso(s, a).l.exec)
  {
    hide Inv, Fichas, UnaCpu, Paso;
    if EsPlan(a) {
      PlanUna(s, a);
      assert Paso(s, a) == PasoPlan(s, a) by { PasoDePlan(s, a); }
    } else if a.AIO? || a.ALock? {
      EsperaUna(s, a);
    } else if a.ADesalojo? || a.ACompactacion? || a.AIniciarCompactacion? || a.ATerminar? {
      SalidaUna(s, a);
    } else {
      MismasCpus(s, a);
      Quietas(s.l.exec);
    }
  }

  lemma PasoDePlan(s: Sched, a: Accion)
    requires EsPlan(a)
    ensures Paso(s, a) == PasoPlan(s, a)
  {
  }

  /** Which CPU each process is on after any step. */
  lemma {:induction false} PasoCpus(s: Sched, a: Accion)
    requires Inv(s) && Fichas(s) && Admite(s, a)
    ensures CpusTras(s, a, Paso(s, a))
  {
    hide Inv, Fichas, UnaCpu, Paso, CpuTras;
    if a.AConectar? || a.ADesconectar? {
      CpuVa(s, a);
    } else {
      var t := Paso(s, a);
      MismasSalvoUna(s, a);
      PasoInv(s, a);
      forall i | 0 <= i < |s.l.exec| ensures |t.l.exec| == |s.l.exec| && CpuTras(s, a, t, i) {
        UnaCpuLargo(s.l.exec, t.l.exec);
        CpuPorCpu(s, a, t, i);
      }
      UnaCpuLargo(s.l.exec, t.l.exec);
    }
  }

  lemma UnaCpuLargo(x: seq<Opcion<nat>>, y: seq<Opcion<nat>>)
    requires UnaCpu(x, y)
    ensures |y| == |x|
  {
  }

  lemma CpuVa(s: Sched, a: Accion)
    requires Admite(s, a) && (a.AConectar? || a.ADesconectar?)
    ensures CpusTras(s, a, Paso(s, a))
  {
    hide Morir, LiberarCpu;
    match a
    case AConectar => LiberarCpuIgual(s.(l := s.l.(exec := s.l.exec + [Nada])));
    case ADesconectar(i) =>
      var t := s.(l := s.l.(exec := s.l.exec[..i] + s.l.exec[i + 1..]));
      if s.l.exec[i].Algo? { MorirExec(t, s.l.exec[i].valor); }
  }

  lemma CpuPorCpu(s: Sched, a: Accion, t: Sched, i: nat)
    requires Inv(s) && Fichas(s) && Admite(s, a) && t == Paso(s, a) && Inv(t)
    requires UnaCpu(s.l.exec, t.l.exec) && i < |s.l.exec| == |t.l.exec|
    ensures CpuTras(s, a, t, i)
  {
    hide Inv, Fichas, Paso, Pasa, FaseDe;
    var x, y := s.l.exec, t.l.exec;
    if y[i].Algo? {
      assert Algo(y[i].valor) in y;
      PasoFase(s, a, y[i].valor);
      CorreFase(t, y[i].valor);
    }
    if x[i].Algo? && y[i].Nada? {
      PasoFase(s, a, x[i].valor);
      CorreFase(t, x[i].valor);
      UnaSola(s, i, x[i].valor, y);
    }
    if x[i].Nada? && y[i].Algo? {
      CorreFase(s, y[i].valor);
      DosCpus(t, i, y[i].valor, x);
    }
  }

  /** A process that is off its CPU is on none. */
  lemma UnaSola(s: Sched, i: nat, p: nat, y: seq<Opcion<nat>>)
    requires Inv(s) && i < |s.l.exec| == |y| && s.l.exec[i] == Algo(p) && y == s.l.exec[i := Nada]
    ensures Algo(p) !in y
  {
    ExecCambia(s.l.exec, i, Nada, p);
    ExecTiene(y, p);
    assert Todos(s.l, p) + Si(p in {}) == if p in s.pcbs then 1 else 0;
  }

  lemma DosCpus(t: Sched, i: nat, p: nat, x: seq<Opcion<nat>>)
    requires Inv(t) && i < |t.l.exec| == |x| && t.l.exec[i] == Algo(p) && x == t.l.exec[i := Nada]
    ensures Algo(p) !in x
  {
    UnaSola(t, i, p, x);
  }
}
