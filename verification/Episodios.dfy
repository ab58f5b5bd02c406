/** How long a process stays in the block list: what makes the suspension timers safe.  And pids
    are used once. */
module Episodios {
  import opened Secuencias
  import opened Procesos
  import opened Planificador
  import opened Conservacion
  import opened Acciones

  /** Nobody enters the block list, no token changes, no pid appears. */
  ghost predicate SinBloqueo(s: Sched, t: Sched)
  {
    && t.proximo == s.proximo
    && (forall p :: p in t.pcbs ==> p in s.pcbs && t.pcbs[p].token == s.pcbs[p].token)
    && (forall p :: p in t.l.block ==> p in s.l.block)
  }

  /** Between two states of a run: tokens do not decrease; whoever is blocked with the token it
      had was blocked then; a pid that appears is a new one. */
  ghost predicate Episodio(s: Sched, t: Sched)
  {
    && s.proximo <= t.proximo
    && forall p :: p in t.pcbs ==>
         if p in s.pcbs then
           s.pcbs[p].token <= t.pcbs[p].token
           && (s.pcbs[p].token == t.pcbs[p].token && p in t.l.block ==> p in s.l.block)
         else p >= s.proximo
  }

  lemma Transitivo(s: Sched, t: Sched, u: Sched)
    requires SinBloqueo(s, t) && SinBloqueo(t, u)
    ensures SinBloqueo(s, u)
  {
  }

  lemma SenalSin(s: Sched)
    ensures SinBloqueo(s, Senal(s)) && SinBloqueo(s, DespertarPlan(s)) && SinBloqueo(s, LiberarCpu(s))
  {
    hide Senal;
    SenalIgual(s);
    SenalIgual(s.(semCpu := s.semCpu + 1));
  }

  lemma ListoSin(s: Sched, p: nat)
    ensures SinBloqueo(s, ListoConAviso(s, p))
  {
    hide Senal, Listo;
    ListoCampos(s, p);
    SenalIgual(ConReadyMas(Listo(s, p)));
  }

  lemma QuitarSin(s: Sched, t: Sched, p: nat)
    requires t.pcbs == s.pcbs && t.proximo == s.proximo && t.l.block == Quitar(s.l.block, p)
    ensures SinBloqueo(s, t)
  {
    forall q | q in t.l.block ensures q in s.l.block {
      QuitadoEstaba(s.l.block, p, q);
    }
  }

  lemma DespertarSin(s: Sched, p: nat)
    ensures SinBloqueo(s, Despertar(s, p))
  {
    hide ListoConAviso, InsertarPorPrio, Quitar;
    var t := s.(l := s.l.(block := Quitar(s.l.block, p)));
    QuitarSin(s, t, p);
    ListoSin(t, p);
    var l := s.l.(suspBlock := Quitar(s.l.suspBlock, p), suspReady := InsertarPorPrio(s.pcbs, s.l.suspReady, p));
    ListoSin(s.(l := l.(suspReady := Quitar(l.suspReady, p))), p);
  }

  lemma EntregarSin(s: Sched, m: nat)
    requires m < |s.mutexes| && s.mutexes[m].cola != []
    ensures SinBloqueo(s, Entregar(s, m))
  {
    hide Despertar, MinCola;
    var mx := s.mutexes[m];
    var t := s.(mutexes := s.mutexes[m := mx.(pid := mx.cola[0], contador := mx.contador + 1, cola := mx.cola[1..])],
                pcbs := ConPrio(s.pcbs, mx.cola[0], MinCola(s.pcbs, mx.cola[1..], Prio(s.pcbs, mx.cola[0]))));
    DespertarSin(t, mx.cola[0]);
    Transitivo(s, t, Entregar(s, m));
  }

  lemma {:induction false} HeredarSin(s: Sched, d: nat, i: nat)
    requires i <= |s.mutexes|
    ensures SinBloqueo(s, HeredarOtros(s, d, i))
    decreases |s.mutexes| - i
  {
    if i < |s.mutexes| {
      HeredarSin(HeredarEn(s, d, i), d, i + 1);
      Transitivo(s, HeredarEn(s, d, i), HeredarOtros(s, d, i));
    }
  }

  lemma HeredarDuenoSin(s: Sched, d: nat, x: nat)
    ensures SinBloqueo(s, HeredarDueno(s, d, x)) && HeredarDueno(s, d, x).pcbs.Keys == s.pcbs.Keys
  {
    hide HeredarOtros;
    var t := s.(l := Extraer(s.l, d), pcbs := ConPrio(s.pcbs, d, x));
    var u := s.(pcbs := ConPrio(s.pcbs, d, x));
    HeredarSin(t, d, 0);
    HeredarSin(u, d, 0);
    HeredarOtrosClaves(t, d, 0);
    HeredarOtrosClaves(u, d, 0);
  }

  lemma {:induction false} HeredarOtrosClaves(s: Sched, d: nat, i: nat)
    requires i <= |s.mutexes|
    ensures HeredarOtros(s, d, i).pcbs.Keys == s.pcbs.Keys
    decreases |s.mutexes| - i
  {
    if i < |s.mutexes| {
      HeredarOtrosClaves(HeredarEn(s, d, i), d, i + 1);
    }
  }

  lemma {:induction false} LiberarSin(s: Sched, p: nat, i: nat)
    requires i <= |s.mutexes|
    ensures SinBloqueo(s, LiberarMutexes(s, p, i))
    decreases |s.mutexes| - i
  {
    hide Entregar;
    if i < |s.mutexes| {
      var mx := s.mutexes[i];
      if mx.pid == p && mx.contador < 1 && mx.cola != [] {
        EntregarSin(s, i);
      }
      LiberarSin(LiberarUno(s, p, i), p, i + 1);
      Transitivo(s, LiberarUno(s, p, i), LiberarMutexes(s, p, i));
    }
  }

  lemma MorirSin(s: Sched, p: nat)
    ensures SinBloqueo(s, Morir(s, p))
  {
    hide LiberarMutexes;
    LiberarSin(s, p, 0);
  }

  /** Blocking starts a new episode: the token grows. */
  lemma BloquearEpisodio(s: Sched, t: Sched, p: nat)
    requires SinBloqueo(s, t) && p in t.pcbs
    ensures Episodio(s, Bloquear(t, p))
  {
  }

  /** The CPU that is freed afterwards does not matter. */
  lemma LiberarEpisodio(s: Sched, t: Sched, u: Sched)
    requires Episodio(s, t) && u.l == t.l && u.pcbs == t.pcbs && u.proximo == t.proximo
    ensures Episodio(s, LiberarCpu(u))
  {
    hide Senal;
    SenalIgual(u.(semCpu := u.semCpu + 1));
  }

  lemma EsperarEpisodio(s: Sched, p: nat, m: nat)
    requires p in s.pcbs && m < |s.mutexes|
    ensures Episodio(s, EsperarMutex(s, p, m))
  {
    hide Bloquear, HeredarDueno, Senal, LiberarCpu, Ubicado, Episodio;
    var mx := s.mutexes[m];
    var x := Prio(s.pcbs, p);
    var t := s.(mutexes := s.mutexes[m := mx.(contador := mx.contador - 1, cola := mx.cola + [p])]);
    HeredarDuenoSin(t, mx.pid, x);
    var h := HeredarDueno(t, mx.pid, x);
    SenalIgual(h);
    var u := if Ubicado(s.l, mx.pid) && x < Prio(s.pcbs, mx.pid) then DespertarPlan(h) else t;
    assert SinBloqueo(s, u);
    BloquearEpisodio(s, u, p);
    LiberarEpisodio(s, Bloquear(u, p), Bloquear(u, p));
  }

  lemma LockEpisodio(s: Sched, p: nat, nombre: string)
    requires Inv(s)
    ensures Episodio(s, Lock(s, p, nombre))
  {
    var r := BuscarMutex(s.mutexes, nombre);
    if r.Algo? && CpuCon(s.l.exec, p).Algo? {
      QuienCorre(s, {}, p);
      hide Inv, EsperarMutex;
      EsperarEpisodio(s, p, r.valor);
    }
  }

  lemma AsignarSin(s: Sched, p: nat)
    ensures SinBloqueo(s, Asignar(s, p))
  {
    hide Listo;
    ListoCampos(s, p);
  }

  lemma PlanSin(s: Sched, a: Accion)
    ensures SinBloqueo(s, PasoPlan(s, a))
  {
    hide SinBloqueo, TomarReady, TomarCpu, Despachar, Decidir, DespacharMano, Senal;
    match a
    case ASenal => SenalSin(s);
    case _ =>
      EsperasSin(s);
      DespacharSin(s);
      DecidirSin(s);
  }

  lemma EsperasSin(s: Sched)
    ensures SinBloqueo(s, TomarReady(s)) && SinBloqueo(s, TomarCpu(s)) && SinBloqueo(s, s)
  {
  }

  lemma DespacharSin(s: Sched)
    ensures SinBloqueo(s, Despachar(s)) && SinBloqueo(s, DespacharMano(s))
  {
    hide Asignar, SinPrimero, Primero;
    SinPrimeroSin(s);
    if Primero(s.l.colas).Algo? {
      AsignarSin(s.(l := SinPrimero(s.l), plan := Espera), Primero(s.l.colas).valor);
    }
    if s.l.mano.Algo? {
      AsignarSin(s.(l := s.l.(mano := Nada), semCpu := s.semCpu - 1, plan := Espera), s.l.mano.valor);
    }
  }

  lemma DecidirSin(s: Sched)
    ensures SinBloqueo(s, Decidir(s))
  {
    hide Asignar, SinPrimero, Primero, Victima;
    SinPrimeroSin(s);
    if Primero(s.l.colas).Algo? {
      AsignarSin(s.(l := SinPrimero(s.l), semCpu := s.semCpu - 1, plan := Espera), Primero(s.l.colas).valor);
    }
  }

  lemma SinPrimeroSin(s: Sched)
    ensures SinPrimero(s.l).block == s.l.block
  {
  }

  lemma UnlockSin(s: Sched, p: nat, nombre: string)
    ensures SinBloqueo(s, Unlock(s, p, nombre))
  {
    hide Entregar;
    var r := BuscarMutex(s.mutexes, nombre);
    if r.Algo? && s.mutexes[r.valor].cola != [] {
      EntregarSin(s, r.valor);
    }
  }

  lemma PidNuevo(s: Sched)
    requires Inv(s)
    ensures s.proximo !in s.pcbs
  {
  }

  lemma FinIOSin(s: Sched, p: nat, ok: bool)
    ensures SinBloqueo(s, TerminarIO(s, p, ok))
  {
    hide Despertar, Quitar, Senal;
    var u := s.(io := s.io - {p});
    DespertarSin(u, p);
    SenalSin(Despertar(u, p));
    QuitarSin(s, u.(l := u.l.(block := Quitar(u.l.block, p))), p);
    Transitivo(u, Despertar(u, p), DespertarPlan(Despertar(u, p)));
  }

  lemma TerminarSin(s: Sched, p: nat)
    ensures SinBloqueo(s, Terminar(s, p))
  {
    hide Morir, Senal, LiberarCpu;
    var i := CpuCon(s.l.exec, p);
    if i.Algo? {
      var t := s.(l := Soltar(s.l, i.valor));
      MorirSin(t, p);
      SenalSin(Morir(t, p));
      Transitivo(t, Morir(t, p), LiberarCpu(Morir(t, p)));
    }
  }

  /** The handlers after which nobody is blocked who was not. */
  lemma PasoSin(s: Sched, a: Accion)
    requires !a.ACrear? && !a.ALock? && !a.AIO? && !EsPlan(a)
    ensures SinBloqueo(s, Paso(s, a))
  {
    hide SinBloqueo, ConectarCpu, DesconectarCpu, Desalojar, DesalojarCompactacion, IniciarCompactacion, FinCompactacion, Terminar,
      TerminarIO, CrearMutex, Unlock, VenceTimer, Recorrer, CrearProceso, Lock, PedirIO, PasoPlan;
    match a
    case AConectar => ConectarSin(s);
    case ADesconectar(i) => DesconectarSin(s, i);
    case ADesalojo(p) => DesalojarSin(s, p);
    case ACompactacion(p) => CompactarSin(s, p);
    case AIniciarCompactacion(p) => CompactarSin(s, p);
    case AFinCompactacion(k) => FinSin(s, k);
    case ATerminar(p) => TerminarSin(s, p);
    case AFinIO(p, ok) => FinIOSin(s, p, ok);
    case ACrearMutex(nombre) => CrearMutexSin(s, nombre);
    case AUnlock(p, nombre) => UnlockSin(s, p, nombre);
    case ATimer(p, token, bytes, ok) => TimerSin(s, p, token, bytes, ok);
    case ARecorrer(lista, ok) => RecorrerSin(s, lista, ok);
  }

  lemma ConectarSin(s: Sched)
    ensures SinBloqueo(s, ConectarCpu(s))
  {
    hide Senal;
    SenalSin(s.(l := s.l.(exec := s.l.exec + [Nada])));
    SenalSin(s.(l := s.l.(exec := s.l.exec + [Nada]), semCpu := s.semCpu + 1));
  }

  lemma DesconectarSin(s: Sched, i: nat)
    ensures i < |s.l.exec| ==> SinBloqueo(s, DesconectarCpu(s, i))
    ensures SinBloqueo(s, s)
  {
    hide Morir;
    if i < |s.l.exec| && s.l.exec[i].Algo? {
      MorirSin(s.(l := s.l.(exec := s.l.exec[..i] + s.l.exec[i + 1..])), s.l.exec[i].valor);
    }
  }

  lemma DesalojarSin(s: Sched, p: nat)
    ensures SinBloqueo(s, Desalojar(s, p))
  {
    hide Senal, Listo, LiberarCpu, EncolarPrimero;
    if CpuCon(s.l.exec, p).Algo? {
      var t := s.(l := Soltar(s.l, CpuCon(s.l.exec, p).valor));
      ListoCampos(t, p);
      SenalSin(ConReadyMas(Listo(t, p)));
    }
  }

  lemma CrearMutexSin(s: Sched, nombre: string)
    ensures SinBloqueo(s, CrearMutex(s, nombre))
  {
  }

  lemma TimerSin(s: Sched, p: nat, token: nat, bytes: nat, ok: bool)
    ensures SinBloqueo(s, VenceTimer(s, p, token, bytes, ok))
  {
    hide Quitar;
    if Vence(s, p, token) {
      QuitarSin(s, VenceTimer(s, p, token, bytes, true), p);
    }
  }

  lemma RecorrerSin(s: Sched, lista: set<nat>, ok: bool)
    ensures SinBloqueo(s, Recorrer(s, lista, ok))
  {
    hide ListoConAviso, Elegido, Quitar;
    var r := Elegido(s.l.suspReady, lista);
    if r.Algo? {
      ListoSin(s.(l := s.l.(suspReady := Quitar(s.l.suspReady, r.valor))), r.valor);
    }
  }

  lemma CompactarSin(s: Sched, p: nat)
    ensures SinBloqueo(s, DesalojarCompactacion(s, p)) && SinBloqueo(s, IniciarCompactacion(s, p))
  {
  }

  lemma FinSin(s: Sched, k: nat)
    ensures k < |s.abiertas| ==> SinBloqueo(s, FinCompactacion(s, k))
    ensures SinBloqueo(s, s)
  {
    hide Senal;
    if k < |s.abiertas| {
      SenalIgual(s.(compactando := false, semCpu := s.semCpu + s.abiertas[k], abiertas := s.abiertas[..k] + s.abiertas[k + 1..]));
    }
  }

  /** One step. */
  lemma {:induction false} PasoEpisodio(s: Sched, a: Accion)
    requires Inv(s) && Admite(s, a)
    ensures Episodio(s, Paso(s, a))
  {
    hide Inv, Lock, PasoPlan, Bloquear, LiberarCpu, SinBloqueo, Episodio, ConectarCpu, DesconectarCpu, Desalojar, DesalojarCompactacion,
      IniciarCompactacion, FinCompactacion, Terminar, TerminarIO, CrearMutex, Unlock, VenceTimer, Recorrer, CrearProceso, PedirIO;
    match a
    case ACrear(x, ok) => CrearEpisodio(s, x, ok);
    case AIO(p, tipo, ok) => IOEpisodio(s, p, tipo, ok);
    case ALock(p, nombre) => LockEpisodio(s, p, nombre);
    case _ =>
      if EsPlan(a) {
        PlanSin(s, a);
      } else {
        PasoSin(s, a);
      }
      SinEpisodio(s, Paso(s, a));
  }

  lemma SinEpisodio(s: Sched, t: Sched)
    requires SinBloqueo(s, t)
    ensures Episodio(s, t)
  {
  }

  lemma CrearEpisodio(s: Sched, x: int, ok: bool)
    requires Inv(s)
    ensures Episodio(s, CrearProceso(s, x, ok))
  {
    PidNuevo(s);
  }

  lemma IOEpisodio(s: Sched, p: nat, tipo: TipoIO, ok: bool)
    requires Inv(s)
    ensures Episodio(s, PedirIO(s, p, tipo, ok))
  {
    if CpuCon(s.l.exec, p).Algo? {
      QuienCorre(s, {}, p);
      hide Inv, Bloquear, LiberarCpu, Episodio;
      SinIgual(s);
      BloquearEpisodio(s, s, p);
      var t := Bloquear(s, p);
      LiberarEpisodio(s, t, if tipo.Stdout? && !ok then t else t.(io := t.io[p := tipo]));
    } else {
      SinIgual(s);
      SinEpisodio(s, s);
    }
  }

  lemma SinIgual(s: Sched)
    ensures SinBloqueo(s, s)
  {
  }

  lemma EpisodioTransitivo(s: Sched, t: Sched, u: Sched)
    requires Pids(s) && Episodio(s, t) && Episodio(t, u)
    ensures Episodio(s, u)
  {
  }

  lemma {:induction false} CorrerEpisodio(s: Sched, acs: seq<Accion>)
    requires Inv(s) && Fichas(s) && Posible(s, acs)
    ensures Episodio(s, Correr(s, acs))
    decreases |acs|
  {
    if acs != [] {
      SigueEpisodio(s, acs[0]);
      CorrerEpisodio(Paso(s, acs[0]), acs[1..]);
      EpisodioTransitivo(s, Paso(s, acs[0]), Correr(Paso(s, acs[0]), acs[1..]));
    }
  }

  lemma SigueEpisodio(s: Sched, a: Accion)
    requires Inv(s) && Fichas(s) && Admite(s, a)
    ensures Inv(Paso(s, a)) && Fichas(Paso(s, a)) && Episodio(s, Paso(s, a)) && Pids(s)
  {
    hide Fichas, Paso, Admite, Episodio, Vivos, Niveles, Esperas, Mutexes;
    PasoInv(s, a);
    PasoEpisodio(s, a);
  }

  /** Suspension timers act only on their own block.  A timer armed when the token of `p` was
      `token` (state `s`) that finds something to do after a run, finds `p` in the block list
      with that token; then `p` was there, with that token, in every state in between. */
  lemma {:induction false} TimerDeSuBloqueo(s: Sched, acs: seq<Accion>, n: nat, p: nat, token: nat)
    requires Inv(s) && Fichas(s) && Posible(s, acs) && n <= |acs|
    requires p in s.pcbs && s.pcbs[p].token == token
    requires Vence(Correr(s, acs), p, token)
    ensures Posible(s, acs[..n])
    ensures Vence(Correr(s, acs[..n]), p, token)
  {
    assert acs == acs[..n] + acs[n..];
    CorrerPartido(s, acs[..n], acs[n..]);
    CorrerInv(s, acs[..n]);
    CorrerEpisodio(s, acs[..n]);
    CorrerEpisodio(Correr(s, acs[..n]), acs[n..]);
    var t := Correr(s, acs[..n]);
    assert Pids(s) && Pids(t);
  }

  /** Pids are used once: a process that is gone does not come back, whatever the run. */
  lemma {:induction false} PidsUnaVez(s: Sched, acs: seq<Accion>, p: nat)
    requires Inv(s) && Fichas(s) && Posible(s, acs) && p !in s.pcbs && p < s.proximo
    ensures p !in Correr(s, acs).pcbs
  {
    CorrerEpisodio(s, acs);
  }
}
