/** The life of a process: where any process is after any step, said from the state before it. */
module Ciclo {
  import opened Secuencias
  import opened Procesos
  import opened Planificador
  import opened Conservacion
  import opened Acciones

  /** The places of a live process, and the place of those that are not alive. */
  datatype Fase = Exec | Ready | Block | SuspBlock | SuspReady | Mano | Fuera

  ghost predicate EnAlguna(colas: seq<seq<nat>>, q: nat) { exists n :: 0 <= n < |colas| && q in colas[n] }

  ghost predicate EnFase(s: Sched, q: nat, f: Fase)
  {
    match f
    case Exec => Algo(q) in s.l.exec
    case Ready => EnAlguna(s.l.colas, q)
    case Block => q in s.l.block
    case SuspBlock => q in s.l.suspBlock
    case SuspReady => q in s.l.suspReady
    case Mano => s.l.mano == Algo(q)
    case Fuera => q !in s.pcbs
  }

  ghost function FaseDe(s: Sched, q: nat): Fase
  {
    if q !in s.pcbs then Fuera
    else if Algo(q) in s.l.exec then Exec
    else if EnAlguna(s.l.colas, q) then Ready
    else if q in s.l.block then Block
    else if q in s.l.suspBlock then SuspBlock
    else if q in s.l.suspReady then SuspReady
    else Mano
  }

  // ---------------------------------------------------------------- the transitions

  /** Where a process goes whose wait is over: a suspended one stays out of memory unless it has
      nothing to bring back. */
  ghost function TrasEspera(s: Sched, q: nat): Fase
  {
    if q in s.l.block || (q in s.bytes && s.bytes[q] == 0) then Ready else SuspReady
  }

  /** `q` is the first that waits for some mutex of `p`. */
  ghost predicate Heredero(s: Sched, p: nat, q: nat)
  {
    exists m :: 0 <= m < |s.mutexes| && HeredaMutex(s, p, m, q)
  }

  ghost predicate HeredaMutex(s: Sched, p: nat, m: nat, q: nat)
    requires m < |s.mutexes|
  {
    s.mutexes[m].pid == p && s.mutexes[m].cola != [] && s.mutexes[m].cola[0] == q
  }

  /** `q` is the first that waits for the mutex of that name. */
  ghost predicate EsperaPrimero(s: Sched, nombre: string, q: nat)
  {
    exists m :: 0 <= m < |s.mutexes| && s.mutexes[m].nombre == nombre && s.mutexes[m].cola != [] && s.mutexes[m].cola[0] == q
  }

  /** The mutex of that name is not free. */
  ghost predicate Tomado(s: Sched, nombre: string)
  {
    exists m :: 0 <= m < |s.mutexes| && s.mutexes[m].nombre == nombre && s.mutexes[m].contador < 1
  }

  /** `q` is the first of `xs` that the memory announced. */
  ghost predicate PrimerAnunciado(xs: seq<nat>, lista: set<nat>, q: nat)
  {
    q in lista && exists k :: 0 <= k < |xs| && xs[k] == q && forall j :: 0 <= j < k ==> xs[j] !in lista
  }

  /** `q` heads the best queue that is not empty. */
  ghost predicate Cabeza(colas: seq<seq<nat>>, q: nat)
  {
    exists n :: 0 <= n < |colas| && colas[n] != [] && colas[n][0] == q && forall k :: 0 <= k < n ==> colas[k] == []
  }

  ghost predicate CorrePeor(s: Sched, q: nat) { exists r: nat :: Algo(r) in s.l.exec && Prio(s.pcbs, r) > Prio(s.pcbs, q) }

  /** Where `q` is after the death of `p`. */
  ghost function TrasMuerte(s: Sched, p: nat, q: nat): Fase
  {
    if q == p then Fuera else if Heredero(s, p, q) then TrasEspera(s, q) else FaseDe(s, q)
  }

  /** Where `q` goes in one turn of the planner. */
  ghost function TrasTurno(s: Sched, a: Accion, q: nat): Fase
  {
    var f := FaseDe(s, q);
    var expropia := s.pol.cmn && s.pol.desalojo;
    match a
    case ADespachar =>
      if s.plan.ConAmbos? && !s.compactando && Cabeza(s.l.colas, q) && Nada in s.l.exec then Exec else f
    case ADecidir =>
      if s.plan.ConReady? && expropia && !s.compactando && Cabeza(s.l.colas, q) then
        if s.semCpu > 0 then if Nada in s.l.exec then Exec else f
        else if CorrePeor(s, q) then Mano else f
      else f
    case ADespacharMano =>
      if s.plan.ConMano? && s.semCpu > 0 && s.l.mano == Algo(q) then if Nada in s.l.exec then Exec else Ready else f
    case _ => f
  }

  /** Where `q` is after step `a`. */
  ghost function Pasa(s: Sched, a: Accion, q: nat): Fase
  {
    var f := FaseDe(s, q);
    match a
    case ACrear(x, ok) => if q == s.proximo && ok && (s.pol.cmn ==> 0 <= x < s.pol.niveles) then Ready else f
    case ADesalojo(p) => if q == p && f.Exec? then Ready else f
    case ACompactacion(p) => if q == p && f.Exec? then Ready else f
    case AIniciarCompactacion(p) => if q == p && f.Exec? then Ready else f
    case ATerminar(p) => if FaseDe(s, p).Exec? then TrasMuerte(s, p, q) else f
    case ADesconectar(i) => if i < |s.l.exec| && s.l.exec[i].Algo? then TrasMuerte(s, s.l.exec[i].valor, q) else f
    case AIO(p, tipo, ok) => if q == p && f.Exec? then Block else f
    case AFinIO(p, ok) => if q == p then TrasEspera(s, q) else f
    case ALock(p, nombre) => if q == p && f.Exec? && Tomado(s, nombre) then Block else f
    case AUnlock(p, nombre) => if EsperaPrimero(s, nombre, q) then TrasEspera(s, q) else f
    case ATimer(p, token, bytes, ok) => if q == p && f.Block? && s.pcbs[p].token == token then SuspBlock else f
    case ARecorrer(lista, ok) => if PrimerAnunciado(s.l.suspReady, lista, q) then Ready else f
    case _ => TrasTurno(s, a, q)
  }

  // ---------------------------------------------------------------- staying where one is

  /** Whatever place `q` is in, it is still there. */
  ghost predicate Queda(s: Sched, t: Sched, q: nat)
  {
    && (q !in s.pcbs ==> q !in t.pcbs)
    && (Algo(q) in s.l.exec ==> Algo(q) in t.l.exec)
    && (EnAlguna(s.l.colas, q) ==> EnAlguna(t.l.colas, q))
    && (q in s.l.block ==> q in t.l.block)
    && (q in s.l.suspBlock ==> q in t.l.suspBlock)
    && (q in s.l.suspReady ==> q in t.l.suspReady)
    && (s.l.mano == Algo(q) ==> t.l.mano == Algo(q))
  }

  lemma QuedaCompone(s: Sched, t: Sched, u: Sched, q: nat)
    requires Queda(s, t, q) && Queda(t, u, q)
    ensures Queda(s, u, q)
  {
    hide EnAlguna;
  }

  lemma QuedaIgual(s: Sched, t: Sched, q: nat)
    requires t.l == s.l && t.pcbs.Keys == s.pcbs.Keys
    ensures Queda(s, t, q)
  {
    hide EnAlguna;
  }

  lemma QuedaEn(s: Sched, t: Sched, q: nat, f: Fase)
    requires Queda(s, t, q) && EnFase(s, q, f)
    ensures EnFase(t, q, f)
  {
    hide EnAlguna;
  }

  lemma EnAlgunaNivel(colas: seq<seq<nat>>, q: nat)
    ensures EnAlguna(colas, q) <==> NivelDe(colas, q).Algo?
  {
  }

  /** A process is in the place it is in. */
  lemma FaseEsta(s: Sched, q: nat)
    requires Inv(s)
    ensures EnFase(s, q, FaseDe(s, q))
  {
    EnAlgunaNivel(s.l.colas, q);
    EnTiene(s.l.block, q);
    EnTiene(s.l.suspBlock, q);
    EnTiene(s.l.suspReady, q);
    ReadyTiene(s.l.colas, q);
    ExecTiene(s.l.exec, q);
    assert Todos(s.l, q) + Si(q in {}) == if q in s.pcbs then 1 else 0;
  }

  /** And in no other. */
  lemma FaseUnica(s: Sched, q: nat, f: Fase)
    requires Inv(s) && EnFase(s, q, f)
    ensures FaseDe(s, q) == f
  {
    EnAlgunaNivel(s.l.colas, q);
    EnTiene(s.l.block, q);
    EnTiene(s.l.suspBlock, q);
    EnTiene(s.l.suspReady, q);
    ReadyTiene(s.l.colas, q);
    ExecTiene(s.l.exec, q);
    assert Todos(s.l, q) + Si(q in {}) == if q in s.pcbs then 1 else 0;
  }

  lemma SigueEn(s: Sched, t: Sched, q: nat)
    requires Inv(s) && Queda(s, t, q)
    ensures EnFase(t, q, FaseDe(s, q))
  {
    hide Inv, Queda, EnFase;
    FaseEsta(s, q);
    QuedaEn(s, t, q, FaseDe(s, q));
  }

  // ---------------------------------------------------------------- small steps

  lemma EncolarQueda(s: Sched, n: nat, p: nat, q: nat)
    ensures Queda(s, s.(l := Encolar(s.l, n, p)), q) && Queda(s, s.(l := EncolarPrimero(s.l, n, p)), q)
    ensures n < |s.l.colas| ==> EnAlguna(Encolar(s.l, n, p).colas, p) && EnAlguna(EncolarPrimero(s.l, n, p).colas, p)
  {
    if n < |s.l.colas| {
      var c, d := Encolar(s.l, n, p).colas, EncolarPrimero(s.l, n, p).colas;
      assert p in c[n] && p in d[n];
      forall k | 0 <= k < |s.l.colas| && q in s.l.colas[k] ensures q in c[k] && q in d[k] {}
    }
  }

  lemma ListoQueda(s: Sched, p: nat, q: nat)
    ensures Queda(s, ConReadyMas(Listo(s, p)), q) && Queda(s, ListoConAviso(s, p), q)
    ensures Niveles(s) && p in s.pcbs ==> EnAlguna(ConReadyMas(Listo(s, p)).l.colas, p) && EnAlguna(ListoConAviso(s, p).l.colas, p)
  {
    hide Encolar, EnAlguna, Senal;
    EncolarQueda(s, Nivel(s, p), p, q);
    SenalIgual(ConReadyMas(Listo(s, p)));
  }

  /** A list without `p` still has the others. */
  lemma QuitarQueda(s: Sched, p: nat, q: nat)
    requires q != p
    ensures Queda(s, s.(l := s.l.(block := Quitar(s.l.block, p))), q)
    ensures Queda(s, s.(l := s.l.(suspBlock := Quitar(s.l.suspBlock, p))), q)
    ensures Queda(s, s.(l := s.l.(suspReady := Quitar(s.l.suspReady, p))), q)
  {
    hide EnAlguna;
    QuitarOtro(s.l.block, p, q);
    QuitarOtro(s.l.suspBlock, p, q);
    QuitarOtro(s.l.suspReady, p, q);
  }

  lemma InsertarQueda(s: Sched, p: nat, q: nat)
    ensures Queda(s, s.(l := s.l.(suspReady := InsertarPorPrio(s.pcbs, s.l.suspReady, p))), q)
    ensures p in InsertarPorPrio(s.pcbs, s.l.suspReady, p)
  {
    hide EnAlguna;
    InsertarEn(s.pcbs, s.l.suspReady, p, q);
    InsertarEn(s.pcbs, s.l.suspReady, p, p);
    EnTiene(s.l.suspReady, q);
    EnTiene(InsertarPorPrio(s.pcbs, s.l.suspReady, p), q);
    EnTiene(InsertarPorPrio(s.pcbs, s.l.suspReady, p), p);
  }

  /** The end of a wait moves nobody else. */
  lemma DespertarQueda(s: Sched, p: nat, q: nat)
    requires q != p
    ensures Queda(s, Despertar(s, p), q)
  {
    hide Queda, ListoConAviso, InsertarPorPrio, Quitar;
    QuedaIgual(s, s, q);
    QuitarQueda(s, p, q);
    var b := s.(l := s.l.(block := Quitar(s.l.block, p)));
    ListoQueda(b, p, q);
    QuedaCompone(s, b, ListoConAviso(b, p), q);
    var u := s.(l := s.l.(suspBlock := Quitar(s.l.suspBlock, p)));
    var v := u.(l := u.l.(suspReady := InsertarPorPrio(s.pcbs, s.l.suspReady, p)));
    var w := v.(l := v.l.(suspReady := Quitar(v.l.suspReady, p)));
    InsertarQueda(u, p, q);
    QuedaCompone(s, u, v, q);
    QuitarQueda(v, p, q);
    QuedaCompone(s, v, w, q);
    ListoQueda(w, p, q);
    QuedaCompone(s, w, ListoConAviso(w, p), q);
  }

  lemma DespertarLlega(s: Sched, p: nat)
    requires Niveles(s) && p in s.pcbs && (p in s.l.block || p in s.l.suspBlock)
    ensures EnFase(Despertar(s, p), p, TrasEspera(s, p))
  {
    hide ListoConAviso, InsertarPorPrio, Quitar, EnAlguna;
    var b := s.(l := s.l.(block := Quitar(s.l.block, p)));
    assert Niveles(b);
    ListoQueda(b, p, p);
    var u := s.(l := s.l.(suspBlock := Quitar(s.l.suspBlock, p)));
    var v := u.(l := u.l.(suspReady := InsertarPorPrio(s.pcbs, s.l.suspReady, p)));
    var w := v.(l := v.l.(suspReady := Quitar(v.l.suspReady, p)));
    InsertarQueda(u, p, p);
    assert Niveles(w);
    ListoQueda(w, p, p);
  }

  // ---------------------------------------------------------------- hand-offs

  /** A hand-off wakes the first in the queue up, and moves nobody else. */
  lemma EntregarFase(s: Sched, m: nat, q: nat, aire: set<nat>)
    requires Base(s, aire, Nada, Nada) && m < |s.mutexes| && s.mutexes[m].cola != []
    ensures if s.mutexes[m].cola[0] == q then EnFase(Entregar(s, m), q, TrasEspera(s, q)) else Queda(s, Entregar(s, m), q)
  {
    hide Vivos, Esperas, Mutexes, Pids, Despertar, MinCola, EnSuNivel, EnFase, Queda, EnAlguna;
    var mx := s.mutexes[m];
    var sig := mx.cola[0];
    var x := MinCola(s.pcbs, mx.cola[1..], Prio(s.pcbs, sig));
    var t := s.(mutexes := s.mutexes[m := mx.(pid := sig, contador := mx.contador + 1, cola := mx.cola[1..])]);
    var u := t.(pcbs := ConPrio(s.pcbs, sig, x));
    PopBase(s, m, aire, t);
    MinColaRango(s.pcbs, mx.cola[1..], Prio(s.pcbs, sig));
    PrioEnRango(s, sig);
    NoEnReady(s, aire, sig);
    ConPrioBase(t, sig, x, aire, Algo(sig), Nada);
    if q == sig {
      DespertarLlega(u, sig);
    } else {
      QuedaIgual(s, u, q);
      DespertarQueda(u, sig, q);
      QuedaCompone(s, u, Despertar(u, sig), q);
    }
  }

  /** The heir of a mutex waits for nothing else. */
  lemma HerederoUno(s: Sched, p: nat, i: nat, k: nat, q: nat, aire: set<nat>)
    requires Base(s, aire, Nada, Nada) && i < |s.mutexes| && k < |s.mutexes| && i != k
    requires HeredaMutex(s, p, i, q)
    ensures !HeredaMutex(s, p, k, q)
  {
    hide Base;
    assert q in s.mutexes[i].cola;
    UnicaCola(s, aire, i, k, q);
  }

  ghost predicate HerederoDesde(s: Sched, p: nat, i: nat, q: nat)
  {
    exists m :: i <= m < |s.mutexes| && HeredaMutex(s, p, m, q)
  }

  /** One turn of the loop on the death of `p`. */
  lemma LiberarUnoFase(s: Sched, p: nat, i: nat, q: nat, aire: set<nat>)
    requires Base(s, aire, Nada, Nada) && i < |s.mutexes|
    ensures var t := LiberarUno(s, p, i);
      && (if HeredaMutex(s, p, i, q) then EnFase(t, q, TrasEspera(s, q)) && !HerederoDesde(t, p, i + 1, q)
          else Queda(s, t, q) && HerederoDesde(t, p, i + 1, q) == HerederoDesde(s, p, i, q)
               && (HerederoDesde(s, p, i, q) ==> TrasEspera(t, q) == TrasEspera(s, q)))
  {
    hide Vivos, Niveles, Esperas, Pids, Entregar, EnFase, Queda, Efecto, ParejoCpu, AvisaDespertar, MinCola;
    var t := LiberarUno(s, p, i);
    assert MutexOk(s.pcbs, s.mutexes[i]);
    if s.mutexes[i].pid == p && s.mutexes[i].contador < 1 {
      if s.mutexes[i].cola == [] {
        QuedaIgual(s, t, q);
      } else {
        EntregarFase(s, i, q, aire);
        EntregarEfecto(s, i, aire);
      }
    } else {
      QuedaIgual(s, t, q);
    }
    assert forall k :: i < k < |s.mutexes| ==> t.mutexes[k] == s.mutexes[k];
    if HeredaMutex(s, p, i, q) {
      forall k | i < k < |s.mutexes| ensures !HeredaMutex(s, p, k, q) { HerederoUno(s, p, i, k, q, aire); }
    }
    assert forall k :: i < k < |s.mutexes| ==> HeredaMutex(t, p, k, q) == HeredaMutex(s, p, k, q);
  }

  /** The death of `p` moves its heirs only. */
  lemma {:induction false} LiberarFase(s: Sched, p: nat, i: nat, q: nat, aire: set<nat>)
    requires Base(s, aire, Nada, Nada) && i <= |s.mutexes|
    ensures var t := LiberarMutexes(s, p, i);
      if HerederoDesde(s, p, i, q) then EnFase(t, q, TrasEspera(s, q)) else Queda(s, t, q)
    decreases |s.mutexes| - i
  {
    hide Base, LiberarUno, EnFase, Queda, TrasEspera, HeredaMutex, Efecto, ParejoCpu, AvisaMutex;
    if i == |s.mutexes| {
      QuedaIgual(s, s, q);
    } else {
      var u := LiberarUno(s, p, i);
      LiberarUnoBase(s, p, i, aire);
      LiberarUnoFase(s, p, i, q, aire);
      LiberarFase(u, p, i + 1, q, aire);
      var t := LiberarMutexes(u, p, i + 1);
      if HeredaMutex(s, p, i, q) {
        QuedaEn(u, t, q, TrasEspera(s, q));
      } else if !HerederoDesde(s, p, i, q) {
        QuedaCompone(s, u, t, q);
      }
    }
  }

  /** `p` is in the air, and dies. */
  lemma MorirFase(s: Sched, p: nat, q: nat)
    requires Base(s, {p}, Nada, Nada)
    ensures var t := Morir(s, p);
      if q == p then EnFase(t, q, Fuera) else if Heredero(s, p, q) then EnFase(t, q, TrasEspera(s, q)) else Queda(s, t, q)
  {
    hide Base, LiberarMutexes, TrasEspera, HeredaMutex, EnAlguna;
    var u := LiberarMutexes(s, p, 0);
    LiberarFase(s, p, 0, q, {p});
    assert HerederoDesde(s, p, 0, q) == Heredero(s, p, q);
  }

  /** A CPU is vacated, or goes away: the others keep their processes. */
  lemma SoltarQueda(s: Sched, i: nat, q: nat)
    requires i < |s.l.exec| && s.l.exec[i] != Algo(q)
    ensures Queda(s, s.(l := Soltar(s.l, i)), q)
    ensures Queda(s, s.(l := s.l.(exec := s.l.exec[..i] + s.l.exec[i + 1..])), q)
  {
    hide EnAlguna;
    var x := s.l.exec;
    if Algo(q) in x {
      var k :| 0 <= k < |x| && x[k] == Algo(q);
      assert x[i := Nada][k] == Algo(q);
      var y := x[..i] + x[i + 1..];
      assert y[if k < i then k else k - 1] == Algo(q);
    }
  }

  lemma LiberarQueda(s: Sched, q: nat)
    ensures Queda(s, LiberarCpu(s), q) && LiberarCpu(s).pcbs == s.pcbs && LiberarCpu(s).l == s.l
  {
    hide Senal, Queda;
    SenalIgual(s.(semCpu := s.semCpu + 1));
    QuedaIgual(s, LiberarCpu(s), q);
  }

  /** After the death of `p`, once it is off its CPU. */
  lemma MuerteFase(s: Sched, t: Sched, p: nat, q: nat)
    requires Inv(s) && Algo(p) in s.l.exec && Base(t, {p}, Nada, Nada) && t == s.(l := s.l.(exec := t.l.exec))
    requires q != p ==> Queda(s, t, q)
    ensures EnFase(Morir(t, p), q, TrasMuerte(s, p, q))
  {
    hide Base, Inv, Morir, EnFase, Queda, FaseDe;
    MorirFase(t, p, q);
    assert Heredero(t, p, q) == Heredero(s, p, q) by {
      assert forall m :: 0 <= m < |s.mutexes| ==> HeredaMutex(t, p, m, q) == HeredaMutex(s, p, m, q);
    }
    if q != p && !Heredero(s, p, q) {
      QuedaCompone(s, t, Morir(t, p), q);
      SigueEn(s, Morir(t, p), q);
    }
  }

  lemma TerminarFase(s: Sched, p: nat, q: nat)
    requires Inv(s)
    ensures EnFase(Terminar(s, p), q, Pasa(s, ATerminar(p), q))
  {
    hide Base, Morir, EnFase, Queda, LiberarCpu, TrasMuerte, Soltar;
    var i := CpuCon(s.l.exec, p);
    CorreFase(s, p);
    if i.Algo? {
      var t := s.(l := Soltar(s.l, i.valor));
      SoltarBase(s, i.valor, p, {}, Nada, Nada);
      assert {} + {p} == {p};
      SoltadoIgual(s, i.valor);
      if q != p { SoltarQueda(s, i.valor, q); }
      MuerteFase(s, t, p, q);
      LiberarQueda(Morir(t, p), q);
      QuedaEn(Morir(t, p), LiberarCpu(Morir(t, p)), q, TrasMuerte(s, p, q));
    } else {
      QuedaIgual(s, s, q);
      SigueEn(s, s, q);
    }
  }

  lemma SoltadoIgual(s: Sched, i: nat)
    requires i < |s.l.exec|
    ensures var t := s.(l := Soltar(s.l, i)); t == s.(l := s.l.(exec := t.l.exec))
  {
  }

  /** Running is being on a CPU. */
  lemma CorreFase(s: Sched, p: nat)
    requires Inv(s)
    ensures FaseDe(s, p).Exec? <==> Algo(p) in s.l.exec
    ensures FaseDe(s, p).Exec? ==> p in s.pcbs
  {
    hide Inv, EnAlguna;
    if Algo(p) in s.l.exec {
      FaseUnica(s, p, Exec);
    } else {
      FaseEsta(s, p);
    }
  }

  lemma DesconectarFase(s: Sched, i: nat, q: nat)
    requires Inv(s) && i < |s.l.exec|
    ensures EnFase(DesconectarCpu(s, i), q, Pasa(s, ADesconectar(i), q))
  {
    hide Inv, Morir, EnFase, Queda, TrasMuerte;
    var t := s.(l := s.l.(exec := s.l.exec[..i] + s.l.exec[i + 1..]));
    SalirBase(s, i);
    if s.l.exec[i] != Algo(q) { SoltarQueda(s, i, q); }
    if s.l.exec[i].Algo? {
      MuerteFase(s, t, s.l.exec[i].valor, q);
    } else {
      SigueEn(s, t, q);
    }
  }

  // ---------------------------------------------------------------- the other handlers

  /** Only `p` moves. */
  lemma SoloUno(s: Sched, t: Sched, p: nat, q: nat, f: Fase)
    requires Inv(s) && (if q == p then EnFase(t, q, f) else Queda(s, t, q))
    ensures EnFase(t, q, if q == p then f else FaseDe(s, q))
  {
    hide Inv, Queda, EnFase, FaseDe;
    if q != p { SigueEn(s, t, q); }
  }

  /** From the CPU to either end of its queue. */
  lemma DesalojarFase(s: Sched, p: nat, q: nat)
    requires Inv(s)
    ensures EnFase(Desalojar(s, p), q, Pasa(s, ADesalojo(p), q))
    ensures EnFase(DesalojarCompactacion(s, p), q, Pasa(s, ACompactacion(p), q))
  {
    hide Vivos, Esperas, Mutexes, Pids, EnSuNivel, Listo, LiberarCpu, EnFase, Queda, FaseDe, Soltar, EncolarPrimero;
    CorreFase(s, p);
    QuedaIgual(s, s, q);
    SigueEn(s, s, q);
    if CpuCon(s.l.exec, p).Algo? {
      var i := CpuCon(s.l.exec, p).valor;
      var t := s.(l := Soltar(s.l, i));
      SoltarBase(s, i, p, {}, Nada, Nada);
      SoltadoIgual(s, i);
      if q != p { SoltarQueda(s, i, q); }
      VueltaFase(s, t, p, q);
    }
  }

  lemma VueltaFase(s: Sched, t: Sched, p: nat, q: nat)
    requires Inv(s) && Niveles(t) && p in t.pcbs && (q != p ==> Queda(s, t, q))
    ensures EnFase(LiberarCpu(ConReadyMas(Listo(t, p))), q, if q == p then Ready else FaseDe(s, q))
    ensures EnFase(ConReadyMas(t.(l := EncolarPrimero(t.l, Nivel(t, p), p))), q, if q == p then Ready else FaseDe(s, q))
  {
    hide Base, Listo, LiberarCpu, Queda, FaseDe, EncolarPrimero, EnAlguna;
    var u := ConReadyMas(Listo(t, p));
    var v := t.(l := EncolarPrimero(t.l, Nivel(t, p), p));
    NivelVale(t, p);
    ListoQueda(t, p, q);
    EncolarQueda(t, Nivel(t, p), p, q);
    LiberarQueda(u, q);
    QuedaIgual(v, ConReadyMas(v), q);
    if q != p {
      QuedaCompone(s, t, u, q);
      QuedaCompone(s, u, LiberarCpu(u), q);
      QuedaCompone(s, t, v, q);
      QuedaCompone(s, v, ConReadyMas(v), q);
    }
    SoloUno(s, LiberarCpu(u), p, q, Ready);
    SoloUno(s, ConReadyMas(v), p, q, Ready);
  }

  /** Every live process has a queue. */
  lemma NivelVale(s: Sched, p: nat)
    requires Niveles(s) && p in s.pcbs
    ensures Nivel(s, p) < |s.l.colas|
  {
  }

  lemma IniciarFase(s: Sched, p: nat, q: nat)
    requires Inv(s)
    ensures EnFase(IniciarCompactacion(s, p), q, Pasa(s, AIniciarCompactacion(p), q))
  {
    hide Inv, DesalojarCompactacion, Queda, FaseDe, EnAlguna;
    DesalojarFase(s, p, q);
    CorreFase(s, p);
    QuedaIgual(s, s, q);
    SigueEn(s, s, q);
  }

  lemma BloquearQueda(s: Sched, p: nat, q: nat)
    requires Algo(p) in s.l.exec && p in s.pcbs
    ensures p in Bloquear(s, p).l.block
    ensures q != p ==> Queda(s, Bloquear(s, p), q)
  {
    hide EnAlguna;
    if q != p { SoltarQueda(s, CpuCon(s.l.exec, p).valor, q); }
  }

  lemma IOFase(s: Sched, p: nat, tipo: TipoIO, ok: bool, q: nat)
    requires Inv(s)
    ensures EnFase(PedirIO(s, p, tipo, ok), q, Pasa(s, AIO(p, tipo, ok), q))
  {
    hide Base, Bloquear, LiberarCpu, Queda, FaseDe, EnAlguna;
    CorreFase(s, p);
    QuedaIgual(s, s, q);
    SigueEn(s, s, q);
    if CpuCon(s.l.exec, p).Algo? {
      BloquearQueda(s, p, q);
      var t := Bloquear(s, p);
      var u := if tipo.Stdout? && !ok then t else t.(io := t.io[p := tipo]);
      QuedaIgual(t, u, q);
      LiberarQueda(u, q);
      if q != p {
        QuedaCompone(s, t, u, q);
        QuedaCompone(s, u, LiberarCpu(u), q);
      }
      SoloUno(s, LiberarCpu(u), p, q, Block);
    }
  }

  lemma FinIOFase(s: Sched, p: nat, ok: bool, q: nat)
    requires Inv(s) && Admite(s, AFinIO(p, ok))
    ensures EnFase(TerminarIO(s, p, ok), q, Pasa(s, AFinIO(p, ok), q))
  {
    hide Vivos, Esperas, Mutexes, Pids, Despertar, DespertarPlan, Queda, FaseDe, EnFase, EnAlguna, EnSuNivel;
    var u := s.(io := s.io - {p});
    FinBase(s, p, u);
    EnLista(s.l, p);
    NoEnAire(s, {}, p);
    var t := Despertar(u, p);
    SenalIgual(t);
    QuedaIgual(t, DespertarPlan(t), q);
    if q == p {
      DespertarLlega(u, p);
      QuedaEn(t, DespertarPlan(t), q, TrasEspera(s, p));
    } else {
      QuedaIgual(s, u, q);
      DespertarQueda(u, p, q);
      QuedaCompone(s, u, t, q);
      QuedaCompone(s, t, DespertarPlan(t), q);
      SigueEn(s, t, q);
      SigueEn(s, DespertarPlan(t), q);
    }
  }

  lemma CrearFase(s: Sched, x: int, ok: bool, q: nat)
    requires Inv(s)
    ensures EnFase(CrearProceso(s, x, ok), q, Pasa(s, ACrear(x, ok), q))
  {
    hide Vivos, Esperas, Mutexes, Pids, Listo, Queda, FaseDe, EnAlguna;
    var p := s.proximo;
    var t := CrearProceso(s, x, ok);
    PidGastado(s);
    if ok && (s.pol.cmn ==> 0 <= x < s.pol.niveles) {
      var u := s.(proximo := p + 1, pcbs := s.pcbs[p := Pcb(SinSigno(x), SinSigno(x), 0)]);
      NuevoBase(s, p, u);
      ListoQueda(u, p, q);
      if q != p {
        QuedaAlgunos(s, u, q);
        QuedaCompone(s, u, t, q);
      }
      SoloUno(s, t, p, q, Ready);
    } else {
      QuedaIgual(s, t, q);
      SigueEn(s, t, q);
    }
  }

  lemma QuedaAlgunos(s: Sched, t: Sched, q: nat)
    requires t.l == s.l && (q in t.pcbs <==> q in s.pcbs)
    ensures Queda(s, t, q)
  {
    hide EnAlguna;
  }

  /** Inheritance keeps the ready processes ready. */
  lemma HeredarQueda(t: Sched, d: nat, x: nat, p: nat, q: nat)
    requires Base(t, {}, Nada, Algo(p)) && EnRango(t, x) && d in t.pcbs
    ensures var u := DespertarPlan(HeredarDueno(t, d, x)); Queda(t, u, q) && u.pcbs.Keys == t.pcbs.Keys && u.l.exec == t.l.exec
  {
    hide Niveles, Esperas, Mutexes, Pids, HeredarDueno, EnAlguna;
    HeredarDuenoBase(t, d, x, Algo(p));
    HeredarDuenoCampos(t, d, x);
    var v := HeredarDueno(t, d, x);
    SenalIgual(v);
    assert Todos(v.l, q) + Si(q in {}) == if q in v.pcbs then 1 else 0;
    assert Todos(t.l, q) + Si(q in {}) == if q in t.pcbs then 1 else 0;
    ReadyTiene(t.l.colas, q);
    ReadyTiene(v.l.colas, q);
    EnAlgunaNivel(t.l.colas, q);
    EnAlgunaNivel(v.l.colas, q);
  }

  lemma EsperarFase(s: Sched, p: nat, m: nat, q: nat)
    requires Inv(s) && m < |s.mutexes| && s.mutexes[m].contador < 1 && s.mutexes[m].pid != p && Algo(p) in s.l.exec
    ensures EnFase(EsperarMutex(s, p, m), q, if q == p then Block else FaseDe(s, q))
  {
    hide Vivos, Niveles, Esperas, Pids, Bloquear, HeredarDueno, Senal, Ubicado, LiberarCpu, DespertarPlan, Queda, FaseDe, EnAlguna;
    var mx := s.mutexes[m];
    var x := Prio(s.pcbs, p);
    assert MutexOk(s.pcbs, mx);
    var t := s.(mutexes := s.mutexes[m := mx.(contador := mx.contador - 1, cola := mx.cola + [p])]);
    PushBase(s, p, m, t);
    QuienCorre(s, {}, p);
    PrioEnRango(s, p);
    HeredarQueda(t, mx.pid, x, p, q);
    var u := if Ubicado(s.l, mx.pid) && x < Prio(s.pcbs, mx.pid) then DespertarPlan(HeredarDueno(t, mx.pid, x)) else t;
    QuedaIgual(s, t, q);
    QuedaIgual(t, t, q);
    QuedaCompone(s, t, u, q);
    BloquearQueda(u, p, q);
    LiberarQueda(Bloquear(u, p), q);
    if q != p {
      QuedaCompone(s, u, Bloquear(u, p), q);
      QuedaCompone(s, Bloquear(u, p), LiberarCpu(Bloquear(u, p)), q);
    }
    SoloUno(s, LiberarCpu(Bloquear(u, p)), p, q, Block);
  }

  /** The name tells the mutex. */
  lemma MutexUnico(s: Sched, nombre: string)
    requires Mutexes(s)
    ensures forall m :: 0 <= m < |s.mutexes| ==> (s.mutexes[m].nombre == nombre <==> BuscarMutex(s.mutexes, nombre) == Algo(m))
  {
  }

  lemma LockFase(s: Sched, p: nat, nombre: string, q: nat)
    requires Inv(s) && Admite(s, ALock(p, nombre))
    ensures EnFase(Lock(s, p, nombre), q, Pasa(s, ALock(p, nombre), q))
  {
    hide Vivos, Niveles, Esperas, Pids, EsperarMutex, Queda, FaseDe, EnFase, BuscarMutex;
    MutexUnico(s, nombre);
    CorreFase(s, p);
    QuedaIgual(s, s, q);
    SigueEn(s, s, q);
    var r := BuscarMutex(s.mutexes, nombre);
    if r.Algo? && CpuCon(s.l.exec, p).Algo? {
      var m := r.valor;
      assert MutexOk(s.pcbs, s.mutexes[m]);
      if s.mutexes[m].contador < 1 {
        EsperarFase(s, p, m, q);
      } else {
        QuedaIgual(s, TomarMutex(s, p, m), q);
        SigueEn(s, TomarMutex(s, p, m), q);
      }
    }
  }

  lemma UnlockFase(s: Sched, p: nat, nombre: string, q: nat)
    requires Inv(s) && Admite(s, AUnlock(p, nombre))
    ensures EnFase(Unlock(s, p, nombre), q, Pasa(s, AUnlock(p, nombre), q))
  {
    hide Vivos, Niveles, Esperas, Pids, Entregar, Recalcular, Queda, FaseDe, EnFase, BuscarMutex, TrasEspera;
    MutexUnico(s, nombre);
    QuedaIgual(s, s, q);
    SigueEn(s, s, q);
    var r := BuscarMutex(s.mutexes, nombre);
    if r.Algo? {
      var m := r.valor;
      var t := Ceder(s, m);
      var u := Recalcular(t, p);
      assert MutexOk(s.pcbs, s.mutexes[m]);
      RecalcularQueda(t, p, q);
      if s.mutexes[m].cola == [] {
        QuedaIgual(s, t, q);
      } else {
        EntregarFase(s, m, q, {});
      }
      if EsperaPrimero(s, nombre, q) {
        QuedaEn(t, u, q, TrasEspera(s, q));
      } else {
        QuedaCompone(s, t, u, q);
        SigueEn(s, u, q);
      }
    }
  }

  lemma RecalcularQueda(s: Sched, p: nat, q: nat)
    ensures Queda(s, Recalcular(s, p), q)
  {
    hide EnAlguna, MinDe;
  }

  lemma TimerFase(s: Sched, p: nat, token: nat, bytes: nat, ok: bool, q: nat)
    requires Inv(s) && Admite(s, ATimer(p, token, bytes, ok))
    ensures EnFase(VenceTimer(s, p, token, bytes, ok), q, Pasa(s, ATimer(p, token, bytes, ok), q))
  {
    hide Inv, FaseDe, EnFase, Queda, ListarSuspendido, Quitar;
    var t := VenceTimer(s, p, token, bytes, ok);
    BloqueadoFase(s, p);
    if Vence(s, p, token) {
      ListarFase(s, s.(timers := s.timers - {(p, token)}), t, p, bytes, q);
      SoloUno(s, t, p, q, SuspBlock);
    } else {
      QuedaIgual(s, t, q);
      SigueEn(s, t, q);
    }
  }

  lemma ListarFase(s: Sched, u: Sched, t: Sched, p: nat, bytes: nat, q: nat)
    requires u == s.(timers := u.timers) && t == ListarSuspendido(u.(l := u.l.(block := Quitar(u.l.block, p))), p, bytes, true)
    ensures if q == p then EnFase(t, q, SuspBlock) else Queda(s, t, q)
  {
    hide EnAlguna, Quitar;
    if q != p { QuitarQueda(s, p, q); }
  }

  lemma BloqueadoFase(s: Sched, p: nat)
    requires Inv(s)
    ensures FaseDe(s, p).Block? <==> p in s.l.block
    ensures FaseDe(s, p).Block? ==> p in s.pcbs
  {
    hide Inv, EnAlguna;
    if p in s.l.block {
      FaseUnica(s, p, Block);
    } else {
      FaseEsta(s, p);
    }
  }

  /** The search finds the first announced. */
  lemma {:induction false} ElegidoPrimero(xs: seq<nat>, lista: set<nat>, q: nat)
    ensures Elegido(xs, lista) == Algo(q) <==> PrimerAnunciado(xs, lista, q)
  {
    if xs != [] {
      ElegidoPrimero(xs[1..], lista, q);
      if xs[0] in lista {
        assert PrimerAnunciado(xs, lista, xs[0]);
      } else {
        if PrimerAnunciado(xs[1..], lista, q) {
          var k :| 0 <= k < |xs| - 1 && xs[1..][k] == q && forall j :: 0 <= j < k ==> xs[1..][j] !in lista;
          assert xs[k + 1] == q && forall j :: 0 <= j < k + 1 ==> xs[j] !in lista by {
            forall j | 0 <= j < k + 1 ensures xs[j] !in lista { if j > 0 { assert xs[1..][j - 1] == xs[j]; } }
          }
        }
        if PrimerAnunciado(xs, lista, q) {
          var k :| 0 <= k < |xs| && xs[k] == q && forall j :: 0 <= j < k ==> xs[j] !in lista;
          assert k > 0 && xs[1..][k - 1] == q && forall j :: 0 <= j < k - 1 ==> xs[1..][j] !in lista;
        }
      }
    }
  }

  lemma RecorrerFase(s: Sched, lista: set<nat>, ok: bool, q: nat)
    requires Inv(s) && Admite(s, ARecorrer(lista, ok))
    ensures EnFase(Recorrer(s, lista, ok), q, Pasa(s, ARecorrer(lista, ok), q))
  {
    hide Vivos, Esperas, Mutexes, Pids, ListoConAviso, Queda, FaseDe, Elegido, PrimerAnunciado, EnAlguna;
    QuedaIgual(s, s, q);
    SigueEn(s, s, q);
    ElegidoPrimero(s.l.suspReady, lista, q);
    ElegidoEsta(s.l.suspReady, lista);
    var r := Elegido(s.l.suspReady, lista);
    if r.Algo? {
      var p := r.valor;
      EnLista(s.l, p);
      NoEnAire(s, {}, p);
      var t := s.(l := s.l.(suspReady := Quitar(s.l.suspReady, p)));
      ListoQueda(t, p, q);
      if q != p {
        QuitarQueda(s, p, q);
        QuedaCompone(s, t, ListoConAviso(t, p), q);
      }
      SoloUno(s, ListoConAviso(t, p), p, q, Ready);
    }
  }

  /** A CPU arrives, a compaction ends, a mutex is created: nobody moves. */
  lemma QuietoFase(s: Sched, a: Accion, q: nat)
    requires Inv(s) && (a.AConectar? || a.ACrearMutex? || (a.AFinCompactacion? && a.cual < |s.abiertas|))
    ensures EnFase(Paso(s, a), q, FaseDe(s, q))
  {
    hide Inv, ConectarCpu, CrearMutex, FinCompactacion, EnFase, FaseDe, Queda;
    match a
    case AConectar => ConectarQueda(s, q); SigueEn(s, ConectarCpu(s), q);
    case ACrearMutex(nombre) => MutexIgual(s, nombre); QuedaIgual(s, CrearMutex(s, nombre), q); SigueEn(s, CrearMutex(s, nombre), q);
    case AFinCompactacion(k) => FinIgual(s, k); QuedaIgual(s, FinCompactacion(s, k), q); SigueEn(s, FinCompactacion(s, k), q);
  }

  lemma ConectarQueda(s: Sched, q: nat)
    ensures Queda(s, ConectarCpu(s), q)
  {
    hide LiberarCpu, EnAlguna;
    LiberarQueda(s.(l := s.l.(exec := s.l.exec + [Nada])), q);
  }

  lemma MutexIgual(s: Sched, nombre: string)
    ensures CrearMutex(s, nombre).l == s.l && CrearMutex(s, nombre).pcbs == s.pcbs
  {
    hide BuscarMutex;
  }

  lemma FinIgual(s: Sched, k: nat)
    requires k < |s.abiertas|
    ensures FinCompactacion(s, k).l == s.l && FinCompactacion(s, k).pcbs == s.pcbs
  {
  }

  // ---------------------------------------------------------------- the planner

  /** What is dispatched is the head of the best queue. */
  lemma CabezaEs(colas: seq<seq<nat>>, q: nat)
    ensures Cabeza(colas, q) <==> Primero(colas) == Algo(q)
  {
    if Cabeza(colas, q) {
      var n :| 0 <= n < |colas| && colas[n] != [] && colas[n][0] == q && forall k :: 0 <= k < n ==> colas[k] == [];
      NivelNoVacio(colas, n);
    }
  }

  /** Taking the first of the best queue moves nobody else. */
  lemma SinPrimeroQueda(s: Sched, q: nat)
    requires Primero(s.l.colas) != Algo(q)
    ensures Queda(s, s.(l := SinPrimero(s.l)), q)
  {
    var r := PrimerNivel(s.l.colas);
    if r.Algo? && EnAlguna(s.l.colas, q) {
      var n := r.valor;
      var k :| 0 <= k < |s.l.colas| && q in s.l.colas[k];
      var c := SinPrimero(s.l).colas;
      assert s.l.colas[n] == [s.l.colas[n][0]] + s.l.colas[n][1..];
      assert q in c[k];
    }
  }

  /** To the first idle CPU; without one, back to ready. */
  lemma AsignarFase(s: Sched, p: nat, q: nat)
    requires Niveles(s) && p in s.pcbs
    ensures if q == p then EnFase(Asignar(s, p), q, if Nada in s.l.exec then Exec else Ready) else Queda(s, Asignar(s, p), q)
  {
    hide Listo, EnAlguna;
    ListoQueda(s, p, q);
    HayOciosa(s.l.exec);
    var i := CpuLibre(s.l.exec);
    if i.Algo? && q != p && Algo(q) in s.l.exec {
      var k :| 0 <= k < |s.l.exec| && s.l.exec[k] == Algo(q);
      assert s.l.exec[i.valor := Algo(p)][k] == Algo(q);
    }
    if i.Algo? {
      assert s.l.exec[i.valor := Algo(p)][i.valor] == Algo(p);
    }
  }

  lemma {:induction false} HayOciosa(exec: seq<Opcion<nat>>)
    ensures Nada in exec <==> CpuLibre(exec).Algo?
  {
    if exec != [] {
      HayOciosa(exec[1..]);
      assert exec == [exec[0]] + exec[1..];
    }
  }

  /** The first of the best queue is assigned. */
  lemma DarFase(s: Sched, t: Sched, p: nat, q: nat)
    requires Inv(s) && Primero(s.l.colas) == Algo(p) && t.l == SinPrimero(s.l) && t.pcbs == s.pcbs && t.pol == s.pol
    ensures EnFase(Asignar(t, p), q, if q == p && Nada in s.l.exec then Exec else FaseDe(s, q))
  {
    hide Vivos, Esperas, Mutexes, Pids, EnSuNivel, Asignar, Queda, FaseDe, EnFase, SinPrimero, Primero;
    var u := s.(l := SinPrimero(s.l));
    SinPrimeroBase(s, p);
    SinPrimeroExec(s.l);
    AsignarFase(t, p, q);
    if q != p {
      SinPrimeroQueda(s, q);
      QuedaIgual(u, t, q);
      QuedaCompone(s, u, t, q);
      QuedaCompone(s, t, Asignar(t, p), q);
      SigueEn(s, Asignar(t, p), q);
    } else {
      ListoFase(s, p);
    }
  }

  lemma SinPrimeroExec(l: Lugares)
    ensures SinPrimero(l) == l.(colas := SinPrimero(l).colas)
  {
  }

  lemma ListoFase(s: Sched, p: nat)
    requires Inv(s) && Primero(s.l.colas) == Algo(p)
    ensures FaseDe(s, p).Ready?
  {
    hide Inv;
    assert EnFase(s, p, Ready);
    FaseUnica(s, p, Ready);
  }

  lemma DespacharFase(s: Sched, q: nat)
    requires Inv(s) && Fichas(s)
    ensures EnFase(Despachar(s), q, Pasa(s, ADespachar, q))
  {
    hide Inv, Asignar, Queda, FaseDe, EnFase, SinPrimero, Primero, Cabeza, Exceso;
    CabezaEs(s.l.colas, q);
    QuedaIgual(s, s, q);
    SigueEn(s, s, q);
    if s.compactando {
      QuedaIgual(s, Despachar(s), q);
      SigueEn(s, Despachar(s), q);
    }
    if s.plan.ConAmbos? && !s.compactando {
      HayListo(s);
      DarFase(s, s.(l := SinPrimero(s.l), plan := Espera), Primero(s.l.colas).valor, q);
    }
  }

  /** A running process that is worse than `q`, as the search sees it. */
  lemma PeorEs(s: Sched, q: nat)
    ensures CorrePeor(s, q) <==> Victima(s, Prio(s.pcbs, q)).Algo?
  {
    PeorEn(s.pcbs, s.l.exec, Prio(s.pcbs, q), |s.l.exec|);
    if CorrePeor(s, q) {
      var r: nat :| Algo(r) in s.l.exec && Prio(s.pcbs, r) > Prio(s.pcbs, q);
      var k :| 0 <= k < |s.l.exec| && s.l.exec[k] == Algo(r);
    }
    if Victima(s, Prio(s.pcbs, q)).Algo? {
      var x := s.l.exec[Victima(s, Prio(s.pcbs, q)).valor];
      assert Algo(x.valor) in s.l.exec;
    }
  }

  lemma {:induction false} PeorEn(pcbs: map<nat, Pcb>, exec: seq<Opcion<nat>>, x: nat, n: nat)
    requires n <= |exec|
    ensures var v := VictimaEn(pcbs, exec, x, n);
      if v.Nada? then forall k :: 0 <= k < n && exec[k].Algo? ==> Prio(pcbs, exec[k].valor) <= x
      else Prio(pcbs, exec[v.valor].valor) > x
  {
    if n > 0 { PeorEn(pcbs, exec, x, n - 1); }
  }

  lemma DecidirFase(s: Sched, q: nat)
    requires Inv(s) && Fichas(s)
    ensures EnFase(Decidir(s), q, Pasa(s, ADecidir, q))
  {
    hide Inv, Asignar, Queda, FaseDe, EnFase, SinPrimero, Primero, Cabeza, Exceso, Victima, CorrePeor;
    CabezaEs(s.l.colas, q);
    QuedaIgual(s, s, q);
    SigueEn(s, s, q);
    if s.plan.ConReady? && Expropia(s.pol) {
      DormirFase(s, Aparcado, q);
      DormirFase(s, Pausado, q);
      if !s.compactando && Primero(s.l.colas).Algo? {
        var p := Primero(s.l.colas).valor;
        PeorEs(s, p);
        DarFase(s, s.(l := SinPrimero(s.l), semCpu := s.semCpu - 1, plan := Espera), p, q);
        TomarFase(s, p, q);
      }
    }
  }

  lemma DormirFase(s: Sched, pl: Plan, q: nat)
    requires Inv(s)
    ensures EnFase(s.(semReady := s.semReady + 1, plan := pl), q, FaseDe(s, q))
  {
    hide Inv, Queda, FaseDe, EnFase;
    QuedaIgual(s, s.(semReady := s.semReady + 1, plan := pl), q);
    SigueEn(s, s.(semReady := s.semReady + 1, plan := pl), q);
  }

  /** The planner takes the first of the best queue in hand. */
  lemma TomarFase(s: Sched, p: nat, q: nat)
    requires Inv(s) && Primero(s.l.colas) == Algo(p) && s.l.mano.Nada?
    ensures EnFase(s.(l := SinPrimero(s.l).(mano := Algo(p)), plan := ConMano), q, if q == p then Mano else FaseDe(s, q))
  {
    hide Inv, Primero, SinPrimero, FaseDe, EnAlguna;
    var t := s.(l := SinPrimero(s.l).(mano := Algo(p)), plan := ConMano);
    SinPrimeroExec(s.l);
    if q != p {
      SinPrimeroQueda(s, q);
      assert Queda(s.(l := SinPrimero(s.l)), t, q);
      QuedaCompone(s, s.(l := SinPrimero(s.l)), t, q);
    }
    SoloUno(s, t, p, q, Mano);
  }

  lemma DespacharManoFase(s: Sched, q: nat)
    requires Inv(s) && Fichas(s)
    ensures EnFase(DespacharMano(s), q, Pasa(s, ADespacharMano, q))
  {
    hide Vivos, Esperas, Mutexes, Pids, EnSuNivel, Asignar, Queda, FaseDe, EnFase, Exceso;
    QuedaIgual(s, s, q);
    SigueEn(s, s, q);
    if s.plan.ConMano? && s.semCpu > 0 {
      var p := s.l.mano.valor;
      var t := s.(l := s.l.(mano := Nada), semCpu := s.semCpu - 1, plan := Espera);
      ManoBase(s, p);
      AsignarFase(t, p, q);
      if q != p {
        SinManoQueda(s, t, q);
        QuedaCompone(s, t, Asignar(t, p), q);
        SigueEn(s, Asignar(t, p), q);
      }
    }
  }

  lemma SinManoQueda(s: Sched, t: Sched, q: nat)
    requires t.l == s.l.(mano := Nada) && t.pcbs == s.pcbs && s.l.mano != Algo(q)
    ensures Queda(s, t, q)
  {
    hide EnAlguna;
  }

  lemma PlanFase(s: Sched, a: Accion, q: nat)
    requires Inv(s) && Fichas(s) && EsPlan(a)
    ensures EnFase(PasoPlan(s, a), q, Pasa(s, a, q))
  {
    hide Inv, PlanOk, Exceso, EnFase, FaseDe, Queda, Despachar, Decidir, DespacharMano, Cabeza, CorrePeor,
      Senal, TomarReady, TomarCpu;
    match a
    case ADespachar => DespacharFase(s, q);
    case ADecidir => DecidirFase(s, q);
    case ADespacharMano => DespacharManoFase(s, q);
    case ASenal => SenalIgual(s); QuedaIgual(s, Senal(s), q); SigueEn(s, Senal(s), q);
    case ATomarReady => TomarIgual(s); QuedaIgual(s, TomarReady(s), q); SigueEn(s, TomarReady(s), q);
    case ATomarCpu => TomarIgual(s); QuedaIgual(s, TomarCpu(s), q); SigueEn(s, TomarCpu(s), q);
  }

  lemma TomarIgual(s: Sched)
    ensures TomarReady(s).l == s.l && TomarReady(s).pcbs == s.pcbs && TomarCpu(s).l == s.l && TomarCpu(s).pcbs == s.pcbs
  {
  }

  // ---------------------------------------------------------------- any step

  /** Where each process is after any step: a process moves exactly when and where it is said from
      the state before, and all the others stay. */
  lemma {:induction false} PasoFase(s: Sched, a: Accion, q: nat)
    requires Inv(s) && Fichas(s) && Admite(s, a)
    ensures FaseDe(Paso(s, a), q) == Pasa(s, a, q)
  {
    hide Inv, Fichas, Admite, EnFase, FaseDe, Pasa, Paso;
    PasoInv(s, a);
    PasoEnFase(s, a, q);
    FaseUnica(Paso(s, a), q, Pasa(s, a, q));
  }

  lemma PasoEnFase(s: Sched, a: Accion, q: nat)
    requires Inv(s) && Fichas(s) && Admite(s, a)
    ensures EnFase(Paso(s, a), q, Pasa(s, a, q))
  {
    hide Inv, PlanOk, Exceso, EnFase, FaseDe, ConectarCpu, DesconectarCpu, Desalojar, DesalojarCompactacion, IniciarCompactacion,
      FinCompactacion, Terminar, TerminarIO, CrearMutex, Unlock, VenceTimer, Recorrer, CrearProceso, Lock, PedirIO, PasoPlan,
      TrasEspera, TrasMuerte, Cabeza, CorrePeor, EsperaPrimero, Tomado, PrimerAnunciado, BuscarMutex, Elegido, Vence;
    match a
    case AConectar => QuietoFase(s, a, q);
    case ADesconectar(i) => DesconectarFase(s, i, q);
    case ACrear(x, ok) => CrearFase(s, x, ok, q);
    case ADesalojo(p) => DesalojarFase(s, p, q);
    case ACompactacion(p) => DesalojarFase(s, p, q);
    case AIniciarCompactacion(p) => IniciarFase(s, p, q);
    case AFinCompactacion(k) => QuietoFase(s, a, q);
    case ATerminar(p) => TerminarFase(s, p, q);
    case AIO(p, tipo, ok) => IOFase(s, p, tipo, ok, q);
    case AFinIO(p, ok) => FinIOFase(s, p, ok, q);
    case ACrearMutex(nombre) => QuietoFase(s, a, q);
    case ALock(p, nombre) => LockFase(s, p, nombre, q);
    case AUnlock(p, nombre) => UnlockFase(s, p, nombre, q);
    case ATimer(p, token, bytes, ok) => TimerFase(s, p, token, bytes, ok, q);
    case ARecorrer(lista, ok) => RecorrerFase(s, lista, ok, q);
    case _ => PlanFase(s, a, q);
  }

  // ---------------------------------------------------------------- the diagram

  /** The arrows of the state diagram: a suspended process comes back through ready, and only a
      ready process, or the one the planner has in hand, gets a CPU. */
  predicate Flecha(f: Fase, g: Fase)
  {
    f == g ||
    match f
    case Fuera => g.Ready?
    case Ready => g.Exec? || g.Mano?
    case Exec => g.Ready? || g.Block? || g.Fuera?
    case Block => g.Ready? || g.SuspBlock?
    case SuspBlock => g.Ready? || g.SuspReady?
    case SuspReady => g.Ready?
    case Mano => g.Ready? || g.Exec?
  }

  /** Who waits for a mutex or for an I/O is blocked, in memory or suspended. */
  lemma EsperaBloqueado(s: Sched, q: nat)
    requires Inv(s) && (q in s.io || exists m :: 0 <= m < |s.mutexes| && q in s.mutexes[m].cola)
    ensures FaseDe(s, q) == if q in s.l.block then Block else SuspBlock
  {
    EnTiene(s.l.block, q);
    EnTiene(s.l.suspBlock, q);
    assert En(s.l.block, q) + En(s.l.suspBlock, q) + Uno(Nada, q) == EnColas(s.mutexes, q) + Si(q in s.io) + Uno(Nada, q);
    if q !in s.io {
      var m :| 0 <= m < |s.mutexes| && q in s.mutexes[m].cola;
      ColasTiene(s.mutexes, m, q);
    }
    hide Inv, EnAlguna;
    if q in s.l.block { FaseUnica(s, q, Block); } else { FaseUnica(s, q, SuspBlock); }
  }

  lemma TrasEsperaFlecha(s: Sched, q: nat)
    requires Inv(s) && (q in s.io || exists m :: 0 <= m < |s.mutexes| && q in s.mutexes[m].cola)
    ensures Flecha(FaseDe(s, q), TrasEspera(s, q))
  {
    hide Inv, FaseDe;
    EsperaBloqueado(s, q);
  }

  lemma TrasMuerteFlecha(s: Sched, p: nat, q: nat)
    requires Inv(s) && Algo(p) in s.l.exec
    ensures Flecha(FaseDe(s, q), TrasMuerte(s, p, q))
  {
    hide Inv, FaseDe, TrasEspera;
    CorreFase(s, p);
    if Heredero(s, p, q) {
      var m :| 0 <= m < |s.mutexes| && HeredaMutex(s, p, m, q);
      assert q in s.mutexes[m].cola;
      TrasEsperaFlecha(s, q);
    }
  }

  lemma TrasTurnoFlecha(s: Sched, a: Accion, q: nat)
    requires Inv(s) && EsPlan(a)
    ensures Flecha(FaseDe(s, q), TrasTurno(s, a, q))
  {
    hide Inv, FaseDe, CorrePeor;
    CabezaEs(s.l.colas, q);
    if Cabeza(s.l.colas, q) { ListoFase(s, q); }
    if s.l.mano == Algo(q) { ManoFase(s, q); }
  }

  lemma ManoFase(s: Sched, q: nat)
    requires Inv(s) && s.l.mano == Algo(q)
    ensures FaseDe(s, q).Mano?
  {
    hide Inv, EnAlguna;
    FaseUnica(s, q, Mano);
  }

  /** Any step takes any process along an arrow of the diagram, or leaves it where it is. */
  lemma {:induction false} PasoFlecha(s: Sched, a: Accion, q: nat)
    requires Inv(s) && Fichas(s) && Admite(s, a)
    ensures Flecha(FaseDe(s, q), FaseDe(Paso(s, a), q))
  {
    hide Inv, Fichas, FaseDe, Pasa, Paso;
    PasoFase(s, a, q);
    PasaFlecha(s, a, q);
  }

  lemma PasaFlecha(s: Sched, a: Accion, q: nat)
    requires Inv(s) && Admite(s, a)
    ensures Flecha(FaseDe(s, q), Pasa(s, a, q))
  {
    hide Inv, FaseDe, TrasEspera, TrasMuerte, TrasTurno, Tomado, BuscarMutex, Elegido, Vence, PrimerAnunciado;
    match a
    case ACrear(x, ok) => if q == s.proximo { NuevoFuera(s); }
    case ATerminar(p) => CorreFase(s, p); if FaseDe(s, p).Exec? { TrasMuerteFlecha(s, p, q); }
    case ADesconectar(i) => if s.l.exec[i].Algo? { assert s.l.exec[i] in s.l.exec; TrasMuerteFlecha(s, s.l.exec[i].valor, q); }
    case AFinIO(p, ok) => TrasEsperaFlecha(s, p);
    case AUnlock(p, nombre) => if EsperaPrimero(s, nombre, q) { EsperaPrimeroFlecha(s, nombre, q); }
    case ARecorrer(lista, ok) => if PrimerAnunciado(s.l.suspReady, lista, q) { AnunciadoFase(s, lista, q); }
    case _ => if EsPlan(a) { TrasTurnoFlecha(s, a, q); } else { NoTurno(s, a, q); }
  }

  lemma NoTurno(s: Sched, a: Accion, q: nat)
    requires !EsPlan(a)
    ensures TrasTurno(s, a, q) == FaseDe(s, q)
  {
    hide FaseDe, Cabeza, CorrePeor;
  }

  lemma NuevoFuera(s: Sched)
    requires Inv(s)
    ensures FaseDe(s, s.proximo).Fuera?
  {
    hide Vivos, Niveles, Esperas, Mutexes;
  }

  lemma EsperaPrimeroFlecha(s: Sched, nombre: string, q: nat)
    requires Inv(s) && EsperaPrimero(s, nombre, q)
    ensures Flecha(FaseDe(s, q), TrasEspera(s, q))
  {
    hide Inv, FaseDe, TrasEspera;
    var m :| 0 <= m < |s.mutexes| && s.mutexes[m].nombre == nombre && s.mutexes[m].cola != [] && s.mutexes[m].cola[0] == q;
    assert q in s.mutexes[m].cola;
    TrasEsperaFlecha(s, q);
  }

  lemma AnunciadoFase(s: Sched, lista: set<nat>, q: nat)
    requires Inv(s) && PrimerAnunciado(s.l.suspReady, lista, q)
    ensures FaseDe(s, q).SuspReady?
  {
    hide Inv, EnAlguna;
    FaseUnica(s, q, SuspReady);
  }

  /** The search for a PCB, by which priorities are inherited, finds every live process but the one in
      the planner's hand. */
  lemma {:induction false} UbicadoSalvoMano(s: Sched, p: nat)
    requires Inv(s)
    ensures Ubicado(s.l, p) <==> p in s.pcbs && s.l.mano != Algo(p)
  {
    EnLista(s.l, p);
    EnTiene(s.l.block, p);
    EnTiene(s.l.suspBlock, p);
    EnTiene(s.l.suspReady, p);
    ReadyTiene(s.l.colas, p);
    ExecTiene(s.l.exec, p);
    assert Todos(s.l, p) + Si(p in {}) == if p in s.pcbs then 1 else 0;
  }
}
