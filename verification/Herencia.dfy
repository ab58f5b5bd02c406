/** Priority inheritance of kernel_scheduler/src/scheduler.c: when is the priority of a process
    exactly the best among its own and those of whoever waits for a mutex it has. */
module Herencia {
  import opened Secuencias
  import opened Procesos
  import opened Planificador
  import opened Conservacion
  import opened Acciones

  /** `w` waits for a mutex whose owner is `p`. */
  ghost predicate Aguarda(ms: seq<Mutex>, w: nat, p: nat)
  {
    exists m :: 0 <= m < |ms| && ms[m].pid == p && w in ms[m].cola
  }

  /** The priority of `p` is the minimum of its original priority and those of its waiters. */
  ghost predicate EsMinimo(pcbs: map<nat, Pcb>, ms: seq<Mutex>, p: nat)
    requires p in pcbs
  {
    && pcbs[p].prioridad <= pcbs[p].original
    && (forall w :: Aguarda(ms, w, p) ==> pcbs[p].prioridad <= Prio(pcbs, w))
    && (pcbs[p].prioridad == pcbs[p].original || exists w :: Aguarda(ms, w, p) && Prio(pcbs, w) == pcbs[p].prioridad)
  }

  ghost predicate Exacta(s: Sched)
  {
    forall p :: p in s.pcbs ==> EsMinimo(s.pcbs, s.mutexes, p)
  }

  /** Exact for everybody but `x`. */
  ghost predicate ExactaSalvo(s: Sched, x: nat)
  {
    forall p :: p in s.pcbs && p != x ==> EsMinimo(s.pcbs, s.mutexes, p)
  }

  // ---------------------------------------------------------------- the recomputation

  /** The loop of MUTEX_UNLOCK computes the minimum. */
  lemma {:induction false} MinDeMinimo(pcbs: map<nat, Pcb>, ms: seq<Mutex>, p: nat, i: nat, x: nat)
    requires i <= |ms|
    ensures var r := MinDe(pcbs, ms, p, i, x);
      && r <= x
      && (forall m, w :: i <= m < |ms| && ms[m].pid == p && w in ms[m].cola ==> r <= Prio(pcbs, w))
      && (r == x || exists m, w :: i <= m < |ms| && ms[m].pid == p && w in ms[m].cola && Prio(pcbs, w) == r)
    decreases |ms| - i
  {
    if i < |ms| {
      MinColaRango(pcbs, ms[i].cola, x);
      var y := if ms[i].pid == p then MinCola(pcbs, ms[i].cola, x) else x;
      MinDeMinimo(pcbs, ms, p, i + 1, y);
      var r := MinDe(pcbs, ms, p, i, x);
      if r == y && y != x {
        var k :| 0 <= k < |ms[i].cola| && y == Prio(pcbs, ms[i].cola[k]);
        assert ms[i].cola[k] in ms[i].cola;
      }
    }
  }

  /** Being exact is being the value that the loop of MUTEX_UNLOCK computes. */
  lemma {:induction false} ExactaEsMinDe(pcbs: map<nat, Pcb>, ms: seq<Mutex>, p: nat)
    requires p in pcbs
    ensures EsMinimo(pcbs, ms, p) <==> pcbs[p].prioridad == MinDe(pcbs, ms, p, 0, pcbs[p].original)
  {
    MinDeMinimo(pcbs, ms, p, 0, pcbs[p].original);
    var r := MinDe(pcbs, ms, p, 0, pcbs[p].original);
    if r != pcbs[p].original {
      var m, w :| 0 <= m < |ms| && ms[m].pid == p && w in ms[m].cola && Prio(pcbs, w) == r;
      assert Aguarda(ms, w, p);
    }
    assert forall w :: Aguarda(ms, w, p) ==> r <= Prio(pcbs, w);
  }

  // ---------------------------------------------------------------- steps that do not inherit

  /** Same owners, queues and priorities. */
  lemma ExactaIgual(s: Sched, t: Sched)
    requires Exacta(s) && t.mutexes == s.mutexes && t.pcbs.Keys == s.pcbs.Keys
    requires forall p :: p in s.pcbs ==> t.pcbs[p].prioridad == s.pcbs[p].prioridad && t.pcbs[p].original == s.pcbs[p].original
    ensures Exacta(t)
  {
    forall p | p in t.pcbs ensures EsMinimo(t.pcbs, t.mutexes, p) {
      assert EsMinimo(s.pcbs, s.mutexes, p);
    }
  }

  /** A process that is in no queue as a waiter. */
  ghost predicate NoAguarda(ms: seq<Mutex>, p: nat)
  {
    forall m :: 0 <= m < |ms| ==> p !in ms[m].cola
  }

  lemma QuienCorreNoAguarda(s: Sched, aire: set<nat>, p: nat)
    requires Base(s, aire, Nada, Nada) && p !in s.l.block && p !in s.l.suspBlock
    ensures NoAguarda(s.mutexes, p)
  {
    EnTiene(s.l.block, p);
    EnTiene(s.l.suspBlock, p);
    assert En(s.l.block, p) + En(s.l.suspBlock, p) + Uno(Nada, p) == EnColas(s.mutexes, p) + Si(p in s.io) + Uno(Nada, p);
    forall m | 0 <= m < |s.mutexes| ensures p !in s.mutexes[m].cola {
      ColasTiene(s.mutexes, m, p);
    }
  }

  lemma AguardaOtro(ms: seq<Mutex>, w: nat, p: nat, x: nat)
    requires NoAguarda(ms, x) && Aguarda(ms, w, p)
    ensures w != x
  {
    var m :| 0 <= m < |ms| && ms[m].pid == p && w in ms[m].cola;
  }

  /** Recomputing the priority of a process that waits for nobody makes it exact, and leaves the
      others as they were. */
  lemma RecalcularExacta(s: Sched, p: nat)
    requires ExactaSalvo(s, p) && NoAguarda(s.mutexes, p) && Algo(p) in s.l.exec && p in s.pcbs
    ensures Exacta(Recalcular(s, p))
  {
    hide NoAguarda, Aguarda, MinDe;
    var t := Recalcular(s, p);
    var r := MinDe(s.pcbs, s.mutexes, p, 0, s.pcbs[p].original);
    RecalcularPropia(s, t.pcbs, p, r);
    forall q | q in t.pcbs && q != p ensures EsMinimo(t.pcbs, t.mutexes, q) {
      assert EsMinimo(s.pcbs, s.mutexes, q);
      forall w | Aguarda(s.mutexes, w, q) ensures w != p {
        AguardaOtro(s.mutexes, w, q, p);
      }
    }
  }

  lemma RecalcularPropia(s: Sched, pcbs: map<nat, Pcb>, p: nat, r: nat)
    requires NoAguarda(s.mutexes, p) && p in s.pcbs && r == MinDe(s.pcbs, s.mutexes, p, 0, s.pcbs[p].original)
    requires pcbs == ConPrio(s.pcbs, p, r)
    ensures EsMinimo(pcbs, s.mutexes, p)
  {
    MinDeMinimo(s.pcbs, s.mutexes, p, 0, s.pcbs[p].original);
    forall w | Aguarda(s.mutexes, w, p) ensures w != p && r <= Prio(pcbs, w) {
      AguardaOtro(s.mutexes, w, p, p);
      var m :| 0 <= m < |s.mutexes| && s.mutexes[m].pid == p && w in s.mutexes[m].cola;
      assert 0 <= m < |s.mutexes| && s.mutexes[m].pid == p && w in s.mutexes[m].cola ==> r <= Prio(s.pcbs, w);
      assert Prio(pcbs, w) == Prio(s.pcbs, w);
    }
    if r != s.pcbs[p].original {
      var m, w :| 0 <= m < |s.mutexes| && s.mutexes[m].pid == p && w in s.mutexes[m].cola && Prio(s.pcbs, w) == r;
      assert Aguarda(s.mutexes, w, p);
    }
  }

  /** Hand-off keeps everybody exact but the former owner: the new one inherits from those that
      stay in the queue, and it was waiting for nobody else. */
  lemma EntregarSalvo(s: Sched, m: nat, aire: set<nat>)
    requires Base(s, aire, Nada, Nada) && m < |s.mutexes| && s.mutexes[m].cola != []
    requires ExactaSalvo(s, s.mutexes[m].pid)
    ensures ExactaSalvo(Entregar(s, m), s.mutexes[m].pid)
  {
    hide Entregar, Inv, MinCola;
    var mx := s.mutexes[m];
    var sig, resto := mx.cola[0], mx.cola[1..];
    var t := Entregar(s, m);
    EntregarEfecto(s, m, aire);
    UnaVez(s, aire, m);
    forall k | 0 <= k < |s.mutexes| && k != m ensures sig !in s.mutexes[k].cola {
      UnicaCola(s, aire, m, k, sig);
    }
    assert NoAguarda(t.mutexes, sig);
    forall q | q in t.pcbs && q != mx.pid ensures EsMinimo(t.pcbs, t.mutexes, q) {
      assert EsMinimo(s.pcbs, s.mutexes, q);
      if q == sig {
        NuevoDueno(s, t, m, q);
      } else {
        OtroDueno(s, t, m, q);
      }
    }
  }

  ghost predicate Entregado(s: Sched, t: Sched, m: nat)
  {
    && m < |s.mutexes| && s.mutexes[m].cola != []
    && var mx := s.mutexes[m];
       && t.pcbs == ConPrio(s.pcbs, mx.cola[0], MinCola(s.pcbs, mx.cola[1..], Prio(s.pcbs, mx.cola[0])))
       && t.mutexes == s.mutexes[m := mx.(pid := mx.cola[0], contador := mx.contador + 1, cola := mx.cola[1..])]
       && NoAguarda(t.mutexes, mx.cola[0])
  }

  lemma NuevoDueno(s: Sched, t: Sched, m: nat, q: nat)
    requires Entregado(s, t, m) && q == s.mutexes[m].cola[0] && q in s.pcbs && EsMinimo(s.pcbs, s.mutexes, q)
    requires s.mutexes[m].pid != q
    ensures EsMinimo(t.pcbs, t.mutexes, q)
  {
    var resto := s.mutexes[m].cola[1..];
    MinColaRango(s.pcbs, resto, Prio(s.pcbs, q));
    forall w | Aguarda(t.mutexes, w, q) ensures t.pcbs[q].prioridad <= Prio(t.pcbs, w) {
      var k :| 0 <= k < |t.mutexes| && t.mutexes[k].pid == q && w in t.mutexes[k].cola;
      if k != m {
        assert Aguarda(s.mutexes, w, q);
      }
    }
    if t.pcbs[q].prioridad == s.pcbs[q].prioridad {
      if s.pcbs[q].prioridad != s.pcbs[q].original {
        var w :| Aguarda(s.mutexes, w, q) && Prio(s.pcbs, w) == s.pcbs[q].prioridad;
        var k :| 0 <= k < |s.mutexes| && s.mutexes[k].pid == q && w in s.mutexes[k].cola;
        assert t.mutexes[k] == s.mutexes[k];
        assert Aguarda(t.mutexes, w, q);
      }
    } else {
      var k :| 0 <= k < |resto| && t.pcbs[q].prioridad == Prio(s.pcbs, resto[k]);
      assert resto[k] in t.mutexes[m].cola;
      assert Aguarda(t.mutexes, resto[k], q);
    }
  }

  lemma OtroDueno(s: Sched, t: Sched, m: nat, q: nat)
    requires Entregado(s, t, m) && q in s.pcbs && q in t.pcbs && EsMinimo(s.pcbs, s.mutexes, q)
    requires q != s.mutexes[m].cola[0] && q != s.mutexes[m].pid
    ensures EsMinimo(t.pcbs, t.mutexes, q)
  {
    var sig := s.mutexes[m].cola[0];
    forall w ensures Aguarda(t.mutexes, w, q) <==> Aguarda(s.mutexes, w, q) {
      if Aguarda(t.mutexes, w, q) {
        var k :| 0 <= k < |t.mutexes| && t.mutexes[k].pid == q && w in t.mutexes[k].cola;
        assert s.mutexes[k] == t.mutexes[k];
      }
      if Aguarda(s.mutexes, w, q) {
        var k :| 0 <= k < |s.mutexes| && s.mutexes[k].pid == q && w in s.mutexes[k].cola;
        assert s.mutexes[k] == t.mutexes[k];
      }
    }
    forall w | Aguarda(t.mutexes, w, q) ensures w != sig {}
  }

  /** A free mutex, or one without waiters, changes owner: nobody waits for it. */
  lemma SinEsperaSalvo(s: Sched, t: Sched, m: nat, x: nat)
    requires ExactaSalvo(s, x) && m < |s.mutexes| && s.mutexes[m].cola == [] && t.pcbs == s.pcbs
    requires |t.mutexes| == |s.mutexes| && t.mutexes == s.mutexes[m := t.mutexes[m]] && t.mutexes[m].cola == []
    ensures ExactaSalvo(t, x)
  {
    forall q | q in t.pcbs && q != x ensures EsMinimo(t.pcbs, t.mutexes, q) {
      assert EsMinimo(s.pcbs, s.mutexes, q);
      forall w ensures Aguarda(t.mutexes, w, q) <==> Aguarda(s.mutexes, w, q) {
        if Aguarda(t.mutexes, w, q) {
          var k :| 0 <= k < |t.mutexes| && t.mutexes[k].pid == q && w in t.mutexes[k].cola;
          assert s.mutexes[k] == t.mutexes[k];
        }
        if Aguarda(s.mutexes, w, q) {
          var k :| 0 <= k < |s.mutexes| && s.mutexes[k].pid == q && w in s.mutexes[k].cola;
          assert s.mutexes[k] == t.mutexes[k];
        }
      }
    }
  }

  /** MUTEX_UNLOCK keeps the priorities exact, always. */
  lemma {:induction false} UnlockExacta(s: Sched, p: nat, nombre: string)
    requires Inv(s) && Exacta(s) && Admite(s, AUnlock(p, nombre))
    ensures Exacta(Unlock(s, p, nombre))
  {
    var r := BuscarMutex(s.mutexes, nombre);
    if r.Algo? {
      UnlockEn(s, p, r.valor);
    }
  }

  lemma UnlockEn(s: Sched, p: nat, m: nat)
    requires Inv(s) && Exacta(s) && m < |s.mutexes| && Tiene(s, p, m) && Algo(p) in s.l.exec
    ensures Exacta(Recalcular(Ceder(s, m), p))
  {
    hide Vivos, Niveles, Esperas, Entregar, Recalcular, Exacta;
    assert MutexOk(s.pcbs, s.mutexes[m]);
    var t := Ceder(s, m);
    CederPaso(s, p, m);
    CederSalvo(s, p, m);
    QuienCorre(t, {}, p);
    QuienCorreNoAguarda(t, {}, p);
    RecalcularExacta(t, p);
  }

  lemma CederSalvo(s: Sched, p: nat, m: nat)
    requires Inv(s) && Exacta(s) && m < |s.mutexes| && Tiene(s, p, m)
    ensures ExactaSalvo(Ceder(s, m), p)
  {
    assert MutexOk(s.pcbs, s.mutexes[m]);
    assert ExactaSalvo(s, p);
    if s.mutexes[m].cola == [] {
      SinEsperaSalvo(s, Ceder(s, m), m, p);
    } else {
      EntregarSalvo(s, m, {});
    }
  }

  // ---------------------------------------------------------------- death

  lemma LiberarUnoSalvo(s: Sched, p: nat, i: nat, aire: set<nat>)
    requires Base(s, aire, Nada, Nada) && i < |s.mutexes| && ExactaSalvo(s, p)
    ensures ExactaSalvo(LiberarUno(s, p, i), p)
  {
    var mx := s.mutexes[i];
    assert MutexOk(s.pcbs, mx);
    if mx.pid == p && mx.contador < 1 {
      if mx.cola == [] {
        SinEsperaSalvo(s, LiberarUno(s, p, i), i, p);
      } else {
        EntregarSalvo(s, i, aire);
      }
    }
  }

  lemma {:induction false} LiberarSalvo(s: Sched, p: nat, i: nat, aire: set<nat>)
    requires Base(s, aire, Nada, Nada) && i <= |s.mutexes| && ExactaSalvo(s, p)
    ensures ExactaSalvo(LiberarMutexes(s, p, i), p)
    decreases |s.mutexes| - i
  {
    hide Base, ExactaSalvo, LiberarUno;
    if i < |s.mutexes| {
      LiberarUnoBase(s, p, i, aire);
      LiberarUnoSalvo(s, p, i, aire);
      LiberarSalvo(LiberarUno(s, p, i), p, i + 1, aire);
    }
  }

  /** The death of a process keeps the priorities of the others exact, always. */
  lemma MorirExacta(s: Sched, p: nat)
    requires Base(s, {p}, Nada, Nada) && p in s.pcbs && ExactaSalvo(s, p)
    ensures Exacta(Morir(s, p))
  {
    LiberarBase(s, p, 0, {p});
    LiberarSalvo(s, p, 0, {p});
    QuitarPcbExacta(LiberarMutexes(s, p, 0), p);
  }

  lemma QuitarPcbExacta(t: Sched, p: nat)
    requires Base(t, {p}, Nada, Nada) && ExactaSalvo(t, p) && p in t.pcbs
    ensures Exacta(t.(pcbs := t.pcbs - {p}))
  {
    var u := t.(pcbs := t.pcbs - {p});
    EnLista(t.l, p);
    assert Todos(t.l, p) + Si(p in {p}) == if p in t.pcbs then 1 else 0;
    QuienCorreNoAguarda(t, {p}, p);
    forall q | q in u.pcbs ensures EsMinimo(u.pcbs, u.mutexes, q) {
      assert EsMinimo(t.pcbs, t.mutexes, q);
      assert forall w :: Aguarda(t.mutexes, w, q) ==> w != p;
    }
  }

  // ---------------------------------------------------------------- lock

  /** The mutex that `d` waits for, from mutex `i` on. */
  function EsperaEn(ms: seq<Mutex>, d: nat, i: nat): (r: Opcion<nat>)
    requires i <= |ms|
    ensures r.Algo? ==> i <= r.valor < |ms| && d in ms[r.valor].cola
    ensures r.Nada? ==> forall k :: i <= k < |ms| ==> d !in ms[k].cola
    decreases |ms| - i
  {
    if i == |ms| then Nada else if d in ms[i].cola then Algo(i) else EsperaEn(ms, d, i + 1)
  }

  /** Whom `d` waits for. */
  function Detras(ms: seq<Mutex>, d: nat): Opcion<nat>
  {
    match EsperaEn(ms, d, 0) case Nada => Nada case Algo(k) => Algo(ms[k].pid)
  }

  /** `q` has a worse priority than `x` and the search finds it. */
  predicate Hereda(s: Sched, q: nat, x: nat) { Ubicado(s.l, q) && x < Prio(s.pcbs, q) }

  /** Who inherits when a process of priority `x` starts to wait for `d`: `d`, and whoever `d`
      waits for.  Nobody else along the chain. */
  predicate Cambia(s: Sched, d: nat, x: nat, q: nat)
  {
    Hereda(s, d, x) && (q == d || (Detras(s.mutexes, d) == Algo(q) && Hereda(s, q, x)))
  }

  /** The chains on which one step is not enough: a process that should inherit is in the
      planner's hand, or the second one waits for a third, other than the first, that is worse. */
  predicate Rompe(s: Sched, d: nat, x: nat)
  {
    x < Prio(s.pcbs, d) &&
    (!Ubicado(s.l, d) ||
     (Detras(s.mutexes, d).Algo? && RompeSegundo(s, d, Detras(s.mutexes, d).valor, x)))
  }

  predicate RompeSegundo(s: Sched, d: nat, e: nat, x: nat)
  {
    x < Prio(s.pcbs, e) &&
    (!Ubicado(s.l, e) ||
     (Detras(s.mutexes, e).Algo? && Detras(s.mutexes, e).valor != d && x < Prio(s.pcbs, Detras(s.mutexes, e).valor)))
  }

  lemma {:induction false} HeredarNinguno(s: Sched, d: nat, i: nat)
    requires i <= |s.mutexes| && forall k :: i <= k < |s.mutexes| ==> d !in s.mutexes[k].cola
    ensures HeredarOtros(s, d, i) == s
    decreases |s.mutexes| - i
  {
    if i < |s.mutexes| {
      HeredarNinguno(s, d, i + 1);
    }
  }

  /** The loop over all the mutexes acts only on the one that `d` waits for. */
  lemma {:induction false} HeredarUno(s: Sched, d: nat, i: nat, k: nat)
    requires i <= k < |s.mutexes| && forall j :: i <= j < |s.mutexes| && j != k ==> d !in s.mutexes[j].cola
    ensures HeredarOtros(s, d, i) == HeredarEn(s, d, k)
    decreases k - i
  {
    if i < k {
      HeredarUno(s, d, i + 1, k);
    } else {
      HeredarNinguno(HeredarEn(s, d, k), d, k + 1);
    }
  }

  /** What the state after MUTEX_LOCK has in common with the state before, and what not. */
  ghost predicate Esperado(s: Sched, t: Sched, p: nat, m: nat)
  {
    && m < |s.mutexes|
    && t.pcbs.Keys == s.pcbs.Keys
    && t.mutexes == s.mutexes[m := s.mutexes[m].(contador := s.mutexes[m].contador - 1, cola := s.mutexes[m].cola + [p])]
    && forall q :: q in s.pcbs ==>
         && t.pcbs[q].original == s.pcbs[q].original
         && t.pcbs[q].prioridad == if Cambia(s, s.mutexes[m].pid, Prio(s.pcbs, p), q) then Prio(s.pcbs, p) else s.pcbs[q].prioridad
  }

  lemma HeredarDuenoPrios(s: Sched, t: Sched, p: nat, m: nat, d: nat, x: nat)
    requires Inv(s) && m < |s.mutexes| && s.mutexes[m].contador < 1 && d == s.mutexes[m].pid && d != p
    requires x == Prio(s.pcbs, p) && Hereda(s, d, x) && p in s.pcbs
    requires t == s.(mutexes := s.mutexes[m := s.mutexes[m].(contador := s.mutexes[m].contador - 1, cola := s.mutexes[m].cola + [p])])
    ensures Esperado(s, HeredarDueno(t, d, x), p, m)
  {
    assert MutexOk(s.pcbs, s.mutexes[m]);
    hide Inv, Ubicado, HeredarDueno, Esperado, Cambia, ConPrio;
    assert forall k :: 0 <= k < |s.mutexes| ==> (d in t.mutexes[k].cola <==> d in s.mutexes[k].cola);
    var k := EsperaEn(s.mutexes, d, 0);
    if k.Nada? {
      DuenoLibre(t, d, x);
    } else {
      DuenoEspera(s, d, k.valor);
      DuenoAtado(s, t, d, k.valor, x);
    }
    EsperadoDe(s, HeredarDueno(t, d, x), p, m, d, x);
  }

  /** The priorities after the lock, said with the list of those that change. */
  lemma EsperadoDe(s: Sched, u: Sched, p: nat, m: nat, d: nat, x: nat)
    requires m < |s.mutexes| && d == s.mutexes[m].pid && d in s.pcbs && x == Prio(s.pcbs, p) && Hereda(s, d, x)
    requires u.mutexes == s.mutexes[m := s.mutexes[m].(contador := s.mutexes[m].contador - 1, cola := s.mutexes[m].cola + [p])]
    requires var e := Detras(s.mutexes, d);
      u.pcbs == if e.Algo? && Hereda(s, e.valor, x) && e.valor != d then ConPrio(ConPrio(s.pcbs, d, x), e.valor, x)
                else ConPrio(s.pcbs, d, x)
    ensures Esperado(s, u, p, m)
  {
    hide Hereda, Detras;
  }

  /** An owner that waits for nobody is the only one to inherit. */
  lemma DuenoLibre(t: Sched, d: nat, x: nat)
    requires forall k :: 0 <= k < |t.mutexes| ==> d !in t.mutexes[k].cola
    ensures HeredarDueno(t, d, x).mutexes == t.mutexes && HeredarDueno(t, d, x).pcbs == ConPrio(t.pcbs, d, x)
  {
    hide Extraer, Encolar, Ubicado, HeredarOtros;
    HeredarNinguno(t.(pcbs := ConPrio(t.pcbs, d, x)), d, 0);
    HeredarNinguno(t.(l := Extraer(t.l, d), pcbs := ConPrio(t.pcbs, d, x)), d, 0);
  }

  /** One that waits passes what it inherits on to the owner of what it waits for. */
  lemma DuenoAtado(s: Sched, t: Sched, d: nat, k: nat, x: nat)
    requires k < |s.mutexes| == |t.mutexes| && t == s.(mutexes := t.mutexes) && d in s.pcbs
    requires NivelDe(s.l.colas, d).Nada? && d in t.mutexes[k].cola && t.mutexes[k].pid == s.mutexes[k].pid != d
    requires forall j :: 0 <= j < |t.mutexes| && j != k ==> d !in t.mutexes[j].cola
    ensures var u := HeredarDueno(t, d, x);
      var e := s.mutexes[k].pid;
      u.mutexes == t.mutexes && u.pcbs == if Hereda(s, e, x) && e != d then ConPrio(ConPrio(s.pcbs, d, x), e, x) else ConPrio(s.pcbs, d, x)
  {
    hide Extraer, Encolar, Ubicado, HeredarOtros, HeredarEn, Hereda;
    var lleno := t.(pcbs := ConPrio(s.pcbs, d, x));
    HeredarUno(lleno, d, 0, k);
    SegundoPrios(s, lleno, d, k, x);
  }

  /** Who waits is blocked, waits once, and not for itself. */
  lemma DuenoEspera(s: Sched, d: nat, k: nat)
    requires Inv(s) && k < |s.mutexes| && d in s.mutexes[k].cola
    ensures NivelDe(s.l.colas, d).Nada? && Algo(d) !in s.l.exec
    ensures forall j :: 0 <= j < |s.mutexes| && j != k ==> d !in s.mutexes[j].cola
    ensures s.mutexes[k].pid != d && s.mutexes[k].pid in s.pcbs
  {
    assert MutexOk(s.pcbs, s.mutexes[k]);
    ColasTiene(s.mutexes, k, d);
    EnTiene(s.l.block, d);
    EnTiene(s.l.suspBlock, d);
    assert En(s.l.block, d) + En(s.l.suspBlock, d) + Uno(Nada, d) == EnColas(s.mutexes, d) + Si(d in s.io) + Uno(Nada, d);
    NoEnReady(s, {}, d);
    forall j | 0 <= j < |s.mutexes| && j != k ensures d !in s.mutexes[j].cola {
      UnicaCola(s, {}, k, j, d);
    }
  }

  /** The turn of the loop that matters changes the priority of the second owner, or nothing. */
  lemma SegundoPrios(s: Sched, u: Sched, d: nat, k: nat, x: nat)
    requires k < |u.mutexes| == |s.mutexes| && u.l == s.l && u.pol == s.pol && u.pcbs == ConPrio(s.pcbs, d, x) && d in s.pcbs
    requires u.mutexes[k].pid == s.mutexes[k].pid != d && d in u.mutexes[k].cola
    ensures var t := HeredarEn(u, d, k);
      var e := s.mutexes[k].pid;
      t.mutexes == u.mutexes && t.pcbs == if Hereda(s, e, x) then ConPrio(u.pcbs, e, x) else u.pcbs
  {
  }

  lemma EsperarPrios(s: Sched, p: nat, m: nat)
    requires Inv(s) && m < |s.mutexes| && s.mutexes[m].contador < 1 && s.mutexes[m].pid != p && Algo(p) in s.l.exec
    ensures Esperado(s, EsperarMutex(s, p, m), p, m)
  {
    hide Vivos, Niveles, Esperas, Mutexes, HeredarDueno, Ubicado, Senal, Bloquear, LiberarCpu;
    QuienCorre(s, {}, p);
    var mx := s.mutexes[m];
    var x := Prio(s.pcbs, p);
    var t := s.(mutexes := s.mutexes[m := mx.(contador := mx.contador - 1, cola := mx.cola + [p])]);
    if Hereda(s, mx.pid, x) {
      HeredarDuenoPrios(s, t, p, m, mx.pid, x);
      var u := HeredarDueno(t, mx.pid, x);
      SenalIgual(u);
      BloquearPrios(DespertarPlan(u), p);
    } else {
      BloquearPrios(t, p);
    }
  }

  lemma BloquearSolo(s: Sched, p: nat)
    ensures var t := Bloquear(s, p);
      && t.mutexes == s.mutexes && t.pcbs.Keys == s.pcbs.Keys
      && forall q :: q in s.pcbs ==> t.pcbs[q].prioridad == s.pcbs[q].prioridad && t.pcbs[q].original == s.pcbs[q].original
  {
  }

  lemma BloquearPrios(s: Sched, p: nat)
    ensures var t := LiberarCpu(Bloquear(s, p));
      && t.mutexes == s.mutexes && t.pcbs.Keys == s.pcbs.Keys
      && forall q :: q in s.pcbs ==> t.pcbs[q].prioridad == s.pcbs[q].prioridad && t.pcbs[q].original == s.pcbs[q].original
  {
    hide Bloquear, Senal;
    BloquearSolo(s, p);
    var t := Bloquear(s, p);
    SenalIgual(t.(semCpu := t.semCpu + 1));
  }

  /** After the lock the same processes wait for the same ones, and `p` for the owner. */
  lemma AguardaTras(s: Sched, t: Sched, p: nat, m: nat, w: nat, q: nat)
    requires Esperado(s, t, p, m)
    ensures Aguarda(t.mutexes, w, q) <==> Aguarda(s.mutexes, w, q) || (w == p && q == s.mutexes[m].pid)
  {
    if Aguarda(t.mutexes, w, q) {
      var k :| 0 <= k < |t.mutexes| && t.mutexes[k].pid == q && w in t.mutexes[k].cola;
      assert s.mutexes[k].pid == q;
    }
    if Aguarda(s.mutexes, w, q) {
      var k :| 0 <= k < |s.mutexes| && s.mutexes[k].pid == q && w in s.mutexes[k].cola;
      assert t.mutexes[k].pid == q && w in t.mutexes[k].cola;
    }
    if w == p && q == s.mutexes[m].pid {
      assert t.mutexes[m].pid == q && w in t.mutexes[m].cola;
    }
  }

  /** Whom a process waits for is unique. */
  lemma AguardaUno(s: Sched, w: nat, q: nat)
    requires Inv(s)
    ensures Aguarda(s.mutexes, w, q) ==> Detras(s.mutexes, w) == Algo(q) && w != q && q in s.pcbs
    ensures Detras(s.mutexes, w) == Algo(q) ==> Aguarda(s.mutexes, w, q)
  {
    if Aguarda(s.mutexes, w, q) {
      var k :| 0 <= k < |s.mutexes| && s.mutexes[k].pid == q && w in s.mutexes[k].cola;
      DuenoEspera(s, w, k);
    }
    var r := EsperaEn(s.mutexes, w, 0);
    if r.Algo? && s.mutexes[r.valor].pid == q {
      assert w in s.mutexes[r.valor].cola;
    }
  }

  ghost predicate Bajo(s: Sched, p: nat, m: nat)
  {
    && Inv(s) && m < |s.mutexes| && s.mutexes[m].contador < 1 && s.mutexes[m].pid != p && Algo(p) in s.l.exec
    && p in s.pcbs
  }

  /** Lower bound: nobody is worse than one of its waiters, unless the chain breaks. */
  lemma LockCota(s: Sched, t: Sched, p: nat, m: nat, q: nat, w: nat)
    requires Bajo(s, p, m) && Esperado(s, t, p, m) && Exacta(s) && q in s.pcbs
    requires !Rompe(s, s.mutexes[m].pid, Prio(s.pcbs, p)) && Aguarda(t.mutexes, w, q)
    ensures t.pcbs[q].prioridad <= Prio(t.pcbs, w)
  {
    hide Ubicado, Inv, Detras, Aguarda;
    var d, x := s.mutexes[m].pid, Prio(s.pcbs, p);
    AguardaTras(s, t, p, m, w, q);
    assert EsMinimo(s.pcbs, s.mutexes, q);
    WaiterVivo(s, p, m, w, q);
    AguardaUno(s, w, q);
    AguardaUno(s, d, q);
  }

  /** A waiter is alive. */
  lemma WaiterVivo(s: Sched, p: nat, m: nat, w: nat, q: nat)
    requires Bajo(s, p, m) && (Aguarda(s.mutexes, w, q) || w == p)
    ensures w in s.pcbs
  {
    if Aguarda(s.mutexes, w, q) {
      var k :| 0 <= k < |s.mutexes| && s.mutexes[k].pid == q && w in s.mutexes[k].cola;
      ColasTiene(s.mutexes, k, w);
      EnTiene(s.l.block, w);
      EnTiene(s.l.suspBlock, w);
      assert En(s.l.block, w) + En(s.l.suspBlock, w) + Uno(Nada, w) == EnColas(s.mutexes, w) + Si(w in s.io) + Uno(Nada, w);
      EnLista(s.l, w);
      NoEnAire(s, {}, w);
    }
  }

  /** And the bound is reached, unless the chain breaks. */
  lemma LockAlcanza(s: Sched, t: Sched, p: nat, m: nat, q: nat)
    requires Bajo(s, p, m) && Esperado(s, t, p, m) && Exacta(s) && q in s.pcbs
    requires !Rompe(s, s.mutexes[m].pid, Prio(s.pcbs, p))
    ensures t.pcbs[q].prioridad == t.pcbs[q].original || exists w :: Aguarda(t.mutexes, w, q) && Prio(t.pcbs, w) == t.pcbs[q].prioridad
  {
    hide Ubicado, Inv, Detras, Aguarda;
    var d, x := s.mutexes[m].pid, Prio(s.pcbs, p);
    assert EsMinimo(s.pcbs, s.mutexes, q);
    AguardaTras(s, t, p, m, p, d);
    AguardaTras(s, t, p, m, d, q);
    AguardaUno(s, d, q);
    if Cambia(s, d, x, q) {
      if q == d {
        assert Aguarda(t.mutexes, p, q) && Prio(t.pcbs, p) == x;
      } else {
        DuenoVivo(s, p, m);
        assert Aguarda(t.mutexes, d, q) && Prio(t.pcbs, d) == x;
      }
    } else if s.pcbs[q].prioridad != s.pcbs[q].original {
      var w :| Aguarda(s.mutexes, w, q) && Prio(s.pcbs, w) == s.pcbs[q].prioridad;
      AguardaTras(s, t, p, m, w, q);
      WaiterVivo(s, p, m, w, q);
      AguardaUno(s, w, q);
      assert !Cambia(s, d, x, w);
      assert Aguarda(t.mutexes, w, q) && Prio(t.pcbs, w) == t.pcbs[q].prioridad;
    }
  }

  lemma DuenoVivo(s: Sched, p: nat, m: nat)
    requires Bajo(s, p, m)
    ensures s.mutexes[m].pid in s.pcbs
  {
    assert MutexOk(s.pcbs, s.mutexes[m]);
  }

  /** A chain that breaks leaves somebody worse than one of its waiters. */
  lemma LockRompe(s: Sched, t: Sched, p: nat, m: nat)
    requires Bajo(s, p, m) && Esperado(s, t, p, m)
    requires Rompe(s, s.mutexes[m].pid, Prio(s.pcbs, p))
    ensures !Exacta(t)
  {
    hide Ubicado, Inv, Detras, Aguarda;
    var d, x := s.mutexes[m].pid, Prio(s.pcbs, p);
    DuenoVivo(s, p, m);
    AguardaTras(s, t, p, m, p, d);
    if !Ubicado(s.l, d) {
      assert Aguarda(t.mutexes, p, d) && Prio(t.pcbs, p) == x < t.pcbs[d].prioridad;
      assert !EsMinimo(t.pcbs, t.mutexes, d);
    } else {
      var e := Detras(s.mutexes, d).valor;
      AguardaUno(s, d, e);
      AguardaTras(s, t, p, m, d, e);
      if !Ubicado(s.l, e) {
        assert Aguarda(t.mutexes, d, e) && Prio(t.pcbs, d) == x < t.pcbs[e].prioridad;
        assert !EsMinimo(t.pcbs, t.mutexes, e);
      } else {
        var f := Detras(s.mutexes, e).valor;
        AguardaUno(s, e, f);
        AguardaTras(s, t, p, m, e, f);
        assert Aguarda(t.mutexes, e, f) && Prio(t.pcbs, e) == x < t.pcbs[f].prioridad;
        assert !EsMinimo(t.pcbs, t.mutexes, f);
      }
    }
  }

  /** MUTEX_LOCK on a mutex somebody has keeps the priorities exact if and only if the chain of
      owners is not broken where the code stops following it. */
  lemma {:induction false} LockExacta(s: Sched, p: nat, m: nat)
    requires Bajo(s, p, m) && Exacta(s)
    ensures Exacta(EsperarMutex(s, p, m)) <==> !Rompe(s, s.mutexes[m].pid, Prio(s.pcbs, p))
  {
    hide Rompe, Inv, Esperado, EsperarMutex;
    var t := EsperarMutex(s, p, m);
    EsperarPrios(s, p, m);
    if Rompe(s, s.mutexes[m].pid, Prio(s.pcbs, p)) {
      LockRompe(s, t, p, m);
    } else {
      EsperadoCampos(s, t, p, m);
      forall q | q in t.pcbs ensures EsMinimo(t.pcbs, t.mutexes, q) {
        forall w | Aguarda(t.mutexes, w, q) ensures t.pcbs[q].prioridad <= Prio(t.pcbs, w) {
          LockCota(s, t, p, m, q, w);
        }
        LockAlcanza(s, t, p, m, q);
      }
    }
  }

  lemma EsperadoCampos(s: Sched, t: Sched, p: nat, m: nat)
    requires Esperado(s, t, p, m) && Exacta(s)
    ensures t.pcbs.Keys == s.pcbs.Keys
    ensures forall q :: q in s.pcbs ==> q in t.pcbs && t.pcbs[q].prioridad <= t.pcbs[q].original
  {
    forall q | q in s.pcbs ensures t.pcbs[q].prioridad <= t.pcbs[q].original {
      assert EsMinimo(s.pcbs, s.mutexes, q);
    }
  }
}
