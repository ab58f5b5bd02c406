/** What every step of the scheduler keeps: each live process is in exactly one place, each
    queue holds the processes of its priority, each blocked process waits for exactly one
    thing, and each mutex counts its waiters. */
module Conservacion {
  import opened Secuencias
  import opened Procesos
  import opened Planificador

  /** Each live pid is in exactly one place and no other pid is in any; `aire` are the PCBs that
      a handler has in its hands, which are in none. */
  ghost predicate Vivos(s: Sched, aire: set<nat>)
  {
    forall p: nat :: Todos(s.l, p) + Si(p in aire) == if p in s.pcbs then 1 else 0
  }

  /** With several queues, whoever is in queue `n` has priority `n`. */
  ghost predicate Niveles(s: Sched)
  {
    && |s.l.colas| == s.pol.niveles >= 1
    && (!s.pol.cmn ==> s.pol.niveles == 1)
    && (s.pol.cmn ==> forall p :: p in s.pcbs ==> s.pcbs[p].prioridad < s.pol.niveles && s.pcbs[p].original < s.pol.niveles)
    && (s.pol.cmn ==> EnSuNivel(s.pcbs, s.l.colas))
  }

  ghost predicate EnSuNivel(pcbs: map<nat, Pcb>, colas: seq<seq<nat>>)
  {
    forall n, k :: 0 <= n < |colas| && 0 <= k < |colas[n]| ==> Prio(pcbs, colas[n][k]) == n
  }

  function EnColas(ms: seq<Mutex>, p: nat): nat
  {
    if ms == [] then 0 else En(ms[0].cola, p) + EnColas(ms[1..], p)
  }

  function Si(b: bool): nat { if b then 1 else 0 }

  /** A process is blocked, in memory or suspended, exactly once for each thing it waits for: a
      mutex or an I/O.  `paso` is a process whose wait is over and is still there; `falta` one
      that is already queued and still runs. */
  ghost predicate Esperas(s: Sched, paso: Opcion<nat>, falta: Opcion<nat>)
  {
    forall p: nat :: En(s.l.block, p) + En(s.l.suspBlock, p) + Uno(falta, p)
                     == EnColas(s.mutexes, p) + Si(p in s.io) + Uno(paso, p)
  }

  /** `contador` is 1 when the mutex is free, with nobody in its queue; otherwise it is minus
      the number of waiters, and the owner is alive and is not one of them. */
  ghost predicate MutexOk(pcbs: map<nat, Pcb>, m: Mutex)
  {
    if m.contador == 1 then m.cola == []
    else m.contador == -|m.cola| && m.pid in pcbs && m.pid !in m.cola
  }

  ghost predicate Mutexes(s: Sched)
  {
    && (forall i, j :: 0 <= i < j < |s.mutexes| ==> s.mutexes[i].nombre != s.mutexes[j].nombre)
    && forall i :: 0 <= i < |s.mutexes| ==> MutexOk(s.pcbs, s.mutexes[i])
  }

  /** Pids are not used again. */
  ghost predicate Pids(s: Sched)
  {
    forall p :: p in s.pcbs ==> p < s.proximo
  }

  ghost predicate Base(s: Sched, aire: set<nat>, paso: Opcion<nat>, falta: Opcion<nat>)
  {
    Vivos(s, aire) && Niveles(s) && Esperas(s, paso, falta) && Mutexes(s) && Pids(s)
  }

  /** The invariant between handlers. */
  ghost predicate Inv(s: Sched)
  {
    Base(s, {}, Nada, Nada)
  }

  // ---------------------------------------------------------------- facts about waits

  lemma {:induction false} ColasCambia(ms: seq<Mutex>, i: nat, m: Mutex, p: nat)
    requires i < |ms|
    ensures EnColas(ms[i := m], p) + En(ms[i].cola, p) == EnColas(ms, p) + En(m.cola, p)
  {
    if i > 0 {
      assert ms[i := m][1..] == ms[1..][i - 1 := m];
      ColasCambia(ms[1..], i - 1, m, p);
    } else {
      assert ms[0 := m][1..] == ms[1..];
    }
  }

  lemma {:induction false} ColasTiene(ms: seq<Mutex>, i: nat, p: nat)
    requires i < |ms|
    ensures En(ms[i].cola, p) <= EnColas(ms, p)
    ensures p in ms[i].cola ==> EnColas(ms, p) >= 1
  {
    EnTiene(ms[i].cola, p);
    if i > 0 {
      ColasTiene(ms[1..], i - 1, p);
    }
  }

  lemma {:induction false} ColasDos(ms: seq<Mutex>, i: nat, j: nat, p: nat)
    requires i < j < |ms| && p in ms[i].cola && p in ms[j].cola
    ensures EnColas(ms, p) >= 2
  {
    if i > 0 {
      ColasDos(ms[1..], i - 1, j - 1, p);
    } else {
      EnTiene(ms[0].cola, p);
      ColasTiene(ms[1..], j - 1, p);
    }
  }

  lemma {:induction false} ColasConcat(x: seq<Mutex>, y: seq<Mutex>, p: nat)
    ensures EnColas(x + y, p) == EnColas(x, p) + EnColas(y, p)
  {
    if x == [] {
      assert x + y == y;
    } else {
      assert (x + y)[1..] == x[1..] + y;
      ColasConcat(x[1..], y, p);
    }
  }

  /** A process waits in at most one queue, once. */
  lemma EsperaUna(s: Sched, aire: set<nat>, paso: Opcion<nat>, falta: Opcion<nat>, p: nat)
    requires Vivos(s, aire) && Esperas(s, paso, falta)
    ensures En(s.l.block, p) + En(s.l.suspBlock, p) <= 1
    ensures EnColas(s.mutexes, p) <= 1 + Uno(falta, p)
  {
    assert Todos(s.l, p) + Si(p in aire) == if p in s.pcbs then 1 else 0;
    assert En(s.l.block, p) + En(s.l.suspBlock, p) + Uno(falta, p) == EnColas(s.mutexes, p) + Si(p in s.io) + Uno(paso, p);
  }

  /** The first waiter of a mutex waits only there. */
  lemma UnicaCola(s: Sched, aire: set<nat>, m: nat, k: nat, p: nat)
    requires Base(s, aire, Nada, Nada) && m < |s.mutexes| && k < |s.mutexes| && m != k && p in s.mutexes[m].cola
    ensures p !in s.mutexes[k].cola
  {
    EsperaUna(s, aire, Nada, Nada, p);
    if p in s.mutexes[k].cola {
      ColasDos(s.mutexes, if m < k then m else k, if m < k then k else m, p);
    }
  }

  lemma UnaVez(s: Sched, aire: set<nat>, m: nat)
    requires Base(s, aire, Nada, Nada) && m < |s.mutexes| && s.mutexes[m].cola != []
    ensures s.mutexes[m].cola[0] !in s.mutexes[m].cola[1..]
  {
    var c := s.mutexes[m].cola;
    EsperaUna(s, aire, Nada, Nada, c[0]);
    ColasTiene(s.mutexes, m, c[0]);
    EnTiene(c[1..], c[0]);
  }

  // ---------------------------------------------------------------- steps on places

  /** A PCB in the air goes to its ready queue. */
  lemma ListoBase(s: Sched, p: nat, aire: set<nat>, paso: Opcion<nat>, falta: Opcion<nat>)
    requires Base(s, aire, paso, falta) && p in aire && p in s.pcbs
    ensures Base(Listo(s, p), aire - {p}, paso, falta)
    ensures Listos(Listo(s, p).l.colas) == Listos(s.l.colas) + 1 && Listo(s, p).l.exec == s.l.exec
  {
    hide Esperas, Mutexes, Pids, Todos;
    var t := Listo(s, p);
    var n := Nivel(s, p);
    EncolarTodos(s.l, n, p, 0);
    forall q: nat ensures Todos(t.l, q) + Si(q in aire - {p}) == if q in t.pcbs then 1 else 0 {
      EncolarTodos(s.l, n, p, q);
      assert Todos(s.l, q) + Si(q in aire) == if q in s.pcbs then 1 else 0;
    }
    EncolarNivel(s, p);
    MismasEsperas(s, t, paso, falta);
  }

  lemma EncolarNivel(s: Sched, p: nat)
    requires Niveles(s) && p in s.pcbs
    ensures Niveles(Listo(s, p)) && Niveles(s.(l := EncolarPrimero(s.l, Nivel(s, p), p)))
  {
  }

  /** The waits do not depend on the ready queues, the CPUs or the suspended-ready list. */
  lemma MismasEsperas(s: Sched, t: Sched, paso: Opcion<nat>, falta: Opcion<nat>)
    requires Esperas(s, paso, falta) && Mutexes(s) && Pids(s)
    requires t.l.block == s.l.block && t.l.suspBlock == s.l.suspBlock && t.mutexes == s.mutexes && t.io == s.io
    requires t.proximo == s.proximo && t.pcbs == s.pcbs
    ensures Esperas(t, paso, falta) && Mutexes(t) && Pids(t)
  {
  }

  lemma PrimeroBase(s: Sched, p: nat, aire: set<nat>, paso: Opcion<nat>, falta: Opcion<nat>)
    requires Base(s, aire, paso, falta) && p in aire && p in s.pcbs
    ensures var t := s.(l := EncolarPrimero(s.l, Nivel(s, p), p));
      Base(t, aire - {p}, paso, falta) && Listos(t.l.colas) == Listos(s.l.colas) + 1
  {
    hide Esperas, Mutexes, Pids, Todos, EncolarPrimero;
    var n := Nivel(s, p);
    var t := s.(l := EncolarPrimero(s.l, n, p));
    EncolarPrimeroTodos(s.l, n, p, 0);
    forall q: nat ensures Todos(t.l, q) + Si(q in aire - {p}) == if q in t.pcbs then 1 else 0 {
      EncolarPrimeroTodos(s.l, n, p, q);
      assert Todos(s.l, q) + Si(q in aire) == if q in s.pcbs then 1 else 0;
    }
    EncolarNivel(s, p);
    EncolarPrimeroResto(s.l, n, p);
    MismasEsperas(s, t, paso, falta);
  }

  lemma EncolarPrimeroResto(l: Lugares, n: nat, p: nat)
    ensures var r := EncolarPrimero(l, n, p);
      r.block == l.block && r.suspBlock == l.suspBlock && r.exec == l.exec
  {
  }

  /** A PCB leaves its CPU. */
  lemma SoltarBase(s: Sched, i: nat, p: nat, aire: set<nat>, paso: Opcion<nat>, falta: Opcion<nat>)
    requires Base(s, aire, paso, falta) && i < |s.l.exec| && s.l.exec[i] == Algo(p)
    ensures Base(s.(l := Soltar(s.l, i)), aire + {p}, paso, falta) && p in s.pcbs
    ensures Ociosas(Soltar(s.l, i).exec) == Ociosas(s.l.exec) + 1
  {
    hide Esperas, Mutexes, Pids, Todos;
    var t := s.(l := Soltar(s.l, i));
    SoltarTodos(s.l, i, p, p);
    assert Todos(s.l, p) + Si(p in aire) == if p in s.pcbs then 1 else 0;
    forall q: nat ensures Todos(t.l, q) + Si(q in aire + {p}) == if q in t.pcbs then 1 else 0 {
      SoltarTodos(s.l, i, p, q);
      assert Todos(s.l, q) + Si(q in aire) == if q in s.pcbs then 1 else 0;
    }
    MismasEsperas(s, t, paso, falta);
  }

  /** A PCB in the air goes to an idle CPU. */
  lemma OcuparBase(s: Sched, i: nat, p: nat)
    requires Base(s, {p}, Nada, Nada) && i < |s.l.exec| && s.l.exec[i].Nada?
    ensures var t := s.(l := s.l.(exec := s.l.exec[i := Algo(p)]));
      Inv(t) && Ociosas(t.l.exec) == Ociosas(s.l.exec) - 1
  {
    var t := s.(l := s.l.(exec := s.l.exec[i := Algo(p)]));
    ExecCambia(s.l.exec, i, Algo(p), 0);
    forall q: nat ensures Todos(t.l, q) + Si(q in {}) == if q in t.pcbs then 1 else 0 {
      ExecCambia(s.l.exec, i, Algo(p), q);
      assert Todos(s.l, q) + Si(q in {p}) == if q in s.pcbs then 1 else 0;
    }
  }

  /** The head of the best queue is taken. */
  lemma SinPrimeroBase(s: Sched, p: nat)
    requires Inv(s) && Primero(s.l.colas) == Algo(p)
    ensures Base(s.(l := SinPrimero(s.l)), {p}, Nada, Nada) && p in s.pcbs
    ensures Listos(SinPrimero(s.l).colas) == Listos(s.l.colas) - 1
  {
    var n := PrimerNivel(s.l.colas).valor;
    var c := s.l.colas[n];
    var t := s.(l := SinPrimero(s.l));
    ReadyCambia(s.l.colas, n, c[1..], p);
    assert Todos(s.l, p) + Si(p in {}) == if p in s.pcbs then 1 else 0;
    forall q: nat ensures Todos(t.l, q) + Si(q in {p}) == if q in t.pcbs then 1 else 0 {
      ReadyCambia(s.l.colas, n, c[1..], q);
      assert Todos(s.l, q) + Si(q in {}) == if q in s.pcbs then 1 else 0;
    }
    SinPrimeroNivel(s, n);
  }

  lemma SinPrimeroNivel(s: Sched, n: nat)
    requires Niveles(s) && n < |s.l.colas| && s.l.colas[n] != []
    ensures Niveles(s.(l := s.l.(colas := s.l.colas[n := s.l.colas[n][1..]])))
  {
  }

  /** A ready PCB is taken from the queue it is in. */
  lemma ExtraerBase(s: Sched, p: nat, aire: set<nat>, paso: Opcion<nat>, falta: Opcion<nat>)
    requires Base(s, aire, paso, falta) && NivelDe(s.l.colas, p).Algo?
    ensures Base(s.(l := Extraer(s.l, p)), aire + {p}, paso, falta) && p in s.pcbs
    ensures NivelDe(Extraer(s.l, p).colas, p).Nada?
    ensures Listos(Extraer(s.l, p).colas) == Listos(s.l.colas) - 1
  {
    hide Esperas, Mutexes, Pids;
    var t := s.(l := Extraer(s.l, p));
    ExtraerTodos(s.l, p, p);
    ReadyTiene(s.l.colas, p);
    ReadyTiene(t.l.colas, p);
    assert Todos(s.l, p) + Si(p in aire) == if p in s.pcbs then 1 else 0;
    forall q: nat ensures Todos(t.l, q) + Si(q in aire + {p}) == if q in t.pcbs then 1 else 0 {
      ExtraerTodos(s.l, p, q);
      assert Todos(s.l, q) + Si(q in aire) == if q in s.pcbs then 1 else 0;
    }
    ExtraerNivel(s, p);
    MismasEsperas(s, t, paso, falta);
  }

  lemma {:induction false} QuitarDe(xs: seq<nat>, p: nat, k: nat)
    requires k < |Quitar(xs, p)|
    ensures Quitar(xs, p)[k] in xs
  {
    if xs != [] && xs[0] != p && k > 0 {
      QuitarDe(xs[1..], p, k - 1);
    }
  }

  lemma ExtraerNivel(s: Sched, p: nat)
    requires Niveles(s) && NivelDe(s.l.colas, p).Algo?
    ensures Niveles(s.(l := Extraer(s.l, p)))
  {
    var n := NivelDe(s.l.colas, p).valor;
    forall k | 0 <= k < |Quitar(s.l.colas[n], p)| ensures Quitar(s.l.colas[n], p)[k] in s.l.colas[n] {
      QuitarDe(s.l.colas[n], p, k);
    }
  }

  /** A PCB whose wait is over leaves the block list. */
  lemma SalirBlockBase(s: Sched, p: nat, aire: set<nat>, falta: Opcion<nat>)
    requires Base(s, aire, Algo(p), falta) && p in s.l.block
    ensures Base(s.(l := s.l.(block := Quitar(s.l.block, p))), aire + {p}, Nada, falta) && p in s.pcbs
  {
    var t := s.(l := s.l.(block := Quitar(s.l.block, p)));
    EnTiene(s.l.block, p);
    assert Todos(s.l, p) + Si(p in aire) == if p in s.pcbs then 1 else 0;
    forall q: nat
      ensures Todos(t.l, q) + Si(q in aire + {p}) == if q in t.pcbs then 1 else 0
      ensures En(t.l.block, q) + En(t.l.suspBlock, q) + Uno(falta, q) == EnColas(t.mutexes, q) + Si(q in t.io) + Uno(Nada, q)
    {
      QuitarUno(s.l.block, p, q);
      assert Todos(s.l, q) + Si(q in aire) == if q in s.pcbs then 1 else 0;
      assert En(s.l.block, q) + En(s.l.suspBlock, q) + Uno(falta, q) == EnColas(s.mutexes, q) + Si(q in s.io) + Uno(Algo(p), q);
    }
  }

  /** A running PCB, now in the air, joins the block list. */
  lemma EntrarBlockBase(s: Sched, t: Sched, p: nat, aire: set<nat>)
    requires Base(s, aire, Nada, Algo(p)) && p in aire && t == s.(l := s.l.(block := s.l.block + [p]))
    ensures Base(t, aire - {p}, Nada, Nada)
  {
    forall q: nat
      ensures Todos(t.l, q) + Si(q in aire - {p}) == if q in t.pcbs then 1 else 0
      ensures En(t.l.block, q) + En(t.l.suspBlock, q) + Uno(Nada, q) == EnColas(t.mutexes, q) + Si(q in t.io) + Uno(Nada, q)
    {
      EnConcat(s.l.block, [p], q);
      assert Todos(s.l, q) + Si(q in aire) == if q in s.pcbs then 1 else 0;
      assert En(s.l.block, q) + En(s.l.suspBlock, q) + Uno(Algo(p), q) == EnColas(s.mutexes, q) + Si(q in s.io) + Uno(Nada, q);
    }
  }

  lemma {:induction false} InsertarEn(pcbs: map<nat, Pcb>, xs: seq<nat>, p: nat, q: nat)
    ensures En(InsertarPorPrio(pcbs, xs, p), q) == En(xs, q) + (if p == q then 1 else 0)
  {
    if xs != [] {
      InsertarEn(pcbs, xs[1..], p, q);
      assert ([xs[0]] + InsertarPorPrio(pcbs, xs[1..], p))[1..] == InsertarPorPrio(pcbs, xs[1..], p);
      assert ([p] + xs)[1..] == xs;
    }
  }

  /** A suspended PCB whose wait is over goes to the other suspended list. */
  lemma PasarBase(s: Sched, p: nat, aire: set<nat>, falta: Opcion<nat>, t: Sched)
    requires Base(s, aire, Algo(p), falta) && p in s.l.suspBlock
    requires t == s.(l := s.l.(suspBlock := Quitar(s.l.suspBlock, p), suspReady := InsertarPorPrio(s.pcbs, s.l.suspReady, p)))
    ensures Base(t, aire, Nada, falta) && p in t.l.suspReady
  {
    EnTiene(s.l.suspBlock, p);
    InsertarEn(s.pcbs, s.l.suspReady, p, p);
    EnTiene(t.l.suspReady, p);
    forall q: nat
      ensures Todos(t.l, q) + Si(q in aire) == if q in t.pcbs then 1 else 0
      ensures En(t.l.block, q) + En(t.l.suspBlock, q) + Uno(falta, q) == EnColas(t.mutexes, q) + Si(q in t.io) + Uno(Nada, q)
    {
      QuitarUno(s.l.suspBlock, p, q);
      InsertarEn(s.pcbs, s.l.suspReady, p, q);
      assert Todos(s.l, q) + Si(q in aire) == if q in s.pcbs then 1 else 0;
      assert En(s.l.block, q) + En(s.l.suspBlock, q) + Uno(falta, q) == EnColas(s.mutexes, q) + Si(q in s.io) + Uno(Algo(p), q);
    }
  }

  /** A PCB leaves the suspended-ready list. */
  lemma SalirSuspReadyBase(s: Sched, p: nat, aire: set<nat>, paso: Opcion<nat>, falta: Opcion<nat>)
    requires Base(s, aire, paso, falta) && p in s.l.suspReady
    ensures Base(s.(l := s.l.(suspReady := Quitar(s.l.suspReady, p))), aire + {p}, paso, falta) && p in s.pcbs
  {
    var t := s.(l := s.l.(suspReady := Quitar(s.l.suspReady, p)));
    EnTiene(s.l.suspReady, p);
    assert Todos(s.l, p) + Si(p in aire) == if p in s.pcbs then 1 else 0;
    forall q: nat ensures Todos(t.l, q) + Si(q in aire + {p}) == if q in t.pcbs then 1 else 0 {
      QuitarUno(s.l.suspReady, p, q);
      assert Todos(s.l, q) + Si(q in aire) == if q in s.pcbs then 1 else 0;
    }
  }

  /** The counters, the timers and the planner's position do not matter to `Base`. */
  lemma BaseIgual(s: Sched, t: Sched, aire: set<nat>, paso: Opcion<nat>, falta: Opcion<nat>)
    requires Base(s, aire, paso, falta)
    requires t.pol == s.pol && t.l == s.l && t.pcbs == s.pcbs && t.mutexes == s.mutexes && t.io == s.io && t.proximo == s.proximo
    ensures Base(t, aire, paso, falta)
  {
  }

  /** Neither in the air nor out of it: a set with the element added and removed. */
  lemma Ida(aire: set<nat>, p: nat)
    ensures p !in aire ==> aire + {p} - {p} == aire
  {
  }

  /** Who is in a list is not in the air. */
  lemma NoEnAire(s: Sched, aire: set<nat>, p: nat)
    requires Vivos(s, aire) && Todos(s.l, p) > 0
    ensures p !in aire && p in s.pcbs
  {
    assert Todos(s.l, p) + Si(p in aire) == if p in s.pcbs then 1 else 0;
  }

  lemma EnLista(l: Lugares, p: nat)
    ensures p in l.block || p in l.suspBlock || p in l.suspReady || Algo(p) in l.exec || NivelDe(l.colas, p).Algo? ==> Todos(l, p) > 0
  {
    EnTiene(l.block, p);
    EnTiene(l.suspBlock, p);
    EnTiene(l.suspReady, p);
    ExecTiene(l.exec, p);
    ReadyTiene(l.colas, p);
  }

  lemma DesuspenderBase(s: Sched, p: nat, aire: set<nat>, falta: Opcion<nat>)
    requires Base(s, aire, Nada, falta) && p in s.l.suspReady
    ensures Base(Desuspender(s, p, true), aire, Nada, falta)
    ensures Listos(Desuspender(s, p, true).l.colas) == Listos(s.l.colas) + 1
  {
    hide Vivos, Niveles, Esperas, Mutexes, Pids;
    EnLista(s.l, p);
    NoEnAire(s, aire, p);
    SalirSuspReadyBase(s, p, aire, Nada, falta);
    var t := s.(l := s.l.(suspReady := Quitar(s.l.suspReady, p)));
    ListoBase(t, p, aire + {p}, Nada, falta);
    Ida(aire, p);
    BaseIgual(Listo(t, p), ListoConAviso(t, p), aire, Nada, falta);
  }

  /** A wait that ended leaves every process in one place again. */
  lemma DespertarBase(s: Sched, p: nat, aire: set<nat>, falta: Opcion<nat>)
    requires Base(s, aire, Algo(p), falta) && (p in s.l.block || p in s.l.suspBlock)
    ensures Base(Despertar(s, p), aire, Nada, falta)
  {
    hide Vivos, Niveles, Esperas, Mutexes, Pids;
    EnLista(s.l, p);
    NoEnAire(s, aire, p);
    if p in s.l.block {
      SalirBlockBase(s, p, aire, falta);
      var t := s.(l := s.l.(block := Quitar(s.l.block, p)));
      ListoBase(t, p, aire + {p}, Nada, falta);
      Ida(aire, p);
      BaseIgual(Listo(t, p), ListoConAviso(t, p), aire, Nada, falta);
    } else {
      var t := s.(l := s.l.(suspBlock := Quitar(s.l.suspBlock, p), suspReady := InsertarPorPrio(s.pcbs, s.l.suspReady, p)));
      PasarBase(s, p, aire, falta, t);
      if p in s.bytes && s.bytes[p] == 0 {
        DesuspenderBase(t, p, aire, falta);
      }
    }
  }

  // ---------------------------------------------------------------- priorities and mutexes

  predicate EnRango(s: Sched, x: nat) { s.pol.cmn ==> x < s.pol.niveles }

  /** A priority changes while its process is in no ready queue. */
  lemma ConPrioBase(s: Sched, p: nat, x: nat, aire: set<nat>, paso: Opcion<nat>, falta: Opcion<nat>)
    requires Base(s, aire, paso, falta) && EnRango(s, x)
    requires s.pol.cmn ==> NivelDe(s.l.colas, p).Nada?
    ensures Base(s.(pcbs := ConPrio(s.pcbs, p, x)), aire, paso, falta)
  {
  }

  lemma PrioEnRango(s: Sched, p: nat)
    requires Niveles(s) && p in s.pcbs
    ensures EnRango(s, Prio(s.pcbs, p)) && EnRango(s, s.pcbs[p].original)
  {
  }

  /** Extract, change and insert again: nobody is lost and everybody is in the right queue. */
  lemma HeredarBase(s: Sched, p: nat, x: nat, aire: set<nat>, paso: Opcion<nat>, falta: Opcion<nat>)
    requires Base(s, aire, paso, falta) && EnRango(s, x)
    ensures Base(Heredar(s, p, x), aire, paso, falta)
    ensures Listos(Heredar(s, p, x).l.colas) == Listos(s.l.colas) && Heredar(s, p, x).l.exec == s.l.exec
  {
    hide Vivos, Niveles, Esperas, Mutexes, Pids;
    if Algo(p) in s.l.exec {
      QuienCorre(s, aire, p);
    }
    if EnCola(s, p) {
      EnLista(s.l, p);
      NoEnAire(s, aire, p);
      ExtraerBase(s, p, aire, paso, falta);
      var t := s.(l := Extraer(s.l, p));
      ConPrioBase(t, p, x, aire + {p}, paso, falta);
      ListoBase(t.(pcbs := ConPrio(s.pcbs, p, x)), p, aire + {p}, paso, falta);
      Ida(aire, p);
    } else {
      ConPrioBase(s, p, x, aire, paso, falta);
    }
  }

  lemma HeredarEnBase(s: Sched, d: nat, i: nat, aire: set<nat>, paso: Opcion<nat>, falta: Opcion<nat>)
    requires Base(s, aire, paso, falta) && i < |s.mutexes| && d in s.pcbs
    ensures var t := HeredarEn(s, d, i);
      && Base(t, aire, paso, falta) && t.mutexes == s.mutexes && t.pcbs.Keys == s.pcbs.Keys
      && Listos(t.l.colas) == Listos(s.l.colas) && t.l.exec == s.l.exec
  {
    hide Vivos, Niveles, Esperas, Mutexes, Pids;
    PrioEnRango(s, d);
    HeredarBase(s, s.mutexes[i].pid, Prio(s.pcbs, d), aire, paso, falta);
  }

  lemma {:induction false} HeredarOtrosBase(s: Sched, d: nat, i: nat, aire: set<nat>, paso: Opcion<nat>, falta: Opcion<nat>)
    requires Base(s, aire, paso, falta) && i <= |s.mutexes| && d in s.pcbs
    ensures var t := HeredarOtros(s, d, i);
      && Base(t, aire, paso, falta) && t.mutexes == s.mutexes && t.pcbs.Keys == s.pcbs.Keys
      && Listos(t.l.colas) == Listos(s.l.colas) && t.l.exec == s.l.exec
    decreases |s.mutexes| - i
  {
    hide Vivos, Niveles, Esperas, Mutexes, Pids, HeredarEn;
    if i < |s.mutexes| {
      HeredarEnBase(s, d, i, aire, paso, falta);
      HeredarOtrosBase(HeredarEn(s, d, i), d, i + 1, aire, paso, falta);
    }
  }

  lemma HeredarDuenoBase(s: Sched, d: nat, x: nat, falta: Opcion<nat>)
    requires Base(s, {}, Nada, falta) && EnRango(s, x) && d in s.pcbs
    ensures var t := HeredarDueno(s, d, x);
      && Base(t, {}, Nada, falta) && t.mutexes == s.mutexes && t.pcbs.Keys == s.pcbs.Keys
      && Listos(t.l.colas) == Listos(s.l.colas) && t.l.exec == s.l.exec
  {
    hide Vivos, Niveles, Esperas, Mutexes, Pids, HeredarOtros;
    if Algo(d) in s.l.exec {
      QuienCorre(s, {}, d);
    }
    if EnCola(s, d) {
      ExtraerBase(s, d, {}, Nada, falta);
      var t := s.(l := Extraer(s.l, d));
      var u := t.(pcbs := ConPrio(s.pcbs, d, x));
      ConPrioBase(t, d, x, {} + {d}, Nada, falta);
      HeredarOtrosBase(u, d, 0, {} + {d}, Nada, falta);
      ListoBase(HeredarOtros(u, d, 0), d, {} + {d}, Nada, falta);
      Ida({}, d);
    } else {
      var t := s.(pcbs := ConPrio(s.pcbs, d, x));
      ConPrioBase(s, d, x, {}, Nada, falta);
      HeredarOtrosBase(t, d, 0, {}, Nada, falta);
    }
  }

  /** The first waiter becomes the owner: its wait is over. */
  lemma PopBase(s: Sched, m: nat, aire: set<nat>, t: Sched)
    requires Base(s, aire, Nada, Nada) && m < |s.mutexes| && s.mutexes[m].cola != []
    requires var mx := s.mutexes[m];
      t == s.(mutexes := s.mutexes[m := mx.(pid := mx.cola[0], contador := mx.contador + 1, cola := mx.cola[1..])])
    ensures Base(t, aire, Algo(s.mutexes[m].cola[0]), Nada)
    ensures s.mutexes[m].cola[0] in s.l.block || s.mutexes[m].cola[0] in s.l.suspBlock
    ensures s.mutexes[m].cola[0] in s.pcbs && s.mutexes[m].cola[0] !in aire
    ensures s.mutexes[m].cola[0] != s.mutexes[m].pid
  {
    var mx := s.mutexes[m];
    var sig := mx.cola[0];
    assert MutexOk(s.pcbs, mx);
    forall q: nat ensures En(t.l.block, q) + En(t.l.suspBlock, q) + Uno(Nada, q) == EnColas(t.mutexes, q) + Si(q in t.io) + Uno(Algo(sig), q) {
      ColasCambia(s.mutexes, m, t.mutexes[m], q);
      assert En(s.l.block, q) + En(s.l.suspBlock, q) + Uno(Nada, q) == EnColas(s.mutexes, q) + Si(q in s.io) + Uno(Nada, q);
    }
    EsperaUna(s, aire, Nada, Nada, sig);
    ColasTiene(s.mutexes, m, sig);
    EnTiene(mx.cola[1..], sig);
    EnTiene(s.l.block, sig);
    EnTiene(s.l.suspBlock, sig);
    assert En(s.l.block, sig) + En(s.l.suspBlock, sig) + Uno(Nada, sig) == EnColas(s.mutexes, sig) + Si(sig in s.io) + Uno(Nada, sig);
    EnLista(s.l, sig);
    NoEnAire(s, aire, sig);
    forall i | 0 <= i < |t.mutexes| ensures MutexOk(t.pcbs, t.mutexes[i]) {
      assert MutexOk(s.pcbs, s.mutexes[i]);
    }
  }

  lemma {:induction false} MinColaRango(pcbs: map<nat, Pcb>, cola: seq<nat>, x: nat)
    ensures MinCola(pcbs, cola, x) <= x
    ensures forall k :: 0 <= k < |cola| ==> MinCola(pcbs, cola, x) <= Prio(pcbs, cola[k])
    ensures MinCola(pcbs, cola, x) == x || exists k :: 0 <= k < |cola| && MinCola(pcbs, cola, x) == Prio(pcbs, cola[k])
  {
    if cola != [] {
      var y := if Prio(pcbs, cola[0]) < x then Prio(pcbs, cola[0]) else x;
      MinColaRango(pcbs, cola[1..], y);
      assert forall k :: 0 < k < |cola| ==> cola[k] == cola[1..][k - 1];
      if MinCola(pcbs, cola[1..], y) != y {
        var k :| 0 <= k < |cola| - 1 && MinCola(pcbs, cola[1..], y) == Prio(pcbs, cola[1..][k]);
        assert cola[1..][k] == cola[k + 1];
      }
    }
  }

  /** Hand-off, on unlock and on death alike. */
  lemma EntregarBase(s: Sched, m: nat, aire: set<nat>)
    requires Base(s, aire, Nada, Nada) && m < |s.mutexes| && s.mutexes[m].cola != []
    ensures Base(Entregar(s, m), aire, Nada, Nada)
  {
    hide Vivos, Niveles, Esperas, Mutexes, Pids, Despertar, MinCola;
    var mx := s.mutexes[m];
    var sig := mx.cola[0];
    var x := MinCola(s.pcbs, mx.cola[1..], Prio(s.pcbs, sig));
    var t := s.(mutexes := s.mutexes[m := mx.(pid := sig, contador := mx.contador + 1, cola := mx.cola[1..])]);
    PopBase(s, m, aire, t);
    MinColaRango(s.pcbs, mx.cola[1..], Prio(s.pcbs, sig));
    PrioEnRango(s, sig);
    NoEnReady(s, aire, sig);
    ConPrioBase(t, sig, x, aire, Algo(sig), Nada);
    DespertarBase(t.(pcbs := ConPrio(s.pcbs, sig, x)), sig, aire, Nada);
  }

  /** Who is blocked is not ready, nor running. */
  lemma NoEnReady(s: Sched, aire: set<nat>, p: nat)
    requires Vivos(s, aire) && (p in s.l.block || p in s.l.suspBlock)
    ensures NivelDe(s.l.colas, p).Nada? && Algo(p) !in s.l.exec && s.l.mano != Algo(p)
  {
    EnTiene(s.l.block, p);
    EnTiene(s.l.suspBlock, p);
    ReadyTiene(s.l.colas, p);
    ExecTiene(s.l.exec, p);
    assert Todos(s.l, p) + Si(p in aire) == if p in s.pcbs then 1 else 0;
  }

  /** Who runs is neither ready nor blocked. */
  lemma QuienCorre(s: Sched, aire: set<nat>, p: nat)
    requires Vivos(s, aire) && Algo(p) in s.l.exec
    ensures p in s.pcbs && p !in aire && NivelDe(s.l.colas, p).Nada? && p !in s.l.block && p !in s.l.suspBlock && s.l.mano != Algo(p)
  {
    EnTiene(s.l.block, p);
    EnTiene(s.l.suspBlock, p);
    ReadyTiene(s.l.colas, p);
    ExecTiene(s.l.exec, p);
    assert Todos(s.l, p) + Si(p in aire) == if p in s.pcbs then 1 else 0;
  }

  /** `bloquear_proceso`, for a running process that is queued or asked for an I/O. */
  lemma BloquearBase(s: Sched, p: nat)
    requires Base(s, {}, Nada, Algo(p)) && Algo(p) in s.l.exec
    ensures Inv(Bloquear(s, p)) && p in s.pcbs
    ensures Ociosas(Bloquear(s, p).l.exec) == Ociosas(s.l.exec) + 1 && Bloquear(s, p).l.colas == s.l.colas
  {
    hide Vivos, Niveles, Esperas, Mutexes, Pids;
    var i := CpuCon(s.l.exec, p).valor;
    SoltarBase(s, i, p, {}, Nada, Algo(p));
    var t := s.(l := Soltar(s.l, i));
    var u := t.(l := t.l.(block := t.l.block + [p]));
    EntrarBlockBase(t, u, p, {} + {p});
    Ida({}, p);
    TokenBase(u, Bloquear(s, p), p, u.pcbs[p].token + 1);
  }

  lemma TokenBase(u: Sched, t: Sched, p: nat, token: nat)
    requires Inv(u) && p in u.pcbs && t.pcbs == u.pcbs[p := u.pcbs[p].(token := token)]
    requires t.pol == u.pol && t.l == u.l && t.mutexes == u.mutexes && t.io == u.io && t.proximo == u.proximo
    ensures Inv(t)
  {
  }

  /** MUTEX_LOCK on a mutex somebody else has. */
  lemma PushBase(s: Sched, p: nat, m: nat, t: Sched)
    requires Inv(s) && m < |s.mutexes| && s.mutexes[m].contador < 1 && s.mutexes[m].pid != p && Algo(p) in s.l.exec
    requires var mx := s.mutexes[m];
      t == s.(mutexes := s.mutexes[m := mx.(contador := mx.contador - 1, cola := mx.cola + [p])])
    ensures Base(t, {}, Nada, Algo(p))
  {
    var mx := s.mutexes[m];
    assert MutexOk(s.pcbs, mx);
    forall q: nat ensures En(t.l.block, q) + En(t.l.suspBlock, q) + Uno(Algo(p), q) == EnColas(t.mutexes, q) + Si(q in t.io) + Uno(Nada, q) {
      ColasCambia(s.mutexes, m, t.mutexes[m], q);
      EnConcat(mx.cola, [p], q);
      assert En(s.l.block, q) + En(s.l.suspBlock, q) + Uno(Nada, q) == EnColas(s.mutexes, q) + Si(q in s.io) + Uno(Nada, q);
    }
    forall i | 0 <= i < |t.mutexes| ensures MutexOk(t.pcbs, t.mutexes[i]) {
      assert MutexOk(s.pcbs, s.mutexes[i]);
    }
  }

  /** A signal touches the planner's position and its tokens only. */
  lemma SenalIgual(s: Sched)
    ensures var t := Senal(s);
      && t == s.(semReady := t.semReady, plan := t.plan)
      && DespertarPlan(s) == s.(semReady := DespertarPlan(s).semReady, plan := DespertarPlan(s).plan)
  {
  }

  /** The last steps of MUTEX_LOCK: block, and free the CPU. */
  lemma BloquearLiberaBase(u: Sched, p: nat)
    requires Base(u, {}, Nada, Algo(p)) && Algo(p) in u.l.exec
    ensures Inv(LiberarCpu(Bloquear(u, p)))
    ensures Listos(LiberarCpu(Bloquear(u, p)).l.colas) == Listos(u.l.colas)
    ensures Ociosas(LiberarCpu(Bloquear(u, p)).l.exec) == Ociosas(u.l.exec) + 1
  {
    hide Vivos, Niveles, Esperas, Mutexes, Pids, Bloquear, Senal, Listos, Ociosas;
    BloquearBase(u, p);
    var t := Bloquear(u, p);
    SenalIgual(t.(semCpu := t.semCpu + 1));
    BaseIgual(t, LiberarCpu(t), {}, Nada, Nada);
  }

  /** The owner inherits, and the planner is told. */
  lemma HeredarAvisoBase(t: Sched, d: nat, x: nat, p: nat)
    requires Base(t, {}, Nada, Algo(p)) && EnRango(t, x) && d in t.pcbs && Algo(p) in t.l.exec
    ensures var u := DespertarPlan(HeredarDueno(t, d, x));
      Base(u, {}, Nada, Algo(p)) && Algo(p) in u.l.exec
      && Listos(u.l.colas) == Listos(t.l.colas) && Ociosas(u.l.exec) == Ociosas(t.l.exec)
  {
    hide Vivos, Niveles, Esperas, Mutexes, Pids, HeredarDueno, Senal, Listos, Ociosas;
    HeredarDuenoBase(t, d, x, Algo(p));
    var u := HeredarDueno(t, d, x);
    SenalIgual(u);
    BaseIgual(u, DespertarPlan(u), {}, Nada, Algo(p));
  }

  lemma EsperarMutexBase(s: Sched, p: nat, m: nat)
    requires Inv(s) && m < |s.mutexes| && s.mutexes[m].contador < 1 && s.mutexes[m].pid != p && Algo(p) in s.l.exec
    ensures Inv(EsperarMutex(s, p, m))
    ensures Listos(EsperarMutex(s, p, m).l.colas) == Listos(s.l.colas)
    ensures Ociosas(EsperarMutex(s, p, m).l.exec) == Ociosas(s.l.exec) + 1
  {
    hide Vivos, Niveles, Esperas, Pids, Bloquear, HeredarDueno, Senal, Listos, Ociosas, Ubicado, LiberarCpu, DespertarPlan;
    var mx := s.mutexes[m];
    var x := Prio(s.pcbs, p);
    assert MutexOk(s.pcbs, mx);
    var t := s.(mutexes := s.mutexes[m := mx.(contador := mx.contador - 1, cola := mx.cola + [p])]);
    PushBase(s, p, m, t);
    QuienCorre(s, {}, p);
    PrioEnRango(s, p);
    HeredarAvisoBase(t, mx.pid, x, p);
    var u := if Ubicado(s.l, mx.pid) && x < Prio(s.pcbs, mx.pid) then DespertarPlan(HeredarDueno(t, mx.pid, x)) else t;
    BloquearLiberaBase(u, p);
  }

  lemma TomarMutexBase(s: Sched, p: nat, m: nat)
    requires Inv(s) && m < |s.mutexes| && s.mutexes[m].contador == 1 && p in s.pcbs
    ensures Inv(TomarMutex(s, p, m))
  {
    var t := TomarMutex(s, p, m);
    assert MutexOk(s.pcbs, s.mutexes[m]);
    forall q: nat ensures EnColas(t.mutexes, q) == EnColas(s.mutexes, q) {
      ColasCambia(s.mutexes, m, t.mutexes[m], q);
    }
    forall i | 0 <= i < |t.mutexes| ensures MutexOk(t.pcbs, t.mutexes[i]) {
      assert MutexOk(s.pcbs, s.mutexes[i]);
    }
  }

  /** A mutex that nobody waits for becomes free. */
  lemma SoltarMutexBase(s: Sched, m: nat, pid: nat, aire: set<nat>)
    requires Base(s, aire, Nada, Nada) && m < |s.mutexes| && s.mutexes[m].contador == 0
    ensures Base(s.(mutexes := s.mutexes[m := s.mutexes[m].(contador := 1, pid := pid)]), aire, Nada, Nada)
  {
    var t := s.(mutexes := s.mutexes[m := s.mutexes[m].(contador := 1, pid := pid)]);
    assert MutexOk(s.pcbs, s.mutexes[m]);
    forall q: nat ensures EnColas(t.mutexes, q) == EnColas(s.mutexes, q) {
      ColasCambia(s.mutexes, m, t.mutexes[m], q);
    }
    forall i | 0 <= i < |t.mutexes| ensures MutexOk(t.pcbs, t.mutexes[i]) {
      assert MutexOk(s.pcbs, s.mutexes[i]);
    }
  }
}
