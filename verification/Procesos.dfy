/** Where the scheduler keeps its PCBs: the CPUs, the ready queues, the block list and the two
    suspended lists (kernel_scheduler/src/utils_scheduler.c).  A PCB is named by its pid; the
    record it points to is in a map, so what changes through one list is seen from all. */
module Procesos {
  import opened Secuencias

  /** `t_pcb`; a smaller number is a better priority. */
  datatype Pcb = Pcb(prioridad: nat, original: nat, token: nat)

  /** `exec_lista`, the ready queues (one when the algorithm is not CMN), `block_lista`,
      `susp_block`, `susp_ready`, and the PCB the planner took out of its queue and holds while
      it waits for the CPU of its victim. */
  datatype Lugares = Lugares(
    exec: seq<Opcion<nat>>,
    colas: seq<seq<nat>>,
    block: seq<nat>,
    suspBlock: seq<nat>,
    suspReady: seq<nat>,
    mano: Opcion<nat>)

  // ---------------------------------------------------------------- counting the places

  function Uno(x: Opcion<nat>, p: nat): nat { if x == Algo(p) then 1 else 0 }

  /** How many times `p` is in a list. */
  function En(xs: seq<nat>, p: nat): nat
  {
    if xs == [] then 0 else (if xs[0] == p then 1 else 0) + En(xs[1..], p)
  }

  function EnExec(exec: seq<Opcion<nat>>, p: nat): nat
  {
    if exec == [] then 0 else Uno(exec[0], p) + EnExec(exec[1..], p)
  }

  function EnReady(colas: seq<seq<nat>>, p: nat): nat
  {
    if colas == [] then 0 else En(colas[0], p) + EnReady(colas[1..], p)
  }

  /** How many times `p` appears over all the places. */
  function Todos(l: Lugares, p: nat): nat
  {
    EnExec(l.exec, p) + EnReady(l.colas, p) + En(l.block, p) + En(l.suspBlock, p) + En(l.suspReady, p) + Uno(l.mano, p)
  }

  /** Number of PCBs in the ready queues. */
  function Listos(colas: seq<seq<nat>>): nat
  {
    if colas == [] then 0 else |colas[0]| + Listos(colas[1..])
  }

  lemma {:induction false} EnConcat(x: seq<nat>, y: seq<nat>, p: nat)
    ensures En(x + y, p) == En(x, p) + En(y, p)
  {
    if x == [] {
      assert x + y == y;
    } else {
      assert (x + y)[1..] == x[1..] + y;
      EnConcat(x[1..], y, p);
    }
  }

  lemma {:induction false} EnTiene(xs: seq<nat>, p: nat)
    ensures En(xs, p) > 0 <==> p in xs
  {
    if xs != [] {
      EnTiene(xs[1..], p);
      assert xs == [xs[0]] + xs[1..];
    }
  }

  lemma {:induction false} ExecCambia(exec: seq<Opcion<nat>>, i: nat, x: Opcion<nat>, p: nat)
    requires i < |exec|
    ensures EnExec(exec[i := x], p) + Uno(exec[i], p) == EnExec(exec, p) + Uno(x, p)
    ensures Ociosas(exec[i := x]) + (if exec[i].Nada? then 1 else 0) == Ociosas(exec) + (if x.Nada? then 1 else 0)
  {
    if i > 0 {
      assert exec[i := x][1..] == exec[1..][i - 1 := x];
      ExecCambia(exec[1..], i - 1, x, p);
    } else {
      assert exec[0 := x][1..] == exec[1..];
    }
  }

  lemma {:induction false} ExecConcat(x: seq<Opcion<nat>>, y: seq<Opcion<nat>>, p: nat)
    ensures EnExec(x + y, p) == EnExec(x, p) + EnExec(y, p)
    ensures Ociosas(x + y) == Ociosas(x) + Ociosas(y)
  {
    if x == [] {
      assert x + y == y;
    } else {
      assert (x + y)[1..] == x[1..] + y;
      ExecConcat(x[1..], y, p);
    }
  }

  lemma {:induction false} ExecTiene(exec: seq<Opcion<nat>>, p: nat)
    ensures EnExec(exec, p) > 0 <==> Algo(p) in exec
  {
    if exec != [] {
      ExecTiene(exec[1..], p);
      assert exec == [exec[0]] + exec[1..];
    }
  }

  lemma {:induction false} ReadyCambia(colas: seq<seq<nat>>, i: nat, c: seq<nat>, p: nat)
    requires i < |colas|
    ensures EnReady(colas[i := c], p) + En(colas[i], p) == EnReady(colas, p) + En(c, p)
    ensures Listos(colas[i := c]) + |colas[i]| == Listos(colas) + |c|
  {
    if i > 0 {
      assert colas[i := c][1..] == colas[1..][i - 1 := c];
      ReadyCambia(colas[1..], i - 1, c, p);
    } else {
      assert colas[0 := c][1..] == colas[1..];
    }
  }

  lemma {:induction false} ReadyTiene(colas: seq<seq<nat>>, p: nat)
    ensures EnReady(colas, p) > 0 <==> NivelDe(colas, p).Algo?
  {
    if colas != [] {
      ReadyTiene(colas[1..], p);
      EnTiene(colas[0], p);
    }
  }

  // ---------------------------------------------------------------- searching and removing

  /** The first `p` of a list is removed. */
  function Quitar(xs: seq<nat>, p: nat): seq<nat>
  {
    if xs == [] then [] else if xs[0] == p then xs[1..] else [xs[0]] + Quitar(xs[1..], p)
  }

  lemma {:induction false} QuitarUno(xs: seq<nat>, p: nat, q: nat)
    ensures En(Quitar(xs, p), q) == En(xs, q) - (if p == q && p in xs then 1 else 0)
    ensures |Quitar(xs, p)| == |xs| - (if p in xs then 1 else 0)
  {
    if xs != [] {
      assert xs == [xs[0]] + xs[1..];
      QuitarUno(xs[1..], p, q);
      EnTiene(xs, p);
      assert ([xs[0]] + Quitar(xs[1..], p))[1..] == Quitar(xs[1..], p);
    }
  }

  lemma {:induction false} QuitadoEstaba(xs: seq<nat>, p: nat, q: nat)
    ensures q in Quitar(xs, p) ==> q in xs
  {
    if xs != [] && xs[0] != p {
      QuitadoEstaba(xs[1..], p, q);
    }
  }

  lemma {:induction false} QuitarEnLugar(xs: seq<nat>, i: nat, p: nat)
    requires i < |xs| && xs[i] == p && forall k :: 0 <= k < i ==> xs[k] != p
    ensures Quitar(xs, p) == xs[..i] + xs[i + 1..]
  {
    if i > 0 {
      QuitarEnLugar(xs[1..], i - 1, p);
      assert xs[..i] + xs[i + 1..] == [xs[0]] + (xs[1..][..i - 1] + xs[1..][i..]);
    }
  }

  /** `encontrar_cpu_con_pid` */
  function CpuCon(exec: seq<Opcion<nat>>, p: nat): (r: Opcion<nat>)
    ensures r.Algo? ==> r.valor < |exec| && exec[r.valor] == Algo(p)
    ensures r.Nada? <==> Algo(p) !in exec
  {
    if exec == [] then Nada
    else if exec[0] == Algo(p) then Algo(0)
    else match CpuCon(exec[1..], p)
         case Nada => assert exec == [exec[0]] + exec[1..]; Nada
         case Algo(i) => assert exec[1..][i] == exec[i + 1]; Algo(i + 1)
  }

  /** `obtener_cpu_libre` */
  function CpuLibre(exec: seq<Opcion<nat>>): (r: Opcion<nat>)
    ensures r.Algo? ==> r.valor < |exec| && exec[r.valor].Nada?
    ensures r.Nada? <==> Ociosas(exec) == 0
  {
    if exec == [] then Nada
    else if exec[0].Nada? then Algo(0)
    else match CpuLibre(exec[1..])
         case Nada => Nada
         case Algo(i) => assert exec[1..][i] == exec[i + 1]; Algo(i + 1)
  }

  function Ociosas(exec: seq<Opcion<nat>>): (n: nat)
    ensures n <= |exec|
  {
    if exec == [] then 0 else (if exec[0].Nada? then 1 else 0) + Ociosas(exec[1..])
  }

  /** The best non-empty level. */
  function PrimerNivel(colas: seq<seq<nat>>): (r: Opcion<nat>)
    ensures r.Algo? ==> r.valor < |colas| && colas[r.valor] != [] && forall k :: 0 <= k < r.valor ==> colas[k] == []
    ensures r.Nada? ==> forall k :: 0 <= k < |colas| ==> colas[k] == []
  {
    if colas == [] then Nada
    else if colas[0] != [] then Algo(0)
    else match PrimerNivel(colas[1..])
         case Nada => assert forall k :: 0 < k < |colas| ==> colas[k] == colas[1..][k - 1]; Nada
         case Algo(i) =>
           assert colas[1..][i] == colas[i + 1];
           assert forall k :: 0 < k < i + 1 ==> colas[k] == colas[1..][k - 1];
           Algo(i + 1)
  }

  lemma {:induction false} ReadyVacio(colas: seq<seq<nat>>)
    ensures Listos(colas) == 0 <==> PrimerNivel(colas).Nada?
  {
    if colas != [] {
      ReadyVacio(colas[1..]);
    }
  }

  /** The level a pid is queued at. */
  function NivelDe(colas: seq<seq<nat>>, p: nat): (r: Opcion<nat>)
    ensures r.Algo? ==> r.valor < |colas| && p in colas[r.valor]
    ensures r.Nada? <==> forall k :: 0 <= k < |colas| ==> p !in colas[k]
  {
    if colas == [] then Nada
    else if p in colas[0] then Algo(0)
    else match NivelDe(colas[1..], p)
         case Nada => assert forall k :: 0 < k < |colas| ==> colas[k] == colas[1..][k - 1]; Nada
         case Algo(i) => assert colas[1..][i] == colas[i + 1]; Algo(i + 1)
  }

  lemma {:induction false} CpuLibrePrimera(exec: seq<Opcion<nat>>, i: nat)
    requires i < |exec| && exec[i].Nada? && forall k :: 0 <= k < i ==> exec[k].Algo?
    ensures CpuLibre(exec) == Algo(i)
  {
    if i > 0 { CpuLibrePrimera(exec[1..], i - 1); }
  }

  lemma {:induction false} NivelNoVacio(colas: seq<seq<nat>>, i: nat)
    requires i < |colas| && colas[i] != [] && forall k :: 0 <= k < i ==> colas[k] == []
    ensures PrimerNivel(colas) == Algo(i)
  {
    if i > 0 { NivelNoVacio(colas[1..], i - 1); }
  }

  lemma {:induction false} CpuConPrimera(exec: seq<Opcion<nat>>, p: nat, i: nat)
    requires i < |exec| && exec[i] == Algo(p) && forall k :: 0 <= k < i ==> exec[k] != Algo(p)
    ensures CpuCon(exec, p) == Algo(i)
  {
    if i > 0 { CpuConPrimera(exec[1..], p, i - 1); }
  }

  // ---------------------------------------------------------------- moving a PCB

  /** `encolar_pcb_ready`, at the tail of level `n`. */
  function Encolar(l: Lugares, n: nat, p: nat): (r: Lugares)
  {
    if n < |l.colas| then l.(colas := l.colas[n := l.colas[n] + [p]]) else l
  }

  /** `enlistar_primero_ready`, at the head of level `n`. */
  function EncolarPrimero(l: Lugares, n: nat, p: nat): Lugares
  {
    if n < |l.colas| then l.(colas := l.colas[n := [p] + l.colas[n]]) else l
  }

  /** A PCB leaves the ready queue it is in. */
  function Extraer(l: Lugares, p: nat): Lugares
  {
    match NivelDe(l.colas, p)
    case Nada => l
    case Algo(n) => l.(colas := l.colas[n := Quitar(l.colas[n], p)])
  }

  function Soltar(l: Lugares, i: nat): Lugares
    requires i < |l.exec|
  {
    l.(exec := l.exec[i := Nada])
  }

  lemma EncolarTodos(l: Lugares, n: nat, p: nat, q: nat)
    requires n < |l.colas|
    ensures Todos(Encolar(l, n, p), q) == Todos(l, q) + (if p == q then 1 else 0)
    ensures Listos(Encolar(l, n, p).colas) == Listos(l.colas) + 1
  {
    ReadyCambia(l.colas, n, l.colas[n] + [p], q);
    EnConcat(l.colas[n], [p], q);
  }

  lemma EncolarPrimeroTodos(l: Lugares, n: nat, p: nat, q: nat)
    requires n < |l.colas|
    ensures Todos(EncolarPrimero(l, n, p), q) == Todos(l, q) + (if p == q then 1 else 0)
    ensures Listos(EncolarPrimero(l, n, p).colas) == Listos(l.colas) + 1
  {
    ReadyCambia(l.colas, n, [p] + l.colas[n], q);
    EnConcat([p], l.colas[n], q);
  }

  lemma ExtraerTodos(l: Lugares, p: nat, q: nat)
    requires NivelDe(l.colas, p).Algo?
    ensures Todos(l, q) == Todos(Extraer(l, p), q) + (if p == q then 1 else 0)
    ensures Listos(l.colas) == Listos(Extraer(l, p).colas) + 1
    ensures |Extraer(l, p).colas| == |l.colas|
  {
    var n := NivelDe(l.colas, p).valor;
    ReadyCambia(l.colas, n, Quitar(l.colas[n], p), q);
    QuitarUno(l.colas[n], p, q);
    EnTiene(l.colas[n], p);
  }

  lemma SoltarTodos(l: Lugares, i: nat, p: nat, q: nat)
    requires i < |l.exec| && l.exec[i] == Algo(p)
    ensures Todos(l, q) == Todos(Soltar(l, i), q) + (if p == q then 1 else 0)
    ensures Ociosas(Soltar(l, i).exec) == Ociosas(l.exec) + 1
  {
    ExecCambia(l.exec, i, Nada, q);
  }
}
