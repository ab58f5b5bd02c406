/** What the scheduler does when the memory refuses: four branches of
    kernel_scheduler/src/scheduler.c and utils_scheduler.c that drop or strand a process.  Each
    one keeps the scheduler consistent exactly under a condition on the state before it. */
module Fallos {
  import opened Secuencias
  import opened Procesos
  import opened Planificador
  import opened Conservacion
  import opened Acciones

  /** A STDIN whose text the memory does not take loses its process: it is still counted as alive
      and it is in no place.  Not so if the process was already suspended. */
  lemma {:induction false} FalloIO(s: Sched, p: nat, ok: bool)
    requires Inv(s) && p in s.io
    ensures Inv(TerminarIO(s, p, ok)) <==> ok || s.io[p] != Stdin || p !in s.l.block
  {
    if ok || s.io[p] != Stdin || p !in s.l.block {
      TerminarIOPaso(s, p, ok);
    } else {
      var t := TerminarIO(s, p, ok);
      QuitarUno(s.l.block, p, p);
      EnTiene(s.l.block, p);
      assert Todos(s.l, p) + Si(p in {}) == if p in s.pcbs then 1 else 0;
      assert Todos(t.l, p) + Si(p in {}) != if p in t.pcbs then 1 else 0;
    }
  }

  /** A STDOUT whose text cannot be read leaves its process blocked and waiting for nothing. */
  lemma {:induction false} FalloStdout(s: Sched, p: nat, tipo: TipoIO, ok: bool)
    requires Inv(s)
    ensures Inv(PedirIO(s, p, tipo, ok)) <==> ok || tipo != Stdout || Algo(p) !in s.l.exec
  {
    if ok || tipo != Stdout || Algo(p) !in s.l.exec {
      IOPaso(s, p, tipo, ok);
    } else {
      QuienCorre(s, {}, p);
      hide Inv, LiberarCpu, Bloquear, PedirIO;
      SeBloquea(s, p);
      BloqueadoEspera(s, p, PedirIO(s, p, tipo, ok));
    }
  }

  lemma SeBloquea(s: Sched, p: nat)
    requires Algo(p) in s.l.exec
    ensures var t := PedirIO(s, p, Stdout, false);
      t.l.block == s.l.block + [p] && t.l.suspBlock == s.l.suspBlock && t.mutexes == s.mutexes && t.io == s.io
  {
  }

  /** One more in the block list, and no wait for it. */
  lemma BloqueadoEspera(s: Sched, p: nat, t: Sched)
    requires Inv(s) && p !in s.l.block && p !in s.l.suspBlock
    requires t.l.block == s.l.block + [p] && t.l.suspBlock == s.l.suspBlock && t.mutexes == s.mutexes && t.io == s.io
    ensures !Inv(t)
  {
    EnTiene(s.l.block, p);
    EnConcat(s.l.block, [p], p);
    assert En(s.l.block, p) + En(s.l.suspBlock, p) + Uno(Nada, p) == EnColas(s.mutexes, p) + Si(p in s.io) + Uno(Nada, p);
    assert En(t.l.block, p) + En(t.l.suspBlock, p) + Uno(Nada, p) != EnColas(t.mutexes, p) + Si(p in t.io) + Uno(Nada, p);
  }

  /** A swap-out that is refused frees the PCB and lists it as suspended all the same. */
  lemma {:induction false} FalloSuspender(s: Sched, p: nat, token: nat, bytes: nat, ok: bool)
    requires Inv(s)
    ensures Inv(VenceTimer(s, p, token, bytes, ok)) <==> ok || !Vence(s, p, token)
  {
    if ok || !Vence(s, p, token) {
      TimerOkPaso(s, p, token, bytes, ok);
    } else {
      var t := VenceTimer(s, p, token, bytes, ok);
      EnTiene(t.l.suspBlock, p);
      assert p !in t.pcbs && t.l.suspBlock[|s.l.suspBlock|] == p;
      assert Todos(t.l, p) + Si(p in {}) != if p in t.pcbs then 1 else 0;
    }
  }

  /** A swap-in that is refused loses the process that was announced. */
  lemma {:induction false} FalloDesuspender(s: Sched, lista: set<nat>, ok: bool)
    requires Inv(s)
    ensures Inv(Recorrer(s, lista, ok)) <==> ok || forall k :: 0 <= k < |s.l.suspReady| ==> s.l.suspReady[k] !in lista
  {
    ElegidoEsta(s.l.suspReady, lista);
    var r := Elegido(s.l.suspReady, lista);
    if ok || r.Nada? {
      RecorrerOkPaso(s, lista, ok);
    } else {
      var t := Recorrer(s, lista, ok);
      QuitarUno(s.l.suspReady, r.valor, r.valor);
      EnTiene(s.l.suspReady, r.valor);
      assert Todos(s.l, r.valor) + Si(r.valor in {}) == if r.valor in s.pcbs then 1 else 0;
      assert Todos(t.l, r.valor) + Si(r.valor in {}) != if r.valor in t.pcbs then 1 else 0;
    }
  }
}
