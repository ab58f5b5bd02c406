# Kernel memory and kernel scheduler: a verified model

The system is a small operating system made of processes that talk over sockets: a kernel
scheduler, a kernel memory module, memory sticks that hold the bytes, a swap process, and CPUs.
This project models its two state machines, the memory layer below them and the messages
between them, and proves what they promise, over every run where the promise is about runs.

Names of entities and operations are the ones of the C sources (`huecos`, `segmento`, `susp_ready`,
`desuspender_proceso`, ...). Two forms of each operation stand side by side:

- a function on values (`Asignador.Crear`, `Suspension.Suspender`, `Planificador.Lock`, ...), about
  which the theorems are proved;
- a method with the loops and the updates of the C code, in a class with the C module's variables
  as fields (`Fisica.MemoriaFisica`, `KernelMemory.KernelMemory`, `Cpu.Procesador`,
  `Scheduler.Scheduler`, `Wire.Buffer`), whose postcondition equates the new abstract state and the
  answer with that function of the old state.

| Part | Files |
|---|---|
| Free list and fit policies | Rangos |
| Sticks, pieces, address translation | Mmu, Fisica |
| Allocator, compaction, swap, dry run, runs of requests | Memoria, Asignador, Compactacion, Swap, Suspension, Desuspension, Corridas, Reintento |
| Which hole, which block, and the table of processes after each request | Colocacion |
| The kernel memory object | KernelMemory |
| MOV_IN, MOV_OUT, COPY_MEM | Numeros, Cpu |
| Scheduler steps and what they keep | Procesos, Planificador, Conservacion, Acciones |
| Where each process is after any step, what is written, and at which end of which queue | Ciclo, Registro, Efectos |
| The planner's wake-ups and dispatches | Marcha |
| Semaphores and refusals of the memory | Semaforos, Fallos |
| Priority inheritance | Herencia, Garantias, Cadena |
| Preemption, turns, hand-offs, timers | Expropiacion, Turnos, Cesiones, Episodios |
| The kernel scheduler object | Scheduler |
| Runs that show where a condition fails | Casos (memory), Trazas, Testigos, Cadena (scheduler) |
| Wire format | Wire |

The state of the memory module is consistent (`Memoria.Inv`) when resident segments and holes tile
`[0, memoria_total_size)`, the hole list is canonical, `memoria_libre_size` is its size, and the swap
table describes exactly the segments of the processes in swap. `Memoria.Contenido` gives the bytes a
process sees in a segment, wherever they are kept; most results say that it does not change.
The state of the scheduler is consistent (`Conservacion.Inv`) when every live pid is in exactly one
place, each queue holds its own priority, every blocked process waits for exactly one thing, and
every mutex counts its waiters.

The two objects have a method `Atender` that serves any request of module Corridas, or any step of
module Acciones, by their other methods, so what is proved of runs holds of the objects.

What the functions compute is also stated without naming them, from the state before the step: where
every process is after any step of the scheduler (`PasoFase`), on which CPU (`PasoCpus`), what is written
(`PasoEscrito`), who owns every mutex (`PasoCede`), where the planner is (`PasoPlanificador`) and, for each
kind of step, at which end of which queue a process goes and which tokens are posted (module Efectos);
and, for the memory, what any request does to the table of processes (`AtenderFicha`) and where each
segment and block is put (module Colocacion).

Where the code does not meet a property in general, the project says exactly when it does, as an
equivalence; for a single call or step its condition can be checked before it, and for a run it is
counted over its steps.  Each comes with a run from the start, or an input, that fails it:

- a failed `suspender_proceso` or `desuspender_proceso` keeps the module consistent iff it failed on
  the first segment (`SuspenderFalla`, `DesuspenderFalla`; `SaleAMedias`, `VuelveAMedias`);
- `eliminar_segmento` needs the process not to be in swap (`EliminarSoloResidente`; `BorraEnSwap`);
- the retry after a compaction is granted iff the size is not 0 (`ReintentoTrasCompactar`; `CeroBytes`),
  when no other request comes in between; with one of `otro` bytes, iff both fit (`ReintentoRobado`;
  `LugarRobado`);
- `id * segment_max_size` names the segment iff it does not wrap (`DireccionDeSegmento`; `OtroSegmento`);
- MUTEX_LOCK keeps priorities exact iff the chain of owners is short enough (`LockExacta`, `PasoExacta`;
  `CadenaRota`);
- there is one token per ready process after a step iff the step does not wake the planner up from
  its sleep during a compaction, with preemption (`CuentaReadyExacta`; `SobraFicha`);
- the idle-CPU semaphore is right after a step iff it is not one of five (`CuentaCpuExacta`;
  `FichaDeNadie`); after a whole compaction, whatever happens in between, iff the tokens it drained,
  the caller's CPU and what the steps in between add are as many as the CPUs that were busy when it
  began (`CompactacionSaldo`, `CompactacionSola`; `SobraFichaCpu`);
- tokens do not come to exceed the idle CPUs, so that the planner finds one, iff a step is not one of
  two (`SobraExacta`, `PlanificadorSeguro`; `SobraFichaCpu`);
- a step respects the turns of the ready queues iff it is neither an eviction by compaction into a
  queue that is not empty nor a dispatch with no idle CPU from a queue of more than one (`PasoTurno`;
  `FueraDeTurno`);
- a sleeping planner has nothing better to dispatch after a step iff it is not one of four
  (`TranquilaExacta`; `SuenoLargo`);
- each of four refusals of the memory keeps the scheduler consistent iff the process was not where
  the branch takes it to be (`FalloIO`, `FalloStdout`, `FalloSuspender`, `FalloDesuspender`; `Rechazos`,
  `RechazoDeVuelta`).

`dafny verify dfyconfig.toml` checks the whole project.

## Model

| member | source | states |
|---|---|---|
| Rangos.CanonicoUnico | kernel_memory/src/segmentacion.c:38-61 | two canonical lists (sorted, positive sizes, no two adjacent) with the same free addresses are the same list: the list is determined by the free set |
| Rangos.InsertarCanonico | kernel_memory/src/segmentacion.c:38-61 | freeing a range that meets no hole keeps the list canonical, whether it joins the previous hole, the next one, both or none |
| Rangos.InsertarVeces | kernel_memory/src/segmentacion.c:38-61 | for every address, the new list has it exactly as many times as the old list and the freed range together; the bytes add up |
| Rangos.LiberarEnCualquierOrden | kernel_memory/src/inicializar.c:91-99 | freeing the same ranges in any two orders leaves the identical list |
| Rangos.ConsumirVeces | kernel_memory/src/segmentacion.c:98-106 | taking the head of a hole removes from the free set exactly the addresses handed out |
| Rangos.ElegirCorrecto | kernel_memory/src/segmentacion.c:7-34 | the search answers the first smallest (best fit) or first largest (worst fit) hole among those that are big enough, and none exactly when none is |
| Rangos.ElegidoUnico | kernel_memory/src/segmentacion.c:7-34 | that description admits only one answer, so the search is determined by it |
| Rangos.EncontrarHuecoBestFit | kernel_memory/src/segmentacion.c:7-16 | the loop: no answer iff every hole is too small; otherwise no hole that fits is smaller |
| Rangos.EncontrarHuecoWorstFit | kernel_memory/src/segmentacion.c:18-27 | the loop: no answer iff every hole is too small; otherwise no hole that fits is larger |
| Rangos.EncontrarHueco | kernel_memory/src/segmentacion.c:29-34 | dispatch on the configured policy |
| Mmu.BusquedasCoinciden | utils/src/utils/mmu.c:57-65 | the two searches for the stick of an address (by containment, and by base) find the same stick; none exactly beyond the last byte |
| Mmu.ArmarCubre | utils/src/utils/mmu.c:77-119 | the piece loop fails exactly when the range leaves memory; otherwise its pieces are a contiguous exact cover, each inside its stick |
| Mmu.PedazosCorrectos | kernel_memory/src/compactacion.c:13-44 | the kernel's builder and the MMU's give the same pieces for any address and length, a list exactly when the range is in memory, and then an exact cover |
| Mmu.TraducirExacta | utils/src/utils/mmu.c:4-45 | for a length > 0 translation succeeds if and only if the range lies inside one segment, in spite of the 32-bit comparison, and then covers base + offset |
| Mmu.TraducirVacia | utils/src/utils/mmu.c:4-36 | for length 0 it succeeds iff the offset is within the segment and the physical address is below the end of memory, with an empty list |
| Mmu.DireccionDeSegmento | kernel_memory/src/swap_gestor.c:101 | the address `id * segment_max_size` names segment `id` again iff the product does not wrap in 32 bits |
| Mmu.LeerEsPlano | kernel_memory/src/memory_sticks.c:107-126 | reading the pieces of a cover in order yields the slice of the flat memory |
| Mmu.EscribirEsPlano | kernel_memory/src/memory_sticks.c:128-146 | writing the pieces of a cover in order is the flat update, and no stick changes size |
| Fisica.MemoryStick.EscribirMemoria | memory_stick/src/memo_stick.c:107-142 | accepted iff the range is inside the stick; the buffer is then overwritten exactly there, and untouched otherwise |
| Fisica.MemoryStick.LeerMemoria | memory_stick/src/memo_stick.c:144-178 | accepted iff the range is inside the stick, with exactly those bytes |
| Fisica.MemoriaFisica.Agregar | kernel_memory/src/memory_sticks.c:7-33 | the new stick starts where memory ended and its bytes follow the flat memory |
| Fisica.MemoriaFisica.EncontrarStick | kernel_memory/src/memory_sticks.c:60-67 | the loop finds the first stick that contains the address |
| Fisica.MemoriaFisica.BuscarStickBase | utils/src/utils/mmu.c:57-65 | the loop finds the stick by its base |
| Fisica.MemoriaFisica.BuscarSiguienteStick | utils/src/utils/mmu.c:67-75 | the loop finds the stick that starts where the current one ends |
| Fisica.MemoriaFisica.CrearLista | utils/src/utils/mmu.c:77-119 | the loop terminates and builds the pieces of `Armar`, or NULL when no stick follows |
| Fisica.MemoriaFisica.PedazosDe | kernel_memory/src/compactacion.c:13-44 | NULL exactly outside memory, otherwise an exact cover of the range |
| Fisica.MemoriaFisica.TraducirLogicaAFisica | utils/src/utils/mmu.c:4-55 | segment search, bounds check and pieces, as the lemmas on `Traducir` describe |
| Fisica.MemoriaFisica.LeerPedazos | kernel_memory/src/memory_sticks.c:107-126 | the bytes collected from the sticks are the slice of the flat memory |
| Fisica.MemoriaFisica.EscribirPedazos | kernel_memory/src/memory_sticks.c:128-146 | the flat memory after the writes is the old one overwritten at the address |
| Asignador.CrearMantiene | kernel_memory/src/segmentacion.c:73-117 | creating keeps the invariant (tiling, canonical list, counter, swap table), changes the bytes of no other segment, gives a segment of the size asked, and changes nothing when refused |
| Colocacion.CrearColoca | kernel_memory/src/segmentacion.c:73-117 | granted iff the process is known, the size is not above the maximum and some hole is big enough; then the new segment, the last of its process, starts where a hole does that no other hole that fits beats (none smaller under best fit, none larger under worst fit), the first of its size; COMPACTACION iff no hole fits and the free bytes are enough; else refused, and nothing changes |
| Colocacion.AtenderFicha | kernel_memory/src/memory.c:230-399 | what each request does to each process of the table: which one appears or goes, which segment is added or removed, whose flag of being in swap changes, and that all others stay as they are; only a stick makes memory grow, by its bytes at the end |
| Asignador.EliminarMantiene | kernel_memory/src/segmentacion.c:119-144 | deleting from a process in memory keeps the invariant and every other segment's bytes; it reports success iff the segment existed |
| Asignador.EliminarSoloResidente | kernel_memory/src/segmentacion.c:119-144 | a delete that is accepted keeps the invariant if and only if the process is not in swap |
| Asignador.IniciarMantiene | kernel_memory/src/inicializar.c:4-30 | a new process changes no segment and keeps the invariant |
| Asignador.FinalizarInv | kernel_memory/src/inicializar.c:75-121 | ending a process, in memory or in swap, keeps the invariant: its places, or its blocks, are free again |
| Asignador.FinalizarMantiene | kernel_memory/src/inicializar.c:75-121 | it removes all its segments and swap blocks, and changes no other process's bytes |
| Asignador.AgregarStickMantiene | kernel_memory/src/memory_sticks.c:7-58 | adding a stick keeps the invariant and every byte |
| Asignador.ResidentesDisjuntos | kernel_memory/src/segmentacion.c:73-117 | in every consistent state two resident segments, of one process or of two, share no address |
| Asignador.EscribirAislada | kernel_memory/src/segmentacion.c:200-231 | a write succeeds iff it is inside the segment, replaces exactly those bytes of it, and changes no other segment of any process |
| Compactacion.OrdenarOk | kernel_memory/src/compactacion.c:9-11 | sorting by base gives a sorted permutation of the segments |
| Compactacion.MoverConserva | kernel_memory/src/compactacion.c:64-100 | sliding segments one by one, each read whole and written at the cursor, copies each one's former bytes to its new base: no write reaches a segment not moved yet |
| Compactacion.CompactarMantiene | kernel_memory/src/compactacion.c:47-115 | after compaction the invariant holds, every segment of every process has its former bytes, the counter is still the free size although it is not written, and the list is the one hole at the end |
| Compactacion.CompactarBases | kernel_memory/src/compactacion.c:64-100 | no base grows, and the segments keep their order without overlap; ids, sizes and owners stay |
| Compactacion.CompactarDosVeces | kernel_memory/src/compactacion.c:47-115 | compacting again changes nothing |
| Compactacion.ReintentoTrasCompactar | kernel_memory/src/segmentacion.c:86-116 | a request answered COMPACTACION, repeated after compacting, is answered MEMORIA_DISPONIBLE if and only if its size is not 0 |
| Suspension.SuspenderMantiene | kernel_memory/src/swap_gestor.c:51-136 | succeeds iff every segment fits a block and there are blocks for all; then the invariant holds, the logical contents of every process are unchanged, and the bytes reported are the ones freed |
| Suspension.SuspenderFalla | kernel_memory/src/swap_gestor.c:82-96 | a failed swap-out leaves a consistent state if and only if it failed on the first segment, before any was released |
| Colocacion.SuspenderColoca | kernel_memory/src/swap_gestor.c:70-128 | the segments of the process take, in order, the first blocks of the file that are free; no other block changes |
| Desuspension.DesuspenderMantiene | kernel_memory/src/swap_gestor.c:138-207 | a successful swap-in keeps the invariant and all logical contents, and frees all the blocks of the process |
| Desuspension.DesuspenderFalla | kernel_memory/src/swap_gestor.c:138-207 | a failed swap-in leaves a consistent state if and only if not even the first block had a hole, and then it changed nothing |
| Colocacion.DesuspenderColoca | kernel_memory/src/swap_gestor.c:138-207 | the blocks of the process, in table order, go back one by one to the hole that the configured strategy gives among those left; it succeeds iff all do, and stops at the first that fits in no hole left, with COMPACTACION iff the free bytes left are enough for it |
| Desuspension.DryRunPorBloque | kernel_memory/src/memory.c:163-211 | after every block, the simulation goes on iff the swap-in does, and the simulated holes are then the real ones |
| Desuspension.SimularExacta | kernel_memory/src/memory.c:163-211 | the same for any list of blocks of a process partly back in memory |
| Desuspension.DryRunExacta | kernel_memory/src/memory.c:148-228 | a pid is announced if and only if it is in swap and swapping it in on that very state succeeds, under either policy, with equal final holes |
| Colocacion.NotificarEnOrden | kernel_memory/src/memory.c:148-228 | something is announced iff some process is in swap, be it an empty list, and the pids go in the order of the table, once each |
| Swap.BloqueEscrito | swap/src/swap.c:106-111 | a write puts exactly those bytes in the file, which grows when it passes its end, with zeros in the gap |
| Swap.BloqueLeido | swap/src/swap.c:113-121 | a read gives the bytes of the file, and zeros past its end |
| Corridas.InicialInv | kernel_memory/src/memory.c:31-72 | the module starts in a consistent state |
| Corridas.SuspenderPedido | kernel_memory/src/swap_gestor.c:51-136 | for any process in memory, a swap-out request leaves a consistent state iff the process goes whole or not at all |
| Corridas.DesuspenderPedido | kernel_memory/src/swap_gestor.c:138-207 | the same for a swap-in request |
| Corridas.AtenderInv | kernel_memory/src/memory.c:230-399 | any request keeps the invariant |
| Corridas.AtenderContenido | kernel_memory/src/memory.c:230-399 | any request keeps the bytes of every segment it is not about |
| Corridas.CorrerInv | kernel_memory/src/memory.c:230-399 | the invariant holds after any sequence of requests |
| Corridas.CorrerContenido | kernel_memory/src/memory.c:230-399 | over any run that does not touch a segment, its bytes are unchanged, wherever compactions and swaps took it |
| Corridas.IdaYVuelta | kernel_memory/src/swap_gestor.c:51-207 | swap-out, any run of other requests, successful swap-in: every segment of the process has its former contents and size, and its blocks are free |
| Corridas.HuecosDeterminados | kernel_memory/src/segmentacion.c:38-61 | the free list and the counter of a consistent state depend only on which addresses are occupied, not on the history |
| Corridas.Solicitar | kernel_scheduler/src/utils_scheduler.c:369-417 | MEM_ALLOC with its compaction and retry, with no other request in between, makes at most two requests, never ends in COMPACTACION, cannot reach the blue screen, and is granted iff the first answer was not MEMORIA_NO_DISPONIBLE |
| Corridas.SolicitarMantiene | kernel_scheduler/src/utils_scheduler.c:369-417 | whatever the answer, the invariant and the bytes of all other segments are kept, and a granted segment has the size asked |
| Reintento.ReintentoConOtros | kernel_scheduler/src/utils_scheduler.c:397-400 | the socket is free before the retry: it is granted all the same after any run of other requests that take no memory and do not end the process |
| Reintento.ReintentoRobado | kernel_scheduler/src/utils_scheduler.c:397-401 | one request of another process in between, for `otro` bytes: the retry is granted iff both fit in the free memory, and otherwise the blue screen is reached |
| Casos.SaleAMedias | kernel_memory/src/swap_gestor.c:82-96 | after a run from the start, a swap-out that fails on the second of two segments, and the inconsistent state it leaves |
| Casos.VuelveAMedias | kernel_memory/src/swap_gestor.c:138-207 | after a run from the start, a swap-in that finds room for the first of two blocks only, and the inconsistent state it leaves |
| Casos.BorraEnSwap | kernel_memory/src/segmentacion.c:119-144 | after a run from the start, a delete on a process in swap is accepted and leaves an inconsistent state |
| Casos.CeroBytes | kernel_memory/src/segmentacion.c:86-116 | after a run from the start, a request for 0 bytes with no hole is answered COMPACTACION before and after compacting |
| Casos.LugarRobado | kernel_scheduler/src/utils_scheduler.c:397-401 | after a run from the start, a request that takes a compaction, one byte for another process, and the retry refused |
| Casos.OtroSegmento | kernel_memory/src/swap_gestor.c:101 | a segment id whose address wraps to that of segment 0 |
| Corridas.VuelveTrasCompactar | kernel_memory/src/swap_gestor.c:138-207 | right after a compaction a swap-in succeeds iff the bytes of the process's blocks do not exceed the free bytes |
| KernelMemory.ArchivoSwap.Escribir | swap/src/swap.c:106-111 | the file is overwritten at `id * block size`, and grows with zeros when the write passes its end |
| KernelMemory.ArchivoSwap.Leer | swap/src/swap.c:113-121 | the block's bytes, with zeros for what the file does not have |
| KernelMemory.KernelMemory.constructor | kernel_memory/src/swap_gestor.c:4-9 | the object starts in the initial state of the runs |
| KernelMemory.KernelMemory.InsertarHuecoYFusionar | kernel_memory/src/segmentacion.c:38-61 | the position loop and the two in-place merges compute the insertion the free-list lemmas are about |
| KernelMemory.KernelMemory.BuscarPid | kernel_memory/src/inicializar.c:32-47 | the loop finds the first process with that pid |
| KernelMemory.KernelMemory.CrearSegmento | kernel_memory/src/segmentacion.c:73-117 | new state and answer are those of `Crear`: size limit, process, hole, and COMPACTACION or MEMORIA_NO_DISPONIBLE by the counter |
| KernelMemory.KernelMemory.EliminarSegmento | kernel_memory/src/segmentacion.c:119-144 | new state and answer are those of `Eliminar` |
| KernelMemory.KernelMemory.LiberarFisica | kernel_memory/src/segmentacion.c:151-166 | the segment's range goes back to the list and to the counter |
| KernelMemory.KernelMemory.AsignarFisica | kernel_memory/src/segmentacion.c:169-198 | a hole for a segment that is in the table; new base, list and counter |
| KernelMemory.KernelMemory.InicializarProceso | kernel_memory/src/inicializar.c:4-30 | one process more, without segments |
| KernelMemory.KernelMemory.FinalizarProceso | kernel_memory/src/inicializar.c:75-121 | both loops (segments, swap blocks) and the removal compute `Finalizar` |
| KernelMemory.KernelMemory.SuspenderProceso | kernel_memory/src/swap_gestor.c:51-136 | the loop over segments, with its early exits, computes state, answer and byte count of `Suspender` |
| KernelMemory.KernelMemory.BloqueLibre | kernel_memory/src/swap_gestor.c:11-16 | the first free block |
| KernelMemory.KernelMemory.EscribirEnSwap | kernel_memory/src/swap_gestor.c:20-31 | one block is written in the swap file |
| KernelMemory.KernelMemory.DesuspenderProceso | kernel_memory/src/swap_gestor.c:138-207 | the loop over the listed blocks, with its early exit, computes state and answer of `Desuspender` |
| KernelMemory.KernelMemory.ListarBloques | kernel_memory/src/swap_gestor.c:138-165 | the blocks of the process, in table order |
| KernelMemory.KernelMemory.CompactarMemoria | kernel_memory/src/compactacion.c:47-115 | collecting, sorting, sliding over the sticks and rebuilding the list compute `Compactar` |
| KernelMemory.KernelMemory.MoverTodos | kernel_memory/src/compactacion.c:64-100 | the loop over sorted segments, with its cursor, computes the slide the compaction lemmas are about |
| KernelMemory.KernelMemory.NotificarDesuspendibles | kernel_memory/src/memory.c:148-228 | the nested loops over processes and blocks announce exactly `Notificar` |
| KernelMemory.KernelMemory.EntraEnCopia | kernel_memory/src/memory.c:163-211 | the loop on a copy of the holes answers whether the simulation succeeds |
| KernelMemory.KernelMemory.AgregarMemoryStick | kernel_memory/src/memory_sticks.c:7-58 | the stick, its hole (merged) and the counters |
| KernelMemory.KernelMemory.EscribirBytesEnMemoria | kernel_memory/src/segmentacion.c:200-231 | translation and piecewise writing are the flat `Escribir`; it reports success iff the range is inside the segment and, for no bytes at all, the address is below the end of memory |
| KernelMemory.KernelMemory.Atender | kernel_memory/src/memory.c:230-399 | any request that is admitted takes the object through the step `Corridas.Atender` that runs are made of, and leaves it consistent: what is proved of runs holds of the object |
| Numeros.EnteroBytes | cpu/src/instrucciones.c:69-103 | storing a register in n bytes and loading it back gives its value modulo 256^n |
| Numeros.BytesEntero | cpu/src/instrucciones.c:35-68 | any n bytes are the little-endian form of the number they load as |
| Numeros.BytesEn | cpu/src/instrucciones.c:69-103 | byte k of a number in memory is its k-th digit in base 256: the least significant goes first |
| Cpu.LeerExacta | utils/src/utils/mmu.c:121-161 | a logical read succeeds iff the range is inside a segment and yields its bytes |
| Cpu.CopiaAislada | cpu/src/instrucciones.c:130-180 | COPY_MEM succeeds iff both ranges are inside segments; then DI reads the old contents of SI even if they overlap, and no byte outside the destination range, of this or any other process, changes; otherwise nothing changes |
| Cpu.IdaYVueltaRegistro | cpu/src/instrucciones.c:35-103 | MOV_OUT followed by MOV_IN of the same register and address brings back the value, truncated to the bytes moved |
| Cpu.MovOutBytes | cpu/src/instrucciones.c:69-103 | MOV_OUT of AX to DX, and of PC, changes exactly one byte of the segment; of EAX to DI exactly four, the least significant first; each with its digit of the value, and nothing else in any segment |
| Cpu.VuelveElValor | cpu/src/instrucciones.c:35-103 | MOV_OUT then MOV_IN of EAX to DI at the same address brings the whole 32-bit value back, and of AX to DX the 8-bit one |
| Cpu.Procesador.Traducir | utils/src/utils/mmu.c:4-36 | the running process's translation succeeds iff the range is inside one of its segments (and, for length 0, below the end of memory), and covers base + offset |
| Cpu.Procesador.LeerLogica | utils/src/utils/mmu.c:121-161 | translated piecewise reading is the logical read; refused iff that is, or, for length 0, at the end of memory |
| Cpu.Procesador.EscribirLogica | utils/src/utils/mmu.c:163-189 | translated piecewise writing is the logical write on the flat memory |
| Cpu.Procesador.PonerRegistro | cpu/src/instrucciones.c:183-214 | only that register changes, to 8 bits from AX to DX and to 32 bits otherwise |
| Cpu.Procesador.MovIn | cpu/src/instrucciones.c:35-68 | one byte at SI for PC and AX to DX, four for EAX to DI, go to the register, cut to its width; or SEG_FAULT and nothing changes |
| Cpu.Procesador.MovOut | cpu/src/instrucciones.c:69-103 | memory gets one byte (PC, AX to DX) or four (EAX to DI) of the register at DI, or SEG_FAULT and nothing changes |
| Cpu.Procesador.EjecutarCopyMem | cpu/src/instrucciones.c:130-180 | for a size > 0, the flat memory and the answer are those of `CopyMem`; for size 0 memory is untouched, and the process ends iff SI translates |
| Acciones.PasoInv | kernel_scheduler/src/scheduler.c:123-1021 | each handler, timer and planner step, under every policy and during compactions too, keeps: every live pid in one place, every queue at its priority's level, one wait per blocked process, mutex counters, fresh pids, and at least one token per ready PCB, exactly one without preemption |
| Acciones.CorrerInv | kernel_scheduler/src/scheduler.c:123-1021 | the same over every run |
| Acciones.InicialInv | kernel_scheduler/src/inicializar_scheduler.c:41-47 | it holds at the start |
| Acciones.LugarUnico | kernel_scheduler/src/utils_scheduler.c:176-218 | each live pid is in exactly one of CPU, ready queues, block, suspended block, suspended ready and the planner's hand, once; a dead pid is in none |
| Acciones.PasoSaldo | kernel_scheduler/src/scheduler.c:893-1021 | what any step does to both semaphores and to the planner: how many ready tokens more than ready PCBs, how many idle CPUs more than CPU tokens, and when the planner wakes up |
| Ciclo.PasoFase | kernel_scheduler/src/scheduler.c:123-1021 | where every process is after any step, said from the state before it: who leaves its CPU and for where, who wakes up and whether to ready or to suspended ready, who is suspended, who is dispatched or taken in hand, who is born and who dies; everybody else stays where it was |
| Ciclo.PasoFlecha | kernel_scheduler/src/utils_scheduler.c:801-838 | any step takes a process along an arrow of the state diagram or leaves it: a suspended process comes back through ready only, and only a ready process or the one in the planner's hand gets a CPU |
| Ciclo.UbicadoSalvoMano | kernel_scheduler/src/utils_scheduler.c:647-722 | the search through which priorities are inherited finds every live process but the one in the planner's hand |
| Registro.PasoCpus | kernel_scheduler/src/utils_scheduler.c:60-73 | CPU by CPU after any step: a process keeps its own until it leaves it, only the first idle CPU can get one, and CPUs come at the end of the list and go from their place |
| Registro.PasoEscrito | kernel_scheduler/src/scheduler.c:123-1021 | what any step leaves written: original priorities never change; a token grows, and a timer is armed with it, exactly when its process blocks; an I/O is pending from its request to its end; the bytes in swap are those of the last suspension; a compaction remembers how many CPUs were busy; a new PCB has the priority it was created with |
| Efectos.TerminaIO | kernel_scheduler/src/scheduler.c:305-397 | an I/O that ends takes its process out of the blocked lists: to the end of the queue of its priority, with its token, if it was in memory or has no bytes in swap, and else to its place by priority in suspended ready; no other queue changes |
| Efectos.FinDeTurno | kernel_scheduler/src/scheduler.c:732-755 | a quantum that expires or a preemption: the CPU of the process is idle and has one more token, the other CPUs are as they were, and the process is the last of its queue, otherwise unchanged, with its token |
| Efectos.DejaParaCompactar | kernel_scheduler/src/scheduler.c:756-779 | an eviction by compaction: the same, but at the head of its queue and without the CPU token; at its beginning all CPU tokens are drained and the flag is up |
| Efectos.Termina | kernel_scheduler/src/scheduler.c:178-212 | the end of a process: its PCB is gone, its CPU is idle and has one more token, the others are as they were |
| Efectos.PideIO | kernel_scheduler/src/scheduler.c:213-304 | an I/O request: the CPU idle with one more token, the process last of the block list, its I/O pending and a timer armed with its new token; no queue changes |
| Efectos.EsperaSuTurno | kernel_scheduler/src/scheduler.c:466-545 | a lock on a mutex somebody has: the CPU idle with one more token, the process last of the block list, and a timer armed with its new token |
| Efectos.Nace | kernel_scheduler/src/utils_scheduler.c:4-40 | a creation: the new pid is the last of the queue of its priority, with one token; when the memory refuses or, under CMN, the priority is out of range, only the pid is spent |
| Efectos.Suspendido | kernel_scheduler/src/utils_scheduler.c:732-798 | a timer of the current block: out of the block list, last of the suspended blocked, with its bytes noted; nothing else moves |
| Efectos.Vuelve | kernel_scheduler/src/utils_scheduler.c:862-914 | of those the memory announced, the first in suspended ready goes to the end of its queue, with its token; if there is none, nothing changes |
| Efectos.DespiertaAlSoltar | kernel_scheduler/src/scheduler.c:562-605 | an unlock wakes the first waiter up: to the end of the queue of the priority it has from then on, with its token, or to suspended ready |
| Efectos.HeredanEnOrden | kernel_scheduler/src/utils_scheduler.c:1011-1062 | the death of an owner: those it was keeping waiting become ready in the order of its mutexes |
| Turnos.PasoCrece | kernel_scheduler/src/utils_scheduler.c:561-571 | the handlers, but for locks and evictions by compaction, only append to the ready queues |
| Marcha.PasoPlanificador | kernel_scheduler/src/utils_scheduler.c:724-730 | where a step that is not a turn leaves the planner: asleep unless it is told, and then out of its sleep, unless it sleeps for a compaction that goes on |
| Marcha.FinDespierta | kernel_scheduler/src/utils_scheduler.c:403-409 | the end of a compaction takes the planner out of whichever sleep it is in, and posts the CPU tokens it owes; it moves no process |
| Marcha.TresTurnos | kernel_scheduler/src/scheduler.c:893-925 | without preemption: with an idle CPU, a ready process and a token of each kind, three turns put the first of the best queue on the first idle CPU, and nothing else moves |
| Marcha.DosTurnos | kernel_scheduler/src/scheduler.c:926-987 | with preemption: the same in two turns |
| Marcha.TurnoDeLaMano | kernel_scheduler/src/scheduler.c:966-980 | when the victim's token arrives and a CPU is idle, the process in hand gets the first idle one |
| Marcha.DuermeAlCompactar | kernel_scheduler/src/scheduler.c:898-933 | during a compaction a turn moves nobody: the planner gives its tokens back, but for the ready one with several queues and no preemption, and sleeps |
| Marcha.SigueTrasCompactar | kernel_scheduler/src/scheduler.c:898-933 | whichever way the planner slept during a compaction, when the one that owes CPU tokens ends, some process is ready and some CPU idle, its next turns dispatch the first of the best queue to the first idle CPU |
| Semaforos.CuentaReadyExacta | kernel_scheduler/src/scheduler.c:926-933 | there is still one token per ready PCB after a step if and only if the step does not wake the planner up from its sleep on `compactando`, before which it gave its token back |
| Semaforos.CorrerReady | kernel_scheduler/src/scheduler.c:893-1015 | over every run without such a wake-up, one token per ready PCB |
| Semaforos.CuentaCpuExacta | kernel_scheduler/src/utils_scheduler.c:369-411 | one token per idle CPU after a step if and only if the step is not one of five: a compaction begins, evicts, or posts its tokens at its end, a CPU arrives during one, or an idle CPU leaves |
| Semaforos.CorrerCpu | kernel_scheduler/src/scheduler.c:840-1015 | over every run without them, one token per idle CPU |
| Semaforos.CorrerFalta | kernel_scheduler/src/scheduler.c:840-1015 | over every run, compactions included, the idle CPUs without a token are those there were plus what each step adds |
| Semaforos.CompactacionSaldo | kernel_scheduler/src/utils_scheduler.c:380-407 | a compaction from its beginning to its end, whatever steps come in between: afterwards the idle CPUs without a token are the tokens it drained, the caller's CPU and what the steps in between add, less the CPUs that were busy when it began; the count is right if and only if that is 0 |
| Semaforos.CompactacionSola | kernel_scheduler/src/utils_scheduler.c:380-407 | when no other compaction begins or ends in between, the steps add the processes evicted and what CPUs that come and go or are dispatched in vain leave; if those are none and the CPUs are emptied, the count is right if and only if as many processes left their CPUs by themselves as CPUs were idle at the beginning |
| Semaforos.SobraExacta | kernel_scheduler/src/utils_scheduler.c:403-409 | tokens that do not exceed the idle CPUs do not after a step if and only if it is neither the loss of an idle CPU when each has its token nor the end of a compaction that posts more tokens than there are idle CPUs without one |
| Semaforos.PlanificadorSeguro | kernel_scheduler/src/scheduler.c:893-1015 | in every run from the start: without preemption, a planner that holds a ready token finds a ready PCB; and without those two steps `obtener_cpu_libre` never answers NULL to a planner that has or finds a CPU token, compactions or not |
| Semaforos.SinDescuadresNoSobra | kernel_scheduler/src/scheduler.c:893-1015 | a run without the five steps has none of the two |
| Fallos.FalloIO | kernel_scheduler/src/scheduler.c:357-397 | a STDIN that the memory does not take keeps the scheduler consistent if and only if the process was not in the block list; otherwise it is lost |
| Fallos.FalloStdout | kernel_scheduler/src/scheduler.c:293-302 | a STDOUT that cannot be read leaves the scheduler consistent if and only if the caller was not running; otherwise it is blocked and waits for nothing |
| Fallos.FalloSuspender | kernel_scheduler/src/utils_scheduler.c:784-795 | a refused swap-out keeps it consistent if and only if the timer was stale; otherwise a freed PCB is listed |
| Fallos.FalloDesuspender | kernel_scheduler/src/utils_scheduler.c:874-914 | a refused swap-in keeps it consistent if and only if no suspended-ready process had been announced; otherwise that one is lost |
| Herencia.ExactaEsMinDe | kernel_scheduler/src/scheduler.c:606-641 | a priority is exact (the least of the original and the waiters') iff it is the value MUTEX_UNLOCK recomputes |
| Herencia.UnlockExacta | kernel_scheduler/src/scheduler.c:546-647 | MUTEX_UNLOCK keeps all priorities exact, always |
| Herencia.MorirExacta | kernel_scheduler/src/utils_scheduler.c:1011-1062 | hand-off on death keeps all other priorities exact, always |
| Herencia.LockExacta | kernel_scheduler/src/scheduler.c:466-532 | a waiting MUTEX_LOCK keeps priorities exact if and only if the chain of owners is not one of those it stops short of (third owner worse, or an owner in the planner's hand) |
| Herencia.EsperarPrios | kernel_scheduler/src/scheduler.c:466-532 | the priorities after a waiting lock: the owner, and the owner of what it waits for, get the caller's if theirs is worse and the search finds them; nobody else's changes |
| Garantias.LockPasoExacta | kernel_scheduler/src/scheduler.c:438-545 | the same for the whole MUTEX_LOCK, its other branches included |
| Garantias.PasoExacta | kernel_scheduler/src/scheduler.c:123-837 | any step keeps priorities exact if and only if it is not a lock on such a chain |
| Garantias.CorrerExacta | kernel_scheduler/src/scheduler.c:123-837 | over every run whose locks avoid them, every priority is exact |
| Garantias.InicialExacta | kernel_scheduler/src/inicializar_scheduler.c:41-47 | priorities are exact at the start |
| Cadena.CadenaRota | kernel_scheduler/src/scheduler.c:483-520 | a run from the start under CMN with two queues, possible and with exact priorities at its end, and one lock more after which the last of a chain of three owners does not inherit |
| Expropiacion.VictimaEsPeor | kernel_scheduler/src/utils_scheduler.c:606-621 | the victim is the first among the worst running processes and strictly worse than the candidate; none exactly when no running process is worse |
| Expropiacion.PrimeroEsMejor | kernel_scheduler/src/utils_scheduler.c:573-603 | what is dequeued has a priority at least as good as every ready process, and heads its level |
| Expropiacion.NadieMejorSinVictima | kernel_scheduler/src/utils_scheduler.c:592-621 | some ready process is better than a running one if and only if the search for a victim of the best ready one finds it |
| Expropiacion.DecidirCorrecto | kernel_scheduler/src/scheduler.c:935-987 | in any consistent state: the planner sleeps iff nobody is ready, or there is no CPU token and no ready process is better than a running one; it evicts iff there is no token and one is, and then the best ready process is in hand and the victim is the worst running one, strictly worse; with a token, the best ready process goes to an idle CPU if there is one |
| Expropiacion.DecidirSinOciosas | kernel_scheduler/src/scheduler.c:935-987 | with the idle-CPU count right it evicts only when every CPU is busy, and a token is never taken in vain |
| Expropiacion.DecidirEnCorrida | kernel_scheduler/src/scheduler.c:926-987 | the same decisions in every state of every run from the start, compactions included |
| Expropiacion.TranquilaExacta | kernel_scheduler/src/utils_scheduler.c:724-730 | while the planner sleeps no ready process is better than a running one, and that survives a step if and only if it is not one that makes a better process ready without waking the planner: a creation, an eviction by compaction, or an unlock that wakes nobody and leaves the caller worse |
| Expropiacion.CorrerTranquila | kernel_scheduler/src/scheduler.c:926-987 | so it holds over every run without them |
| Expropiacion.PrioTrasUnlock | kernel_scheduler/src/scheduler.c:606-641 | the priority the caller keeps after MUTEX_UNLOCK, read from the state before it: the least of its original one and those of the waiters on its other mutexes |
| Turnos.PasoTurno | kernel_scheduler/src/utils_scheduler.c:561-590 | a step puts nobody new ahead of a process that stays in its level if and only if it is neither an eviction by compaction into a queue that is not empty nor a dispatch with no idle CPU from a queue of more than one |
| Turnos.CompactacionAdelanta | kernel_scheduler/src/utils_scheduler.c:981-991 | an eviction by compaction goes to the head, and respects the turns if and only if that queue was empty |
| Turnos.SinAdelantarse | kernel_scheduler/src/utils_scheduler.c:573-590 | over any run without those, while a process waits in a level only those that were ahead of it at the start are taken from it |
| Cesiones.PasoCede | kernel_scheduler/src/scheduler.c:546-605 | in one step, for every mutex: who asks joins at the end of its queue or becomes the owner; an unlock or the death of the owner serves the first that waits, or leaves it free when nobody does; nothing else changes queue, owner or name; and a creation adds one free mutex iff the name is new |
| Cesiones.PrimeroEnLlegar | kernel_scheduler/src/utils_scheduler.c:1011-1062 | over any run, for every mutex: those waiting at the start followed by those that asked for it are, in that order, those that got it followed by those that still wait; and its owner is the last that got it |
| Episodios.TimerDeSuBloqueo | kernel_scheduler/src/utils_scheduler.c:732-766 | a timer that suspends a process finds it in the very block it was armed for: the process was in the block list, with that token, in every state in between |
| Episodios.PidsUnaVez | kernel_scheduler/src/utils_scheduler.c:133-138 | a pid that is gone never comes back |
| Testigos.SobraFicha | kernel_scheduler/src/scheduler.c:926-933 | a run from the start with a compaction after which there is one ready token too many |
| Testigos.FichaDeNadie | kernel_scheduler/src/scheduler.c:92-119 | a run from the start in which the planner holds a CPU token and no CPU is idle |
| Testigos.SobraFichaCpu | kernel_scheduler/src/utils_scheduler.c:957-972 | a run from the start with both CPUs busy and the count right, and a compaction during which a quantum expires, after which there is one CPU token too many |
| Testigos.FueraDeTurno | kernel_scheduler/src/utils_scheduler.c:981-991 | a run from the start after which an eviction by compaction overtakes a ready process |
| Testigos.SuenoLargo | kernel_scheduler/src/utils_scheduler.c:4-40 | a run from the start in which the planner sleeps on while a better process is ready |
| Testigos.Rechazos | kernel_scheduler/src/scheduler.c:293-397 | runs from the start after which a refused STDOUT read, a refused swap-out and a refused STDIN leave an inconsistent state |
| Testigos.RechazoDeVuelta | kernel_scheduler/src/utils_scheduler.c:874-914 | a run from the start, through a swap-out, after which a refused swap-in leaves an inconsistent state |
| Scheduler.Scheduler.EncontrarCpuConPid | kernel_scheduler/src/utils_scheduler.c:140-151 | the loop finds the first CPU with that pid |
| Scheduler.Scheduler.ObtenerCpuLibre | kernel_scheduler/src/utils_scheduler.c:60-73 | the loop finds the first idle CPU |
| Scheduler.Scheduler.BuscarMutexPorNombre | kernel_scheduler/src/utils_scheduler.c:359-367 | the loop finds the mutex by name |
| Scheduler.Scheduler.BuscarPcbPorPid | kernel_scheduler/src/utils_scheduler.c:647-722 | the search over all lists answers whether the PCB is in one, and takes it out of its queue exactly when it is queued under CMN and the candidate is better |
| Scheduler.Scheduler.EncolarPcbReady | kernel_scheduler/src/utils_scheduler.c:561-571 | appended to the queue of its level |
| Scheduler.Scheduler.DesencolarPcbReady | kernel_scheduler/src/utils_scheduler.c:573-590 | the loop over levels takes the head of the best non-empty one |
| Scheduler.Scheduler.PcbMasPrioritario | kernel_scheduler/src/utils_scheduler.c:592-603 | the same PCB, left in place |
| Scheduler.Scheduler.HayCpuDesalojable | kernel_scheduler/src/utils_scheduler.c:606-621 | the loop with its running worst finds the victim of `VictimaEsPeor` |
| Scheduler.Scheduler.BloquearProceso | kernel_scheduler/src/utils_scheduler.c:176-202 | off its CPU, into the block list, token up, timer armed with it |
| Scheduler.Scheduler.DespertarProceso | kernel_scheduler/src/scheduler.c:305-328 | from block to ready, or from suspended block on |
| Scheduler.Scheduler.PasarDeSuspBlock | kernel_scheduler/src/utils_scheduler.c:801-838 | to suspended ready in priority position, and on to ready when it has no bytes in swap |
| Scheduler.Scheduler.InsertarSuspReady | kernel_scheduler/src/utils_scheduler.c:841-845 | before the first that is strictly worse |
| Scheduler.Scheduler.DesuspenderProceso | kernel_scheduler/src/utils_scheduler.c:874-914 | out of suspended ready, and into ready if the memory accepted |
| Scheduler.Scheduler.RecorrerYDesuspender | kernel_scheduler/src/utils_scheduler.c:862-872 | the loop brings back the first in order that the memory announced |
| Scheduler.Scheduler.HiloTimerBloqueado | kernel_scheduler/src/utils_scheduler.c:732-766 | suspends only with the same token and only from the block list |
| Scheduler.Scheduler.SuspenderProceso | kernel_scheduler/src/utils_scheduler.c:768-798 | listed with its bytes; with a refusal, its PCB is freed and listed all the same |
| Scheduler.Scheduler.MutexCreate | kernel_scheduler/src/scheduler.c:398-437 | a free mutex, unless the name is taken |
| Scheduler.Scheduler.MutexLock | kernel_scheduler/src/scheduler.c:438-545 | take it, or wait, inherit and block |
| Scheduler.Scheduler.HeredarPorTransitividad | kernel_scheduler/src/scheduler.c:483-520 | the loop over mutexes passes the inherited priority to the owners of what the first owner waits for, moving ready ones to their new queue |
| Scheduler.Scheduler.MutexUnlock | kernel_scheduler/src/scheduler.c:546-647 | free it or hand it off, then recompute the caller's priority |
| Scheduler.Scheduler.RecalcularPrioridad | kernel_scheduler/src/scheduler.c:606-641 | the nested loops leave the least of the original and the waiters' priorities |
| Scheduler.Scheduler.EntregarMutex | kernel_scheduler/src/scheduler.c:562-605 | the first waiter becomes the owner, inherits from the rest and wakes up |
| Scheduler.Scheduler.LiberarDeMutexPorMuerte | kernel_scheduler/src/utils_scheduler.c:1011-1062 | the loop over mutexes frees or hands off each one the dead process has |
| Scheduler.Scheduler.Crear | kernel_scheduler/src/utils_scheduler.c:4-40 | a new pid, and a ready PCB when the memory accepts and, under CMN, the priority is in range |
| Scheduler.Scheduler.DesalojarProceso | kernel_scheduler/src/scheduler.c:732-755 | from its CPU to the tail of its queue, one token of each kind: the step of `Efectos.FinDeTurno` |
| Scheduler.Scheduler.DesalojarPorCompactacion | kernel_scheduler/src/scheduler.c:756-779 | from its CPU to the head of its queue, without a CPU token |
| Scheduler.Scheduler.IniciarCompactacion | kernel_scheduler/src/utils_scheduler.c:380-386 | the flag, the CPU tokens drained, the busy CPUs counted, and the caller to the head of its queue |
| Scheduler.Scheduler.FinalizarCompactacion | kernel_scheduler/src/utils_scheduler.c:403-409 | the flag down, one token and one signal per CPU that was busy, and a signal to the planner: the step of `Marcha.FinDespierta` |
| Scheduler.Scheduler.TerminarProceso | kernel_scheduler/src/scheduler.c:178-212 | its CPU and its mutexes are released and the PCB is gone |
| Scheduler.Scheduler.Pedir | kernel_scheduler/src/scheduler.c:213-304 | the caller blocks, with an I/O of its type pending unless its text could not be read |
| Scheduler.Scheduler.FinalizarIO | kernel_scheduler/src/scheduler.c:305-397 | the wait is over, as `Efectos.TerminaIO` says; a failed STDIN drops a process that was in the block list |
| Scheduler.Scheduler.AsignarCpu | kernel_scheduler/src/scheduler.c:893-925 | to the first idle CPU, or back to the queue with its token |
| Scheduler.Scheduler.DespacharListo | kernel_scheduler/src/scheduler.c:898-925 | dequeue and dispatch; during a compaction the tokens go back and the planner sleeps |
| Scheduler.Scheduler.DespacharTrasDesalojo | kernel_scheduler/src/scheduler.c:966-980 | when the victim's CPU arrives, it goes to the PCB in hand |
| Scheduler.Scheduler.PerderCpu | kernel_scheduler/src/scheduler.c:92-119 | the CPU leaves and the process on it dies, its mutexes handed off |
| Scheduler.Scheduler.DecidirConDesalojo | kernel_scheduler/src/scheduler.c:926-987 | during a compaction, give the token back and sleep; otherwise dispatch, evict or sleep |
| Scheduler.Scheduler.Atender | kernel_scheduler/src/scheduler.c:123-1021 | any step that is admitted takes the object through `Acciones.Paso`, the step that runs are made of, and leaves it consistent: what is proved of runs holds of the object |
| Wire.SerializarContexto | utils/src/utils/serializacion.c:136-164 | the bytes of a context, field by field, then the segment count and the segments; NULL table as empty |
| Wire.CamposContexto | utils/src/utils/serializacion.c:136-164 | where each field is: pc at 0, ax to dx at 4 to 7, eax to di from 8 on, the count of segments at 32, and each segment in 12 bytes from 36 on |
| Wire.DeserializarContexto | utils/src/utils/serializacion.c:166-190 | from the encoding of a context followed by anything, that context, consuming exactly its encoding |
| Wire.SerializarSticks | utils/src/utils/serializacion.c:350-361 | the count and each stick |
| Wire.DeserializarSticks | utils/src/utils/serializacion.c:362-372 | from the encoding of a stick list followed by anything, that list but for the local socket, consuming exactly it |
| Wire.DeserializarStick | utils/src/utils/serializacion.c:330-347 | one stick, but for its socket |
| Wire.CamposStick | utils/src/utils/serializacion.c:330-337 | port, size and base at 0, 4 and 8, and the 16 bytes of the address at 12 |
| Wire.SticksAhi | utils/src/utils/serializacion.c:350-361 | each stick of a list in 28 bytes, in order |
| Wire.Buffer.Agregar | utils/src/utils/serializacion.c:22-29 | the bytes follow those already in the buffer, and the size counts them |
| Wire.Buffer.Leer | utils/src/utils/serializacion.c:31-34 | the next bytes, and the offset moves past them |
| Wire.Buffer.AgregarUint32 | utils/src/utils/serializacion.c:36-44 | four little-endian bytes |
| Wire.Buffer.LeerUint32 | utils/src/utils/serializacion.c:36-44 | the 32-bit value that was written |
| Wire.Canal.Enviar | utils/src/utils/serializacion.c:92-104 | the packet's code, size and payload are appended to the stream |
| Wire.Canal.Recibir | utils/src/utils/serializacion.c:106-128 | the first packet of the stream, leaving the rest; NULL when nothing was sent |
| Wire.IdaYVuelta | utils/src/utils/serializacion.c:92-128 | any sequence of packets sent and then received from the one stream is the same sequence |
| Wire.FlujoFiel | utils/src/utils/serializacion.c:92-128 | two packet sequences with the same bytes are the same sequence |
| Wire.CamposPaquete | utils/src/utils/serializacion.c:92-104 | the code at 0, the size of the payload at 4, the payload at 8 |
| Wire.ContextoFiel | utils/src/utils/serializacion.c:136-190 | two contexts whose encodings are followed by something to the same bytes are equal, and so is what follows: the format is prefix-free |
| Wire.PaqueteFiel | utils/src/utils/serializacion.c:92-128 | the same for packets |
| Wire.SegsFieles | utils/src/utils/serializacion.c:136-190 | the same for segment tables of one length |

## Left out

What the callers of the C code respect and the code does not check is a hypothesis of the theorems:

- Segment sizes are positive, segment ids are new to their process and `id * segment_max_size` fits in 32 bits; stick sizes are positive, and memory plus `segment_max_size` fits in 32 bits. Other widths are unbounded.
- Deleting, writing and swapping out are for processes that are in memory; only an owner that is running unlocks a mutex, and it does not lock it again; a process starts once.
- A request that swaps out or in part of a process stops a run of module Corridas: the partial state is described by `SuspenderFalla` and `DesuspenderFalla`, and what later requests do to it is not.
- In runs of the scheduler the memory does what it is asked. The steps after a refusal are those of module Fallos, and runs do not go on from the inconsistent states they leave.

Parts of the repository that are not modelled:

- Handlers, timers and turns of the planner are atomic steps; the threads, the locks and the interleavings inside one handler are not modelled, and neither is the window between a `sem_post` and the wait after it.
- Scheduler.Scheduler.MutexLock: does not model that for a caller that no longer runs the code returns with `mutex_lista_mutex` locked, because locks are not part of the model; the step itself changes nothing, as there.
- Sockets are calls: a request and its reply are one operation; partial receives, disconnections in the middle of a packet and handshakes are out.
- Inside a compaction: the control messages to the CPUs, their acknowledgements and the wait for all of them. Its beginning, each eviction, its end and what the planner does meanwhile are steps that can come in any order. `Solicitar` is the request without other requests in between; `ReintentoConOtros` and `ReintentoRobado` say what those do, and a swap-in in between is not described further. The memory answers every compaction with success, so the branch of the scheduler for another answer is out.
- Quantum timers and their tokens: a FINALIZAR_POR_QUANTUM may arrive at any time.
- Echoes of interruptions that arrive late, matched by pid alone; claims are about the scheduler's own state.
- The order of `susp_ready` over runs: a process is inserted by priority (`TerminaIO`), but inheritance changes priorities there without sorting again, so no claim is made about the whole list.
- The IO module and the text of stdin and stdout; the blue screen's teardown; disconnection of sticks; configuration, logs and delays.
- CPU fetch and decode, and SET, SUM, SUB and JNZ: each is settled by reading one branch. A COPY_MEM of 0 bytes, which takes the first element of an empty list, is an answer of its own (`Caida`) that changes no memory.
- The kernel's handler of LEER_BYTES: translation and piecewise reading are in Mmu and Fisica. Serializers other than contexts and stick lists have the same shape.
- `list_sort` and `list_add_sorted` of the list library are modelled by what they compute (a stable sort by base; insertion before the first strictly worse).
- Aliasing: a PCB is named by its pid and a segment by its position; the records that C shares among lists are in one map, and memory management (malloc, free) is out.
