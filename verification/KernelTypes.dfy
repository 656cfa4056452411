/** The state of the guest kernel: thread slots, event and mutex semaphores. */
module KernelTypes {
  import opened Words

  const MAX_THREADS := 32
  const MAX_EVENT_SEMS := 64
  const MAX_MUTEXES := 64
  const GENERATION_MAX := 0x3fffff
  const RAM_SIZE := 0x04000000
  const INDEFINITE_WAIT := 0xffffffff

  const NO_ERROR := 0
  const INVALID_HANDLE := 6
  const NOT_ENOUGH_MEMORY := 8
  const INVALID_PARAMETER := 87
  const TOO_MANY_SEM_REQUESTS := 103
  const SEM_OWNER_DIED := 105
  const SEM_TIMEOUT := 121
  const SEM_NOT_FOUND := 187
  const DUPLICATE_NAME := 285
  const NOT_OWNER := 288
  const TOO_MANY_OPENS := 291
  const THREAD_NOT_TERMINATED := 294
  const ALREADY_POSTED := 299
  const ALREADY_RESET := 300
  const SEM_BUSY := 301
  const INVALID_THREADID := 309

  datatype ThreadState =
    | Free | Runnable | Running | WaitThread | Asleep | WaitEvent | WaitMutex | Suspended | Dead
    | HostCall | WaitPm | WaitQueue

  /** A saved processor state: the result register, the stack pointer, the other general
      registers, flags and instruction pointers, and everything else. */
  datatype Image = Image(eax: nat, esp: U32, others: seq<U32>, flags: U32, ip: U32, nextIp: U32, rest: seq<U32>)

  datatype Thread = Thread(
    tid: nat, state: ThreadState, waitTid: nat, waitPtid: U32, waitEvent: U32, deadline: nat, order: nat,
    regs: Image, regsValid: bool, callbackDepth: nat)

  datatype Event = Event(used: bool, generation: nat, refs: U32, posts: U32, name: string)

  datatype Mutex = Mutex(used: bool, generation: nat, refs: U32, owner: nat, count: U32, abandoned: bool, name: string)

  datatype Kernel = Kernel(
    threads: seq<Thread>, events: seq<Event>, mutexes: seq<Mutex>,
    serial: nat, nextTid: nat, current: nat, cpu: Image,
    switchRequested: bool, threadExited: bool, processExited: bool, modal: bool)

  /** A word the kernel stores into guest memory. */
  datatype Store = Store(address: U32, value: nat)

  /** The outcome of one kernel call. */
  datatype Reply = Reply(kernel: Kernel, rc: nat, stores: seq<Store>)

  predicate WF(k: Kernel) {
    |k.threads| == MAX_THREADS && |k.events| == MAX_EVENT_SEMS && |k.mutexes| == MAX_MUTEXES && k.current < MAX_THREADS
  }

  predicate Live(t: Thread) {
    t.state != Free && t.state != Dead
  }

  predicate GuestRange(address: U32, bytes: nat) {
    address < RAM_SIZE && bytes <= RAM_SIZE - address
  }

  /** A pointer argument that a word may be stored through. */
  predicate Writable(address: U32) {
    address != 0 && GuestRange(address, 4)
  }

  function Next32(x: U32): U32 {
    if x == 0xffffffff then 0 else x + 1
  }

  function Prev32(x: U32): U32 {
    if x == 0 then 0xffffffff else x - 1
  }

  // ---- handles -----------------------------------------------------------------

  /** 24 bits of generation above 8 bits of slot number, counted from 1. */
  function EventHandle(slot: nat, generation: nat): (h: nat)
    ensures slot < 64 && generation <= GENERATION_MAX ==> h < 0x40000000
  {
    256 * generation + slot + 1
  }

  function MutexHandle(slot: nat, generation: nat): (h: nat)
    ensures slot < 64 && generation <= GENERATION_MAX ==> 0x40000000 < h < 0x80000000
  {
    0x40000000 + 256 * generation + slot + 1
  }

  function ResolveEvent(es: seq<Event>, h: U32): (slot: int)
    requires |es| == MAX_EVENT_SEMS
    ensures -1 <= slot < |es|
  {
    var raw, generation := h % 256, h / 256;
    if raw == 0 || raw > MAX_EVENT_SEMS then -1
    else if generation == 0 || !es[raw - 1].used || es[raw - 1].generation != generation then -1
    else raw - 1
  }

  function ResolveMutex(ms: seq<Mutex>, h: U32): (slot: int)
    requires |ms| == MAX_MUTEXES
    ensures -1 <= slot < |ms|
  {
    var raw := h % 256;
    if h / 0x40000000 != 1 || raw == 0 || raw > MAX_MUTEXES then -1
    else if !ms[raw - 1].used || ms[raw - 1].generation != h / 256 % 0x400000 then -1
    else raw - 1
  }

  /** A slot's handle is the only word that resolves to it. */
  lemma ResolveEventIff(es: seq<Event>, h: U32, slot: nat)
    requires |es| == MAX_EVENT_SEMS && slot < MAX_EVENT_SEMS
    requires es[slot].used ==> 0 < es[slot].generation <= GENERATION_MAX
    ensures ResolveEvent(es, h) == slot <==> es[slot].used && h == EventHandle(slot, es[slot].generation)
  {
  }

  lemma ResolveMutexIff(ms: seq<Mutex>, h: U32, slot: nat)
    requires |ms| == MAX_MUTEXES && slot < MAX_MUTEXES
    requires ms[slot].used ==> 0 < ms[slot].generation <= GENERATION_MAX
    ensures ResolveMutex(ms, h) == slot <==> ms[slot].used && h == MutexHandle(slot, ms[slot].generation)
  {
    var g := ms[slot].generation;
    if ms[slot].used && h == MutexHandle(slot, g) {
      assert h == 256 * (g + 0x400000) + (slot + 1);
      assert h % 256 == slot + 1 && h / 256 == g + 0x400000;
      assert h / 0x40000000 == 1;
    }
    if ResolveMutex(ms, h) == slot {
      assert h == 256 * (h / 256) + h % 256;
      assert h / 0x40000000 == 1;
      assert h / 256 == 0x400000 + h / 256 % 0x400000;
    }
  }
}
