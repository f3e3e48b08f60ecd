# Restaurant order queue: a verified model of the ring buffer

The restaurant simulator passes orders (`Commande`) from server threads to
cook threads through a fixed-capacity circular FIFO (`Queue`). This project
models that FIFO and the types it carries, and proves that each operation
refines a bounded FIFO sequence: a successful push appends, a successful pop
removes and returns the oldest order, and a refused operation changes nothing.

- `queue_types.dfy`, module `QueueTypes` (from `queue.h`): the dish
  enumeration `Plat` with its C values 0..4 and `PLAT_COUNT`, the order
  record `Commande(id, plat, prepMs)` as a datatype (so it is copied by value
  in and out of the buffer), C `int` as the 32-bit `int32`, the zeroed slot
  `calloc` produces, and the poison pill (`id == -1`).
- `queue.dfy`, module `RingQueue` (from `queue.c`): the class `Queue` with the
  struct's fields (`buf`, `cap`, `head`, `tail`, `count`; the indices are
  `size_t`, so `nat`), the representation invariant `Valid()`, the abstraction
  function `Contents()` (the `count` slots from `head`, wrapping around), and
  the four operations as methods that update the fields in place and return
  the C status codes 0 / -1. The pure function `Window` and its lemmas carry
  the wrap-around arithmetic. Three client methods run the queue through
  fixed scenarios: orders in insertion order, a shutdown with only poison
  pills, and a real order drained ahead of the pills.

Modelling decisions:

- `buf` is a nullable array: the struct starts zeroed (the program's queue is
  a static variable) and `queue_destroy` sets the pointer to NULL. `Valid()`
  allows a NULL buffer only with capacity 0, where push and pop always
  refuse before indexing, so the `% cap` is never reached with `cap == 0`.
- The failure of `calloc` is the parameter `allocFails`. As in the C, a
  failed `queue_init` overwrites only the buffer pointer and returns -1.
  `Init`'s contract states the consequence: the object stays valid exactly
  when `cap`, `head`, `tail` and `count` were all 0 beforehand (for example
  the static zeroed queue, or a destroyed one). The program only initialises
  the static zeroed queue.
- `queue_pop`'s `Commande *out` is modelled as the in-parameter `prior` (what
  `*out` held) and the out-parameter `result`, which equals `prior` when the
  pop is refused.
- The invariant writes `tail`'s relation to `head + count` with the
  wrap-around spelled out; `Queue.TailIsHeadPlusCount` proves it equal to the
  C's `(head + count) % cap`.
- The caller preconditions in `queue.h` (mutex held, free slot or item
  available) are not `requires` clauses. The C checks fullness and emptiness
  itself, so `Push` and `Pop` state the refusal as an if-and-only-if instead.
  Under the documented precondition (`count < cap`, or `count > 0`) the result
  is always 0.

## Model

| member | source | states |
|---|---|---|
| `QueueTypes.PlatToInt` | queue.h:6-13 | every dish's C value lies in 0..PLAT_COUNT-1 |
| `QueueTypes.PlatOfInt` | main.c:117 | the cast from an integer yields a dish exactly for 0..4, and that dish's value is the integer |
| `QueueTypes.PlatRoundTrip` | queue.h:6-12 | casting a dish's value back gives the same dish |
| `QueueTypes.ZeroCommande` | queue.c:5 | the contents `calloc` leaves in every slot: id 0, the dish with value 0 (pizza), preparation time 0 |
| `QueueTypes.Poison` | main.c:294 | the poison pill: id -1, pizza, preparation time 0 |
| `QueueTypes.IsPoison` | main.c:183 | an order is a poison pill exactly when its id is -1 |
| `QueueTypes.PlatCountIsNumberOfDishes` | queue.h:6-13 | there are exactly five dishes, PLAT_COUNT is their number, their values are distinct, and PLAT_COUNT is not a dish |
| `RingQueue.Window` | queue.c:20-30 | the logical contents of a buffer: `count` slots read from `head` onwards, wrapping past the last slot to slot 0 |
| `RingQueue.Queue.Valid` | queue.c:18-32 | the representation invariant push and pop maintain: a NULL buffer only with `cap == 0`, otherwise a buffer of `cap` slots; `count <= cap`; `head < cap` and `tail < cap` and `tail` is `head + count` wrapped when `cap > 0`; all indices 0 when `cap == 0` |
| `RingQueue.WindowPush` | queue.c:20-22 | writing an order at `(head + count) % cap` and growing `count` by one appends that order to the logical contents and keeps the older ones |
| `RingQueue.WindowPop` | queue.c:28-30 | the slot at `head` is the oldest order, and advancing `head` modulo `cap` while shrinking `count` by one leaves exactly the remaining orders |
| `RingQueue.Queue.TailIsHeadPlusCount` | queue.c:21 | in a valid queue `tail == (head + count) % cap` when `cap > 0`, and all indices are 0 when `cap == 0` |
| `RingQueue.Queue.Contents` | queue.h:21-27 | the logical FIFO has exactly `count` orders |
| `RingQueue.Queue.constructor` | main.c:43 | the zero-initialised queue has no buffer, all fields 0, is valid and empty |
| `RingQueue.Queue.Init` | queue.c:4-10 | returns 0 and gives a fresh buffer of `cap` zeroed slots with `head == tail == count == 0`, a valid empty queue; on allocation failure returns -1, sets the buffer to NULL and leaves the other fields as they were |
| `RingQueue.Queue.Destroy` | queue.c:12-16 | no buffer, `cap == head == tail == count == 0`, valid and empty |
| `RingQueue.Queue.Push` | queue.c:18-24 | returns 0 iff the queue was not full; then the order is stored at the old `tail`, every other slot is unchanged, `tail` advances modulo `cap`, `count` grows by one and the contents become old contents + [order]; when full returns -1 and changes nothing; `head` and `cap` never change; keeps `Valid()` |
| `RingQueue.Queue.Pop` | queue.c:26-32 | returns 0 iff the queue was not empty; then the result is `buf[head]`, which is the oldest order, `head` advances modulo `cap`, `count` shrinks by one and the contents lose their first element; when empty returns -1, hands back `*out` unchanged and changes nothing; buffer, `tail` and `cap` never change; keeps `Valid()` |
| `RingQueue.ScenarioInsertionOrder` | queue.c:18-32 | with capacity 2, orders 1, 2, 3: the third push is refused while two wait, accepted after a pop, and pops yield 1, 2, 3 |
| `RingQueue.ScenarioPoisonOnly` | main.c:289-300 | with capacity 5 and no real orders, three pushed poison pills are popped as three poison pills and a fourth pop is refused |
| `RingQueue.ScenarioDrainBeforePoison` | queue.c:18-32 | a real order queued before two poison pills is popped before them, so the cook's poison test (`c.id == -1`, main.c:183, `IsPoison`) sees the real order first |

## Left out

- The mutex around push and pop, the semaphores `g_freeSlots` and `g_items`, and the server and cook threads (main.c): the model is sequential; thread interleavings are not modelled.
- The SIGINT handler, its extra semaphore posts and the EINTR retry in `sem_wait_intr`: signal and concurrency plumbing.
- `push_poison_pills` as a loop over semaphore acquires: only its effect on the queue (pushing `id == -1` orders) is modelled, in the scenarios.
- The dashboard, terminal output, `now_ms`, `usleep`, `rand_r` and the atomic id counter: I/O, clocks, randomness and atomics.
- `plat_name`: a table from dish to display string, used only for output.
- `calloc` and `free`: allocation is a fresh array of `cap` zeroed slots, failure is the parameter `allocFails`, and freeing is dropping the reference.
- `Queue` indices: `size_t` is modelled as unbounded `nat`. Within the invariant `tail + 1` and `count + 1` stay at most `cap`, so a 64-bit wrap-around cannot occur. The overflow of `cap * sizeof(Commande)` inside `calloc` is covered by `allocFails`.
- `Commande.plat`: restricted to the five dishes. The C field can hold any value of the enum's underlying type, including `PLAT_COUNT`. The program only stores values taken modulo `PLAT_COUNT` (main.c:117) or `PLAT_PIZZA` (main.c:294), and the queue never inspects `plat`.
- `Commande` fields are 32-bit `int`; the model never does arithmetic on them, so no wrap-around arises.
