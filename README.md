# Tetris Stack: next-pieces manager, modelled in Dafny

The program keeps the "next pieces" of a falling-block game. A look-ahead queue of five
pieces (`Fila`, a ring buffer) is kept full. A reserve stack of three pieces (`Pilha`, an array
with a top index) lets the player put a piece aside. A generator (`gerarPeca`) hands out
pieces: the shapes cycle through I, O, T, L, J, S, Z and the ids count up from 1. A menu loop
offers three actions:
- play the front piece (1);
- reserve it onto the stack (2);
- use the reserved top piece (3).

Exit is 0. Play and Reserve refill the queue right away.

The Dafny model follows the C code's own form:

- `pieces.dfy` (module `Pieces`): the `Piece` value, the capacities `QueueCap = 5` and
  `StackCap = 3`, the shape alphabet, and the id-ordering predicates.
- `queue.dfy` (module `Queues`): class `Queue` over an `array<Piece>` with `head`, `tail` and
  `count`. The ghost `Contents` is the queue head to tail, and `Valid()` ties it to the ring
  buffer: `Contents[k] == v[(head + k) % 5]`, `tail == (head + count) % 5`.
- `stack.dfy` (module `Stacks`): class `Stack` over an `array<Piece>` with `top` (-1 when
  empty). The ghost `Contents` is the stack base to top, equal to `v[..top + 1]`.
- `generator.dfy` (module `Generators`): class `Generator`. It holds the global `NEXT_ID` and the
  static shape cursor `idx` as two fields. The value `Gen` and the function `Generated` give the
  sequence of pieces that successive calls hand out.
- `flow.dfy` (module `Flow`): the three actions and one pass of the menu loop as functions on a
  `State` value (queue, stack, generator). `Run` is the menu loop over a list of commands. The
  invariant `Inv` holds for all of them:
  - the queue is full;
  - the ids read from the stack's base to its top and then from the queue's head to its tail
    strictly increase;
  - every id is below the next id to hand out.
- `controller.dfy` (module `Controllers`): class `Controller`, which owns a queue, a stack and a
  generator.
  - Its constructor creates the three objects and runs the initial fill loop (`Fill`).
  - `Play`, `Reserve`, `UseReserved` and `Act` are the branches of the menu loop.
  - `Session` is the `do/while` loop.
  - Each method is proved to change the objects exactly as the matching `Flow` function says.
- `walkthrough.dfy` (module `Walkthrough`): a worked session from program start, proved step by
  step.

What a command reports is a value of `Flow.Outcome`, one constructor per message of the menu
loop. Printing is not modelled.

## Model

| member | source | states |
|---|---|---|
| Queues.Queue.constructor | tetris.c:57-59 | `fila_init`: the queue is empty and `head`, `tail`, `count` are all 0 |
| Queues.Queue.IsFull | tetris.c:60 | `fila_cheia` is true exactly when the queue holds `QueueCap` pieces |
| Queues.Queue.IsEmpty | tetris.c:61 | `fila_vazia` is true exactly when the queue holds no piece |
| Queues.Queue.Enqueue | tetris.c:63-69 | fails exactly on a full queue and then changes nothing; otherwise the queue becomes old contents + [x]. The ring-buffer invariant, including `0 <= head, tail < 5` and `tail == (head + count) % 5`, is kept |
| Queues.Queue.Front | tetris.c:71-75 | `fila_primeiro` gives None on an empty queue and otherwise the head piece, and reads the queue without changing it |
| Queues.Queue.Dequeue | tetris.c:77-83 | None on an empty queue, with nothing changed; otherwise returns the old head (the same piece `Front` gave) and leaves the rest in order. The ring-buffer invariant is kept |
| Stacks.Stack.constructor | tetris.c:85 | `pilha_init`: the stack is empty, `top == -1` |
| Stacks.Stack.IsEmpty | tetris.c:86 | `pilha_vazia` (`top < 0`) is true exactly when the stack holds no piece |
| Stacks.Stack.IsFull | tetris.c:87 | `pilha_cheia` (`top >= S_CAP - 1`) is true exactly when the stack holds `StackCap` pieces |
| Stacks.Stack.Push | tetris.c:89-93 | fails exactly on a full stack and then changes nothing; otherwise the stack becomes old contents + [x]. `-1 <= top <= StackCap - 1` is kept |
| Stacks.Stack.Pop | tetris.c:95-99 | None on an empty stack, with nothing changed; otherwise returns the top piece and leaves the rest. `-1 <= top <= StackCap - 1` is kept |
| Stacks.PushThenPop | tetris.c:89-99 | LIFO round trip: after a successful push, a pop yields the pushed piece and restores the previous contents |
| Generators.Generator.constructor | tetris.c:54 | the generator starts with `NEXT_ID == 1` and the shape cursor at 0 ('I') |
| Generators.Generator.Generate | tetris.c:102-110 | returns the shape at the cursor with id `old NEXT_ID`; the id then grows by 1 and the cursor advances modulo 7 |
| Generators.Generated | tetris.c:102-110 | the pieces of n successive generations: exactly n of them |
| Generators.GeneratedAt | tetris.c:103-108 | the k-th of those pieces has shape `Shapes[(cursor + k) % 7]` and id `nextId + k` |
| Generators.IdsStrictlyIncrease | tetris.c:107 | each generated id is strictly greater than every earlier one and below the generator's next id |
| Generators.ShapesRepeatEverySeven | tetris.c:103-108 | seven generations later the same shape comes back, with an id larger by 7 |
| Generators.FirstSeven | tetris.c:103-108 | from program start the first seven pieces are I#1, O#2, T#3, L#4, J#5, S#6, Z#7 |
| Flow.Play | tetris.c:162-174 | on an empty queue nothing changes. Otherwise the front piece is played, the queue becomes its tail plus the generated piece, the stack is untouched, and the refill never fails |
| Flow.Reserve | tetris.c:175-195 | an empty queue or a full stack changes nothing. The push-failure branch of the source is kept, and the full-stack check before it means it never happens. Otherwise the front piece goes on top of the stack and the queue is refilled. Stack followed by queue is then the old stack followed by the old queue plus the new piece, so no piece is lost or duplicated |
| Flow.UseReserved | tetris.c:196-204 | never touches the queue or the generator; on an empty stack nothing changes; otherwise pops and reports the top piece |
| Flow.Step | tetris.c:162-211 | a full queue stays full, and the "queue empty" and "reserve failed" reports never occur. Every refill succeeds. Options other than 1 and 2 leave the queue and the generator alone. Options other than 1, 2 and 3 (exit, unknown) change nothing |
| Flow.Run | tetris.c:149-212 | the menu loop over a list of commands keeps the capacity bounds and gives at most one report per command |
| Flow.RunReportsUpToExit | tetris.c:149-212 | the `do/while (op != 0)` loop runs every command up to and including the first exit and reports once for each, the exit reporting Quit; with no exit in the input every command is run |
| Flow.InitialInv | tetris.c:142-147 | after the initial fill the invariant holds, the stack is empty, the queue's ids are 1..5 in order and the next id is 6 |
| Flow.StepPreservesInv | tetris.c:162-204 | every command keeps the invariant: full queue, ids increasing from the stack's base through the queue's tail, all below the next id |
| Flow.RunPreservesInv | tetris.c:149-212 | any sequence of commands keeps the invariant, so the queue is full after every command |
| Flow.PlaysAreFifo | tetris.c:162-174 | n plays on a full queue report the first n pieces of queue + generated pieces in FIFO order. They leave the next five in the queue and do not touch the stack |
| Controllers.Controller.constructor | tetris.c:137-147 | the queue holds the first five generated pieces from program start and the stack is empty: the state `Flow.Initial()` |
| Controllers.Fill | tetris.c:142-147 | the start-up loop fills an empty queue with the next five generated pieces, in order. The "fill failed" exit is unreachable |
| Controllers.Controller.Play | tetris.c:162-174 | changes queue, stack and generator exactly as `Flow.Play` and reports `Played(old front, true)` |
| Controllers.Controller.Reserve | tetris.c:175-195 | changes queue, stack and generator exactly as `Flow.Reserve`. With a full stack it reports `StackFull` and nothing changes |
| Controllers.Controller.UseReserved | tetris.c:196-204 | changes the objects exactly as `Flow.UseReserved`; the queue and the generator stay the same |
| Controllers.Controller.Act | tetris.c:162-211 | one pass of the menu loop behaves as `Flow.Step` and keeps the invariant |
| Controllers.Controller.Session | tetris.c:149-212 | the `do/while` loop over the commands behaves as `Flow.Run`: it stops after exit (0) or at the end of the input |
| Walkthrough.FillGivesFirstFive | tetris.c:142-147 | the initial queue is I#1, O#2, T#3, L#4, J#5 and the generator's next piece is S#6 |
| Walkthrough.PlayTakesFront | tetris.c:162-174 | playing from the initial queue reports I#1 and the queue becomes O#2, T#3, L#4, J#5, S#6 |
| Walkthrough.FirstReserve | tetris.c:175-195 | the next reserve moves O#2 onto the stack and appends Z#7 |
| Walkthrough.SecondReserve | tetris.c:175-195 | the next reserve moves T#3 onto the stack and appends I#8 |
| Walkthrough.ThirdReserve | tetris.c:175-195 | the next reserve moves L#4 onto the stack (now full) and appends O#9 |
| Walkthrough.RejectThenUse | tetris.c:180-203 | a fourth reserve is rejected with nothing changed (front stays J#5); using then pops L#4 |
| Walkthrough.RunRejectThenUse | tetris.c:149-212 | the loop over [2, 3] from the full stack reports StackFull, then Used(L#4) |
| Walkthrough.RunReservesThenUse | tetris.c:149-212 | the loop over [2, 2, 2, 2, 3] after the play gives the three reserves, the rejection and the use |
| Walkthrough.ExampleSession | tetris.c:149-212 | the whole session [1, 2, 2, 2, 2, 3] from the filled queue ends with stack O#2, T#3 and queue J#5, S#6, Z#7, I#8, O#9 |
| Walkthrough.SessionFromStart | tetris.c:142-212 | the same session run from program start is the one above |

## Left out

- `exibir_fila` and `exibir_pilha` (tetris.c:113-133) only print. The ghost `Contents` of the
  queue (head to tail) and of the stack (base to top) stand for what they show.
- The menu's prompts and messages, and `scanf`, are I/O. The command is an integer parameter
  (`Act`) or a list of them (`Session`). A read failure, which ends the program, is the end of
  that list. Each message is an `Outcome` value instead of printed text.
- `NEXT_ID` is a C `int`; the model's ids are unbounded, so its overflow after 2^31 - 1 pieces
  is not modelled.
- Process exit codes. The fill loop's failure exit (`return 1`, tetris.c:143-146) appears as a
  proved assertion that the enqueue succeeds, not as a code path.
- `#include`s and the unused `string.h`/`time.h`.
- `NEXT_ID` is a global and `idx` a function-local static in the C code. The model puts both in
  one `Generator` object that the controller owns; the sequence they produce is the same.
- In Reserve the source ignores `fila_desenfileirar`'s result. If that dequeue ever failed, the
  model pushes the piece `fila_primeiro` had copied into `front`, as the C code would.
