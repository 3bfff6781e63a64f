# Concurrency problem runner: shared buffer and mode selection

A Dafny model of the two sequential pieces of `dmora_concurrency.c`, a
command-line runner for three classic synchronisation problems
(producers/consumers, dining philosophers, potion brewers).

- `queue.dfy`, module `ProdConQueue`: the buffer the producers and consumers
  share. It is the global array `Queue` of `PRO_CON_QUEUE_SIZE` (100) integers
  and the global cursor `Q_Index`, with `queue_full`, `queue_empty`,
  `queue_push` and `queue_pop`. `SharedQueue` is a class that holds the array
  and the cursor and updates them in place, as the C functions do. Its methods
  are proved against the value-level functions `Pushed` and `Popped` on
  `QueueState`, and `Replay` extends these two to any serialised history of
  calls. The main results are memory safety and the cursor
  invariant. Every array access is in bounds, and the cursor stays in
  `[0, 99]` after any serialised history of pushes and pops.
- `command_line.dfy`, module `CommandLine`: `enum Model`, `parse_command_line`
  and the exit status of `main`. The output of `getopt` and `atoi` is the
  input here, as a sequence of decoded options (`Opt`). `ParseCommandLine` is
  the option loop, written imperatively with its early return. It is proved
  equal to the reference function `Parse`, which is `ParseLoop` followed by
  `CountCheck`. Lemmas about `ParseLoop` state the rules of the loop: the
  last mode option wins, the last `-n`/`-c` value wins, an unknown option
  stops parsing, and an option missing its value is skipped.

Where the code does something other than its names and messages suggest, the
model follows the code:

- The buffer is called `Queue`, but it is not a first-in-first-out queue. It is
  one array with one cursor, used like a stack. `queue_pop` reads at the
  cursor itself (not one below it) and then moves it down. So below the top
  slot, a pop right after a push returns the slot above the pushed value
  (`PopAfterPushReadsAbove`). At the top slot the push overwrites slot 99 and
  the pop returns the pushed value (`PopAfterPushAtTop`).
- The array has `PRO_CON_QUEUE_SIZE = 100` slots (dmora_concurrency.c:77), but
  `queue_full` holds at cursor 99. From the empty buffer that is reached after
  99 pushes, not 100 (`PushesFillUpwards`). A push at cursor 99 overwrites
  slot 99 and leaves the cursor there.
- The post-loop check rejects a Producer/Consumer count only when it is zero.
  Negative counts pass (`NegativeCountAccepted`), although the message printed
  at dmora_concurrency.c:225-226 asks for values greater than zero.

## Model

| member | source | states |
|---|---|---|
| `ProdConQueue.Pushed` | dmora_concurrency.c:97-103 | From a well-formed buffer, a push stores the value at the old cursor and leaves every other slot as it was. The cursor rises by one below 99 and stays at 99 otherwise, so the result is well-formed again. |
| `ProdConQueue.Popped` | dmora_concurrency.c:105-113 | From a well-formed buffer, a pop returns the slot at the cursor itself and leaves every slot unchanged. The cursor drops by one when positive and stays at 0 otherwise, so the result is well-formed again. |
| `ProdConQueue.Replay` | dmora_concurrency.c:97-113 | Any sequence of push and pop calls from a well-formed buffer, serialised as the mutex serialises them, ends in a well-formed buffer. Every access in the history is therefore in bounds. |
| `ProdConQueue.PushesFillUpwards` | dmora_concurrency.c:89-103 | Pushes that stay below the last slot fill consecutive slots upwards from the cursor with exactly the pushed values. The cursor ends at its start plus the number of pushes, and slots outside that range are untouched. From empty, full is reached after 99 pushes. |
| `ProdConQueue.PopAfterPushReadsAbove` | dmora_concurrency.c:97-113 | Below the top, a pop after a push brings the cursor back to where the push wrote. It returns the slot above that, not the pushed value. |
| `ProdConQueue.PopAfterPushAtTop` | dmora_concurrency.c:97-113 | At the top slot, a push overwrites slot 99 and leaves the cursor at 99. The pop right after it returns the pushed value and moves the cursor to 98. |
| `ProdConQueue.SharedQueue.constructor` | dmora_concurrency.c:82-83 | The globals start with every slot and the cursor at zero, which satisfies the buffer invariant. |
| `ProdConQueue.SharedQueue.Full` | dmora_concurrency.c:89-91 | `queue_full` is `Q_Index >= 99`. Under the invariant, it holds exactly when the cursor is on the last slot. |
| `ProdConQueue.SharedQueue.Empty` | dmora_concurrency.c:93-95 | `queue_empty` is `Q_Index == 0`. It is never true together with `queue_full`, for any cursor value. |
| `ProdConQueue.SharedQueue.Push` | dmora_concurrency.c:97-103 | `queue_push` writes `Queue[Q_Index]` in bounds and keeps `Q_Index` in `[0, 99]`. It stores the value at the old cursor and changes no other slot. The cursor rises by one below 99 and stays at 99 otherwise, exactly as `Pushed` describes. |
| `ProdConQueue.SharedQueue.Pop` | dmora_concurrency.c:105-113 | `queue_pop` reads `Queue[Q_Index]` in bounds, returns the value at the old cursor and leaves the array unchanged. The cursor drops by one when positive and stays at 0 otherwise, exactly as `Popped` describes. |
| `CommandLine.CountCheck` | dmora_concurrency.c:224-228 | After the loop, Producer/Consumer with a zero producer or consumer count becomes None. It stays Producer/Consumer exactly when both counts are non-zero. Every other mode, Diners and Brewers included, is never changed, and the counts are never changed. |
| `CommandLine.ParseCommandLine` | dmora_concurrency.c:181-233 | The option loop, with its early return on an unknown option and the count check after the loop, ends in exactly the settings the reference function `Parse` gives. |
| `CommandLine.ExitCode` | dmora_concurrency.c:253-285 | The status `main` computes at lines 256-260 and 284 is -1 or 0. It is 0 exactly when `argc > 1` and the mode left by parsing from `ProblemType = None` and zero counts is not None, once the selected run has returned. |
| `CommandLine.LastModeFlagWins` | dmora_concurrency.c:183-221 | When no unknown option stops the loop, the mode after the loop is the one written by the last option that writes it. `-d`, `-b` and `-p` write Diners, Brewers and Producer/Consumer, and the switch's default branch writes None. |
| `CommandLine.ModeKeptWithoutFlags` | dmora_concurrency.c:183-221 | When no option writes the mode and none stops the loop, the mode is the one the loop started with. |
| `CommandLine.LastProducerCountWins` | dmora_concurrency.c:197-199 | The producer count after the loop is the value of the last `-n`, provided no unknown option came before it. An unknown option after it does not change the count. |
| `CommandLine.ProducersKeptWithoutValues` | dmora_concurrency.c:197-199 | Without any `-n` value, the producer count after the loop is the one it started with. |
| `CommandLine.LastConsumerCountWins` | dmora_concurrency.c:201-203 | The consumer count after the loop is the value of the last `-c`, provided no unknown option came before it. An unknown option after it does not change the count. |
| `CommandLine.ConsumersKeptWithoutValues` | dmora_concurrency.c:201-203 | Without any `-c` value, the consumer count after the loop is the one it started with. |
| `CommandLine.UnknownOptionStops` | dmora_concurrency.c:205-216 | An unknown option sets the mode to None and ends parsing. The result equals the settings reached before it, with mode None, whatever options follow. |
| `CommandLine.MissingValueSkipped` | dmora_concurrency.c:205-210 | `-n` or `-c` without a value leaves mode and counts unchanged, and parsing continues. The result equals the result with that option removed. |
| `CommandLine.ProdConNeedsBothCounts` | dmora_concurrency.c:224-228 | Parsing starts from zero counts. So the final mode can be Producer/Consumer only if at least one `-n` and at least one `-c` option were read. |
| `CommandLine.NegativeCountAccepted` | dmora_concurrency.c:224-228 | The count check only rejects zero. For every negative `n` and non-zero `c`, `-p -n n -c c` ends in Producer/Consumer with those counts. |

## Left out

- `produce`, `consume` and `run_prodcon` (thread creation and joining, the mutex, the condition variables, the busy wait for termination). They are concurrency, not sequential logic. The model covers the buffer calls they make under the mutex: `Replay` covers any serialised order of those calls.
- `random_sleep`: randomness, a clock and floating point.
- `run_diners` and `run_brewers`: they only print. The file contains no dining-philosophers or brewers logic.
- `getopt` and `atoi`: library calls. Their output is the `Opt` sequence. `Unexpected` stands for the switch's default branch, which `getopt` never reaches with the option string `"dbpn:c:"`. It is modelled anyway because the code has the branch.
- Printing: every `printf`, `print_help`, `print_heading`, and the "extra parameters" warning after the count check (it only prints).
- `srandom(time(0))` in `main`: it only seeds the sleeps.
- CommandLine.ExitCode: `run_prodcon`, as written, never returns. Nothing in the file sets `TerminationRequested` (dmora_concurrency.c:45), so the wait at line 163 spins forever. The status 0 at line 284 is therefore only reached for Diners and Brewers. `ExitCode` gives the status `main` would compute if the run returned.
- The relation between `argc` and the option sequence is not modelled. `ExitCode` takes both as given.
- C `int` width: counts are unbounded integers. `atoi`'s range is not modelled, because nothing computes with the counts.
