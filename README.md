# kill-tree: the Unix tree killer

This project models the Unix side of `kill-tree`, a library that kills a
process and every process it spawned. One kill request does the following:

1. It validates the root process id. The kernel process (id 0) and the init
   process (id 1) are refused. So is any id above the largest id the system
   can assign.
2. It resolves the configured signal name.
3. It takes a snapshot of the process table.
4. It plans the subtree as a list of ids, root first.
5. It signals that list from the last id to the first, so the root is
   signalled last. A process that has already exited (the kernel answers
   ESRCH, "no such process") counts as killed. Any other kernel error stops
   the request at once.
6. It returns the planned list in planned order.

Two modules:

- `Common` (`common.dfy`) holds the values a request works with: the
  unsigned 32-bit process id, error numbers, signals, the killer and its
  configuration, and the error kinds. It also holds `Host`, which bundles the
  services the killer calls as plain values: the largest assignable id, the
  signal-name parser, the process-table snapshot, the subtree planner and the
  kernel's answer to each signal delivery.
- `Unix` (`unix.dfy`) holds the operations of `lib/src/unix.rs`. Validation,
  signal parsing and the ESRCH classification are functions.
  `KillTree` is a method with the source's loop. A ghost out-parameter
  `sent` records every process id the signal was sent to, in order.

The kernel's answer is a function of the delivery's position in the request,
the process id and the signal. Because the position is an input, the answer
may change as the request goes on; for example, a process may exit between
two deliveries. Nothing is assumed about the planned list: it may be empty
and it may repeat ids.

## Model

| member | source | states |
|---|---|---|
| `Unix.ValidatePidWithAvailableMax` | lib/src/unix.rs:27-54 | Id 0 is refused with the kernel-process error and id 1 with the init-process error, whatever the maximum is, even a maximum of 0. The root is accepted exactly when `1 < pid <= availableMax`, so equality is accepted. Any other id of 2 or more is refused with the too-large error carrying both the id and the maximum. |
| `Unix.ParseSignal` | lib/src/unix.rs:56-62 | Parsing succeeds exactly when the signal library recognises the configured name, and then yields that signal. An unrecognised name fails with EINVAL, which is the invalid-argument error the test at lib/src/unix.rs:104-119 expects. |
| `Unix.Kill` | lib/src/unix.rs:64-75 | A delivery counts as done exactly when the kernel reports success or ESRCH. Any other kernel error `e` becomes `Err(Os(e))`, and that `e` is never ESRCH. |
| `Unix.KillTree` | lib/src/unix.rs:13-23 | The steps run in the source's order and the first failure is the result. A failed validation returns its error. Otherwise an unknown signal name returns EINVAL. Otherwise a failed snapshot returns its error. In all three cases no signal is sent. After that, the k-th signal goes to `ids[|ids|-1-k]`, so the root, planned first, is signalled last. The request succeeds exactly when every delivery along the reversed plan succeeds, ESRCH included. It then returns the plan unreversed, which equals `Reverse(sent)`, and `sent` is the whole reversed plan. Otherwise the result is the error of the first failing delivery along the reversed plan. The last id in `sent` is that delivery's target, every earlier delivery succeeded, and no later id was tried. |
| `Unix.Reverse` | lib/src/unix.rs:19 | The reversal of the plan that the loop walks through (`iter().rev()`). It has the same length as the plan. |
| `Unix.ReverseAt` | lib/src/unix.rs:19 | The k-th id of the reversed plan is the k-th id from the end of the plan. |
| `Unix.PrefixOfReverse` | lib/src/unix.rs:19 | A list that gives the plan's first ids from the end is a prefix of the reversed plan. When it has one entry per planned id, it is the whole reversed plan. This is the order that the loop's signals follow. |
| `Unix.ReverseReverse` | lib/src/unix.rs:19-22 | Reversing the reversed plan gives back the plan. So the list returned at line 22 is the reverse of the order in which the ids were signalled. |

## Left out

- The body of `validate_pid`, which finds the largest assignable process id, is not part of this model. The maximum is an input (`Host.availableMax`). Any failure of that lookup itself is not modelled.
- The signal library's name parser is an input (`Host.signalFromStr`). Which names and numbers it accepts is not modelled.
- `get_process_infos`, `get_process_id_map` and `get_process_ids_to_kill` are not part of this model. The snapshot is an input (`Host.processInfos`), and so is the function from the root id and a snapshot to the planned ids (`Host.processIdsToKill`). So subtree discovery, cycle protection and a missing root are not modelled. Nothing in `lib/src/unix.rs` constrains the planned list, so the model assumes no property of it.
- The signal system call is an input (`Host.kill`). The conversion of the `u32` id to the kernel's signed id type is not modelled, and neither is what the kernel does with the signal.
- Error messages appear only as the error's kind and its payload (`KernelProcess(pid)`, `InitProcess(pid)`, `TooLarge(pid, max)`, `Os(errno)`, `Enumeration(message)`). The exact text is not modelled.
- The command-line front end (`cli/src/main.rs`) only parses arguments and prints, so it is not modelled.
- Concurrent requests are not modelled, and neither is waiting for processes to terminate. The source does neither.
- In `lib/src/unix.rs` the plan comes root first and the kill loop itself walks it in reverse (line 19). A missing root could only be reported by the subtree helpers, which are not modelled.
