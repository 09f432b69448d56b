/** The values the Unix tree killer works with: the killer itself, its
    configuration, its errors, and the operating-system services it calls,
    which this model takes as given values rather than code. */
module Common {

  /** An unsigned 32-bit process identifier, as the killer stores it. */
  newtype u32 = x: int | 0 <= x < 0x1_0000_0000

  /** An operating-system error number, by its numeric code. */
  datatype Errno = Errno(code: nat)

  /** "No such process": the target exited before the signal reached it. */
  const ESRCH := Errno(3)

  /** "Invalid argument": also what parsing an unknown signal name yields. */
  const EINVAL := Errno(22)

  /** A platform signal, by its number. */
  datatype Signal = Signal(number: nat)

  datatype Option<+T> = None | Some(value: T)

  datatype Result<+T, +E> = Ok(value: T) | Err(error: E)

  /** One row of a process-table snapshot. */
  datatype ProcessInfo = ProcessInfo(processId: u32, parentProcessId: u32, name: string)

  /** The user's options: the signal, as a name or a number. */
  datatype Config = Config(signal: string)

  /** A kill request: the root of the tree to kill and how to kill it. */
  datatype TreeKiller = TreeKiller(processId: u32, config: Config)

  /** Every way a kill request can fail. */
  datatype Error =
    | KernelProcess(processId: u32)                // the root is the kernel process
    | InitProcess(processId: u32)                  // the root is the init process
    | TooLarge(processId: u32, availableMax: u32)  // the root exceeds the largest assignable id
    | Os(errno: Errno)                             // an error number from the signal library or the kernel
    | Enumeration(message: string)                 // the process table could not be read

  /** The services around the killer, each fixed for one request:
      - availableMax: the largest process id the system can assign;
      - signalFromStr: the signal library's parser of signal names;
      - processInfos: the snapshot of the process table, or why it failed;
      - processIdsToKill: the planner that turns the root id and a snapshot
        into the planned ids;
      - kill: the kernel's answer to the n-th signal delivery of this request
        (counting from 0) to a process id. Indexing by n lets the answer change
        as the request goes on, e.g. when a process exits by itself. */
  datatype Host = Host(
    availableMax: u32,
    signalFromStr: string -> Option<Signal>,
    processInfos: Result<seq<ProcessInfo>, string>,
    processIdsToKill: (u32, seq<ProcessInfo>) -> seq<u32>,
    kill: (nat, u32, Signal) -> Result<(), Errno>)
}
