/** Processes as the inventory lists them. */
module Procs {
  /** A process is told apart by its start time as well, so a reused pid is another process. */
  datatype Identity = Identity(pid: int, started: nat)

  datatype ProcInfo = ProcInfo(pid: int, started: nat, ppid: int, name: string)
  {
    function Id(): Identity {
      Identity(pid, started)
    }
  }
}
