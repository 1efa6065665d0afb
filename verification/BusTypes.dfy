/**
 Constants, values and the event history shared by the Layer-2 bus command stack
 (`linux/bus_controller/demux.c` and `cmd_tracker.c`).
 */
module BusTypes {
  import opened Options

  const PENDING_MAX: nat := 24
  const SLOT_MAX: nat := 16
  const CMD_QUEUE_DEPTH: nat := 5
  const CMD_ARG_MAX: nat := 96
  const COMM_PAYLOAD_MAX: nat := 128
  const SHELL_EXEC_HDR: nat := 4
  const BUS_EXEC_HDR: nat := 6

  const ACK_TIMEOUT_MS: nat := 1500
  const MAX_ACK_RETRIES: nat := 2
  const EXEC_MARGIN_MS: nat := 1000

  const STATUS_TIMEOUT: nat := 0xFF
  const STATUS_LINK_DOWN: nat := 0xFE
  const STATUS_BUSY: nat := 0xFD

  /** Returned by a send that failed; also a value a truncated request id can take. */
  const ERROR_RID: nat := 0xFFFF

  type u64 = x: int | 0 <= x < 0x1_0000_0000_0000_0000

  /** `now - since` on uint64_t: wraps when `since` lies ahead of `now`. */
  function Elapsed(now: u64, since: u64): u64 {
    if since <= now then now - since else now - since + 0x1_0000_0000_0000_0000
  }

  /** A request id as it travels on the wire: the allocation counter cut to 16 bits. */
  function Wire(id: nat): (rid: nat)
    ensures rid < 0x1_0000
    ensures id < 0x1_0000 ==> rid == id
  {
    id % 0x1_0000
  }

  /** What a client hands to `cmd_tracker_submit`. */
  datatype Request = Request(commandId: nat, argsLen: nat, execTimeout: nat)

  /** A queued or in-flight command (`cmd_entry_t`); `handle` is the full-width count. */
  datatype Cmd = Cmd(handle: nat, req: Request)

  /** The callback and user pointer of a pending request: a tracker slot, or a caller of the shell lane. */
  datatype Owner = SlotOwner(slot: nat) | ShellOwner(tag: nat)

  /** A pending request. `at` is history: the place in it of the event that registered the request. */
  datatype Entry = Free | Used(rid: nat, owner: Owner, sentMs: u64, at: nat)

  datatype Phase = Idle | Sent | Inflight

  datatype Slot = Slot(
    inUse: bool, addr: nat, phase: Phase, q: seq<Cmd>, inflight: Option<Cmd>,
    rid: nat, sentMs: u64, ackMs: u64, retries: nat, faulted: bool)

  const CLEARED_SLOT := Slot(false, 0, Idle, [], None, 0, 0, 0, 0, false)

  /** The observable history: what was accepted, put on the wire, and completed. */
  datatype Event =
    | Accepted(addr: nat, handle: nat)
    | Transmitted(addr: nat, handle: nat, rid: nat, at: u64, wireTimeout: nat)
    | Done(addr: nat, handle: nat, status: nat)
    | ShellSent(tag: nat, rid: nat)
    | ShellDone(tag: nat, rid: nat, status: nat)

  datatype DemuxState = DemuxState(table: seq<Entry>, nextId: nat, up: bool, clean: bool)

  /** The tracker over its demux. `clean`, `hist` and the `at` of entries are history: the code never reads them. */
  datatype State = State(
    dx: DemuxState, slots: seq<Slot>, nextHandle: nat, now: u64, acks: nat, hist: seq<Event>)

  /** What a completion callback may do before it returns. */
  datatype Action =
    | DoSubmit(addr: nat, req: Request)
    | DoShell(tag: nat, argsLen: nat)

  /**
   Everything the stack does not control. `accepts` says whether an up link takes the frame of
   the n-th allocated id, `clock` is the monotonic clock read when an event at that place of the
   history registers a request, and `react` lists what the callback fired there does.
   `abort` is the same for the callbacks a reset fires, given also the slave that is being reset.
   All four are arbitrary, so a fixed Env stands for any behaviour of one run.
   */
  datatype Env = Env(
    accepts: nat -> bool, clock: nat -> u64, react: nat -> seq<Action>, abort: (nat, nat) -> seq<Action>)

  /** None of these submits to the slave at `addr`. */
  predicate SparesSlave(acts: seq<Action>, addr: nat) {
    forall k :: 0 <= k < |acts| && acts[k].DoSubmit? ==> acts[k].addr != addr
  }

  /** No callback a reset fires submits to the slave that is being reset. */
  ghost predicate Polite(env: Env) {
    forall n, addr :: SparesSlave(env.abort(n, addr), addr)
  }

  /** The u32 API field clamped to the u16 wire field. */
  function WireTimeout(execTimeout: nat): (t: nat)
    ensures t <= execTimeout && t <= 0xFFFF
    ensures execTimeout <= 0xFFFF ==> t == execTimeout
  {
    if execTimeout > 0xFFFF then 0xFFFF else execTimeout
  }
}
