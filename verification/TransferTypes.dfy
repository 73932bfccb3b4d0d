/**
 The documents the transfer scheduler keeps (rawjobs, sjobs with their blocks and flows, sites), the
 in-memory site counters, and the ledger of network resources the outside world has handed out.

 An sjob is identified by its position in the collection, a block and a flow by their position inside
 the sjob: the identifiers of the source are store ids and guids, which are never reissued.
 */
module TransferTypes {
  import opened Collections
  import Wan

  type SiteId = string

  /**
   The answer to an SDN request. Each site's controller numbers its own paths from one; a site answers
   with zero when the DTN needs no SDN setup, which succeeds and installs nothing.
   */
  datatype PathId = PathId(site: SiteId, id: int)

  datatype RawState = RawWaiting | RawTransferring | RawFinished | RawError

  datatype SjobState =
    | Waiting | Transferring | Finished | Error | Bootstrap | DtnMatching | WanSetup | SdnSetup
    | PathVerification | Launching | ChecksumVerification | SdnTeardown | WanTeardown

  datatype BlockState = BlockWaiting | BlockTransferring | BlockFinished

  datatype FlowState =
    | FlowScheduling | FlowSetting | FlowTransferring | FlowWaiting
    | FlowWaitingToBeTeared | FlowTearing | FlowDone | FlowError

  datatype Block = Block(size: nat, state: BlockState, tx: int)

  /** The network resources of a flow: a path id of -1 and an empty circuit uuid are `None`. */
  datatype Paths = Paths(src: Option<PathId>, dst: Option<PathId>, wan: Option<Wan.Uuid>)

  /** The launcher's side of a task: reports still to be expected. */
  datatype Task = TaskSilent | TaskLaunched | TaskStarted

  /** A flow; `task` is the launcher's automaton for the flow's task id, not a stored field. */
  datatype Flow = Flow(state: FlowState, block: nat, tx: int, paths: Paths, lastActive: int, task: Task)

  /** An sjob; `launches` counts launch calls and is a history variable. */
  datatype Sjob = Sjob(
    raw: nat, src: SiteId, dst: SiteId, state: SjobState, tx: int, retry: nat,
    blocks: seq<Block>, flows: seq<Flow>, launches: nat)

  /**
   A rawjob. `dropped` and `rolledBack` are history variables: bytes its sjobs counted that an aborted
   poll never added to the rawjob, and bytes taken back from the rawjob after failed checksums.
   */
  datatype RawJob = RawJob(src: SiteId, dst: SiteId, state: RawState, tx: int, dropped: int, rolledBack: int)

  datatype Txrx = Txrx(tx: int, rx: int)

  /** What SDN controllers and the circuit service have been asked for so far. */
  datatype Ledger = Ledger(
    installed: multiset<PathId>, released: multiset<PathId>, wan: map<Wan.Uuid, seq<Wan.Call>>)

  datatype State = State(
    raws: seq<RawJob>, sjobs: seq<Sjob>,
    base: map<SiteId, Txrx>, sites: map<SiteId, Txrx>, mem: map<SiteId, Txrx>, net: Ledger)

  /** A flow that owns its network resources. */
  predicate Live(f: Flow) { f.state == FlowSetting || f.state == FlowTransferring }

  // ----- the store's update operations; like the database, they do nothing when nothing matches

  function SetFlow(s: Sjob, f: nat, fl: Flow): Sjob {
    if f < |s.flows| then s.(flows := s.flows[f := fl]) else s
  }

  function SetFlowState(s: Sjob, f: nat, x: FlowState): Sjob {
    if f < |s.flows| then SetFlow(s, f, s.flows[f].(state := x)) else s
  }

  function SetBlockState(s: Sjob, b: nat, x: BlockState): Sjob {
    if b < |s.blocks| then s.(blocks := s.blocks[b := s.blocks[b].(state := x)]) else s
  }

  function AddFlowTx(s: Sjob, f: nat, d: int): Sjob {
    if f < |s.flows| then SetFlow(s, f, s.flows[f].(tx := s.flows[f].tx + d)) else s
  }

  function AddBlockTx(s: Sjob, b: nat, d: int): Sjob {
    if b < |s.blocks| then s.(blocks := s.blocks[b := s.blocks[b].(tx := s.blocks[b].tx + d)]) else s
  }

  /** `increment_site_field` changes an existing site document only. */
  function AddSite(sites: map<SiteId, Txrx>, k: SiteId, tx: int, rx: int): map<SiteId, Txrx> {
    if k in sites then sites[k := Txrx(sites[k].tx + tx, sites[k].rx + rx)] else sites
  }

  /** `site_txrx[k]` creates a zero entry for an unknown site. */
  function AddMem(mem: map<SiteId, Txrx>, k: SiteId, tx: int, rx: int): map<SiteId, Txrx> {
    var was := if k in mem then mem[k] else Txrx(0, 0);
    mem[k := Txrx(was.tx + tx, was.rx + rx)]
  }

  function AddBoth(st: State, src: SiteId, dst: SiteId, d: int): State {
    st.(sites := AddSite(AddSite(st.sites, src, d, 0), dst, 0, d),
        mem := AddMem(AddMem(st.mem, src, d, 0), dst, 0, d))
  }
}
