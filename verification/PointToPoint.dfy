/**
  The life of point-to-point cookies across processes: handles, transfers, waiting and reclamation.
  Nodes keep their identity when they are reused, so a stale handle would be visible here. Which
  matching cookie is taken, which free node is reused and which are erased is left open, so the
  results hold for first-fit matching, front-of-list reuse and every trigger.
 */
module PointToPoint {
  import opened Basics

  datatype Spot = Inbox | Outbox | Pending | Free | Erased

  /** Progress of the one transfer a point-to-point cookie owes. */
  datatype Stage = Unmatched | Matched | Copied | Done

  /** The creator: has not waited yet, asleep, notified, its wait is over, its handle is given up. */
  datatype Creator = Running | Blocked | Signalled | Returned | Left

  /** `home`: whose lists link the node. `owner`: who created the request, and waits on it. */
  datatype Node = Node(
    home: nat, owner: nat, spot: Spot, used: int, busy: int, creator: Creator, peer: bool, stage: Stage)

  datatype Action =
    | Post(home: nat, owner: nat, spot: Spot, reuse: Option<nat>)
    | Match(id: nat)       // splice to pending and join, under the home process's lock
    | Copy(id: nat)
    | Notify(id: nat)
    | Wait(id: nat)
    | Wake(id: nat)
    | CreatorLeave(id: nat)
    | PeerLeave(id: nat)
    | Erase(id: nat)

  predicate Enabled(w: seq<Node>, a: Action) {
    match a
    case Post(home, owner, spot, reuse) =>
      && (spot == Inbox || (spot == Outbox && home == owner))
      && (reuse.Some? ==> reuse.value < |w| && w[reuse.value].spot == Free && w[reuse.value].home == home)
    case Match(id) => id < |w| && (w[id].spot == Inbox || w[id].spot == Outbox)
    case Copy(id) => id < |w| && w[id].peer && w[id].stage == Matched
    case Notify(id) => id < |w| && w[id].peer && w[id].stage == Copied
    case Wait(id) => id < |w| && w[id].creator == Running && w[id].spot != Free && w[id].spot != Erased
    case Wake(id) => id < |w| && (w[id].creator == Blocked || w[id].creator == Signalled)
    case CreatorLeave(id) => id < |w| && w[id].creator == Returned
    case PeerLeave(id) => id < |w| && w[id].peer && w[id].stage == Done
    case Erase(id) => id < |w| && w[id].spot == Free
  }

  function NewNode(home: nat, owner: nat, spot: Spot): Node {
    Node(home, owner, spot, 1, 1, Running, false, Unmatched)
  }

  /** `finalize` run by process p: its pending nodes without handles become free. */
  function Swept(node: Node, p: nat): Node {
    if node.home == p && node.spot == Pending && node.used == 0 then node.(spot := Free) else node
  }

  function Sweep(w: seq<Node>, p: nat): seq<Node> {
    seq(|w|, i requires 0 <= i < |w| => Swept(w[i], p))
  }

  function Next(w: seq<Node>, a: Action): seq<Node>
    requires Enabled(w, a)
  {
    match a
    case Post(home, owner, spot, reuse) =>
      var node := NewNode(home, owner, spot);
      if reuse.Some? then w[reuse.value := node] else w + [node]
    case Match(id) => w[id := w[id].(spot := Pending, used := w[id].used + 1, peer := true, stage := Matched)]
    case Copy(id) => w[id := w[id].(stage := Copied)]
    case Notify(id) =>
      var busy := w[id].busy - 1;
      w[id := w[id].(busy := busy, stage := Done,
                     creator := if busy == 0 && w[id].creator == Blocked then Signalled else w[id].creator)]
    case Wait(id) => w[id := w[id].(creator := if w[id].busy != 0 then Blocked else Returned)]
    case Wake(id) => w[id := w[id].(creator := if w[id].busy != 0 then Blocked else Returned)]
    case CreatorLeave(id) => Sweep(w[id := w[id].(creator := Left, used := w[id].used - 1)], w[id].owner)
    case PeerLeave(id) => Sweep(w[id := w[id].(peer := false, used := w[id].used - 1)], w[id].owner)
    case Erase(id) => w[id := w[id].(spot := Erased)]
  }

  /** Handles on a node that have not been given up. */
  function Handles(node: Node): nat {
    (if node.creator != Left then 1 else 0) + (if node.peer then 1 else 0)
  }

  ghost predicate NodeInv(node: Node) {
    && node.used == Handles(node)
    && (node.stage == Unmatched <==> node.spot == Inbox || node.spot == Outbox)
    && (node.stage == Done ==> node.busy == 0 && node.creator != Blocked)
    && (node.stage != Done ==> node.busy == 1 && (node.creator == Running || node.creator == Blocked))
    && (node.stage == Unmatched ==> !node.peer)
    && (node.stage == Matched || node.stage == Copied ==> node.peer && node.spot == Pending)
    && (node.spot == Free || node.spot == Erased ==> node.used == 0)
    && (node.spot == Outbox ==> node.home == node.owner)
    && (node.used == 0 && node.home == node.owner ==> node.spot == Free || node.spot == Erased)
  }

  /** The nodes after a sequence of steps, or None when one of them was not enabled. */
  function After(acts: seq<Action>): Option<seq<Node>> {
    if acts == [] then Some([]) else
    var prior := After(acts[..|acts| - 1]);
    var a := acts[|acts| - 1];
    if prior.None? || !Enabled(prior.value, a) then None else
    Some(Next(prior.value, a))
  }

  lemma {:induction false} EveryNode(acts: seq<Action>, id: nat)
    requires After(acts).Some? && id < |After(acts).value|
    ensures NodeInv(After(acts).value[id])
  {
    var prior := After(acts[..|acts| - 1]).value;
    var a := acts[|acts| - 1];
    if id < |prior| { EveryNode(acts[..|acts| - 1], id); }
  }

  /**
    In every run: `used_` is the number of live handles; a node with a live handle is neither free nor
    erased, so a reset never touches a request somebody still holds; and a node is on no box once matched.
   */
  lemma HandleSafety(acts: seq<Action>, id: nat)
    requires After(acts).Some? && id < |After(acts).value|
    ensures var node := After(acts).value[id];
      && node.used == (if node.creator != Left then 1 else 0) + (if node.peer then 1 else 0)
      && (node.creator != Left || node.peer ==> node.spot != Free && node.spot != Erased)
      && (node.spot == Inbox || node.spot == Outbox <==> node.stage == Unmatched)
      && (node.spot == Outbox ==> node.home == node.owner)
      && (node.used == 0 && node.home == node.owner ==> node.spot == Free || node.spot == Erased)
  {
    EveryNode(acts, id);
  }

  /** Giving up a handle reclaims every finished node on the pending list of the process that owns the request. */
  lemma LeavingReclaims(acts: seq<Action>, a: Action, id: nat)
    requires After(acts).Some? && (a.CreatorLeave? || a.PeerLeave?) && Enabled(After(acts).value, a)
    requires id < |After(acts).value| && After(acts).value[id].home == After(acts).value[a.id].owner
    ensures id < |Next(After(acts).value, a)|
    ensures var node := Next(After(acts).value, a)[id]; node.spot == Pending ==> node.used > 0
  {
    EveryNode(acts, id);
  }

  /** Only a creator asleep is signalled, and only by the report of its transfer. */
  lemma SignalsSleepers(acts: seq<Action>, a: Action, id: nat)
    requires After(acts).Some? && Enabled(After(acts).value, a) && id < |After(acts).value|
    ensures id < |Next(After(acts).value, a)|
    ensures var node, later := After(acts).value[id], Next(After(acts).value, a)[id];
      later.creator == Signalled ==>
        node.creator == Signalled || (node.creator == Blocked && a == Notify(id) && later.stage == Done)
  {
    EveryNode(acts, id);
  }

  /** Reusing a node for a new request disturbs no handle and no outstanding transfer. */
  lemma ReuseIsSafe(acts: seq<Action>, a: Action)
    requires After(acts).Some? && a.Post? && a.reuse.Some? && Enabled(After(acts).value, a)
    ensures var node := After(acts).value[a.reuse.value];
      node.creator == Left && !node.peer && node.stage == Done && node.busy == 0 && node.home == a.home
  {
    EveryNode(acts, a.reuse.value);
  }

  /** A transfer moves bytes only while the creator is in, or before, its wait. */
  lemma NoTransferAfterCompletion(acts: seq<Action>, id: nat)
    requires After(acts).Some? && (Enabled(After(acts).value, Copy(id)) || Enabled(After(acts).value, Notify(id)))
    ensures var node := After(acts).value[id];
      node.busy == 1 && node.spot == Pending && (node.creator == Running || node.creator == Blocked)
  {
    EveryNode(acts, id);
  }

  /** Asleep means unfinished; once the transfer is reported the creator is never left asleep. */
  lemma NoLostWakeup(acts: seq<Action>, id: nat)
    requires After(acts).Some? && id < |After(acts).value|
    ensures var node := After(acts).value[id];
      && (node.creator == Blocked ==> node.busy > 0 && node.stage != Done)
      && (node.stage == Done <==> node.busy == 0)
      && (node.creator == Returned || node.creator == Left ==> node.stage == Done)
  {
    EveryNode(acts, id);
  }

  // ---------- progress ----------

  /** A message can always be left with any process, and a receive posted, on a new node or a free one of its home. */
  lemma {:induction false} AnyoneCanPost(acts: seq<Action>, home: nat, owner: nat, reuse: Option<nat>)
    requires After(acts).Some?
    requires reuse.Some? ==> reuse.value < |After(acts).value|
    requires reuse.Some? ==> After(acts).value[reuse.value].spot == Free && After(acts).value[reuse.value].home == home
    ensures Enabled(After(acts).value, Post(home, owner, Inbox, reuse))
    ensures Enabled(After(acts).value, Post(home, home, Outbox, reuse))
  {
  }

  /** Steps before both sides of a request are through. */
  ghost function Ahead(node: Node): nat {
    (match node.stage case Unmatched => 9 case Matched => 6 case Copied => 4 case Done => 0)
    + (match node.creator case Running => 3 case Blocked => 3 case Signalled => 2 case Returned => 1 case Left => 0)
    + (if node.peer then 1 else 0)
  }

  /** The step that brings a request on: its match, its transfer, the end of its wait, and then both leave. */
  function Onward(node: Node, id: nat): Action {
    match node.stage
    case Unmatched => Match(id)
    case Matched => Copy(id)
    case Copied => Notify(id)
    case Done =>
      match node.creator
      case Running => Wait(id)
      case Returned => CreatorLeave(id)
      case Left => PeerLeave(id)
      case _ => Wake(id)
  }

  lemma StepOn(w: seq<Node>, id: nat)
    requires id < |w| && NodeInv(w[id]) && w[id].used > 0
    ensures Enabled(w, Onward(w[id], id)) && |Next(w, Onward(w[id], id))| == |w|
    ensures Ahead(Next(w, Onward(w[id], id))[id]) < Ahead(w[id])
  {
  }

  lemma Extend(acts: seq<Action>, a: Action)
    requires After(acts).Some? && Enabled(After(acts).value, a)
    ensures After(acts + [a]) == Some(Next(After(acts).value, a))
  {
    assert (acts + [a])[..|acts|] == acts;
  }

  /** Every request can be brought to its end from any reachable state: matched, moved, waited for, given up. */
  lemma {:induction false} RequestCompletes(acts: seq<Action>, id: nat) returns (all: seq<Action>)
    requires After(acts).Some? && id < |After(acts).value|
    ensures acts <= all && After(all).Some? && id < |After(all).value|
    ensures var node := After(all).value[id];
      node.used == 0 && node.creator == Left && !node.peer && node.stage == Done && node.busy == 0
    decreases Ahead(After(acts).value[id])
  {
    var w := After(acts).value;
    EveryNode(acts, id);
    if w[id].used == 0 { return acts; }
    StepOn(w, id);
    Extend(acts, Onward(w[id], id));
    all := RequestCompletes(acts + [Onward(w[id], id)], id);
  }
}
