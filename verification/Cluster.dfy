/** The move protocol between any number of nodes, for one volume id
    (internal/api/push.go, internal/api/resolve.go, internal/storage/pushes.go,
    internal/storage/transfers.go, internal/storage/recover.go, QueryVolume in internal/api/api.go).

    A node has a persistent copy of the volume or none, a volatile inbound session, a volatile
    record of dead and committed transfers, and a volatile push driver. Events are the steps of all
    of them, the network's losses, crashes and restarts. Frames may come from anyone and carry
    anything.

    The guards of Enabled state what the protocol relies on:
      - ids are minted once: the id is created while no node holds anything under it;
      - a transfer id is only ever prepared for this volume id;
      - while a node is COMMITTING towards a target, the target's copy is not deleted;
      - no CommitTransfer runs after the source has an answer it acts on.
  */
module Cluster {
  import opened Digest
  import opened Sessions
  import opened Lvm

  datatype Option<+T> = None | Some(value: T)

  datatype Copy = Absent | Copy(state: State, content: Bytes, transfer: string, target: string)

  datatype Inbound = NoSession | Live(transfer: string, session: Session)

  const PUSH_ATTEMPTS: nat := 5

  // Where the push driver of a node stands. Idle also covers a driver that ended or died.
  datatype Driver =
    | Idle
    | Streaming(attempt: nat, reached: bool)   // PUSHING
    | Streamed                                // PUSHING, the stream was closed without error
    | GivingUp                                // the push failed before its commit
    | CommitSent(attempt: nat)                // COMMITTING
    | Confirmed                               // COMMITTING, the commit was answered OK
    | Denied                                  // COMMITTING, the commit was refused as data loss
    | Unsure(boot: bool)                      // COMMITTING, resolving by query
    | Answered(committed: bool)               // COMMITTING, the query was answered

  datatype Node = Node(copy: Copy, inbound: Inbound, dead: set<string>, committed: set<string>, driver: Driver)

  type Nodes = map<string, Node>

  // ------------------------------------------------------------------- the target's answers

  datatype Reply = Ok | DataLoss | NotFound | Busy | Internal

  // Ending a session: the id is spent, the lv goes unless its removal fails.
  function Destroyed(n: Node, removed: bool): Node
    requires n.inbound.Live?
  {
    n.(inbound := NoSession, dead := n.dead + {n.inbound.transfer}, copy := if removed then Absent else n.copy)
  }

  datatype Outcome = Outcome(node: Node, reply: Reply)

  // How a step of lvm goes, and what is reported of it.
  datatype Report = Works | Fails | Misreports

  // The volume becomes READY and the session ends. The commit is only remembered when it is known
  // to have landed.
  function Landing(n: Node, known: bool): Node
    requires n.inbound.Live? && n.copy.Copy?
  {
    var t := n.inbound.transfer;
    n.(copy := n.copy.(state := Ready, transfer := ""), inbound := NoSession,
       dead := n.dead + {t}, committed := if known then n.committed + {t} else n.committed)
  }

  // Transfers.Commit on one node. The report is that of sync, deactivate and retag together. After
  // a reported failure the session is destroyed, its volume too unless the removal fails.
  function CommitOn(sha: Sha, n: Node, transfer: string, digest: Bytes, report: Report, removed: bool): Outcome {
    if n.inbound.Live? && n.inbound.transfer == transfer then
      var ses := n.inbound.session;
      if ses.streaming then Outcome(n, Busy)
      else if !Accepts(sha, ses, digest) then Outcome(Destroyed(n, removed), DataLoss)
      else if report.Works? && n.copy.Copy? then Outcome(Landing(n, true), Ok)
      else if report.Misreports? && n.copy.Copy? && !removed then Outcome(Landing(n, false), Internal)
      else Outcome(Destroyed(n, removed), Internal)
    else if transfer in n.committed then Outcome(n, Ok)
    else Outcome(n, NotFound)
  }

  // QueryVolume: present and not INCOMING means the commit landed.
  predicate Answers(n: Node) {
    n.copy.Copy? && n.copy.state != Incoming
  }

  // commitPush's reaction to one answer or error.
  function React(reply: Option<Reply>, attempt: nat): Driver {
    match reply
    case Some(Ok) => Confirmed
    case Some(DataLoss) => Denied
    case Some(NotFound) => Unsure(false)
    case _ => if attempt + 1 < PUSH_ATTEMPTS then CommitSent(attempt + 1) else Unsure(false)
  }

  // streamVolume's reaction to an attempt that failed.
  function Reopen(definitive: bool, attempt: nat): Driver {
    if !definitive && attempt + 1 < PUSH_ATTEMPTS then Streaming(attempt + 1, false) else GivingUp
  }

  // ----------------------------------------------------------------------------- events

  datatype Event =
    // the orchestrator and the volume's user
    | Create(n: string, size: DeviceSize)
    | AttachIt(n: string)
    | DetachIt(n: string)
    | UserWrite(n: string, content: Bytes)
    | Resize(n: string, size: DeviceSize)
    | RollBack(n: string, content: Bytes)
    | Delete(n: string)
    | RemoveDeleted(n: string)
    | Push(n: string, transfer: string, target: string, report: Report)
    | Prepare(n: string, transfer: string, size: DeviceSize, report: Report)
    // the stream into a target
    | Slot(n: string, streaming: bool)
    | FrameTo(n: string, offset: uint64, data: Bytes, disk: Disk)
    | EndSession(n: string, removed: bool)
    // the driver of a source
    | StreamOpened(n: string)
    | StreamClosed(n: string)
    | StreamFailed(n: string, definitive: bool)
    | MarkCommitting(n: string, report: Report)
    | Deliver(n: string, report: Report, removed: bool)
    | Answer(n: string, report: Report, removed: bool)
    | NoAnswer(n: string)
    | Query(n: string)
    | QueryLost(n: string)
    | Retire(n: string, ok: bool)
    | Revert(n: string, ok: bool)
    // restarts
    | Crash(n: string)
    | Restart(n: string, ok: bool)

  ghost predicate Has(s: Nodes, n: string, state: State) {
    n in s && s[n].copy.Copy? && s[n].copy.state == state
  }

  // The target of a node's push holds the transfer live.
  ghost predicate TargetLive(s: Nodes, n: string) {
    && n in s && s[n].copy.Copy? && s[n].copy.target in s
    && var t := s[s[n].copy.target];
       t.inbound.Live? && t.inbound.transfer == s[n].copy.transfer
  }

  ghost predicate Enabled(s: Nodes, e: Event) {
    && e.n in s
    && var node := s[e.n];
       match e
       case Create(n, _) => forall m :: m in s ==> s[m].copy.Absent?
       case AttachIt(n) => Has(s, n, Ready)
       case DetachIt(n) => Has(s, n, Attached)
       case UserWrite(n, content) => Has(s, n, Attached) && |content| == |node.copy.content|
       case Resize(n, size) => (Has(s, n, Ready) || Has(s, n, Attached)) && size > |node.copy.content|
       case RollBack(n, content) => Has(s, n, Ready) && |content| < TWO_63
       case Delete(n) =>
         && (Has(s, n, Ready) || Has(s, n, Retired))
         && forall m :: Has(s, m, Committing) ==> s[m].copy.target != n
       case RemoveDeleted(n) => Has(s, n, Deleting)
       case Push(n, _, _, _) => Has(s, n, Ready)
       case Prepare(n, t, _, _) => node.copy.Absent? && node.inbound.NoSession? && t !in node.dead
       case Slot(n, _) => node.inbound.Live?
       case FrameTo(n, _, _, _) =>
         node.inbound.Live? && node.copy.Copy? && |node.copy.content| == node.inbound.session.size
       case EndSession(n, _) => node.inbound.Live?
       case StreamOpened(n) => node.driver.Streaming? && !node.driver.reached && TargetLive(s, n)
       case StreamClosed(n) => node.driver.Streaming? && node.driver.reached
       case StreamFailed(n, _) => node.driver.Streaming?
       case MarkCommitting(n, _) => node.driver.Streamed? && Has(s, n, Pushing)
       case Deliver(n, _, _) =>
         && Has(s, n, Committing) && node.copy.target in s && |node.copy.content| < TWO_64
         && (node.driver.Idle? || node.driver.CommitSent? || node.driver.Unsure?)
       case Answer(n, _, _) =>
         Has(s, n, Committing) && node.copy.target in s && |node.copy.content| < TWO_64 && node.driver.CommitSent?
       case NoAnswer(n) => node.driver.CommitSent?
       case Query(n) => Has(s, n, Committing) && node.driver.Unsure? && node.copy.target in s
       case QueryLost(n) => node.driver.Unsure?
       case Retire(n, _) => Has(s, n, Committing) && (node.driver.Confirmed? || node.driver == Answered(true))
       case Revert(n, _) =>
         || (Has(s, n, Pushing) && node.driver.GivingUp?)
         || (Has(s, n, Committing) && (node.driver.GivingUp? || node.driver.Denied? || node.driver == Answered(false)))
       case Crash(n) => true
       case Restart(n, _) => node.driver.Idle? && node.inbound.NoSession?
  }

  function NewCopy(state: State, content: Bytes): Copy {
    Copy(state, content, "", "")
  }

  // The commit of the source's push, as its target executes it.
  ghost function Execute(sha: Sha, s: Nodes, n: string, report: Report, removed: bool): Outcome
    requires n in s && s[n].copy.Copy? && s[n].copy.target in s && |s[n].copy.content| < TWO_64
  {
    var copy := s[n].copy;
    CommitOn(sha, s[copy.target], copy.transfer, ContentDigest(sha, copy.content), report, removed)
  }

  ghost function Next(sha: Sha, s: Nodes, e: Event): Nodes
    requires Enabled(s, e)
  {
    var node := s[e.n];
    match e
    case Create(n, size) => s[n := node.(copy := NewCopy(Ready, Zeros(size)))]
    case AttachIt(n) => s[n := node.(copy := node.copy.(state := Attached))]
    case DetachIt(n) => s[n := node.(copy := node.copy.(state := Ready))]
    case UserWrite(n, content) => s[n := node.(copy := node.copy.(content := content))]
    case Resize(n, size) =>
      s[n := node.(copy := node.copy.(content := node.copy.content + Zeros(size - |node.copy.content|)))]
    case RollBack(n, content) => s[n := node.(copy := node.copy.(content := content))]
    case Delete(n) => s[n := node.(copy := node.copy.(state := Deleting))]
    case RemoveDeleted(n) => s[n := node.(copy := Absent)]
    case Push(n, t, target, report) =>
      var pushing := node.copy.(state := Pushing, transfer := t, target := target);
      s[n := node.(copy := if report.Fails? then node.copy else pushing,
                   driver := if report.Works? then Streaming(0, false) else node.driver)]
    case Prepare(n, t, size, report) =>
      var incoming := Copy(Incoming, Zeros(size), t, "");
      (match report
       case Works => s[n := node.(copy := incoming, inbound := Live(t, NewSession("", size)))]
       case Fails => s[n := node.(dead := node.dead + {t})]
       case Misreports => s[n := node.(copy := incoming, dead := node.dead + {t})])
    case Slot(n, streaming) =>
      s[n := node.(inbound := node.inbound.(session := node.inbound.session.(streaming := streaming)))]
    case FrameTo(n, offset, data, disk) =>
      var w := WriteFrame(sha, Receiver(node.inbound.session, node.copy.content), offset, data, disk);
      s[n := node.(inbound := node.inbound.(session := w.after.session), copy := node.copy.(content := w.after.device))]
    case EndSession(n, removed) => s[n := Destroyed(node, removed)]
    case StreamOpened(n) => s[n := node.(driver := node.driver.(reached := true))]
    case StreamClosed(n) => s[n := node.(driver := Streamed)]
    case StreamFailed(n, definitive) =>
      s[n := node.(driver := Reopen(definitive, node.driver.attempt))]
    case MarkCommitting(n, report) =>
      s[n := node.(copy := if report.Fails? then node.copy else node.copy.(state := Committing),
                   driver := if report.Works? then CommitSent(0) else GivingUp)]
    case Deliver(n, report, removed) =>
      s[node.copy.target := Execute(sha, s, n, report, removed).node]
    case Answer(n, report, removed) =>
      var c := Execute(sha, s, n, report, removed);
      var s' := s[node.copy.target := c.node];
      s'[n := s'[n].(driver := React(Some(c.reply), node.driver.attempt))]
    case NoAnswer(n) => s[n := node.(driver := React(None, node.driver.attempt))]
    case Query(n) => s[n := node.(driver := Answered(Answers(s[node.copy.target])))]
    case QueryLost(n) => s[n := node.(driver := if node.driver.boot then node.driver else Idle)]
    case Retire(n, ok) =>
      if ok then s[n := node.(copy := node.copy.(state := Retired, transfer := "", target := ""), driver := Idle)]
      else s[n := node.(driver := Idle)]
    case Revert(n, ok) =>
      if ok then s[n := node.(copy := node.copy.(state := Ready, transfer := "", target := ""), driver := Idle)]
      else s[n := node.(driver := Idle)]
    case Crash(n) => s[n := Node(node.copy, NoSession, {}, {}, Idle)]
    case Restart(n, ok) =>
      if !ok || node.copy.Absent? then s
      else match node.copy.state
        case Incoming => s[n := node.(copy := Absent)]
        case Deleting => s[n := node.(copy := Absent)]
        case Pushing => s[n := node.(copy := node.copy.(state := Ready, transfer := "", target := ""))]
        case Committing => s[n := node.(driver := Unsure(true))]
        case _ => s
  }

  // -------------------------------------------------------------------------- authority

  // The states in which a node treats its copy as the volume.
  predicate Authoritative(n: Node) {
    n.copy.Copy? && n.copy.state in {Ready, Attached, Pushing}
  }

  // The commit of this COMMITTING node landed: its target holds a copy that is not INCOMING.
  ghost predicate Landed(s: Nodes, n: string) {
    Has(s, n, Committing) && s[n].copy.target in s && Answers(s[s[n].copy.target])
  }

  // The node whose copy is the volume: authoritative, or committing and not landed.
  ghost predicate Owner(s: Nodes, n: string) {
    n in s && (Authoritative(s[n]) || (Has(s, n, Committing) && !Landed(s, n)))
  }

  // ------------------------------------------------------------------------ the invariant

  predicate DriverFits(n: Node) {
    match n.driver
    case Idle => true
    case Streaming(a, _) => n.copy.Copy? && n.copy.state == Pushing && a < PUSH_ATTEMPTS
    case Streamed => n.copy.Copy? && n.copy.state == Pushing
    case GivingUp => n.copy.Copy? && (n.copy.state == Pushing || n.copy.state == Committing)
    case CommitSent(a) => n.copy.Copy? && n.copy.state == Committing && a < PUSH_ATTEMPTS
    case _ => n.copy.Copy? && n.copy.state == Committing
  }

  // The tags of a push or a transfer are only there while it lasts.
  predicate TagsFit(copy: Copy) {
    copy.Copy? ==>
      && (copy.state !in {Pushing, Committing} ==> copy.target == "")
      && (copy.state !in {Pushing, Committing, Incoming} ==> copy.transfer == "")
  }

  // What holds of a node by itself.
  predicate NodeOk(sha: Sha, n: Node) {
    && (n.copy.Copy? ==> |n.copy.content| < TWO_63)
    && TagsFit(n.copy)
    && n.committed <= n.dead
    && (n.inbound.Live? ==>
          && n.copy.Copy? && n.copy.state == Incoming
          && Sound(sha, Receiver(n.inbound.session, n.copy.content))
          && n.inbound.transfer !in n.dead)
    && DriverFits(n)
  }

  // The driver got a stream of its transfer open, so the target's id was free for it.
  predicate Reached(n: Node) {
    n.driver.Streamed? || (n.driver.Streaming? && n.driver.reached)
  }

  // What holds between a pushing node and its target.
  ghost predicate LinkOk(s: Nodes, n: string) {
    n in s && s[n].copy.Copy? ==>
      var node, target := s[n], s[n].copy.target;
      && (Reached(node) ==>
            target in s && target != n && !Answers(s[target]) && node.copy.transfer !in s[target].committed)
      && (node.copy.state == Committing ==>
            && target in s && target != n && !Has(s, target, Deleting)
            && (node.copy.transfer in s[target].committed ==> Landed(s, n))
            && (node.driver.Confirmed? || node.driver == Answered(true) ==> Landed(s, n))
            && (node.driver.GivingUp? || node.driver.Denied? || node.driver == Answered(false) ==> !Landed(s, n)))
  }

  ghost predicate OneOwner(s: Nodes) {
    forall a, b :: Owner(s, a) && Owner(s, b) ==> a == b
  }

  ghost predicate Inv(sha: Sha, s: Nodes) {
    && (forall n :: n in s ==> NodeOk(sha, s[n]))
    && (forall n :: n in s ==> LinkOk(s, n))
    && OneOwner(s)
  }

  // ------------------------------------------------------------------ the volume it implements

  // The volume the cluster as a whole stores.
  ghost function Volume(s: Nodes): Option<Bytes> {
    if o :| Owner(s, o) then Some(s[o].copy.content) else None
  }

  // What a user of one plain volume would see of an event.
  datatype Op = Skip | Replace(content: Bytes) | Drop

  ghost function Seen(s: Nodes, e: Event): Op
    requires Enabled(s, e)
  {
    match e
    case Create(_, size) => Replace(Zeros(size))
    case UserWrite(_, content) => Replace(content)
    case Resize(n, size) => Replace(s[n].copy.content + Zeros(size - |s[n].copy.content|))
    case RollBack(_, content) => Replace(content)
    case Delete(n) => if Has(s, n, Ready) then Drop else Skip
    case _ => Skip
  }

  function Plain(v: Option<Bytes>, op: Op): Option<Bytes> {
    match op
    case Skip => v
    case Replace(content) => Some(content)
    case Drop => None
  }

  // The commit compares no two strings whose hashes collide.
  ghost predicate NoCollisionIn(sha: Sha, s: Nodes, e: Event)
    requires Enabled(s, e)
  {
    e.Deliver? || e.Answer? ==>
      var copy := s[e.n].copy;
      var target := s[copy.target];
      target.inbound.Live? && target.copy.Copy? && |target.copy.content| < TWO_64 ==>
        Distinguishes(sha, Seal(sha, target.inbound.session), target.copy.content, copy.content)
  }

  lemma VolumeIs(s: Nodes, o: string)
    requires OneOwner(s) && Owner(s, o)
    ensures Volume(s) == Some(s[o].copy.content)
  {
  }

  // ---------------------------------------------------------------- steps that keep the owner

  // Two states with the same owners, holding the same contents, store the same volume.
  lemma SameOwners(s: Nodes, s': Nodes)
    requires OneOwner(s)
    requires forall n :: Owner(s', n) ==> Owner(s, n)
    requires forall n :: Owner(s, n) ==> Owner(s', n) && s'[n].copy.content == s[n].copy.content
    ensures OneOwner(s') && Volume(s') == Volume(s)
  {
  }

  // A node changed, but not in any way another node's links depend on.
  predicate Transparent(a: Node, b: Node) {
    && (Answers(a) <==> Answers(b))
    && (b.committed <= a.committed)
    && (b.copy.Copy? && b.copy.state == Deleting ==> a.copy.Copy? && a.copy.state == Deleting)
  }

  lemma LinksStay(s: Nodes, n: string, node: Node)
    requires n in s && Transparent(s[n], node)
    requires forall m :: m in s && m != n ==> LinkOk(s, m)
    ensures forall m :: m in s && m != n ==> LinkOk(s[n := node], m)
    ensures forall m :: m != n ==>
              (Landed(s[n := node], m) <==> Landed(s, m)) && (Owner(s[n := node], m) <==> Owner(s, m))
  {
  }

  // A step of one node that no other node notices and that keeps it an owner or not.
  lemma LocalStep(sha: Sha, s: Nodes, n: string, node: Node)
    requires Inv(sha, s) && n in s && Transparent(s[n], node) && NodeOk(sha, node)
    requires LinkOk(s[n := node], n)
    requires Owner(s[n := node], n) <==> Owner(s, n)
    ensures Inv(sha, s[n := node])
    ensures Owner(s, n) && node.copy.content == s[n].copy.content ==> Volume(s[n := node]) == Volume(s)
    ensures !Owner(s, n) ==> Volume(s[n := node]) == Volume(s)
    ensures Owner(s, n) ==> Volume(s[n := node]) == Some(node.copy.content)
  {
    var s' := s[n := node];
    LinksStay(s, n, node);
    forall m ensures Owner(s', m) <==> Owner(s, m) {
    }
    if Owner(s, n) {
      VolumeIs(s', n);
      VolumeIs(s, n);
    } else {
      SameOwners(s, s');
    }
  }

  // ------------------------------------------------------------------------ event by event

  // One step keeps the invariant and does to the stored volume what the event does to a plain one.
  ghost predicate StepOk(sha: Sha, s: Nodes, e: Event)
    requires Enabled(s, e)
  {
    && Inv(sha, Next(sha, s, e))
    && Volume(Next(sha, s, e)) == Plain(Volume(s), Seen(s, e))
  }

  lemma UserStep(sha: Sha, s: Nodes, e: Event)
    requires Inv(sha, s) && Enabled(s, e)
    requires e.AttachIt? || e.DetachIt? || e.UserWrite? || e.Resize? || e.RollBack?
    ensures StepOk(sha, s, e)
  {
    hide Sound, WriteFrame, Execute, Destroyed, React, TargetLive;
    var s' := Next(sha, s, e);
    assert Owner(s, e.n) && Owner(s', e.n);
    LocalStep(sha, s, e.n, s'[e.n]);
  }

  lemma PushStep(sha: Sha, s: Nodes, e: Event)
    requires Inv(sha, s) && Enabled(s, e) && e.Push?
    ensures StepOk(sha, s, e)
  {
    hide Sound, WriteFrame, Execute, Destroyed, React, TargetLive;
    var s' := Next(sha, s, e);
    assert Owner(s, e.n) && Owner(s', e.n);
    LocalStep(sha, s, e.n, s'[e.n]);
  }

  lemma StreamStep(sha: Sha, s: Nodes, e: Event)
    requires Inv(sha, s) && Enabled(s, e)
    requires e.StreamOpened? || e.StreamClosed? || e.StreamFailed? || e.MarkCommitting?
    ensures StepOk(sha, s, e)
  {
    var s' := Next(sha, s, e);
    LocalStep(sha, s, e.n, s'[e.n]);
  }

  lemma AskStep(sha: Sha, s: Nodes, e: Event)
    requires Inv(sha, s) && Enabled(s, e) && (e.NoAnswer? || e.Query? || e.QueryLost?)
    ensures StepOk(sha, s, e)
  {
    hide Sound;
    var s' := Next(sha, s, e);
    LocalStep(sha, s, e.n, s'[e.n]);
  }

  lemma SettleStep(sha: Sha, s: Nodes, e: Event)
    requires Inv(sha, s) && Enabled(s, e) && (e.Retire? || e.Revert?)
    ensures StepOk(sha, s, e)
  {
    var s' := Next(sha, s, e);
    LocalStep(sha, s, e.n, s'[e.n]);
  }

  // Frames from anyone, slot changes, a new session, the end of one.
  lemma SessionStep(sha: Sha, s: Nodes, e: Event)
    requires Inv(sha, s) && Enabled(s, e)
    requires e.Slot? || e.FrameTo? || e.EndSession? || e.Prepare?
    ensures StepOk(sha, s, e)
  {
    hide Sound, WriteFrame;
    var s', node := Next(sha, s, e), s[e.n];
    if e.FrameTo? {
      WriteKeepsSound(sha, Receiver(node.inbound.session, node.copy.content), e.offset, e.data, e.disk);
    } else if e.Prepare? {
      NewReceiverSound(sha, "", e.size);
    } else if e.Slot? {
      SlotKeepsSound(sha, node.inbound.session, node.copy.content, e.streaming);
    }
    LocalStep(sha, s, e.n, s'[e.n]);
  }

  lemma SlotKeepsSound(sha: Sha, ses: Session, device: Bytes, streaming: bool)
    requires Sound(sha, Receiver(ses, device))
    ensures Sound(sha, Receiver(ses.(streaming := streaming), device))
  {
  }

  lemma CrashStep(sha: Sha, s: Nodes, e: Event)
    requires Inv(sha, s) && Enabled(s, e) && e.Crash?
    ensures StepOk(sha, s, e)
  {
    LocalStep(sha, s, e.n, Next(sha, s, e)[e.n]);
  }

  // A copy on its way out is no link's target.
  lemma DeletingHasNoSource(sha: Sha, s: Nodes, n: string, m: string)
    requires Inv(sha, s) && Has(s, n, Deleting) && m in s && s[m].copy.Copy?
    requires Reached(s[m]) || s[m].copy.state == Committing
    ensures s[m].copy.target != n
  {
  }

  // The last trace of a deleted copy goes.
  lemma RemoveStep(sha: Sha, s: Nodes, n: string)
    requires Inv(sha, s) && Has(s, n, Deleting)
    ensures var s' := s[n := s[n].(copy := Absent)];
            Inv(sha, s') && Volume(s') == Volume(s)
  {
    var s' := s[n := s[n].(copy := Absent)];
    forall m | m in s && m != n ensures LinkOk(s', m) && (Owner(s', m) <==> Owner(s, m)) {
      if s[m].copy.Copy? && (Reached(s[m]) || s[m].copy.state == Committing) {
        DeletingHasNoSource(sha, s, n, m);
      }
    }
    SameOwners(s, s');
  }

  lemma RestartStep(sha: Sha, s: Nodes, e: Event)
    requires Inv(sha, s) && Enabled(s, e) && e.Restart?
    ensures StepOk(sha, s, e)
  {
    if e.ok && Has(s, e.n, Deleting) {
      RemoveStep(sha, s, e.n);
    } else {
      var s' := Next(sha, s, e);
      assert s' == s[e.n := s'[e.n]];
      LocalStep(sha, s, e.n, s'[e.n]);
    }
  }

  lemma CreateStep(sha: Sha, s: Nodes, e: Event)
    requires Inv(sha, s) && Enabled(s, e) && e.Create?
    ensures StepOk(sha, s, e)
  {
    var s' := Next(sha, s, e);
    forall m | m in s && m != e.n ensures LinkOk(s', m) && !Owner(s', m) {
    }
    assert Owner(s', e.n);
    VolumeIs(s', e.n);
  }

  lemma DeleteStep(sha: Sha, s: Nodes, e: Event)
    requires Inv(sha, s) && Enabled(s, e) && e.Delete?
    ensures StepOk(sha, s, e)
  {
    var s' := Next(sha, s, e);
    forall m | m in s && m != e.n ensures LinkOk(s', m) && (Owner(s', m) <==> Owner(s, m)) {
      assert Has(s, m, Committing) ==> s[m].copy.target != e.n;
    }
    if Has(s, e.n, Ready) {
      assert Owner(s, e.n);
      forall m ensures !Owner(s', m) {
      }
    } else {
      SameOwners(s, s');
    }
  }

  // ---------------------------------------------------------------------------- the commit

  // The drivers during which a CommitTransfer may still run.
  predicate CommitMayRun(d: Driver) {
    d.Idle? || d.CommitSent? || d.Unsure?
  }

  ghost predicate Committer(s: Nodes, n: string) {
    Has(s, n, Committing) && s[n].copy.target in s && |s[n].copy.content| < TWO_64
  }

  // While a node's commit is open, no other node has a stream or a commit at its target.
  lemma TargetIsMine(sha: Sha, s: Nodes, n: string, m: string)
    requires Inv(sha, s) && Has(s, n, Committing) && !Landed(s, n) && m in s && m != n
    ensures !Owner(s, m)
    ensures s[m].copy.Copy? && (Reached(s[m]) || s[m].copy.state == Committing) ==> s[m].copy.target != s[n].copy.target
  {
    assert Owner(s, n);
    assert NodeOk(sha, s[m]) && LinkOk(s, n) && LinkOk(s, m);
    assert Has(s, m, Committing) && s[m].copy.target == s[n].copy.target ==> (Landed(s, m) <==> Landed(s, n));
  }

  // A landing commit hands the volume over: the target becomes the owner, the source stops being
  // one, and the bytes are the same.
  lemma LandingStep(sha: Sha, s: Nodes, n: string, known: bool)
    requires Inv(sha, s) && Committer(s, n) && CommitMayRun(s[n].driver) && TargetLive(s, n)
    requires s[s[n].copy.target].copy.Copy? && s[s[n].copy.target].copy.content == s[n].copy.content
    ensures var t := s[n].copy.target;
            var s' := s[t := Landing(s[t], known)];
            Inv(sha, s') && Landed(s', n) && Owner(s', t) && Volume(s') == Volume(s)
  {
    hide Sound;
    var t := s[n].copy.target;
    var s' := s[t := Landing(s[t], known)];
    assert LinkOk(s, n) && NodeOk(sha, s[t]);
    assert !Landed(s, n) && Owner(s, n) && t != n;
    forall m | m in s && m != n && m != t ensures LinkOk(s', m) && !Owner(s', m) {
      assert LinkOk(s, m);
      TargetIsMine(sha, s, n, m);
    }
    assert LinkOk(s', t);
    assert LinkOk(s', n) && !Owner(s', n);
    forall m ensures Owner(s', m) ==> m == t {
    }
    VolumeIs(s, n);
    VolumeIs(s', t);
  }

  // A session that ends, or an answer that changes nothing, at the target.
  lemma NoLandingStep(sha: Sha, s: Nodes, n: string, node: Node)
    requires Inv(sha, s) && Committer(s, n)
    requires var t := s[s[n].copy.target];
             node == t || (TargetLive(s, n) && (node == Destroyed(t, true) || node == Destroyed(t, false)))
    ensures var s' := s[s[n].copy.target := node];
            && Inv(sha, s') && Volume(s') == Volume(s)
            && (Landed(s', n) <==> Landed(s, n))
  {
    hide Sound;
    var t := s[n].copy.target;
    var s' := s[t := node];
    assert NodeOk(sha, s[t]) && LinkOk(s, t) && LinkOk(s, n);
    if node == s[t] {
      assert s' == s;
    } else {
      assert LinkOk(s', t);
      LocalStep(sha, s, t, node);
    }
  }

  // The one question the digest settles: a commit only lands with the source's bytes in place.
  lemma AcceptedMeansEqual(sha: Sha, s: Nodes, n: string)
    requires Inv(sha, s) && Committer(s, n) && TargetLive(s, n)
    requires var t := s[s[n].copy.target];
             && t.copy.Copy? && |t.copy.content| < TWO_64
             && Distinguishes(sha, Seal(sha, t.inbound.session), t.copy.content, s[n].copy.content)
             && Accepts(sha, t.inbound.session, ContentDigest(sha, s[n].copy.content))
    ensures s[s[n].copy.target].copy.content == s[n].copy.content
  {
    hide Sound, Accepts, Distinguishes, LinkOk, OneOwner;
    var t := s[s[n].copy.target];
    assert NodeOk(sha, t);
    CommitAcceptsIff(sha, Receiver(t.inbound.session, t.copy.content), s[n].copy.content);
  }

  lemma ExecuteStep(sha: Sha, s: Nodes, n: string, report: Report, removed: bool)
    requires Inv(sha, s) && Committer(s, n) && CommitMayRun(s[n].driver)
    requires var t := s[s[n].copy.target];
             t.inbound.Live? && t.copy.Copy? && |t.copy.content| < TWO_64 ==>
               Distinguishes(sha, Seal(sha, t.inbound.session), t.copy.content, s[n].copy.content)
    ensures var c := Execute(sha, s, n, report, removed);
            var s' := s[s[n].copy.target := c.node];
            && Inv(sha, s') && Volume(s') == Volume(s) && Committer(s', n) && s'[n] == s[n]
            && (c.reply == Ok ==> Landed(s', n))
            && (c.reply == DataLoss ==> !Landed(s', n))
  {
    hide Sound, Accepts, Distinguishes;
    var c := Execute(sha, s, n, report, removed);
    var t := s[n].copy.target;
    assert NodeOk(sha, s[t]) && LinkOk(s, n);
    if TargetLive(s, n) && Answers(c.node) {
      AcceptedMeansEqual(sha, s, n);
      LandingStep(sha, s, n, c.reply == Ok);
      assert c.node == Landing(s[t], c.reply == Ok);
    } else {
      NoLandingStep(sha, s, n, c.node);
    }
  }

  lemma CommitStep(sha: Sha, s: Nodes, e: Event)
    requires Inv(sha, s) && Enabled(s, e) && NoCollisionIn(sha, s, e) && (e.Deliver? || e.Answer?)
    ensures StepOk(sha, s, e)
  {
    hide Sound, Accepts, Distinguishes, CommitOn;
    ExecuteStep(sha, s, e.n, e.report, e.removed);
    if e.Answer? {
      var c := Execute(sha, s, e.n, e.report, e.removed);
      var s1 := s[s[e.n].copy.target := c.node];
      var node := s1[e.n].(driver := React(Some(c.reply), s[e.n].driver.attempt));
      assert NodeOk(sha, s1[e.n]) && LinkOk(s1, e.n);
      LocalStep(sha, s1, e.n, node);
    }
  }

  // Every step of every node, of the network and of the disks.
  lemma StepRefines(sha: Sha, s: Nodes, e: Event)
    requires Inv(sha, s) && Enabled(s, e) && NoCollisionIn(sha, s, e)
    ensures StepOk(sha, s, e)
  {
    hide Inv, Enabled, Next, NoCollisionIn, StepOk;
    match e
    case Create(_, _) => CreateStep(sha, s, e);
    case Delete(_) => DeleteStep(sha, s, e);
    case RemoveDeleted(n) => RemoveDeletedStep(sha, s, e);
    case Slot(_, _) => SessionStep(sha, s, e);
    case FrameTo(_, _, _, _) => SessionStep(sha, s, e);
    case EndSession(_, _) => SessionStep(sha, s, e);
    case Prepare(_, _, _, _) => SessionStep(sha, s, e);
    case Deliver(_, _, _) => CommitStep(sha, s, e);
    case Answer(_, _, _) => CommitStep(sha, s, e);
    case Crash(_) => CrashStep(sha, s, e);
    case Restart(_, _) => RestartStep(sha, s, e);
    case AttachIt(_) => UserStep(sha, s, e);
    case DetachIt(_) => UserStep(sha, s, e);
    case UserWrite(_, _) => UserStep(sha, s, e);
    case Resize(_, _) => UserStep(sha, s, e);
    case RollBack(_, _) => UserStep(sha, s, e);
    case Push(_, _, _, _) => PushStep(sha, s, e);
    case StreamOpened(_) => StreamStep(sha, s, e);
    case StreamClosed(_) => StreamStep(sha, s, e);
    case StreamFailed(_, _) => StreamStep(sha, s, e);
    case MarkCommitting(_, _) => StreamStep(sha, s, e);
    case Retire(_, _) => SettleStep(sha, s, e);
    case Revert(_, _) => SettleStep(sha, s, e);
    case _ => AskStep(sha, s, e);
  }

  lemma RemoveDeletedStep(sha: Sha, s: Nodes, e: Event)
    requires Inv(sha, s) && Enabled(s, e) && e.RemoveDeleted?
    ensures StepOk(sha, s, e)
  {
    RemoveStep(sha, s, e.n);
  }

  // ---------------------------------------------------------------------------- whole runs

  // A run: every event enabled, no commit fooled by a collision.
  ghost predicate Runs(sha: Sha, s: Nodes, run: seq<Event>)
    decreases |run|
  {
    run == [] || (Enabled(s, run[0]) && NoCollisionIn(sha, s, run[0]) && Runs(sha, Next(sha, s, run[0]), run[1..]))
  }

  ghost function After(sha: Sha, s: Nodes, run: seq<Event>): Nodes
    requires Runs(sha, s, run)
    decreases |run|
  {
    if run == [] then s else After(sha, Next(sha, s, run[0]), run[1..])
  }

  // What the same run does to one plain volume.
  ghost function PlainAfter(sha: Sha, s: Nodes, run: seq<Event>, v: Option<Bytes>): Option<Bytes>
    requires Runs(sha, s, run)
    decreases |run|
  {
    if run == [] then v else PlainAfter(sha, Next(sha, s, run[0]), run[1..], Plain(v, Seen(s, run[0])))
  }

  // A cluster on which the id was never created.
  predicate Fresh(s: Nodes) {
    forall n :: n in s ==> s[n] == Node(Absent, NoSession, {}, {}, Idle)
  }

  lemma FreshInv(sha: Sha, s: Nodes)
    requires Fresh(s)
    ensures Inv(sha, s) && Volume(s) == None
  {
  }

  lemma {:induction false} RunRefines(sha: Sha, s: Nodes, run: seq<Event>)
    requires Inv(sha, s) && Runs(sha, s, run)
    ensures Inv(sha, After(sha, s, run))
    ensures Volume(After(sha, s, run)) == PlainAfter(sha, s, run, Volume(s))
    decreases |run|
  {
    hide Inv, Enabled, Next, NoCollisionIn;
    if run != [] {
      StepRefines(sha, s, run[0]);
      RunRefines(sha, Next(sha, s, run[0]), run[1..]);
    }
  }

  // Single authority: in every run at most one node treats its copy as the volume, and one does
  // beside a COMMITTING node only once that node's commit has landed.
  lemma SingleAuthority(sha: Sha, s: Nodes, run: seq<Event>)
    requires Fresh(s) && Runs(sha, s, run)
    ensures var r := After(sha, s, run);
            && (forall a, b :: a in r && b in r && Authoritative(r[a]) && Authoritative(r[b]) ==> a == b)
            && (forall a, b :: a in r && Authoritative(r[a]) && Has(r, b, Committing) ==> Landed(r, b))
  {
    hide Runs, After, Enabled, Next, LinkOk, NodeOk;
    FreshInv(sha, s);
    RunRefines(sha, s, run);
    var r := After(sha, s, run);
    forall a, b | a in r && Authoritative(r[a]) ensures b in r && Authoritative(r[b]) ==> a == b
                                                ensures Has(r, b, Committing) ==> Landed(r, b)
    {
      assert Owner(r, a);
      assert b in r && Authoritative(r[b]) ==> Owner(r, b);
      assert Has(r, b, Committing) && !Landed(r, b) ==> Owner(r, b);
    }
  }

  // The cluster is one plain volume: whatever was pushed, lost, retried, crashed and recovered,
  // its content is what the user's own operations make of it, and it exists as long as they say.
  lemma ClusterIsOneVolume(sha: Sha, s: Nodes, run: seq<Event>)
    requires Fresh(s) && Runs(sha, s, run)
    ensures Volume(After(sha, s, run)) == PlainAfter(sha, s, run, None)
    ensures Volume(After(sha, s, run)).Some? <==> exists n :: Owner(After(sha, s, run), n)
  {
    FreshInv(sha, s);
    RunRefines(sha, s, run);
  }

  // ------------------------------------------------------------------------------- no loss

  // A commit that lands leaves the source's bytes, all of them, READY on the target.
  lemma HandoverExact(sha: Sha, s: Nodes, e: Event)
    requires Inv(sha, s) && Enabled(s, e) && NoCollisionIn(sha, s, e) && (e.Deliver? || e.Answer?)
    requires !Landed(s, e.n) && Landed(Next(sha, s, e), e.n)
    ensures var s', t := Next(sha, s, e), s[e.n].copy.target;
            && Has(s', t, Ready) && s'[t].copy.content == s[e.n].copy.content
            && Has(s', e.n, Committing) && s'[e.n].copy.content == s[e.n].copy.content
  {
    hide Sound, Accepts, Distinguishes;
    var t := s[e.n].copy.target;
    assert LinkOk(s, e.n) && NodeOk(sha, s[t]);
    var c := Execute(sha, s, e.n, e.report, e.removed);
    assert TargetLive(s, e.n) && Answers(c.node);
    AcceptedMeansEqual(sha, s, e.n);
  }

  // A node retires its copy only once its target holds the committed one.
  lemma RetiresOnlyLanded(sha: Sha, s: Nodes, run: seq<Event>, e: Event)
    requires Fresh(s) && Runs(sha, s, run) && Enabled(After(sha, s, run), e) && e.Retire?
    ensures Landed(After(sha, s, run), e.n)
  {
    hide Runs, After, Next;
    FreshInv(sha, s);
    RunRefines(sha, s, run);
    assert LinkOk(After(sha, s, run), e.n);
  }

  lemma CommitLeavesOthers(sha: Sha, n: Node, transfer: string, digest: Bytes, report: Report, removed: bool)
    requires n.inbound.NoSession?
    ensures CommitOn(sha, n, transfer, digest, report, removed).node == n
  {
  }

  // Only a commit touches a node other than the event's own, and then one with a session.
  lemma OthersUntouched(sha: Sha, s: Nodes, e: Event, n: string)
    requires Enabled(s, e) && n in s && s[n].inbound.NoSession? && e.n != n
    ensures n in Next(sha, s, e) && Next(sha, s, e)[n] == s[n]
  {
    hide WriteFrame, CommitOn;
    if e.Deliver? || e.Answer? {
      var copy := s[e.n].copy;
      CommitLeavesOthers(sha, s[n], copy.transfer, ContentDigest(sha, copy.content), e.report, e.removed);
    }
  }

  predicate InPush(n: Node) {
    n.copy.Copy? && n.copy.state in {Pushing, Committing, Retired}
  }

  // A copy in a push takes no user's step and no session.
  lemma BusyCopy(s: Nodes, e: Event)
    requires Enabled(s, e) && s[e.n].inbound.NoSession? && InPush(s[e.n])
    ensures !e.Create? && !e.AttachIt? && !e.DetachIt? && !e.UserWrite? && !e.Resize? && !e.RollBack? && !e.Push?
    ensures !e.RemoveDeleted? && !e.Prepare? && !e.Slot? && !e.FrameTo? && !e.EndSession?
  {
    hide TargetLive;
  }

  lemma OwnStepKeepsContent(sha: Sha, s: Nodes, e: Event)
    requires Enabled(s, e) && s[e.n].inbound.NoSession? && InPush(s[e.n]) && !e.Deliver? && !e.Answer?
    ensures e.n in Next(sha, s, e) && Next(sha, s, e)[e.n].copy.Copy?
    ensures Next(sha, s, e)[e.n].copy.content == s[e.n].copy.content
  {
    hide WriteFrame, Answers, React, Execute, Destroyed, TargetLive, Landed;
    BusyCopy(s, e);
  }

  lemma OwnCommitKeepsContent(sha: Sha, s: Nodes, e: Event)
    requires Enabled(s, e) && NodeOk(sha, s[e.n]) && InPush(s[e.n]) && (e.Deliver? || e.Answer?)
    ensures e.n in Next(sha, s, e) && Next(sha, s, e)[e.n].copy.Copy?
    ensures Next(sha, s, e)[e.n].copy.content == s[e.n].copy.content
  {
    hide Sound, CommitOn, React, DriverFits;
    var copy := s[e.n].copy;
    CommitLeavesOthers(sha, s[e.n], copy.transfer, ContentDigest(sha, copy.content), e.report, e.removed);
  }

  // From PUSHING to the end of the push no event changes the source's bytes.
  lemma PushedContentFrozen(sha: Sha, s: Nodes, e: Event, n: string)
    requires Inv(sha, s) && Enabled(s, e) && n in s && InPush(s[n])
    ensures n in Next(sha, s, e) && Next(sha, s, e)[n].copy.Copy?
    ensures Next(sha, s, e)[n].copy.content == s[n].copy.content
  {
    hide Next, Enabled;
    assert NodeOk(sha, s[n]);
    if e.n != n {
      OthersUntouched(sha, s, e, n);
    } else if e.Deliver? || e.Answer? {
      OwnCommitKeepsContent(sha, s, e);
    } else {
      OwnStepKeepsContent(sha, s, e);
    }
  }

  // ------------------------------------------------------------------------- the push driver

  // An upper bound on the steps left to a driver. The resolver of a restarted node retries for
  // ever and is not bounded.
  function StepsLeft(d: Driver): nat {
    match d
    case Idle => 0
    case Streaming(a, r) => (if a < PUSH_ATTEMPTS then 2 * (PUSH_ATTEMPTS - a) else 0) + (if r then 10 else 11)
    case Streamed => 9
    case CommitSent(a) => 3 + (if a < PUSH_ATTEMPTS then PUSH_ATTEMPTS - a else 0)
    case Unsure(_) => 2
    case _ => 1
  }

  predicate DriverEvent(e: Event) {
    e.StreamOpened? || e.StreamClosed? || e.StreamFailed? || e.MarkCommitting? || e.Answer? || e.NoAnswer?
    || e.Query? || e.QueryLost? || e.Retire? || e.Revert?
  }

  // The retries are bounded: every step of a driver brings it closer to its end, which a push
  // reaches within 21 steps.
  lemma DriverTerminates(sha: Sha, s: Nodes, e: Event)
    requires Inv(sha, s) && Enabled(s, e) && DriverEvent(e)
    requires s[e.n].driver != Unsure(true)
    ensures StepsLeft(Next(sha, s, e)[e.n].driver) < StepsLeft(s[e.n].driver) <= 21
  {
    hide Sound, OneOwner, LinkOk, Next;
    assert NodeOk(sha, s[e.n]);
    if e.StreamOpened? || e.StreamClosed? || e.StreamFailed? || e.MarkCommitting? {
      StreamTerminates(sha, s, e);
    } else {
      CommitTerminates(sha, s, e);
    }
  }

  lemma StreamTerminates(sha: Sha, s: Nodes, e: Event)
    requires Enabled(s, e) && DriverFits(s[e.n])
    requires e.StreamOpened? || e.StreamClosed? || e.StreamFailed? || e.MarkCommitting?
    ensures StepsLeft(Next(sha, s, e)[e.n].driver) < StepsLeft(s[e.n].driver) <= 21
  {
    hide TargetLive, Execute, WriteFrame, Destroyed, Answers;
  }

  lemma CommitTerminates(sha: Sha, s: Nodes, e: Event)
    requires Enabled(s, e) && DriverFits(s[e.n]) && s[e.n].driver != Unsure(true)
    requires e.Answer? || e.NoAnswer? || e.Query? || e.QueryLost? || e.Retire? || e.Revert?
    ensures e.n in Next(sha, s, e) && StepsLeft(Next(sha, s, e)[e.n].driver) < StepsLeft(s[e.n].driver) <= 21
  {
    hide TargetLive, Execute, WriteFrame, Destroyed, Answers;
  }

  // With a working lvm a driver ends with the volume READY or RETIRED, or COMMITTING with both
  // push tags still on it.
  lemma DriverEnds(sha: Sha, s: Nodes, e: Event)
    requires Inv(sha, s) && Enabled(s, e) && DriverEvent(e) && (e.Retire? || e.Revert? ==> e.ok)
    requires Next(sha, s, e)[e.n].driver.Idle?
    ensures var s' := Next(sha, s, e);
            || Has(s', e.n, Ready) || Has(s', e.n, Retired)
            || (Has(s', e.n, Committing) && s'[e.n].copy == s[e.n].copy)
  {
    hide Sound, Accepts, CommitOn;
    assert NodeOk(sha, s[e.n]) && LinkOk(s, e.n);
  }

  // And from there a restart and one answered query settle it.
  lemma OneAnswerSettles(sha: Sha, s: Nodes, n: string)
    requires Inv(sha, s) && Has(s, n, Committing) && s[n].driver.Idle? && s[n].inbound.NoSession?
    ensures Enabled(s, Restart(n, true))
    ensures var s1 := Next(sha, s, Restart(n, true));
            && Enabled(s1, Query(n))
            && var s2 := Next(sha, s1, Query(n));
               if Landed(s, n) then Enabled(s2, Retire(n, true)) && Has(Next(sha, s2, Retire(n, true)), n, Retired)
               else Enabled(s2, Revert(n, true)) && Has(Next(sha, s2, Revert(n, true)), n, Ready)
  {
    hide NodeOk, OneOwner, Execute, WriteFrame, Destroyed;
    assert LinkOk(s, n);
    var s1 := Next(sha, s, Restart(n, true));
    assert s1 == s[n := s[n].(driver := Unsure(true))];
    var s2 := Next(sha, s1, Query(n));
    assert s2 == s[n := s[n].(driver := Answered(Landed(s, n)))];
  }

  // ------------------------------------------------------------ why late commits are excluded

  // The target would still accept the commit of this push: its session is live, no stream is
  // attached, and its hash stream matches the source's digest.
  ghost predicate WouldAccept(sha: Sha, s: Nodes, n: string) {
    && Committer(s, n) && TargetLive(s, n)
    && var ses := s[s[n].copy.target].inbound.session;
       !ses.streaming && Accepts(sha, ses, ContentDigest(sha, s[n].copy.content))
  }

  // Without the guard on CommitTransfer: a commit that runs after the source was told there was
  // none, followed by the source's return to READY, makes two authoritative copies exactly when
  // the target would still have accepted it.
  lemma LateCommitBreaksIff(sha: Sha, s: Nodes, n: string)
    requires Inv(sha, s) && Committer(s, n) && s[n].driver == Answered(false)
    ensures var t := s[n].copy.target;
            var late := s[t := Execute(sha, s, n, Works, true).node];
            && Enabled(late, Revert(n, true))
            && var r := Next(sha, late, Revert(n, true));
               (Authoritative(r[n]) && Authoritative(r[t]) && t != n) <==> WouldAccept(sha, s, n)
  {
    hide Sound, Accepts;
    assert LinkOk(s, n) && NodeOk(sha, s[s[n].copy.target]);
  }

  lemma {:induction false} AppendRun(sha: Sha, s: Nodes, run: seq<Event>, e: Event)
    requires Runs(sha, s, run) && Enabled(After(sha, s, run), e) && NoCollisionIn(sha, After(sha, s, run), e)
    ensures Runs(sha, s, run + [e]) && After(sha, s, run + [e]) == Next(sha, After(sha, s, run), e)
    decreases |run|
  {
    hide Enabled, Next, NoCollisionIn;
    if run == [] {
      assert run + [e] == [e] && [e][1..] == [];
    } else {
      assert (run + [e])[0] == run[0] && (run + [e])[1..] == run[1..] + [e];
      AppendRun(sha, Next(sha, s, run[0]), run[1..], e);
    }
  }

  // Such a run exists: the source crashes with its commit in flight, restarts, is told nothing was
  // committed, and only then does the commit arrive.
  lemma LateCommitReachable(sha: Sha, s: Nodes) returns (run: seq<Event>)
    requires Fresh(s) && "a" in s && "b" in s
    ensures Runs(sha, s, run)
    ensures var r := After(sha, s, run);
            WouldAccept(sha, r, "a") && r["a"].driver == Answered(false)
  {
    hide Runs, After, Accepts, Seal, Fill, Log, ContentDigest, Distinguishes;
    run := Prepared(sha, s);
    PushOfStep(sha, s, run, Committing, CommitSent(0), Crash("a"), Committing, Idle);
    run := run + [Crash("a")];
    PushOfStep(sha, s, run, Committing, Idle, Restart("a", true), Committing, Unsure(true));
    run := run + [Restart("a", true)];
    PushOfStep(sha, s, run, Committing, Unsure(true), Query("a"), Committing, Answered(false));
    run := run + [Query("a")];
    ZerosAccepted(sha);
  }

  // And it ends with two nodes that both treat their copy as the volume.
  lemma LateCommitBreaksAuthority(sha: Sha, s: Nodes) returns (run: seq<Event>)
    requires Fresh(s) && "a" in s && "b" in s
    ensures Runs(sha, s, run)
    ensures var r := After(sha, s, run);
            && Committer(r, "a")
            && var late := r[r["a"].copy.target := Execute(sha, r, "a", Works, true).node];
               && Enabled(late, Revert("a", true))
               && exists a, b :: a != b && a in late && b in late
                    && Authoritative(Next(sha, late, Revert("a", true))[a])
                    && Authoritative(Next(sha, late, Revert("a", true))[b])
  {
    hide Runs, After, Enabled, Next, Execute, Inv;
    run := LateCommitReachable(sha, s);
    FreshInv(sha, s);
    RunRefines(sha, s, run);
    LateCommitBreaksIff(sha, After(sha, s, run), "a");
  }

  lemma ZerosAccepted(sha: Sha)
    ensures Accepts(sha, NewSession("", 1), ContentDigest(sha, Zeros(1)))
  {
    hide Seal, ContentDigest;
    NewReceiverSound(sha, "", 1);
    SealIsContentLog(sha, NewReceiver("", 1));
  }

  // The two nodes of a push of one zero byte from a to b: the source in the given state, nothing
  // streamed yet.
  function PushOf(s: Nodes, state: State, driver: Driver): Nodes {
    s["a" := Node(Copy(state, Zeros(1), "t", "b"), NoSession, {}, {}, driver)]
     ["b" := Node(Copy(Incoming, Zeros(1), "t", ""), Live("t", NewSession("", 1)), {}, {}, Idle)]
  }

  // One step of the source of such a push.
  lemma PushOfStep(sha: Sha, s: Nodes, run: seq<Event>, state: State, driver: Driver, e: Event, state': State,
                   driver': Driver)
    requires Runs(sha, s, run) && After(sha, s, run) == PushOf(s, state, driver)
    requires Enabled(PushOf(s, state, driver), e) && !e.Deliver? && !e.Answer?
    requires Next(sha, PushOf(s, state, driver), e)
             == PushOf(s, state, driver)["a" := Node(Copy(state', Zeros(1), "t", "b"), NoSession, {}, {}, driver')]
    ensures Runs(sha, s, run + [e]) && After(sha, s, run + [e]) == PushOf(s, state', driver')
  {
    hide Enabled, Next, Runs, After;
    AppendRun(sha, s, run, e);
  }

  // A push up to the point where the commit may be sent.
  lemma Prepared(sha: Sha, s: Nodes) returns (run: seq<Event>)
    requires Fresh(s) && "a" in s && "b" in s
    ensures Runs(sha, s, run) && After(sha, s, run) == PushOf(s, Committing, CommitSent(0))
  {
    hide Runs, After;
    run := Started(sha, s);
    PushOfStep(sha, s, run, Pushing, Streaming(0, false), StreamOpened("a"), Pushing, Streaming(0, true));
    run := run + [StreamOpened("a")];
    PushOfStep(sha, s, run, Pushing, Streaming(0, true), StreamClosed("a"), Pushing, Streamed);
    run := run + [StreamClosed("a")];
    PushOfStep(sha, s, run, Pushing, Streamed, MarkCommitting("a", Works), Committing, CommitSent(0));
    run := run + [MarkCommitting("a", Works)];
  }

  lemma Started(sha: Sha, s: Nodes) returns (run: seq<Event>)
    requires Fresh(s) && "a" in s && "b" in s
    ensures Runs(sha, s, run) && After(sha, s, run) == PushOf(s, Pushing, Streaming(0, false))
  {
    var blank := Node(Absent, NoSession, {}, {}, Idle);
    assert s["a"] == blank && s["b"] == blank;
    run := [];
    AppendRun(sha, s, run, Event.Create("a", 1));
    run := run + [Event.Create("a", 1)];
    assert After(sha, s, run) == s["a" := blank.(copy := NewCopy(Ready, Zeros(1)))];
    AppendRun(sha, s, run, Push("a", "t", "b", Works));
    run := run + [Push("a", "t", "b", Works)];
    AppendRun(sha, s, run, Prepare("b", "t", 1, Works));
    run := run + [Prepare("b", "t", 1, Works)];
  }
}
