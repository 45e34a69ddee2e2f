/** Durable handover requests (internal/agent/control.go): handlers of the same request on any number
    of nodes, interleaved call by call over the shared store. */
module HandoverRequests {
  import opened Common
  import L = Lease

  datatype Status = REQUESTED | PREPARING | COMMITTING | COMPLETED | FAILED | REJECTED

  // The stored record of the request.
  datatype HandoverRecord =
    HandoverRecord(status: Status, source: string, target: string, reason: string,
                   generation: L.Generation, message: string, error: string)

  // What a handler answers. Its own trouble, such as an unreadable lease, is answered as REJECTED too.
  datatype Response =
    Response(status: Status, source: string, target: string, generation: L.Generation, message: string, error: string)

  function ResponseFromRecord(r: HandoverRecord): Response {
    Response(r.status, r.source, r.target, r.generation, r.message, r.error)
  }

  // An update leaves the record's source and reason alone.
  function Updated(stored: HandoverRecord, r: HandoverRecord): HandoverRecord {
    stored.(status := r.status, target := r.target, generation := r.generation, message := r.message, error := r.error)
  }

  // ----- Choosing the target -----

  // A node's row in the cluster's status, as far as handovers look at it.
  datatype Row =
    Row(node: string, standby: bool, health: string, recent: bool, generation: L.Generation, controlURL: string)

  predicate GenerationFits(gcp: bool, statusGeneration: L.Generation, row: Row) {
    || statusGeneration == 0
    || (if row.generation == 0 then !gcp else row.generation == statusGeneration)
  }

  predicate Eligible(gcp: bool, statusGeneration: L.Generation, row: Row) {
    row.standby && (row.health == "" || row.health == "Healthy")
    && row.recent && GenerationFits(gcp, statusGeneration, row)
  }

  predicate Candidate(row: Row, source: string, requested: string) {
    row.node != "" && row.node != source && (requested == "auto" || row.node == requested)
  }

  /** The first eligible standby; or, for a node asked for by name, its first row if that is eligible. */
  method SelectHandoverTarget(rows: seq<Row>, source: string, requested: string, gcp: bool,
                              statusGeneration: L.Generation)
    returns (target: Option<string>)
    ensures target.Some? ==> target.value != source && target.value != ""
    // In the rows' terms: a standby, in good or unknown health, seen recently, under the status's generation if that is
    // known; a row without a generation will do anywhere but on GCP.
    ensures target.Some? ==>
              exists i ::
                && 0 <= i < |rows| && rows[i].node == target.value && rows[i].standby
                && rows[i].health in {"", "Healthy"} && rows[i].recent
                && (statusGeneration == 0 || rows[i].generation == statusGeneration
                    || (rows[i].generation == 0 && !gcp))
    ensures target.None? && requested in {"", "auto"} ==> forall i :: 0 <= i < |rows| ==>
              || rows[i].node in {"", source} || !rows[i].standby || rows[i].health !in {"", "Healthy"}
              || !rows[i].recent
              || (statusGeneration != 0 && rows[i].generation != statusGeneration && (rows[i].generation != 0 || gcp))
    ensures requested == "" || requested == "auto" ==>
              match target
              case Some(t) => exists i :: 0 <= i < |rows| && rows[i].node == t && Candidate(rows[i], source, "auto")
                                            && Eligible(gcp, statusGeneration, rows[i])
                                            && forall j :: 0 <= j < i && Candidate(rows[j], source, "auto") ==>
                                              !Eligible(gcp, statusGeneration, rows[j])
              case None =>
                forall j :: 0 <= j < |rows| && Candidate(rows[j], source, "auto") ==>
                  !Eligible(gcp, statusGeneration, rows[j])
    ensures requested != "" && requested != "auto" ==>
              (target == Some(requested) <==>
               exists i :: 0 <= i < |rows| &&
                 Candidate(rows[i], source, requested) && Eligible(gcp, statusGeneration, rows[i])
                             && forall j :: 0 <= j < i ==> !Candidate(rows[j], source, requested))
    ensures requested != "" && requested != "auto" && target.Some? ==> target.value == requested
  {
    var wanted := if requested == "" then "auto" else requested;
    for i := 0 to |rows|
      invariant wanted == "auto" ==>
                forall j :: 0 <= j < i && Candidate(rows[j], source, "auto") ==>
                  !Eligible(gcp, statusGeneration, rows[j])
      invariant wanted != "auto" ==> forall j :: 0 <= j < i ==> !Candidate(rows[j], source, wanted)
    {
      var row := rows[i];
      if row.node == "" || row.node == source {
        continue;
      }
      if wanted != "auto" && row.node != wanted {
        continue;
      }
      if !row.standby || (row.health != "" && row.health != "Healthy") ||
         !row.recent || !GenerationFits(gcp, statusGeneration, row) {
        if wanted != "auto" {
          return None;
        }
        continue;
      }
      return Some(row.node);
    }
    return None;
  }

  // ----- Handlers -----

  // Where a handler stands between two calls.
  datatype Phase =
    | Reading                                          // look for an existing record
    | Deciding                                         // read the lease: ours, or forward to the active node
    | Creating(generation: L.Generation)                 // create the record if absent
    | Rereading                                        // creation failed: look again
    | Selecting(generation: L.Generation)                // the record is ours: choose a target
    | WritingPreparing(record: HandoverRecord)
    | PreparingPeer(record: HandoverRecord)                    // ask the target, then build the controller
    | WritingCommitting(record: HandoverRecord)
    | Executing(record: HandoverRecord)                        // run the controller's handover
    | WritingFinal(record: HandoverRecord, answer: Response)
    | Answered(answer: Response)

  // ----- Asking the target -----

  // Who holds the stored lease, under which generation.
  datatype Holder = Holder(owner: string, generation: L.Generation)

  datatype PrepareReply = Prepared | NotPrepared(error: string)

  /** The target's own check: it consents exactly when the request names it and the stored lease is the requester's,
      under the generation the requester goes by. */
  function Prepare(local: string, source: string, target: string, generation: L.Generation, current: Option<Holder>)
    : (reply: PrepareReply)
    ensures reply.Prepared? <==> local == target && current == Some(Holder(source, generation))
  {
    if target != local then NotPrepared("handover prepare target does not match local node")
    else if current.None? then NotPrepared("read current lease")
    else if current.value.owner != source || current.value.generation != generation then
      NotPrepared("handover requester is not the current active lease owner")
    else Prepared
  }

  // The address in a node's first row; "" if it has none.
  function ControlURL(rows: seq<Row>, node: string): string {
    if rows == [] then "" else if rows[0].node == node then rows[0].controlURL else ControlURL(rows[1..], node)
  }

  // token: the handler's node is configured to authenticate to its peers. rows: the status the handler goes by.
  // created: this handler's create call succeeded. stored: its final update took effect.
  datatype Handler = Handler(
    source: string, reason: string, token: bool, rows: seq<Row>, phase: Phase, created: bool, stored: bool)
  {
    // Whether the handler asks the target at all.
    predicate Asks(target: string) {
      token && ControlURL(rows, target) != ""
    }
  }

  // statuses are the values the stored status has had, in order; executions counts the handovers run; lease is the
  // stored lease, which moves on its own.
  datatype System = System(
    store: Option<HandoverRecord>, handlers: seq<Handler>, statuses: seq<Status>, executions: nat, lease: Holder)

  // How the next call turns out: whether it answers without error, whether a write took effect, and what it brings
  // back: the status rows among it. For the call that prepares the target: which node answers, whether that node can
  // read the lease, and whether the controller can be built afterwards.
  datatype Turnout = Turnout(
    ok: bool, took: bool, rows: seq<Row>, peer: string, readable: bool, built: bool,
    generation: L.Generation, target: string, text: string, reverted: bool, reply: Response)

  // What keeps the handler from going on to commit, if anything.
  function PrepareTrouble(s: System, h: Handler, r: HandoverRecord, t: Turnout): Option<string> {
    if h.Asks(r.target) && !t.ok then Some(t.text)
    else if h.Asks(r.target)
            && Prepare(t.peer, h.source, r.target, r.generation,
                       if t.readable then Some(s.lease) else None).NotPrepared? then
      Some(Prepare(t.peer, h.source, r.target, r.generation, if t.readable then Some(s.lease) else None).error)
    else if !t.built then Some(t.text)
    else None
  }

  // It goes on exactly when the controller could be built and, if the target is asked, the one that answers is the
  // target, can read the lease, and finds it the handler's under the record's generation.
  lemma GoesOnIff(s: System, h: Handler, r: HandoverRecord, t: Turnout)
    ensures PrepareTrouble(s, h, r, t) == None <==>
            && t.built
            && (h.token && ControlURL(h.rows, r.target) != "" ==>
                  t.ok && t.peer == r.target && t.readable && s.lease == Holder(h.source, r.generation))
  {
  }

  datatype Step =
    | Arrive(source: string, reason: string, token: bool)
    | Advance(handler: nat, turnout: Turnout)
    | LeaseMoves(to: Holder)

  function Rejection(source: string, target: string, error: string): Response {
    Response(REJECTED, source, target, 0, "", error)
  }

  // An update of the record; it may be lost, which the handler only logs.
  function Write(s: System, r: HandoverRecord, took: bool): System {
    if took && s.store.Some? then s.(store := Some(Updated(s.store.value, r)), statuses := s.statuses + [r.status])
    else s
  }

  function Moved(s: System, i: nat, phase: Phase): System
    requires i < |s.handlers|
  {
    s.(handlers := s.handlers[i := s.handlers[i].(phase := phase)])
  }

  // The record a rejection after creation is stored with, and its answer.
  function RejectWith(h: Handler, r: HandoverRecord, error: string): Phase {
    WritingFinal(r.(status := REJECTED, error := error), Rejection(h.source, r.target, error))
  }

  const REVERTED_MESSAGE := "handover failed after cloud mutation; ownership was reverted"
  const COMPLETED_MESSAGE := "handover completed"

  function Next(s: System, step: Step): System
    requires step.Advance? ==> step.handler < |s.handlers|
  {
    match step
    case LeaseMoves(to) => s.(lease := to)
    case Arrive(source, reason, token) =>
      s.(handlers := s.handlers + [Handler(source, reason, token, [], Reading, false, false)])
    case Advance(i, t) =>
      var h := s.handlers[i];
      match h.phase
      case Reading =>
        if s.store.Some? && t.ok then Moved(s, i, Answered(ResponseFromRecord(s.store.value)))
        else Moved(s, i, Deciding)
      case Deciding =>
        if h.source == "" || h.source == "auto" then
          Moved(s, i, Answered(Rejection(h.source, "", "local node id is not resolved")))
        else
          var phase := if !t.ok then Answered(Rejection(h.source, "", t.text))
                       else if s.lease.owner != h.source then Answered(t.reply)
                       else Creating(s.lease.generation);
          s.(handlers := s.handlers[i := h.(phase := phase, rows := t.rows)])
      case Creating(generation) =>
        var created := HandoverRecord(REQUESTED, h.source, "", h.reason, generation, "", "");
        if s.store.None? && t.ok then
          s.(store := Some(created), statuses := s.statuses + [REQUESTED],
             handlers := s.handlers[i := h.(phase := Selecting(generation), created := true)])
        else if s.store.None? && t.took then
          Moved(s.(store := Some(created), statuses := s.statuses + [REQUESTED]), i, Rereading)
        else Moved(s, i, Rereading)
      case Rereading =>
        if s.store.Some? && t.ok then Moved(s, i, Answered(ResponseFromRecord(s.store.value)))
        else Moved(s, i, Answered(Rejection(h.source, "", t.text)))
      case Selecting(generation) =>
        if t.ok then
          Moved(s, i, WritingPreparing(HandoverRecord(PREPARING, h.source, t.target, h.reason, generation, "", "")))
        else Moved(s, i, RejectWith(h, HandoverRecord(REJECTED, h.source, "", h.reason, generation, "", ""), t.text))
      case WritingPreparing(r) => Moved(Write(s, r, t.took), i, PreparingPeer(r))
      case PreparingPeer(r) =>
        var trouble := PrepareTrouble(s, h, r, t);
        if trouble.None? then Moved(s, i, WritingCommitting(r.(status := COMMITTING)))
        else Moved(s, i, RejectWith(h, r, trouble.value))
      case WritingCommitting(r) => Moved(Write(s, r, t.took), i, Executing(r))
      case Executing(r) =>
        var ran := s.(executions := s.executions + 1);
        if t.ok then
          Moved(ran, i, WritingFinal(r.(status := COMPLETED, generation := t.generation, message := COMPLETED_MESSAGE),
                                     Response(COMPLETED, h.source, r.target, t.generation, COMPLETED_MESSAGE, "")))
        else
          var message := if t.reverted then REVERTED_MESSAGE else "";
          Moved(ran, i, WritingFinal(r.(status := FAILED, message := message, error := t.text),
                                     Response(REJECTED, h.source, r.target, 0, message, t.text)))
      case WritingFinal(r, answer) =>
        var written := Write(s, r, t.took);
        written.(handlers := written.handlers[i := h.(phase := Answered(answer), stored := t.took)])
      case Answered(_) => s
  }

  // Nothing is stored and no handler has arrived; the lease is anybody's.
  predicate Initial(s: System) {
    s == System(None, [], [], 0, s.lease)
  }

  // trace is a run: every state follows from the one before by a step of an arrived handler.
  ghost predicate IsRun(trace: seq<System>, steps: seq<Step>) {
    && |trace| == |steps| + 1 && Initial(trace[0])
    && forall i :: 0 <= i < |steps| ==>
                     && (steps[i].Advance? ==> steps[i].handler < |trace[i].handlers|)
                     && trace[i + 1] == Next(trace[i], steps[i])
  }

  // ----- The invariant -----

  // a may be followed by b, perhaps with lost updates in between.
  predicate Leads(a: Status, b: Status) {
    match a
    case REQUESTED => b != REQUESTED
    case PREPARING => b == COMMITTING || b == COMPLETED || b == FAILED || b == REJECTED
    case COMMITTING => b == COMPLETED || b == FAILED
    case _ => false
  }

  predicate Monotone(statuses: seq<Status>) {
    forall i, j :: 0 <= i < j < |statuses| ==> Leads(statuses[i], statuses[j])
  }

  // Phases that only the creator of the record reaches.
  predicate PastCreation(p: Phase) {
    p.Selecting? || p.WritingPreparing? || p.PreparingPeer? || p.WritingCommitting? || p.Executing? || p.WritingFinal?
  }

  // The handover has been run, or the request was turned down: it will not be run any more.
  predicate PastExecution(p: Phase) {
    p.WritingFinal? || p.Answered?
  }

  // The stored status is one the creator in this phase has had time to write; what it will write
  // next is a step forward.
  predicate StatusFits(p: Phase, stored: Status) {
    match p
    case Selecting(_) => stored == REQUESTED
    case WritingPreparing(r) => stored == REQUESTED && r.status == PREPARING
    case PreparingPeer(r) => (stored == REQUESTED || stored == PREPARING) && r.status == PREPARING
    case WritingCommitting(r) => (stored == REQUESTED || stored == PREPARING) && r.status == COMMITTING
    case Executing(r) => (stored == REQUESTED || stored == PREPARING || stored == COMMITTING) && r.status == COMMITTING
    case WritingFinal(r, _) => Leads(stored, r.status)
    case _ => true
  }

  // Every stored record of the creator carries the creator's source; the final record and answer agree
  // on everything but what an error answer leaves out.
  predicate RecordFits(h: Handler, r: HandoverRecord) {
    r.source == h.source && r.message == ""  && r.error == ""
  }

  predicate FinalFits(h: Handler, r: HandoverRecord, answer: Response) {
    && r.source == h.source == answer.source && r.target == answer.target
    && r.message == answer.message && r.error == answer.error
    && match r.status
       case COMPLETED => answer.status == COMPLETED && answer.generation == r.generation
       case FAILED => answer.status == REJECTED && answer.generation == 0
       case REJECTED => answer.status == REJECTED && answer.generation == 0
       case _ => false
  }

  predicate HandlerFits(store: Option<HandoverRecord>, h: Handler) {
    && (PastCreation(h.phase) ==> h.created)
    && (h.created ==> store.Some? && store.value.source == h.source && (PastCreation(h.phase) || h.phase.Answered?))
    && (h.created ==> StatusFits(h.phase, store.value.status))
    && (h.stored ==> h.created && h.phase.Answered? && store.Some? && FinalFits(h, store.value, h.phase.answer))
    && match h.phase
       case WritingPreparing(r) => RecordFits(h, r)
       case PreparingPeer(r) => RecordFits(h, r)
       case WritingCommitting(r) => RecordFits(h, r)
       case Executing(r) => RecordFits(h, r)
       case WritingFinal(r, answer) => FinalFits(h, r, answer)
       case _ => true
  }

  ghost predicate HandlersFit(s: System) {
    forall i :: 0 <= i < |s.handlers| ==> HandlerFits(s.store, s.handlers[i])
  }

  ghost predicate OneCreator(s: System) {
    forall i, j :: 0 <= i < |s.handlers| && 0 <= j < |s.handlers| && s.handlers[i].created && s.handlers[j].created ==>
      i == j
  }

  // A handler that created the record has its handover behind it.
  predicate RanBy(s: System, i: nat) {
    i < |s.handlers| && s.handlers[i].created && PastExecution(s.handlers[i].phase)
  }

  ghost predicate RanOnce(s: System) {
    s.executions == 0 || (s.executions == 1 && exists i: nat :: RanBy(s, i))
  }

  predicate HistoryFits(s: System) {
    && Monotone(s.statuses)
    && (s.store.None? <==> s.statuses == [])
    && (s.store.Some? ==> s.store.value.status == s.statuses[|s.statuses| - 1])
  }

  ghost predicate Inv(s: System) {
    HandlersFit(s) && OneCreator(s) && RanOnce(s) && HistoryFits(s)
  }

  lemma ActorKeepsFit(s: System, i: nat, t: Turnout)
    requires i < |s.handlers| && HandlerFits(s.store, s.handlers[i])
    ensures HandlerFits(Next(s, Advance(i, t)).store, Next(s, Advance(i, t)).handlers[i])
  {
    if PastCreation(s.handlers[i].phase) {
      CreatorKeepsFit(s, i, t);
    } else {
      NewcomerKeepsFit(s, i, t);
    }
  }

  lemma NewcomerKeepsFit(s: System, i: nat, t: Turnout)
    requires i < |s.handlers| && HandlerFits(s.store, s.handlers[i]) && !PastCreation(s.handlers[i].phase)
    ensures HandlerFits(Next(s, Advance(i, t)).store, Next(s, Advance(i, t)).handlers[i])
  {
    match s.handlers[i].phase
    case Reading =>
    case Deciding =>
    case Creating(_) =>
    case Rereading =>
    case Answered(_) =>
  }

  lemma CreatorKeepsFit(s: System, i: nat, t: Turnout)
    requires i < |s.handlers| && HandlerFits(s.store, s.handlers[i]) && PastCreation(s.handlers[i].phase)
    ensures HandlerFits(Next(s, Advance(i, t)).store, Next(s, Advance(i, t)).handlers[i])
  {
    match s.handlers[i].phase
    case Selecting(_) =>
    case WritingPreparing(_) =>
    case PreparingPeer(_) =>
    case WritingCommitting(_) =>
    case Executing(_) =>
    case WritingFinal(_, _) =>
  }

  // Only the record's creator, or the one creating it, touches the store.
  lemma OthersLeaveStore(s: System, i: nat, t: Turnout)
    requires i < |s.handlers| && HandlerFits(s.store, s.handlers[i]) && !s.handlers[i].created && s.store.Some?
    ensures Next(s, Advance(i, t)).store == s.store && !Next(s, Advance(i, t)).handlers[i].created
  {
  }

  lemma OthersKeepFit(s: System, i: nat, t: Turnout, j: nat)
    requires HandlersFit(s) && OneCreator(s) && i < |s.handlers| && j < |s.handlers| && j != i
    ensures HandlerFits(Next(s, Advance(i, t)).store, s.handlers[j])
    ensures s.handlers[j].created ==> !Next(s, Advance(i, t)).handlers[i].created
  {
    assert HandlerFits(s.store, s.handlers[i]) && HandlerFits(s.store, s.handlers[j]);
    if s.handlers[j].created {
      OthersLeaveStore(s, i, t);
    }
  }

  lemma OnlyActorMoves(s: System, i: nat, t: Turnout)
    requires i < |s.handlers|
    ensures |Next(s, Advance(i, t)).handlers| == |s.handlers|
    ensures forall j :: 0 <= j < |s.handlers| && j != i ==> Next(s, Advance(i, t)).handlers[j] == s.handlers[j]
  {
  }

  lemma StepKeepsHandlers(s: System, step: Step)
    requires HandlersFit(s) && OneCreator(s) && (step.Advance? ==> step.handler < |s.handlers|)
    ensures HandlersFit(Next(s, step)) && OneCreator(Next(s, step))
  {
    if step.Advance? {
      var i, t := step.handler, step.turnout;
      ActorKeepsFit(s, i, t);
      OnlyActorMoves(s, i, t);
      forall j | 0 <= j < |s.handlers| && j != i
        ensures HandlerFits(Next(s, step).store, s.handlers[j])
        ensures s.handlers[j].created ==> !Next(s, step).handlers[i].created
      {
        OthersKeepFit(s, i, t, j);
      }
    }
  }

  lemma StepKeepsRanOnce(s: System, step: Step)
    requires Inv(s) && (step.Advance? ==> step.handler < |s.handlers|)
    ensures RanOnce(Next(s, step))
  {
    var s' := Next(s, step);
    if step.Advance? {
      assert HandlerFits(s.store, s.handlers[step.handler]);
    }
    if s.executions == 1 {
      var i: nat :| RanBy(s, i);
      assert HandlerFits(s.store, s.handlers[i]);
      assert RanBy(s', i);
    } else if s'.executions == 1 {
      assert RanBy(s', step.handler);
    }
  }

  // A status the last stored one leads to is led to by every earlier one.
  lemma MonotoneGrows(statuses: seq<Status>, next: Status)
    requires Monotone(statuses)
    ensures statuses == [] || Leads(statuses[|statuses| - 1], next) ==> Monotone(statuses + [next])
  {
  }

  // The stored status stays, or moves forward and is recorded.
  predicate StatusStep(s: System, s': System) {
    || (s'.statuses == s.statuses && (s'.store.Some? <==> s.store.Some?)
        && (s.store.Some? ==> s'.store.value.status == s.store.value.status))
    || (s'.store.Some? && s'.statuses == s.statuses + [s'.store.value.status]
        && (s.store.Some? ==> Leads(s.store.value.status, s'.store.value.status)))
  }

  lemma ActorMovesStatus(s: System, i: nat, t: Turnout)
    requires i < |s.handlers| && HandlerFits(s.store, s.handlers[i])
    ensures StatusStep(s, Next(s, Advance(i, t)))
  {
  }

  lemma StepKeepsHistory(s: System, step: Step)
    requires HandlersFit(s) && HistoryFits(s) && (step.Advance? ==> step.handler < |s.handlers|)
    ensures HistoryFits(Next(s, step))
  {
    if step.Advance? {
      var s' := Next(s, step);
      ActorMovesStatus(s, step.handler, step.turnout);
      if s'.store.Some? {
        MonotoneGrows(s.statuses, s'.store.value.status);
      }
    }
  }

  lemma {:induction false} RunKeepsInv(trace: seq<System>, steps: seq<Step>, i: nat)
    requires IsRun(trace, steps) && i < |trace|
    ensures Inv(trace[i])
  {
    if i > 0 {
      RunKeepsInv(trace, steps, i - 1);
      StepKeepsHandlers(trace[i - 1], steps[i - 1]);
      StepKeepsRanOnce(trace[i - 1], steps[i - 1]);
      StepKeepsHistory(trace[i - 1], steps[i - 1]);
    }
  }

  // ----- What a request can rely on -----

  /** However the handlers of one request interleave, and whatever reads and writes fail, the
      controller's handover runs at most once. */
  lemma HandoverRunsAtMostOnce(trace: seq<System>, steps: seq<Step>, i: nat)
    requires IsRun(trace, steps) && i < |trace|
    ensures trace[i].executions <= 1
  {
    RunKeepsInv(trace, steps, i);
  }

  // What handler j is about to store, or has stored, is a rejection exactly when no handover has been run.
  predicate ToldApart(s: System, j: nat)
    requires j < |s.handlers|
  {
    var h := s.handlers[j];
    && (h.phase.WritingFinal? ==> (h.phase.record.status == REJECTED <==> s.executions == 0))
    && (PastCreation(h.phase) && !h.phase.WritingFinal? ==> s.executions == 0)
    && (h.stored ==> s.store.Some? && (s.store.value.status == REJECTED <==> s.executions == 0))
  }

  lemma ActorToldApart(s: System, i: nat, t: Turnout)
    requires i < |s.handlers| && HandlerFits(s.store, s.handlers[i]) && ToldApart(s, i)
    requires s.handlers[i].phase.Creating? && s.store.None? ==> s.executions == 0
    ensures ToldApart(Next(s, Advance(i, t)), i)
  {
    match s.handlers[i].phase
    case Reading =>
    case Deciding =>
    case Creating(_) =>
    case Rereading =>
    case Answered(_) =>
    case Selecting(_) =>
    case WritingPreparing(_) =>
    case PreparingPeer(_) =>
    case WritingCommitting(_) =>
    case Executing(_) =>
    case WritingFinal(_, _) =>
  }

  lemma OtherToldApart(s: System, i: nat, t: Turnout, j: nat)
    requires HandlersFit(s) && OneCreator(s) && i < |s.handlers| && j < |s.handlers| && i != j && ToldApart(s, j)
    ensures j < |Next(s, Advance(i, t)).handlers| && ToldApart(Next(s, Advance(i, t)), j)
  {
    OnlyActorMoves(s, i, t);
    assert HandlerFits(s.store, s.handlers[i]) && HandlerFits(s.store, s.handlers[j]);
    if s.handlers[j].created {
      OthersLeaveStore(s, i, t);
    }
  }

  // Every handler is told apart, and without a record nothing has been run.
  ghost predicate AllToldApart(s: System) {
    (s.store.None? ==> s.executions == 0) && forall j :: 0 <= j < |s.handlers| ==> ToldApart(s, j)
  }

  lemma StepTellsApart(s: System, step: Step)
    requires HandlersFit(s) && OneCreator(s) && AllToldApart(s) && (step.Advance? ==> step.handler < |s.handlers|)
    ensures AllToldApart(Next(s, step))
  {
    var s' := Next(s, step);
    if step.Advance? {
      OnlyActorMoves(s, step.handler, step.turnout);
      assert HandlerFits(s.store, s.handlers[step.handler]);
    }
    forall j | 0 <= j < |s'.handlers|
      ensures ToldApart(s', j)
    {
      if j == |s.handlers| {
        assert step.Arrive?;
      } else if !step.Advance? {
        assert ToldApart(s, j) && s'.handlers[j] == s.handlers[j];
      } else if j == step.handler {
        ActorToldApart(s, j, step.turnout);
      } else {
        OtherToldApart(s, step.handler, step.turnout, j);
      }
    }
  }

  lemma {:induction false} RunTellsApart(trace: seq<System>, steps: seq<Step>, i: nat)
    requires IsRun(trace, steps) && i < |trace|
    ensures AllToldApart(trace[i])
  {
    if i > 0 {
      RunTellsApart(trace, steps, i - 1);
      RunKeepsInv(trace, steps, i - 1);
      StepTellsApart(trace[i - 1], steps[i - 1]);
    }
  }

  /** The final status tells whether the cloud was touched: once the creator's final update is stored, the record says
      rejected exactly when no handover was run, and completed or failed exactly when one was. */
  lemma FinalStatusTells(trace: seq<System>, steps: seq<Step>, i: nat, creator: nat)
    requires IsRun(trace, steps) && i < |trace| && creator < |trace[i].handlers| && trace[i].handlers[creator].stored
    ensures trace[i].store.Some?
    ensures trace[i].store.value.status == REJECTED <==> trace[i].executions == 0
    ensures trace[i].store.value.status in {COMPLETED, FAILED} <==> trace[i].executions == 1
  {
    RunTellsApart(trace, steps, i);
    RunKeepsInv(trace, steps, i);
    assert ToldApart(trace[i], creator) && HandlerFits(trace[i].store, trace[i].handlers[creator]);
  }

  lemma {:induction false} StatusesGrow(trace: seq<System>, steps: seq<Step>, i: nat, j: nat)
    requires IsRun(trace, steps) && i <= j < |trace|
    ensures trace[i].statuses <= trace[j].statuses
    decreases j - i
  {
    if i < j {
      StatusesGrow(trace, steps, i, j - 1);
    }
  }

  /** The stored status only moves forward: requested, preparing, committing, then completed or failed,
      with rejected reachable from the first two. */
  lemma StatusMovesForward(trace: seq<System>, steps: seq<Step>, i: nat, j: nat)
    requires IsRun(trace, steps) && i <= j < |trace| && trace[i].store.Some?
    ensures trace[j].store.Some?
    ensures var before, after := trace[i].store.value.status, trace[j].store.value.status;
            before == after || Leads(before, after)
  {
    RunKeepsInv(trace, steps, i);
    RunKeepsInv(trace, steps, j);
    StatusesGrow(trace, steps, i, j);
  }

  lemma FinalStep(s: System, step: Step, creator: nat)
    requires HandlersFit(s) && OneCreator(s) && (step.Advance? ==> step.handler < |s.handlers|)
    requires creator < |s.handlers| && s.handlers[creator].stored
    ensures Next(s, step).store == s.store && creator < |Next(s, step).handlers|
    ensures Next(s, step).handlers[creator] == s.handlers[creator]
  {
    assert HandlerFits(s.store, s.handlers[creator]);
    if step.Advance? {
      OnlyActorMoves(s, step.handler, step.turnout);
      if step.handler != creator {
        assert HandlerFits(s.store, s.handlers[step.handler]);
        OthersLeaveStore(s, step.handler, step.turnout);
      }
    }
  }

  // After the creator has answered and its final update is stored, the record never changes again.
  lemma {:induction false} FinalRecordStays(trace: seq<System>, steps: seq<Step>, i: nat, j: nat, creator: nat)
    requires IsRun(trace, steps) && i <= j < |trace|
    requires creator < |trace[i].handlers| && trace[i].handlers[creator].stored
    ensures trace[j].store == trace[i].store
    ensures creator < |trace[j].handlers| && trace[j].handlers[creator] == trace[i].handlers[creator]
    decreases j - i
  {
    if i < j {
      FinalRecordStays(trace, steps, i, j - 1, creator);
      RunKeepsInv(trace, steps, j - 1);
      FinalStep(trace[j - 1], steps[j - 1], creator);
    }
  }

  // Step i is handler's read of the stored record, and it succeeds.
  predicate Replays(s: System, step: Step, handler: nat) {
    && step.Advance? && step.handler == handler < |s.handlers| && step.turnout.ok && s.store.Some?
    && (s.handlers[handler].phase.Reading? || s.handlers[handler].phase.Rereading?)
  }

  /** Replaying a finished request, at any time and on any node: the replayed answer is the original
      one exactly when the request completed, or was rejected under generation 0. Error answers leave
      the generation out, and call a failure a rejection, where the stored record does not. */
  lemma ReplayAnswersTheSameIff(trace: seq<System>, steps: seq<Step>, i: nat, j: nat, creator: nat, handler: nat)
    requires IsRun(trace, steps) && i <= j < |steps|
    requires creator < |trace[i].handlers| && trace[i].handlers[creator].stored
    requires trace[i].handlers[creator].phase.Answered?
    requires Replays(trace[j], steps[j], handler)
    ensures trace[i].store.Some?
    ensures trace[j + 1].handlers[handler].phase == Answered(ResponseFromRecord(trace[i].store.value))
    ensures trace[j + 1].handlers[handler].phase.answer == trace[i].handlers[creator].phase.answer <==>
            (trace[i].store.value.status == COMPLETED
             || (trace[i].store.value.status == REJECTED && trace[i].store.value.generation == 0))
    ensures trace[i].handlers[creator].phase.answer.status == COMPLETED ==>
              trace[j + 1].handlers[handler].phase.answer == trace[i].handlers[creator].phase.answer
  {
    FinalRecordStays(trace, steps, i, j, creator);
    RunKeepsInv(trace, steps, i);
    assert HandlerFits(trace[i].store, trace[i].handlers[creator]);
  }

  // In this step the handler finds the lease to be its own node's, under this generation.
  predicate FindsOwnLease(s: System, step: Step, handler: nat, generation: L.Generation) {
    && step.Advance? && step.handler == handler < |s.handlers| && s.handlers[handler].phase.Deciding?
    && step.turnout.ok && s.handlers[handler].source != "" && s.handlers[handler].source != "auto"
    && s.lease == Holder(s.handlers[handler].source, generation)
  }

  // In this step the handler turns to its target.
  predicate TurnsToTarget(s: System, step: Step, handler: nat, target: string, generation: L.Generation) {
    && step.Advance? && step.handler == handler < |s.handlers| && s.handlers[handler].phase.PreparingPeer?
    && s.handlers[handler].phase.record.target == target && s.handlers[handler].phase.record.generation == generation
  }

  // The target itself is asked, and consents while the stored lease is the handler's node's, under this generation.
  predicate TargetConsents(s: System, step: Step, handler: nat, target: string, generation: L.Generation) {
    && TurnsToTarget(s, step, handler, target, generation)
    && s.handlers[handler].Asks(target) && step.turnout.ok && step.turnout.peer == target
    && s.lease == Holder(s.handlers[handler].source, generation)
  }

  // Nobody is asked.
  predicate NobodyAsked(s: System, step: Step, handler: nat, target: string, generation: L.Generation) {
    TurnsToTarget(s, step, handler, target, generation) && !s.handlers[handler].Asks(target)
  }

  predicate AskedIfAtAll(s: System, step: Step, handler: nat, target: string, generation: L.Generation) {
    TargetConsents(s, step, handler, target, generation) || NobodyAsked(s, step, handler, target, generation)
  }

  // The generation a handler goes by, up to the handover.
  function GoesBy(p: Phase): Option<L.Generation> {
    match p
    case Creating(generation) => Some(generation)
    case Selecting(generation) => Some(generation)
    case WritingPreparing(r) => Some(r.generation)
    case PreparingPeer(r) => Some(r.generation)
    case WritingCommitting(r) => Some(r.generation)
    case Executing(r) => Some(r.generation)
    case _ => None
  }

  predicate Committed(p: Phase) {
    p.WritingCommitting? || p.Executing?
  }

  // How a handler can have come to its phase.
  lemma PhaseBefore(s: System, i: nat, t: Turnout)
    requires i < |s.handlers|
    ensures var before, after := s.handlers[i].phase, Next(s, Advance(i, t)).handlers[i].phase;
      && (GoesBy(after).Some? ==>
          GoesBy(before) == GoesBy(after) || FindsOwnLease(s, Advance(i, t), i, GoesBy(after).value))
      && (after.WritingCommitting? ==>
            AskedIfAtAll(s, Advance(i, t), i, after.record.target, after.record.generation))
      && (after.Executing? ==> before == WritingCommitting(after.record))
  {
    match s.handlers[i].phase
    case Deciding =>
    case PreparingPeer(_) => PreparingBefore(s, i, t);
    case WritingCommitting(_) =>
    case _ =>
  }

  lemma PreparingBefore(s: System, i: nat, t: Turnout)
    requires i < |s.handlers| && s.handlers[i].phase.PreparingPeer?
    ensures var r, after := s.handlers[i].phase.record, Next(s, Advance(i, t)).handlers[i].phase;
            after.WritingFinal?
            || (after == WritingCommitting(r.(status := COMMITTING))
                && AskedIfAtAll(s, Advance(i, t), i, r.target, r.generation))
  {
  }

  lemma {:induction false} LeaseWasFound(trace: seq<System>, steps: seq<Step>, i: nat, handler: nat)
    requires IsRun(trace, steps) && i < |trace| && handler < |trace[i].handlers|
    requires GoesBy(trace[i].handlers[handler].phase).Some?
    ensures var generation := GoesBy(trace[i].handlers[handler].phase).value;
      exists j :: 0 <= j < i && FindsOwnLease(trace[j], steps[j], handler, generation)
  {
    if i > 0 {
      var before, step := trace[i - 1], steps[i - 1];
      if step.Advance? {
        OnlyActorMoves(before, step.handler, step.turnout);
        PhaseBefore(before, step.handler, step.turnout);
      }
      if handler < |before.handlers|
         && GoesBy(before.handlers[handler].phase) == GoesBy(trace[i].handlers[handler].phase) {
        LeaseWasFound(trace, steps, i - 1, handler);
      }
    }
  }

  lemma {:induction false} TargetWasTurnedTo(trace: seq<System>, steps: seq<Step>, i: nat, handler: nat)
    requires IsRun(trace, steps) && i < |trace| && handler < |trace[i].handlers|
    requires Committed(trace[i].handlers[handler].phase)
    ensures var r := trace[i].handlers[handler].phase.record;
      exists j :: 0 <= j < i && AskedIfAtAll(trace[j], steps[j], handler, r.target, r.generation)
  {
    if i > 0 {
      var before, step := trace[i - 1], steps[i - 1];
      if step.Advance? {
        OnlyActorMoves(before, step.handler, step.turnout);
        PhaseBefore(before, step.handler, step.turnout);
      }
      if (handler < |before.handlers| && Committed(before.handlers[handler].phase)
          && before.handlers[handler].phase.record == trace[i].handlers[handler].phase.record) {
        TargetWasTurnedTo(trace, steps, i - 1, handler);
      }
    }
  }

  // The handler has read its status and will not read it again.
  predicate StatusRead(p: Phase) {
    !p.Reading? && !p.Deciding?
  }

  lemma {:induction false} StatusStays(trace: seq<System>, steps: seq<Step>, i: nat, j: nat, handler: nat)
    requires IsRun(trace, steps) && i <= j < |trace|
    requires handler < |trace[i].handlers| && StatusRead(trace[i].handlers[handler].phase)
    ensures handler < |trace[j].handlers| && StatusRead(trace[j].handlers[handler].phase)
    ensures trace[j].handlers[handler].token == trace[i].handlers[handler].token
    ensures trace[j].handlers[handler].rows == trace[i].handlers[handler].rows
    decreases j - i
  {
    if i < j {
      StatusStays(trace, steps, i, j - 1, handler);
      StatusStepStays(trace[j - 1], steps[j - 1], handler);
    }
  }

  lemma ActorKeepsStatus(s: System, i: nat, t: Turnout)
    requires i < |s.handlers| && StatusRead(s.handlers[i].phase)
    ensures var h := Next(s, Advance(i, t)).handlers[i];
            StatusRead(h.phase) && h.token == s.handlers[i].token && h.rows == s.handlers[i].rows
  {
    match s.handlers[i].phase
    case Creating(_) =>
    case Rereading =>
    case Selecting(_) =>
    case WritingPreparing(_) =>
    case PreparingPeer(_) =>
    case WritingCommitting(_) =>
    case Executing(_) =>
    case WritingFinal(_, _) =>
    case Answered(_) =>
  }

  lemma StatusStepStays(s: System, step: Step, handler: nat)
    requires (step.Advance? ==> step.handler < |s.handlers|) && handler < |s.handlers|
    requires StatusRead(s.handlers[handler].phase)
    ensures handler < |Next(s, step).handlers| && StatusRead(Next(s, step).handlers[handler].phase)
    ensures Next(s, step).handlers[handler].token == s.handlers[handler].token
    ensures Next(s, step).handlers[handler].rows == s.handlers[handler].rows
  {
    if step.Advance? {
      OnlyActorMoves(s, step.handler, step.turnout);
      if step.handler == handler {
        ActorKeepsStatus(s, handler, step.turnout);
      }
    }
  }

  /** A handover is only ever run by the handler that created the record, after it found the stored lease to be its own
      node's under the generation it goes by. The target was asked and consented, while the lease still was, if and only
      if the handler's node has a token and, in the status it went by, an address for the target. */
  lemma ExecutionIsEarned(trace: seq<System>, steps: seq<Step>, i: nat)
    requires IsRun(trace, steps) && i < |steps| && trace[i + 1].executions != trace[i].executions
    ensures steps[i].Advance? && trace[i].handlers[steps[i].handler].created
    ensures trace[i].handlers[steps[i].handler].phase.Executing?
    ensures var h := trace[i].handlers[steps[i].handler];
      && (exists j :: 0 <= j < i && FindsOwnLease(trace[j], steps[j], steps[i].handler, h.phase.record.generation))
      && ((exists j :: 0 <= j < i && TargetConsents(trace[j], steps[j], steps[i].handler,
                                                     h.phase.record.target, h.phase.record.generation))
          <==> h.Asks(h.phase.record.target))
  {
    RunKeepsInv(trace, steps, i);
    var handler := steps[i].handler;
    assert HandlerFits(trace[i].store, trace[i].handlers[handler]);
    LeaseWasFound(trace, steps, i, handler);
    TargetWasTurnedTo(trace, steps, i, handler);
    var r := trace[i].handlers[handler].phase.record;
    forall j | 0 <= j < i && TurnsToTarget(trace[j], steps[j], handler, r.target, r.generation)
      ensures trace[j].handlers[handler].Asks(r.target) == trace[i].handlers[handler].Asks(r.target)
    {
      StatusStays(trace, steps, j, i, handler);
    }
  }

  // A request, and how it goes when nothing goes wrong.
  datatype Request = Request(
    source: string, reason: string, target: string, generation: L.Generation, next: L.Generation,
    token: bool, rows: seq<Row>)
  {
    function Smooth(generation: L.Generation): Turnout {
      Turnout(true, true, rows, target, true, true, generation,
              target, "", false, Response(REJECTED, "", "", 0, "", ""))
    }

    function Record(status: Status): HandoverRecord {
      HandoverRecord(status, source, if status == REQUESTED then "" else target, reason, generation, "", "")
    }

    function Final(): HandoverRecord {
      HandoverRecord(COMPLETED, source, target, reason, next, COMPLETED_MESSAGE, "")
    }

    // The system with this request's one handler in the given phase.
    function Alone(store: Option<HandoverRecord>, phase: Phase, statuses: seq<Status>): System {
      var seen := if StatusRead(phase) then rows else [];
      System(store, [Handler(source, reason, token, seen, phase, store.Some?, false)], statuses, 0,
             Holder(source, generation))
    }

    // Its record is created.
    function AtCreation(): System {
      Alone(Some(Record(REQUESTED)), Selecting(generation), [REQUESTED])
    }

    // It is about to ask its target.
    function AtPreparation(): System {
      Alone(Some(Record(PREPARING)), PreparingPeer(Record(PREPARING)), [REQUESTED, PREPARING])
    }

    // It is about to run.
    function AtExecution(): System {
      Alone(Some(Record(COMMITTING)), Executing(Record(COMMITTING)), [REQUESTED, PREPARING, COMMITTING])
    }

    function Answer(): Response {
      Response(COMPLETED, source, target, next, COMPLETED_MESSAGE, "")
    }

    function AtEnd(): System {
      System(Some(Final()), [Handler(source, reason, token, rows, Answered(Answer()), true, true)],
             [REQUESTED, PREPARING, COMMITTING, COMPLETED], 1, Holder(source, generation))
    }
  }

  lemma RunGoesOn(trace: seq<System>, steps: seq<Step>, step: Step)
    requires IsRun(trace, steps) && (step.Advance? ==> step.handler < |trace[|steps|].handlers|)
    ensures IsRun(trace + [Next(trace[|steps|], step)], steps + [step])
  {
    var trace', steps' := trace + [Next(trace[|steps|], step)], steps + [step];
    forall i | 0 <= i < |steps'|
      ensures (steps'[i].Advance? ==> steps'[i].handler < |trace'[i].handlers|)
      ensures trace'[i + 1] == Next(trace'[i], steps'[i])
    {
      if i < |steps| {
        assert trace'[i] == trace[i] && trace'[i + 1] == trace[i + 1];
      }
    }
  }

  lemma RunAdvances(trace: seq<System>, steps: seq<Step>, t: Turnout, next: System)
    returns (trace': seq<System>, steps': seq<Step>)
    requires IsRun(trace, steps) && |trace[|steps|].handlers| == 1 && Next(trace[|steps|], Advance(0, t)) == next
    ensures IsRun(trace', steps') && trace' == trace + [next] && steps' == steps + [Advance(0, t)]
  {
    RunGoesOn(trace, steps, Advance(0, t));
    trace', steps' := trace + [next], steps + [Advance(0, t)];
  }

  lemma ReachesCreation(q: Request) returns (trace: seq<System>, steps: seq<Step>)
    requires q.source != "" && q.source != "auto"
    ensures IsRun(trace, steps) && trace[|steps|] == q.AtCreation()
  {
    var t := q.Smooth(q.generation);
    var start := System(None, [], [], 0, Holder(q.source, q.generation));
    RunGoesOn([start], [], Arrive(q.source, q.reason, q.token));
    trace, steps := [start, q.Alone(None, Reading, [])], [Arrive(q.source, q.reason, q.token)];
    assert [start] + [q.Alone(None, Reading, [])] == trace;
    trace, steps := RunAdvances(trace, steps, t, q.Alone(None, Deciding, []));
    trace, steps := RunAdvances(trace, steps, t, q.Alone(None, Creating(q.generation), []));
    trace, steps := RunAdvances(trace, steps, t, q.AtCreation());
  }

  lemma ReachesPreparation(q: Request, trace: seq<System>, steps: seq<Step>)
    returns (trace': seq<System>, steps': seq<Step>)
    requires IsRun(trace, steps) && trace[|steps|] == q.AtCreation()
    ensures IsRun(trace', steps') && trace'[|steps'|] == q.AtPreparation()
  {
    var t, r := q.Smooth(q.generation), q.Record(PREPARING);
    trace', steps' := RunAdvances(trace, steps, t,
                                  q.Alone(Some(q.Record(REQUESTED)), WritingPreparing(r), [REQUESTED]));
    trace', steps' := RunAdvances(trace', steps', t, q.AtPreparation());
  }

  lemma ReachesExecution(q: Request, trace: seq<System>, steps: seq<Step>)
    returns (trace': seq<System>, steps': seq<Step>)
    requires IsRun(trace, steps) && trace[|steps|] == q.AtCreation()
    ensures IsRun(trace', steps') && trace'[|steps'|] == q.AtExecution()
  {
    var t, r := q.Smooth(q.generation), q.Record(PREPARING);
    trace', steps' := ReachesPreparation(q, trace, steps);
    trace', steps' := RunAdvances(trace', steps', t,
                                  q.Alone(Some(r), WritingCommitting(q.Record(COMMITTING)), [REQUESTED, PREPARING]));
    trace', steps' := RunAdvances(trace', steps', t, q.AtExecution());
  }

  /** A request with which nothing goes wrong runs the handover once, at step i, walks through every status and is
      answered with the new generation. */
  lemma UndisturbedRequestCompletes(q: Request) returns (trace: seq<System>, steps: seq<Step>, i: nat)
    requires q.source != "" && q.source != "auto"
    ensures IsRun(trace, steps) && trace[|steps|] == q.AtEnd()
    ensures i < |steps| && steps[i].Advance? && steps[i].handler == 0
    ensures trace[i] == q.AtExecution() && trace[i + 1].executions == 1
    ensures var s := trace[|steps|];
            && |s.handlers| == 1 && s.executions == 1 && s.statuses == [REQUESTED, PREPARING, COMMITTING, COMPLETED]
            && s.store ==
               Some(HandoverRecord(COMPLETED, q.source, q.target, q.reason, q.next, "handover completed", ""))
            && s.handlers[0].phase ==
               Answered(Response(COMPLETED, q.source, q.target, q.next, "handover completed", ""))
  {
    trace, steps := ReachesCreation(q);
    trace, steps := ReachesExecution(q, trace, steps);
    i := |steps|;
    var t, s := q.Smooth(q.next), q.AtExecution();
    trace, steps := RunAdvances(trace, steps, t,
                                s.(executions := 1,
                                   handlers := [s.handlers[0].(phase := WritingFinal(q.Final(), q.Answer()))]));
    trace, steps := RunAdvances(trace, steps, t, q.AtEnd());
  }

  /** The run without consent: a node without a token, or without an address for the target, hands over though nobody
      has agreed. */
  lemma RunsWithoutConsent(q: Request) returns (trace: seq<System>, steps: seq<Step>, i: nat)
    requires q.source != "" && q.source != "auto"
    requires !q.token || ControlURL(q.rows, q.target) == ""
    ensures IsRun(trace, steps) && trace[|steps|] == q.AtEnd()
    ensures i < |steps| && trace[i].executions == 0 && trace[i + 1].executions == 1
    ensures forall j :: 0 <= j < i ==> !TargetConsents(trace[j], steps[j], 0, q.target, q.generation)
  {
    trace, steps, i := UndisturbedRequestCompletes(q);
    ExecutionIsEarned(trace, steps, i);
    assert trace[i].handlers[0].phase.record == q.Record(COMMITTING);
    assert !trace[i].handlers[0].Asks(q.target);
  }

  // The request's handover fails.
  lemma ReachesFailure(q: Request, reverted: bool) returns (trace: seq<System>, steps: seq<Step>)
    requires q.source != "" && q.source != "auto"
    ensures IsRun(trace, steps)
    ensures var s := trace[|steps|];
            var message := if reverted then "handover failed after cloud mutation; ownership was reverted" else "";
            && |s.handlers| == 1 && s.handlers[0].stored
            && s.handlers[0].phase == Answered(Response(REJECTED, q.source, q.target, 0, message, "no route"))
            && s.store == Some(HandoverRecord(FAILED, q.source, q.target, q.reason, q.generation, message, "no route"))
  {
    trace, steps := ReachesCreation(q);
    trace, steps := ReachesExecution(q, trace, steps);
    var t := q.Smooth(q.generation).(ok := false, text := "no route", reverted := reverted);
    var message := if reverted then REVERTED_MESSAGE else "";
    var failed := q.Record(FAILED).(message := message, error := "no route");
    var answer := Response(REJECTED, q.source, q.target, 0, message, "no route");
    var s, h := q.AtExecution(), q.AtExecution().handlers[0];
    s := s.(executions := 1, handlers := [h.(phase := WritingFinal(failed, answer))]);
    trace, steps := RunAdvances(trace, steps, t, s);
    h := h.(phase := Answered(answer), stored := true);
    s := s.(store := Some(failed), handlers := [h], statuses := s.statuses + [FAILED]);
    trace, steps := RunAdvances(trace, steps, t, s);
  }

  /** A request whose handover fails, and a second handler that replays it: the original answer calls it a rejection,
      the replayed one a failure. Both say so when everything was put back. */
  lemma FailureIsReplayedOtherwise(q: Request, reverted: bool) returns (trace: seq<System>, steps: seq<Step>)
    requires q.source != "" && q.source != "auto"
    ensures IsRun(trace, steps)
    ensures var s := trace[|steps|];
            var message := if reverted then "handover failed after cloud mutation; ownership was reverted" else "";
            && |s.handlers| == 2 && s.handlers[0].stored
            && s.handlers[0].phase == Answered(Response(REJECTED, q.source, q.target, 0, message, "no route"))
            && s.handlers[1].phase == Answered(Response(FAILED, q.source, q.target, q.generation, message, "no route"))
  {
    trace, steps := ReachesFailure(q, reverted);
    var s := trace[|steps|];
    RunGoesOn(trace, steps, Arrive(q.source, q.reason, q.token));
    trace, steps := trace + [Next(s, Arrive(q.source, q.reason, q.token))],
                    steps + [Arrive(q.source, q.reason, q.token)];
    RunGoesOn(trace, steps, Advance(1, q.Smooth(q.generation)));
    trace, steps := trace + [Next(trace[|steps|], Advance(1, q.Smooth(q.generation)))],
                    steps + [Advance(1, q.Smooth(q.generation))];
  }
}
