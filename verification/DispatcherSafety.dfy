/** What holds in every reachable state of the dispatcher, and over its whole runs. */
module DispatcherSafety {
  import opened DispatcherProtocol

  // ---------- Counting ----------

  ghost function Having<P>(m: map<nat, P>, w: P -> bool): set<nat> {
    set id | id in m && w(m[id])
  }

  /** The entry still owes a decrement of `inflight_`. */
  predicate OwesDecrement(pc: EntryPc) {
    !pc.Retained? && !pc.Finished? && !pc.Swept? && !pc.NoEntry?
  }

  predicate OwesIncrement(pc: CallerPc) {
    pc.Pushed?
  }

  /** The entry is in neither `total_dispatched` nor `total_errors`. */
  predicate Unbooked(pc: EntryPc) {
    !pc.Faulted? && !pc.Told? && !pc.Retained? && !pc.JsCounted? && !pc.JsErased? && !pc.Finished?
  }

  /** `inflight_`, exactly: one per entry that owes a decrement, less the increments still
      to come, less one for each pending entry that a cancel pass has dealt with. */
  ghost predicate InflightIs(s: State) {
    s.inflight == |Having(s.entry, OwesDecrement)| - |Having(s.caller, OwesIncrement)| - |s.swept|
  }

  /** Accepted requests are booked once or not yet. */
  ghost predicate Conserved(s: State) {
    |s.entry| == s.forgotten + s.dispatched + s.errors + |Having(s.entry, Unbooked)|
  }

  ghost predicate AllLocal(s: State) {
    forall id: nat :: LocalAt(s, id)
  }

  ghost predicate Inv(s: State) {
    AllLocal(s) && InflightIs(s) && Conserved(s)
  }

  lemma HavingMoved<P>(m: map<nat, P>, id: nat, pc: P, w: P -> bool)
    ensures |Having(m[id := pc], w)|
         == |Having(m, w)| - (if id in m && w(m[id]) then 1 else 0) + (if w(pc) then 1 else 0)
  {
    var rest := Having(m, w) - {id};
    assert Having(m[id := pc], w) == if w(pc) then rest + {id} else rest;
    assert id in m && w(m[id]) ==> Having(m, w) == rest + {id};
    assert !(id in m && w(m[id])) ==> Having(m, w) == rest;
  }

  // ---------- What one change leaves alone ----------

  lemma MarkFrame(s: State, id: nat, who: Sender, i: nat)
    requires i != id
    ensures CellOf(TryMark(s, id, who), i) == CellOf(s, i) && (Proper(s, i) ==> Proper(TryMark(s, id, who), i))
  {
  }

  lemma ErrorFrame(s: State, id: nat, who: Sender, i: nat)
    requires i != id
    ensures CellOf(RunErrorCallback(s, id, who), i) == CellOf(s, i)
    ensures Proper(s, i) ==> Proper(RunErrorCallback(s, id, who), i)
  {
    var t := s.(errorRuns := s.errorRuns + multiset{id});
    assert CellOf(t, i) == CellOf(s, i);
    MarkFrame(t, id, who, i);
  }

  lemma MoveFrame(s: State, id: nat, pc: EntryPc, i: nat)
    requires i != id
    ensures CellOf(MoveEntry(s, id, pc), i) == CellOf(s, i) && (Proper(s, i) ==> Proper(MoveEntry(s, id, pc), i))
  {
  }

  lemma CallerFrame(s: State, id: nat, pc: CallerPc, i: nat)
    requires i != id
    ensures CellOf(MoveCaller(s, id, pc), i) == CellOf(s, i) && (Proper(s, i) ==> Proper(MoveCaller(s, id, pc), i))
  {
  }

  // ---------- Each action keeps it ----------

  lemma AdmitKeepsShape(s: State, d: DispatchStep, id: nat)
    requires LocalAt(s, id) && CanDispatch(s, d, id)
    requires d.Push? || d.CountIn? || d.Deny? || d.EraseRefused?
    ensures var t := Dispatched(s, d, id); Proper(t, id) && Shape(CellOf(t, id)) && Holder(CellOf(t, id), t.phase)
  {
    hide Handled, PendingKey, SweptOnce;
  }

  lemma AnnounceKeepsShape(s: State, d: DispatchStep, id: nat)
    requires LocalAt(s, id) && CanDispatch(s, d, id)
    requires !(d.Push? || d.CountIn? || d.Deny? || d.EraseRefused?)
    ensures var t := Dispatched(s, d, id); Proper(t, id) && Shape(CellOf(t, id)) && Holder(CellOf(t, id), t.phase)
  {
    hide Handled, PendingKey, SweptOnce;
  }

  lemma DispatchKeepsShape(s: State, d: DispatchStep, id: nat)
    requires LocalAt(s, id) && CanDispatch(s, d, id)
    ensures var t := Dispatched(s, d, id); Proper(t, id) && Shape(CellOf(t, id)) && Holder(CellOf(t, id), t.phase)
  {
    hide Dispatched, CanDispatch, LocalAt, Shape, Holder, Proper;
    if d.Push? || d.CountIn? || d.Deny? || d.EraseRefused? {
      AdmitKeepsShape(s, d, id);
    } else {
      AnnounceKeepsShape(s, d, id);
    }
  }

  lemma AdmitKeepsPendingKey(s: State, d: DispatchStep, id: nat)
    requires LocalAt(s, id) && CanDispatch(s, d, id)
    requires d.Push? || d.CountIn? || d.Deny? || d.EraseRefused?
    ensures var t := Dispatched(s, d, id); PendingKey(CellOf(t, id), t.phase, t.cleared)
  {
    hide Handled, Holder, SweptOnce;
  }

  lemma AnnounceKeepsPendingKey(s: State, d: DispatchStep, id: nat)
    requires LocalAt(s, id) && CanDispatch(s, d, id)
    requires !(d.Push? || d.CountIn? || d.Deny? || d.EraseRefused?)
    ensures var t := Dispatched(s, d, id); PendingKey(CellOf(t, id), t.phase, t.cleared)
  {
    hide Handled, Holder, SweptOnce;
  }

  lemma DispatchKeepsPendingKey(s: State, d: DispatchStep, id: nat)
    requires LocalAt(s, id) && CanDispatch(s, d, id)
    ensures var t := Dispatched(s, d, id); PendingKey(CellOf(t, id), t.phase, t.cleared)
  {
    hide Dispatched, CanDispatch, LocalAt, PendingKey;
    if d.Push? || d.CountIn? || d.Deny? || d.EraseRefused? {
      AdmitKeepsPendingKey(s, d, id);
    } else {
      AnnounceKeepsPendingKey(s, d, id);
    }
  }

  lemma DispatchKeepsSweptOnce(s: State, d: DispatchStep, id: nat)
    requires LocalAt(s, id) && CanDispatch(s, d, id)
    ensures var t := Dispatched(s, d, id); SweptOnce(CellOf(t, id), t.phase)
  {
    hide Handled, Holder;
  }

  /** A caller moves on, and perhaps pushes; nothing has been done about the request. */
  predicate OnlyMoved(c: Cell, e: Cell) {
    && (e.entry == c.entry || (c.entry.NoEntry? && e.entry.Queued?))
    && !c.caller.Rejected? && !e.caller.Rejected?
    && e == c.(known := e.known, caller := e.caller, entry := e.entry, queued := e.queued, pending := e.pending)
  }

  lemma OnlyMovedKeepsHandled(c: Cell, e: Cell)
    requires OnlyMoved(c, e) && Handled(c)
    ensures Handled(e)
  {
  }

  /** Only a denial touches what has been done about a request. */
  lemma DispatchHandlesNothing(s: State, d: DispatchStep, id: nat)
    requires CanDispatch(s, d, id) && !d.Deny? && Shape(CellOf(s, id))
    ensures CellOf(Dispatched(s, d, id), id) == CellOf(s, id) || OnlyMoved(CellOf(s, id), CellOf(Dispatched(s, d, id), id))
  {
  }

  lemma DenyKeepsHandled(s: State, id: nat)
    requires LocalAt(s, id) && CanDispatch(s, Deny, id)
    ensures Handled(CellOf(Dispatched(s, Deny, id), id))
  {
    hide PendingKey, Holder, SweptOnce;
  }

  lemma DispatchElseKeepsHandled(s: State, d: DispatchStep, id: nat)
    requires LocalAt(s, id) && CanDispatch(s, d, id) && !d.Deny?
    ensures Handled(CellOf(Dispatched(s, d, id), id))
  {
    LocalHasShape(s, id);
    hide LocalAt, Dispatched, Shape, CanDispatch, CellOf, Handled, OnlyMoved;
    DispatchHandlesNothing(s, d, id);
    if CellOf(Dispatched(s, d, id), id) != CellOf(s, id) {
      OnlyMovedKeepsHandled(CellOf(s, id), CellOf(Dispatched(s, d, id), id));
    }
  }

  lemma LocalHasShape(s: State, id: nat)
    requires LocalAt(s, id)
    ensures Shape(CellOf(s, id)) && Handled(CellOf(s, id))
  {
  }

  lemma DispatchKeepsHandled(s: State, d: DispatchStep, id: nat)
    requires LocalAt(s, id) && CanDispatch(s, d, id)
    ensures Handled(CellOf(Dispatched(s, d, id), id))
  {
    hide Dispatched, CanDispatch, LocalAt, Handled;
    if d.Deny? {
      DenyKeepsHandled(s, id);
    } else {
      DispatchElseKeepsHandled(s, d, id);
    }
  }

  lemma DenyFrame(s: State, id: nat, i: nat)
    requires CanDispatch(s, Deny, id) && i != id
    ensures CellOf(Dispatched(s, Deny, id), i) == CellOf(s, i) && (Proper(s, i) ==> Proper(Dispatched(s, Deny, id), i))
  {
    hide CellOf, Proper, MoveCaller, TryMark;
    CallerFrame(s, id, Rejected, i);
    MarkFrame(MoveCaller(s, id, Rejected), id, ByCaller, i);
  }

  lemma DispatchElseFrame(s: State, d: DispatchStep, id: nat, i: nat)
    requires CanDispatch(s, d, id) && i != id && !d.Deny?
    ensures CellOf(Dispatched(s, d, id), i) == CellOf(s, i) && (Proper(s, i) ==> Proper(Dispatched(s, d, id), i))
  {
  }

  lemma DispatchFrame(s: State, d: DispatchStep, id: nat, i: nat)
    requires CanDispatch(s, d, id) && i != id
    ensures CellOf(Dispatched(s, d, id), i) == CellOf(s, i) && (Proper(s, i) ==> Proper(Dispatched(s, d, id), i))
  {
    hide Dispatched, CanDispatch, CellOf, Proper;
    if d.Deny? {
      DenyFrame(s, id, i);
    } else {
      DispatchElseFrame(s, d, id, i);
    }
  }

  lemma DispatchKeeps(s: State, d: DispatchStep, id: nat, i: nat)
    requires LocalAt(s, i) && CanDispatch(s, d, id)
    ensures LocalAt(Dispatched(s, d, id), i)
  {
    if i == id {
      DispatchKeepsShape(s, d, id);
      DispatchKeepsPendingKey(s, d, id);
      DispatchKeepsSweptOnce(s, d, id);
      DispatchKeepsHandled(s, d, id);
    } else {
      DispatchFrame(s, d, id, i);
    }
  }

  lemma TakeKeepsPlace(s: State, w: WorkStep, id: nat)
    requires LocalAt(s, id) && CanWork(s, w, id)
    requires w.Pop? || w.Post?
    ensures Proper(Worked(s, w, id), id) && Placed(CellOf(Worked(s, w, id), id), Worked(s, w, id).phase, Worked(s, w, id).cleared)
  {
    hide CallbackCount, OneReplyPerFlag, Answered, SenderStands;
  }

  lemma FailKeepsPlace(s: State, w: WorkStep, id: nat)
    requires LocalAt(s, id) && CanWork(s, w, id)
    requires !(w.Pop? || w.Post?)
    ensures Proper(Worked(s, w, id), id) && Placed(CellOf(Worked(s, w, id), id), Worked(s, w, id).phase, Worked(s, w, id).cleared)
  {
    hide CallbackCount, OneReplyPerFlag, Answered, SenderStands;
  }

  lemma WorkKeepsPlace(s: State, w: WorkStep, id: nat)
    requires LocalAt(s, id) && CanWork(s, w, id)
    ensures Proper(Worked(s, w, id), id) && Placed(CellOf(Worked(s, w, id), id), Worked(s, w, id).phase, Worked(s, w, id).cleared)
  {
    hide Worked, CanWork, LocalAt, Placed, Proper;
    if w.Pop? || w.Post? {
      TakeKeepsPlace(s, w, id);
    } else {
      FailKeepsPlace(s, w, id);
    }
  }

  lemma TellKeepsHandled(s: State, w: WorkStep, id: nat)
    requires LocalAt(s, id) && CanWork(s, w, id)
    requires w.Tell?
    ensures Handled(CellOf(Worked(s, w, id), id))
  {
  }

  lemma WorkElseKeepsHandled(s: State, w: WorkStep, id: nat)
    requires LocalAt(s, id) && CanWork(s, w, id)
    requires !w.Tell?
    ensures Handled(CellOf(Worked(s, w, id), id))
  {
  }

  lemma WorkKeepsHandled(s: State, w: WorkStep, id: nat)
    requires LocalAt(s, id) && CanWork(s, w, id)
    ensures Handled(CellOf(Worked(s, w, id), id))
  {
    hide Worked, CanWork, LocalAt, Handled;
    if w.Tell? {
      TellKeepsHandled(s, w, id);
    } else {
      WorkElseKeepsHandled(s, w, id);
    }
  }

  lemma TellFrame(s: State, id: nat, i: nat)
    requires CanWork(s, Tell, id) && i != id
    ensures CellOf(Worked(s, Tell, id), i) == CellOf(s, i) && (Proper(s, i) ==> Proper(Worked(s, Tell, id), i))
  {
    hide CellOf, Proper, MoveEntry, RunErrorCallback;
    MoveFrame(s, id, Told, i);
    ErrorFrame(MoveEntry(s, id, Told), id, ByWorker, i);
  }

  lemma PopFrame(s: State, id: nat, i: nat)
    requires CanWork(s, Pop, id) && i != id
    ensures CellOf(Worked(s, Pop, id), i) == CellOf(s, i) && (Proper(s, i) ==> Proper(Worked(s, Pop, id), i))
  {
  }

  lemma WorkElseFrame(s: State, w: WorkStep, id: nat, i: nat)
    requires CanWork(s, w, id) && i != id
    requires !(w.Tell? || w.Pop?)
    ensures CellOf(Worked(s, w, id), i) == CellOf(s, i) && (Proper(s, i) ==> Proper(Worked(s, w, id), i))
  {
  }

  lemma WorkFrame(s: State, w: WorkStep, id: nat, i: nat)
    requires CanWork(s, w, id) && i != id
    ensures CellOf(Worked(s, w, id), i) == CellOf(s, i) && (Proper(s, i) ==> Proper(Worked(s, w, id), i))
  {
    hide Worked, CanWork, CellOf, Proper;
    match w
    case Tell => TellFrame(s, id, i);
    case Pop => PopFrame(s, id, i);
    case _ => WorkElseFrame(s, w, id, i);
  }

  lemma WorkKeeps(s: State, w: WorkStep, id: nat, i: nat)
    requires LocalAt(s, i) && CanWork(s, w, id)
    ensures LocalAt(Worked(s, w, id), i)
  {
    if i == id {
      WorkKeepsPlace(s, w, id);
      WorkKeepsHandled(s, w, id);
    } else {
      WorkFrame(s, w, id, i);
    }
  }

  lemma JsEndKeepsPlace(s: State, j: JsStep, id: nat)
    requires LocalAt(s, id) && CanRunJs(s, j, id)
    requires j.Count? || j.Erase? || j.Done?
    ensures Proper(JsRan(s, j, id), id) && Placed(CellOf(JsRan(s, j, id), id), JsRan(s, j, id).phase, JsRan(s, j, id).cleared)
  {
    hide CallbackCount, OneReplyPerFlag, Answered, SenderStands;
  }

  lemma JsCallKeepsPlace(s: State, j: JsStep, id: nat)
    requires LocalAt(s, id) && CanRunJs(s, j, id)
    requires j.Start? || j.Return?
    ensures Proper(JsRan(s, j, id), id) && Placed(CellOf(JsRan(s, j, id), id), JsRan(s, j, id).phase, JsRan(s, j, id).cleared)
  {
    hide CallbackCount, OneReplyPerFlag, Answered, SenderStands;
  }

  lemma JsThrowKeepsPlace(s: State, j: JsStep, id: nat)
    requires LocalAt(s, id) && CanRunJs(s, j, id)
    requires j.Throw? || j.Catch?
    ensures Proper(JsRan(s, j, id), id) && Placed(CellOf(JsRan(s, j, id), id), JsRan(s, j, id).phase, JsRan(s, j, id).cleared)
  {
    hide CallbackCount, OneReplyPerFlag, Answered, SenderStands;
  }

  lemma JsRunKeepsPlace(s: State, j: JsStep, id: nat)
    requires LocalAt(s, id) && CanRunJs(s, j, id)
    requires !(j.Count? || j.Erase? || j.Done?)
    ensures Proper(JsRan(s, j, id), id) && Placed(CellOf(JsRan(s, j, id), id), JsRan(s, j, id).phase, JsRan(s, j, id).cleared)
  {
    hide JsRan, CanRunJs, LocalAt, Placed, Proper;
    if j.Start? || j.Return? {
      JsCallKeepsPlace(s, j, id);
    } else {
      JsThrowKeepsPlace(s, j, id);
    }
  }

  lemma JsKeepsPlace(s: State, j: JsStep, id: nat)
    requires LocalAt(s, id) && CanRunJs(s, j, id)
    ensures Proper(JsRan(s, j, id), id) && Placed(CellOf(JsRan(s, j, id), id), JsRan(s, j, id).phase, JsRan(s, j, id).cleared)
  {
    hide JsRan, CanRunJs, LocalAt, Placed, Proper;
    if j.Count? || j.Erase? || j.Done? {
      JsEndKeepsPlace(s, j, id);
    } else {
      JsRunKeepsPlace(s, j, id);
    }
  }

  lemma CatchKeepsHandled(s: State, id: nat)
    requires LocalAt(s, id) && CanRunJs(s, Catch, id)
    ensures Handled(CellOf(JsRan(s, Catch, id), id))
  {
    hide PendingKey, Holder;
  }

  lemma JsStartKeepsHandled(s: State, j: JsStep, id: nat)
    requires LocalAt(s, id) && CanRunJs(s, j, id)
    requires j.Throw? || j.Start?
    ensures Handled(CellOf(JsRan(s, j, id), id))
  {
    hide PendingKey, Holder;
  }

  lemma JsEndKeepsHandled(s: State, j: JsStep, id: nat)
    requires LocalAt(s, id) && CanRunJs(s, j, id)
    requires !(j.Catch? || j.Throw? || j.Start?)
    ensures Handled(CellOf(JsRan(s, j, id), id))
  {
    hide PendingKey, Holder;
  }

  lemma JsKeepsHandled(s: State, j: JsStep, id: nat)
    requires LocalAt(s, id) && CanRunJs(s, j, id)
    ensures Handled(CellOf(JsRan(s, j, id), id))
  {
    hide JsRan, CanRunJs, LocalAt, Handled;
    if j.Catch? {
      CatchKeepsHandled(s, id);
    } else if j.Throw? || j.Start? {
      JsStartKeepsHandled(s, j, id);
    } else {
      JsEndKeepsHandled(s, j, id);
    }
  }

  lemma CatchFrame(s: State, id: nat, i: nat)
    requires CanRunJs(s, Catch, id) && i != id
    ensures CellOf(JsRan(s, Catch, id), i) == CellOf(s, i) && (Proper(s, i) ==> Proper(JsRan(s, Catch, id), i))
  {
    hide CellOf, Proper, MoveEntry, RunErrorCallback;
    MoveFrame(s, id, JsReturned(false), i);
    ErrorFrame(MoveEntry(s, id, JsReturned(false)), id, ByJs, i);
  }

  lemma JsElseFrame(s: State, j: JsStep, id: nat, i: nat)
    requires CanRunJs(s, j, id) && i != id && !j.Catch?
    ensures CellOf(JsRan(s, j, id), i) == CellOf(s, i) && (Proper(s, i) ==> Proper(JsRan(s, j, id), i))
  {
  }

  lemma JsFrame(s: State, j: JsStep, id: nat, i: nat)
    requires CanRunJs(s, j, id) && i != id
    ensures CellOf(JsRan(s, j, id), i) == CellOf(s, i) && (Proper(s, i) ==> Proper(JsRan(s, j, id), i))
  {
    hide JsRan, CanRunJs, CellOf, Proper;
    if j.Catch? {
      CatchFrame(s, id, i);
    } else {
      JsElseFrame(s, j, id, i);
    }
  }

  lemma JsKeeps(s: State, j: JsStep, id: nat, i: nat)
    requires LocalAt(s, i) && CanRunJs(s, j, id)
    ensures LocalAt(JsRan(s, j, id), i)
  {
    if i == id {
      JsKeepsPlace(s, j, id);
      JsKeepsHandled(s, j, id);
    } else {
      JsFrame(s, j, id, i);
    }
  }

  lemma ReplyKeepsPlace(s: State, r: ReplyStep, id: nat)
    requires LocalAt(s, id) && CanReply(s, r, id)
    ensures Proper(Replied(s, r, id), id) && Placed(CellOf(Replied(s, r, id), id), Replied(s, r, id).phase, Replied(s, r, id).cleared)
  {
  }

  lemma ReplyKeepsHandled(s: State, r: ReplyStep, id: nat)
    requires LocalAt(s, id) && CanReply(s, r, id)
    ensures Handled(CellOf(Replied(s, r, id), id))
  {
  }

  lemma ReplyFrame(s: State, r: ReplyStep, id: nat, i: nat)
    requires CanReply(s, r, id) && i != id
    ensures CellOf(Replied(s, r, id), i) == CellOf(s, i) && (Proper(s, i) ==> Proper(Replied(s, r, id), i))
  {
  }

  lemma ReplyKeeps(s: State, r: ReplyStep, id: nat, i: nat)
    requires LocalAt(s, i) && CanReply(s, r, id)
    ensures LocalAt(Replied(s, r, id), i)
  {
    if i == id {
      ReplyKeepsPlace(s, r, id);
      ReplyKeepsHandled(s, r, id);
    } else {
      ReplyFrame(s, r, id, i);
    }
  }

  lemma SweepKeepsPlace(s: State, c: CancelStep, id: nat)
    requires LocalAt(s, id) && CanCancel(s, c, id)
    requires c.SweepTell? || c.SweepDone?
    ensures Proper(Cancelled(s, c, id), id) && Placed(CellOf(Cancelled(s, c, id), id), Cancelled(s, c, id).phase, Cancelled(s, c, id).cleared)
  {
    hide CallbackCount, OneReplyPerFlag, Answered, SenderStands;
  }

  lemma QueueCancelKeepsPlace(s: State, c: CancelStep, id: nat)
    requires LocalAt(s, id) && CanCancel(s, c, id)
    requires !(c.SweepTell? || c.SweepDone?)
    ensures Proper(Cancelled(s, c, id), id) && Placed(CellOf(Cancelled(s, c, id), id), Cancelled(s, c, id).phase, Cancelled(s, c, id).cleared)
  {
    hide CallbackCount, OneReplyPerFlag, Answered, SenderStands;
  }

  lemma CancelKeepsPlace(s: State, c: CancelStep, id: nat)
    requires LocalAt(s, id) && CanCancel(s, c, id)
    ensures Proper(Cancelled(s, c, id), id) && Placed(CellOf(Cancelled(s, c, id), id), Cancelled(s, c, id).phase, Cancelled(s, c, id).cleared)
  {
    hide Cancelled, CanCancel, LocalAt, Placed, Proper;
    if c.SweepTell? || c.SweepDone? {
      SweepKeepsPlace(s, c, id);
    } else {
      QueueCancelKeepsPlace(s, c, id);
    }
  }

  lemma SweepKeepsHandled(s: State, c: CancelStep, id: nat)
    requires LocalAt(s, id) && CanCancel(s, c, id)
    requires c.SweepTell? || c.SweepDone?
    ensures Handled(CellOf(Cancelled(s, c, id), id))
  {
    hide Holder;
  }

  lemma CancelTellKeepsHandled(s: State, id: nat)
    requires LocalAt(s, id) && CanCancel(s, CancelTell, id)
    ensures Handled(CellOf(Cancelled(s, CancelTell, id), id))
  {
    hide PendingKey, Holder;
  }

  lemma CancelElseKeepsHandled(s: State, c: CancelStep, id: nat)
    requires LocalAt(s, id) && CanCancel(s, c, id)
    requires c.CancelPop? || c.CancelDone?
    ensures Handled(CellOf(Cancelled(s, c, id), id))
  {
    hide PendingKey, Holder;
  }

  lemma CancelKeepsHandled(s: State, c: CancelStep, id: nat)
    requires LocalAt(s, id) && CanCancel(s, c, id)
    ensures Handled(CellOf(Cancelled(s, c, id), id))
  {
    hide Cancelled, CanCancel, LocalAt, Handled;
    if c.SweepTell? || c.SweepDone? {
      SweepKeepsHandled(s, c, id);
    } else if c.CancelTell? {
      CancelTellKeepsHandled(s, id);
    } else {
      CancelElseKeepsHandled(s, c, id);
    }
  }

  lemma SweepTellFrame(s: State, id: nat, i: nat)
    requires CanCancel(s, SweepTell, id) && i != id
    ensures CellOf(Cancelled(s, SweepTell, id), i) == CellOf(s, i)
    ensures Proper(s, i) ==> Proper(Cancelled(s, SweepTell, id), i)
  {
    var t := s.(phase := CancelPending(s.phase.todo - {id}, s.phase.told + {id}));
    assert CellOf(t, i) == CellOf(s, i) && (Proper(s, i) ==> Proper(t, i));
    hide CellOf, Proper, RunErrorCallback;
    ErrorFrame(t, id, ByShutdown, i);
  }

  lemma CancelTellFrame(s: State, id: nat, i: nat)
    requires CanCancel(s, CancelTell, id) && i != id
    ensures CellOf(Cancelled(s, CancelTell, id), i) == CellOf(s, i)
    ensures Proper(s, i) ==> Proper(Cancelled(s, CancelTell, id), i)
  {
    hide CellOf, Proper, MoveEntry, RunErrorCallback;
    MoveFrame(s, id, SweepTold, i);
    ErrorFrame(MoveEntry(s, id, SweepTold), id, ByShutdown, i);
  }

  lemma CancelElseFrame(s: State, c: CancelStep, id: nat, i: nat)
    requires CanCancel(s, c, id) && i != id
    requires c.CancelPop? || c.CancelDone? || c.SweepDone?
    ensures CellOf(Cancelled(s, c, id), i) == CellOf(s, i) && (Proper(s, i) ==> Proper(Cancelled(s, c, id), i))
  {
  }

  lemma CancelFrame(s: State, c: CancelStep, id: nat, i: nat)
    requires CanCancel(s, c, id) && i != id
    ensures CellOf(Cancelled(s, c, id), i) == CellOf(s, i) && (Proper(s, i) ==> Proper(Cancelled(s, c, id), i))
  {
    hide Cancelled, CanCancel, CellOf, Proper;
    match c
    case SweepTell => SweepTellFrame(s, id, i);
    case CancelTell => CancelTellFrame(s, id, i);
    case _ => CancelElseFrame(s, c, id, i);
  }

  lemma CancelKeeps(s: State, c: CancelStep, id: nat, i: nat)
    requires LocalAt(s, i) && CanCancel(s, c, id)
    ensures LocalAt(Cancelled(s, c, id), i)
  {
    if i == id {
      CancelKeepsPlace(s, c, id);
      CancelKeepsHandled(s, c, id);
    } else {
      CancelFrame(s, c, id, i);
    }
  }

  lemma PassKeeps(s: State, d: ShutdownStep, id: nat)
    requires LocalAt(s, id) && CanShutDown(s, d)
    requires d.EndQueuePass? || d.EndPendingPass?
    ensures LocalAt(ShutDown(s, d), id)
  {
  }

  lemma ClearKeeps(s: State, d: ShutdownStep, id: nat)
    requires LocalAt(s, id) && CanShutDown(s, d)
    requires d.ClearQueue? || d.ClearPending?
    ensures LocalAt(ShutDown(s, d), id)
  {
  }

  lemma StageKeeps(s: State, d: ShutdownStep, id: nat)
    requires LocalAt(s, id) && CanShutDown(s, d)
    requires d.Begin? || d.Join? || d.BeginCancel? || d.EndWait?
    ensures LocalAt(ShutDown(s, d), id)
  {
    assert CellOf(ShutDown(s, d), id) == CellOf(s, id);
  }

  lemma ShutdownKeeps(s: State, d: ShutdownStep, id: nat)
    requires LocalAt(s, id) && CanShutDown(s, d)
    ensures LocalAt(ShutDown(s, d), id)
  {
    hide ShutDown, CanShutDown, LocalAt;
    if d.EndQueuePass? || d.EndPendingPass? {
      PassKeeps(s, d, id);
    } else if d.ClearQueue? || d.ClearPending? {
      ClearKeeps(s, d, id);
    } else {
      StageKeeps(s, d, id);
    }
  }

  lemma ConfigFrame(s: State, c: ConfigStep, i: nat)
    ensures CellOf(Configured(s, c), i) == CellOf(s, i)
  {
    assert c.SetMaxQueueSize? || c.ResetStats?;
  }

  lemma ConfigKeeps(s: State, c: ConfigStep, i: nat)
    requires LocalAt(s, i)
    ensures LocalAt(Configured(s, c), i)
  {
    ConfigFrame(s, c, i);
    hide CellOf;
  }

  lemma StepKeepsLocal(s: State, a: Action, i: nat)
    requires LocalAt(s, i) && Enabled(s, a)
    ensures LocalAt(Next(s, a), i)
  {
    hide Dispatched, Worked, JsRan, Replied, Cancelled, ShutDown, Configured, LocalAt;
    hide CanDispatch, CanWork, CanRunJs, CanReply, CanCancel, CanShutDown;
    match a
    case Dispatching(d, id) => DispatchKeeps(s, d, id, i);
    case Working(w, id) => WorkKeeps(s, w, id, i);
    case InJs(j, id) => JsKeeps(s, j, id, i);
    case Replying(r, id) => ReplyKeeps(s, r, id, i);
    case Cancelling(c, id) => CancelKeeps(s, c, id, i);
    case ShuttingDown(d) => ShutdownKeeps(s, d, i);
    case Configuring(c) => ConfigKeeps(s, c, i);
  }

  lemma DispatchCounts(s: State, d: DispatchStep, id: nat)
    requires LocalAt(s, id) && CanDispatch(s, d, id) && InflightIs(s) && Conserved(s)
    ensures InflightIs(Dispatched(s, d, id)) && Conserved(Dispatched(s, d, id))
  {
    hide Having, Handled, PendingKey, Holder, SweptOnce;
    var t := Dispatched(s, d, id);
    assert Shape(CellOf(s, id));
    if t.caller != s.caller {
      HavingMoved(s.caller, id, t.caller[id], OwesIncrement);
    }
    if d.Push? {
      HavingMoved(s.entry, id, Queued, OwesDecrement);
      HavingMoved(s.entry, id, Queued, Unbooked);
    }
  }

  /** One entry moves: what that means for the two counts over the entries. */
  lemma EntryMoves(s: State, id: nat, pc: EntryPc)
    requires id in s.entry
    ensures var t := MoveEntry(s, id, pc);
            && |Having(t.entry, OwesDecrement)| - |Having(s.entry, OwesDecrement)|
            == (if OwesDecrement(pc) then 1 else 0) - (if OwesDecrement(s.entry[id]) then 1 else 0)
            && |Having(t.entry, Unbooked)| - |Having(s.entry, Unbooked)|
            == (if Unbooked(pc) then 1 else 0) - (if Unbooked(s.entry[id]) then 1 else 0)
            && |t.entry| == |s.entry|
  {
    HavingMoved(s.entry, id, pc, OwesDecrement);
    HavingMoved(s.entry, id, pc, Unbooked);
    assert MoveEntry(s, id, pc).entry.Keys == s.entry.Keys;
  }

  lemma WorkCounts(s: State, w: WorkStep, id: nat)
    requires LocalAt(s, id) && CanWork(s, w, id) && InflightIs(s) && Conserved(s)
    ensures InflightIs(Worked(s, w, id)) && Conserved(Worked(s, w, id))
  {
    hide Having, Handled, PendingKey, Holder, SweptOnce;
    assert Shape(CellOf(s, id));
    EntryMoves(s, id, Worked(s, w, id).entry[id]);
  }

  /** What an error callback has to do with the counts: nothing. */
  lemma ErrorEffect(s: State, id: nat, who: Sender)
    ensures var t := RunErrorCallback(s, id, who);
            && t.caller == s.caller && t.entry == s.entry && t.swept == s.swept && t.inflight == s.inflight
            && t.forgotten == s.forgotten && t.errors == s.errors && t.dispatched == s.dispatched
  {
  }

  /** What an action of the JavaScript thread has to do with them. */
  ghost predicate JsCounting(s: State, t: State, id: nat)
    requires id in s.entry && id in t.entry
  {
    var pc := t.entry[id];
    && t.caller == s.caller && t.swept == s.swept && t.entry == MoveEntry(s, id, pc).entry
    && t.inflight - s.inflight == (if OwesDecrement(pc) then 1 else 0) - (if OwesDecrement(s.entry[id]) then 1 else 0)
    && t.forgotten == s.forgotten && t.errors == s.errors
    && t.dispatched - s.dispatched == (if Unbooked(s.entry[id]) then 1 else 0) - (if Unbooked(pc) then 1 else 0)
  }

  lemma CatchEffect(s: State, id: nat)
    requires CanRunJs(s, Catch, id)
    ensures id in JsRan(s, Catch, id).entry && JsCounting(s, JsRan(s, Catch, id), id)
  {
    hide RunErrorCallback;
    ErrorEffect(MoveEntry(s, id, JsReturned(false)), id, ByJs);
  }

  lemma JsElseEffect(s: State, j: JsStep, id: nat)
    requires CanRunJs(s, j, id) && !j.Catch?
    ensures id in JsRan(s, j, id).entry && JsCounting(s, JsRan(s, j, id), id)
  {
  }

  lemma JsCounts(s: State, j: JsStep, id: nat)
    requires CanRunJs(s, j, id) && InflightIs(s) && Conserved(s)
    ensures InflightIs(JsRan(s, j, id)) && Conserved(JsRan(s, j, id))
  {
    assert id in s.entry;
    hide Having, JsRan, CanRunJs, OwesDecrement, Unbooked;
    if j.Catch? {
      CatchEffect(s, id);
    } else {
      JsElseEffect(s, j, id);
    }
    EntryMoves(s, id, JsRan(s, j, id).entry[id]);
  }

  lemma SweepCounts(s: State, c: CancelStep, id: nat)
    requires LocalAt(s, id) && CanCancel(s, c, id) && InflightIs(s) && Conserved(s)
    requires c.SweepTell? || c.SweepDone?
    ensures InflightIs(Cancelled(s, c, id)) && Conserved(Cancelled(s, c, id))
  {
    hide Having, Handled, PendingKey, Holder;
    assert Shape(CellOf(s, id)) && SweptOnce(CellOf(s, id), s.phase);
    if id in s.entry {
      EntryMoves(s, id, Cancelled(s, c, id).entry[id]);
    }
  }

  lemma QueueCancelCounts(s: State, c: CancelStep, id: nat)
    requires LocalAt(s, id) && CanCancel(s, c, id) && InflightIs(s) && Conserved(s)
    requires !(c.SweepTell? || c.SweepDone?)
    ensures InflightIs(Cancelled(s, c, id)) && Conserved(Cancelled(s, c, id))
  {
    hide Having, Handled, PendingKey, Holder;
    assert Shape(CellOf(s, id)) && SweptOnce(CellOf(s, id), s.phase);
    if id in s.entry {
      EntryMoves(s, id, Cancelled(s, c, id).entry[id]);
    }
  }

  lemma CancelCounts(s: State, c: CancelStep, id: nat)
    requires LocalAt(s, id) && CanCancel(s, c, id) && InflightIs(s) && Conserved(s)
    ensures InflightIs(Cancelled(s, c, id)) && Conserved(Cancelled(s, c, id))
  {
    hide Cancelled, CanCancel, LocalAt, InflightIs, Conserved;
    if c.SweepTell? || c.SweepDone? {
      SweepCounts(s, c, id);
    } else {
      QueueCancelCounts(s, c, id);
    }
  }

  lemma ReplyCounts(s: State, r: ReplyStep, id: nat)
    requires CanReply(s, r, id) && InflightIs(s) && Conserved(s)
    ensures InflightIs(Replied(s, r, id)) && Conserved(Replied(s, r, id))
  {
    hide Having;
  }

  lemma ConfigCounts(s: State, c: ConfigStep)
    requires InflightIs(s) && Conserved(s)
    ensures InflightIs(Configured(s, c)) && Conserved(Configured(s, c))
  {
    hide Having;
  }

  lemma ShutdownCounts(s: State, d: ShutdownStep)
    requires CanShutDown(s, d) && InflightIs(s) && Conserved(s)
    ensures InflightIs(ShutDown(s, d)) && Conserved(ShutDown(s, d))
  {
    var e := WithoutQueued(s.entry);
    assert Having(e, OwesDecrement) == Having(s.entry, OwesDecrement);
    assert Having(e, Unbooked) == Having(s.entry, Unbooked);
    assert e.Keys == s.entry.Keys;
  }

  /** Every action of every thread keeps the invariant. */
  lemma StepKeepsInv(s: State, a: Action)
    requires Inv(s) && Enabled(s, a)
    ensures Inv(Next(s, a))
  {
    forall i: nat
      ensures LocalAt(Next(s, a), i)
    {
      StepKeepsLocal(s, a, i);
    }
    CountsKept(s, a);
  }

  lemma CountsKept(s: State, a: Action)
    requires Inv(s) && Enabled(s, a)
    ensures InflightIs(Next(s, a)) && Conserved(Next(s, a))
  {
    hide Dispatched, Worked, JsRan, Replied, Cancelled, ShutDown, Configured, LocalAt, InflightIs, Conserved;
    match a
    case Dispatching(d, id) => DispatchCounts(s, d, id);
    case Working(w, id) => WorkCounts(s, w, id);
    case InJs(j, id) => JsCounts(s, j, id);
    case Replying(r, id) => ReplyCounts(s, r, id);
    case Cancelling(c, id) => CancelCounts(s, c, id);
    case ShuttingDown(d) => ShutdownCounts(s, d);
    case Configuring(c) => ConfigCounts(s, c);
  }

  lemma InitHolds(maxQueue: nat)
    ensures Inv(Init(maxQueue))
  {
    var s := Init(maxQueue);
    assert Having(s.entry, OwesDecrement) == {} && Having(s.entry, Unbooked) == {};
    assert Having(s.caller, OwesIncrement) == {};
  }

  /** The invariant holds after every run, whatever the interleaving. */
  lemma {:induction false} RunKeepsInv(s: State, run: seq<Action>)
    requires Inv(s) && Runs(s, run)
    ensures Inv(After(s, run))
    decreases |run|
  {
    if run != [] {
      StepKeepsInv(s, run[0]);
      RunKeepsInv(Next(s, run[0]), run[1..]);
    }
  }

  lemma {:induction false} OneMoreStep(s: State, run: seq<Action>, a: Action)
    requires Runs(s, run) && Enabled(After(s, run), a)
    ensures Runs(s, run + [a]) && After(s, run + [a]) == Next(After(s, run), a)
    decreases |run|
  {
    if run == [] {
      assert run + [a] == [a];
      assert Runs(Next(s, a), []);
    } else {
      OneMoreStep(Next(s, run[0]), run[1..], a);
      assert (run + [a])[1..] == run[1..] + [a];
    }
  }

  /** A state that some interleaving leads to. */
  ghost predicate Reachable(s: State) {
    exists maxQueue: nat, run: seq<Action> :: Runs(Init(maxQueue), run) && After(Init(maxQueue), run) == s
  }

  lemma ReachableInv(s: State)
    requires Reachable(s)
    ensures Inv(s)
  {
    var maxQueue: nat, run: seq<Action> :| Runs(Init(maxQueue), run) && After(Init(maxQueue), run) == s;
    InitHolds(maxQueue);
    RunKeepsInv(Init(maxQueue), run);
  }

  lemma InitIsReachable(maxQueue: nat)
    ensures Reachable(Init(maxQueue))
  {
    assert Runs(Init(maxQueue), []) && After(Init(maxQueue), []) == Init(maxQueue);
  }

  lemma StepIsReachable(s: State, a: Action)
    requires Reachable(s) && Enabled(s, a)
    ensures Reachable(Next(s, a))
  {
    var maxQueue: nat, run: seq<Action> :| Runs(Init(maxQueue), run) && After(Init(maxQueue), run) == s;
    OneMoreStep(Init(maxQueue), run, a);
    assert Runs(Init(maxQueue), run + [a]);
  }

  lemma {:induction false} RunIsReachable(s: State, run: seq<Action>)
    requires Reachable(s) && Runs(s, run)
    ensures Reachable(After(s, run))
    decreases |run|
  {
    hide Reachable, Enabled, Next;
    if run != [] {
      StepIsReachable(s, run[0]);
      RunIsReachable(Next(s, run[0]), run[1..]);
    }
  }

  // ---------- The mutex of the bounded wait ----------

  /** `Shutdown` holds the mutex exactly in its second cancel pass, and lets go of it before it
      clears anything. */
  predicate MutexHeld(s: State) {
    && (BeforeCancel(s.phase) ==> s.inflightMutex.Free?)
    && (s.inflightMutex.Held? || s.inflightMutex.Relocked? ==> s.cleared && (s.phase.CancelQueue? || s.phase.CancelPending?))
    && (s.inflightMutex.Released? ==> s.phase.Waiting? || s.phase.Clearing? || s.phase.Closed?)
    && (s.phase.Clearing? || s.phase.Closed? ==> s.inflightMutex.Released?)
    && (s.phase.Waiting? ==> s.cleared)
  }

  predicate SameStage(s: State, t: State) {
    t.phase == s.phase && t.inflightMutex == s.inflightMutex && t.cleared == s.cleared && t.swept == s.swept
  }

  lemma DispatchKeepsStage(s: State, d: DispatchStep, id: nat)
    requires CanDispatch(s, d, id)
    ensures SameStage(s, Dispatched(s, d, id))
  {
  }

  lemma WorkKeepsStage(s: State, w: WorkStep, id: nat)
    requires CanWork(s, w, id)
    ensures SameStage(s, Worked(s, w, id))
  {
  }

  lemma JsKeepsStage(s: State, j: JsStep, id: nat)
    requires CanRunJs(s, j, id)
    ensures SameStage(s, JsRan(s, j, id))
  {
  }

  /** Only `Shutdown` has to do with it, and goes from stage to stage. */
  lemma OthersKeepStage(s: State, a: Action)
    requires Enabled(s, a) && !a.Cancelling? && !a.ShuttingDown?
    ensures SameStage(s, Next(s, a))
  {
    hide Dispatched, Worked, JsRan, CanDispatch, CanWork, CanRunJs, SameStage;
    match a
    case Dispatching(d, id) => DispatchKeepsStage(s, d, id);
    case Working(w, id) => WorkKeepsStage(s, w, id);
    case InJs(j, id) => JsKeepsStage(s, j, id);
    case Replying(r, id) => ReplyKeepsStage(s, r, id);
    case Configuring(c) => ConfigKeepsStage(s, c);
  }

  lemma ReplyKeepsStage(s: State, r: ReplyStep, id: nat)
    requires CanReply(s, r, id)
    ensures SameStage(s, Replied(s, r, id))
  {
  }

  lemma ConfigKeepsStage(s: State, c: ConfigStep)
    ensures SameStage(s, Configured(s, c))
  {
  }

  lemma CancelKeepsMutexHeld(s: State, c: CancelStep, id: nat)
    requires MutexHeld(s) && HeldInTheQueuePass(s, id) && CanCancel(s, c, id)
    ensures MutexHeld(Cancelled(s, c, id))
  {
  }

  predicate HeldInTheQueuePass(s: State, id: nat) {
    id in s.entry && SweepHolds(s.entry[id]) ==> s.phase.CancelQueue?
  }

  lemma ShutdownKeepsMutexHeld(s: State, d: ShutdownStep)
    requires MutexHeld(s) && CanShutDown(s, d)
    ensures MutexHeld(ShutDown(s, d))
  {
  }

  lemma StepKeepsMutexHeld(s: State, a: Action)
    requires Inv(s) && MutexHeld(s) && Enabled(s, a)
    ensures MutexHeld(Next(s, a))
  {
    hide Dispatched, Worked, JsRan, Replied, Cancelled, ShutDown;
    if a.Cancelling? {
      assert LocalAt(s, a.id);
      assert Holder(CellOf(s, a.id), s.phase);
      CancelKeepsMutexHeld(s, a.cancel, a.id);
    } else if a.ShuttingDown? {
      ShutdownKeepsMutexHeld(s, a.shutdown);
    } else {
      OthersKeepStage(s, a);
    }
  }

  lemma {:induction false} RunKeepsMutexHeld(s: State, run: seq<Action>)
    requires Inv(s) && MutexHeld(s) && Runs(s, run)
    ensures MutexHeld(After(s, run))
    decreases |run|
  {
    hide Enabled, Next, MutexHeld;
    if run != [] {
      StepKeepsInv(s, run[0]);
      StepKeepsMutexHeld(s, run[0]);
      RunKeepsMutexHeld(Next(s, run[0]), run[1..]);
    }
  }

  lemma ReachableMutexHeld(s: State)
    requires Reachable(s)
    ensures MutexHeld(s)
  {
    var maxQueue: nat, run: seq<Action> :| Runs(Init(maxQueue), run) && After(Init(maxQueue), run) == s;
    InitHolds(maxQueue);
    RunKeepsMutexHeld(Init(maxQueue), run);
  }
}
