/**
 * Concurrent locked updates of a dinosaur have the effect, the events and the answers of the same
 * calls made one after the other, in the order in which Postgres granted them the lock.
 */
module Serialization {
  import opened Wrappers
  import opened Domain
  import opened Replacing
  import opened Protocol
  import opened ProtocolInvariants
  import opened MutualExclusion

  /** A dinosaur's row, its update events and its real changes; failures are not visible in the tables. */
  function ViewOf(s: State, id: Id): View {
    View(RowOf(s, id), Updates(s.events, id), s.history.changes[id], 0)
  }

  function Visible(v: View): View {
    v.(failures := 0)
  }

  predicate On(k: Caller, id: Id) {
    k.job.Patch? && k.job.id == id
  }

  /** Every update of the dinosaur takes a lock, blocking or not. */
  predicate Locked(s: State, id: Id) {
    forall c :: 0 <= c < |s.callers| && On(s.callers[c], id) ==> s.callers[c].job.mode != Unlocked
  }

  predicate WasGranted(k: Caller) {
    k.lock.Granted? || k.lock.Owner? || k.lock.Ended? || k.lock.Closed?
  }

  /** The call has its answer. */
  predicate Answered(k: Caller) {
    k.pc.Unlock? || k.pc.Forget? || k.pc.Resolve? || k.pc.Done?
  }

  function CallOf(k: Caller): Call
    requires k.job.Patch?
  {
    Call(k.job.want, k.faults.dao)
  }

  /** The calls that the callers in order make. */
  function Calls(callers: seq<Caller>, order: seq<nat>): (calls: seq<Call>)
    requires forall i :: 0 <= i < |order| ==> order[i] < |callers| && callers[order[i]].job.Patch?
    ensures |calls| == |order|
  {
    if order == [] then []
    else Calls(callers, order[..|order| - 1]) + [CallOf(callers[order[|order| - 1]])]
  }

  /** What the tables show while caller k is between its statements and found the dinosaur as in v. */
  predicate Midway(v: View, k: Caller, now: View)
    requires k.job.Patch?
  {
    var dao := k.faults.dao;
    var changing := dao.getOk && v.row.Some? && v.row.value != k.job.want;
    match k.pc
    case Register => now == Visible(v)
    case Want(op) => MidwayTo(v, k, op, now)
    case In(op) => MidwayTo(v, k, op, now)
    case _ => false
  }

  predicate MidwayTo(v: View, k: Caller, op: Op, now: View)
    requires k.job.Patch?
  {
    var dao := k.faults.dao;
    var changing := dao.getOk && v.row.Some? && v.row.value != k.job.want;
    var saved := v.(row := Some(k.job.want), changes := v.changes + 1);
    match op
    case Get => now == Visible(v)
    case Save => changing && now == Visible(v)
    case Insert => changing && dao.save == Ok && now == Visible(saved)
    case Notify => changing && dao.save == Ok && dao.insert == Ok && now == Visible(saved.(updates := v.updates + 1))
    case Probe(_) => false
  }

  /** Caller k found the dinosaur as in v; this is what the tables and its answer have to be. */
  predicate Follows(v: View, k: Caller, now: View)
    requires k.job.Patch?
  {
    if Answered(k) then
      var (w, reply) := Replace(v, k.job.want, k.faults.dao);
      now == Visible(w) && k.reply == reply
    else Midway(v, k, now)
  }

  // ---------- one statement ----------

  /** What a finished statement of Replace does to the view of its dinosaur. */
  function StatementView(now: View, k: Caller, op: Op): View
    requires k.job.Patch?
  {
    if op == Save && k.faults.dao.save != Failed then
      now.(row := Some(k.job.want), changes := now.changes + if now.row == Some(k.job.want) then 0 else 1)
    else if op == Insert && k.faults.dao.insert != Failed then now.(updates := now.updates + 1)
    else now
  }

  lemma WriteShows(s: State, c: nat, op: Op, k': Caller, id: Id)
    requires c < |s.callers| && s.callers[c].job.Patch?
    ensures var k := s.callers[c];
            ViewOf(Write(s, c, op, k'), id) ==
            if k.job.id == id then StatementView(ViewOf(s, id), k, op) else ViewOf(s, id)
  {
    UpdatesAppend(s.events, UpdateOf(s.callers[c].job.id), id);
  }

  lemma StatementFollows(v: View, k: Caller, op: Op, now: View)
    requires k.job.Patch? && k.job.mode != Unlocked && k.pc == In(op) && Midway(v, k, now)
    ensures Follows(v, AfterPatchOp(k, op, now.row), StatementView(now, k, op))
  {
  }

  // ---------- one step ----------

  /** The view of a dinosaur changes only when a statement of a call on it finishes. */
  lemma StepShows(cfg: Config, s: State, c: nat, id: Id)
    requires c < |s.callers| && Coherent(s.callers[c]) && Next(cfg, s, c).Some?
    ensures var k := s.callers[c];
            ViewOf(Next(cfg, s, c).value, id) ==
            if On(k, id) && k.pc.In? then StatementView(ViewOf(s, id), k, k.pc.op) else ViewOf(s, id)
  {
    var k := s.callers[c];
    if k.pc.In? {
      if k.job.Patch? {
        WriteShows(s, c, k.pc.op, AfterPatchOp(k, k.pc.op, RowOf(s, k.job.id)), id);
      } else {
        ReconcileShows(cfg, s, c, id);
      }
    } else if k.pc.Acting? {
      ActShows(s, c, id);
    } else {
      StepApart(cfg, s, Next(cfg, s, c).value, c);
    }
  }

  lemma ReconcileShows(cfg: Config, s: State, c: nat, id: Id)
    requires c < |s.callers| && s.callers[c].job.Reconcile? && s.callers[c].pc.In?
    ensures ViewOf(ReconcileOp(cfg, s, c, s.callers[c].pc.op), id) == ViewOf(s, id)
  {
    var e := s.callers[c].job.event;
    if e < |s.events| { UpdatesOverwrite(s.events, e, id); }
  }

  lemma ActShows(s: State, c: nat, id: Id)
    requires c < |s.callers| && s.callers[c].pc.Acting?
    ensures ViewOf(Act(s, c, s.callers[c].pc.handler, s.callers[c].pc.sawNil), id) == ViewOf(s, id)
  {
  }

  /** Only a grant extends a grant order, and it appends the caller. */
  lemma StepOrders(cfg: Config, s: State, c: nat, id: Id)
    requires c < |s.callers| && Coherent(s.callers[c]) && Next(cfg, s, c).Some?
    ensures var k := s.callers[c];
            Order(Next(cfg, s, c).value.history, id) ==
            Order(s.history, id) + (if On(k, id) && Granting(cfg, s, k) then [c] else [])
  {
    var k := s.callers[c];
    match k.pc
    case AwaitLock =>
    case In(op) => if k.job.Patch? { WriteOrders(s, c, op, AfterPatchOp(k, op, RowOf(s, k.job.id)), id); }
    case _ =>
  }

  lemma WriteOrders(s: State, c: nat, op: Op, k': Caller, id: Id)
    requires c < |s.callers| && s.callers[c].job.Patch?
    ensures Order(Write(s, c, op, k').history, id) == Order(s.history, id)
  {
  }

  predicate Granting(cfg: Config, s: State, k: Caller) {
    k.pc.AwaitLock? && k.faults.lockOk && KeyOf(cfg, k.job) !in s.locks
  }

  /** From its grant to its answer a caller goes through the statements of Replace. */
  predicate Advances(k: Caller, k': Caller) {
    match k.pc
    case AwaitLock => k'.pc.Register?
    case Register => k'.pc == Want(Get)
    case Want(op) => k'.pc == In(op)
    case _ => false
  }

  /** How a step changes the caller's standing in the grant order. */
  predicate Stands(cfg: Config, s: State, k: Caller, k': Caller) {
    && (WasGranted(k') <==> WasGranted(k) || Granting(cfg, s, k))
    && (WasGranted(k) && Answered(k) ==> Answered(k') && k'.reply == k.reply)
    && (WasGranted(k') && !Answered(k) ==> Advances(k, k'))
  }

  lemma LockStands(cfg: Config, s: State, c: nat)
    requires c < |s.callers| && s.callers[c].job.Patch? && Coherent(s.callers[c]) && Next(cfg, s, c).Some?
    requires s.callers[c].pc.AwaitLock? || s.callers[c].pc.Register?
    ensures Stands(cfg, s, s.callers[c], Next(cfg, s, c).value.callers[c])
  {
  }

  lemma EndStands(cfg: Config, s: State, c: nat)
    requires c < |s.callers| && s.callers[c].job.Patch? && Local(s, c) && Next(cfg, s, c).Some?
    requires s.callers[c].pc.Unlock? || s.callers[c].pc.Forget? || s.callers[c].pc.Resolve?
    ensures Stands(cfg, s, s.callers[c], Next(cfg, s, c).value.callers[c])
  {
  }

  lemma StepStands(cfg: Config, s: State, c: nat)
    requires c < |s.callers| && Local(s, c) && s.callers[c].job.Patch? && Next(cfg, s, c).Some?
    requires Effect(cfg, s, Next(cfg, s, c).value, c)
    requires !s.callers[c].pc.In?
    ensures Stands(cfg, s, s.callers[c], Next(cfg, s, c).value.callers[c])
  {
    match s.callers[c].pc
    case AwaitLock => LockStands(cfg, s, c);
    case Register => LockStands(cfg, s, c);
    case Unlock => EndStands(cfg, s, c);
    case Forget => EndStands(cfg, s, c);
    case Resolve => EndStands(cfg, s, c);
    case _ =>
  }

  // ---------- every state ----------

  /** The grant order of a dinosaur lists, once each, the callers that were granted its lock. */
  ghost predicate OrderFits(callers: seq<Caller>, order: seq<nat>, id: Id) {
    && Callable(callers, order)
    && (forall i :: 0 <= i < |order| ==> On(callers[order[i]], id) && WasGranted(callers[order[i]]))
    && (forall c: nat :: c < |callers| && On(callers[c], id) && WasGranted(callers[c]) ==> c in order)
    && (forall i, j :: 0 <= i < j < |order| ==> order[i] != order[j])
  }

  predicate Callable(callers: seq<Caller>, order: seq<nat>) {
    forall i :: 0 <= i < |order| ==> order[i] < |callers| && callers[order[i]].job.Patch?
  }

  /** The dinosaur as the i-th granted caller found it. */
  function Before(v: View, callers: seq<Caller>, order: seq<nat>, i: nat): View
    requires i <= |order| && Callable(callers, order)
  {
    ReplaceAll(v, Calls(callers, order[..i]))
  }

  predicate RepliesAsIn(v: View, k: Caller)
    requires k.job.Patch?
  {
    k.reply == Replace(v, k.job.want, k.faults.dao).1
  }

  /** Everybody granted before the last is answered, and the answers are those of the sequential run. */
  predicate Replied(v: View, callers: seq<Caller>, order: seq<nat>)
    requires Callable(callers, order)
  {
    forall i :: 0 <= i < |order| ==>
      if Answered(callers[order[i]]) then RepliesAsIn(Before(v, callers, order, i), callers[order[i]])
      else i == |order| - 1
  }

  /** The tables show the sequential run, up to where the last granted caller is in its own call. */
  predicate Shows(v: View, callers: seq<Caller>, order: seq<nat>, now: View)
    requires Callable(callers, order)
  {
    if order == [] then now == Visible(v)
    else
      var n := |order| - 1;
      Follows(Before(v, callers, order, n), callers[order[n]], now)
  }

  ghost predicate Serial(v: View, s: State, id: Id) {
    var order := Order(s.history, id);
    && OrderFits(s.callers, order, id)
    && Replied(v, s.callers, order)
    && Shows(v, s.callers, order, ViewOf(s, id))
  }

  lemma {:induction false} SameCalls(callers: seq<Caller>, callers': seq<Caller>, order: seq<nat>)
    requires Callable(callers, order)
    requires |callers'| == |callers|
    requires forall c :: 0 <= c < |callers| ==>
               callers'[c].job == callers[c].job && callers'[c].faults == callers[c].faults
    ensures Callable(callers', order) && Calls(callers', order) == Calls(callers, order)
  {
    if order != [] { SameCalls(callers, callers', order[..|order| - 1]); }
  }

  /** What a step may do to a caller whose place in the order does not change. */
  predicate Stays(k: Caller, k': Caller, id: Id) {
    && k'.job == k.job && k'.faults == k.faults && k'.factory == k.factory
    && (On(k, id) ==> (WasGranted(k') <==> WasGranted(k)))
    && (On(k, id) && WasGranted(k) && Answered(k) ==> Answered(k') && k'.reply == k.reply)
  }

  lemma OrderStays(callers: seq<Caller>, order: seq<nat>, c: nat, k': Caller, id: Id)
    requires OrderFits(callers, order, id) && c < |callers| && Stays(callers[c], k', id)
    ensures OrderFits(callers[c := k'], order, id)
  {
  }

  lemma SameBefore(v: View, callers: seq<Caller>, order: seq<nat>, c: nat, k': Caller, i: nat)
    requires Callable(callers, order) && c < |callers| && i <= |order|
    requires k'.job == callers[c].job && k'.faults == callers[c].faults
    ensures Callable(callers[c := k'], order)
    ensures Before(v, callers[c := k'], order, i) == Before(v, callers, order, i)
  {
    SameCalls(callers, callers[c := k'], order[..i]);
  }

  /** A step that grants nothing on the dinosaur keeps its run serial if the last caller still follows. */
  lemma SerialStays(v: View, callers: seq<Caller>, order: seq<nat>, c: nat, k': Caller, now: View, id: Id)
    requires OrderFits(callers, order, id) && Replied(v, callers, order)
    requires c < |callers| && Stays(callers[c], k', id)
    requires if order == [] then now == Visible(v)
             else
               var n := |order| - 1;
               Follows(Before(v, callers, order, n), callers[c := k'][order[n]], now)
    ensures OrderFits(callers[c := k'], order, id)
    ensures Replied(v, callers[c := k'], order) && Shows(v, callers[c := k'], order, now)
  {
    OrderStays(callers, order, c, k', id);
    forall i | 0 <= i < |order| ensures Before(v, callers[c := k'], order, i) == Before(v, callers, order, i) {
      SameBefore(v, callers, order, c, k', i);
    }
  }

  lemma OrderGrants(callers: seq<Caller>, order: seq<nat>, c: nat, k': Caller, id: Id)
    requires OrderFits(callers, order, id) && c < |callers|
    requires On(callers[c], id) && On(k', id) && !WasGranted(callers[c]) && WasGranted(k')
    ensures OrderFits(callers[c := k'], order + [c], id)
  {
  }

  /** When everybody is answered the tables show the whole sequential run. */
  lemma AllAnswered(v: View, callers: seq<Caller>, order: seq<nat>, now: View)
    requires Callable(callers, order) && Shows(v, callers, order, now)
    requires forall i :: 0 <= i < |order| ==> Answered(callers[order[i]])
    ensures now == Visible(Before(v, callers, order, |order|))
  {
    assert order[..|order|] == order;
    if order != [] {
      var n := |order| - 1;
      assert Calls(callers, order)[..n] == Calls(callers, order[..n]);
    }
  }

  /** A grant appends a caller; everybody before it is answered because it found the lock free. */
  lemma SerialGrants(v: View, callers: seq<Caller>, order: seq<nat>, c: nat, k': Caller, now: View, id: Id)
    requires OrderFits(callers, order, id) && Replied(v, callers, order) && Shows(v, callers, order, now)
    requires c < |callers| && k'.job == callers[c].job && k'.faults == callers[c].faults
    requires On(k', id) && !WasGranted(callers[c]) && WasGranted(k') && k'.pc.Register?
    requires forall i :: 0 <= i < |order| ==> Answered(callers[order[i]]) && order[i] != c
    ensures OrderFits(callers[c := k'], order + [c], id)
    ensures Replied(v, callers[c := k'], order + [c]) && Shows(v, callers[c := k'], order + [c], now)
  {
    OrderGrants(callers, order, c, k', id);
    AllAnswered(v, callers, order, now);
    RepliedGrants(v, callers, order, c, k');
    ShowsGrants(v, callers, order, c, k', now);
  }

  lemma ShowsGrants(v: View, callers: seq<Caller>, order: seq<nat>, c: nat, k': Caller, now: View)
    requires Callable(callers, order) && c < |callers|
    requires k'.job == callers[c].job && k'.faults == callers[c].faults && k'.job.Patch? && k'.pc.Register?
    requires now == Visible(Before(v, callers, order, |order|))
    ensures Callable(callers[c := k'], order + [c]) && Shows(v, callers[c := k'], order + [c], now)
  {
    GrantBefore(v, callers, order, c, k', |order|);
    assert (order + [c])[|order|] == c;
  }

  lemma GrantBefore(v: View, callers: seq<Caller>, order: seq<nat>, c: nat, k': Caller, i: nat)
    requires Callable(callers, order) && c < |callers| && i <= |order|
    requires k'.job == callers[c].job && k'.faults == callers[c].faults && k'.job.Patch?
    ensures Callable(callers[c := k'], order + [c])
    ensures Before(v, callers[c := k'], order + [c], i) == Before(v, callers, order, i)
  {
    SameBefore(v, callers, order, c, k', i);
    assert (order + [c])[..i] == order[..i];
  }

  lemma RepliedGrants(v: View, callers: seq<Caller>, order: seq<nat>, c: nat, k': Caller)
    requires Callable(callers, order) && Replied(v, callers, order) && c < |callers|
    requires k'.job == callers[c].job && k'.faults == callers[c].faults && k'.job.Patch? && !Answered(k')
    requires forall i :: 0 <= i < |order| ==> Answered(callers[order[i]]) && order[i] != c
    ensures Callable(callers[c := k'], order + [c]) && Replied(v, callers[c := k'], order + [c])
  {
    forall i | 0 <= i <= |order| ensures Before(v, callers[c := k'], order + [c], i) == Before(v, callers, order, i) {
      GrantBefore(v, callers, order, c, k', i);
    }
    assert forall i :: 0 <= i < |order| ==> (order + [c])[i] == order[i];
  }

  // ---------- every run ----------

  lemma InitSerial(s: State, id: Id)
    requires Init(s)
    ensures Serial(ViewOf(s, id), s, id)
  {
  }

  /** A caller in its critical section is the last that was granted the lock. */
  lemma HolderIsLast(cfg: Config, v: View, s: State, c: nat, id: Id)
    requires Inv(cfg, s) && Serial(v, s, id) && c < |s.callers|
    requires On(s.callers[c], id) && WasGranted(s.callers[c]) && !Answered(s.callers[c])
    ensures var order := Order(s.history, id); order != [] && order[|order| - 1] == c
  {
  }

  /** Whoever is granted the lock finds everybody before it answered. */
  lemma GrantFindsAnswered(cfg: Config, s: State, c: nat, id: Id)
    requires Inv(cfg, s) && c < |s.callers| && On(s.callers[c], id) && Granting(cfg, s, s.callers[c])
    requires OrderFits(s.callers, Order(s.history, id), id)
    ensures var order := Order(s.history, id);
            forall i :: 0 <= i < |order| ==> Answered(s.callers[order[i]]) && order[i] != c
  {
    var order := Order(s.history, id);
    forall i | 0 <= i < |order| ensures Answered(s.callers[order[i]]) && order[i] != c {
      InvLocal(cfg, s, order[i]);
      InvLocal(cfg, s, c);
    }
  }

  lemma StatementAdvances(cfg: Config, v: View, s: State, c: nat, id: Id)
    requires c < |s.callers| && Coherent(s.callers[c]) && s.callers[c].pc.In?
    requires On(s.callers[c], id) && s.callers[c].job.mode != Unlocked
    requires Midway(v, s.callers[c], ViewOf(s, id))
    ensures var k := s.callers[c];
            var t, k' := PatchOp(s, c, k.pc.op), AfterPatchOp(k, k.pc.op, RowOf(s, id));
            t.callers == s.callers[c := k'] && k'.job == k.job && Follows(v, k', ViewOf(t, id))
  {
    var k := s.callers[c];
    WriteShows(s, c, k.pc.op, AfterPatchOp(k, k.pc.op, RowOf(s, id)), id);
    StatementFollows(v, k, k.pc.op, ViewOf(s, id));
  }

  /** A caller that moves on without a statement still sees what it saw. */
  lemma AdvancesFollows(v: View, k: Caller, k': Caller, now: View)
    requires k.job.Patch? && k'.job == k.job && k'.faults == k.faults && !Answered(k) && !k.pc.In?
    requires Midway(v, k, now) && Advances(k, k')
    ensures Follows(v, k', now)
  {
  }

  /** The caller in its critical section goes on as the sequential run does. */
  lemma LastAdvances(cfg: Config, v: View, s: State, c: nat, id: Id)
    requires c < |s.callers| && Local(s, c) && Next(cfg, s, c).Some?
    requires Effect(cfg, s, Next(cfg, s, c).value, c)
    requires On(s.callers[c], id) && s.callers[c].job.mode != Unlocked
    requires WasGranted(s.callers[c]) && !Answered(s.callers[c])
    requires Midway(v, s.callers[c], ViewOf(s, id))
    ensures var t := Next(cfg, s, c).value; Follows(v, t.callers[c], ViewOf(t, id))
  {
    var k := s.callers[c];
    if k.pc.In? {
      StatementAdvances(cfg, v, s, c, id);
    } else {
      StepShows(cfg, s, c, id);
      StepStands(cfg, s, c);
      AdvancesFollows(v, k, Next(cfg, s, c).value.callers[c], ViewOf(s, id));
    }
  }

  /** A step that does not grant c the lock of the dinosaur leaves c's place in the order. */
  lemma StepStays(cfg: Config, s: State, c: nat, id: Id)
    requires c < |s.callers| && Local(s, c) && Next(cfg, s, c).Some?
    requires Effect(cfg, s, Next(cfg, s, c).value, c)
    requires !(On(s.callers[c], id) && Granting(cfg, s, s.callers[c]))
    ensures Stays(s.callers[c], Next(cfg, s, c).value.callers[c], id)
  {
    var k := s.callers[c];
    if k.job.Patch? {
      if k.pc.In? {
        PatchCoherent(k, k.pc.op, RowOf(s, k.job.id));
      } else {
        StepStands(cfg, s, c);
      }
    }
  }

  lemma StepSerial(cfg: Config, v: View, s: State, c: nat, id: Id)
    requires Inv(cfg, s) && Serial(v, s, id) && Locked(s, id)
    requires c < |s.callers| && Next(cfg, s, c).Some?
    ensures Serial(v, Next(cfg, s, c).value, id)
  {
    InvLocal(cfg, s, c);
    StepEffect(cfg, s, c);
    if On(s.callers[c], id) && Granting(cfg, s, s.callers[c]) {
      GrantFindsAnswered(cfg, s, c, id);
      GrantSerial(cfg, v, s, c, id);
    } else {
      if On(s.callers[c], id) && WasGranted(s.callers[c]) && !Answered(s.callers[c]) {
        HolderIsLast(cfg, v, s, c, id);
      }
      OtherSerial(cfg, v, s, c, id);
    }
  }

  lemma GrantSerial(cfg: Config, v: View, s: State, c: nat, id: Id)
    requires c < |s.callers| && Local(s, c) && Serial(v, s, id) && Next(cfg, s, c).Some?
    requires Effect(cfg, s, Next(cfg, s, c).value, c)
    requires On(s.callers[c], id) && Granting(cfg, s, s.callers[c])
    requires var order := Order(s.history, id);
             forall i :: 0 <= i < |order| ==> Answered(s.callers[order[i]]) && order[i] != c
    ensures Serial(v, Next(cfg, s, c).value, id)
  {
    StepShows(cfg, s, c, id);
    StepOrders(cfg, s, c, id);
    StepStands(cfg, s, c);
    SerialGrants(v, s.callers, Order(s.history, id), c, Next(cfg, s, c).value.callers[c], ViewOf(s, id), id);
  }

  lemma OtherSerial(cfg: Config, v: View, s: State, c: nat, id: Id)
    requires c < |s.callers| && Local(s, c) && Serial(v, s, id) && Locked(s, id) && Next(cfg, s, c).Some?
    requires Effect(cfg, s, Next(cfg, s, c).value, c)
    requires !(On(s.callers[c], id) && Granting(cfg, s, s.callers[c]))
    requires On(s.callers[c], id) && WasGranted(s.callers[c]) && !Answered(s.callers[c]) ==>
               var order := Order(s.history, id); order != [] && order[|order| - 1] == c
    ensures Serial(v, Next(cfg, s, c).value, id)
  {
    StepOrders(cfg, s, c, id);
    StepStays(cfg, s, c, id);
    LastFollowsStep(cfg, v, s, c, id);
    KeepsSerial(v, s, Next(cfg, s, c).value, c, id);
  }

  /** In t, the last caller of the order of s follows the sequential run. */
  predicate LastFollows(v: View, s: State, t: State, id: Id)
    requires Callable(s.callers, Order(s.history, id)) && SameJobs(s, t)
  {
    var order := Order(s.history, id);
    if order == [] then ViewOf(t, id) == Visible(v)
    else
      var n := |order| - 1;
      Follows(Before(v, s.callers, order, n), t.callers[order[n]], ViewOf(t, id))
  }

  lemma KeepsSerial(v: View, s: State, t: State, c: nat, id: Id)
    requires Serial(v, s, id) && c < |s.callers| && |t.callers| == |s.callers|
    requires t.callers == s.callers[c := t.callers[c]] && Stays(s.callers[c], t.callers[c], id)
    requires Order(t.history, id) == Order(s.history, id) && LastFollows(v, s, t, id)
    ensures Serial(v, t, id)
  {
    SerialStays(v, s.callers, Order(s.history, id), c, t.callers[c], ViewOf(t, id), id);
  }

  lemma LastFollowsStep(cfg: Config, v: View, s: State, c: nat, id: Id)
    requires c < |s.callers| && Local(s, c) && Serial(v, s, id) && Locked(s, id) && Next(cfg, s, c).Some?
    requires Effect(cfg, s, Next(cfg, s, c).value, c) && Stays(s.callers[c], Next(cfg, s, c).value.callers[c], id)
    requires On(s.callers[c], id) && WasGranted(s.callers[c]) && !Answered(s.callers[c]) ==>
               var order := Order(s.history, id); order != [] && order[|order| - 1] == c
    ensures LastFollows(v, s, Next(cfg, s, c).value, id)
  {
    if On(s.callers[c], id) && WasGranted(s.callers[c]) && !Answered(s.callers[c]) {
      var order := Order(s.history, id);
      LastAdvances(cfg, Before(v, s.callers, order, |order| - 1), s, c, id);
    } else {
      OthersLeaveLast(cfg, v, s, c, id);
    }
  }

  /** Nobody but the caller in its critical section touches the dinosaur. */
  lemma OthersLeaveLast(cfg: Config, v: View, s: State, c: nat, id: Id)
    requires c < |s.callers| && Coherent(s.callers[c]) && Locked(s, id) && Next(cfg, s, c).Some?
    requires var order := Order(s.history, id);
             OrderFits(s.callers, order, id) && Shows(v, s.callers, order, ViewOf(s, id))
    requires Effect(cfg, s, Next(cfg, s, c).value, c) && Stays(s.callers[c], Next(cfg, s, c).value.callers[c], id)
    requires !(On(s.callers[c], id) && WasGranted(s.callers[c]) && !Answered(s.callers[c]))
    ensures LastFollows(v, s, Next(cfg, s, c).value, id)
  {
    StepShows(cfg, s, c, id);
  }

  lemma {:induction false} RunSerial(cfg: Config, s: State, schedule: seq<nat>, id: Id)
    requires Init(s) && Run(cfg, s, schedule).Some? && Locked(s, id)
    ensures Serial(ViewOf(s, id), Run(cfg, s, schedule).value, id)
  {
    if schedule == [] {
      InitSerial(s, id);
    } else {
      var n := |schedule| - 1;
      RunSerial(cfg, s, schedule[..n], id);
      RunInv(cfg, s, schedule[..n]);
      StepSerial(cfg, ViewOf(s, id), Run(cfg, s, schedule[..n]).value, schedule[n], id);
    }
  }

  // ---------- the main theorem ----------

  /** Nobody is between its grant and its answer on the dinosaur. */
  predicate Settled(s: State, id: Id) {
    forall c :: 0 <= c < |s.callers| && On(s.callers[c], id) && WasGranted(s.callers[c]) ==> Answered(s.callers[c])
  }

  /**
   * Any run, of any number of locked updates of a dinosaur among any other callers, leaves the
   * dinosaur's row, events and real changes as the granted calls made one by one in grant order,
   * each meeting the same database answers, and each granted call gets its sequential answer.
   */
  lemma UpdatesAreSerial(cfg: Config, s: State, schedule: seq<nat>, id: Id)
    requires Init(s) && Run(cfg, s, schedule).Some? && Locked(s, id)
    requires Settled(Run(cfg, s, schedule).value, id)
    ensures var t := Run(cfg, s, schedule).value;
            var order := Order(t.history, id);
            && OrderFits(t.callers, order, id)
            && ViewOf(t, id) == Visible(ReplaceAll(ViewOf(s, id), Calls(t.callers, order)))
            && forall i :: 0 <= i < |order| ==>
                 RepliesAsIn(Before(ViewOf(s, id), t.callers, order, i), t.callers[order[i]])
  {
    RunSerial(cfg, s, schedule, id);
    var t := Run(cfg, s, schedule).value;
    var order := Order(t.history, id);
    AllAnswered(ViewOf(s, id), t.callers, order, ViewOf(t, id));
    assert order[..|order|] == order;
  }

  predicate IsError(reply: Reply) {
    reply.GetError? || reply.UpdateError? || reply.EventError?
  }

  /** Granted calls that returned an error. */
  function FailedCalls(callers: seq<Caller>, order: seq<nat>): nat
    requires Callable(callers, order)
  {
    if order == [] then 0
    else
      var n := |order| - 1;
      FailedCalls(callers, order[..n]) + if IsError(callers[order[n]].reply) then 1 else 0
  }

  lemma {:induction false} CountFailures(v: View, callers: seq<Caller>, order: seq<nat>)
    requires Callable(callers, order)
    requires forall i :: 0 <= i < |order| ==> RepliesAsIn(Before(v, callers, order, i), callers[order[i]])
    ensures ReplaceAll(v, Calls(callers, order)).failures == v.failures + FailedCalls(callers, order)
  {
    if order != [] {
      var n := |order| - 1;
      forall i | 0 <= i < n ensures Before(v, callers, order[..n], i) == Before(v, callers, order, i) {
        assert order[..n][..i] == order[..i];
      }
      CountFailures(v, callers, order[..n]);
      LastFailure(v, callers, order);
    }
  }

  lemma LastFailure(v: View, callers: seq<Caller>, order: seq<nat>)
    requires Callable(callers, order) && order != []
    requires var n := |order| - 1; RepliesAsIn(Before(v, callers, order, n), callers[order[n]])
    ensures var n := |order| - 1;
            ReplaceAll(v, Calls(callers, order)).failures ==
            ReplaceAll(v, Calls(callers, order[..n])).failures + if IsError(callers[order[n]].reply) then 1 else 0
  {
    var n := |order| - 1;
    var k := callers[order[n]];
    ErrorsAreFailures(Before(v, callers, order, n), k.job.want, k.faults.dao);
    assert Calls(callers, order)[..n] == Calls(callers, order[..n]);
    assert Calls(callers, order)[n] == CallOf(k);
  }

  lemma ErrorsAreFailures(v: View, want: Species, faults: DaoFaults)
    ensures var (w, reply) := Replace(v, want, faults);
            w.failures == v.failures + if IsError(reply) then 1 else 0
  {
  }

  /**
   * Whatever the database answers, a locked dinosaur never has more update events than real changes,
   * and it misses an event only where a call returned an error.
   */
  lemma EventsMatchChanges(cfg: Config, s: State, schedule: seq<nat>, id: Id)
    requires Init(s) && Run(cfg, s, schedule).Some? && Locked(s, id)
    requires Settled(Run(cfg, s, schedule).value, id)
    ensures var t := Run(cfg, s, schedule).value;
            var order := Order(t.history, id);
            var events := Updates(t.events, id) - Updates(s.events, id);
            var changes := t.history.changes[id];
            && Callable(t.callers, order)
            && events <= changes <= events + FailedCalls(t.callers, order)
  {
    UpdatesAreSerial(cfg, s, schedule, id);
    var t := Run(cfg, s, schedule).value;
    var order := Order(t.history, id);
    CountFailures(ViewOf(s, id), t.callers, order);
    EventsFollowChanges(ViewOf(s, id), Calls(t.callers, order));
  }

  /** Every call on the dinosaur meets a database without errors. */
  predicate ErrorFree(s: State, id: Id) {
    forall c :: 0 <= c < |s.callers| && On(s.callers[c], id) ==> s.callers[c].faults.dao == DaoFaults(true, Ok, Ok, true)
  }

  /**
   * Without database errors every real change of a locked dinosaur has exactly one update event, and
   * the dinosaur ends with the species that the last granted call asked for.
   */
  lemma ErrorFreeEventsEqualChanges(cfg: Config, s: State, schedule: seq<nat>, id: Id)
    requires Init(s) && Run(cfg, s, schedule).Some? && Locked(s, id) && ErrorFree(s, id) && id in s.rows
    requires Settled(Run(cfg, s, schedule).value, id)
    ensures var t := Run(cfg, s, schedule).value;
            var order := Order(t.history, id);
            && Updates(t.events, id) - Updates(s.events, id) == t.history.changes[id]
            && Callable(t.callers, order) && id in t.rows
            && t.rows[id] == if order == [] then s.rows[id] else t.callers[order[|order| - 1]].job.want
  {
    UpdatesAreSerial(cfg, s, schedule, id);
    RunInv(cfg, s, schedule);
    var t := Run(cfg, s, schedule).value;
    ErrorFreeCalls(s, t, Order(t.history, id), id);
    ErrorFreeView(ViewOf(s, id), Calls(t.callers, Order(t.history, id)), ViewOf(t, id));
  }

  lemma ErrorFreeCalls(s: State, t: State, order: seq<nat>, id: Id)
    requires SameJobs(s, t) && ErrorFree(s, id) && OrderFits(t.callers, order, id)
    ensures forall k :: 0 <= k < |order| ==> Calls(t.callers, order)[k].faults == DaoFaults(true, Ok, Ok, true)
  {
    forall k | 0 <= k < |order| ensures Calls(t.callers, order)[k].faults == DaoFaults(true, Ok, Ok, true) {
      assert On(s.callers[order[k]], id);
      CallsAt(t.callers, order, k);
    }
  }

  lemma {:induction false} CallsAt(callers: seq<Caller>, order: seq<nat>, k: nat)
    requires Callable(callers, order) && k < |order|
    ensures Calls(callers, order)[k] == CallOf(callers[order[k]])
  {
    if k < |order| - 1 { CallsAt(callers, order[..|order| - 1], k); }
  }

  lemma ErrorFreeView(v: View, calls: seq<Call>, now: View)
    requires v.row.Some? && now == Visible(ReplaceAll(v, calls))
    requires forall k :: 0 <= k < |calls| ==> calls[k].faults == DaoFaults(true, Ok, Ok, true)
    ensures now.updates - v.updates == now.changes - v.changes
    ensures now.row == Some(if calls == [] then v.row.value else calls[|calls| - 1].want)
  {
    EventsEqualChanges(v, calls);
  }
}
