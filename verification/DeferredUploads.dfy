/** Attachments that upload while the user is still typing, and the send that waits for them. Every upload is a
    small state machine whose steps interleave with removals, with rescans of the page and with one send. */
module DeferredUploads {
  import opened Common

  type FileId = string

  datatype Status = Preparing | Prepared | Uploading | Staging | Settling | Completed | Failed | Cancelled

  /** What the staging routine of a task is waiting for; Release is the request that takes a failed upload's
      reservation back. */
  datatype Await = Preparation | Gate | Presign | Transfer | Stage | Release | Done

  /** `complete` says that the server has marked the upload completed, `stored` that its answer has arrived here.
      `fileDeletes` counts the requests to delete the stored file, `reservationDeletes` those to take the reservation
      back; the server ignores the latter once the upload is complete. */
  datatype Task = Task(createdAt: int, state: Status, cancelled: bool, released: bool, fileId: FileId,
                       complete: bool, stored: bool, await: Await, fileDeletes: nat, reservationDeletes: nat)

  const MAX_AGE_MS := 30 * 60 * 1000
  const SETTLE_MS := 5000

  // ------------------------------------------------------------------ one task

  function Deletion(fileId: FileId): nat {
    if fileId == "" then 0 else 1
  }

  /** Removal by the user, by an aborted request, by age or by leaving the page. */
  function Cancel(t: Task): Task {
    if t.cancelled || t.state.Completed? || t.state.Failed? then t
    else t.(cancelled := true, state := Cancelled, released := true,
            fileDeletes := t.fileDeletes + if t.stored then Deletion(t.fileId) else 0)
  }

  function Staged(now: int, aborted: bool): Task {
    var t := Task(now, Preparing, false, false, "", false, false, Preparation, 0, 0);
    (if aborted then Cancel(t) else t).(released := true)
  }

  function AfterPreparation(t: Task): Task {
    if t.cancelled then t.(await := Done) else t.(state := Prepared, await := Gate)
  }

  function AfterGate(t: Task): Task {
    if t.cancelled then t.(await := Done) else t.(state := Uploading, await := Presign)
  }

  function OnReservation(t: Task, fileId: FileId): Task {
    t.(fileId := fileId, await := Transfer)
  }

  /** The server completes the upload; whether the answer gets through is another matter. */
  function AtServer(t: Task): Task {
    t.(complete := true)
  }

  /** The storage callback does not look at the cancelled flag. */
  function OnStored(t: Task): Task {
    t.(stored := true, state := Staging, await := Stage)
  }

  function AfterUpload(t: Task): Task {
    if t.cancelled then t.(await := Done) else t.(state := Settling, await := Done)
  }

  /** A transfer or anything after it has failed: the reservation is taken back before the error goes on. */
  function OnFailure(t: Task): Task {
    t.(reservationDeletes := t.reservationDeletes + 1, await := Release)
  }

  function AfterError(t: Task, abort: bool): Task {
    t.(state := if t.cancelled || abort then Cancelled else Failed, await := Done)
  }

  /** The page shows the file, so the attachment is really there. */
  predicate Ready(t: Task, shown: set<FileId>) {
    t.fileId != "" && t.fileId in shown
  }

  function Confirm(t: Task, shown: set<FileId>): Task {
    if t.state.Settling? && Ready(t, shown) then t.(state := Completed) else t
  }

  function GiveUp(t: Task): Task {
    if t.state.Settling? then t.(state := Failed, fileDeletes := t.fileDeletes + Deletion(t.fileId)) else t
  }

  /** What a send waits for. */
  predicate Pending(t: Task) {
    !t.cancelled && !t.state.Completed? && !t.state.Failed?
  }

  predicate TooOld(t: Task, now: int) {
    !t.cancelled && now - t.createdAt > MAX_AGE_MS
  }

  // ------------------------------------------------------------------ the composer

  datatype Phase = Waiting | Sweeping(deadline: int) | Sleeping(deadline: int) | Judging(settled: bool)

  /** `begun` holds the uploads pending when the send began, or when it looked again; `snapshot` those it still waits
      for after the old ones were dropped. */
  datatype Flush = Flush(begun: set<nat>, snapshot: set<nat>, phase: Phase)

  /** A task is named by its place in the order of staging. `timers` holds the tasks due to be dropped;
      `sends` records the `begun` set of every send that was submitted. */
  datatype Composer = Composer(tasks: seq<Task>, held: set<nat>, timers: set<nat>, flush: Option<Flush>,
      sends: seq<set<nat>>)

  const EMPTY := Composer([], {}, {}, None, [])

  datatype TaskStep =
    | Prepare
    | Open
    | Reserve(fileId: FileId)
    | Complete
    | Store
    | Return
    | Fail
    | Throw(abort: bool)
    | Remove

  datatype Action =
    | StageUpload(now: int, aborted: bool)
    | Upload(task: nat, step: TaskStep)
    | Scan(task: nat, shown: set<FileId>)
    | Timer(task: nat)
    | Send(now: int)
    | AllReturned(now: int)
    | Sweep(shown: set<FileId>)
    | Wake(now: int)
    | Judge(now: int)

  ghost predicate CanStep(t: Task, step: TaskStep) {
    match step
    case Prepare => t.await.Preparation?
    case Open => t.await.Gate? && t.released
    case Reserve(_) => t.await.Presign?
    case Complete => t.await.Transfer? && !t.complete
    case Store => t.await.Transfer? && t.complete
    case Return => t.await.Stage?
    // Once the file is stored, an error goes on only after an abort.
    case Fail => t.await.Transfer? || (t.await.Stage? && t.cancelled)
    case Throw(_) => t.await.Preparation? || t.await.Presign? || t.await.Release?
    case Remove => true
  }

  function StepTask(t: Task, step: TaskStep): Task {
    match step
    case Prepare => AfterPreparation(t)
    case Open => AfterGate(t)
    case Reserve(fileId) => OnReservation(t, fileId)
    case Complete => AtServer(t)
    case Store => OnStored(t)
    case Return => AfterUpload(t)
    case Fail => OnFailure(t)
    case Throw(abort) => AfterError(t, abort)
    case Remove => Cancel(t)
  }

  function AgedOut(tasks: seq<Task>, held: set<nat>, now: int): seq<Task> {
    seq(|tasks|, i requires 0 <= i < |tasks| =>
      if i in held && TooOld(tasks[i], now) then Cancel(tasks[i]) else tasks[i])
  }

  function Swept(tasks: seq<Task>, snapshot: set<nat>, shown: set<FileId>): seq<Task> {
    seq(|tasks|, i requires 0 <= i < |tasks| => if i in snapshot then Confirm(tasks[i], shown) else tasks[i])
  }

  function GivenUp(tasks: seq<Task>, snapshot: set<nat>): seq<Task> {
    seq(|tasks|, i requires 0 <= i < |tasks| => if i in snapshot then GiveUp(tasks[i]) else tasks[i])
  }

  function PendingHeld(tasks: seq<Task>, held: set<nat>): set<nat> {
    set i | i in held && i < |tasks| && Pending(tasks[i])
  }

  /** The members of a set of tasks that are in one status. */
  function InStatus(tasks: seq<Task>, among: set<nat>, state: Status): set<nat> {
    set i | i in among && i < |tasks| && tasks[i].state == state
  }

  ghost predicate Enabled(s: Composer, a: Action) {
    match a
    case StageUpload(_, _) => true
    case Upload(i, step) => i < |s.tasks| && CanStep(s.tasks[i], step)
    case Scan(i, _) => i in s.held && i < |s.tasks|
    case Timer(i) => i in s.timers
    case Send(_) => true
    case AllReturned(_) => s.flush.Some? && s.flush.value.phase.Waiting? &&
      forall i :: i in s.flush.value.snapshot && i < |s.tasks| ==> s.tasks[i].await.Done?
    case Sweep(_) => s.flush.Some? && s.flush.value.phase.Sweeping?
    case Wake(_) => s.flush.Some? && s.flush.value.phase.Sleeping?
    case Judge(_) => s.flush.Some? && s.flush.value.phase.Judging?
  }

  /** When the routine of a task returns without leaving it to settle, a timer is set to drop it. */
  function Timers(timers: set<nat>, i: nat, was: Task, t: Task): set<nat> {
    if !was.await.Done? && t.await.Done? && !t.state.Settling? then timers + {i} else timers
  }

  /** The submit handler. With nothing pending the page submits at once, whatever send is under way; with something
      pending a second send only waits for the one under way. `carried` holds what the send has waited for already. */
  function Submit(s: Composer, carried: set<nat>, now: int): Composer {
    var pending := PendingHeld(s.tasks, s.held);
    if pending == {} then s.(sends := s.sends + [carried])
    else if s.flush.Some? then s
    else
      var tasks := AgedOut(s.tasks, s.held, now);
      var snapshot := PendingHeld(tasks, s.held);
      if snapshot == {} then s.(tasks := tasks, sends := s.sends + [carried + pending])
      else s.(tasks := tasks, flush := Some(Flush(carried + pending, snapshot, Waiting)))
  }

  function SweepFlush(s: Composer, f: Flush, shown: set<FileId>): Composer
    requires f.phase.Sweeping?
  {
    var tasks := Swept(s.tasks, f.snapshot, shown);
    var phase := if InStatus(tasks, f.snapshot, Settling) == {} then Judging(true) else Sleeping(f.phase.deadline);
    s.(tasks := tasks, flush := Some(f.(phase := phase)),
       held := s.held - (InStatus(s.tasks, f.snapshot, Settling) - InStatus(tasks, f.snapshot, Settling)))
  }

  function WakeFlush(s: Composer, f: Flush, now: int): Composer
    requires f.phase.Sleeping?
  {
    if now < f.phase.deadline then s.(flush := Some(f.(phase := Sweeping(f.phase.deadline))))
    else s.(tasks := GivenUp(s.tasks, f.snapshot), held := s.held - InStatus(s.tasks, f.snapshot, Settling),
            flush := Some(f.(phase := Judging(false))))
  }

  /** The routines never reject, so a send fails when a task failed or the page never confirmed one. Otherwise the
      form is submitted again, and the handler looks once more. */
  function JudgeFlush(s: Composer, f: Flush, now: int): Composer
    requires f.phase.Judging?
  {
    if InStatus(s.tasks, f.snapshot, Failed) != {} || !f.phase.settled then s.(flush := None)
    else Submit(s.(flush := None), f.begun, now)
  }

  function ScanTask(s: Composer, i: nat, shown: set<FileId>): Composer
    requires i < |s.tasks|
  {
    var t := s.tasks[i];
    if !t.cancelled && Confirm(t, shown) != t then s.(tasks := s.tasks[i := Confirm(t, shown)], held := s.held - {i})
      else s
  }

  function Step(s: Composer, a: Action): Composer
    requires Enabled(s, a)
  {
    match a
    case StageUpload(now, aborted) =>
      s.(tasks := s.tasks + [Staged(now, aborted)], held := s.held + {|s.tasks|})
    case Upload(i, step) =>
      var t := StepTask(s.tasks[i], step);
      s.(tasks := s.tasks[i := t], timers := Timers(s.timers, i, s.tasks[i], t))
    case Scan(i, shown) => ScanTask(s, i, shown)
    case Timer(i) => s.(held := s.held - {i}, timers := s.timers - {i})
    case Send(now) => Submit(s, {}, now)
    case AllReturned(now) => s.(flush := Some(s.flush.value.(phase := Sweeping(now + SETTLE_MS))))
    case Sweep(shown) => SweepFlush(s, s.flush.value, shown)
    case Wake(now) => WakeFlush(s, s.flush.value, now)
    case Judge(now) => JudgeFlush(s, s.flush.value, now)
  }

  ghost predicate IsRun(states: seq<Composer>, actions: seq<Action>) {
    && |states| == |actions| + 1 && states[0] == EMPTY
    && forall i :: 0 <= i < |actions| ==> Enabled(states[i], actions[i]) && states[i + 1] == Step(states[i], actions[i])
  }

  // ------------------------------------------------------------------ what a task keeps

  /** Cancelled through the flag, or by an abort error of its own. */
  predicate IsCancelled(t: Task) {
    t.cancelled || t.state.Cancelled?
  }

  predicate Ended(t: Task) {
    t.state.Completed? || IsCancelled(t)
  }

  /** Neither ended nor failed. */
  predicate Live(t: Task) {
    !Ended(t) && !t.state.Failed?
  }

  ghost predicate StateInv(t: Task) {
    && (t.cancelled ==> t.state.Cancelled? || t.state.Staging?)
    && (t.state.Settling? || t.state.Completed? ==> t.await.Done? && t.stored && !t.cancelled)
    && (t.await.Stage? ==> t.stored)
    && (t.stored ==> t.await.Stage? || t.await.Release? || t.await.Done?)
    && (t.stored ==> t.complete)
    && (t.complete ==> t.await.Transfer? || t.await.Stage? || t.await.Release? || t.await.Done?)
    && (t.stored && (t.await.Release? || t.state.Cancelled?) ==> t.cancelled)
    && (t.state.Failed? ==> t.await.Done? && !t.cancelled)
    && (t.state.Cancelled? && !t.cancelled ==> t.await.Done?)
    && (t.await.Done? && Live(t) ==> t.state.Settling?)
  }

  ghost predicate DeletesInv(t: Task) {
    && t.fileDeletes <= 1 && t.reservationDeletes <= 1
    && (t.fileDeletes == 1 ==> t.stored && t.fileId != "" && (t.cancelled || t.state.Failed?))
    && (t.reservationDeletes == 1 ==> t.await.Release? || (t.await.Done? && (t.state.Cancelled? || t.state.Failed?)))
    && (t.await.Release? ==> t.reservationDeletes == 1)
    && (t.await in {Preparation, Gate, Presign} ==> t.fileId == "")
    && (t.await.Done? && t.fileId != "" && !t.stored ==> t.reservationDeletes == 1)
    && (t.stored && t.state.Failed? && t.fileId != "" ==> t.fileDeletes == 1)
  }

  ghost predicate TaskInv(t: Task) {
    StateInv(t) && DeletesInv(t)
  }

  /** How a task may change from one moment to any later one. */
  ghost predicate Evolves(t: Task, u: Task) {
    && TaskInv(u)
    && (IsCancelled(t) ==> IsCancelled(u))
    && (t.state.Completed? ==> u.state.Completed?)
    && (!Live(t) ==> !Live(u))
    && (t.await.Done? ==> u.await.Done?)
    && (t.await.Done? && !t.state.Settling? ==> !u.state.Settling?)
  }

  lemma StepTaskEvolves(t: Task, step: TaskStep)
    requires TaskInv(t) && CanStep(t, step)
    ensures Evolves(t, StepTask(t, step))
  {
  }

  lemma SettlingEvolves(t: Task, shown: set<FileId>)
    requires TaskInv(t)
    ensures Evolves(t, t) && Evolves(t, Cancel(t)) && Evolves(t, Confirm(t, shown)) && Evolves(t, GiveUp(t))
    ensures Evolves(t, if t.cancelled then t else Confirm(t, shown))
  {
  }

  lemma EvolvesOn(t: Task, u: Task, v: Task)
    requires Evolves(t, u) && Evolves(u, v)
    ensures Evolves(t, v)
  {
  }

  // ------------------------------------------------------------------ what the composer keeps

  ghost predicate TasksOk(tasks: seq<Task>) {
    forall i :: 0 <= i < |tasks| ==> TaskInv(tasks[i])
  }

  /** The map never loses a live upload, and a timer is set only for a task that is over. */
  ghost predicate HeldOk(tasks: seq<Task>, held: set<nat>, timers: set<nat>) {
    && (forall i :: i in held ==> i < |tasks|)
    && (forall i :: 0 <= i < |tasks| && Live(tasks[i]) ==> i in held)
    && (forall i :: i in timers ==> i < |tasks| && !Live(tasks[i]))
  }

  ghost predicate FlushOk(tasks: seq<Task>, f: Flush) {
    && f.snapshot <= f.begun
    && (forall i :: i in f.begun ==> i < |tasks|)
    && (forall i :: i in f.begun && i !in f.snapshot ==> Ended(tasks[i]))
    && (!f.phase.Waiting? ==> forall i :: i in f.snapshot ==> tasks[i].await.Done?)
    && (f.phase == Judging(true) ==> forall i :: i in f.snapshot ==> !tasks[i].state.Settling?)
  }

  ghost predicate AllEnded(tasks: seq<Task>, some: set<nat>) {
    forall i :: i in some ==> i < |tasks| && Ended(tasks[i])
  }

  ghost predicate SendsOk(tasks: seq<Task>, sends: seq<set<nat>>) {
    forall k :: 0 <= k < |sends| ==> AllEnded(tasks, sends[k])
  }

  ghost predicate Inv(s: Composer) {
    && TasksOk(s.tasks)
    && HeldOk(s.tasks, s.held, s.timers)
    && (s.flush.Some? ==> FlushOk(s.tasks, s.flush.value))
    && SendsOk(s.tasks, s.sends)
  }

  ghost predicate AllEvolve(ts: seq<Task>, us: seq<Task>) {
    && |ts| <= |us|
    && (forall i :: 0 <= i < |ts| ==> Evolves(ts[i], us[i]))
    && (forall i :: |ts| <= i < |us| ==> TaskInv(us[i]))
  }

  /** Whatever the tasks do, the send under way and the sends submitted stay in order. */
  lemma EvolvingKeeps(ts: seq<Task>, us: seq<Task>, flush: Option<Flush>, sends: seq<set<nat>>)
    requires AllEvolve(ts, us) && SendsOk(ts, sends) && (flush.Some? ==> FlushOk(ts, flush.value))
    ensures TasksOk(us) && SendsOk(us, sends) && (flush.Some? ==> FlushOk(us, flush.value))
  {
    hide TaskInv, IsCancelled, Live;
    forall i | 0 <= i < |us| ensures TaskInv(us[i]) {
    }
    forall i | 0 <= i < |ts| && Ended(ts[i]) ensures Ended(us[i]) {
      assert Evolves(ts[i], us[i]);
    }
    forall k | 0 <= k < |sends| ensures AllEnded(us, sends[k]) {
      assert AllEnded(ts, sends[k]);
    }
  }

  lemma EvolvingHeld(ts: seq<Task>, us: seq<Task>, held: set<nat>, timers: set<nat>, later: set<nat>, due: set<nat>)
    requires AllEvolve(ts, us) && HeldOk(ts, held, timers) && |ts| == |us|
    requires later <= held && forall i :: i in held && i !in later && i < |us| ==> !Live(us[i])
    requires forall i :: i in due && i !in timers ==> i < |us| && !Live(us[i])
    ensures HeldOk(us, later, due)
  {
    hide TaskInv, IsCancelled, Live, Ended;
    forall i | 0 <= i < |us| && Live(us[i]) ensures i in later {
      assert Evolves(ts[i], us[i]);
    }
    forall i | i in due ensures i < |us| && !Live(us[i]) {
      if i in timers { assert Evolves(ts[i], us[i]); }
    }
  }

  lemma StageKeeps(s: Composer, now: int, aborted: bool)
    requires Inv(s)
    ensures Inv(Step(s, StageUpload(now, aborted)))
  {
    var us := s.tasks + [Staged(now, aborted)];
    forall i | 0 <= i < |s.tasks| ensures Evolves(s.tasks[i], us[i]) {
      SettlingEvolves(s.tasks[i], {});
    }
    EvolvingKeeps(s.tasks, us, s.flush, s.sends);
  }

  lemma OneEvolves(ts: seq<Task>, i: nat, u: Task)
    requires TasksOk(ts) && i < |ts| && Evolves(ts[i], u)
    ensures AllEvolve(ts, ts[i := u])
  {
    hide TaskInv;
    forall j | 0 <= j < |ts| ensures Evolves(ts[j], ts[i := u][j]) {
      if j != i { SettlingEvolves(ts[j], {}); }
    }
  }

  lemma UploadKeeps(s: Composer, i: nat, step: TaskStep)
    requires Inv(s) && i < |s.tasks| && CanStep(s.tasks[i], step)
    ensures Inv(Step(s, Upload(i, step)))
  {
    hide StepTask, CanStep, HeldOk, SendsOk, FlushOk;
    var u := StepTask(s.tasks[i], step);
    StepTaskEvolves(s.tasks[i], step);
    OneEvolves(s.tasks, i, u);
    EvolvingKeeps(s.tasks, s.tasks[i := u], s.flush, s.sends);
    TimerIsOver(s.timers, i, s.tasks[i], u);
    HeldNow(s);
    EvolvingHeld(s.tasks, s.tasks[i := u], s.held, s.timers, s.held, Timers(s.timers, i, s.tasks[i], u));
  }

  lemma HeldNow(s: Composer)
    requires Inv(s)
    ensures HeldOk(s.tasks, s.held, s.timers)
  {
  }

  lemma TimerIsOver(timers: set<nat>, i: nat, was: Task, t: Task)
    requires TaskInv(t)
    ensures forall j :: j in Timers(timers, i, was, t) && j !in timers ==> j == i && !Live(t)
  {
  }

  lemma ScanKeeps(s: Composer, i: nat, shown: set<FileId>)
    requires Inv(s) && i in s.held && i < |s.tasks|
    ensures Inv(Step(s, Scan(i, shown)))
  {
    hide HeldOk, SendsOk, FlushOk;
    var u := if s.tasks[i].cancelled then s.tasks[i] else Confirm(s.tasks[i], shown);
    SettlingEvolves(s.tasks[i], shown);
    OneEvolves(s.tasks, i, u);
    EvolvingKeeps(s.tasks, s.tasks[i := u], s.flush, s.sends);
    if u != s.tasks[i] {
      EvolvingHeld(s.tasks, s.tasks[i := u], s.held, s.timers, s.held - {i}, s.timers);
    }
  }

  lemma AgedEvolve(tasks: seq<Task>, held: set<nat>, now: int)
    requires TasksOk(tasks)
    ensures AllEvolve(tasks, AgedOut(tasks, held, now)) && |AgedOut(tasks, held, now)| == |tasks|
  {
    hide TaskInv, Evolves;
    forall i | 0 <= i < |tasks| ensures Evolves(tasks[i], AgedOut(tasks, held, now)[i]) {
      SettlingEvolves(tasks[i], {});
    }
  }

  /** A send starts with all that is pending and goes on with what is not too old. */
  lemma FlushBegins(tasks: seq<Task>, held: set<nat>, now: int, carried: set<nat>)
    requires AllEnded(AgedOut(tasks, held, now), carried)
    ensures var us := AgedOut(tasks, held, now);
            FlushOk(us, Flush(carried + PendingHeld(tasks, held), PendingHeld(us, held), Waiting))
    ensures PendingHeld(AgedOut(tasks, held, now), held) == {} ==>
              AllEnded(AgedOut(tasks, held, now), carried + PendingHeld(tasks, held))
  {
    hide Pending, Ended;
    BegunEnds(tasks, AgedOut(tasks, held, now), held, now);
  }

  lemma SubmitKeeps(s: Composer, carried: set<nat>, now: int)
    requires Inv(s) && AllEnded(s.tasks, carried)
    ensures Inv(Submit(s, carried, now))
  {
    hide TasksOk, HeldOk, FlushOk, SendsOk, AgedOut, PendingHeld, AllEnded;
    if PendingHeld(s.tasks, s.held) == {} {
      SendsMore(s.tasks, s.sends, carried);
    } else if s.flush.None? {
      var us := AgedOut(s.tasks, s.held, now);
      AgedEvolve(s.tasks, s.held, now);
      EvolvingKeeps(s.tasks, us, s.flush, s.sends);
      EvolvingHeld(s.tasks, us, s.held, s.timers, s.held, s.timers);
      EndedStays(s.tasks, us, carried);
      FlushBegins(s.tasks, s.held, now, carried);
      SendsMore(us, s.sends, carried + PendingHeld(s.tasks, s.held));
    }
  }

  lemma EndedStays(ts: seq<Task>, us: seq<Task>, some: set<nat>)
    requires AllEvolve(ts, us) && AllEnded(ts, some)
    ensures AllEnded(us, some)
  {
    hide TaskInv, Live;
    forall i | i in some ensures i < |us| && Ended(us[i]) {
      assert Evolves(ts[i], us[i]);
    }
  }

  lemma NoneEnded(tasks: seq<Task>)
    ensures AllEnded(tasks, {})
  {
  }

  /** What the age limit takes out of a send has been cancelled. */
  lemma BegunEnds(ts: seq<Task>, us: seq<Task>, held: set<nat>, now: int)
    requires us == AgedOut(ts, held, now)
    ensures PendingHeld(us, held) <= PendingHeld(ts, held)
    ensures forall i :: i in PendingHeld(ts, held) && i !in PendingHeld(us, held) ==> i < |us| && Ended(us[i])
  {
  }

  lemma SendsMore(tasks: seq<Task>, sends: seq<set<nat>>, begun: set<nat>)
    requires SendsOk(tasks, sends)
    ensures AllEnded(tasks, begun) ==> SendsOk(tasks, sends + [begun])
  {
    hide AllEnded;
  }

  lemma SweepKeeps(s: Composer, shown: set<FileId>)
    requires Inv(s) && Enabled(s, Sweep(shown))
    ensures Inv(Step(s, Sweep(shown)))
  {
    hide SendsOk, TaskInv;
    var f := s.flush.value;
    var us := Swept(s.tasks, f.snapshot, shown);
    forall i | 0 <= i < |us| ensures Evolves(s.tasks[i], us[i]) {
      SettlingEvolves(s.tasks[i], shown);
    }
    EvolvingKeeps(s.tasks, us, s.flush, s.sends);
    var gone := InStatus(s.tasks, f.snapshot, Settling) - InStatus(us, f.snapshot, Settling);
    EvolvingHeld(s.tasks, us, s.held, s.timers, s.held - gone, s.timers);
    assert InStatus(us, f.snapshot, Settling) == {} ==>
        forall i :: i in f.snapshot ==> !us[i].state.Settling? by {
      if InStatus(us, f.snapshot, Settling) == {} {
        forall i | i in f.snapshot ensures !us[i].state.Settling? {
          assert i !in InStatus(us, f.snapshot, Settling);
        }
      }
    }
  }

  lemma WakeKeeps(s: Composer, now: int)
    requires Inv(s) && Enabled(s, Wake(now))
    ensures Inv(Step(s, Wake(now)))
  {
    hide SendsOk, TaskInv;
    var f := s.flush.value;
    var us := GivenUp(s.tasks, f.snapshot);
    forall i | 0 <= i < |us| ensures Evolves(s.tasks[i], us[i]) {
      SettlingEvolves(s.tasks[i], {});
    }
    EvolvingKeeps(s.tasks, us, s.flush, s.sends);
    EvolvingHeld(s.tasks, us, s.held, s.timers, s.held - InStatus(s.tasks, f.snapshot, Settling), s.timers);
  }

  /** No task of the snapshot is under way, failed or left to settle, so every one has ended. */
  lemma JudgedEnd(tasks: seq<Task>, f: Flush)
    requires TasksOk(tasks) && FlushOk(tasks, f) && f.phase == Judging(true) &&
        InStatus(tasks, f.snapshot, Failed) == {}
    ensures AllEnded(tasks, f.begun)
  {
    forall i | i in f.snapshot ensures Ended(tasks[i]) {
      assert TaskInv(tasks[i]);
      assert i !in InStatus(tasks, f.snapshot, Failed);
    }
  }

  lemma JudgeKeeps(s: Composer, now: int)
    requires Inv(s) && Enabled(s, Judge(now))
    ensures Inv(Step(s, Judge(now)))
  {
    hide HeldOk, SendsOk, FlushOk, TasksOk, Submit, AllEnded;
    var f := s.flush.value;
    if f.phase.settled && InStatus(s.tasks, f.snapshot, Failed) == {} {
      JudgedEnd(s.tasks, f);
      SubmitKeeps(s.(flush := None), f.begun, now);
    }
  }

  lemma StepKeeps(s: Composer, a: Action)
    requires Inv(s) && Enabled(s, a)
    ensures Inv(Step(s, a))
  {
    match a {
      case StageUpload(now, aborted) => StageKeeps(s, now, aborted);
      case Upload(i, step) => UploadKeeps(s, i, step);
      case Scan(i, shown) => ScanKeeps(s, i, shown);
      case Timer(i) =>
      case Send(now) =>
        NoneEnded(s.tasks);
        SubmitKeeps(s, {}, now);
      case AllReturned(now) =>
      case Sweep(shown) => SweepKeeps(s, shown);
      case Wake(now) => WakeKeeps(s, now);
      case Judge(now) => JudgeKeeps(s, now);
    }
  }

  lemma {:induction false} RunKeeps(states: seq<Composer>, actions: seq<Action>, n: nat)
    requires IsRun(states, actions) && n < |states|
    ensures Inv(states[n])
  {
    if n > 0 {
      hide Inv, Step, Enabled;
      RunKeeps(states, actions, n - 1);
      StepKeeps(states[n - 1], actions[n - 1]);
    } else {
      EmptyHolds();
    }
  }

  lemma EmptyHolds()
    ensures Inv(EMPTY)
  {
  }

  // ------------------------------------------------------------------ the guarantees

  lemma StepEvolves(s: Composer, a: Action)
    requires TasksOk(s.tasks) && Enabled(s, a)
    ensures AllEvolve(s.tasks, Step(s, a).tasks)
  {
    hide TaskInv, Live, IsCancelled, StepTask, CanStep, Confirm, Cancel, GiveUp, Evolves;
    forall i | 0 <= i < |s.tasks|
      ensures Evolves(s.tasks[i], s.tasks[i]) && Evolves(s.tasks[i], Cancel(s.tasks[i]))
           && Evolves(s.tasks[i], GiveUp(s.tasks[i]))
    {
      SettlingEvolves(s.tasks[i], {});
    }
    forall i, shown | 0 <= i < |s.tasks| ensures Evolves(s.tasks[i], Confirm(s.tasks[i], shown)) {
      SettlingEvolves(s.tasks[i], shown);
    }
    match a {
      case StageUpload(now, aborted) =>
        StagedIsSound(now, aborted);
        var us := s.tasks + [Staged(now, aborted)];
        forall i | |s.tasks| <= i < |us| ensures TaskInv(us[i]) {
          assert us[i] == Staged(now, aborted);
        }
      case Upload(i, step) => StepTaskEvolves(s.tasks[i], step);
      case Scan(i, shown) =>
      case Timer(_) =>
      case Send(_) =>
      case AllReturned(_) =>
      case Sweep(_) =>
      case Wake(_) =>
      case Judge(now) => SubmitEvolves(s.(flush := None), now);
    }
  }

  lemma SubmitEvolves(s: Composer, now: int)
    requires TasksOk(s.tasks)
    ensures forall carried :: AllEvolve(s.tasks, Submit(s, carried, now).tasks)
  {
    hide TaskInv, AgedOut, PendingHeld, Evolves;
    AgedEvolve(s.tasks, s.held, now);
    forall i | 0 <= i < |s.tasks| ensures Evolves(s.tasks[i], s.tasks[i]) {
      SettlingEvolves(s.tasks[i], {});
    }
  }

  lemma StagedIsSound(now: int, aborted: bool)
    ensures TaskInv(Staged(now, aborted))
  {
  }

  ghost predicate IsStep(states: seq<Composer>, actions: seq<Action>, i: nat)
  {
    && i < |actions| && |states| == |actions| + 1
    && Enabled(states[i], actions[i]) && states[i + 1] == Step(states[i], actions[i])
  }

  lemma StepOfRun(states: seq<Composer>, actions: seq<Action>, i: nat)
    requires IsRun(states, actions) && i < |actions|
    ensures IsStep(states, actions, i)
  {
  }

  predicate StaysCancelled(t: Task) {
    t.cancelled ==> t.state.Cancelled?
  }

  lemma StaysOfTask(t: Task, step: TaskStep, shown: set<FileId>)
    requires StaysCancelled(t)
    ensures StaysCancelled(Cancel(t)) && StaysCancelled(Confirm(t, shown)) && StaysCancelled(GiveUp(t))
    ensures CanStep(t, step) && (step in {Store, Return} ==> !t.cancelled) ==> StaysCancelled(StepTask(t, step))
  {
  }

  lemma StagedStays(now: int, aborted: bool)
    ensures StaysCancelled(Staged(now, aborted))
  {
  }

  /** Unless a removed task is still answered, removal is the last change of state it sees. */
  lemma CancelledStep(s: Composer, a: Action, t: nat)
    requires Enabled(s, a) && t < |Step(s, a).tasks|
    requires t < |s.tasks| ==> StaysCancelled(s.tasks[t])
    requires a.Upload? && a.step in {Store, Return} ==> !s.tasks[a.task].cancelled
    ensures StaysCancelled(Step(s, a).tasks[t])
  {
    hide StaysCancelled, Cancel, Confirm, GiveUp, StepTask, CanStep, TooOld, PendingHeld, InStatus, Timers;
    if t < |s.tasks| {
      forall shown ensures StaysCancelled(Confirm(s.tasks[t], shown)) {
        StaysOfTask(s.tasks[t], Remove, shown);
      }
      StaysOfTask(s.tasks[t], if a.Upload? then a.step else Remove, {});
    }
    if a.StageUpload? { StagedStays(a.now, a.aborted); }
  }

  /** Along a run each task only evolves. */
  lemma {:induction false} RunEvolves(states: seq<Composer>, actions: seq<Action>, m: nat, n: nat, t: nat)
    requires IsRun(states, actions) && m <= n < |states| && t < |states[m].tasks|
    ensures t < |states[n].tasks| && Evolves(states[m].tasks[t], states[n].tasks[t])
    decreases n
  {
    hide Step, Enabled, Evolves, TaskInv;
    if m == n {
      RunKeeps(states, actions, m);
      SettlingEvolves(states[m].tasks[t], {});
    } else {
      RunEvolves(states, actions, m, n - 1, t);
      RunKeeps(states, actions, n - 1);
      StepEvolves(states[n - 1], actions[n - 1]);
      EvolvesOn(states[m].tasks[t], states[n - 1].tasks[t], states[n].tasks[t]);
    }
  }

  /** A task that was cancelled never settles, completes or fails afterwards, whatever happens in between. */
  lemma CancelledIsFinal(states: seq<Composer>, actions: seq<Action>, m: nat, n: nat, t: nat)
    requires IsRun(states, actions) && m <= n < |states| && t < |states[m].tasks| && IsCancelled(states[m].tasks[t])
    ensures t < |states[n].tasks| && IsCancelled(states[n].tasks[t])
    ensures states[n].tasks[t].state !in {Settling, Completed, Failed}
  {
    hide IsRun;
    RunEvolves(states, actions, m, n, t);
  }

  /** A completed attachment stays completed, and its file is never deleted by either kind of request; neither kind
      is sent twice for a task. */
  lemma CompletedFileIsKept(states: seq<Composer>, actions: seq<Action>, m: nat, n: nat, t: nat)
    requires IsRun(states, actions) && m <= n < |states| && t < |states[m].tasks|
    ensures t < |states[n].tasks| && states[n].tasks[t].fileDeletes <= 1 && states[n].tasks[t].reservationDeletes <= 1
    ensures states[m].tasks[t].state.Completed? ==>
              states[n].tasks[t].state.Completed? && states[n].tasks[t].stored
              && states[n].tasks[t].fileDeletes == 0 && states[n].tasks[t].reservationDeletes == 0
  {
    hide IsRun;
    RunEvolves(states, actions, m, n, t);
  }

  /** The storage callback has come although the task was removed already. */
  ghost predicate StoredLate(states: seq<Composer>, actions: seq<Action>, n: nat, t: nat)
    requires n <= |actions| <= |states|
  {
    n > 0 && (StoredLate(states, actions, n - 1, t) || IsLateStore(states[n - 1], actions[n - 1], t))
  }

  ghost predicate IsLateStore(s: Composer, a: Action, t: nat) {
    a == Upload(t, Store) && t < |s.tasks| && s.tasks[t].cancelled
  }

  /** A file stored after the removal is never deleted; any other stored file is, exactly when its task is removed
      or fails. */
  ghost predicate Fate(t: Task, late: bool) {
    && (late ==> t.stored && t.cancelled && t.fileDeletes == 0)
    && (t.stored && t.fileId != "" && !late ==> (t.fileDeletes == 1 <==> t.cancelled || t.state.Failed?))
  }

  lemma FateOfStep(t: Task, step: TaskStep, late: bool)
    requires TaskInv(t) && CanStep(t, step) && Fate(t, late)
    ensures Fate(StepTask(t, step), late || (step.Store? && t.cancelled))
  {
  }

  lemma FateOfSettling(t: Task, shown: set<FileId>, late: bool)
    requires TaskInv(t) && Fate(t, late)
    ensures Fate(Cancel(t), late) && Fate(Confirm(t, shown), late) && Fate(GiveUp(t), late)
  {
  }

  lemma FateKeeps(s: Composer, a: Action, t: nat, late: bool)
    requires TasksOk(s.tasks) && Enabled(s, a) && t < |Step(s, a).tasks|
    requires if t < |s.tasks| then Fate(s.tasks[t], late) else !late
    ensures Fate(Step(s, a).tasks[t], late || IsLateStore(s, a, t))
  {
    hide TaskInv, Fate, Cancel, Confirm, GiveUp, StepTask, CanStep, TooOld, PendingHeld, InStatus, Timers;
    if t < |s.tasks| {
      forall shown ensures Fate(Confirm(s.tasks[t], shown), late) {
        FateOfSettling(s.tasks[t], shown, late);
      }
      FateOfSettling(s.tasks[t], {}, late);
    }
    match a {
      case StageUpload(now, aborted) => StagedFate(now, aborted);
      case Upload(i, step) => if i == t { FateOfStep(s.tasks[t], step, late); }
      case Scan(_, _) =>
      case Timer(_) =>
      case Send(_) =>
      case AllReturned(_) =>
      case Sweep(_) =>
      case Wake(_) =>
      case Judge(_) =>
    }
  }

  lemma StagedFate(now: int, aborted: bool)
    ensures Fate(Staged(now, aborted), false)
  {
  }

  lemma {:induction false} RunFate(states: seq<Composer>, actions: seq<Action>, n: nat, t: nat)
    requires IsRun(states, actions) && n < |states|
    ensures if t < |states[n].tasks| then Fate(states[n].tasks[t], StoredLate(states, actions, n, t))
            else !StoredLate(states, actions, n, t)
  {
    if n > 0 {
      RunFate(states, actions, n - 1, t);
      RunKeeps(states, actions, n - 1);
      assert IsStep(states, actions, n - 1) by { StepOfRun(states, actions, n - 1); }
      hide IsRun, Fate, TaskInv, Enabled;
      if t < |states[n].tasks| {
        FateKeeps(states[n - 1], actions[n - 1], t, StoredLate(states, actions, n - 1, t));
      } else {
        TasksStay(states[n - 1], actions[n - 1]);
      }
    }
  }

  lemma TasksStay(s: Composer, a: Action)
    requires Enabled(s, a)
    ensures |s.tasks| <= |Step(s, a).tasks|
  {
  }

  /** The fate of a stored file once its routine has returned: its deletion is requested exactly when the attachment
      neither settles nor has completed and the storage callback had not come after the removal. */
  lemma StoredFileFate(states: seq<Composer>, actions: seq<Action>, n: nat, t: nat)
    requires IsRun(states, actions) && n < |states| && t < |states[n].tasks|
    ensures var u := states[n].tasks[t];
            u.await.Done? && u.stored && u.fileId != "" ==>
              (u.fileDeletes == 1 <==> u.state !in {Settling, Completed} && !StoredLate(states, actions, n, t))
  {
    RunFate(states, actions, n, t);
    RunEvolves(states, actions, n, n, t);
    hide IsRun, StoredLate;
  }

  /** A reservation that the server has not completed is always taken back. */
  lemma NoReservationLeft(states: seq<Composer>, actions: seq<Action>, n: nat, t: nat)
    requires IsRun(states, actions) && n < |states| && t < |states[n].tasks|
    ensures var u := states[n].tasks[t];
            u.await.Done? && u.fileId != "" && !u.complete ==> u.reservationDeletes == 1
  {
    RunEvolves(states, actions, n, n, t);
    hide IsRun;
  }

  /** Aborting reaches every request of a removed task: none of them is answered any more. */
  ghost predicate AbortsReach(states: seq<Composer>, actions: seq<Action>)
    requires IsRun(states, actions)
  {
    forall i :: 0 <= i < |actions| && actions[i].Upload? && actions[i].step in {Store, Return} ==>
      !states[i].tasks[actions[i].task].cancelled
  }

  lemma {:induction false} NeverLate(states: seq<Composer>, actions: seq<Action>, n: nat, t: nat)
    requires IsRun(states, actions) && AbortsReach(states, actions) && n <= |actions|
    ensures !StoredLate(states, actions, n, t)
  {
    if n > 0 { NeverLate(states, actions, n - 1, t); }
  }

  lemma {:induction false} CancelledStays(states: seq<Composer>, actions: seq<Action>, n: nat, t: nat)
    requires IsRun(states, actions) && AbortsReach(states, actions) && n < |states| && t < |states[n].tasks|
    ensures states[n].tasks[t].cancelled ==> states[n].tasks[t].state.Cancelled?
  {
    if n > 0 {
      RunKeeps(states, actions, n - 1);
      if t < |states[n - 1].tasks| { CancelledStays(states, actions, n - 1, t); }
      hide IsRun, AbortsReach, Inv;
      assert IsStep(states, actions, n - 1) by { StepOfRun(states, actions, n - 1); }
      CancelledStep(states[n - 1], actions[n - 1], t);
    }
  }

  /** Then, of the files that the server has completed, those are deleted whose completion was answered and whose
      attachment neither settles nor has completed; and a file that is neither attached nor deleted stays behind
      exactly when the answer never arrived. */
  lemma OrphansAreUnanswered(states: seq<Composer>, actions: seq<Action>, n: nat, t: nat)
    requires IsRun(states, actions) && AbortsReach(states, actions) && n < |states| && t < |states[n].tasks|
    ensures var u := states[n].tasks[t];
            u.await.Done? && u.complete && u.fileId != "" ==>
              && (u.fileDeletes == 1 <==> u.stored && u.state !in {Settling, Completed})
              && (u.fileDeletes == 0 && u.state !in {Settling, Completed} <==> !u.stored)
  {
    StoredFileFate(states, actions, n, t);
    NeverLate(states, actions, n, t);
    RunEvolves(states, actions, n, n, t);
    hide IsRun, AbortsReach, StoredLate;
  }

  /** How the routine of a removed task ends, once the abort has reached it. */
  function RunOut(t: Task): Task {
    match t.await
    case Preparation => AfterPreparation(t)
    case Gate => AfterGate(t)
    case Presign => AfterError(t, true)
    case Transfer => AfterError(OnFailure(t), true)
    case Stage => AfterError(OnFailure(t), true)
    case Release => AfterError(t, true)
    case Done => t
  }

  /** What removing a live task deletes: the file when it was stored, the reservation when a transfer or the step
      after it was under way; so both exactly when the removal comes after storing and before the routine returns. */
  lemma RemovalDeletes(t: Task)
    requires TaskInv(t) && Live(t) && t.fileId != ""
    ensures var u := RunOut(Cancel(t));
            && u.await.Done? && u.state.Cancelled? && u.cancelled
            && (u.fileDeletes == 1 <==> t.stored)
            && (u.reservationDeletes == 1 <==> t.await in {Transfer, Stage, Release})
            && (u.fileDeletes == 1 && u.reservationDeletes == 1 <==> t.stored && !t.await.Done?)
  {
  }

  /** A removal ends the task: completed and failed ones are left as they are, any other is cancelled, and removing
      it again changes nothing. */
  lemma CancelEnds(t: Task)
    requires TaskInv(t)
    ensures var u := Cancel(t);
            && !Live(u) && Cancel(u) == u
            && (u == t <==> t.cancelled || t.state in {Completed, Failed})
            && (t.state !in {Completed, Failed} ==> u.cancelled)
            && (u.fileDeletes > t.fileDeletes <==>
              !t.cancelled && t.stored && t.fileId != "" && t.state !in {Completed, Failed})
  {
  }

  /** A send under way was under way before, with no less behind it, or begins with this step. */
  lemma FlushStep(s: Composer, a: Action)
    requires Enabled(s, a) && Step(s, a).flush.Some?
    ensures s.flush.Some? ==> s.flush.value.begun <= Step(s, a).flush.value.begun
    ensures s.flush.None? ==> a.Send? && PendingHeld(s.tasks, s.held) <= Step(s, a).flush.value.begun
  {
    hide AgedOut, PendingHeld, Swept, GivenUp, InStatus, StepTask, CanStep;
  }

  /** A send under way goes back to some send that began while no other was, and covers every upload then pending. */
  lemma {:induction false} FlushWasBegun(states: seq<Composer>, actions: seq<Action>, q: nat) returns (p: nat)
    requires IsRun(states, actions) && q < |states| && states[q].flush.Some?
    ensures p < q && actions[p].Send? && states[p].flush.None?
    ensures PendingHeld(states[p].tasks, states[p].held) <= states[q].flush.value.begun
  {
    hide Step, Enabled, PendingHeld;
    assert q > 0;
    FlushStep(states[q - 1], actions[q - 1]);
    if states[q - 1].flush.Some? {
      p := FlushWasBegun(states, actions, q - 1);
    } else {
      p := q - 1;
    }
  }

  lemma LiveIsPending(s: Composer)
    requires Inv(s)
    ensures forall t :: 0 <= t < |s.tasks| && Live(s.tasks[t]) ==> t in PendingHeld(s.tasks, s.held)
  {
  }

  /** Where a submission comes from: a send, and it has waited for every upload pending when that began. With
      something pending a send begins only while none is under way. */
  lemma SubmissionWasBegun(states: seq<Composer>, actions: seq<Action>, q: nat) returns (p: nat, begun: set<nat>)
    requires IsRun(states, actions) && q < |actions| && |states[q + 1].sends| > |states[q].sends|
    ensures p <= q && actions[p].Send?
    ensures states[p].flush.None? || PendingHeld(states[p].tasks, states[p].held) == {}
    ensures PendingHeld(states[p].tasks, states[p].held) <= begun && states[q + 1].sends == states[q].sends + [begun]
  {
    hide AgedOut, PendingHeld, Swept, GivenUp, InStatus, StepTask;
    if actions[q].Send? {
      p := q;
    } else {
      p := FlushWasBegun(states, actions, q);
    }
    begun := states[q + 1].sends[|states[q].sends|];
  }

  /** A message is submitted only by a send that began while none was under way, or while nothing was pending; and
      every upload live at that moment, whether the map still held it or its age took it out, has completed or been
      cancelled. */
  lemma SendWaitsForUploads(states: seq<Composer>, actions: seq<Action>, q: nat) returns (p: nat)
    requires IsRun(states, actions) && q < |actions| && |states[q + 1].sends| > |states[q].sends|
    ensures p <= q && actions[p].Send?
    ensures states[p].flush.None? || PendingHeld(states[p].tasks, states[p].held) == {}
    ensures forall t :: 0 <= t < |states[p].tasks| && Live(states[p].tasks[t]) ==>
              t < |states[q + 1].tasks| && Ended(states[q + 1].tasks[t])
  {
    hide PendingHeld, Live, Ended;
    var begun: set<nat>;
    p, begun := SubmissionWasBegun(states, actions, q);
    RunKeeps(states, actions, p);
    RunKeeps(states, actions, q + 1);
    LiveIsPending(states[p]);
    LastSendEnded(states[q + 1], states[q].sends, begun);
  }

  /** And at the moment of a submission no upload is live at all, those staged while the send waited included. */
  lemma NothingLiveAtSubmission(states: seq<Composer>, actions: seq<Action>, q: nat)
    requires IsRun(states, actions) && q < |actions| && |states[q + 1].sends| > |states[q].sends|
    ensures var tasks := states[q + 1].tasks;
            forall t :: 0 <= t < |tasks| ==> !Live(tasks[t])
  {
    RunKeeps(states, actions, q + 1);
    LiveIsPending(states[q + 1]);
    assert IsStep(states, actions, q) by { StepOfRun(states, actions, q); }
    hide IsRun, Inv, Live;
    SubmitsEmptyHanded(states[q], actions[q]);
  }

  lemma SubmitsEmptyHanded(s: Composer, a: Action)
    requires Enabled(s, a) && |Step(s, a).sends| > |s.sends|
    ensures PendingHeld(Step(s, a).tasks, Step(s, a).held) == {}
  {
    hide AgedOut, PendingHeld, Swept, GivenUp, InStatus, StepTask;
  }

  lemma LastSendEnded(s: Composer, sends: seq<set<nat>>, begun: set<nat>)
    requires Inv(s) && s.sends == sends + [begun]
    ensures AllEnded(s.tasks, begun)
  {
    assert s.sends[|sends|] == begun;
  }

  // ------------------------------------------------------------------ how a send ends

  /** Held, and neither removed nor completed nor failed. */
  predicate Open(s: Composer, i: nat) {
    i in s.held && i < |s.tasks| && !s.tasks[i].cancelled && s.tasks[i].state !in {Completed, Failed}
  }

  /** The submit handler with no send under way: it submits at once exactly when every open upload is older than half
      an hour; these are cancelled, and the younger ones are what the send waits for. */
  lemma SubmitDecides(s: Composer, carried: set<nat>, now: int)
    requires s.flush.None?
    ensures var r := Submit(s, carried, now);
            var young := set i | i in s.held && Open(s, i) && now - s.tasks[i].createdAt <= 1800000;
            && |r.tasks| == |s.tasks| && r.held == s.held
            && (forall i :: 0 <= i < |s.tasks| ==>
                 if Open(s, i) && i !in young then r.tasks[i].cancelled && r.tasks[i].state.Cancelled?
                 else r.tasks[i] == s.tasks[i])
            && (young == {} ==> r.flush.None? && |r.sends| == |s.sends| + 1 && r.sends[..|s.sends|] == s.sends)
            && (young != {} ==>
                 && r.flush.Some? && r.flush.value.snapshot == young && r.flush.value.phase.Waiting?
                 && r.sends == s.sends)
  {
    var young := set i | i in s.held && Open(s, i) && now - s.tasks[i].createdAt <= 1800000;
    var open := PendingHeld(s.tasks, s.held);
    forall i: nat ensures i in open <==> Open(s, i) {
    }
    AgedAt(s.tasks, s.held, now);
    var aged := AgedOut(s.tasks, s.held, now);
    assert PendingHeld(aged, s.held) == young;
    assert young <= open;
  }

  /** The end of a send: it is refused, and nothing else changes, exactly when an upload it waited for has failed or
      the page did not show one in time. Otherwise the form is submitted exactly when no upload younger than half an
      hour is open. */
  lemma SendDecides(s: Composer, now: int)
    requires Enabled(s, Judge(now))
    ensures var r, f := Step(s, Judge(now)), s.flush.value;
            var refused := !f.phase.settled || exists i :: i in f.snapshot && i < |s.tasks| && s.tasks[i].state.Failed?;
            && (refused ==> r == s.(flush := None))
            && (|r.sends| > |s.sends| <==>
                 !refused && forall i: nat :: Open(s, i) ==> now - s.tasks[i].createdAt > 1800000)
            && (!refused && |r.sends| == |s.sends| ==> r.flush.Some?)
  {
    hide Submit;
    var f, t := s.flush.value, s.(flush := None);
    if i :| i in f.snapshot && i < |s.tasks| && s.tasks[i].state.Failed? {
      assert i in InStatus(s.tasks, f.snapshot, Failed);
    }
    forall i: nat ensures Open(s, i) <==> Open(t, i) {
    }
    SubmitDecides(t, f.begun, now);
    var young := set i | i in t.held && Open(t, i) && now - t.tasks[i].createdAt <= 1800000;
    forall i: nat | Open(s, i) ensures i in young <==> now - s.tasks[i].createdAt <= 1800000 {
    }
  }

  /** A send goes through: once every routine has returned without a failure and the page shows what they uploaded,
      one pass completes the attachments and the form is submitted. */
  lemma SendGoesThrough(s: Composer, shown: set<FileId>, now: int, later: int)
    requires s.flush.Some? && s.flush.value.phase.Waiting?
    requires forall i :: i in s.flush.value.snapshot && i < |s.tasks| ==>
               && s.tasks[i].await.Done? && !s.tasks[i].state.Failed?
               && (s.tasks[i].state.Settling? ==> s.tasks[i].fileId != "" && s.tasks[i].fileId in shown)
    requires forall i: nat :: Open(s, i) ==> i in s.flush.value.snapshot && s.tasks[i].state.Settling?
    ensures Enabled(s, AllReturned(now))
    ensures Enabled(Step(s, AllReturned(now)), Sweep(shown))
    ensures Enabled(Step(Step(s, AllReturned(now)), Sweep(shown)), Judge(later))
    ensures var r := Step(Step(Step(s, AllReturned(now)), Sweep(shown)), Judge(later));
            && |r.sends| == |s.sends| + 1 && r.flush.None? && |r.tasks| == |s.tasks|
            && forall i :: i in s.flush.value.snapshot && i < |s.tasks| && s.tasks[i].state.Settling? ==>
                 r.tasks[i].state.Completed?
  {
    hide Submit, Swept;
    var f := s.flush.value;
    var a := Step(s, AllReturned(now));
    var b := Step(a, Sweep(shown));
    SweptAt(a.tasks, f.snapshot, shown);
    forall i | i in f.snapshot && i < |b.tasks| ensures b.tasks[i].state !in {Settling, Failed} {
    }
    assert InStatus(b.tasks, f.snapshot, Settling) == {} && InStatus(b.tasks, f.snapshot, Failed) == {};
    forall i: nat ensures !Open(b, i) {
      assert Open(b, i) ==> Open(s, i);
    }
    NothingOpenSubmits(b.(flush := None), f.begun, later);
  }

  lemma NothingOpenSubmits(s: Composer, carried: set<nat>, now: int)
    requires forall i: nat :: !Open(s, i)
    ensures Submit(s, carried, now) == s.(sends := s.sends + [carried])
  {
    forall i: nat ensures i !in PendingHeld(s.tasks, s.held) {
      assert !Open(s, i);
    }
    assert PendingHeld(s.tasks, s.held) == {};
  }

  /** What the page has not shown is looked for again until five seconds have passed since the routines returned;
      then it has failed and leaves the map, its file is deleted, and the send is refused. */
  lemma WaitsFiveSeconds(s: Composer, shown: set<FileId>, now: int, later: int, i: nat)
    requires Enabled(s, AllReturned(now))
    requires i in s.flush.value.snapshot && i < |s.tasks|
    requires s.tasks[i].state.Settling? && s.tasks[i].fileId !in shown
    ensures var b := Step(Step(s, AllReturned(now)), Sweep(shown));
            && Enabled(b, Wake(later)) && |b.tasks| == |s.tasks| && b.tasks[i] == s.tasks[i]
            && var r := Step(b, Wake(later));
            && (later - now < 5000 ==> Enabled(r, Sweep(shown)) && r.tasks == b.tasks && r.held == b.held)
            && (later - now >= 5000 ==>
                 && Enabled(r, Judge(later)) && Step(r, Judge(later)) == r.(flush := None) && r.sends == s.sends
                 && |r.tasks| == |s.tasks| && r.tasks[i].state.Failed? && i !in r.held
                 && r.tasks[i].fileDeletes == s.tasks[i].fileDeletes + if s.tasks[i].fileId == "" then 0 else 1)
  {
    hide Submit, Swept, GivenUp;
    var f := s.flush.value;
    SweptAt(s.tasks, f.snapshot, shown);
    var swept := Swept(s.tasks, f.snapshot, shown);
    assert i in InStatus(swept, f.snapshot, Settling);
    GivenUpAt(swept, f.snapshot);
  }

  /** An upload that nothing disturbs: its six segments leave it settling with the reserved file, and the page
      showing that file completes it; nothing of it is deleted. */
  lemma UndisturbedUpload(now: int, fileId: FileId, shown: set<FileId>)
    requires fileId != "" && fileId in shown
    ensures var t0 := Staged(now, false);
            var t1 := StepTask(t0, Prepare);
            var t2 := StepTask(t1, TaskStep.Open);
            var t3 := StepTask(t2, Reserve(fileId));
            var t4 := StepTask(t3, Complete);
            var t5 := StepTask(t4, Store);
            var t6 := StepTask(t5, Return);
            && CanStep(t0, Prepare) && CanStep(t1, TaskStep.Open) && CanStep(t2, Reserve(fileId))
            && CanStep(t3, Complete) && CanStep(t4, Store) && CanStep(t5, Return)
            && t0.state == Preparing && t1.state == Prepared && t2.state == Uploading && t5.state == Staging
            && t6 == Task(now, Settling, false, true, fileId, true, true, Done, 0, 0)
            && Confirm(t6, shown) == t6.(state := Completed)
  {
  }

  /** An attachment completes only when a look at the page finds the file it reserved there. */
  lemma CompletedWasShown(s: Composer, a: Action, i: nat)
    requires Enabled(s, a) && i < |s.tasks|
    ensures |s.tasks| <= |Step(s, a).tasks|
    ensures Step(s, a).tasks[i].state.Completed? && !s.tasks[i].state.Completed? ==>
              && s.tasks[i].state.Settling? && s.tasks[i].fileId != ""
              && (a.Scan? || a.Sweep?) && s.tasks[i].fileId in a.shown
  {
    hide PendingHeld, InStatus, Timers;
  }

  /** A rescan that finds the file of a settling attachment completes it and takes it out of the map. */
  lemma ScanCompletes(s: Composer, i: nat, shown: set<FileId>)
    requires Enabled(s, Scan(i, shown)) && s.tasks[i].state.Settling? && !s.tasks[i].cancelled
    requires s.tasks[i].fileId != "" && s.tasks[i].fileId in shown
    ensures var r := Step(s, Scan(i, shown));
            r.tasks == s.tasks[i := s.tasks[i].(state := Completed)] && r.held == s.held - {i}
  {
  }

  /** A routine that returns is due to be dropped from the map, unless it leaves its task to settle; then the timer
      drops it. */
  lemma ReturnedIsDropped(s: Composer, i: nat, step: TaskStep)
    requires Enabled(s, Upload(i, step)) && !s.tasks[i].await.Done? && StepTask(s.tasks[i], step).await.Done?
    ensures var r := Step(s, Upload(i, step));
            if r.tasks[i].state.Settling? then r.timers == s.timers
            else Enabled(r, Timer(i)) && Step(r, Timer(i)).held == s.held - {i}
  {
    hide StepTask, CanStep;
  }

  // ------------------------------------------------------------------ the program

  class UploadTask {
    const createdAt: int
    var state: Status
    var cancelled: bool
    var released: bool
    var fileId: FileId
    ghost var complete: bool
    var stored: bool
    var await: Await
    var fileDeletes: nat
    var reservationDeletes: nat

    ghost function View(): Task
      reads this
    {
      Task(createdAt, state, cancelled, released, fileId, complete, stored, await, fileDeletes, reservationDeletes)
    }

    constructor (now: int)
      ensures View() == Task(now, Preparing, false, false, "", false, false, Preparation, 0, 0)
    {
      createdAt, state, cancelled, released := now, Preparing, false, false;
      fileId, complete, stored, await, fileDeletes, reservationDeletes := "", false, false, Preparation, 0, 0;
    }

    method DeleteCompleted(id: FileId)
      modifies this`fileDeletes
      ensures fileDeletes == old(fileDeletes) + Deletion(id)
    {
      if id == "" { return; }
      fileDeletes := fileDeletes + 1;
    }

    method CancelDeferredUpload()
      modifies this
      ensures View() == Cancel(old(View()))
      ensures cancelled || state.Completed? || state.Failed?
    {
      if cancelled || state.Completed? || state.Failed? { return; }
      var completedFileId := if stored then fileId else "";
      cancelled := true;
      state := Cancelled;
      released := true;
      DeleteCompleted(completedFileId);
    }

    /** Inside a pass over a snapshot: complete the task if the page shows it, or go on waiting for it. */
    method TrySettle(shown: set<FileId>) returns (completed: bool, waits: bool)
      modifies this
      ensures View() == Confirm(old(View()), shown)
      ensures completed <==> old(state).Settling? && !state.Settling?
      ensures waits <==> state.Settling?
    {
      completed, waits := false, false;
      if !state.Settling? { return; }
      if fileId != "" && fileId in shown {
        state := Completed;
        completed := true;
      } else {
        waits := true;
      }
    }

    method FailSettling()
      requires state.Settling?
      modifies this
      ensures View() == GiveUp(old(View()))
    {
      state := Failed;
      DeleteCompleted(fileId);
    }

    /** The staging routine, one segment between two awaits at a time. */
    method Resume(step: TaskStep)
      requires CanStep(View(), step)
      modifies this
      ensures View() == StepTask(old(View()), step)
      ensures old(TaskInv(View())) ==> Evolves(old(View()), View())
    {
      if TaskInv(View()) { StepTaskEvolves(View(), step); }
      match step {
        case Prepare =>
          if cancelled { await := Done; return; }
          state := Prepared;
          await := Gate;
        case Open =>
          if cancelled { await := Done; return; }
          state := Uploading;
          await := Presign;
        case Reserve(id) =>
          fileId := id;
          await := Transfer;
        case Complete =>
          complete := true;
        case Store =>
          stored := true;
          state := Staging;
          await := Stage;
        case Return =>
          await := Done;
          if cancelled { return; }
          state := Settling;
        case Fail =>
          reservationDeletes := reservationDeletes + 1;
          await := Release;
        case Throw(abort) =>
          await := Done;
          if cancelled || abort { state := Cancelled; return; }
          state := Failed;
        case Remove =>
          CancelDeferredUpload();
      }
    }
  }

  ghost function LeftSettling(was: seq<Task>, now: seq<Task>, among: set<nat>, n: nat): set<nat>
    requires n <= |was| == |now|
  {
    set j | j in among && j < n && was[j].state.Settling? && !now[j].state.Settling?
  }

  ghost predicate StillSettling(now: seq<Task>, among: set<nat>, n: nat)
    requires n <= |now|
  {
    exists j :: j in among && j < n && now[j].state.Settling?
  }

  lemma SettlingNext(was: seq<Task>, now: seq<Task>, among: set<nat>, n: nat)
    requires n < |was| == |now|
    ensures LeftSettling(was, now, among, n + 1) == LeftSettling(was, now, among, n) +
              if n in among && was[n].state.Settling? && !now[n].state.Settling? then {n} else {}
    ensures StillSettling(now, among, n + 1) <==> StillSettling(now, among, n) || (n in among && now[n].state.Settling?)
  {
  }

  lemma AgedAt(was: seq<Task>, held: set<nat>, now: int)
    ensures |AgedOut(was, held, now)| == |was|
    ensures forall i :: 0 <= i < |was| ==>
      AgedOut(was, held, now)[i] == if i in held && TooOld(was[i], now) then Cancel(was[i]) else was[i]
  {
  }

  lemma SweptAt(was: seq<Task>, snapshot: set<nat>, shown: set<FileId>)
    ensures |Swept(was, snapshot, shown)| == |was|
    ensures forall i :: 0 <= i < |was| ==>
      && Swept(was, snapshot, shown)[i] == (if i in snapshot then Confirm(was[i], shown) else was[i])
      && (Swept(was, snapshot, shown)[i].state.Settling? ==> was[i].state.Settling?)
  {
  }

  lemma GivenUpAt(was: seq<Task>, snapshot: set<nat>)
    ensures |GivenUp(was, snapshot)| == |was|
    ensures forall i :: 0 <= i < |was| ==>
      && GivenUp(was, snapshot)[i] == (if i in snapshot && was[i].state.Settling? then GiveUp(was[i]) else was[i])
      && (i in snapshot ==> !GivenUp(was, snapshot)[i].state.Settling?)
    ensures LeftSettling(was, GivenUp(was, snapshot), snapshot, |was|) == InStatus(was, snapshot, Settling)
  {
  }

  class ComposerUploads {
    var tasks: seq<UploadTask>
    var held: set<nat>

    ghost predicate Valid()
      reads this
    {
      && (forall i, j :: 0 <= i < j < |tasks| ==> tasks[i] != tasks[j])
      && (forall i :: i in held ==> i < |tasks|)
    }

    ghost function Tasks(): (r: seq<Task>)
      reads this, tasks
      ensures |r| == |tasks| && forall i :: 0 <= i < |tasks| ==> r[i] == tasks[i].View()
    {
      seq(|tasks|, i requires 0 <= i < |tasks| reads this, tasks => tasks[i].View())
    }

    constructor ()
      ensures Valid() && Tasks() == [] && held == {}
    {
      tasks, held := [], {};
    }

    method StageDeferredComposerUpload(now: int, aborted: bool)
      requires Valid()
      modifies this
      ensures Valid() && Tasks() == old(Tasks()) + [Staged(now, aborted)] && held == old(held) + {|old(tasks)|}
    {
      var task := new UploadTask(now);
      if aborted { task.CancelDeferredUpload(); }
      held := held + {|tasks|};
      task.released := true;
      tasks := tasks + [task];
    }

    /** The first loop of a flush: uploads past the age limit are cancelled. */
    method AgeOut(now: int)
      requires Valid()
      modifies tasks
      ensures Tasks() == AgedOut(old(Tasks()), held, now)
    {
      hide Cancel, AgedOut;
      ghost var was := Tasks();
      ghost var aged := AgedOut(was, held, now);
      AgedAt(was, held, now);
      for i := 0 to |tasks|
        invariant forall j :: i <= j < |tasks| ==> tasks[j].View() == was[j]
        invariant forall j :: 0 <= j < i ==> tasks[j].View() == aged[j]
      {
        if i in held && !tasks[i].cancelled && now - tasks[i].createdAt > MAX_AGE_MS {
          tasks[i].CancelDeferredUpload();
        }
      }
      assert Tasks() == aged;
    }

    /** The pending uploads of the map, as a flush takes them and as the submit handler asks for them. */
    method PendingUploads() returns (snapshot: set<nat>)
      requires Valid()
      ensures snapshot == PendingHeld(Tasks(), held)
    {
      snapshot := {};
      for i := 0 to |tasks|
        invariant snapshot == set j | j in PendingHeld(Tasks(), held) && j < i
      {
        if i in held && !tasks[i].cancelled && !tasks[i].state.Completed? && !tasks[i].state.Failed? {
          snapshot := snapshot + {i};
        }
      }
    }

    /** One pass over the snapshot: what the page shows is completed and dropped from the map. */
    method SettleSweep(snapshot: set<nat>, shown: set<FileId>) returns (pending: bool)
      requires Valid()
      modifies this`held, tasks
      ensures Valid() && Tasks() == Swept(old(Tasks()), snapshot, shown)
      ensures held == old(held) - (InStatus(old(Tasks()), snapshot, Settling) - InStatus(Tasks(), snapshot, Settling))
      ensures pending <==> InStatus(Tasks(), snapshot, Settling) != {}
    {
      hide Swept, Confirm, InStatus;
      pending := false;
      ghost var was := Tasks();
      ghost var swept := Swept(was, snapshot, shown);
      ghost var gone: set<nat> := {};
      SweptAt(was, snapshot, shown);
      for i := 0 to |tasks|
        invariant forall j :: i <= j < |tasks| ==> tasks[j].View() == was[j]
        invariant forall j :: 0 <= j < i ==> tasks[j].View() == swept[j]
        invariant held == old(held) - gone && gone == LeftSettling(was, swept, snapshot, i)
        invariant pending <==> StillSettling(swept, snapshot, i)
      {
        var completed, waits := false, false;
        if i in snapshot {
          completed, waits := tasks[i].TrySettle(shown);
        }
        if completed {
          held := held - {i};
          gone := gone + {i};
        }
        pending := pending || waits;
        SettlingNext(was, swept, snapshot, i);
      }
      assert Tasks() == swept;
      SettlingMembers(was, swept, snapshot);
    }

    /** Past the deadline, whatever still settles has failed and its stored file is deleted. */
    method GiveUpSettling(snapshot: set<nat>)
      requires Valid()
      modifies this`held, tasks
      ensures Valid() && Tasks() == GivenUp(old(Tasks()), snapshot)
      ensures held == old(held) - InStatus(old(Tasks()), snapshot, Settling)
    {
      hide GivenUp, GiveUp, InStatus;
      ghost var was := Tasks();
      ghost var done := GivenUp(was, snapshot);
      ghost var gone: set<nat> := {};
      GivenUpAt(was, snapshot);
      for i := 0 to |tasks|
        invariant forall j :: i <= j < |tasks| ==> tasks[j].View() == was[j]
        invariant forall j :: 0 <= j < i ==> tasks[j].View() == done[j]
        invariant held == old(held) - gone && gone == LeftSettling(was, done, snapshot, i)
      {
        if i in snapshot && tasks[i].state.Settling? {
          tasks[i].FailSettling();
          held := held - {i};
          gone := gone + {i};
        }
        SettlingNext(was, done, snapshot, i);
      }
      assert Tasks() == done;
    }
  }

  lemma SettlingMembers(was: seq<Task>, swept: seq<Task>, snapshot: set<nat>)
    requires |swept| == |was| && forall j :: 0 <= j < |was| && swept[j].state.Settling? ==> was[j].state.Settling?
    ensures InStatus(was, snapshot, Settling) - InStatus(swept, snapshot, Settling) ==
            LeftSettling(was, swept, snapshot, |was|)
    ensures InStatus(swept, snapshot, Settling) != {} <==> StillSettling(swept, snapshot, |was|)
  {
    if StillSettling(swept, snapshot, |was|) {
      var j :| j in snapshot && j < |was| && swept[j].state.Settling?;
      assert j in InStatus(swept, snapshot, Settling);
    }
    if InStatus(swept, snapshot, Settling) != {} {
      var j :| j in InStatus(swept, snapshot, Settling);
    }
  }
}
