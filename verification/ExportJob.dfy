/** The export job, its expiry timers and the sync gate (backend/internal/api/detail.go:
    startDetail, expireDetail, detailCancel; backend/internal/api/detailsync.go: syncGate,
    tickDetailSync).  Every block under the job's mutex is one step. */
module ExportJob {

  type Dir = string

  datatype Phase = Idle | Syncing | Writing | Done | Failed | Canceled | Expired

  /** What runDetail returns: the files and their directory, or an error and nothing else. */
  datatype RunResult = Finished(files: seq<string>, dir: Dir) | Broken

  datatype Job = Job(id: nat, running: bool, canceled: bool, phase: Phase, files: seq<string>, dir: Dir)

  function StartJob(j: Job, id: nat): Job {
    if j.running then j else Job(id, true, false, Syncing, [], "")
  }

  function FinishJob(j: Job, r: RunResult, ctxCanceled: bool): Job {
    match r
    case Finished(files, dir) => j.(running := false, files := files, dir := dir, phase := Done)
    case Broken =>
      j.(running := false, files := [], dir := "", phase := if j.canceled || ctxCanceled then Canceled else Failed)
  }

  function ExpireJob(j: Job, id: nat): Job {
    if j.id == id && !j.running && j.dir != "" then j.(dir := "", files := [], phase := Expired) else j
  }

  class DetailJob {
    var id: nat
    var running: bool
    var canceled: bool
    var phase: Phase
    var files: seq<string>
    var dir: Dir

    ghost function View(): Job
      reads this
    {
      Job(id, running, canceled, phase, files, dir)
    }

    constructor ()
      ensures View() == Job(0, false, false, Idle, [], "")
    {
      id, running, canceled, phase, files, dir := 0, false, false, Idle, [], "";
    }

    /** Starts a job unless one is running; `stale` is the directory to delete afterwards. */
    method Start(newId: nat) returns (ok: bool, stale: Dir)
      modifies this
      ensures View() == StartJob(old(View()), newId)
      ensures ok == !old(running) && stale == if ok then old(dir) else ""
      ensures ok ==> id == newId && running && !canceled && phase == Syncing && files == [] && dir == ""
      ensures !ok ==> View() == old(View())
    {
      if running {
        return false, "";
      }
      stale := dir;
      id, running, canceled := newId, true, false;
      phase, files, dir := Syncing, [], "";
      ok := true;
    }

    method SetWriting()
      modifies `phase
      ensures phase == Writing
    {
      phase := Writing;
    }

    method Finish(r: RunResult, ctxCanceled: bool)
      modifies this
      ensures View() == FinishJob(old(View()), r, ctxCanceled)
      ensures !running && id == old(id) && canceled == old(canceled)
      ensures r.Finished? ==> phase == Done && files == r.files && dir == r.dir
      ensures r.Broken? ==>
        phase == (if old(canceled) || ctxCanceled then Phase.Canceled else Failed) && files == [] && dir == ""
    {
      running := false;
      if r.Finished? {
        files, dir := r.files, r.dir;
        phase := Done;
      } else {
        files, dir := [], "";
        phase := if canceled || ctxCanceled then Phase.Canceled else Failed;
      }
    }

    /** The delayed expiry of job `which`; `removed` is the directory it deletes. */
    method Expire(which: nat) returns (removed: Dir)
      modifies this
      ensures View() == ExpireJob(old(View()), which)
      ensures removed == if View() == old(View()) then "" else old(dir)
      ensures id == which && !running && old(dir) != "" ==>
        phase == Expired && files == [] && dir == "" && removed == old(dir)
      ensures old(id) != which || old(running) || old(dir) == "" ==> View() == old(View())
    {
      if id == which && !running && dir != "" {
        removed := dir;
        dir, files, phase := "", [], Expired;
      } else {
        removed := "";
      }
    }

    method Cancel() returns (ok: bool)
      modifies `canceled
      ensures ok == running && canceled == (if running then true else old(canceled))
    {
      if !running {
        return false;
      }
      canceled := true;
      return true;
    }
  }

  // ---------------------------------------------------------------- the system

  /** Where an export goroutine stands. */
  datatype Stage =
    | Begun                    // not yet holding the gate
    | InSync                   // holding the gate
    | Creating                 // holding the gate, in phase write, before its directory exists
    | InWrite(dir: Dir)        // holding the gate and writing into its directory
    | Returned(r: RunResult)   // gate released, before the finishing block

  predicate HoldsGate(st: Stage) {
    st.InSync? || st.Creating? || st.InWrite?
  }

  /** `held` counts the tokens in the gate's channel of capacity 1; `auto` says whether the
      background sync runs; `doomed` holds old directories about to be deleted; `timers`
      the ids with a pending expiry; `used` all ids handed out. */
  datatype System = System(job: Job, tasks: map<nat, Stage>, held: nat, auto: bool, disk: set<Dir>, doomed: set<Dir>,
                           timers: multiset<nat>, used: set<nat>)

  datatype Event =
    | Start(id: nat)
    | RemoveOld(dir: Dir)
    | Acquire(id: nat)
    | NoGate(id: nat)
    | Synced(id: nat)
    | Mkdir(id: nat, dir: Dir)
    | Fail(id: nat)
    | Wrote(id: nat, files: seq<string>)
    | Finish(id: nat, ctxCanceled: bool)
    | Cancel
    | Timer(id: nat)
    | AutoTry
    | AutoDone

  ghost predicate Enabled(s: System, ev: Event) {
    match ev
    case Start(id) => id !in s.used
    case RemoveOld(dir) => dir in s.doomed
    case Acquire(id) => id in s.tasks && s.tasks[id] == Begun && s.held < 1
    case NoGate(id) => id in s.tasks && s.tasks[id] == Begun
    case Synced(id) => id in s.tasks && s.tasks[id] == InSync
    case Mkdir(id, dir) => id in s.tasks && s.tasks[id] == Creating && dir != "" && dir !in s.disk
    case Fail(id) => id in s.tasks && HoldsGate(s.tasks[id])
    case Wrote(id, files) => id in s.tasks && s.tasks[id].InWrite? && files != []
    case Finish(id, _) => id in s.tasks && s.tasks[id].Returned?
    case Cancel => true
    case Timer(id) => id in s.timers
    case AutoTry => !s.auto && s.held < 1
    case AutoDone => s.auto && s.held > 0
  }

  ghost function Apply(s: System, ev: Event): System
    requires Enabled(s, ev)
  {
    match ev
    case Start(id) =>
      if s.job.running then s.(used := s.used + {id})
      else s.(job := StartJob(s.job, id), tasks := s.tasks[id := Begun], used := s.used + {id},
              doomed := if s.job.dir != "" then s.doomed + {s.job.dir} else s.doomed)
    case RemoveOld(dir) => s.(disk := s.disk - {dir}, doomed := s.doomed - {dir})
    case Acquire(id) => s.(tasks := s.tasks[id := InSync], held := s.held + 1)
    case NoGate(id) => s.(tasks := s.tasks[id := Returned(Broken)])
    case Synced(id) => s.(tasks := s.tasks[id := Creating], job := s.job.(phase := Writing))
    case Mkdir(id, dir) => s.(tasks := s.tasks[id := InWrite(dir)], disk := s.disk + {dir})
    case Fail(id) =>
      s.(tasks := s.tasks[id := Returned(Broken)], held := if s.held > 0 then s.held - 1 else 0,
         disk := if s.tasks[id].InWrite? then s.disk - {s.tasks[id].dir} else s.disk)
    case Wrote(id, files) =>
      s.(tasks := s.tasks[id := Returned(Finished(files, s.tasks[id].dir))],
         held := if s.held > 0 then s.held - 1 else 0)
    case Finish(id, ctxCanceled) =>
      var j := FinishJob(s.job, s.tasks[id].r, ctxCanceled);
      s.(job := j, tasks := map o | o in s.tasks && o != id :: s.tasks[o],
         timers := if j.phase == Done then s.timers + multiset{id} else s.timers)
    case Cancel => if s.job.running then s.(job := s.job.(canceled := true)) else s
    case Timer(id) =>
      var j := ExpireJob(s.job, id);
      s.(job := j, timers := s.timers - multiset{id}, disk := if j == s.job then s.disk else s.disk - {s.job.dir})
    case AutoTry => s.(auto := true, held := s.held + 1)
    case AutoDone => s.(auto := false, held := s.held - 1)
  }

  /** The directory a task has on disk. */
  function TaskDir(st: Stage): Dir {
    match st
    case InWrite(dir) => dir
    case Returned(Finished(_, dir)) => dir
    case _ => ""
  }

  ghost predicate JobWellFormed(j: Job) {
    && (j.running ==> (j.phase == Syncing || j.phase == Writing) && j.files == [] && j.dir == "")
    && (!j.running ==> j.phase != Syncing && j.phase != Writing)
    && (j.files != [] <==> j.phase == Done) && (j.dir != "" <==> j.phase == Done)
  }

  /** The only live task is the running job's. */
  ghost predicate OneTask(s: System) {
    && (forall id :: id in s.tasks ==> id == s.job.id && s.job.running)
    && (s.job.running ==> s.job.id in s.tasks)
    && (s.job.running && s.tasks[s.job.id].Returned? && s.tasks[s.job.id].r.Finished? ==>
          s.tasks[s.job.id].r.files != [] && s.tasks[s.job.id].r.dir != "")
    && (s.job.running && s.tasks[s.job.id].InWrite? ==> s.tasks[s.job.id].dir != "")
  }

  /** The gate's token count is the number of its holders. */
  ghost predicate GateCounts(s: System) {
    && s.held == (if s.auto then 1 else 0)
       + (if s.job.running && s.job.id in s.tasks && HoldsGate(s.tasks[s.job.id]) then 1 else 0)
    && s.held <= 1
  }

  /** Every directory on disk belongs to the finished job, to the running task, or is about
      to be deleted. */
  ghost predicate NoLeak(s: System) {
    && (forall d :: d in s.disk <==>
          && d != ""
          && (d in s.doomed || d == s.job.dir
              || (s.job.running && s.job.id in s.tasks && d == TaskDir(s.tasks[s.job.id]))))
    && "" !in s.doomed && s.job.dir !in s.doomed
    && (s.job.running && s.job.id in s.tasks ==> TaskDir(s.tasks[s.job.id]) !in s.doomed)
  }

  ghost predicate IdsUsed(s: System) {
    && (forall id :: id in s.timers ==> id in s.used)
    && (s.job.id == 0 || s.job.id in s.used) && 0 in s.used
    && (s.job.phase == Done ==> s.job.id in s.timers)
  }

  ghost predicate Inv(s: System) {
    JobWellFormed(s.job) && OneTask(s) && GateCounts(s) && NoLeak(s) && IdsUsed(s)
  }

  lemma StartKeeps(s: System, id: nat)
    requires Inv(s) && Enabled(s, Start(id))
    ensures Inv(Apply(s, Start(id)))
  {
  }

  lemma RemoveOldKeeps(s: System, dir: Dir)
    requires Inv(s) && Enabled(s, RemoveOld(dir))
    ensures Inv(Apply(s, RemoveOld(dir)))
  {
  }

  lemma AcquireKeeps(s: System, id: nat)
    requires Inv(s) && Enabled(s, Acquire(id))
    ensures Inv(Apply(s, Acquire(id)))
  {
  }

  lemma NoGateKeeps(s: System, id: nat)
    requires Inv(s) && Enabled(s, NoGate(id))
    ensures Inv(Apply(s, NoGate(id)))
  {
  }

  lemma SyncedKeeps(s: System, id: nat)
    requires Inv(s) && Enabled(s, Synced(id))
    ensures Inv(Apply(s, Synced(id)))
  {
  }

  lemma MkdirKeeps(s: System, id: nat, dir: Dir)
    requires Inv(s) && Enabled(s, Mkdir(id, dir))
    ensures Inv(Apply(s, Mkdir(id, dir)))
  {
  }

  lemma FailKeeps(s: System, id: nat)
    requires Inv(s) && Enabled(s, Fail(id))
    ensures Inv(Apply(s, Fail(id)))
  {
  }

  lemma WroteKeeps(s: System, id: nat, files: seq<string>)
    requires Inv(s) && Enabled(s, Wrote(id, files))
    ensures Inv(Apply(s, Wrote(id, files)))
  {
  }

  lemma FinishKeeps(s: System, id: nat, ctxCanceled: bool)
    requires Inv(s) && Enabled(s, Finish(id, ctxCanceled))
    ensures Inv(Apply(s, Finish(id, ctxCanceled)))
  {
  }

  lemma TimerKeeps(s: System, id: nat)
    requires Inv(s) && Enabled(s, Timer(id))
    ensures Inv(Apply(s, Timer(id)))
  {
  }

  /** Every step keeps the invariant; Cancel, AutoTry and AutoDone touch a flag or the gate only. */
  lemma StepKeeps(s: System, ev: Event)
    requires Inv(s) && Enabled(s, ev)
    ensures Inv(Apply(s, ev))
    ensures s.used <= Apply(s, ev).used
  {
    match ev {
      case Start(id) => StartKeeps(s, id);
      case RemoveOld(dir) => RemoveOldKeeps(s, dir);
      case Acquire(id) => AcquireKeeps(s, id);
      case NoGate(id) => NoGateKeeps(s, id);
      case Synced(id) => SyncedKeeps(s, id);
      case Mkdir(id, dir) => MkdirKeeps(s, id, dir);
      case Fail(id) => FailKeeps(s, id);
      case Wrote(id, files) => WroteKeeps(s, id, files);
      case Finish(id, ctxCanceled) => FinishKeeps(s, id, ctxCanceled);
      case Cancel =>
      case Timer(id) => TimerKeeps(s, id);
      case AutoTry =>
      case AutoDone =>
    }
  }

  // ---------------------------------------------------------------- all histories

  ghost predicate Legal(s: System, evs: seq<Event>)
    decreases |evs|
  {
    evs == [] || (Enabled(s, evs[0]) && Legal(Apply(s, evs[0]), evs[1..]))
  }

  ghost function Run(s: System, evs: seq<Event>): System
    requires Legal(s, evs)
    decreases |evs|
  {
    if evs == [] then s else Run(Apply(s, evs[0]), evs[1..])
  }

  const BOOT := System(Job(0, false, false, Idle, [], ""), map[], 0, false, {}, {}, multiset{}, {0})

  lemma {:induction false} HistoryKeeps(s: System, evs: seq<Event>)
    requires Inv(s) && Legal(s, evs)
    ensures Inv(Run(s, evs))
    decreases |evs|
  {
    if evs != [] {
      StepKeeps(s, evs[0]);
      HistoryKeeps(Apply(s, evs[0]), evs[1..]);
    }
  }

  /** In every reachable state at most one task, export or background sync, holds the gate. */
  lemma GateIsExclusive(evs: seq<Event>)
    requires Legal(BOOT, evs)
    ensures var s := Run(BOOT, evs);
      && (forall a, b :: a in s.tasks && b in s.tasks && HoldsGate(s.tasks[a]) && HoldsGate(s.tasks[b]) ==> a == b)
      && (forall a :: a in s.tasks && HoldsGate(s.tasks[a]) ==> !s.auto && s.held == 1)
      && s.held <= 1
  {
    HistoryKeeps(BOOT, evs);
  }

  /** In every reachable state files and a directory are present exactly in phase done; a
      running job is syncing or writing and has none. */
  lemma FilesExactlyWhenDone(evs: seq<Event>)
    requires Legal(BOOT, evs)
    ensures var j := Run(BOOT, evs).job;
      && (j.files != [] <==> j.phase == Done) && (j.dir != "" <==> j.phase == Done)
      && (j.running <==> j.phase == Syncing || j.phase == Writing)
  {
    HistoryKeeps(BOOT, evs);
  }

  /** No directory outlives its owner: once nothing runs and old directories are deleted,
      the disk holds the finished job's directory and nothing else. */
  lemma NothingLeaks(evs: seq<Event>)
    requires Legal(BOOT, evs)
    ensures var s := Run(BOOT, evs);
      !s.job.running && s.doomed == {} ==> s.disk == if s.job.phase == Done then {s.job.dir} else {}
  {
    HistoryKeeps(BOOT, evs);
    var s := Run(BOOT, evs);
    if !s.job.running && s.doomed == {} {
      assert forall d :: d in s.disk <==> d in (if s.job.phase == Done then {s.job.dir} else {});
    }
  }

  /** An id that is no longer the job's never becomes the job's again. */
  lemma {:induction false} IdNeverReturns(s: System, id: nat, evs: seq<Event>)
    requires Inv(s) && Legal(s, evs) && id in s.used && s.job.id != id
    ensures Run(s, evs).job.id != id
    decreases |evs|
  {
    if evs != [] {
      StepKeeps(s, evs[0]);
      IdNeverReturns(Apply(s, evs[0]), id, evs[1..]);
    }
  }

  /** The expiry timer of an old job never touches a newer one: after any history that
      starts another job, it changes neither the job nor the disk. */
  lemma OldTimerIsHarmless(before: seq<Event>, oldId: nat, newId: nat, after: seq<Event>)
    requires Legal(BOOT, before)
    requires var s := Run(BOOT, before); oldId in s.timers && !s.job.running && Enabled(s, Start(newId))
    requires Legal(Apply(Run(BOOT, before), Start(newId)), after)
    requires Enabled(Run(Apply(Run(BOOT, before), Start(newId)), after), Timer(oldId))
    ensures var s := Run(Apply(Run(BOOT, before), Start(newId)), after);
      Apply(s, Timer(oldId)).job == s.job && Apply(s, Timer(oldId)).disk == s.disk
  {
    var s := Run(BOOT, before);
    HistoryKeeps(BOOT, before);
    StepKeeps(s, Start(newId));
    IdNeverReturns(Apply(s, Start(newId)), oldId, after);
  }

  /** As long as a job's files are there, its timer is pending: none are kept for good. */
  lemma FilesWillExpire(evs: seq<Event>)
    requires Legal(BOOT, evs)
    ensures var s := Run(BOOT, evs); s.job.files != [] ==> Enabled(s, Timer(s.job.id))
  {
    HistoryKeeps(BOOT, evs);
  }

  /** A job's own timer, when it fires while the job is still the last one, deletes the
      files that are still there and says so. */
  lemma OwnTimerExpires(evs: seq<Event>, id: nat)
    requires Legal(BOOT, evs) && Enabled(Run(BOOT, evs), Timer(id))
    requires Run(BOOT, evs).job.id == id && Run(BOOT, evs).job.phase == Done
    ensures var s, s' := Run(BOOT, evs), Apply(Run(BOOT, evs), Timer(id));
      s'.job.phase == Expired && s'.job.files == [] && s.job.dir in s.disk && s.job.dir !in s'.disk
  {
    HistoryKeeps(BOOT, evs);
  }

  // ---------------------------------------------------------------- how a run ends

  /** The jobs that an event cancels: the running one, or one whose context was done at the end. */
  ghost function Cancels(s: System, ev: Event): set<nat> {
    match ev
    case Cancel => if s.job.running then {s.job.id} else {}
    case Finish(id, ctxCanceled) => if ctxCanceled then {id} else {}
    case _ => {}
  }

  ghost function CanceledIn(s: System, evs: seq<Event>): set<nat>
    requires Legal(s, evs)
    decreases |evs|
  {
    if evs == [] then {} else Cancels(s, evs[0]) + CanceledIn(Apply(s, evs[0]), evs[1..])
  }

  predicate BrokenIn(past: seq<Event>, id: nat) {
    NoGate(id) in past || Fail(id) in past
  }

  /** What the running task holds comes from its own events. */
  ghost predicate StageFrom(past: seq<Event>, id: nat, st: Stage) {
    match st
    case InWrite(dir) => Mkdir(id, dir) in past && !BrokenIn(past, id)
    case Returned(Finished(files, dir)) =>
      Wrote(id, files) in past && Mkdir(id, dir) in past && !BrokenIn(past, id)
    case Returned(Broken) => BrokenIn(past, id)
    case _ => !BrokenIn(past, id)
  }

  /** How the job ended comes from the events of its own run; `canceled` are the jobs canceled so far. */
  ghost predicate EndedFrom(past: seq<Event>, canceled: set<nat>, j: Job) {
    match j.phase
    case Done => Wrote(j.id, j.files) in past && Mkdir(j.id, j.dir) in past && !BrokenIn(past, j.id)
    case Canceled => BrokenIn(past, j.id) && j.id in canceled
    case Failed => BrokenIn(past, j.id) && j.id !in canceled
    case Idle => past == [] || !BrokenIn(past, j.id)
    case _ => !BrokenIn(past, j.id) || j.running
  }

  ghost predicate Recorded(s: System, past: seq<Event>, canceled: set<nat>) {
    && (s.job.running ==> s.job.id in s.tasks && StageFrom(past, s.job.id, s.tasks[s.job.id]))
    && (s.job.running ==> (s.job.canceled <==> s.job.id in canceled))
    && (s.job.running ==> s.job.phase == if Synced(s.job.id) in past then Writing else Syncing)
    && (!s.job.running ==> EndedFrom(past, canceled, s.job))
    && (forall id :: id in canceled ==> id in s.used)
    && (forall id :: BrokenIn(past, id) || Synced(id) in past ==> id in s.used)
    && (forall id :: id in s.tasks ==> id in s.used)
  }

  lemma Snoc(past: seq<Event>, ev: Event)
    ensures forall e :: e in past + [ev] <==> e in past || e == ev
  {
  }

  lemma RunningRecords(s: System, past: seq<Event>, canceled: set<nat>, ev: Event)
    requires Inv(s) && Enabled(s, ev) && Recorded(s, past, canceled)
    requires ev.Acquire? || ev.NoGate? || ev.Synced? || ev.Mkdir? || ev.Fail? || ev.Wrote?
    ensures Recorded(Apply(s, ev), past + [ev], canceled + Cancels(s, ev))
  {
    Snoc(past, ev);
    assert ev.id == s.job.id && s.job.running;
  }

  lemma FinishRecords(s: System, past: seq<Event>, canceled: set<nat>, id: nat, ctxCanceled: bool)
    requires var ev := Finish(id, ctxCanceled); Inv(s) && Enabled(s, ev) && Recorded(s, past, canceled)
    ensures var ev := Finish(id, ctxCanceled); Recorded(Apply(s, ev), past + [ev], canceled + Cancels(s, ev))
  {
    Snoc(past, Finish(id, ctxCanceled));
    assert id == s.job.id && s.job.running;
  }

  lemma StartRecords(s: System, past: seq<Event>, canceled: set<nat>, id: nat)
    requires Inv(s) && Enabled(s, Start(id)) && Recorded(s, past, canceled)
    ensures Recorded(Apply(s, Start(id)), past + [Start(id)], canceled + Cancels(s, Start(id)))
  {
    Snoc(past, Start(id));
  }

  lemma CancelRecords(s: System, past: seq<Event>, canceled: set<nat>)
    requires Inv(s) && Recorded(s, past, canceled)
    ensures Recorded(Apply(s, Cancel), past + [Cancel], canceled + Cancels(s, Cancel))
  {
    Snoc(past, Cancel);
  }

  lemma TimerRecords(s: System, past: seq<Event>, canceled: set<nat>, id: nat)
    requires Inv(s) && Enabled(s, Timer(id)) && Recorded(s, past, canceled)
    ensures Recorded(Apply(s, Timer(id)), past + [Timer(id)], canceled + Cancels(s, Timer(id)))
  {
    Snoc(past, Timer(id));
  }

  /** Steps that touch neither the job nor a task. */
  lemma OthersRecord(s: System, past: seq<Event>, canceled: set<nat>, ev: Event)
    requires Enabled(s, ev) && Recorded(s, past, canceled) && (ev.RemoveOld? || ev.AutoTry? || ev.AutoDone?)
    ensures Recorded(Apply(s, ev), past + [ev], canceled + Cancels(s, ev))
  {
    Snoc(past, ev);
  }

  lemma StepRecords(s: System, past: seq<Event>, canceled: set<nat>, ev: Event)
    requires Inv(s) && Enabled(s, ev) && Recorded(s, past, canceled)
    ensures Recorded(Apply(s, ev), past + [ev], canceled + Cancels(s, ev))
  {
    match ev {
      case Start(id) => StartRecords(s, past, canceled, id);
      case Finish(id, ctxCanceled) => FinishRecords(s, past, canceled, id, ctxCanceled);
      case RemoveOld(_) => OthersRecord(s, past, canceled, ev);
      case Cancel => CancelRecords(s, past, canceled);
      case Timer(id) => TimerRecords(s, past, canceled, id);
      case AutoTry => OthersRecord(s, past, canceled, ev);
      case AutoDone => OthersRecord(s, past, canceled, ev);
      case _ => RunningRecords(s, past, canceled, ev);
    }
  }

  lemma {:induction false} HistoryRecords(s: System, past: seq<Event>, canceled: set<nat>, evs: seq<Event>)
    requires Inv(s) && Legal(s, evs) && Recorded(s, past, canceled)
    ensures Recorded(Run(s, evs), past + evs, canceled + CanceledIn(s, evs))
    decreases |evs|
  {
    if evs == [] {
      assert past + evs == past;
    } else {
      StepKeeps(s, evs[0]);
      StepRecords(s, past, canceled, evs[0]);
      HistoryRecords(Apply(s, evs[0]), past + [evs[0]], canceled + Cancels(s, evs[0]), evs[1..]);
      assert past + [evs[0]] + evs[1..] == past + evs;
    }
  }

  /** After any history: a running job is writing once its sync is over; one in phase done has
      the files that its own run wrote, all of them, in the directory that its own run made; and
      a run that broke off is canceled if and only if the job was canceled while it ran or its
      context was done at the end, and has failed otherwise. */
  lemma EndsAsItsRun(evs: seq<Event>)
    requires Legal(BOOT, evs)
    ensures var j := Run(BOOT, evs).job;
      && (j.phase == Done ==> Wrote(j.id, j.files) in evs && Mkdir(j.id, j.dir) in evs)
      && (j.running ==> j.phase == if Synced(j.id) in evs then Writing else Syncing)
      && (!j.running && BrokenIn(evs, j.id) ==>
            j.phase == if j.id in CanceledIn(BOOT, evs) then Phase.Canceled else Failed)
      && (j.phase == Phase.Canceled || j.phase == Failed ==> BrokenIn(evs, j.id))
  {
    HistoryKeeps(BOOT, []);
    HistoryRecords(BOOT, [], {}, evs);
    HistoryKeeps(BOOT, evs);
    assert [] + evs == evs && {} + CanceledIn(BOOT, evs) == CanceledIn(BOOT, evs);
  }

  // ---------------------------------------------------------------- the object in the system

  /** Lets the object take the step of an event: its fields are the system's, and what it hands
      out to be deleted are the directories that the system gives up. */
  method Perform(j: DetailJob, tasks: map<nat, Stage>, ev: Event, ghost s: System) returns (removed: Dir)
    requires Inv(s) && Enabled(s, ev) && j.View() == s.job && tasks == s.tasks
    modifies j
    ensures j.View() == Apply(s, ev).job
    ensures ev.Start? && removed != "" ==> removed in Apply(s, ev).doomed
    ensures ev.Timer? ==> Apply(s, ev).disk == s.disk - {removed}
    ensures !ev.Start? && !ev.Timer? ==> removed == ""
  {
    removed := "";
    match ev {
      case Start(id) =>
        var ok;
        ok, removed := j.Start(id);
      case Synced(_) =>
        j.SetWriting();
      case Finish(id, ctxCanceled) =>
        j.Finish(tasks[id].r, ctxCanceled);
      case Cancel =>
        var ok := j.Cancel();
      case Timer(id) =>
        removed := j.Expire(id);
      case _ =>
    }
  }
}
