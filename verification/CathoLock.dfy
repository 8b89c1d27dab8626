/**
 * The Catho state-file lock: any number of processes interleaving single file-system calls
 * on a lock file and a takeover file. Modification times and `now` come from one clock.
 */
module CathoLock {
  import opened Wrappers

  type Pid = nat

  /** An owner token and a modification time. */
  datatype File = File(token: nat, mtime: int)

  /** The next file-system call of `acquireLock`. */
  datatype AcquireStage =
    | TryCreate
    | Stat
    | TryTakeover
    | StatTakeover
    | RemoveTakeover
    | RetryTakeover
    | Recheck
    | Remove
    | Recreate
    | Drop(won: Option<int>)

  /** The next file-system call of `refreshLock`. */
  datatype RefreshStage = BeginTouch | CheckOwner | Touch | EndTouch(kept: bool)

  /** The next file-system call of `releaseLock`. */
  datatype ReleaseStage = BeginRemove | CheckToken | RemoveOwn | EndRemove

  /**
   * Where a process stands. `since` is the modification time it last gave its lock file,
   * `now` the clock reading its current call started from.
   */
  datatype Proc =
    | Acquiring(token: nat, now: int, stage: AcquireStage)
    | Holder(token: nat, since: int)
    | Refreshing(token: nat, since: int, now: int, step: RefreshStage)
    | Lost(token: nat)
    | Releasing(token: nat, left: ReleaseStage)

  datatype Sys = Sys(
    lock: Option<File>,
    takeover: Option<File>,
    procs: map<Pid, Proc>,
    clock: int,
    nextToken: nat)

  datatype Event =
    | Tick(ms: nat)
    | Start(pid: Pid)
    | BeginRefresh(pid: Pid)
    | BeginRelease(pid: Pid)
    | Step(pid: Pid)
    | Die(pid: Pid)

  function Initial(clock: int): Sys {
    Sys(None, None, map[], clock, 0)
  }

  predicate Enabled(s: Sys, e: Event) {
    match e
    case Tick(_) => true
    case Start(pid) => pid !in s.procs
    case BeginRefresh(pid) => pid in s.procs && s.procs[pid].Holder?
    case BeginRelease(pid) => pid in s.procs && (s.procs[pid].Holder? || s.procs[pid].Lost?)
    case Step(pid) => pid in s.procs && !s.procs[pid].Holder? && !s.procs[pid].Lost?
    case Die(pid) => pid in s.procs
  }

  function Become(s: Sys, pid: Pid, p: Proc): Sys {
    s.(procs := s.procs[pid := p])
  }

  function Gone(s: Sys, pid: Pid): Sys {
    s.(procs := s.procs - {pid})
  }

  /** One file-system call of `acquireLock`. */
  function StepAcquire(stale: int, s: Sys, pid: Pid): Sys
    requires pid in s.procs && s.procs[pid].Acquiring?
  {
    var p := s.procs[pid];
    match p.stage
    case TryCreate =>
      if s.lock.None?
      then Become(s, pid, Holder(p.token, s.clock)).(lock := Some(File(p.token, s.clock)))
      else Become(s, pid, p.(stage := Stat))
    case Stat =>
      if s.lock.None? || p.now - s.lock.value.mtime <= stale then Gone(s, pid)
      else Become(s, pid, p.(stage := TryTakeover))
    case TryTakeover =>
      if s.takeover.None?
      then Become(s, pid, p.(stage := Recheck)).(takeover := Some(File(p.token, s.clock)))
      else Become(s, pid, p.(stage := StatTakeover))
    case StatTakeover =>
      if s.takeover.None? || p.now - s.takeover.value.mtime <= stale then Gone(s, pid)
      else Become(s, pid, p.(stage := RemoveTakeover))
    case RemoveTakeover =>
      if s.takeover.None? then Gone(s, pid)
      else Become(s, pid, p.(stage := RetryTakeover)).(takeover := None)
    case RetryTakeover =>
      if s.takeover.None?
      then Become(s, pid, p.(stage := Recheck)).(takeover := Some(File(p.token, s.clock)))
      else Gone(s, pid)
    case Recheck =>
      if s.lock.None? then Become(s, pid, p.(stage := Recreate))
      else if p.now - s.lock.value.mtime <= stale then Become(s, pid, p.(stage := Drop(None)))
      else Become(s, pid, p.(stage := Remove))
    case Remove =>
      if s.lock.None? then Become(s, pid, p.(stage := Drop(None)))
      else Become(s, pid, p.(stage := Recreate)).(lock := None)
    case Recreate =>
      if s.lock.None?
      then Become(s, pid, p.(stage := Drop(Some(s.clock)))).(lock := Some(File(p.token, s.clock)))
      else Become(s, pid, p.(stage := Drop(None)))
    case Drop(won) =>
      (if won.Some? then Become(s, pid, Holder(p.token, won.value)) else Gone(s, pid)).(takeover := None)
  }

  /** One file-system call of `refreshLock`. */
  function StepRefresh(s: Sys, pid: Pid): Sys
    requires pid in s.procs && s.procs[pid].Refreshing?
  {
    var p := s.procs[pid];
    match p.step
    case BeginTouch =>
      if s.takeover.None?
      then Become(s, pid, p.(step := CheckOwner)).(takeover := Some(File(p.token, s.clock)))
      else Become(s, pid, Lost(p.token))
    case CheckOwner =>
      if s.lock.Some? && s.lock.value.token == p.token then Become(s, pid, p.(step := Touch))
      else Become(s, pid, p.(step := EndTouch(false)))
    case Touch =>
      if s.lock.None? then Become(s, pid, p.(step := EndTouch(false)))
      else Become(s, pid, p.(step := EndTouch(true))).(lock := Some(s.lock.value.(mtime := p.now)))
    case EndTouch(kept) =>
      Become(s, pid, if kept then Holder(p.token, p.now) else Lost(p.token)).(takeover := None)
  }

  /** One file-system call of `releaseLock`. */
  function StepRelease(s: Sys, pid: Pid): Sys
    requires pid in s.procs && s.procs[pid].Releasing?
  {
    var p := s.procs[pid];
    match p.left
    case BeginRemove =>
      if s.takeover.None?
      then Become(s, pid, p.(left := CheckToken)).(takeover := Some(File(p.token, s.clock)))
      else Gone(s, pid)
    case CheckToken =>
      Become(s, pid, p.(left := if s.lock.Some? && s.lock.value.token == p.token then RemoveOwn else EndRemove))
    case RemoveOwn => Become(s, pid, p.(left := EndRemove)).(lock := None)
    case EndRemove => Gone(s, pid).(takeover := None)
  }

  function Do(stale: int, s: Sys, e: Event): Sys
    requires Enabled(s, e)
  {
    match e
    case Tick(ms) => s.(clock := s.clock + ms)
    case Start(pid) =>
      Become(s, pid, Acquiring(s.nextToken, s.clock, TryCreate)).(nextToken := s.nextToken + 1)
    case BeginRefresh(pid) =>
      Become(s, pid, Refreshing(s.procs[pid].token, s.procs[pid].since, s.clock, BeginTouch))
    case BeginRelease(pid) => Become(s, pid, Releasing(s.procs[pid].token, BeginRemove))
    case Step(pid) =>
      if s.procs[pid].Acquiring? then StepAcquire(stale, s, pid)
      else if s.procs[pid].Refreshing? then StepRefresh(s, pid)
      else StepRelease(s, pid)
    case Die(pid) => Gone(s, pid)
  }

  // ----- runs

  ghost predicate Feasible(stale: int, s: Sys, es: seq<Event>)
    decreases |es|, 0
  {
    es == [] ||
    (var before := es[..|es| - 1];
     Feasible(stale, s, before) && Enabled(After(stale, s, before), es[|es| - 1]))
  }

  ghost function After(stale: int, s: Sys, es: seq<Event>): Sys
    requires Feasible(stale, s, es)
    decreases |es|, 1
  {
    if es == [] then s
    else Do(stale, After(stale, s, es[..|es| - 1]), es[|es| - 1])
  }

  lemma Extend(stale: int, s: Sys, es: seq<Event>, e: Event)
    requires Feasible(stale, s, es) && Enabled(After(stale, s, es), e)
    ensures Feasible(stale, s, es + [e])
    ensures After(stale, s, es + [e]) == Do(stale, After(stale, s, es), e)
  {
  }

  // ----- what holds on every run

  predicate HoldsTakeover(p: Proc) {
    match p
    case Acquiring(_, _, stage) => stage.Recheck? || stage.Remove? || stage.Recreate? || stage.Drop?
    case Refreshing(_, _, _, step) => !step.BeginTouch?
    case Releasing(_, left) => !left.BeginRemove?
    case _ => false
  }

  /** A contender removes, as stale, the takeover file of a process that is still working under it. */
  ghost predicate Steals(s: Sys, e: Event) {
    && e.Step? && e.pid in s.procs
    && s.procs[e.pid].Acquiring? && s.procs[e.pid].stage == RemoveTakeover
    && s.takeover.Some? && exists q :: q in s.procs && HoldsTakeover(s.procs[q])
  }

  ghost predicate NeverSteals(stale: int, s: Sys, es: seq<Event>)
    requires Feasible(stale, s, es)
    decreases |es|
  {
    es == [] ||
    (var before := es[..|es| - 1];
     NeverSteals(stale, s, before) && !Steals(After(stale, s, before), es[|es| - 1]))
  }

  /** The process believes it holds the lock, on the strength of a file dated `LeaseDate`. */
  predicate HasLease(p: Proc) {
    || p.Holder?
    || (p.Refreshing? && p.step != EndTouch(false))
    || (p.Acquiring? && p.stage.Drop? && p.stage.won.Some?)
  }

  function LeaseDate(p: Proc): int
    requires HasLease(p)
  {
    match p
    case Holder(_, since) => since
    case Refreshing(_, since, now, step) => if step == EndTouch(true) then now else since
    case Acquiring(_, _, stage) => stage.won.value
  }

  predicate Unexpired(stale: int, s: Sys, pid: Pid) {
    pid in s.procs && HasLease(s.procs[pid]) && s.clock - LeaseDate(s.procs[pid]) <= stale
  }

  ghost predicate TokensDistinct(s: Sys) {
    && (forall p :: p in s.procs ==> s.procs[p].token < s.nextToken)
    && (forall p, q :: p in s.procs && q in s.procs && p != q ==> s.procs[p].token != s.procs[q].token)
    && (s.lock.Some? ==> s.lock.value.token < s.nextToken)
  }

  predicate Dated(clock: int, p: Proc) {
    && ((p.Acquiring? || p.Refreshing?) ==> p.now <= clock)
    && (HasLease(p) ==> LeaseDate(p) <= clock)
  }

  /** What a process in the middle of a call has checked and nobody else can change. */
  predicate Checked(stale: int, lock: Option<File>, p: Proc) {
    && (p.Acquiring? && p.stage == Remove ==> lock.Some? && p.now - lock.value.mtime > stale)
    && (p.Refreshing? && p.step == Touch ==> lock.Some? && lock.value.token == p.token)
    && (p.Releasing? && p.left == RemoveOwn ==> lock.Some? && lock.value.token == p.token)
  }

  /**
   * What one process can rely on: its dates are not in the future, its checks still hold,
   * the takeover file it works under is its own, and an unexpired lease is backed by the
   * lock file, token and date.
   */
  predicate Sound(stale: int, lock: Option<File>, takeover: Option<File>, clock: int, p: Proc) {
    && Dated(clock, p)
    && Checked(stale, lock, p)
    && (HoldsTakeover(p) ==> takeover.Some? && takeover.value.token == p.token)
    && (HasLease(p) && clock - LeaseDate(p) <= stale ==> lock == Some(File(p.token, LeaseDate(p))))
  }

  ghost predicate Inv(stale: int, s: Sys) {
    && TokensDistinct(s)
    && (forall p :: p in s.procs ==> Sound(stale, s.lock, s.takeover, s.clock, s.procs[p]))
  }

  /**
   * All a single call of process `p` can do to the two files: nothing, take or drop its own
   * takeover file, remove one nobody is working under, create the lock, or, under its own
   * takeover file, touch the lock it owns or remove a lock that is its own or has gone
   * unrefreshed for too long.
   */
  ghost predicate Change(stale: int, s: Sys, p: Proc, lock: Option<File>, takeover: Option<File>) {
    || (lock == s.lock && takeover == s.takeover)
    || (lock == s.lock && s.takeover.None? && takeover.Some? && takeover.value.token == p.token)
    || (lock == s.lock && takeover.None? && HoldsTakeover(p))
    || (lock == s.lock && takeover.None? && forall q :: q in s.procs ==> !HoldsTakeover(s.procs[q]))
    || (takeover == s.takeover && s.lock.None? && lock == Some(File(p.token, s.clock)))
    || (takeover == s.takeover && HoldsTakeover(p) && s.lock.Some? && s.lock.value.token == p.token
        && lock.Some? && lock.value.token == p.token)
    || (takeover == s.takeover && HoldsTakeover(p) && s.lock.Some? && lock.None?
        && (s.lock.value.token == p.token || s.clock - s.lock.value.mtime > stale))
  }

  /** No such call disturbs what another process relies on. */
  lemma OthersUndisturbed(stale: int, s: Sys, p: Pid, q: Pid, lock: Option<File>, takeover: Option<File>)
    requires Inv(stale, s) && p in s.procs && q in s.procs && p != q
    requires Change(stale, s, s.procs[p], lock, takeover)
    ensures Sound(stale, lock, takeover, s.clock, s.procs[q])
  {
    assert Sound(stale, s.lock, s.takeover, s.clock, s.procs[q]);
  }

  /** The effect of one call: a permitted change, and the caller is sound or gone. */
  ghost predicate StepsTo(stale: int, s: Sys, pid: Pid, t: Sys)
    requires pid in s.procs
  {
    && t.clock == s.clock && t.nextToken == s.nextToken
    && Change(stale, s, s.procs[pid], t.lock, t.takeover)
    && (t.procs == s.procs - {pid}
        || (pid in t.procs && t.procs == s.procs[pid := t.procs[pid]]
            && t.procs[pid].token == s.procs[pid].token
            && Sound(stale, t.lock, t.takeover, t.clock, t.procs[pid])))
  }

  predicate UnderTakeover(stage: AcquireStage) {
    stage.Recheck? || stage.Remove? || stage.Recreate? || stage.Drop?
  }

  lemma ContenderSteps(stale: int, s: Sys, pid: Pid)
    requires 0 <= stale && pid in s.procs && s.procs[pid].Acquiring?
    requires Sound(stale, s.lock, s.takeover, s.clock, s.procs[pid])
    requires !UnderTakeover(s.procs[pid].stage) && s.procs[pid].stage != RemoveTakeover
    ensures StepsTo(stale, s, pid, StepAcquire(stale, s, pid))
  {
  }

  lemma SoundEach(stale: int, s: Sys, pid: Pid)
    requires Inv(stale, s) && pid in s.procs
    ensures Sound(stale, s.lock, s.takeover, s.clock, s.procs[pid])
  {
  }

  lemma RecoverySteps(stale: int, s: Sys, pid: Pid)
    requires Inv(stale, s) && !Steals(s, Step(pid))
    requires pid in s.procs && s.procs[pid].Acquiring? && s.procs[pid].stage == RemoveTakeover
    ensures StepsTo(stale, s, pid, StepAcquire(stale, s, pid))
  {
    assert Sound(stale, s.lock, s.takeover, s.clock, s.procs[pid]);
    hide Inv;
  }

  lemma TakeoverSteps(stale: int, s: Sys, pid: Pid)
    requires Inv(stale, s)
    requires pid in s.procs && s.procs[pid].Acquiring? && UnderTakeover(s.procs[pid].stage)
    ensures StepsTo(stale, s, pid, StepAcquire(stale, s, pid))
  {
    assert Sound(stale, s.lock, s.takeover, s.clock, s.procs[pid]);
    hide Inv;
  }

  lemma RefreshSteps(stale: int, s: Sys, pid: Pid)
    requires Inv(stale, s) && pid in s.procs && s.procs[pid].Refreshing?
    ensures StepsTo(stale, s, pid, StepRefresh(s, pid))
  {
    assert Sound(stale, s.lock, s.takeover, s.clock, s.procs[pid]);
    hide Inv;
  }

  lemma ReleaseSteps(stale: int, s: Sys, pid: Pid)
    requires Inv(stale, s) && pid in s.procs && s.procs[pid].Releasing?
    ensures StepsTo(stale, s, pid, StepRelease(s, pid))
  {
  }

  lemma CallSteps(stale: int, s: Sys, pid: Pid)
    requires Inv(stale, s) && !Steals(s, Step(pid)) && Enabled(s, Step(pid)) && 0 <= stale
    ensures StepsTo(stale, s, pid, Do(stale, s, Step(pid)))
  {
    hide Inv, Sound, StepsTo, Steals, StepAcquire, StepRefresh, StepRelease;
    SoundEach(stale, s, pid);
    if s.procs[pid].Acquiring? {
      if UnderTakeover(s.procs[pid].stage) {
        TakeoverSteps(stale, s, pid);
      } else if s.procs[pid].stage == RemoveTakeover {
        RecoverySteps(stale, s, pid);
      } else {
        ContenderSteps(stale, s, pid);
      }
    } else if s.procs[pid].Refreshing? {
      RefreshSteps(stale, s, pid);
    } else {
      ReleaseSteps(stale, s, pid);
    }
  }

  lemma LockTokenKnown(stale: int, s: Sys, pid: Pid, t: Sys)
    requires TokensDistinct(s) && pid in s.procs && StepsTo(stale, s, pid, t)
    ensures t.lock.Some? ==> t.lock.value.token < t.nextToken
  {
  }

  lemma InvAfterCall(stale: int, s: Sys, pid: Pid, t: Sys)
    requires Inv(stale, s) && pid in s.procs && StepsTo(stale, s, pid, t)
    ensures Inv(stale, t)
  {
    hide Sound, Change;
    LockTokenKnown(stale, s, pid, t);
    forall q | q in s.procs && q != pid
      ensures Sound(stale, t.lock, t.takeover, s.clock, s.procs[q])
    {
      OthersUndisturbed(stale, s, pid, q, t.lock, t.takeover);
    }
  }

  lemma InvBetweenCalls(stale: int, s: Sys, e: Event)
    requires Inv(stale, s) && Enabled(s, e) && !e.Step?
    ensures Inv(stale, Do(stale, s, e))
  {
    var t := Do(stale, s, e);
    forall q | q in t.procs
      ensures Sound(stale, t.lock, t.takeover, t.clock, t.procs[q])
    {
      if q in s.procs {
        assert Sound(stale, s.lock, s.takeover, s.clock, s.procs[q]);
      }
    }
  }

  lemma StepKeepsInv(stale: int, s: Sys, e: Event)
    requires 0 <= stale && Inv(stale, s) && Enabled(s, e) && !Steals(s, e)
    ensures Inv(stale, Do(stale, s, e))
  {
    hide Inv, Steals;
    if e.Step? {
      CallSteps(stale, s, e.pid);
      InvAfterCall(stale, s, e.pid, Do(stale, s, e));
    } else {
      InvBetweenCalls(stale, s, e);
    }
  }

  lemma {:induction false} InvFrom(stale: int, s: Sys, es: seq<Event>)
    requires 0 <= stale && Inv(stale, s) && Feasible(stale, s, es) && NeverSteals(stale, s, es)
    ensures Inv(stale, After(stale, s, es))
  {
    hide Inv, Steals;
    if es != [] {
      var before := es[..|es| - 1];
      var e := es[|es| - 1];
      InvFrom(stale, s, before);
      StepKeepsInv(stale, After(stale, s, before), e);
    }
  }

  lemma InvAlways(stale: int, clock: int, es: seq<Event>)
    requires 0 <= stale && Feasible(stale, Initial(clock), es) && NeverSteals(stale, Initial(clock), es)
    ensures Inv(stale, After(stale, Initial(clock), es))
  {
    InvFrom(stale, Initial(clock), es);
  }

  lemma {:induction false} Prefix(stale: int, s: Sys, es: seq<Event>, k: nat)
    requires Feasible(stale, s, es) && k <= |es|
    ensures Feasible(stale, s, es[..k])
    ensures NeverSteals(stale, s, es) ==> NeverSteals(stale, s, es[..k])
  {
    if k < |es| {
      Prefix(stale, s, es[..|es| - 1], k);
      assert es[..|es| - 1][..k] == es[..k];
    } else {
      assert es[..k] == es;
    }
  }

  // ----- the theorems

  /** Two processes never both believe in an unexpired lease, whatever interleaves or dies. */
  lemma UnexpiredLeasesExclude(stale: int, clock: int, es: seq<Event>, p: Pid, q: Pid)
    requires 0 <= stale && Feasible(stale, Initial(clock), es) && NeverSteals(stale, Initial(clock), es)
    requires var s := After(stale, Initial(clock), es); Unexpired(stale, s, p) && Unexpired(stale, s, q)
    ensures p == q
  {
    InvAlways(stale, clock, es);
    var s := After(stale, Initial(clock), es);
    assert Sound(stale, s.lock, s.takeover, s.clock, s.procs[p]);
    assert Sound(stale, s.lock, s.takeover, s.clock, s.procs[q]);
  }

  /**
   * How a lock file can go: its own token's `releaseLock` removes it, or a contender that
   * holds the takeover file and has rechecked it as unrefreshed for more than `stale`.
   */
  lemma OnlyOwnerOrTakeoverRemoves(stale: int, clock: int, es: seq<Event>, e: Event)
    requires 0 <= stale && Feasible(stale, Initial(clock), es) && NeverSteals(stale, Initial(clock), es)
    requires Enabled(After(stale, Initial(clock), es), e)
    requires var s := After(stale, Initial(clock), es);
             s.lock.Some? && (var t := Do(stale, s, e); t.lock.None? || t.lock.value.token != s.lock.value.token)
    ensures var s := After(stale, Initial(clock), es);
            && e.Step?
            && var p := s.procs[e.pid];
               && s.takeover.Some? && s.takeover.value.token == p.token
               && (|| (p.Releasing? && p.token == s.lock.value.token)
                   || (p.Acquiring? && p.now - s.lock.value.mtime > stale && p.now <= s.clock))
  {
    InvAlways(stale, clock, es);
    var s := After(stale, Initial(clock), es);
    if e.Step? {
      assert Sound(stale, s.lock, s.takeover, s.clock, s.procs[e.pid]);
    }
  }

  /**
   * An owner whose lock has been replaced changes neither the replacement's existence nor
   * its date: no step of a process past `acquireLock` alters a lock of another token.
   */
  lemma DisplacedOwnerIsHarmless(stale: int, clock: int, es: seq<Event>, pid: Pid)
    requires 0 <= stale && Feasible(stale, Initial(clock), es) && NeverSteals(stale, Initial(clock), es)
    requires var s := After(stale, Initial(clock), es);
             Enabled(s, Step(pid)) && !s.procs[pid].Acquiring?
             && s.lock.Some? && s.lock.value.token != s.procs[pid].token
    ensures var s := After(stale, Initial(clock), es);
            var t := Do(stale, s, Step(pid));
            t.lock == s.lock && (pid in t.procs && s.procs[pid].Refreshing? && s.procs[pid].step == CheckOwner ==>
                                   t.procs[pid].step == EndTouch(false))
  {
    InvAlways(stale, clock, es);
    var s := After(stale, Initial(clock), es);
    assert Sound(stale, s.lock, s.takeover, s.clock, s.procs[pid]);
  }

  /** The lock is left alone, or a lock of this very token is removed. */
  ghost predicate OwnAtMost(s: Sys, t: Sys, token: nat) {
    t.lock == s.lock || (s.lock.Some? && s.lock.value.token == token && t.lock.None?)
  }

  /** Every call `pid` makes from position `from` of the log on is a call of one `releaseLock`. */
  ghost predicate OnlyReleases(stale: int, clock: int, log: seq<Event>, from: nat, pid: Pid, token: nat) {
    forall k :: from <= k < |log| && log[k] == Step(pid) ==>
                  && Feasible(stale, Initial(clock), log[..k])
                  && var s := After(stale, Initial(clock), log[..k]);
                     pid in s.procs && s.procs[pid].Releasing? && s.procs[pid].token == token
  }

  lemma ReleasesOnlyItsOwn(stale: int, clock: int, log: seq<Event>, from: nat, pid: Pid, token: nat)
    requires 0 <= stale && Feasible(stale, Initial(clock), log) && NeverSteals(stale, Initial(clock), log)
    requires OnlyReleases(stale, clock, log, from, pid, token)
    ensures forall k :: from <= k < |log| && log[k] == Step(pid) ==>
                          && Feasible(stale, Initial(clock), log[..k])
                          && var s := After(stale, Initial(clock), log[..k]);
                             Enabled(s, Step(pid)) && OwnAtMost(s, Do(stale, s, Step(pid)), token)
  {
    forall k | from <= k < |log| && log[k] == Step(pid)
      ensures Feasible(stale, Initial(clock), log[..k])
      ensures var s := After(stale, Initial(clock), log[..k]);
              Enabled(s, Step(pid)) && OwnAtMost(s, Do(stale, s, Step(pid)), token)
    {
      Prefix(stale, Initial(clock), log, k);
      InvAlways(stale, clock, log[..k]);
      var s := After(stale, Initial(clock), log[..k]);
      assert Sound(stale, s.lock, s.takeover, s.clock, s.procs[pid]);
    }
  }

  lemma OnlyReleasesMore(stale: int, clock: int, log: seq<Event>, from: nat, pid: Pid, token: nat, e: Event)
    requires OnlyReleases(stale, clock, log, from, pid, token) && Feasible(stale, Initial(clock), log)
    requires e == Step(pid) && from <= |log| ==>
               var s := After(stale, Initial(clock), log);
               pid in s.procs && s.procs[pid].Releasing? && s.procs[pid].token == token
    ensures OnlyReleases(stale, clock, log + [e], from, pid, token)
  {
    var longer := log + [e];
    forall k | from <= k < |longer| && longer[k] == Step(pid)
      ensures Feasible(stale, Initial(clock), longer[..k])
      ensures var s := After(stale, Initial(clock), longer[..k]);
              pid in s.procs && s.procs[pid].Releasing? && s.procs[pid].token == token
    {
      assert longer[..k] == log[..k];
      assert k == |log| ==> log[..k] == log;
    }
  }

  lemma {:induction false} OnlyReleasesLonger(stale: int, clock: int, log: seq<Event>, longer: seq<Event>,
                                              from: nat, pid: Pid, token: nat)
    requires OnlyReleases(stale, clock, log, from, pid, token) && log <= longer
    requires forall k :: |log| <= k < |longer| ==> longer[k] != Step(pid)
    ensures OnlyReleases(stale, clock, longer, from, pid, token)
  {
    forall k | from <= k < |longer| && longer[k] == Step(pid)
      ensures Feasible(stale, Initial(clock), longer[..k])
      ensures var s := After(stale, Initial(clock), longer[..k]);
              pid in s.procs && s.procs[pid].Releasing? && s.procs[pid].token == token
    {
      assert longer[..k] == log[..k];
    }
  }

  // ----- the condition is exact

  /** `es` leads from `s` to `t` without a stealing step. */
  ghost predicate Leads(stale: int, s: Sys, es: seq<Event>, t: Sys) {
    Feasible(stale, s, es) && NeverSteals(stale, s, es) && After(stale, s, es) == t
  }

  lemma Start0(stale: int, s: Sys)
    ensures Leads(stale, s, [], s)
  {
  }

  lemma Go(stale: int, s: Sys, es: seq<Event>, t: Sys, e: Event)
    requires Leads(stale, s, es, t) && Enabled(t, e) && !Steals(t, e)
    ensures Leads(stale, s, es + [e], Do(stale, t, e))
  {
    assert (es + [e])[..|es|] == es;
  }

  /** The call that takes the takeover file away again, whoever it belongs to by now. */
  predicate AtLastCall(p: Proc) {
    || (p.Acquiring? && p.stage.Drop?)
    || (p.Refreshing? && p.step.EndTouch?)
    || (p.Releasing? && p.left.EndRemove?)
  }

  function CallsLeft(p: Proc): nat {
    match p
    case Acquiring(_, _, stage) =>
      if stage.Recheck? then 3 else if stage.Remove? then 2 else if stage.Recreate? then 1 else 0
    case Refreshing(_, _, _, step) => if step.CheckOwner? then 2 else if step.Touch? then 1 else 0
    case Releasing(_, left) => if left.CheckToken? then 2 else if left.RemoveOwn? then 1 else 0
    case _ => 0
  }

  lemma OneCallOn(stale: int, s: Sys, h: Pid)
    requires h in s.procs && HoldsTakeover(s.procs[h]) && !AtLastCall(s.procs[h])
    ensures var t := Do(stale, s, Step(h));
            && t.takeover == s.takeover && h in t.procs && HoldsTakeover(t.procs[h])
            && CallsLeft(t.procs[h]) < CallsLeft(s.procs[h])
  {
  }

  /** A process that works under the takeover file gets to its last call by its own steps. */
  lemma {:induction false} FinishWork(stale: int, s: Sys, es: seq<Event>, t: Sys, h: Pid)
    returns (longer: seq<Event>, u: Sys)
    requires Leads(stale, s, es, t) && h in t.procs && HoldsTakeover(t.procs[h]) && t.takeover.None?
    ensures Leads(stale, s, longer, u) && u.takeover.None?
    ensures h in u.procs && HoldsTakeover(u.procs[h]) && AtLastCall(u.procs[h])
    decreases CallsLeft(t.procs[h])
  {
    hide Leads, Do;
    if AtLastCall(t.procs[h]) {
      longer, u := es, t;
    } else {
      OneCallOn(stale, t, h);
      Go(stale, s, es, t, Step(h));
      longer, u := FinishWork(stale, s, es + [Step(h)], Do(stale, t, Step(h)), h);
    }
  }

  lemma {:induction false} FreePid(pids: set<Pid>) returns (free: Pid)
    ensures forall p :: p in pids ==> p < free
  {
    if pids == {} {
      free := 0;
    } else {
      var p :| p in pids;
      free := FreePid(pids - {p});
      assert pids == (pids - {p}) + {p};
      if free <= p {
        free := p + 1;
      }
    }
  }

  /** There is a lock file, and it is older than the bound. */
  predicate LockStale(stale: int, s: Sys) {
    s.lock.Some? && s.clock - s.lock.value.mtime > stale
  }

  lemma AgeTheLock(stale: int, s: Sys, es: seq<Event>, t: Sys) returns (longer: seq<Event>, u: Sys)
    requires Leads(stale, s, es, t) && t.takeover.None?
    ensures Leads(stale, s, longer, u) && u.takeover.None? && LockStale(stale, u)
    ensures forall p :: p in t.procs ==> p in u.procs && u.procs[p] == t.procs[p]
  {
    hide Leads;
    longer, u := es, t;
    if t.lock.None? {
      var z := FreePid(t.procs.Keys);
      Go(stale, s, longer, u, Start(z));
      longer, u := longer + [Start(z)], Do(stale, u, Start(z));
      Go(stale, s, longer, u, Step(z));
      longer, u := longer + [Step(z)], Do(stale, u, Step(z));
    }
    var age := stale + 1 + u.lock.value.mtime - u.clock;
    var ms: nat := if age > 0 then age else 0;
    Go(stale, s, longer, u, Tick(ms));
    longer, u := longer + [Tick(ms)], Do(stale, u, Tick(ms));
  }

  /** A newcomer finds the stale lock, takes the takeover file and is about to remove the lock. */
  lemma Contend(stale: int, s: Sys, es: seq<Event>, t: Sys, c: Pid) returns (longer: seq<Event>, u: Sys)
    requires Leads(stale, s, es, t) && t.takeover.None? && LockStale(stale, t) && c !in t.procs
    ensures Leads(stale, s, longer, u)
    ensures u.lock == t.lock && u.clock == t.clock
    ensures u.procs == t.procs[c := Acquiring(t.nextToken, t.clock, Remove)]
  {
    hide Leads;
    var u0 := Do(stale, t, Start(c));
    Go(stale, s, es, t, Start(c));
    var u1 := Do(stale, u0, Step(c));
    Go(stale, s, es + [Start(c)], u0, Step(c));
    assert u1.procs == t.procs[c := Acquiring(t.nextToken, t.clock, Stat)];
    var u2 := Do(stale, u1, Step(c));
    Go(stale, s, es + [Start(c)] + [Step(c)], u1, Step(c));
    assert u2.procs == t.procs[c := Acquiring(t.nextToken, t.clock, TryTakeover)];
    var u3 := Do(stale, u2, Step(c));
    Go(stale, s, es + [Start(c)] + [Step(c)] + [Step(c)], u2, Step(c));
    assert u3.procs == t.procs[c := Acquiring(t.nextToken, t.clock, Recheck)];
    Go(stale, s, es + [Start(c)] + [Step(c)] + [Step(c)] + [Step(c)], u3, Step(c));
    longer, u := es + [Start(c)] + [Step(c)] + [Step(c)] + [Step(c)] + [Step(c)], Do(stale, u3, Step(c));
  }

  /** About to remove the lock it found, a contender ends up with a lease dated now. */
  lemma Replace(stale: int, s: Sys, es: seq<Event>, t: Sys, c: Pid) returns (longer: seq<Event>, u: Sys)
    requires Leads(stale, s, es, t) && t.lock.Some?
    requires c in t.procs && t.procs[c].Acquiring? && t.procs[c].stage == Remove
    ensures Leads(stale, s, longer, u)
    ensures u.lock.Some? && u.clock == t.clock
    ensures u.procs == t.procs[c := t.procs[c].(stage := Drop(Some(t.clock)))]
  {
    hide Leads;
    var u0 := Do(stale, t, Step(c));
    Go(stale, s, es, t, Step(c));
    assert u0.procs == t.procs[c := t.procs[c].(stage := Recreate)];
    Go(stale, s, es + [Step(c)], u0, Step(c));
    longer, u := es + [Step(c)] + [Step(c)], Do(stale, u0, Step(c));
  }

  lemma TakeItAway(stale: int, s: Sys, es: seq<Event>, t: Sys, h: Pid) returns (longer: seq<Event>, u: Sys)
    requires Leads(stale, s, es, t)
    requires h in t.procs && HoldsTakeover(t.procs[h]) && AtLastCall(t.procs[h])
    ensures Leads(stale, s, longer, u)
    ensures u.takeover.None? && u.lock == t.lock && u.clock == t.clock
    ensures forall p :: p != h ==> (p in u.procs <==> p in t.procs)
    ensures forall p :: p != h && p in t.procs ==> u.procs[p] == t.procs[p]
  {
    hide Leads;
    Go(stale, s, es, t, Step(h));
    longer, u := es + [Step(h)], Do(stale, t, Step(h));
  }

  ghost predicate Exclusive(stale: int, s: Sys) {
    forall p, q :: Unexpired(stale, s, p) && Unexpired(stale, s, q) ==> p == q
  }

  /** A process whose takeover file is gone can take the next one away too. */
  lemma TwoLeases(stale: int, s: Sys, h: Pid) returns (es: seq<Event>, t: Sys)
    requires 0 <= stale && h in s.procs && HoldsTakeover(s.procs[h]) && s.takeover.None?
    ensures Leads(stale, s, es, t) && !Exclusive(stale, t)
  {
    hide Leads, Do, HoldsTakeover, AtLastCall;
    Start0(stale, s);
    es, t := FinishWork(stale, s, [], s, h);
    es, t := AgeTheLock(stale, s, es, t);
    var a := FreePid(t.procs.Keys);
    es, t := Contend(stale, s, es, t, a);
    es, t := TakeItAway(stale, s, es, t, h);
    var b := FreePid(t.procs.Keys + {a});
    es, t := Contend(stale, s, es, t, b);
    es, t := Replace(stale, s, es, t, a);
    es, t := Replace(stale, s, es, t, b);
    assert Unexpired(stale, t, a) && Unexpired(stale, t, b);
  }

  lemma ExclusiveFrom(stale: int, s: Sys, es: seq<Event>, t: Sys)
    requires 0 <= stale && Inv(stale, s) && Leads(stale, s, es, t)
    ensures Exclusive(stale, t)
  {
    InvFrom(stale, s, es);
    forall p, q | Unexpired(stale, t, p) && Unexpired(stale, t, q)
      ensures p == q
    {
      assert Sound(stale, t.lock, t.takeover, t.clock, t.procs[p]);
      assert Sound(stale, t.lock, t.takeover, t.clock, t.procs[q]);
    }
  }

  /**
   * After a step that steals the takeover file two unexpired leases are reachable without any
   * further stealing; after any other step they are not.
   */
  lemma ExclusionExactly(stale: int, clock: int, es: seq<Event>, e: Event)
    requires 0 <= stale && Feasible(stale, Initial(clock), es) && NeverSteals(stale, Initial(clock), es)
    requires Enabled(After(stale, Initial(clock), es), e)
    ensures var s := After(stale, Initial(clock), es);
            !Steals(s, e) <==>
            (forall more, t :: Leads(stale, Do(stale, s, e), more, t) ==> Exclusive(stale, t))
  {
    InvAlways(stale, clock, es);
    var s := After(stale, Initial(clock), es);
    var u := Do(stale, s, e);
    hide Inv, Leads;
    if Steals(s, e) {
      var h :| h in s.procs && HoldsTakeover(s.procs[h]);
      assert h in u.procs && u.procs[h] == s.procs[h];
      var more, t := TwoLeases(stale, u, h);
    } else {
      StepKeepsInv(stale, s, e);
      forall more, t | Leads(stale, u, more, t)
        ensures Exclusive(stale, t)
      {
        ExclusiveFrom(stale, u, more, t);
      }
    }
  }

  // ----- and it is needed: a run that steals

  lemma Follow(stale: int, clock: int, es: seq<Event>, e: Event) returns (longer: seq<Event>, t: Sys)
    requires Feasible(stale, Initial(clock), es) && Enabled(After(stale, Initial(clock), es), e)
    ensures longer == es + [e] && Feasible(stale, Initial(clock), longer)
    ensures t == After(stale, Initial(clock), longer) == Do(stale, After(stale, Initial(clock), es), e)
  {
    Extend(stale, Initial(clock), es, e);
    longer := es + [e];
    t := After(stale, Initial(clock), longer);
  }

  lemma AbandonedLock() returns (es: seq<Event>, s: Sys)
    ensures Feasible(10, Initial(0), es) && s == After(10, Initial(0), es)
    ensures s == Sys(Some(File(0, 0)), None, map[], 20, 1)
  {
    es := [];
    assert Feasible(10, Initial(0), es) && After(10, Initial(0), es) == Initial(0);
    hide Feasible, After;
    es, s := Follow(10, 0, es, Start(0));
    assert s == Sys(None, None, map[0 := Acquiring(0, 0, TryCreate)], 0, 1);
    es, s := Follow(10, 0, es, Step(0));
    assert s == Sys(Some(File(0, 0)), None, map[0 := Holder(0, 0)], 0, 1);
    es, s := Follow(10, 0, es, Die(0));
    assert s == Sys(Some(File(0, 0)), None, map[], 0, 1);
    es, s := Follow(10, 0, es, Tick(20));
  }

  /** A dead owner's lock, and process 1 suspended just before removing it. */
  lemma SuspendedContender() returns (es: seq<Event>, s: Sys)
    ensures Feasible(10, Initial(0), es) && s == After(10, Initial(0), es)
    ensures s == Sys(Some(File(0, 0)), Some(File(1, 20)), map[1 := Acquiring(1, 20, Remove)], 20, 2)
  {
    es, s := AbandonedLock();
    hide Feasible, After;
    es, s := Follow(10, 0, es, Start(1));
    assert s.procs == map[1 := Acquiring(1, 20, TryCreate)];
    es, s := Follow(10, 0, es, Step(1));
    es, s := Follow(10, 0, es, Step(1));
    es, s := Follow(10, 0, es, Step(1));
    es, s := Follow(10, 0, es, Step(1));
  }

  /** ... and process 2 has found both files stale. */
  lemma SecondContender() returns (es: seq<Event>, s: Sys)
    ensures Feasible(10, Initial(0), es) && s == After(10, Initial(0), es)
    ensures s == Sys(Some(File(0, 0)), Some(File(1, 20)),
                     map[1 := Acquiring(1, 20, Remove), 2 := Acquiring(2, 40, RemoveTakeover)], 40, 3)
  {
    hide Feasible, After;
    es, s := SuspendedContender();
    es, s := Follow(10, 0, es, Tick(20));
    es, s := Follow(10, 0, es, Start(2));
    assert s.procs == map[1 := Acquiring(1, 20, Remove), 2 := Acquiring(2, 40, TryCreate)];
    es, s := Follow(10, 0, es, Step(2));
    assert s.procs == map[1 := Acquiring(1, 20, Remove), 2 := Acquiring(2, 40, Stat)];
    es, s := Follow(10, 0, es, Step(2));
    assert s.procs == map[1 := Acquiring(1, 20, Remove), 2 := Acquiring(2, 40, TryTakeover)];
    es, s := Follow(10, 0, es, Step(2));
    assert s.procs == map[1 := Acquiring(1, 20, Remove), 2 := Acquiring(2, 40, StatTakeover)];
    es, s := Follow(10, 0, es, Step(2));
    assert s.procs == map[1 := Acquiring(1, 20, Remove), 2 := Acquiring(2, 40, RemoveTakeover)];
  }

  /** ... has replaced the takeover file and got as far as process 1. */
  lemma TwoContenders() returns (es: seq<Event>, s: Sys)
    ensures Feasible(10, Initial(0), es) && s == After(10, Initial(0), es)
    ensures s == Sys(Some(File(0, 0)), Some(File(2, 40)),
                     map[1 := Acquiring(1, 20, Remove), 2 := Acquiring(2, 40, Remove)], 40, 3)
  {
    hide Feasible, After;
    es, s := SecondContender();
    es, s := Follow(10, 0, es, Step(2));
    assert s.procs == map[1 := Acquiring(1, 20, Remove), 2 := Acquiring(2, 40, RetryTakeover)];
    es, s := Follow(10, 0, es, Step(2));
    assert s.procs == map[1 := Acquiring(1, 20, Remove), 2 := Acquiring(2, 40, Recheck)];
    es, s := Follow(10, 0, es, Step(2));
    assert s.procs == map[1 := Acquiring(1, 20, Remove), 2 := Acquiring(2, 40, Remove)];
  }

  /**
   * Stealing happens: process 1 is suspended for longer than the bound while it works under
   * the takeover file, process 2 removes that file, and both end up with an unexpired lease.
   */
  lemma StaleTakeoverRemovalBreaksExclusion() returns (es: seq<Event>)
    ensures Feasible(10, Initial(0), es)
    ensures Unexpired(10, After(10, Initial(0), es), 1) && Unexpired(10, After(10, Initial(0), es), 2)
  {
    var s: Sys;
    es, s := TwoContenders();
    hide Feasible, After;
    es, s := Follow(10, 0, es, Step(1));
    es, s := Follow(10, 0, es, Step(1));
    es, s := Follow(10, 0, es, Step(1));
    es, s := Follow(10, 0, es, Step(2));
    es, s := Follow(10, 0, es, Step(2));
    es, s := Follow(10, 0, es, Step(2));
  }
}
