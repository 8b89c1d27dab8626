/**
 * acquireLock, refreshLock and releaseLock as the source runs them: one file-system call
 * after another on the two files, with other processes running between any two calls.
 * The log of calls is always a run of the lock machine that ends in the actual state.
 */
module CathoLockFiles {
  import opened Wrappers
  import opened CathoLock
  import opened CathoAlone

  class StateLock {
    const stale: int
    const started: int

    var lock: Option<File>
    var takeover: Option<File>
    var procs: map<Pid, Proc>
    var clock: int
    var nextToken: nat
    ghost var log: seq<Event>

    function State(): Sys
      reads this
    {
      Sys(lock, takeover, procs, clock, nextToken)
    }

    ghost predicate Valid()
      reads this
    {
      Feasible(stale, Initial(started), log) && After(stale, Initial(started), log) == State()
    }

    constructor (stale: int, started: int)
      ensures Valid() && procs == map[] && this.stale == stale
    {
      this.stale, this.started := stale, started;
      lock, takeover, procs, clock, nextToken, log := None, None, map[], started, 0, [];
    }

    predicate Of(e: Event, pid: Pid) {
      !e.Tick? && e.pid == pid
    }

    /** Since the log was `from`, `pid` made the call `first` and then only steps. */
    ghost predicate Calls(from: seq<Event>, pid: Pid, first: Event)
      reads this
    {
      && from + [first] <= log
      && forall k :: |from| < k < |log| && Of(log[k], pid) ==> log[k] == Step(pid)
    }

    /** In the operation that began then with `first`, the process stands at `p`, or is gone. */
    ghost predicate At(from: seq<Event>, pid: Pid, first: Event, p: Option<Proc>)
      reads this
    {
      && Valid() && Calls(from, pid, first)
      && (if p.Some? then pid in procs && procs[pid] == p.value else pid !in procs)
    }

    ghost predicate Acquires(from: seq<Event>, pid: Pid, token: nat, now: int, stage: AcquireStage)
      reads this
    {
      At(from, pid, Start(pid), Some(Acquiring(token, now, stage)))
    }

    /** The attempt to acquire is over. */
    ghost predicate GivenUp(from: seq<Event>, pid: Pid)
      reads this
    {
      At(from, pid, Start(pid), None)
    }

    /** Nobody else has moved since `from`. */
    ghost predicate Alone(from: nat, pid: Pid)
      reads this
    {
      forall k :: from <= k < |log| ==> Of(log[k], pid)
    }

    /** The log has only grown by what others did. */
    twostate predicate OthersOnly(pid: Pid)
      reads this
    {
      old(log) <= log && forall k :: |old(log)| <= k < |log| ==> !Of(log[k], pid)
    }

    method OtherEvent(e: Event, pid: Pid)
      requires Valid() && Enabled(State(), e) && !Of(e, pid)
      modifies this
      ensures log == old(log) + [e]
      ensures Valid() && (pid in procs <==> pid in old(procs))
      ensures pid in procs ==> procs[pid] == old(procs)[pid]
    {
      hide Feasible, After;
      Extend(stale, Initial(started), log, e);
      var t := Do(stale, State(), e);
      lock, takeover, procs, clock, nextToken := t.lock, t.takeover, t.procs, t.clock, t.nextToken;
      log := log + [e];
    }

    /** Any number of calls by other processes, deaths and clock ticks. */
    method Others(pid: Pid)
      requires Valid()
      modifies this
      ensures Valid() && (pid in procs <==> pid in old(procs)) && OthersOnly(pid)
      ensures pid in procs ==> procs[pid] == old(procs)[pid]
    {
      hide Feasible, After;
      var n: nat := *;
      while n > 0
        invariant Valid() && (pid in procs <==> pid in old(procs)) && OthersOnly(pid)
        invariant pid in procs ==> procs[pid] == old(procs)[pid]
      {
        var e: Event := *;
        if Enabled(State(), e) && !Of(e, pid) {
          OtherEvent(e, pid);
        }
        n := n - 1;
      }
    }

    /** The same in the middle of an operation of `pid`. */
    method Meanwhile(ghost from: seq<Event>, pid: Pid, ghost first: Event, ghost p: Option<Proc>)
      requires At(from, pid, first, p)
      modifies this
      ensures At(from, pid, first, p) && OthersOnly(pid)
    {
      hide Valid;
      Others(pid);
    }

    /** Left alone, an operation that is over has led where the machine says. */
    lemma LedAlone(before: Sys, from: seq<Event>, pid: Pid, first: Event)
      requires Valid() && Calls(from, pid, first) && Alone(|from|, pid) && Resting(State(), pid)
      requires Feasible(stale, Initial(started), from) && After(stale, Initial(started), from) == before
      ensures Enabled(before, first) && State() == Finished(stale, Do(stale, before, first), pid)
    {
      OwnCallsFinish(stale, Initial(started), log, |from| + 1, pid);
      assert log[..|from| + 1] == from + [first];
      assert (from + [first])[..|from|] == from;
    }

    // ----- acquireLock, call by call

    method Begin(pid: Pid) returns (token: nat, now: int)
      requires Valid() && pid !in procs
      modifies this
      ensures Acquires(old(log), pid, token, now, TryCreate)
    {
      hide Feasible, After;
      Extend(stale, Initial(started), log, Start(pid));
      token, now := nextToken, clock;
      nextToken := nextToken + 1;
      procs, log := procs[pid := Acquiring(token, now, TryCreate)], log + [Start(pid)];
    }

    /** `wx` on the lock path, first try. */
    method CreateLock(ghost from: seq<Event>, pid: Pid, token: nat, now: int) returns (created: bool)
      requires Acquires(from, pid, token, now, TryCreate)
      modifies this
      ensures if created then At(from, pid, Start(pid), Some(Holder(token, clock))) && lock == Some(File(token, clock))
              else Acquires(from, pid, token, now, Stat)
    {
      hide Feasible, After;
      Extend(stale, Initial(started), log, Step(pid));
      created := lock.None?;
      if created {
        lock := Some(File(token, clock));
      }
      procs := procs[pid := if created then Holder(token, clock) else Acquiring(token, now, Stat)];
      log := log + [Step(pid)];
    }

    /** True when the lock is old enough to take over; otherwise the attempt is over. */
    method StatLock(ghost from: seq<Event>, pid: Pid, token: nat, now: int) returns (old_: bool)
      requires Acquires(from, pid, token, now, Stat)
      modifies this
      ensures if old_ then Acquires(from, pid, token, now, TryTakeover) else GivenUp(from, pid)
    {
      hide Feasible, After;
      Extend(stale, Initial(started), log, Step(pid));
      old_ := lock.Some? && now - lock.value.mtime > stale;
      procs := if old_ then procs[pid := Acquiring(token, now, TryTakeover)] else procs - {pid};
      log := log + [Step(pid)];
    }

    /** `wx` on the takeover path, first or second try. */
    method CreateTakeover(ghost from: seq<Event>, pid: Pid, token: nat, now: int, again: bool) returns (created: bool)
      requires Acquires(from, pid, token, now, if again then RetryTakeover else TryTakeover)
      modifies this
      ensures if created then Acquires(from, pid, token, now, Recheck)
              else if again then GivenUp(from, pid) else Acquires(from, pid, token, now, StatTakeover)
    {
      hide Feasible, After;
      Extend(stale, Initial(started), log, Step(pid));
      created := takeover.None?;
      if created {
        takeover := Some(File(token, clock));
      }
      procs := if created then procs[pid := Acquiring(token, now, Recheck)]
               else if again then procs - {pid}
               else procs[pid := Acquiring(token, now, StatTakeover)];
      log := log + [Step(pid)];
    }

    method StatTakeoverFile(ghost from: seq<Event>, pid: Pid, token: nat, now: int) returns (old_: bool)
      requires Acquires(from, pid, token, now, StatTakeover)
      modifies this
      ensures if old_ then Acquires(from, pid, token, now, RemoveTakeover) else GivenUp(from, pid)
    {
      hide Feasible, After;
      Extend(stale, Initial(started), log, Step(pid));
      old_ := takeover.Some? && now - takeover.value.mtime > stale;
      procs := if old_ then procs[pid := Acquiring(token, now, RemoveTakeover)] else procs - {pid};
      log := log + [Step(pid)];
    }

    method RemoveTakeoverFile(ghost from: seq<Event>, pid: Pid, token: nat, now: int) returns (removed: bool)
      requires Acquires(from, pid, token, now, RemoveTakeover)
      modifies this
      ensures if removed then Acquires(from, pid, token, now, RetryTakeover) else GivenUp(from, pid)
    {
      hide Feasible, After;
      Extend(stale, Initial(started), log, Step(pid));
      removed := takeover.Some?;
      takeover := None;
      procs := if removed then procs[pid := Acquiring(token, now, RetryTakeover)] else procs - {pid};
      log := log + [Step(pid)];
    }

    /** The second stat, under the takeover file: what to do next. */
    method RecheckLock(ghost from: seq<Event>, pid: Pid, token: nat, now: int) returns (next: AcquireStage)
      requires Acquires(from, pid, token, now, Recheck)
      modifies this
      ensures Acquires(from, pid, token, now, next)
      ensures next == Recreate || next == Remove || next == Drop(None)
    {
      hide Feasible, After;
      Extend(stale, Initial(started), log, Step(pid));
      next := if lock.None? then Recreate
              else if now - lock.value.mtime <= stale then Drop(None)
              else Remove;
      procs, log := procs[pid := Acquiring(token, now, next)], log + [Step(pid)];
    }

    method RemoveLock(ghost from: seq<Event>, pid: Pid, token: nat, now: int) returns (next: AcquireStage)
      requires Acquires(from, pid, token, now, Remove)
      modifies this
      ensures Acquires(from, pid, token, now, next) && lock == None
      ensures next == Recreate || next == Drop(None)
    {
      hide Feasible, After;
      Extend(stale, Initial(started), log, Step(pid));
      next := if lock.Some? then Recreate else Drop(None);
      lock := None;
      procs, log := procs[pid := Acquiring(token, now, next)], log + [Step(pid)];
    }

    method RecreateLock(ghost from: seq<Event>, pid: Pid, token: nat, now: int) returns (won: Option<int>)
      requires Acquires(from, pid, token, now, Recreate)
      modifies this
      ensures Acquires(from, pid, token, now, Drop(won))
      ensures won.Some? ==> lock == Some(File(token, won.value))
    {
      hide Feasible, After;
      Extend(stale, Initial(started), log, Step(pid));
      won := None;
      if lock.None? {
        lock := Some(File(token, clock));
        won := Some(clock);
      }
      procs, log := procs[pid := Acquiring(token, now, Drop(won))], log + [Step(pid)];
    }

    /** The `finally` of the takeover. */
    method DropTakeover(ghost from: seq<Event>, pid: Pid, token: nat, now: int, won: Option<int>)
      requires Acquires(from, pid, token, now, Drop(won))
      modifies this
      ensures if won.Some? then At(from, pid, Start(pid), Some(Holder(token, won.value))) else GivenUp(from, pid)
    {
      hide Feasible, After;
      Extend(stale, Initial(started), log, Step(pid));
      takeover := None;
      procs := if won.Some? then procs[pid := Holder(token, won.value)] else procs - {pid};
      log := log + [Step(pid)];
    }

    /**
     * While `pid`'s lease is unexpired and no takeover file has outlived the bound, no other
     * process has an unexpired lease.
     */
    ghost predicate Excludes(pid: Pid)
      reads this
    {
      && Feasible(stale, Initial(started), log)
      && (0 <= stale && NeverSteals(stale, Initial(started), log) && Unexpired(stale, State(), pid) ==>
            forall q :: q in procs && Unexpired(stale, State(), q) ==> q == pid)
    }

    lemma LeaseExcludes(pid: Pid)
      requires Valid()
      ensures Excludes(pid)
    {
      if 0 <= stale && NeverSteals(stale, Initial(started), log) && Unexpired(stale, State(), pid) {
        forall q | q in procs && Unexpired(stale, State(), q)
          ensures q == pid
        {
          UnexpiredLeasesExclude(stale, started, log, pid, q);
        }
      }
    }

    /** The takeover file exists: give up unless it is itself stale. */
    method ReplaceTakeover(ghost from: seq<Event>, pid: Pid, token: nat, now: int) returns (mine: bool)
      requires Acquires(from, pid, token, now, StatTakeover)
      modifies this
      ensures if mine then Acquires(from, pid, token, now, Recheck) else GivenUp(from, pid)
    {
      hide At, Valid, Calls;
      Meanwhile(from, pid, Start(pid), Some(Acquiring(token, now, StatTakeover)));
      var old_ := StatTakeoverFile(from, pid, token, now);
      if !old_ {
        return false;
      }
      Meanwhile(from, pid, Start(pid), Some(Acquiring(token, now, RemoveTakeover)));
      var removed := RemoveTakeoverFile(from, pid, token, now);
      if !removed {
        return false;
      }
      Meanwhile(from, pid, Start(pid), Some(Acquiring(token, now, RetryTakeover)));
      mine := CreateTakeover(from, pid, token, now, true);
    }

    /** The part of `acquireLock` under the takeover file, `finally` included. */
    method TakeOver(ghost from: seq<Event>, pid: Pid, token: nat, now: int)
      returns (ghost since: Option<int>, won: bool)
      requires Acquires(from, pid, token, now, Recheck)
      modifies this
      ensures won <==> since.Some?
      ensures if won then At(from, pid, Start(pid), Some(Holder(token, since.value))) else GivenUp(from, pid)
    {
      hide At, Valid, Calls;
      Meanwhile(from, pid, Start(pid), Some(Acquiring(token, now, Recheck)));
      var next := RecheckLock(from, pid, token, now);
      if next == Remove {
        Meanwhile(from, pid, Start(pid), Some(Acquiring(token, now, Remove)));
        next := RemoveLock(from, pid, token, now);
      }
      var created: Option<int> := None;
      if next == Recreate {
        Meanwhile(from, pid, Start(pid), Some(Acquiring(token, now, Recreate)));
        created := RecreateLock(from, pid, token, now);
      }
      Meanwhile(from, pid, Start(pid), Some(Acquiring(token, now, Drop(created))));
      DropTakeover(from, pid, token, now, created);
      since, won := created, created.Some?;
    }

    /** All of `acquireLock`; `since` is when the lock file was made. */
    method Acquire(pid: Pid) returns (token: nat, acquired: bool, ghost since: int)
      requires Valid() && pid !in procs
      modifies this
      ensures At(old(log), pid, Start(pid), if acquired then Some(Holder(token, since)) else None)
    {
      hide At, Valid, Calls;
      ghost var from := log;
      var now;
      token, now := Begin(pid);
      since := now;
      Meanwhile(from, pid, Start(pid), Some(Acquiring(token, now, TryCreate)));
      acquired := CreateLock(from, pid, token, now);
      if acquired {
        since := clock;
        return;
      }
      Meanwhile(from, pid, Start(pid), Some(Acquiring(token, now, Stat)));
      var old_ := StatLock(from, pid, token, now);
      if !old_ {
        return;
      }
      Meanwhile(from, pid, Start(pid), Some(Acquiring(token, now, TryTakeover)));
      var mine := CreateTakeover(from, pid, token, now, false);
      if !mine {
        mine := ReplaceTakeover(from, pid, token, now);
        if !mine {
          return;
        }
      }
      ghost var dated;
      dated, acquired := TakeOver(from, pid, token, now);
      since := if acquired then dated.value else now;
    }

    /**
     * A token exactly when this process ended up holding the lock, and then alone. With nobody
     * else around the lock is had exactly when it is free.
     */
    method AcquireLock(pid: Pid) returns (acquired: Option<nat>)
      requires Valid() && pid !in procs
      modifies this
      ensures Valid() && (acquired.Some? <==> pid in procs) && old(log) <= log
      ensures acquired.Some? ==> procs[pid].Holder? && procs[pid].token == acquired.value && Excludes(pid)
      ensures Alone(|old(log)|, pid) ==> (acquired.Some? <==> Free(stale, old(State())))
      ensures Alone(|old(log)|, pid) && acquired.Some? ==>
                lock == Some(File(acquired.value, old(clock))) && (takeover == None || takeover == old(takeover))
      ensures Alone(|old(log)|, pid) && acquired.None? ==> lock == old(lock) && takeover == old(takeover)
    {
      ghost var before := State();
      ghost var log0 := log;
      var token, got;
      ghost var since;
      token, got, since := Acquire(pid);
      if Alone(|log0|, pid) {
        LedAlone(before, log0, pid, Start(pid));
        AcquiredAlone(stale, before, pid);
      }
      LeaseExcludes(pid);
      return if got then Some(token) else None;
    }

    // ----- refreshLock

    ghost predicate Refreshes(from: seq<Event>, pid: Pid, token: nat, since: int, now: int, step: RefreshStage)
      reads this
    {
      At(from, pid, BeginRefresh(pid), Some(Refreshing(token, since, now, step)))
    }

    method StartRefresh(pid: Pid) returns (token: nat, since: int, now: int)
      requires Valid() && pid in procs && procs[pid].Holder?
      modifies this
      ensures Refreshes(old(log), pid, token, since, now, BeginTouch)
      ensures token == old(procs)[pid].token && now == old(clock)
    {
      hide Feasible, After;
      Extend(stale, Initial(started), log, BeginRefresh(pid));
      token, since, now := procs[pid].token, procs[pid].since, clock;
      procs, log := procs[pid := Refreshing(token, since, now, BeginTouch)], log + [BeginRefresh(pid)];
    }

    method GuardRefresh(ghost from: seq<Event>, pid: Pid, token: nat, since: int, now: int) returns (mine: bool)
      requires Refreshes(from, pid, token, since, now, BeginTouch)
      modifies this
      ensures if mine then Refreshes(from, pid, token, since, now, CheckOwner)
              else At(from, pid, BeginRefresh(pid), Some(Lost(token)))
    {
      hide Feasible, After;
      Extend(stale, Initial(started), log, Step(pid));
      mine := takeover.None?;
      if mine {
        takeover := Some(File(token, clock));
      }
      procs := procs[pid := if mine then Refreshing(token, since, now, CheckOwner) else Lost(token)];
      log := log + [Step(pid)];
    }

    method CheckLockOwner(ghost from: seq<Event>, pid: Pid, token: nat, since: int, now: int) returns (owner: bool)
      requires Refreshes(from, pid, token, since, now, CheckOwner)
      modifies this
      ensures owner <==> lock.Some? && lock.value.token == token
      ensures Refreshes(from, pid, token, since, now, if owner then Touch else EndTouch(false))
    {
      hide Feasible, After;
      Extend(stale, Initial(started), log, Step(pid));
      owner := lock.Some? && lock.value.token == token;
      procs := procs[pid := Refreshing(token, since, now, if owner then Touch else EndTouch(false))];
      log := log + [Step(pid)];
    }

    method TouchLock(ghost from: seq<Event>, pid: Pid, token: nat, since: int, now: int) returns (touched: bool)
      requires Refreshes(from, pid, token, since, now, Touch)
      modifies this
      ensures touched ==> lock.Some? && lock.value.mtime == now
      ensures Refreshes(from, pid, token, since, now, EndTouch(touched))
    {
      hide Feasible, After;
      Extend(stale, Initial(started), log, Step(pid));
      touched := lock.Some?;
      if touched {
        lock := Some(lock.value.(mtime := now));
      }
      procs, log := procs[pid := Refreshing(token, since, now, EndTouch(touched))], log + [Step(pid)];
    }

    method EndRefresh(ghost from: seq<Event>, pid: Pid, token: nat, since: int, now: int, kept: bool)
      requires Refreshes(from, pid, token, since, now, EndTouch(kept))
      modifies this
      ensures At(from, pid, BeginRefresh(pid), Some(if kept then Holder(token, now) else Lost(token)))
    {
      hide Feasible, After;
      Extend(stale, Initial(started), log, Step(pid));
      takeover := None;
      procs, log := procs[pid := if kept then Holder(token, now) else Lost(token)], log + [Step(pid)];
    }

    /** All of `refreshLock`. */
    method Refresh(pid: Pid) returns (kept: bool)
      requires Valid() && pid in procs && procs[pid].Holder?
      modifies this
      ensures var token := old(procs)[pid].token;
              At(old(log), pid, BeginRefresh(pid), Some(if kept then Holder(token, old(clock)) else Lost(token)))
    {
      hide At, Valid, Calls;
      ghost var from := log;
      var token, since, now := StartRefresh(pid);
      Meanwhile(from, pid, BeginRefresh(pid), Some(Refreshing(token, since, now, BeginTouch)));
      var mine := GuardRefresh(from, pid, token, since, now);
      if !mine {
        return false;
      }
      Meanwhile(from, pid, BeginRefresh(pid), Some(Refreshing(token, since, now, CheckOwner)));
      kept := CheckLockOwner(from, pid, token, since, now);
      if kept {
        Meanwhile(from, pid, BeginRefresh(pid), Some(Refreshing(token, since, now, Touch)));
        kept := TouchLock(from, pid, token, since, now);
      }
      Meanwhile(from, pid, BeginRefresh(pid), Some(Refreshing(token, since, now, EndTouch(kept))));
      EndRefresh(from, pid, token, since, now, kept);
    }

    /**
     * True exactly when the process still holds the lock, redated to this call's `now`. With
     * nobody else around that is when the lock file is its own and unguarded.
     */
    method RefreshLock(pid: Pid) returns (kept: bool)
      requires Valid() && pid in procs && procs[pid].Holder?
      modifies this
      ensures Valid() && pid in procs && old(log) <= log
      ensures procs[pid] == if kept then Holder(old(procs)[pid].token, old(clock)) else Lost(old(procs)[pid].token)
      ensures kept ==> Excludes(pid)
      ensures Alone(|old(log)|, pid) ==>
                && (kept <==> OwnsFreely(old(State()), old(procs)[pid].token))
                && lock == (if kept then Some(File(old(procs)[pid].token, old(clock))) else old(lock))
                && takeover == old(takeover)
    {
      ghost var before := State();
      ghost var log0 := log;
      kept := Refresh(pid);
      if Alone(|log0|, pid) {
        LedAlone(before, log0, pid, BeginRefresh(pid));
        RefreshedAlone(stale, before, pid);
      }
      LeaseExcludes(pid);
    }

    // ----- releaseLock

    /** So far the process has made only calls of this `releaseLock`. */
    ghost predicate Undoing(from: nat, pid: Pid, token: nat)
      reads this
    {
      Valid() && OnlyReleases(stale, started, log, from, pid, token)
    }

    method StartRelease(pid: Pid) returns (token: nat)
      requires Valid() && pid in procs && (procs[pid].Holder? || procs[pid].Lost?)
      modifies this
      ensures token == old(procs)[pid].token
      ensures At(old(log), pid, BeginRelease(pid), Some(Releasing(token, BeginRemove)))
      ensures Undoing(|old(log)|, pid, token)
    {
      hide Feasible, After;
      token := procs[pid].token;
      Extend(stale, Initial(started), log, BeginRelease(pid));
      OnlyReleasesMore(stale, started, log, |log|, pid, token, BeginRelease(pid));
      procs, log := procs[pid := Releasing(token, BeginRemove)], log + [BeginRelease(pid)];
    }

    method OthersWhileReleasing(ghost from: seq<Event>, pid: Pid, ghost token: nat, ghost left: ReleaseStage)
      requires At(from, pid, BeginRelease(pid), Some(Releasing(token, left))) && Undoing(|from|, pid, token)
      modifies this
      ensures At(from, pid, BeginRelease(pid), Some(Releasing(token, left))) && Undoing(|from|, pid, token)
    {
      hide Feasible, After, OnlyReleases;
      Meanwhile(from, pid, BeginRelease(pid), Some(Releasing(token, left)));
      OnlyReleasesLonger(stale, started, old(log), log, |from|, pid, token);
    }

    /** Moves a release on by one call. None: it is over. */
    method ReleaseCall(ghost from: seq<Event>, pid: Pid, token: nat, left: ReleaseStage)
      returns (next: Option<ReleaseStage>)
      requires At(from, pid, BeginRelease(pid), Some(Releasing(token, left))) && Undoing(|from|, pid, token)
      modifies this
      ensures Undoing(|from|, pid, token)
      ensures At(from, pid, BeginRelease(pid), if next.Some? then Some(Releasing(token, next.value)) else None)
      ensures match left
              case BeginRemove => next == Some(CheckToken) || next == None
              case CheckToken => next == Some(RemoveOwn) || next == Some(EndRemove)
              case RemoveOwn => next == Some(EndRemove)
              case EndRemove => next == None
      ensures lock == if left == RemoveOwn then None else old(lock)
    {
      hide Feasible, After, OnlyReleases;
      Extend(stale, Initial(started), log, Step(pid));
      OnlyReleasesMore(stale, started, log, |from|, pid, token, Step(pid));
      match left {
        case BeginRemove =>
          if takeover.None? {
            takeover, next := Some(File(token, clock)), Some(CheckToken);
          } else {
            next := None;
          }
        case CheckToken =>
          next := Some(if lock.Some? && lock.value.token == token then RemoveOwn else EndRemove);
        case RemoveOwn =>
          lock, next := None, Some(EndRemove);
        case EndRemove =>
          takeover, next := None, None;
      }
      procs := if next.Some? then procs[pid := Releasing(token, next.value)] else procs - {pid};
      log := log + [Step(pid)];
    }

    lemma Recorded(from: nat, pid: Pid, token: nat)
      requires Undoing(from, pid, token)
      ensures 0 <= stale && NeverSteals(stale, Initial(started), log) ==>
                forall k :: from <= k < |log| && log[k] == Step(pid) ==>
                              && Feasible(stale, Initial(started), log[..k])
                              && var s := After(stale, Initial(started), log[..k]);
                                 Enabled(s, Step(pid)) && OwnAtMost(s, Do(stale, s, Step(pid)), token)
    {
      if 0 <= stale && NeverSteals(stale, Initial(started), log) {
        ReleasesOnlyItsOwn(stale, started, log, from, pid, token);
      }
    }

    /** All of `releaseLock`. */
    method Release(pid: Pid) returns (ghost token: nat)
      requires Valid() && pid in procs && (procs[pid].Holder? || procs[pid].Lost?)
      modifies this
      ensures token == old(procs)[pid].token
      ensures At(old(log), pid, BeginRelease(pid), None) && Undoing(|old(log)|, pid, token)
    {
      hide At, Undoing, Calls;
      ghost var from := log;
      var mine := StartRelease(pid);
      token := mine;
      OthersWhileReleasing(from, pid, mine, BeginRemove);
      var next := ReleaseCall(from, pid, mine, BeginRemove);
      if next == Some(CheckToken) {
        OthersWhileReleasing(from, pid, mine, CheckToken);
        next := ReleaseCall(from, pid, mine, CheckToken);
        if next == Some(RemoveOwn) {
          OthersWhileReleasing(from, pid, mine, RemoveOwn);
          next := ReleaseCall(from, pid, mine, RemoveOwn);
        }
        OthersWhileReleasing(from, pid, mine, EndRemove);
        next := ReleaseCall(from, pid, mine, EndRemove);
      }
    }

    /**
     * `releaseLock`: as long as nobody steals the takeover file, none of its calls touches a
     * lock file but its own. With nobody else around, its own unguarded lock file is gone.
     */
    method ReleaseLock(pid: Pid)
      requires Valid() && pid in procs && (procs[pid].Holder? || procs[pid].Lost?)
      modifies this
      ensures Valid() && pid !in procs && old(log) <= log
      ensures 0 <= stale && NeverSteals(stale, Initial(started), log) ==>
                forall k :: |old(log)| <= k < |log| && log[k] == Step(pid) ==>
                              && Feasible(stale, Initial(started), log[..k])
                              && var s := After(stale, Initial(started), log[..k]);
                                 Enabled(s, Step(pid)) && OwnAtMost(s, Do(stale, s, Step(pid)), old(procs)[pid].token)
      ensures Alone(|old(log)|, pid) ==>
                && lock == (if OwnsFreely(old(State()), old(procs)[pid].token) then None else old(lock))
                && takeover == old(takeover)
    {
      ghost var before := State();
      ghost var log0 := log;
      ghost var token := Release(pid);
      if Alone(|log0|, pid) {
        LedAlone(before, log0, pid, BeginRelease(pid));
        ReleasedAlone(stale, before, pid);
      }
      hide Feasible, After, OnlyReleases, NeverSteals;
      Recorded(|log0|, pid, token);
    }
  }
}
