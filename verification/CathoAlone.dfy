/**
 * What acquireLock, refreshLock and releaseLock do when nobody else is at the two files: the
 * lock is taken whenever it is free or left behind, kept as long as it is one's own, and gone
 * after its release.
 */
module CathoAlone {
  import opened Wrappers
  import opened CathoLock

  /** The process is in the middle of no operation. */
  predicate Resting(s: Sys, pid: Pid) {
    pid !in s.procs || s.procs[pid].Holder? || s.procs[pid].Lost?
  }

  /** An upper bound on the calls a process still has to make. */
  function CallsAhead(s: Sys, pid: Pid): nat {
    if Resting(s, pid) then 0
    else
      var p := s.procs[pid];
      if p.Acquiring? then
        match p.stage
        case TryCreate => 10
        case Stat => 9
        case TryTakeover => 8
        case StatTakeover => 7
        case RemoveTakeover => 6
        case RetryTakeover => 5
        case Recheck => 4
        case Remove => 3
        case Recreate => 2
        case Drop(_) => 1
      else if p.Refreshing? then
        if p.step.BeginTouch? then 4 else if p.step.CheckOwner? then 3 else if p.step.Touch? then 2 else 1
      else
        if p.left.BeginRemove? then 4 else if p.left.CheckToken? then 3 else if p.left.RemoveOwn? then 2 else 1
  }

  /** The operation under way, carried through to its end without anybody else moving. */
  function Finished(stale: int, s: Sys, pid: Pid): Sys
    decreases CallsAhead(s, pid)
  {
    if Resting(s, pid) then s else Finished(stale, Do(stale, s, Step(pid)), pid)
  }

  lemma OneCall(stale: int, s: Sys, pid: Pid) returns (t: Sys)
    requires !Resting(s, pid)
    ensures t == Do(stale, s, Step(pid)) && Finished(stale, s, pid) == Finished(stale, t, pid)
    ensures Resting(t, pid) ==> Finished(stale, s, pid) == t
  {
    t := Do(stale, s, Step(pid));
  }

  /** A log that goes on with the process's own calls only goes where `Finished` says. */
  lemma {:induction false} OwnCallsFinish(stale: int, s: Sys, log: seq<Event>, from: nat, pid: Pid)
    requires Feasible(stale, s, log) && from <= |log|
    requires forall k :: from <= k < |log| ==> log[k] == Step(pid)
    ensures Feasible(stale, s, log[..from])
    ensures Finished(stale, After(stale, s, log), pid) == Finished(stale, After(stale, s, log[..from]), pid)
    decreases |log|
  {
    if from == |log| {
      assert log[..from] == log;
    } else {
      var before := log[..|log| - 1];
      OwnCallsFinish(stale, s, before, from, pid);
      assert before[..from] == log[..from];
      assert log[|log| - 1] == Step(pid);
    }
  }

  // ----- acquireLock

  /** No lock file, or one left behind, with no takeover file or one left behind. */
  predicate Free(stale: int, s: Sys) {
    || s.lock.None?
    || (s.clock - s.lock.value.mtime > stale
        && (s.takeover.None? || s.clock - s.takeover.value.mtime > stale))
  }

  lemma TakenOver(stale: int, s: Sys, pid: Pid, token: nat, now: int)
    requires pid in s.procs && s.procs[pid] == Acquiring(token, now, Recheck)
    requires s.lock.Some? && now - s.lock.value.mtime > stale
    ensures Finished(stale, s, pid)
         == Become(s, pid, Holder(token, s.clock)).(lock := Some(File(token, s.clock)), takeover := None)
  {
    hide Finished;
    var s1 := OneCall(stale, s, pid);
    assert s1.procs[pid] == Acquiring(token, now, Remove);
    var s2 := OneCall(stale, s1, pid);
    assert s2.procs[pid] == Acquiring(token, now, Recreate) && s2.lock.None?;
    var s3 := OneCall(stale, s2, pid);
    assert s3.procs[pid] == Acquiring(token, now, Drop(Some(s.clock)));
    var s4 := OneCall(stale, s3, pid);
    assert s4.procs == s.procs[pid := Holder(token, s.clock)];
  }

  lemma Contended(stale: int, s: Sys, pid: Pid, token: nat, now: int)
    requires pid in s.procs && s.procs[pid] == Acquiring(token, now, TryTakeover)
    requires s.lock.Some? && now - s.lock.value.mtime > stale
    ensures Finished(stale, s, pid)
         == if s.takeover.None? || now - s.takeover.value.mtime > stale
            then Become(s, pid, Holder(token, s.clock)).(lock := Some(File(token, s.clock)), takeover := None)
            else Gone(s, pid)
  {
    hide Finished;
    var s1 := OneCall(stale, s, pid);
    if s.takeover.None? {
      TakenOver(stale, s1, pid, token, now);
      assert s1.procs[pid := Holder(token, s.clock)] == s.procs[pid := Holder(token, s.clock)];
    } else {
      assert s1.procs[pid] == Acquiring(token, now, StatTakeover);
      var s2 := OneCall(stale, s1, pid);
      if now - s.takeover.value.mtime > stale {
        assert s2.procs[pid] == Acquiring(token, now, RemoveTakeover);
        var s3 := OneCall(stale, s2, pid);
        assert s3.procs[pid] == Acquiring(token, now, RetryTakeover) && s3.takeover.None?;
        var s4 := OneCall(stale, s3, pid);
        TakenOver(stale, s4, pid, token, now);
        assert s4.procs[pid := Holder(token, s.clock)] == s.procs[pid := Holder(token, s.clock)];
      } else {
        assert s2.procs == s.procs - {pid};
      }
    }
  }

  /**
   * Alone, `acquireLock` gets the lock exactly when it is free, under a new token and dated
   * now; otherwise it changes nothing.
   */
  lemma AcquiredAlone(stale: int, s: Sys, pid: Pid)
    requires pid !in s.procs
    ensures var t := Finished(stale, Do(stale, s, Start(pid)), pid);
            if Free(stale, s)
            then && t.procs == s.procs[pid := Holder(s.nextToken, s.clock)]
                 && t.lock == Some(File(s.nextToken, s.clock))
                 && t.takeover == (if s.lock.None? then s.takeover else None)
            else t.procs == s.procs && t.lock == s.lock && t.takeover == s.takeover
  {
    hide Finished;
    var s0 := Do(stale, s, Start(pid));
    var token, now := s.nextToken, s.clock;
    var s1 := OneCall(stale, s0, pid);
    if s.lock.None? {
      assert s1.procs == s.procs[pid := Holder(token, now)];
    } else {
      assert s1.procs[pid] == Acquiring(token, now, Stat);
      var s2 := OneCall(stale, s1, pid);
      if now - s.lock.value.mtime > stale {
        Contended(stale, s2, pid, token, now);
        assert s2.procs[pid := Holder(token, now)] == s.procs[pid := Holder(token, now)];
        assert s2.procs - {pid} == s.procs;
      } else {
        assert s2.procs == s.procs;
      }
    }
  }

  // ----- refreshLock and releaseLock

  /** The lock file is the process's own, and nobody is at work under a takeover file. */
  predicate OwnsFreely(s: Sys, token: nat) {
    s.takeover.None? && s.lock.Some? && s.lock.value.token == token
  }

  /** Alone, `refreshLock` redates the lock exactly when it is its own and unguarded. */
  lemma RefreshedAlone(stale: int, s: Sys, pid: Pid)
    requires pid in s.procs && s.procs[pid].Holder?
    ensures var t, token := Finished(stale, Do(stale, s, BeginRefresh(pid)), pid), s.procs[pid].token;
            && t.takeover == s.takeover
            && (if OwnsFreely(s, token)
                then t.procs == s.procs[pid := Holder(token, s.clock)] && t.lock == Some(File(token, s.clock))
                else t.procs == s.procs[pid := Lost(token)] && t.lock == s.lock)
  {
    hide Finished;
    var token, since, now := s.procs[pid].token, s.procs[pid].since, s.clock;
    var s0 := Do(stale, s, BeginRefresh(pid));
    var s1 := OneCall(stale, s0, pid);
    if s.takeover.None? {
      assert s1.procs[pid] == Refreshing(token, since, now, CheckOwner);
      var s2 := OneCall(stale, s1, pid);
      if OwnsFreely(s, token) {
        assert s2.procs[pid] == Refreshing(token, since, now, Touch);
        var s3 := OneCall(stale, s2, pid);
        assert s3.procs[pid] == Refreshing(token, since, now, EndTouch(true));
        var s4 := OneCall(stale, s3, pid);
        assert s4.procs == s.procs[pid := Holder(token, now)];
      } else {
        assert s2.procs[pid] == Refreshing(token, since, now, EndTouch(false));
        var s3 := OneCall(stale, s2, pid);
        assert s3.procs == s.procs[pid := Lost(token)];
      }
    } else {
      assert s1.procs == s.procs[pid := Lost(token)];
    }
  }

  /** Alone, `releaseLock` removes the lock file exactly when it is its own and unguarded. */
  lemma ReleasedAlone(stale: int, s: Sys, pid: Pid)
    requires pid in s.procs && (s.procs[pid].Holder? || s.procs[pid].Lost?)
    ensures var t := Finished(stale, Do(stale, s, BeginRelease(pid)), pid);
            && t.procs == s.procs - {pid} && t.takeover == s.takeover
            && t.lock == if OwnsFreely(s, s.procs[pid].token) then None else s.lock
  {
    hide Finished;
    var token := s.procs[pid].token;
    var s0 := Do(stale, s, BeginRelease(pid));
    var s1 := OneCall(stale, s0, pid);
    if s.takeover.None? {
      assert s1.procs[pid] == Releasing(token, CheckToken);
      var s2 := OneCall(stale, s1, pid);
      if OwnsFreely(s, token) {
        assert s2.procs[pid] == Releasing(token, RemoveOwn);
        var s3 := OneCall(stale, s2, pid);
        assert s3.procs[pid] == Releasing(token, EndRemove);
        var s4 := OneCall(stale, s3, pid);
        assert s4.procs == s.procs - {pid};
      } else {
        assert s2.procs[pid] == Releasing(token, EndRemove);
        var s3 := OneCall(stale, s2, pid);
        assert s3.procs == s.procs - {pid};
      }
    } else {
      assert s1.procs == s.procs - {pid};
    }
  }
}
