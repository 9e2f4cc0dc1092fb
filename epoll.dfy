/**
 * The event poller: one epoll descriptor (-1 while there is none) and a
 * registry from descriptors to callbacks. Loop waits for readable
 * descriptors and runs the callback registered for each, in the order the
 * kernel reports them.
 */
module Epoll {
  import opened Base
  import opened Syscall

  /** The most events one wait asks for. */
  const MaxNumberOfEvents: nat := 64
  /** How long one wait blocks, in milliseconds. */
  const WaitTimeout: int := 100

  /** A registered handler, known by its identity: running it is recorded, not executed. */
  datatype Callback = Callback(id: nat)

  /** The wait Loop issues on descriptor `desc`. */
  function WaitCall(desc: int): Call
  {
    EpollWait(desc, MaxNumberOfEvents, WaitTimeout)
  }

  /** The descriptors one wait reports: what fits the 64-entry event array. */
  function ReadyFds(r: Reply): (fds: seq<int>)
    ensures |fds| <= MaxNumberOfEvents && fds <= r.ready
  {
    if |r.ready| <= MaxNumberOfEvents then r.ready else r.ready[..MaxNumberOfEvents]
  }

  /** The callbacks a batch of ready descriptors runs: the registered ones, in order. */
  function Dispatch(callbacks: map<int, Callback>, fds: seq<int>): (d: seq<Callback>)
    ensures |d| <= |fds|
    ensures forall i :: 0 <= i < |d| ==> d[i] in callbacks.Values
  {
    if fds == [] then []
    else
      var d := Dispatch(callbacks, fds[..|fds| - 1]);
      var fd := fds[|fds| - 1];
      if fd in callbacks then d + [callbacks[fd]] else d
  }

  /** Dispatching two batches runs the first batch's callbacks, then the second's. */
  lemma {:induction false} DispatchAppend(callbacks: map<int, Callback>, a: seq<int>, b: seq<int>)
    ensures Dispatch(callbacks, a + b) == Dispatch(callbacks, a) + Dispatch(callbacks, b)
    decreases |b|
  {
    if b == [] {
      assert a + b == a;
    } else {
      var b' := b[..|b| - 1];
      assert (a + b)[..|a + b| - 1] == a + b';
      assert (a + b)[|a + b| - 1] == b[|b| - 1];
      DispatchAppend(callbacks, a, b');
    }
  }

  /** Every ready descriptor that is registered runs its callback, and no other runs. */
  lemma {:induction false} DispatchExactly(callbacks: map<int, Callback>, fds: seq<int>)
    ensures (forall i :: 0 <= i < |fds| ==> fds[i] !in callbacks) <==> Dispatch(callbacks, fds) == []
    ensures (forall i :: 0 <= i < |fds| ==> fds[i] in callbacks) ==>
              Dispatch(callbacks, fds) == seq(|fds|, i requires 0 <= i < |fds| => callbacks[fds[i]])
    decreases |fds|
  {
    if fds != [] {
      var init := fds[..|fds| - 1];
      DispatchExactly(callbacks, init);
      assert forall i :: 0 <= i < |init| ==> init[i] == fds[i];
      if forall i :: 0 <= i < |fds| ==> fds[i] in callbacks {
        var d := seq(|fds|, i requires 0 <= i < |fds| => callbacks[fds[i]]);
        assert Dispatch(callbacks, init) == d[..|init|];
      }
    }
  }

  /**
   * The event loop given `fuel` waits: the log afterwards, the callbacks
   * run, and whether the loop ended (a wait failed with an errno other
   * than EINTR) rather than running out of waits.
   */
  function LoopRun(answer: (seq<Call>, Call) -> Reply, t: seq<Call>, desc: int,
                   callbacks: map<int, Callback>, fuel: nat): (r: (seq<Call>, seq<Callback>, bool))
    decreases fuel
  {
    if fuel == 0 then (t, [], false)
    else
      var reply := answer(t, WaitCall(desc));
      if reply.errno == EINTR then LoopRun(answer, t + [WaitCall(desc)], desc, callbacks, fuel - 1)
      else if reply.errno != 0 then (t + [WaitCall(desc)], [], true)
      else
        var rest := LoopRun(answer, t + [WaitCall(desc)], desc, callbacks, fuel - 1);
        (rest.0, Dispatch(callbacks, ReadyFds(reply)) + rest.1, rest.2)
  }

  /** A wait that keeps being interrupted never ends the loop and runs nothing. */
  lemma {:induction false} InterruptedLoopNeverEnds(answer: (seq<Call>, Call) -> Reply, t: seq<Call>, desc: int,
                                                    callbacks: map<int, Callback>, fuel: nat)
    requires forall t' :: answer(t', WaitCall(desc)).errno == EINTR
    ensures LoopRun(answer, t, desc, callbacks, fuel).1 == []
    ensures !LoopRun(answer, t, desc, callbacks, fuel).2
    ensures |LoopRun(answer, t, desc, callbacks, fuel).0| == |t| + fuel
    decreases fuel
  {
    if fuel > 0 {
      InterruptedLoopNeverEnds(answer, t + [WaitCall(desc)], desc, callbacks, fuel - 1);
    }
  }

  /** The loop only waits: the calls it adds are all the same wait, and it runs only registered callbacks. */
  lemma {:induction false} LoopOnlyWaits(answer: (seq<Call>, Call) -> Reply, t: seq<Call>, desc: int,
                                         callbacks: map<int, Callback>, fuel: nat)
    ensures var r := LoopRun(answer, t, desc, callbacks, fuel);
            && |t| <= |r.0| && r.0[..|t|] == t
            && (forall i :: |t| <= i < |r.0| ==> r.0[i] == WaitCall(desc))
            && (forall i :: 0 <= i < |r.1| ==> r.1[i] in callbacks.Values)
    decreases fuel
  {
    if fuel > 0 {
      var t' := t + [WaitCall(desc)];
      LoopOnlyWaits(answer, t', desc, callbacks, fuel - 1);
      var r := LoopRun(answer, t', desc, callbacks, fuel - 1);
      assert r.0[..|t|] == r.0[..|t'|][..|t|];
    }
  }

  class Poller {
    /** The epoll descriptor, -1 while the poller is not initialized. */
    var descriptor: int32
    /** The registry: descriptor to callback. */
    var callbacks: map<int, Callback>
    /** Every callback Loop has run, oldest first. */
    var handled: seq<Callback>

    /** A fresh poller: no descriptor, nothing registered. */
    constructor ()
      ensures descriptor == -1 && callbacks == map[] && handled == []
    {
      descriptor := -1;
      callbacks := map[];
      handled := [];
    }

    predicate IsInitialized()
      reads this
    {
      descriptor != -1
    }

    /** Init: refused when initialized; otherwise the created epoll descriptor is stored, or the error returned. */
    method Init(k: Kernel) returns (err: Option<Error>)
      modifies this, k
      ensures callbacks == old(callbacks) && handled == old(handled)
      ensures old(IsInitialized()) ==>
                err == Some(Failure("poller already initialized")) && descriptor == old(descriptor) && k.trace == old(k.trace)
      ensures !old(IsInitialized()) ==>
                var r := k.answer(old(k.trace), EpollCreate1(0));
                && k.trace == old(k.trace) + [EpollCreate1(0)] && err == ErrOf(r)
                && (r.errno != 0 ==> descriptor == -1)
                && (r.errno == 0 ==> descriptor == WrapInt32(r.ret))
    {
      if IsInitialized() {
        return Some(Failure("poller already initialized"));
      }
      var r := k.Invoke(EpollCreate1(0));
      if r.errno != 0 {
        return Some(Errno(r.errno));
      }
      descriptor := WrapInt32(Ret(r));
      err := None;
    }

    /** Finalize: an initialized poller closes its descriptor and forgets it; otherwise nothing happens. */
    method Finalize(k: Kernel)
      modifies this, k
      ensures descriptor == -1 && callbacks == old(callbacks) && handled == old(handled)
      ensures old(descriptor) == -1 ==> k.trace == old(k.trace)
      ensures old(descriptor) != -1 ==> k.trace == old(k.trace) + [Syscall.Close(old(descriptor))]
    {
      if descriptor != -1 {
        var _ := k.Invoke(Syscall.Close(descriptor));
        descriptor := -1;
      }
    }

    /**
     * Add: a registered descriptor is refused; otherwise it is added to the
     * epoll set for input, and registered only when that succeeds.
     */
    method Add(k: Kernel, fd: int, cb: Callback) returns (err: Option<Error>)
      modifies this, k
      ensures descriptor == old(descriptor) && handled == old(handled)
      ensures fd in old(callbacks) ==>
                err == Some(Failure("file descriptor already registered")) && callbacks == old(callbacks) && k.trace == old(k.trace)
      ensures fd !in old(callbacks) ==>
                var c := EpollCtl(descriptor, EPOLL_CTL_ADD, fd, EPOLLIN);
                var r := k.answer(old(k.trace), c);
                && k.trace == old(k.trace) + [c] && err == ErrOf(r)
                && (r.errno != 0 ==> callbacks == old(callbacks))
                && (r.errno == 0 ==> callbacks == old(callbacks)[fd := cb])
    {
      if fd in callbacks {
        return Some(Failure("file descriptor already registered"));
      }
      var r := k.Invoke(EpollCtl(descriptor, EPOLL_CTL_ADD, fd, EPOLLIN));
      if r.errno != 0 {
        return Some(Errno(r.errno));
      }
      callbacks := callbacks[fd := cb];
      err := None;
    }

    /**
     * Del: an unregistered descriptor is refused; otherwise the entry is
     * removed first and stays removed whatever the epoll call (with a nil
     * event, written 0) answers.
     */
    method Del(k: Kernel, fd: int) returns (err: Option<Error>)
      modifies this, k
      ensures descriptor == old(descriptor) && handled == old(handled)
      ensures fd !in old(callbacks) ==>
                err == Some(Failure("file descriptor not registered")) && callbacks == old(callbacks) && k.trace == old(k.trace)
      ensures fd in old(callbacks) ==>
                var c := EpollCtl(descriptor, EPOLL_CTL_DEL, fd, 0);
                k.trace == old(k.trace) + [c] && err == ErrOf(k.answer(old(k.trace), c))
                && callbacks == old(callbacks) - {fd} && fd !in callbacks
    {
      if fd !in callbacks {
        return Some(Failure("file descriptor not registered"));
      }
      callbacks := callbacks - {fd};
      var r := k.Invoke(EpollCtl(descriptor, EPOLL_CTL_DEL, fd, 0));
      err := ErrOf(r);
    }

    /**
     * Loop: nothing when not initialized; otherwise waits up to `fuel`
     * times, running the callbacks of the ready descriptors after each
     * successful wait. `ended` is true when the loop stopped by itself.
     */
    method Loop(k: Kernel, fuel: nat) returns (ended: bool)
      modifies this, k
      ensures descriptor == old(descriptor) && callbacks == old(callbacks)
      ensures !IsInitialized() ==> ended && k.trace == old(k.trace) && handled == old(handled)
      ensures IsInitialized() ==>
                var run := LoopRun(k.answer, old(k.trace), descriptor, callbacks, fuel);
                k.trace == run.0 && handled == old(handled) + run.1 && ended == run.2
    {
      if !IsInitialized() {
        return true;
      }
      var desc := descriptor;
      var left: nat := fuel;
      ghost var whole := LoopRun(k.answer, k.trace, desc, callbacks, fuel);
      ghost var done: seq<Callback> := [];
      ended := false;
      assert done + whole.1 == whole.1;
      while left > 0
        invariant left <= fuel && descriptor == desc && callbacks == old(callbacks)
        invariant handled == old(handled) + done
        invariant var run := LoopRun(k.answer, k.trace, desc, callbacks, left);
                  whole == (run.0, done + run.1, run.2)
        decreases left
      {
        var r := k.Invoke(WaitCall(desc));
        if r.errno == EINTR {
          left := left - 1;
          continue;
        }
        if r.errno != 0 {
          return true;
        }
        ghost var batch := Dispatch(callbacks, ReadyFds(r));
        ghost var rest := LoopRun(k.answer, k.trace, desc, callbacks, left - 1);
        assert done + (batch + rest.1) == (done + batch) + rest.1;
        RunCallbacks(ReadyFds(r));
        done := done + batch;
        left := left - 1;
      }
    }

    /** One batch: the callback of each registered ready descriptor, in order. */
    method RunCallbacks(fds: seq<int>)
      modifies this
      ensures descriptor == old(descriptor) && callbacks == old(callbacks)
      ensures handled == old(handled) + Dispatch(callbacks, fds)
    {
      for i := 0 to |fds|
        invariant descriptor == old(descriptor) && callbacks == old(callbacks)
        invariant handled == old(handled) + Dispatch(callbacks, fds[..i])
      {
        assert fds[..i + 1][..i] == fds[..i];
        if fds[i] in callbacks {
          handled := handled + [callbacks[fds[i]]];
        }
      }
      assert fds[..|fds|] == fds;
    }
  }
}
