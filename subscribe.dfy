/** subscribe.go: watching a key-value entry by polling and sending each change. */
module Subscription {
  import opened Wrappers
  import opened Bytes
  import opened Errors
  import opened Durations

  /** The floor of the per-attempt timeout. */
  const MinTimeout: Duration := 5 * Second

  /** The per-attempt timeout: `age`, but never less than five seconds. */
  function EffectiveTimeout(age: Duration): (t: Duration)
    ensures t >= MinTimeout && t >= age
    ensures t == age || t == MinTimeout
  {
    if age < MinTimeout then MinTimeout else age
  }

  /** The error callback: `true` means stop watching. */
  type ErrorCallback = Error -> bool

  /** A nil callback is replaced by one that never asks to stop. */
  function EffectiveCallback(errFunc: Option<ErrorCallback>): (f: ErrorCallback)
    ensures errFunc.None? ==> forall e :: !f(e)
    ensures errFunc.Some? ==> f == errFunc.value
  {
    if errFunc.None? then e => false else errFunc.value
  }

  /** What `GetKeyValue` gives: the entry, or an error (with a nil entry). */
  type Fetch = Result<seq<Byte>, Error>

  /** What one iteration of the loop observes: the caller's context is done, or it is not
      and the entry is fetched. */
  datatype Poll = Done | Fetched(fetch: Fetch)

  /** Why the watcher ended, or that it is still polling once the observations run out. */
  datatype Stop = ContextDone | CallbackExit | Polling

  /** What watching produced: the values sent on the channel, the number of fetches made,
      and how it ended. */
  datatype Outcome = Outcome(delivered: seq<seq<Byte>>, fetches: nat, stop: Stop)

  /** `bytes.Equal` on the entry: a nil entry equals an empty one, so nil is modelled as []. */
  function ValueOf(fetch: Fetch): seq<Byte>
  {
    if fetch.Ok? then fetch.value else []
  }

  /** `d` sent and `n` fetches made before the watcher goes on as `o`. */
  function Then(d: seq<seq<Byte>>, n: nat, o: Outcome): Outcome
  {
    Outcome(d + o.delivered, n + o.fetches, o.stop)
  }

  lemma ThenThen(d1: seq<seq<Byte>>, n1: nat, d2: seq<seq<Byte>>, n2: nat, o: Outcome)
    ensures Then(d1, n1, Then(d2, n2, o)) == Then(d1 + d2, n1 + n2, o)
  {
    assert d1 + (d2 + o.delivered) == (d1 + d2) + o.delivered;
  }

  /** The polling loop with `prev` the last value seen: a done context ends it before any
      fetch; a failed fetch asks the callback, which either ends it or lets it go on with
      `prev` kept; a fetched value is sent when it differs from `prev`, and becomes `prev`. */
  function Loop(prev: seq<Byte>, polls: seq<Poll>, f: ErrorCallback): Outcome
    decreases |polls|
  {
    if polls == [] then Outcome([], 0, Polling)
    else match polls[0]
      case Done => Outcome([], 0, ContextDone)
      case Fetched(Err(e)) =>
        if f(e) then Outcome([], 1, CallbackExit) else Then([], 1, Loop(prev, polls[1..], f))
      case Fetched(Ok(next)) =>
        Then(if prev == next then [] else [next], 1, Loop(next, polls[1..], f))
  }

  /** The watcher: the first fetch only sets the baseline (nil when it fails and the
      callback lets it go on), then the polling loop runs. */
  function Subscribe(initial: Fetch, polls: seq<Poll>, f: ErrorCallback): Outcome
  {
    if initial.Err? && f(initial.error) then Outcome([], 1, CallbackExit)
    else Then([], 1, Loop(ValueOf(initial), polls, f))
  }

  /** A poll that ends the loop. */
  predicate Ends(p: Poll, f: ErrorCallback)
  {
    p.Done? || (p.fetch.Err? && f(p.fetch.error))
  }

  /** The channel the watcher owns: what was sent on it and whether it was closed. */
  class Channel {
    var sent: seq<seq<Byte>>
    var closed: bool

    /** `make(chan []byte)`. */
    constructor ()
      ensures sent == [] && !closed
    {
      sent, closed := [], false;
    }

    /** `target <- x`: sending on a closed channel panics. */
    method Send(x: seq<Byte>)
      requires !closed
      modifies this
      ensures sent == old(sent) + [x] && !closed
    {
      sent := sent + [x];
    }

    /** `close(target)`: closing twice panics. */
    method Close()
      requires !closed
      modifies this
      ensures closed && sent == old(sent)
    {
      closed := true;
    }
  }

  /** The goroutine's body over the first fetch and the observations of the loop: every
      exit closes the channel (the deferred close), and running out of observations leaves
      it open and still polling. */
  method Watch(initial: Fetch, polls: seq<Poll>, f: ErrorCallback, target: Channel) returns (fetches: nat)
    requires !target.closed && target.sent == []
    modifies target
    ensures var o := Subscribe(initial, polls, f);
      target.sent == o.delivered && fetches == o.fetches &&
      (target.closed <==> o.stop != Polling)
  {
    fetches := 1;
    if initial.Err? {
      var exit := f(initial.error);
      if exit {
        target.Close();
        return;
      }
    }
    var prev := ValueOf(initial);
    ghost var goal := Subscribe(initial, polls, f);
    var i := 0;
    assert polls[i..] == polls;
    while i < |polls|
      invariant 0 <= i <= |polls| && !target.closed
      invariant goal == Then(target.sent, fetches, Loop(prev, polls[i..], f))
    {
      if polls[i].Done? {
        DoneStep(target.sent, fetches, prev, polls, i, f);
        target.Close();
        return;
      }
      var next := polls[i].fetch;
      if next.Err? {
        var exit := f(next.error);
        FailedStep(target.sent, fetches, prev, polls, i, f);
        fetches := fetches + 1;
        if exit {
          target.Close();
          return;
        }
      } else {
        FetchedStep(target.sent, fetches, prev, polls, i, f);
        fetches := fetches + 1;
        if prev != next.value {
          target.Send(next.value);
          prev := next.value;
        }
      }
      i := i + 1;
    }
  }

  /** A done context ends the loop before any fetch. */
  lemma DoneStep(d: seq<seq<Byte>>, n: nat, prev: seq<Byte>, polls: seq<Poll>, i: nat, f: ErrorCallback)
    requires i < |polls| && polls[i].Done?
    ensures Then(d, n, Loop(prev, polls[i..], f)) == Outcome(d, n, ContextDone)
  {
    assert polls[i..][0] == polls[i];
    assert d + [] == d;
  }

  /** A failed fetch counts as a fetch; the callback ends the loop or lets it go on. */
  lemma FailedStep(d: seq<seq<Byte>>, n: nat, prev: seq<Byte>, polls: seq<Poll>, i: nat, f: ErrorCallback)
    requires i < |polls| && polls[i].Fetched? && polls[i].fetch.Err?
    ensures f(polls[i].fetch.error) ==> Then(d, n, Loop(prev, polls[i..], f)) == Outcome(d, n + 1, CallbackExit)
    ensures !f(polls[i].fetch.error) ==>
      Then(d, n, Loop(prev, polls[i..], f)) == Then(d, n + 1, Loop(prev, polls[i + 1..], f))
  {
    assert polls[i..][0] == polls[i] && polls[i..][1..] == polls[i + 1..];
    assert d + [] == d;
    ThenThen(d, n, [], 1, Loop(prev, polls[i + 1..], f));
  }

  /** A fetched value counts as a fetch, is sent when it differs from the last one, and
      becomes the last one. */
  lemma FetchedStep(d: seq<seq<Byte>>, n: nat, prev: seq<Byte>, polls: seq<Poll>, i: nat, f: ErrorCallback)
    requires i < |polls| && polls[i].Fetched? && polls[i].fetch.Ok?
    ensures var v := polls[i].fetch.value;
      Then(d, n, Loop(prev, polls[i..], f)) ==
      Then(if prev == v then d else d + [v], n + 1, Loop(v, polls[i + 1..], f))
  {
    var v := polls[i].fetch.value;
    assert polls[i..][0] == polls[i] && polls[i..][1..] == polls[i + 1..];
    assert d + [] == d;
    ThenThen(d, n, if prev == v then [] else [v], 1, Loop(v, polls[i + 1..], f));
  }

  /** `SubscribeKeyValue`: the timeout and callback are settled first; the fetch outcomes of
      `GetKeyValue` for the key are given as the first fetch and the loop's observations. */
  method SubscribeKeyValue(age: Duration, errFunc: Option<ErrorCallback>, initial: Fetch, polls: seq<Poll>)
    returns (target: Channel, timeout: Duration, fetches: nat)
    ensures fresh(target) && timeout == EffectiveTimeout(age)
    ensures var o := Subscribe(initial, polls, EffectiveCallback(errFunc));
      target.sent == o.delivered && fetches == o.fetches && (target.closed <==> o.stop != Polling)
  {
    target := new Channel();
    timeout := age;
    if timeout < MinTimeout {
      timeout := MinTimeout;
    }
    var f := EffectiveCallback(errFunc);
    fetches := Watch(initial, polls, f, target);
  }

  /** No value is sent twice in a row, and the first one sent differs from `prev`. */
  lemma {:induction false} LoopChanges(prev: seq<Byte>, polls: seq<Poll>, f: ErrorCallback)
    ensures var d := Loop(prev, polls, f).delivered;
      (d != [] ==> d[0] != prev) && forall i :: 0 < i < |d| ==> d[i - 1] != d[i]
    decreases |polls|
  {
    if polls != [] && polls[0].Fetched? {
      match polls[0].fetch
      case Err(e) =>
        if !f(e) {
          LoopChanges(prev, polls[1..], f);
        }
      case Ok(next) =>
        LoopChanges(next, polls[1..], f);
    }
  }

  /** Deliveries are changes: never the baseline first, never the same value twice in a row. */
  lemma SubscribeChanges(initial: Fetch, polls: seq<Poll>, f: ErrorCallback)
    ensures var d := Subscribe(initial, polls, f).delivered;
      (d != [] ==> d[0] != ValueOf(initial)) && forall i :: 0 < i < |d| ==> d[i - 1] != d[i]
  {
    LoopChanges(ValueOf(initial), polls, f);
  }

  /** Every value sent was fetched by some poll of the loop. */
  lemma {:induction false} LoopDeliversFetched(prev: seq<Byte>, polls: seq<Poll>, f: ErrorCallback)
    ensures forall x :: x in Loop(prev, polls, f).delivered ==>
      exists i :: 0 <= i < |polls| && polls[i] == Fetched(Ok(x))
    decreases |polls|
  {
    if polls != [] && polls[0].Fetched? {
      var o := Loop(prev, polls, f);
      match polls[0].fetch
      case Err(e) =>
        if !f(e) {
          LoopDeliversFetched(prev, polls[1..], f);
          forall x | x in o.delivered
            ensures exists i :: 0 <= i < |polls| && polls[i] == Fetched(Ok(x))
          {
            var i :| 0 <= i < |polls[1..]| && polls[1..][i] == Fetched(Ok(x));
            assert polls[i + 1] == Fetched(Ok(x));
          }
        }
      case Ok(next) =>
        LoopDeliversFetched(next, polls[1..], f);
        forall x | x in o.delivered
          ensures exists i :: 0 <= i < |polls| && polls[i] == Fetched(Ok(x))
        {
          if x != next {
            var i :| 0 <= i < |polls[1..]| && polls[1..][i] == Fetched(Ok(x));
            assert polls[i + 1] == Fetched(Ok(x));
          } else {
            assert polls[0] == Fetched(Ok(x));
          }
        }
    }
  }

  /** Nothing that follows a poll that ends the loop matters: no fetch and no send happen
      after a done context or a callback asking to stop. */
  lemma {:induction false} EndCuts(prev: seq<Byte>, a: seq<Poll>, p: Poll, b1: seq<Poll>, b2: seq<Poll>, f: ErrorCallback)
    requires Ends(p, f)
    ensures Loop(prev, a + [p] + b1, f) == Loop(prev, a + [p] + b2, f)
    ensures Loop(prev, a + [p] + b1, f).stop != Polling
    ensures Loop(prev, a + [p] + b1, f).fetches <= |a| + 1
    decreases |a|
  {
    var s1, s2 := a + [p] + b1, a + [p] + b2;
    if a == [] {
      assert s1[0] == p && s2[0] == p;
    } else {
      assert s1[0] == a[0] && s2[0] == a[0];
      assert s1[1..] == a[1..] + [p] + b1;
      assert s2[1..] == a[1..] + [p] + b2;
      match a[0]
      case Done =>
      case Fetched(Err(e)) =>
        EndCuts(prev, a[1..], p, b1, b2, f);
      case Fetched(Ok(next)) =>
        EndCuts(next, a[1..], p, b1, b2, f);
    }
  }

  /** A failed poll the callback forgives changes nothing but the fetch count: `prev` is
      kept, so the same values are sent as without it. */
  lemma {:induction false} ForgivenFailure(prev: seq<Byte>, a: seq<Poll>, e: Error, b: seq<Poll>, f: ErrorCallback)
    requires !f(e)
    ensures var with := Loop(prev, a + [Fetched(Err(e))] + b, f);
      var without := Loop(prev, a + b, f);
      with.delivered == without.delivered && with.stop == without.stop
    decreases |a|
  {
    var s1, s2 := a + [Fetched(Err(e))] + b, a + b;
    if a == [] {
      assert s1[1..] == b && s2 == b;
    } else {
      assert s1[0] == a[0] && s2[0] == a[0];
      assert s1[1..] == a[1..] + [Fetched(Err(e))] + b;
      assert s2[1..] == a[1..] + b;
      match a[0]
      case Done =>
      case Fetched(Err(e')) =>
        ForgivenFailure(prev, a[1..], e, b, f);
      case Fetched(Ok(next)) =>
        ForgivenFailure(next, a[1..], e, b, f);
    }
  }

  /** Polls that all fail and are all forgiven send nothing and never end the loop. */
  lemma {:induction false} AllFailed(prev: seq<Byte>, polls: seq<Poll>, f: ErrorCallback)
    requires forall i :: 0 <= i < |polls| ==> polls[i].Fetched? && polls[i].fetch.Err? && !f(polls[i].fetch.error)
    ensures Loop(prev, polls, f) == Outcome([], |polls|, Polling)
    decreases |polls|
  {
    if polls != [] {
      assert forall i :: 0 <= i < |polls[1..]| ==> polls[1..][i] == polls[i + 1];
      AllFailed(prev, polls[1..], f);
    }
  }

  /** Failed polls that are all forgiven only add to the fetch count of what follows them. */
  lemma {:induction false} AllFailedThen(prev: seq<Byte>, polls: seq<Poll>, rest: seq<Poll>, f: ErrorCallback)
    requires forall i :: 0 <= i < |polls| ==> polls[i].Fetched? && polls[i].fetch.Err? && !f(polls[i].fetch.error)
    ensures Loop(prev, polls + rest, f) == Then([], |polls|, Loop(prev, rest, f))
    decreases |polls|
  {
    if polls == [] {
      assert polls + rest == rest;
      assert [] + Loop(prev, rest, f).delivered == Loop(prev, rest, f).delivered;
    } else {
      var s := polls + rest;
      assert s[0] == polls[0] && s[1..] == polls[1..] + rest;
      assert forall i :: 0 <= i < |polls[1..]| ==> polls[1..][i] == polls[i + 1];
      AllFailedThen(prev, polls[1..], rest, f);
      ThenThen([], 1, [], |polls| - 1, Loop(prev, rest, f));
    }
  }

  /** The loop's contexts derive from the first attempt's, which is already cancelled when
      the loop starts; with a transport that honours it every fetch fails. With the default
      callback the watcher then sends nothing and polls until the caller's context is done,
      which closes the channel (for ever with `context.Background()`). */
  lemma CancelledPolls(initial: Fetch, errs: seq<Error>)
    ensures var polls := seq(|errs|, i requires 0 <= i < |errs| => Fetched(Err(errs[i])));
      Subscribe(initial, polls, EffectiveCallback(None)) == Outcome([], |errs| + 1, Polling)
    ensures var polls := seq(|errs|, i requires 0 <= i < |errs| => Fetched(Err(errs[i])));
      Subscribe(initial, polls + [Done], EffectiveCallback(None)) == Outcome([], |errs| + 1, ContextDone)
  {
    var polls := seq(|errs|, i requires 0 <= i < |errs| => Fetched(Err(errs[i])));
    var f := EffectiveCallback(None);
    AllFailed(ValueOf(initial), polls, f);
    AllFailedThen(ValueOf(initial), polls, [Done], f);
  }

  /** With baseline V1 and polls V1, V2, V2, V3, exactly V2 and then V3 are sent. */
  lemma Example(v1: seq<Byte>, v2: seq<Byte>, v3: seq<Byte>, f: ErrorCallback)
    requires v1 != v2 && v2 != v3
    ensures Subscribe(Ok(v1), [Fetched(Ok(v1)), Fetched(Ok(v2)), Fetched(Ok(v2)), Fetched(Ok(v3))], f) ==
            Outcome([v2, v3], 5, Polling)
  {
    var polls := [Fetched(Ok(v1)), Fetched(Ok(v2)), Fetched(Ok(v2)), Fetched(Ok(v3))];
    assert polls[1..] == [Fetched(Ok(v2)), Fetched(Ok(v2)), Fetched(Ok(v3))];
    assert polls[1..][1..] == [Fetched(Ok(v2)), Fetched(Ok(v3))];
    assert polls[1..][1..][1..] == [Fetched(Ok(v3))];
    assert polls[1..][1..][1..][1..] == [];
    assert Loop(v3, [], f) == Outcome([], 0, Polling);
    assert Loop(v2, [Fetched(Ok(v3))], f) == Outcome([v3], 1, Polling);
    assert Loop(v2, polls[1..][1..], f) == Outcome([v3], 2, Polling);
    assert Loop(v1, polls[1..], f) == Outcome([v2, v3], 3, Polling);
    assert Loop(v1, polls, f) == Outcome([v2, v3], 4, Polling);
  }

  /** A failed first fetch the callback forgives leaves a nil baseline: the first poll's
      value is sent exactly when it is not empty. */
  lemma NilBaseline(e: Error, x: seq<Byte>, rest: seq<Poll>, f: ErrorCallback)
    requires !f(e)
    ensures var d := Subscribe(Err(e), [Fetched(Ok(x))] + rest, f).delivered;
      (d != [] && d[0] == x) <==> x != []
  {
    var polls := [Fetched(Ok(x))] + rest;
    assert polls[0] == Fetched(Ok(x)) && polls[1..] == rest;
    LoopChanges(x, rest, f);
  }

  /** A failed first fetch the callback does not forgive ends the watcher at once: one
      fetch, nothing sent, the channel closed. */
  lemma InitialExit(e: Error, polls: seq<Poll>, f: ErrorCallback)
    requires f(e)
    ensures Subscribe(Err(e), polls, f) == Outcome([], 1, CallbackExit)
  {
  }
}
