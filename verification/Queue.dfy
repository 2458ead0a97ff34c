/**
 The queue as the bus sees it: somewhere messages are pushed, one at a time, and a push may fail.
 */
module Queues {
  import opened Batches

  datatype Message = Message(queue: string, name: string, payload: Payload)

  function CallbackStep(o: Options, c: Callback): Step {
    match c
    case Before_ => o.before
    case Progress => o.progress
    case Then => o.onThen
    case Catch => o.onCatch
    case OnFailure => o.failure
    case Finally => o.onFinally
  }

  /** A callback is pushed bare: its own queue or the batch's, no envelope. */
  function CallbackMessage(o: Options, s: Step): Message {
    Message(if s.queue != "" then s.queue else o.queue, s.name, s.payload)
  }

  /** How the pushes to come will go, in order; past the end of the list they all succeed. */
  type Outcomes = seq<bool>

  predicate Goes(o: Outcomes) {
    o == [] || o[0]
  }

  function Later(o: Outcomes): Outcomes {
    if o == [] then [] else o[1..]
  }

  /** What is left of the outcomes once n pushes are done. */
  function Rest(o: Outcomes, n: nat): Outcomes {
    if n == 0 then o else Rest(Later(o), n - 1)
  }

  /** How many of n pushes succeed before one fails. */
  function Until(o: Outcomes, n: nat): (k: nat)
    ensures k <= n
  {
    if n == 0 || !Goes(o) then 0 else 1 + Until(Later(o), n - 1)
  }

  /** What gets through of pushes that stop at the first failure. */
  function Sent(o: Outcomes, ms: seq<Message>): seq<Message> {
    ms[..Until(o, |ms|)]
  }

  /** How many pushes that takes, the failing one included. */
  function Tried(o: Outcomes, n: nat): nat {
    if Until(o, n) == n then n else Until(o, n) + 1
  }

  /** What gets through of pushes that go on after a failure. */
  function Through(o: Outcomes, ms: seq<Message>): seq<Message> {
    if ms == [] then [] else (if Goes(o) then [ms[0]] else []) + Through(Later(o), ms[1..])
  }

  class Queue {
    var messages: seq<Message>
    var outcomes: Outcomes

    method Push(m: Message) returns (ok: bool)
      modifies this
      ensures ok == Goes(old(outcomes)) && outcomes == Later(old(outcomes))
      ensures messages == if ok then old(messages) + [m] else old(messages)
    {
      ok := outcomes == [] || outcomes[0];
      outcomes := if outcomes == [] then [] else outcomes[1..];
      if ok {
        messages := messages + [m];
      }
    }

    /** One push after another, stopping at the first that fails. */
    method PushAll(ms: seq<Message>) returns (ok: bool)
      modifies this
      ensures ok == (Until(old(outcomes), |ms|) == |ms|)
      ensures messages == old(messages) + Sent(old(outcomes), ms)
      ensures outcomes == Rest(old(outcomes), Tried(old(outcomes), |ms|))
    {
      var i := 0;
      while i < |ms|
        invariant 0 <= i <= |ms| && messages == old(messages) + ms[..i] && outcomes == Rest(old(outcomes), i)
        invariant Until(old(outcomes), |ms|) == i + Until(outcomes, |ms| - i)
      {
        RestOneMore(old(outcomes), i);
        PrefixGrows(old(messages), ms, i);
        ok := Push(ms[i]);
        if !ok {
          return false;
        }
        i := i + 1;
      }
      ok := true;
    }

    /** One push after another, whatever becomes of each. */
    method PushEach(ms: seq<Message>)
      modifies this
      ensures messages == old(messages) + Through(old(outcomes), ms)
      ensures outcomes == Rest(old(outcomes), |ms|)
    {
      var i := 0;
      while i < |ms|
        invariant 0 <= i <= |ms| && outcomes == Rest(old(outcomes), i)
        invariant old(messages) + Through(old(outcomes), ms) == messages + Through(outcomes, ms[i..])
      {
        RestOneMore(old(outcomes), i);
        ThroughUnfolds(messages, outcomes, ms, i);
        var _ := Push(ms[i]);
        i := i + 1;
      }
    }
  }

  lemma PrefixGrows(sent: seq<Message>, ms: seq<Message>, i: nat)
    requires i < |ms|
    ensures sent + ms[..i] + [ms[i]] == sent + ms[..i + 1]
  {
    assert ms[..i + 1] == ms[..i] + [ms[i]];
  }

  /** The next push, and what goes through of those after it. */
  lemma ThroughUnfolds(sent: seq<Message>, o: Outcomes, ms: seq<Message>, i: nat)
    requires i < |ms|
    ensures sent + Through(o, ms[i..])
         == (if Goes(o) then sent + [ms[i]] else sent) + Through(Later(o), ms[i + 1..])
  {
    assert ms[i..][1..] == ms[i + 1..];
    Regroup(sent, if Goes(o) then [ms[i]] else [], Through(Later(o), ms[i + 1..]));
  }

  lemma Regroup(a: seq<Message>, b: seq<Message>, c: seq<Message>)
    ensures a + (b + c) == (a + b) + c && a + [] == a
  {
  }

  lemma {:induction false} RestOneMore(o: Outcomes, n: nat)
    ensures Rest(o, n + 1) == Later(Rest(o, n))
  {
    if n > 0 { RestOneMore(Later(o), n - 1); }
  }

  lemma {:induction false} UntilJoins(o: Outcomes, m: nat, n: nat)
    ensures Until(o, m + n) == if Until(o, m) == m then m + Until(Rest(o, m), n) else Until(o, m)
  {
    if m > 0 { UntilJoins(Later(o), m - 1, n); }
  }

  /** Pushing two lists and stopping at the first failure: the second is begun only if the first all got through. */
  lemma SentJoins(o: Outcomes, a: seq<Message>, b: seq<Message>)
    ensures Sent(o, a + b) == if Until(o, |a|) == |a| then a + Sent(Rest(o, |a|), b) else Sent(o, a)
    ensures Until(o, |a + b|) == |a + b| <==> Until(o, |a|) == |a| && Until(Rest(o, |a|), |b|) == |b|
  {
    UntilJoins(o, |a|, |b|);
  }

  lemma {:induction false} ThroughJoins(o: Outcomes, a: seq<Message>, b: seq<Message>)
    ensures Through(o, a + b) == Through(o, a) + Through(Rest(o, |a|), b)
  {
    if a == [] {
      assert a + b == b;
    } else {
      var head, rest := if Goes(o) then [a[0]] else [], Rest(Later(o), |a| - 1);
      assert (a + b)[1..] == a[1..] + b;
      calc {
        Through(o, a + b);
        head + Through(Later(o), a[1..] + b);
        { ThroughJoins(Later(o), a[1..], b); }
        head + (Through(Later(o), a[1..]) + Through(rest, b));
        { Regroup(head, Through(Later(o), a[1..]), Through(rest, b)); }
        (head + Through(Later(o), a[1..])) + Through(rest, b);
        Through(o, a) + Through(Rest(o, |a|), b);
      }
    }
  }

  /** With no failure ahead, everything gets through. */
  lemma {:induction false} AllThrough(ms: seq<Message>)
    ensures Through([], ms) == ms && Sent([], ms) == ms
  {
    if ms != [] {
      AllThrough(ms[1..]);
      assert Until([], |ms|) == 1 + Until([], |ms[1..]|);
      assert [ms[0]] + ms[1..] == ms;
    }
  }
}
