/** The audit log writer: it collects entries from a channel and writes them in
    batches, on a timer, when a batch is full, and while it drains at shutdown. */
module LogWriter {
  import opened Text

  const BATCH_LIMIT := 256

  /** What the writer's select sees while it runs. */
  datatype Event<E> = Received(entry: E) | Closed | Tick | Cancelled

  /** What it sees while it drains after the cancellation. */
  datatype DrainEvent<E> = DrainReceived(entry: E) | DrainClosed | Deadline | NothingLeft

  /** The entries received up to the first event that ends the running phase. */
  function RunEntries<E>(events: seq<Event<E>>): seq<E> {
    if |events| == 0 || events[0].Closed? || events[0].Cancelled? then []
    else if events[0].Received? then [events[0].entry] + RunEntries(events[1..])
    else RunEntries(events[1..])
  }

  /** How the running phase ends: not yet, by closing the channel, or by cancellation. */
  datatype End = Running | ByClose | ByCancel

  function RunEnd<E>(events: seq<Event<E>>): End {
    if |events| == 0 then Running
    else if events[0].Closed? then ByClose
    else if events[0].Cancelled? then ByCancel
    else RunEnd(events[1..])
  }

  function DrainEntries<E>(events: seq<DrainEvent<E>>): seq<E> {
    if |events| == 0 || !events[0].DrainReceived? then [] else [events[0].entry] + DrainEntries(events[1..])
  }

  predicate DrainEnds<E>(events: seq<DrainEvent<E>>) {
    |events| > 0 && (!events[0].DrainReceived? || DrainEnds(events[1..]))
  }

  function Concat<E>(batches: seq<seq<E>>): seq<E> {
    if |batches| == 0 then [] else Concat(batches[..|batches| - 1]) + batches[|batches| - 1]
  }

  predicate BatchesOk<E>(batches: seq<seq<E>>) {
    forall i :: 0 <= i < |batches| ==> 1 <= |batches[i]| <= BATCH_LIMIT
  }

  /** What the writer has done with the entries it has received. */
  predicate Accounts<E(==)>(batches: seq<seq<E>>, buf: seq<E>, received: seq<E>) {
    Concat(batches) + buf == received && BatchesOk(batches) && |buf| < BATCH_LIMIT
  }

  /** How many ticks the running phase sees. */
  function Ticks<E>(events: seq<Event<E>>): nat {
    if |events| == 0 || events[0].Closed? || events[0].Cancelled? then 0
    else (if events[0].Tick? then 1 else 0) + Ticks(events[1..])
  }

  /** How many batches were written before they were full. */
  function ShortOnes<E>(batches: seq<seq<E>>): nat {
    if |batches| == 0 then 0
    else ShortOnes(batches[..|batches| - 1]) + if |batches[|batches| - 1]| < BATCH_LIMIT then 1 else 0
  }

  /** Write the buffer out, if there is anything in it.  A failed write is not repeated. */
  method Flush<E(==)>(batches: seq<seq<E>>, buf: seq<E>) returns (batches': seq<seq<E>>, buf': seq<E>)
    requires BatchesOk(batches) && |buf| <= BATCH_LIMIT
    ensures Concat(batches') == Concat(batches) + buf && BatchesOk(batches') && buf' == []
    ensures ShortOnes(batches') == ShortOnes(batches) + if 0 < |buf| < BATCH_LIMIT then 1 else 0
  {
    if |buf| == 0 {
      return batches, buf;
    }
    batches', buf' := batches + [buf], [];
    assert batches'[..|batches|] == batches;
  }

  /** Take one entry in, writing a batch out when it is full. */
  method Append<E(==)>(batches: seq<seq<E>>, buf: seq<E>, e: E, ghost received: seq<E>)
    returns (batches': seq<seq<E>>, buf': seq<E>)
    requires Accounts(batches, buf, received)
    ensures Accounts(batches', buf', received + [e])
    ensures ShortOnes(batches') == ShortOnes(batches) && |buf'| <= |buf| + 1
  {
    batches', buf' := batches, buf + [e];
    assert Concat(batches) + buf' == (Concat(batches) + buf) + [e];
    if |buf'| >= BATCH_LIMIT {
      batches', buf' := Flush(batches', buf');
    }
  }

  method Drain<E(==)>(events: seq<DrainEvent<E>>, batches0: seq<seq<E>>, buf0: seq<E>, ghost received: seq<E>)
    returns (batches: seq<seq<E>>, buf: seq<E>, returned: bool)
    requires Accounts(batches0, buf0, received)
    ensures Accounts(batches, buf, received + DrainEntries(events))
    ensures returned <==> DrainEnds(events)
    ensures returned ==> buf == []
    ensures ShortOnes(batches) <= ShortOnes(batches0) + if returned then 1 else 0
  {
    batches, buf := batches0, buf0;
    ghost var sofar := received;
    for i := 0 to |events|
      invariant Accounts(batches, buf, sofar)
      invariant sofar + DrainEntries(events[i..]) == received + DrainEntries(events)
      invariant DrainEnds(events) <==> DrainEnds(events[i..])
      invariant ShortOnes(batches) == ShortOnes(batches0)
    {
      assert events[i..][1..] == events[i + 1..];
      match events[i]
      case DrainReceived(e) =>
        batches, buf := Append(batches, buf, e, sofar);
        Assoc(sofar, [e], DrainEntries(events[i + 1..]));
        sofar := sofar + [e];
      case _ =>
        batches, buf := Flush(batches, buf);
        return batches, buf, true;
    }
    returned := false;
  }

  /** The writer over any script of events: the batches it attempts, followed by what is still
      buffered, are the received entries in order; every batch has 1 to 256 entries; and when
      it has returned nothing is buffered.  While it runs, nothing received before a tick is
      still buffered; and a batch is written before it is full only at a tick or at the end. */
  method RunLogWriter<E(==)>(events: seq<Event<E>>, drain: seq<DrainEvent<E>>)
    returns (batches: seq<seq<E>>, buf: seq<E>, returned: bool)
    ensures Concat(batches) + buf == RunEntries(events) + (if RunEnd(events).ByCancel? then DrainEntries(drain) else [])
    ensures forall i :: 0 <= i < |batches| ==> 1 <= |batches[i]| <= 256
    ensures |buf| < 256
    ensures returned <==> RunEnd(events).ByClose? || (RunEnd(events).ByCancel? && DrainEnds(drain))
    ensures returned ==> buf == []
    ensures RunEnd(events).Running? ==>
      forall n :: 0 <= n < |events| && events[n].Tick? ==> |buf| <= |RunEntries(events[n + 1..])|
    ensures ShortOnes(batches) <= Ticks(events) + if returned then 1 else 0
  {
    batches, buf := [], [];
    ghost var sofar: seq<E> := [];
    ghost var since: nat := 0;
    for i := 0 to |events|
      invariant Accounts(batches, buf, sofar)
      invariant UpTo(events, i, sofar, ShortOnes(batches))
      invariant Recent(events, since, i, |buf|)
    {
      UpToNext(events, i, sofar, ShortOnes(batches));
      match events[i]
      case Cancelled =>
        batches, buf, returned := Drain(drain, batches, buf, sofar);
        return;
      case Closed =>
        batches, buf := Flush(batches, buf);
        return batches, buf, true;
      case Received(e) =>
        OneMore(events, since, i, |buf|);
        batches, buf := Append(batches, buf, e, sofar);
        sofar := sofar + [e];
      case Tick =>
        batches, buf := Flush(batches, buf);
        NoneSince(events, i);
        since := i + 1;
    }
    returned := false;
    UpToAll(events, sofar, ShortOnes(batches));
    NothingOlder(events, since, |buf|);
  }

  /** The first i events all count: sofar is what they brought, and early batches are ticks. */
  predicate UpTo<E(==)>(events: seq<Event<E>>, i: nat, sofar: seq<E>, early: nat) {
    && StillRuns(events, i)
    && sofar + RunEntries(events[i..]) == RunEntries(events)
    && RunEnd(events) == RunEnd(events[i..])
    && early + Ticks(events[i..]) <= Ticks(events)
  }

  /** What the event at i contributes. */
  lemma {:induction false} UpToNext<E>(events: seq<Event<E>>, i: nat, sofar: seq<E>, early: nat)
    requires i < |events| && UpTo(events, i, sofar, early)
    ensures match events[i]
      case Received(e) => UpTo(events, i + 1, sofar + [e], early)
      case Tick => UpTo(events, i + 1, sofar, early) && UpTo(events, i + 1, sofar, early + 1)
      case Closed => RunEntries(events) == sofar && RunEnd(events) == ByClose && early <= Ticks(events)
      case Cancelled => RunEntries(events) == sofar && RunEnd(events) == ByCancel && early <= Ticks(events)
  {
    assert events[i..][1..] == events[i + 1..];
    if events[i].Received? {
      Assoc(sofar, [events[i].entry], RunEntries(events[i + 1..]));
    }
  }

  lemma {:induction false} UpToAll<E>(events: seq<Event<E>>, sofar: seq<E>, early: nat)
    requires UpTo(events, |events|, sofar, early)
    ensures RunEntries(events) == sofar && RunEnd(events) == Running && early <= Ticks(events)
  {
    assert events[|events|..] == [];
  }

  lemma {:induction false} NoneSince<E>(events: seq<Event<E>>, i: nat)
    requires i < |events|
    ensures Recent(events, i + 1, i + 1, 0)
  {
    assert events[i + 1..i + 1] == [];
  }

  /** None of the first i events ends the running phase. */
  predicate StillRuns<E>(events: seq<Event<E>>, i: nat) {
    i <= |events| && forall j :: 0 <= j < i ==> !events[j].Closed? && !events[j].Cancelled?
  }

  /** `since` is behind the last tick, and no more is buffered than was received from there on. */
  predicate Recent<E>(events: seq<Event<E>>, since: nat, i: nat, buffered: nat) {
    && since <= i <= |events| && buffered <= |RunEntries(events[since..i])|
    && forall n :: since <= n < i ==> !events[n].Tick?
  }

  lemma {:induction false} OneMore<E>(events: seq<Event<E>>, since: nat, i: nat, buffered: nat)
    requires i < |events| && events[i].Received? && StillRuns(events, i) && Recent(events, since, i, buffered)
    ensures Recent(events, since, i + 1, buffered + 1)
  {
    var part := events[since..i + 1];
    assert part[..i - since] == events[since..i] && part[i - since..] == [events[i]];
    EntriesKeepOrder(part, i - since);
    assert RunEntries([events[i]]) == [events[i].entry] + RunEntries([events[i]][1..]);
  }

  lemma {:induction false} NothingOlder<E>(events: seq<Event<E>>, since: nat, buffered: nat)
    requires StillRuns(events, |events|) && Recent(events, since, |events|, buffered)
    ensures forall n :: 0 <= n < |events| && events[n].Tick? ==> buffered <= |RunEntries(events[n + 1..])|
  {
    forall n | 0 <= n < |events| && events[n].Tick? ensures buffered <= |RunEntries(events[n + 1..])| {
      EntriesKeepOrder(events[n + 1..], since - (n + 1));
      assert events[n + 1..][since - (n + 1)..] == events[since..] == events[since..|events|];
    }
  }

  /** Until the channel closes or the context is cancelled, every event counts: what is received
      later comes behind what was received before. */
  lemma {:induction false} EntriesKeepOrder<E>(events: seq<Event<E>>, n: nat)
    requires n <= |events| && forall i :: 0 <= i < n ==> !events[i].Closed? && !events[i].Cancelled?
    ensures RunEntries(events) == RunEntries(events[..n]) + RunEntries(events[n..])
    ensures RunEnd(events) == RunEnd(events[n..])
  {
    if n > 0 {
      EntriesKeepOrder(events[1..], n - 1);
      assert events[..n][1..] == events[1..][..n - 1];
      assert events[1..][n - 1..] == events[n..];
    } else {
      assert events[0..] == events;
    }
  }
}
