/**
 The client's history of commands kept for replay, `client/src/command_history.rs`:
 only ever appended to with later ticks and pruned from the front.
 */
module CommandHistories {
  import opened Options
  import opened Wrapping

  datatype Entry<T> = Entry(tick: u16, command: T)

  /** The suffix that starts at the first entry later than `start`. */
  function Pruned<T>(b: seq<Entry<T>>, start: u16): seq<Entry<T>> {
    if b == [] || SequenceGreaterThan(b[0].tick, start) then b else Pruned(b[1..], start)
  }

  /** Every entry later than `start`, in order. */
  function LaterThan<T>(b: seq<Entry<T>>, start: u16): seq<Entry<T>> {
    if b == [] then []
    else (if SequenceGreaterThan(b[0].tick, start) then [b[0]] else []) + LaterThan(b[1..], start)
  }

  /** Once one entry is later than `start`, all after it are. */
  ghost predicate StaysLater<T>(b: seq<Entry<T>>, start: u16) {
    forall i, j :: 0 <= i < j < |b| && SequenceGreaterThan(b[i].tick, start) ==> SequenceGreaterThan(b[j].tick, start)
  }

  lemma {:induction false} LaterIsAll<T>(b: seq<Entry<T>>, start: u16)
    ensures |LaterThan(b, start)| <= |b|
    ensures LaterThan(b, start) == b <==> forall i :: 0 <= i < |b| ==> SequenceGreaterThan(b[i].tick, start)
  {
    if b != [] {
      LaterIsAll(b[1..], start);
      if SequenceGreaterThan(b[0].tick, start) {
        assert LaterThan(b, start)[1..] == LaterThan(b[1..], start);
        assert forall i :: 0 < i < |b| ==> b[i] == b[1..][i - 1];
      }
    }
  }

  /** Exactly when pruning from the front leaves what a filter would: when no later entry precedes one that is not. */
  lemma {:induction false} PrunesExactlyIff<T>(b: seq<Entry<T>>, start: u16)
    ensures Pruned(b, start) == LaterThan(b, start) <==> StaysLater(b, start)
  {
    if b != [] {
      if SequenceGreaterThan(b[0].tick, start) {
        LaterIsAll(b, start);
        assert StaysLater(b, start) ==> forall j :: 0 < j < |b| ==> SequenceGreaterThan(b[j].tick, start);
      } else {
        PrunesExactlyIff(b[1..], start);
        assert LaterThan(b, start) == LaterThan(b[1..], start);
        StaysLaterTail(b, start);
      }
    }
  }

  lemma StaysLaterTail<T>(b: seq<Entry<T>>, start: u16)
    requires b != [] && !SequenceGreaterThan(b[0].tick, start)
    ensures StaysLater(b, start) <==> StaysLater(b[1..], start)
  {
    hide SequenceGreaterThan;
    assert forall i :: 0 < i < |b| ==> b[i] == b[1..][i - 1];
    if StaysLater(b[1..], start) {
      forall i, j | 0 <= i < j < |b| && SequenceGreaterThan(b[i].tick, start) ensures SequenceGreaterThan(b[j].tick, start) {
        assert SequenceGreaterThan(b[1..][i - 1].tick, start);
        assert SequenceGreaterThan(b[1..][j - 1].tick, start);
      }
    }
  }

  // ----- the object -----

  class CommandHistory<T> {
    var buffer: seq<Entry<T>>

    constructor ()
      ensures buffer == []
    {
      buffer := [];
    }

    method CanInsert(tick: u16) returns (ok: bool)
      ensures ok == Appendable(buffer, tick)
    {
      return buffer == [] || SequenceGreaterThan(tick, buffer[|buffer| - 1].tick);
    }

    method Insert(tick: u16, command: T) returns (panicked: bool)
      modifies this
      ensures panicked == !Appendable(old(buffer), tick)
      ensures buffer == if panicked then old(buffer) else old(buffer) + [Entry(tick, command)]
    {
      if buffer != [] && !SequenceGreaterThan(tick, buffer[|buffer| - 1].tick) {
        return true;
      }
      buffer := buffer + [Entry(tick, command)];
      return false;
    }

    method RemoveToAndIncluding(index: u16)
      modifies this
      ensures buffer == Pruned(old(buffer), index)
    {
      while buffer != []
        invariant Pruned(buffer, index) == Pruned(old(buffer), index)
        decreases |buffer|
      {
        if SequenceGreaterThan(buffer[0].tick, index) {
          return;
        }
        buffer := buffer[1..];
      }
    }

    /** What is replayed is what stays, and it is everything later than `start` exactly when the ticks allow it. */
    method Replays(start: u16) returns (output: seq<Entry<T>>)
      modifies this
      ensures output == buffer == Pruned(old(buffer), start)
      ensures output == LaterThan(old(buffer), start) <==> StaysLater(old(buffer), start)
    {
      PrunesExactlyIff(buffer, start);
      RemoveToAndIncluding(start);
      output := [];
      for i := 0 to |buffer|
        invariant output == buffer[..i]
      {
        output := output + [buffer[i]];
      }
    }
  }

  predicate Appendable<T>(b: seq<Entry<T>>, tick: u16) {
    b == [] || SequenceGreaterThan(tick, b[|b| - 1].tick)
  }

  // ----- every run, on unbounded ticks -----

  datatype Command<T> = Command(at: int, command: T)

  datatype Op<T> = Insert(tick: int, command: T) | Replays(tick: int)

  datatype Outcome<T> = Running(buffer: seq<Entry<T>>) | Panicked

  function Step<T>(b: seq<Entry<T>>, op: Op<T>): Outcome<T> {
    match op
    case Insert(t, c) => if Appendable(b, Wrap(t)) then Running(b + [Entry(Wrap(t), c)]) else Panicked
    case Replays(t) => Running(Pruned(b, Wrap(t)))
  }

  function Run<T>(ops: seq<Op<T>>): Outcome<T> {
    if ops == [] then Running([])
    else
      match Run(ops[..|ops| - 1])
      case Running(b) => Step(b, ops[|ops| - 1])
      case Panicked => Panicked
  }

  function After<T>(kept: seq<Command<T>>, start: int): seq<Command<T>> {
    if kept == [] then [] else (if kept[0].at > start then [kept[0]] else []) + After(kept[1..], start)
  }

  /** The commands inserted and not yet covered by a replayed tick. */
  function Kept<T>(ops: seq<Op<T>>): seq<Command<T>> {
    if ops == [] then []
    else
      var kept := Kept(ops[..|ops| - 1]);
      match ops[|ops| - 1]
      case Insert(t, c) => kept + [Command(t, c)]
      case Replays(t) => After(kept, t)
  }

  ghost predicate Near<T>(kept: seq<Command<T>>, tick: int) {
    forall i :: 0 <= i < |kept| ==> -HALF < kept[i].at - tick < HALF
  }

  /** Every tick used is within half range of the commands then kept. */
  ghost predicate Windowed<T>(ops: seq<Op<T>>) {
    forall n :: 0 <= n < |ops| ==> Near(Kept(ops[..n]), ops[n].tick)
  }

  ghost predicate Shows<T>(b: seq<Entry<T>>, kept: seq<Command<T>>) {
    && |b| == |kept|
    && (forall i :: 0 <= i < |b| ==> b[i] == Entry(Wrap(kept[i].at), kept[i].command))
    && (forall i, j :: 0 <= i < j < |kept| ==> kept[i].at < kept[j].at)
  }

  lemma {:induction false} PruneShows<T>(b: seq<Entry<T>>, kept: seq<Command<T>>, start: int)
    requires Shows(b, kept) && Near(kept, start)
    ensures Shows(Pruned(b, Wrap(start)), After(kept, start))
  {
    hide SequenceGreaterThan, Wrap;
    if b != [] {
      WindowOrder(kept[0].at, start);
      if kept[0].at > start {
        AllAfter(kept, start);
      } else {
        PruneShows(b[1..], kept[1..], start);
        assert After(kept, start) == After(kept[1..], start);
      }
    }
  }

  lemma {:induction false} AllAfter<T>(kept: seq<Command<T>>, start: int)
    requires forall i :: 0 <= i < |kept| ==> kept[i].at > start
    ensures After(kept, start) == kept
  {
    if kept != [] { AllAfter(kept[1..], start); }
  }

  lemma AppendShows<T>(b: seq<Entry<T>>, kept: seq<Command<T>>, tick: int, c: T)
    requires Shows(b, kept) && Near(kept, tick)
    ensures Appendable(b, Wrap(tick)) <==> kept == [] || tick > kept[|kept| - 1].at
    ensures Appendable(b, Wrap(tick)) ==> Shows(b + [Entry(Wrap(tick), c)], kept + [Command(tick, c)])
  {
    hide SequenceGreaterThan, Wrap;
    if b != [] { WindowOrder(tick, kept[|kept| - 1].at); }
  }

  /** In every windowed run the buffer is exactly the kept commands, in ascending order of their unbounded ticks. */
  lemma {:induction false} EveryRunShowsKept<T>(ops: seq<Op<T>>)
    requires Windowed(ops) && Run(ops).Running?
    ensures Shows(Run(ops).buffer, Kept(ops))
  {
    hide Shows, Near, SequenceGreaterThan, Wrap, Appendable;
    if ops == [] {
      NothingShows<T>();
    } else {
      var n := |ops| - 1;
      WindowedPrefix(ops);
      EveryRunShowsKept(ops[..n]);
      var b, kept := Run(ops[..n]).buffer, Kept(ops[..n]);
      match ops[n]
      case Insert(t, c) => AppendShows(b, kept, t, c);
      case Replays(t) => PruneShows(b, kept, t);
    }
  }

  lemma NothingShows<T>()
    ensures Shows<T>([], [])
  {
  }

  lemma WindowedPrefix<T>(ops: seq<Op<T>>)
    requires Windowed(ops) && ops != []
    ensures Windowed(ops[..|ops| - 1]) && Near(Kept(ops[..|ops| - 1]), ops[|ops| - 1].tick)
  {
    hide Near;
    var before := ops[..|ops| - 1];
    assert forall k :: 0 <= k < |before| ==> before[..k] == ops[..k];
  }

  /** Within the window a run panics exactly on an insertion that is not later than the last kept command. */
  lemma PanicsIffNotLater<T>(ops: seq<Op<T>>, op: Op<T>)
    requires Windowed(ops + [op]) && Run(ops).Running?
    ensures Run(ops + [op]).Panicked? <==>
            op.Insert? && Kept(ops) != [] && op.tick <= Kept(ops)[|Kept(ops)| - 1].at
  {
    hide Near, SequenceGreaterThan, Wrap, Shows, Appendable;
    assert (ops + [op])[..|ops|] == ops;
    WindowedPrefix(ops + [op]);
    EveryRunShowsKept(ops);
    if op.Insert? { AppendShows(Run(ops).buffer, Kept(ops), op.tick, op.command); }
  }

  /** And a replay hands out exactly the kept commands after its start tick. */
  lemma ReplaysAreTheLaterOnes<T>(ops: seq<Op<T>>, start: int)
    requires Windowed(ops + [Replays(start)]) && Run(ops).Running?
    ensures Run(ops + [Replays(start)]).Running?
    ensures var out, kept := Run(ops + [Replays(start)]).buffer, After(Kept(ops), start);
            |out| == |kept| && forall i :: 0 <= i < |out| ==> out[i] == Entry(Wrap(kept[i].at), kept[i].command)
  {
    var all := ops + [Replays(start)];
    assert all[..|ops|] == ops;
    EveryRunShowsKept(all) by { PanicsIffNotLater(ops, Replays(start)); }
  }
}
