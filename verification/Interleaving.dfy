/** The two processes as one transition system: pipes may hold frames and lines, and the
    driver and the worker take steps in any order. Lockstep is a theorem about it. */
module Interleaving {
  import opened Wrappers
  import opened Protocol
  import opened Executors
  import opened ProcessDriver
  import opened Lockstep
  import Worker

  /** Frames written to stdin, how many the worker has read, lines it has written to
      stdout, how many the driver has read, and where the worker loop stands. */
  datatype World<+S> = World(
    sent: seq<RequestFrame>,
    consumed: nat,
    emitted: seq<RawResponse>,
    received: nat,
    stopped: bool,
    worker: Worker.State<S>)

  predicate Initial<S(==)>(loaded: Loaded<S>, w: World<S>) {
    && w.sent == [] && w.consumed == 0 && w.received == 0 && !w.stopped
    && match loaded
       case Done(_) => w.emitted == [] && w.worker == Worker.Running(None)
       case Threw(exc) => (w.emitted, w.worker) == Worker.Report(None, exc)
       case Hangs => w.emitted == [] && w.worker == Worker.Stuck
  }

  /** The driver writes the next frame once it has read a reply to every earlier one. */
  predicate DriverSends<S(==)>(r: SandboxRequest, w: World<S>, w': World<S>) {
    && !w.stopped
    && w.received == |w.sent| < |Requests(r)|
    && w' == w.(sent := w.sent + [Requests(r)[|w.sent|]])
  }

  predicate WorkerHandles<S(==)>(loaded: Loaded<S>, w: World<S>, w': World<S>) {
    && loaded.Done?
    && w.worker.Running?
    && w.consumed < |w.sent|
    && var (lines, next) := Worker.Handle(loaded.value, w.worker.instance, Encode(w.sent[w.consumed]));
       w' == w.(consumed := w.consumed + 1, emitted := w.emitted + lines, worker := next)
  }

  /** The driver reads one line and may end the run over it. */
  predicate DriverReads<S(==)>(w: World<S>, w': World<S>) {
    && !w.stopped
    && w.received < |w.sent|
    && w.received < |w.emitted|
    && w' == w.(received := w.received + 1, stopped := w'.stopped)
  }

  predicate DriverStops<S(==)>(w: World<S>, w': World<S>) {
    w' == w.(stopped := true)
  }

  predicate Step<S(==)>(loaded: Loaded<S>, r: SandboxRequest, w: World<S>, w': World<S>) {
    DriverSends(r, w, w') || WorkerHandles(loaded, w, w') || DriverReads(w, w') || DriverStops(w, w')
  }

  ghost predicate Run<S>(loaded: Loaded<S>, r: SandboxRequest, worlds: seq<World<S>>) {
    && worlds != []
    && Initial(loaded, worlds[0])
    && forall i :: 0 <= i < |worlds| - 1 ==> Step(loaded, r, worlds[i], worlds[i + 1])
  }

  ghost predicate Invariant<S>(loaded: Loaded<S>, r: SandboxRequest, w: World<S>) {
    && |w.sent| <= |Requests(r)|
    && w.sent == Requests(r)[..|w.sent|]
    && w.received <= |w.sent| <= w.received + 1
    && w.consumed <= |w.sent|
    && w.received <= |w.emitted|
    && Worker.Answers(loaded, EncodeAll(w.sent[..w.consumed])) == (w.emitted, w.worker)
  }

  lemma InvariantStarts<S>(loaded: Loaded<S>, r: SandboxRequest, w: World<S>)
    requires Initial(loaded, w)
    ensures Invariant(loaded, r, w)
  {
    assert EncodeAll(w.sent[..0]) == [];
  }

  lemma InvariantStep<S>(loaded: Loaded<S>, r: SandboxRequest, w: World<S>, w': World<S>)
    requires Invariant(loaded, r, w) && Step(loaded, r, w, w')
    ensures Invariant(loaded, r, w')
  {
    if DriverSends(r, w, w') {
      assert w'.sent[..w'.consumed] == w.sent[..w.consumed];
    } else if WorkerHandles(loaded, w, w') {
      var lines := EncodeAll(w'.sent[..w'.consumed]);
      assert lines[..|lines| - 1] == EncodeAll(w.sent[..w.consumed]);
    }
  }

  lemma {:induction false} InvariantThroughout<S>(loaded: Loaded<S>, r: SandboxRequest, worlds: seq<World<S>>, i: nat)
    requires Run(loaded, r, worlds) && i < |worlds|
    ensures Invariant(loaded, r, worlds[i])
  {
    if i == 0 {
      InvariantStarts(loaded, r, worlds[0]);
    } else {
      InvariantThroughout(loaded, r, worlds, i - 1);
      InvariantStep(loaded, r, worlds[i - 1], worlds[i]);
    }
  }

  /** In every interleaving the driver has sent only the next frame after the last line it
      read, so at most one request is ever unanswered and no bar is revealed before the answer
      to the previous one was read; and what is on the stream is at most one line per frame the
      worker has read, plus what candidate code printed there itself. */
  lemma AtMostOneUnanswered<S>(loaded: Loaded<S>, r: SandboxRequest, worlds: seq<World<S>>, i: nat)
    requires Run(loaded, r, worlds) && i < |worlds|
    ensures var w := worlds[i];
            && w.sent <= Requests(r)
            && |w.sent| - 1 <= w.received <= |w.sent|
            && w.received <= |w.emitted| && w.consumed <= |w.sent|
            && (loaded.Done? ==>
                  |w.emitted| <= w.consumed + Worker.Printed(loaded.value, EncodeAll(w.sent[..w.consumed])))
  {
    InvariantThroughout(loaded, r, worlds, i);
    var w := worlds[i];
    if loaded.Done? {
      Worker.OneReplyPerLine(loaded.value, EncodeAll(w.sent[..w.consumed]));
    }
  }

  /** Line k of the worker is fixed by the first k + 1 frames. */
  lemma LineIsFixed<S>(loaded: Loaded<S>, r: SandboxRequest, w: World<S>, k: nat)
    requires Invariant(loaded, r, w)
    requires k < |w.emitted| && k < |w.sent|
    ensures var lines := Worker.Answers(loaded, EncodeAll(Requests(r)[..k + 1])).0;
            k < |lines| && lines[k] == w.emitted[k]
  {
    hide Worker.Answers, Worker.Printed;
    var read, asked := EncodeAll(w.sent[..w.consumed]), EncodeAll(Requests(r)[..k + 1]);
    if w.consumed <= k + 1 {
      assert asked[..w.consumed] == read;
      Worker.AnswersExtend(loaded, asked, w.consumed);
    } else {
      assert read[..k + 1] == asked;
      Worker.AnswersExtend(loaded, read, k + 1);
      if Worker.Answers(loaded, asked).1.Running? {
        Worker.RepliesKeepUp(loaded, asked);
      } else {
        Worker.AnswersSettle(loaded, read, k + 1);
      }
    }
  }

  /** Whatever the interleaving, every line the driver reads is the one owed to that exchange
      by a worker that has read the frames up to it. */
  lemma EveryReadIsPredicted<S>(loaded: Loaded<S>, r: SandboxRequest, worlds: seq<World<S>>, i: nat, k: nat)
    requires Run(loaded, r, worlds) && i < |worlds|
    requires k < worlds[i].received
    ensures k < |Requests(r)| && k < |worlds[i].emitted|
    ensures Says(loaded, r, k) == Owes(worlds[i].emitted[k])
  {
    InvariantThroughout(loaded, r, worlds, i);
    LineIsFixed(loaded, r, worlds[i], k);
  }
}
