/** scripts/sp3_benchmark.py: the streaming evaluator. A child process keeps the last `lookback` rows
    in a shifting buffer and answers one signal per bar; the parent sends one bar at a time. */
module StreamEval {
  import opened Common

  datatype Row = Row(open: real, high: real, low: real, close: real, volume: real)

  datatype Frame = Frame(session: int, t: string, row: Row)

  /** A strategy's answer; without a decision both parts are missing. */
  datatype Decision = Decision(action: string, probability: real)

  datatype Signal = Signal(session: int, t: string, action: Option<string>, probability: Option<real>)

  /** `on_bar` on the rows of the history and their timestamps. */
  type Strategy = (seq<Row>, seq<string>) -> Option<Decision>

  function Min(a: nat, b: nat): nat { if a < b then a else b }

  function LastFrames(frames: seq<Frame>, lookback: nat): seq<Frame> {
    frames[|frames| - Min(|frames|, lookback)..]
  }

  function Rows(frames: seq<Frame>): (r: seq<Row>)
    ensures |r| == |frames|
  {
    seq(|frames|, i requires 0 <= i < |frames| => frames[i].row)
  }

  function Times(frames: seq<Frame>): (r: seq<string>)
    ensures |r| == |frames|
  {
    seq(|frames|, i requires 0 <= i < |frames| => frames[i].t)
  }

  /** The strategy evaluated directly on the last min(n, lookback) of the n given frames. */
  function Direct(strategy: Strategy, lookback: nat, frames: seq<Frame>): Option<Decision> {
    var last := LastFrames(frames, lookback);
    strategy(Rows(last), Times(last))
  }

  function ReplyTo(strategy: Strategy, lookback: nat, frames: seq<Frame>): Signal
    requires |frames| > 0
  {
    var f := frames[|frames| - 1];
    match Direct(strategy, lookback, frames)
    case None => Signal(f.session, f.t, None, None)
    case Some(d) => Signal(f.session, f.t, Some(d.action), Some(d.probability))
  }

  // ---------- The child ----------

  /** The loop of `_child`, one received bar per call. */
  class Child {
    const lookback: nat
    const strategy: Strategy
    const buffer: array<Row>
    var stamps: seq<string>
    var count: nat
    ghost var received: seq<Frame>

    /** The used part of the buffer and the stamps hold the same last rows of what was received. */
    ghost predicate Valid()
      reads this, buffer
    {
      && lookback == buffer.Length >= 1 && count == |received|
      && buffer[..Min(count, lookback)] == Rows(LastFrames(received, lookback))
      && stamps == Times(LastFrames(received, lookback))
    }

    constructor (lookback: nat, strategy: Strategy)
      requires lookback >= 1
      ensures Valid() && fresh(buffer) && received == [] && this.lookback == lookback && this.strategy == strategy
    {
      this.lookback := lookback;
      this.strategy := strategy;
      buffer := new Row[lookback](_ => Row(0.0, 0.0, 0.0, 0.0, 0.0));
      stamps := [];
      count := 0;
      received := [];
    }

    method OnMessage(m: Frame) returns (reply: Signal)
      requires Valid()
      modifies this, buffer
      ensures Valid() && received == old(received) + [m]
      ensures reply == ReplyTo(strategy, lookback, received)
    {
      Store(m.row);
      LastFramesStep(received, m, lookback);
      if count < lookback {
        stamps := stamps + [m.t];
      } else {
        stamps := stamps[1..];
        stamps := stamps + [m.t];
      }
      received := received + [m];
      count := count + 1;
      var size := Min(count, lookback);
      var decision := strategy(buffer[..size], stamps);
      reply := match decision
        case None => Signal(m.session, m.t, None, None)
        case Some(d) => Signal(m.session, m.t, Some(d.action), Some(d.probability));
    }

    /** Append the row to the buffer, or shift it in at the end once the buffer is full. */
    method Store(row: Row)
      requires lookback == buffer.Length >= 1
      modifies buffer
      ensures buffer[..Min(count + 1, lookback)]
           == (if count < lookback then old(buffer[..count]) else old(buffer[1..])) + [row]
    {
      if count < lookback {
        buffer[count] := row;
      } else {
        forall i | 0 <= i < lookback - 1 { buffer[i] := buffer[i + 1]; }
        buffer[lookback - 1] := row;
      }
    }
  }

  /** The history after one more frame. */
  lemma {:induction false} LastFramesStep(frames: seq<Frame>, m: Frame, lookback: nat)
    requires lookback >= 1
    ensures var before, after := LastFrames(frames, lookback), LastFrames(frames + [m], lookback);
            var kept := if |frames| < lookback then 0 else 1;
            Rows(after) == Rows(before)[kept..] + [m.row] && Times(after) == Times(before)[kept..] + [m.t]
  {
    var before, after := LastFrames(frames, lookback), LastFrames(frames + [m], lookback);
    assert after == before[if |frames| < lookback then 0 else 1..] + [m];
  }

  // ---------- Parent and child over two pipes ----------

  datatype Outcome = Running | Raised | Returned

  /** The parent has sent the first `sent` rows and, when `waiting`, has not seen the last reply yet. The
      pipes hold frames and replies in flight; `seen` is what the child has received. */
  datatype System = System(sent: nat, waiting: bool, outcome: Outcome, decisions: seq<Option<string>>,
                           toChild: seq<Frame>, toParent: seq<Signal>, seen: seq<Frame>, alive: bool)

  datatype Setup = Setup(strategy: Strategy, lookback: nat, rows: seq<Frame>)

  ghost predicate Init(s: System) {
    s == System(0, false, Running, [], [], [], [], true)
  }

  /** `parse_signal`: the reply must name the awaited session and time, and must not carry an action
      without a probability or the other way round. */
  predicate Accepts(f: Frame, reply: Signal) {
    reply.session == f.session && reply.t == f.t && (reply.action == None <==> reply.probability == None)
  }

  ghost predicate Send(u: Setup, s: System, s': System) {
    && s.outcome == Running && !s.waiting && s.sent < |u.rows|
    && (s' == s.(sent := s.sent + 1, waiting := true, toChild := s.toChild + [u.rows[s.sent]])
        || (!s.alive && s' == s.(outcome := Raised)))
  }

  ghost predicate Receive(u: Setup, s: System, s': System) {
    && s.outcome == Running && s.waiting && 0 < s.sent <= |u.rows| && s.toParent != []
    && var reply := s.toParent[0];
       if !Accepts(u.rows[s.sent - 1], reply) then s' == s.(outcome := Raised, toParent := s.toParent[1..])
       else s' == s.(waiting := false, toParent := s.toParent[1..],
                     decisions := if s.sent == 1 then s.decisions else s.decisions + [reply.action])
  }

  /** No reply in time, or the child exited. */
  ghost predicate GiveUp(u: Setup, s: System, s': System) {
    s.outcome == Running && s.waiting && s' == s.(outcome := Raised)
  }

  ghost predicate Finish(u: Setup, s: System, s': System) {
    s.outcome == Running && !s.waiting && s.sent == |u.rows| && s' == s.(outcome := Returned)
  }

  ghost predicate ChildAnswers(u: Setup, s: System, s': System) {
    && s.alive && s.toChild != []
    && var seen := s.seen + [s.toChild[0]];
       s' == s.(toChild := s.toChild[1..], seen := seen,
                toParent := s.toParent + [ReplyTo(u.strategy, u.lookback, seen)])
  }

  ghost predicate ChildDies(u: Setup, s: System, s': System) {
    s.alive && s' == s.(alive := false)
  }

  ghost predicate Next(u: Setup, s: System, s': System) {
    || Send(u, s, s') || Receive(u, s, s') || GiveUp(u, s, s') || Finish(u, s, s')
    || ChildAnswers(u, s, s') || ChildDies(u, s, s')
  }

  ghost predicate IsRun(u: Setup, run: seq<System>) {
    && |run| > 0 && Init(run[0])
    && forall i :: 0 <= i < |run| - 1 ==> Next(u, run[i], run[i + 1])
  }

  /** Entry k of a direct evaluation: the strategy on the last min(k + 2, lookback) rows up to row k + 1. */
  function DirectAction(u: Setup, k: nat): Option<string>
    requires k + 1 < |u.rows|
  {
    match Direct(u.strategy, u.lookback, u.rows[..k + 2])
    case None => None
    case Some(d) => Some(d.action)
  }

  ghost predicate DecisionsDirect(u: Setup, decisions: seq<Option<string>>) {
    forall k :: 0 <= k < |decisions| ==> k + 1 < |u.rows| && decisions[k] == DirectAction(u, k)
  }

  /** How many rows have been answered, as far as the parent is concerned. */
  function Answered(s: System): int { if s.waiting then s.sent - 1 else s.sent }

  /** Lock step: at most one frame or reply is in flight, it belongs to the awaited row, and the child
      has seen exactly the rows sent before it. */
  ghost predicate LockStep(u: Setup, s: System) {
    && s.sent <= |u.rows| && (s.waiting ==> s.sent > 0)
    && (if !s.waiting then s.toChild == [] && s.toParent == [] && s.seen == u.rows[..s.sent]
        else (|| (s.toChild == [u.rows[s.sent - 1]] && s.toParent == [] && s.seen == u.rows[..s.sent - 1])
              || (s.toChild == [] && s.seen == u.rows[..s.sent]
                  && s.toParent == [ReplyTo(u.strategy, u.lookback, u.rows[..s.sent])])))
  }

  ghost predicate Inv(u: Setup, s: System) {
    && DecisionsDirect(u, s.decisions)
    && (s.outcome == Running ==> LockStep(u, s) && |s.decisions| == (if Answered(s) <= 1 then 0 else Answered(s) - 1))
    && (s.outcome == Returned ==> |s.decisions| == if |u.rows| <= 1 then 0 else |u.rows| - 1)
  }

  /** The reply to the first n rows: the parent accepts it for row n - 1, and its action is entry n - 2. */
  lemma {:induction false} ReplyFits(u: Setup, n: nat)
    requires 1 <= n <= |u.rows|
    ensures var reply := ReplyTo(u.strategy, u.lookback, u.rows[..n]);
            Accepts(u.rows[n - 1], reply) && (n >= 2 ==> reply.action == DirectAction(u, n - 2))
  {
    assert u.rows[..n][n - 1] == u.rows[n - 1];
  }

  lemma {:induction false} OneMoreDecision(u: Setup, decisions: seq<Option<string>>, action: Option<string>)
    requires DecisionsDirect(u, decisions) && |decisions| + 1 < |u.rows| && action == DirectAction(u, |decisions|)
    ensures DecisionsDirect(u, decisions + [action])
  {
  }

  lemma {:induction false} InvReceive(u: Setup, s: System, s': System)
    requires Inv(u, s) && Receive(u, s, s')
    ensures Inv(u, s')
  {
    var reply := ReplyTo(u.strategy, u.lookback, u.rows[..s.sent]);
    assert s.toParent == [reply] && s.seen == u.rows[..s.sent];
    ReplyFits(u, s.sent);
    if s.sent > 1 { OneMoreDecision(u, s.decisions, reply.action); }
  }

  lemma {:induction false} InvAnswer(u: Setup, s: System, s': System)
    requires Inv(u, s) && ChildAnswers(u, s, s')
    ensures Inv(u, s')
  {
    if s.outcome == Running {
      assert u.rows[..s.sent] == u.rows[..s.sent - 1] + [u.rows[s.sent - 1]];
    }
  }

  lemma {:induction false} InvSend(u: Setup, s: System, s': System)
    requires Inv(u, s) && Send(u, s, s')
    ensures Inv(u, s')
  {
    if s'.outcome == Running {
      assert s'.toChild == [u.rows[s.sent]] && s'.decisions == s.decisions;
      assert Answered(s') == Answered(s);
    }
  }

  lemma {:induction false} InvStep(u: Setup, s: System, s': System)
    requires Inv(u, s) && Next(u, s, s')
    ensures Inv(u, s')
  {
    if Send(u, s, s') { InvSend(u, s, s'); }
    else if Receive(u, s, s') { InvReceive(u, s, s'); }
    else if ChildAnswers(u, s, s') { InvAnswer(u, s, s'); }
  }

  lemma {:induction false} InvAlways(u: Setup, run: seq<System>, n: nat)
    requires IsRun(u, run) && n < |run|
    ensures Inv(u, run[n])
  {
    if n == 0 {
    } else {
      InvAlways(u, run, n - 1);
      InvStep(u, run[n - 1], run[n]);
    }
  }

  /** In every interleaving of parent and child, with the child dying or going silent at any moment:
      the decisions gathered so far are those of direct evaluation, entry by entry, and a call that
      returns has one for every row after the warm-up. */
  lemma {:induction false} StreamedEqualsDirect(u: Setup, run: seq<System>, n: nat)
    requires IsRun(u, run) && n < |run| && |u.rows| >= 1
    ensures DecisionsDirect(u, run[n].decisions)
    ensures run[n].outcome == Returned ==> |run[n].decisions| == |u.rows| - 1
  {
    InvAlways(u, run, n);
  }

  /** No reply is ever paired with another bar: what the parent reads is the answer to the row it has
      just sent, so `parse_signal` has nothing to reject. */
  lemma {:induction false} NoReplyMispaired(u: Setup, run: seq<System>, n: nat)
    requires IsRun(u, run) && n < |run| && run[n].outcome == Running && run[n].toParent != []
    ensures run[n].waiting && |run[n].toParent| == 1 && 0 < run[n].sent <= |u.rows|
    ensures run[n].toParent[0] == ReplyTo(u.strategy, u.lookback, u.rows[..run[n].sent])
    ensures Accepts(u.rows[run[n].sent - 1], run[n].toParent[0])
  {
    InvAlways(u, run, n);
  }
}
