// The manager's side of a peer connection: a frame loop that attaches the peer's
// server once, relays, and detaches it at the end (crates/channelserver/src/call_ws.rs,
// crates/userserver/src/call/ws.rs).

module PeerLoop {
  import opened Options
  import opened Signal
  import opened ManagerSpec
  import opened CallManagers
  import opened CallRuns

  /**
   * What happens while the loop waits: the WebSocket yields a parsed frame, a close, or
   * something that is skipped; or some other handler of the server uses the manager.
   */
  datatype Incoming = Text(frame: SignalMsg) | Close | Skipped | Elsewhere(op: Op)

  /** The verified connection parameters. `endsOnHangup` holds on a user server and not on a channel server. */
  datatype Peer = Peer(callId: CallId, server: ServerId, sink: SinkId, endsOnHangup: bool)

  function Row(p: Peer, members: seq<ParticipantId>): Participant { Participant(p.server, members, [], p.sink) }

  /** The operation one frame triggers, if any. */
  function FrameOp(p: Peer, joined: bool, frame: SignalMsg): Option<Op> {
    match frame
    case JoinCall(_, _, members) => if joined then None else Some(Join(p.callId, Row(p, members)))
    case Sdp(_, _, _, _, _) => Some(Route(frame))
    case Ice(_, _, _, _) => Some(Route(frame))
    case Mute(_, _, _) => Some(Route(frame))
    case Hangup(_) => if p.endsOnHangup then Some(End(p.callId, "hangup")) else None
    case _ => None
  }

  predicate Stops(frame: SignalMsg) { frame.Hangup? || frame.LeaveCall? }

  function OpSeq(op: Option<Op>): seq<Op> { if op.Some? then [op.value] else [] }

  /** The manager operations of a connection's life, with or without what others do meanwhile. */
  function PeerOps(p: Peer, joined: bool, input: seq<Incoming>, all: bool): seq<Op>
    decreases |input|
  {
    if input == [] || input[0].Close? then [Leave(p.callId, p.server)]
    else if input[0].Skipped? then PeerOps(p, joined, input[1..], all)
    else if input[0].Elsewhere? then
      OpSeq(if all then Some(input[0].op) else None) + PeerOps(p, joined, input[1..], all)
    else
      var frame := input[0].frame;
      OpSeq(FrameOp(p, joined, frame)) +
      if Stops(frame) then [Leave(p.callId, p.server)] else PeerOps(p, joined || frame.JoinCall?, input[1..], all)
  }

  /** One pass through the loop's `match`. */
  method OnFrame(m: CallManager, p: Peer, joined: bool, frame: SignalMsg) returns (joined': bool, stop: bool)
    modifies m
    ensures m.State() == RunOne(old(m.State()), FrameOp(p, joined, frame))
    ensures joined' == (joined || frame.JoinCall?) && stop == Stops(frame)
    ensures frame.JoinCall? && !joined && p.callId in old(m.calls) ==>
              Attached(m.State(), p.callId, Participant(p.server, frame.members, [], p.sink))
  {
    joined', stop := joined, false;
    ghost var op := FrameOp(p, joined, frame);
    match frame
    case JoinCall(_, _, members) =>
      if !joined {
        joined' := true;
        assert op == Some(Join(p.callId, Row(p, members)));
        JoinAttaches(m.State(), p.callId, Row(p, members));
        var _ := m.Join(p.callId, Participant(p.server, members, [], p.sink));
      }
    case Sdp(_, _, _, _, _) => m.Route(frame);
    case Ice(_, _, _, _) => m.Route(frame);
    case Mute(_, _, _) => m.Route(frame);
    case Hangup(_) =>
      if p.endsOnHangup {
        assert op == Some(End(p.callId, "hangup"));
        m.End(p.callId, "hangup");
      }
      stop := true;
    case LeaveCall(_) => stop := true;
    case _ =>
  }

  function RunOne(m: Manager, op: Option<Op>): Manager { if op.Some? then Step(m, op.value) else m }

  /** Some other handler's use of the manager. */
  method OtherHandler(m: CallManager, op: Op)
    modifies m
    ensures m.State() == Step(old(m.State()), op)
  {
    match op
    case OpenDirect(invited, id, token) => m.OpenDirect(invited, id, token);
    case MintToken(id, domain, token) => var _ := m.MintToken(id, domain, token);
    case GetRoom(path, id) => var _ := m.GetRoom(path, id);
    case Join(id, row) => var _ := m.Join(id, row);
    case AddMember(id, domain, member) => m.AddMember(id, domain, member);
    case RemoveMember(id, domain, member) => var _ := m.RemoveMember(id, domain, member);
    case Leave(id, domain) => m.Leave(id, domain);
    case End(id, reason) => m.End(id, reason);
    case Route(frame) => m.Route(frame);
    case SetMuted(id, domain, member, on) => m.SetMuted(id, domain, member, on);
  }

  /** The connection's whole life, interleaved in any way with the other users of the manager. */
  method PeerSession(m: CallManager, p: Peer, input: seq<Incoming>)
    modifies m
    ensures m.State() == Run(old(m.State()), PeerOps(p, false, input, true))
  {
    var joined := false;
    var i := 0;
    assert input[0..] == input;
    while i < |input| && !input[i].Close?
      invariant i <= |input|
      invariant Run(m.State(), PeerOps(p, joined, input[i..], true)) == Run(old(m.State()), PeerOps(p, false, input, true))
    {
      ghost var before, rest := m.State(), input[i..];
      assert rest[1..] == input[i + 1..];
      i := i + 1;
      if input[i - 1].Elsewhere? {
        OtherHandler(m, input[i - 1].op);
        RunThen(before, Some(rest[0].op), PeerOps(p, joined, rest[1..], true));
      } else if input[i - 1].Text? {
        ghost var op := FrameOp(p, joined, rest[0].frame);
        var stop;
        joined, stop := OnFrame(m, p, joined, input[i - 1].frame);
        RunThen(before, op, if stop then [Leave(p.callId, p.server)] else PeerOps(p, joined, rest[1..], true));
        if stop {
          i := |input|;
        }
      }
    }
    RunThen(m.State(), Some(Leave(p.callId, p.server)), []);
    m.Leave(p.callId, p.server);
  }

  lemma RunThen(m: Manager, op: Option<Op>, rest: seq<Op>)
    ensures Run(m, OpSeq(op) + rest) == Run(RunOne(m, op), rest)
  {
    if op.Some? {
      assert ([op.value] + rest)[1..] == rest;
    } else {
      assert [] + rest == rest;
    }
  }

  lemma JoinAttaches(m: Manager, id: CallId, row: Participant)
    ensures id in m.calls ==> Attached(StepJoin(m, id, row), id, row)
  {
    if id in m.calls {
      var rows := Without(m.calls[id].participants, row.domain) + [row];
      assert rows[|rows| - 1] == row;
    }
  }

  // ── what one connection does ──────────────────────────────────────────

  /** The frames a connection reads: up to its close, or the first goodbye. */
  function FramesRead(input: seq<Incoming>): seq<SignalMsg> {
    if input == [] || input[0].Close? then []
    else if !input[0].Text? then FramesRead(input[1..])
    else [input[0].frame] + if input[0].frame.Hangup? || input[0].frame.LeaveCall? then [] else FramesRead(input[1..])
  }

  /** The members the first join frame names. */
  function FirstJoin(frames: seq<SignalMsg>): Option<seq<ParticipantId>> {
    if frames == [] then None else if frames[0].JoinCall? then Some(frames[0].members) else FirstJoin(frames[1..])
  }

  /** The frames between servers. */
  function Signals(frames: seq<SignalMsg>): seq<SignalMsg> {
    if frames == [] then []
    else (if frames[0].Sdp? || frames[0].Ice? || frames[0].Mute? then [frames[0]] else []) + Signals(frames[1..])
  }

  predicate HangsUp(frames: seq<SignalMsg>) { frames != [] && (frames[0].Hangup? || HangsUp(frames[1..])) }

  function JoinedRows(ops: seq<Op>): seq<Participant> {
    if ops == [] then [] else (if ops[0].Join? then [ops[0].row] else []) + JoinedRows(ops[1..])
  }

  function RoutedFrames(ops: seq<Op>): seq<SignalMsg> {
    if ops == [] then [] else (if ops[0].Route? then [ops[0].frame] else []) + RoutedFrames(ops[1..])
  }

  function EndReasons(ops: seq<Op>): seq<string> {
    if ops == [] then [] else (if ops[0].End? then [ops[0].reason] else []) + EndReasons(ops[1..])
  }

  /**
   * What a connection does with what it reads. The first join frame, and no later one,
   * attaches the peer's row with the members it names; every session description,
   * candidate and mute is routed, in order; a hangup ends the call on a user server.
   */
  predicate Obeys(p: Peer, joined: bool, frames: seq<SignalMsg>, ops: seq<Op>) {
    JoinedRows(ops) == AttachedRows(p, joined, frames) && RoutedFrames(ops) == Signals(frames) &&
    EndReasons(ops) == if p.endsOnHangup && HangsUp(frames) then ["hangup"] else []
  }

  function AttachedRows(p: Peer, joined: bool, frames: seq<SignalMsg>): seq<Participant> {
    if joined || FirstJoin(frames).None? then [] else [Participant(p.server, FirstJoin(frames).value, [], p.sink)]
  }

  lemma FrameFirst(frame: SignalMsg, frames: seq<SignalMsg>)
    ensures var all := [frame] + frames;
            FirstJoin(all) == (if frame.JoinCall? then Some(frame.members) else FirstJoin(frames)) &&
            Signals(all) == (if frame.Sdp? || frame.Ice? || frame.Mute? then [frame] else []) + Signals(frames) &&
            (HangsUp(all) <==> frame.Hangup? || HangsUp(frames))
  {
    assert ([frame] + frames)[1..] == frames;
  }

  lemma OpFirst(op: Option<Op>, ops: seq<Op>)
    ensures var all := OpSeq(op) + ops;
            JoinedRows(all) == (if op.Some? && op.value.Join? then [op.value.row] else []) + JoinedRows(ops) &&
            RoutedFrames(all) == (if op.Some? && op.value.Route? then [op.value.frame] else []) + RoutedFrames(ops) &&
            EndReasons(all) == (if op.Some? && op.value.End? then [op.value.reason] else []) + EndReasons(ops)
  {
    if op.Some? {
      assert (OpSeq(op) + ops)[1..] == ops;
    } else {
      assert OpSeq(op) + ops == ops;
    }
  }

  lemma ObeysThen(p: Peer, joined: bool, frame: SignalMsg, frames: seq<SignalMsg>, ops: seq<Op>)
    requires Obeys(p, joined || frame.JoinCall?, frames, ops)
    requires frame.Hangup? ==> frames == []
    ensures Obeys(p, joined, [frame] + frames, OpSeq(FrameOp(p, joined, frame)) + ops)
  {
    FrameFirst(frame, frames);
    OpFirst(FrameOp(p, joined, frame), ops);
    FrameDoes(p, joined, frame);
  }

  lemma FrameDoes(p: Peer, joined: bool, frame: SignalMsg)
    ensures var op := FrameOp(p, joined, frame);
            (if op.Some? && op.value.Join? then [op.value.row] else []) ==
              (if !joined && frame.JoinCall? then [Participant(p.server, frame.members, [], p.sink)] else []) &&
            (if op.Some? && op.value.Route? then [op.value.frame] else []) ==
              (if frame.Sdp? || frame.Ice? || frame.Mute? then [frame] else []) &&
            (if op.Some? && op.value.End? then [op.value.reason] else []) ==
              (if p.endsOnHangup && frame.Hangup? then ["hangup"] else [])
  {
  }

  lemma ObeysNothing(p: Peer, joined: bool)
    ensures Obeys(p, joined, [], [Leave(p.callId, p.server)])
  {
    OpFirst(Some(Leave(p.callId, p.server)), []);
    assert OpSeq(Some(Leave(p.callId, p.server))) + [] == [Leave(p.callId, p.server)];
  }

  /** In every connection, whatever it receives. */
  lemma {:induction false} ConnectionDoes(p: Peer, joined: bool, input: seq<Incoming>)
    ensures Obeys(p, joined, FramesRead(input), PeerOps(p, joined, input, false))
    decreases |input|
  {
    if input == [] || input[0].Close? {
      ObeysNothing(p, joined);
    } else if !input[0].Text? {
      ConnectionDoes(p, joined, input[1..]);
      var rest := PeerOps(p, joined, input[1..], false);
      assert OpSeq(None) + rest == rest;
    } else {
      var frame := input[0].frame;
      if Stops(frame) {
        ObeysNothing(p, joined || frame.JoinCall?);
        ObeysThen(p, joined, frame, [], [Leave(p.callId, p.server)]);
      } else {
        ConnectionDoes(p, joined || frame.JoinCall?, input[1..]);
        ObeysThen(p, joined, frame, FramesRead(input[1..]), PeerOps(p, joined || frame.JoinCall?, input[1..], false));
      }
    }
  }

  /** What others do besides leaves this call's rows alone. */
  predicate Spares(op: Op, id: CallId) {
    match op
    case OpenDirect(_, c, _) => c != id
    case GetRoom(_, c) => c != id
    case MintToken(_, _, _) => true
    case Route(_) => true
    case _ => op.id != id
  }

  /** Neither a goodbye nor somebody else's operation on this call. */
  predicate Quiet(p: Peer, now: Incoming) {
    !now.Close? && (now.Text? ==> !now.frame.Hangup? && !now.frame.LeaveCall?) && (now.Elsewhere? ==> Spares(now.op, p.callId))
  }

  /** What one thing that happens does to the manager. */
  function NowOp(p: Peer, joined: bool, now: Incoming): Option<Op> {
    if now.Text? then FrameOp(p, joined, now.frame) else if now.Elsewhere? then Some(now.op) else None
  }

  lemma RowsStay(m: Manager, op: Op, id: CallId, row: Participant)
    requires Attached(m, id, row) && Spares(op, id)
    ensures Attached(Step(m, op), id, row)
  {
  }

  /**
   * Once a live call's connection read a join frame, the peer's row is attached for as
   * long as the connection lasts and others leave the call alone: routed frames reach it.
   */
  lemma {:induction false} StaysAttached(m: Manager, p: Peer, joined: bool, members: seq<ParticipantId>, input: seq<Incoming>)
    requires forall i :: 0 <= i < |input| ==> Quiet(p, input[i])
    requires if joined then Attached(m, p.callId, Participant(p.server, members, [], p.sink))
             else p.callId in m.calls && FirstJoin(FramesRead(input)) == Some(members)
    ensures var ops := PeerOps(p, joined, input, true);
            ops != [] && ops[|ops| - 1] == Leave(p.callId, p.server) &&
            Attached(Run(m, ops[..|ops| - 1]), p.callId, Participant(p.server, members, [], p.sink))
    decreases |input|
  {
    if input != [] {
      var now := input[0];
      var op := NowOp(p, joined, now);
      var joined' := joined || (now.Text? && now.frame.JoinCall?);
      var rest := PeerOps(p, joined', input[1..], true);
      StillLive(m, p, joined, members, now);
      StaysAttached(RunOne(m, op), p, joined', members, input[1..]);
      NowFirst(p, joined, input);
      RunThen(m, op, rest[..|rest| - 1]);
      assert (OpSeq(op) + rest)[..|OpSeq(op) + rest| - 1] == OpSeq(op) + rest[..|rest| - 1];
    }
  }

  lemma NowFirst(p: Peer, joined: bool, input: seq<Incoming>)
    requires input != [] && Quiet(p, input[0])
    ensures PeerOps(p, joined, input, true) ==
              OpSeq(NowOp(p, joined, input[0])) + PeerOps(p, joined || (input[0].Text? && input[0].frame.JoinCall?), input[1..], true)
  {
    var rest := PeerOps(p, joined, input[1..], true);
    assert OpSeq(None) + rest == rest;
  }

  lemma StillLive(m: Manager, p: Peer, joined: bool, members: seq<ParticipantId>, now: Incoming)
    requires Quiet(p, now)
    requires if joined then Attached(m, p.callId, Participant(p.server, members, [], p.sink)) else p.callId in m.calls
    ensures var op := NowOp(p, joined, now);
            var row := Participant(p.server, members, [], p.sink);
            p.callId in RunOne(m, op).calls &&
            (joined || (now.Text? && now.frame.JoinCall? && now.frame.members == members) ==> Attached(RunOne(m, op), p.callId, row))
  {
    if now.Text? && now.frame.JoinCall? && !joined {
      JoinAttaches(m, p.callId, Row(p, now.frame.members));
    } else if now.Elsewhere? && joined {
      RowsStay(m, now.op, p.callId, Participant(p.server, members, [], p.sink));
    }
  }

  function Joins(ops: seq<Op>): nat {
    if ops == [] then 0 else (if ops[0].Join? then 1 else 0) + Joins(ops[1..])
  }

  /** An operation a connection of `p` may perform: only about its own call, its own server and its own channel. */
  predicate Own(p: Peer, op: Op) {
    match op
    case Join(id, row) => id == p.callId && row.domain == p.server && row.sink == p.sink && row.muted == []
    case Leave(id, d) => id == p.callId && d == p.server
    case End(id, _) => id == p.callId && p.endsOnHangup
    case Route(_) => true
    case _ => false
  }

  predicate Shaped(p: Peer, joined: bool, ops: seq<Op>) {
    ops != [] && ops[|ops| - 1] == Leave(p.callId, p.server) &&
    Joins(ops) <= (if joined then 0 else 1) && forall i :: 0 <= i < |ops| ==> Own(p, ops[i])
  }

  /** One more frame in front. */
  lemma ShapedThen(p: Peer, joined: bool, frame: SignalMsg, rest: seq<Op>)
    requires Shaped(p, joined || frame.JoinCall?, rest)
    ensures Shaped(p, joined, OpSeq(FrameOp(p, joined, frame)) + rest)
  {
    var op := FrameOp(p, joined, frame);
    JoinsThen(op, rest);
    assert op.Some? ==> Own(p, op.value);
  }

  /**
   * A connection attaches its server at most once, under the server and the call it
   * proved a token for whatever its frames claim, never mutes anybody, ends the
   * call only on a user server, and always detaches last.
   */
  lemma ConnectionShape(p: Peer, joined: bool, input: seq<Incoming>)
    ensures Shaped(p, joined, PeerOps(p, joined, input, false)) && NoMuting(PeerOps(p, joined, input, false))
  {
    PeerShape(p, joined, input);
    assert forall op :: Own(p, op) ==> !op.SetMuted?;
  }

  lemma {:induction false} PeerShape(p: Peer, joined: bool, input: seq<Incoming>)
    ensures Shaped(p, joined, PeerOps(p, joined, input, false))
    decreases |input|
  {
    if input != [] && (input[0].Skipped? || input[0].Elsewhere?) {
      PeerShape(p, joined, input[1..]);
      var rest := PeerOps(p, joined, input[1..], false);
      assert OpSeq(None) + rest == rest;
    } else if input != [] && input[0].Text? {
      var frame := input[0].frame;
      if !Stops(frame) { PeerShape(p, joined || frame.JoinCall?, input[1..]); }
      ShapedThen(p, joined, frame,
                 if Stops(frame) then [Leave(p.callId, p.server)] else PeerOps(p, joined || frame.JoinCall?, input[1..], false));
    }
  }

  lemma JoinsThen(op: Option<Op>, rest: seq<Op>)
    ensures Joins(OpSeq(op) + rest) == (if op.Some? && op.value.Join? then 1 else 0) + Joins(rest)
  {
    if op.Some? {
      assert ([op.value] + rest)[1..] == rest;
    } else {
      assert [] + rest == rest;
    }
  }

  lemma LeaveDetaches(m: Manager, p: Peer)
    ensures !HasParticipant(Step(m, Leave(p.callId, p.server)), p.callId, p.server)
  {
    if p.callId in m.calls {
      WithoutEffect(m.calls[p.callId].participants, p.server);
    }
  }

  /** Whatever the peer sent and others did meanwhile, once a connection closed its server is not in the call. */
  lemma {:induction false} ClosedDetaches(m: Manager, p: Peer, joined: bool, input: seq<Incoming>)
    ensures !HasParticipant(Run(m, PeerOps(p, joined, input, true)), p.callId, p.server)
    decreases |input|
  {
    if input == [] || input[0].Close? {
      LeaveLast(m, p, None);
    } else if input[0].Skipped? {
      ClosedDetaches(m, p, joined, input[1..]);
    } else if input[0].Elsewhere? {
      ClosedDetaches(Step(m, input[0].op), p, joined, input[1..]);
      RunThen(m, Some(input[0].op), PeerOps(p, joined, input[1..], true));
    } else {
      var frame := input[0].frame;
      var op := FrameOp(p, joined, frame);
      if Stops(frame) {
        LeaveLast(m, p, op);
      } else {
        ClosedDetaches(RunOne(m, op), p, joined || frame.JoinCall?, input[1..]);
        RunThen(m, op, PeerOps(p, joined || frame.JoinCall?, input[1..], true));
      }
    }
  }

  lemma LeaveLast(m: Manager, p: Peer, op: Option<Op>)
    ensures !HasParticipant(Run(m, OpSeq(op) + [Leave(p.callId, p.server)]), p.callId, p.server)
    ensures op.None? ==> OpSeq(op) + [Leave(p.callId, p.server)] == [Leave(p.callId, p.server)]
  {
    RunThen(m, op, [Leave(p.callId, p.server)]);
    RunThen(RunOne(m, op), Some(Leave(p.callId, p.server)), []);
    LeaveDetaches(RunOne(m, op), p);
  }

  /**
   * Detaching goes by server, not by connection: when a server attached again over a
   * second connection, the first connection's close takes the second one's row.
   */
  lemma StaleCloseDetaches(m: Manager, first: Peer, second: Peer, members: seq<ParticipantId>)
    requires first.callId == second.callId && first.server == second.server && first.callId in m.calls
    ensures var rejoined := Step(m, Join(second.callId, Row(second, members)));
            Attached(rejoined, second.callId, Row(second, members)) &&
            !HasParticipant(Step(rejoined, Leave(first.callId, first.server)), second.callId, second.server)
  {
    LeaveDetaches(Step(m, Join(second.callId, Row(second, members))), first);
    var rows := Without(m.calls[first.callId].participants, first.server) + [Row(second, members)];
    assert rows[|rows| - 1] == Row(second, members);
  }
}
