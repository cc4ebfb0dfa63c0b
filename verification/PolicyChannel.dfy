/**
 The stream-check conversation: the inspecting task of the policy engine, and
 the gateway's session that numbers its requests and checks the replies.
 */
module PolicyChannel {
  import opened Common
  import opened SseEvents
  import opened StreamInspection
  import BudgetHandOver

  datatype Decision = Unspecified | Allow | Block | Terminate | RetryableFailure

  datatype Payload = Open | Chunk(data: seq<Byte>) | Close

  datatype Request = Request(requestId: string, sequence: nat, payload: Option<Payload>)

  datatype PolicyResult = PolicyResult(decision: Decision, error: Option<ErrorCode>)

  datatype Response = Response(requestId: string, sequence: nat, result: Option<PolicyResult>, releaseBytes: nat)

  function ResponseOf(requestId: string, sequence: nat, inspection: Inspection): Response {
    var decision := if inspection.error.Some? then Terminate else Allow;
    Response(requestId, sequence, Some(PolicyResult(decision, inspection.error)), inspection.releaseBytes)
  }

  function Violation(requestId: string, sequence: nat): Response {
    Response(requestId, sequence, Some(PolicyResult(Terminate, Some(ProtocolViolation))), 0)
  }

  /** What a request says about the inspection of its response; zero is no limit of its own. */
  datatype Context = Context(requestId: string, tokenBudget: nat, maxResponseBytes: nat)

  datatype OpenMessage = OpenMessage(
    requestId: string, sequence: nat, isOpen: bool, context: Option<Context>, hasModelRequest: bool)

  predicate ValidOpen(open: OpenMessage) {
    open.requestId != "" && open.sequence == 0 && open.isOpen && open.context.Some? && open.hasModelRequest &&
    open.context.value.requestId == open.requestId
  }

  /** The service accepts exactly the openings a gateway sends for a request that has a name. */
  lemma ValidOpenIff(open: OpenMessage)
    ensures ValidOpen(open) <==>
            exists context: Context :: context.requestId != "" && open == OpenMessage(context.requestId, 0, true, Some(context), true)
  {
    if ValidOpen(open) {
      assert open == OpenMessage(open.context.value.requestId, 0, true, Some(open.context.value), true);
    }
  }

  /** The engine's policy with the limits of one response. */
  function ResponsePolicy(engine: Policy, context: Context, estimatedTokens: nat): Policy {
    engine.(tokenBudget := BudgetHandOver.ResponseBudget(context.tokenBudget, estimatedTokens),
            maxResponseBytes := if context.maxResponseBytes == 0 then engine.maxResponseBytes else context.maxResponseBytes)
  }

  /** Scan and text check stay the engine's; a response without a limit of its own has the engine's. */
  lemma ResponsePolicyIs(engine: Policy, context: Context, estimatedTokens: nat)
    ensures var p := ResponsePolicy(engine, context, estimatedTokens);
            && p.isUtf8 == engine.isUtf8 && p.scan == engine.scan
            && p.maxResponseBytes in {engine.maxResponseBytes, context.maxResponseBytes}
            && (context.maxResponseBytes > 0 ==> p.maxResponseBytes == context.maxResponseBytes)
            && (context.maxResponseBytes == 0 ==> p.maxResponseBytes == engine.maxResponseBytes)
            && (p.tokenBudget > 0 ==> p.tokenBudget + estimatedTokens == context.tokenBudget)
  {
  }

  /** The spawned task that answers chunk and close messages after the open. */
  class CheckStreamTask {
    const requestId: string
    const inspector: StreamInspector
    var expectedSequence: nat
    var running: bool

    constructor (requestId: string, policy: Policy)
      ensures this.requestId == requestId && expectedSequence == 1 && running
      ensures fresh(inspector) && inspector.policy == policy && inspector.View() == START
    {
      this.requestId := requestId;
      inspector := new StreamInspector(policy);
      expectedSequence, running := 1, true;
    }

    /** The first message. Only an allowed request gets a task; a malformed open gets no answer but a status. */
    static method Start(open: OpenMessage, engine: Policy, evaluation: PolicyResult, estimatedTokens: nat)
      returns (reply: Option<Response>, task: Option<CheckStreamTask>)
      ensures reply == if ValidOpen(open) then Some(Response(open.requestId, 0, Some(evaluation), 0)) else None
      ensures task.Some? <==> ValidOpen(open) && evaluation.decision.Allow?
      ensures task.Some? ==>
                && fresh(task.value) && fresh(task.value.inspector) && task.value.requestId == open.requestId
                && task.value.running && task.value.expectedSequence == 1 && task.value.inspector.View() == START
                && task.value.inspector.policy == ResponsePolicy(engine, open.context.value, estimatedTokens)
    {
      if open.requestId == "" || open.sequence != 0 || !open.isOpen || open.context.None? || !open.hasModelRequest ||
         open.context.value.requestId != open.requestId {
        return None, None;
      }
      reply := Some(Response(open.requestId, 0, Some(evaluation), 0));
      if !evaluation.decision.Allow? {
        return reply, None;
      }
      var spawned := new CheckStreamTask(open.requestId, ResponsePolicy(engine, open.context.value, estimatedTokens));
      task := Some(spawned);
    }

    /** The gateway's side is over: at its regular end the inspector is finished, at an error only the status goes out. */
    method InboundEnds(regular: bool) returns (reply: Option<Response>)
      modifies this, inspector
      ensures !running && expectedSequence == old(expectedSequence)
      ensures reply.Some? <==> old(running) && regular
      ensures reply.Some? ==>
                && (inspector.View(), reply.value.releaseBytes) == FinishStream(old(inspector.View()))
                && reply == Some(ResponseOf(requestId, expectedSequence, Report(inspector.View(), reply.value.releaseBytes)))
      ensures reply.None? ==> inspector.View() == old(inspector.View())
    {
      if !running || !regular {
        running := false;
        return None;
      }
      var inspection := inspector.Finish();
      running := false;
      reply := Some(ResponseOf(requestId, expectedSequence, inspection));
    }

    ghost predicate Expects(message: Request)
      reads this
    {
      running && message.requestId == requestId && message.sequence == expectedSequence
    }

    /** One message. A stopped task has closed its side and answers nothing. */
    method Receive(message: Request) returns (reply: Option<Response>)
      modifies this, inspector
      ensures reply.Some? <==> old(running)
      ensures running ==> expectedSequence == SaturatingAdd(old(expectedSequence), 1)
      ensures running ==> old(Expects(message)) && inspector.View().terminal.None?
      ensures match message.payload
              case Some(Chunk(data)) =>
                old(Expects(message)) ==>
                  && (inspector.View(), reply.value.releaseBytes)
                     == InspectChunk(inspector.policy, old(inspector.View()), data)
                  && reply == Some(ResponseOf(requestId, message.sequence, Report(inspector.View(), reply.value.releaseBytes)))
                  && (running <==> inspector.View().terminal.None?)
              case Some(Close) =>
                old(Expects(message)) ==>
                  && (inspector.View(), reply.value.releaseBytes) == FinishStream(old(inspector.View()))
                  && reply == Some(ResponseOf(requestId, message.sequence, Report(inspector.View(), reply.value.releaseBytes)))
                  && !running
              case _ => !running
      ensures reply.Some? ==> reply.value.releaseBytes == 0 || reply.value.result == Some(PolicyResult(Allow, None))
      ensures old(running) && !old(Expects(message)) ==> reply == Some(Violation(requestId, old(expectedSequence)))
    {
      if !running {
        return None;
      }
      if message.requestId != requestId || message.sequence != expectedSequence {
        running := false;
        return Some(Violation(requestId, expectedSequence));
      }
      var inspection;
      match message.payload {
        case Some(Chunk(data)) =>
          inspection := inspector.Inspect(data);
        case Some(Close) =>
          inspection := inspector.Finish();
        case _ =>
          running := false;
          return Some(Violation(requestId, expectedSequence));
      }
      reply := Some(ResponseOf(requestId, expectedSequence, inspection));
      if message.payload == Some(Close) || inspection.error.Some? {
        running := false;
      } else {
        expectedSequence := SaturatingAdd(expectedSequence, 1);
      }
    }
  }

  /**
   What the transport does with one round trip. `Replaced` is a peer that does
   not run the task's code: any reply at all.
   */
  datatype Fate = Delivered | Cancelled | SendFails | ReplyLost | CloseSendFails | Replaced(reply: Option<Response>)

  datatype RpcError = RpcError

  /** A check is answered; only a close minds whether closing the sending side works. */
  predicate GoesThrough(fate: Fate) {
    fate.Delivered? || fate.CloseSendFails?
  }

  /** Adding one to an unsigned 64-bit counter. */
  function WrappingNext(n: nat): nat {
    if n == U64_MAX then 0 else n + 1
  }

  lemma WrappingNextIs(n: nat)
    requires n <= U64_MAX
    ensures WrappingNext(n) == (n + 1) % (U64_MAX + 1)
  {
  }

  class StreamSession {
    const task: CheckStreamTask
    const requestId: string
    var sequence: nat
    var closed: bool

    /** A session as OpenStream leaves it after an allowed open. */
    constructor (task: CheckStreamTask, requestId: string)
      ensures this.task == task && this.requestId == requestId && sequence == 1 && !closed
    {
      this.task, this.requestId := task, requestId;
      sequence, closed := 1, false;
    }

    /**
     Open the conversation. A session comes only of an allowed open whose reply
     names the request and sequence 0, and against the real task both ends are
     then in the same place.
     */
    static method OpenStream(supported: bool, context: Option<Context>, hasModelRequest: bool, engine: Policy,
                             evaluation: PolicyResult, estimatedTokens: nat, fate: Fate)
      returns (r: Result<(Option<StreamSession>, PolicyResult), RpcError>)
      ensures r.Ok? ==> supported && context.Some? && context.value.requestId != "" && hasModelRequest
      ensures r.Ok? ==> (r.value.0.Some? <==> r.value.1.decision.Allow?)
      ensures r.Ok? && r.value.0.Some? ==>
                fresh(r.value.0.value) && fresh(r.value.0.value.task) && fresh(r.value.0.value.task.inspector)
      ensures supported && context.Some? && context.value.requestId != "" && hasModelRequest && fate.Delivered? ==>
                r.Ok? && r.value.1 == evaluation
      ensures r.Ok? && !fate.Replaced? && r.value.0.Some? ==>
                var session := r.value.0.value;
                && session.InSync() && session.task.inspector.View() == START && session.sequence == 1
                && session.task.inspector.policy == ResponsePolicy(engine, context.value, estimatedTokens)
    {
      if !supported || context.None? || !hasModelRequest || context.value.requestId == "" || fate.SendFails? || fate.Cancelled? {
        return Err(RpcError);
      }
      var id := context.value.requestId;
      var reply, spawned := CheckStreamTask.Start(OpenMessage(id, 0, true, context, hasModelRequest), engine, evaluation,
                                                  estimatedTokens);
      if fate.Replaced? {
        reply := fate.reply;
      }
      if fate.ReplyLost? || reply.None? || reply.value.result.None? || reply.value.requestId != id || reply.value.sequence != 0 {
        return Err(RpcError);
      }
      var result := reply.value.result.value;
      if !result.decision.Allow? {
        return Ok((None, result));
      }
      var task;
      if spawned.Some? {
        task := spawned.value;
      } else {
        task := new CheckStreamTask(id, engine);
        task.running := false;
      }
      var session := new StreamSession(task, id);
      r := Ok((Some(session), result));
    }

    /** Both ends are in the same place of the same conversation. */
    ghost predicate InSync()
      reads this, task, task.inspector
    {
      && !closed && task.running
      && requestId == task.requestId && sequence == task.expectedSequence
      && task.inspector.View().terminal.None?
    }

    predicate ValidResponse(response: Option<Response>)
      reads this
    {
      response.Some? && response.value.result.Some?
      && response.value.requestId == requestId && response.value.sequence == sequence
    }

    method RoundTrip(payload: Payload, fate: Fate) returns (r: Result<Response, RpcError>)
      modifies task, task.inspector
      ensures r.Ok? ==> r.value.result.Some? && r.value.requestId == requestId && r.value.sequence == sequence
      ensures r.Ok? && fate.Delivered? ==> old(task.running)
      ensures fate.Replaced? ==>
                (r.Ok? <==> fate.reply.Some? && fate.reply.value.result.Some? &&
                            fate.reply.value.requestId == requestId && fate.reply.value.sequence == sequence) &&
                (r.Ok? ==> Some(r.value) == fate.reply)
      ensures old(InSync()) && (fate.Delivered? || fate.CloseSendFails?) ==>
                var s := task.inspector.View();
                match payload
                case Chunk(data) =>
                  && r.Ok? && (s, r.value.releaseBytes) == InspectChunk(task.inspector.policy, old(task.inspector.View()), data)
                  && r.value == ResponseOf(requestId, sequence, Report(s, r.value.releaseBytes))
                  && (s.terminal.None? ==> task.running && task.expectedSequence == SaturatingAdd(sequence, 1))
                case Close =>
                  && r.Ok? && (s, r.value.releaseBytes) == FinishStream(old(task.inspector.View()))
                  && r.value == ResponseOf(requestId, sequence, Report(s, r.value.releaseBytes))
                case Open => true
      ensures fate.SendFails? || fate.ReplyLost? ==> r.Err?
    {
      if fate.SendFails? {
        return Err(RpcError);
      }
      var response;
      if fate.Replaced? {
        response := fate.reply;
      } else {
        response := task.Receive(Request(requestId, sequence, Some(payload)));
      }
      if fate.ReplyLost? || !ValidResponse(response) {
        return Err(RpcError);
      }
      r := Ok(response.value);
    }

    method Check(chunk: seq<Byte>, fate: Fate) returns (r: Result<Response, RpcError>)
      modifies this, task, task.inspector
      ensures r.Ok? ==> r.value.result.Some?
      ensures !fate.Replaced? && r.Ok? && old(InSync()) ==>
                var s := task.inspector.View();
                && (s, r.value.releaseBytes) == InspectChunk(task.inspector.policy, old(task.inspector.View()), chunk)
                && r.value.result.value == PolicyResult(if s.terminal.Some? then Terminate else Allow, s.terminal)
                && (s.terminal.None? && old(sequence) < U64_MAX ==> InSync())
      ensures !fate.Replaced? && old(InSync()) ==> (r.Ok? <==> GoesThrough(fate))
      ensures sequence == if r.Ok? then WrappingNext(old(sequence)) else old(sequence)
    {
      if closed || fate.Cancelled? {
        return Err(RpcError);
      }
      r := RoundTrip(Chunk(chunk), fate);
      if r.Ok? {
        sequence := WrappingNext(sequence);
      }
    }

    method Close(fate: Fate) returns (r: Result<Response, RpcError>)
      modifies this, task, task.inspector
      ensures r.Ok? ==> r.value.result.Some?
      ensures !fate.Replaced? && r.Ok? && old(InSync()) ==>
                var s := task.inspector.View();
                && (s, r.value.releaseBytes) == FinishStream(old(task.inspector.View()))
                && r.value.result.value == PolicyResult(if s.terminal.Some? then Terminate else Allow, s.terminal)
      ensures !fate.Replaced? && old(InSync()) ==> (r.Ok? <==> fate.Delivered?)
      ensures !fate.Cancelled? ==> closed
    {
      if closed || fate.Cancelled? {
        return Err(RpcError);
      }
      r := RoundTrip(Payload.Close, fate);
      closed := true;
      if fate.CloseSendFails? {
        return Err(RpcError);
      }
    }
  }
}
