/** The serial channel as the driver sees it, and the gated command sequences
    its operations are made of.

    The modem's side of the channel is a script: `inbox[k]` is the raw text
    waiting in the receive buffer when the driver reads for the `k`-th time
    (after the settle delay of a command, or after streaming a payload). An
    exhausted script is a modem that stays silent. The driver's side is a log
    of events: commands written, bytes streamed, pauses and power pulses. */
module Exchange {
  import opened Wrappers
  import opened Text
  import opened Framing
  import opened Errors

  /** What the driver does to the outside world, in order. */
  datatype Event =
    | Command(text: string, settleMs: nat)   // `{text}\r` written, then the settle delay
    | Upload(size: nat)                      // `size` bytes streamed to the modem
    | Pause(seconds: nat)                    // an explicit `sleep`
    | PowerPulse(onSeconds: nat, offSeconds: nat)  // one blink of the power pin

  /** The settle delay of `at_command`: 0.1 s by default, 1 s for the probe. */
  const DefaultSettleMs: nat := 100
  const ProbeSettleMs: nat := 1000

  /** The raw text waiting at the next read: nothing once the script is over. */
  function Reply(inbox: seq<string>): string {
    if inbox == [] then "" else inbox[0]
  }

  /** The script after one read. */
  function Advance(inbox: seq<string>): (r: seq<string>)
    ensures |r| == if inbox == [] then 0 else |inbox| - 1
  {
    if inbox == [] then [] else inbox[1..]
  }

  /** The script after `n` reads. */
  function Drop(inbox: seq<string>, n: nat): seq<string>
    decreases n
  {
    if n == 0 then inbox else Drop(Advance(inbox), n - 1)
  }

  /** The response lines `at_command` returns for the next read. */
  function Response(inbox: seq<string>): seq<string> {
    FrameLines(Reply(inbox))
  }

  // ---------------------------------------------------------------------------
  // Steps and their checks
  // ---------------------------------------------------------------------------

  /** What an operation requires of a command's response lines. Membership is
      Python's `in` on a list: a line equal to the text. */
  datatype Expect =
    | Line(line: string)
    | Lines(first: string, second: string)
    | AnyLineContains(text: string)

  predicate Accepts(e: Expect, lines: seq<string>) {
    match e
    case Line(t) => t in lines
    case Lines(a, b) => a in lines && b in lines
    case AnyLineContains(t) => exists i :: 0 <= i < |lines| && Contains(lines[i], t)
  }

  /** What may be waiting after a payload has been streamed: nothing, or
      text that contains `OK` once decoded and stripped; or, as `mqtt_publish`
      is written, nothing at all, since any waiting bytes make it fail. */
  datatype Tail = NothingOrOk | NothingAtAll

  predicate TailAccepts(tail: Tail, reply: string) {
    reply == "" || (tail == NothingOrOk && Contains(Strip(reply), "OK"))
  }

  /** One step of an operation: a command whose response is checked, or a
      payload streamed, waited for and checked. A step that fails raises `err`. */
  datatype Step =
    | Exchange(cmd: string, settleMs: nat, check: Expect, err: Error)
    | Stream(size: nat, wait: nat, tail: Tail, err: Error)

  function StepEvents(s: Step): (evs: seq<Event>)
    ensures |evs| >= 1
  {
    match s
    case Exchange(cmd, settle, _, _) => [Command(cmd, settle)]
    case Stream(size, wait, _, _) => [Upload(size), Pause(wait)]
  }

  predicate StepPasses(s: Step, inbox: seq<string>) {
    match s
    case Exchange(_, _, check, _) => Accepts(check, Response(inbox))
    case Stream(_, _, tail, _) => TailAccepts(tail, Reply(inbox))
  }

  /** The result of a sequence of steps: how it ended, what the driver did,
      and the script left over. */
  datatype Trace = Trace(outcome: Outcome<Error>, events: seq<Event>, rest: seq<string>)

  /** A trace preceded by events already done. */
  function After(done: seq<Event>, t: Trace): Trace {
    Trace(t.outcome, done + t.events, t.rest)
  }

  /** Performing the steps in order: each reads once; the first step whose
      check fails ends the sequence with its error. */
  function Run(steps: seq<Step>, inbox: seq<string>): Trace
    decreases |steps|
  {
    if steps == [] then Trace(Pass, [], inbox)
    else if !StepPasses(steps[0], inbox) then Trace(Fail(steps[0].err), StepEvents(steps[0]), Advance(inbox))
    else After(StepEvents(steps[0]), Run(steps[1..], Advance(inbox)))
  }

  /** A plan of steps as the driver walks it: the next step and what
      follows it. */
  datatype Plan = Done | Then(step: Step, next: Plan)

  /** The plan that performs `steps` in order. */
  function Chain(steps: seq<Step>): Plan
    decreases |steps|
  {
    if steps == [] then Done else Then(steps[0], Chain(steps[1..]))
  }

  /** A plan's run told from the driver's side: the log grows as the steps
      are performed, starting from `log`. */
  function ExecPlan(p: Plan, inbox: seq<string>, log: seq<Event>): Trace {
    match p
    case Done => Trace(Pass, log, inbox)
    case Then(step, next) =>
      if !StepPasses(step, inbox) then Trace(Fail(step.err), log + StepEvents(step), Advance(inbox))
      else ExecPlan(next, Advance(inbox), log + StepEvents(step))
  }

  /** Walking the chain of `steps` after `log` leaves `log` followed by the
      run's events. */
  lemma {:induction false} ChainRun(steps: seq<Step>, inbox: seq<string>, log: seq<Event>)
    ensures ExecPlan(Chain(steps), inbox, log) == After(log, Run(steps, inbox))
    decreases |steps|
  {
    if steps == [] {
      assert log + [] == log;
    } else if StepPasses(steps[0], inbox) {
      ChainRun(steps[1..], Advance(inbox), log + StepEvents(steps[0]));
      var t := Run(steps[1..], Advance(inbox));
      assert (log + StepEvents(steps[0])) + t.events == log + (StepEvents(steps[0]) + t.events);
    }
  }

  /** The plan `p` followed by the plan `q`. */
  function Splice(p: Plan, q: Plan): Plan {
    match p
    case Done => q
    case Then(step, next) => Then(step, Splice(next, q))
  }

  /** Walking two plans one after the other: the second starts where the
      first left off, and only if the first passed. */
  lemma {:induction false} ExecSplice(p: Plan, q: Plan, inbox: seq<string>, log: seq<Event>)
    ensures ExecPlan(Splice(p, q), inbox, log) ==
            var t := ExecPlan(p, inbox, log);
            if t.outcome.Pass? then ExecPlan(q, t.rest, t.events) else t
  {
    match p
    case Done =>
    case Then(step, next) =>
      if StepPasses(step, inbox) {
        ExecSplice(next, q, Advance(inbox), log + StepEvents(step));
      }
  }

  /** The chain of a concatenation is the splice of the chains. */
  lemma {:induction false} ChainAppend(a: seq<Step>, b: seq<Step>)
    ensures Chain(a + b) == Splice(Chain(a), Chain(b))
    decreases |a|
  {
    if a == [] {
      assert a + b == b;
    } else {
      assert (a + b)[0] == a[0] && (a + b)[1..] == a[1..] + b;
      ChainAppend(a[1..], b);
    }
  }

  /** Everything the steps do when all of them pass. */
  function PlannedEvents(steps: seq<Step>): seq<Event>
    decreases |steps|
  {
    if steps == [] then [] else StepEvents(steps[0]) + PlannedEvents(steps[1..])
  }

  /** Step `i` of the sequence passes on the read it is given. */
  predicate PassesAt(steps: seq<Step>, inbox: seq<string>, i: nat)
    requires i < |steps|
  {
    StepPasses(steps[i], Drop(inbox, i))
  }

  /** The first `i` steps pass. */
  predicate PassUpTo(steps: seq<Step>, inbox: seq<string>, i: nat)
    requires i <= |steps|
  {
    forall j :: 0 <= j < i ==> PassesAt(steps, inbox, j)
  }

  /** The reads of a sequence's tail are the whole's reads shifted by one. */
  lemma PassUpToShift(steps: seq<Step>, inbox: seq<string>, i: nat)
    requires 0 < i <= |steps|
    ensures PassUpTo(steps, inbox, i) <==>
            StepPasses(steps[0], inbox) && PassUpTo(steps[1..], Advance(inbox), i - 1)
  {
    var tail := steps[1..];
    var next := Advance(inbox);
    assert Drop(inbox, 0) == inbox;
    forall j | 0 <= j < i - 1 ensures PassesAt(tail, next, j) <==> PassesAt(steps, inbox, j + 1) {
      assert Drop(inbox, j + 1) == Drop(next, j);
      assert tail[j] == steps[j + 1];
    }
    if PassUpTo(steps, inbox, i) {
      assert PassesAt(steps, inbox, 0);
      forall j | 0 <= j < i - 1 ensures PassesAt(tail, next, j) {
        assert PassesAt(steps, inbox, j + 1);
      }
    }
    if StepPasses(steps[0], inbox) && PassUpTo(tail, next, i - 1) {
      forall j | 0 <= j < i ensures PassesAt(steps, inbox, j) {
        if j > 0 {
          assert PassesAt(tail, next, j - 1);
        }
      }
    }
  }

  /** A run passes exactly when every step passes on its own read; it has
      then done everything planned and consumed one read per step. */
  lemma {:induction false} RunPasses(steps: seq<Step>, inbox: seq<string>)
    ensures Run(steps, inbox).outcome.Pass? <==> PassUpTo(steps, inbox, |steps|)
    ensures Run(steps, inbox).outcome.Pass? ==>
              Run(steps, inbox).events == PlannedEvents(steps) && Run(steps, inbox).rest == Drop(inbox, |steps|)
    decreases |steps|
  {
    if steps != [] {
      RunPasses(steps[1..], Advance(inbox));
      PassUpToShift(steps, inbox, |steps|);
      assert Drop(inbox, |steps|) == Drop(Advance(inbox), |steps| - 1);
    }
  }

  /** A run that fails stopped at the first failing step, with that step's
      error, having done the steps up to and including it and consumed their
      reads. */
  lemma {:induction false} RunFails(steps: seq<Step>, inbox: seq<string>)
    requires Run(steps, inbox).outcome.Fail?
    ensures exists i :: 0 <= i < |steps| && PassUpTo(steps, inbox, i) && !PassesAt(steps, inbox, i)
              && Run(steps, inbox).outcome.error == steps[i].err
              && Run(steps, inbox).events == PlannedEvents(steps[..i + 1])
              && Run(steps, inbox).rest == Drop(inbox, i + 1)
    decreases |steps|
  {
    var t := Run(steps, inbox);
    assert Drop(inbox, 0) == inbox;
    assert PlannedEvents(steps[..1]) == StepEvents(steps[0]) by {
      assert steps[..1][1..] == [];
    }
    if !StepPasses(steps[0], inbox) {
      assert Drop(inbox, 1) == Drop(Advance(inbox), 0);
      assert !PassesAt(steps, inbox, 0) && PassUpTo(steps, inbox, 0);
      assert t.events == PlannedEvents(steps[..1]) && t.rest == Drop(inbox, 1);
    } else {
      var tail := steps[1..];
      var next := Advance(inbox);
      RunFails(tail, next);
      var r := Run(tail, next);
      var k :| 0 <= k < |tail| && PassUpTo(tail, next, k) && !PassesAt(tail, next, k)
               && r.outcome.error == tail[k].err
               && r.events == PlannedEvents(tail[..k + 1])
               && r.rest == Drop(next, k + 1);
      PassUpToShift(steps, inbox, k + 1);
      assert Drop(inbox, k + 1) == Drop(next, k);
      assert !PassesAt(steps, inbox, k + 1);
      assert steps[..k + 2][1..] == tail[..k + 1];
      assert Drop(inbox, k + 2) == Drop(next, k + 1);
      assert t.events == PlannedEvents(steps[..k + 2]);
      assert 0 <= k + 1 < |steps| && PassUpTo(steps, inbox, k + 1) && !PassesAt(steps, inbox, k + 1)
             && t.outcome.error == steps[k + 1].err && t.rest == Drop(inbox, k + 2);
    }
  }

  /** Running two sequences one after the other is running their
      concatenation: the second starts where the first left the script, and
      only if the first passed. */
  lemma {:induction false} RunAppend(a: seq<Step>, b: seq<Step>, inbox: seq<string>)
    ensures Run(a + b, inbox) ==
            if Run(a, inbox).outcome.Pass? then After(Run(a, inbox).events, Run(b, Run(a, inbox).rest))
            else Run(a, inbox)
    decreases |a|
  {
    if a == [] {
      assert a + b == b;
      assert [] + Run(b, inbox).events == Run(b, inbox).events;
    } else {
      assert (a + b)[0] == a[0];
      assert (a + b)[1..] == a[1..] + b;
      if StepPasses(a[0], inbox) {
        RunAppend(a[1..], b, Advance(inbox));
        var r := Run(a[1..], Advance(inbox));
        if r.outcome.Pass? {
          var tb := Run(b, r.rest);
          assert StepEvents(a[0]) + (r.events + tb.events) == (StepEvents(a[0]) + r.events) + tb.events;
        }
      }
    }
  }

  /** A run that starts with one step: how the driver's code reads, one
      command at a time. */
  lemma RunFirst(s: Step, rest: seq<Step>, inbox: seq<string>)
    ensures Run([s] + rest, inbox) ==
            if StepPasses(s, inbox) then After(StepEvents(s), Run(rest, Advance(inbox)))
            else Trace(Fail(s.err), StepEvents(s), Advance(inbox))
  {
    assert ([s] + rest)[1..] == rest;
  }

  /** The modem's replies, read by read, answer the steps as they require. */
  predicate Answers(steps: seq<Step>, replies: seq<string>) {
    |replies| == |steps| && forall i :: 0 <= i < |steps| ==> StepPasses(steps[i], [replies[i]])
  }

  lemma AnswersAppend(a: seq<Step>, ra: seq<string>, b: seq<Step>, rb: seq<string>)
    requires Answers(a, ra) && Answers(b, rb)
    ensures Answers(a + b, ra + rb)
  {
    forall i | 0 <= i < |a| + |b| ensures StepPasses((a + b)[i], [(ra + rb)[i]]) {
      if i < |a| {
        assert (a + b)[i] == a[i] && (ra + rb)[i] == ra[i];
      } else {
        assert (a + b)[i] == b[i - |a|] && (ra + rb)[i] == rb[i - |a|];
      }
    }
  }

  /** A modem that answers the steps as they require lets the whole sequence
      pass and leaves the rest of its script unread. */
  lemma {:induction false} RunScripted(steps: seq<Step>, replies: seq<string>, rest: seq<string>)
    requires Answers(steps, replies)
    ensures Run(steps, replies + rest) == Trace(Pass, PlannedEvents(steps), rest)
    decreases |steps|
  {
    if steps != [] {
      var inbox := replies + rest;
      assert Reply(inbox) == Reply([replies[0]]);
      assert Advance(inbox) == replies[1..] + rest;
      forall i | 0 <= i < |steps| - 1 ensures StepPasses(steps[1..][i], [replies[1..][i]]) {
        assert steps[1..][i] == steps[i + 1];
      }
      RunScripted(steps[1..], replies[1..], rest);
    }
  }

  // ---------------------------------------------------------------------------
  // The readiness probe of `initialize`
  // ---------------------------------------------------------------------------

  /** The probe command. */
  const ProbeCommand: string := "AT"

  /** The blink of the power pin `power_on` asks for: one pulse, 1 s on, 5 s off. */
  const PowerOnPulse: Event := PowerPulse(1, 5)
  /** The blink `power_off` asks for: one pulse, 2 s on, 5 s off. */
  const PowerOffPulse: Event := PowerPulse(2, 5)

  /** How a probe ended: whether the module answered, how many attempts were
      made (the source's `attempt`), what the driver did, and the script left. */
  datatype Probe = Probe(responsive: bool, attempt: nat, events: seq<Event>, rest: seq<string>)

  /** Probing with up to `attempts` attempts: each sends `AT`; a response line
      `OK` ends the probe successfully; otherwise the module is pulsed on and
      the next attempt follows. */
  function ProbeRun(attempts: int, inbox: seq<string>): Probe
    decreases if attempts < 0 then 0 else attempts
  {
    if attempts <= 0 then Probe(false, 0, [], inbox)
    else if HasOk(inbox) then Probe(true, 1, [Command(ProbeCommand, ProbeSettleMs)], Advance(inbox))
    else
      var p := ProbeRun(attempts - 1, Advance(inbox));
      Probe(p.responsive, p.attempt + 1, [Command(ProbeCommand, ProbeSettleMs), PowerOnPulse] + p.events, p.rest)
  }

  /** A probe told from the driver's side: `made` attempts already made and
      the log grown to `log`, with up to `attempts` attempts left. */
  function ProbeExec(attempts: int, inbox: seq<string>, made: nat, log: seq<Event>): Probe
    decreases if attempts < 0 then 0 else attempts
  {
    if attempts <= 0 then Probe(false, made, log, inbox)
    else if HasOk(inbox) then Probe(true, made + 1, log + [Command(ProbeCommand, ProbeSettleMs)], Advance(inbox))
    else ProbeExec(attempts - 1, Advance(inbox), made + 1, log + [Command(ProbeCommand, ProbeSettleMs), PowerOnPulse])
  }

  /** Continuing a probe after `made` attempts and the log `log` is the probe
      run shifted by both. */
  lemma {:induction false} ProbeExecRun(attempts: int, inbox: seq<string>, made: nat, log: seq<Event>)
    ensures var p := ProbeRun(attempts, inbox);
            ProbeExec(attempts, inbox, made, log) == Probe(p.responsive, made + p.attempt, log + p.events, p.rest)
    decreases if attempts < 0 then 0 else attempts
  {
    if attempts <= 0 {
      assert log + [] == log;
    } else if !HasOk(inbox) {
      var pulse := [Command(ProbeCommand, ProbeSettleMs), PowerOnPulse];
      ProbeExecRun(attempts - 1, Advance(inbox), made + 1, log + pulse);
      var p := ProbeRun(attempts - 1, Advance(inbox));
      assert (log + pulse) + p.events == log + (pulse + p.events);
    }
  }

  /** The next read holds an `OK` line. */
  predicate HasOk(inbox: seq<string>) {
    "OK" in Response(inbox)
  }

  /** The read `k` reads ahead holds an `OK` line. */
  predicate OkAt(inbox: seq<string>, k: nat) {
    HasOk(Drop(inbox, k))
  }

  /** The module counts as ready exactly when one of the first `attempts`
      reads holds an `OK` line. */
  lemma {:induction false} ProbeFindsOk(attempts: int, inbox: seq<string>)
    ensures ProbeRun(attempts, inbox).responsive <==> exists k :: 0 <= k < attempts && OkAt(inbox, k)
    decreases if attempts < 0 then 0 else attempts
  {
    if attempts > 0 && !HasOk(inbox) {
      var next := Advance(inbox);
      ProbeFindsOk(attempts - 1, next);
      if ProbeRun(attempts, inbox).responsive {
        var k :| 0 <= k < attempts - 1 && OkAt(next, k);
        assert Drop(inbox, k + 1) == Drop(next, k);
        assert OkAt(inbox, k + 1);
      } else {
        forall k | 0 <= k < attempts ensures !OkAt(inbox, k) {
          if k > 0 {
            assert Drop(inbox, k) == Drop(next, k - 1);
            assert !OkAt(next, k - 1);
          }
        }
      }
    } else if attempts > 0 {
      assert OkAt(inbox, 0);
    }
  }

  /** A probe that succeeds stops at the first read holding an `OK` line:
      the attempt it ends with got one, and none of the earlier ones did. */
  lemma {:induction false} ProbeStopsAtFirstOk(attempts: int, inbox: seq<string>)
    ensures var p := ProbeRun(attempts, inbox);
            p.responsive ==>
              && 1 <= p.attempt && OkAt(inbox, p.attempt - 1)
              && forall k :: 0 <= k < p.attempt - 1 ==> !OkAt(inbox, k)
    decreases if attempts < 0 then 0 else attempts
  {
    if attempts > 0 && !HasOk(inbox) {
      var next := Advance(inbox);
      var q := ProbeRun(attempts - 1, next);
      assert ProbeRun(attempts, inbox).responsive == q.responsive;
      assert ProbeRun(attempts, inbox).attempt == q.attempt + 1;
      ProbeStopsAtFirstOk(attempts - 1, next);
      if q.responsive {
        assert Drop(inbox, q.attempt) == Drop(next, q.attempt - 1);
        forall k | 0 <= k < q.attempt ensures !OkAt(inbox, k) {
          if k == 0 {
            assert Drop(inbox, 0) == inbox;
          } else {
            assert Drop(inbox, k) == Drop(next, k - 1);
            assert !OkAt(next, k - 1);
          }
        }
      }
    } else if attempts > 0 {
      assert Drop(inbox, 0) == inbox;
    }
  }

  /** The events of `n` attempts: a probe and a power pulse for each attempt
      without `OK`, and the bare probe of the attempt that got one. */
  function ProbeEvents(n: nat, responsive: bool): seq<Event>
    decreases n
  {
    if n == 0 then []
    else if n == 1 && responsive then [Command(ProbeCommand, ProbeSettleMs)]
    else [Command(ProbeCommand, ProbeSettleMs), PowerOnPulse] + ProbeEvents(n - 1, responsive)
  }

  /** A probe makes at most `attempts` attempts, all of them when the module
      never answers, and at least one when it does. */
  lemma {:induction false} ProbeAttempts(attempts: int, inbox: seq<string>)
    ensures var p := ProbeRun(attempts, inbox);
            && p.attempt <= (if attempts < 0 then 0 else attempts)
            && (p.responsive ==> p.attempt >= 1)
            && (!p.responsive ==> p.attempt == (if attempts < 0 then 0 else attempts))
    decreases if attempts < 0 then 0 else attempts
  {
    if attempts > 0 && !HasOk(inbox) {
      ProbeAttempts(attempts - 1, Advance(inbox));
    }
  }

  /** A probe consumes one read per attempt and pulses the power pin after
      each attempt without `OK`. */
  lemma {:induction false} ProbeEventsPerAttempt(attempts: int, inbox: seq<string>)
    ensures var p := ProbeRun(attempts, inbox);
            && p.events == ProbeEvents(p.attempt, p.responsive)
            && p.rest == Drop(inbox, p.attempt)
    decreases if attempts < 0 then 0 else attempts
  {
    if attempts > 0 && !HasOk(inbox) {
      var p := ProbeRun(attempts - 1, Advance(inbox));
      ProbeEventsPerAttempt(attempts - 1, Advance(inbox));
      ProbeAttempts(attempts - 1, Advance(inbox));
      assert ProbeRun(attempts, inbox) ==
             Probe(p.responsive, p.attempt + 1, [Command(ProbeCommand, ProbeSettleMs), PowerOnPulse] + p.events, p.rest);
      assert ProbeEvents(p.attempt + 1, p.responsive) ==
             [Command(ProbeCommand, ProbeSettleMs), PowerOnPulse] + ProbeEvents(p.attempt, p.responsive);
      assert Drop(inbox, p.attempt + 1) == Drop(Advance(inbox), p.attempt);
    } else if attempts > 0 {
      assert Drop(inbox, 1) == Drop(Advance(inbox), 0);
    }
  }
}
