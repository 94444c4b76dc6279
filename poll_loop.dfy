/** The loop in `main`: each cycle fetches from the watermark, validates the
    reply, notifies every record in order, and on any failure reports the
    error text unless it equals the last one reported. The functions here
    state what one cycle and a run of cycles do; class `Bot` carries the two
    variables `main` updates and is proved against them. */
module PollLoop {
  import opened Wrappers
  import opened Errors
  import opened Api
  import opened Status
  import opened Tokens

  /** What the chat service answers to one send. */
  datatype SendOutcome = Delivered | SendFailed(cause: string)

  /** Everything the outside world supplies to one cycle: the clock, the
      reply to the request, and the answers to the cycle's sends in the order
      they are attempted (a send past the end of `sends` is delivered). */
  datatype Tick = Tick(now: int, reply: Reply, sends: seq<SendOutcome>)

  function Answer(sends: seq<SendOutcome>, i: nat): SendOutcome
  {
    if i < |sends| then sends[i] else Delivered
  }

  /** The sends attempted by the `for` loop and the failure that ended it, if any. */
  datatype NotifyResult = NotifyResult(notified: seq<string>, error: Option<Error>)

  /** The records from index `i` on are formatted and sent in order; the first
      record that fails to format, or the first send that fails, ends the loop. */
  function NotifyFrom(items: seq<Homework>, sends: seq<SendOutcome>, i: nat): (r: NotifyResult)
    requires i <= |items|
    ensures i + |r.notified| <= |items|
    decreases |items| - i
  {
    if i == |items| then NotifyResult([], None)
    else match ParseStatus(items[i])
      case Failure(e) => NotifyResult([], Some(e))
      case Success(m) =>
        match Answer(sends, i)
        case SendFailed(cause) => NotifyResult([m], Some(TelegramFailed(cause)))
        case Delivered =>
          var rest := NotifyFrom(items, sends, i + 1);
          NotifyResult([m] + rest.notified, rest.error)
  }

  /** The `try` block of one cycle: the notifications it attempted and either
      the response's `current_date` or the exception that ended it. */
  datatype Attempt = Attempt(notified: seq<string>, outcome: Result<int, Error>)

  function TryCycle(t: Tick): (a: Attempt)
  {
    match GetApiAnswer(t.reply)
    case Failure(e) => Attempt([], Failure(e))
    case Success(response) =>
      match CheckResponse(response)
      case Failure(e) => Attempt([], Failure(e))
      case Success(items) =>
        var n := NotifyFrom(items, t.sends, 0);
        Attempt(n.notified, if n.error.Some? then Failure(n.error.value)
                            else Success(response.currentDate.value))
  }

  /** The error text of a cycle that raised, or `None` for one that did not. */
  function FailureText(t: Tick): Option<string>
  {
    match TryCycle(t).outcome
    case Failure(e) => Some(ErrorText(e))
    case Success(_) => None
  }

  /** `current_timestamp` and `last_error`. */
  datatype LoopState = LoopState(watermark: int, lastError: string)

  /** The state `main` enters the loop with. */
  function Initial(now: int): LoopState
  {
    LoopState(now, "")
  }

  /** One cycle: the `from_date` it requested, the state after it, the record
      notifications it attempted, the error notification it attempted, and
      whether that error notification failed, which ends `main`. */
  datatype StepOutcome = StepOutcome(
    fromDate: int,
    next: LoopState,
    notified: seq<string>,
    alert: Option<string>,
    halted: bool)

  function AlertList(alert: Option<string>): seq<string>
  {
    if alert.Some? then [alert.value] else []
  }

  function Step(s: LoopState, t: Tick): (o: StepOutcome)
    ensures o.halted ==> o.alert.Some?
    ensures o.alert.Some? ==> o.next.lastError == o.alert.value != s.lastError
    ensures o.alert.None? ==> o.next.lastError == s.lastError
  {
    var a := TryCycle(t);
    var from := FromDate(s.watermark, t.now);
    match a.outcome
    case Success(date) => StepOutcome(from, LoopState(date, s.lastError), a.notified, None, false)
    case Failure(e) =>
      var text := ErrorText(e);
      if s.lastError != text then
        StepOutcome(from, LoopState(s.watermark, text), a.notified, Some(text),
                    Answer(t.sends, |a.notified|).SendFailed?)
      else
        StepOutcome(from, s, a.notified, None, false)
  }

  /** A run of cycles, stopped early when an error notification fails to send. */
  datatype RunOutcome = RunOutcome(final: LoopState, sent: seq<string>, alerts: seq<string>, halted: bool)

  function Run(s: LoopState, ticks: seq<Tick>): (r: RunOutcome)
    decreases |ticks|
  {
    if ticks == [] then RunOutcome(s, [], [], false)
    else
      var o := Step(s, ticks[0]);
      var sent := o.notified + AlertList(o.alert);
      if o.halted then RunOutcome(o.next, sent, AlertList(o.alert), true)
      else
        var rest := Run(o.next, ticks[1..]);
        RunOutcome(rest.final, sent + rest.sent, AlertList(o.alert) + rest.alerts, rest.halted)
  }

  lemma ConcatAssociates(a: seq<string>, b: seq<string>, c: seq<string>)
    ensures a + b + c == a + (b + c)
  {
  }

  /** The running bot. `sent` records every message handed to the chat
      service, delivered or not. */
  class Bot {
    var watermark: int
    var lastError: string
    var halted: bool
    ghost var sent: seq<string>

    function State(): LoopState
      reads this
    {
      LoopState(watermark, lastError)
    }

    constructor (now: int)
      ensures State() == Initial(now) && !halted && sent == []
    {
      watermark := now;
      lastError := "";
      halted := false;
      sent := [];
    }

    /** The `for` loop over the records: format, then send, each in turn,
        stopping at the first failure. */
    method NotifyAll(items: seq<Homework>, sends: seq<SendOutcome>)
      returns (failure: Option<Error>, attempts: nat, ghost notified: seq<string>)
      modifies this`sent
      ensures NotifyFrom(items, sends, 0) == NotifyResult(notified, failure)
      ensures attempts == |notified| && sent == old(sent) + notified
    {
      failure, attempts, notified := None, 0, [];
      var i := 0;
      while i < |items| && failure.None?
        invariant 0 <= i <= |items|
        invariant attempts == |notified|
        invariant sent == old(sent) + notified
        invariant failure.None? ==>
          NotifyFrom(items, sends, 0)
            == NotifyResult(notified + NotifyFrom(items, sends, i).notified, NotifyFrom(items, sends, i).error)
        invariant failure.Some? ==> NotifyFrom(items, sends, 0) == NotifyResult(notified, failure)
      {
        ghost var here := NotifyFrom(items, sends, i);
        var parsed := ParseStatus(items[i]);
        if parsed.Failure? {
          failure := Some(parsed.error);
          assert here == NotifyResult([], failure);
        } else {
          var message := parsed.value;
          ghost var prev := notified;
          sent := sent + [message];
          notified := notified + [message];
          attempts := attempts + 1;
          var answer := Answer(sends, i);
          if answer.SendFailed? {
            failure := Some(TelegramFailed(answer.cause));
            assert here == NotifyResult([message], failure);
          } else {
            ghost var later := NotifyFrom(items, sends, i + 1);
            assert here == NotifyResult([message] + later.notified, later.error);
            assert notified + later.notified == prev + ([message] + later.notified);
          }
        }
        i := i + 1;
      }
    }

    /** One pass of the `while True` body; returns the `from_date` it requested. */
    method Cycle(t: Tick) returns (fromDate: int)
      requires !halted
      modifies this
      ensures var o := Step(old(State()), t);
        && fromDate == o.fromDate
        && State() == o.next
        && halted == o.halted
        && sent == old(sent) + o.notified + AlertList(o.alert)
    {
      fromDate := FromDate(watermark, t.now);
      var failure: Option<Error> := None;
      var currentDate := 0;
      var attempts := 0;
      match GetApiAnswer(t.reply) {
        case Failure(e) =>
          failure := Some(e);
        case Success(response) =>
          match CheckResponse(response) {
            case Failure(e) =>
              failure := Some(e);
            case Success(items) =>
              ghost var notified;
              failure, attempts, notified := NotifyAll(items, t.sends);
              if failure.None? {
                currentDate := response.currentDate.value;
              }
          }
      }
      match failure {
        case None =>
          watermark := currentDate;
        case Some(e) =>
          var text := ErrorText(e);
          if lastError != text {
            lastError := text;
            sent := sent + [text];
            halted := Answer(t.sends, attempts).SendFailed?;
          }
      }
    }

    /** The loop of `main` over a finite series of cycles; it stops early when
        an error notification fails to send. */
    method Serve(ticks: seq<Tick>)
      requires !halted
      modifies this
      ensures var r := Run(old(State()), ticks);
        State() == r.final && halted == r.halted && sent == old(sent) + r.sent
    {
      ghost var r := Run(State(), ticks);
      ghost var done: seq<string> := [];
      var k := 0;
      while k < |ticks| && !halted
        invariant 0 <= k <= |ticks|
        invariant sent == old(sent) + done
        invariant halted ==> State() == r.final && r.halted && done == r.sent
        invariant !halted ==>
          && Run(State(), ticks[k..]).final == r.final
          && Run(State(), ticks[k..]).halted == r.halted
          && done + Run(State(), ticks[k..]).sent == r.sent
      {
        ghost var sentBefore := sent;
        ghost var o := Step(State(), ticks[k]);
        ghost var step := o.notified + AlertList(o.alert);
        ghost var here := Run(State(), ticks[k..]);
        ghost var later := Run(o.next, ticks[k + 1..]);
        assert ticks[k..][0] == ticks[k] && ticks[k..][1..] == ticks[k + 1..];
        assert here.final == (if o.halted then o.next else later.final);
        assert here.halted == (o.halted || later.halted);
        if o.halted {
          assert here.sent == step;
        } else {
          assert here.sent == step + later.sent;
          ConcatAssociates(done, step, later.sent);
        }
        var _ := Cycle(ticks[k]);
        assert State() == o.next && halted == o.halted;
        assert sent == sentBefore + step;
        ConcatAssociates(old(sent), done, step);
        done := done + step;
        k := k + 1;
        assert Run(State(), ticks[k..]) == later;
      }
      if !halted {
        assert ticks[k..] == [];
      }
    }
  }

  /** `main`'s start: without every credential the process exits before any
      request; otherwise the bot starts with the watermark at the current time
      and no error reported yet. */
  method Launch(c: Credentials, now: int) returns (bot: Bot?)
    ensures bot == null <==> !AllPresent(c)
    ensures bot != null ==> fresh(bot) && bot.State() == Initial(now) && !bot.halted && bot.sent == []
  {
    var ok, _ := CheckTokens(c);
    if !ok {
      return null;
    }
    bot := new Bot(now);
  }
}
