/** Properties of the polling cycle: the order in which records are
    notified, when the watermark moves, and when an error is reported. */
module PollLoopProps {
  import opened Wrappers
  import opened Errors
  import opened Api
  import opened Status
  import opened PollLoop

  /** The `for` loop from index `i`: the records it notified were formatted
      in list order, each send but possibly the last was delivered, and it
      stopped exactly at the first record that failed to format or the first
      send that failed; with no failure it notified every remaining record. */
  lemma {:induction false} NotifyInOrder(items: seq<Homework>, sends: seq<SendOutcome>, i: nat)
    requires i <= |items|
    ensures var r := NotifyFrom(items, sends, i);
      var k := |r.notified|;
      && (forall j :: i <= j < i + k ==> ParseStatus(items[j]) == Success(r.notified[j - i]))
      && (r.error.None? ==>
            i + k == |items| && forall j :: i <= j < |items| ==> Answer(sends, j) == Delivered)
      && (r.error.Some? ==>
            || (&& i + k < |items|
                && ParseStatus(items[i + k]) == Failure(r.error.value)
                && forall j :: i <= j < i + k ==> Answer(sends, j) == Delivered)
            || (&& 0 < k
                && Answer(sends, i + k - 1).SendFailed?
                && r.error.value == TelegramFailed(Answer(sends, i + k - 1).cause)
                && forall j :: i <= j < i + k - 1 ==> Answer(sends, j) == Delivered))
    decreases |items| - i
  {
    if i < |items| && ParseStatus(items[i]).Success? && Answer(sends, i) == Delivered {
      NotifyInOrder(items, sends, i + 1);
    }
  }

  /** A cycle that raises nothing got a 200 reply with a valid body, notified
      every record of `homeworks` in order, reported no error, and moved the
      watermark to the reply's `current_date`. */
  lemma SuccessfulCycle(s: LoopState, t: Tick)
    requires FailureText(t).None?
    ensures t.reply.HttpReply? && t.reply.code == HttpOk && t.reply.body.Decoded?
    ensures var response := t.reply.body.response;
      && response.currentDate.Some?
      && response.homeworks.Some? && response.homeworks.value.HomeworkList?
      && var items := response.homeworks.value.items;
         var o := Step(s, t);
         && o.next == LoopState(response.currentDate.value, s.lastError)
         && o.alert.None? && !o.halted
         && |o.notified| == |items|
         && (forall j :: 0 <= j < |items| ==> ParseStatus(items[j]) == Success(o.notified[j]))
  {
    var response := t.reply.body.response;
    NotifyInOrder(response.homeworks.value.items, t.sends, 0);
  }

  /** A cycle that raises keeps the watermark, leaves `last_error` equal to
      its error text, and sends that text exactly when it differs from the
      previous `last_error`; if that send fails, `main` ends. */
  lemma FailedCycle(s: LoopState, t: Tick, text: string)
    requires FailureText(t) == Some(text)
    ensures var o := Step(s, t);
      && o.next == LoopState(s.watermark, text)
      && (o.alert.Some? <==> text != s.lastError)
      && (o.alert.Some? ==> o.alert.value == text)
      && (o.halted <==> text != s.lastError && Answer(t.sends, |o.notified|).SendFailed?)
  {
  }

  /** Two cycles in a row failing with the same text produce one error
      notification, in the first cycle and only if the text is new. */
  lemma RepeatedFailureAlertsOnce(s: LoopState, t1: Tick, t2: Tick, text: string)
    requires FailureText(t1) == Some(text) && FailureText(t2) == Some(text)
    ensures Step(s, t1).alert.Some? <==> s.lastError != text
    ensures Step(Step(s, t1).next, t2).alert.None?
  {
  }

  /** A failure whose text differs from the previous one is reported. */
  lemma ChangedFailureAlertsAgain(s: LoopState, t1: Tick, t2: Tick, text1: string, text2: string)
    requires FailureText(t1) == Some(text1) && FailureText(t2) == Some(text2) && text1 != text2
    ensures Step(Step(s, t1).next, t2).alert == Some(text2)
  {
  }

  /** Every HTTP status other than 200 fails with the same text, since the
      message does not carry the code: a 503 followed by a 500 is reported once. */
  lemma BadStatusesShareOneText(t1: Tick, t2: Tick)
    requires t1.reply.HttpReply? && t1.reply.code != HttpOk
    requires t2.reply.HttpReply? && t2.reply.code != HttpOk
    ensures FailureText(t1) == FailureText(t2) == Some(FailurePrefix + BadStatusMessage)
  {
  }

  /** `last_error` survives a successful cycle, so a failure that recurs after
      a recovery with the text reported before is not reported again. */
  lemma RecoveryKeepsLastError(s: LoopState, t1: Tick, t2: Tick, t3: Tick, text: string)
    requires FailureText(t1) == Some(text) && FailureText(t2).None? && FailureText(t3) == Some(text)
    ensures Step(Step(s, t1).next, t2).next.lastError == text
    ensures Step(Step(Step(s, t1).next, t2).next, t3).alert.None?
  {
  }

  /** A failed cycle keeps the watermark, so the next request asks from the
      same `from_date` whatever the clock then says; only a zero watermark
      falls back to the new current time. */
  lemma FailedCycleRepolls(s: LoopState, t1: Tick, t2: Tick)
    requires FailureText(t1).Some?
    ensures Step(Step(s, t1).next, t2).fromDate == FromDate(s.watermark, t2.now)
    ensures s.watermark != 0 ==> Step(Step(s, t1).next, t2).fromDate == Step(s, t1).fromDate
  {
  }

  /** The first failure after start is always reported: `last_error` starts
      empty and every error text begins with the non-empty failure prefix. */
  lemma FirstFailureReported(now: int, t: Tick)
    requires FailureText(t).Some?
    ensures Step(Initial(now), t).alert == FailureText(t)
  {
    var e := TryCycle(t).outcome.error;
    assert ErrorText(e)[..|FailurePrefix|] == FailurePrefix;
  }

  /** The second of two consecutive cycles that miss different record keys
      is always reported: the two texts differ because the keys print
      differently. */
  lemma DifferentMissingKeysReported(s: LoopState, t1: Tick, t2: Tick, k1: string, k2: string)
    requires FailureText(t1) == Some(ErrorText(MissingHomeworkKey(k1)))
    requires FailureText(t2) == Some(ErrorText(MissingHomeworkKey(k2)))
    requires k1 != k2
    ensures Step(Step(s, t1).next, t2).alert == FailureText(t2)
  {
    MissingKeysPrintApart(k1, k2);
    ErrorTextsAgree(MissingHomeworkKey(k1), MissingHomeworkKey(k2));
  }

  /** After a successful cycle the next request asks from the reply's
      `current_date`, or from the current time when that date is 0. */
  lemma SuccessfulCycleMovesRequest(s: LoopState, t1: Tick, t2: Tick)
    requires FailureText(t1).None?
    ensures var d := t1.reply.body.response.currentDate.value;
      Step(Step(s, t1).next, t2).fromDate == if d == 0 then t2.now else d
  {
    SuccessfulCycle(s, t1);
  }

  /** A valid reply with an empty `homeworks` list sends nothing and still
      moves the watermark to `current_date`. */
  lemma EmptyListAdvancesSilently(s: LoopState, now: int, sends: seq<SendOutcome>, date: int)
    ensures var o := Step(s, Tick(now, HttpReply(HttpOk, Decoded(Response(Some(HomeworkList([])), Some(date)))), sends));
      o.notified == [] && o.alert.None? && !o.halted && o.next == LoopState(date, s.lastError)
  {
  }

  /** A `homeworks` value that is not a list fails the cycle before any
      record is notified; the text is Python's complaint about raising a
      string, not the validator's own message. */
  lemma NonListHomeworksRejected(s: LoopState, now: int, sends: seq<SendOutcome>, date: int)
    ensures var t := Tick(now, HttpReply(HttpOk, Decoded(Response(Some(OtherValue), Some(date)))), sends);
      && FailureText(t) == Some(FailurePrefix + NotAnExceptionMessage)
      && Step(s, t).notified == []
      && Step(s, t).next.watermark == s.watermark
  {
  }

  /** The watermark takes whatever `current_date` the reply carries, even an
      earlier one: nothing keeps it from moving back. */
  lemma WatermarkCanMoveBack(sends: seq<SendOutcome>)
    ensures var t := Tick(0, HttpReply(HttpOk, Decoded(Response(Some(HomeworkList([])), Some(50)))), sends);
      Step(LoopState(100, ""), t).next.watermark == 50
  {
  }

  /** A run of cycles that all fail with the same text reports it at most
      once, at the start and only if it is new, and never moves the watermark. */
  lemma {:induction false} PersistentFailureAlertsOnce(s: LoopState, ticks: seq<Tick>, text: string)
    requires forall k :: 0 <= k < |ticks| ==> FailureText(ticks[k]) == Some(text)
    ensures Run(s, ticks).alerts == if ticks == [] || s.lastError == text then [] else [text]
    ensures Run(s, ticks).final.watermark == s.watermark
    ensures ticks != [] ==> Run(s, ticks).final.lastError == text
    decreases |ticks|
  {
    if ticks != [] {
      var o := Step(s, ticks[0]);
      FailedCycle(s, ticks[0], text);
      if !o.halted {
        PersistentFailureAlertsOnce(o.next, ticks[1..], text);
      }
    }
  }
}
