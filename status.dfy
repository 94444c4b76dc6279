/** The status catalog and `parse_status`, which turns one homework record
    into the chat notification, together with a reader that recovers the
    record's name and status from such a notification. */
module Status {
  import opened Wrappers
  import opened Errors
  import opened Api

  const Approved := "approved"
  const Reviewing := "reviewing"
  const Rejected := "rejected"

  const ApprovedVerdict := "Работа проверена: ревьюеру всё понравилось. Ура!"
  const ReviewingVerdict := "Работа взята на проверку ревьюером."
  const RejectedVerdict := "Работа проверена: у ревьюера есть замечания."

  /** HOMEWORK_STATUSES: the three documented statuses and their display text. */
  const HomeworkStatuses: map<string, string> :=
    map[Approved := ApprovedVerdict, Reviewing := ReviewingVerdict, Rejected := RejectedVerdict]

  const MessageHead := "Изменился статус проверки работы \""
  const MessageMiddle := "\". "

  /** The notification text for a record with this name and this verdict. */
  function Notification(name: string, verdict: string): string
  {
    MessageHead + name + MessageMiddle + verdict
  }

  /** `parse_status`: `homework_name` is looked up before `status`; a missing
      key or a status outside the catalog is an error, otherwise the
      notification carries the name and the catalog's verdict. */
  function ParseStatus(h: Homework): (r: Result<string, Error>)
    ensures r.Success? <==> h.name.Some? && h.status.Some? && h.status.value in HomeworkStatuses
    ensures h.name.None? ==> r == Failure(MissingHomeworkKey("homework_name"))
    ensures h.name.Some? && h.status.None? ==> r == Failure(MissingHomeworkKey("status"))
    ensures h.name.Some? && h.status.Some? && h.status.value !in HomeworkStatuses ==>
              r == Failure(UndocumentedStatus(h.status.value, h.name.value))
  {
    if h.name.None? then Failure(MissingHomeworkKey("homework_name"))
    else if h.status.None? then Failure(MissingHomeworkKey("status"))
    else if h.status.value !in HomeworkStatuses then
      Failure(UndocumentedStatus(h.status.value, h.name.value))
    else
      Success(Notification(h.name.value, HomeworkStatuses[h.status.value]))
  }

  predicate EndsWith(s: string, suffix: string)
  {
    |suffix| <= |s| && s[|s| - |suffix|..] == suffix
  }

  /** The name and status a notification was made from, if it is one: the
      catalog's statuses are tried in order and the first whose verdict ends
      the text, after the fixed head, is taken. */
  function ReadNotification(m: string): (r: Option<(string, string)>)
    ensures r.Some? ==> r.value.1 in HomeworkStatuses
  {
    if |m| < |MessageHead| || m[..|MessageHead|] != MessageHead then None
    else
      var rest := m[|MessageHead|..];
      if EndsWith(rest, MessageMiddle + ApprovedVerdict) then
        Some((rest[..|rest| - |MessageMiddle + ApprovedVerdict|], Approved))
      else if EndsWith(rest, MessageMiddle + ReviewingVerdict) then
        Some((rest[..|rest| - |MessageMiddle + ReviewingVerdict|], Reviewing))
      else if EndsWith(rest, MessageMiddle + RejectedVerdict) then
        Some((rest[..|rest| - |MessageMiddle + RejectedVerdict|], Rejected))
      else None
  }

  /** A text ending in `w` agrees with `w` on its last two characters. */
  lemma EndsWithLastTwo(s: string, w: string)
    requires |w| >= 2 && EndsWith(s, w)
    ensures s[|s| - 1] == w[|w| - 1] && s[|s| - 2] == w[|w| - 2]
  {
    assert s[|s| - |w|..][|w| - 1] == s[|s| - 1];
    assert s[|s| - |w|..][|w| - 2] == s[|s| - 2];
  }

  /** The three verdicts (after the fixed middle) differ in their last two
      characters, so none of them ends a text that another one ends. */
  lemma VerdictsEndApart(rest: string, status: string, other: string)
    requires status in HomeworkStatuses && other in HomeworkStatuses && status != other
    requires EndsWith(rest, MessageMiddle + HomeworkStatuses[status])
    ensures !EndsWith(rest, MessageMiddle + HomeworkStatuses[other])
  {
    var w := MessageMiddle + HomeworkStatuses[status];
    var u := MessageMiddle + HomeworkStatuses[other];
    assert ApprovedVerdict[|ApprovedVerdict| - 1] == '!';
    assert ReviewingVerdict[|ReviewingVerdict| - 1] == '.';
    assert ReviewingVerdict[|ReviewingVerdict| - 2] == 'м';
    assert RejectedVerdict[|RejectedVerdict| - 1] == '.';
    assert RejectedVerdict[|RejectedVerdict| - 2] == 'я';
    assert w[|w| - 1] == HomeworkStatuses[status][|HomeworkStatuses[status]| - 1];
    assert w[|w| - 2] == HomeworkStatuses[status][|HomeworkStatuses[status]| - 2];
    assert u[|u| - 1] == HomeworkStatuses[other][|HomeworkStatuses[other]| - 1];
    assert u[|u| - 2] == HomeworkStatuses[other][|HomeworkStatuses[other]| - 2];
    EndsWithLastTwo(rest, w);
    if EndsWith(rest, u) {
      EndsWithLastTwo(rest, u);
    }
  }

  /** A notification splits into the fixed head and the name followed by the
      middle and the verdict. */
  lemma NotificationParts(name: string, verdict: string)
    ensures var m := Notification(name, verdict);
      |MessageHead| <= |m| && m[..|MessageHead|] == MessageHead
      && m[|MessageHead|..] == name + MessageMiddle + verdict
      && EndsWith(m[|MessageHead|..], MessageMiddle + verdict)
  {
    var m := Notification(name, verdict);
    var tail := MessageMiddle + verdict;
    assert m == MessageHead + (name + tail);
    var rest := m[|MessageHead|..];
    assert rest == name + tail;
    assert rest[|rest| - |tail|..] == tail;
  }

  /** Every notification `parse_status` can produce reads back as the name and
      status it was made from; no name can make one verdict pass for another. */
  lemma NotificationRoundTrip(name: string, status: string)
    requires status in HomeworkStatuses
    ensures ReadNotification(Notification(name, HomeworkStatuses[status])) == Some((name, status))
  {
    var m := Notification(name, HomeworkStatuses[status]);
    NotificationParts(name, HomeworkStatuses[status]);
    var rest := m[|MessageHead|..];
    var tail := MessageMiddle + HomeworkStatuses[status];
    assert rest[..|rest| - |tail|] == name;
    if status != Approved {
      VerdictsEndApart(rest, status, Approved);
    }
    if status == Rejected {
      VerdictsEndApart(rest, status, Reviewing);
    }
  }

  /** What `parse_status` sends identifies the record: the name and the
      status read back from it, so two records give the same notification
      only when they agree on both. */
  lemma ParseStatusReadsBack(h: Homework)
    ensures ParseStatus(h).Success? ==> ReadNotification(ParseStatus(h).value) == Some((h.name.value, h.status.value))
  {
    if ParseStatus(h).Success? {
      NotificationRoundTrip(h.name.value, h.status.value);
    }
  }
}
