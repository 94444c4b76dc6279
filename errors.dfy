/** The exceptions the polling cycle can raise and the text each one prints
    as, which is what the bot compares against its last reported error and
    what it sends to the chat. */
module Errors {

  /** Every failure `main` catches, in the order the cycle can meet them. */
  datatype Error =
    | RequestFailed(cause: string)                  // requests.RequestException from the GET
    | BadStatus(code: int)                          // ValueError: HTTP status other than 200
    | NotJson(cause: string)                        // JSONDecodeError from the body
    | MissingResponseKey(key: string)               // KeyError in check_response
    | HomeworksNotList                              // check_response raises a str: a TypeError
    | MissingHomeworkKey(key: string)               // KeyError re-raised by parse_status
    | UndocumentedStatus(status: string, name: string) // status not in the catalog
    | TelegramFailed(cause: string)                 // telegram.TelegramError from a send

  const Endpoint := "https://practicum.yandex.ru/api/user_api/homework_statuses/"

  /** The ValueError message for a non-200 reply; it does not mention the code. */
  const BadStatusMessage := "Код ответа не соответствует ожидаемому при запросе к " + Endpoint

  /** What Python says when a `str` is raised instead of an exception. */
  const NotAnExceptionMessage := "exceptions must derive from BaseException"

  const MissingKeyTemplate := "В ответе API отсутствует ключ: "

  /** Prefix of every error notification, from 'Сбой в работе программы: {error}'. */
  const FailurePrefix := "Сбой в работе программы: "

  /** The quote Python's `repr` puts around a string: a double quote when the
      text holds a single quote and no double quote, a single quote otherwise. */
  function QuoteFor(s: string): char
  {
    if '\'' in s && '"' !in s then '"' else '\''
  }

  /** Python's `repr` of a string: the text between the chosen quotes, with
      backslashes, that quote and the tab, newline and carriage return escaped. */
  function PyRepr(s: string): (r: string)
    ensures |r| >= |s| + 2
    ensures r[0] == r[|r| - 1] == QuoteFor(s)
  {
    var q := QuoteFor(s);
    [q] + Escape(s, q) + [q]
  }

  /** How `repr` prints one character inside quotes `q`. */
  function EscapeChar(c: char, q: char): (e: string)
    ensures 1 <= |e| <= 2
    ensures (|e| == 2) == (e[0] == '\\')
  {
    if c == '\\' || c == q then ['\\', c]
    else if c == '\t' then "\\t"
    else if c == '\n' then "\\n"
    else if c == '\r' then "\\r"
    else [c]
  }

  function Escape(s: string, q: char): (r: string)
    ensures |r| >= |s|
  {
    if s == [] then [] else EscapeChar(s[0], q) + Escape(s[1..], q)
  }

  /** Escaping works character by character, so it distributes over
      concatenation. */
  lemma {:induction false} EscapeAppend(a: string, b: string, q: char)
    ensures Escape(a + b, q) == Escape(a, q) + Escape(b, q)
  {
    if a != [] {
      assert (a + b)[0] == a[0];
      assert (a + b)[1..] == a[1..] + b;
      EscapeAppend(a[1..], b, q);
    } else {
      assert a + b == b;
    }
  }

  /** No two characters print alike, and no printed character is the start
      of another: an escape begins with a backslash, and a bare backslash is
      always escaped. */
  lemma EscapeCharPrefixFree(c1: char, c2: char, q: char, x: string, y: string)
    requires q == '\'' || q == '"'
    requires EscapeChar(c1, q) + x == EscapeChar(c2, q) + y
    ensures c1 == c2 && x == y
  {
    var e1, e2 := EscapeChar(c1, q), EscapeChar(c2, q);
    assert e1[0] == (e1 + x)[0] == (e2 + y)[0] == e2[0];
    assert |e1| == |e2|;
    assert e1 == (e1 + x)[..|e1|] == (e2 + y)[..|e2|] == e2;
    assert x == (e1 + x)[|e1|..] == (e2 + y)[|e2|..] == y;
  }

  /** Escaping inside a given quote loses nothing. */
  lemma {:induction false} EscapeInjective(a: string, b: string, q: char)
    requires q == '\'' || q == '"'
    requires Escape(a, q) == Escape(b, q)
    ensures a == b
  {
    if a != [] && b != [] {
      EscapeCharPrefixFree(a[0], b[0], q, Escape(a[1..], q), Escape(b[1..], q));
      EscapeInjective(a[1..], b[1..], q);
    }
  }

  /** Different texts have different reprs, so two KeyErrors with different
      arguments print differently. */
  lemma PyReprInjective(a: string, b: string)
    requires PyRepr(a) == PyRepr(b)
    ensures a == b
  {
    var ra, rb := PyRepr(a), PyRepr(b);
    var q := QuoteFor(a);
    assert q == ra[0] == rb[0] == QuoteFor(b);
    assert Escape(a, q) == ra[1..|ra| - 1] == rb[1..|rb| - 1] == Escape(b, q);
    EscapeInjective(a, b, q);
  }

  /** The failures whose text is the repr of a KeyError's argument. */
  predicate IsKeyError(e: Error)
  {
    e.MissingResponseKey? || e.MissingHomeworkKey? || e.UndocumentedStatus?
  }

  /** `str(error)` for each kind of failure. A KeyError prints as the repr of
      its argument. */
  function Describe(e: Error): (r: string)
    ensures IsKeyError(e) ==> 2 <= |r| && r[0] == r[|r| - 1] && (r[0] == '\'' || r[0] == '"')
    ensures e.BadStatus? ==> r == BadStatusMessage
  {
    match e
    case RequestFailed(cause) => cause
    case BadStatus(_) => BadStatusMessage
    case NotJson(cause) => cause
    case MissingResponseKey(key) => PyRepr(key)
    case HomeworksNotList => NotAnExceptionMessage
    case MissingHomeworkKey(key) => PyRepr(MissingKeyTemplate + PyRepr(key))
    case UndocumentedStatus(status, name) => PyRepr(UndocumentedMessage(status, name))
    case TelegramFailed(cause) => cause
  }

  const StatusHead := "Статус "
  const StatusMiddle := " домашней работы: "
  const StatusEnd := " не документирован."

  /** The message `parse_status` raises for a status outside the catalog. */
  function UndocumentedMessage(status: string, name: string): string
  {
    StatusHead + status + (StatusMiddle + name + StatusEnd)
  }

  /** Texts that agree around their middles agree in the middle. */
  lemma MiddleDetermined(head: string, a: string, b: string, tail: string)
    requires head + a + tail == head + b + tail
    ensures a == b
  {
    var m1, m2 := head + a + tail, head + b + tail;
    assert |a| == |b|;
    assert a == m1[|head|..|head| + |a|] == m2[|head|..|head| + |b|] == b;
  }

  /** Missing keys, in the response or in a record, print alike only when
      they are the same key. */
  lemma MissingKeysPrintApart(k1: string, k2: string)
    ensures Describe(MissingResponseKey(k1)) == Describe(MissingResponseKey(k2)) ==> k1 == k2
    ensures Describe(MissingHomeworkKey(k1)) == Describe(MissingHomeworkKey(k2)) ==> k1 == k2
  {
    if Describe(MissingResponseKey(k1)) == Describe(MissingResponseKey(k2)) {
      PyReprInjective(k1, k2);
    }
    if Describe(MissingHomeworkKey(k1)) == Describe(MissingHomeworkKey(k2)) {
      PyReprInjective(MissingKeyTemplate + PyRepr(k1), MissingKeyTemplate + PyRepr(k2));
      MiddleDetermined(MissingKeyTemplate, PyRepr(k1), PyRepr(k2), []);
      PyReprInjective(k1, k2);
    }
  }

  /** Two undocumented statuses of the same homework print alike only when
      they are the same status. */
  lemma UndocumentedStatusesPrintApart(s1: string, s2: string, name: string)
    ensures Describe(UndocumentedStatus(s1, name)) == Describe(UndocumentedStatus(s2, name)) ==> s1 == s2
  {
    if Describe(UndocumentedStatus(s1, name)) == Describe(UndocumentedStatus(s2, name)) {
      PyReprInjective(UndocumentedMessage(s1, name), UndocumentedMessage(s2, name));
      MiddleDetermined(StatusHead, s1, s2, StatusMiddle + name + StatusEnd);
    }
  }

  /** The notification the bot composes for a caught failure: the fixed
      prefix followed by the failure's description, so two failures give the
      same notification exactly when they print alike. */
  function ErrorText(e: Error): (r: string)
    ensures |FailurePrefix| <= |r| && r[..|FailurePrefix|] == FailurePrefix
    ensures r[|FailurePrefix|..] == Describe(e)
  {
    FailurePrefix + Describe(e)
  }

  /** Deduplication compares descriptions: two failures share a notification
      text exactly when they print alike. */
  lemma ErrorTextsAgree(e1: Error, e2: Error)
    ensures ErrorText(e1) == ErrorText(e2) <==> Describe(e1) == Describe(e2)
  {
    if ErrorText(e1) == ErrorText(e2) {
      assert Describe(e1) == ErrorText(e1)[|FailurePrefix|..] == ErrorText(e2)[|FailurePrefix|..] == Describe(e2);
    }
  }
}
