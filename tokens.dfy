/** `check_tokens`: the start-up check of the three credentials the bot reads
    from its environment. */
module Tokens {
  import opened Wrappers

  /** The three environment variables; an unset one is `None`. */
  datatype Credentials = Credentials(
    practicumToken: Option<string>,
    telegramToken: Option<string>,
    telegramChatId: Option<string>)

  const TokenNames: seq<string> := ["PRACTICUM_TOKEN", "TELEGRAM_TOKEN", "TELEGRAM_CHAT_ID"]

  /** The values in the order the check visits them. */
  function TokenValues(c: Credentials): (vs: seq<Option<string>>)
    ensures |vs| == |TokenNames|
  {
    [c.practicumToken, c.telegramToken, c.telegramChatId]
  }

  /** Python's `not token`: unset or empty. */
  predicate Absent(token: Option<string>)
  {
    token.None? || token.value == ""
  }

  /** All three credentials are set and non-empty. */
  predicate AllPresent(c: Credentials)
  {
    forall k :: 0 <= k < |TokenNames| ==> !Absent(TokenValues(c)[k])
  }

  /** Visits the tokens in order and stops at the first absent one, whose name
      is the one reported; answers true only when none is absent. */
  method CheckTokens(c: Credentials) returns (ok: bool, reported: Option<string>)
    ensures ok <==> AllPresent(c)
    ensures ok <==> reported.None?
    ensures reported.Some? ==>
              exists k :: 0 <= k < |TokenNames| && reported.value == TokenNames[k]
                && Absent(TokenValues(c)[k])
                && forall j :: 0 <= j < k ==> !Absent(TokenValues(c)[j])
  {
    var values := TokenValues(c);
    var i := 0;
    while i < |values|
      invariant 0 <= i <= |values|
      invariant forall j :: 0 <= j < i ==> !Absent(values[j])
    {
      if Absent(values[i]) {
        return false, Some(TokenNames[i]);
      }
      i := i + 1;
    }
    return true, None;
  }
}
