/** `check_tokens` (homework.py:101-112): the three configuration values are
    scanned in a fixed order and the first missing one is reported. */
module Tokens {
  import opened Wrappers

  /** The three values read from the environment; None when a variable is
      not set. An empty string is a value like any other. */
  datatype Config = Config(
    practicumToken: Option<string>,
    telegramToken: Option<string>,
    telegramChatId: Option<string>)

  /** The `tokens` dict in its insertion order, which is the order of the scan. */
  function TokenTable(c: Config): seq<(string, Option<string>)>
  {
    [("PRACTICUM_TOKEN", c.practicumToken),
     ("TELEGRAM_TOKEN", c.telegramToken),
     ("TELEGRAM_CHAT_ID", c.telegramChatId)]
  }

  predicate AllPresent(table: seq<(string, Option<string>)>)
  {
    forall i :: 0 <= i < |table| ==> table[i].1.Some?
  }

  /** The name of the first entry whose value is missing, if there is one. */
  function FirstMissing(table: seq<(string, Option<string>)>): (r: Option<string>)
    ensures r.None? <==> AllPresent(table)
    ensures r.Some? ==> exists i :: 0 <= i < |table| && table[i].1.None? && r.value == table[i].0
                                    && AllPresent(table[..i])
  {
    if |table| == 0 then None
    else if table[0].1.None? then Some(table[0].0)
    else
      var rest := FirstMissing(table[1..]);
      if rest.Some? then
        var i :| 0 <= i < |table[1..]| && table[1..][i].1.None? && rest.value == table[1..][i].0
                 && AllPresent(table[1..][..i]);
        assert table[..i + 1] == [table[0]] + table[1..][..i];
        rest
      else
        assert forall i :: 1 <= i < |table| ==> table[i] == table[1..][i - 1];
        rest
  }

  /** The loop of `check_tokens`: stops at the first missing value and
      reports its name; true when it runs off the end. */
  method CheckTokens(table: seq<(string, Option<string>)>) returns (ok: bool, missing: Option<string>)
    ensures ok <==> AllPresent(table)
    ensures ok ==> missing.None?
    ensures !ok ==> missing == FirstMissing(table) && missing.Some?
  {
    var i := 0;
    while i < |table|
      invariant 0 <= i <= |table|
      invariant AllPresent(table[..i])
      invariant FirstMissing(table) == FirstMissing(table[i..])
    {
      if table[i].1.None? {
        return false, Some(table[i].0);
      }
      assert table[i..][1..] == table[i + 1..];
      assert table[..i + 1] == table[..i] + [table[i]];
      i := i + 1;
    }
    assert table[..i] == table;
    return true, None;
  }

  /** `check_tokens()` on a configuration: the first missing value in the
      order PRACTICUM_TOKEN, TELEGRAM_TOKEN, TELEGRAM_CHAT_ID. */
  lemma FirstMissingOrder(c: Config)
    ensures FirstMissing(TokenTable(c)) ==
              if c.practicumToken.None? then Some("PRACTICUM_TOKEN")
              else if c.telegramToken.None? then Some("TELEGRAM_TOKEN")
              else if c.telegramChatId.None? then Some("TELEGRAM_CHAT_ID")
              else None
  {
    var t := TokenTable(c);
    var t1 := [("TELEGRAM_TOKEN", c.telegramToken), ("TELEGRAM_CHAT_ID", c.telegramChatId)];
    var t2 := [("TELEGRAM_CHAT_ID", c.telegramChatId)];
    assert t[1..] == t1;
    assert t1[1..] == t2;
    assert t2[1..] == [];
    assert FirstMissing(t2) == if c.telegramChatId.None? then Some("TELEGRAM_CHAT_ID") else FirstMissing([]);
    assert FirstMissing(t1) == if c.telegramToken.None? then Some("TELEGRAM_TOKEN") else FirstMissing(t2);
    assert FirstMissing(t) == if c.practicumToken.None? then Some("PRACTICUM_TOKEN") else FirstMissing(t1);
  }
}
