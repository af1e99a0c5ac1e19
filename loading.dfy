/**
 * Loading the table in app.js (`loadData`), and what the client does with the
 * server's answer to a manual update (`updateInvestment`). The server's answers and
 * the outcome of each silent update are parameters.
 */
module Loading {
  import opened Wrappers
  import opened History
  import opened Table
  import opened Countdown

  /**
   * Loads the records and renders them. `fetched` is the parsed body of the data
   * request, `None` when the request or the JSON parse throws: the error is caught
   * and logged and nothing is rendered. Unless `skipAutoUpdate`, stale investments
   * are refreshed first, and if any refresh succeeded the records are fetched once
   * more (`refetched`) and shown without a second round of refreshes.
   */
  method LoadData(skipAutoUpdate: bool, fetched: Option<seq<Entry>>, refetched: Option<seq<Entry>>, now: int,
                  updateSucceeds: string -> bool)
    returns (rows: Option<seq<TableRow>>, loads: nat, autoUpdateRuns: nat)
    ensures 1 <= loads <= 2
    ensures autoUpdateRuns == (if skipAutoUpdate || fetched.None? then 0 else 1)
    ensures skipAutoUpdate || fetched.None? ==> loads == 1
    ensures !skipAutoUpdate && fetched.Some? ==>
              (loads == 2 <==> exists n :: n in Latest(fetched.value) && NeedsUpdate(Latest(fetched.value)[n], now) &&
                                           updateSucceeds(n))
    ensures var shown := if loads == 2 then refetched else fetched;
      && (rows.Some? <==> shown.Some?)
      && (rows.Some? ==> rows.value == Rendered(shown.value))
    decreases if skipAutoUpdate then 0 else 1
  {
    if fetched.None? {
      return None, 1, 0;
    }
    var data := fetched.value;
    if !skipAutoUpdate {
      var updated, attempted := AutoUpdateOldInvestments(data, now, updateSucceeds);
      if updated {
        var r, l, a := LoadData(true, refetched, refetched, now, updateSucceeds);
        return r, l + 1, a + 1;
      }
    }
    var table := new Entry[|data|](i requires 0 <= i < |data| => data[i]);
    assert table[..] == data;
    var shown := UpdateTable(table);
    rows, loads, autoUpdateRuns := Some(shown), 1, if skipAutoUpdate then 0 else 1;
  }

  /** What the server answered: `ok` is the HTTP success flag, the rest are the
      JSON fields the client reads (absent or null ones are `None`). */
  datatype Reply = Reply(
    ok: bool,
    status: int,
    success: bool,
    secondsRemaining: Option<int>,
    reason: Option<string>,
    error: Option<string>,
    totalValue: Option<real>)

  /** The outcome of the request: a parsed reply, or the message of the error
      thrown by `fetch` or `response.json()`. */
  datatype Answer = Answered(reply: Reply) | NoAnswer(message: string)

  /** The page's reaction to a reply. `Reloaded` carries what the reload rendered
      (`None` when that load failed); `Thrown` is the text shown before the error
      is thrown on to the caller. */
  datatype Feedback =
    | Reloaded(rows: Option<seq<TableRow>>)
    | WaitCountdown(message: string)
    | ErrorMessage(text: string)
    | Thrown(text: string)

  /** A JSON number the client tests with `if (x)`: present and not zero. */
  predicate TruthyNumber(x: Option<int>) {
    x.Some? && x.value != 0
  }

  /** `result.error || fallback`: the server's message unless it is absent or
      empty. */
  function ErrorText(error: Option<string>, fallback: string): (t: string)
    ensures t == fallback || Some(t) == error
    ensures t == fallback <==> error.None? || error.value == "" || error.value == fallback
  {
    if error.Some? && error.value != "" then error.value else fallback
  }

  /** Whether the reply is a rate-limit answer the client counts down. */
  predicate RateLimited(reply: Reply) {
    !(reply.ok && reply.success) && reply.status == 429 && TruthyNumber(reply.secondsRemaining)
  }

  /** The rate-limit prompt's opening: the investment and whether it was just
      created or recently updated. */
  function UpdateWaitMessage(investmentName: string, reason: Option<string>): string {
    if reason == Some("creation") then investmentName + " was just created. Please wait"
    else investmentName + " was recently updated. Please wait"
  }

  /** The first text of the rate-limit countdown: the prompt, a space and the time
      left, which reads back as the time (to the minute from an hour on) in the
      units `formatTimeRemaining` picks for it. */
  function Prompt(baseMessage: string, seconds: int): (p: string)
    ensures |p| > |baseMessage| + 1 && p[..|baseMessage| + 1] == baseMessage + " "
    ensures 0 <= seconds ==>
              ReadDuration(p[|baseMessage| + 1..]) ==
                Some(if seconds < 3600 then seconds else seconds - seconds % 60)
    ensures 0 <= seconds ==> Units(p[|baseMessage| + 1..]) == ShownUnits(seconds)
  {
    var t := FormatTimeRemaining(seconds);
    assert (baseMessage + " " + t)[..|baseMessage| + 1] == baseMessage + " ";
    assert (baseMessage + " " + t)[|baseMessage| + 1..] == t;
    baseMessage + " " + t
  }

  /**
   * A manual Update click: on success the table is reloaded without a round of
   * automatic refreshes; a rate-limit answer starts the countdown; any other reply
   * shows the server's error or "Update failed". When the request throws, or a
   * success reply has no `totalValue` (reading it throws a TypeError whose text is
   * `typeError`), "Error updating investment: " and the message are shown and the
   * error is thrown on.
   */
  method UpdateInvestment(investmentName: string, answer: Answer, typeError: string,
                          refetched: Option<seq<Entry>>, now: int, updateSucceeds: string -> bool)
    returns (feedback: Feedback, autoUpdateRuns: nat)
    ensures autoUpdateRuns == 0
    ensures feedback.Thrown? <==>
              answer.NoAnswer? || (answer.reply.ok && answer.reply.success && answer.reply.totalValue.None?)
    ensures feedback.Thrown? ==>
              feedback.text == "Error updating investment: " +
                               (if answer.NoAnswer? then answer.message else typeError)
    ensures feedback.Reloaded? <==>
              answer.Answered? && answer.reply.ok && answer.reply.success && answer.reply.totalValue.Some?
    ensures feedback.Reloaded? ==>
              (feedback.rows.Some? <==> refetched.Some?) &&
              (feedback.rows.Some? ==> feedback.rows.value == Rendered(refetched.value))
    ensures feedback.WaitCountdown? <==> answer.Answered? && RateLimited(answer.reply)
    ensures feedback.WaitCountdown? ==>
              feedback.message ==
                Prompt(UpdateWaitMessage(investmentName, answer.reply.reason), answer.reply.secondsRemaining.value)
    ensures feedback.ErrorMessage? ==> feedback.text == ErrorText(answer.reply.error, "Update failed")
  {
    if answer.NoAnswer? {
      return Thrown("Error updating investment: " + answer.message), 0;
    }
    var reply := answer.reply;
    if reply.ok && reply.success {
      if reply.totalValue.None? {
        return Thrown("Error updating investment: " + typeError), 0;
      }
      var rows, loads, runs := LoadData(true, refetched, refetched, now, updateSucceeds);
      return Reloaded(rows), runs;
    } else if reply.status == 429 && TruthyNumber(reply.secondsRemaining) {
      var baseMsg := UpdateWaitMessage(investmentName, reply.reason);
      return WaitCountdown(Prompt(baseMsg, reply.secondsRemaining.value)), 0;
    } else {
      return ErrorMessage(ErrorText(reply.error, "Update failed")), 0;
    }
  }
}
