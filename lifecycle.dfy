/**
 * The bot lifecycle and settings handlers of the configuration window: start_bot,
 * stop_bot, toggle_bot_status, the worker's `finally`, and the save/clear handlers
 * (src/main.py:211-216, 245-281, 319-385, 416-417). The module globals they share
 * become the fields of one controller object. The worker thread is not modelled: its
 * exit is an event, and the client calls the controller makes are recorded in order.
 */
module Lifecycle {
  import opened Wrappers

  /** A call the controller makes on the Telegram client or the worker thread. */
  datatype ClientCall =
    | NewClient(token: string)      // telebot.TeleBot(token)
    | StartWorker(token: string)    // a worker thread started for that client
    | StopPolling(token: string)    // stop_polling on the client for that token

  /** How an attempt to start the bot ends. */
  datatype StartOutcome =
    | Started
    | ClientFailed(details: string)   // the client constructor raised; `bot` keeps its old value
    | ThreadFailed(details: string)   // the client was built but the thread did not start

  /** The status line of the window, as far as these handlers set it. */
  datatype Notice =
    | NoNotice
    | TokenRequiredToStart
    | StartFailed(details: string)
    | InstructionRequired
    | InstructionSaved
    | InstructionWriteFailed
    | InstructionCleared
    | TelegramTokenRequired
    | TelegramTokenSaved
    | TelegramTokenWriteFailed
    | GeminiTokenRequired
    | GeminiTokenSaved
    | GeminiTokenWriteFailed

  /** The client calls one start_bot makes with a non-empty token. */
  function StartCalls(token: string, outcome: StartOutcome): seq<ClientCall>
  {
    match outcome
    case Started => [NewClient(token), StartWorker(token)]
    case ClientFailed(_) => []
    case ThreadFailed(_) => [NewClient(token)]
  }

  /** The client start_bot leaves in place with a non-empty token. */
  function ClientAfterStart(previous: Option<string>, token: string, outcome: StartOutcome): Option<string>
  {
    if outcome.ClientFailed? then previous else Some(token)
  }

  /** The status line start_bot leaves with a non-empty token. */
  function NoticeAfterStart(previous: Notice, outcome: StartOutcome): Notice
  {
    match outcome
    case Started => previous
    case ClientFailed(e) => StartFailed(e)
    case ThreadFailed(e) => StartFailed(e)
  }

  class BotController {
    var running: bool             // is_bot_running
    var bot: Option<string>       // the current client, by the token it was built with
    var telegramToken: string
    var geminiToken: string
    var instruction: string       // saved_instruction
    var notice: Notice            // status_text
    var calls: seq<ClientCall>

    /** The bot is never reported running without a client. */
    ghost predicate Valid()
      reads this
    {
      running ==> bot.Some?
    }

    /** The window opens with the three stored values; no bot exists yet. */
    constructor (storedInstruction: string, storedTelegramToken: string, storedGeminiToken: string)
      ensures Valid()
      ensures instruction == storedInstruction && telegramToken == storedTelegramToken
      ensures geminiToken == storedGeminiToken
      ensures !running && bot == None && notice == NoNotice && calls == []
    {
      running, bot := false, None;
      instruction, telegramToken, geminiToken := storedInstruction, storedTelegramToken, storedGeminiToken;
      notice, calls := NoNotice, [];
    }

    /** The window starts the bot at once when a Telegram token was stored. */
    method AutoStart(outcome: StartOutcome)
      requires Valid()
      modifies this
      ensures Valid()
      ensures telegramToken == old(telegramToken) && geminiToken == old(geminiToken)
      ensures instruction == old(instruction)
      ensures telegramToken == [] ==> unchanged(this)
      ensures telegramToken != [] ==>
        && bot == ClientAfterStart(old(bot), telegramToken, outcome)
        && running == outcome.Started?
        && calls == old(calls) + StartCalls(telegramToken, outcome)
        && notice == NoticeAfterStart(old(notice), outcome)
    {
      if telegramToken != [] {
        Start(outcome);
      }
    }

    /**
     * start_bot. Without a token only the status line changes. With one, a new
     * client and worker are made for it; a running session is not stopped first.
     */
    method Start(outcome: StartOutcome)
      requires Valid()
      modifies this
      ensures Valid()
      ensures telegramToken == old(telegramToken) && geminiToken == old(geminiToken)
      ensures instruction == old(instruction)
      ensures telegramToken == [] ==>
        running == old(running) && bot == old(bot) && calls == old(calls)
        && notice == TokenRequiredToStart
      ensures telegramToken != [] ==>
        && bot == ClientAfterStart(old(bot), telegramToken, outcome)
        && running == outcome.Started?
        && calls == old(calls) + StartCalls(telegramToken, outcome)
        && notice == NoticeAfterStart(old(notice), outcome)
    {
      if telegramToken == [] {
        notice := TokenRequiredToStart;
        return;
      }
      match outcome
      case Started =>
        bot := Some(telegramToken);
        calls := calls + [NewClient(telegramToken), StartWorker(telegramToken)];
        running := true;
      case ClientFailed(e) =>
        notice := StartFailed(e);
        running := false;
      case ThreadFailed(e) =>
        bot := Some(telegramToken);
        calls := calls + [NewClient(telegramToken)];
        notice := StartFailed(e);
        running := false;
    }

    /**
     * stop_bot. Nothing happens without a client. Otherwise polling is told to stop
     * and the bot is reported stopped whether or not the bounded join finished; the
     * client itself is kept.
     */
    method Stop()
      requires Valid()
      modifies this
      ensures Valid()
      ensures old(bot) == None ==> unchanged(this)
      ensures old(bot) != None ==>
        && !running
        && calls == old(calls) + [StopPolling(old(bot).value)]
      ensures bot == old(bot) && notice == old(notice)
      ensures telegramToken == old(telegramToken) && geminiToken == old(geminiToken)
      ensures instruction == old(instruction)
    {
      if bot.Some? {
        calls := calls + [StopPolling(bot.value)];
        running := false;
      }
    }

    /** toggle_bot_status: stop when running, start otherwise. */
    method Toggle(outcome: StartOutcome)
      requires Valid()
      modifies this
      ensures Valid()
      ensures old(running) ==>
        && !running && bot == old(bot) && notice == old(notice)
        && calls == old(calls) + [StopPolling(old(bot).value)]
      ensures !old(running) && telegramToken != [] ==>
        && bot == ClientAfterStart(old(bot), telegramToken, outcome)
        && running == outcome.Started?
        && calls == old(calls) + StartCalls(telegramToken, outcome)
        && notice == NoticeAfterStart(old(notice), outcome)
      ensures !old(running) && telegramToken == [] ==>
        !running && bot == old(bot) && calls == old(calls) && notice == TokenRequiredToStart
      ensures telegramToken == old(telegramToken) && geminiToken == old(geminiToken)
      ensures instruction == old(instruction)
    {
      if running {
        Stop();
      } else {
        Start(outcome);
      }
    }

    /** The worker's `finally`: however polling ended, the bot is reported stopped. */
    method WorkerExited()
      requires Valid()
      modifies this
      ensures Valid()
      ensures !running
      ensures bot == old(bot) && calls == old(calls) && notice == old(notice)
      ensures telegramToken == old(telegramToken) && geminiToken == old(geminiToken)
      ensures instruction == old(instruction)
    {
      running := false;
    }

    /**
     * save_instruction. An empty field is refused. Otherwise the instruction in memory
     * is replaced before the write, so it holds even when `written` is false.
     */
    method SaveInstruction(field: string, written: bool)
      requires Valid()
      modifies this
      ensures Valid()
      ensures field == [] ==> instruction == old(instruction) && notice == InstructionRequired
      ensures field != [] ==> instruction == field
      ensures field != [] ==> notice == (if written then InstructionSaved else InstructionWriteFailed)
      ensures running == old(running) && bot == old(bot) && calls == old(calls)
      ensures telegramToken == old(telegramToken) && geminiToken == old(geminiToken)
    {
      if field == [] {
        notice := InstructionRequired;
      } else {
        instruction := field;
        if written {
          notice := InstructionSaved;
        } else {
          notice := InstructionWriteFailed;
        }
      }
    }

    /** clear_instruction: the instruction is emptied whatever happens to the file. */
    method ClearInstruction()
      requires Valid()
      modifies this
      ensures Valid()
      ensures instruction == [] && notice == InstructionCleared
      ensures running == old(running) && bot == old(bot) && calls == old(calls)
      ensures telegramToken == old(telegramToken) && geminiToken == old(geminiToken)
    {
      instruction := [];
      notice := InstructionCleared;
    }

    /** save_gemini_token_handler: like SaveInstruction, for the Gemini key. */
    method SaveGeminiToken(field: string, written: bool)
      requires Valid()
      modifies this
      ensures Valid()
      ensures field == [] ==> geminiToken == old(geminiToken) && notice == GeminiTokenRequired
      ensures field != [] ==> geminiToken == field
      ensures field != [] ==> notice == (if written then GeminiTokenSaved else GeminiTokenWriteFailed)
      ensures running == old(running) && bot == old(bot) && calls == old(calls)
      ensures telegramToken == old(telegramToken) && instruction == old(instruction)
    {
      if field == [] {
        notice := GeminiTokenRequired;
      } else {
        geminiToken := field;
        if written {
          notice := GeminiTokenSaved;
        } else {
          notice := GeminiTokenWriteFailed;
        }
      }
    }

    /**
     * save_telegram_token_handler. The token in memory is replaced before the write.
     * Only after a successful write, and only while the bot is running, the old
     * client's polling is stopped and then a client for the new token is started.
     */
    method SaveTelegramToken(field: string, written: bool, restart: StartOutcome)
      requires Valid()
      modifies this
      ensures Valid()
      ensures field == [] ==>
        telegramToken == old(telegramToken) && notice == TelegramTokenRequired
        && running == old(running) && bot == old(bot) && calls == old(calls)
      ensures field != [] ==> telegramToken == field
      ensures field != [] && !written ==>
        notice == TelegramTokenWriteFailed
        && running == old(running) && bot == old(bot) && calls == old(calls)
      ensures field != [] && written && !old(running) ==>
        notice == TelegramTokenSaved
        && running == old(running) && bot == old(bot) && calls == old(calls)
      ensures field != [] && written && old(running) ==>
        && calls == old(calls) + [StopPolling(old(bot).value)] + StartCalls(field, restart)
        && bot == ClientAfterStart(old(bot), field, restart)
        && running == restart.Started?
        && notice == NoticeAfterStart(TelegramTokenSaved, restart)
      ensures geminiToken == old(geminiToken) && instruction == old(instruction)
    {
      if field == [] {
        notice := TelegramTokenRequired;
      } else {
        telegramToken := field;
        if written {
          notice := TelegramTokenSaved;
          if running {
            Stop();
            Start(restart);
          }
        } else {
          notice := TelegramTokenWriteFailed;
        }
      }
    }
  }

  /**
   * Saving a new Telegram token while the bot runs: the first client's polling is
   * told to stop before the client for the second token is made, and the bot is
   * reported running with the client for the second token.
   */
  method RestartWithNewToken(first: string, second: string, stored: bool)
    returns (calls: seq<ClientCall>, running: bool, client: Option<string>)
    requires first != []
    ensures stored && second != [] ==>
      calls == [NewClient(first), StartWorker(first), StopPolling(first), NewClient(second), StartWorker(second)]
      && running && client == Some(second)
    ensures !(stored && second != []) ==>
      calls == [NewClient(first), StartWorker(first)] && running && client == Some(first)
  {
    var controller := new BotController("", first, "");
    controller.AutoStart(Started);
    controller.SaveTelegramToken(second, stored, Started);
    calls, running, client := controller.calls, controller.running, controller.bot;
  }

  /**
   * Stopping twice: the second stop finds the client still in place, so polling is
   * told to stop again, and the bot stays stopped.
   */
  method StopTwice(token: string) returns (calls: seq<ClientCall>, running: bool)
    requires token != []
    ensures calls == [NewClient(token), StartWorker(token), StopPolling(token), StopPolling(token)]
    ensures !running
  {
    var controller := new BotController("", token, "");
    controller.AutoStart(Started);
    controller.Toggle(Started);
    controller.Stop();
    calls, running := controller.calls, controller.running;
  }

  /**
   * A restart whose bounded join gave up: the old worker's `finally` runs after the
   * new worker has started, and the bot is reported stopped although the last call
   * started a worker for the new token and nothing stopped it.
   */
  method LateWorkerExit(first: string, second: string)
    returns (calls: seq<ClientCall>, running: bool, client: Option<string>)
    requires first != [] && second != []
    ensures calls == [NewClient(first), StartWorker(first), StopPolling(first), NewClient(second), StartWorker(second)]
    ensures !running && client == Some(second)
  {
    var controller := new BotController("", first, "");
    controller.AutoStart(Started);
    controller.SaveTelegramToken(second, true, Started);
    controller.WorkerExited();
    calls, running, client := controller.calls, controller.running, controller.bot;
  }
}
