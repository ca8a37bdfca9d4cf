/** The Telegram side of the bot: the shape of an update as the bot reads
    it, the choice of reply for one text (`BotHandler.get_answer` and the
    `is_unicode` guard in `main`), the simplest dialogue manager, and the
    rule by which `BotHandler.get_updates` turns a parsed response into a
    batch. */
module BotHandler {
  import opened Utf8

  datatype Option<T> = None | Some(value: T)

  /** `update["message"]`: the chat it came from (`["chat"]["id"]`, always
      present) and its text, absent for non-text content. */
  datatype Message = Message(chatId: int, text: Option<string>)

  /** One element of the `"result"` array; `update_id` is always present. */
  datatype Update = Update(updateId: int, message: Option<Message>)

  /** One `send_message(chat_id, text)` call. */
  datatype Send = Send(chatId: int, text: string)

  /** Anything with a `generate_answer(question)` method, seen from the bot:
      a question goes in, an answer comes out. */
  type DialogueManager = string -> string

  const StartCommand: string := "/start"
  const Welcome: string := "Hi, I am your project bot. How can I help you today?"
  const WeirdCharacters: string := "Hmm, you are sending some weird characters to me..."
  const HelloWorld: string := "Hello, world!"

  /** `SimpleDialogueManager.generate_answer`: the same answer whatever the
      question. */
  function SimpleGenerateAnswer(question: string): (r: string)
    ensures r == HelloWorld
  {
    HelloWorld
  }

  /** `BotHandler.get_answer`: the start command is welcomed by the bot
      itself; every other question goes to the dialogue manager. */
  function GetAnswer(question: string, manager: DialogueManager): (r: string)
    ensures question == StartCommand ==> r == Welcome
    ensures question != StartCommand ==> r == manager(question)
  {
    if question == StartCommand then Welcome else manager(question)
  }

  /** The reply `main` sends to a message with text `text`: the answer when
      the text passes `is_unicode`, the fixed warning otherwise. */
  function ReplyTo(text: string, manager: DialogueManager): (r: string)
    ensures !IsUnicode(text) ==> r == WeirdCharacters
    ensures IsUnicode(text) ==> r == GetAnswer(text, manager)
  {
    if IsUnicode(text) then GetAnswer(text, manager) else WeirdCharacters
  }

  /** Whether the dialogue manager is asked about `text` at all. */
  predicate ConsultsManager(text: string) {
    IsUnicode(text) && text != StartCommand
  }

  /** The reply to a text the manager is not asked about is the same
      whichever manager the bot holds: for a weird text the warning, for
      the start command the welcome. */
  lemma ReplyWithoutManager(text: string, m1: DialogueManager, m2: DialogueManager)
    requires !ConsultsManager(text)
    ensures ReplyTo(text, m1) == ReplyTo(text, m2)
    ensures ReplyTo(text, m1) == if text == StartCommand then Welcome else WeirdCharacters
  {
  }

  /** A text the manager is asked about is answered with the manager's
      answer, and only the text itself is passed to it. */
  lemma ReplyFromManager(text: string, manager: DialogueManager)
    requires ConsultsManager(text)
    ensures ReplyTo(text, manager) == manager(text)
  {
  }

  /** With `SimpleDialogueManager` the bot only ever says one of three
      things. */
  lemma SimpleManagerReplies(text: string)
    ensures ReplyTo(text, SimpleGenerateAnswer) in {Welcome, WeirdCharacters, HelloWorld}
  {
  }

  /** The welcome is what `/start` gets, whatever the dialogue manager. */
  lemma StartIsWelcomed(manager: DialogueManager)
    ensures ReplyTo(StartCommand, manager) == Welcome
  {
  }

  /** `BotHandler.get_updates` after the HTTP call: `response` is the
      `"result"` field of the decoded reply, `None` when it has none. */
  function GetUpdates(response: Option<seq<Update>>): (r: seq<Update>)
    ensures response.None? ==> r == []
    ensures response.Some? ==> r == response.value
  {
    match response
    case None => []
    case Some(result) => result
  }

  /** An update whose message has a text: the ones that get a reply. */
  predicate HasText(update: Update) {
    update.message.Some? && update.message.value.text.Some?
  }

  /** The outgoing call, if any, for one update (`main`, the body of the
      `for` loop without the cursor). */
  function Outgoing(update: Update, manager: DialogueManager): (r: Option<Send>)
    ensures r.Some? <==> HasText(update)
    ensures r.Some? ==> r.value.chatId == update.message.value.chatId
    ensures r.Some? ==> r.value.text == ReplyTo(update.message.value.text.value, manager)
  {
    match update.message
    case None => None
    case Some(message) =>
      match message.text
      case None => None
      case Some(text) => Some(Send(message.chatId, ReplyTo(text, manager)))
  }

  /** The send that answers a text-carrying update. */
  function ReplyFor(update: Update, manager: DialogueManager): Send
    requires HasText(update)
  {
    Outgoing(update, manager).value
  }
}
