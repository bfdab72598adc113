/**
 * The session and conversation store (`src.helpers`) seen from the core: the settings it
 * caches, the writes the commands make through `set_active_conversation`, and the
 * decoded conversation-details response of the service.
 */
module Store {
  import opened Wrappers

  /** The parent pointer of a conversation that has no messages yet. */
  const ZeroUuid := "00000000-0000-4000-8000-000000000000"

  /** A settings dictionary, by the truthiness of the three flags the core reads. */
  datatype Settings = Settings(webSearch: bool, artifacts: bool, turmeric: bool)

  /** The empty dictionary `{}` (the `settings` key was missing from a response). */
  const NoFlags := Settings(false, false, false)

  /** Web search, artifacts and code execution all enabled. */
  const AllEnabled := Settings(true, true, true)

  /** One call `set_active_conversation(conversation, parent, settings)`; `None` where an argument is `None` or not passed. */
  datatype Write = Write(conversation: Option<string>, parent: Option<string>, settings: Option<Settings>)

  /** A decoded `get_conversation_details` response: status, the uuids of `chat_messages`, and `settings`. */
  datatype Details = Details(status: int, messages: seq<string>, settings: Settings)

  /**
   * The parent pointer after loading a conversation: its last message, or the zero
   * uuid when it has none.
   */
  function ParentAfterLoad(messages: seq<string>): (p: string)
    ensures messages != [] ==> p == messages[|messages| - 1]
    ensures p in messages || (messages == [] && p == ZeroUuid)
  {
    if messages != [] then messages[|messages| - 1] else ZeroUuid
  }
}
