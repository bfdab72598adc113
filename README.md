# claude-cli core, modelled in Dafny

This project models the core of a command-line client for a chat service. The client
sends a prompt to the active conversation and streams the answer back as server-sent
events. It renders text deltas and "artifacts" (tool-use blocks whose JSON payload arrives
in fragments) either in a live view or as raw output. It also keeps a pointer to the
parent message for the next turn.

The model covers three source files:

- `src/cli/chat.py`
  - The stream decoder is a pure transition `Stream.Step` over the five loop variables,
    folded by `Stream.Run`.
  - The same step is also written as a class `Stream.Decoder` whose `Feed` method updates
    the fields in place.
  - The two read loops become the sinks `Sinks.LiveLoop` and `Sinks.RawLoop`.
  - The commands become `Chat.Send` (`chat`) and `Chat.Sync` (`sync`): output-mode choice,
    the settings fallback, the tool list and the parent-pointer writes.
- `src/file.py`
  - The `@path` reference scanner (`Files.FindFileReferences`).
  - The attachment loop of `process_prompt_with_files`, with the file system as oracles.
  - The MIME-type fallback table.
- `src/cli/conversations.py`
  - The numbering of the conversation list: regular conversations above starred ones,
    highest number first.
  - Selecting and switching, the defaults of `new`, clearing on `delete`, and `link`.

The session store (`set_active_conversation` and friends) is modelled by the writes the
commands make (`Store.Write`). The HTTP layer is modelled by decoded responses (`Store.Details`,
`Chat.Completion`, `Conversations.Listing`). Everything that reads the outside world is a
parameter:

- whether stdout is a terminal;
- the JSON decoder for artifact payloads;
- whether the output file can be written;
- `mimetypes.guess_type`;
- path resolution, reading and sizes of files;
- the freshly generated uuid;
- the user's answer to the prompt.

Where the code and its description disagree, the model follows the code:

- `message_start` overwrites the remembered message id every time, with `None` when the
  event carries none.
- `content_block_start` sets `current_index` for every block, not only for artifacts. So a
  block that starts inside an artifact takes over the index that closes it
  (`Stream.InnerBlockTakesOverClose`).

## Model

| member | source | states |
|---|---|---|
| Stream.RenderArtifact | src/cli/chat.py:112-133 | An artifact close renders the parse diagnostic, or the heading with title defaulting to "Untitled", plus a code block exactly when the content is non-empty; a payload that is not an object gives no rendering (the stream aborts) |
| Stream.ArtifactAppendsExactly | src/cli/chat.py:118-129 | The text appended on close is exactly the heading and optional fenced block tagged with the language, or the fixed diagnostic when the payload does not decode |
| Stream.Step | src/cli/chat.py:78-136 | One line: ignored lines change nothing; the buffer only grows by the emitted chunks; a step faults exactly for a non-object payload, a text delta without text, an artifact JSON delta without fragment, or a closing payload that is not an object; message starts set the message id; block starts set the index and may open an artifact; JSON deltas outside an artifact are dropped; only the matching stop closes and resets the artifact state |
| Stream.RunSplit | src/cli/chat.py:78-136 | Running a concatenation of line sequences is running the first part and then, unless it faulted, the second from where the first ended |
| Stream.RunAppendsOnly | src/cli/chat.py:105 | Over any run the buffer ends as it began followed by every emitted chunk in order, so it never loses text |
| Stream.RunKeepsInv | src/cli/chat.py:108-111 | Buffered artifact fragments always belong to an open artifact, over any run |
| Stream.IgnoredLinesChangeNothing | src/cli/chat.py:79-82 | Blank lines, lines without the `data: ` prefix, undecodable JSON and unknown events change no variable and emit nothing |
| Stream.TextDeltasAppend | src/cli/chat.py:103-106 | A run of text deltas appends exactly their texts, in order, and touches nothing else |
| Stream.JsonDeltasAccumulate | src/cli/chat.py:108-110 | Inside an artifact, JSON fragments accumulate in order and nothing is shown |
| Stream.JsonDeltasDropped | src/cli/chat.py:108 | Outside an artifact, JSON fragments are dropped |
| Stream.ArtifactBlockRenders | src/cli/chat.py:92-133 | A whole artifact block (start, fragments, stop) appends exactly the rendering of the concatenated fragments and leaves artifact mode, or aborts when the payload is not an object |
| Stream.CloseRenders | src/cli/chat.py:112-133 | The stop that matches an open artifact appends its rendering and resets the artifact state and the index |
| Stream.InnerBlockTakesOverClose | src/cli/chat.py:92-114 | A block that starts inside an artifact takes over the closing index: the artifact's own stop is then ignored and the inner block's stop closes the artifact |
| Stream.Decoder.Feed | src/cli/chat.py:139-202 | Updating the five fields in place moves them exactly as `Step` does and returns the echoed chunks; a fault leaves every field unchanged |
| Sinks.LiveLoop | src/cli/chat.py:76-136 | The live loop ends as `Run` says, and its snapshots are exactly `LiveViews`: the whole buffer after every text delta and every artifact close, in order, up to the first fault |
| Sinks.LiveViewsTrackBuffer | src/cli/chat.py:105-129 | The live updates only grow, each extends the buffer the run started with, and the run's final buffer is the last update shown (the starting buffer when none was) |
| Sinks.GrowingPairwise | src/cli/chat.py:105-129 | Every live update is a prefix of every later one |
| Sinks.EchoChunks | src/cli/chat.py:139-202 | The raw loop echoes exactly the chunks the run emits, and they concatenate to the final buffer |
| Sinks.RawLoop | src/cli/chat.py:138-209 | Raw output echoes the emitted chunks plus one newline when the stream completes; when the stream completes and a file is named, the file receives exactly the final buffer (and "Output saved" is printed) if it can be written, and otherwise the save fails |
| Chat.UseRawMode | src/cli/chat.py:40-42 | Raw mode exactly when asked for, when an output file is named, or when stdout is not a terminal |
| Chat.Spec | src/cli/chat.py:61-66 | Each tool is sent with its fixed name (web_search, artifacts or repl) and the type that name followed by `_v0` |
| Chat.SpecsMembers | src/cli/chat.py:59-66 | A tool's dictionary is among those sent exactly when the tool is in the list |
| Chat.SpecsDistinct | src/cli/chat.py:59-66 | A tool list in rank order sends no dictionary twice |
| Chat.EnabledSpecsSent | src/cli/chat.py:59-66 | The dictionaries of the built tool list are those of exactly the enabled tools, in append order, none twice |
| Chat.AllSpecsSent | src/cli/chat.py:52-66 | With every tool enabled the three literal dictionaries are sent, web search first and repl last |
| Chat.BuildTools | src/cli/chat.py:59-66 | The tool list holds exactly the enabled tools, in the fixed order web search, artifacts, repl, without duplicates; an empty settings dictionary enables none |
| Chat.ResolveSettings | src/cli/chat.py:45-57 | Cached settings win; otherwise fetched settings are used and cached under the current parent; otherwise every tool is enabled |
| Chat.ParentWrite | src/cli/chat.py:211-212 | The parent pointer is written once, only after a completed stream whose message id is truthy, and to that id |
| Chat.Receive | src/cli/chat.py:76-209 | Both output modes end in the same decoder state; the live view shows exactly `LiveViews`, the raw view echoes the run; only a raw-mode save to an unwritable file fails |
| Chat.Send | src/cli/chat.py:23-217 | `chat`: no request without account or conversation; the request carries the joined prompt, the parent, and the dictionaries of exactly the tools the resolved settings enable, in append order and none twice (all three when the fetch fails); a failed send writes only the settings cache; a stream writes the cache and then the new parent, as `ParentWrite` says, and reports the fault that stopped it; a save that fails skips the parent write and reports the error |
| Chat.Sync | src/cli/chat.py:221-269 | `sync`: a successful fetch writes the last message (or the zero uuid) as parent together with the fetched settings; each report is stated with its exact condition: "already synced" when the old parent was the last message, updated when it was another message, an error when there was none, empty for a conversation without messages, authentication failure for 401 and 403, any other status a failure |
| Chat.SyncWithoutParentErrors | src/cli/chat.py:243-252 | With no stored parent and a non-empty conversation the write is made and the command then fails |
| Chat.SyncReported | src/cli/chat.py:243-256 | With the old parent printed whatever it is, every moved parent reports `Updated`, with the same write as `sync` |
| Store.ParentAfterLoad | src/cli/conversations.py:73-79 | A loaded conversation's parent is its last message, or the zero uuid when it has none |
| Files.LookupFinds | src/file.py:29 | The fallback lookup finds a type exactly when some entry has that key, and returns that entry's type |
| Files.FallbackLookup | src/file.py:12-29 | Every fallback type is non-empty and every key it matches is a dotted extension |
| Files.BaseNameIsLastComponent | src/file.py:11 | The base name is the part after the last slash |
| Files.LastDotIsLast | src/file.py:11 | The dot found is the last dot of the name, and none is found only when the name has no dot |
| Files.SuffixShape | src/file.py:11 | A non-empty suffix ends the name, is shorter than it, and is a dot followed by at least one dot-free character |
| Files.MimeType | src/file.py:6-31 | The guessed type wins; otherwise the fallback table on the lower-cased suffix decides, with "text/plain" by default; an empty type only comes from the guess |
| Files.FallbackKeyIsLowerCase | src/file.py:11 | The fallback key is lower case |
| Files.FallbackUsesExtension | src/file.py:11-29 | For `dir/stem.ext` the fallback key is the lower-cased `.ext` |
| Files.SuffixIsExtension | src/file.py:11 | The suffix of `stem.ext` (non-empty stem, one dot) is `.ext` |
| Files.DotFileIsPlainText | src/file.py:11-29 | A dot file such as `.bashrc` has no suffix, so without a guess it is "text/plain" |
| Files.MatchesFrom | src/file.py:35-36 | The matches are valid `@` runs of non-whitespace, left to right and not overlapping |
| Files.ReferencesWellFormed | src/file.py:40-42 | Every reference has a non-empty path without whitespace, and its match text is "@" followed by that path |
| Files.ScanRun | src/file.py:35 | The scan stops at the first whitespace after the `@` or at the end |
| Files.FindFileReferences | src/file.py:33-44 | The scanning loop returns exactly the leftmost-longest matches of `@(\S+)`, each well formed |
| Files.EveryMentionCovered | src/file.py:35-36 | Every `@` followed by a non-space character lies inside some match |
| Files.NoReferencesIff | src/file.py:33-44 | There are no references exactly when no `@` is followed by a non-space character |
| Files.GreedyExample | src/file.py:35 | A run is greedy: "see @a@b now" gives the one reference "a@b" |
| Files.Attach | src/file.py:81-105 | A reference yields an attachment exactly when it resolves and reads; the attachment names the reference path, carries the content, size and MIME type of the resolved file, origin "user_upload" and kind "file" |
| Files.MissingEmptyIff | src/file.py:107-108 | Nothing is reported missing exactly when every reference attaches |
| Files.CollectedAll | src/file.py:77-105 | When nothing is missing there is one attachment per reference, in order |
| Files.CollectAttachments | src/file.py:81-105 | The loop gathers the attachments of the references that succeed and the paths of those that fail, both in reference order |
| Files.NotFoundMessage | src/file.py:108 | The error text is the fixed prefix followed by the failing paths, comma separated |
| Files.ProcessPromptWithFiles | src/file.py:67-113 | The prompt is returned unchanged with one attachment per reference, in order; if any reference fails the error lists every failing path, and its text, instead; no references means no attachments |
| Conversations.EntryFor | src/cli/conversations.py:40-51 | A listed line shows its number and star, is marked exactly for the active conversation, shows the name or "Untitled", and shows the first eight characters of the uuid (all of a shorter one) |
| Conversations.MapComplete | src/cli/conversations.py:36-54 | A map filled for every number from the top down to 1 has exactly the keys 1..R+S |
| Conversations.NumberGroup | src/cli/conversations.py:38-52 | One group's loop numbers its conversations downwards from its offset plus its size |
| Conversations.NumberConversations | src/cli/conversations.py:36-54 | The numbers are exactly 1..R+S, starred conversations take 1..S and regular ones S+1..S+R, each in response order, and the lines are printed from the highest number down; every key maps to the uuid listed under it, so the map is `NumberMap`, and the total is R+S |
| Conversations.LeadingZeroIgnored | src/cli/conversations.py:60-61 | Leading zeros do not change the chosen number |
| Conversations.Select | src/cli/conversations.py:60-63 | Empty or non-numeric input skips; a number that is a key picks that uuid; any other number is invalid |
| Conversations.SelectionMatchesNumbering | src/cli/conversations.py:60-62 | Over the numbering exactly the numbers 1..R+S are acted on, and "0" is invalid |
| Conversations.Switch | src/cli/conversations.py:60-83 | A skipped answer and an invalid number are reported as such; a picked conversation is loaded and, on success, made active with its last message (or the zero uuid) as parent and its settings |
| Conversations.ListConversations | src/cli/conversations.py:13-91 | No account, nothing found, authentication failure (401 or 403 on the regular fetch) and any other failed fetch are each reported exactly in their case; otherwise the printed lines are exactly the numbered listing, highest number first, and the answer acts over `NumberMap`: non-numeric input skips silently, a number outside 1..R+S is invalid, any other switches to the conversation listed under it |
| Conversations.New | src/cli/conversations.py:96-127 | On 200 or 201 the fresh uuid becomes active with the zero-uuid parent and every tool enabled |
| Conversations.Delete | src/cli/conversations.py:178-208 | The named or else the active conversation is deleted on 200 or 204, and the active conversation is cleared exactly when it was the one deleted |
| Conversations.Link | src/cli/conversations.py:212-215 | The link is the chat URL followed by the active uuid, or "???" when there is none |
| Conversations.LinkIdentifiesConversation | src/cli/conversations.py:215 | Two active conversations with the same link are the same conversation |

## Left out

- JSON and UTF-8 decoding are not modelled. A stream line arrives already classified (`Stream.Line`). The artifact payload is decoded by a parameter `parse`.
- Payload fields of the wrong JSON type are not modelled: a non-dict `message`, `content_block` or `delta`, a non-string text, or a non-string uuid. Such fields make the source raise or render oddly.
- Stream.RenderArtifact: an artifact `title` that is JSON `null` renders as `### None` in the source (src/cli/chat.py:118,121); the model only has a string title or an absent one (shown as "Untitled"). A `content` or `language` of a type other than string is not modelled either.
- An element of `chat_messages` without a `uuid` key makes the source raise `KeyError` before any write (src/cli/chat.py:244, src/cli/conversations.py:74); the model's messages are always uuids.
- Chat.ResolveSettings: a response whose `settings` is JSON `null` is cached as `None` and then makes the source raise at src/cli/chat.py:61; the model's settings are always a dictionary.
- Rich's Markdown rendering and its refresh rate are not modelled. The live view is the sequence of buffers passed to `live.update`.
- `sys.stdout.isatty()`, `uuid.uuid4()`, the prompt answer, `click.confirm` and every HTTP call are parameters or decoded responses.
- The file-system calls (`resolve_file_path`, `read_file_content`, `os.path.getsize`) and `mimetypes.guess_type` are oracles. Their own behaviour is not modelled.
- Files.CollectAttachments: takes the per-reference step as a parameter. `ProcessPromptWithFiles` passes `Attach` on the given file system.
- Files.BaseNameIsLastComponent: models only `/` as the separator. It does not model `Path`'s treatment of trailing slashes or Windows separators.
- Files.FallbackKeyIsLowerCase: lower-casing is modelled on ASCII letters only. Python's `str.lower` also maps other letters.
- Files.MatchesFrom: whitespace is the ASCII set that `\s` matches. Unicode whitespace is not modelled.
- Conversations.Select: `isdigit` and `int` are modelled on ASCII digits only. Other Unicode digits that `isdigit` accepts are left out.
- Settings are modelled by the truthiness of the three flags the core reads. `paprika_mode` is not read by the core.
- Printed messages are modelled as report values, not as text. The "Output saved to …" notice on stderr is printed exactly when `Sinks.RawLoop` reports a saved file.
- Sinks.RawLoop: when the output file cannot be written, the model records no file contents. A file that `open` created or truncated before the write failed is not modelled.
- The `name` command (view or rename) and the HTTP request builders in `src/claude.py` are not part of this model. `src/claude.py` and `src/helpers.py` are also not part of this model.
- `setup.py` is not part of this model.
- Conversations.New: the response body's `uuid` is only printed. A body without it makes the source raise after the status check; that case is not modelled.
- Exceptions raised by the store or the network are not modelled. Inside the commands' `try` blocks the source catches them and prints an error. The store reads made before those blocks are not guarded and would escape: src/cli/chat.py:25-27 and 223-224, src/cli/conversations.py:15, 98, 180, 187 and 214.

## Findings

| source | as written | input that shows it | evidently intended | confidence | as-written member | corrected member |
|---|---|---|---|---|---|---|
| src/cli/chat.py:250-252 | After writing the new parent, `sync` prints `current_parent[:16]`, which raises when no parent was stored | a truthy conversation, no stored parent, a 200 response with one message: the write is made and "Error syncing" is printed | report "Synced! Updated parent UUID" for every moved parent | medium, not executed | Chat.SyncWithoutParentErrors | Chat.SyncReported |
