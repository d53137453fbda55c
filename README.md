# karllm-server core, modelled in Dafny

karllm-server is a single-user LLM inference server. Clients authenticate
with a signed token, receive a session id, and then stream model
responses. Each user's conversations live as numbered directories under
`users/<name>/sessions`, and those directories can be listed, loaded,
renamed, deleted or erased. This project models the server's core logic
and proves properties of it:

- **Model catalogue** (`SupportedModels`, model/SupportedModel.py). Model
  descriptors are validated on construction. A descriptor written by
  `to_dict` and read back round-trips. Cache kinds are chosen by
  quantisation, and models are looked up by name.
- **Model state** (`Init`, model/init.py). The process-wide `ModelState`
  is a class, and `load_model` configures it. The EOS-id fallback is
  modelled. `load_session_into_cache` replays interaction files:
  - it globs `*.safetensors`;
  - it takes the key from the last `_` part of the stem, or from the mtime;
  - it sorts stably by that key;
  - it skips files that are not interactions.
- **Authentication** (`Auth`, auth.py):
  - `load_public_keys`, with Python dict semantics for repeated users;
  - token verification against the first key that accepts, which creates
    a session entry;
  - `require_session`, with its two-minute expiry.
- **Conversations** (`Conversation`, routes/conversation.py). Erase-history,
  list, load, delete and rename operate on a class holding the users'
  session directories, and return the source's HTTP status codes.
- **Sessions** (`Session`, routes/session.py). `/connect` allocates the
  next numeric conversation directory. `/keepalive` refreshes the caller's
  entry.
- **Generation** (`Generation`, model/generation.py):
  - the prompt's BOS/EOS choice;
  - the token-sequence append;
  - chunked streaming of the engine's results, with `[DONE]`;
  - `normalize_decoded`.
- **Instruction memory** (`Memory`, memory.py). Trimming from the front
  until the text fits the token budget.
- **File upload** (`FileUpload`, routes/file.py). The entry format, the two
  processing passes, and the blank-line join.
- **Help** (`Help`, routes/help.py). The endpoint metadata and the
  rendered markdown table.

`Text` holds the string functions the source takes from Python:
- `isdigit`, `int` of a digit string, `str`, `split`, `join` and `strip`
  (`Init.ParseInt` adds the sign and white space of the sort key's `int`);
- string ordering;
- the `str.isspace` character set.

`Wrappers` holds `Option` and `Result`.

The engine, the tokenizer, token verification, the clock, UTF-8 decoding
and PDF conversion are parameters: opaque functions, values or result
sequences supplied by the caller. The file system is a map from user name
to that user's session-directory entries. The clock is an integer count of
microseconds.

Where the code and its documentation differ, the model follows the code:
- No code exists that snapshots, restores or merges KV caches. Loading a
  conversation only repoints `session_dir` (routes/conversation.py:84-85).
- `list` returns every sub-directory in lexical order. Its `isdigit() or
  name` filter keeps every non-empty name.
- `session_ids` only ever receives prompt ids. Responses are never
  appended.
- Conversation routes use the relative root `users`, while `/connect`
  uses `config.SESSION_DIR`. The model assumes both name the same
  directory.

## Model

| member | source | states |
|---|---|---|
| SupportedModels.NewModel | model/SupportedModel.py:19-43 | construction succeeds iff `max_seq_len <= max_context_theory` and the prompt and response limits fit in `max_seq_len`; the first check wins; a built model is valid and holds exactly the given fields |
| SupportedModels.DictRoundTrip | model/SupportedModel.py:45-53 | reading back a valid model's `to_dict` (as `get_active_model` does) succeeds iff its `max_seq_len` is within the default 128 KiB theory; it then gives the same model with the default theory, and otherwise the theory error |
| SupportedModels.GetCache | model/SupportedModel.py:55-65 | a cache kind exists iff quant is 4, 6, 8 or 16, its bit width is the quant; otherwise the error carries the quant |
| SupportedModels.GetCacheInverse | model/SupportedModel.py:55-65 | every cache kind is selected by its own bit width |
| SupportedModels.CatalogueWellFormed | model/SupportedModel.py:78-151 | every catalogue entry is a valid model, uses the full-precision cache and fits the default theory |
| SupportedModels.GetSupportedModels | model/SupportedModel.py:71-75 | the names of the catalogue, in catalogue order |
| SupportedModels.FirstNamed | model/SupportedModel.py:154-155 | the first model with the name, or none iff no model has it |
| SupportedModels.GetModelByName | model/SupportedModel.py:154-155 | a found model is in the catalogue and has the name; none iff no catalogue entry has it |
| Init.ModelState.constructor | model/init.py:14-30 | the class defaults: not ready, no active session, no tokens, no session directory, interactions not saved |
| Init.ModelState.LoadModel | model/init.py:78-133 | without an active model nothing changes; otherwise the engine config takes the model's path and limits with batch size 4, the EOS id falls back, the token sequence is emptied and the model is ready |
| Init.EosTokenId | model/init.py:118-120 | the id is the tokenizer's or the configured one, and 0 only when the configured one is 0 |
| Init.EosFallback | model/init.py:118-120 | the configured id is used exactly when the tokenizer's id is missing or zero |
| Init.Stem | model/init.py:46 | a name longer than `.safetensors` loses exactly that suffix; a bare `.safetensors` is its own stem |
| Init.ParseDecimal | model/init.py:46 | `int(str(n)) == n` for the parser of the sort key |
| Init.AfterLastUnderscore | model/init.py:46 | the result has no `_` and is what follows the last `_`, or the whole text when there is none |
| Init.SortKey | model/init.py:45-47 | a stem with `_` is keyed by `int` of the text after its last `_` (none when that does not parse); a stem without `_` is keyed by its mtime |
| Init.AfterLastUnderscoreOf | model/init.py:46 | the text after the last `_` of `front_last` is `last` whenever `last` has no `_` |
| Init.SortKeyOfNumbered | model/init.py:45-47 | a file named `<prefix>_<n>.safetensors` is keyed by `n`, whatever its mtime |
| Init.Globbed | model/init.py:44 | exactly the listed files whose names end in `.safetensors` |
| Init.KeyAll | model/init.py:43-48 | keys exist iff every file's key parses, and pair each file with its key in order |
| Init.Insert | model/init.py:43-48 | insertion keeps the sequence sorted by key and adds exactly the new element |
| Init.SortByKey | model/init.py:43-48 | the result is sorted by key and a permutation of the input |
| Init.LoadSessionIntoCache | model/init.py:33-75 | a missing directory fails first, an unparsable key fails next; otherwise the prompt ids of the interaction files are fed in key order and every globbed file is counted |
| Init.FeedFiles | model/init.py:50-71 | the fed prompts are those of the interaction files, in order |
| Init.FedPromptsAllInteractions | model/init.py:50-71 | when every file is an interaction, each file's prompt ids are fed, one per file |
| Auth.DictSet | auth.py:58 | assignment adds the key, keeps keys unique and stores the pair |
| Auth.DictSetAppends | auth.py:58 | a new key goes at the end of the dict |
| Auth.DictSetReplaces | auth.py:58 | an existing key keeps the position of its entry, which takes the new value |
| Auth.DictSetOverwrites | auth.py:58 | in a dict without repeated keys the key then maps to the new value only |
| Auth.LoadKeys | auth.py:48-60 | a successful loop adds exactly the configured users; a failure names a configured user, with a missing or non-PEM key file |
| Auth.LoadKeysSound | auth.py:48-60 | loading succeeds iff every client's key file exists and is PEM; the keys are unique, are the users given, and every value starts with the PEM header |
| Auth.LoadKeysValues | auth.py:48-60 | each loaded user maps to the stripped text of the key file of that user's last configured entry |
| Auth.LoadPublicKeys | auth.py:26-60 | the config file is checked first, then the key directory, then the clients in order |
| Auth.FirstVerifying | auth.py:83-97 | the first key that verifies the token, or none iff no key does |
| Auth.CheckSession | auth.py:102-131 | the check never adds an entry; success returns the caller's entry and leaves the map alone; the map changes only on expiry |
| Auth.CheckSessionSpec | auth.py:102-131 | the check passes iff the header is present and non-empty, names an entry, and that entry is at most two minutes old; an expired entry is removed and nothing else changes |
| Auth.TimeoutBoundary | auth.py:127-129 | an entry exactly two minutes old passes; one microsecond later it fails |
| Auth.SessionTable.constructor | auth.py:18 | no sessions |
| Auth.SessionTable.RequireSession | auth.py:102-131 | result and new table are those of the session check |
| Auth.SessionTable.VerifyAndCreate | auth.py:67-99 | with no verifying key the table is unchanged and the result is an error; otherwise a new entry for the first verifying user, stamped `now` |
| Auth.CreateAddsOne | auth.py:89-93 | a fresh session id adds exactly one entry |
| Conversation.SessionTree.constructor | routes/conversation.py:16 | no users |
| Conversation.SurvivorsSpec | routes/conversation.py:27-35 | erasing keeps every non-numeric entry, every non-directory and the active conversation, and drops every other numeric directory |
| Conversation.EraseConversationHistory | routes/conversation.py:12-41 | a missing sessions directory gives 404 with nothing changed; otherwise the listing becomes the survivors and the count is the number erased |
| Conversation.ErasedAreErasable | routes/conversation.py:27-35 | the erased names are exactly the erasable ones |
| Conversation.ListConversations | routes/conversation.py:44-67 | 404 iff the user has no sessions directory; otherwise the names of exactly the sub-directories, strictly increasing |
| Conversation.LoadConversation | routes/conversation.py:70-88 | 404 unless the name is a directory; otherwise it becomes the active session directory |
| Conversation.DeleteConversation | routes/conversation.py:91-118 | 404 for a missing directory, 403 for the active one, otherwise exactly that entry is removed |
| Conversation.RenameConversation | routes/conversation.py:121-161 | 404, then 403 for the active one, then 409 when the new name exists; otherwise the entry moves to the new name |
| Conversation.RenameMovesOne | routes/conversation.py:156 | a rename keeps the number of entries and moves the directory |
| Conversation.ActiveIsProtected | routes/conversation.py:29-33 | the active conversation survives erasing |
| Session.Max | routes/session.py:40 | the maximum of a non-empty set is in it and bounds it |
| Session.NextId | routes/session.py:35-40 | the new id is above every numeric directory and is 0 or one above the largest |
| Session.NewNameIsNoDirectory | routes/session.py:41 | the new name is all digits and names no existing directory |
| Session.NextIdAfterCreate | routes/session.py:40-42 | after the allocated directory is created the next allocation is one higher |
| Session.FirstAllocations | routes/session.py:40 | an empty directory allocates 0, then 1 |
| Session.WithSaveFlag | routes/session.py:30-31 | only the caller's entry, if present, gets the flag |
| Session.Connect | routes/session.py:15-51 | a body that is not an object gives 400 with nothing changed; otherwise the flag (default false) is stored, the sessions directory is created, and the next numeric directory is created and made active, or `mkdir` fails when a non-directory holds that name |
| Session.Refreshed | routes/session.py:56-59 | only the caller's entry changes, and only its last-seen time |
| Session.Keepalive | routes/session.py:54-60 | the session check result, and on success the caller's entry refreshed to `now` |
| Session.RefreshedIsValid | routes/session.py:54-60 | a refreshed entry passes the check for the next two minutes |
| Generation.NormalizeDecoded | model/generation.py:13-18 | a string is returned as is; an empty list gives the empty string and a one-piece list its piece (with `NormalizeSplit`, any list gives the concatenation of its pieces) |
| Generation.NormalizeIdempotent | model/generation.py:13-18 | normalising a normalised result changes nothing |
| Generation.NormalizeSplit | model/generation.py:13-18 | joining a list is joining its parts and concatenating |
| Generation.Step | model/generation.py:51-59 | a step ends in `[DONE]` exactly when its result is an end of stream; every content event flushes the whole buffer plus the new piece |
| Generation.RunPreservesText | model/generation.py:51-57 | the pieces of all content events followed by the leftover buffer are the examined streaming texts in order |
| Generation.RunChunkBounds | model/generation.py:54-57 | the buffer stays below the chunk size and every chunk holds between 1 and `CHUNK_SIZE` pieces |
| Generation.DonePerEos | model/generation.py:58-59 | one `[DONE]` per examined end-of-stream result |
| Generation.DoneIsLast | model/generation.py:55-59 | a stream whose only end is its last result ends in exactly one `[DONE]`, right after the final content flush |
| Generation.RunEndsFlushed | model/generation.py:55-57 | after a streaming end-of-stream result the buffer is empty |
| Generation.CompletedStreamKeepsText | model/generation.py:49-59 | a stream ending in a streaming end of stream loses no text: its content events carry every streamed piece, in order |
| Generation.Examine | model/generation.py:51-59 | one examined result updates buffer and events as the stream function says |
| Generation.StreamEvents | model/generation.py:49-59 | the events are those of the last result of each non-empty batch, from an empty buffer |
| Generation.GenerateStream | model/generation.py:21-59 | not ready fails with nothing changed; otherwise the prompt is encoded with BOS iff no session was active and EOS always, appended to the token sequence, the job covers the whole sequence, the session becomes active |
| Generation.TenPiecesInChunksOfFour | model/generation.py:54-59 | ten pieces with chunk size 4 stream as chunks of 4, 4, 2 and then `[DONE]` |
| Memory.ReadLines | memory.py:9-11 | lines are non-empty, every line but the last ends in a newline, and none holds an inner newline |
| Memory.ReadLinesRoundTrip | memory.py:9-11 | writing the lines back reproduces the text read (after text-mode newline translation) |
| Memory.Trimmed | memory.py:14-19 | trimmed lines fit the budget; trimming fails only when even the empty text does not fit |
| Memory.TrimmedIsLongestFit | memory.py:14-19 | the trimmed lines are a suffix that fits and every longer suffix does not; a context that fits is kept |
| Memory.TrimmedFailsIffNothingFits | memory.py:14-19 | trimming fails iff no suffix fits, the empty one included |
| Memory.InstructionMemory.constructor | memory.py:6-11 | the lines of the file, or none when it is missing |
| Memory.InstructionMemory.Trim | memory.py:14-21 | on success the lines are the trimmed lines and the file holds them; on failure the list is empty and the file unchanged |
| FileUpload.IndexOf | routes/file.py:27-32 | the first position of the character, or none iff absent; it locates the end of an entry's header line when `EntryRoundTrip` reads an entry back |
| FileUpload.EntryRoundTrip | routes/file.py:21-32 | an entry gives back its name and text |
| FileUpload.EntryInjective | routes/file.py:21-32 | different names or texts give different entries |
| FileUpload.MdNameSpec | routes/file.py:76 | the markdown name is the file name up to its first `.` plus `.md` |
| FileUpload.TextFiles | routes/file.py:53-60 | exactly the non-PDF uploads |
| FileUpload.FirstPassSpec | routes/file.py:52-60 | the first loop fails iff a text file does not decode; otherwise one entry per text file in upload order, and every PDF saved by name |
| FileUpload.FirstPassStops | routes/file.py:52-79 | a failed first loop keeps exactly the entries of the text files before the first one that does not decode |
| FileUpload.SecondPass | routes/file.py:61-76 | at most one entry per listed PDF, one each when nothing fails |
| FileUpload.SecondPassNames | routes/file.py:61-76 | each converted entry has its PDF's markdown name and converted text |
| FileUpload.SecondPassStops | routes/file.py:61-79 | the second loop converts the listed PDFs up to the first failed conversion, and fails exactly when one does |
| FileUpload.ListDir | routes/file.py:61 | every saved name once |
| FileUpload.Filenames | routes/file.py:82 | the uploaded filenames in order |
| FileUpload.SaveAndDecode | routes/file.py:53-60 | the entries, saved PDFs and failure of the first loop |
| FileUpload.ConvertAll | routes/file.py:61-76 | the entries of the second loop |
| FileUpload.UploadContext.constructor | routes/file.py:12 | the context starts empty |
| FileUpload.UploadContext.Upload | routes/file.py:38-83 | the text-file entries come first, then, unless the first loop failed, the converted PDFs in listing order; the context is their blank-line join and the reply reports all files (what a failure keeps: `FirstPassStops`, `SecondPassStops`) |
| Help.Rows | routes/help.py:85-87 | one row per endpoint in order |
| Help.RowSingleLine | routes/help.py:86 | a row of single-line fields is a single line |
| Help.HelpTextLines | routes/help.py:84-88 | splitting the help text at newlines gives the two header lines and then each row |
| Help.HelpTextShape | routes/help.py:84-88 | the help text is the header lines and the rows joined by newlines |
| Help.HelpMenuLines | routes/help.py:9-88 | the served table is fifteen pieces: the header lines and one row per endpoint in metadata order |
| Text.DecimalRoundTrip | model/init.py:46 | `str(n)` is all digits and reads back as `n` |
| Text.SplitJoin | routes/help.py:88 | splitting a joined list of separator-free strings gives the list back |
| Text.LexMinimum | routes/conversation.py:58 | every non-empty set of names has a least one in string order |

## Left out

- The exllamav2 engine is not modelled:
  - the tokenizer's encoding and counting;
  - `forward`;
  - the job queue;
  - the cache classes and tensor-parallel loading.
  These are parameters of the operations, or result sequences they walk.
- Sampling settings, the TPS report and all printing (model/init.py:109-116, model/generation.py:60-63). These are floating point and logging.
- Token signature checking, YAML reading and uuid creation in auth.py. Signature checking is a `verifies` predicate. The config is a client list and a map of key files. The new session id is a parameter.
- Time zones (auth.py:122-125). The clock is integer microseconds.
- PDF conversion with marker, temp-directory creation and removal, and UTF-8 decoding (routes/file.py:42-74). Each is a parameter or is left out. A failure writing a PDF is not modelled.
- Real file-system behaviour: `resolve`, symlinks, `..` or `/` in names, permissions.
  - Names are single path components.
  - Modification times are integers.
  - `isdigit` is ASCII digits only.
  - `int()` accepts surrounding white space and a sign, but not underscores or non-ASCII digits.
- `start_stream` (routes/session.py:9, 45, 66, 72) and `continue_prompt` are imported from model/generation.py, `lazy_load_model` from model/init.py and `INSTRUCTION_FILE` from config.py. None of those modules defines them, so the model gives them no behaviour. `/connect` stops before `start_stream`. `/clear` and `/clearall` are not modelled.
- The generator is lazy in the source: nothing runs until the stream is read. `Generation.GenerateStream` runs it to completion at once.
- JSON and server-sent-event framing of replies and events.
- `Help.HelpMenuLines` states that the table is fifteen newline-joined pieces. That each metadata field is newline-free, so that the pieces are exactly the lines, is proved only for metadata given as single-line (`Help.HelpTextLines`), not for the literal entries.
- Init.SortByKey: states that the result is sorted by key and a permutation of the input, but not that the sort is stable. Python's `sorted` is stable, and so is the insertion the model uses, but no contract says so.
- `set_model` and `get_active_model` (model/SupportedModel.py:67-69, 158-164) read and write the active-model JSON file. Only the dictionary round trip through that file is modelled (`SupportedModels.DictRoundTrip`). A missing file is the `None` passed to `Init.ModelState.LoadModel`.
- `help_metadata` returns the constant unchanged. It is the constant `Help.HELP_METADATA` itself.
- A `saveInteractions` value that is not a boolean is not modelled. The flag is an optional boolean.
- memory.py opens the instruction file in text mode. Reading decodes it with the locale encoding and turns `\r\n` and `\r` into `\n`. `Memory.InstructionMemory`'s `file` is that decoded, translated text, not the bytes on disk, so a file with `\r\n` endings is written back with `\n` endings.
- The `chat_context` list in memory.py is declared but never used, and is not modelled.
- model/checkpoint.py, routes/chat.py, routes/model.py, server.py and config.py are not part of this model. Configuration constants are parameters or constants inside the modules.
