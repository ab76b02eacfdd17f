# MyNoteTaking backend, modelled in Dafny

This project models the request and state rules of a small Flask note-taking backend:

- the note routes (`/notes`): create, read, partial update, hard delete, listing and
  substring search over a table of notes keyed by id;
- the AI routes (`/ai/chat`, `/ai/translate`): prompt validation, the exact messages
  sent to the model, reply extraction, and the choice of the text to translate.
  The HTTP status of a model failure is classified by its message;
- the application's configuration rules: the choice of the database URI, the
  `AUTO_CREATE_TABLES` flag, the no-cache headers added to every response, and the
  static-file fallback to `index.html`;
- the diagnostic script's `.env` reader and the URI it derives from the file.

Files:

- `wrappers.dfy`: `Option`, `Result`, and the three states of a JSON key (`Field`).
- `http.dfy`: the reply shape.
- `py_text.dfy`: the Python string operations the code relies on: `str.strip`,
  `sub in s`, and ASCII `lower`.
- `notes.dfy`: the `NoteStore` class with its map field.
- `ai.dfy`: pure functions; the chat client and the LLM wrapper are parameters.
- `app.dfy`: the configuration functions and the `Response` class whose headers are
  updated in place.
- `env_file.dfy`: the `.env` reader, a loop method specified by a recursive parse
  function.

The database's `ORDER BY updated_at DESC` is modelled as a choice among all orderings
that `Notes.IsListing` accepts. Rows with equal timestamps may come in any order.
`Notes.ByRecency` shows such an ordering always exists.

`create_note` refuses a body with the message `Title and content are required`
(src/routes/note.py:17-18). Yet it only checks that the `title` and `content` keys are
present, so an empty title passes and is stored. The model follows the check, not the
message.

## Model

| member | source | states |
|---|---|---|
| Notes.ValidateCreate | src/routes/note.py:16-23 | create succeeds iff the body has both keys (empty strings pass) and the stripped title has at most 30 characters; the RAW title and content are what is stored; each refusal carries its own message |
| Notes.ApplyUpdate | src/routes/note.py:52-57 | a title over 30 characters after stripping is refused; a missing or null title keeps the old one, and so does a blank title; any other title is stored stripped; content is replaced only when its key is present |
| Notes.CatchAllAsWritten | src/routes/note.py:62-64 | as written, every exception in the update and delete handlers becomes a 500 carrying `str(e)`, the 404 abort included |
| Notes.CatchAll | src/routes/note.py:62-64 | corrected handler: an abort keeps its own status, a store failure is the same 500 as written |
| Notes.MissingNoteAnswers500AsWritten | src/routes/note.py:45-64 | a missing id is answered 500 by the code as written and 404 by the corrected handler |
| Notes.Matches | src/routes/note.py:85-86 | a note matches iff the query occurs in its title or in its content |
| Notes.ByRecency | src/routes/note.py:9 | for any set of rows, some ordering lists each row once with `updated_at` non-increasing |
| Notes.FilterMatching | src/routes/note.py:85-87 | keeps exactly the matching rows |
| Notes.FilteredListingIsSearch | src/routes/note.py:85-87 | filtering a full listing by the query gives a valid search answer: search is a filter plus a sort |
| Notes.NoteStore.Create | src/routes/note.py:12-32 | a refused body or failed commit leaves the table unchanged; success adds exactly one note under a fresh id and replies 201 with `can_delete = false` |
| Notes.NoteStore.Get | src/routes/note.py:34-40 | a stored id answers 200 with that note and `can_delete = true`; any other id is 404 |
| Notes.NoteStore.Update | src/routes/note.py:42-64 | missing id (404, corrected handler), empty body, refused title and failed commit each leave the table unchanged; success changes only the named note, to the result of `ApplyUpdate`, and replies with `can_delete = true` |
| Notes.NoteStore.Delete | src/routes/note.py:66-76 | success removes exactly that id and replies 204; a missing id (404, corrected handler) and a failed commit leave the table unchanged |
| Notes.NoteStore.List | src/routes/note.py:6-10 | every stored note exactly once, most recently updated first, without a hint |
| Notes.NoteStore.Search | src/routes/note.py:78-94 | an empty query gives nothing; otherwise exactly the matching notes, most recently updated first, each with `can_delete = true` |
| Notes.CreateThenGet | scripts/smoke_test.py:56 | a created note reads back with the same title and content |
| Notes.DeleteThenGet | src/routes/note.py:70-73 | after a delete, the id reads as 404 and every other note is unchanged |
| Ai.ChatRequest | src/routes/ai.py:32-36 | chat sends model `gpt-4.1`, 512 tokens, and exactly one message: the user's prompt |
| Ai.ExtractReply | src/routes/ai.py:38-46 | the reply is `choices[0].message.content` when it is truthy and reachable through dicts and a non-empty list; otherwise the response's string form; a `message` that is not a dict raises `AttributeError` |
| Ai.Chat | src/routes/ai.py:13-51 | an invalid prompt is 400 whatever the key; then a missing key is 500, then a missing client is 500; a failed call or extraction is 500 with the exception's text as detail; otherwise 200 with the extracted reply |
| Ai.TargetText | src/routes/ai.py:66 | the target defaults to `Chinese` when the key is missing; `null` renders as `None` |
| Ai.TranslationPrompt | src/routes/ai.py:86 | the system prompt names the target language |
| Ai.TranslationMessages | src/routes/ai.py:87-90 | exactly two messages: the system prompt naming the target, then the text as the user's |
| Ai.TranslationCall | src/routes/ai.py:93-95 | the wrapper is called with model `openai/gpt-4.1-mini` and those two messages |
| Ai.SourceText | src/routes/ai.py:63-83 | 400 iff both `text` and `note_id` are falsy (id 0 is falsy); a truthy id takes the stored note's content over any text, and an unknown id is 404 |
| Ai.ClassifyFailure | src/routes/ai.py:96-104 | a failure is 422 iff its message contains `content_filter` or `ResponsibleAIPolicyViolation`; every other failure is 500; both carry the message as detail |
| Ai.ContentFilterResultRedundant | src/routes/ai.py:100 | the `content_filter_result` test is subsumed by the `content_filter` test |
| Ai.Translate | src/routes/ai.py:54-106 | the source text's error reply, or the model's translation as 200, or the classified failure; no other status occurs |
| Ai.NoteIdOverridesText | src/routes/ai.py:79-83 | with a truthy `note_id`, the reply does not depend on `text` |
| App.MySqlUri | src/main.py:47-49 | the URI starts `mysql+pymysql://` and ends `?charset=utf8mb4` |
| App.Join | src/main.py:52 | POSIX `os.path.join`: the result ends with the second part and extends a non-empty first part |
| App.SqlitePath | src/main.py:52 | the database file path ends with `database/app.db` |
| App.SqliteUri | src/main.py:50-54 | the SQLite URI is `sqlite:///` followed by a path ending `database/app.db` |
| App.DatabaseUri | src/main.py:33-54 | a non-empty `DATABASE_URL` is used verbatim; else MySQL iff user, password and db are all non-empty, with host and port defaulting to `localhost` and `3306`; else SQLite |
| App.LowerEqualsIff | src/main.py:62 | lower-casing equals a lower-case word iff the two agree up to letter case |
| App.AutoCreate | src/main.py:62 | on iff the value is `1`, `true` or `yes` in any letter case; off when unset |
| App.CreatesTables | src/main.py:63-65 | tables are created iff debug or `AUTO_CREATE` |
| App.SetHeader | src/main.py:71-72 | setting a header replaces every entry of that name in any case and keeps all others |
| App.WithNoCacheHeaders | src/main.py:68-73 | `Cache-Control` and `Pragma` get their no-cache values, and no other-case variant of those names survives; every other header is unchanged |
| App.NoCacheHeadersIdempotent | src/main.py:68-73 | applying the hook twice equals applying it once |
| App.Response.AddNoCacheHeaders | src/main.py:68-73 | the response's headers become `WithNoCacheHeaders` of the old ones |
| App.Serve | src/main.py:75-89 | a missing static folder is 404; a non-empty existing path is served as itself; an empty or missing path gets `index.html` if it exists, else 404 |
| EnvFile.SplitAtEquals | scripts/print_db_uri.py:18 | split at the FIRST `=`: the key holds no `=`, key + `=` + value is the line, and the value may hold `=`; no `=` means failure |
| EnvFile.Classify | scripts/print_db_uri.py:15-18 | a stripped line is skipped iff blank or starting with `#`, malformed iff kept without `=`, otherwise an assignment split at the first `=` with no further trimming |
| EnvFile.FailurePersists | scripts/print_db_uri.py:18 | once a prefix of the file fails, the whole read fails with the same error |
| EnvFile.ReadEnv | scripts/print_db_uri.py:9-20 | a missing file reads as `{}`; otherwise the loop's result is the line-by-line parse |
| EnvFile.FailsAtFirstMalformed | scripts/print_db_uri.py:14-19 | the read fails iff some line is malformed, and the error names the first such line |
| EnvFile.LastAssignmentWins | scripts/print_db_uri.py:19 | a key's value is the one on its last assigning line |
| EnvFile.KeysAreAssigned | scripts/print_db_uri.py:18-19 | the keys read are exactly the keys of the assigning lines |
| EnvFile.UriFromEnv | scripts/print_db_uri.py:35-43 | the MySQL URI iff user, password and db are non-empty, with host and port defaults; otherwise the literal `sqlite` |
| EnvFile.ScriptAgreesWithServer | scripts/print_db_uri.py:35-43 | without `DATABASE_URL`, the script's MySQL URI is the server's, and its `sqlite` means the server uses SQLite |
| PyText.TrimStart | src/routes/note.py:19 | `lstrip`: drops exactly the leading run of whitespace |
| PyText.TrimEnd | src/routes/note.py:19 | `rstrip`: drops exactly the trailing run of whitespace |
| PyText.Strip | src/routes/note.py:19 | `strip`: a slice with only whitespace outside it and none at its ends; empty iff the input is all whitespace |
| PyText.StripIdempotent | src/routes/note.py:53-56 | a stripped title strips to itself |
| PyText.Occurs | src/routes/ai.py:100 | Python `sub in s` holds iff `sub` occurs at some position of `s` |

## Left out

- `src/llm.py` is not part of this model: its token check at import time, which exits the process, and the OpenAI client. The wrapper is the parameter `llm`, which returns a text or a failure message.
- The chat client `openai.ChatCompletion.create` is the parameter `openai`. The global `openai.api_key` assignment is not modelled. Whether the `openai` package imports is the flag `clientInstalled`.
- Ai.ExtractReply: `str(resp)` is the parameter `rendering` of the outcome. So "the reply is never empty" is proved only when that rendering is non-empty; it is empty only for an empty-string response.
- Ai.Translate: the failed model import (`Server configuration error`, src/routes/ai.py:72-77) is not modelled. Neither is a `None` content from the model; the translation is a string.
- Ai.TranslateRequest: `note_id` is an integer or missing, and `text` is a string or missing. Other JSON types for these keys are not modelled.
- Flask and SQLAlchemy plumbing is not modelled: JSON decoding, `jsonify`, blueprints, sessions, `rollback`. A failed commit is the parameter `commitError` and leaves the table unchanged.
- `src/models/note.py` is not part of this model. When `updated_at` is refreshed is not known, so each write takes the timestamp as the parameter `stamp`. `to_dict` is reduced to id, title, content and `updated_at`.
- Notes.Matches: SQL `LIKE` is case-insensitive for ASCII in SQLite and treats `%` and `_` in the query as wildcards. The model uses plain case-sensitive substring search.
- Notes.NoteStore.Update: a `content` key holding `null` is not modelled (the handler would store `None`). Non-string titles and contents are not modelled either; `strip` on them raises and becomes a 500.
- Notes.NoteStore.Update: a missing id answers 404 through the corrected handler `Notes.CatchAll`. The code as written answers 500 (see Findings).
- Notes.NoteStore.Delete: a missing id answers 404 through the corrected handler `Notes.CatchAll`. The code as written answers 500 (see Findings).
- Notes.NoteStore.Create: fresh ids come from a counter. The model promises only that the new id is not already in the table, which also holds where the database reuses a deleted largest id.
- App.AutoCreate: `lower()` is modelled for ASCII letters only. No other character lower-cases into `1`, `true` or `yes`.
- App.Join: POSIX paths only. Windows drive letters and separators are not modelled. The repository root (`ROOT_DIR`) is the parameter `rootDir`.
- App.SetHeader: headers are a map from name to value. So the order of header lines is not modelled, and neither are repeated entries under one name (such as several `Set-Cookie` lines): "every other header is kept" is proved over a representation that merges them.
- Environment and file effects are not modelled: `load_dotenv`, `os.makedirs`, `send_from_directory`, logging, and the app's `run` entry point. `os.path.exists` is the parameter `pathExists`.
- EnvFile.ReadEnv: the file is given as its lines (`None` when it does not exist). Decoding errors are not modelled, and neither are the script's prints, its `pymysql` probe or its import of the app (scripts/print_db_uri.py:22-33, 44-80).
- `scripts/test_supabase_conn.py`, `scripts/smoke_test.py` and `scripts/debug_post_translate.py` are drivers over the network or a test client. They are not modelled; the smoke test's round trip is stated as `Notes.CreateThenGet`.

## Findings

| source | as written | input that shows it | evidently intended | confidence | as-written member | corrected member |
|---|---|---|---|---|---|---|
| src/routes/note.py:46 | `get_or_404` runs inside `try`, and `except Exception` also catches the `NotFound` abort, so a missing note is answered 500 with the abort's text | `PUT /notes/999` or `DELETE /notes/999` when no note 999 exists | 404 for a missing note, as `get_note` answers | high; not executed | Notes.MissingNoteAnswers500AsWritten | Notes.CatchAll |
