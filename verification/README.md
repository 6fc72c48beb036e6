# ChatAi core, modelled in Dafny

ChatAi is a Flask chat application with a browser front end. The model covers:

- the server's conversation store (`ChatManager`): a capped per-user history and the prompt context built from it;
- the `/chat` route, which sends a message to the text model or, for messages that start with `@image`, to the image generator;
- the user table kept in a JSON file: register, login, profile update, user deletion and admin creation;
- the user documents of the document store (`User`);
- the page's chat list: saving messages, deleting and archiving chats, deleting images, and the sidebar filter;
- the page's HTML escaping, its API-key format check and the pace of its typing animation;
- the browser-storage chat handler (`StorageHandler`) and the message pager (`HistoryManager`).

Modules, one per concern:

- `Basics`: `Option`, `Result` and truthiness.
- `Text`: Python `strip` and JavaScript `trim`, written out with each language's whitespace set, and decimal numbers.
- `Words`: `split` and `join` on one character.
- `JsArray`: `slice` and `splice` with negative indices.
- `OrderedDict`: a Python dict as an insertion-ordered association list.
- `Passwords`: the password hash.
- `ChatHistory`: `chat_manager.py`.
- `ImageGen`: the guards of `image_generator.py`.
- `App`: `app.py`.
- `UserRecord`: `user.py`.
- `ChatRecords`: the chat and message records.
- `ChatList`: the chat functions of `main.js`.
- `HtmlEscape`, `ApiKeyCheck` and `TypingSpeed`: the three helpers of `main.js`.
- `StorageHandler`: `storageHandler.js`.
- `HistoryManager`: `historyManager.js`.

Where the source keeps state, the model does too:

- `ChatManager`, the user table, the user collection, the chat page, the storage handler and the history manager are classes.
- Each method's ensures gives the new state or result. Most tie it to a specification function, such as `AddRecord`, `LoginResult`, `SavedState`, `DeletedState` or `ToggledState`, and lemmas state the properties of that function. `LoadChat`, `NewChat`, `ToggleShowingArchived` and `UserCollection.Insert` state their field updates directly.

The conversation collection is a sequence of documents in insertion order, stamped by a clock that increases with every insertion. `Chronological` ties collection order to timestamp order. Every operation keeps it, so "oldest first" can be read as a statement about timestamps.

The code does some things worth knowing that are not listed as findings:

- The application never gives its image generator a key (`app.py` line 83). So every `@image` request fails with `Failed to generate image: Hugging Face API key not set. Please set it in settings.` (`App.AppImageRequestsFail`).
- The page sends its key in the JSON body (`main.js` lines 72-76). The route reads it from the `X-API-Key` header. The model takes the header value as an input.
- A stored username is used only when an email is stored too, because Python computes the fallback `email.split('@')[0]` first (`UserRecord.Username`).
- The API-key check trims first and removes quotes second. Whitespace inside quotes therefore reaches the server (`ApiKeyCheck.SpaceInsideQuotesKept`).

## Model

| member | source | states |
|---|---|---|
| ChatHistory.ChatManager.constructor | chat_manager.py:10-14 | the cap defaults to 50; permanent context and history start empty |
| ChatHistory.ChatManager.AddPermanentInfo | chat_manager.py:66-68 | sets or overwrites one fact, keeping keys unique and insertion order |
| ChatHistory.ChatManager.AddToHistory | chat_manager.py:70-98 | the collection becomes `AddRecord` of the old one with a record stamped by the clock; the store stays chronological |
| ChatHistory.AddRecordUser | chat_manager.py:76-98 | the user's documents after an insertion are the old ones plus the new one, minus the oldest excess; the count is `min(count, max_history)`; the new document survives for a cap of at least one |
| ChatHistory.AddRecordOthers | chat_manager.py:87-98 | no other user's documents change |
| ChatHistory.AddRecordChronological | chat_manager.py:76-98 | an insertion stamped later than every stored document keeps the store chronological and adds nothing but the new record |
| ChatHistory.EvictOldestUser | chat_manager.py:88-98 | eviction deletes exactly the first `min(k, count)` of the user's documents |
| ChatHistory.EvictedAreOldest | chat_manager.py:90-93 | every evicted document is older, by timestamp, than every document the user keeps |
| ChatHistory.EvictOldestSubsequence | chat_manager.py:96-98 | eviction only deletes: what remains came from the store and stays chronological |
| ChatHistory.UserRecordsChronological | chat_manager.py:90-93 | a user's documents, read in store order, are in timestamp order |
| ChatHistory.RecentAreLatest | chat_manager.py:114-123 | the exchanges put into a prompt are the user's last `min(5, count)` documents, oldest first |
| ChatHistory.ChatManager.GetContextForPrompt | chat_manager.py:104-127 | the text is the permanent-context header, one `key: value` line per fact in insertion order, the history header, then the recent exchanges |
| ChatHistory.AppendContextLines | chat_manager.py:110-111 | the loop appends one line per fact, in order |
| ChatHistory.AppendHistoryLines | chat_manager.py:124-125 | the loop appends the lines of each exchange, in order |
| ChatHistory.ChatManager.ClearUserHistory | chat_manager.py:133-137 | deletes every document of the user |
| ChatHistory.RemoveUserEffect | chat_manager.py:137 | afterwards the user has no documents; every other user's are untouched |
| App.Chat | app.py:232-285 | a missing key gives 401; a missing message gives 500; `@image` messages go to the image generator with the stripped prompt; others go to the text model with `context + "\nUser: " + message + "\nAssistant:"`; history is written only after generation succeeded; failures give 500 with the error text |
| App.ImagePrompt | app.py:244-247 | a prompt exists exactly when the message starts with `@image` |
| App.ImagePromptShape | app.py:247 | the prompt is the text after the marker with only whitespace removed from either end |
| App.TextPrompt | app.py:275 | the text model gets the context, then `\nUser: ` and the message, then `\nAssistant:` |
| App.ImageAck | app.py:255 | the acknowledgement is `I've generated an image based on your prompt: ` followed by the prompt |
| App.AppImageRequestsFail | app.py:83 | with the generator the application builds, every image request fails before the remote call |
| App.UserTable.constructor | app.py:34-42 | the table is the stored users, one entry per id |
| ImageGen.SetApiKey | image_generator.py:11-15 | an empty or missing key is refused with `Invalid API key provided`; otherwise the key is stored |
| ImageGen.GenerateImage | image_generator.py:17-23 | without a key, or with an empty prompt, generation fails with the source's message; otherwise the remote call decides |
| ImageGen.NewImageGenerator | image_generator.py:8-9 | a new generator holds no key |
| App.UserTable.Register | app.py:98-128 | a taken username is refused; otherwise exactly one user is added under a fresh id and no user is replaced (corrected; see Findings) |
| App.UserTable.NextFreeId | app.py:116 | the loop returns `str(len(users) + 1)` when that id is free, else the next free one (corrected; see Findings) |
| App.FreshUserId | app.py:116 | the id is free, is the least free number from `len(users) + 1` on, and reads back as that number |
| App.FreshIdRegistrationKeepsUsers | app.py:116-121 | adding under the fresh id grows the table by one, keeps every user, and uses the code's id whenever that id is free |
| App.RegisterAfterDeleteOverwrites | app.py:116-121 | as written: after deleting user "1" of two, the next id is "2", and registering replaces user "2" |
| App.RegisterOverwritesWhenTaken | app.py:116-121 | as written: whenever `str(len(users) + 1)` is already a key, registering replaces that user and the table does not grow |
| App.UserTable.Login | app.py:132-171 | the outcome is `LoginResult`: the first user with the username, checked against the password and the login type |
| App.LoginResult | app.py:143-160 | only the first user with the username is considered: with the right password it logs in, with its admin flag, unless a non-admin tries an admin login, which is denied; with a wrong password, or an unknown username, the credentials are invalid, even when a later user with the same name has that password |
| App.FirstWithUsername | app.py:143-148 | the first user, in file order, with the username, or none |
| App.UserTable.UpdateProfile | app.py:197-218 | only fields given as non-empty text change; with no such field nothing is looked up; a missing entry fails with the KeyError text |
| App.ApplyProfile | app.py:208-213 | each non-empty field replaces the stored one, the password hashed; the admin flag is kept |
| App.UserTable.DeleteUser | app.py:341-353 | an existing user is removed; otherwise `User not found` and no change |
| App.RemoveKeepsUnique | app.py:348 | deleting keeps ids unique |
| App.UserTable.CreateAdmin | app.py:355-382 | all three fields are required; otherwise one admin is added under a fresh id, with no duplicate check (corrected id; see Findings) |
| UserRecord.Username | user.py:21-23 | the stored username, else the email's local part; a document without an email fails |
| UserRecord.IsBlocked | user.py:37-39 | blocked exactly when the flag is stored as true; a document without it is not blocked |
| UserRecord.IsAdmin | user.py:29-31 | an admin exactly when the flag is stored as true |
| UserRecord.IsActive | user.py:13-15 | active exactly when not stored as blocked |
| UserRecord.LocalPart | user.py:23 | the part of the email before its first `@` |
| UserRecord.CheckPassword | user.py:110-115 | true exactly when a hash is stored and accepts the password |
| UserRecord.UpdateProfile | user.py:117-125 | the update map holds exactly the non-empty fields, each with its new value, the password hashed |
| UserRecord.NewUserDefaults | user.py:13-15 | a new document is active and not blocked, has no API key or activity, accepts only its password, and its admin flag is as requested |
| UserRecord.NewUserDoc | user.py:54-63 | a new document has the given name and email, no username and no id yet, is not blocked, has the requested admin flag, no API key or activity, is stamped with the clock, and accepts exactly its password |
| UserRecord.UserCollection.Insert | user.py:65-66 | the document is stored last, under the next id, and that id is written into the returned document |
| UserRecord.UserCollection.CreateUser | user.py:49-67 | a stored email gives `Email already exists`; otherwise one document is inserted with the new-user defaults; emails stay unique |
| UserRecord.UserCollection.CreateAdminUser | user.py:69-91 | a stored email gives `(None, "Email already registered")`; otherwise one admin document is inserted |
| ChatRecords.FindChat | static/js/main.js:31 | the first chat with the id, or none exactly when no chat has it |
| ChatList.ChatPage.constructor | static/js/main.js:1-2 | the page starts with the stored chats and current id, showing active chats |
| ChatList.ChatPage.SaveChat | static/js/main.js:12-42 | the page state becomes `SavedState` of the old one, whose effect `SaveChatStartsChat`, `SaveChatStoresMessage` and `SaveChatDanglingDrops` state |
| ChatList.SaveChatStartsChat | static/js/main.js:16-28 | without a current chat, a chat titled after the message and holding just that message is put first and becomes current |
| ChatList.SaveChatStoresMessage | static/js/main.js:30-41 | while the current id names a chat, saving adds exactly one message, as the current chat's last; when a chat was already current, only that chat changes, by the message appended to its messages |
| ChatList.SaveChatDanglingDrops | static/js/main.js:30-41 | when the current id names no chat, saving changes nothing |
| ChatList.ChatTitleIsPrefix | static/js/main.js:21 | the title is the message up to its second space, followed by `...` |
| ChatList.ChatTitle | static/js/main.js:21 | the title ends in `...` (its text is stated by `ChatTitleIsPrefix`) |
| ChatList.VisibleChats | static/js/main.js:126-128 | the sidebar lists only chats whose archive flag matches the view, and every such chat |
| ChatList.VisibleChatsSnoc | static/js/main.js:126-128 | the filter keeps stored order: a chat stored last is listed last in its view and in no other |
| ChatList.VisibleChatsPartition | static/js/main.js:126-128 | the two views split the chats between them, so no view lists a chat more often than it is stored |
| ChatList.ChatPage.DeleteChat | static/js/main.js:823-833 | the page state becomes `DeletedState` (corrected; see Findings) |
| ChatList.DeleteChatKeepsResolving | static/js/main.js:823-833 | in every page state, a dangling current id included, deleting removes exactly the first chat with the id, keeping the others in order; the current id is cleared exactly when it named that chat, so a current id that named a stored chat still does (corrected; see Findings) |
| ChatList.DeleteCurrentThenSaveLosesMessage | static/js/main.js:823-833 | as written: after deleting the current chat, the next message is lost |
| ChatList.ChatPage.ToggleArchiveChat | static/js/main.js:759-777 | the page state becomes `ToggledState`, whose effect `ToggleArchiveChatEffect` states |
| ChatList.ToggleArchiveChatEffect | static/js/main.js:759-777 | in every page state, a dangling current id included, exactly one archive flag flips; archiving the current chat clears the current id, and in every other case it is unchanged; a resolving current id keeps resolving; toggling twice restores the chats |
| ChatList.ChatPage.DeleteImage | static/js/main.js:324-334 | the loop clears the image from every message of the current chat that holds it |
| ChatList.DeleteImageEffect | static/js/main.js:324-334 | each message of the current chat that held the image now has no image and is otherwise unchanged; nothing else changes; a second delete changes nothing |
| ChatList.ChatPage.LoadChat | static/js/main.js:149-155 | an existing chat becomes current |
| ChatList.ChatPage.NewChat | static/js/main.js:524-527 | no chat is current |
| ChatList.ChatPage.ToggleShowingArchived | static/js/main.js:517-519 | the sidebar switches views |
| HtmlEscape.EscapeHtmlIsPerCharacter | static/js/main.js:474-481 | the chain of replacements escapes each character on its own |
| HtmlEscape.EscapedHasNoMarkup | static/js/main.js:474-481 | no `<`, `>`, `"` or `'` survives |
| HtmlEscape.EscapeHtml | static/js/main.js:474-481 | escaping never shortens text, and no `'` survives the last replacement (its meaning is stated by `EscapeHtmlIsPerCharacter`) |
| HtmlEscape.UnescapeEscape | static/js/main.js:474-481 | escaped text reads back as the original |
| ApiKeyCheck.CheckHfKeyFormat | static/js/main.js:968-987 | an empty or missing key is refused first; a key proceeds exactly when, trimmed and stripped of quotes, it starts with `hf_` |
| ApiKeyCheck.ForwardedKeyShape | static/js/main.js:979-987 | a key sent on holds no quote and starts with `hf_` |
| ApiKeyCheck.CleanKeyPassesUnchanged | static/js/main.js:979-987 | a key already clean is sent on unchanged exactly when it starts with `hf_` |
| ApiKeyCheck.QuotedKeyAccepted | static/js/main.js:979 | quotes around a key are removed |
| ApiKeyCheck.SpaceInsideQuotesKept | static/js/main.js:979 | whitespace inside quotes survives cleaning |
| TypingSpeed.PhaseFor | static/js/main.js:412-418 | the phase for a character count: every earlier phase has ended and this one has not |
| TypingSpeed.AdvancePhase | static/js/main.js:462-466 | from any phase not past the right one, the loop stops at `PhaseFor(count)` |
| TypingSpeed.Delays | static/js/main.js:421-471 | the delay after the k-th shown character is that of `PhaseFor(k + 1)` |
| TypingSpeed.DelaysSpeedUp | static/js/main.js:412-418 | delays never grow and stay between 2 and 60 ms |
| TypingSpeed.PhaseForMonotone | static/js/main.js:412-418 | more characters never mean an earlier phase or a longer delay |
| StorageHandler.StorageHandler.constructor | static/js/chat/storageHandler.js:2-4 | the storage key is `chats` |
| StorageHandler.StorageHandler.GetChats | static/js/chat/storageHandler.js:24-32 | the first `limit` stored chats (50 by default); none when the stored text does not parse |
| StorageHandler.ReadChats | static/js/chat/storageHandler.js:24-32 | for a non-negative limit, the first `limit` parsed chats; nothing when storage holds nothing parseable |
| StorageHandler.StorageHandler.SaveChat | static/js/chat/storageHandler.js:6-22 | reports whether the write succeeded; on success the store holds `SavedList` of the newest 50 chats; on failure it is unchanged (corrected trim; see Findings) |
| StorageHandler.SavedList | static/js/chat/storageHandler.js:8-14 | the saved chat is first, followed by the newest of the others; a full store loses ten (corrected; see Findings) |
| StorageHandler.FullStoreLosesNewChat | static/js/chat/storageHandler.js:11-14 | as written: with fewer than ten chats stored, a full store loses the chat being saved too |
| StorageHandler.SavedListAgrees | static/js/chat/storageHandler.js:11-14 | the corrected list equals the code's whenever the code keeps the new chat |
| StorageHandler.SaveThenRead | static/js/chat/storageHandler.js:6-32 | a saved chat is read back first, and at most 51 chats are stored after a save |
| HistoryManager.HistoryManager.constructor | static/js/chat/historyManager.js:2-6 | pages hold 50 messages by default; the current page is 1 |
| HistoryManager.HistoryManager.LoadChatHistory | static/js/chat/historyManager.js:8-18 | none exactly when no chat among `getChats()` has the id; otherwise that chat's page |
| HistoryManager.MessagePageRange | static/js/chat/historyManager.js:12-17 | a page is the run of at most `limit` messages from `(page - 1) * limit`; `hasMore` holds exactly when messages follow it |
| HistoryManager.PagesTile | static/js/chat/historyManager.js:12-17 | pages 1 to n, read in order, give the first `n * limit` messages |
| HistoryManager.OnlyNewestFiftyLoad | static/js/chat/historyManager.js:9 | a chat stored after the newest 50 is never found |

## Left out

- The MongoDB connection, its indexes and its reconnection are left out. So are the environment variable that holds the permanent context, and the error text `get_context_for_prompt` returns when the database fails. The collection is an in-memory sequence, and its operations do not fail. The same holds for the users collection of user.py. So `create_admin_user`'s `except Exception as e: return None, str(e)` (user.py:93-94) cannot happen in the model, and `CreateAdminUser` never returns that error.
- The user table is the in-memory result of `load_users`. Reading and writing the JSON file are left out, as is `save_users`.
- Flask routing, sessions, `login_user`, flashed messages, redirects and templates are left out. A route's result is its status and JSON body, or the stored change.
- The Gemini and Hugging Face HTTP calls are left out. Each is a function parameter that returns text or an error. Decoding and re-encoding the image (PIL, base64) happens inside the image service, so it is left out too.
- Password hashing is left out. A werkzeug hash is represented by the password it accepts, so salting and the digest are left out.
- Routes that call methods no file defines are left out: deleting one chat from history, fetching and clearing history, and `generate_image`'s `image_generator.generate`.
- Rendering, the DOM, toasts, scrolling and `fetch` in `main.js` are left out. So is the tag and code-block skipping of `typeMessage`. Only the phase loop and the delays are modelled.
- `isStorageQuotaExceeded` and the success of `localStorage.setItem` are inputs to `StorageHandler.SaveChat`. Parsing JSON is reduced to three cases: absent, parsed, and not parseable.
- The clocks are not read. `datetime.now` in the user documents and `Date.now` and `new Date().toISOString()` on the page are inputs. The `datetime.utcnow()` stamp of a conversation document is the `clock` field of `ChatManager`, which grows by one with every insertion. Mongo's `ObjectId` is a counter.
- A stored password that is the empty string is not modelled. A stored hash is either present or absent.
- `App.Chat` leaves out storage failures inside `add_to_history` and a request body that is not JSON.
- `UserRecord.Username` leaves out the other user properties `name`, `api_key`, `last_activity` and `created_at`, which are plain lookups; `get_id`, `get_user`, `get_user_by_email` and `update_last_activity` are left out too.
- `models.py`, `wsgi.py`, `auth.js` and `messageHandler.js` are not part of this model.

## Findings

| source | as written | input that shows it | evidently intended | confidence | as-written member | corrected member |
|---|---|---|---|---|---|---|
| app.py:116 (and 369) | a new user's id is `str(len(users) + 1)` | users "1" and "2"; delete "1"; register: the id is "2", and user "2" is overwritten | a new user gets an id no user holds, and no user is replaced | high, not executed | App.RegisterAfterDeleteOverwrites | App.FreshIdRegistrationKeepsUsers |
| static/js/main.js:823-833 | `deleteChat` leaves `currentChatId` naming the deleted chat | one chat, current; delete it; send a message: `saveChat` finds no chat, and the message is stored nowhere | deleting the current chat clears the current id, as "new chat" and "clear all" do | high, not executed | ChatList.DeleteCurrentThenSaveLosesMessage | ChatList.DeleteChatKeepsResolving |
| static/js/chat/storageHandler.js:11-14 | when storage is full, `splice(-10)` cuts the last ten entries even when the list has ten or fewer | no stored chats, storage full: the written list is empty, and `saveChat` still returns true | the oldest chats are dropped, and the chat being saved is kept | medium, not executed | StorageHandler.FullStoreLosesNewChat | StorageHandler.SavedList |
