# VibeChat backend core, modelled in Dafny

VibeChat is a small chat backend: REST handlers for users, chats and
messages over a document store (MongoDB), with one helper, `serialize`,
that rewrites every document it returns so that the store's `_id` key
becomes `id` and ObjectId values become strings.

This project models the handlers of `main.py` and that helper:

- `object_ids.dfy` — an ObjectId as twelve bytes; `str(oid)` as 24
  lower-case hex digits; the `ObjectId(text)` constructor as a parser
  that accepts exactly 24 hex digits of either case and otherwise fails
  (`InvalidId`). The round trip `ObjectId(str(oid)) == oid` is proved.
- `documents.dfy` — a document as an insertion-ordered dictionary
  (`seq<(string, Value)>`) with Python's `d[k] = v` and `d.get(k)`;
  `serialize` both as a specification function and as the loop the
  source runs, proved equal; and what `serialize` guarantees: no `_id`
  in the output, `id` holding the string form of `_id`, every other key
  kept with its value passed through `oid_str`. The dictionary semantics
  matter in one corner: an input holding both `_id` and `id` ends up with
  one `id` whose value comes from whichever of the two came later.
- `sorting.dfy` — Python's `sorted(..., key=..., reverse=...)` over an
  integer key as a stable insertion sort: a permutation, in order, and
  stable (items with equal keys keep their order, also with `reverse`).
- `tables.dfy` — one collection of the store: records under their ids
  in natural (insertion) order, with `find_one` by id, `find` with a
  filter, `insert_one` and `update_one`.
- `api.dfy` — request bodies with their declared defaults, stored
  records, the three list handlers as functions of the collections, and
  a `Store` class holding the `user`, `chat` and `message` collections
  whose methods are the handlers that write (`create_user`,
  `create_chat`, `send_message`) and the store calls they make. The
  store invariant says ids are unique in each collection and that every
  stored message names an existing chat that has its sender among its
  participants; every method keeps it.
- `scenario.dfy` — a client session (two users, a direct chat, a
  message, a refused message, the chat history) checked against the
  handlers' contracts alone.

Assumptions about the store layer (`database.py` is not part of this
model): `create_document` stores the body's fields plus `created_at` and
`updated_at`, both set from one clock reading, which the handler methods
take as the parameter `now`; the id it assigns is the parameter `oid`, and
an id already present makes the insert fail with `DuplicateKey`, as
MongoDB's unique `_id` index does. `get_documents` returns the matching
records in insertion order. `find_one` returns the record with `_id`
first, followed by its fields in the order they were inserted.
Timestamps are integers.

Where the documented API contract and the code differ, the model follows the code:
a chat with `is_group` set is accepted with any number of participants,
none included, and a user's `name` may be empty.

## Model

| member | source | states |
|---|---|---|
| `ObjectIds.OidStr` | main.py:23-26 | `str(oid)` is 24 lower-case hex characters |
| `ObjectIds.ParseOid` | main.py:148 | `ObjectId(text)` succeeds exactly on a text of 24 hex digits, of either case |
| `ObjectIds.ParseOidStr` | main.py:110-111 | the id string an insert returns parses back to the same ObjectId |
| `ObjectIds.OidStrInjective` | main.py:23-26 | distinct ObjectIds have distinct string forms |
| `ObjectIds.ParseOidCanonical` | main.py:148 | a lower-case text that parses is exactly the string form of the id it parses to |
| `Documents.Get` | main.py:121 | `d.get(k)` finds a value exactly when k is a key, and the value is stored under k; with it the record lemmas state what a stored document holds under `updated_at` and `created_at`, the keys the listings sort on. Every stored chat has `participants`, so the `[]` default of main.py:152 never applies |
| `Documents.Put` | main.py:35-39 | `out[k] = v`: the keys afterwards are the old keys plus k; a new key goes last; an existing key keeps its position and no other key moves |
| `Documents.PutGet` | main.py:35-39 | after `out[k] = v`, k maps to v and every other key maps to what it mapped to before |
| `Documents.PutWellFormed` | main.py:35-39 | `out[k] = v` never makes a key appear twice |
| `Documents.SerializeItems` | main.py:32-39 | the loop's result as a fold: each item is written into `out`, so `out` never has more items than the input |
| `Documents.OidStrValue` | main.py:23-26 | the result is never an ObjectId; an ObjectId becomes a string that parses back to that same id; any other value is returned unchanged |
| `Documents.SerializeItem` | main.py:34-39 | the three branches of the loop body all write the value through `oid_str`, under `id` for `_id` and under the same key otherwise |
| `Documents.Serialized` | main.py:29-31 | an absent or empty document is returned unchanged; a present document gives a present result |
| `Documents.Serialize` | main.py:29-40 | the loop that fills `out` computes exactly `Serialized` |
| `Documents.SerializeWellFormed` | main.py:32-40 | the output never holds a key twice |
| `Documents.SerializeKeys` | main.py:33-39 | the output's keys are the input's keys with `_id` renamed to `id` |
| `Documents.SerializeDropsUnderscoreId` | main.py:33-35 | the output never contains `_id` |
| `Documents.GetSerializedLast` | main.py:33-39 | under each output key is the converted value of the last input item written under that key |
| `Documents.GetSerializedAbsent` | main.py:33-39 | an output key that no input item is written under is absent |
| `Documents.SerializeKeepsKey` | main.py:36-39 | every key other than `_id`/`id` keeps its name; its value passes unchanged, or becomes a string if it is an ObjectId |
| `Documents.SerializeRenamesId` | main.py:34-35 | with no `id` in the input, `id` holds `oid_str` of the `_id` value, the ObjectId's string form when it is one |
| `Documents.SerializeIdCollision` | main.py:34-39 | with both `_id` and `id` in the input, the later one's value ends up under `id` |
| `Documents.SerializeMergesIdKeys` | main.py:34-39 | with both `_id` and `id` in the input, the output's keys are the input's keys without `_id` |
| `Documents.SerializeInOrder` | main.py:32-40 | with no `id` in the input, the output is the input item by item, in the same order, with `_id` renamed and values through `oid_str` |
| `Sorting.InsertByKey` | main.py:122 | inserting adds exactly one occurrence of the item |
| `Sorting.InsertSorted` | main.py:122 | inserting into an ordered list keeps it ordered |
| `Sorting.InsertStable` | main.py:122 | the inserted item goes at the front of its key group; the other groups are unchanged |
| `Sorting.SortByKey` | main.py:122 | `sorted` returns a permutation of its input |
| `Sorting.SortSorted` | main.py:141 | `sorted` returns its input ordered by key, descending when `reverse` is set |
| `Sorting.SortStable` | main.py:122 | `sorted` is stable: items with equal keys keep their input order, also with `reverse` |
| `Sorting.SortKeepsNewestLast` | main.py:141 | an ascending sort keeps a last item whose key is largest in last place |
| `Sorting.SortStartsWithLargest` | main.py:122 | a descending sort starts with the largest key |
| `Tables.Find` | main.py:148 | `find_one` by id finds a record exactly when the id is stored, and it is stored under that id |
| `Tables.FindEntry` | main.py:159 | with unique ids, `find_one` returns the stored record of that id |
| `Tables.FindAppend` | main.py:155 | an insert under a fresh id leaves every other lookup as it was and makes the new record findable |
| `Tables.AppendUnique` | main.py:155 | an insert under a fresh id keeps ids unique and adds exactly that id |
| `Tables.Where` | main.py:120 | `find(filter)` returns exactly the stored records the filter accepts |
| `Tables.WhereAppend` | main.py:139 | a record inserted last is returned last by `find`, or not at all if the filter rejects it |
| `Tables.Replace` | main.py:157 | `update_one` replaces the record under the id in place; ids, order and every other record stay as they were |
| `Api.NewUser` | main.py:110 | the user record `create_document` stores: the body's fields, created and updated now |
| `Api.NewChat` | main.py:130 | the chat record `create_document` stores |
| `Api.NewMessage` | main.py:155 | the message record `create_document` stores |
| `Api.NewUserFields` | main.py:110 | the stored user document holds the body's `name`, `avatar` and `status`, and `created_at` and `updated_at` both equal now |
| `Api.NewChatFields` | main.py:130 | the stored chat document holds the body's `participants`, `title` and `is_group`, and both timestamps equal now |
| `Api.NewMessageFields` | main.py:155 | the stored message document holds the body's `chat_id`, `sender_id`, `content` and `type`, and both timestamps equal now; this is the `created_at` main.py:157 reads back |
| `Api.UserFields` | main.py:45-48 | a stored user's fields hold no id key and no ObjectId value |
| `Api.ChatFields` | main.py:51-54 | a stored chat's fields hold no id key and no ObjectId value |
| `Api.MessageFields` | main.py:57-61 | a stored message's fields hold no id key and no ObjectId value |
| `Api.StoredDoc` | main.py:111 | the record as `find_one` returns it holds its id under `_id`, and its keys are `_id` plus the record's fields |
| `Api.StoredWellFormed` | main.py:111 | a record as `find_one` returns it has unique keys: `_id` and the record's fields |
| `Api.RenamedStored` | main.py:112 | renaming a stored record's `_id` gives the served record |
| `Api.ServeStored` | main.py:112 | `serialize` of a stored record is the record with `id` (the id's string form) first and its fields unchanged |
| `Api.Serve` | main.py:112 | what `serialize(find_one(...))` hands back is the served record |
| `Api.ServedHasId` | main.py:112 | a served record has a string `id` and no `_id` |
| `Api.UsersMatching` | main.py:100-104 | with `q` absent or empty every user is fetched, in store order; otherwise exactly the users whose name the store's regex accepts |
| `Api.ListUsers` | main.py:99-105 | `list_users` serves each fetched user, in order; with no filter, all users in store order |
| `Api.ChatsWith` | main.py:120 | the chat filter fetches exactly the chats whose participants contain the user |
| `Api.ListedChats` | main.py:117-122 | `list_chats` returns exactly the user's chats, as a permutation of the fetched list, in non-increasing `updated_at` order, equal timestamps in store order |
| `Api.ListChats` | main.py:117-123 | each listed chat is served with its `id` string |
| `Api.MessagesIn` | main.py:139 | the message filter fetches exactly the messages with that `chat_id` |
| `Api.ListedMessages` | main.py:137-141 | `list_messages` returns exactly the chat's messages, as a permutation of the fetched list, in non-decreasing `created_at` order, equal timestamps in store order |
| `Api.ListMessages` | main.py:137-142 | each listed message is served with its `id` string |
| `Api.MessagesInAppend` | main.py:139 | a new message joins the fetched list of its own chat only, at the end |
| `Api.SentMessageListed` | main.py:155 | after an insert, the message's chat history gains exactly that message and every other chat's history is unchanged |
| `Api.NewestMessageListedLast` | main.py:139-141 | a message no older than the rest of its chat is listed last in that chat's history |
| `Api.TouchedChatListed` | main.py:157 | after a send sets a chat's `updated_at` to t, each participant's list shows that chat with activity t, and starts with activity t when no chat was newer |
| `Api.ChatOfServedId` | main.py:131-132 | the id string a created chat is served with finds exactly that chat when a message names it (main.py:148) |
| `Api.MaySend` | main.py:148-153 | a message may be sent only when its chat id text is a valid id of a stored chat (and the sender is one of its participants) |
| `Api.PostedKept` | main.py:152-153 | adding chats or bumping a chat's timestamp leaves every stored message's sender a participant of its chat |
| `Api.Store.constructor` | main.py:8 | an empty store satisfies the invariant |
| `Api.Store.InsertUser` | main.py:110 | `create_document("user")` appends the record under a fresh id and returns the id string; an id already present fails with nothing changed |
| `Api.Store.InsertChat` | main.py:130 | `create_document("chat")`, likewise |
| `Api.Store.InsertMessage` | main.py:155 | `create_document("message")`, likewise, and the invariant holds for the new message |
| `Api.Store.SetChatUpdatedAt` | main.py:157 | `update_one` sets the chat's `updated_at` and changes no other record |
| `Api.Store.CreateUser` | main.py:108-112 | `create_user` adds exactly one user with the body's fields and returns it served: a string `id`, no `_id` |
| `Api.Store.CreateChat` | main.py:126-132 | a direct chat with fewer than two participants fails with 400 and inserts nothing; any other body, a group chat with one participant included, inserts exactly one chat and returns it |
| `Api.Store.SendMessage` | main.py:145-160 | an unknown chat gives 404 and a sender outside it gives 403, both with nothing changed; otherwise exactly one message with the body's fields is added, that chat's `updated_at` becomes the message's `created_at`, no other chat or user changes, and the served message is returned |

## Left out

- The HTTP layer: FastAPI routing, the CORS middleware (main.py:12-18), the root endpoint (main.py:66-68) and the uvicorn start-up with `PORT` (main.py:163-166) are framework and configuration.
- The `/test` diagnostic endpoint (main.py:71-94) reports environment variables and database exceptions; it is plumbing.
- Request-body shape validation (the 422 answers) belongs to the validation library; bodies are datatypes carrying the declared defaults.
- `database.py` is not part of this model; its `create_document`, `get_documents` and the driver calls are modelled under the assumptions stated above.
- Connection and other store failures, which the handlers let propagate as 500s, are not modelled; the duplicate-id failure of an insert is.
- Api.UsersMatching: the case-insensitive `$regex` filter on `q` (main.py:103) is the store's; it is the parameter `matches`, and only the membership of the filtered list is stated, not its order.
- ObjectIds.ParseOid: `bytes.fromhex` also skips whitespace inside a 24-character text, which can yield a short id; the model rejects any text that is not 24 hex digits.
- Concurrency: each handler call is one sequential step, so the race between the message insert and the chat update is not represented.
- Sorting with a missing `updated_at` or `created_at` raises in Python; every record here carries both.
- Datetimes are integers, and the value types are the ones these documents hold (null, bool, int, string, ObjectId, array).
