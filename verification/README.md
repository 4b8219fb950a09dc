# In-memory fallback post store

The raw-SQL variant of the Posts API (`app/main_psycopg.py`) falls back to a
module-level Python list, `my_posts`, when it cannot reach PostgreSQL at
start-up. Every post handler then works on that list instead of the
database: `get_posts` returns it, `create_post` appends a post with an id
drawn from `randrange(0, 1000000)`, `get_latest_post` returns its last entry,
and `get_post`, `delete_post` and `update_post` scan it from the front for the
first entry whose `"id"` matches, answering 404 when there is none.

This project models that fallback store in Dafny.

- `posts.dfy`, module `Posts`: the values and the handlers as pure functions
  over the list.
  - `Post` is the request body. Its constructor defaults `published` to
    true and `rating` to none, as the body model declares.
  - `Record` is a stored entry: the body plus its id.
  - `Response` is a handler's answer: `{"data": post}`, `{"data": list}`, an
    empty 204, or a 404 with its detail text.
  - `FirstIndex` is the generator scan shared by the three id handlers.
  - `Create`, `Delete` and `Update` give the answer and the new list of each
    mutating handler.
  - The lemmas relate the handlers to each other.
- `fallback_store.dfy`, module `FallbackStore`: class `PostList` holds the list
  as a `seq` field. Its methods `CreatePost`, `DeletePost` and `UpdatePost`
  change it in place, as `append`, `pop(index)` and `my_posts[index] = ...` do.
  Each method is proved to leave the list and give the answer that the
  matching `Posts` function describes.

Ids are not unique. The id of a new post is random and is never checked
against the list, so two entries may share an id. The model does not assume
otherwise. `get_post` and `update_post` both act on the first match, so
reading back an update works even with duplicates (`GetAfterUpdate`).
Reading back a delete gives 404 only when ids are unique (`GetAfterDelete`).
`GetAfterDeleteWithDuplicate` shows a reachable list where it does not:
the seed list, after a create that drew id 1.

Where the fallback branch and the database branch of the same handler
differ, the model follows the fallback:

- The latest post is the last one appended, not the one with the largest id
  that `ORDER BY id DESC LIMIT 1` selects in the database branch
  (`app/main_psycopg.py:141`; `LatestIsNotLargestId`).
- The list is returned in insertion order, not sorted as `ORDER BY id`
  sorts it in the database branch (`app/main_psycopg.py:87`).
- Ids are unique only by chance, whereas the database table declares them
  `SERIAL PRIMARY KEY` (`app/main_psycopg.py:57`).
- The update route of this variant is `/update-post/{id}`
  (`app/main_psycopg.py:233`), while the ORM variant's router serves
  `PUT /posts/{id}` (`app/roturs/post.py:126`). The route does not change
  what the handler does to the list.

## Model

| member | source | states |
|---|---|---|
| Posts.Seed | app/main_psycopg.py:49-50 | the list starts with two posts whose ids are unique |
| Posts.FirstIndex | app/main_psycopg.py:223 | the scan gives an index holding the id with no earlier index holding it, and gives nothing exactly when no entry has the id |
| Posts.FirstIndexIs | app/main_psycopg.py:260 | any index that holds the id with no earlier match is the one the scan returns |
| Posts.GetPosts | app/main_psycopg.py:96-98 | get_posts answers with the whole list, unchanged and in order |
| Posts.GetLatestPost | app/main_psycopg.py:156-165 | get_latest_post answers with the last entry by position, and answers 404 "No posts found" exactly when the list is empty |
| Posts.GetPost | app/main_psycopg.py:188-196 | get_post answers with an entry carrying the id and no earlier entry carries it; it answers 404 "was not found" exactly when no entry has the id |
| Posts.Create | app/main_psycopg.py:130-134 | create_post appends exactly one entry, the body with the drawn id; the old list is a prefix of the new one; it answers with the new entry |
| Posts.Delete | app/main_psycopg.py:221-230 | with an absent id, delete_post answers 404 "does not exist" and keeps the list. Otherwise it answers 204 and removes exactly the first matching entry. The length drops by one, the others keep their order, and the multiset of entries loses only that one |
| Posts.Update | app/main_psycopg.py:258-267 | with an absent id, update_post answers 404 "does not exist" and keeps the list. Otherwise it overwrites only the first matching entry with the new body under the same id, keeps the length, and answers with the stored entry |
| Posts.GetAfterUpdate | app/main_psycopg.py:260-266 | get_post after update_post of the same id answers with the new body under that id, even with duplicate ids; with an absent id it answers 404 |
| Posts.UpdateIdempotent | app/main_psycopg.py:258-267 | updating an id twice with the same body leaves the same list and answer as updating once |
| Posts.LatestAfterCreate | app/main_psycopg.py:130-165 | get_latest_post right after create_post answers with the created post |
| Posts.GetAfterCreate | app/main_psycopg.py:130-196 | after create_post, get_post of an id already present still finds its old first entry. The drawn id finds the new post only when it was absent. Other ids still answer 404 |
| Posts.GetAfterDelete | app/main_psycopg.py:188-230 | when ids are unique, get_post after delete_post of the same id answers 404 |
| Posts.GetAfterDeleteWithDuplicate | app/main_psycopg.py:132-133 | after a create that draws id 1 on the seed list, the ids are no longer unique, and get_post after delete_post of id 1 still finds the new post |
| Posts.LatestIsNotLargestId | app/main_psycopg.py:158-159 | after a create that draws id 0 on the seed list, the latest post has id 0 although an entry with a larger id exists |
| Posts.CreateKeepsUniqueIds | app/main_psycopg.py:132-133 | create_post keeps ids unique when the drawn id is not already in the list |
| Posts.DeleteKeepsUniqueIds | app/main_psycopg.py:223-229 | delete_post keeps ids unique |
| Posts.UpdateKeepsUniqueIds | app/main_psycopg.py:260-266 | update_post keeps ids unique, since the overwritten entry keeps its id |
| FallbackStore.PostList.constructor | app/main_psycopg.py:40-50 | the store starts out holding the seed list |
| FallbackStore.PostList.CreatePost | app/main_psycopg.py:130-134 | the new list and the answer are those of Create on the old list. The old list is a prefix, and get_latest_post then answers with the created post |
| FallbackStore.PostList.DeletePost | app/main_psycopg.py:221-230 | the new list and the answer are those of Delete on the old list; a 404 leaves the list untouched |
| FallbackStore.PostList.UpdatePost | app/main_psycopg.py:258-267 | the new list and the answer are those of Update on the old list; a 404 leaves the list untouched; after a successful update, get_post of the id answers with the stored entry |

## Left out

- The database branches of every handler, the table creation (lines 52-69) and `connect_to_database` with its retries and sleeps (lines 17-47). They are SQL run by PostgreSQL and network I/O. The model is the store as it is once the connection has failed.
- `randrange(0, 1000000)` (line 132): the drawn id is a parameter of `Create` and `CreatePost`, and the model requires it to be in range.
- The seed dictionaries (lines 49-50) have no `published` or `rating` keys. The model gives them the body's defaults, true and none, so it does not capture that those two keys are absent from the answers for the seed posts.
- The `if not post` check of `create_post` (lines 103-107) is not modelled. A validated body object is always truthy, so that 400 branch cannot be taken. Request validation by the web framework happens before the handler and is not part of this model.
- `get_default`, logging, HTTP status codes other than the 204/404 distinction, and serialization to JSON.
- Aliasing: the handlers return the very dictionary stored in the list, and the model returns values instead. No handler changes a dictionary after storing it, so answers are the same.
- Concurrency around `my_posts`: the handlers run one at a time in the model.
- The user, authentication and token code (`app/oauth2.py`, `app/roturs/`), the ORM variant (`app/main_alchemy.py`, `app/database.py`) and the settings and schema declarations (`app/config.py`, `app/schema.py`) are not part of this model.
