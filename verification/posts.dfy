/** The in-memory fallback post store of the raw-SQL variant of the Posts API.
    When no database connection exists, every post handler works on one
    module-level list of post dictionaries. This module holds the values
    (request bodies, stored records, handler responses) and the handlers
    as pure functions over that list; the class that owns the list and
    changes it in place is in module FallbackStore. */
module Posts {

  datatype Option<+T> = None | Some(value: T)

  /** New ids are drawn from randrange(0, IdBound). */
  const IdBound: int := 1000000

  /** The request body of a post: published defaults to true, rating to None. */
  datatype Post = Post(title: string, content: string, published: bool := true, rating: Option<int> := None)

  /** One entry of the list: the body's fields plus the "id" key. */
  datatype Record = Record(post: Post, id: int)

  /** The detail text of a 404 answer. */
  datatype Missing =
    | NoPostsFound          // "No posts found"
    | WasNotFound(id: int)  // "post with id: {id} was not found"
    | DoesNotExist(id: int) // "post with id: {id} does not exist"

  /** What a handler answers: {"data": post}, {"data": list}, an empty 204 or a 404. */
  datatype Response =
    | Data(record: Record)
    | DataList(records: seq<Record>)
    | NoContent
    | NotFound(detail: Missing)

  /** What a mutating handler answers and the list it leaves behind. */
  datatype Effect = Effect(response: Response, posts: seq<Record>)

  predicate HasId(s: seq<Record>, id: int)
  {
    exists j :: 0 <= j < |s| && s[j].id == id
  }

  /** No two entries share an id. The store does not enforce this. */
  predicate UniqueIds(s: seq<Record>)
  {
    forall i, j :: 0 <= i < j < |s| ==> s[i].id != s[j].id
  }

  /** The two posts the list starts with. */
  function Seed(): (s: seq<Record>)
    ensures |s| == 2 && UniqueIds(s)
  {
    [Record(Post("title of post 1", "content of post 1"), 1),
     Record(Post("title of post 2", "content of post 2"), 2)]
  }

  /** The index the generator scan `next(i for i, p in enumerate(posts) if p["id"] == id)`
      stops at: the first entry with that id, scanning from the front. */
  function FirstIndex(s: seq<Record>, id: int): (r: Option<nat>)
    ensures r.Some? ==> r.value < |s| && s[r.value].id == id
    ensures r.Some? ==> forall j :: 0 <= j < r.value ==> s[j].id != id
    ensures r.None? <==> !HasId(s, id)
  {
    if |s| == 0 then None
    else if s[0].id == id then Some(0)
    else match FirstIndex(s[1..], id)
      case None => None
      case Some(i) => Some(i + 1)
  }

  /** get_posts: the whole list, in list order. */
  function GetPosts(s: seq<Record>): (r: Response)
    ensures r.DataList? && r.records == s
  {
    DataList(s)
  }

  /** get_latest_post: the last entry by position, or 404 when the list is empty. */
  function GetLatestPost(s: seq<Record>): (r: Response)
    ensures r.NotFound? <==> |s| == 0
    ensures r.NotFound? ==> r.detail == NoPostsFound
    ensures !r.NotFound? ==> r.Data? && r.record == s[|s| - 1]
  {
    if |s| > 0 then Data(s[|s| - 1]) else NotFound(NoPostsFound)
  }

  /** get_post: the first entry carrying the id, or 404. */
  function GetPost(s: seq<Record>, id: int): (r: Response)
    ensures r.Data? <==> HasId(s, id)
    ensures !r.Data? ==> r == NotFound(WasNotFound(id))
    ensures r.Data? ==> r.record.id == id
    ensures r.Data? ==>
      exists i :: 0 <= i < |s| && s[i] == r.record && forall j :: 0 <= j < i ==> s[j].id != id
  {
    match FirstIndex(s, id)
    case None => NotFound(WasNotFound(id))
    case Some(i) => Data(s[i])
  }

  /** create_post: append the body with the freshly drawn id and answer with it. */
  function Create(s: seq<Record>, p: Post, newId: int): (r: Effect)
    requires 0 <= newId < IdBound
    ensures |r.posts| == |s| + 1 && s <= r.posts
    ensures r.posts[|s|] == Record(p, newId)
    ensures r.response == Data(r.posts[|s|])
  {
    var record := Record(p, newId);
    Effect(Data(record), s + [record])
  }

  /** delete_post: pop the first entry with the id and answer 204, or answer 404 and
      leave the list alone. */
  function Delete(s: seq<Record>, id: int): (r: Effect)
    ensures r.response.NotFound? <==> !HasId(s, id)
    ensures r.response.NotFound? ==> r == Effect(NotFound(DoesNotExist(id)), s)
    ensures FirstIndex(s, id).Some? ==>
      var i := FirstIndex(s, id).value;
      r.response == NoContent && |r.posts| == |s| - 1 &&
      r.posts[..i] == s[..i] && r.posts[i..] == s[i + 1..] &&
      multiset(r.posts) + multiset{s[i]} == multiset(s)
  {
    match FirstIndex(s, id)
    case None => Effect(NotFound(DoesNotExist(id)), s)
    case Some(i) =>
      assert s == s[..i] + [s[i]] + s[i + 1..];
      Effect(NoContent, s[..i] + s[i + 1..])
  }

  /** update_post: overwrite the first entry with the id by the new body, keeping the
      id, and answer with it; or answer 404 and leave the list alone. */
  function Update(s: seq<Record>, id: int, p: Post): (r: Effect)
    ensures r.response.NotFound? <==> !HasId(s, id)
    ensures r.response.NotFound? ==> r == Effect(NotFound(DoesNotExist(id)), s)
    ensures FirstIndex(s, id).Some? ==>
      var i := FirstIndex(s, id).value;
      |r.posts| == |s| && r.posts[i] == Record(p, id) &&
      (forall j :: 0 <= j < |s| && j != i ==> r.posts[j] == s[j]) &&
      r.response == Data(r.posts[i])
  {
    match FirstIndex(s, id)
    case None => Effect(NotFound(DoesNotExist(id)), s)
    case Some(i) => Effect(Data(Record(p, id)), s[i := Record(p, id)])
  }

  // ---------------------------------------------------------------------------
  // Properties of the handlers

  /** The scan's result is determined by its contract: an index carrying the id with
      no earlier one is the index the scan returns. */
  lemma FirstIndexIs(s: seq<Record>, id: int, i: nat)
    requires i < |s| && s[i].id == id
    requires forall j :: 0 <= j < i ==> s[j].id != id
    ensures FirstIndex(s, id) == Some(i)
  {
  }

  /** Reading back an updated post gives the new body under that id, even when other
      entries share the id, because both handlers use the first match. */
  lemma GetAfterUpdate(s: seq<Record>, id: int, p: Post)
    ensures GetPost(Update(s, id, p).posts, id) ==
      if HasId(s, id) then Data(Record(p, id)) else NotFound(WasNotFound(id))
  {
  }

  /** Updating twice with the same body is the same as updating once. */
  lemma UpdateIdempotent(s: seq<Record>, id: int, p: Post)
    ensures Update(Update(s, id, p).posts, id, p) == Update(s, id, p)
  {
  }

  /** The latest post right after a create is the created one. */
  lemma LatestAfterCreate(s: seq<Record>, p: Post, newId: int)
    requires 0 <= newId < IdBound
    ensures GetLatestPost(Create(s, p, newId).posts) == Create(s, p, newId).response
  {
  }

  /** After a create, an id already in the list still finds its old first entry: a new
      post whose drawn id collides is hidden from get_post. */
  lemma GetAfterCreate(s: seq<Record>, p: Post, newId: int, id: int)
    requires 0 <= newId < IdBound
    ensures GetPost(Create(s, p, newId).posts, id) ==
      if HasId(s, id) then GetPost(s, id)
      else if id == newId then Data(Record(p, newId))
      else NotFound(WasNotFound(id))
  {
  }

  /** With unique ids, reading a deleted id back gives 404. */
  lemma GetAfterDelete(s: seq<Record>, id: int)
    requires UniqueIds(s)
    ensures GetPost(Delete(s, id).posts, id) == NotFound(WasNotFound(id))
  {
  }

  /** Without unique ids the previous lemma fails: starting from the seed list, a create
      that draws id 1 and then a delete of id 1 leaves the new post readable under id 1. */
  lemma GetAfterDeleteWithDuplicate(p: Post)
    ensures var s := Create(Seed(), p, 1).posts;
      !UniqueIds(s) && GetPost(Delete(s, 1).posts, 1) == Data(Record(p, 1))
  {
  }

  /** The latest post is the last one appended, not the one with the largest id. */
  lemma LatestIsNotLargestId(p: Post)
    ensures var s := Create(Seed(), p, 0).posts;
      GetLatestPost(s) == Data(Record(p, 0)) && s[1].id > GetLatestPost(s).record.id
  {
  }

  /** Creating a post whose drawn id is new keeps ids unique. */
  lemma CreateKeepsUniqueIds(s: seq<Record>, p: Post, newId: int)
    requires 0 <= newId < IdBound
    requires UniqueIds(s) && !HasId(s, newId)
    ensures UniqueIds(Create(s, p, newId).posts)
  {
  }

  /** Deleting keeps ids unique. */
  lemma DeleteKeepsUniqueIds(s: seq<Record>, id: int)
    requires UniqueIds(s)
    ensures UniqueIds(Delete(s, id).posts)
  {
  }

  /** Updating keeps ids unique: the overwritten entry keeps its id. */
  lemma UpdateKeepsUniqueIds(s: seq<Record>, id: int, p: Post)
    requires UniqueIds(s)
    ensures UniqueIds(Update(s, id, p).posts)
  {
  }
}
