/** The module-level list `my_posts` that the post handlers change in place when no
    database connection exists. Each mutating handler is a method whose new list and
    answer are those given by the matching function of module Posts. */
module FallbackStore {
  import opened Posts

  class PostList {
    /** The posts, in the order they were appended. */
    var posts: seq<Record>

    /** The list as the module defines it at start-up. */
    constructor ()
      ensures posts == Seed()
    {
      posts := Seed();
    }

    /** create_post with the id that randrange(0, IdBound) drew. */
    method CreatePost(p: Post, newId: int) returns (r: Response)
      requires 0 <= newId < IdBound
      modifies this
      ensures Effect(r, posts) == Create(old(posts), p, newId)
      ensures old(posts) <= posts && GetLatestPost(posts) == r
    {
      var record := Record(p, newId);
      posts := posts + [record];
      r := Data(record);
    }

    /** delete_post: find the first index with the id, answer 404 before touching the
        list if there is none, otherwise pop that index. */
    method DeletePost(id: int) returns (r: Response)
      modifies this
      ensures Effect(r, posts) == Delete(old(posts), id)
      ensures r.NotFound? ==> posts == old(posts)
    {
      var index := FirstIndex(posts, id);
      if index.None? {
        r := NotFound(DoesNotExist(id));
        return;
      }
      var i := index.value;
      posts := posts[..i] + posts[i + 1..];
      r := NoContent;
    }

    /** update_post: find the first index with the id, answer 404 before touching the
        list if there is none, otherwise store the new body there under the same id. */
    method UpdatePost(id: int, p: Post) returns (r: Response)
      modifies this
      ensures Effect(r, posts) == Update(old(posts), id, p)
      ensures r.NotFound? ==> posts == old(posts)
      ensures r.Data? ==> GetPost(posts, id) == r
    {
      var index := FirstIndex(posts, id);
      if index.None? {
        r := NotFound(DoesNotExist(id));
        return;
      }
      var record := Record(p, id);
      posts := posts[index.value := record];
      r := Data(record);
      GetAfterUpdate(old(posts), id, p);
    }
  }
}
