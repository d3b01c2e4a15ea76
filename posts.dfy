/** Posts: liking, commenting (with the notifications these raise), deleting,
    and the page/limit arithmetic of the feed. */
module Posts {
  import opened Common
  import opened Models
  import Paging

  /** A comment row. */
  datatype CommentRow = CommentRow(id: Id, postId: Id, authorId: Id, content: string)

  /** The notification a like or comment raises for the post's author, before the
      creation hook stamps it. */
  function Notice(author: Id, actor: Id, kind: string, postId: Id, commentId: Option<Id>): Notification {
    Notification(BaseModel("", 0, 0), author, actor, kind, false, Some(postId), commentId)
  }

  /** The posts (by id, with their author), the likes and the comments. */
  class PostBoard {
    var authors: map<Id, Id>
    var likes: set<LikeKey>
    var comments: seq<CommentRow>

    constructor (authors: map<Id, Id>)
      ensures this.authors == authors && likes == {} && comments == []
    {
      this.authors := authors;
      likes := {};
      comments := [];
    }

    /** ToggleLike: an existing like of the caller is deleted; otherwise one is
        created (the foreign key refuses a missing post) and, when the post is
        not the caller's own, a LIKE notification is attempted for its author.
        A failing notification is only logged. */
    method ToggleLike(notes: NotificationStore, userId: Id, postId: Id,
                      noteId: Id, clock1: int, clock2: int,
                      deleteFails: bool, createFails: bool, noteFails: bool)
      returns (status: Status)
      modifies this, notes
      ensures authors == old(authors) && comments == old(comments)
      ensures status == OK || status == InternalServerError
      ensures status == OK <==>
        if LikeKey(postId, userId) in old(likes) then !deleteFails
        else !createFails && postId in authors
      ensures status == OK ==> likes == Flip(old(likes), LikeKey(postId, userId))
      ensures status != OK ==> likes == old(likes)
      ensures notes.rows == old(notes.rows) || (
        status == OK && LikeKey(postId, userId) !in old(likes) && authors[postId] != userId
        && notes.rows == old(notes.rows)
             + [NotificationBeforeCreate(Notice(authors[postId], userId, Like, postId, None),
                                         noteId, clock1, clock2).value])
      ensures (status == OK && LikeKey(postId, userId) !in old(likes) && authors[postId] != userId
               && !noteFails && !old(notes.IdTaken(noteId))) ==> notes.rows != old(notes.rows)
    {
      var key := LikeKey(postId, userId);
      if key in likes {
        if deleteFails {
          return InternalServerError;
        }
        likes := likes - {key};
        return OK;
      }
      if createFails || postId !in authors {
        return InternalServerError;
      }
      likes := likes + {key};
      var author := authors[postId];
      if author != userId {
        var _ := notes.Create(Notice(author, userId, Like, postId, None), noteId, clock1, clock2, noteFails);
      }
      status := OK;
    }

    /** CreateComment: 400 for a body that does not parse; the comment insert
        fails (500) on a database error, a missing post or a taken id; a failing
        re-read of the created comment answers 500 with the comment kept and no
        notification. Otherwise a COMMENT notification is attempted for the
        post's author unless the author is the commenter, and 201 is answered. */
    method CreateComment(notes: NotificationStore, userId: Id, postId: Id, body: Option<string>,
                         commentId: Id, noteId: Id, clock1: int, clock2: int,
                         createFails: bool, fetchFails: bool, noteFails: bool)
      returns (status: Status)
      modifies this, notes
      ensures authors == old(authors) && likes == old(likes)
      ensures var inserted := body.Some? && !createFails && postId in authors
                              && (forall k :: 0 <= k < |old(comments)| ==> old(comments)[k].id != commentId);
        (inserted ==> comments == old(comments) + [CommentRow(commentId, postId, userId, body.value)])
        && (!inserted ==> comments == old(comments))
        && (status == Created <==> inserted && !fetchFails)
      ensures body.None? ==> status == BadRequest
      ensures notes.rows == old(notes.rows) || (
        status == Created && authors[postId] != userId
        && notes.rows == old(notes.rows)
             + [NotificationBeforeCreate(Notice(authors[postId], userId, Comment, postId, Some(commentId)),
                                         noteId, clock1, clock2).value])
      ensures (status == Created && authors[postId] != userId && !noteFails && !old(notes.IdTaken(noteId)))
              ==> notes.rows != old(notes.rows)
    {
      if body.None? {
        return BadRequest;
      }
      var taken := exists k :: 0 <= k < |comments| && comments[k].id == commentId;
      if createFails || postId !in authors || taken {
        return InternalServerError;
      }
      comments := comments + [CommentRow(commentId, postId, userId, body.value)];
      if fetchFails {
        return InternalServerError;
      }
      var author := authors[postId];
      if author != userId {
        var _ := notes.Create(Notice(author, userId, Comment, postId, Some(commentId)),
                              noteId, clock1, clock2, noteFails);
      }
      status := Created;
    }

    /** DeletePost: 404 when the lookup finds no post or reports an error
        (`lookupFails`), 403 unless the caller wrote it, 500 when the delete
        fails. Deleting a post cascades to its likes and its comments, and the
        notifications that pointed at the post or at one of those comments lose
        that reference (ON DELETE SET NULL). */
    method DeletePost(notes: NotificationStore, userId: Id, postId: Id, lookupFails: bool, deleteFails: bool)
      returns (status: Status)
      modifies this, notes
      ensures postId !in old(authors) || lookupFails ==> status == NotFound
      ensures postId in old(authors) && !lookupFails && old(authors)[postId] != userId ==> status == Forbidden
      ensures postId in old(authors) && !lookupFails && old(authors)[postId] == userId ==>
        status == (if deleteFails then InternalServerError else OK)
      ensures status == OK ==>
        authors == old(authors) - {postId}
        && likes == (set l | l in old(likes) && l.postId != postId)
        && comments == CommentsOff(old(comments), postId)
        && notes.rows == Detach(old(notes.rows), postId, CommentIdsOn(old(comments), postId))
      ensures status != OK ==>
        authors == old(authors) && likes == old(likes) && comments == old(comments)
        && notes.rows == old(notes.rows)
    {
      if lookupFails || postId !in authors {
        return NotFound;
      }
      if authors[postId] != userId {
        return Forbidden;
      }
      if deleteFails {
        return InternalServerError;
      }
      authors := authors - {postId};
      likes := set l | l in likes && l.postId != postId;
      notes.rows := Detach(notes.rows, postId, CommentIdsOn(comments, postId));
      comments := CommentsOff(comments, postId);
      status := OK;
    }
  }

  /** The ids of the comments on `postId`, those the post's deletion cascades away. */
  function CommentIdsOn(rows: seq<CommentRow>, postId: Id): (ids: set<Id>)
    ensures forall c :: c in rows && c.postId == postId ==> c.id in ids
    ensures forall id :: id in ids ==> exists c :: c in rows && c.postId == postId && c.id == id
  {
    set c | c in rows && c.postId == postId :: c.id
  }

  /** One notification after the two SET NULL actions: a reference to the
      deleted post or to a deleted comment becomes NULL. */
  function DetachOne(n: Notification, postId: Id, gone: set<Id>): Notification {
    n.(postId := if n.postId == Some(postId) then None else n.postId,
       commentId := if n.commentId.Some? && n.commentId.value in gone then None else n.commentId)
  }

  /** The notification table after deleting `postId` and the comments `gone`: no
      row points at any of them, and every other column and reference is kept. */
  function Detach(rows: seq<Notification>, postId: Id, gone: set<Id>): (r: seq<Notification>)
    ensures |r| == |rows|
    ensures forall k :: 0 <= k < |r| ==>
              r[k].postId != Some(postId) && (r[k].commentId.Some? ==> r[k].commentId.value !in gone)
    ensures forall k :: 0 <= k < |r| ==>
              && r[k].base == rows[k].base && r[k].userId == rows[k].userId
              && r[k].creatorId == rows[k].creatorId && r[k].kind == rows[k].kind && r[k].read == rows[k].read
    ensures forall k :: 0 <= k < |r| ==>
              && (rows[k].postId != Some(postId) ==> r[k].postId == rows[k].postId)
              && (rows[k].commentId.Some? && rows[k].commentId.value !in gone ==> r[k].commentId == rows[k].commentId)
  {
    seq(|rows|, k requires 0 <= k < |rows| => DetachOne(rows[k], postId, gone))
  }

  /** The comments left once those on `postId` are cascaded away, in order. */
  function CommentsOff(rows: seq<CommentRow>, postId: Id): (r: seq<CommentRow>)
    ensures forall c :: c in r <==> c in rows && c.postId != postId
    ensures |r| <= |rows|
  {
    if rows == [] then []
    else (if rows[0].postId == postId then [] else [rows[0]]) + CommentsOff(rows[1..], postId)
  }

  /** The paging values of GetPosts: the clamped page and limit, the offset as
      Go's `int` holds it, the rows the query skips and the page count. */
  datatype FeedPage = FeedPage(page: int, limit: int, offset: Paging.Int64, skip: nat, totalPages: nat)

  /** GetPosts: the page and limit as parsed (saturated to Go's `int`, 0 when the
      text is not a number), clamped. `(page - 1) * limit` wraps in 64 bits, and
      gorm leaves an OFFSET that is not positive out of the query. */
  function FeedPaging(page: Paging.Int64, limit: Paging.Int64, totalItems: nat): (r: FeedPage)
    ensures r.page == Paging.ClampPage(page) && r.limit == Paging.ClampLimit(limit)
    ensures r.page >= 1 && 1 <= r.limit <= 100
    ensures (r.offset - (r.page - 1) * r.limit) % Paging.Two64 == 0
    ensures (r.page - 1) * r.limit <= Paging.MaxInt64 ==> r.offset == (r.page - 1) * r.limit
    ensures (r.offset > 0 ==> r.skip == r.offset) && (r.offset <= 0 ==> r.skip == 0)
    ensures r.totalPages * r.limit >= totalItems && (totalItems > 0 ==> (r.totalPages - 1) * r.limit < totalItems)
  {
    var p := Paging.ClampPage(page);
    var l := Paging.ClampLimit(limit);
    Paging.MulMonotone(0, p - 1, l);
    var offset := Paging.Wrap64((p - 1) * l);
    FeedPage(p, l, offset, if offset > 0 then offset else 0, Paging.TotalPages(totalItems, l))
  }

  /** Where `(page - 1) * limit` fits in Go's `int`, the rows served start where
      the page's window starts. */
  lemma FeedOffsetIsWindowStart(page: Paging.Int64, limit: Paging.Int64, totalItems: nat)
    requires (Paging.ClampPage(page) - 1) * Paging.ClampLimit(limit) <= Paging.MaxInt64
    ensures var r := FeedPaging(page, limit, totalItems);
            Paging.Min(r.skip, totalItems) == Paging.Window(r.page, r.limit, totalItems).0
  {
    Paging.MulMonotone(0, Paging.ClampPage(page) - 1, Paging.ClampLimit(limit));
  }

  /** As written, the last page number wraps the offset to -20, gorm drops it, and
      the first ten posts are served instead of none. */
  lemma FeedHugePageServesFirst()
    ensures FeedPaging(Paging.MaxInt64, 10, 50).offset == -20
    ensures FeedPaging(Paging.MaxInt64, 10, 50).skip == 0
    ensures Paging.Window(Paging.MaxInt64, 10, 50).0 == 50
  {
    assert (Paging.MaxInt64 - 1) * 10 == 5 * Paging.Two64 - 20;
  }
}
