/**
 * The comment handlers. A comment names its task and its author; only the author may delete it.
 * The comment text goes through the schema's trim setter and is then required.
 */
module CommentController {
  import opened Wrappers
  import opened Http
  import opened UserModel
  import opened TaskModel
  import Text
  import Validate
  import Store

  /** `getComments`: the comments whose task is `taskId`, whatever the state of that task. */
  function GetComments(comments: map<CommentId, Comment>, taskId: TaskId): (r: set<CommentId>)
    ensures r <= comments.Keys
    ensures forall id :: id in r ==> comments[id].taskId == taskId
  {
    set id | id in comments && comments[id].taskId == taskId
  }

  /** The document `Comment.create` stores: text trimmed, author the requester. */
  function NewComment(taskId: TaskId, requester: UserId, text: string, now: int): (c: Comment)
    ensures c.taskId == taskId && c.author == requester && c.createdAt == now
    ensures c.text == Text.Trim(text) && |c.text| <= |text|
  {
    Comment(taskId, requester, Text.Trim(text), now)
  }

  /** `createComment`, after the body passed `validateComment`: 404 when no task has the id (a
      soft-deleted task still does), 400 when the trimmed text is empty (the schema's `required`
      fails); otherwise the comment is stored under `newId`, the id the store generates. */
  method CreateComment(db: Store.Db, requester: UserId, taskId: TaskId, text: string, newId: CommentId, now: int)
    returns (reply: Reply<Comment>)
    requires newId !in db.comments
    modifies db`comments
    ensures taskId !in db.tasks ==> reply == Fail(404, "Task not found") && db.comments == old(db.comments)
    ensures taskId in db.tasks && Text.Trim(text) == "" ==>
      reply == Fail(400, "Error creating comment") && db.comments == old(db.comments)
    ensures taskId in db.tasks && Text.Trim(text) != "" ==>
      && db.comments == old(db.comments)[newId := NewComment(taskId, requester, text, now)]
      && reply == Ok(201, NewComment(taskId, requester, text, now))
  {
    if taskId !in db.tasks {
      return Fail(NOT_FOUND, "Task not found");
    }
    var comment := NewComment(taskId, requester, text, now);
    if comment.text == "" {
      return Fail(BAD_REQUEST, "Error creating comment");
    }
    db.comments := db.comments[newId := comment];
    reply := Ok(CREATED, comment);
  }

  /** A text of blanks passes `validateComment` but is refused on create. */
  lemma BlankTextPassesValidationOnly(text: string)
    requires 1 <= |text| <= 500 && forall k :: 0 <= k < |text| ==> Text.IsSpace(text[k])
    ensures Validate.ValidateComment(Some(text), {}).Next?
    ensures Text.Trim(text) == ""
  {
  }

  /** `deleteComment`: 404 for a missing id, 403 for anyone but the author; otherwise exactly that
      comment is removed. */
  method DeleteComment(db: Store.Db, requester: UserId, id: CommentId) returns (reply: Reply<string>)
    modifies db`comments
    ensures id !in old(db.comments) ==> reply == Fail(404, "Comment not found") && db.comments == old(db.comments)
    ensures id in old(db.comments) && old(db.comments)[id].author != requester ==>
      reply == Fail(403, "Not authorized to delete this comment") && db.comments == old(db.comments)
    ensures id in old(db.comments) && old(db.comments)[id].author == requester ==>
      reply == Ok(200, "Comment deleted successfully") && db.comments == old(db.comments) - {id}
  {
    if id !in db.comments {
      return Fail(NOT_FOUND, "Comment not found");
    }
    if db.comments[id].author != requester {
      return Fail(FORBIDDEN, "Not authorized to delete this comment");
    }
    db.comments := db.comments - {id};
    reply := Ok(OK, "Comment deleted successfully");
  }

  /** A created comment is listed under its task and nowhere else; a deleted one is listed nowhere,
      and the other comments of the task stay listed. */
  lemma ListingFollowsWrites(comments: map<CommentId, Comment>, newId: CommentId, c: Comment, taskId: TaskId)
    ensures newId in GetComments(comments[newId := c], taskId) <==> c.taskId == taskId
    ensures GetComments(comments - {newId}, taskId) == GetComments(comments, taskId) - {newId}
    ensures newId !in comments ==> GetComments(comments[newId := c], c.taskId) == GetComments(comments, c.taskId) + {newId}
  {
  }
}
