/** The three Mongo collections, each a map from document id to document, and the facts about
    them that the handlers keep. */
module Store {
  import opened UserModel
  import opened TaskModel

  class Db {
    var users: map<UserId, User>
    var tasks: map<TaskId, Task>
    var comments: map<CommentId, Comment>

    constructor ()
      ensures users == map[] && tasks == map[] && comments == map[]
    {
      users, tasks, comments := map[], map[], map[];
    }
  }

  /** Every task belongs to a stored user. */
  ghost predicate OwnersExist(users: map<UserId, User>, tasks: map<TaskId, Task>) {
    forall id :: id in tasks ==> tasks[id].userId in users
  }

  /** No two users share a username or an email (the schema's unique indexes). */
  ghost predicate UniqueLogins(users: map<UserId, User>) {
    forall a, b :: a in users && b in users && a != b ==>
      users[a].username != users[b].username && users[a].email != users[b].email
  }

  /** The tasks of `owner` that are not soft-deleted. */
  function ActiveTasksOf(tasks: map<TaskId, Task>, owner: UserId): set<TaskId> {
    set id | id in tasks && tasks[id].userId == owner && !tasks[id].isDeleted
  }
}
