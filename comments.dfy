/** The comment thread under a task, and who may read it. */
module Comments {
  import opened Types
  import opened Db
  import opened Query
  import opened Text
  import Tasks

  /** The `CommentOut` response. */
  datatype CommentOut = CommentOut(
    id: int,
    taskId: int,
    userId: int,
    userName: string,
    content: string,
    createdAt: int,
    canDelete: bool)

  /** `can_view_task`: admins; otherwise the direct assignee, a user of the task's team
      (by team id, only when the task has a non-zero team id), or a member of the task's
      pool. Any one channel suffices. */
  predicate CanViewTask(taskId: int, task: Task, uid: int, user: User, pool: set<(int, int)>) {
    user.role == Admin
    || task.assignedTo == Some(uid)
    || (Truthy(task.assignedTeamId) && user.teamId == task.assignedTeamId)
    || (taskId, uid) in pool
  }

  /** Each channel alone grants the view, and for a non-admin nothing else does: a task
      with no team id is never visible through the team channel, even to a user without a
      team. */
  lemma ViewChannels(taskId: int, task: Task, uid: int, user: User, pool: set<(int, int)>)
    ensures (taskId, uid) in pool ==> CanViewTask(taskId, task, uid, user, pool)
    ensures task.assignedTo == Some(uid) ==> CanViewTask(taskId, task, uid, user, pool)
    ensures task.assignedTeamId.None? && user.teamId.None? && user.role != Admin
            && task.assignedTo != Some(uid) && (taskId, uid) !in pool
            ==> !CanViewTask(taskId, task, uid, user, pool)
    ensures CanViewTask(taskId, task, uid, user, pool) && user.role != Admin
            && task.assignedTo != Some(uid) && (taskId, uid) !in pool
            ==> task.assignedTeamId.Some? && task.assignedTeamId == user.teamId
  {
  }

  /** The view rule and `can_modify_task` are different rules: a pool member may view a
      task but not modify it, and a MEDIA member may modify a MEDIA-tagged task whose team
      id is unset but not view it. */
  lemma ViewAndModifyDiffer(taskId: int, task: Task, uid: int, user: User, pool: set<(int, int)>)
    requires user.role == Member && task.assignedTo != Some(uid)
    ensures (taskId, uid) in pool && task.assignedTeamTag != Some(MEDIA) ==>
      CanViewTask(taskId, task, uid, user, pool) && !Tasks.CanModifyTask(task, uid, user)
    ensures task.assignedTeamTag == Some(MEDIA) && user.teamTag == Some(MEDIA)
            && task.assignedTeamId.None? && (taskId, uid) !in pool ==>
      Tasks.CanModifyTask(task, uid, user) && !CanViewTask(taskId, task, uid, user, pool)
  {
  }

  /** The filter `TaskComment.task_id == task_id`. */
  function OfTask(taskId: int): Comment -> bool {
    (c: Comment) => c.taskId == taskId
  }

  function CreatedAt(c: Comment): int {
    c.createdAt
  }

  /** A comment as `get_comments` shows it to the user `uid`. */
  function ToOut(id: int, c: Comment, users: map<int, User>, uid: int, user: User): CommentOut {
    CommentOut(id, c.taskId, c.userId,
               if c.userId in users then users[c.userId].displayName else "Unknown",
               c.content, c.createdAt,
               c.userId == uid || user.role == Admin)
  }

  /** `get_comments`: 404 for a missing task, 403 when the caller may not view it, else
      every comment of the task once, oldest first, each marked deletable exactly when the
      caller wrote it or is an admin. */
  method GetComments(db: Store, taskId: int, uid: int, user: User) returns (r: Result<seq<CommentOut>>)
    ensures taskId !in db.tasks <==> r == NotFound
    ensures r == Forbidden <==> taskId in db.tasks && !CanViewTask(taskId, db.tasks[taskId], uid, user, db.pool)
    ensures r.Ok? <==> taskId in db.tasks && CanViewTask(taskId, db.tasks[taskId], uid, user, db.pool)
    ensures r.Ok? ==> forall k :: k in db.comments && db.comments[k].taskId == taskId <==>
                                  exists i :: 0 <= i < |r.value| && r.value[i].id == k
    ensures r.Ok? ==> forall i, j :: 0 <= i < j < |r.value| ==> r.value[i].id != r.value[j].id
    ensures r.Ok? ==> forall i :: 0 <= i < |r.value| ==>
      r.value[i].id in db.comments && r.value[i].taskId == taskId
      && r.value[i] == ToOut(r.value[i].id, db.comments[r.value[i].id], db.users, uid, user)
      && (r.value[i].canDelete <==> r.value[i].userId == uid || user.role == Admin)
    ensures r.Ok? ==> forall i, j :: 0 <= i < j < |r.value| ==> r.value[i].createdAt <= r.value[j].createdAt
  {
    if taskId !in db.tasks {
      return NotFound;
    }
    if !CanViewTask(taskId, db.tasks[taskId], uid, user, db.pool) {
      return Forbidden;
    }
    var ks := SelectOrdered(db.comments, OfTask(taskId), CreatedAt);
    var out: seq<CommentOut> := [];
    var i := 0;
    while i < |ks|
      invariant 0 <= i <= |ks| && |out| == i
      invariant forall j :: 0 <= j < i ==> out[j] == ToOut(ks[j], db.comments[ks[j]], db.users, uid, user)
    {
      out := out + [ToOut(ks[i], db.comments[ks[i]], db.users, uid, user)];
      i := i + 1;
    }
    forall k | k in db.comments && db.comments[k].taskId == taskId
      ensures exists i :: 0 <= i < |out| && out[i].id == k
    {
      InSetMultiset(ks, Where(db.comments, OfTask(taskId)), k);
      var i :| 0 <= i < |ks| && ks[i] == k;
      assert out[i].id == k;
    }
    forall i, j | 0 <= i < j < |out| ensures out[i].id != out[j].id {
      DistinctFromSet(ks, Where(db.comments, OfTask(taskId)), i, j);
    }
    return Ok(out);
  }

  /** What a successful `add_comment` stores is canonical: stripping it again changes
      nothing, and it is never empty. */
  lemma StoredContentCanonical(content: string)
    requires !Blank(content)
    ensures Strip(content) != [] && Strip(Strip(content)) == Strip(content)
  {
    StripEmptyIffBlank(content);
    StripIdempotent(content);
  }

  /** `add_comment`: 404, then 403 as for reading; 400 when the stripped content is empty
      (by `StripEmptyIffBlank`, exactly when it is only whitespace);
      otherwise one new comment by the caller with the stripped content, stamped `now`. */
  method AddComment(db: Store, taskId: int, uid: int, user: User, content: string, now: int)
    returns (r: Result<CommentOut>)
    requires db.Valid()
    modifies db`comments, db`nextId
    ensures db.Valid()
    ensures taskId !in db.tasks ==> r == NotFound && db.comments == old(db.comments)
    ensures taskId in db.tasks && !CanViewTask(taskId, db.tasks[taskId], uid, user, db.pool) ==>
      r == Forbidden && db.comments == old(db.comments)
    ensures taskId in db.tasks && CanViewTask(taskId, db.tasks[taskId], uid, user, db.pool) && Strip(content) == [] ==>
      r == BadRequest && db.comments == old(db.comments)
    ensures taskId in db.tasks && CanViewTask(taskId, db.tasks[taskId], uid, user, db.pool) && Strip(content) != [] ==>
      r.Ok? && r.value.id !in old(db.comments)
      && db.comments == old(db.comments)[r.value.id := Comment(taskId, uid, Strip(content), now)]
      && r.value == CommentOut(r.value.id, taskId, uid, user.displayName, Strip(content), now, true)
  {
    if taskId !in db.tasks {
      return NotFound;
    }
    if !CanViewTask(taskId, db.tasks[taskId], uid, user, db.pool) {
      return Forbidden;
    }
    var text := Strip(content);
    if text == [] {
      return BadRequest;
    }
    var id := InsertComment(db, Comment(taskId, uid, text, now));
    return Ok(CommentOut(id, taskId, uid, user.displayName, text, now, true));
  }

  /** `db.add(comment); db.commit()`: the row gets a fresh primary key. */
  method InsertComment(db: Store, c: Comment) returns (id: int)
    requires db.Valid()
    modifies db`comments, db`nextId
    ensures db.Valid() && id !in old(db.comments) && db.comments == old(db.comments)[id := c]
  {
    id := db.NewId();
    db.comments := db.comments[id := c];
  }

  /** `delete_comment`: 404 unless the comment exists under that task; 403 unless the
      caller wrote it or is an admin; otherwise that comment alone is removed. */
  method DeleteComment(db: Store, taskId: int, commentId: int, uid: int, user: User) returns (r: Result<()>)
    modifies db`comments
    ensures commentId !in old(db.comments) || old(db.comments)[commentId].taskId != taskId ==>
      r == NotFound && db.comments == old(db.comments)
    ensures commentId in old(db.comments) && old(db.comments)[commentId].taskId == taskId
            && old(db.comments)[commentId].userId != uid && user.role != Admin ==>
      r == Forbidden && db.comments == old(db.comments)
    ensures commentId in old(db.comments) && old(db.comments)[commentId].taskId == taskId
            && (old(db.comments)[commentId].userId == uid || user.role == Admin) ==>
      r == Ok(()) && db.comments == old(db.comments) - {commentId}
  {
    if commentId !in db.comments || db.comments[commentId].taskId != taskId {
      return NotFound;
    }
    if db.comments[commentId].userId != uid && user.role != Admin {
      return Forbidden;
    }
    db.comments := db.comments - {commentId};
    return Ok(());
  }
}
