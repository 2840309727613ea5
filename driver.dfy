/** The part of `get_comments` after the session is set up: scan the posts,
    stop when the queue is empty, otherwise write the posts table and the
    concatenation, in queue order, of the comment rows of every queued post. */
module Driver {

  import opened Wrappers
  import opened Vk
  import opened PostScan
  import opened CommentExport

  /** What is handed to the CSV sink: `posts.csv` and `comments.csv`, each
      either written with these rows or not written at all. */
  datatype Output = Output(postsCsv: Option<seq<PostRow>>, commentsCsv: Option<seq<CommentRow>>)

  /** The comment rows of every queued post, in queue order. */
  function QueueComments(clubId: int, queue: seq<WorkItem>, getComments: (int, int) -> seq<Comment>): seq<CommentRow> {
    if queue == [] then []
    else Flatten(clubId, queue[0].postId, getComments(queue[0].postId, PageSize(queue[0].commentsCount)))
         + QueueComments(clubId, queue[1..], getComments)
  }

  /** What a run writes, as a function of the wall, the comment responses and
      the command-line values. */
  function Export(wall: seq<Post>, getComments: (int, int) -> seq<Comment>,
                  clubId: int, depth: int, now: int, filter: string): Output
  {
    var accepted := Accepted(wall, PostTimeLimit(now, depth), filter);
    if accepted == [] then Output(None, None)
    else Output(Some(PostRows(clubId, accepted)), Some(QueueComments(clubId, Queue(accepted), getComments)))
  }

  lemma {:induction false} QueueCommentsConcat(clubId: int, a: seq<WorkItem>, b: seq<WorkItem>,
                                               getComments: (int, int) -> seq<Comment>)
    ensures QueueComments(clubId, a + b, getComments)
         == QueueComments(clubId, a, getComments) + QueueComments(clubId, b, getComments)
  {
    if a == [] {
      assert a + b == b;
    } else {
      assert (a + b)[0] == a[0] && (a + b)[1..] == a[1..] + b;
      QueueCommentsConcat(clubId, a[1..], b, getComments);
    }
  }

  lemma QueueCommentsAppend(clubId: int, queue: seq<WorkItem>, i: nat, getComments: (int, int) -> seq<Comment>)
    requires i < |queue|
    ensures QueueComments(clubId, queue[..i + 1], getComments)
         == QueueComments(clubId, queue[..i], getComments)
            + Flatten(clubId, queue[i].postId, getComments(queue[i].postId, PageSize(queue[i].commentsCount)))
  {
    assert queue[..i + 1] == queue[..i] + [queue[i]];
    QueueCommentsConcat(clubId, queue[..i], [queue[i]], getComments);
  }

  /** Every comment row belongs to a queued post and is well formed for it. */
  lemma {:induction false} QueueCommentsBelongToQueue(clubId: int, queue: seq<WorkItem>,
                                                      getComments: (int, int) -> seq<Comment>)
    ensures forall r :: r in QueueComments(clubId, queue, getComments) ==>
      exists k :: 0 <= k < |queue| && queue[k].postId == r.postId && WellFormedCommentRow(clubId, queue[k].postId, r)
  {
    if queue != [] {
      var w := queue[0];
      var first := Flatten(clubId, w.postId, getComments(w.postId, PageSize(w.commentsCount)));
      FlattenWellFormed(clubId, w.postId, getComments(w.postId, PageSize(w.commentsCount)));
      QueueCommentsBelongToQueue(clubId, queue[1..], getComments);
      forall r | r in QueueComments(clubId, queue, getComments)
        ensures exists k :: 0 <= k < |queue| && queue[k].postId == r.postId && WellFormedCommentRow(clubId, queue[k].postId, r)
      {
        if r in first {
          assert queue[0].postId == r.postId && WellFormedCommentRow(clubId, queue[0].postId, r);
        } else {
          var k :| 0 <= k < |queue[1..]| && queue[1..][k].postId == r.postId
                   && WellFormedCommentRow(clubId, queue[1..][k].postId, r);
          assert queue[k + 1] == queue[1..][k];
        }
      }
    }
  }

  /** Parent linkage holds across the whole comments table. */
  lemma {:induction false} QueueCommentsParentLinked(clubId: int, queue: seq<WorkItem>,
                                                     getComments: (int, int) -> seq<Comment>)
    ensures ParentLinked(QueueComments(clubId, queue, getComments))
  {
    if queue != [] {
      var w := queue[0];
      FlattenParentLinked(clubId, w.postId, getComments(w.postId, PageSize(w.commentsCount)));
      QueueCommentsParentLinked(clubId, queue[1..], getComments);
      ParentLinkedConcat(Flatten(clubId, w.postId, getComments(w.postId, PageSize(w.commentsCount))),
                         QueueComments(clubId, queue[1..], getComments));
    }
  }

  /** A run writes both tables or neither; when it writes them, every comment
      row belongs to an exported post and the comments are parent-linked. */
  lemma ExportCommentsBelongToPosts(wall: seq<Post>, getComments: (int, int) -> seq<Comment>,
                                    clubId: int, depth: int, now: int, filter: string)
    ensures var out := Export(wall, getComments, clubId, depth, now, filter);
      && (out.postsCsv.None? <==> out.commentsCsv.None?)
      && (out.commentsCsv.Some? ==>
            && ParentLinked(out.commentsCsv.value)
            && forall r :: r in out.commentsCsv.value ==>
                 exists k :: 0 <= k < |out.postsCsv.value| && out.postsCsv.value[k].id == r.postId)
  {
    var accepted := Accepted(wall, PostTimeLimit(now, depth), filter);
    var queue := Queue(accepted);
    QueueCommentsBelongToQueue(clubId, queue, getComments);
    QueueCommentsParentLinked(clubId, queue, getComments);
    RowsMatchQueue(clubId, accepted);
  }

  /** The loop of lines 203-214: `comments_df` starts as None, takes a copy
      of the first post's rows and is then extended by concatenation. */
  method CollectComments(clubId: int, queue: seq<WorkItem>, getComments: (int, int) -> seq<Comment>)
    returns (commentsDf: Option<seq<CommentRow>>)
    ensures commentsDf.None? <==> queue == []
    ensures commentsDf.Some? ==> commentsDf.value == QueueComments(clubId, queue, getComments)
  {
    commentsDf := None;
    var i := 0;
    while i < |queue|
      invariant 0 <= i <= |queue|
      invariant commentsDf.None? <==> i == 0
      invariant commentsDf.Some? ==> commentsDf.value == QueueComments(clubId, queue[..i], getComments)
    {
      var postComments := ExportComments(clubId, queue[i].postId, queue[i].commentsCount, getComments);
      var rows := postComments.Rows();
      QueueCommentsAppend(clubId, queue, i, getComments);
      if commentsDf.None? {
        assert queue[..i] == [];
        commentsDf := Some(rows);
      } else {
        commentsDf := Some(commentsDf.value + rows);
      }
      i := i + 1;
    }
    assert queue[..i] == queue;
  }

  /** `get_comments` from the scan on: `wall` is the `wall.get` response and
      `getComments` the `wall.getComments` responses. The early return comes
      before `posts.csv` is written. */
  method GetComments(wall: seq<Post>, getComments: (int, int) -> seq<Comment>,
                     clubId: int, depth: int, now: int, filter: string)
    returns (out: Output)
    ensures out == Export(wall, getComments, clubId, depth, now, filter)
    ensures out.postsCsv.None? <==> Accepted(wall, PostTimeLimit(now, depth), filter) == []
  {
    var posts, queue, exportedCount := ExportPosts(wall, clubId, depth, now, filter);
    if |queue| == 0 {
      return Output(None, None);
    }
    var postsCsv := posts.Rows();
    var commentsDf := CollectComments(clubId, queue, getComments);
    out := Output(Some(postsCsv), commentsDf);
  }
}
