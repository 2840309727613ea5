/** Typed records for the parts of the VK API responses that the export reads,
    and the rows it writes. */
module Vk {

  import opened Wrappers

  /** An item of `wall.get`: `id`, `date` (seconds since the epoch), `text`
      and `comments.count`. */
  datatype Post = Post(id: int, date: int, text: string, commentsCount: int)

  /** The `thread` object of a top-level comment: its `count` and the thread
      `items` returned with it. */
  datatype Thread = Thread(count: int, items: seq<Comment>)

  /** An item of `wall.getComments` (or of a thread): `id`, `date`, `text`,
      `likes.count` and, when the key is present, `thread`. */
  datatype Comment = Comment(id: int, date: int, text: string, likes: int, thread: Option<Thread>)

  /** A queue entry: the post id and the comment count reported at scan time. */
  datatype WorkItem = WorkItem(postId: int, commentsCount: int)

  /** One row of the posts table: id, url, datetime, text, comments_number. */
  datatype PostRow = PostRow(id: int, url: string, datetime: int, text: string, commentsNumber: int)

  /** One row of the comments table: id, post_id, url, datetime, text,
      parent_comment_id, likes_number. */
  datatype CommentRow = CommentRow(id: int, postId: int, url: string, datetime: int, text: string,
                                   parentCommentId: int, likesNumber: int)
}
