# VK wall comment export, modelled in Dafny

The model covers the logic of `src/get_comments.py`, a script that exports one
VK community's recent wall posts and their comments into two tables.

- **Post scan (`export_posts`).** It walks the `wall.get` response newest first.
  - A post that fails a non-empty text filter is skipped, and the scan goes on.
  - A post older than `now - depth * 24 * 60 * 60` ends the scan.
  - Every other post adds one row (id, post URL, date, normalised text, comment
    count) to the columns of `posts`, and one `(id, count)` entry to the queue.
- **Comment export (`export_comments` with `append_comment`).** It flattens the
  `wall.getComments` response into the columns of `comments`.
  - Each top-level comment gives a row with parent 0.
  - Its thread items follow at once, with the top-level id as parent. This only
    happens when the thread is present and its count is non-zero.
  - The page size asked for is `max(100, number)`.
- **Normalisation (`REMOVE_LINEBREAKS`).** Every maximal run of `\n`/`\r`
  becomes one space.
- **URL templates.** The post URL and the comment URL, with the reply anchor.
- **Driver (`get_comments`).** If the queue is empty it returns before anything
  is written. Otherwise it writes the posts table, and then the comment rows of
  every queued post, concatenated in queue order.

How the code is laid out:

- The imperative parts stay imperative.
  - `PostScan.PostColumns` and `CommentExport.CommentColumns` are classes. Their
    fields are the column lists the script appends to.
  - `ExportPosts`, `AppendTopLevel`, `ExportComments` and `CollectComments` are
    the script's loops, including the `break`.
  - Each method is proved equal to a specification function (`Accepted`,
    `PostRows`, `Queue`, `Flatten`, `QueueComments`). The properties the
    program promises are lemmas about those functions.
- The VK API becomes plain inputs.
  - The `wall.get` response is a `seq<Post>`.
  - The `wall.getComments` responses are a function `getComments(postId, count)`
    giving the `items` of the successful response. The driver calls it with
    `count = max(100, number)`, as the script does.
- The clock is a parameter `now`, in whole seconds.

Modules:

| Module | Contents |
|---|---|
| `Wrappers` | `Option` |
| `Text` | normalisation, Python's `sub in s` test |
| `Decimal` | Python's `str(int)` in the f-strings |
| `Urls` | the two URL templates |
| `Vk` | the response records and the table rows |
| `PostScan` | the post scan |
| `CommentExport` | the comment export |
| `Driver` | the driver |
| `Scenarios` | concrete runs |

Two details of the code that the model keeps:

- **Column order.** The dict literal at lines 119-127 fixes the columns of
  the comments table as `id, post_id, url, datetime, text, parent_comment_id,
  likes_number`, so `CommentRow` has `parent_comment_id` before
  `likes_number`. `AppendComment` still appends likes before the parent, as
  lines 139-140 do.
- **Queueing.** Every accepted post is queued whatever its comment count
  (line 97). The queue is empty only when no post is accepted, and then
  `posts.csv` is not written either (lines 196-201).

Rows marked *Proof step* in the table below are one-step unfoldings or append
steps that the loops and the other lemmas use. They are listed for
completeness, not as properties of the script.

## Model

| member | source | states |
|---|---|---|
| Urls.PostUrl | src/get_comments.py:88-90 | The post URL `https://vk.com/club{club_id}?w=wall-{club_id}_{id}`, built from the decimal renderings of the two ids. |
| Urls.CommentUrl | src/get_comments.py:132-134 | The comment URL `https://vk.com/wall-{club_id}_{post_id}?reply={anchor}`. |
| Decimal.IntToString | src/get_comments.py:89 | Python's `str(i)` for an integer: decimal digits, with '-' in front of a negative value. |
| Text.Contains | src/get_comments.py:81 | Python's `filter in text`: some position of the text starts an exact copy of the filter. |
| Text.Normalised | src/get_comments.py:12 | Reference definition for the normalisation. It reads one character at a time: a line break becomes a space unless the character before it was also a line break, in which case it is dropped. |
| PostScan.PostTimeLimit | src/get_comments.py:64 | `now - depth * 24 * 60 * 60`, the oldest date the scan accepts. |
| PostScan.PassesFilter | src/get_comments.py:81 | A post passes when the filter is empty or occurs in the post's raw text. |
| PostScan.StopsScan | src/get_comments.py:81-85 | A post stops the scan when it passes the filter and is dated strictly before the limit. |
| PostScan.Kept | src/get_comments.py:81-82 | Reference definition for the scan: a plain filter keeping, in order, the posts that pass. |
| PostScan.ToPostRow | src/get_comments.py:87-95 | The row of one accepted post: id, post URL, date, normalised text, comment count. |
| PostScan.PostRows | src/get_comments.py:87-95 | The posts table of a sequence of accepted posts, one row each, in order. |
| PostScan.Queue | src/get_comments.py:97 | The queue of a sequence of accepted posts: one `(id, comments.count)` entry each, in order. |
| CommentExport.ReplyAnchor | src/get_comments.py:133 | The id the reply URL points at: the parent id when it is non-zero, the comment's own id otherwise. |
| CommentExport.ToCommentRow | src/get_comments.py:129-140 | The row `append_comment` adds: id, post id, anchored URL, date, normalised text, parent id, likes. |
| CommentExport.WalkedThread | src/get_comments.py:155-156 | The thread items walked for a comment: all of them when `thread` is present with a non-zero count, none otherwise. |
| CommentExport.CommentBlock | src/get_comments.py:153-157 | The rows one response item adds: its own row with parent 0, then a reply row with its id as parent for each walked thread item. |
| CommentExport.Flatten | src/get_comments.py:152-157 | The rows of a whole response: the items' blocks in response order. |
| Driver.QueueComments | src/get_comments.py:204-214 | The comment rows of every queue entry, fetched with page size `max(100, count)`, concatenated in queue order. |
| Driver.Export | src/get_comments.py:192-217 | What a run writes. Nothing when the scan accepts no post; otherwise the posts table of the accepted posts and the comment rows of their queue. |
| Text.RemoveLineBreaks | src/get_comments.py:12 | Normalised text has no `\n` or `\r`. It is no longer than the input. It is empty exactly when the input is. |
| Text.RemoveLineBreaksIdentity | src/get_comments.py:12 | Text without line breaks comes back unchanged. |
| Text.RemoveLineBreaksIdempotent | src/get_comments.py:12 | Normalising twice gives the same as normalising once. |
| Text.RemoveLineBreaksConcat | src/get_comments.py:12 | Normalisation splits over a concatenation whose cut does not fall inside a run of line breaks. |
| Text.RemoveLineBreaksLeadingRun | src/get_comments.py:12 | A leading run of line breaks becomes exactly one space in front of the normalised rest. |
| Text.RemoveLineBreaksRun | src/get_comments.py:12 | A maximal run of line breaks between two parts becomes exactly one space between the two normalised parts. |
| Text.RemoveLineBreaksIsNormalised | src/get_comments.py:12 | The normalisation equals a one-character-at-a-time reference. Other characters are copied in order; the first line break of a run becomes a space; the rest of the run is dropped. |
| Text.DropLineBreaksSuffix | src/get_comments.py:12 | The part skipped after a run's first line break is all line breaks, and the rest is the remaining suffix. |
| Text.ContainsEmpty | src/get_comments.py:81 | The empty string occurs in every text, so an empty filter would admit every post even without its own test. |
| Decimal.NatToStringDigits | src/get_comments.py:89 | A rendered natural number is non-empty, all digits, and has no leading zero. |
| Decimal.ParseNatToString | src/get_comments.py:89 | Reading back a rendered natural number gives the number. |
| Decimal.IntToStringChars | src/get_comments.py:133 | A rendered integer is non-empty and holds only digits and '-'. |
| Decimal.IntToStringInjective | src/get_comments.py:133 | Different integers render differently. |
| Urls.NoSeparator | src/get_comments.py:89 | A rendered integer contains neither `?` nor `_`, the separators the templates use. |
| Urls.PostUrlInjective | src/get_comments.py:88-90 | A post URL `https://vk.com/club{club_id}?w=wall-{club_id}_{id}` determines the club id and the post id. |
| Urls.CommentUrlInjective | src/get_comments.py:132-134 | A comment URL `https://vk.com/wall-{club_id}_{post_id}?reply={anchor}` determines club, post and anchor. |
| PostScan.Accepted | src/get_comments.py:80-98 | The scan accepts at most as many posts as the feed holds. |
| PostScan.AcceptedStep | src/get_comments.py:80-98 | *Proof step.* At position i, the scan skips a post that fails the filter, stops at a passing post older than the limit, and otherwise accepts the post and goes on. |
| PostScan.ScanStep | src/get_comments.py:80-98 | *Proof step.* A step that does not stop the scan appends the post to what has been accepted exactly when the post passes the filter. |
| PostScan.AcceptedWithinWindow | src/get_comments.py:80-98 | Every accepted post is from the feed, passes the filter, and is not older than the limit. |
| PostScan.AcceptedIsKeptPrefix | src/get_comments.py:80-85 | The accepted posts are exactly the filter-passing posts before the first post that stops the scan, in feed order. The reference is a plain filter. |
| PostScan.AcceptedStopsAt | src/get_comments.py:83-85 | Nothing at or after a stopping post is accepted. |
| PostScan.AcceptedCons | src/get_comments.py:80-98 | *Proof step.* The scan at the head of a feed: skip, stop, or accept and go on. |
| PostScan.FilteredPostIsSkipped | src/get_comments.py:81-82 | A post that fails a non-empty filter can be removed anywhere in the feed without changing the result, even when it is older than the limit. The filter test comes before the date test. |
| PostScan.AcceptedAtLimit | src/get_comments.py:83 | A passing post dated exactly at the limit is accepted, and the scan goes on. |
| PostScan.RowsAndQueueAppend | src/get_comments.py:87-97 | *Proof step.* Accepting one more post adds exactly its row to the table and its (id, count) entry to the queue. |
| PostScan.RowsMatchQueue | src/get_comments.py:87-98 | Rows and queue have one entry per accepted post and agree on id and comment count. Each row's URL is the post template applied to its id, and its text has no line break. A post with 0 comments is queued too. |
| PostScan.PostColumns.constructor | src/get_comments.py:73 | The `posts` columns start empty and of equal length. |
| PostScan.PostColumns.AppendRow | src/get_comments.py:87-95 | One value is appended to each column. The columns stay equal in length, and the table gains exactly that row. |
| PostScan.ExportPosts | src/get_comments.py:52-103 | On a successful response, the table is the rows of the accepted posts and the queue is their (id, count) entries. `exported_posts_count` equals the queue length and the table length. |
| CommentExport.PageSize | src/get_comments.py:144 | The page size is at least 100 and at least `number`, and it is one of the two. |
| CommentExport.ReplyRowsAppend | src/get_comments.py:156-157 | *Proof step.* Walking one more thread item adds exactly its reply row. |
| CommentExport.FlattenConcat | src/get_comments.py:152-157 | Flattening the concatenation of two responses gives the first response's rows followed by the second's. |
| CommentExport.FlattenAppend | src/get_comments.py:152-157 | One more top-level comment adds exactly its block: its own row, then its walked replies. |
| CommentExport.FlattenLength | src/get_comments.py:152-157 | Total rows equal the top-level count plus the lengths of the walked threads. |
| CommentExport.FlattenWellFormed | src/get_comments.py:129-140 | Every row has the requested post id and text without line breaks. Its URL anchors at the parent when the parent is non-zero, and at its own id otherwise. |
| CommentExport.ParentLinkedConcat | src/get_comments.py:152-157 | Parent linkage survives concatenating two tables. |
| CommentExport.BlockParentLinked | src/get_comments.py:153-157 | Within one block, every reply follows its top-level row with no other top-level row in between. |
| CommentExport.FlattenParentLinked | src/get_comments.py:153-157 | Take any row with a non-zero parent. An earlier row of the same post has parent 0 and that id, and every row in between is a reply to the same parent. |
| CommentExport.CountTopLevelConcat | src/get_comments.py:153 | The number of parent-0 rows adds up over a concatenation. |
| CommentExport.CountTopLevelReplies | src/get_comments.py:156-157 | Thread rows of a non-zero parent are never counted as top-level. |
| CommentExport.FlattenTopLevelCount | src/get_comments.py:152-157 | When top-level ids are non-zero, there is exactly one parent-0 row per top-level comment of the response. |
| CommentExport.CommentColumns.constructor | src/get_comments.py:119-127 | The `comments` columns start empty and of equal length. |
| CommentExport.CommentColumns.AppendComment | src/get_comments.py:129-140 | `append_comment` adds one value to each column: id, post id, URL anchored at the parent or the comment, date, normalised text, parent, likes. The table gains exactly that row. |
| CommentExport.AppendTopLevel | src/get_comments.py:152-157 | One response item adds its parent-0 row, then a row per thread item with the item's id as parent, and the threads are walked only when present with a non-zero count. |
| CommentExport.ExportComments | src/get_comments.py:106-161 | On a successful response to the request of size `max(100, number)`, the table is the flattened response. |
| Driver.QueueCommentsConcat | src/get_comments.py:204-214 | The comment rows of two queues, one after the other, are the rows of the joined queue. |
| Driver.QueueCommentsAppend | src/get_comments.py:204-214 | One more queue entry appends exactly that post's flattened comments. |
| Driver.QueueCommentsBelongToQueue | src/get_comments.py:204-214 | Every accumulated comment row carries the post id of a queue entry, and is well formed for that post. |
| Driver.QueueCommentsParentLinked | src/get_comments.py:204-214 | Parent linkage holds over the whole accumulated comments table. |
| Driver.ExportCommentsBelongToPosts | src/get_comments.py:196-217 | A run writes both tables or neither. The comments written are parent-linked, and each belongs to a post in the posts table. |
| Driver.CollectComments | src/get_comments.py:203-216 | `comments_df` ends `None` exactly when the queue is empty. Otherwise it holds the per-post comment rows concatenated in queue order, so the write at line 216 happens for every non-empty queue. |
| Driver.GetComments | src/get_comments.py:192-217 | The output is the run's reference result. Nothing is written exactly when the scan accepts no post, which is the early return before `posts.csv`. |
| Scenarios.FilterScanExample | src/get_comments.py:80-85 | A six-post feed with filter "vote". Non-matching posts are skipped, one of them older than the limit. The first old matching post ends the scan, and a later in-window match is not reached. |
| Scenarios.PipelineExample | src/get_comments.py:196-217 | Two posts, one with no comments, and one with two top-level comments where the second has one reply. The run gives two post rows and three comment rows, and the reply's parent is the second comment's id. |

## Left out

- Authentication: `init` (lines 15-20) and the VK session. These are network calls; the responses are inputs.
- Logging: `setup_logging` and every `logging` call. This is I/O only.
- The click command line (lines 164-176) and `load_dotenv`/`os.getenv` (lines 185-188). The model takes club id, depth and filter as parameters.
- Output files: `DataFrame` and `to_csv` (lines 200-201, 205-217). The written tables are returned as `Output`. The index column that `comments.csv` is written with (line 217) is not modelled.
- Clock and time zone: `datetime.datetime.now()`, the float timestamp and the time zone (lines 63-66, 92, 136).
  - `now` is an integer parameter.
  - The `datetime` columns hold the raw integer `date`, not a zoned datetime.
- Exceptions: the handlers at lines 99-100 and 158-159 are not modelled. The model is the successful-response path only.
  - A failure part-way through an item leaves a partial table; the model does not capture that.
  - A `wall.get` failure leaves `queue` and `exported_posts_count` unbound at lines 102-103, and the model makes no claim about that either.
- Server-side limits: `count=100` for `wall.get` (line 76) and `thread_items_count=10` (line 145) are applied by the server.
  - The wall and thread responses are taken as given.
  - `owner_id=-club_id`, `filter="owner"` and `need_likes=1` select what the server returns, and are not modelled.
- Logged totals: the count logged at line 219 is not modelled.
- CommentExport.FlattenParentLinked: this proves that each reply is linked to the nearest preceding top-level row. It does not prove that this row is the only row with that id, because comment ids are not checked for uniqueness anywhere in the script.
- CommentExport.FlattenTopLevelCount: this requires non-zero top-level ids. A top-level comment with id 0 would give its replies parent 0, which the script cannot tell from a top-level row.
