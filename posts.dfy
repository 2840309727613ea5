/** The post scan of `export_posts`: walk the newest-first wall, skip posts that
    fail the text filter, stop at the first remaining post older than the time
    limit, and emit a row and a queue entry for every other post. */
module PostScan {

  import opened Text
  import opened Urls
  import opened Vk

  /** `now - depth * 24 * 60 * 60`, computed once before the scan. */
  function PostTimeLimit(now: int, depth: int): int {
    now - depth * 24 * 60 * 60
  }

  /** The filter test of line 81, negated: an empty filter lets every post through. */
  predicate PassesFilter(p: Post, filter: string) {
    !(filter != "" && !Contains(p.text, filter))
  }

  /** A post that passes the filter but is older than the limit ends the scan. */
  predicate StopsScan(p: Post, limit: int, filter: string) {
    PassesFilter(p, filter) && p.date < limit
  }

  /** The posts the scan accepts, in feed order. */
  function Accepted(feed: seq<Post>, limit: int, filter: string): (r: seq<Post>)
    ensures |r| <= |feed|
  {
    if feed == [] then []
    else if !PassesFilter(feed[0], filter) then Accepted(feed[1..], limit, filter)
    else if feed[0].date < limit then []
    else [feed[0]] + Accepted(feed[1..], limit, filter)
  }

  /** One step of the scan, seen from position `i` of the feed. */
  lemma AcceptedStep(feed: seq<Post>, i: nat, limit: int, filter: string)
    requires i < |feed|
    ensures Accepted(feed[i..], limit, filter) ==
      if !PassesFilter(feed[i], filter) then Accepted(feed[i + 1..], limit, filter)
      else if feed[i].date < limit then []
      else [feed[i]] + Accepted(feed[i + 1..], limit, filter)
  {
    assert feed[i..][0] == feed[i] && feed[i..][1..] == feed[i + 1..];
  }

  /** The scan's loop invariant survives one step that does not stop it:
      `done` grows by the post exactly when the post passes the filter. */
  lemma ScanStep(feed: seq<Post>, i: nat, done: seq<Post>, limit: int, filter: string)
    requires i < |feed| && !StopsScan(feed[i], limit, filter)
    requires done + Accepted(feed[i..], limit, filter) == Accepted(feed, limit, filter)
    ensures PassesFilter(feed[i], filter) ==>
      (done + [feed[i]]) + Accepted(feed[i + 1..], limit, filter) == Accepted(feed, limit, filter)
    ensures !PassesFilter(feed[i], filter) ==>
      done + Accepted(feed[i + 1..], limit, filter) == Accepted(feed, limit, filter)
  {
    AcceptedStep(feed, i, limit, filter);
    assert (done + [feed[i]]) + Accepted(feed[i + 1..], limit, filter)
        == done + ([feed[i]] + Accepted(feed[i + 1..], limit, filter));
  }

  /** Every accepted post comes from the feed, passes the filter and is not
      older than the limit. */
  lemma {:induction false} AcceptedWithinWindow(feed: seq<Post>, limit: int, filter: string)
    ensures forall p :: p in Accepted(feed, limit, filter) ==> p in feed && PassesFilter(p, filter) && p.date >= limit
  {
    if feed != [] {
      AcceptedWithinWindow(feed[1..], limit, filter);
    }
  }

  /** Reference definition: the posts of `s` that pass the filter, in order. */
  function Kept(s: seq<Post>, filter: string): seq<Post> {
    if s == [] then []
    else (if PassesFilter(s[0], filter) then [s[0]] else []) + Kept(s[1..], filter)
  }

  /** The scan keeps exactly the filter-passing posts that stand before the first
      post that stops it (or all of them if none does). */
  lemma {:induction false} AcceptedIsKeptPrefix(feed: seq<Post>, limit: int, filter: string, k: nat)
    requires k <= |feed|
    requires forall j :: 0 <= j < k ==> !StopsScan(feed[j], limit, filter)
    requires k < |feed| ==> StopsScan(feed[k], limit, filter)
    ensures Accepted(feed, limit, filter) == Kept(feed[..k], filter)
  {
    if feed != [] {
      if k == 0 {
        assert feed[..k] == [];
      } else {
        AcceptedIsKeptPrefix(feed[1..], limit, filter, k - 1);
        assert feed[..k][1..] == feed[1..][..k - 1];
      }
    }
  }

  /** Nothing at or after a post that stops the scan is emitted. */
  lemma {:induction false} AcceptedStopsAt(feed: seq<Post>, limit: int, filter: string, k: nat)
    requires k < |feed| && StopsScan(feed[k], limit, filter)
    ensures Accepted(feed, limit, filter) == Accepted(feed[..k], limit, filter)
  {
    if k == 0 {
      assert feed[..k] == [];
    } else if PassesFilter(feed[0], filter) && feed[0].date < limit {
    } else {
      AcceptedStopsAt(feed[1..], limit, filter, k - 1);
      assert feed[..k][1..] == feed[1..][..k - 1];
    }
  }

  /** One step of the scan at the head of a feed. */
  lemma AcceptedCons(p: Post, rest: seq<Post>, limit: int, filter: string)
    ensures Accepted([p] + rest, limit, filter) ==
      if !PassesFilter(p, filter) then Accepted(rest, limit, filter)
      else if p.date < limit then []
      else [p] + Accepted(rest, limit, filter)
  {
    assert ([p] + rest)[0] == p && ([p] + rest)[1..] == rest;
  }

  /** A post that fails a non-empty filter is skipped wherever it stands, even
      when it is older than the limit: removing it changes nothing. */
  lemma {:induction false} FilteredPostIsSkipped(a: seq<Post>, p: Post, b: seq<Post>, limit: int, filter: string)
    requires filter != "" && !Contains(p.text, filter)
    ensures Accepted(a + [p] + b, limit, filter) == Accepted(a + b, limit, filter)
  {
    if a == [] {
      assert a + [p] + b == [p] + b && a + b == b;
      AcceptedCons(p, b, limit, filter);
    } else {
      FilteredPostIsSkipped(a[1..], p, b, limit, filter);
      assert a + [p] + b == [a[0]] + (a[1..] + [p] + b);
      assert a + b == [a[0]] + (a[1..] + b);
      AcceptedCons(a[0], a[1..] + [p] + b, limit, filter);
      AcceptedCons(a[0], a[1..] + b, limit, filter);
    }
  }

  /** The limit itself is inside the window: a filter-passing post dated exactly
      at the limit is accepted and the scan goes on. */
  lemma AcceptedAtLimit(p: Post, rest: seq<Post>, limit: int, filter: string)
    requires PassesFilter(p, filter) && p.date == limit
    ensures Accepted([p] + rest, limit, filter) == [p] + Accepted(rest, limit, filter)
  {
    assert ([p] + rest)[1..] == rest;
  }

  function ToPostRow(clubId: int, p: Post): PostRow {
    PostRow(p.id, PostUrl(clubId, p.id), p.date, RemoveLineBreaks(p.text), p.commentsCount)
  }

  function PostRows(clubId: int, ps: seq<Post>): seq<PostRow> {
    seq(|ps|, i requires 0 <= i < |ps| => ToPostRow(clubId, ps[i]))
  }

  function Queue(ps: seq<Post>): seq<WorkItem> {
    seq(|ps|, i requires 0 <= i < |ps| => WorkItem(ps[i].id, ps[i].commentsCount))
  }

  lemma RowsAndQueueAppend(clubId: int, ps: seq<Post>, p: Post)
    ensures PostRows(clubId, ps + [p]) == PostRows(clubId, ps) + [ToPostRow(clubId, p)]
    ensures Queue(ps + [p]) == Queue(ps) + [WorkItem(p.id, p.commentsCount)]
  {
  }

  /** Columns of equal length read as a table, row by row. */
  function ZipPostColumns(id: seq<int>, url: seq<string>, datetime: seq<int>, text: seq<string>,
                          commentsNumber: seq<int>): (rows: seq<PostRow>)
    requires |url| == |id| && |datetime| == |id| && |text| == |id| && |commentsNumber| == |id|
  {
    seq(|id|, i requires 0 <= i < |id| => PostRow(id[i], url[i], datetime[i], text[i], commentsNumber[i]))
  }

  lemma ZipPostColumnsAppend(id: seq<int>, url: seq<string>, datetime: seq<int>, text: seq<string>,
                             commentsNumber: seq<int>, r: PostRow)
    requires |url| == |id| && |datetime| == |id| && |text| == |id| && |commentsNumber| == |id|
    ensures ZipPostColumns(id + [r.id], url + [r.url], datetime + [r.datetime], text + [r.text],
                           commentsNumber + [r.commentsNumber])
         == ZipPostColumns(id, url, datetime, text, commentsNumber) + [r]
  {
  }

  /** What every emitted post row satisfies: its URL is the template applied to
      its own id, and its text holds no line break. */
  predicate WellFormedPostRow(clubId: int, r: PostRow) {
    r.url == PostUrl(clubId, r.id) && NoLineBreaks(r.text)
  }

  /** The rows and the queue of a scan line up entry by entry, whatever the
      comment count (a post without comments is queued too). */
  lemma RowsMatchQueue(clubId: int, ps: seq<Post>)
    ensures |PostRows(clubId, ps)| == |Queue(ps)| == |ps|
    ensures forall i :: 0 <= i < |ps| ==>
      && WellFormedPostRow(clubId, PostRows(clubId, ps)[i])
      && PostRows(clubId, ps)[i].id == Queue(ps)[i].postId == ps[i].id
      && PostRows(clubId, ps)[i].commentsNumber == Queue(ps)[i].commentsCount == ps[i].commentsCount
  {
  }

  /** The `posts` dictionary of lists: one field per column. */
  class PostColumns {
    var id: seq<int>
    var url: seq<string>
    var datetime: seq<int>
    var text: seq<string>
    var commentsNumber: seq<int>

    /** All columns have the same length, so the table is well defined. */
    ghost predicate Valid()
      reads this
    {
      |url| == |id| && |datetime| == |id| && |text| == |id| && |commentsNumber| == |id|
    }

    /** The table read row by row. */
    function Rows(): (rows: seq<PostRow>)
      reads this
      requires Valid()
    {
      ZipPostColumns(id, url, datetime, text, commentsNumber)
    }

    constructor ()
      ensures Valid() && Rows() == []
    {
      id, url, datetime, text, commentsNumber := [], [], [], [], [];
    }

    /** Appends one value to each column. */
    method AppendRow(r: PostRow)
      requires Valid()
      modifies this
      ensures Valid() && Rows() == old(Rows()) + [r]
    {
      ZipPostColumnsAppend(id, url, datetime, text, commentsNumber, r);
      id := id + [r.id];
      url := url + [r.url];
      datetime := datetime + [r.datetime];
      text := text + [r.text];
      commentsNumber := commentsNumber + [r.commentsNumber];
    }
  }

  /** `export_posts` on a successful `wall.get` response `feed`. The third result
      is `exported_posts_count`, the number logged at the end. */
  method ExportPosts(feed: seq<Post>, clubId: int, depth: int, now: int, filter: string)
    returns (posts: PostColumns, queue: seq<WorkItem>, exportedCount: nat)
    ensures fresh(posts) && posts.Valid()
    ensures posts.Rows() == PostRows(clubId, Accepted(feed, PostTimeLimit(now, depth), filter))
    ensures queue == Queue(Accepted(feed, PostTimeLimit(now, depth), filter))
    ensures exportedCount == |queue| == |posts.Rows()|
  {
    var postTimeLimit := PostTimeLimit(now, depth);
    posts := new PostColumns();
    queue := [];
    exportedCount := 0;
    ghost var done: seq<Post> := [];
    var i := 0;
    while i < |feed|
      invariant 0 <= i <= |feed|
      invariant fresh(posts) && posts.Valid()
      invariant done + Accepted(feed[i..], postTimeLimit, filter) == Accepted(feed, postTimeLimit, filter)
      invariant posts.Rows() == PostRows(clubId, done)
      invariant queue == Queue(done)
      invariant exportedCount == |done|
    {
      var item := feed[i];
      if filter != "" && !Contains(item.text, filter) {
        // skipped, the scan goes on
        ScanStep(feed, i, done, postTimeLimit, filter);
      } else if item.date < postTimeLimit {
        AcceptedStep(feed, i, postTimeLimit, filter);
        break;
      } else {
        // the row of lines 87-97: id, URL, date, normalised text, comment count
        posts.AppendRow(ToPostRow(clubId, item));
        queue := queue + [WorkItem(item.id, item.commentsCount)];
        exportedCount := exportedCount + 1;
        RowsAndQueueAppend(clubId, done, item);
        ScanStep(feed, i, done, postTimeLimit, filter);
        done := done + [item];
      }
      i := i + 1;
    }
    if i == |feed| {
      assert feed[i..] == [];
    }
  }
}
