/** The comment export of `export_comments` and its nested `append_comment`:
    each top-level comment of the `wall.getComments` response becomes one row
    with parent 0, followed at once by one row per item of its thread when the
    thread is present with a non-zero count. */
module CommentExport {

  import opened Text
  import opened Urls
  import opened Vk

  /** The page size requested from `wall.getComments`: `max(100, number)`. */
  function PageSize(number: int): (count: int)
    ensures count >= 100 && count >= number
    ensures count == 100 || count == number
  {
    if number <= 100 then 100 else number
  }

  /** The id the comment URL points at: the parent when there is one (a
      non-zero parent id), otherwise the comment itself. */
  function ReplyAnchor(id: int, parentCommentId: int): int {
    if parentCommentId != 0 then parentCommentId else id
  }

  /** The row `append_comment(item, parent_comment_id)` adds. */
  function ToCommentRow(clubId: int, postId: int, item: Comment, parentCommentId: int): CommentRow {
    CommentRow(item.id, postId, CommentUrl(clubId, postId, ReplyAnchor(item.id, parentCommentId)),
               item.date, RemoveLineBreaks(item.text), parentCommentId, item.likes)
  }

  /** The thread items that are walked: all of them when `thread` is present
      and its `count` is non-zero, none otherwise. */
  function WalkedThread(item: Comment): seq<Comment> {
    if item.thread.Some? && item.thread.value.count != 0 then item.thread.value.items else []
  }

  function ReplyRows(clubId: int, postId: int, items: seq<Comment>, parentCommentId: int): seq<CommentRow> {
    seq(|items|, k requires 0 <= k < |items| => ToCommentRow(clubId, postId, items[k], parentCommentId))
  }

  lemma ReplyRowsAppend(clubId: int, postId: int, items: seq<Comment>, j: nat, parentCommentId: int)
    requires j < |items|
    ensures ReplyRows(clubId, postId, items[..j + 1], parentCommentId)
         == ReplyRows(clubId, postId, items[..j], parentCommentId) + [ToCommentRow(clubId, postId, items[j], parentCommentId)]
  {
  }

  /** The rows one top-level comment contributes. */
  function CommentBlock(clubId: int, postId: int, item: Comment): seq<CommentRow> {
    [ToCommentRow(clubId, postId, item, 0)] + ReplyRows(clubId, postId, WalkedThread(item), item.id)
  }

  /** The rows of a whole response, block after block in response order. */
  function Flatten(clubId: int, postId: int, items: seq<Comment>): seq<CommentRow> {
    if items == [] then [] else CommentBlock(clubId, postId, items[0]) + Flatten(clubId, postId, items[1..])
  }

  /** The number of thread items walked over a whole response. */
  function WalkedTotal(items: seq<Comment>): nat {
    if items == [] then 0 else |WalkedThread(items[0])| + WalkedTotal(items[1..])
  }

  lemma {:induction false} FlattenConcat(clubId: int, postId: int, a: seq<Comment>, b: seq<Comment>)
    ensures Flatten(clubId, postId, a + b) == Flatten(clubId, postId, a) + Flatten(clubId, postId, b)
  {
    if a == [] {
      assert a + b == b;
    } else {
      assert (a + b)[0] == a[0] && (a + b)[1..] == a[1..] + b;
      FlattenConcat(clubId, postId, a[1..], b);
    }
  }

  lemma FlattenAppend(clubId: int, postId: int, items: seq<Comment>, i: nat)
    requires i < |items|
    ensures Flatten(clubId, postId, items[..i + 1]) == Flatten(clubId, postId, items[..i]) + CommentBlock(clubId, postId, items[i])
  {
    assert items[..i + 1] == items[..i] + [items[i]];
    FlattenConcat(clubId, postId, items[..i], [items[i]]);
  }

  /** One row per top-level comment plus one per walked thread item. */
  lemma {:induction false} FlattenLength(clubId: int, postId: int, items: seq<Comment>)
    ensures |Flatten(clubId, postId, items)| == |items| + WalkedTotal(items)
  {
    if items != [] {
      FlattenLength(clubId, postId, items[1..]);
    }
  }

  /** What every emitted comment row satisfies: it belongs to the requested post,
      its URL anchors at the parent when there is one and at the comment itself
      otherwise, and its text holds no line break. */
  predicate WellFormedCommentRow(clubId: int, postId: int, r: CommentRow) {
    && r.postId == postId
    && r.url == CommentUrl(clubId, postId, ReplyAnchor(r.id, r.parentCommentId))
    && NoLineBreaks(r.text)
  }

  lemma {:induction false} FlattenWellFormed(clubId: int, postId: int, items: seq<Comment>)
    ensures forall r :: r in Flatten(clubId, postId, items) ==> WellFormedCommentRow(clubId, postId, r)
  {
    if items != [] {
      FlattenWellFormed(clubId, postId, items[1..]);
      var block := CommentBlock(clubId, postId, items[0]);
      assert forall k :: 0 <= k < |block| ==> WellFormedCommentRow(clubId, postId, block[k]);
    }
  }

  /** Parent linkage: a row with a non-zero parent id is preceded by a row of the
      same post whose parent id is 0 and whose id is that parent, and every row
      in between is a reply to the same parent. */
  ghost predicate ParentLinked(rows: seq<CommentRow>) {
    forall j :: 0 <= j < |rows| && rows[j].parentCommentId != 0 ==>
      exists i :: 0 <= i < j && LinkedTo(rows, i, j)
  }

  ghost predicate LinkedTo(rows: seq<CommentRow>, i: int, j: int)
    requires 0 <= i < j < |rows|
  {
    && rows[i].parentCommentId == 0
    && rows[i].id == rows[j].parentCommentId
    && rows[i].postId == rows[j].postId
    && forall k :: i < k <= j ==> rows[k].parentCommentId == rows[j].parentCommentId
  }

  lemma ParentLinkedConcat(a: seq<CommentRow>, b: seq<CommentRow>)
    requires ParentLinked(a) && ParentLinked(b)
    ensures ParentLinked(a + b)
  {
    var ab := a + b;
    forall j | 0 <= j < |ab| && ab[j].parentCommentId != 0
      ensures exists i :: 0 <= i < j && LinkedTo(ab, i, j)
    {
      if j < |a| {
        assert a[j] == ab[j];
        var i :| 0 <= i < j && LinkedTo(a, i, j);
        assert forall k :: 0 <= k <= j ==> ab[k] == a[k];
        assert LinkedTo(ab, i, j);
      } else {
        var jb := j - |a|;
        assert b[jb] == ab[j];
        var i :| 0 <= i < jb && LinkedTo(b, i, jb);
        assert forall k :: |a| <= k <= j ==> ab[k] == b[k - |a|];
        assert LinkedTo(ab, i + |a|, j);
      }
    }
  }

  lemma BlockParentLinked(clubId: int, postId: int, item: Comment)
    ensures ParentLinked(CommentBlock(clubId, postId, item))
  {
    var block := CommentBlock(clubId, postId, item);
    forall j | 0 <= j < |block| && block[j].parentCommentId != 0
      ensures exists i :: 0 <= i < j && LinkedTo(block, i, j)
    {
      assert LinkedTo(block, 0, j);
    }
  }

  /** The flattened rows of a response are parent-linked. */
  lemma {:induction false} FlattenParentLinked(clubId: int, postId: int, items: seq<Comment>)
    ensures ParentLinked(Flatten(clubId, postId, items))
  {
    if items != [] {
      BlockParentLinked(clubId, postId, items[0]);
      FlattenParentLinked(clubId, postId, items[1..]);
      ParentLinkedConcat(CommentBlock(clubId, postId, items[0]), Flatten(clubId, postId, items[1..]));
    }
  }

  /** The number of rows whose parent id is 0. */
  function CountTopLevel(rows: seq<CommentRow>): nat {
    if rows == [] then 0 else (if rows[0].parentCommentId == 0 then 1 else 0) + CountTopLevel(rows[1..])
  }

  lemma {:induction false} CountTopLevelConcat(a: seq<CommentRow>, b: seq<CommentRow>)
    ensures CountTopLevel(a + b) == CountTopLevel(a) + CountTopLevel(b)
  {
    if a == [] {
      assert a + b == b;
    } else {
      assert (a + b)[0] == a[0] && (a + b)[1..] == a[1..] + b;
      CountTopLevelConcat(a[1..], b);
    }
  }

  lemma {:induction false} CountTopLevelReplies(clubId: int, postId: int, items: seq<Comment>, parentCommentId: int)
    requires parentCommentId != 0
    ensures CountTopLevel(ReplyRows(clubId, postId, items, parentCommentId)) == 0
  {
    if items != [] {
      CountTopLevelReplies(clubId, postId, items[1..], parentCommentId);
      assert ReplyRows(clubId, postId, items, parentCommentId)[1..] == ReplyRows(clubId, postId, items[1..], parentCommentId);
    }
  }

  /** With non-zero top-level ids (as VK assigns them), exactly one row per
      top-level comment has parent id 0: every thread row names its parent. */
  lemma {:induction false} FlattenTopLevelCount(clubId: int, postId: int, items: seq<Comment>)
    requires forall k :: 0 <= k < |items| ==> items[k].id != 0
    ensures CountTopLevel(Flatten(clubId, postId, items)) == |items|
  {
    if items != [] {
      var c := items[0];
      CountTopLevelReplies(clubId, postId, WalkedThread(c), c.id);
      CountTopLevelConcat([ToCommentRow(clubId, postId, c, 0)], ReplyRows(clubId, postId, WalkedThread(c), c.id));
      FlattenTopLevelCount(clubId, postId, items[1..]);
      CountTopLevelConcat(CommentBlock(clubId, postId, c), Flatten(clubId, postId, items[1..]));
    }
  }

  /** Columns of equal length read as a table, row by row. */
  function ZipCommentColumns(id: seq<int>, postId: seq<int>, url: seq<string>, datetime: seq<int>,
                             text: seq<string>, parentCommentId: seq<int>, likesNumber: seq<int>): seq<CommentRow>
    requires |postId| == |url| == |datetime| == |text| == |parentCommentId| == |likesNumber| == |id|
  {
    seq(|id|, i requires 0 <= i < |id| =>
      CommentRow(id[i], postId[i], url[i], datetime[i], text[i], parentCommentId[i], likesNumber[i]))
  }

  lemma ZipCommentColumnsAppend(id: seq<int>, postId: seq<int>, url: seq<string>, datetime: seq<int>,
                                text: seq<string>, parentCommentId: seq<int>, likesNumber: seq<int>, r: CommentRow)
    requires |postId| == |url| == |datetime| == |text| == |parentCommentId| == |likesNumber| == |id|
    ensures ZipCommentColumns(id + [r.id], postId + [r.postId], url + [r.url], datetime + [r.datetime],
                              text + [r.text], parentCommentId + [r.parentCommentId], likesNumber + [r.likesNumber])
         == ZipCommentColumns(id, postId, url, datetime, text, parentCommentId, likesNumber) + [r]
  {
  }

  /** The `comments` dictionary of lists: one field per column. */
  class CommentColumns {
    var id: seq<int>
    var postId: seq<int>
    var url: seq<string>
    var datetime: seq<int>
    var text: seq<string>
    var parentCommentId: seq<int>
    var likesNumber: seq<int>

    /** All columns have the same length, so the table is well defined. */
    ghost predicate Valid()
      reads this
    {
      |postId| == |url| == |datetime| == |text| == |parentCommentId| == |likesNumber| == |id|
    }

    /** The table read row by row. */
    function Rows(): seq<CommentRow>
      reads this
      requires Valid()
    {
      ZipCommentColumns(id, postId, url, datetime, text, parentCommentId, likesNumber)
    }

    constructor ()
      ensures Valid() && Rows() == []
    {
      id, postId, url, datetime, text, parentCommentId, likesNumber := [], [], [], [], [], [], [];
    }

    /** `append_comment(item, parent_comment_id)` for the post `post` of club
        `clubId`: one value appended to each column, likes before parent as at
        lines 139-140. */
    method AppendComment(clubId: int, post: int, item: Comment, parent: int)
      requires Valid()
      modifies this
      ensures Valid() && Rows() == old(Rows()) + [ToCommentRow(clubId, post, item, parent)]
    {
      var row := ToCommentRow(clubId, post, item, parent);
      ZipCommentColumnsAppend(id, postId, url, datetime, text, parentCommentId, likesNumber, row);
      id := id + [row.id];
      postId := postId + [row.postId];
      url := url + [row.url];
      datetime := datetime + [row.datetime];
      text := text + [row.text];
      likesNumber := likesNumber + [row.likesNumber];
      parentCommentId := parentCommentId + [row.parentCommentId];
    }
  }

  /** The body of the loop over `response["items"]` (lines 153-157): the
      top-level comment with parent 0, then its walked thread items with the
      top-level id as parent. */
  method AppendTopLevel(comments: CommentColumns, clubId: int, postId: int, item: Comment)
    requires comments.Valid()
    modifies comments
    ensures comments.Valid() && comments.Rows() == old(comments.Rows()) + CommentBlock(clubId, postId, item)
  {
    ghost var before := comments.Rows();
    ghost var top := ToCommentRow(clubId, postId, item, 0);
    comments.AppendComment(clubId, postId, item, 0);
    if item.thread.Some? && item.thread.value.count != 0 {
      var threadItems := item.thread.value.items;
      var j := 0;
      while j < |threadItems|
        invariant 0 <= j <= |threadItems|
        invariant comments.Valid()
        invariant comments.Rows() == before + [top] + ReplyRows(clubId, postId, threadItems[..j], item.id)
      {
        comments.AppendComment(clubId, postId, threadItems[j], item.id);
        ReplyRowsAppend(clubId, postId, threadItems, j, item.id);
        j := j + 1;
      }
      assert threadItems[..j] == WalkedThread(item);
    } else {
      assert ReplyRows(clubId, postId, WalkedThread(item), item.id) == [];
    }
  }

  /** `export_comments` for post `postId` of club `clubId`, expecting `number`
      comments. `getComments(postId, count)` stands for a successful
      `wall.getComments` call and gives its `items`. */
  method ExportComments(clubId: int, postId: int, number: int, getComments: (int, int) -> seq<Comment>)
    returns (comments: CommentColumns)
    ensures fresh(comments) && comments.Valid()
    ensures comments.Rows() == Flatten(clubId, postId, getComments(postId, PageSize(number)))
  {
    comments := new CommentColumns();
    var items := getComments(postId, PageSize(number));
    var i := 0;
    while i < |items|
      invariant 0 <= i <= |items|
      invariant fresh(comments) && comments.Valid()
      invariant comments.Rows() == Flatten(clubId, postId, items[..i])
    {
      AppendTopLevel(comments, clubId, postId, items[i]);
      FlattenAppend(clubId, postId, items, i);
      i := i + 1;
    }
    assert items[..i] == items;
  }
}
