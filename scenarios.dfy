/** Concrete runs of the export, checked against the general definitions. */
module Scenarios {
  import opened Wrappers
  import opened Text
  import opened Vk
  import opened PostScan
  import opened CommentExport
  import opened Driver

  /** A filtered-out post stops nothing, even past the limit; the first
      matching post past the limit ends the scan. */
  lemma FilterScanExample()
    ensures var feed := [Post(5, 100, "vote now", 3), Post(4, 90, "new", 1), Post(3, 80, "vote", 0),
                         Post(2, 10, "old", 7), Post(1, 5, "vote", 2), Post(0, 70, "vote", 1)];
            Accepted(feed, 50, "vote") == [feed[0], feed[2]]
  {
    var feed := [Post(5, 100, "vote now", 3), Post(4, 90, "new", 1), Post(3, 80, "vote", 0),
                 Post(2, 10, "old", 7), Post(1, 5, "vote", 2), Post(0, 70, "vote", 1)];
    assert OccursAt("vote now", "vote", 0);
    assert OccursAt("vote", "vote", 0);
    assert !Contains("new", "vote");  // shorter than the filter
    assert !Contains("old", "vote");
    AcceptedCons(feed[0], feed[1..], 50, "vote");
    assert feed[1..] == [feed[1]] + feed[2..];
    AcceptedCons(feed[1], feed[2..], 50, "vote");
    assert feed[2..] == [feed[2]] + feed[3..];
    AcceptedCons(feed[2], feed[3..], 50, "vote");
    assert feed[3..] == [feed[3]] + feed[4..];
    AcceptedCons(feed[3], feed[4..], 50, "vote");
    assert feed[4..] == [feed[4]] + feed[5..];
    AcceptedCons(feed[4], feed[5..], 50, "vote");
  }

  /** Two posts, one without comments and one with two top-level comments of
      which the second has one reply: two post rows and three comment rows,
      the reply pointing at its top-level comment. */
  lemma PipelineExample()
    ensures var wall := [Post(2, 1000, "second", 2), Post(1, 900, "first", 0)];
            var fetch := (postId: int, count: int) =>
              if postId == 2 then [Comment(10, 950, "a", 0, None),
                                   Comment(11, 960, "b", 1, Some(Thread(1, [Comment(12, 970, "c", 0, None)])))]
              else [];
            var out := Export(wall, fetch, 7, 1, 1000, "");
            && out.postsCsv.Some? && |out.postsCsv.value| == 2
            && out.commentsCsv.Some? && |out.commentsCsv.value| == 3
            && out.commentsCsv.value[0].parentCommentId == 0
            && out.commentsCsv.value[1].parentCommentId == 0
            && out.commentsCsv.value[2].parentCommentId == out.commentsCsv.value[1].id == 11
  {
    var wall := [Post(2, 1000, "second", 2), Post(1, 900, "first", 0)];
    var fetch := (postId: int, count: int) =>
      if postId == 2 then [Comment(10, 950, "a", 0, None),
                           Comment(11, 960, "b", 1, Some(Thread(1, [Comment(12, 970, "c", 0, None)])))]
      else [];
    var limit := PostTimeLimit(1000, 1);
    AcceptedCons(wall[0], wall[1..], limit, "");
    AcceptedCons(wall[1], [], limit, "");
    assert wall[1..] == [wall[1]];
    var accepted := Accepted(wall, limit, "");
    assert accepted == wall;
    var items := fetch(2, PageSize(2));
    assert Flatten(7, 2, items[1..]) == CommentBlock(7, 2, items[1]);
    assert |Flatten(7, 2, items)| == 3;
  }
}
