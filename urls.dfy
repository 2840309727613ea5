/** The two URL templates of the export (src/get_comments.py lines 89 and 133),
    and the fact that each URL determines the identifiers it was built from. */
module Urls {

  import opened Decimal

  /** `https://vk.com/club{club_id}?w=wall-{club_id}_{post_id}` */
  function PostUrl(clubId: int, postId: int): string {
    "https://vk.com/club" + IntToString(clubId) + "?w=wall-" + IntToString(clubId) + "_" + IntToString(postId)
  }

  /** `https://vk.com/wall-{club_id}_{post_id}?reply={anchor}` */
  function CommentUrl(clubId: int, postId: int, anchor: int): string {
    "https://vk.com/wall-" + IntToString(clubId) + "_" + IntToString(postId) + "?reply=" + IntToString(anchor)
  }

  /** A rendered integer never contains the template's separators. */
  lemma NoSeparator(i: int, d: char)
    requires d == '?' || d == '_'
    ensures d !in IntToString(i)
  {
    IntToStringChars(i);
  }

  /** Splitting at the first occurrence of a separator is unambiguous. */
  lemma SplitAtSeparator(u: string, x: string, v: string, y: string, d: char)
    requires d !in u && d !in v
    requires u + [d] + x == v + [d] + y
    ensures u == v && x == y
  {
    var l, r := u + [d] + x, v + [d] + y;
    assert l[|u|] == d && r[|v|] == d;
    assert forall k :: 0 <= k < |u| ==> l[k] == u[k];
    assert forall k :: 0 <= k < |v| ==> r[k] == v[k];
    assert u == l[..|u|] && v == r[..|v|];
    assert x == l[|u| + 1..] && y == r[|v| + 1..];
  }

  /** Two strings that share a prefix, a separator-free part and a separator
      agree on that part and on the rest. */
  lemma SplitAfterPrefix(pre: string, u: string, x: string, v: string, y: string, d: char)
    requires d !in u && d !in v
    requires pre + u + [d] + x == pre + v + [d] + y
    ensures u == v && x == y
  {
    assert pre + u + [d] + x == pre + (u + [d] + x);
    assert pre + v + [d] + y == pre + (v + [d] + y);
    assert u + [d] + x == (pre + u + [d] + x)[|pre|..];
    SplitAtSeparator(u, x, v, y, d);
  }

  lemma PostUrlShape(c: int, p: int)
    ensures PostUrl(c, p) == "https://vk.com/club" + IntToString(c) + ['?'] + ("w=wall-" + IntToString(c) + "_" + IntToString(p))
  {
  }

  /** A post URL determines the club and the post. */
  lemma PostUrlInjective(c1: int, p1: int, c2: int, p2: int)
    requires PostUrl(c1, p1) == PostUrl(c2, p2)
    ensures c1 == c2 && p1 == p2
  {
    PostUrlShape(c1, p1);
    PostUrlShape(c2, p2);
    NoSeparator(c1, '?');
    NoSeparator(c2, '?');
    SplitAfterPrefix("https://vk.com/club", IntToString(c1), "w=wall-" + IntToString(c1) + "_" + IntToString(p1),
                     IntToString(c2), "w=wall-" + IntToString(c2) + "_" + IntToString(p2), '?');
    IntToStringInjective(c1, c2);
    var mid := "w=wall-" + IntToString(c1) + "_";
    assert IntToString(p1) == (mid + IntToString(p1))[|mid|..];
    IntToStringInjective(p1, p2);
  }

  lemma CommentUrlShape(c: int, p: int, a: int)
    ensures CommentUrl(c, p, a) == "https://vk.com/wall-" + IntToString(c) + ['_'] + (IntToString(p) + ['?'] + ("reply=" + IntToString(a)))
  {
  }

  /** A comment URL determines the club, the post and the reply anchor. */
  lemma CommentUrlInjective(c1: int, p1: int, a1: int, c2: int, p2: int, a2: int)
    requires CommentUrl(c1, p1, a1) == CommentUrl(c2, p2, a2)
    ensures c1 == c2 && p1 == p2 && a1 == a2
  {
    CommentUrlShape(c1, p1, a1);
    CommentUrlShape(c2, p2, a2);
    NoSeparator(c1, '_');
    NoSeparator(c2, '_');
    SplitAfterPrefix("https://vk.com/wall-", IntToString(c1), IntToString(p1) + ['?'] + ("reply=" + IntToString(a1)),
                     IntToString(c2), IntToString(p2) + ['?'] + ("reply=" + IntToString(a2)), '_');
    IntToStringInjective(c1, c2);
    NoSeparator(p1, '?');
    NoSeparator(p2, '?');
    SplitAtSeparator(IntToString(p1), "reply=" + IntToString(a1), IntToString(p2), "reply=" + IntToString(a2), '?');
    IntToStringInjective(p1, p2);
    assert IntToString(a1) == ("reply=" + IntToString(a1))[6..];
    IntToStringInjective(a1, a2);
  }
}
