/** The news page: each item's read flag derived from the user's read set,
    marking an item as read, and the unread and read lists. */
module NewsPage {

  import opened Common
  import opened Types

  /** A published news row as loaded. */
  datatype NewsRow = NewsRow(id: string, title: string, kind: NewsType)

  /** A row with its read flag, as the page keeps it. */
  datatype NewsItem = NewsItem(row: NewsRow, isRead: bool)

  /** The read receipt inserted by "mark as read". */
  datatype ReadReceipt = ReadReceipt(newsId: string, userId: string)

  /** `{ ...n, is_read: readIds.has(n.id) }` for every loaded row. */
  function WithReadFlags(rows: seq<NewsRow>, readIds: set<string>): (r: seq<NewsItem>)
    ensures |r| == |rows|
    ensures forall i :: 0 <= i < |rows| ==> r[i].row == rows[i] && (r[i].isRead <==> rows[i].id in readIds)
  {
    seq(|rows|, i requires 0 <= i < |rows| => NewsItem(rows[i], rows[i].id in readIds))
  }

  /** The page's list after a successful mark: the item with that id is read, the
      others are untouched. */
  function MarkedRead(news: seq<NewsItem>, newsId: string): (r: seq<NewsItem>)
    ensures |r| == |news|
    ensures forall i :: 0 <= i < |news| ==>
      r[i].row == news[i].row &&
      (news[i].row.id == newsId ==> r[i].isRead) &&
      (news[i].row.id != newsId ==> r[i] == news[i])
  {
    seq(|news|, i requires 0 <= i < |news| =>
      if news[i].row.id == newsId then news[i].(isRead := true) else news[i])
  }

  /** Every flag agrees with the read set. */
  predicate FlagsAgree(news: seq<NewsItem>, readIds: set<string>) {
    forall i :: 0 <= i < |news| ==> (news[i].isRead <==> news[i].row.id in readIds)
  }

  /** Loading establishes the agreement. */
  lemma LoadedFlagsAgree(rows: seq<NewsRow>, readIds: set<string>)
    ensures FlagsAgree(WithReadFlags(rows, readIds), readIds)
  {
  }

  /** Marking an item keeps the agreement once its id joins the set. */
  lemma MarkKeepsAgreement(news: seq<NewsItem>, readIds: set<string>, newsId: string)
    requires FlagsAgree(news, readIds)
    ensures FlagsAgree(MarkedRead(news, newsId), readIds + {newsId})
  {
  }

  /** Marking agrees with reloading: the marked list is what the page would have
      loaded with the id already in the read set. */
  lemma MarkMatchesReload(rows: seq<NewsRow>, readIds: set<string>, newsId: string)
    ensures MarkedRead(WithReadFlags(rows, readIds), newsId) == WithReadFlags(rows, readIds + {newsId})
  {
  }

  /** Marking the same item twice is the same as marking it once. */
  lemma MarkIdempotent(news: seq<NewsItem>, newsId: string)
    ensures MarkedRead(MarkedRead(news, newsId), newsId) == MarkedRead(news, newsId)
  {
  }

  predicate IsUnread(n: NewsItem) {
    !n.isRead
  }

  predicate IsRead(n: NewsItem) {
    n.isRead
  }

  function UnreadNews(news: seq<NewsItem>): (r: seq<NewsItem>)
    ensures forall i :: 0 <= i < |r| ==> !r[i].isRead
    ensures forall i :: 0 <= i < |news| && !news[i].isRead ==> news[i] in r
  {
    FilterMembers(news, IsUnread);
    Filter(news, IsUnread)
  }

  function ReadNews(news: seq<NewsItem>): (r: seq<NewsItem>)
    ensures forall i :: 0 <= i < |r| ==> r[i].isRead
    ensures forall i :: 0 <= i < |news| && news[i].isRead ==> news[i] in r
  {
    FilterMembers(news, IsRead);
    Filter(news, IsRead)
  }

  /** The unread and read lists split the news list. */
  lemma UnreadReadPartition(news: seq<NewsItem>)
    ensures |UnreadNews(news)| + |ReadNews(news)| == |news|
    ensures multiset(UnreadNews(news)) + multiset(ReadNews(news)) == multiset(news)
  {
    FilterPartition(news, IsUnread, IsRead);
  }

  /** Marking an unread item moves it out of the unread list: the list shrinks by
      the number of (unread) items with that id. */
  lemma {:induction false} MarkShrinksUnread(news: seq<NewsItem>, newsId: string)
    ensures forall i :: 0 <= i < |UnreadNews(MarkedRead(news, newsId))| ==>
      UnreadNews(MarkedRead(news, newsId))[i].row.id != newsId
    ensures |UnreadNews(MarkedRead(news, newsId))| <= |UnreadNews(news)|
  {
    if news != [] {
      MarkShrinksUnread(news[1..], newsId);
      assert MarkedRead(news, newsId)[1..] == MarkedRead(news[1..], newsId);
    }
  }

  /** A rendered card, with or without the mark-as-read button. */
  datatype Card = Card(item: NewsItem, showMarkAsRead: bool)

  function Cards(items: seq<NewsItem>, showMarkAsRead: bool): (r: seq<Card>)
    ensures |r| == |items|
    ensures forall i :: 0 <= i < |items| ==> r[i] == Card(items[i], showMarkAsRead)
  {
    seq(|items|, i requires 0 <= i < |items| => Card(items[i], showMarkAsRead))
  }

  /** The cards of the page: the unread section (only when it is non-empty), with
      buttons, then the full list without them (only when loaded and non-empty). */
  function RenderedCards(news: seq<NewsItem>, loading: bool): (r: seq<Card>)
  {
    var unread := UnreadNews(news);
    (if |unread| > 0 then Cards(unread, true) else []) +
    (if !loading && |news| > 0 then Cards(news, false) else [])
  }

  /** The button appears only on unread items, and on every unread item. */
  lemma MarkButtonOnlyUnread(news: seq<NewsItem>, loading: bool)
    ensures forall i :: 0 <= i < |RenderedCards(news, loading)| && RenderedCards(news, loading)[i].showMarkAsRead ==>
      !RenderedCards(news, loading)[i].item.isRead
    ensures forall j :: 0 <= j < |news| && !news[j].isRead ==>
      Card(news[j], true) in RenderedCards(news, loading)
  {
    var unread := UnreadNews(news);
    var r := RenderedCards(news, loading);
    forall j | 0 <= j < |news| && !news[j].isRead
      ensures Card(news[j], true) in r
    {
      assert news[j] in unread;
      var k :| 0 <= k < |unread| && unread[k] == news[j];
      assert r[k] == Card(news[j], true);
    }
  }

  /** The page state that loading and marking change. */
  class NewsPageState {
    var news: seq<NewsItem>
    var readNewsIds: set<string>
    var loading: bool

    /** The read flags agree with the read set. */
    ghost predicate Valid()
      reads this
    {
      FlagsAgree(news, readNewsIds)
    }

    constructor()
      ensures Valid()
      ensures news == [] && readNewsIds == {} && loading
    {
      news := [];
      readNewsIds := {};
      loading := true;
    }

    /** `fetchData`: with no user only the flag drops; otherwise the read set is
        the user's receipts (none when the query gives nothing) and each row is
        flagged from it. */
    method Load(user: Option<string>, newsData: Option<seq<NewsRow>>, readData: Option<seq<string>>)
      requires Valid()
      modifies this
      ensures Valid()
      ensures !loading
      ensures user.None? ==> news == old(news) && readNewsIds == old(readNewsIds)
      ensures user.Some? ==>
        readNewsIds == (if readData.Some? then set i | 0 <= i < |readData.value| :: readData.value[i] else {}) &&
        news == WithReadFlags(newsData.GetOr([]), readNewsIds)
    {
      loading := true;
      if user.None? {
        loading := false;
        return;
      }
      var readIds: set<string> := if readData.Some? then set i | 0 <= i < |readData.value| :: readData.value[i] else {};
      readNewsIds := readIds;
      news := WithReadFlags(newsData.GetOr([]), readIds);
      LoadedFlagsAgree(newsData.GetOr([]), readIds);
      loading := false;
    }

    /** `handleMarkAsRead`: with no user, or when the insert fails, nothing
        changes; otherwise the receipt is inserted, the id joins the read set and
        that item alone becomes read. */
    method MarkAsRead(user: Option<string>, newsId: string, insertFails: bool) returns (receipt: Option<ReadReceipt>)
      requires Valid()
      modifies this
      ensures Valid()
      ensures user.None? <==> receipt.None?
      ensures user.Some? ==> receipt == Some(ReadReceipt(newsId, user.value))
      ensures user.None? || insertFails ==> news == old(news) && readNewsIds == old(readNewsIds)
      ensures user.Some? && !insertFails ==>
        readNewsIds == old(readNewsIds) + {newsId} && news == MarkedRead(old(news), newsId)
      ensures loading == old(loading)
    {
      if user.None? {
        return None;
      }
      receipt := Some(ReadReceipt(newsId, user.value));
      if insertFails {
        return;
      }
      MarkKeepsAgreement(news, readNewsIds, newsId);
      readNewsIds := readNewsIds + {newsId};
      news := MarkedRead(news, newsId);
    }
  }
}
