/**
 * The per-trend loop of `scrape_x_trends` (app/services/scraper.py): every
 * title read from the trending page is stripped, skipped when blank, turned
 * into the identity url `https://x.com/search?q=` + quote(title), and added
 * as a new `Item` unless a committed row already has that url. The batch is
 * committed once at the end, or rolled back as a whole.
 */
module Scraper {
  import opened Common
  import opened Unicode
  import opened Percent
  import opened Items
  import opened Store

  const SearchPrefix: string := "https://x.com/search?q="

  /** The `source` column of every scraped trend: "X 趋势" (X, space, U+8D8B, U+52BF). */
  const TrendSource: Text := [0x58, 0x20, 0x8D8B, 0x52BF]

  /** The `hot_score` the scraper passes for every trend; no score is parsed. */
  const ScrapedHotScore: real := 0.0

  /** What reading the title of one trend container gave: its text, `None`,
      or an exception (a locator timeout, say). */
  datatype TitleRead = Title(text: Text) | NoTitle | ReadRaises

  /** What the page gave before the per-container loop: the title reads of
      the containers found, or an exception from login, navigation or one of
      the waits. */
  datatype Page = PageRaises | Containers(titles: seq<TitleRead>)

  /** A trend ready to be looked up: its stripped title and identity url. */
  datatype Trend = Trend(title: Text, url: string)

  /** How a run ends: an exception before the loop (rolled back), no
      containers (nothing done), a commit, or a failed commit (rolled back). */
  datatype Outcome = Aborted | NoTrends | Committed | RolledBack

  /** The identity url of a stripped title; `None` is the `UnicodeEncodeError`
      `quote` raises on a lone surrogate. */
  function TrendUrl(title: Text): (r: Option<string>)
    ensures r.Some? <==> Encodable(title)
  {
    match EncodeUtf8(title)
    case None => None
    case Some(bytes) => Some(SearchPrefix + Quote(bytes))
  }

  /** The part of the loop body before the lookup: `None` when the title is
      missing, blank, or raised while being read or quoted. */
  function ReadTrend(read: TitleRead): (r: Option<Trend>)
    ensures r.Some? ==> read.Title? && r.value.title == Strip(read.text) && r.value.title != []
    ensures r.Some? ==> TrendUrl(r.value.title) == Some(r.value.url)
  {
    match read
    case Title(t) =>
      var s := Strip(t);
      if s == [] then None
      else (
        match TrendUrl(s)
        case None => None
        case Some(u) => Some(Trend(s, u)))
    case _ => None
  }

  /** The object one container adds to the session, given the committed rows. */
  function AddFor(rows: map<string, Item>, read: TitleRead): (r: seq<NewItem>)
    ensures |r| <= 1
  {
    match ReadTrend(read)
    case None => []
    case Some(t) => if t.url in rows then [] else [NewItem(t.title, t.url, TrendSource, Some(ScrapedHotScore))]
  }

  /** The objects a batch of containers adds to the session, in order. */
  function Additions(rows: map<string, Item>, titles: seq<TitleRead>): (r: seq<NewItem>)
    ensures forall n :: n in r ==> n.url !in rows
    decreases |titles|
  {
    if titles == [] then [] else Additions(rows, titles[..|titles| - 1]) + AddFor(rows, titles[|titles| - 1])
  }

  /** The body of the per-container loop: strip and quote the title, look
      its url up among the committed rows, and add a new item when absent. */
  method AddTrend(db: Session, read: TitleRead) returns (added: bool)
    requires db.Valid()
    modifies db`pending
    ensures db.Valid()
    ensures db.pending == old(db.pending) + AddFor(db.rows, read)
    ensures added <==> |AddFor(db.rows, read)| == 1
  {
    added := false;
    var trend := ReadTrend(read);
    if trend.Some? {
      var existing := db.Query(trend.value.url);
      if existing.None? {
        db.Add(NewItem(trend.value.title, trend.value.url, TrendSource, Some(ScrapedHotScore)));
        added := true;
      }
    }
  }

  /** `scrape_x_trends` from the point where the containers are known. */
  method ScrapeXTrends(db: Session, page: Page, now: int, fault: bool) returns (itemsAdded: nat, outcome: Outcome)
    requires db.Valid()
    modifies db
    ensures db.Valid()
    ensures page.PageRaises? ==>
      && outcome == Aborted && itemsAdded == 0
      && db.rows == old(db.rows) && db.nextId == old(db.nextId) && db.pending == []
    ensures page == Containers([]) ==>
      && outcome == NoTrends && itemsAdded == 0
      && db.rows == old(db.rows) && db.nextId == old(db.nextId) && db.pending == old(db.pending)
    ensures page.Containers? && page.titles != [] ==>
      var added := Additions(old(db.rows), page.titles);
      var batch := old(db.pending) + added;
      && itemsAdded == |added|
      && db.pending == []
      && (outcome == Committed <==> CanInsert(old(db.rows), batch) && !fault)
      && (outcome == Committed ==>
            && db.rows == InsertAll(old(db.rows), batch, old(db.nextId), now)
            && db.nextId == old(db.nextId) + |batch|
            && |db.rows| == |old(db.rows)| + |old(db.pending)| + itemsAdded)
      && (outcome != Committed ==>
            outcome == RolledBack && db.rows == old(db.rows) && db.nextId == old(db.nextId))
  {
    if page.PageRaises? {
      db.Rollback();
      return 0, Aborted;
    }
    var titles := page.titles;
    if titles == [] {
      return 0, NoTrends;
    }
    itemsAdded := AddTrends(db, titles);
    outcome := CommitBatch(db, now, fault);
  }

  /** The `for container in trend_containers` loop: each container's title
      is handled on its own, against the committed rows only. */
  method AddTrends(db: Session, titles: seq<TitleRead>) returns (itemsAdded: nat)
    requires db.Valid()
    modifies db`pending
    ensures db.Valid()
    ensures db.pending == old(db.pending) + Additions(db.rows, titles)
    ensures itemsAdded == |Additions(db.rows, titles)|
  {
    itemsAdded := 0;
    var i := 0;
    while i < |titles|
      invariant 0 <= i <= |titles|
      invariant db.Valid()
      invariant db.pending == old(db.pending) + Additions(db.rows, titles[..i])
      invariant itemsAdded == |Additions(db.rows, titles[..i])|
    {
      ghost var done := Additions(db.rows, titles[..i]);
      ghost var step := AddFor(db.rows, titles[i]);
      AdditionsStep(db.rows, titles, i);
      var added := AddTrend(db, titles[i]);
      ConcatAssoc(old(db.pending), done, step);
      if added {
        itemsAdded := itemsAdded + 1;
      }
      i := i + 1;
    }
    assert titles[..i] == titles;
  }

  /** The end of a run: `commit()`, and `rollback()` when it raises. */
  method CommitBatch(db: Session, now: int, fault: bool) returns (outcome: Outcome)
    requires db.Valid()
    modifies db
    ensures db.Valid() && db.pending == []
    ensures outcome == Committed <==> CanInsert(old(db.rows), old(db.pending)) && !fault
    ensures outcome == Committed ==>
      && db.rows == InsertAll(old(db.rows), old(db.pending), old(db.nextId), now)
      && db.nextId == old(db.nextId) + |old(db.pending)|
      && |db.rows| == |old(db.rows)| + |old(db.pending)|
    ensures outcome != Committed ==>
      outcome == RolledBack && db.rows == old(db.rows) && db.nextId == old(db.nextId)
  {
    var batch := db.pending;
    var ok := db.Commit(now, fault);
    if ok {
      InsertAllEffect(old(db.rows), batch, old(db.nextId), now);
      outcome := Committed;
    } else {
      db.Rollback();
      outcome := RolledBack;
    }
  }

  // ------------------------------------------------------------ properties

  lemma AdditionsStep(rows: map<string, Item>, titles: seq<TitleRead>, i: nat)
    requires i < |titles|
    ensures Additions(rows, titles[..i + 1]) == Additions(rows, titles[..i]) + AddFor(rows, titles[i])
  {
    assert titles[..i + 1][..i] == titles[..i];
  }


  /** Each title's addition depends only on the committed rows, never on the
      titles before it: a batch splits into independent parts. */
  lemma {:induction false} AdditionsAppend(rows: map<string, Item>, a: seq<TitleRead>, b: seq<TitleRead>)
    ensures Additions(rows, a + b) == Additions(rows, a) + Additions(rows, b)
    decreases |b|
  {
    if b == [] {
      assert a + b == a;
    } else {
      var b', last := b[..|b| - 1], b[|b| - 1];
      assert (a + b)[..|a + b| - 1] == a + b' && (a + b)[|a + b| - 1] == last;
      AdditionsAppend(rows, a, b');
      ConcatAssoc(Additions(rows, a), Additions(rows, b'), AddFor(rows, last));
    }
  }

  /** A title whose read raised is skipped and the others are handled as if
      it had not been there. */
  lemma FailedReadIsolated(rows: map<string, Item>, a: seq<TitleRead>, b: seq<TitleRead>)
    ensures Additions(rows, a + [ReadRaises] + b) == Additions(rows, a + b)
  {
    assert ReadTrend(ReadRaises) == None;
    assert AddFor(rows, ReadRaises) == [];
    assert [ReadRaises][..0] == [];
    assert Additions(rows, [ReadRaises]) == [];
    AdditionsAppend(rows, a, [ReadRaises]);
    assert Additions(rows, a + [ReadRaises]) == Additions(rows, a);
    AdditionsAppend(rows, a + [ReadRaises], b);
    AdditionsAppend(rows, a, b);
  }

  /** A missing, empty or whitespace-only title adds nothing. */
  lemma BlankTitleSkipped(rows: map<string, Item>, t: Text)
    requires AllSpace(t)
    ensures ReadTrend(Title(t)) == None && AddFor(rows, Title(t)) == []
    ensures ReadTrend(NoTitle) == None
  {
    StripEmptyIffBlank(t, IsSpace);
  }

  /** Whitespace around a title does not change the trend it yields. */
  lemma SurroundingWhitespaceIgnored(w1: Text, t: Text, w2: Text)
    requires AllSpace(w1) && AllSpace(w2)
    ensures ReadTrend(Title(w1 + t + w2)) == ReadTrend(Title(t))
  {
    StripIgnoresPadding(w1, t, w2, IsSpace);
  }

  /** The url identifies the stripped title: two trends share a url exactly
      when their stripped titles are equal. */
  lemma TrendIdentity(r1: TitleRead, r2: TitleRead)
    requires ReadTrend(r1).Some? && ReadTrend(r2).Some?
    ensures ReadTrend(r1).value.url == ReadTrend(r2).value.url <==> ReadTrend(r1).value.title == ReadTrend(r2).value.title
  {
    var t1, t2 := ReadTrend(r1).value, ReadTrend(r2).value;
    if t1.url == t2.url {
      var b1, b2 := EncodeUtf8(t1.title).value, EncodeUtf8(t2.title).value;
      assert SearchPrefix + Quote(b1) == SearchPrefix + Quote(b2);
      assert Quote(b1) == (SearchPrefix + Quote(b1))[|SearchPrefix|..];
      assert Quote(b2) == (SearchPrefix + Quote(b2))[|SearchPrefix|..];
      QuoteInjective(b1, b2);
      Utf8Injective(t1.title, t2.title);
    }
  }

  /** A new trend: a stripped, non-empty title, its identity url (not yet
      stored), source "X 趋势" and hot score 0. */
  ghost predicate NewTrend(rows: map<string, Item>, n: NewItem) {
    && n.title != [] && Trimmed(n.title)
    && TrendUrl(n.title) == Some(n.url) && n.url !in rows
    && n.source == TrendSource && n.hotScore == Some(0.0)
  }

  /** The title of one of the containers, stripped. */
  ghost predicate ReadFrom(titles: seq<TitleRead>, title: Text) {
    exists k :: 0 <= k < |titles| && titles[k].Title? && title == Strip(titles[k].text)
  }

  /** The object one container adds, if any, is a new trend whose title is
      that container's title stripped. */
  lemma AddForShape(rows: map<string, Item>, read: TitleRead)
    ensures forall n :: n in AddFor(rows, read) ==> NewTrend(rows, n)
    ensures forall n :: n in AddFor(rows, read) ==>
      read.Title? && n.title == Strip(read.text) && TrendUrl(Strip(read.text)) == Some(n.url)
  {
    if read.Title? {
      StripShape(read.text, IsSpace);
    }
  }

  /** Every object a batch adds is a new trend whose title is the stripped
      title of one of the batch's containers. */
  lemma {:induction false} AdditionsShape(rows: map<string, Item>, titles: seq<TitleRead>)
    ensures forall n :: n in Additions(rows, titles) ==> NewTrend(rows, n) && ReadFrom(titles, n.title)
    decreases |titles|
  {
    if titles != [] {
      var init, last := titles[..|titles| - 1], titles[|titles| - 1];
      AdditionsShape(rows, init);
      AddForShape(rows, last);
      assert Additions(rows, titles) == Additions(rows, init) + AddFor(rows, last);
      forall n | n in Additions(rows, titles) ensures ReadFrom(titles, n.title) {
        if n in Additions(rows, init) {
          var k :| 0 <= k < |init| && init[k].Title? && n.title == Strip(init[k].text);
          assert titles[k] == init[k];
        } else {
          assert titles[|titles| - 1] == last;
        }
      }
    }
  }

  /** The additions of a batch, split around the container at `k`. */
  lemma AdditionsSplit(rows: map<string, Item>, titles: seq<TitleRead>, k: nat)
    requires k < |titles|
    ensures Additions(rows, titles) == Additions(rows, titles[..k]) + AddFor(rows, titles[k]) + Additions(rows, titles[k + 1..])
  {
    var pre, post := titles[..k], titles[k + 1..];
    assert titles == (pre + [titles[k]]) + post;
    AdditionsAppend(rows, pre + [titles[k]], post);
    assert (pre + [titles[k]])[..k] == pre;
  }

  /** Every trend of a batch whose url is new is among the batch's additions. */
  lemma NewTrendAdded(rows: map<string, Item>, titles: seq<TitleRead>, k: nat)
    requires k < |titles| && ReadTrend(titles[k]).Some? && ReadTrend(titles[k]).value.url !in rows
    ensures exists j :: 0 <= j < |Additions(rows, titles)| && Additions(rows, titles)[j].url == ReadTrend(titles[k]).value.url
  {
    AdditionsSplit(rows, titles, k);
    var j := |Additions(rows, titles[..k])|;
    assert Additions(rows, titles)[j] == AddFor(rows, titles[k])[0];
  }

  /** Two containers of one batch whose additions share a url make the batch
      uncommittable. */
  lemma RepeatedUrlBlocksCommit(rows: map<string, Item>, pending: seq<NewItem>, titles: seq<TitleRead>, i: nat, j: nat)
    requires i < j < |titles|
    requires AddFor(rows, titles[i]) != [] && AddFor(rows, titles[j]) != []
    requires AddFor(rows, titles[i])[0].url == AddFor(rows, titles[j])[0].url
    ensures !CanInsert(rows, pending + Additions(rows, titles))
  {
    var front := titles[..j];
    assert front[..i] == titles[..i] && front[i] == titles[i] && front[i + 1..] == titles[i + 1..j];
    AdditionsSplit(rows, front, i);
    AdditionsSplit(rows, titles, j);
    var ni, nj := AddFor(rows, titles[i]), AddFor(rows, titles[j]);
    var all := Additions(rows, titles);
    var x := |Additions(rows, titles[..i])|;
    var y := |Additions(rows, front)|;
    MiddleIndex(Additions(rows, titles[..i]), ni, Additions(rows, titles[i + 1..j]));
    MiddleIndex(Additions(rows, front), nj, Additions(rows, titles[j + 1..]));
    assert x < y;
    ShiftedIndex(pending, all, x);
    ShiftedIndex(pending, all, y);
    var p := pending + all;
    assert p[|pending| + x].url == p[|pending| + y].url;
  }

  /** Two titles of one batch that strip to the same new title both pass the
      lookup, since pending objects are not flushed; the commit then breaks
      url uniqueness, so the batch cannot commit and is rolled back. */
  lemma DuplicateTitlesBlockCommit(rows: map<string, Item>, pending: seq<NewItem>, titles: seq<TitleRead>, i: nat, j: nat)
    requires i < j < |titles|
    requires ReadTrend(titles[i]).Some? && ReadTrend(titles[j]).Some?
    requires ReadTrend(titles[i]).value.title == ReadTrend(titles[j]).value.title
    requires ReadTrend(titles[i]).value.url !in rows
    ensures !CanInsert(rows, pending + Additions(rows, titles))
  {
    var ri, rj := titles[i], titles[j];
    assert ReadTrend(ri).value == ReadTrend(rj).value;
    RepeatedUrlBlocksCommit(rows, pending, titles, i, j);
  }

  /** Scraping the same titles again right after a successful commit adds
      nothing: every trend of the batch is then stored. */
  lemma RescrapeAddsNothing(rows: map<string, Item>, titles: seq<TitleRead>, nextId: int, now: int)
    requires CanInsert(rows, Additions(rows, titles))
    ensures Additions(InsertAll(rows, Additions(rows, titles), nextId, now), titles) == []
  {
    var added := Additions(rows, titles);
    var rows' := InsertAll(rows, added, nextId, now);
    InsertAllEffect(rows, added, nextId, now);
    forall k | 0 <= k < |titles| && ReadTrend(titles[k]).Some? ensures ReadTrend(titles[k]).value.url in rows' {
      if ReadTrend(titles[k]).value.url !in rows {
        NewTrendAdded(rows, titles, k);
      }
    }
    NothingNewAddsNothing(rows', titles);
  }

  lemma {:induction false} NothingNewAddsNothing(rows: map<string, Item>, titles: seq<TitleRead>)
    requires forall k :: 0 <= k < |titles| && ReadTrend(titles[k]).Some? ==> ReadTrend(titles[k]).value.url in rows
    ensures Additions(rows, titles) == []
    decreases |titles|
  {
    if titles != [] {
      var init := titles[..|titles| - 1];
      assert forall k :: 0 <= k < |init| ==> init[k] == titles[k];
      NothingNewAddsNothing(rows, init);
      assert ReadTrend(titles[|titles| - 1]).Some? ==> ReadTrend(titles[|titles| - 1]).value.url in rows;
    }
  }

  /** After a committed scrape the rows present before are untouched (no
      score or timestamp update), and every new row is a trend inserted at
      commit time with source "X 趋势", hot score 0 and no `updated_at`. */
  lemma CommittedBatchRows(rows: map<string, Item>, titles: seq<TitleRead>, nextId: int, now: int)
    requires CanInsert(rows, Additions(rows, titles))
    ensures var rows' := InsertAll(rows, Additions(rows, titles), nextId, now);
      && (forall u :: u in rows ==> u in rows' && rows'[u] == rows[u])
      && (forall u :: u in rows' && u !in rows ==>
            && rows'[u].title != [] && Trimmed(rows'[u].title) && TrendUrl(rows'[u].title) == Some(u)
            && ReadFrom(titles, rows'[u].title)
            && rows'[u].source == TrendSource && rows'[u].hotScore == 0.0
            && rows'[u].createdAt == now && rows'[u].updatedAt == None)
  {
    var added := Additions(rows, titles);
    InsertAllEffect(rows, added, nextId, now);
    AdditionsShape(rows, titles);
    var rows' := InsertAll(rows, added, nextId, now);
    forall u | u in rows' && u !in rows
      ensures && rows'[u].title != [] && Trimmed(rows'[u].title) && TrendUrl(rows'[u].title) == Some(u)
              && ReadFrom(titles, rows'[u].title)
              && rows'[u].source == TrendSource && rows'[u].hotScore == 0.0
              && rows'[u].createdAt == now && rows'[u].updatedAt == None
    {
      var i :| 0 <= i < |added| && added[i].url == u;
      assert added[i] in added;
    }
  }
}
