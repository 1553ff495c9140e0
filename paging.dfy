// The paging loop of `iter_attachments` (files2md) and
// `iter_pdf_attachments` (pdf2md): for each collection to fetch, pages of
// `chunk_size` items are requested until one comes back empty; each item
// key is handled once, and the generator returns as soon as `limit`
// attachments have been yielded. What the loop body makes of a new key
// (the filters and the metadata) differs between the revisions and is the
// `build` parameter here.
module Paging {
  import opened Wrappers
  import opened Models
  import opened ZoteroData
  import opened SettingsCommon
  import opened Text

  /** Where the generator stands: the keys seen, the attachments yielded,
      and whether it has returned. */
  datatype ScanState = ScanState(seen: set<string>, yielded: seq<AttachmentMetadata>, stopped: bool)

  /** The state before the first item. */
  const Start: ScanState := ScanState({}, [], false)

  /** The key of an item, when it has a non-empty one; `None` stands for an
      item without a `data` dictionary. */
  function KeyOf(item: Option<ItemData>): (k: Option<string>)
    ensures k.Some? ==> k.value != "" && item.Some? && item.value.key == k
  {
    if item.Some? && Truthy(item.value.key) then item.value.key else None
  }

  /** One item of a page: an item without a key or with a key already seen
      is passed over; otherwise its key is recorded and, when `build` makes
      an attachment of it, that attachment is yielded, and the generator
      returns once the limit is reached. */
  function Visit(s: ScanState, item: Option<ItemData>, build: ItemData -> Option<AttachmentMetadata>,
                 limit: Option<int>): ScanState
  {
    if s.stopped then s
    else
      match KeyOf(item)
      case None => s
      case Some(key) =>
        if key in s.seen then s
        else
          var seen := s.seen + {key};
          match build(item.value)
          case None => ScanState(seen, s.yielded, false)
          case Some(m) =>
            var yielded := s.yielded + [m];
            ScanState(seen, yielded, LimitSet(limit) && |yielded| >= limit.value)
  }

  /** The state after the items of `items`, in order, from state `s`. */
  function ScanFrom(s: ScanState, items: seq<Option<ItemData>>, build: ItemData -> Option<AttachmentMetadata>,
                    limit: Option<int>): ScanState
    decreases |items|
  {
    if items == [] then s
    else Visit(ScanFrom(s, items[..|items| - 1], build, limit), items[|items| - 1], build, limit)
  }

  /** The state after the items of `items`, from the start. */
  function Scan(items: seq<Option<ItemData>>, build: ItemData -> Option<AttachmentMetadata>,
                limit: Option<int>): ScanState
  {
    ScanFrom(Start, items, build, limit)
  }

  /** Every item the server lists for the collections in `fetch`, in order;
      `listing(None)` is the whole library. */
  function Stream(listing: Option<string> -> seq<Option<ItemData>>, fetch: seq<Option<string>>): seq<Option<ItemData>>
    decreases |fetch|
  {
    if fetch == [] then [] else Stream(listing, fetch[..|fetch| - 1]) + listing(fetch[|fetch| - 1])
  }

  /** `collections_to_fetch`: the collection filter, in the order Python
      iterates the set (`order`), or the whole library when there is no
      filter. */
  function CollectionsToFetch(filterKeys: set<string>, order: seq<string>): (fetch: seq<Option<string>>)
    requires forall k :: k in order <==> k in filterKeys
    ensures filterKeys == {} ==> fetch == [None]
    ensures filterKeys != {} ==> |fetch| == |order| && forall i :: 0 <= i < |order| ==> fetch[i] == Some(order[i])
  {
    if filterKeys == {} then
      [None]
    else
      seq(|order|, i requires 0 <= i < |order| => Some(order[i]))
  }

  /** The page the server returns for `start`: the next `chunkSize` items
      of the listing, empty once the listing is exhausted. */
  function Page<T>(all: seq<T>, start: nat, chunkSize: nat): (batch: seq<T>)
    requires start <= |all|
    ensures batch == [] <==> chunkSize == 0 || start == |all|
    ensures |batch| <= chunkSize && start + |batch| <= |all|
    ensures batch == all[start..start + |batch|]
  {
    if start + chunkSize <= |all| then all[start..start + chunkSize] else all[start..]
  }

  /** Scanning two runs of items one after the other is scanning the first,
      then the second from where the first left off. */
  lemma {:induction false} ScanFromAppend(s: ScanState, xs: seq<Option<ItemData>>, ys: seq<Option<ItemData>>,
                                          build: ItemData -> Option<AttachmentMetadata>, limit: Option<int>)
    ensures ScanFrom(s, xs + ys, build, limit) == ScanFrom(ScanFrom(s, xs, build, limit), ys, build, limit)
    decreases |ys|
  {
    if ys == [] {
      assert xs + ys == xs;
    } else {
      var init := ys[..|ys| - 1];
      ScanFromAppend(s, xs, init, build, limit);
      assert (xs + ys)[..|xs + ys| - 1] == xs + init;
    }
  }

  /** Once the generator has returned, further items change nothing. */
  lemma {:induction false} ScanStoppedStays(s: ScanState, ys: seq<Option<ItemData>>,
                                            build: ItemData -> Option<AttachmentMetadata>, limit: Option<int>)
    requires s.stopped
    ensures ScanFrom(s, ys, build, limit) == s
    decreases |ys|
  {
    if ys != [] {
      ScanStoppedStays(s, ys[..|ys| - 1], build, limit);
    }
  }

  /** The stream of the first `c + 1` collections continues that of the
      first `c`. */
  lemma StreamNext(listing: Option<string> -> seq<Option<ItemData>>, fetch: seq<Option<string>>, c: nat)
    requires c < |fetch|
    ensures Stream(listing, fetch[..c + 1]) == Stream(listing, fetch[..c]) + listing(fetch[c])
  {
    assert fetch[..c + 1][..c] == fetch[..c];
  }

  /** The whole stream begins with the stream of any prefix of `fetch`. */
  lemma {:induction false} StreamPrefix(listing: Option<string> -> seq<Option<ItemData>>, fetch: seq<Option<string>>, c: nat)
    requires c <= |fetch|
    ensures exists rest :: Stream(listing, fetch) == Stream(listing, fetch[..c]) + rest
    decreases |fetch| - c
  {
    if c == |fetch| {
      assert fetch[..c] == fetch;
      assert Stream(listing, fetch) == Stream(listing, fetch[..c]) + [];
    } else {
      StreamPrefix(listing, fetch, c + 1);
      StreamNext(listing, fetch, c);
      var rest :| Stream(listing, fetch) == Stream(listing, fetch[..c + 1]) + rest;
      assert Stream(listing, fetch) == Stream(listing, fetch[..c]) + (listing(fetch[c]) + rest);
    }
  }

  /** Cutting a sequence at `i` and at `j`. */
  lemma SliceJoin<T>(all: seq<T>, i: nat, j: nat)
    requires i <= j <= |all|
    ensures all[..i] + all[i..j] == all[..j]
    ensures all[..j] + all[j..] == all
  {
  }

  /** What the loop body does with one item of a page. */
  method VisitItem(seen: set<string>, yielded: seq<AttachmentMetadata>, item: Option<ItemData>,
                   build: ItemData -> Option<AttachmentMetadata>, limit: Option<int>)
    returns (seen': set<string>, yielded': seq<AttachmentMetadata>, stop: bool)
    ensures ScanState(seen', yielded', stop) == Visit(ScanState(seen, yielded, false), item, build, limit)
  {
    seen', yielded', stop := seen, yielded, false;
    var key := if item.Some? then item.value.key else None;
    if !Truthy(key) || key.value in seen {
      return;
    }
    seen' := seen + {key.value};
    var metadata := build(item.value);
    if metadata.None? {
      return;
    }
    yielded' := yielded + [metadata.value];
    stop := LimitSet(limit) && |yielded'| >= limit.value;
  }

  /** The `for item in batch` loop: visits the items of one page in turn,
      stopping at the limit. */
  method VisitPage(seen: set<string>, yielded: seq<AttachmentMetadata>, batch: seq<Option<ItemData>>,
                   build: ItemData -> Option<AttachmentMetadata>, limit: Option<int>)
    returns (seen': set<string>, yielded': seq<AttachmentMetadata>, stop: bool)
    ensures ScanState(seen', yielded', stop) == ScanFrom(ScanState(seen, yielded, false), batch, build, limit)
  {
    ghost var s0 := ScanState(seen, yielded, false);
    seen', yielded', stop := seen, yielded, false;
    var b := 0;
    while b < |batch|
      invariant 0 <= b <= |batch|
      invariant ScanFrom(s0, batch[..b], build, limit) == ScanState(seen', yielded', false)
    {
      assert batch[..b + 1][..b] == batch[..b];
      seen', yielded', stop := VisitItem(seen', yielded', batch[b], build, limit);
      if stop {
        ScanFromAppend(s0, batch[..b + 1], batch[b + 1..], build, limit);
        assert batch[..b + 1] + batch[b + 1..] == batch;
        ScanStoppedStays(ScanState(seen', yielded', stop), batch[b + 1..], build, limit);
        return;
      }
      b := b + 1;
    }
    assert batch[..b] == batch;
  }

  /** The `while True` loop over the pages of one collection: pages from
      start 0, `chunkSize` items at a time, until the server returns an
      empty page; stops at the limit. */
  method VisitListing(seen: set<string>, yielded: seq<AttachmentMetadata>, all: seq<Option<ItemData>>,
                      chunkSize: int, build: ItemData -> Option<AttachmentMetadata>, limit: Option<int>)
    returns (seen': set<string>, yielded': seq<AttachmentMetadata>, stop: bool)
    requires chunkSize > 0
    ensures ScanState(seen', yielded', stop) == ScanFrom(ScanState(seen, yielded, false), all, build, limit)
  {
    ghost var s0 := ScanState(seen, yielded, false);
    seen', yielded', stop := seen, yielded, false;
    var start := 0;
    var batch := Page(all, start, chunkSize);
    assert all[..start] == [];
    while batch != []
      invariant 0 <= start <= |all| && batch == Page(all, start, chunkSize)
      invariant ScanFrom(s0, all[..start], build, limit) == ScanState(seen', yielded', false)
      decreases |all| - start
    {
      seen', yielded', stop := VisitPage(seen', yielded', batch, build, limit);
      SliceJoin(all, start, start + |batch|);
      ScanFromAppend(s0, all[..start], batch, build, limit);
      if stop {
        ScanFromAppend(s0, all[..start + |batch|], all[start + |batch|..], build, limit);
        ScanStoppedStays(ScanState(seen', yielded', stop), all[start + |batch|..], build, limit);
        return;
      }
      start := start + |batch|;
      batch := Page(all, start, chunkSize);
    }
    assert all[..start] == all;
  }

  /** `iter_attachments` run to its end: each collection to fetch is paged
      through in turn, and the generator returns as soon as the limit is
      reached; the attachments it yields are those of one scan of every
      listed item. */
  method Iterate(listing: Option<string> -> seq<Option<ItemData>>, fetch: seq<Option<string>>, chunkSize: int,
                 build: ItemData -> Option<AttachmentMetadata>, limit: Option<int>)
    returns (yielded: seq<AttachmentMetadata>)
    requires chunkSize > 0
    ensures yielded == Scan(Stream(listing, fetch), build, limit).yielded
  {
    var seen: set<string> := {};
    yielded := [];
    var c := 0;
    while c < |fetch|
      invariant 0 <= c <= |fetch|
      invariant Scan(Stream(listing, fetch[..c]), build, limit) == ScanState(seen, yielded, false)
    {
      var stop;
      seen, yielded, stop := VisitListing(seen, yielded, listing(fetch[c]), chunkSize, build, limit);
      StreamNext(listing, fetch, c);
      ScanFromAppend(Start, Stream(listing, fetch[..c]), listing(fetch[c]), build, limit);
      if stop {
        StreamPrefix(listing, fetch, c + 1);
        var rest :| Stream(listing, fetch) == Stream(listing, fetch[..c + 1]) + rest;
        ScanFromAppend(Start, Stream(listing, fetch[..c + 1]), rest, build, limit);
        ScanStoppedStays(ScanState(seen, yielded, stop), rest, build, limit);
        return;
      }
      c := c + 1;
    }
    assert fetch[..c] == fetch;
  }

  /** `m` is what `build` makes of one of the listed items. */
  predicate BuiltFrom(items: seq<Option<ItemData>>, build: ItemData -> Option<AttachmentMetadata>, m: AttachmentMetadata)
  {
    exists j :: 0 <= j < |items| && items[j].Some? && build(items[j].value) == Some(m)
  }

  /** Each yielded attachment is what `build` made of one of the items. */
  lemma {:induction false} ScanYieldsBuilt(items: seq<Option<ItemData>>, build: ItemData -> Option<AttachmentMetadata>,
                                           limit: Option<int>)
    ensures forall m :: m in Scan(items, build, limit).yielded ==> BuiltFrom(items, build, m)
    decreases |items|
  {
    if items != [] {
      var init := items[..|items| - 1];
      ScanYieldsBuilt(init, build, limit);
      forall m | BuiltFrom(init, build, m) ensures BuiltFrom(items, build, m) {
        var j :| 0 <= j < |init| && init[j].Some? && build(init[j].value) == Some(m);
        assert items[j] == init[j];
      }
      var x := items[|items| - 1];
      if x.Some? && build(x.value).Some? {
        assert BuiltFrom(items, build, build(x.value).value);
      }
    }
  }

  /** Whatever holds of every attachment `build` makes holds of every
      attachment yielded. */
  lemma ScanYieldsOnly(items: seq<Option<ItemData>>, build: ItemData -> Option<AttachmentMetadata>,
                       limit: Option<int>, p: AttachmentMetadata -> bool)
    requires forall d :: build(d).Some? ==> p(build(d).value)
    ensures forall m :: m in Scan(items, build, limit).yielded ==> p(m)
  {
    ScanYieldsBuilt(items, build, limit);
    forall m | m in Scan(items, build, limit).yielded ensures p(m) {
      var j :| 0 <= j < |items| && items[j].Some? && build(items[j].value) == Some(m);
    }
  }

  /** No key is handled twice: when `build` keeps the item key as the
      attachment key, every yielded key has been seen, and no two yielded
      attachments share a key. */
  lemma {:induction false} ScanKeysDistinct(items: seq<Option<ItemData>>, build: ItemData -> Option<AttachmentMetadata>,
                                            limit: Option<int>)
    requires forall d :: build(d).Some? ==> d.key.Some? && build(d).value.attachmentKey == d.key.value
    ensures forall m :: m in Scan(items, build, limit).yielded ==> m.attachmentKey in Scan(items, build, limit).seen
    ensures var y := Scan(items, build, limit).yielded;
            forall i, j :: 0 <= i < j < |y| ==> y[i].attachmentKey != y[j].attachmentKey
    decreases |items|
  {
    if items != [] {
      ScanKeysDistinct(items[..|items| - 1], build, limit);
    }
  }

  /** With a positive limit `n` the scan agrees with an unlimited one until
      `n` attachments are out, and then holds exactly the first `n`. */
  lemma {:induction false} ScanLimitAgrees(items: seq<Option<ItemData>>, build: ItemData -> Option<AttachmentMetadata>,
                                           n: int)
    requires n > 0
    ensures var s := Scan(items, build, Some(n));
            var u := Scan(items, build, None);
            if s.stopped then |s.yielded| == n && n <= |u.yielded| && s.yielded == u.yielded[..n]
            else s == ScanState(u.seen, u.yielded, false) && |u.yielded| < n
    ensures !Scan(items, build, None).stopped
    decreases |items|
  {
    if items != [] {
      var init := items[..|items| - 1];
      ScanLimitAgrees(init, build, n);
      var x := items[|items| - 1];
      var p := Scan(init, build, Some(n));
      var u := Scan(init, build, None);
      assert Scan(items, build, Some(n)) == Visit(p, x, build, Some(n));
      assert Scan(items, build, None) == Visit(u, x, build, None);
      assert u.yielded <= Scan(items, build, None).yielded;
      var u' := Scan(items, build, None);
      if p.stopped {
        assert u'.yielded[..n] == u.yielded[..n];
      } else if Scan(items, build, Some(n)).stopped {
        assert u'.yielded[..n] == u'.yielded;
      }
    }
  }

  /** The limit only cuts the run short: with a positive limit `n`, the
      attachments yielded are the first `n` of those an unlimited run
      yields (all of them when there are fewer), and never more than `n`. */
  lemma ScanLimitTruncates(items: seq<Option<ItemData>>, build: ItemData -> Option<AttachmentMetadata>, n: int)
    requires n > 0
    ensures var all := Scan(items, build, None).yielded;
            Scan(items, build, Some(n)).yielded == if |all| <= n then all else all[..n]
    ensures |Scan(items, build, Some(n)).yielded| <= n
  {
    ScanLimitAgrees(items, build, n);
  }
}
