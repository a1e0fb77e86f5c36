/** Anchored block pages (src/pagination.h and the block loop of json_transactions in src/page.h). */
module Pagination {
  import opened Basics
  import opened Decimal
  import opened Chain

  datatype Bounds = Bounds(page: u64, limit: u64, offset: u64)

  /** parse_uint64_strict: std::from_chars that must consume the whole text. */
  function ParseStrict(text: string): (v: Option<u64>)
    ensures forall n: nat :: v == Some(n) ==> AllDigits(text) && Value(text) == n
  {
    if text == "" || !AllDigits(text) || Value(text) >= TWO_64 then None else Some(Value(text))
  }

  function ParseBounds(page: string, limit: string, maximum: u64): (b: Option<Bounds>)
    ensures b.Some? ==> 1 <= b.value.limit <= maximum && b.value.offset == b.value.page * b.value.limit
  {
    var p, l := ParseStrict(page), ParseStrict(limit);
    if p.None? || l.None? || l.value == 0 || l.value > maximum || p.value > MAX_64 / l.value then None
    else
      OffsetFits(p.value, l.value);
      Some(Bounds(p.value, l.value, p.value * l.value))
  }

  lemma OffsetFits(page: u64, limit: u64)
    requires limit > 0 && page <= MAX_64 / limit
    ensures page * limit < TWO_64
  {
    var q := MAX_64 / limit;
    assert q * limit <= MAX_64;
    assert page * limit <= q * limit;
  }

  datatype Range = Range(begin: nat, end: nat)

  function BlockRange(count: nat, offset: nat, limit: nat): (r: Range)
    ensures r.begin <= r.end <= count
  {
    if limit == 0 || offset >= count then Range(0, 0)
    else
      var end := count - offset;
      Range(if end > limit then end - limit else 0, end)
  }

  /** A block of the response: the id the row reports, and the block its contents came from. */
  datatype Row = Row(height: nat, hash: Id, block: Id)

  datatype Response = Response(rows: seq<Row>, count: nat, tip: Id)

  const BUDGET: nat := 5000

  /** The loop from the top of the range down, appending to out. */
  function Rows(w: World, t: nat, r: Range, used: nat, out: seq<Row>): (res: (Option<seq<Row>>, nat))
    requires r.begin <= r.end
    ensures t <= res.1
    decreases r.end
  {
    if r.begin == r.end then (Some(out), t)
    else
      var h := r.end - 1;
      var id := BlockRead(w, t, h);
      if id.None? then (None, t + 1)
      else
        var hash := w.IdAt(t + 1, h);
        var txs := |w.content(id.value).fees| + 1;
        if txs + used > BUDGET then (None, t + 2)
        else
          var fees := TransactionsRead(w, t + 2, id.value);
          if fees.None? then (None, t + 3)
          else Rows(w, t + 3, Range(r.begin, h), used + txs, out + [Row(h, hash, id.value)])
  }

  /** A page of the first height blocks: note the tip, serialise the range, recheck the tip. */
  function Serve(w: World, t: nat, height: nat, offset: nat, limit: nat): (out: (Option<Response>, nat))
    ensures t <= out.1
  {
    var tip := if height > 0 then w.IdAt(t, height - 1) else "";
    var t1 := if height > 0 then t + 1 else t;
    var (rows, t2) := Rows(w, t1, BlockRange(height, offset, limit), 0, []);
    if rows.None? then (None, t2)
    else if height > 0 && |w.ChainAt(t2)| < height then (None, t2 + 1)
    else if height > 0 && w.IdAt(t2 + 1, height - 1) != tip then (None, t2 + 2)
    else (Some(Response(rows.value, height, tip)), if height > 0 then t2 + 2 else t2)
  }

  /** The query of json_transactions. The test that the hash has 64 characters is implied by the comparison. */
  datatype Query = Query(page: string, limit: string, snapshotCount: string, snapshotTip: Id)

  function Transactions(w: World, t: nat, q: Query): (out: (Option<Response>, nat)) {
    var bounds := ParseBounds(q.page, q.limit, 100);
    if bounds.None? then (None, t)
    else
      var b := bounds.value;
      var live := |w.ChainAt(t)|;
      if q.snapshotCount == "" && q.snapshotTip == "" then Serve(w, t + 1, live, b.offset, b.limit)
      else
        var height := ParseStrict(q.snapshotCount);
        if height.None? || height.value == 0 || height.value > live then (None, t + 1)
        else if w.IdAt(t + 1, height.value - 1) != q.snapshotTip then (None, t + 2)
        else Serve(w, t + 2, height.value, b.offset, b.limit)
  }

  // --- the source's loop -----------------------------------------------------------------------

  method ReadRows(d: Daemon, r: Range) returns (rows: Option<seq<Row>>)
    requires r.begin <= r.end
    modifies d
    ensures (rows, d.now) == Rows(d.world, old(d.now), r, 0, [])
  {
    var out: seq<Row> := [];
    var used: nat := 0;
    var i: nat := r.end;
    while i > r.begin
      invariant r.begin <= i <= r.end && used <= BUDGET
      invariant Rows(d.world, old(d.now), r, 0, []) == Rows(d.world, d.now, Range(r.begin, i), used, out)
    {
      var h := i - 1;
      var id := d.BlockAt(h);
      if id.None? {
        return None;
      }
      var hash := d.BlockId(h);
      var txs := |d.world.content(id.value).fees| + 1;
      if txs > BUDGET - used {
        return None;
      }
      var fees := d.Transactions(id.value);
      if fees.None? {
        return None;
      }
      out := out + [Row(h, hash, id.value)];
      used := used + txs;
      i := h;
    }
    rows := Some(out);
  }

  method ServePage(d: Daemon, height: nat, offset: nat, limit: nat) returns (response: Option<Response>)
    modifies d
    ensures (response, d.now) == Serve(d.world, old(d.now), height, offset, limit)
  {
    hide Rows;
    var tip := "";
    if height > 0 {
      tip := d.BlockId(height - 1);
    }
    var rows := ReadRows(d, BlockRange(height, offset, limit));
    if rows.None? {
      return None;
    }
    if height > 0 {
      var count := d.BlockCount();
      if count < height {
        return None;
      }
      var id := d.BlockId(height - 1);
      if id != tip {
        return None;
      }
    }
    response := Some(Response(rows.value, height, tip));
  }

  // --- one page --------------------------------------------------------------------------------

  /** Heights end-1 down to begin of a chain. */
  function Slice(chain: seq<Id>, begin: nat, end: nat): (rows: seq<Row>)
    requires begin <= end <= |chain|
    ensures |rows| == end - begin
    ensures forall k :: 0 <= k < |rows| ==> rows[k] == Row(end - 1 - k, chain[end - 1 - k], chain[end - 1 - k])
    decreases end
  {
    if begin == end then [] else [Row(end - 1, chain[end - 1], chain[end - 1])] + Slice(chain, begin, end - 1)
  }

  /** The block below height is not removed and restored in the interval: if it is the same at both ends,
      it is the same throughout. */
  ghost predicate NotRestored(w: World, height: nat, from: nat, to: nat)
    requires height > 0
  {
    w.IdAt(from, height - 1) == w.IdAt(to, height - 1) ==> Steady(w, height - 1, from, to, w.IdAt(from, height - 1))
  }

  ghost predicate Steady(w: World, h: nat, from: nat, to: nat, tip: Id) {
    forall t: nat :: from <= t <= to ==> w.IdAt(t, h) == tip
  }

  lemma SteadyPast(w: World, height: nat, from: nat, to: nat, chain: seq<Id>, t: nat, h: nat)
    requires w.Valid() && Linked(w.content, chain) && 0 < height == |chain|
    requires Steady(w, height - 1, from, to, chain[height - 1]) && from <= t <= to && h < height
    ensures h < |w.ChainAt(t)| && w.ChainAt(t)[h] == chain[h] == w.IdAt(t, h)
  {
    assert LinkedBlock(w.content, chain, height - 1);
    assert w.IdAt(t, height - 1) == chain[height - 1];
    assert w.LinkedAt(t);
    SharedBlockSharesPast(w.content, w.ChainAt(t), chain, height - 1);
    assert w.ChainAt(t)[..height][h] == chain[..height][h];
  }

  lemma {:induction false} SteadyRows(
      w: World, t: nat, r: Range, used: nat, out: seq<Row>, height: nat, to: nat, chain: seq<Id>)
    requires w.Valid() && Linked(w.content, chain) && 0 < height == |chain|
    requires r.begin <= r.end <= height && Rows(w, t, r, used, out).0.Some? && Rows(w, t, r, used, out).1 <= to
    requires Steady(w, height - 1, t, to, chain[height - 1])
    ensures Rows(w, t, r, used, out).0.value == out + Slice(chain, r.begin, r.end)
    decreases r.end
  {
    if r.begin < r.end {
      var h := r.end - 1;
      SteadyPast(w, height, t, to, chain, t, h);
      SteadyPast(w, height, t, to, chain, t + 1, h);
      var row := Row(h, chain[h], chain[h]);
      SteadyRows(w, t + 3, Range(r.begin, h), used + |w.content(chain[h]).fees| + 1, out + [row], height, to, chain);
      assert out + [row] + Slice(chain, r.begin, h) == out + ([row] + Slice(chain, r.begin, h));
    } else {
      assert out + [] == out;
    }
  }

  /** A page that is served holds exactly its range of the linked chain ending at the tip it reports, however
      the chain grew or was reorganised meanwhile, unless that tip was removed and restored within the page. */
  lemma ServedPageIsSlice(w: World, t: nat, height: nat, offset: nat, limit: nat, chain: seq<Id>)
    requires w.Valid() && height > 0
    requires var (page, t') := Serve(w, t, height, offset, limit);
             && page.Some? && NotRestored(w, height, t, t' - 1)
             && Linked(w.content, chain) && |chain| == height && chain[height - 1] == page.value.tip
    ensures var page := Serve(w, t, height, offset, limit).0.value;
            var r := BlockRange(height, offset, limit);
            page.count == height && page.rows == Slice(chain, r.begin, r.end)
  {
    hide Rows;
    var r := BlockRange(height, offset, limit);
    var (page, t') := Serve(w, t, height, offset, limit);
    assert Steady(w, height - 1, t, t' - 1, page.value.tip);
    assert Steady(w, height - 1, t + 1, t' - 1, page.value.tip);
    SteadyRows(w, t + 1, r, 0, [], height, t' - 1, chain);
    assert [] + Slice(chain, r.begin, r.end) == Slice(chain, r.begin, r.end);
  }

  // --- all pages -------------------------------------------------------------------------------

  lemma {:induction false} SliceSplits(chain: seq<Id>, begin: nat, mid: nat, end: nat)
    requires begin <= mid <= end <= |chain|
    ensures Slice(chain, begin, end) == Slice(chain, mid, end) + Slice(chain, begin, mid)
    decreases end
  {
    if mid < end {
      SliceSplits(chain, begin, mid, end - 1);
    } else {
      assert Slice(chain, mid, end) == [];
    }
  }

  function Concat(pages: seq<Response>): (rows: seq<Row>) {
    if pages == [] then [] else Concat(pages[..|pages| - 1]) + pages[|pages| - 1].rows
  }

  /** Page p of a walk over count blocks. */
  function PageRange(count: nat, limit: nat, p: nat): (r: Range)
    ensures r.begin <= r.end <= count
  {
    BlockRange(count, p * limit, limit)
  }

  /** Consecutive pages meet, the first starts at the top and the last ends at height 0. */
  lemma PagesMeet(n: nat, limit: nat, p: nat)
    requires limit > 0 && n > 0 && p <= (n - 1) / limit
    ensures PageRange(n, limit, p).end == n - p * limit && p * limit < n
    ensures p > 0 ==> PageRange(n, limit, p - 1).begin == PageRange(n, limit, p).end
    ensures p == (n - 1) / limit ==> PageRange(n, limit, p).begin == 0
  {
    var q := (n - 1) / limit;
    assert n - 1 == limit * q + (n - 1) % limit;
    assert p * limit <= q * limit;
    assert p > 0 ==> (p - 1) * limit == p * limit - limit;
  }

  ghost predicate PageHolds(chain: seq<Id>, limit: nat, p: nat, page: Response) {
    var r := PageRange(|chain|, limit, p);
    page.rows == Slice(chain, r.begin, r.end)
  }

  lemma {:induction false} PagesTile(chain: seq<Id>, limit: nat, pages: seq<Response>)
    requires limit > 0 && chain != [] && 0 < |pages| <= (|chain| - 1) / limit + 1
    requires forall p :: 0 <= p < |pages| ==> PageHolds(chain, limit, p, pages[p])
    ensures Concat(pages) == Slice(chain, PageRange(|chain|, limit, |pages| - 1).begin, |chain|)
    decreases |pages|
  {
    hide PageRange, Slice;
    var last := |pages| - 1;
    var n := |chain|;
    PagesMeet(n, limit, last);
    assert PageHolds(chain, limit, last, pages[last]);
    if last > 0 {
      var init := pages[..last];
      forall p | 0 <= p < last ensures PageHolds(chain, limit, p, init[p]) {
        assert PageHolds(chain, limit, p, pages[p]);
      }
      PagesTile(chain, limit, init);
      var r := PageRange(n, limit, last);
      SliceSplits(chain, r.begin, r.end, n);
    } else {
      assert pages[..last] == [];
      assert Concat(pages) == [] + pages[0].rows == pages[0].rows;
    }
  }

  /** A client that asks for pages 0 to (count-1)/limit with one anchor, and gets the anchor echoed in every
      answer, has every block of the anchored chain exactly once, from the top down, provided that block was
      not removed and restored within one page. */
  lemma AnchoredWalkCoversChain(
      w: World, starts: seq<nat>, limit: nat, chain: seq<Id>, pages: seq<Response>)
    requires w.Valid() && Linked(w.content, chain) && chain != [] && |chain| < TWO_64 && 1 <= limit <= 100
    requires |pages| == |starts| == (|chain| - 1) / limit + 1
    requires forall p :: 0 <= p < |pages| ==> Answered(w, starts[p], chain, limit, p, pages[p])
    ensures Concat(pages) == Slice(chain, 0, |chain|)
  {
    hide Answered, PageHolds, PageRange, Slice, Linked, Concat;
    var n := |chain|;
    forall p | 0 <= p < |pages| ensures PageHolds(chain, limit, p, pages[p]) {
      assert Answered(w, starts[p], chain, limit, p, pages[p]);
      PagesMeet(n, limit, p);
      AnswerHolds(w, starts[p], chain, limit, p, pages[p]);
    }
    PagesTile(chain, limit, pages);
    PagesMeet(n, limit, |pages| - 1);
  }

  /** The query of page p of a walk anchored at the chain's count and tip. */
  function PageQuery(chain: seq<Id>, limit: nat, p: nat): (q: Query)
    requires chain != []
  {
    Query(Print(p), Print(limit), Print(|chain|), chain[|chain| - 1])
  }

  /** Asked at instant t, page p succeeded, and the block it took for the tip was not removed and restored
      before the last read. */
  ghost predicate Succeeded(w: World, t: nat, chain: seq<Id>, limit: nat, p: nat, page: Response)
    requires chain != []
  {
    var (out, t') := Transactions(w, t, PageQuery(chain, limit, p));
    out == Some(page) && t' > 0 && NotRestored(w, |chain|, t + 2, t' - 1)
  }

  /** Such a page that also echoes the anchor. */
  ghost predicate Answered(w: World, t: nat, chain: seq<Id>, limit: nat, p: nat, page: Response)
    requires chain != []
  {
    Succeeded(w, t, chain, limit, p, page) && page.tip == chain[|chain| - 1]
  }

  lemma ParseOfPrint(n: nat)
    requires n < TWO_64
    ensures ParseStrict(Print(n)) == Some(n)
  {
    ValueOfPrint(n);
  }

  lemma BoundsOfPrint(p: nat, limit: nat)
    requires 1 <= limit <= 100 && p * limit < TWO_64
    ensures ParseBounds(Print(p), Print(limit), 100) == Some(Bounds(p, limit, p * limit))
  {
    hide Print, Value;
    MulMonotone(1, limit, p);
    ParseOfPrint(p);
    ParseOfPrint(limit);
    PageFits(p, limit);
  }

  lemma PageFits(p: nat, limit: nat)
    requires 1 <= limit && p * limit < TWO_64
    ensures p <= MAX_64 / limit
  {
    var q := MAX_64 / limit;
    assert MAX_64 == limit * q + MAX_64 % limit;
    if q + 1 <= p {
      MulMonotone(q + 1, p, limit);
    }
  }

  /** An anchored answer is a page served for the anchored count and the page's offset. */
  lemma AnswerIsServed(w: World, t: nat, chain: seq<Id>, limit: nat, p: nat, offset: nat)
    requires 1 <= limit <= 100 && 0 < |chain| < TWO_64 && p * limit == offset < |chain|
    ensures var out := Transactions(w, t, PageQuery(chain, limit, p));
            out.0.Some? ==> out == Serve(w, t + 2, |chain|, offset, limit)
  {
    hide Serve, Transactions, ParseStrict, ParseBounds, Print;
    BoundsOfPrint(p, limit);
    ParseOfPrint(|chain|);
    var q := PageQuery(chain, limit, p);
    AnchoredIsServed(w, t, q, ParseBounds(q.page, q.limit, 100).value, |chain|);
  }

  lemma AnchoredIsServed(w: World, t: nat, q: Query, b: Bounds, height: u64)
    requires ParseBounds(q.page, q.limit, 100) == Some(b) && ParseStrict(q.snapshotCount) == Some(height)
    ensures var out := Transactions(w, t, q);
            && (out.0.Some? ==> out == Serve(w, t + 2, height, b.offset, b.limit))
            && (0 < height <= |w.ChainAt(t)| && w.IdAt(t + 1, height - 1) == q.snapshotTip
                ==> out == Serve(w, t + 2, height, b.offset, b.limit))
            && (height > |w.ChainAt(t)| || (height > 0 && w.IdAt(t + 1, height - 1) != q.snapshotTip) ==> out.0.None?)
  {
    hide Serve, ParseBounds;
  }

  lemma AnswerHolds(w: World, t: nat, chain: seq<Id>, limit: nat, p: nat, page: Response)
    requires w.Valid() && Linked(w.content, chain) && chain != []
    requires 1 <= limit <= 100 && |chain| < TWO_64 && p * limit < |chain|
    ensures Answered(w, t, chain, limit, p, page) ==> PageHolds(chain, limit, p, page)
  {
    hide Serve, Transactions, NotRestored, Linked;
    AnswerIsServed(w, t, chain, limit, p, p * limit);
    if Answered(w, t, chain, limit, p, page) {
      ServedPageIsSlice(w, t + 2, |chain|, p * limit, limit, chain);
    }
  }

  /** When a page is right: the whole answer, exactly when it echoes the chain's tip; its rows, exactly when
      the block on top of the page was the chain's at the instant t the tip was read. */
  ghost predicate RightIff(w: World, t: nat, chain: seq<Id>, r: Range, page: Response) {
    && r.begin < r.end <= |chain|
    && (page == Response(Slice(chain, r.begin, r.end), |chain|, chain[|chain| - 1])
        <==> page.tip == chain[|chain| - 1])
    && (page.rows == Slice(chain, r.begin, r.end) <==> w.IdAt(t, r.end - 1) == chain[r.end - 1])
  }

  /** An anchored success is right exactly when it echoes the anchor. */
  lemma AnchoredAnswerIff(w: World, t: nat, chain: seq<Id>, limit: nat, p: nat, page: Response)
    requires w.Valid() && Linked(w.content, chain) && chain != []
    requires 1 <= limit <= 100 && |chain| < TWO_64 && p * limit < |chain|
    ensures Succeeded(w, t, chain, limit, p, page) ==> RightIff(w, t + 2, chain, PageRange(|chain|, limit, p), page)
  {
    hide Serve, Transactions, NotRestored, Linked, RightIff, BlockRange;
    AnswerIsServed(w, t, chain, limit, p, p * limit);
    ServedAnswerIff(w, t + 2, chain, p * limit, limit, PageRange(|chain|, limit, p));
  }

  lemma ServedAnswerIff(w: World, t: nat, chain: seq<Id>, offset: nat, limit: nat, r: Range)
    requires w.Valid() && Linked(w.content, chain) && offset < |chain| && limit > 0
    requires r == BlockRange(|chain|, offset, limit)
    ensures var (out, t') := Serve(w, t, |chain|, offset, limit);
            out.Some? && t' > 0 && NotRestored(w, |chain|, t, t' - 1) ==> RightIff(w, t, chain, r, out.value)
  {
    hide Serve, NotRestored, Linked, Slice;
    ServedFromSeen(w, t, |chain|, offset, limit, r);
    var (out, t') := Serve(w, t, |chain|, offset, limit);
    if out.Some? && t' > 0 && NotRestored(w, |chain|, t, t' - 1) {
      PageOfSeenIff(w.content, w.ChainAt(t)[..|chain|], chain, r, out.value);
    }
  }

  /** A served page is a page of the chain that the read of its tip saw. */
  lemma ServedFromSeen(w: World, t: nat, height: nat, offset: nat, limit: nat, r: Range)
    requires w.Valid() && height > 0 && r == BlockRange(height, offset, limit)
    ensures var (out, t') := Serve(w, t, height, offset, limit);
            out.Some? && t' > 0 && NotRestored(w, height, t, t' - 1) ==>
              && height <= |w.ChainAt(t)|
              && var seen := w.ChainAt(t)[..height];
                 Linked(w.content, seen) && out.value == Response(Slice(seen, r.begin, r.end), height, seen[height - 1])
  {
    hide Serve, NotRestored, Linked, Slice;
    var (out, t') := Serve(w, t, height, offset, limit);
    if out.Some? && t' > 0 && NotRestored(w, height, t, t' - 1) {
      ServedTipWasThere(w, t, height, offset, limit);
      SeenChainLinked(w, t, height);
      ServedPageIsSlice(w, t, height, offset, limit, w.ChainAt(t)[..height]);
    }
  }

  /** A page of one chain, compared with another of the same length. */
  lemma PageOfSeenIff(content: Id -> Block, seen: seq<Id>, chain: seq<Id>, r: Range, page: Response)
    requires Linked(content, seen) && Linked(content, chain) && |seen| == |chain| && r.begin < r.end <= |chain|
    requires page == Response(Slice(seen, r.begin, r.end), |chain|, seen[|chain| - 1])
    ensures page == Response(Slice(chain, r.begin, r.end), |chain|, chain[|chain| - 1]) <==> page.tip == chain[|chain| - 1]
    ensures page.rows == Slice(chain, r.begin, r.end) <==> seen[r.end - 1] == chain[r.end - 1]
  {
    hide Linked, Slice;
    var n := |chain|;
    SlicesAgreeIff(content, seen, chain, r.begin, r.end);
    if page.tip == chain[n - 1] {
      SharedBlockSharesPast(content, seen, chain, n - 1);
      assert seen[..n][r.end - 1] == chain[..n][r.end - 1];
    }
  }

  /** A served page took its tip from a chain that reached the height. */
  lemma ServedTipWasThere(w: World, t: nat, height: nat, offset: nat, limit: nat)
    requires w.Valid() && height > 0
    ensures var (page, t') := Serve(w, t, height, offset, limit);
            page.Some? && NotRestored(w, height, t, t' - 1) ==> page.value.count == height <= |w.ChainAt(t)| && page.value.tip == w.ChainAt(t)[height - 1]
  {
    hide Rows;
    var (page, t') := Serve(w, t, height, offset, limit);
    if page.Some? && NotRestored(w, height, t, t' - 1) {
      var id := w.IdAt(t' - 2, height - 1);
      assert w.LinkedAt(t' - 2) && LinkedBlock(w.content, w.ChainAt(t' - 2), height - 1);
      assert w.IdAt(t, height - 1) == id != NULL_ID;
    }
  }

  lemma SeenChainLinked(w: World, t: nat, height: nat)
    requires w.Valid() && height <= |w.ChainAt(t)|
    ensures Linked(w.content, w.ChainAt(t)[..height])
  {
    var chain := w.ChainAt(t);
    assert w.LinkedAt(t);
    forall i | 0 <= i < height ensures LinkedBlock(w.content, chain[..height], i) {
      assert LinkedBlock(w.content, chain, i);
    }
  }

  /** Slices of two linked chains agree exactly when their top blocks do. */
  lemma SlicesAgreeIff(content: Id -> Block, a: seq<Id>, b: seq<Id>, begin: nat, end: nat)
    requires Linked(content, a) && Linked(content, b) && begin < end <= |a| && end <= |b|
    ensures Slice(a, begin, end) == Slice(b, begin, end) <==> a[end - 1] == b[end - 1]
  {
    var x, y := Slice(a, begin, end), Slice(b, begin, end);
    assert x[0].hash == a[end - 1] && y[0].hash == b[end - 1];
    if a[end - 1] == b[end - 1] {
      SharedBlockSharesPast(content, a, b, end - 1);
      assert forall h :: 0 <= h < end ==> a[h] == a[..end][h] == b[..end][h] == b[h];
      assert forall k :: 0 <= k < |x| ==> x[k] == y[k];
    }
  }

  // --- requests without an anchor --------------------------------------------------------------

  /** The query of page p without an anchor. */
  function LiveQuery(limit: nat, p: nat): (q: Query) {
    Query(Print(p), Print(limit), "", "")
  }

  /** Without an anchor a page is served for the live count. */
  lemma LiveIsServed(w: World, t: nat, limit: nat, p: nat, offset: nat)
    requires 1 <= limit <= 100 && p * limit == offset < TWO_64
    ensures Transactions(w, t, LiveQuery(limit, p)) == Serve(w, t + 1, |w.ChainAt(t)|, offset, limit)
  {
    hide Serve, ParseStrict, ParseBounds, Print;
    BoundsOfPrint(p, limit);
  }

  /** A success without an anchor is page p of the chain the tip was read from, cut to the live count n, and
      reports that count and tip. */
  lemma LiveAnswerIsPage(w: World, t: nat, limit: nat, p: nat, n: nat, r: Range)
    requires w.Valid() && 1 <= limit <= 100 && p * limit < TWO_64
    requires n == |w.ChainAt(t)| && n > 0 && r == PageRange(n, limit, p)
    ensures var (out, t') := Transactions(w, t, LiveQuery(limit, p));
            out.Some? && t' > 0 && NotRestored(w, n, t + 1, t' - 1) ==>
              && n <= |w.ChainAt(t + 1)|
              && var seen := w.ChainAt(t + 1)[..n];
                 Linked(w.content, seen) && out.value == Response(Slice(seen, r.begin, r.end), n, seen[n - 1])
  {
    hide Transactions, Serve, NotRestored, Linked, Slice;
    LiveIsServed(w, t, limit, p, p * limit);
    ServedFromSeen(w, t + 1, n, p * limit, limit, r);
  }

  // --- when a page is served -------------------------------------------------------------------

  /** Transactions of heights begin to end-1, coinbases included. */
  function TransactionCount(content: Id -> Block, chain: seq<Id>, begin: nat, end: nat): (n: nat)
    requires begin <= end <= |chain|
    decreases end
  {
    if begin == end then 0 else |content(chain[end - 1]).fees| + 1 + TransactionCount(content, chain, begin, end - 1)
  }

  /** From instant t to stop the chain is c and no read fails. */
  ghost predicate Still(w: World, c: IdChain, t: nat, stop: nat) {
    forall u: nat :: t <= u <= stop ==> w.schedule(u) == Instant(c, false)
  }

  lemma {:induction false} StillRows(w: World, c: IdChain, t: nat, stop: nat, r: Range, used: nat, out: seq<Row>)
    requires Still(w, c, t, stop) && r.begin <= r.end <= |c| && t + 3 * (r.end - r.begin) <= stop && used <= BUDGET
    ensures var total := used + TransactionCount(w.content, c, r.begin, r.end);
            var (rows, t') := Rows(w, t, r, used, out);
            && t' <= t + 3 * (r.end - r.begin)
            && rows == if total <= BUDGET then Some(out + Slice(c, r.begin, r.end)) else None
    decreases r.end
  {
    if r.begin < r.end {
      var h := r.end - 1;
      var txs := |w.content(c[h]).fees| + 1;
      var row := Row(h, c[h], c[h]);
      assert w.schedule(t) == w.schedule(t + 1) == w.schedule(t + 2) == Instant(c, false);
      if used + txs <= BUDGET {
        StillRows(w, c, t + 3, stop, Range(r.begin, h), used + txs, out + [row]);
        Assoc(out, [row], Slice(c, r.begin, h));
      }
    } else {
      EmptyRight(out);
    }
  }

  /** On a chain that holds a page of its first height blocks is served exactly when it has no more than 5000
      transactions, and then it is that slice. */
  lemma StillServe(w: World, c: IdChain, t: nat, stop: nat, height: nat, offset: nat, limit: nat, r: Range)
    requires Still(w, c, t, stop) && 0 < height <= |c| && t + 3 * limit + 3 <= stop
    requires r == BlockRange(height, offset, limit)
    ensures Serve(w, t, height, offset, limit).0 ==
              if TransactionCount(w.content, c, r.begin, r.end) <= 5000
              then Some(Response(Slice(c, r.begin, r.end), height, c[height - 1])) else None
  {
    hide Rows, Slice, TransactionCount;
    StillRows(w, c, t + 1, stop, r, 0, []);
    assert [] + Slice(c, r.begin, r.end) == Slice(c, r.begin, r.end);
    var t2 := Rows(w, t + 1, r, 0, []).1;
    hide BlockRange;
    assert w.schedule(t) == w.schedule(t2) == w.schedule(t2 + 1) == Instant(c, false);
  }

  /** Every request without an anchor, on a chain that holds: page p from the top, or a refusal when the page
      has more than 5000 transactions. */
  lemma LiveAnswerOnStillChain(w: World, c: IdChain, t: nat, limit: nat, p: nat, r: Range)
    requires 1 <= limit <= 100 && p * limit < TWO_64 && c != [] && r == PageRange(|c|, limit, p)
    requires Still(w, c, t, t + 3 * limit + 4)
    ensures Transactions(w, t, LiveQuery(limit, p)).0 ==
              if TransactionCount(w.content, c, r.begin, r.end) <= 5000
              then Some(Response(Slice(c, r.begin, r.end), |c|, c[|c| - 1])) else None
  {
    hide Transactions, Serve, Slice;
    LiveIsServed(w, t, limit, p, p * limit);
    assert w.schedule(t) == Instant(c, false);
    StillServe(w, c, t + 1, t + 3 * limit + 4, |c|, p * limit, limit, r);
  }

  /** Every request anchored at a block count and tip, on a chain that holds: the anchored chain's page p when
      the anchor is on the chain, and a refusal otherwise. */
  lemma AnchoredAnswerOnStillChain(w: World, c: IdChain, t: nat, anchor: seq<Id>, limit: nat, p: nat, r: Range)
    requires w.Valid() && Linked(w.content, anchor) && 0 < |anchor| < TWO_64 && r == PageRange(|anchor|, limit, p)
    requires 1 <= limit <= 100 && p * limit < TWO_64 && Still(w, c, t, t + 3 * limit + 5)
    ensures Transactions(w, t, PageQuery(anchor, limit, p)).0 ==
              if anchor <= c && TransactionCount(w.content, c, r.begin, r.end) <= 5000
              then Some(Response(Slice(c, r.begin, r.end), |anchor|, anchor[|anchor| - 1])) else None
  {
    var n := |anchor|;
    AnchorOnChainIff(w, c, t, anchor);
    hide Serve, Slice, ParseStrict, ParseBounds, Print, Linked, Transactions, BlockRange, TransactionCount;
    BoundsOfPrint(p, limit);
    ParseOfPrint(n);
    var q := PageQuery(anchor, limit, p);
    AnchoredIsServed(w, t, q, ParseBounds(q.page, q.limit, 100).value, n);
    assert w.schedule(t) == w.schedule(t + 1) == Instant(c, false);
    if n <= |c| {
      StillServe(w, c, t + 2, t + 3 * limit + 5, n, p * limit, limit, r);
    }
  }

  lemma AnchorOnChainIff(w: World, c: IdChain, t: nat, anchor: seq<Id>)
    requires w.Valid() && w.ChainAt(t) == c && Linked(w.content, anchor) && anchor != []
    ensures anchor <= c <==> |anchor| <= |c| && c[|anchor| - 1] == anchor[|anchor| - 1]
  {
    var n := |anchor|;
    assert w.LinkedAt(t);
    if n <= |c| && c[n - 1] == anchor[n - 1] {
      SharedBlockSharesPast(w.content, c, anchor, n - 1);
      assert anchor[..n] == anchor;
    }
  }

  // --- the echoed tip matters ------------------------------------------------------------------

  function SwapBlock(id: Id): (b: Block) {
    if id == "g" then Block("", 10, []) else Block("g", 5, [])
  }

  /** The chain is replaced right after the anchor was compared, and stays replaced. */
  function SwapInstant(t: nat): (i: Instant) {
    Instant(if t < 2 then ["g", "a"] else ["g", "b"], false)
  }

  const SWAP := World(SwapBlock, SwapInstant)

  lemma SwapIsLinked(id: Id, chain: seq<Id>)
    requires (id == "a" || id == "b") && chain == ["g", id]
    ensures Linked(SwapBlock, chain)
  {
    assert "g"[0] != NULL_ID[0] && "a"[0] != NULL_ID[0] && "b"[0] != NULL_ID[0];
    assert "g"[0] != "a"[0] && "g"[0] != "b"[0];
    assert LinkedBlock(SwapBlock, chain, 0) && LinkedBlock(SwapBlock, chain, 1);
  }

  /** The query for both blocks of the chain that ends at a. */
  lemma BothBlocks()
    ensures ParseBounds("0", "2", 100) == Some(Bounds(0, 2, 0)) && ParseStrict("2") == Some(2)
  {
    assert ParseStrict("0") == Some(0) && ParseStrict("2") == Some(2);
  }

  /** While the chain is the one that ends at b, the rows are that chain's. */
  lemma RowsOfB(w: World, t: nat)
    requires w.content == SwapBlock
    requires forall u: nat :: t <= u <= t + 5 ==> w.schedule(u) == Instant(["g", "b"], false)
    ensures Rows(w, t, Range(0, 2), 0, []) == (Some([Row(1, "b", "b"), Row(0, "g", "g")]), t + 6)
  {
    var g, b := Row(0, "g", "g"), Row(1, "b", "b");
    assert [] + [b] == [b] && [b] + [g] == [b, g];
    assert w.schedule(t) == w.schedule(t + 1) == w.schedule(t + 2) == w.schedule(t + 3) == w.schedule(t + 4)
           == w.schedule(t + 5);
    assert Rows(w, t + 6, Range(0, 0), 2, [b, g]) == (Some([b, g]), t + 6);
    assert Rows(w, t + 3, Range(0, 1), 1, [b]) == (Some([b, g]), t + 6);
  }

  /** The anchor is compared once and the tip is then read again: a switch between the two reads makes a
      request anchored at a succeed with blocks of another chain and another tip in the answer. So a client
      has to compare the echoed tip. */
  lemma AnchorCheckAloneIsNotEnough()
    ensures SWAP.Valid()
    ensures Transactions(SWAP, 0, Query("0", "2", "2", "a")).0
            == Some(Response([Row(1, "b", "b"), Row(0, "g", "g")], 2, "b"))
  {
    forall t: nat ensures SWAP.LinkedAt(t) {
      SwapIsLinked(if t < 2 then "a" else "b", SWAP.ChainAt(t));
    }
    BothBlocks();
    RowsOfB(SWAP, 3);
  }

  /** The chain is replaced right after the echoed tip was read, and restored for the last two reads. */
  function RestoreInstant(t: nat): (i: Instant) {
    Instant(if 3 <= t <= 8 then ["g", "b"] else ["g", "a"], false)
  }

  const RESTORE := World(SwapBlock, RestoreInstant)

  /** Nor is the echo enough when the anchored block was removed and restored within the page: the answer
      echoes a and holds the blocks of b. */
  lemma EchoIsNotEnoughWhenRestored()
    ensures RESTORE.Valid() && !NotRestored(RESTORE, 2, 2, 10)
    ensures Transactions(RESTORE, 0, Query("0", "2", "2", "a"))
            == (Some(Response([Row(1, "b", "b"), Row(0, "g", "g")], 2, "a")), 11)
  {
    forall t: nat ensures RESTORE.LinkedAt(t) {
      SwapIsLinked(if 3 <= t <= 8 then "b" else "a", RESTORE.ChainAt(t));
    }
    BothBlocks();
    RowsOfB(RESTORE, 3);
    assert "a"[0] != "b"[0] && RESTORE.IdAt(3, 1) == "b";
  }
}
