/** Splitting search responses into packets: `split_stock_search_responses` in
    `crates/overlord-agent-emule/src/agent/kad_unsolicited.rs`, over the packet layout of
    `crates/overlord-kad-proto/src/packet/codec.rs`. */
module Pager {
  import opened Common
  import opened Tags
  import opened NodeIds

  const OP_KADEMLIAHEADER: byte := 0xE4
  const SEARCH_RES: byte := 0x3B
  const HEADER_LEN := 36

  datatype RawEntry = RawEntry(entryId: Hash16, tags: seq<Tag>)

  /** The counts and lengths the packet writer insists on. */
  predicate Writable(e: RawEntry) { |e.tags| < 0x100 && AllEncodable(e.tags) }

  type Entry = e: RawEntry | Writable(e)
    witness RawEntry([0, 0, 0, 0, 0, 0, 0, 0, 0, 0, 0, 0, 0, 0, 0, 0], [])

  datatype Response = Response(senderId: Hash16, target: Hash16, results: seq<Entry>)

  /** Entry IDs are written with the bytes of every 32-bit chunk reversed. */
  function WriteEntry(e: Entry): Bytes
  {
    SwapChunks(e.entryId) + [|e.tags|] + WriteTags(e.tags)
  }

  function WriteEntries(es: seq<Entry>): Bytes
  {
    if es == [] then [] else WriteEntry(es[0]) + WriteEntries(es[1..])
  }

  function EncodeResponse(r: Response): Bytes
    requires |r.results| < 0x1_0000
  {
    [OP_KADEMLIAHEADER, SEARCH_RES] + r.senderId + r.target + Le(|r.results|, 2) + WriteEntries(r.results)
  }

  // ---- page lengths -----------------------------------------------------------------------------------

  function EntryLen(e: Entry): nat
  {
    |WriteEntry(e)|
  }

  function EntriesLen(es: seq<Entry>): nat
  {
    if es == [] then 0 else EntryLen(es[0]) + EntriesLen(es[1..])
  }

  /** A page's packet is a fixed header plus its entries. */
  lemma {:induction false} ResponseLen(r: Response)
    requires |r.results| < 0x1_0000
    ensures |EncodeResponse(r)| == HEADER_LEN + EntriesLen(r.results)
  {
    EntriesWrittenLen(r.results);
  }

  lemma {:induction false} EntriesWrittenLen(es: seq<Entry>)
    ensures |WriteEntries(es)| == EntriesLen(es)
  {
    if es != [] { EntriesWrittenLen(es[1..]); }
  }

  lemma {:induction false} EntriesLenAppend(a: seq<Entry>, b: seq<Entry>)
    ensures EntriesLen(a + b) == EntriesLen(a) + EntriesLen(b)
  {
    hide EntryLen, Writable;
    if a == [] {
      assert a + b == b;
    } else {
      EntriesLenAppend(a[1..], b);
      assert (a + b)[1..] == a[1..] + b;
    }
  }

  predicate Fits(page: seq<Entry>, limit: nat)
  {
    HEADER_LEN + EntriesLen(page) <= limit
  }

  /** A packet either fits or cannot be split further. */
  predicate PageOk(page: seq<Entry>, limit: nat)
  {
    page != [] && (Fits(page, limit) || |page| == 1)
  }

  lemma SubpageFits(a: seq<Entry>, page: seq<Entry>, b: seq<Entry>, limit: nat)
    requires Fits(a + page + b, limit)
    ensures Fits(page, limit)
  {
    hide EntriesLen;
    EntriesLenAppend(a, page);
    EntriesLenAppend(a + page, b);
  }

  // ---- greedy splitting ---------------------------------------------------------------------------------

  /** How far the page that starts with `n` entries grows. */
  function Grow(es: seq<Entry>, n: nat, limit: nat): (r: nat)
    requires 1 <= n <= |es|
    ensures n <= r <= |es|
    decreases |es| - n
  {
    if n == |es| || !Fits(es[..n + 1], limit) then n else Grow(es, n + 1, limit)
  }

  function Greedy(es: seq<Entry>, limit: nat): (pages: seq<seq<Entry>>)
    decreases |es|
  {
    if es == [] then [] else
      var n := Grow(es, 1, limit);
      [es[..n]] + Greedy(es[n..], limit)
  }

  function Concat(pages: seq<seq<Entry>>): seq<Entry>
  {
    if pages == [] then [] else pages[0] + Concat(pages[1..])
  }

  /** An in-order split of `es` into non-empty pages that fit or hold a single result. */
  ghost predicate IsSplit(pages: seq<seq<Entry>>, es: seq<Entry>, limit: nat)
  {
    && Concat(pages) == es
    && forall i :: 0 <= i < |pages| ==> PageOk(pages[i], limit)
  }

  lemma {:induction false} GrowSpec(es: seq<Entry>, n: nat, limit: nat)
    requires 1 <= n <= |es| && PageOk(es[..n], limit)
    ensures var r := Grow(es, n, limit);
            PageOk(es[..r], limit) && (r < |es| ==> !Fits(es[..r + 1], limit))
    decreases |es| - n
  {
    if n < |es| && Fits(es[..n + 1], limit) { GrowSpec(es, n + 1, limit); }
  }

  /** No valid first page is longer than the greedy one. */
  lemma {:induction false} GrowIsLongest(es: seq<Entry>, m: nat, limit: nat)
    requires 1 <= m <= |es| && PageOk(es[..m], limit)
    ensures m <= Grow(es, 1, limit)
  {
    var r := Grow(es, 1, limit);
    GrowSpec(es, 1, limit);
    if r < m {
      assert es[..m] == [] + es[..r + 1] + es[r + 1..m];
      SubpageFits([], es[..r + 1], es[r + 1..m], limit);
    }
  }

  lemma SplitCons(es: seq<Entry>, n: nat, rest: seq<seq<Entry>>, limit: nat)
    requires n <= |es| && PageOk(es[..n], limit) && IsSplit(rest, es[n..], limit)
    ensures IsSplit([es[..n]] + rest, es, limit)
  {
    hide PageOk;
    var pages := [es[..n]] + rest;
    assert pages[1..] == rest;
    assert es == es[..n] + es[n..];
  }

  lemma {:induction false} GreedySplits(es: seq<Entry>, limit: nat)
    ensures IsSplit(Greedy(es, limit), es, limit)
    decreases |es|
  {
    if es != [] {
      hide PageOk, Grow;
      var n := Grow(es, 1, limit);
      GrowSpec(es, 1, limit);
      GreedySplits(es[n..], limit);
      SplitCons(es, n, Greedy(es[n..], limit), limit);
    }
  }

  lemma GreedyHead(es: seq<Entry>, limit: nat)
    requires es != []
    ensures Greedy(es, limit) == [es[..Grow(es, 1, limit)]] + Greedy(es[Grow(es, 1, limit)..], limit)
  {
    hide Grow;
  }

  /** Dropping leading results never costs the greedy split a page. */
  lemma {:induction false} GreedyMonotone(es: seq<Entry>, k: nat, limit: nat)
    requires k <= |es|
    ensures |Greedy(es[k..], limit)| <= |Greedy(es, limit)|
    decreases |es|
  {
    hide Greedy, Grow;
    if k == 0 {
      assert es[0..] == es;
    } else {
      var n := Grow(es, 1, limit);
      GreedyHead(es, limit);
      if k >= n {
        GreedyMonotone(es[n..], k - n, limit);
        assert es[n..][k - n..] == es[k..];
      } else {
        var m := ReachAfterDrop(es, k, limit);
        GreedyMonotone(es[n..], m - n, limit);
        assert es[n..][m - n..] == es[m..];
        GreedyHead(es[k..], limit);
        assert es[k..][m - k..] == es[m..];
      }
    }
  }

  /** The end of a page is a page. */
  lemma SubpageOk(es: seq<Entry>, k: nat, n: nat, limit: nat)
    requires 0 < k < n <= |es| && PageOk(es[..n], limit)
    ensures PageOk(es[k..n], limit)
  {
    hide Fits;
    assert es[..n] == es[..k] + es[k..n] + [];
    SubpageFits(es[..k], es[k..n], [], limit);
  }

  /** After dropping `k` results of the first page, the next page still reaches at least as far. */
  lemma ReachAfterDrop(es: seq<Entry>, k: nat, limit: nat) returns (m: nat)
    requires es != [] && 0 < k < Grow(es, 1, limit)
    ensures m == k + Grow(es[k..], 1, limit) && Grow(es, 1, limit) <= m <= |es|
  {
    hide Grow, Fits, PageOk;
    var n := Grow(es, 1, limit);
    GrowSpec(es, 1, limit);
    var (page, rest) := (es[k..n], es[k..]);
    assert rest[..n - k] == page;
    assert PageOk(page, limit) by {
      SubpageOk(es, k, n, limit);
    }
    GrowIsLongest(rest, n - k, limit);
    m := k + Grow(rest, 1, limit);
  }

  lemma EmptySplit(es: seq<Entry>, limit: nat)
    requires IsSplit([], es, limit)
    ensures Greedy(es, limit) == []
  {
  }

  lemma SplitTail(es: seq<Entry>, pages: seq<seq<Entry>>, limit: nat)
    requires IsSplit(pages, es, limit) && pages != []
    ensures var m := |pages[0]|;
            && 0 < m <= |es| && es[..m] == pages[0] && PageOk(pages[0], limit)
            && IsSplit(pages[1..], es[m..], limit)
  {
    var m := |pages[0]|;
    assert es == pages[0] + Concat(pages[1..]);
    assert es[m..] == Concat(pages[1..]);
  }

  /** No split obeying the page rule uses fewer pages than the greedy one. */
  lemma {:induction false} GreedyIsOptimal(es: seq<Entry>, pages: seq<seq<Entry>>, limit: nat)
    requires IsSplit(pages, es, limit)
    ensures |Greedy(es, limit)| <= |pages|
    decreases |pages|
  {
    hide Greedy, Grow, PageOk, IsSplit;
    if pages == [] {
      EmptySplit(es, limit);
    } else {
      var m := |pages[0]|;
      SplitTail(es, pages, limit);
      GreedyIsOptimal(es[m..], pages[1..], limit);
      GrowIsLongest(es, m, limit);
      var n := Grow(es, 1, limit);
      GreedyMonotone(es[m..], n - m, limit);
      assert es[m..][n - m..] == es[n..];
      GreedyHead(es, limit);
    }
  }

  // ---- the loop ---------------------------------------------------------------------------------------------

  /** A page that cannot take the next result is a greedy first page. */
  lemma {:induction false} ClosedPage(es: seq<Entry>, from: nat, n: nat, limit: nat)
    requires 1 <= from <= n < |es| && PageOk(es[..n], limit) && !Fits(es[..n + 1], limit)
    ensures Grow(es, from, limit) == n
    decreases n - from
  {
    if from < n {
      assert es[..n] == [] + es[..from + 1] + es[from + 1..n];
      SubpageFits([], es[..from + 1], es[from + 1..n], limit);
      ClosedPage(es, from + 1, n, limit);
    }
  }

  lemma {:induction false} LastPage(es: seq<Entry>, from: nat, limit: nat)
    requires 1 <= from <= |es| && PageOk(es, limit)
    ensures Grow(es, from, limit) == |es|
    decreases |es| - from
  {
    if from < |es| {
      assert es == [] + es[..from + 1] + es[from + 1..];
      SubpageFits([], es[..from + 1], es[from + 1..], limit);
      LastPage(es, from + 1, limit);
    }
  }

  /** The packet writer counts the results of a page in 16 bits and panics beyond. The loop encodes every page it
      builds, and every page but the last once more with the result that no longer fits. */
  ghost predicate Countable(es: seq<Entry>, limit: nat)
  {
    var pages := Greedy(es, limit);
    forall i :: 0 <= i < |pages| ==> |pages[i]| + (if i == |pages| - 1 then 0 else 1) < 0x1_0000
  }

  /** Few results, or pages of at most a mebibyte, are always countable. */
  lemma UsuallyCountable(es: seq<Entry>, limit: nat)
    requires |es| < 0x1_0000 || limit <= 0xF_FFFF
    ensures Countable(es, limit)
  {
    hide Greedy, Fits;
    GreedySplits(es, limit);
    var pages := Greedy(es, limit);
    forall i | 0 <= i < |pages| ensures |pages[i]| + (if i == |pages| - 1 then 0 else 1) < 0x1_0000 {
      if limit <= 0xF_FFFF {
        PageIsShort(pages[i], limit);
      } else {
        PageWithin(pages, i);
      }
    }
  }

  /** A page that is not the last leaves results for the last one. */
  lemma {:induction false} PageWithin(pages: seq<seq<Entry>>, i: nat)
    requires i < |pages| && forall k :: 0 <= k < |pages| ==> pages[k] != []
    ensures |pages[i]| + (if i == |pages| - 1 then 0 else 1) <= |Concat(pages)|
  {
    if i > 0 {
      PageWithin(pages[1..], i - 1);
    } else if |pages| > 1 {
      assert Concat(pages[1..]) == pages[1] + Concat(pages[2..]) by { assert pages[1..][1..] == pages[2..]; }
    }
  }

  lemma {:induction false} EntriesLenAtLeast(es: seq<Entry>)
    ensures EntriesLen(es) >= 17 * |es|
  {
    if es != [] { EntriesLenAtLeast(es[1..]); }
  }

  lemma PageIsShort(page: seq<Entry>, limit: nat)
    requires PageOk(page, limit) && limit <= 0xF_FFFF
    ensures |page| < 0xFFFF
  {
    hide EntriesLen;
    EntriesLenAtLeast(page);
  }

  /** For a positive limit and at least two results the pages split the results in order, each fits or holds
      one result, and no such split has fewer pages; otherwise the response stays whole. */
  method SplitStockSearchResponses(response: Response, limit: nat) returns (pages: seq<Response>)
    requires limit == 0 || |response.results| <= 1 || Countable(response.results, limit)
    ensures forall i :: 0 <= i < |pages| ==>
              pages[i].senderId == response.senderId && pages[i].target == response.target
    ensures limit == 0 || |response.results| <= 1 ==> pages == [response]
    ensures limit > 0 && |response.results| > 1 ==>
              var split := seq(|pages|, i requires 0 <= i < |pages| => pages[i].results);
              && split == Greedy(response.results, limit)
              && IsSplit(split, response.results, limit)
              && forall other :: IsSplit(other, response.results, limit) ==> |pages| <= |other|
  {
    hide Greedy, IsSplit, Writable;
    if limit == 0 || |response.results| <= 1 { return [response]; }
    var split := SplitResults(response.results, limit);
    GreedySplits(response.results, limit);
    forall other | IsSplit(other, response.results, limit) ensures |split| <= |other| {
      GreedyIsOptimal(response.results, other, limit);
    }
    pages := seq(|split|, i requires 0 <= i < |split| => response.(results := split[i]));
    assert split == seq(|pages|, i requires 0 <= i < |pages| => pages[i].results);
  }

  method SplitResults(es: seq<Entry>, limit: nat) returns (pages: seq<seq<Entry>>)
    requires Countable(es, limit)
    ensures pages == Greedy(es, limit)
  {
    hide Greedy, EntriesLen, Writable;
    pages := [];
    var current: seq<Entry> := [];
    var i := 0;
    ghost var done := 0;
    assert es[0..] == es;
    while i < |es|
      invariant 0 <= done <= i <= |es| && current == es[done..i]
      invariant current != [] ==> PageOk(current, limit)
      invariant i > 0 ==> current != []
      invariant pages + Greedy(es[done..], limit) == Greedy(es, limit)
    {
      if current == [] {
        current := [es[i]];
        i := i + 1;
        continue;
      }
      var candidate := current + [es[i]];
      assert candidate == es[done..i + 1];
      CandidateCounts(es, pages, done, i, limit);
      var length := EncodedLength(candidate);
      if length > limit {
        NextPage(es, done, i, limit);
        assert pages + ([current] + Greedy(es[i..], limit)) == (pages + [current]) + Greedy(es[i..], limit);
        pages := pages + [current];
        current := [es[i]];
        done := i;
      } else {
        current := candidate;
      }
      i := i + 1;
    }
    assert current == es[done..];
    if current != [] {
      FinalPage(es, done, limit);
      pages := pages + [current];
    } else {
      GreedyEmpty(es, limit);
    }
  }

  /** A candidate page the loop encodes is part of a greedy page, or one result longer than a page that is not
      the last. */
  lemma CandidateCounts(es: seq<Entry>, pages: seq<seq<Entry>>, done: nat, i: nat, limit: nat)
    requires Countable(es, limit) && done < i < |es| && PageOk(es[done..i], limit)
    requires pages + Greedy(es[done..], limit) == Greedy(es, limit)
    ensures i + 1 - done < 0x1_0000
  {
    hide Greedy, PageOk;
    var rest := es[done..];
    assert rest[..i - done] == es[done..i];
    GrowIsLongest(rest, i - done, limit);
    GreedyHead(rest, limit);
    var all := Greedy(es, limit);
    var page := rest[..Grow(rest, 1, limit)];
    assert all[|pages|] == page;
    if |page| == i - done { GreedyNonEmpty(rest[|page|..], limit); }
  }

  lemma GreedyNonEmpty(es: seq<Entry>, limit: nat)
    requires es != []
    ensures Greedy(es, limit) != []
  {
    GreedyHead(es, limit);
  }

  lemma GreedyEmpty(es: seq<Entry>, limit: nat)
    requires es == []
    ensures Greedy(es, limit) == []
  {
  }

  lemma NextPage(es: seq<Entry>, done: nat, i: nat, limit: nat)
    requires done < i < |es| && PageOk(es[done..i], limit) && !Fits(es[done..i + 1], limit)
    ensures Greedy(es[done..], limit) == [es[done..i]] + Greedy(es[i..], limit)
  {
    var rest := es[done..];
    assert rest[..i - done] == es[done..i] && rest[..i - done + 1] == es[done..i + 1] && rest[i - done..] == es[i..];
    ClosedPage(rest, 1, i - done, limit);
  }

  lemma FinalPage(es: seq<Entry>, done: nat, limit: nat)
    requires done < |es| && PageOk(es[done..], limit)
    ensures Greedy(es[done..], limit) == [es[done..]]
  {
    LastPage(es[done..], 1, limit);
    assert es[done..][..|es| - done] == es[done..];
  }

  /** The length of the packet a candidate page would become. */
  method EncodedLength(es: seq<Entry>) returns (n: nat)
    requires |es| < 0x1_0000
    ensures n == HEADER_LEN + EntriesLen(es)
  {
    var id: Hash16 := seq(16, _ => 0);
    var packet := EncodeResponse(Response(id, id, es));
    ResponseLen(Response(id, id, es));
    n := |packet|;
  }
}
