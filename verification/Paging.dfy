/**
 Paging by cursor, over an ordered list that may change from one page to the next.  A
 page resumes behind the item whose id it is given, and is refused when there is none.
 */
module Paging {
  import opened Wrappers

  datatype Item = Item(id: string, value: string)

  datatype Answer = UnknownCursor | Page(data: seq<Item>, hasMore: bool)

  ghost predicate Distinct(items: seq<Item>) {
    forall i, j :: 0 <= i < j < |items| ==> items[i].id != items[j].id
  }

  predicate Present(items: seq<Item>, id: string) {
    exists i :: 0 <= i < |items| && items[i].id == id
  }

  /** What follows the first item with an id. */
  function Rest(items: seq<Item>, id: string): seq<Item> {
    if items == [] then [] else if items[0].id == id then items[1..] else Rest(items[1..], id)
  }

  /** The first `limit` of what is left, and whether more follows. */
  function Upto(rest: seq<Item>, limit: nat): Answer {
    Page(if |rest| > limit then rest[..limit] else rest, |rest| > limit)
  }

  function PageOf(items: seq<Item>, after: Option<string>, limit: nat): Answer {
    if after.Some? && !Present(items, after.value) then UnknownCursor
    else
      var rest := if after.Some? then Rest(items, after.value) else items;
      Upto(rest, limit)
  }

  method Paginate(items: seq<Item>, after: Option<string>, limit: nat) returns (r: Answer)
    ensures r == PageOf(items, after, limit)
  {
    var rest := items;
    if after.Some? {
      var at := -1;
      for i := 0 to |items|
        invariant at == -1
        invariant forall k :: 0 <= k < i ==> items[k].id != after.value
      {
        if items[i].id == after.value {
          at := i;
          break;
        }
      }
      if at < 0 {
        return UnknownCursor;
      }
      RestAt(items, at);
      rest := items[at + 1..];
    }
    var hasMore := |rest| > limit;
    if hasMore {
      rest := rest[..limit];
    }
    return Page(rest, hasMore);
  }

  lemma {:induction false} RestAt(items: seq<Item>, at: nat)
    requires at < |items| && forall k :: 0 <= k < at ==> items[k].id != items[at].id
    ensures Rest(items, items[at].id) == items[at + 1..]
  {
    if at > 0 {
      RestAt(items[1..], at - 1);
      assert items[1..][at..] == items[at + 1..];
    }
  }

  /** A page in its own terms: from the start without a cursor, behind the first item of that id
      with one, as many items as the limit allows, more exactly when some are left; and a
      refusal exactly when no item has that id. */
  lemma FirstPage(items: seq<Item>, limit: nat)
    ensures PageOf(items, None, limit) == Page(items[..if |items| > limit then limit else |items|], |items| > limit)
  {
    assert items[..|items|] == items;
  }

  lemma PageBehind(items: seq<Item>, at: nat, limit: nat)
    requires at < |items| && forall k :: 0 <= k < at ==> items[k].id != items[at].id
    ensures var more := |items| - at - 1 > limit;
            PageOf(items, Some(items[at].id), limit) == Page(items[at + 1..if more then at + 1 + limit else |items|], more)
  {
    RestAt(items, at);
    assert Present(items, items[at].id);
    var rest := items[at + 1..];
    if |rest| > limit {
      assert rest[..limit] == items[at + 1..at + 1 + limit];
    }
  }

  lemma RefusedIffUnknown(items: seq<Item>, id: string, limit: nat)
    ensures PageOf(items, Some(id), limit) == UnknownCursor <==> forall i :: 0 <= i < |items| ==> items[i].id != id
  {
  }

  // ----- nothing changes -----

  function Last(p: Answer): string
    requires p.Page? && p.data != []
  {
    p.data[|p.data| - 1].id
  }

  lemma PageAfter(items: seq<Item>, k: nat, limit: nat)
    requires Distinct(items) && 0 < k <= |items|
    ensures PageOf(items, Some(items[k - 1].id), limit) == Upto(items[k..], limit)
  {
    RestAt(items, k - 1);
    assert Present(items, items[k - 1].id);
  }

  /** What a caller holds after the page `r`. */
  ghost predicate Holds(items: seq<Item>, all: seq<Item>, r: Answer) {
    && r.Page? && all <= items
    && if r.hasMore then r.data != [] && 0 < |all| < |items| && Last(r) == items[|all| - 1].id else all == items
  }

  lemma HoldsMore(items: seq<Item>, k: nat, limit: nat)
    requires limit >= 1 && k <= |items|
    ensures var r := Upto(items[k..], limit); Holds(items, items[..k] + r.data, r) && (r.hasMore ==> |r.data| == limit)
  {
    var r := Upto(items[k..], limit);
    if r.hasMore {
      assert items[..k] + r.data == items[..k + limit];
    } else {
      assert items[..k] + r.data == items;
    }
  }

  lemma HoldsNext(items: seq<Item>, all: seq<Item>, r: Answer, limit: nat)
    requires limit >= 1 && Distinct(items) && Holds(items, all, r) && r.hasMore
    ensures var next := PageOf(items, Some(Last(r)), limit);
            next.Page? && Holds(items, all + next.data, next) && (next.hasMore ==> next.data != [])
  {
    var k := |all|;
    PageAfter(items, k, limit);
    HoldsMore(items, k, limit);
    assert all == items[..k];
  }

  /** Following cursors to the end returns the whole list, in order, page by page. */
  method FollowAll(items: seq<Item>, limit: nat) returns (all: seq<Item>)
    requires limit >= 1 && Distinct(items)
    ensures all == items
  {
    var r := Paginate(items, None, limit);
    HoldsMore(items, 0, limit);
    assert items[0..] == items && items[..0] + r.data == r.data;
    all := r.data;
    while r.hasMore
      invariant Holds(items, all, r)
      decreases |items| - |all|, r.hasMore
    {
      HoldsNext(items, all, r, limit);
      r := Paginate(items, Some(r.data[|r.data| - 1].id), limit);
      all := all + r.data;
    }
  }

  // ----- items come and go -----

  /** The collection as each page saw it, kept in an order the ids fix. */
  ghost predicate Ordered(rank: string -> int, items: seq<Item>) {
    forall i, j :: 0 <= i < j < |items| ==> rank(items[i].id) < rank(items[j].id)
  }

  /** A completed walk: each page resumes after the last item of the one before, which is
      still there; only the last page has no more. */
  ghost predicate IsWalk(rank: string -> int, lists: seq<seq<Item>>, limit: nat, pages: seq<Answer>) {
    && limit >= 1 && |lists| == |pages| > 0
    && (forall i :: 0 <= i < |lists| ==> Ordered(rank, lists[i]))
    && (forall i :: 0 <= i < |pages| ==> pages[i].Page? && (pages[i].hasMore <==> i < |pages| - 1))
    && pages[0] == PageOf(lists[0], None, limit)
    && (forall i :: 0 <= i < |pages| - 1 ==> Resumes(lists, limit, pages, i))
  }

  ghost predicate Resumes(lists: seq<seq<Item>>, limit: nat, pages: seq<Answer>, i: nat)
    requires |lists| == |pages| && i + 1 < |pages| && pages[i].Page?
  {
    pages[i].data != [] && pages[i + 1] == PageOf(lists[i + 1], Some(Last(pages[i])), limit)
  }

  lemma {:induction false} RestMembers(rank: string -> int, items: seq<Item>, id: string)
    requires Ordered(rank, items) && Present(items, id)
    ensures Ordered(rank, Rest(items, id))
    ensures forall x :: x in Rest(items, id) <==> x in items && rank(x.id) > rank(id)
  {
    if items[0].id == id {
      assert items == [items[0]] + items[1..];
    } else {
      var i :| 0 <= i < |items| && items[i].id == id;
      assert items[1..][i - 1].id == id;
      RestMembers(rank, items[1..], id);
      assert items == [items[0]] + items[1..];
      assert rank(items[0].id) < rank(items[i].id);
    }
  }

  /** A page holds exactly the items of its list past the cursor and up to its own last. */
  lemma PageMembers(rank: string -> int, rest: seq<Item>, limit: nat)
    requires Ordered(rank, rest) && limit >= 1
    ensures var p := Upto(rest, limit);
            && Ordered(rank, p.data) && (p.hasMore ==> p.data != [])
            && (forall x :: x in p.data <==> x in rest && (p.hasMore ==> rank(x.id) <= rank(Last(p))))
  {
    if |rest| > limit {
      var p := Upto(rest, limit);
      forall x ensures x in p.data <==> x in rest && rank(x.id) <= rank(Last(p)) {
        if x in rest {
          var i :| 0 <= i < |rest| && rest[i] == x;
          if i < limit {
            assert p.data[i] == x;
          }
        }
      }
    }
  }

  /** Where each page but the last ended. */
  ghost function Marks(rank: string -> int, lists: seq<seq<Item>>, limit: nat, pages: seq<Answer>): (m: seq<int>)
    requires IsWalk(rank, lists, limit, pages)
    ensures |m| == |pages| - 1
  {
    seq(|pages| - 1, i requires 0 <= i < |pages| - 1 => assert Resumes(lists, limit, pages, i); rank(Last(pages[i])))
  }

  /** Whether a rank is past the end of the page before `i` and not past the end of `i`. */
  ghost predicate Falls(marks: seq<int>, i: nat, v: int)
    requires i <= |marks|
  {
    (i > 0 ==> v > marks[i - 1]) && (i < |marks| ==> v <= marks[i])
  }

  /** A page returns exactly the items of its list between the two marks. */
  lemma WalkPage(rank: string -> int, lists: seq<seq<Item>>, limit: nat, pages: seq<Answer>, i: nat)
    requires IsWalk(rank, lists, limit, pages) && i < |pages|
    ensures Ordered(rank, pages[i].data)
    ensures forall x :: x in pages[i].data <==> x in lists[i] && Falls(Marks(rank, lists, limit, pages), i, rank(x.id))
  {
    if i < |pages| - 1 {
      assert Resumes(lists, limit, pages, i);
    }
    if i == 0 {
      PageMembers(rank, lists[0], limit);
    } else {
      assert Resumes(lists, limit, pages, i - 1);
      var id := Last(pages[i - 1]);
      RestMembers(rank, lists[i], id);
      PageMembers(rank, Rest(lists[i], id), limit);
    }
  }

  ghost predicate Rising(marks: seq<int>) {
    forall i, j :: 0 <= i < j < |marks| ==> marks[i] < marks[j]
  }

  lemma {:induction false} RisingBySteps(marks: seq<int>)
    requires forall i :: 0 <= i < |marks| - 1 ==> marks[i] < marks[i + 1]
    ensures Rising(marks)
  {
    if |marks| > 1 {
      RisingBySteps(marks[1..]);
      forall j | 0 < j < |marks| ensures marks[0] < marks[j] {
        assert marks[1..][j - 1] == marks[j];
        assert marks[1] <= marks[j];
      }
      forall i, j | 0 < i < j < |marks| ensures marks[i] < marks[j] {
        assert marks[1..][i - 1] < marks[1..][j - 1];
      }
    }
  }

  /** Cursors only move forward. */
  lemma CursorsAdvance(rank: string -> int, lists: seq<seq<Item>>, limit: nat, pages: seq<Answer>)
    requires IsWalk(rank, lists, limit, pages)
    ensures Rising(Marks(rank, lists, limit, pages))
  {
    var marks := Marks(rank, lists, limit, pages);
    forall i | 0 <= i < |marks| - 1 ensures marks[i] < marks[i + 1] {
      WalkPage(rank, lists, limit, pages, i + 1);
      assert Resumes(lists, limit, pages, i + 1);
      var data := pages[i + 1].data;
      assert data[|data| - 1] in data;
    }
    RisingBySteps(marks);
  }

  lemma {:induction false} SomeSpan(marks: seq<int>, v: int, from: nat) returns (i: nat)
    requires from <= |marks| && (from > 0 ==> v > marks[from - 1])
    ensures from <= i <= |marks| && Falls(marks, i, v)
    decreases |marks| - from
  {
    if from == |marks| || v <= marks[from] {
      i := from;
    } else {
      i := SomeSpan(marks, v, from + 1);
    }
  }

  /** Whatever is inserted, deleted or edited between pages, an item whose id is present
      throughout is returned by exactly one page, and there only once. */
  lemma PresentThroughoutReturnedOnce(rank: string -> int, lists: seq<seq<Item>>, limit: nat, pages: seq<Answer>, id: string) returns (i: nat, at: nat)
    requires IsWalk(rank, lists, limit, pages)
    requires forall k :: 0 <= k < |lists| ==> Present(lists[k], id)
    ensures i < |pages| && at < |pages[i].data| && pages[i].data[at].id == id
    ensures forall k, n :: 0 <= k < |pages| && 0 <= n < |pages[k].data| && pages[k].data[n].id == id ==> k == i && n == at
  {
    i := SomeSpan(Marks(rank, lists, limit, pages), rank(id), 0);
    at := ReturnedHere(rank, lists, limit, pages, id, i);
    forall k, n | 0 <= k < |pages| && 0 <= n < |pages[k].data| && pages[k].data[n].id == id ensures k == i && n == at {
      ReturnedNowhereElse(rank, lists, limit, pages, id, i, at, k, n);
    }
  }

  lemma ReturnedHere(rank: string -> int, lists: seq<seq<Item>>, limit: nat, pages: seq<Answer>, id: string, i: nat) returns (at: nat)
    requires IsWalk(rank, lists, limit, pages) && i < |pages| && Present(lists[i], id)
    requires Falls(Marks(rank, lists, limit, pages), i, rank(id))
    ensures at < |pages[i].data| && pages[i].data[at].id == id
  {
    WalkPage(rank, lists, limit, pages, i);
    var m :| 0 <= m < |lists[i]| && lists[i][m].id == id;
    assert lists[i][m] in pages[i].data;
    at :| 0 <= at < |pages[i].data| && pages[i].data[at] == lists[i][m];
  }

  lemma ReturnedNowhereElse(rank: string -> int, lists: seq<seq<Item>>, limit: nat, pages: seq<Answer>, id: string, i: nat, at: nat, k: nat, n: nat)
    requires IsWalk(rank, lists, limit, pages) && i < |pages| && at < |pages[i].data| && pages[i].data[at].id == id
    requires Falls(Marks(rank, lists, limit, pages), i, rank(id))
    requires k < |pages| && n < |pages[k].data| && pages[k].data[n].id == id
    ensures k == i && n == at
  {
    WalkPage(rank, lists, limit, pages, k);
    assert pages[k].data[n] in pages[k].data;
    CursorsAdvance(rank, lists, limit, pages);
    OneSpan(Marks(rank, lists, limit, pages), rank(id), i, k);
    assert pages[i].data[at] in pages[i].data;
  }

  lemma OneSpan(marks: seq<int>, v: int, i: nat, k: nat)
    requires Rising(marks) && i <= |marks| && k <= |marks| && Falls(marks, i, v) && Falls(marks, k, v)
    ensures i == k
  {
  }
}
