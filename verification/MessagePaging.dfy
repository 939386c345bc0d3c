/**
  Keyset pages of a message list: newest first by time of arrival, then by id, each page
  starting strictly below the last message of the page before it.

  The text order of ids is represented by their rank. Between two pages messages may arrive,
  go away or stop matching the filter.
 */
module MessagePaging {
  import opened Common

  datatype Key = Key(receivedAt: int, id: int)

  predicate Below(a: Key, b: Key) {
    a.receivedAt < b.receivedAt || (a.receivedAt == b.receivedAt && a.id < b.id)
  }

  /** Of two messages that arrived at once the one with the lower id comes later; no two keep the same place. */
  lemma BelowIsTotal(a: Key, b: Key, c: Key)
    ensures a == b || Below(a, b) || Below(b, a)
    ensures !(Below(a, b) && Below(b, a)) && !Below(a, a)
    ensures Below(a, b) && Below(b, c) ==> Below(a, c)
    ensures a.receivedAt < b.receivedAt ==> Below(a, b)
    ensures a.receivedAt == b.receivedAt && a.id < b.id ==> Below(a, b)
  {
  }

  predicate AfterCursor(k: Key, cursor: Option<Key>) {
    cursor.None? || Below(k, cursor.value)
  }

  ghost predicate Descending(ks: seq<Key>) {
    forall i, j :: 0 <= i < j < |ks| ==> Below(ks[j], ks[i])
  }

  /**
    One page after `cursor` of what `table` shows: everything down to the next cursor; all of
    the rest when there is none.
   */
  ghost predicate IsPage(table: set<Key>, cursor: Option<Key>, limit: nat, items: seq<Key>, next: Option<Key>) {
    && Descending(items)
    && (forall k :: k in items ==> k in table && AfterCursor(k, cursor))
    && (forall k :: k in table && AfterCursor(k, cursor) && (next.None? || !Below(k, next.value)) ==> k in items)
    && (if next.Some? then |items| == limit > 0 && next.value == items[limit - 1] else |items| <= limit)
  }

  // ---------------------------------------------------------------- one page

  /** The newest key of a set. */
  method Newest(s: set<Key>) returns (top: Key)
    requires s != {}
    ensures top in s && forall k :: k in s && k != top ==> Below(k, top)
  {
    top :| top in s;
    var rest := s - {top};
    while rest != {}
      invariant rest <= s && top in s && top !in rest
      invariant forall k :: k in s && k !in rest && k != top ==> Below(k, top)
    {
      var k :| k in rest;
      rest := rest - {k};
      if Below(top, k) {
        top := k;
      }
    }
  }

  /** The first `n` keys after the cursor, newest first. */
  method Select(table: set<Key>, cursor: Option<Key>, n: nat) returns (items: seq<Key>)
    ensures Descending(items) && |items| <= n
    ensures forall k :: k in items ==> k in table && AfterCursor(k, cursor)
    ensures forall k :: k in table && AfterCursor(k, cursor) && k !in items ==>
      |items| == n && forall i :: i in items ==> Below(k, i)
  {
    items := [];
    var rest := set k | k in table && AfterCursor(k, cursor);
    while rest != {} && |items| < n
      invariant |items| <= n && Descending(items)
      invariant forall k :: k in items ==> k in table && AfterCursor(k, cursor)
      invariant forall k :: k in rest <==> k in table && AfterCursor(k, cursor) && k !in items
      invariant forall k, i :: k in rest && i in items ==> Below(k, i)
    {
      var top := Newest(rest);
      assert forall i :: 0 <= i < |items| ==> items[i] in items;
      items := items + [top];
      rest := rest - {top};
    }
  }

  /** A page and the cursor for the next: one key more is read to learn whether there is one. */
  method ListMessages(table: set<Key>, cursor: Option<Key>, limit: nat) returns (items: seq<Key>, next: Option<Key>)
    requires limit > 0
    ensures IsPage(table, cursor, limit, items, next)
    ensures next.Some? <==> exists k :: k in table && AfterCursor(k, cursor) && k !in items
  {
    items := Select(table, cursor, limit + 1);
    next := None;
    if |items| > limit {
      ghost var all := items;
      items := items[..limit];
      next := Some(items[limit - 1]);
      assert forall k :: k in all <==> k in items || k == all[limit];
      assert all[limit] in all && all[limit] !in items;
      PageOf(table, cursor, limit, all);
    }
  }

  lemma PageOf(table: set<Key>, cursor: Option<Key>, limit: nat, all: seq<Key>)
    requires limit > 0 && |all| == limit + 1 && Descending(all)
    requires forall k :: k in all ==> k in table && AfterCursor(k, cursor)
    requires forall k :: k in table && AfterCursor(k, cursor) && k !in all ==> forall i :: i in all ==> Below(k, i)
    ensures IsPage(table, cursor, limit, all[..limit], Some(all[limit - 1]))
  {
    var items := all[..limit];
    var last := all[limit - 1];
    assert last in all;
    forall k | k in table && AfterCursor(k, cursor) && !Below(k, last) ensures k in items {
      assert k in all;
      var i :| 0 <= i < |all| && all[i] == k;
      assert items[i] == k;
    }
    assert forall k :: k in items ==> k in all;
  }

  // ---------------------------------------------------------------- following the cursors

  datatype Answer = Answer(table: set<Key>, cursor: Option<Key>, items: seq<Key>, next: Option<Key>)

  ghost predicate Linked(a: Answer, b: Answer) {
    a.next.Some? && b.cursor == a.next
  }

  ghost predicate Follows(answers: seq<Answer>, limit: nat) {
    && (forall i :: 0 <= i < |answers| ==>
          IsPage(answers[i].table, answers[i].cursor, limit, answers[i].items, answers[i].next))
    && (forall i :: 0 <= i < |answers| - 1 ==> Linked(answers[i], answers[i + 1]))
    && (answers != [] ==> answers[0].cursor == None)
  }

  function Listed(answers: seq<Answer>): seq<Key> {
    if answers == [] then [] else Listed(answers[..|answers| - 1]) + answers[|answers| - 1].items
  }

  /** All that has been listed is at or above the newest cursor. */
  lemma {:induction false} ListedAbove(answers: seq<Answer>, limit: nat, k: Key)
    requires answers != [] && Follows(answers, limit) && k in Listed(answers)
    ensures var next := answers[|answers| - 1].next; next.Some? ==> !Below(k, next.value)
    ensures exists i :: 0 <= i < |answers| && k in answers[i].items
  {
    var init, last := answers[..|answers| - 1], answers[|answers| - 1];
    if k in last.items {
      assert k in answers[|answers| - 1].items;
    } else {
      ListedAbove(init, limit, k);
      assert Linked(answers[|init| - 1], answers[|init|]);
      var i :| 0 <= i < |init| && k in init[i].items;
      assert k in answers[i].items;
      if last.next.Some? {
        assert last.next.value in last.items;
      }
    }
  }

  lemma DescendingConcat(xs: seq<Key>, ys: seq<Key>, bound: Key)
    requires Descending(xs) && Descending(ys)
    requires (forall x :: x in xs ==> !Below(x, bound)) && (forall y :: y in ys ==> Below(y, bound))
    ensures Descending(xs + ys)
  {
    assert forall k :: 0 <= k < |xs| ==> xs[k] in xs;
    assert forall k :: 0 <= k < |ys| ==> ys[k] in ys;
  }

  /** Nothing is listed twice, and the order holds across pages. */
  lemma {:induction false} ListingDescends(answers: seq<Answer>, limit: nat)
    requires Follows(answers, limit)
    ensures Descending(Listed(answers))
  {
    if answers != [] {
      var init, last := answers[..|answers| - 1], answers[|answers| - 1];
      ListingDescends(init, limit);
      if init != [] {
        assert Linked(answers[|init| - 1], answers[|init|]);
        forall k | k in Listed(init) ensures !Below(k, last.cursor.value) {
          ListedAbove(init, limit, k);
        }
        DescendingConcat(Listed(init), last.items, last.cursor.value);
      }
    }
  }

  /** What every page's table shows is listed once the listing is past it. */
  lemma {:induction false} ListingIsComplete(answers: seq<Answer>, limit: nat, k: Key)
    requires answers != [] && Follows(answers, limit)
    requires forall i :: 0 <= i < |answers| ==> k in answers[i].table
    requires var next := answers[|answers| - 1].next; next.None? || !Below(k, next.value)
    ensures k in Listed(answers)
  {
    var init, last := answers[..|answers| - 1], answers[|answers| - 1];
    if !AfterCursor(k, last.cursor) {
      assert Linked(answers[|init| - 1], answers[|init|]);
      ListingIsComplete(init, limit, k);
    }
  }

  /** Every page but the last is full. */
  lemma {:induction false} ListedLength(answers: seq<Answer>, limit: nat)
    requires answers != [] && Follows(answers, limit)
    ensures |Listed(answers)| == (|answers| - 1) * limit + |answers[|answers| - 1].items|
  {
    if |answers| > 1 {
      var init := answers[..|answers| - 1];
      ListedLength(init, limit);
      assert Linked(answers[|init| - 1], answers[|init|]);
      assert |init[|init| - 1].items| == limit;
      assert (|init| - 1) * limit + limit == |init| * limit;
    } else {
      assert Listed(answers[..0]) == [];
    }
  }

  /** A whole listing of a table at rest: exactly its messages, each once, in as few pages as fit. */
  lemma WholeListing(table: set<Key>, answers: seq<Answer>, limit: nat)
    requires answers != [] && Follows(answers, limit) && answers[|answers| - 1].next == None
    requires forall i :: 0 <= i < |answers| ==> answers[i].table == table
    ensures Descending(Listed(answers)) && forall k :: k in Listed(answers) <==> k in table
    ensures |table| == (|answers| - 1) * limit + |answers[|answers| - 1].items|
  {
    ListingDescends(answers, limit);
    ListedLength(answers, limit);
    forall k ensures k in Listed(answers) <==> k in table {
      if k in table {
        ListingIsComplete(answers, limit, k);
      }
      if k in Listed(answers) {
        ListedAbove(answers, limit, k);
      }
    }
    SizeOfDistinct(Listed(answers), table);
  }

  lemma {:induction false} SizeOfDistinct(ks: seq<Key>, s: set<Key>)
    requires Descending(ks) && forall k :: k in ks <==> k in s
    ensures |s| == |ks|
  {
    if ks == [] {
      assert s == {};
    } else {
      var init, last := ks[..|ks| - 1], ks[|ks| - 1];
      assert last in ks;
      forall k ensures k in init <==> k in s - {last} {
        assert k in ks <==> k in init || k == last;
      }
      SizeOfDistinct(init, s - {last});
    }
  }
}
