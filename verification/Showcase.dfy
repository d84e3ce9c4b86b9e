/** The showcase of a conversation: cards pinned from messages, kept in an order of their own. */
module Showcase {
  import opened Sets
  import opened Text

  type Id = int

  datatype Card = Card(conversation: Id, order: int, title: string, content: string, message: Id, block: int)

  type Cards = map<Id, Card>

  datatype Source = Source(message: Id, block: int)

  datatype Reply = NotFound | Ref(id: Id)

  function SourceOf(c: Card): Source { Source(c.message, c.block) }

  predicate In(cards: Cards, conversation: Id, id: Id) { id in cards && cards[id].conversation == conversation }

  function OrdersIn(cards: Cards, conversation: Id): set<int> {
    set i | i in cards && cards[i].conversation == conversation :: cards[i].order
  }

  // ---- The operations on the table ----

  function NextOrder(cards: Cards, conversation: Id): int {
    if OrdersIn(cards, conversation) == {} then 0 else Highest(OrdersIn(cards, conversation)) + 1
  }

  /** A card for the same block of the same message is in the conversation. */
  predicate Pinned(cards: Cards, conversation: Id, source: Source) {
    exists i :: i in cards && cards[i].conversation == conversation && SourceOf(cards[i]) == source
  }

  function Clipped(title: string): string { if |title| > 200 then title[..200] else title }

  /** The card as an addition makes it from what it reads. */
  function NewCard(cards: Cards, conversation: Id, source: Source, title: string, content: string): Card {
    Card(conversation, NextOrder(cards, conversation), Clipped(title), content, source.message, source.block)
  }

  function Added(cards: Cards, id: Id, conversation: Id, source: Source, title: string, content: string): Cards {
    if id in cards || Pinned(cards, conversation, source) then cards
    else cards[id := NewCard(cards, conversation, source, title, content)]
  }

  /** The insertion, which a unique index on conversation, message and block can refuse. */
  predicate Inserts(cards: Cards, id: Id, card: Card) {
    id !in cards && !Pinned(cards, card.conversation, SourceOf(card))
  }

  function Inserted(cards: Cards, id: Id, card: Card): Cards {
    if Inserts(cards, id, card) then cards[id := card] else cards
  }

  /** Going through the list, each card of the conversation gets its index. */
  function Reordered(cards: Cards, conversation: Id, ids: seq<Id>): Cards {
    if ids == [] then cards
    else
      var n := |ids| - 1;
      var c := Reordered(cards, conversation, ids[..n]);
      if In(c, conversation, ids[n]) then c[ids[n] := c[ids[n]].(order := n)] else c
  }

  function OrderOf(cards: Cards, id: Id): int { if id in cards then cards[id].order else 0 }

  /** What a query ordered by sort order may return: every card of the conversation once, in
      ascending order, ties in any order. */
  ghost predicate Listing(cards: Cards, conversation: Id, list: seq<Id>) {
    && (forall i, j | 0 <= i < j < |list| :: list[i] != list[j])
    && (forall id :: id in list <==> In(cards, conversation, id))
    && (forall i, j | 0 <= i < j < |list| :: OrderOf(cards, list[i]) <= OrderOf(cards, list[j]))
  }

  // ---- The service ----

  class Service {
    var cards: Cards

    constructor ()
      ensures cards == map[]
    {
      cards := map[];
    }

    /** `add_showcase_item`; `id` is the new identifier, `allowed` the outcome of the access check. */
    method Add(allowed: bool, id: Id, conversation: Id, source: Source, title: string, content: string)
      returns (r: Reply)
      requires id !in cards
      modifies this
      ensures !allowed ==> r == NotFound && cards == old(cards)
      ensures allowed ==> cards == Added(old(cards), id, conversation, source, title, content)
      ensures allowed ==> r.Ref? && In(cards, conversation, r.id) && SourceOf(cards[r.id]) == source
      ensures allowed ==> (r.id == id <==> !Pinned(old(cards), conversation, source))
    {
      if !allowed { return NotFound; }
      if existing :|
        existing in cards && cards[existing].conversation == conversation && SourceOf(cards[existing]) == source
      {
        return Ref(existing);
      }
      var order := 0;
      if OrdersIn(cards, conversation) != {} {
        order := Highest(OrdersIn(cards, conversation)) + 1;
      }
      var clipped := if |title| > 200 then title[..200] else title;
      cards := cards[id := Card(conversation, order, clipped, content, source.message, source.block)];
      r := Ref(id);
    }

    /** `delete_showcase_item`. */
    method Delete(allowed: bool, id: Id) returns (ok: bool)
      modifies this
      ensures ok <==> allowed && id in old(cards)
      ensures cards == if ok then old(cards) - {id} else old(cards)
    {
      if id !in cards || !allowed { return false; }
      cards := cards - {id};
      ok := true;
    }

    /** `reorder_showcase_items`. */
    method Reorder(allowed: bool, conversation: Id, ids: seq<Id>) returns (ok: bool)
      modifies this
      ensures ok == allowed
      ensures cards == if ok then Reordered(old(cards), conversation, ids) else old(cards)
    {
      if !allowed { return false; }
      for index := 0 to |ids|
        invariant cards == Reordered(old(cards), conversation, ids[..index])
      {
        assert ids[..index + 1][..index] == ids[..index];
        if ids[index] in cards && cards[ids[index]].conversation == conversation {
          cards := cards[ids[index] := cards[ids[index]].(order := index)];
        }
      }
      assert ids[..|ids|] == ids;
      ok := true;
    }
  }

  // ---- What a reorder does ----

  /** The last index at which a card is named. */
  function LastIndex(ids: seq<Id>, id: Id): Option<nat> {
    if ids == [] then None
    else if ids[|ids| - 1] == id then Some(|ids| - 1)
    else LastIndex(ids[..|ids| - 1], id)
  }

  /** Each card of the conversation that the list names gets its last index; nothing else changes. */
  lemma {:induction false} ReorderedAt(cards: Cards, conversation: Id, ids: seq<Id>, id: Id)
    ensures var r := Reordered(cards, conversation, ids);
            && (id in r <==> id in cards)
            && (id in r ==>
                  r[id] == if In(cards, conversation, id) && LastIndex(ids, id).Some?
                           then cards[id].(order := LastIndex(ids, id).value)
                           else cards[id])
  {
    if ids != [] {
      ReorderedAt(cards, conversation, ids[..|ids| - 1], id);
      ReorderedAt(cards, conversation, ids[..|ids| - 1], ids[|ids| - 1]);
    }
  }

  lemma {:induction false} LastIndexIs(ids: seq<Id>, id: Id)
    ensures LastIndex(ids, id).Some? <==> id in ids
    ensures LastIndex(ids, id).Some? ==> LastIndex(ids, id).value < |ids| && ids[LastIndex(ids, id).value] == id
  {
    if ids != [] {
      LastIndexIs(ids[..|ids| - 1], id);
      assert ids == ids[..|ids| - 1] + [ids[|ids| - 1]];
    }
  }

  /** No two cards of a conversation have the same order. */
  ghost predicate Distinct(cards: Cards, conversation: Id) {
    forall i, j | In(cards, conversation, i) && In(cards, conversation, j) && i != j :: cards[i].order != cards[j].order
  }

  /** No two cards of a conversation come from the same block. */
  ghost predicate OncePinned(cards: Cards, conversation: Id) {
    forall i, j | In(cards, conversation, i) && In(cards, conversation, j) && i != j ::
      SourceOf(cards[i]) != SourceOf(cards[j])
  }

  ghost predicate Permutation(cards: Cards, conversation: Id, ids: seq<Id>) {
    && (forall i, j | 0 <= i < j < |ids| :: ids[i] != ids[j])
    && (forall id :: id in ids <==> In(cards, conversation, id))
  }

  /** A card left out of the list has an order that the list gives to another one. */
  ghost predicate Collides(cards: Cards, conversation: Id, ids: seq<Id>) {
    exists i, j ::
      && In(cards, conversation, i) && In(cards, conversation, j)
      && i !in ids && j in ids && LastIndex(ids, j) == Some(OrderOf(cards, i))
  }

  /** The order a card of the conversation has after a reorder. */
  function NewOrder(cards: Cards, ids: seq<Id>, id: Id): int {
    match LastIndex(ids, id)
    case Some(k) => k
    case None => OrderOf(cards, id)
  }

  lemma OrderAfter(cards: Cards, conversation: Id, ids: seq<Id>, id: Id)
    ensures In(Reordered(cards, conversation, ids), conversation, id) <==> In(cards, conversation, id)
    ensures In(cards, conversation, id) ==> OrderOf(Reordered(cards, conversation, ids), id) == NewOrder(cards, ids, id)
  {
    ReorderedAt(cards, conversation, ids, id);
  }

  /** The list leaves out one card, and gives its order to the other. */
  predicate Meets(cards: Cards, ids: seq<Id>, i: Id, j: Id) {
    i !in ids && j in ids && LastIndex(ids, j) == Some(OrderOf(cards, i))
  }

  /** Two cards end up with the same order only as one named and one left out. */
  lemma NewOrders(cards: Cards, conversation: Id, ids: seq<Id>, i: Id, j: Id)
    requires Distinct(cards, conversation) && In(cards, conversation, i) && In(cards, conversation, j) && i != j
    ensures NewOrder(cards, ids, i) == NewOrder(cards, ids, j) <==> Meets(cards, ids, i, j) || Meets(cards, ids, j, i)
  {
    LastIndexIs(ids, i);
    LastIndexIs(ids, j);
  }

  /** After a reorder by an arbitrary list, orders stay distinct exactly when no card left out of the
      list has an order that the list gives away. */
  lemma ReorderStaysDistinct(cards: Cards, conversation: Id, ids: seq<Id>)
    requires Distinct(cards, conversation)
    ensures Distinct(Reordered(cards, conversation, ids), conversation) <==> !Collides(cards, conversation, ids)
  {
    var r := Reordered(cards, conversation, ids);
    forall id
      ensures In(r, conversation, id) <==> In(cards, conversation, id)
      ensures In(cards, conversation, id) ==> OrderOf(r, id) == NewOrder(cards, ids, id)
    {
      OrderAfter(cards, conversation, ids, id);
    }
    if Distinct(r, conversation) {
      forall i, j | In(cards, conversation, i) && In(cards, conversation, j) && i !in ids && j in ids
        ensures LastIndex(ids, j) != Some(OrderOf(cards, i))
      {
        NewOrders(cards, conversation, ids, i, j);
        assert In(r, conversation, i) && In(r, conversation, j);
      }
    } else {
      var i, j :| In(r, conversation, i) && In(r, conversation, j) && i != j && r[i].order == r[j].order;
      NewOrders(cards, conversation, ids, i, j);
    }
  }

  /** Moving the second of two cards to the front, and naming only that card, leaves a tie. */
  lemma PartialReorderTies(cards: Cards, conversation: Id, i: Id, j: Id)
    requires In(cards, conversation, i) && In(cards, conversation, j) && i != j && cards[i].order == 0
    ensures !Distinct(Reordered(cards, conversation, [j]), conversation)
  {
    var r := Reordered(cards, conversation, [j]);
    OrderAfter(cards, conversation, [j], i);
    OrderAfter(cards, conversation, [j], j);
    assert [j][..0] == [];
    assert LastIndex([j], i) == None && LastIndex([j], j) == Some(0);
    assert In(r, conversation, i) && In(r, conversation, j) && r[i].order == r[j].order;
  }

  lemma PermutationDoesNotCollide(cards: Cards, conversation: Id, ids: seq<Id>)
    requires Permutation(cards, conversation, ids)
    ensures !Collides(cards, conversation, ids)
  {
  }

  /** With distinct orders there is one listing. */
  lemma {:induction false} OneListing(cards: Cards, conversation: Id, a: seq<Id>, b: seq<Id>, k: nat)
    requires Distinct(cards, conversation) && Listing(cards, conversation, a) && Listing(cards, conversation, b)
    requires k <= |a| && k <= |b|
    ensures a[..k] == b[..k]
  {
    if k > 0 {
      OneListing(cards, conversation, a, b, k - 1);
      NextInListing(cards, conversation, a, b, k - 1);
    }
  }

  lemma SamePrefix(a: seq<Id>, b: seq<Id>, k: nat, m: nat)
    requires m < k <= |a| && k <= |b| && a[..k] == b[..k]
    ensures a[m] == b[m]
  {
    assert a[..k][m] == b[..k][m];
  }

  /** Where two listings agree so far, the next card of one is not before the next card of the other. */
  lemma NotBefore(cards: Cards, conversation: Id, a: seq<Id>, b: seq<Id>, k: nat)
    requires Listing(cards, conversation, a) && Listing(cards, conversation, b)
    requires k < |a| && k < |b| && a[..k] == b[..k]
    ensures OrderOf(cards, b[k]) <= OrderOf(cards, a[k])
  {
    assert a[k] in a;
    var m :| 0 <= m < |b| && b[m] == a[k];
    if m < k { SamePrefix(a, b, k, m); }
  }

  lemma NextInListing(cards: Cards, conversation: Id, a: seq<Id>, b: seq<Id>, k: nat)
    requires Distinct(cards, conversation) && Listing(cards, conversation, a) && Listing(cards, conversation, b)
    requires k < |a| && k < |b| && a[..k] == b[..k]
    ensures a[k] == b[k]
  {
    NotBefore(cards, conversation, a, b, k);
    NotBefore(cards, conversation, b, a, k);
    assert a[k] in a && b[k] in b;
  }

  /** Listing after a reorder by a permutation of the cards gives exactly the list. */
  lemma ListingAfterReorder(cards: Cards, conversation: Id, ids: seq<Id>, list: seq<Id>)
    requires Distinct(cards, conversation) && Permutation(cards, conversation, ids)
    requires Listing(Reordered(cards, conversation, ids), conversation, list)
    ensures list == ids
  {
    var r := Reordered(cards, conversation, ids);
    ReorderStaysDistinct(cards, conversation, ids);
    PermutationDoesNotCollide(cards, conversation, ids);
    ReorderedIsListing(cards, conversation, ids);
    hide *;
    SameLength(r, conversation, list, ids);
    OneListing(r, conversation, list, ids, |list|);
    assert list[..|list|] == list && ids[..|ids|] == ids;
  }

  lemma ReorderedIsListing(cards: Cards, conversation: Id, ids: seq<Id>)
    requires Permutation(cards, conversation, ids)
    ensures Listing(Reordered(cards, conversation, ids), conversation, ids)
  {
    var r := Reordered(cards, conversation, ids);
    forall id ensures In(r, conversation, id) <==> In(cards, conversation, id) {
      OrderAfter(cards, conversation, ids, id);
    }
    forall k | 0 <= k < |ids| ensures OrderOf(r, ids[k]) == k {
      assert ids[k] in ids;
      OrderAfter(cards, conversation, ids, ids[k]);
      LastIndexIs(ids, ids[k]);
    }
  }

  lemma SameLength(cards: Cards, conversation: Id, a: seq<Id>, b: seq<Id>)
    requires Listing(cards, conversation, a) && Listing(cards, conversation, b)
    ensures |a| == |b|
  {
    SizeOf(a);
    SizeOf(b);
    assert (set x | x in a) == (set x | x in b);
  }

  lemma {:induction false} SizeOf(a: seq<Id>)
    requires forall i, j | 0 <= i < j < |a| :: a[i] != a[j]
    ensures |set x | x in a| == |a|
  {
    if a != [] {
      var front, last := a[..|a| - 1], a[|a| - 1];
      SizeOf(front);
      assert (set x | x in a) == (set x | x in front) + {last};
    }
  }

  // ---- Over whole runs ----

  /** The cards, and the additions that have read and not yet inserted. */
  datatype Sys = Sys(cards: Cards, pending: map<Id, Card>)

  /** An addition without another in between is `Add`; `Read` and `Insert` are its two halves. */
  datatype Action =
    | Add(id: Id, conversation: Id, source: Source, title: string, content: string)
    | Read(session: Id, conversation: Id, source: Source, title: string, content: string)
    | Insert(session: Id, id: Id)
    | Delete(id: Id)
    | Reorder(conversation: Id, ids: seq<Id>)

  function Apply(s: Sys, a: Action): Sys {
    match a
    case Add(id, conversation, source, title, content) =>
      s.(cards := Added(s.cards, id, conversation, source, title, content))
    case Read(session, conversation, source, title, content) =>
      if session in s.pending || Pinned(s.cards, conversation, source) then s
      else s.(pending := s.pending[session := NewCard(s.cards, conversation, source, title, content)])
    case Insert(session, id) =>
      if session !in s.pending then s
      else Sys(Inserted(s.cards, id, s.pending[session]), s.pending - {session})
    case Delete(id) => s.(cards := s.cards - {id})
    case Reorder(conversation, ids) => s.(cards := Reordered(s.cards, conversation, ids))
  }

  const Empty := Sys(map[], map[])

  function Run(s: Sys, run: seq<Action>): Sys
    decreases |run|
  {
    if run == [] then s else Run(Apply(s, run[0]), run[1..])
  }

  /** Each reorder of the run lists a permutation of the cards that its conversation then has. */
  ghost predicate Complete(s: Sys, run: seq<Action>)
    decreases |run|
  {
    run == []
    || ((run[0].Reorder? ==> Permutation(s.cards, run[0].conversation, run[0].ids))
        && Complete(Apply(s, run[0]), run[1..]))
  }

  /** The step inserts a card with an order that a card of the conversation already has. */
  ghost predicate Ties(s: Sys, a: Action, c: Id) {
    && a.Insert? && a.session in s.pending && s.pending[a.session].conversation == c
    && Inserts(s.cards, a.id, s.pending[a.session]) && s.pending[a.session].order in OrdersIn(s.cards, c)
  }

  ghost predicate NeverTies(s: Sys, run: seq<Action>, c: Id)
    decreases |run|
  {
    run == [] || (!Ties(s, run[0], c) && NeverTies(Apply(s, run[0]), run[1..], c))
  }

  ghost predicate AlwaysDistinct(s: Sys, run: seq<Action>, c: Id)
    decreases |run|
  {
    Distinct(s.cards, c) && (run == [] || AlwaysDistinct(Apply(s, run[0]), run[1..], c))
  }

  lemma NewCardIsLast(cards: Cards, id: Id, conversation: Id, source: Source, title: string, content: string)
    requires id !in cards && !Pinned(cards, conversation, source)
    ensures var r := Added(cards, id, conversation, source, title, content);
            && In(r, conversation, id) && SourceOf(r[id]) == source && r[id].content == content
            && r[id].title <= title && (if |title| <= 200 then r[id].title == title else |r[id].title| == 200)
            && forall i | In(cards, conversation, i) :: i != id && r[i] == cards[i] && r[i].order < r[id].order
  {
    forall i | In(cards, conversation, i) ensures cards[i].order in OrdersIn(cards, conversation) {}
  }

  /** Its order is 0 in an empty showcase, and otherwise the one after an order there is. */
  lemma NewCardFollows(cards: Cards, id: Id, conversation: Id, source: Source, title: string, content: string)
    requires id !in cards && !Pinned(cards, conversation, source)
    ensures var order := Added(cards, id, conversation, source, title, content)[id].order;
            if forall i :: !In(cards, conversation, i) then order == 0
            else exists i :: In(cards, conversation, i) && order == cards[i].order + 1
  {
    var orders := OrdersIn(cards, conversation);
    if i :| In(cards, conversation, i) {
      assert cards[i].order in orders;
      var j :| j in cards && cards[j].conversation == conversation && cards[j].order == Highest(orders);
      assert In(cards, conversation, j);
    } else {
      assert forall i | i in cards && cards[i].conversation == conversation :: In(cards, conversation, i);
      assert orders == {};
    }
  }

  lemma AddKeeps(cards: Cards, id: Id, conversation: Id, source: Source, title: string, content: string, c: Id)
    requires Distinct(cards, c)
    ensures Distinct(Added(cards, id, conversation, source, title, content), c)
  {
    if id !in cards && !Pinned(cards, conversation, source) {
      NewCardIsLast(cards, id, conversation, source, title, content);
      var r := Added(cards, id, conversation, source, title, content);
      assert forall i | In(r, c, i) :: i == id || In(cards, c, i);
    }
  }

  /** An inserted card ties exactly when its conversation already has its order. */
  lemma InsertKeepsExactly(cards: Cards, id: Id, card: Card, c: Id)
    requires Distinct(cards, c) && Inserts(cards, id, card)
    ensures Distinct(Inserted(cards, id, card), c) <==> card.conversation != c || card.order !in OrdersIn(cards, c)
  {
    var r := Inserted(cards, id, card);
    assert forall i | i != id :: In(r, c, i) <==> In(cards, c, i);
    if card.conversation == c && card.order in OrdersIn(cards, c) {
      var i :| i in cards && cards[i].conversation == c && cards[i].order == card.order;
      assert In(r, c, i) && In(r, c, id) && r[i].order == r[id].order;
    } else {
      forall i, j | In(r, c, i) && In(r, c, j) && i != j ensures r[i].order != r[j].order {
        assert i != id ==> cards[i].order in OrdersIn(cards, c);
        assert j != id ==> cards[j].order in OrdersIn(cards, c);
      }
    }
  }

  lemma ReorderKeeps(cards: Cards, conversation: Id, ids: seq<Id>, c: Id)
    requires Distinct(cards, c) && Permutation(cards, conversation, ids)
    ensures Distinct(Reordered(cards, conversation, ids), c)
  {
    if c == conversation {
      ReorderStaysDistinct(cards, conversation, ids);
      PermutationDoesNotCollide(cards, conversation, ids);
    } else {
      ReorderKeepsCards(cards, conversation, ids);
    }
    hide Reordered, Permutation;
  }

  lemma ReorderKeepsCards(cards: Cards, conversation: Id, ids: seq<Id>)
    ensures var r := Reordered(cards, conversation, ids);
            forall i :: (i in r <==> i in cards)
                        && (i in r ==> r[i] == cards[i].(order := r[i].order))
                        && (i in r && !In(cards, conversation, i) ==> r[i] == cards[i])
  {
    var r := Reordered(cards, conversation, ids);
    forall i
      ensures i in r <==> i in cards
      ensures i in r ==> r[i] == cards[i].(order := r[i].order)
      ensures i in r && !In(cards, conversation, i) ==> r[i] == cards[i]
    {
      ReorderedAt(cards, conversation, ids, i);
    }
  }

  lemma DistinctStep(s: Sys, a: Action, c: Id)
    requires Distinct(s.cards, c) && (a.Reorder? ==> Permutation(s.cards, a.conversation, a.ids))
    ensures Distinct(Apply(s, a).cards, c) <==> !Ties(s, a, c)
  {
    hide Reordered, Permutation, OrdersIn, NextOrder, Pinned;
    match a {
      case Add(id, conversation, source, title, content) =>
        AddKeeps(s.cards, id, conversation, source, title, content, c);
      case Insert(session, id) =>
        if session in s.pending && Inserts(s.cards, id, s.pending[session]) {
          InsertKeepsExactly(s.cards, id, s.pending[session], c);
        }
      case Reorder(conversation, ids) => ReorderKeeps(s.cards, conversation, ids, c);
      case _ =>
    }
  }

  /** Through any run of additions, whole or in halves, deletions and complete reorders: the orders of a
      conversation are distinct at every point exactly when no insertion comes with an order that has
      been given away since it was read. */
  lemma {:induction false} RunsStayDistinct(s: Sys, run: seq<Action>, c: Id)
    requires Distinct(s.cards, c) && Complete(s, run)
    ensures AlwaysDistinct(s, run, c) <==> NeverTies(s, run, c)
    ensures NeverTies(s, run, c) ==> Distinct(Run(s, run).cards, c)
    decreases |run|
  {
    if run != [] {
      DistinctStep(s, run[0], c);
      hide Apply, Distinct, Ties;
      if !Ties(s, run[0], c) { RunsStayDistinct(Apply(s, run[0]), run[1..], c); }
    }
  }

  /** So they are when additions do not overlap. */
  lemma {:induction false} WholeAdditionsNeverTie(s: Sys, run: seq<Action>, c: Id)
    requires forall a | a in run :: !a.Insert?
    ensures NeverTies(s, run, c)
    decreases |run|
  {
    if run != [] {
      assert run[0] in run;
      WholeAdditionsNeverTie(Apply(s, run[0]), run[1..], c);
    }
  }

  lemma OncePinnedStep(s: Sys, a: Action, c: Id)
    requires OncePinned(s.cards, c)
    ensures OncePinned(Apply(s, a).cards, c)
  {
    if a.Reorder? { ReorderKeepsCards(s.cards, a.conversation, a.ids); }
    hide Reordered, NextOrder;
  }

  /** Over every run, overlapping additions and incomplete reorders included, no block is pinned twice. */
  lemma {:induction false} NoBlockIsPinnedTwice(s: Sys, run: seq<Action>, c: Id)
    requires OncePinned(s.cards, c)
    ensures OncePinned(Run(s, run).cards, c)
    decreases |run|
  {
    if run != [] {
      OncePinnedStep(s, run[0], c);
      hide Apply, OncePinned;
      NoBlockIsPinnedTwice(Apply(s, run[0]), run[1..], c);
    }
  }

  /** The two halves of an addition, with nothing in between, are the addition. */
  lemma AddIsReadThenInsert(
      s: Sys, session: Id, id: Id, conversation: Id, source: Source, title: string, content: string)
    requires session !in s.pending
    ensures Apply(Apply(s, Read(session, conversation, source, title, content)), Insert(session, id))
         == Apply(s, Add(id, conversation, source, title, content))
  {
    if !Pinned(s.cards, conversation, source) {
      var t := Apply(s, Read(session, conversation, source, title, content));
      assert t.pending - {session} == s.pending;
    }
  }

  /** Two additions of different blocks that both read before either inserts: from any state, both cards
      are there afterwards, with the same order. */
  lemma OverlappingAdditionsTie(s: Sys, n: Id, m: Id, id: Id, other: Id, c: Id, a: Source, b: Source)
    requires n !in s.pending && m !in s.pending && n != m && id !in s.cards && other !in s.cards && id != other
    requires a != b && !Pinned(s.cards, c, a) && !Pinned(s.cards, c, b)
    ensures var read := Apply(Apply(s, Read(n, c, a, "", "")), Read(m, c, b, "", ""));
            var t := Apply(Apply(read, Insert(n, id)), Insert(m, other));
            && In(t.cards, c, id) && In(t.cards, c, other) && t.cards[id].order == t.cards[other].order
            && !Distinct(t.cards, c)
  {
    var x, y := NewCard(s.cards, c, a, "", ""), NewCard(s.cards, c, b, "", "");
    var read := Apply(Apply(s, Read(n, c, a, "", "")), Read(m, c, b, "", ""));
    assert read == Sys(s.cards, s.pending[n := x][m := y]);
    assert Inserted(s.cards, id, x) == s.cards[id := x];
    hide NextOrder;
    SecondInsert(s.cards, id, x, other, y);
    var t := Apply(Apply(read, Insert(n, id)), Insert(m, other));
    assert t.cards == s.cards[id := x][other := y];
  }

  lemma SecondInsert(cards: Cards, id: Id, card: Card, other: Id, second: Card)
    requires Inserts(cards, id, card) && Inserts(cards, other, second) && id != other
    requires SourceOf(card) != SourceOf(second)
    ensures Inserted(cards[id := card], other, second) == cards[id := card][other := second]
  {
    assert !Pinned(cards[id := card], second.conversation, SourceOf(second));
  }

  /** A deletion takes its card from the list and leaves the others in their order; what is listed besides
      never depends on other conversations. */
  lemma DeletedIsGone(s: Sys, id: Id, conversation: Id, list: seq<Id>)
    requires Listing(s.cards, conversation, list)
    ensures var t := Apply(s, Delete(id));
            && id !in t.cards && t.pending == s.pending
            && Listing(t.cards, conversation, Without(list, id))
  {
    var t := Apply(s, Delete(id));
    WithoutHas(list, id);
    assert forall i :: In(t.cards, conversation, i) <==> In(s.cards, conversation, i) && i != id;
    forall i, j | 0 <= i < j < |Without(list, id)|
      ensures Without(list, id)[i] != Without(list, id)[j]
      ensures OrderOf(t.cards, Without(list, id)[i]) <= OrderOf(t.cards, Without(list, id)[j])
    {
      var k, m := WithoutAt(list, id, i, j);
    }
  }

  function Without(list: seq<Id>, id: Id): seq<Id> {
    if list == [] then []
    else Without(list[..|list| - 1], id) + (if list[|list| - 1] == id then [] else [list[|list| - 1]])
  }

  lemma {:induction false} WithoutHas(list: seq<Id>, id: Id)
    ensures forall i :: i in Without(list, id) <==> i in list && i != id
  {
    if list != [] {
      WithoutHas(list[..|list| - 1], id);
      assert list == list[..|list| - 1] + [list[|list| - 1]];
    }
  }

  /** What is left stands in the order in which it stood. */
  lemma {:induction false} WithoutAt(list: seq<Id>, id: Id, i: nat, j: nat) returns (k: nat, m: nat)
    requires i < j < |Without(list, id)|
    ensures k < m < |list| && list[k] == Without(list, id)[i] && list[m] == Without(list, id)[j]
    ensures list[k] != id && list[m] != id
  {
    var n := |list| - 1;
    var front := Without(list[..n], id);
    if j < |front| {
      k, m := WithoutAt(list[..n], id, i, j);
    } else {
      WithoutHas(list[..n], id);
      assert front[i] in front;
      k :| 0 <= k < n && list[k] == front[i];
      m := n;
    }
  }

  /** From any state, ties included, a card for a new block lists last, and a block already pinned changes
      nothing. */
  lemma AddedListsLast(
      cards: Cards, id: Id, conversation: Id, source: Source, title: string, content: string, list: seq<Id>)
    requires id !in cards
    requires Listing(Added(cards, id, conversation, source, title, content), conversation, list)
    ensures !Pinned(cards, conversation, source) ==> list != [] && list[|list| - 1] == id
    ensures Pinned(cards, conversation, source) ==> Added(cards, id, conversation, source, title, content) == cards
  {
    if !Pinned(cards, conversation, source) {
      NewCardIsLast(cards, id, conversation, source, title, content);
      LastOfListing(Added(cards, id, conversation, source, title, content), conversation, list, id);
    }
  }

  lemma LastOfListing(cards: Cards, conversation: Id, list: seq<Id>, id: Id)
    requires Listing(cards, conversation, list) && In(cards, conversation, id)
    requires forall i | In(cards, conversation, i) && i != id :: OrderOf(cards, i) < OrderOf(cards, id)
    ensures list != [] && list[|list| - 1] == id
  {
    assert id in list;
    assert list[|list| - 1] in list;
  }
}
