/**
 Menu items form trees. Every re-parenting walks up from the proposed parent; the walk ends only because no
 chain of parents closes into a cycle, and it is the walk that keeps it so.
 */
module Menus {
  import opened Prelude

  /** Item ids count from 1; 0 in a request stands for no item. */
  datatype Item = Item(menu: int, parent: Option<int>)

  datatype Db = Db(menus: set<int>, items: map<int, Item>, nextId: nat)

  /** A parent in a request: missing, an explicit null, or an id. */
  datatype Field = Absent | Null | Given(id: int)

  datatype Reply = Ok | BadRequest | NotFound

  function Up(item: Item): int { GetOr(item.parent, 0) }

  function Start(parent: Field): int { if parent.Given? then parent.id else 0 }

  // ---------- chains of parents ----------

  /** The walk from `cursor` ends at a root within n steps. */
  predicate EndsIn(items: map<int, Item>, cursor: int, n: nat)
    decreases n
  {
    cursor == 0 || (n > 0 && cursor in items && EndsIn(items, Up(items[cursor]), n - 1))
  }

  ghost predicate Rooted(items: map<int, Item>, cursor: int) { exists n: nat :: EndsIn(items, cursor, n) }

  predicate Reaches(items: map<int, Item>, cursor: int, x: int, n: nat)
    decreases n
  {
    cursor != 0 && (cursor == x || (n > 0 && cursor in items && Reaches(items, Up(items[cursor]), x, n - 1)))
  }

  /** x is `cursor` or one of its ancestors. */
  ghost predicate HasAncestor(items: map<int, Item>, cursor: int, x: int) {
    exists n: nat :: Reaches(items, cursor, x, n)
  }

  predicate ClearIn(items: map<int, Item>, menu: int, cursor: int, self: Option<int>, n: nat)
    decreases n
  {
    || cursor == 0
    || (&& n > 0 && self != Some(cursor) && cursor in items && items[cursor].menu == menu
        && ClearIn(items, menu, Up(items[cursor]), self, n - 1))
  }

  /** Every item on the way up belongs to the menu, and none of them is `self`. */
  ghost predicate Clear(items: map<int, Item>, menu: int, cursor: int, self: Option<int>) {
    exists n: nat :: ClearIn(items, menu, cursor, self, n)
  }

  predicate ParentsInMenu(items: map<int, Item>) {
    forall id :: id in items ==> items[id].parent.Some? ==>
      items[id].parent.value in items && items[items[id].parent.value].menu == items[id].menu
  }

  ghost predicate Forest(items: map<int, Item>) {
    && 0 !in items && ParentsInMenu(items)
    && forall id :: id in items ==> Rooted(items, id)
  }

  ghost predicate Valid(d: Db) {
    Forest(d.items) && d.nextId > 0 && forall id :: id in d.items ==> id < d.nextId
  }

  // ---------- operations ----------

  ghost function AddItem(d: Db, menu: int, parent: Field): (Db, Reply) {
    if menu !in d.menus then (d, NotFound)
    else if !Clear(d.items, menu, Start(parent), None) || parent == Given(0) then (d, BadRequest)
    else
      var item := Item(menu, if parent.Given? then Some(parent.id) else None);
      (d.(items := d.items[d.nextId := item], nextId := d.nextId + 1), Ok)
  }

  predicate InMenu(d: Db, menu: int, id: int) { id in d.items && d.items[id].menu == menu }

  function Reparented(item: Item, parent: Field): Item {
    match parent
    case Absent => item
    case Null => item.(parent := None)
    case Given(p) => item.(parent := Some(p))
  }

  ghost function UpdateItem(d: Db, menu: int, id: int, parent: Field): (Db, Reply) {
    if !InMenu(d, menu, id) then (d, NotFound)
    else if !Clear(d.items, menu, Start(parent), Some(id)) || parent == Given(0) then (d, BadRequest)
    else (d.(items := d.items[id := Reparented(d.items[id], parent)]), Ok)
  }

  function ChildrenOf(items: map<int, Item>, gone: set<int>): set<int> {
    set id | id in items && items[id].parent.Some? && items[id].parent.value in gone
  }

  /** Deleting rows deletes the rows that refer to them, wave after wave. */
  function Cascade(items: map<int, Item>, gone: set<int>): map<int, Item>
    requires gone <= items.Keys
    decreases |items|
  {
    if gone == {} then items
    else
      var rest := items - gone;
      FewerItems(items, gone);
      Cascade(rest, ChildrenOf(rest, gone))
  }

  lemma FewerItems(items: map<int, Item>, gone: set<int>)
    requires gone <= items.Keys && gone != {}
    ensures |items - gone| < |items|
  {
    assert (items - gone).Keys == items.Keys - gone;
    assert |items.Keys - gone| == |items.Keys| - |gone|;
  }

  function RemoveItem(d: Db, menu: int, id: int): (Db, Reply) {
    if !InMenu(d, menu, id) then (d, NotFound) else (d.(items := Cascade(d.items, {id})), Ok)
  }

  datatype Event =
    | EAdd(menu: int, parent: Field)
    | EUpdate(menu: int, item: int, parent: Field)
    | ERemove(menu: int, item: int)

  ghost function Step(d: Db, e: Event): Db {
    match e
    case EAdd(menu, parent) => AddItem(d, menu, parent).0
    case EUpdate(menu, id, parent) => UpdateItem(d, menu, id, parent).0
    case ERemove(menu, id) => RemoveItem(d, menu, id).0
  }

  ghost function Run(d: Db, es: seq<Event>): Db
    decreases |es|
  {
    if es == [] then d else Run(Step(d, es[0]), es[1..])
  }

  // ---------- what the operations write ----------

  /** An item is moved exactly when it is of the menu and the parent named, if any, is of the menu and not at or below
      it; only its parent then changes, to the one named, to none for an explicit null, or not at all. */
  lemma UpdateIff(d: Db, menu: int, id: int, parent: Field)
    requires Valid(d)
    ensures UpdateItem(d, menu, id, parent).1 == Ok <==>
              && id in d.items && d.items[id].menu == menu
              && (parent.Given? ==>
                    && parent.id in d.items && d.items[parent.id].menu == menu
                    && !HasAncestor(d.items, parent.id, id))
    ensures UpdateItem(d, menu, id, parent).1 == Ok ==>
              var next := UpdateItem(d, menu, id, parent).0;
              && next == d.(items := next.items) && next.items.Keys == d.items.Keys
              && (forall other :: other in d.items && other != id ==> next.items[other] == d.items[other])
              && next.items[id].menu == menu
              && next.items[id].parent ==
                 if parent.Given? then Some(parent.id) else if parent.Null? then None else d.items[id].parent
    ensures UpdateItem(d, menu, id, parent).1 != Ok ==> UpdateItem(d, menu, id, parent).0 == d
  {
    ClearIff(d.items, menu, Start(parent), Some(id));
  }

  /** An item is added, under the next id, exactly when the menu exists and the parent named, if any, is of it. */
  lemma AddIff(d: Db, menu: int, parent: Field)
    requires Valid(d)
    ensures AddItem(d, menu, parent).1 == Ok <==>
              menu in d.menus && (parent.Given? ==> parent.id in d.items && d.items[parent.id].menu == menu)
    ensures AddItem(d, menu, parent).0 ==
              if AddItem(d, menu, parent).1 != Ok then d
              else d.(items := d.items[d.nextId := Item(menu, if parent.Given? then Some(parent.id) else None)],
                      nextId := d.nextId + 1)
  {
    ClearIff(d.items, menu, Start(parent), None);
  }

  // ---------- no cycles ----------

  lemma {:induction false} EndsInMore(items: map<int, Item>, cursor: int, n: nat, m: nat)
    requires EndsIn(items, cursor, n) && n <= m
    ensures EndsIn(items, cursor, m)
    decreases n
  {
    if cursor != 0 { EndsInMore(items, Up(items[cursor]), n - 1, m - 1); }
  }

  /** An ancestor's walk is no longer than the walk that meets it. */
  lemma {:induction false} AncestorEnds(items: map<int, Item>, cursor: int, x: int, n: nat, k: nat)
    requires EndsIn(items, cursor, n) && Reaches(items, cursor, x, k)
    ensures EndsIn(items, x, n)
    decreases n
  {
    if cursor != x {
      AncestorEnds(items, Up(items[cursor]), x, n - 1, k - 1);
      EndsInMore(items, x, n - 1, n);
    }
  }

  lemma {:induction false} NoWayBack(items: map<int, Item>, id: int, n: nat, k: nat)
    requires id in items && id != 0 && EndsIn(items, id, n) && Reaches(items, Up(items[id]), id, k)
    ensures false
    decreases n
  {
    AncestorEnds(items, Up(items[id]), id, n - 1, k);
    NoWayBack(items, id, n - 1, k);
  }

  /** In a forest no item is its own ancestor. */
  lemma NoCycles(items: map<int, Item>, id: int)
    requires Forest(items) && id in items
    ensures !HasAncestor(items, Up(items[id]), id)
  {
    if HasAncestor(items, Up(items[id]), id) {
      var k: nat :| Reaches(items, Up(items[id]), id, k);
      var n: nat :| EndsIn(items, id, n);
      NoWayBack(items, id, n, k);
    }
  }

  // ---------- what the walk accepts ----------

  lemma {:induction false} ClearEnds(items: map<int, Item>, menu: int, cursor: int, self: Option<int>, n: nat)
    requires ClearIn(items, menu, cursor, self, n)
    ensures EndsIn(items, cursor, n)
    ensures self.Some? ==> forall k: nat :: !Reaches(items, cursor, self.value, k)
    decreases n
  {
    if cursor != 0 {
      ClearEnds(items, menu, Up(items[cursor]), self, n - 1);
      if self.Some? {
        forall k: nat ensures !Reaches(items, cursor, self.value, k) {
          if k > 0 { assert !Reaches(items, Up(items[cursor]), self.value, k - 1); }
        }
      }
    }
  }

  lemma {:induction false} FreeIsClear(items: map<int, Item>, menu: int, cursor: int, self: Option<int>, n: nat)
    requires Forest(items) && EndsIn(items, cursor, n)
    requires cursor != 0 ==> cursor in items && items[cursor].menu == menu
    requires self.Some? ==> !HasAncestor(items, cursor, self.value)
    ensures ClearIn(items, menu, cursor, self, n)
    decreases n
  {
    if cursor != 0 {
      var up := Up(items[cursor]);
      if self.Some? {
        assert !Reaches(items, cursor, self.value, 0);
        if HasAncestor(items, up, self.value) {
          var k: nat :| Reaches(items, up, self.value, k);
          assert Reaches(items, cursor, self.value, k + 1);
        }
      }
      FreeIsClear(items, menu, up, self, n - 1);
    }
  }

  /** The walk refuses exactly the parents outside the menu and those at or below the item being moved. */
  lemma ClearIff(items: map<int, Item>, menu: int, parent: int, self: Option<int>)
    requires Forest(items)
    ensures Clear(items, menu, parent, self) <==>
              || parent == 0
              || (&& parent in items && items[parent].menu == menu
                  && (self.Some? ==> !HasAncestor(items, parent, self.value)))
  {
    if Clear(items, menu, parent, self) {
      var n: nat :| ClearIn(items, menu, parent, self, n);
      ClearEnds(items, menu, parent, self, n);
    } else if parent == 0 {
      assert ClearIn(items, menu, parent, self, 0);
    } else if parent in items && items[parent].menu == menu
              && (self.Some? ==> !HasAncestor(items, parent, self.value)) {
      var n: nat :| EndsIn(items, parent, n);
      FreeIsClear(items, menu, parent, self, n);
    }
  }

  // ---------- every operation keeps the forest ----------

  /** A chain that avoids x does not notice that x changes. */
  lemma {:induction false} AvoidsChange(items: map<int, Item>, cursor: int, x: int, item: Item, n: nat)
    requires EndsIn(items, cursor, n) && !HasAncestor(items, cursor, x)
    ensures EndsIn(items[x := item], cursor, n)
    decreases n
  {
    if cursor != 0 {
      assert !Reaches(items, cursor, x, 0);
      if HasAncestor(items, Up(items[cursor]), x) {
        var k: nat :| Reaches(items, Up(items[cursor]), x, k);
        assert Reaches(items, cursor, x, k + 1);
      }
      AvoidsChange(items, Up(items[cursor]), x, item, n - 1);
    }
  }

  /** Where the new row of x ends within m steps, every chain still ends. */
  lemma {:induction false} ChangeEnds(items: map<int, Item>, cursor: int, x: int, item: Item, n: nat, m: nat)
    requires EndsIn(items, cursor, n) && EndsIn(items[x := item], Up(item), m)
    ensures EndsIn(items[x := item], cursor, n + m + 1)
    decreases n
  {
    if cursor == x {
      EndsInMore(items[x := item], Up(item), m, n + m);
    } else if cursor != 0 {
      ChangeEnds(items, Up(items[cursor]), x, item, n - 1, m);
    }
  }

  lemma PutKeepsForest(items: map<int, Item>, x: int, item: Item)
    requires Forest(items) && x != 0
    requires x in items ==> item.menu == items[x].menu
    requires Clear(items, item.menu, Up(item), Some(x)) && item.parent != Some(0)
    ensures Forest(items[x := item])
  {
    var next := items[x := item];
    ClearIff(items, item.menu, Up(item), Some(x));
    var m: nat :| ClearIn(items, item.menu, Up(item), Some(x), m);
    ClearEnds(items, item.menu, Up(item), Some(x), m);
    AvoidsChange(items, Up(item), x, item, m);
    forall id | id in next ensures Rooted(next, id) {
      if id == x {
        assert EndsIn(next, x, m + 1);
      } else {
        var n: nat :| EndsIn(items, id, n);
        ChangeEnds(items, id, x, item, n, m);
      }
    }
  }

  /** An item that no row refers to yet is no row's ancestor. */
  lemma {:induction false} FreshIsNoAncestor(items: map<int, Item>, cursor: int, x: int, n: nat)
    requires ParentsInMenu(items) && x !in items && (cursor == 0 || cursor in items)
    ensures !Reaches(items, cursor, x, n)
    decreases n
  {
    if n > 0 && cursor in items { FreshIsNoAncestor(items, Up(items[cursor]), x, n - 1); }
  }

  lemma AddKeepsForest(d: Db, menu: int, parent: Field)
    requires Valid(d)
    ensures Valid(AddItem(d, menu, parent).0)
  {
    if AddItem(d, menu, parent).1 == Ok {
      var item := Item(menu, if parent.Given? then Some(parent.id) else None);
      ClearIff(d.items, menu, Start(parent), None);
      forall n: nat ensures !Reaches(d.items, Start(parent), d.nextId, n) {
        FreshIsNoAncestor(d.items, Start(parent), d.nextId, n);
      }
      ClearIff(d.items, menu, Start(parent), Some(d.nextId));
      PutKeepsForest(d.items, d.nextId, item);
    }
  }

  lemma UpdateKeepsForest(d: Db, menu: int, id: int, parent: Field)
    requires Valid(d)
    ensures Valid(UpdateItem(d, menu, id, parent).0)
  {
    if UpdateItem(d, menu, id, parent).1 == Ok {
      if parent == Absent {
        assert d.items[id := d.items[id]] == d.items;
      } else {
        PutKeepsForest(d.items, id, Reparented(d.items[id], parent));
      }
    }
  }

  // ---------- removal ----------

  /** What is left is unchanged, and its parents are left too. */
  lemma {:induction false} CascadeCloses(items: map<int, Item>, gone: set<int>)
    requires gone <= items.Keys
    requires forall id :: id in items && items[id].parent.Some? && items[id].parent.value !in items ==> id in gone
    ensures var left := Cascade(items, gone);
            && left.Keys <= items.Keys - gone
            && (forall id :: id in left ==> left[id] == items[id])
            && (forall id :: id in left && left[id].parent.Some? ==> left[id].parent.value in left)
    decreases |items|
  {
    if gone != {} {
      FewerItems(items, gone);
      CascadeCloses(items - gone, ChildrenOf(items - gone, gone));
    }
  }

  /** What is removed was at or below x. */
  lemma {:induction false} CascadeRemovesBelow(all: map<int, Item>, items: map<int, Item>, gone: set<int>, x: int)
    requires gone <= items.Keys && 0 !in all
    requires forall id :: id in items ==> id in all && items[id] == all[id]
    requires forall id :: id in gone ==> HasAncestor(all, id, x)
    ensures forall id :: id in items && id !in Cascade(items, gone) ==> HasAncestor(all, id, x)
    decreases |items|
  {
    if gone != {} {
      var rest := items - gone;
      var next := ChildrenOf(rest, gone);
      forall id | id in next ensures HasAncestor(all, id, x) {
        var k: nat :| Reaches(all, all[id].parent.value, x, k);
        assert Reaches(all, id, x, k + 1);
      }
      FewerItems(items, gone);
      CascadeRemovesBelow(all, rest, next, x);
    }
  }

  lemma {:induction false} LeftIsNotBelow(items: map<int, Item>, left: map<int, Item>, cursor: int, x: int, n: nat)
    requires x !in left && (cursor == 0 || cursor in left)
    requires forall id :: id in left ==> id in items && left[id] == items[id]
    requires forall id :: id in left && left[id].parent.Some? ==> left[id].parent.value in left
    ensures !Reaches(items, cursor, x, n)
    decreases n
  {
    if n > 0 && cursor in left { LeftIsNotBelow(items, left, Up(items[cursor]), x, n - 1); }
  }

  /** Removing an item removes it and everything below it, and nothing else. */
  lemma RemovesSubtree(items: map<int, Item>, x: int)
    requires Forest(items) && x in items
    ensures Cascade(items, {x}) == map id | id in items && !HasAncestor(items, id, x) :: items[id]
  {
    var left := Cascade(items, {x});
    CascadeCloses(items, {x});
    assert Reaches(items, x, x, 0);
    CascadeRemovesBelow(items, items, {x}, x);
    forall id | id in left ensures !HasAncestor(items, id, x) {
      forall n: nat ensures !Reaches(items, id, x, n) { LeftIsNotBelow(items, left, id, x, n); }
    }
  }

  lemma {:induction false} LeftEnds(items: map<int, Item>, left: map<int, Item>, cursor: int, n: nat)
    requires EndsIn(items, cursor, n) && (cursor == 0 || cursor in left)
    requires forall id :: id in left ==> id in items && left[id] == items[id]
    requires forall id :: id in left && left[id].parent.Some? ==> left[id].parent.value in left
    ensures EndsIn(left, cursor, n)
    decreases n
  {
    if cursor != 0 { LeftEnds(items, left, Up(items[cursor]), n - 1); }
  }

  lemma RemoveKeepsForest(d: Db, menu: int, x: int)
    requires Valid(d)
    ensures Valid(RemoveItem(d, menu, x).0)
  {
    if InMenu(d, menu, x) {
      var left := Cascade(d.items, {x});
      CascadeCloses(d.items, {x});
      forall id | id in left ensures Rooted(left, id) {
        var n: nat :| EndsIn(d.items, id, n);
        LeftEnds(d.items, left, id, n);
      }
    }
  }

  /** Adding, re-parenting and removing in any order leave every item in one menu with its parent, and every
      chain of parents free of cycles. */
  lemma {:induction false} StaysForest(d: Db, es: seq<Event>)
    requires Valid(d)
    ensures Valid(Run(d, es))
    ensures forall id :: id in Run(d, es).items ==> !HasAncestor(Run(d, es).items, Up(Run(d, es).items[id]), id)
    decreases |es|
  {
    if es == [] {
      forall id | id in d.items ensures !HasAncestor(d.items, Up(d.items[id]), id) { NoCycles(d.items, id); }
    } else {
      match es[0] {
        case EAdd(menu, parent) => AddKeepsForest(d, menu, parent);
        case EUpdate(menu, id, parent) => UpdateKeepsForest(d, menu, id, parent);
        case ERemove(menu, id) => RemoveKeepsForest(d, menu, id);
      }
      StaysForest(Step(d, es[0]), es[1..]);
    }
  }

  // ---------- the service ----------

  class MenusDatabase {
    var menus: set<int>
    var items: map<int, Item>
    var nextId: nat

    ghost function Rows(): Db
      reads this
    {
      Db(menus, items, nextId)
    }

    constructor (menus: set<int>)
      ensures Rows() == Db(menus, map[], 1) && Valid(Rows())
    {
      this.menus, items, nextId := menus, map[], 1;
    }

    /** Walks up from the proposed parent; false where the service throws. */
    method CheckParent(menu: int, parent: int, self: Option<int>) returns (ok: bool)
      requires Valid(Rows())
      ensures ok <==> Clear(items, menu, parent, self)
    {
      var cursor := parent;
      ghost var n: nat := 0;
      if cursor in items { n :| EndsIn(items, cursor, n); }
      while cursor != 0
        invariant cursor in items ==> EndsIn(items, cursor, n)
        invariant Clear(items, menu, cursor, self) <==> Clear(items, menu, parent, self)
        decreases n
      {
        ClearUp(items, menu, cursor, self);
        if self == Some(cursor) { return false; }
        if cursor !in items || items[cursor].menu != menu { return false; }
        cursor := Up(items[cursor]);
        n := n - 1;
      }
      assert ClearIn(items, menu, 0, self, 0);
      ok := true;
    }

    method Add(menu: int, parent: Field) returns (reply: Reply)
      requires Valid(Rows())
      modifies `items, `nextId
      ensures Valid(Rows()) && (Rows(), reply) == AddItem(old(Rows()), menu, parent)
    {
      AddKeepsForest(Rows(), menu, parent);
      if menu !in menus { return NotFound; }
      var ok := CheckParent(menu, Start(parent), None);
      if !ok || parent == Given(0) { return BadRequest; }
      items := items[nextId := Item(menu, if parent.Given? then Some(parent.id) else None)];
      nextId := nextId + 1;
      reply := Ok;
    }

    method Update(menu: int, id: int, parent: Field) returns (reply: Reply)
      requires Valid(Rows())
      modifies `items
      ensures Valid(Rows()) && (Rows(), reply) == UpdateItem(old(Rows()), menu, id, parent)
    {
      UpdateKeepsForest(Rows(), menu, id, parent);
      if id !in items || items[id].menu != menu { return NotFound; }
      var ok := CheckParent(menu, Start(parent), Some(id));
      if !ok || parent == Given(0) { return BadRequest; }
      items := items[id := Reparented(items[id], parent)];
      reply := Ok;
    }

    method Remove(menu: int, id: int) returns (reply: Reply)
      requires Valid(Rows())
      modifies `items
      ensures Valid(Rows()) && (Rows(), reply) == RemoveItem(old(Rows()), menu, id)
      ensures reply == Ok ==> items == map i | i in old(items) && !HasAncestor(old(items), i, id) :: old(items)[i]
    {
      RemoveKeepsForest(Rows(), menu, id);
      if id !in items || items[id].menu != menu { return NotFound; }
      RemovesSubtree(items, id);
      items := Cascade(items, {id});
      reply := Ok;
    }
  }

  lemma ClearUp(items: map<int, Item>, menu: int, cursor: int, self: Option<int>)
    requires cursor != 0
    ensures Clear(items, menu, cursor, self) <==>
              && self != Some(cursor) && cursor in items && items[cursor].menu == menu
              && Clear(items, menu, Up(items[cursor]), self)
  {
    if Clear(items, menu, cursor, self) {
      var n: nat :| ClearIn(items, menu, cursor, self, n);
      assert ClearIn(items, menu, Up(items[cursor]), self, n - 1);
    } else if self != Some(cursor) && cursor in items && items[cursor].menu == menu
              && Clear(items, menu, Up(items[cursor]), self) {
      var n: nat :| ClearIn(items, menu, Up(items[cursor]), self, n);
      assert ClearIn(items, menu, cursor, self, n + 1);
    }
  }
}
