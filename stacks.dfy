/** Inventory stacks: the find / merge-or-append / subtract-and-drop steps that
    collectResource and craftItem perform on the player's inventory
    (src/hooks/useGameState.ts). */
module Stacks {
  import opened Types

  /** No two stacks share a kind. */
  predicate UniqueKinds(inv: seq<InventoryItem>)
  {
    forall i, j :: 0 <= i < j < |inv| ==> inv[i].kind != inv[j].kind
  }

  /** Every stack holds at least one unit. */
  predicate AllPositive(inv: seq<InventoryItem>)
  {
    forall i :: 0 <= i < |inv| ==> inv[i].amount >= 1
  }

  predicate WellFormed(inv: seq<InventoryItem>)
  {
    UniqueKinds(inv) && AllPositive(inv)
  }

  /** `inventory.find(i => i.type === kind)`: the first stack of that kind. */
  function FindStack(inv: seq<InventoryItem>, kind: string): (r: Option<InventoryItem>)
    ensures r.Some? <==> exists i :: 0 <= i < |inv| && inv[i].kind == kind
    ensures r.Some? ==> r.value in inv && r.value.kind == kind
  {
    if inv == [] then None
    else if inv[0].kind == kind then Some(inv[0])
    else FindStack(inv[1..], kind)
  }

  /** How many units of `kind` the inventory shows (0 when there is no stack). */
  function AmountOf(inv: seq<InventoryItem>, kind: string): int
  {
    match FindStack(inv, kind)
    case Some(item) => item.amount
    case None => 0
  }

  /** With unique kinds, the stack found for a kind is the one at its index. */
  lemma {:induction false} FindStackAt(inv: seq<InventoryItem>, i: int)
    requires UniqueKinds(inv) && 0 <= i < |inv|
    ensures FindStack(inv, inv[i].kind) == Some(inv[i])
    ensures AmountOf(inv, inv[i].kind) == inv[i].amount
  {
    if i > 0 {
      assert inv[0].kind != inv[i].kind;
      assert inv[1..][i - 1] == inv[i];
      FindStackAt(inv[1..], i - 1);
    }
  }

  /** The stack of a kind, when the kinds are unique, has a known amount; a
      kind without a stack shows 0. */
  lemma AmountOfAbsent(inv: seq<InventoryItem>, kind: string)
    requires forall i :: 0 <= i < |inv| ==> inv[i].kind != kind
    ensures AmountOf(inv, kind) == 0
  {
  }

  /** Merge `amount` units of `kind` into the existing stack(s) of that kind,
      or append a new stack when there is none. */
  function AddToStack(inv: seq<InventoryItem>, kind: string, amount: int, icon: Icon): (r: seq<InventoryItem>)
  {
    if FindStack(inv, kind).Some? then
      seq(|inv|, i requires 0 <= i < |inv| =>
        if inv[i].kind == kind then inv[i].(amount := inv[i].amount + amount) else inv[i])
    else
      inv + [InventoryItem(kind, amount, icon)]
  }

  /** Merge-or-append keeps kinds unique, adds exactly `amount` to `kind`,
      leaves every other kind as it was, and grows the inventory only when
      the kind was new. */
  lemma AddToStackSpec(inv: seq<InventoryItem>, kind: string, amount: int, icon: Icon)
    requires UniqueKinds(inv)
    ensures var r := AddToStack(inv, kind, amount, icon);
      && UniqueKinds(r)
      && (forall k :: AmountOf(r, k) == AmountOf(inv, k) + (if k == kind then amount else 0))
      && |r| == (if FindStack(inv, kind).Some? then |inv| else |inv| + 1)
      && (AllPositive(inv) && amount >= 1 ==> AllPositive(r))
  {
    var r := AddToStack(inv, kind, amount, icon);
    forall k ensures AmountOf(r, k) == AmountOf(inv, k) + (if k == kind then amount else 0) {
      if i :| 0 <= i < |inv| && inv[i].kind == k {
        FindStackAt(inv, i);
        assert r[i].kind == k;
        FindStackAt(r, i);
      } else if FindStack(inv, kind).Some? {
        assert forall j :: 0 <= j < |r| ==> r[j].kind == inv[j].kind;
        AmountOfAbsent(r, k);
      } else if k == kind {
        assert r[|inv|].kind == k;
        FindStackAt(r, |inv|);
      } else {
        AmountOfAbsent(r, k);
      }
    }
  }

  /** `requirements.find(r => r.type === kind)`: the first requirement of a kind. */
  function FindRequirement(reqs: seq<Requirement>, kind: string): (r: Option<Requirement>)
    ensures r.Some? <==> exists i :: 0 <= i < |reqs| && reqs[i].kind == kind
    ensures r.Some? ==> r.value in reqs && r.value.kind == kind
  {
    if reqs == [] then None
    else if reqs[0].kind == kind then Some(reqs[0])
    else FindRequirement(reqs[1..], kind)
  }

  /** The amount craftItem takes of `kind`: that of the first requirement
      naming it, 0 when none does. */
  function RequiredOf(reqs: seq<Requirement>, kind: string): int
  {
    match FindRequirement(reqs, kind)
    case Some(r) => r.amount
    case None => 0
  }

  /** The all-or-nothing test of craftItem: every requirement has a stack of
      its kind holding at least the required amount. */
  predicate HasResources(inv: seq<InventoryItem>, reqs: seq<Requirement>)
  {
    forall i :: 0 <= i < |reqs| ==>
      FindStack(inv, reqs[i].kind).Some? && FindStack(inv, reqs[i].kind).value.amount >= reqs[i].amount
  }

  /** Each requirement is matched by some stack of its kind with enough units. */
  predicate Covers(inv: seq<InventoryItem>, reqs: seq<Requirement>)
  {
    forall i :: 0 <= i < |reqs| ==> HasEnough(inv, reqs[i])
  }

  /** Some stack of the requirement's kind holds at least its amount. */
  predicate HasEnough(inv: seq<InventoryItem>, req: Requirement)
  {
    exists j :: 0 <= j < |inv| && inv[j].kind == req.kind && inv[j].amount >= req.amount
  }

  /** With unique kinds, the first-match test of craftItem means Covers. */
  lemma HasResourcesMeaning(inv: seq<InventoryItem>, reqs: seq<Requirement>)
    requires UniqueKinds(inv)
    ensures HasResources(inv, reqs) <==> Covers(inv, reqs)
  {
    if HasResources(inv, reqs) {
      forall i | 0 <= i < |reqs| ensures HasEnough(inv, reqs[i]) {
        assert FindStack(inv, reqs[i].kind).Some?;
        var j :| 0 <= j < |inv| && inv[j].kind == reqs[i].kind;
        FindStackAt(inv, j);
      }
    }
    if Covers(inv, reqs) {
      forall i | 0 <= i < |reqs|
        ensures FindStack(inv, reqs[i].kind).Some? && FindStack(inv, reqs[i].kind).value.amount >= reqs[i].amount
      {
        var j :| 0 <= j < |inv| && inv[j].kind == reqs[i].kind && inv[j].amount >= reqs[i].amount;
        FindStackAt(inv, j);
      }
    }
  }

  /** The map step of craftItem: subtract the first matching requirement from
      each stack. */
  function SubtractRequirements(inv: seq<InventoryItem>, reqs: seq<Requirement>): (r: seq<InventoryItem>)
    ensures |r| == |inv|
    ensures forall i :: 0 <= i < |inv| ==>
      r[i].kind == inv[i].kind && r[i].icon == inv[i].icon &&
      r[i].amount == inv[i].amount - RequiredOf(reqs, inv[i].kind)
  {
    seq(|inv|, i requires 0 <= i < |inv| =>
      match FindRequirement(reqs, inv[i].kind)
      case Some(req) => inv[i].(amount := inv[i].amount - req.amount)
      case None => inv[i])
  }

  /** The filter step of craftItem: drop stacks whose amount is not positive,
      keeping the others in order. */
  function DropEmpty(inv: seq<InventoryItem>): (r: seq<InventoryItem>)
    ensures AllPositive(r)
    ensures |r| <= |inv|
    ensures forall x :: x in r ==> x in inv
    ensures forall x :: x in inv && x.amount > 0 ==> x in r
  {
    if inv == [] then []
    else if inv[0].amount > 0 then [inv[0]] + DropEmpty(inv[1..])
    else DropEmpty(inv[1..])
  }

  lemma AmountOfCons(x: InventoryItem, t: seq<InventoryItem>, k: string)
    ensures AmountOf([x] + t, k) == if x.kind == k then x.amount else AmountOf(t, k)
  {
    assert ([x] + t)[1..] == t;
  }

  /** Dropping empty stacks keeps kinds unique. */
  lemma {:induction false} DropEmptyUnique(inv: seq<InventoryItem>)
    requires UniqueKinds(inv)
    ensures UniqueKinds(DropEmpty(inv))
  {
    if inv != [] {
      var tail := inv[1..];
      assert UniqueKinds(tail);
      DropEmptyUnique(tail);
      var dt := DropEmpty(tail);
      if inv[0].amount > 0 {
        var d := DropEmpty(inv);
        assert d == [inv[0]] + dt;
        forall x | x in dt ensures x.kind != inv[0].kind {
          var i :| 0 <= i < |tail| && tail[i] == x;
          assert tail[i] == inv[i + 1];
        }
        forall i, j | 0 <= i < j < |d| ensures d[i].kind != d[j].kind {
          assert d[j] == dt[j - 1];
          if i > 0 {
            assert d[i] == dt[i - 1];
          } else {
            assert dt[j - 1] in dt;
          }
        }
      }
    }
  }

  /** Dropping empty stacks shows every non-positive amount as 0 and every
      positive one unchanged. */
  lemma {:induction false} DropEmptyAmounts(inv: seq<InventoryItem>, k: string)
    requires UniqueKinds(inv)
    ensures AmountOf(DropEmpty(inv), k) == if AmountOf(inv, k) > 0 then AmountOf(inv, k) else 0
  {
    if inv != [] {
      var tail := inv[1..];
      assert UniqueKinds(tail);
      DropEmptyAmounts(tail, k);
      AmountOfCons(inv[0], tail, k);
      assert inv == [inv[0]] + tail;
      if inv[0].amount > 0 {
        AmountOfCons(inv[0], DropEmpty(tail), k);
      }
      if inv[0].kind == k {
        AmountOfAbsent(tail, k);
      }
    }
  }

  /** The inventory after a craft's consumption step: subtract, then drop
      exhausted stacks. */
  function Consume(inv: seq<InventoryItem>, reqs: seq<Requirement>): seq<InventoryItem>
  {
    DropEmpty(SubtractRequirements(inv, reqs))
  }

  /** When the all-or-nothing test passes, consumption takes exactly the
      required amount of every kind, keeps kinds unique and leaves no empty
      stack. */
  lemma ConsumeSpec(inv: seq<InventoryItem>, reqs: seq<Requirement>)
    requires WellFormed(inv) && HasResources(inv, reqs)
    ensures WellFormed(Consume(inv, reqs))
    ensures forall k :: AmountOf(Consume(inv, reqs), k) == AmountOf(inv, k) - RequiredOf(reqs, k)
  {
    var m := SubtractRequirements(inv, reqs);
    assert UniqueKinds(m);
    DropEmptyUnique(m);
    forall k ensures AmountOf(Consume(inv, reqs), k) == AmountOf(inv, k) - RequiredOf(reqs, k) {
      if i :| 0 <= i < |inv| && inv[i].kind == k {
        FindStackAt(inv, i);
        FindStackAt(m, i);
        var req := FindRequirement(reqs, k);
        if req.Some? {
          var n :| 0 <= n < |reqs| && reqs[n] == req.value;
          assert FindStack(inv, reqs[n].kind) == Some(inv[i]);
        }
      } else {
        AmountOfAbsent(inv, k);
        assert forall j :: 0 <= j < |m| ==> m[j].kind != k;
        AmountOfAbsent(m, k);
      }
      DropEmptyAmounts(m, k);
    }
  }
}
